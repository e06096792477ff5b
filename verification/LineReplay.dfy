/** Exactly when a payload of order lines can be applied twice: the repeated SKUs that do no harm, and
    those that do. A key's lines meet one row; the payload replays when every key's lines do. */
module LineReplay {
  import opened Common
  import opened OrderLines

  // ------------------------------------------------------- one key, one row

  function RowAt(lines: seq<Line>, sku: string): Option<Line> {
    var i := Find(lines, sku);
    if i < |lines| then Some(lines[i]) else None
  }

  /** The payload's lines filed under one SKU, among the first n. */
  function OfKey(raws: seq<RawLine>, n: nat, sku: string): (ls: seq<RawLine>)
    requires n <= |raws|
    ensures forall i :: 0 <= i < |ls| ==> Key(ls[i]) == Some(sku)
  {
    if n == 0 then []
    else OfKey(raws, n - 1, sku) + if Key(raws[n - 1]) == Some(sku) then [raws[n - 1]] else []
  }

  function StepRow(o: Option<Line>, raw: RawLine, sku: string): Option<Line> {
    if o.Some? then Some(UpdatedLine(o.value, raw))
    else if raw.product.Found? then Some(NewLine(raw, sku)) else None
  }

  function FoldRow(o: Option<Line>, ls: seq<RawLine>, sku: string): Option<Line> {
    if ls == [] then o else StepRow(FoldRow(o, ls[..|ls| - 1], sku), ls[|ls| - 1], sku)
  }

  /** The step neither needs a lookup that raises nor leaves a row the constraints refuse. */
  predicate StepOk(o: Option<Line>, raw: RawLine, sku: string) {
    && (o.None? ==> !raw.product.LookupRaises?)
    && (StepRow(o, raw, sku).Some? ==> Storable(StepRow(o, raw, sku).value))
  }

  ghost predicate FoldOk(o: Option<Line>, ls: seq<RawLine>, sku: string) {
    forall m :: 0 <= m < |ls| ==> StepOk(FoldRow(o, ls[..m], sku), ls[m], sku)
  }

  lemma FoldOkAppend(o: Option<Line>, ls: seq<RawLine>, raw: RawLine, sku: string)
    ensures FoldRow(o, ls + [raw], sku) == StepRow(FoldRow(o, ls, sku), raw, sku)
    ensures FoldOk(o, ls + [raw], sku) <==> FoldOk(o, ls, sku) && StepOk(FoldRow(o, ls, sku), raw, sku)
  {
    hide StepOk, StepRow;
    var more := ls + [raw];
    assert more[..|ls|] == ls;
    assert forall m :: 0 <= m < |ls| ==> more[..m] == ls[..m] && more[m] == ls[m];
    if FoldOk(o, more, sku) {
      forall m | 0 <= m < |ls| ensures StepOk(FoldRow(o, ls[..m], sku), ls[m], sku) {
        assert StepOk(FoldRow(o, more[..m], sku), more[m], sku);
      }
      assert StepOk(FoldRow(o, more[..|ls|], sku), more[|ls|], sku);
    }
  }

  /** One line moves its own key's row by StepRow, no other, and raises exactly when that is not ok. */
  lemma LineStepsItsRow(lines: seq<Line>, raw: RawLine)
    requires UniqueSkus(lines)
    ensures Key(raw).None? ==> (UpsertLine(lines, raw).Broken? <==> raw.product.LookupRaises?)
                               && !UpsertLine(lines, raw).Applied?
    ensures Key(raw).Some? ==>
              var sku := Key(raw).value;
              var o := RowAt(lines, sku);
              && (UpsertLine(lines, raw).Broken? <==> !StepOk(o, raw, sku))
              && (UpsertLine(lines, raw).Deferred? ==> StepRow(o, raw, sku) == o)
              && (UpsertLine(lines, raw).Applied? ==> RowAt(UpsertLine(lines, raw).lines, sku) == StepRow(o, raw, sku))
  {
    UniqueIsUnambiguous(lines);
    if Key(raw).Some? && UpsertLine(lines, raw).Applied? {
      var next := UpsertLine(lines, raw).lines;
      LineKeepsUnique(lines, raw);
      FindIsThe(next, Find(lines, Key(raw).value));
    }
  }

  lemma OtherRowsAt(lines: seq<Line>, raw: RawLine, sku: string)
    requires UniqueSkus(lines) && UpsertLine(lines, raw).Applied? && Key(raw) != Some(sku)
    ensures RowAt(UpsertLine(lines, raw).lines, sku) == RowAt(lines, sku)
  {
    var next := UpsertLine(lines, raw).lines;
    OtherRowsStay(lines, raw);
    LineKeepsUnique(lines, raw);
    hide UpsertLine, Find;
    var i, j := Find(lines, sku), Find(next, sku);
    if i < |lines| {
      assert next[i].sku == sku;
      FindIsThe(next, i);
    }
    assert i == |lines| ==> forall q :: 0 <= q < |next| ==> next[q].sku != sku;
  }

  /** The payload as its keys see it: each row is the fold of its own lines, and nothing raises exactly
      when no line without a key needs a raising lookup and every fold is ok. */
  ghost predicate AllOk(lines: seq<Line>, raws: seq<RawLine>, n: nat)
    requires n <= |raws|
  {
    && (forall i :: 0 <= i < n && Key(raws[i]).None? ==> !raws[i].product.LookupRaises?)
    && forall sku :: FoldOk(RowAt(lines, sku), OfKey(raws, n, sku), sku)
  }

  ghost predicate RowsFold(lines: seq<Line>, raws: seq<RawLine>, n: nat, after: seq<Line>)
    requires n <= |raws|
  {
    forall sku :: RowAt(after, sku) == FoldRow(RowAt(lines, sku), OfKey(raws, n, sku), sku)
  }

  lemma AllOkStep(lines: seq<Line>, raws: seq<RawLine>, n: nat, p: seq<Line>)
    requires n < |raws| && AllOk(lines, raws, n) && UniqueSkus(p) && RowsFold(lines, raws, n, p)
    ensures AllOk(lines, raws, n + 1) <==> !UpsertLine(p, raws[n]).Broken?
  {
    hide UpsertLine, FoldOk, StepOk, RowAt;
    var raw := raws[n];
    LineStepsItsRow(p, raw);
    if Key(raw).None? {
      forall sku ensures OfKey(raws, n + 1, sku) == OfKey(raws, n, sku) {
      }
    } else {
      var k := Key(raw).value;
      FoldOkAppend(RowAt(lines, k), OfKey(raws, n, k), raw, k);
      assert OfKey(raws, n + 1, k) == OfKey(raws, n, k) + [raw];
      assert RowAt(p, k) == FoldRow(RowAt(lines, k), OfKey(raws, n, k), k);
      forall sku | sku != k ensures OfKey(raws, n + 1, sku) == OfKey(raws, n, sku) {
      }
      if AllOk(lines, raws, n + 1) {
        assert FoldOk(RowAt(lines, k), OfKey(raws, n + 1, k), k);
      }
    }
  }

  lemma RowsFoldStep(lines: seq<Line>, raws: seq<RawLine>, n: nat, p: seq<Line>)
    requires n < |raws| && UniqueSkus(p) && RowsFold(lines, raws, n, p) && !UpsertLine(p, raws[n]).Broken?
    ensures RowsFold(lines, raws, n + 1, if UpsertLine(p, raws[n]).Applied? then UpsertLine(p, raws[n]).lines else p)
  {
    hide UpsertLine, StepOk, RowAt;
    var raw := raws[n];
    var next := if UpsertLine(p, raw).Applied? then UpsertLine(p, raw).lines else p;
    LineStepsItsRow(p, raw);
    forall sku ensures RowAt(next, sku) == FoldRow(RowAt(lines, sku), OfKey(raws, n + 1, sku), sku) {
      assert RowAt(p, sku) == FoldRow(RowAt(lines, sku), OfKey(raws, n, sku), sku);
      if Key(raw) == Some(sku) {
        FoldOkAppend(RowAt(lines, sku), OfKey(raws, n, sku), raw, sku);
      } else {
        assert OfKey(raws, n + 1, sku) == OfKey(raws, n, sku);
        if UpsertLine(p, raw).Applied? { OtherRowsAt(p, raw, sku); }
      }
    }
  }

  lemma {:induction false} PayloadByKeys(lines: seq<Line>, raws: seq<RawLine>, n: nat)
    requires UniqueSkus(lines) && n <= |raws|
    ensures UpsertLines(lines, raws, n).broken <==> !AllOk(lines, raws, n)
    ensures !UpsertLines(lines, raws, n).broken ==> RowsFold(lines, raws, n, UpsertLines(lines, raws, n).lines)
  {
    hide UpsertLine, UniqueSkus, RowsFold, AllOk;
    if n == 0 {
      assert AllOk(lines, raws, 0) && RowsFold(lines, raws, 0, lines) by { NothingYet(lines, raws); }
    } else {
      PayloadByKeys(lines, raws, n - 1);
      var p := UpsertLines(lines, raws, n - 1);
      if p.broken {
        if AllOk(lines, raws, n) { OkPrefix(lines, raws, n); }
      } else {
        LinesStayUnique(lines, raws, n - 1);
        AllOkStep(lines, raws, n - 1, p.lines);
        if !UpsertLine(p.lines, raws[n - 1]).Broken? { RowsFoldStep(lines, raws, n - 1, p.lines); }
      }
    }
  }

  lemma NothingYet(lines: seq<Line>, raws: seq<RawLine>)
    ensures AllOk(lines, raws, 0) && RowsFold(lines, raws, 0, lines)
  {
  }

  lemma OkPrefix(lines: seq<Line>, raws: seq<RawLine>, n: nat)
    requires 0 < n <= |raws| && AllOk(lines, raws, n)
    ensures AllOk(lines, raws, n - 1)
  {
    hide RowAt, StepOk;
    forall sku ensures FoldOk(RowAt(lines, sku), OfKey(raws, n - 1, sku), sku) {
      assert FoldOk(RowAt(lines, sku), OfKey(raws, n, sku), sku);
      if Key(raws[n - 1]) == Some(sku) {
        FoldOkAppend(RowAt(lines, sku), OfKey(raws, n - 1, sku), raws[n - 1], sku);
      } else {
        assert OfKey(raws, n, sku) == OfKey(raws, n - 1, sku);
      }
    }
  }

  // ------------------------------------------------------ a second application

  /** The key's second application leaves the row the first one left, and nothing raises on the way. */
  ghost predicate RowReplays(o: Option<Line>, ls: seq<RawLine>, sku: string) {
    var once := FoldRow(o, ls, sku);
    FoldRow(once, ls, sku) == once && FoldOk(once, ls, sku)
  }

  lemma {:induction false} PositionsStay(lines: seq<Line>, raws: seq<RawLine>, n: nat)
    requires UniqueSkus(lines) && n <= |raws|
    ensures var next := UpsertLines(lines, raws, n).lines;
            |lines| <= |next| && UniqueSkus(next) && forall i :: 0 <= i < |lines| ==> next[i].sku == lines[i].sku
  {
    hide UpsertLine;
    if n > 0 {
      PositionsStay(lines, raws, n - 1);
      LineKeepsPositions(UpsertLines(lines, raws, n - 1).lines, raws[n - 1]);
    }
  }

  lemma LineKeepsPositions(lines: seq<Line>, raw: RawLine)
    requires UniqueSkus(lines)
    ensures UpsertLine(lines, raw).Applied? ==>
              var next := UpsertLine(lines, raw).lines;
              |lines| <= |next| && UniqueSkus(next) && forall i :: 0 <= i < |lines| ==> next[i].sku == lines[i].sku
  {
  }

  lemma NoRowIsNew(lines: seq<Line>, next: seq<Line>, i: nat)
    requires UniqueSkus(next) && |lines| <= |next| && i < |next|
    requires forall j :: 0 <= j < |lines| ==> next[j].sku == lines[j].sku
    requires forall sku :: RowAt(next, sku) == RowAt(lines, sku)
    ensures i < |lines|
  {
    hide Find;
    FindIsThe(next, i);
    var sku := next[i].sku;
    assert RowAt(next, sku) == RowAt(lines, sku);
    assert next[Find(lines, sku)].sku == sku;
  }

  lemma SameRowsSameLines(lines: seq<Line>, next: seq<Line>)
    requires UniqueSkus(lines) && UniqueSkus(next) && |lines| <= |next|
    requires forall i :: 0 <= i < |lines| ==> next[i].sku == lines[i].sku
    requires forall sku :: RowAt(next, sku) == RowAt(lines, sku)
    ensures next == lines
  {
    hide Find;
    forall i | 0 <= i < |lines| ensures next[i] == lines[i] {
      FindIsThe(lines, i);
      FindIsThe(next, i);
      assert RowAt(next, lines[i].sku) == RowAt(lines, lines[i].sku);
    }
    if |next| > |lines| { NoRowIsNew(lines, next, |lines|); }
  }

  /** A payload replays exactly when every key's lines do. */
  lemma ReplaysByKeys(lines: seq<Line>, raws: seq<RawLine>)
    requires UniqueSkus(lines) && !UpsertLines(lines, raws, |raws|).broken
    ensures var once := UpsertLines(lines, raws, |raws|).lines;
            var twice := UpsertLines(once, raws, |raws|);
            (!twice.broken && twice.lines == once)
            <==> forall sku :: RowReplays(RowAt(lines, sku), OfKey(raws, |raws|, sku), sku)
  {
    hide UpsertLines, FoldOk, FoldRow, RowAt, UniqueSkus, OfKey;
    var n := |raws|;
    var once := UpsertLines(lines, raws, n).lines;
    var twice := UpsertLines(once, raws, n);
    PayloadByKeys(lines, raws, n);
    PositionsStay(lines, raws, n);
    PayloadByKeys(once, raws, n);
    PositionsStay(once, raws, n);
    if forall sku :: RowReplays(RowAt(lines, sku), OfKey(raws, n, sku), sku) {
      forall sku ensures FoldOk(RowAt(once, sku), OfKey(raws, n, sku), sku) {
        assert RowReplays(RowAt(lines, sku), OfKey(raws, n, sku), sku);
      }
      assert AllOk(once, raws, n);
      forall sku ensures RowAt(twice.lines, sku) == RowAt(once, sku) {
        assert RowReplays(RowAt(lines, sku), OfKey(raws, n, sku), sku);
      }
      SameRowsSameLines(once, twice.lines);
    }
  }

  // ----------------------------------------------------- the row in closed form

  /** The last quantity that is stated and not 0. */
  function LastQuantity(ls: seq<RawLine>): Option<int> {
    if ls == [] then None
    else
      var q := ls[|ls| - 1].quantidade;
      if q.Some? && q.value != 0 then q else LastQuantity(ls[..|ls| - 1])
  }

  function LastPrice(ls: seq<RawLine>): Option<int> {
    if ls == [] then None
    else if ls[|ls| - 1].valor.Some? then ls[|ls| - 1].valor else LastPrice(ls[..|ls| - 1])
  }

  /** The last line that states a total or a price, and so decides the row's total; |ls| if there is none. */
  function Decider(ls: seq<RawLine>): (i: nat)
    ensures i <= |ls|
    ensures i < |ls| ==> ls[i].total.Some? || ls[i].valor.Some?
    ensures forall j :: (if i < |ls| then i else -1) < j < |ls| ==> ls[j].total.None? && ls[j].valor.None?
  {
    if ls == [] then 0
    else
      var n := |ls| - 1;
      if ls[n].total.Some? || ls[n].valor.Some? then n
      else
        var i := Decider(ls[..n]);
        if i < n then i else n + 1
  }

  function Or(o: Option<int>, otherwise: int): int {
    if o.Some? then o.value else otherwise
  }

  /** The total the deciding line sets when the lines start from quantity q. */
  function DecidedTotal(ls: seq<RawLine>, q: int): int
    requires Decider(ls) < |ls|
  {
    var i := Decider(ls);
    if ls[i].total.Some? then ls[i].total.value
    else ls[i].valor.value * Or(LastQuantity(ls[..i + 1]), q) - ls[i].desconto
  }

  function TotalAfter(ls: seq<RawLine>, q: int, t: int): int {
    if Decider(ls) < |ls| then DecidedTotal(ls, q) else t
  }

  lemma DeciderTail(ls: seq<RawLine>)
    requires ls != []
    ensures var n := |ls| - 1;
            Decider(ls) == if ls[n].total.Some? || ls[n].valor.Some? then n
                           else if Decider(ls[..n]) < n then Decider(ls[..n]) else n + 1
  {
  }

  lemma DeciderStep(ls: seq<RawLine>, q: int, t: int)
    requires ls != []
    ensures var n := |ls| - 1;
            TotalAfter(ls, q, t) == if ls[n].total.Some? then ls[n].total.value
                                    else if ls[n].valor.Some? then ls[n].valor.value * Or(LastQuantity(ls), q) - ls[n].desconto
                                    else TotalAfter(ls[..n], q, t)
  {
    hide LastQuantity, Decider;
    var n := |ls| - 1;
    DeciderTail(ls);
    assert ls[..n + 1] == ls;
    if ls[n].total.None? && ls[n].valor.None? {
      var i := Decider(ls[..n]);
      if i < n {
        assert ls[..n][..i + 1] == ls[..i + 1] && ls[..n][i] == ls[i];
      }
    }
  }

  lemma {:induction false} RowInClosedForm(r: Line, ls: seq<RawLine>, sku: string)
    ensures FoldRow(Some(r), ls, sku)
         == Some(r.(quantity := Or(LastQuantity(ls), r.quantity), unitPrice := Or(LastPrice(ls), r.unitPrice),
                    total := TotalAfter(ls, r.quantity, r.total)))
  {
    if ls != [] {
      RowInClosedForm(r, ls[..|ls| - 1], sku);
      DeciderStep(ls, r.quantity, r.total);
      hide TotalAfter;
    }
  }

  // ---------------------------------------------------------- the exact condition

  /** How many lines come before the row exists and wait in vain for their product. */
  function Late(o: Option<Line>, ls: seq<RawLine>): (c: nat)
    ensures c <= |ls|
    ensures o.None? ==> forall i :: 0 <= i < c ==> !ls[i].product.Found?
    ensures o.None? && c < |ls| ==> ls[c].product.Found?
    ensures o.Some? ==> c == 0
  {
    if o.Some? || ls == [] || ls[0].product.Found? then 0 else 1 + Late(o, ls[1..])
  }

  /** The row the used lines start from: the one before, or one piece at no price. */
  function Seed(o: Option<Line>, used: seq<RawLine>, sku: string): Line
    requires o.Some? || (used != [] && used[0].product.Found?)
  {
    if o.Some? then o.value
    else NewLine(used[0], sku).(quantity := 1, unitPrice := 0, total := -used[0].desconto)
  }

  /** The total depends on where the quantity starts: the deciding line states a price other than 0 and no
      total, no line up to it states a quantity, and replaying starts from another quantity. */
  predicate Drifts(used: seq<RawLine>, first: int, second: int) {
    var i := Decider(used);
    i < |used| && used[i].total.None? && used[i].valor != Some(0) && LastQuantity(used[..i + 1]).None? && first != second
  }

  /** Lines that had no product the first time and find the row the second time change nothing that shows. */
  predicate LateQuiet(late: seq<RawLine>, used: seq<RawLine>)
    requires used != []
  {
    && (forall i :: 0 <= i < |late| ==>
          (late[i].quantidade.Some? ==> late[i].quantidade.value >= 0) && (late[i].valor.Some? ==> late[i].valor.value >= 0))
    && (LastQuantity(used).None? ==> LastQuantity(late) in {None, Some(1)})
    && (LastPrice(used).None? ==> LastPrice(late) in {None, Some(0)})
    && (Decider(used) == |used| && Decider(late) < |late| ==>
          Or(late[Decider(late)].total, -late[Decider(late)].desconto) == -used[0].desconto)
  }

  predicate KeyReplays(o: Option<Line>, ls: seq<RawLine>) {
    var late, used := ls[..Late(o, ls)], ls[Late(o, ls)..];
    used == []
    || (var first := if o.Some? then o.value.quantity else 1;
        (late != [] ==> LateQuiet(late, used))
        && !Drifts(used, first, Or(LastQuantity(late), Or(LastQuantity(used), first))))
  }

  /** An existing row is untouched by Late. */
  lemma {:induction false} LateLinesWait(ls: seq<RawLine>, m: nat, sku: string)
    requires m <= |ls| && forall i :: 0 <= i < m ==> !ls[i].product.Found?
    ensures FoldRow(None, ls[..m], sku) == None
  {
    if m > 0 {
      LateLinesWait(ls, m - 1, sku);
      assert ls[..m][..m - 1] == ls[..m - 1];
    }
  }

  lemma {:induction false} FoldAppend(o: Option<Line>, a: seq<RawLine>, b: seq<RawLine>, sku: string)
    ensures FoldRow(o, a + b, sku) == FoldRow(FoldRow(o, a, sku), b, sku)
  {
    if b == [] {
      assert a + b == a;
    } else {
      assert (a + b)[..|a + b| - 1] == a + b[..|b| - 1];
      FoldAppend(o, a, b[..|b| - 1], sku);
    }
  }

  lemma {:induction false} SeedStarts(used: seq<RawLine>, sku: string, m: nat)
    requires 0 < m <= |used| && used[0].product.Found?
    ensures FoldRow(None, used[..m], sku) == FoldRow(Some(Seed(None, used, sku)), used[..m], sku)
  {
    assert used[..m][..m - 1] == used[..m - 1];
    if m == 1 {
      assert used[..0] == [];
    } else {
      SeedStarts(used, sku, m - 1);
    }
  }

  /** The first application leaves what the used lines make of the seed. */
  lemma FirstPass(o: Option<Line>, ls: seq<RawLine>, sku: string)
    ensures var c := Late(o, ls);
            if o.None? && c == |ls| then FoldRow(o, ls, sku) == None
            else FoldRow(o, ls, sku) == FoldRow(Some(Seed(o, ls[c..], sku)), ls[c..], sku)
  {
    var c := Late(o, ls);
    assert ls == ls[..c] + ls[c..] && ls[..|ls|] == ls;
    if o.None? {
      LateLinesWait(ls, c, sku);
      if c < |ls| {
        FoldAppend(o, ls[..c], ls[c..], sku);
        SeedStarts(ls[c..], sku, |ls| - c);
        assert ls[c..][..|ls| - c] == ls[c..];
      }
    } else {
      assert ls[c..] == ls;
    }
  }

  // ------------------------------------------------------ the second application

  lemma {:induction false} LastOfAppend(a: seq<RawLine>, b: seq<RawLine>)
    ensures LastQuantity(a + b) == if LastQuantity(b).Some? then LastQuantity(b) else LastQuantity(a)
    ensures LastPrice(a + b) == if LastPrice(b).Some? then LastPrice(b) else LastPrice(a)
  {
    if b == [] {
      assert a + b == a;
    } else {
      assert (a + b)[..|a + b| - 1] == a + b[..|b| - 1];
      LastOfAppend(a, b[..|b| - 1]);
    }
  }

  lemma {:induction false} TotalOfAppend(a: seq<RawLine>, b: seq<RawLine>, q: int, t: int)
    ensures TotalAfter(a + b, q, t) == TotalAfter(b, Or(LastQuantity(a), q), TotalAfter(a, q, t))
  {
    if b == [] {
      assert a + b == a;
    } else {
      var n := |b| - 1;
      assert (a + b)[..|a + b| - 1] == a + b[..n] && (a + b)[|a + b| - 1] == b[n];
      TotalOfAppend(a, b[..n], q, t);
      LastOfAppend(a, b);
      hide TotalAfter, LastQuantity, LastPrice;
      DeciderStep(a + b, q, t);
      DeciderStep(b, Or(LastQuantity(a), q), TotalAfter(a, q, t));
    }
  }

  /** Where the price comes from when a deciding line states one. */
  lemma {:induction false} DecidersPrice(ls: seq<RawLine>)
    ensures Decider(ls) == |ls| ==> LastPrice(ls).None?
    ensures Decider(ls) < |ls| && ls[Decider(ls)].total.None? ==> LastPrice(ls) == ls[Decider(ls)].valor
  {
    if ls != [] {
      DecidersPrice(ls[..|ls| - 1]);
      DeciderTail(ls);
    }
  }

  /** Replaying the used lines from another quantity changes the total exactly when it drifts. */
  lemma DriftIsTheDifference(used: seq<RawLine>, first: int, second: int, t: int)
    ensures TotalAfter(used, second, TotalAfter(used, first, t)) == TotalAfter(used, first, t)
       <==> !Drifts(used, first, second)
  {
    hide LastQuantity, Decider;
    var i := Decider(used);
    if i < |used| && used[i].total.None? && LastQuantity(used[..i + 1]).None? {
      var v := used[i].valor.value;
      assert v * second - v * first == v * (second - first);
      assert v != 0 && second != first ==> v * (second - first) != 0;
    }
  }

  /** The second application in closed form: late lines first, then the used ones, from the row once left. */
  lemma SecondPass(r: Line, late: seq<RawLine>, used: seq<RawLine>, sku: string)
    ensures var once := FoldRow(Some(r), used, sku);
            var q1, u1 := Or(LastQuantity(used), r.quantity), Or(LastPrice(used), r.unitPrice);
            var t1 := TotalAfter(used, r.quantity, r.total);
            && once == Some(r.(quantity := q1, unitPrice := u1, total := t1))
            && (FoldRow(once, late + used, sku) == once <==>
                  && Or(LastQuantity(used), Or(LastQuantity(late), q1)) == q1
                  && Or(LastPrice(used), Or(LastPrice(late), u1)) == u1
                  && TotalAfter(used, Or(LastQuantity(late), q1), TotalAfter(late, q1, t1)) == t1)
  {
    hide LastQuantity, LastPrice, TotalAfter, FoldRow;
    RowInClosedForm(r, used, sku);
    var once := FoldRow(Some(r), used, sku).value;
    RowInClosedForm(once, late + used, sku);
    LastOfAppend(late, used);
    TotalOfAppend(late, used, once.quantity, once.total);
  }

  /** Nothing the line states is refused by the constraints; a quantity of 0 counts as not stated. */
  predicate Positive(raw: RawLine) {
    (raw.quantidade.Some? ==> raw.quantidade.value >= 0) && (raw.valor.Some? ==> raw.valor.value >= 0)
  }

  lemma StatedPositive(o: Option<Line>, ls: seq<RawLine>, m: nat, sku: string)
    requires FoldOk(o, ls, sku) && m < |ls| && FoldRow(o, ls[..m + 1], sku).Some?
    ensures Positive(ls[m]) && Storable(FoldRow(o, ls[..m + 1], sku).value)
  {
    assert ls[..m + 1][..m] == ls[..m];
    assert StepOk(FoldRow(o, ls[..m], sku), ls[m], sku);
  }

  lemma {:induction false} FoldOkIffPositive(r: Line, ls: seq<RawLine>, sku: string)
    requires Storable(r)
    ensures FoldOk(Some(r), ls, sku) <==> forall i :: 0 <= i < |ls| ==> Positive(ls[i])
    ensures FoldRow(Some(r), ls, sku).Some?
    ensures FoldOk(Some(r), ls, sku) ==> Storable(FoldRow(Some(r), ls, sku).value)
  {
    if ls != [] {
      var n := |ls| - 1;
      FoldOkIffPositive(r, ls[..n], sku);
      FoldOkAppend(Some(r), ls[..n], ls[n], sku);
      assert ls[..n] + [ls[n]] == ls;
      hide FoldRow, FoldOk;
      assert forall i :: 0 <= i < n ==> ls[..n][i] == ls[i];
    }
  }

  /** Once a line was applied, the row stays. */
  lemma {:induction false} RowStays(o: Option<Line>, ls: seq<RawLine>, m: nat, sku: string)
    requires m <= |ls| && FoldRow(o, ls[..m], sku).Some?
    ensures FoldRow(o, ls, sku).Some?
  {
    if m < |ls| {
      var n := |ls| - 1;
      assert ls[..n][..m] == ls[..m];
      RowStays(o, ls[..n], m, sku);
    } else {
      assert ls[..m] == ls;
    }
  }

  lemma FirstUsedStands(o: Option<Line>, ls: seq<RawLine>, sku: string)
    requires Late(o, ls) < |ls|
    ensures FoldRow(o, ls[..Late(o, ls) + 1], sku).Some?
  {
    var c := Late(o, ls);
    assert ls[..c + 1][..c] == ls[..c];
    hide Late;
    assert FoldRow(o, ls[..c + 1], sku) == StepRow(FoldRow(o, ls[..c], sku), ls[c], sku);
    if o.Some? {
      assert ls[..0] == [];
    }
  }

  /** After the first application the used lines state nothing refusable, and the row is storable. */
  lemma UsedArePositive(o: Option<Line>, ls: seq<RawLine>, sku: string)
    requires FoldOk(o, ls, sku) && Late(o, ls) < |ls|
    ensures forall i :: Late(o, ls) <= i < |ls| ==> Positive(ls[i])
    ensures FoldRow(o, ls, sku).Some? && Storable(FoldRow(o, ls, sku).value)
  {
    hide FoldRow, FoldOk, Late, Storable, Positive;
    var c := Late(o, ls);
    FirstUsedStands(o, ls, sku);
    forall i | c <= i < |ls| ensures Positive(ls[i]) && FoldRow(o, ls[..i + 1], sku).Some? {
      assert ls[..i + 1][..c + 1] == ls[..c + 1];
      RowStays(o, ls[..i + 1], c + 1, sku);
      StatedPositive(o, ls, i, sku);
    }
    var m := |ls| - 1;
    assert ls[..m + 1] == ls;
    RowStays(o, ls, c + 1, sku);
    StatedPositive(o, ls, m, sku);
  }

  /** The three components of the row replay exactly on the explicit conditions. */
  lemma ComponentsReplay(r: Line, late: seq<RawLine>, used: seq<RawLine>)
    requires used != []
    requires late != [] ==> r.quantity == 1 && r.unitPrice == 0 && r.total == -used[0].desconto
    requires forall i :: 0 <= i < |late| ==> Positive(late[i])
    ensures var q1, u1 := Or(LastQuantity(used), r.quantity), Or(LastPrice(used), r.unitPrice);
            var t1 := TotalAfter(used, r.quantity, r.total);
            (&& Or(LastQuantity(used), Or(LastQuantity(late), q1)) == q1
             && Or(LastPrice(used), Or(LastPrice(late), u1)) == u1
             && TotalAfter(used, Or(LastQuantity(late), q1), TotalAfter(late, q1, t1)) == t1)
            <==> (late != [] ==> LateQuiet(late, used)) && !Drifts(used, r.quantity, Or(LastQuantity(late), q1))
  {
    var q1, t1 := Or(LastQuantity(used), r.quantity), TotalAfter(used, r.quantity, r.total);
    DecidersPrice(used);
    DecidersPrice(late);
    DriftIsTheDifference(used, r.quantity, Or(LastQuantity(late), q1), r.total);
    if late == [] {
      assert LastQuantity(late).None? && LastPrice(late).None? && TotalAfter(late, q1, t1) == t1;
    } else if Decider(used) == |used| {
      assert t1 == -used[0].desconto;
      if Decider(late) < |late| && LastPrice(late) in {None, Some(0)} {
        var raw := late[Decider(late)];
        assert raw.total.None? ==> raw.valor == Some(0);
        assert TotalAfter(late, q1, t1) == Or(raw.total, -raw.desconto);
      }
    }
  }

  lemma QuietIsPositive(late: seq<RawLine>, used: seq<RawLine>)
    requires used != [] && (late != [] ==> LateQuiet(late, used))
    ensures forall i :: 0 <= i < |late| ==> Positive(late[i])
  {
  }

  lemma SeedOfLate(o: Option<Line>, ls: seq<RawLine>, sku: string)
    requires Late(o, ls) < |ls|
    ensures var r := Seed(o, ls[Late(o, ls)..], sku);
            && r.quantity == (if o.Some? then o.value.quantity else 1)
            && (ls[..Late(o, ls)] != [] ==> r.unitPrice == 0 && r.total == -ls[Late(o, ls)].desconto && r.quantity == 1)
  {
  }

  /** With the row there, the key replays exactly when its components do and its late lines are positive. */
  lemma UsedRowReplaysIff(o: Option<Line>, ls: seq<RawLine>, sku: string)
    requires FoldOk(o, ls, sku) && Late(o, ls) < |ls|
    ensures var late, used := ls[..Late(o, ls)], ls[Late(o, ls)..];
            var once := FoldRow(Some(Seed(o, used, sku)), used, sku);
            RowReplays(o, ls, sku) <==> FoldRow(once, late + used, sku) == once
                                        && forall i :: 0 <= i < |late| ==> Positive(late[i])
  {
    hide FoldRow, FoldOk, Late, Positive, Storable, Seed;
    var c := Late(o, ls);
    var late, used := ls[..c], ls[c..];
    FirstPass(o, ls, sku);
    UsedArePositive(o, ls, sku);
    FoldOkIffPositive(FoldRow(o, ls, sku).value, ls, sku);
    assert ls == late + used;
    assert forall i :: 0 <= i < c ==> late[i] == ls[i];
    if forall i :: 0 <= i < |late| ==> Positive(late[i]) {
      forall i | 0 <= i < |ls| ensures Positive(ls[i]) {
        if i < c { assert Positive(late[i]); }
      }
    }
  }

  /** One key's lines replay exactly on the explicit condition. */
  lemma KeyReplaysIff(o: Option<Line>, ls: seq<RawLine>, sku: string)
    requires FoldOk(o, ls, sku)
    ensures RowReplays(o, ls, sku) <==> KeyReplays(o, ls)
  {
    var c := Late(o, ls);
    var late, used := ls[..c], ls[c..];
    if used == [] {
      FirstPass(o, ls, sku);
      if o.Some? { assert ls == []; }
    } else {
      hide FoldRow, FoldOk, RowReplays, Late, LateQuiet, Drifts, LastQuantity, LastPrice, Decider, TotalAfter, Positive, Seed;
      UsedRowReplaysIff(o, ls, sku);
      SeedOfLate(o, ls, sku);
      var r := Seed(o, used, sku);
      SecondPass(r, late, used, sku);
      assert used[0] == ls[c];
      if forall i :: 0 <= i < |late| ==> Positive(late[i]) {
        ComponentsReplay(r, late, used);
      } else if late != [] ==> LateQuiet(late, used) {
        QuietIsPositive(late, used);
      }
    }
  }

  /** For every order and every payload that applies: applying it again leaves the same lines, quantities
      and totals exactly when each key replays. A caller can check that on the payload and the rows the
      order had: no total may hang on a quantity that only a later line states, and a line whose product
      turned up in a later line may state nothing that shows. */
  lemma ReplayIff(lines: seq<Line>, raws: seq<RawLine>)
    requires UniqueSkus(lines) && !UpsertLines(lines, raws, |raws|).broken
    ensures var once := UpsertLines(lines, raws, |raws|).lines;
            var twice := UpsertLines(once, raws, |raws|);
            (!twice.broken && twice.lines == once)
            <==> forall sku :: KeyReplays(RowAt(lines, sku), OfKey(raws, |raws|, sku))
  {
    hide UpsertLines, FoldOk, KeyReplays, RowReplays, RowAt, OfKey, UniqueSkus;
    ReplaysByKeys(lines, raws);
    PayloadByKeys(lines, raws, |raws|);
    forall sku
      ensures RowReplays(RowAt(lines, sku), OfKey(raws, |raws|, sku), sku)
         <==> KeyReplays(RowAt(lines, sku), OfKey(raws, |raws|, sku))
    {
      assert FoldOk(RowAt(lines, sku), OfKey(raws, |raws|, sku), sku);
      KeyReplaysIff(RowAt(lines, sku), OfKey(raws, |raws|, sku), sku);
    }
  }

  /** Where every product is found at once, only drifting totals stand in the way: a repeated SKU is
      harmless unless the last price without a total comes before any quantity and the quantity moves. */
  lemma KnownProductsReplayIff(lines: seq<Line>, raws: seq<RawLine>)
    requires UniqueSkus(lines) && !UpsertLines(lines, raws, |raws|).broken
    requires forall i :: 0 <= i < |raws| ==> raws[i].product.Found?
    ensures var once := UpsertLines(lines, raws, |raws|).lines;
            var twice := UpsertLines(once, raws, |raws|);
            (!twice.broken && twice.lines == once)
            <==> forall sku ::
                   var o, ls := RowAt(lines, sku), OfKey(raws, |raws|, sku);
                   var first := if o.Some? then o.value.quantity else 1;
                   !Drifts(ls, first, Or(LastQuantity(ls), first))
  {
    hide UpsertLines, UniqueSkus, RowAt, Drifts;
    ReplayIff(lines, raws);
    forall sku
      ensures var o, ls := RowAt(lines, sku), OfKey(raws, |raws|, sku);
              var first := if o.Some? then o.value.quantity else 1;
              KeyReplays(o, ls) <==> !Drifts(ls, first, Or(LastQuantity(ls), first))
    {
      var ls := OfKey(raws, |raws|, sku);
      AllFound(raws, |raws|, sku);
      assert ls[..0] == [] && ls[0..] == ls;
      if ls == [] { NothingDrifts(1); }
    }
  }

  lemma {:induction false} AllFound(raws: seq<RawLine>, n: nat, sku: string)
    requires n <= |raws| && forall i :: 0 <= i < n ==> raws[i].product.Found?
    ensures forall i :: 0 <= i < |OfKey(raws, n, sku)| ==> OfKey(raws, n, sku)[i].product.Found?
  {
    if n > 0 {
      AllFound(raws, n - 1, sku);
    }
  }

  lemma NothingDrifts(first: int)
    ensures forall a, b :: !Drifts([], a, b)
  {
  }

  /** So a repeated SKU is not replayable in general: one line states a price, a later one a quantity. */
  lemma RepeatedSkuIsNotReplayable(a: RawLine, b: RawLine)
    requires a.codigo == b.codigo != "" && a.product.Found? && b.product.Found?
    requires a.quantidade.None? && a.total.None? && a.valor.Some? && a.valor.value > 0
    requires b.quantidade.Some? && b.quantidade.value > 1 && b.total.None? && b.valor.None?
    ensures var once := UpsertLines([], [a, b], 2);
            !once.broken && UpsertLines(once.lines, [a, b], 2).lines != once.lines
  {
    var raws := [a, b];
    TwoLinesApply(a, b);
    var once := UpsertLines([], raws, 2);
    var twice := UpsertLines(once.lines, raws, 2);
    SecondIsSound(a, b);
    KnownProductsReplayIff([], raws);
    var sku := a.codigo;
    assert OfKey(raws, 0, sku) == [] && OfKey(raws, 1, sku) == [a] && OfKey(raws, 2, sku) == raws;
    hide UpsertLines;
    assert raws[..1] == [a] && raws[..0] == [];
    DeciderTail([a]);
    DeciderTail(raws);
    assert LastQuantity(raws) == b.quantidade && LastQuantity([a]).None? && Decider([a]) == 0 && Decider(raws) == 0;
    assert Drifts(raws, 1, b.quantidade.value);
  }

  lemma TwoLinesApply(a: RawLine, b: RawLine)
    requires a.codigo == b.codigo != "" && a.product.Found? && b.product.Found?
    requires a.quantidade.None? && a.total.None? && a.valor.Some? && a.valor.value > 0
    requires b.quantidade.Some? && b.quantidade.value > 1 && b.total.None? && b.valor.None?
    ensures UpsertLines([], [a, b], 2) == Progress([UpdatedLine(NewLine(a, a.codigo), b)], 0, false)
  {
    var raws, first := [a, b], NewLine(a, a.codigo);
    assert UpsertLines([], raws, 0) == Progress([], 0, false);
    assert UpsertLines([], raws, 1) == Progress([first], 0, false);
    assert [first][0 := UpdatedLine(first, b)] == [UpdatedLine(first, b)];
  }

  /** The second application does not raise either: what it states is positive. */
  lemma SecondIsSound(a: RawLine, b: RawLine)
    requires a.codigo == b.codigo != "" && a.product.Found? && b.product.Found?
    requires a.quantidade.None? && a.total.None? && a.valor.Some? && a.valor.value > 0
    requires b.quantidade.Some? && b.quantidade.value > 1 && b.total.None? && b.valor.None?
    ensures !UpsertLines([UpdatedLine(NewLine(a, a.codigo), b)], [a, b], 2).broken
  {
    var raws, row := [a, b], UpdatedLine(NewLine(a, a.codigo), b);
    assert UpsertLines([row], raws, 0) == Progress([row], 0, false);
    var next := UpdatedLine(row, a);
    assert [row][0 := next] == [next];
    assert UpsertLines([row], raws, 1) == Progress([next], 0, false);
  }
}

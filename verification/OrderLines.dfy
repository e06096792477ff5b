/** Order lines: the per-line upsert inside one order. No database constraint keeps (order, sku)
    unique; the find-then-insert does. Money is in integer cents. */
module OrderLines {
  import opened Common

  /** What product lookup answers for a line: by SKU, by Bling id, then by fetching the detail. */
  datatype Lookup = Found(id: string, sku: string, name: string) | Unknown | LookupRaises

  datatype RawLine = RawLine(
    codigo: string, product: Lookup, descricao: string, quantidade: Option<int>, valor: Option<int>,
    total: Option<int>, desconto: int)

  datatype Line = Line(sku: string, productId: string, name: string, quantity: int, unitPrice: int, total: int)

  datatype Effect = Applied(lines: seq<Line>) | Deferred | Broken

  /** Index of the first line with this SKU, or the length. */
  function Find(lines: seq<Line>, sku: string): (i: nat)
    ensures i <= |lines|
    ensures i < |lines| ==> lines[i].sku == sku
    ensures forall j :: 0 <= j < i ==> lines[j].sku != sku
  {
    if lines == [] then 0 else if lines[0].sku == sku then 0 else 1 + Find(lines[1..], sku)
  }

  /** The query that finds a line raises when two rows match. */
  predicate Ambiguous(lines: seq<Line>, sku: string) {
    exists i, j :: 0 <= i < j < |lines| && lines[i].sku == sku && lines[j].sku == sku
  }

  /** Python's `int(q or fallback)`: 0 counts as missing. */
  function QuantityOr(q: Option<int>, fallback: int): int {
    if q.Some? && q.value != 0 then q.value else fallback
  }

  function NewLine(raw: RawLine, sku: string): Line
    requires raw.product.Found?
  {
    var unit := if raw.valor.Some? then raw.valor.value else 0;
    var quantity := QuantityOr(raw.quantidade, 1);
    Line(sku, raw.product.id, if raw.descricao != "" then raw.descricao else raw.product.name,
         quantity, unit, if raw.total.Some? then raw.total.value else unit * quantity - raw.desconto)
  }

  function UpdatedLine(line: Line, raw: RawLine): Line {
    var quantity := QuantityOr(raw.quantidade, line.quantity);
    var unit := if raw.valor.Some? then raw.valor.value else line.unitPrice;
    var total := if raw.total.Some? then raw.total.value
                 else if raw.valor.Some? then unit * quantity - raw.desconto
                 else line.total;
    line.(quantity := quantity, unitPrice := unit, total := total)
  }

  /** The check constraints on order_items. */
  predicate Storable(line: Line) {
    line.quantity > 0 && line.unitPrice >= 0
  }

  function Put(lines: seq<Line>, i: nat, line: Line): Effect
    requires i <= |lines|
  {
    if !Storable(line) then Broken
    else if i < |lines| then Applied(lines[i := line]) else Applied(lines + [line])
  }

  function UpsertLine(lines: seq<Line>, raw: RawLine): Effect {
    if raw.codigo != "" && Ambiguous(lines, raw.codigo) then Broken
    else if raw.codigo != "" && Find(lines, raw.codigo) < |lines| then
      var i := Find(lines, raw.codigo);
      Put(lines, i, UpdatedLine(lines[i], raw))
    else if raw.product.LookupRaises? then Broken
    else if raw.product.Unknown? then Deferred
    else
      var sku := if raw.codigo != "" then raw.codigo else raw.product.sku;
      if Ambiguous(lines, sku) then Broken
      else
        var i := Find(lines, sku);
        Put(lines, i, if i < |lines| then UpdatedLine(lines[i], raw) else NewLine(raw, sku))
  }

  /** Lines, deferred errors and whether an exception escaped, after the first n raw lines. */
  datatype Progress = Progress(lines: seq<Line>, deferred: nat, broken: bool)

  function UpsertLines(lines: seq<Line>, raws: seq<RawLine>, n: nat): Progress
    requires n <= |raws|
  {
    if n == 0 then Progress(lines, 0, false)
    else
      var p := UpsertLines(lines, raws, n - 1);
      if p.broken then p
      else match UpsertLine(p.lines, raws[n - 1])
        case Applied(next) => p.(lines := next)
        case Deferred => p.(deferred := p.deferred + 1)
        case Broken => p.(broken := true)
  }

  /** The live order whose lines the session appends to and updates in place. */
  class Order {
    var lines: seq<Line>

    constructor (lines: seq<Line>)
      ensures this.lines == lines
    {
      this.lines := lines;
    }

    /** Ok, deferred or raised, as UpsertLine says. */
    method UpsertOrderItem(raw: RawLine) returns (e: Effect)
      modifies this
      ensures e == UpsertLine(old(lines), raw)
      ensures lines == if e.Applied? then e.lines else old(lines)
    {
      var sku := raw.codigo;
      if sku != "" {
        if Ambiguous(lines, sku) { return Broken; }
        var i := Find(lines, sku);
        if i < |lines| {
          e := Flush(i, UpdatedLine(lines[i], raw));
          return;
        }
      }
      if raw.product.LookupRaises? { return Broken; }
      if raw.product.Unknown? { return Deferred; }
      if sku == "" { sku := raw.product.sku; }
      if Ambiguous(lines, sku) { return Broken; }
      var i := Find(lines, sku);
      if i < |lines| {
        e := Flush(i, UpdatedLine(lines[i], raw));
      } else {
        e := Flush(i, NewLine(raw, sku));
      }
    }

    method Flush(i: nat, line: Line) returns (e: Effect)
      requires i <= |lines|
      modifies this
      ensures e == Put(old(lines), i, line)
      ensures lines == if e.Applied? then e.lines else old(lines)
    {
      if !Storable(line) { return Broken; }
      if i < |lines| { lines := lines[i := line]; } else { lines := lines + [line]; }
      e := Applied(lines);
    }

    /** The savepoint around one order: an escaping exception puts the old lines back. */
    method UpsertOrderItems(raws: seq<RawLine>) returns (deferred: nat, raised: bool)
      modifies this
      ensures var p := UpsertLines(old(lines), raws, |raws|);
              && raised == p.broken && deferred == p.deferred
              && lines == if raised then old(lines) else p.lines
    {
      hide UpsertLine;
      var savepoint := lines;
      deferred, raised := 0, false;
      var i := 0;
      while i < |raws| && !raised
        invariant 0 <= i <= |raws|
        invariant UpsertLines(savepoint, raws, i) == Progress(lines, deferred, raised)
        decreases |raws| - i
      {
        var e := UpsertOrderItem(raws[i]);
        match e {
          case Applied(_) =>
          case Deferred => deferred := deferred + 1;
          case Broken => raised := true;
        }
        i := i + 1;
      }
      BrokenStays(savepoint, raws, i, |raws|);
      if raised { lines := savepoint; }
    }
  }

  lemma {:induction false} BrokenStays(lines: seq<Line>, raws: seq<RawLine>, m: nat, n: nat)
    requires m <= n <= |raws| && (m == n || UpsertLines(lines, raws, m).broken)
    ensures UpsertLines(lines, raws, n) == UpsertLines(lines, raws, m)
  {
    if m < n {
      BrokenStays(lines, raws, m, n - 1);
    }
  }

  // ------------------------------------------------------------- uniqueness

  ghost predicate UniqueSkus(lines: seq<Line>) {
    forall i, j :: 0 <= i < j < |lines| ==> lines[i].sku != lines[j].sku
  }

  lemma LineKeepsUnique(lines: seq<Line>, raw: RawLine)
    requires UniqueSkus(lines)
    ensures UpsertLine(lines, raw).Applied? ==> UniqueSkus(UpsertLine(lines, raw).lines)
                                                && |lines| <= |UpsertLine(lines, raw).lines|
  {
  }

  /** At most one line per SKU after any payload, and no line is ever lost. */
  lemma {:induction false} LinesStayUnique(lines: seq<Line>, raws: seq<RawLine>, n: nat)
    requires UniqueSkus(lines) && n <= |raws|
    ensures var p := UpsertLines(lines, raws, n);
            UniqueSkus(p.lines) && |lines| <= |p.lines|
  {
    if n > 0 {
      LinesStayUnique(lines, raws, n - 1);
      LineKeepsUnique(UpsertLines(lines, raws, n - 1).lines, raws[n - 1]);
    }
  }

  // ------------------------------------------------------------ idempotence

  /** The SKU a raw line is filed under, if it can be filed at all. */
  function Key(raw: RawLine): Option<string> {
    if raw.codigo != "" then Some(raw.codigo)
    else if raw.product.Found? then Some(raw.product.sku) else None
  }

  ghost predicate DistinctKeys(raws: seq<RawLine>) {
    forall i, j :: 0 <= i < j < |raws| && Key(raws[i]).Some? ==> Key(raws[i]) != Key(raws[j])
  }

  /** The raw line has nothing left to change: its row already says what it says, or it has no product. */
  predicate Settled(lines: seq<Line>, raw: RawLine) {
    match Key(raw)
    case None => raw.product.Unknown?
    case Some(sku) =>
      var i := Find(lines, sku);
      if i < |lines| then Storable(lines[i]) && UpdatedLine(lines[i], raw) == lines[i]
      else raw.product.Unknown?
  }

  lemma UniqueIsUnambiguous(lines: seq<Line>)
    requires UniqueSkus(lines)
    ensures forall sku :: !Ambiguous(lines, sku)
  {
  }

  lemma SettledChangesNothing(lines: seq<Line>, raw: RawLine)
    requires UniqueSkus(lines) && Settled(lines, raw)
    ensures UpsertLine(lines, raw) == Applied(lines) || UpsertLine(lines, raw) == Deferred
  {
    UniqueIsUnambiguous(lines);
    if Key(raw).Some? {
      var i := Find(lines, Key(raw).value);
      if i < |lines| {
        assert lines[i := lines[i]] == lines;
      }
    }
  }

  lemma FindIsThe(lines: seq<Line>, i: nat)
    requires UniqueSkus(lines) && i < |lines|
    ensures Find(lines, lines[i].sku) == i
  {
  }

  lemma AppliedSettles(lines: seq<Line>, raw: RawLine)
    requires UniqueSkus(lines) && !UpsertLine(lines, raw).Broken?
    ensures UpsertLine(lines, raw).Applied? ==> Settled(UpsertLine(lines, raw).lines, raw)
    ensures UpsertLine(lines, raw).Deferred? ==> Settled(lines, raw)
  {
    if UpsertLine(lines, raw).Applied? {
      var next := UpsertLine(lines, raw).lines;
      LineKeepsUnique(lines, raw);
      var i := Find(lines, Key(raw).value);
      FindIsThe(next, i);
    }
  }

  lemma OtherKeyKeepsSettled(lines: seq<Line>, raw: RawLine, other: RawLine)
    requires UniqueSkus(lines) && Settled(lines, raw) && UpsertLine(lines, other).Applied?
    requires Key(raw).Some? ==> Key(raw) != Key(other)
    ensures Settled(UpsertLine(lines, other).lines, raw)
  {
    var next := UpsertLine(lines, other).lines;
    if Key(raw).Some? {
      var i := Find(lines, Key(raw).value);
      OtherRowsStay(lines, other);
      LineKeepsUnique(lines, other);
      if i < |lines| {
        FindIsThe(next, i);
      } else {
        assert Find(next, Key(raw).value) == |next|;
      }
    }
  }

  /** A line only touches the row filed under its own SKU. */
  lemma OtherRowsStay(lines: seq<Line>, raw: RawLine)
    requires UpsertLine(lines, raw).Applied?
    ensures var next := UpsertLine(lines, raw).lines;
            && Key(raw).Some? && |lines| <= |next|
            && (forall j :: 0 <= j < |lines| && lines[j].sku != Key(raw).value ==> next[j] == lines[j])
            && (forall j :: 0 <= j < |next| && next[j].sku != Key(raw).value ==> j < |lines| && lines[j] == next[j])
  {
  }

  /** The one row a line touches: what the payload states is taken over, what it leaves out is kept from
      the row or, for a new row, filled in; a total that is not stated follows from price and quantity. */
  lemma AppliedLineMeans(lines: seq<Line>, raw: RawLine)
    requires UniqueSkus(lines) && UpsertLine(lines, raw).Applied?
    ensures raw.codigo != "" ==> Key(raw) == Some(raw.codigo)
    ensures raw.codigo == "" ==> raw.product.Found? && Key(raw) == Some(raw.product.sku)
    ensures var next := UpsertLine(lines, raw).lines;
            && Key(raw).Some?
            && var was, i := Find(lines, Key(raw).value), Find(next, Key(raw).value);
               var known := was < |lines|;
               && i < |next| && |next| == |lines| + (if known then 0 else 1) && next[i].quantity > 0
               && (raw.quantidade.Some? && raw.quantidade.value != 0 ==> next[i].quantity == raw.quantidade.value)
               && (raw.valor.Some? ==> next[i].unitPrice == raw.valor.value)
               && (raw.total.Some? ==> next[i].total == raw.total.value)
               && (raw.total.None? && (raw.valor.Some? || !known) ==>
                     next[i].total == next[i].unitPrice * next[i].quantity - raw.desconto)
               && (known ==> i == was && next[i].productId == lines[i].productId && next[i].name == lines[i].name
                             && (raw.valor.None? ==> next[i].unitPrice == lines[i].unitPrice)
                             && (raw.total.None? && raw.valor.None? ==> next[i].total == lines[i].total))
               && (!known ==> raw.product.Found? && next[i].productId == raw.product.id
                              && (raw.descricao != "" ==> next[i].name == raw.descricao)
                              && (raw.descricao == "" ==> next[i].name == raw.product.name)
                              && (raw.quantidade.None? ==> next[i].quantity == 1)
                              && (raw.valor.None? ==> next[i].unitPrice == 0))
  {
    var next := UpsertLine(lines, raw).lines;
    UniqueIsUnambiguous(lines);
    LineKeepsUnique(lines, raw);
    var was := Find(lines, Key(raw).value);
    FindIsThe(next, was);
  }

  lemma {:induction false} AllSettle(lines: seq<Line>, raws: seq<RawLine>, n: nat)
    requires UniqueSkus(lines) && n <= |raws| && DistinctKeys(raws) && !UpsertLines(lines, raws, n).broken
    ensures forall i :: 0 <= i < n ==> Settled(UpsertLines(lines, raws, n).lines, raws[i])
  {
    if n > 0 {
      AllSettle(lines, raws, n - 1);
      var p := UpsertLines(lines, raws, n - 1);
      LinesStayUnique(lines, raws, n - 1);
      AppliedSettles(p.lines, raws[n - 1]);
      if UpsertLine(p.lines, raws[n - 1]).Applied? {
        forall i | 0 <= i < n - 1
          ensures Settled(UpsertLines(lines, raws, n).lines, raws[i])
        {
          OtherKeyKeepsSettled(p.lines, raws[i], raws[n - 1]);
        }
      }
    }
  }

  lemma {:induction false} SettledStays(lines: seq<Line>, raws: seq<RawLine>, n: nat)
    requires UniqueSkus(lines) && n <= |raws| && forall i :: 0 <= i < |raws| ==> Settled(lines, raws[i])
    ensures UpsertLines(lines, raws, n).lines == lines && !UpsertLines(lines, raws, n).broken
  {
    if n > 0 {
      SettledStays(lines, raws, n - 1);
      SettledChangesNothing(lines, raws[n - 1]);
    }
  }

  /** A payload whose lines are filed under distinct SKUs leaves the same lines, quantities and
      totals when it is applied twice as when it is applied once. */
  lemma ReplayIsNoOp(lines: seq<Line>, raws: seq<RawLine>)
    requires UniqueSkus(lines) && DistinctKeys(raws) && !UpsertLines(lines, raws, |raws|).broken
    ensures var once := UpsertLines(lines, raws, |raws|).lines;
            UpsertLines(once, raws, |raws|).lines == once && !UpsertLines(once, raws, |raws|).broken
  {
    AllSettle(lines, raws, |raws|);
    LinesStayUnique(lines, raws, |raws|);
    SettledStays(UpsertLines(lines, raws, |raws|).lines, raws, |raws|);
  }

  // --------------------------------------------------- what each line does

  predicate RowExists(lines: seq<Line>, sku: string) {
    exists j :: 0 <= j < |lines| && lines[j].sku == sku
  }

  /** The line names no row of the order, and its product is nowhere to be found. */
  predicate FindsNoProduct(lines: seq<Line>, raw: RawLine) {
    raw.product.Unknown? && (raw.codigo == "" || !RowExists(lines, raw.codigo))
  }

  /** A line is deferred exactly when it finds no product; one that is applied has a row or a product; one
      that raises met a raising lookup, or states or meets what the constraints refuse. */
  lemma LineOutcome(lines: seq<Line>, raw: RawLine)
    requires UniqueSkus(lines)
    ensures UpsertLine(lines, raw).Deferred? <==> FindsNoProduct(lines, raw)
    ensures UpsertLine(lines, raw).Applied? ==>
              Key(raw).Some? && (RowExists(lines, Key(raw).value) || raw.product.Found?)
    ensures UpsertLine(lines, raw).Broken? ==>
              || (raw.product.LookupRaises? && (raw.codigo == "" || !RowExists(lines, raw.codigo)))
              || (raw.quantidade.Some? && raw.quantidade.value < 0) || (raw.valor.Some? && raw.valor.value < 0)
              || exists j :: 0 <= j < |lines| && !Storable(lines[j])
  {
    UniqueIsUnambiguous(lines);
    if Key(raw).Some? {
      var i := Find(lines, Key(raw).value);
      assert i < |lines| <==> RowExists(lines, Key(raw).value);
      if i < |lines| { assert !Storable(lines[i]) || lines[i].quantity > 0; }
    }
  }

  /** How many of the first n lines find no product when their turn comes. */
  function CountUnfound(lines: seq<Line>, raws: seq<RawLine>, n: nat): nat
    requires n <= |raws|
  {
    if n == 0 then 0
    else CountUnfound(lines, raws, n - 1) + if FindsNoProduct(UpsertLines(lines, raws, n - 1).lines, raws[n - 1]) then 1 else 0
  }

  /** Exactly the lines that find no product are deferred, up to the one that raises, if any does. */
  lemma {:induction false} DeferredAreUnfound(lines: seq<Line>, raws: seq<RawLine>, n: nat) returns (m: nat)
    requires UniqueSkus(lines) && n <= |raws|
    ensures m <= n && UpsertLines(lines, raws, n).deferred == CountUnfound(lines, raws, m)
    ensures !UpsertLines(lines, raws, m).broken && UpsertLines(lines, raws, n).lines == UpsertLines(lines, raws, m).lines
    ensures if UpsertLines(lines, raws, n).broken
            then m < n && UpsertLine(UpsertLines(lines, raws, m).lines, raws[m]).Broken? else m == n
  {
    hide UpsertLine, FindsNoProduct;
    if n == 0 {
      m := 0;
    } else {
      m := DeferredAreUnfound(lines, raws, n - 1);
      var p := UpsertLines(lines, raws, n - 1);
      LinesStayUnique(lines, raws, n - 1);
      LineOutcome(p.lines, raws[n - 1]);
      if !p.broken && !UpsertLine(p.lines, raws[n - 1]).Broken? { m := n; }
    }
  }
}

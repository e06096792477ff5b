/** The Redis lock: SET NX EX to take it, compare-and-delete to give it back. Times are integer seconds. */
module Locks {
  const LOCK_TTL_SECONDS := 600

  datatype Entry = Entry(owner: string, deadline: int)

  /** An entry past its deadline is as good as absent. */
  predicate Live(keys: map<string, Entry>, key: string, now: int) {
    key in keys && now < keys[key].deadline
  }

  function SetNx(keys: map<string, Entry>, key: string, owner: string, now: int): (map<string, Entry>, bool) {
    if Live(keys, key, now) then (keys, false)
    else (keys[key := Entry(owner, now + LOCK_TTL_SECONDS)], true)
  }

  function CompareAndDelete(keys: map<string, Entry>, key: string, owner: string, now: int): (map<string, Entry>, bool) {
    if Live(keys, key, now) && keys[key].owner == owner then (keys - {key}, true) else (keys, false)
  }

  class Redis {
    var keys: map<string, Entry>
  }

  class SyncLock {
    const name: string
    const key: string
    const owner: string
    var redis: Redis?

    constructor (name: string, uuid: string)
      ensures this.name == name && key == "royale:sync:lock:" + name && owner == uuid && redis == null
    {
      this.name := name;
      this.key := "royale:sync:lock:" + name;
      this.owner := uuid;
      this.redis := null;
    }

    method Acquire(client: Redis, now: int) returns (ok: bool)
      modifies this, client
      ensures redis == client
      ensures (client.keys, ok) == SetNx(old(client.keys), key, owner, now)
    {
      redis := client;
      ok := !(key in client.keys && now < client.keys[key].deadline);
      if ok {
        client.keys := client.keys[key := Entry(owner, now + LOCK_TTL_SECONDS)];
      }
    }

    method Release(now: int) returns (ok: bool)
      modifies redis
      ensures redis == null ==> !ok
      ensures redis != null ==> (redis.keys, ok) == CompareAndDelete(old(redis.keys), key, owner, now)
    {
      if redis == null { return false; }
      ok := key in redis.keys && now < redis.keys[key].deadline && redis.keys[key].owner == owner;
      if ok {
        redis.keys := redis.keys - {key};
      }
    }
  }

  /** A lock once taken keeps every other owner out for 600 seconds: until then no acquire succeeds and no
      release of another owner changes anything; its own release, or the end of that time, frees it. */
  lemma HolderExcludes(keys: map<string, Entry>, key: string, a: string, b: string, taken: int, now: int)
    requires SetNx(keys, key, a, taken).1
    ensures var held := SetNx(keys, key, a, taken).0;
            && (SetNx(held, key, b, now).1 <==> now >= taken + 600)
            && (now < taken + 600 ==> SetNx(held, key, b, now).0 == held)
            && (a != b ==> CompareAndDelete(held, key, b, now) == (held, false))
            && (CompareAndDelete(held, key, a, now).1 <==> now < taken + 600)
            && (now < taken + 600 ==> SetNx(CompareAndDelete(held, key, a, now).0, key, b, now).1)
            && (forall other :: other != key ==>
                  (other in held <==> other in keys) && (other in keys ==> held[other] == keys[other]))
  {
  }

  /** And an acquire fails only so: an absent or expired key is taken, in the caller's own name. */
  lemma FreeIsTaken(keys: map<string, Entry>, key: string, a: string, now: int)
    ensures SetNx(keys, key, a, now).1 <==> key !in keys || keys[key].deadline <= now
    ensures SetNx(keys, key, a, now).1 ==> var held := SetNx(keys, key, a, now).0; key in held && held[key].owner == a
  {
  }
}

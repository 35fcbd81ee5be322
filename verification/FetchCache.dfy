/**
 The bounded TTL cache of package fetch.  Byte accounting, refusal instead of eviction,
 and amortised sweeping; loads run outside the lock, so calls interleave.
 */
module FetchCache {

  datatype Entry = Entry(val: string, exp: int)

  const MIN_SWEEP := 1024
  const FULL_LOG_EVERY := 60_000

  // The fields of Client that the mutex guards.
  datatype Cache = Cache(c: map<string, Entry>, size: int, budget: nat, sweepAt: nat, lastFull: int)

  function Cost(key: string, val: string): nat { |key| + |val| }

  // Bytes held by a map: the keys and the values.
  ghost function Bytes(m: map<string, Entry>): nat
    decreases |m|
  {
    if m == map[] then 0
    else
      var k :| k in m;
      Cost(k, m[k].val) + Bytes(m - {k})
  }

  lemma {:induction false} BytesWithout(m: map<string, Entry>, k: string)
    requires k in m
    ensures Bytes(m) == Cost(k, m[k].val) + Bytes(m - {k})
    decreases |m|
  {
    var j :| j in m && Bytes(m) == Cost(j, m[j].val) + Bytes(m - {j});
    if j != k {
      BytesWithout(m - {j}, k);
      BytesWithout(m - {k}, j);
      assert m - {j} - {k} == m - {k} - {j};
    }
  }

  lemma BytesWith(m: map<string, Entry>, k: string, e: Entry)
    requires k !in m
    ensures Bytes(m[k := e]) == Bytes(m) + |k| + |e.val| && Bytes(map[]) == 0
  {
    BytesWithout(m[k := e], k);
    assert m[k := e] - {k} == m;
  }

  // The entries that have not expired.
  function LiveOnly(m: map<string, Entry>, now: int): map<string, Entry> {
    map k | k in m && now < m[k].exp :: m[k]
  }

  // sweep: what is left, its size, and when to sweep next.
  ghost function Sweep(s: Cache, now: int): (t: Cache)
    ensures t.c == LiveOnly(s.c, now)
  {
    var c := LiveOnly(s.c, now);
    s.(c := c, size := s.size - Bytes(s.c) + Bytes(c), sweepAt := if 2 * |c| < MIN_SWEEP then MIN_SWEEP else 2 * |c|)
  }

  // The first lines of store: the key's own previous entry goes.
  ghost function Forget(s: Cache, key: string): Cache {
    if key in s.c then s.(c := s.c - {key}, size := s.size - Cost(key, s.c[key].val)) else s
  }

  predicate Sweeps(s: Cache, key: string, val: string) {
    |s.c| >= s.sweepAt || s.size + Cost(key, val) > s.budget
  }

  ghost function Cleared(s: Cache, key: string, val: string, now: int): Cache {
    var s := Forget(s, key);
    if Sweeps(s, key, val) then Sweep(s, now) else s
  }

  ghost function Store(s: Cache, key: string, val: string, ttl: int, now: int): Cache {
    var s := Cleared(s, key, val, now);
    if s.size + Cost(key, val) <= s.budget
    then s.(c := s.c[key := Entry(val, now + ttl)], size := s.size + Cost(key, val))
    else if now - s.lastFull >= FULL_LOG_EVERY then s.(lastFull := now) else s
  }

  // m was swept into c, but for the keys in todo.
  predicate Sweeping(m: map<string, Entry>, c: map<string, Entry>, todo: set<string>, now: int) {
    && todo <= c.Keys
    && (forall k :: k in c ==> k in m && c[k] == m[k])
    && (forall k :: k in m ==> k in todo || (k in c <==> now < m[k].exp))
  }

  lemma SweepOne(m: map<string, Entry>, c: map<string, Entry>, todo: set<string>, now: int, k: string)
    requires Sweeping(m, c, todo, now) && k in todo
    ensures Sweeping(m, if now < c[k].exp then c else c - {k}, todo - {k}, now)
    ensures Bytes(c) == Bytes(c - {k}) + Cost(k, c[k].val)
  {
    BytesWithout(c, k);
  }

  lemma Swept(m: map<string, Entry>, c: map<string, Entry>, now: int)
    requires Sweeping(m, c, {}, now)
    ensures c == LiveOnly(m, now)
  {
  }

  // ----- the client -----

  class Client {
    var c: map<string, Entry>
    var size: int
    var budget: nat
    var sweepAt: nat
    var lastFull: int

    function View(): Cache
      reads this
    {
      Cache(c, size, budget, sweepAt, lastFull)
    }

    constructor (budget: nat)
      ensures View() == Empty(budget)
    {
      c, size, this.budget, sweepAt, lastFull := map[], 0, budget, MIN_SWEEP, 0;
    }

    // GetCached up to the first unlock: a hit, or nothing.
    method Probe(key: string, now: int) returns (hit: bool, val: string)
      ensures hit <==> key in c && now < c[key].exp
      ensures hit ==> val == c[key].val
      ensures hit == Hit(View(), key, now)
    {
      hit := key in c && now < c[key].exp;
      val := if hit then c[key].val else "";
    }

    // One turn of the loop of sweep.
    method DropExpired(k: string, now: int)
      requires k in c
      modifies this`c, this`size
      ensures c == if now < old(c)[k].exp then old(c) else old(c) - {k}
      ensures size == old(size) - if now < old(c)[k].exp then 0 else Cost(k, old(c)[k].val)
    {
      if !(now < c[k].exp) {
        size := size - (|k| + |c[k].val|);
        c := c - {k};
      }
    }

    method SweepExpired(now: int)
      modifies this
      ensures View() == Sweep(old(View()), now)
    {
      var todo := c.Keys;
      while todo != {}
        invariant Sweeping(old(c), c, todo, now)
        invariant size == old(size) - Bytes(old(c)) + Bytes(c)
        invariant budget == old(budget) && lastFull == old(lastFull)
        decreases |todo|
      {
        var k :| k in todo;
        SweepOne(old(c), c, todo, now, k);
        DropExpired(k, now);
        todo := todo - {k};
      }
      Swept(old(c), c, now);
      sweepAt := 2 * |c|;
      if sweepAt < MIN_SWEEP {
        sweepAt := MIN_SWEEP;
      }
    }

    method StoreValue(key: string, val: string, ttl: int, now: int) returns (report: bool)
      modifies this
      ensures View() == Store(old(View()), key, val, ttl, now)
      ensures report <==> key !in c && now - old(lastFull) >= 60_000
      ensures lastFull == if report then now else old(lastFull)
    {
      if key in c {
        size := size - (|key| + |c[key].val|);
        c := c - {key};
      }
      assert View() == Forget(old(View()), key);
      var need := |key| + |val|;
      if |c| >= sweepAt || size + need > budget {
        SweepExpired(now);
      }
      assert View() == Cleared(old(View()), key, val, now);
      if size + need <= budget {
        c := c[key := Entry(val, now + ttl)];
        size := size + need;
        return false;
      }
      report := now - lastFull >= FULL_LOG_EVERY;
      if report {
        lastFull := now;
      }
    }
  }

  function Empty(budget: nat): Cache { Cache(map[], 0, budget, MIN_SWEEP, 0) }

  predicate Hit(s: Cache, key: string, now: int) { key in s.c && now < s.c[key].exp }

  // ----- what one store does -----

  ghost predicate Consistent(s: Cache) {
    s.size == Bytes(s.c) && s.size <= s.budget && |s.c| <= s.sweepAt && MIN_SWEEP <= s.sweepAt
  }

  lemma LiveWithout(m: map<string, Entry>, k: string, now: int)
    requires k in m
    ensures |m - {k}| == |m| - 1
    ensures now < m[k].exp ==> k in LiveOnly(m, now) && LiveOnly(m, now) - {k} == LiveOnly(m - {k}, now)
    ensures !(now < m[k].exp) ==> LiveOnly(m, now) == LiveOnly(m - {k}, now)
  {
    assert (m - {k}).Keys == m.Keys - {k};
  }

  lemma {:induction false} BytesOfLive(m: map<string, Entry>, now: int)
    ensures Bytes(LiveOnly(m, now)) <= Bytes(m) && |LiveOnly(m, now)| <= |m|
    decreases |m|
  {
    if m != map[] {
      var k :| k in m;
      LiveWithout(m, k, now);
      BytesOfLive(m - {k}, now);
      BytesWithout(m, k);
      if now < m[k].exp {
        BytesWithout(LiveOnly(m, now), k);
        LiveWithout(LiveOnly(m, now), k, now);
      }
    }
  }

  lemma ForgetConsistent(s: Cache, key: string)
    requires Consistent(s)
    ensures Consistent(Forget(s, key)) && key !in Forget(s, key).c
  {
    if key in s.c { BytesWithout(s.c, key); }
  }

  lemma ClearedConsistent(s: Cache, key: string, val: string, now: int)
    requires Consistent(s)
    ensures Consistent(Cleared(s, key, val, now)) && key !in Cleared(s, key, val, now).c
    ensures |Cleared(s, key, val, now).c| < Cleared(s, key, val, now).sweepAt
  {
    ForgetConsistent(s, key);
    BytesOfLive(Forget(s, key).c, now);
  }

  // size is always the bytes held and within the budget; len(c) stays at most sweepAt.
  lemma StoreConsistent(s: Cache, key: string, val: string, ttl: int, now: int)
    requires Consistent(s)
    ensures Consistent(Store(s, key, val, ttl, now))
  {
    ClearedConsistent(s, key, val, now);
    BytesWith(Cleared(s, key, val, now).c, key, Entry(val, now + ttl));
  }

  // Nothing live is thrown out for another key.
  lemma StoreKeepsLive(s: Cache, key: string, val: string, ttl: int, now: int, k: string)
    requires k != key && k in s.c
    ensures now < s.c[k].exp ==> k in Store(s, key, val, ttl, now).c
    ensures k in Store(s, key, val, ttl, now).c ==> Store(s, key, val, ttl, now).c[k] == s.c[k]
  {
  }

  // A sweep leaves exactly what has not expired, and room for as many again before the next.
  lemma SweepLeaves(s: Cache, now: int, k: string)
    ensures k in Sweep(s, now).c <==> k in s.c && now < s.c[k].exp
    ensures k in Sweep(s, now).c ==> Sweep(s, now).c[k] == s.c[k]
    ensures var n := |Sweep(s, now).c|; Sweep(s, now).sweepAt == if 2 * n > 1024 then 2 * n else 1024
  {
  }

  // A store walks the map only when it is full or the value would not fit as it is:
  // otherwise nothing but the key's own entry changes.
  lemma StoreWalksOnlyIfNeeded(s: Cache, key: string, val: string, ttl: int, now: int)
    requires Consistent(s) && |s.c - {key}| < s.sweepAt && Bytes(s.c - {key}) + Cost(key, val) <= s.budget
    ensures Store(s, key, val, ttl, now).c == s.c[key := Entry(val, now + ttl)]
    ensures Store(s, key, val, ttl, now).sweepAt == s.sweepAt
  {
    if key in s.c { BytesWithout(s.c, key); } else { assert s.c - {key} == s.c; }
    assert Forget(s, key).c == s.c - {key};
    assert (s.c - {key})[key := Entry(val, now + ttl)] == s.c[key := Entry(val, now + ttl)];
  }

  // Sweeping or not, there is room exactly when the value fits beside the live entries.
  lemma RoomIff(f: Cache, key: string, val: string, now: int)
    requires Consistent(f)
    ensures (if Sweeps(f, key, val) then Sweep(f, now) else f).size + Cost(key, val) <= f.budget
      <==> Bytes(LiveOnly(f.c, now)) + Cost(key, val) <= f.budget
  {
    BytesOfLive(f.c, now);
  }

  lemma StoredWhenRoom(s: Cache, key: string, val: string, ttl: int, now: int)
    requires key !in Cleared(s, key, val, now).c
    ensures key in Store(s, key, val, ttl, now).c <==> Cleared(s, key, val, now).size + Cost(key, val) <= s.budget
  {
  }

  // The value is kept exactly when it fits beside the live entries of the other keys.
  lemma StoredIff(s: Cache, key: string, val: string, ttl: int, now: int)
    requires Consistent(s)
    ensures key in Store(s, key, val, ttl, now).c <==> Bytes(LiveOnly(s.c - {key}, now)) + Cost(key, val) <= s.budget
  {
    ForgetConsistent(s, key);
    assert Forget(s, key).c == s.c - {key} && Forget(s, key).budget == s.budget;
    RoomIff(Forget(s, key), key, val, now);
    ClearedConsistent(s, key, val, now);
    StoredWhenRoom(s, key, val, ttl, now);
  }
}

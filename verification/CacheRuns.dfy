/** GetCached calls interleaved: where served values come from, and what sweeping costs. */
module CacheRuns {
  import opened FetchCache

  // One GetCached call between its critical sections.
  datatype Pc =
    | Loading(key: string, ttl: int)             // load() runs outside the lock
    | Loaded(key: string, ttl: int, val: string)
    | Done

  datatype Served = Served(key: string, val: string, at: int)     // answered from the cache
  datatype Saved = Saved(key: string, val: string, exp: int)      // put into the cache

  datatype Sys = Sys(
    s: Cache,
    calls: map<nat, Pc>,
    loads: set<(string, string)>,   // (key, value) of every successful load so far
    saved: set<Saved>,
    served: seq<Served>,
    stores: nat,                    // values put into the cache
    walked: nat)                    // entries walked by sweeps that len(c) triggered

  datatype Step =
    | Begin(id: nat, key: string, ttl: int, now: int)
    | LoadOk(id: nat, val: string)
    | LoadErr(id: nat)
    | Finish(id: nat, now: int)

  predicate Enabled(y: Sys, e: Step) {
    match e
    case Begin(id, _, _, _) => id !in y.calls
    case LoadOk(id, _) => id in y.calls && y.calls[id].Loading?
    case LoadErr(id) => id in y.calls && y.calls[id].Loading?
    case Finish(id, _) => id in y.calls && y.calls[id].Loaded?
  }

  // Entries a store walks because len(c) reached sweepAt.
  ghost function Walk(s: Cache, key: string): nat {
    var s := Forget(s, key);
    if |s.c| >= s.sweepAt then |s.c| else 0
  }

  ghost function Next(y: Sys, e: Step): Sys
    requires Enabled(y, e)
  {
    match e
    case Begin(id, key, ttl, now) =>
      if ttl > 0 && Hit(y.s, key, now)
      then y.(calls := y.calls[id := Done], served := y.served + [Served(key, y.s.c[key].val, now)])
      else y.(calls := y.calls[id := Loading(key, ttl)])
    case LoadOk(id, val) =>
      var p := y.calls[id];
      y.(calls := y.calls[id := if p.ttl > 0 then Loaded(p.key, p.ttl, val) else Done],
         loads := y.loads + {(p.key, val)})
    case LoadErr(id) => y.(calls := y.calls[id := Done])
    case Finish(id, now) =>
      var p := y.calls[id];
      var t := Store(y.s, p.key, p.val, p.ttl, now);
      var y := y.(calls := y.calls[id := Done], s := t, walked := y.walked + Walk(y.s, p.key));
      if p.key in t.c then y.(stores := y.stores + 1, saved := y.saved + {Saved(p.key, p.val, now + p.ttl)})
      else y
  }

  ghost predicate Reaches(y: Sys, steps: seq<Step>, z: Sys)
    decreases |steps|
  {
    if steps == [] then y == z else Enabled(y, steps[0]) && Reaches(Next(y, steps[0]), steps[1..], z)
  }

  function Start(budget: nat): Sys { Sys(Empty(budget), map[], {}, {}, [], 0, 0) }

  // ----- invariants -----

  // Every value in flight or in the cache was loaded for its key.
  predicate Provenance(y: Sys) {
    && (forall id :: id in y.calls && y.calls[id].Loaded? ==>
          (y.calls[id].key, y.calls[id].val) in y.loads && y.calls[id].ttl > 0)
    && (forall v :: v in y.saved ==> (v.key, v.val) in y.loads)
    && (forall k :: k in y.s.c ==> Saved(k, y.s.c[k].val, y.s.c[k].exp) in y.saved)
  }

  ghost predicate Fresh(v: Served, y: Sys) {
    (v.key, v.val) in y.loads && exists exp :: Saved(v.key, v.val, exp) in y.saved && v.at < exp
  }

  ghost predicate AllFresh(y: Sys) { forall v :: v in y.served ==> Fresh(v, y) }

  // The potential of amortisation: what has been walked is paid for twice over.
  predicate Paid(y: Sys) {
    y.walked + (if 2 * |y.s.c| > y.s.sweepAt then 2 * |y.s.c| - y.s.sweepAt else 0) <= 2 * y.stores
  }

  ghost predicate Inv(y: Sys) { Consistent(y.s) && Provenance(y) && AllFresh(y) && Paid(y) }

  // After a store the cache holds old entries and, perhaps, the new one.
  lemma StoreHolds(s: Cache, key: string, val: string, ttl: int, now: int, k: string)
    requires k in Store(s, key, val, ttl, now).c
    ensures if k == key then Store(s, key, val, ttl, now).c[k] == Entry(val, now + ttl)
            else k in s.c && Store(s, key, val, ttl, now).c[k] == s.c[k]
  {
  }

  lemma ProvenanceFinish(y: Sys, id: nat, now: int)
    requires Provenance(y) && Enabled(y, Finish(id, now))
    ensures Provenance(Next(y, Finish(id, now)))
  {
    var p, z := y.calls[id], Next(y, Finish(id, now));
    assert z.loads == y.loads && y.saved <= z.saved;
    forall k | k in z.s.c ensures Saved(k, z.s.c[k].val, z.s.c[k].exp) in z.saved { SavedAfter(y, id, now, k); }
  }

  lemma SavedAfter(y: Sys, id: nat, now: int, k: string)
    requires Provenance(y) && Enabled(y, Finish(id, now)) && k in Next(y, Finish(id, now)).s.c
    ensures var z := Next(y, Finish(id, now)); Saved(k, z.s.c[k].val, z.s.c[k].exp) in z.saved
  {
    var p := y.calls[id];
    StoreHolds(y.s, p.key, p.val, p.ttl, now, k);
  }

  lemma ProvenanceStep(y: Sys, e: Step)
    requires Provenance(y) && Enabled(y, e)
    ensures Provenance(Next(y, e)) && y.loads <= Next(y, e).loads && y.saved <= Next(y, e).saved
  {
    if e.Finish? {
      ProvenanceFinish(y, e.id, e.now);
    } else {
      assert Next(y, e).s == y.s && Next(y, e).saved == y.saved;
    }
  }

  lemma FreshStays(v: Served, y: Sys, z: Sys)
    requires Fresh(v, y) && y.loads <= z.loads && y.saved <= z.saved
    ensures Fresh(v, z)
  {
  }

  lemma FreshStep(y: Sys, e: Step)
    requires Provenance(y) && AllFresh(y) && Enabled(y, e)
    ensures AllFresh(Next(y, e))
  {
    var z := Next(y, e);
    ProvenanceStep(y, e);
    forall v | v in z.served ensures Fresh(v, z) {
      if v in y.served {
        FreshStays(v, y, z);
      } else {
        assert Saved(e.key, y.s.c[e.key].val, y.s.c[e.key].exp) in y.saved;
      }
    }
  }

  lemma PaidStep(y: Sys, e: Step)
    requires Consistent(y.s) && Paid(y) && Enabled(y, e)
    ensures Paid(Next(y, e))
  {
    if e.Finish? {
      var p := y.calls[e.id];
      PaidStore(y.s, p.key, p.val, p.ttl, e.now);
    }
  }

  function Debt(s: Cache): nat { if 2 * |s.c| > s.sweepAt then 2 * |s.c| - s.sweepAt else 0 }

  // One store: what it walks was saved up by the stores since the last sweep.
  lemma PaidStore(s: Cache, key: string, val: string, ttl: int, now: int)
    requires Consistent(s)
    ensures Walk(s, key) + Debt(Store(s, key, val, ttl, now))
      <= Debt(s) + if key in Store(s, key, val, ttl, now).c then 2 else 0
  {
    ForgetConsistent(s, key);
    var f, d := Forget(s, key), Cleared(s, key, val, now);
    ClearedConsistent(s, key, val, now);
    assert Walk(s, key) + Debt(d) <= Debt(f) <= Debt(s);
  }

  lemma {:induction false} InvReached(y: Sys, steps: seq<Step>, z: Sys)
    requires Inv(y) && Reaches(y, steps, z)
    ensures Inv(z)
    decreases |steps|
  {
    if steps != [] {
      var e := steps[0];
      ProvenanceStep(y, e);
      FreshStep(y, e);
      PaidStep(y, e);
      if e.Finish? { StoreConsistent(y.s, y.calls[e.id].key, y.calls[e.id].val, y.calls[e.id].ttl, e.now); }
      InvReached(Next(y, e), steps[1..], z);
    }
  }

  lemma InvStart(budget: nat)
    ensures Inv(Start(budget))
  {
  }

  // ----- over every interleaving -----

  // size is the bytes held, within the budget.
  lemma AccountedBytes(budget: nat, steps: seq<Step>, z: Sys)
    requires Reaches(Start(budget), steps, z)
    ensures z.s.size == Bytes(z.s.c) && z.s.size <= z.s.budget
  {
    InvStart(budget);
    InvReached(Start(budget), steps, z);
  }

  // A value served from the cache came from a successful load for that very key, stored
  // with an expiry still in the future.
  lemma ServedWasLoaded(budget: nat, steps: seq<Step>, z: Sys)
    requires Reaches(Start(budget), steps, z)
    ensures forall v :: v in z.served ==> Fresh(v, z)
    ensures forall v :: v in z.saved ==> (v.key, v.val) in z.loads
  {
    InvStart(budget);
    InvReached(Start(budget), steps, z);
  }

  // Sweeps triggered by len(c) walk at most two entries per value stored, and the map
  // never outgrows sweepAt.
  lemma AmortisedSweeping(budget: nat, steps: seq<Step>, z: Sys)
    requires Reaches(Start(budget), steps, z)
    ensures z.walked <= 2 * z.stores
    ensures |z.s.c| <= z.s.sweepAt
  {
    InvStart(budget);
    InvReached(Start(budget), steps, z);
  }

  // ----- what is in the cache is served -----

  // GetCached loads exactly when the cache has no entry for the key that is still good, or
  // is not to be used at all.
  lemma BeginServes(y: Sys, id: nat, key: string, ttl: int, now: int)
    requires id !in y.calls
    ensures var z := Next(y, Begin(id, key, ttl, now));
      if ttl > 0 && key in y.s.c && now < y.s.c[key].exp
      then z.calls[id] == Done && z.served == y.served + [Served(key, y.s.c[key].val, now)]
      else z.calls[id] == Loading(key, ttl) && z.served == y.served
  {
  }

  // The steps run before exp, and none of them stores under the key.
  ghost predicate LeavesAlone(y: Sys, steps: seq<Step>, key: string, exp: int)
    decreases |steps|
  {
    steps == [] ||
    (&& Enabled(y, steps[0])
     && (steps[0].Finish? ==> y.calls[steps[0].id].key != key && steps[0].now < exp)
     && LeavesAlone(Next(y, steps[0]), steps[1..], key, exp))
  }

  lemma {:induction false} EntryStays(y: Sys, steps: seq<Step>, z: Sys, key: string, e: Entry)
    requires Reaches(y, steps, z) && LeavesAlone(y, steps, key, e.exp) && key in y.s.c && y.s.c[key] == e
    ensures key in z.s.c && z.s.c[key] == e
    decreases |steps|
  {
    if steps != [] {
      if steps[0].Finish? {
        var p := y.calls[steps[0].id];
        StoreKeepsLive(y.s, p.key, p.val, p.ttl, steps[0].now, key);
      }
      EntryStays(Next(y, steps[0]), steps[1..], z, key, e);
    }
  }

  // A value that was kept is served to every call on its key until it expires, or another
  // value is stored under the key, whatever the other calls do.
  lemma KeptIsServed(y: Sys, id: nat, now: int, steps: seq<Step>, z: Sys, later: nat, ttl: int, at: int)
    requires Enabled(y, Finish(id, now)) && Reaches(Next(y, Finish(id, now)), steps, z)
    requires y.calls[id].key in Next(y, Finish(id, now)).s.c && later !in z.calls
    requires ttl > 0 && at < now + y.calls[id].ttl
    requires LeavesAlone(Next(y, Finish(id, now)), steps, y.calls[id].key, now + y.calls[id].ttl)
    ensures var key, val := y.calls[id].key, y.calls[id].val;
      Next(z, Begin(later, key, ttl, at)).served == z.served + [Served(key, val, at)]
  {
    var p := y.calls[id];
    StoreHolds(y.s, p.key, p.val, p.ttl, now, p.key);
    EntryStays(Next(y, Finish(id, now)), steps, z, p.key, Entry(p.val, now + p.ttl));
    BeginServes(z, later, p.key, ttl, at);
  }

  // ----- the remark on sweepAt -----

  // "never more expired entries than live ones" holds as long as the live entries are at
  // least half of sweepAt, and while the map is as large as sweepAt allows, only then.
  lemma RemarkHolds(budget: nat, steps: seq<Step>, z: Sys, now: int)
    requires Reaches(Start(budget), steps, z)
    ensures |LiveOnly(z.s.c, now)| <= |z.s.c| <= z.s.sweepAt
    ensures var live := |LiveOnly(z.s.c, now)|;
      var expired := |z.s.c| - live;
      && (2 * live >= z.s.sweepAt ==> expired <= live)
      && (|z.s.c| == z.s.sweepAt ==> (expired <= live <==> 2 * live >= z.s.sweepAt))
  {
    AmortisedSweeping(budget, steps, z);
    BytesOfLive(z.s.c, now);
  }

  // It holds right after a sweep too, when nothing is expired ...
  lemma SweepLeavesNoneExpired(s: Cache, now: int)
    ensures LiveOnly(Sweep(s, now).c, now) == Sweep(s, now).c
    ensures forall k :: k in Sweep(s, now).c ==> now < Sweep(s, now).c[k].exp
  {
  }

  // ... but not at every later instant: one entry, one second, no store.
  lemma ExpiredCanOutnumberLive() returns (steps: seq<Step>, z: Sys, now: int)
    ensures Reaches(Start(100), steps, z)
    ensures |z.s.c| == 1 && |LiveOnly(z.s.c, now)| == 0
  {
    var y0 := Start(100);
    var b, l, f := Begin(0, "k", 5, 0), LoadOk(0, "v"), Finish(0, 0);
    var y1 := Next(y0, b);
    var y2 := Next(y1, l);
    assert y2.calls[0] == Loaded("k", 5, "v");
    z := Next(y2, f);
    now := 5;
    steps := [b, l, f];
    assert steps[1..] == [l, f] && [l, f][1..] == [f] && [f][1..] == [];
    assert Reaches(z, [], z) && Reaches(y2, [f], z) && Reaches(y1, [l, f], z);
    assert z.s.c == map["k" := Entry("v", 5)];
    assert LiveOnly(z.s.c, now) == map[];
  }
}

/**
 Stream selection.  The filters that come before the serve limit only read the
 visitor: they are a function from a stream's rules and the visitor to the name of
 the first filter that rejects, "" when none does.
 */
module Router {
  import opened Redis

  datatype Out = Out(redirect: string, out: string, header: string)

  datatype Stream<R> = Stream(name: string, status: bool, rules: R, limit: LimitRule, out: Out)

  // Why, with a nil Limiter.
  type Filters<!R, !V> = (R, V) -> string

  predicate Matches<R, V>(s: Stream<R>, v: V, why: Filters<R, V>) {
    s.status && why(s.rules, v) == ""
  }

  // Select without a limiter: the first active stream that passes its filters, or |streams|.
  function Pick<R, V>(streams: seq<Stream<R>>, v: V, why: Filters<R, V>, from: nat := 0): (i: nat)
    requires from <= |streams|
    ensures from <= i <= |streams|
    ensures i < |streams| ==> Matches(streams[i], v, why)
    ensures forall j :: from <= j < i ==> !Matches(streams[j], v, why)
    ensures i < |streams| ==> streams[i].status && why(streams[i].rules, v) == ""
    ensures forall j :: from <= j < i ==> !streams[j].status || why(streams[j].rules, v) != ""
    decreases |streams| - from
  {
    if from == |streams| || Matches(streams[from], v, why) then from else Pick(streams, v, why, from + 1)
  }

  // ----- one Select among other requests -----

  datatype Pc = Scan(i: nat) | Chose(i: nat, at: nat) | Empty

  datatype Req<R, V> = Req(
    id: string, streams: seq<Stream<R>>, v: V,
    pc: Pc,
    granted: seq<nat>,   // streams whose limit gave this request a unit
    refused: set<nat>)   // streams whose limit was exhausted

  function Start<R, V>(id: string, streams: seq<Stream<R>>, v: V): Req<R, V> {
    Req(id, streams, v, Scan(0), [], {})
  }

  // The limiter call made for stream i, at the caller's clock reading at.
  function LimitCall<R, V>(q: Req<R, V>, at: nat): Call
    requires q.pc.Scan? && q.pc.i < |q.streams|
  {
    TakeLimit(q.id, q.streams[q.pc.i].name, q.streams[q.pc.i].limit, at)
  }

  predicate AsksLimiter<R, V>(q: Req<R, V>, why: Filters<R, V>) {
    q.pc.Scan? && q.pc.i < |q.streams| && Matches(q.streams[q.pc.i], q.v, why) && q.streams[q.pc.i].limit.enabled
  }

  // One turn of the loop of Select: everything up to and including one limiter call.
  function Turn<R, V>(db: Db, q: Req<R, V>, why: Filters<R, V>, at: nat, now: nat): (r: (Db, Req<R, V>))
    ensures r.0 == if AsksLimiter(q, why) then After(db, LimitCall(q, at), now) else db
  {
    if !q.pc.Scan? then (db, q)
    else
      var i := q.pc.i;
      if i >= |q.streams| then (db, q.(pc := Empty))
      else if !Matches(q.streams[i], q.v, why) then (db, q.(pc := Scan(i + 1)))
      else if !q.streams[i].limit.enabled then (db, q.(pc := Chose(i, at)))
      else
        var c := LimitCall(q, at);
        if Allowed(db, c, now) then (After(db, c, now), q.(pc := Chose(i, at), granted := q.granted + [i]))
        else (After(db, c, now), q.(pc := Scan(i + 1), refused := q.refused + {i}))
  }

  // What a Select has done so far.
  predicate Honest<R, V>(q: Req<R, V>, why: Filters<R, V>) {
    match q.pc
    case Scan(i) => i <= |q.streams| && q.granted == [] && Passed(q, why, i)
    case Chose(i, _) =>
      && i < |q.streams| && Matches(q.streams[i], q.v, why) && Passed(q, why, i)
      && q.granted == if q.streams[i].limit.enabled then [i] else []
    case Empty => q.granted == [] && Passed(q, why, |q.streams|)
  }

  // Every stream before i is off, filtered out, or exhausted.
  predicate Passed<R, V>(q: Req<R, V>, why: Filters<R, V>, i: nat) {
    forall j :: 0 <= j < i && j < |q.streams| ==> Matches(q.streams[j], q.v, why) ==>
      q.streams[j].limit.enabled && j in q.refused
  }

  // A Select takes at most one unit, only for the stream it returns; a refusal leaves
  // every counter as it was.
  lemma TurnHonest<R, V>(db: Db, q: Req<R, V>, why: Filters<R, V>, at: nat, now: nat)
    requires Honest(q, why)
    ensures Honest(Turn(db, q, why, at, now).1, why)
    ensures |Turn(db, q, why, at, now).1.granted| <= 1
    ensures !Turn(db, q, why, at, now).1.pc.Chose? ==> Turn(db, q, why, at, now).0 == db
  {
  }

  // Select itself, running alone on the store it updates; the clocks are read per stream.
  method Select<R, V>(c: Counters, id: string, streams: seq<Stream<R>>, v: V, why: Filters<R, V>, at: nat, now: nat)
      returns (found: bool, i: nat)
    modifies c
    ensures found ==> i < |streams| && streams[i].status && why(streams[i].rules, v) == ""
    ensures !found ==> c.db == old(c.db)
    ensures found && !streams[i].limit.enabled ==> c.db == old(c.db)
    ensures found && streams[i].limit.enabled ==>
      var call := TakeLimit(id, streams[i].name, streams[i].limit, at);
      Allowed(old(c.db), call, now) && c.db == After(old(c.db), call, now)
    ensures forall j :: 0 <= j < (if found then i else |streams|) ==>
      || !streams[j].status || why(streams[j].rules, v) != ""
      || (streams[j].limit.enabled && !Allowed(old(c.db), TakeLimit(id, streams[j].name, streams[j].limit, at), now))
  {
    i := 0;
    while i < |streams|
      invariant i <= |streams| && c.db == old(c.db)
      invariant forall j :: 0 <= j < i && Matches(streams[j], v, why) ==>
        streams[j].limit.enabled && !Allowed(old(c.db), TakeLimit(id, streams[j].name, streams[j].limit, at), now)
    {
      var s := streams[i];
      if s.status && why(s.rules, v) == "" {
        if !s.limit.enabled {
          return true, i;
        }
        var ok := c.TakeUnit(id, s.name, s.limit, at, now);
        if ok {
          return true, i;
        }
        assert c.db == old(c.db);
      }
      i := i + 1;
    }
    found := false;
  }
}

/** Serve limits as the visitors see them: over concurrent Selects. */
module SelectRuns {
  import opened Redis
  import opened Limits
  import opened Router

  // A step of the system: a request takes one turn of its loop, or somebody else calls
  // the store.  The filters read the clock and the lists, so every turn has its own.
  datatype Step<!R, !V> = Advance(k: nat, at: nat, now: nat, why: Filters<R, V>) | Other(call: Call, now: nat)

  datatype Sys<R, V> = Sys(db: Db, reqs: seq<Req<R, V>>)

  function Do<R, V>(y: Sys<R, V>, e: Step<R, V>): Sys<R, V> {
    match e
    case Other(call, now) => y.(db := After(y.db, call, now))
    case Advance(k, at, now, why) =>
      if k >= |y.reqs| then y
      else var (db, q) := Turn(y.db, y.reqs[k], why, at, now); Sys(db, y.reqs[k := q])
  }

  function Run<R, V>(y: Sys<R, V>, steps: seq<Step<R, V>>): Sys<R, V>
    decreases |steps|
  {
    if |steps| == 0 then y else Run(Do(y, steps[0]), steps[1..])
  }

  // The store calls a step makes.
  function CallsOf<R, V>(y: Sys<R, V>, e: Step<R, V>): seq<Timed> {
    match e
    case Other(call, now) => [Timed(call, now)]
    case Advance(k, at, now, why) =>
      if k < |y.reqs| && AsksLimiter(y.reqs[k], why) then [Timed(LimitCall(y.reqs[k], at), now)] else []
  }

  function Calls<R, V>(y: Sys<R, V>, steps: seq<Step<R, V>>): seq<Timed>
    decreases |steps|
  {
    if |steps| == 0 then [] else CallsOf(y, steps[0]) + Calls(Do(y, steps[0]), steps[1..])
  }

  // The request was given a stream whose limit of lim is counted under key.
  predicate ServedOn<R, V>(q: Req<R, V>, key: string, lim: nat) {
    && q.pc.Chose? && q.pc.i < |q.streams| && lim > 0
    && var s := q.streams[q.pc.i];
       s.limit.enabled && TakesOn(TakeLimit(q.id, s.name, s.limit, q.pc.at), key, lim)
  }

  function Served<R, V>(reqs: seq<Req<R, V>>, key: string, lim: nat): nat {
    if reqs == [] then 0 else (if ServedOn(reqs[0], key, lim) then 1 else 0) + Served(reqs[1..], key, lim)
  }

  lemma {:induction false} ServedUpdate<R, V>(reqs: seq<Req<R, V>>, k: nat, q: Req<R, V>, key: string, lim: nat)
    requires k < |reqs|
    ensures Served(reqs[k := q], key, lim) == Served(reqs, key, lim)
      + (if ServedOn(q, key, lim) then 1 else 0) - (if ServedOn(reqs[k], key, lim) then 1 else 0)
  {
    if k == 0 {
      assert reqs[0 := q][1..] == reqs[1..];
    } else {
      assert reqs[k := q][1..] == reqs[1..][k - 1 := q];
      ServedUpdate(reqs[1..], k - 1, q, key, lim);
    }
  }

  // A step serves limited streams to as many requests as it grants units of the limit.
  lemma StepGrants<R, V>(y: Sys<R, V>, e: Step<R, V>, key: string, lim: nat)
    ensures Served(Do(y, e).reqs, key, lim)
      <= Served(y.reqs, key, lim) + Granted(y.db, CallsOf(y, e), key, lim)
  {
    if e.Advance? && e.k < |y.reqs| {
      var q := y.reqs[e.k];
      var t := Turn(y.db, q, e.why, e.at, e.now).1;
      ServedUpdate(y.reqs, e.k, t, key, lim);
      if ServedOn(t, key, lim) && t != q {
        assert AsksLimiter(q, e.why);
        var c := LimitCall(q, e.at);
        assert TakesOn(c, key, lim) && Allowed(y.db, c, e.now);
      }
    }
  }

  lemma {:induction false} GrantedSplit(db: Db, a: seq<Timed>, b: seq<Timed>, key: string, lim: nat)
    ensures Granted(db, a + b, key, lim) == Granted(db, a, key, lim) + Granted(State(db, a), b, key, lim)
    decreases |a|
  {
    if a == [] {
      assert a + b == b;
    } else {
      assert (a + b)[1..] == a[1..] + b;
      GrantedSplit(After(db, a[0].call, a[0].now), a[1..], b, key, lim);
    }
  }

  lemma {:induction false} ServedIsGranted<R, V>(y: Sys<R, V>, steps: seq<Step<R, V>>,
                                         key: string, lim: nat)
    ensures Served(Run(y, steps).reqs, key, lim)
      <= Served(y.reqs, key, lim) + Granted(y.db, Calls(y, steps), key, lim)
    decreases |steps|
  {
    if steps != [] {
      var z, calls := Do(y, steps[0]), CallsOf(y, steps[0]);
      StepGrants(y, steps[0], key, lim);
      ServedIsGranted(z, steps[1..], key, lim);
      assert State(y.db, calls) == z.db;
      GrantedSplit(y.db, calls, Calls(z, steps[1..]), key, lim);
    }
  }

  // The limit of a stream is counted under the key of its group, its name and, for a daily
  // limit, the day: these are the requests that the two theorems below count.
  lemma CountedUnder<R, V>(q: Req<R, V>)
    requires q.pc.Chose? && q.pc.i < |q.streams|
    requires q.streams[q.pc.i].limit.enabled && q.streams[q.pc.i].limit.count > 0
    ensures var s := q.streams[q.pc.i];
      ServedOn(q, if s.limit.kind == 2 then PeriodKey(q.id, s.name) else DailyKey(q.id, s.name, q.pc.at / DAY),
               s.limit.count)
  {
  }

  // Over any concurrent run, a stream name with a daily limit of lim is selected at most
  // lim times per group and UTC day ...
  lemma DailySelections<R, V>(y: Sys<R, V>, steps: seq<Step<R, V>>,
                        id: string, name: string, day: nat, lim: nat)
    requires forall k :: 0 <= k < |y.reqs| ==> y.reqs[k].pc.Scan?
    requires Prompt(Calls(y, steps)) && OutlivesDay(y.db, DailyKey(id, name, day), day)
    ensures Served(Run(y, steps).reqs, DailyKey(id, name, day), lim) <= lim
  {
    ServedIsGranted(y, steps, DailyKey(id, name, day), lim);
    DailyLimit(y.db, Calls(y, steps), id, name, day, lim);
    NoneServed(y.reqs, DailyKey(id, name, day), lim);
  }

  // ... and one with a limit per period at most lim times more, in any stretch of a run
  // that lies within one lifetime of its key.
  lemma PeriodSelections<R, V>(y: Sys<R, V>, steps: seq<Step<R, V>>, id: string, name: string, lim: nat)
    requires OneLife(y.db, Calls(y, steps), PeriodKey(id, name))
    ensures Served(Run(y, steps).reqs, PeriodKey(id, name), lim) <= Served(y.reqs, PeriodKey(id, name), lim) + lim
  {
    ServedIsGranted(y, steps, PeriodKey(id, name), lim);
    PeriodLimit(y.db, Calls(y, steps), id, name, lim);
  }

  lemma {:induction false} NoneServed<R, V>(reqs: seq<Req<R, V>>, key: string, lim: nat)
    requires forall k :: 0 <= k < |reqs| ==> reqs[k].pc.Scan?
    ensures Served(reqs, key, lim) == 0
  {
    if reqs != [] { NoneServed(reqs[1..], key, lim); }
  }
}

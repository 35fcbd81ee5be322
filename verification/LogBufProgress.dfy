/** The shutdown of the log buffer ends: every step it needs uses up something. */
module LogBufProgress {
  import opened LogBuf
  import opened LogBufAccounting
  import opened LogBufTheorems

  // ----- what is left to do -----

  // An event costs less the further it has come.
  function EventsLeft(s: State): nat {
    8 * |s.pushing| + 7 * |s.inq| + 6 * |RunHeld(s.run)| + 6 * |OnceHeld(s.once)|
    + 4 * |Flat(s.queue)| + 2 * |WriterHeld(s.writer)|
  }

  function RunLeft(run: RunPc): nat {
    match run
    case NotStarted => 4
    case Looping(_) => 3
    case Offering(_, stop) => if stop then 2 else 3
    case Returning => 1
    case Finished => 0
  }

  function OnceLeft(once: OncePc): nat {
    match once
    case Open => 10
    case AwaitRun => 9
    case Draining(_) => 8
    case TryQueue(_, last) => if last then 6 else 8
    case BlockQueue(_, last) => if last then 5 else 7
    case Closing => 4
    case Shut => 0
  }

  function WriterLeft(writer: WriterPc): nat {
    match writer case Exited => 0 case LastLook => 1 case _ => 2
  }

  function CallerLeft(pc: CloserPc): nat {
    match pc
    case InOnce => 4
    case BlockedOnce => 4
    case AwaitWriter => 3
    case OutOfTime => 2
    case AwaitGrace => 1
    case Returned(_) => 0
  }

  ghost function CallersLeft(m: map<nat, CloserPc>): nat {
    if m == map[] then 0
    else
      var c :| c in m;
      CallerLeft(m[c]) + CallersLeft(m - {c})
  }

  lemma {:induction false} CallersWithout(m: map<nat, CloserPc>, c: nat)
    requires c in m
    ensures CallersLeft(m) == CallerLeft(m[c]) + CallersLeft(m - {c})
    decreases |m|
  {
    var d :| d in m && CallersLeft(m) == CallerLeft(m[d]) + CallersLeft(m - {d});
    if d != c {
      CallersWithout(m - {d}, c);
      CallersWithout(m - {c}, d);
      assert m - {d} - {c} == m - {c} - {d};
    }
  }

  lemma CallersUpdate(m: map<nat, CloserPc>, c: nat, pc: CloserPc)
    ensures CallersLeft(m[c := pc]) == CallersLeft(m) + CallerLeft(pc) - if c in m then CallerLeft(m[c]) else 0
  {
    CallersWithout(m[c := pc], c);
    if c in m {
      CallersWithout(m, c);
      assert m[c := pc] - {c} == m - {c};
    } else {
      assert m[c := pc] - {c} == m;
    }
  }

  ghost function Left(s: State): nat {
    EventsLeft(s) + RunLeft(s.run) + OnceLeft(s.once) + WriterLeft(s.writer) + CallersLeft(s.closers)
  }

  // ----- one step -----

  function Cost(b: bool): nat { if b then 1 else 0 }

  lemma {:induction false} LeftPush(s: State, p: PushStep)
    requires s.DoorShut() && PushEnabled(s, p)
    ensures Left(PushNext(s, p)) <= Left(s)
  {
    var t := PushNext(s, p);
    assert t.run == s.run && t.once == s.once && t.queue == s.queue && t.writer == s.writer && t.closers == s.closers;
    if p.Send? { assert |t.pushing| == |s.pushing| - 1; }
  }

  lemma {:induction false} LeftRun(s: State, r: RunStep)
    requires Sizes(s) && RunEnabled(s, r)
    ensures Left(RunNext(s, r)) + Cost(!r.Tick?) <= Left(s)
  {
    var t := RunNext(s, r);
    assert t == s.(run := t.run, inq := t.inq, queue := t.queue, lost := t.lost, h := t.h);
    if r.Offer? { FlatAppend(s.queue, s.run.cp); }
    assert r.Take? ==> |RunHeld(t.run)| == |RunHeld(s.run)| + 1;
    LeftByRun(s, t, Cost(!r.Tick?));
  }

  lemma LeftByRun(s: State, t: State, cost: nat)
    requires t == s.(run := t.run, inq := t.inq, queue := t.queue, lost := t.lost, h := t.h)
    requires 7 * |t.inq| + 6 * |RunHeld(t.run)| + 4 * |Flat(t.queue)| + RunLeft(t.run) + cost
      <= 7 * |s.inq| + 6 * |RunHeld(s.run)| + 4 * |Flat(s.queue)| + RunLeft(s.run)
    ensures Left(t) + cost <= Left(s)
  {
  }

  // The batch in hand goes to the queue, is counted, or waits for room.
  lemma LeftQueue(s: State, o: OnceStep)
    requires Sizes(s) && OnceEnabled(s, o) && (o.QueueTry? || o.QueueRoom? || o.QueueExpired?)
    ensures Left(OnceNext(s, o)) < Left(s)
  {
    var t := OnceNext(s, o);
    assert t == s.(queue := t.queue, once := t.once, lost := t.lost, h := t.h);
    FlatAppend(s.queue, s.once.cp);
    LeftInHand(s, t);
  }

  lemma LeftInHand(s: State, t: State)
    requires t == s.(queue := t.queue, once := t.once, lost := t.lost, h := t.h)
    requires 6 * |OnceHeld(t.once)| + 4 * |Flat(t.queue)| + OnceLeft(t.once)
      < 6 * |OnceHeld(s.once)| + 4 * |Flat(s.queue)| + OnceLeft(s.once)
    ensures Left(t) < Left(s)
  {
  }

  lemma {:induction false} LeftOnce(s: State, o: OnceStep)
    requires Sizes(s) && OnceEnabled(s, o)
    ensures Left(OnceNext(s, o)) < Left(s)
  {
    var t := OnceNext(s, o);
    if o.QueueTry? || o.QueueRoom? || o.QueueExpired? {
      LeftQueue(s, o);
    } else {
      assert t.pushing == s.pushing && t.run == s.run && t.queue == s.queue && t.writer == s.writer;
      if o.Finish? {
        CallersUpdate(s.closers, s.owner, AwaitWriter);
        assert t.inq == s.inq && OnceHeld(t.once) == OnceHeld(s.once) == [];
      } else {
        assert o.DrainTake? ==> |OnceHeld(t.once)| == |OnceHeld(s.once)| + 1;
      }
    }
  }

  lemma {:induction false} LeftWriter(s: State, w: WriterStep)
    requires Sizes(s) && WriterEnabled(s, w)
    ensures Left(WriterNext(s, w)) < Left(s)
  {
    var t := WriterNext(s, w);
    assert t.pushing == s.pushing && t.inq == s.inq && t.run == s.run && t.once == s.once && t.closers == s.closers;
    if w.TakeBatch? || w.LastTake? {
      assert |Flat(s.queue)| == |s.queue[0]| + |Flat(s.queue[1..])| && |s.queue[0]| > 0;
    }
  }

  // A new caller of Close adds the steps of one caller.
  lemma {:induction false} LeftClose(s: State, c: nat, k: CloserStep)
    requires s.DoorShut() && CloserEnabled(s, c, k)
    ensures Left(CloserNext(s, c, k)) + Cost(!k.Call?) <= Left(s) + 4 * Cost(k.Call?)
  {
    var t := CloserNext(s, c, k);
    assert EventsLeft(t) == EventsLeft(s) && t.run == s.run && t.once == s.once && t.writer == s.writer;
    CallersUpdate(s.closers, c, t.closers[c]);
    assert t.closers == s.closers[c := t.closers[c]];
  }

  // Past the closing of the door no step adds to what is left, but a new caller of Close,
  // and every step that the shutdown needs takes some of it away.
  lemma {:induction false} LeftStep(s: State, a: Action)
    requires s.DoorShut() && Sizes(s) && Enabled(s, a)
    ensures Next(s, a).DoorShut()
    ensures Left(Next(s, a)) + Cost(Internal(a)) <= Left(s) + 4 * Cost(IsCall(a))
  {
    match a {
      case Push(p) => LeftPush(s, p);
      case Run(r) => LeftRun(s, r);
      case Once(o) => LeftOnce(s, o);
      case Close(c, k) => LeftClose(s, c, k);
      case Write(w) => LeftWriter(s, w);
      case _ => LeftOutside(s, a);
    }
    DoorStaysShut(s, a);
  }

  lemma LeftOutside(s: State, a: Action)
    requires Enabled(s, a) && (a.CancelRun? || a.Expire?)
    ensures Left(Next(s, a)) == Left(s)
  {
    assert EventsLeft(Next(s, a)) == EventsLeft(s);
  }

  predicate IsCall(a: Action) { a.Close? && a.k.Call? }

  // ----- a whole schedule -----

  function InternalSteps(acts: seq<Action>): nat {
    if acts == [] then 0 else Cost(Internal(acts[0])) + InternalSteps(acts[1..])
  }

  function Calls(acts: seq<Action>): nat {
    if acts == [] then 0 else Cost(IsCall(acts[0])) + Calls(acts[1..])
  }

  lemma {:induction false} StepsLeft(s: State, acts: seq<Action>, t: State)
    requires s.DoorShut() && Sizes(s) && Exec(s, acts) == At(t)
    ensures InternalSteps(acts) + Left(t) <= Left(s) + 4 * Calls(acts)
    decreases |acts|
  {
    if acts != [] {
      LeftStep(s, acts[0]);
      SizesStep(s, acts[0]);
      StepsLeft(Next(s, acts[0]), acts[1..], t);
    }
  }

  // From a shut door on, no schedule takes more of the steps a shutdown needs than are
  // left, whatever else goes on; and while a Close has not returned there is one to take
  // (ShutdownNeverStuck).  So a shutdown whose goroutines keep running ends.
  lemma ShutdownEnds(capacity: int, batchSize: int, before: seq<Action>, s: State, acts: seq<Action>, t: State)
    requires Reaches(capacity, batchSize, before, s) && s.DoorShut() && Exec(s, acts) == At(t)
    ensures InternalSteps(acts) + Left(t) <= Left(s) + 4 * Calls(acts)
  {
    InvReached(capacity, batchSize, before, s);
    StepsLeft(s, acts, t);
  }
}

/** What holds after every schedule of the log buffer. */
module LogBufTheorems {
  import opened LogBuf
  import opened LogBufAccounting
  import opened LogBufShutdown
  import opened LogBufOrder

  ghost predicate Inv(s: State) {
    && Sizes(s) && Conserved(s) && Counted(s) && Doors(s) && Residue(s) && Entries(s)
    && Callers(s) && Tallied(s) && Ordered(s)
  }

  lemma InvInit(capacity: int, batchSize: int)
    ensures Inv(Init(capacity, batchSize))
  {
    var s := Init(capacity, batchSize);
    assert s.cfg == NewConfig(capacity, batchSize);
    InitIsEmpty(s, capacity, batchSize);
    InitConserved(s);
    InitOrdered(s);
  }

  // Nothing is anywhere, and nobody has done anything.
  predicate IsEmpty(s: State) {
    && s.inq == [] && s.queue == [] && s.closers == map[] && s.lost == Losses(0, 0, 0, 0)
    && s.run.NotStarted? && s.once.Open? && s.writer.Selecting? && s.pushing == {}
    && s.h == History({}, [], [], [], [], [], [], {}, -1, false)
  }

  lemma InitIsEmpty(s: State, capacity: int, batchSize: int)
    requires s.cfg == NewConfig(capacity, batchSize) && IsEmpty(s)
    ensures Sizes(s) && Counted(s) && Doors(s) && Residue(s) && Entries(s) && Callers(s)
  {
    assert Tail(s.inq, s.h.entered);
  }

  lemma InitConserved(s: State)
    requires IsEmpty(s)
    ensures Conserved(s) && Tallied(s)
  {
    assert Flat(s.queue) == [];
    forall e ensures Places(s, e) == 0 {}
  }

  lemma InitOrdered(s: State)
    requires IsEmpty(s)
    ensures Ordered(s)
  {
    assert Written(s) + Waiting(s) == [];
    assert Embeds([], s.h.entered, []);
  }

  lemma {:induction false} InvStep(s: State, a: Action)
    requires Inv(s) && Enabled(s, a)
    ensures Inv(Next(s, a)) && Next(s, a).cfg == s.cfg
  {
    SizesStep(s, a); ConservedStep(s, a); CountedStep(s, a); DoorsStep(s, a);
    ResidueStep(s, a); EntriesStep(s, a); CallersStep(s, a); TalliedStep(s, a); OrderedStep(s, a);
  }

  lemma {:induction false} InvExec(s: State, acts: seq<Action>, t: State)
    requires Inv(s) && Exec(s, acts) == At(t)
    ensures Inv(t) && t.cfg == s.cfg
    decreases |acts|
  {
    if acts != [] {
      InvStep(s, acts[0]);
      InvExec(Next(s, acts[0]), acts[1..], t);
    }
  }

  lemma InvReached(capacity: int, batchSize: int, acts: seq<Action>, s: State)
    requires Reaches(capacity, batchSize, acts, s)
    ensures Inv(s) && s.cfg == NewConfig(capacity, batchSize)
  {
    InvInit(capacity, batchSize);
    InvExec(Init(capacity, batchSize), acts, s);
  }

  // Conservation with identity, in every reachable state of every interleaving: a
  // pushed event is in exactly one place, once, and a place holds pushed events only;
  // the four counters are the numbers of events lost for each cause.
  lemma Conservation(capacity: int, batchSize: int, acts: seq<Action>, s: State)
    requires Reaches(capacity, batchSize, acts, s)
    ensures forall e :: Places(s, e) == if e in s.h.pushed then 1 else 0
    ensures s.lost == Losses(|s.h.full|, |s.h.overQueue|, |s.h.failed|, |s.h.late|)
  {
    InvReached(capacity, batchSize, acts, s);
  }

  // The queue and every batch keep their bounds, whatever the schedule.
  lemma Bounds(capacity: int, batchSize: int, acts: seq<Action>, s: State)
    requires Reaches(capacity, batchSize, acts, s)
    ensures s.cfg.capacity == (if capacity > 0 then capacity else 10000)
    ensures s.cfg.batchSize == (if batchSize > 0 then batchSize else 1000)
    ensures |s.inq| <= s.cfg.capacity
    ensures |s.queue| <= s.cfg.depth
    ensures s.cfg.depth == if s.cfg.capacity / s.cfg.batchSize > 2 then s.cfg.capacity / s.cfg.batchSize else 2
    ensures forall i :: 0 <= i < |s.queue| ==> 1 <= |s.queue[i]| <= s.cfg.batchSize
    ensures s.writer.Inserting? ==> 1 <= |s.writer.cp| <= s.cfg.batchSize
  {
    InvReached(capacity, batchSize, acts, s);
  }

  // If what is written and what waits are in the order of entry, so is what is stored.
  lemma StoredIsPrefix(s: State)
    requires InLine(s)
    ensures Subsequence(s.h.stored, s.h.entered)
  {
    var rest := WriterHeld(s.writer) + Flat(s.queue) + Waiting(s);
    FirstPart(s.h.stored, WriterHeld(s.writer), Flat(s.queue), Waiting(s));
    SubsequenceDrop(s.h.stored, rest, [], s.h.entered);
    assert s.h.stored + [] == s.h.stored;
  }

  lemma FirstPart(a: seq<Event>, b: seq<Event>, c: seq<Event>, d: seq<Event>)
    ensures a + b + c + d == a + (b + c + d) + []
  {
  }

  // Every event that is past the channel is stored or counted, once.
  ghost predicate Accounted(s: State) {
    forall e :: e in s.h.pushed && e !in s.pushing && e !in s.inq ==> Settled(s.h, e) == 1
  }

  // Once the writer has returned, every event is stored or counted exactly when Run has
  // nothing in its hands and the queue is empty, in identity and in number.  What may stay
  // in the channel are the events of pushes that were past the check when the door shut
  // and sent after the drain saw b.in empty.
  lemma ShutdownAccounting(capacity: int, batchSize: int, acts: seq<Action>, s: State)
    requires Reaches(capacity, batchSize, acts, s) && s.WriterDone()
    ensures Accounted(s) <==> RunHeld(s.run) == [] && s.queue == []
    ensures |s.h.pushed| == |s.h.stored| + s.lost.Total() + |s.pushing| + |s.inq|
      <==> RunHeld(s.run) == [] && s.queue == []
    ensures forall e :: e in s.pushing || e in s.inq ==> e in s.h.straddling && Settled(s.h, e) == 0
    ensures 0 <= s.h.drainedAt <= |s.h.entered| - |s.inq| && Tail(s.inq, s.h.entered)
    ensures Apart(s) ==> RunHeld(s.run) == [] && s.queue == [] && s.inq == s.h.entered[s.h.drainedAt..]
  {
    InvReached(capacity, batchSize, acts, s);
    assert s.DrainDone() && OnceHeld(s.once) == [] && WriterHeld(s.writer) == [];
    forall e | e in s.pushing || e in s.inq ensures e in s.h.straddling && Settled(s.h, e) == 0 {
      StillOutside(s, e);
    }
    NothingHidden(s);
    FlatEmpty(s.queue, s.cfg.batchSize);
  }

  lemma StillOutside(s: State, e: Event)
    requires Inv(s) && s.DrainDone() && (e in s.pushing || e in s.inq)
    ensures e in s.h.straddling && Settled(s.h, e) == 0
  {
    OccMember(s.inq, e);
    assert Places(s, e) == if e in s.h.pushed then 1 else 0;
    if e in s.inq {
      var k :| 0 <= k < |s.inq| && s.inq[k] == e;
      assert s.h.entered[|s.h.entered| - |s.inq| + k] == e;
    }
  }

  // The only places left are Run's hands and the queue.
  lemma NothingHidden(s: State)
    requires Inv(s) && OnceHeld(s.once) == [] && WriterHeld(s.writer) == []
    ensures Accounted(s) <==> RunHeld(s.run) == [] && s.queue == []
  {
    forall e | e in s.h.pushed && e !in s.pushing && e !in s.inq
      ensures Settled(s.h, e) + Occ(RunHeld(s.run), e) + Occ(Flat(s.queue), e) == 1
    {
      assert Places(s, e) == 1;
      OccMember(s.inq, e);
    }
    if RunHeld(s.run) != [] {
      HiddenIn(s, RunHeld(s.run)[0]);
    } else if s.queue != [] {
      assert |s.queue[0]| > 0;
      HiddenIn(s, s.queue[0][0]);
    }
  }

  lemma AccountedAtEnd(s: State)
    requires Inv(s) && s.WriterDone()
    ensures Accounted(s) <==> RunHeld(s.run) == [] && s.queue == []
  {
    assert s.DrainDone();
    NothingHidden(s);
  }

  lemma HiddenIn(s: State, e: Event)
    requires Conserved(s) && (e in RunHeld(s.run) || (s.queue != [] && e in s.queue[0]))
    ensures e in s.h.pushed && e !in s.pushing && e !in s.inq && Settled(s.h, e) == 0
  {
    assert Places(s, e) == if e in s.h.pushed then 1 else 0;
    OccMember(RunHeld(s.run), e);
    OccMember(s.inq, e);
    if s.queue != [] {
      OccMember(s.queue[0], e);
      OccDequeue(s.queue, e);
    }
  }

  lemma FlatEmpty(queue: seq<seq<Event>>, max: nat)
    requires forall i :: 0 <= i < |queue| ==> 1 <= |queue[i]| <= max
    ensures Flat(queue) == [] <==> queue == []
  {
    if queue != [] { assert |Flat(queue)| >= |queue[0]|; }
  }

  lemma {:induction false} OccMember(q: seq<Event>, e: Event)
    ensures Occ(q, e) > 0 <==> e in q
  {
    if q != [] { OccMember(q[1..], e); }
  }

  lemma NonEmptyHasMember(q: seq<Event>)
    ensures q == [] || exists e :: e in q
  {
    if q != [] { assert q[0] in q; }
  }

  // Close returns nil only after the writer has returned, so with no push straddling
  // the door what was pushed is exactly what was stored plus what Losses reports, unless
  // Run has a batch in its hands or in the queue.
  lemma CloseNilIsTheTruth(capacity: int, batchSize: int, acts: seq<Action>, s: State, c: nat)
    requires Reaches(capacity, batchSize, acts, s) && Closer(s, c, Returned(true))
    ensures s.WriterDone()
    ensures s.h.straddling == {} ==>
      (|s.h.pushed| == |s.h.stored| + s.lost.Total() <==> RunHeld(s.run) == [] && s.queue == [])
    ensures s.h.straddling == {} && Apart(s) ==> |s.h.pushed| == |s.h.stored| + s.lost.Total()
  {
    InvReached(capacity, batchSize, acts, s);
    ShutdownAccounting(capacity, batchSize, acts, s);
    if s.h.straddling == {} {
      assert s.pushing == {};
      NonEmptyHasMember(s.inq);
    }
  }

  // Close returns an error only past its own deadline, with the drain done and the running
  // insert cancelled.
  lemma CloseErrorIsLate(capacity: int, batchSize: int, acts: seq<Action>, s: State, c: nat)
    requires Reaches(capacity, batchSize, acts, s) && Closer(s, c, Returned(false))
    ensures c in s.expired && s.DrainDone() && s.cancelled
  {
    InvReached(capacity, batchSize, acts, s);
    assert CallerOk(s, c, Returned(false));
  }

  function DrainTakes(acts: seq<Action>): nat {
    if acts == [] then 0 else (if acts[0] == Once(DrainTake) then 1 else 0) + DrainTakes(acts[1..])
  }

  // The drain loop ends: from a shut door on, no schedule takes more events out of b.in
  // than it held then plus the pushes already past the check.
  lemma {:induction false} DrainTerminates(s: State, acts: seq<Action>, t: State)
    requires s.DoorShut() && Exec(s, acts) == At(t)
    ensures DrainTakes(acts) + |t.inq| + |t.pushing| <= |s.inq| + |s.pushing|
    decreases |acts|
  {
    if acts != [] {
      var u := Next(s, acts[0]);
      DrainMeasure(s, acts[0]);
      DrainTerminates(u, acts[1..], t);
    }
  }

  lemma OnceStaysShut(s: State, o: OnceStep)
    requires s.DoorShut() && OnceEnabled(s, o)
    ensures OnceNext(s, o).DoorShut()
  {
  }

  lemma CloserStaysShut(s: State, c: nat, k: CloserStep)
    requires s.DoorShut() && CloserEnabled(s, c, k)
    ensures CloserNext(s, c, k).DoorShut()
  {
  }

  lemma DoorStaysShut(s: State, a: Action)
    requires s.DoorShut() && Enabled(s, a)
    ensures Next(s, a).DoorShut()
  {
    match a {
      case Once(o) => OnceStaysShut(s, o);
      case Close(c, k) => CloserStaysShut(s, c, k);
      case _ => assert Next(s, a).once == s.once;
    }
  }

  lemma MeasurePush(s: State, p: PushStep)
    requires s.DoorShut() && PushEnabled(s, p)
    ensures var t := PushNext(s, p); |t.inq| + |t.pushing| <= |s.inq| + |s.pushing|
  {
    var t := PushNext(s, p);
    if p.Send? { assert |t.pushing| == |s.pushing| - 1; }
  }

  lemma {:induction false} DrainMeasure(s: State, a: Action)
    requires s.DoorShut() && Enabled(s, a)
    ensures Next(s, a).DoorShut()
    ensures |Next(s, a).inq| + |Next(s, a).pushing| <= |s.inq| + |s.pushing| - (if a == Once(DrainTake) then 1 else 0)
  {
    DoorStaysShut(s, a);
    match a {
      case Push(p) => MeasurePush(s, p);
      case _ => assert Next(s, a).pushing == s.pushing;
    }
  }

  // The steps a shutdown needs: neither callers from outside, nor a deadline, nor a timer.
  predicate Internal(a: Action) {
    match a
    case Run(r) => !r.Start? && !r.Tick? && !r.OnStopped?
    case Once(o) => !o.Grace? && !o.QueueExpired?
    case Close(_, k) => k.Unblock? || k.SeeWriterDone? || k.CancelInsert? || k.GiveUp?
    case Write(_) => true
    case _ => false
  }

  // Shutdown never deadlocks: while some Close has not returned and Run was started,
  // some goroutine can move without a new call, a deadline or the drain's grace timer.
  lemma ShutdownNeverStuck(capacity: int, batchSize: int, acts: seq<Action>, s: State, c: nat)
      returns (a: Action)
    requires Reaches(capacity, batchSize, acts, s)
    requires c in s.closers && !s.closers[c].Returned? && !s.run.NotStarted?
    ensures Internal(a) && Enabled(s, a)
  {
    InvReached(capacity, batchSize, acts, s);
    a := Run(Return);
    match s.once {
      case AwaitRun =>
        a := match s.run case Looping(_) => Run(OnClosed) case Offering(_, _) => Run(Offer)
             case Returning => Run(Return) case _ => Once(RunDone);
      case Draining(_) => a := if s.inq == [] then Once(DrainEmpty) else Once(DrainTake);
      case TryQueue(_, _) => a := Once(QueueTry);
      case BlockQueue(_, _) =>
        a := if |s.queue| < s.cfg.depth then Once(QueueRoom)
             else if s.writer.Inserting? then Write(InsertOk) else Write(TakeBatch);
      case Closing => a := Once(Finish);
      case Shut =>
        a := match s.closers[c]
          case BlockedOnce => Close(c, Unblock)
          case OutOfTime => Close(c, CancelInsert)
          case AwaitGrace => Close(c, GiveUp)
          case _ => (match s.writer
            case Selecting => Write(SeeDrained)
            case LastLook => if s.queue == [] then Write(Exit) else Write(LastTake)
            case Inserting(_) => Write(InsertOk)
            case Exited => Close(c, SeeWriterDone));
      case Open =>
    }
  }

  lemma {:induction false} ExecThen(s: State, acts: seq<Action>, t: State, a: Action)
    requires Exec(s, acts) == At(t) && Enabled(t, a)
    ensures Exec(s, acts + [a]) == At(Next(t, a))
    decreases |acts|
  {
    if acts == [] {
      assert acts + [a] == [a];
      assert Exec(Next(t, a), [a][1..]) == At(Next(t, a));
    } else {
      assert (acts + [a])[1..] == acts[1..] + [a];
      ExecThen(Next(s, acts[0]), acts[1..], t, a);
    }
  }

  lemma Step(acts: seq<Action>, s: State, a: Action) returns (acts': seq<Action>, s': State)
    requires Reaches(4, 2, acts, s) && Enabled(s, a)
    ensures Reaches(4, 2, acts', s') && s' == Next(s, a)
  {
    ExecThen(Init(4, 2), acts, s, a);
    acts', s' := acts + [a], Next(s, a);
  }

  // A state of the schedules below: two pushes, both entered, straddling nobody.
  function Scene(run: RunPc, once: OncePc, writer: WriterPc, closers: map<nat, CloserPc>,
                 inq: seq<Event>, queue: seq<seq<Event>>, stored: seq<Event>): State {
    Init(4, 2).(run := run, once := once, writer := writer, closers := closers, inq := inq, queue := queue,
      h := History({1, 2}, [1, 2], stored, [], [], [], [], {}, if Emptied(once) then 2 else -1, Past(once)))
  }

  lemma OneEntered() returns (acts: seq<Action>, s: State)
    ensures Reaches(4, 2, acts, s)
    ensures s == Init(4, 2).(run := Looping([]), inq := [1], h := History({1}, [1], [], [], [], [], [], {}, -1, false))
  {
    acts, s := [], Init(4, 2);
    acts, s := Step(acts, s, Run(Start));
    acts, s := Step(acts, s, Push(Check(1)));
    assert s.pushing == {1} && s.h.pushed == {1};
    acts, s := Step(acts, s, Push(PushStep.Send(1)));
    assert s.inq == [1] && s.pushing == {} && s.h.entered == [1];
  }

  lemma TwoEntered() returns (acts: seq<Action>, s: State)
    ensures Reaches(4, 2, acts, s)
    ensures s == Scene(Looping([1]), Open, Selecting, map[], [2], [], [])
  {
    acts, s := BothEntered();
    acts, s := Step(acts, s, Run(RunStep.Take));
    assert s.inq == [2] && s.run.batch == [1];
  }

  lemma BothEntered() returns (acts: seq<Action>, s: State)
    ensures Reaches(4, 2, acts, s)
    ensures s == Scene(Looping([]), Open, Selecting, map[], [1, 2], [], [])
  {
    acts, s := OneEntered();
    acts, s := Step(acts, s, Push(Check(2)));
    assert s.pushing == {2} && s.h.pushed == {1, 2};
    acts, s := Step(acts, s, Push(PushStep.Send(2)));
    assert s.inq == [1, 2] && s.pushing == {} && s.h.entered == [1, 2];
  }

  // Run holds the first event; Close gives up waiting for Run, drains the second itself.
  lemma GraceFires() returns (acts: seq<Action>, s: State)
    ensures Reaches(4, 2, acts, s)
    ensures s == Scene(Looping([1]), Shut, Selecting, map[0 := AwaitWriter], [], [[2]], [])
  {
    acts, s := GraceDrains();
    acts, s := GraceQueues(acts, s);
  }

  lemma GraceDrains() returns (acts: seq<Action>, s: State)
    ensures Reaches(4, 2, acts, s)
    ensures s == Scene(Looping([1]), Draining([2]), Selecting, map[0 := InOnce], [], [], [])
  {
    acts, s := GraceOver();
    acts, s := Step(acts, s, Once(DrainTake));
  }

  lemma GraceOver() returns (acts: seq<Action>, s: State)
    ensures Reaches(4, 2, acts, s)
    ensures s == Scene(Looping([1]), Draining([]), Selecting, map[0 := InOnce], [2], [], [])
  {
    acts, s := TwoEntered();
    acts, s := Step(acts, s, Close(0, Call));
    assert s.closers == map[0 := InOnce] && s.owner == 0;
    acts, s := Step(acts, s, Once(Grace));
  }

  lemma GraceQueues(acts0: seq<Action>, s0: State) returns (acts: seq<Action>, s: State)
    requires Reaches(4, 2, acts0, s0)
    requires s0 == Scene(Looping([1]), Draining([2]), Selecting, map[0 := InOnce], [], [], [])
    ensures Reaches(4, 2, acts, s)
    ensures s == Scene(Looping([1]), Shut, Selecting, map[0 := AwaitWriter], [], [[2]], [])
  {
    acts, s := Step(acts0, s0, Once(DrainEmpty));
    assert s == Scene(Looping([1]), TryQueue([2], true), Selecting, map[0 := InOnce], [], [], []);
    acts, s := Step(acts, s, Once(QueueTry));
    assert s == Scene(Looping([1]), Closing, Selecting, map[0 := InOnce], [], [[2]], []);
    acts, s := Step(acts, s, Once(Finish));
    assert s.closers == map[0 := AwaitWriter];
  }

  lemma BothQueued() returns (acts: seq<Action>, s: State)
    ensures Reaches(4, 2, acts, s)
    ensures s == Scene(Returning, Shut, Selecting, map[0 := AwaitWriter], [], [[1]], [2])
  {
    acts, s := GraceFires();
    acts, s := Step(acts, s, Run(OnClosed));
    acts, s := Step(acts, s, Run(Offer));
    assert s == Scene(Returning, Shut, Selecting, map[0 := AwaitWriter], [], [[2], [1]], []);
    acts, s := Step(acts, s, Write(TakeBatch));
    acts, s := Step(acts, s, Write(InsertOk));
  }

  // The branch "the accumulator did not stop" loses the order: 2 is stored before 1.
  lemma GraceBreaksOrder() returns (acts: seq<Action>, s: State)
    ensures Reaches(4, 2, acts, s) && !Apart(s) && !Subsequence(s.h.stored, s.h.entered)
  {
    acts, s := BothQueued();
    acts, s := Step(acts, s, Write(TakeBatch));
    acts, s := Step(acts, s, Write(InsertOk));
    assert s.h.stored == [2, 1] && s.h.entered == [1, 2];
    Swapped();
  }

  lemma Swapped()
    ensures !Subsequence([2, 1], [1, 2])
  {
    var a, b := [2, 1], [1, 2];
    assert a[0] == 2 && a[1] == 1;
    forall f ensures !Embeds(a, b, f) {
    }
  }

  // ... and the accounting: Close returns nil, nothing straddled the door, and an event
  // is left in a queue nobody reads, neither stored nor counted.
  lemma GraceLosesAnEvent() returns (acts: seq<Action>, s: State)
    ensures Reaches(4, 2, acts, s) && Closer(s, 0, Returned(true)) && s.h.straddling == {}
    ensures s.AccumulatorDone() && s.WriterDone() && s.h.pushed == {1, 2}
    ensures s.queue == [[1]] && s.h.stored == [2] && s.lost.Total() == 0
  {
    acts, s := WriterLeaves();
    acts, s := Step(acts, s, Close(0, SeeWriterDone));
    assert s == Scene(Looping([1]), Shut, Exited, map[0 := Returned(true)], [], [], [2]);
    acts, s := Step(acts, s, Run(OnClosed));
    acts, s := Step(acts, s, Run(Offer));
    assert s == Scene(Returning, Shut, Exited, map[0 := Returned(true)], [], [[1]], [2]);
    acts, s := Step(acts, s, Run(Return));
  }

  lemma WriterLeaves() returns (acts: seq<Action>, s: State)
    ensures Reaches(4, 2, acts, s)
    ensures s == Scene(Looping([1]), Shut, Exited, map[0 := AwaitWriter], [], [], [2])
  {
    acts, s := GraceFires();
    acts, s := Step(acts, s, Write(TakeBatch));
    acts, s := Step(acts, s, Write(InsertOk));
    assert s == Scene(Looping([1]), Shut, Selecting, map[0 := AwaitWriter], [], [], [2]);
    acts, s := Step(acts, s, Write(SeeDrained));
    acts, s := Step(acts, s, Write(Exit));
  }
}

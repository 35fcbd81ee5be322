/** From the closing of the door on: exactly when the log buffer can still lose an event uncounted. */
module LogBufLoss {
  import opened LogBuf
  import opened LogBufAccounting
  import opened LogBufShutdown
  import opened LogBufTheorems
  import opened LogBufProgress

  // Some schedule leads from s to t.
  ghost predicate Leads(s: State, t: State) { exists acts :: Exec(s, acts) == At(t) }

  lemma LeadsNowhere(s: State)
    ensures Leads(s, s)
  {
    assert Exec(s, []) == At(s);
  }

  lemma LeadsOn(s: State, t: State, a: Action)
    requires Leads(s, t) && Enabled(t, a)
    ensures Leads(s, Next(t, a))
  {
    var acts :| Exec(s, acts) == At(t);
    ExecThen(s, acts, t, a);
  }

  lemma LeadsFrom(s: State, a: Action, t: State)
    requires Enabled(s, a) && Leads(Next(s, a), t)
    ensures Leads(s, t)
  {
    var acts :| Exec(Next(s, a), acts) == At(t);
    assert ([a] + acts)[1..] == acts;
    assert Exec(s, [a] + acts) == At(t);
  }

  lemma {:induction false} LeadsThrough(s: State, acts: seq<Action>, t: State, u: State)
    requires Exec(s, acts) == At(t) && Leads(t, u)
    ensures Leads(s, u)
    decreases |acts|
  {
    if acts != [] {
      LeadsThrough(Next(s, acts[0]), acts[1..], t, u);
      LeadsFrom(s, acts[0], u);
    }
  }

  lemma LeadsTo(s: State, t: State, u: State)
    requires Leads(s, t) && Leads(t, u)
    ensures Leads(s, u)
  {
    var acts :| Exec(s, acts) == At(t);
    LeadsThrough(s, acts, t, u);
  }

  lemma InvLeads(s: State, t: State)
    requires Inv(s) && Leads(s, t)
    ensures Inv(t) && t.cfg == s.cfg
  {
    var acts :| Exec(s, acts) == At(t);
    InvExec(s, acts, t);
  }

  // ----- who can still take events -----

  predicate RunMayTake(run: RunPc) { run.NotStarted? || run.Looping? }

  // Events that nobody has taken yet; past the closing of the door there come no more.
  function Rest(s: State): nat { |s.pushing| + |s.inq| }

  // An event can still be lost: Run holds one, or can take one, or what it queued will
  // not be read.
  predicate CanLose(s: State) {
    || RunHeld(s.run) != []
    || (RunMayTake(s.run) && Rest(s) > 0)
    || (s.WriterDone() && s.queue != [])
  }

  // ----- what cannot happen stays so -----

  lemma RestFalls(s: State, a: Action)
    requires s.DoorShut() && Enabled(s, a)
    ensures Rest(Next(s, a)) <= Rest(s) - (if a == Run(RunStep.Take) || a == Once(DrainTake) then 1 else 0)
  {
    var t := Next(s, a);
    match a {
      case Push(p) => if p.Send? { assert |t.pushing| == |s.pushing| - 1; }
      case _ => assert t.pushing == s.pushing;
    }
  }

  lemma KeptRun(s: State, r: RunStep)
    requires Inv(s) && s.DoorShut() && !CanLose(s) && RunEnabled(s, r)
    ensures !CanLose(RunNext(s, r))
  {
    assert RunHeld(s.run) == [] && !r.Take? && !r.Offer?;
  }

  lemma KeptOnce(s: State, o: OnceStep)
    requires Inv(s) && s.DoorShut() && !CanLose(s) && OnceEnabled(s, o)
    ensures !CanLose(OnceNext(s, o))
  {
    RestFalls(s, Once(o));
    assert !s.WriterDone();
  }

  lemma KeptStep(s: State, a: Action)
    requires Inv(s) && s.DoorShut() && !CanLose(s) && Enabled(s, a)
    ensures !CanLose(Next(s, a))
  {
    RestFalls(s, a);
    match a {
      case Run(r) => KeptRun(s, r);
      case Once(o) => KeptOnce(s, o);
      case _ => assert Next(s, a).run == s.run;
    }
  }

  lemma {:induction false} KeptExec(s: State, acts: seq<Action>, t: State)
    requires Inv(s) && s.DoorShut() && !CanLose(s) && Exec(s, acts) == At(t)
    ensures !CanLose(t)
    decreases |acts|
  {
    if acts != [] {
      KeptStep(s, acts[0]);
      InvStep(s, acts[0]);
      DoorStaysShut(s, acts[0]);
      KeptExec(Next(s, acts[0]), acts[1..], t);
    }
  }

  lemma Kept(s: State, t: State)
    requires Inv(s) && s.DoorShut() && !CanLose(s) && Leads(s, t) && t.WriterDone()
    ensures Accounted(t)
  {
    var acts :| Exec(s, acts) == At(t);
    KeptExec(s, acts, t);
    InvExec(s, acts, t);
    AccountedAtEnd(t);
  }

  // ----- what can happen does, on some schedule -----

  // An event enters the channel, unless there is one in it.
  lemma Fill(s: State) returns (t: State)
    requires Sizes(s) && Rest(s) > 0
    ensures Leads(s, t) && t.inq != [] && Rest(t) == Rest(s) && Sizes(t)
    ensures t == s.(pushing := t.pushing, inq := t.inq, h := s.h.(entered := t.h.entered))
  {
    LeadsNowhere(s);
    t := s;
    if s.inq == [] {
      assert s.pushing != {};
      var e :| e in s.pushing;
      t := Next(s, Push(PushStep.Send(e)));
      LeadsOn(s, s, Push(PushStep.Send(e)));
      SizesStep(s, Push(PushStep.Send(e)));
      assert |t.pushing| == |s.pushing| - 1;
    }
  }

  // Run takes an event.
  lemma RunFills(s: State) returns (t: State)
    requires Sizes(s) && RunMayTake(s.run) && Rest(s) > 0
    ensures Leads(s, t) && RunHeld(t.run) != [] && Rest(t) == Rest(s) - 1
    ensures t == s.(pushing := t.pushing, inq := t.inq, run := t.run, h := t.h)
  {
    var u := Fill(s);
    t := u;
    if t.run.NotStarted? {
      t := Next(u, Run(RunStep.Start));
      LeadsOn(s, u, Run(RunStep.Start));
    }
    LeadsOn(s, t, Run(RunStep.Take));
    t := Next(t, Run(RunStep.Take));
  }

  // The step that ends the drain or the writer, whatever Run does.
  function Onward(s: State): Action
    requires s.DoorShut() && !s.WriterDone()
  {
    match s.once
    case AwaitRun => Once(Grace)
    case Draining(_) => if s.inq == [] then Once(DrainEmpty) else Once(DrainTake)
    case TryQueue(_, _) => Once(QueueTry)
    case BlockQueue(_, _) =>
      if |s.queue| < s.cfg.depth then Once(QueueRoom)
      else if s.writer.Inserting? then Write(InsertOk)
      else if s.writer.Selecting? then Write(TakeBatch) else Write(LastTake)
    case Closing => Once(Finish)
    case _ => WriterOnward(s)
  }

  function WriterOnward(s: State): Action {
    if s.writer.Inserting? then Write(InsertOk)
    else if s.writer.Selecting? then Write(SeeDrained)
    else if s.queue == [] then Write(Exit) else Write(LastTake)
  }

  lemma OnwardEnabled(s: State)
    requires s.DoorShut() && !s.WriterDone() && Sizes(s)
    ensures var a := Onward(s); Enabled(s, a) && (a.Once? || a.Write?) && a != Once(RunDone)
    ensures var a := Onward(s); a.Once? ==> !s.once.Shut? && (a == Once(Finish) <==> s.once.Closing?)
    ensures var a := Onward(s); a.Write? ==> !s.once.Closing?
    ensures Onward(s) == Write(Exit) ==> s.once.Shut?
  {
  }

  // What such a step leaves alone.
  predicate Onto(s: State, t: State) {
    && t.run == s.run && t.owner == s.owner && t.pushing == s.pushing
    && t.closers == (if s.once.Closing? then s.closers[s.owner := AwaitWriter] else s.closers)
    && (t.once.Shut? <==> s.once.Shut? || s.once.Closing?)
  }

  lemma OnceGoesOn(s: State, o: OnceStep)
    requires s.DoorShut() && Sizes(s) && OnceEnabled(s, o) && (o.Finish? <==> s.once.Closing?)
    ensures var t := OnceNext(s, o); Left(t) < Left(s) && Onto(s, t)
  {
    LeftOnce(s, o);
  }

  lemma WriterGoesOn(s: State, w: WriterStep)
    requires s.DoorShut() && Sizes(s) && WriterEnabled(s, w) && !s.once.Closing?
    ensures var t := WriterNext(s, w); Left(t) < Left(s) && Onto(s, t)
  {
    LeftWriter(s, w);
  }

  lemma OnwardGoesOn(s: State)
    requires s.DoorShut() && !s.WriterDone() && Sizes(s)
    ensures Enabled(s, Onward(s))
    ensures var t := Next(s, Onward(s)); Left(t) < Left(s) && t.DoorShut() && Sizes(t) && Onto(s, t)
  {
    OnwardEnabled(s);
    var a := Onward(s);
    if a.Once? { OnceGoesOn(s, a.o); } else { WriterGoesOn(s, a.w); }
    SizesStep(s, a);
    DoorStaysShut(s, a);
  }

  // The drain and the writer end while Run does nothing.
  lemma {:induction false} WriterEnds(s: State) returns (t: State)
    requires s.DoorShut() && Sizes(s)
    ensures Leads(s, t) && t.WriterDone() && t.run == s.run && t.owner == s.owner
    ensures s.WriterDone() ==> t == s
    ensures !s.WriterDone() ==> t.closers == if s.once.Shut? then s.closers else s.closers[s.owner := AwaitWriter]
    decreases Left(s)
  {
    if s.WriterDone() {
      LeadsNowhere(s);
      t := s;
    } else {
      OnwardGoesOn(s);
      OnwardEnabled(s);
      var u := Next(s, Onward(s));
      t := WriterEnds(u);
      LeadsFrom(s, Onward(s), t);
    }
  }

  // Run comes to hold an event ...
  lemma RunHolds(s: State) returns (t: State)
    requires Inv(s) && CanLose(s) && !s.WriterDone()
    ensures Leads(s, t) && RunHeld(t.run) != []
    ensures t == s.(pushing := t.pushing, inq := t.inq, run := t.run, h := t.h)
  {
    if RunHeld(s.run) != [] {
      LeadsNowhere(s);
      t := s;
    } else {
      t := RunFills(s);
    }
  }

  // ... and the shutdown ends without it.
  lemma EndsWithout(s: State) returns (t: State)
    requires Inv(s) && s.DoorShut() && CanLose(s) && !s.WriterDone()
    ensures Leads(s, t) && t.WriterDone() && RunHeld(t.run) != []
    ensures !s.DrainDone() ==> Closer(t, t.owner, AwaitWriter) && t.owner == s.owner
  {
    var u := RunHolds(s);
    InvLeads(s, u);
    t := WriterEnds(u);
    LeadsTo(s, u, t);
  }

  lemma Lost(s: State) returns (t: State)
    requires Inv(s) && s.DoorShut() && CanLose(s)
    ensures Leads(s, t) && t.WriterDone() && !Accounted(t)
    ensures !s.DrainDone() ==> Closer(t, t.owner, AwaitWriter) && t.owner == s.owner
  {
    if s.WriterDone() { t := RunGets(s); } else { t := EndsWithout(s); }
    InvLeads(s, t);
    AccountedAtEnd(t);
  }

  lemma RunGets(s: State) returns (t: State)
    requires Inv(s) && s.WriterDone() && CanLose(s)
    ensures Leads(s, t) && t.WriterDone() && (RunHeld(t.run) != [] || t.queue != [])
  {
    if RunHeld(s.run) != [] || s.queue != [] {
      LeadsNowhere(s);
      t := s;
    } else {
      t := RunFills(s);
    }
  }

  // From the closing of the door on: some way of going on ends with the writer gone and an
  // event neither stored nor counted, exactly if Run holds an event or can still take one
  // (or has left one to a writer that is gone).
  lemma LossIff(capacity: int, batchSize: int, acts: seq<Action>, s: State)
    requires Reaches(capacity, batchSize, acts, s) && s.DoorShut()
    ensures (exists t :: Leads(s, t) && t.WriterDone() && !Accounted(t)) <==> CanLose(s)
  {
    InvReached(capacity, batchSize, acts, s);
    if CanLose(s) {
      var t := Lost(s);
    } else {
      forall t | Leads(s, t) && t.WriterDone() ensures Accounted(t) { Kept(s, t); }
    }
  }

  // Until the drain is done, in that case and in no other can Close return nil over it.
  lemma NilLiesIff(capacity: int, batchSize: int, acts: seq<Action>, s: State)
    requires Reaches(capacity, batchSize, acts, s) && s.DoorShut() && !s.DrainDone()
    ensures (exists t :: Leads(s, t) && Closer(t, s.owner, Returned(true)) && !Accounted(t)) <==> CanLose(s)
  {
    InvReached(capacity, batchSize, acts, s);
    if CanLose(s) {
      var u := Lost(s);
      var t := Next(u, Close(s.owner, SeeWriterDone));
      LeadsOn(s, u, Close(s.owner, SeeWriterDone));
      assert Closer(t, s.owner, Returned(true));
      SameAccount(u, t);
    } else {
      forall t | Leads(s, t) && Closer(t, s.owner, Returned(true)) ensures Accounted(t) {
        InvLeads(s, t);
        assert CallerOk(t, s.owner, Returned(true));
        Kept(s, t);
      }
    }
  }

  lemma SameAccount(s: State, t: State)
    requires t.h == s.h && t.pushing == s.pushing && t.inq == s.inq
    ensures Accounted(t) <==> Accounted(s)
  {
  }
}

/** Shutdown of the log buffer: phases, accounting, order of what is stored, progress. */
module LogBufShutdown {
  import opened LogBuf
  import opened LogBufAccounting

  // The drain has begun.
  predicate Past(once: OncePc) { !once.Open? && !once.AwaitRun? }

  // The drain has seen b.in empty.
  predicate Emptied(once: OncePc) {
    once.Closing? || once.Shut? || (once.TryQueue? && once.last) || (once.BlockQueue? && once.last)
  }

  // The drain has had b.in to itself: Run had ended before it, or was never started.
  predicate Apart(s: State) { !s.h.besideRun || s.run.NotStarted? }

  predicate Doors(s: State) {
    && (s.DoorShut() ==> s.pushing <= s.h.straddling)
    && (s.h.besideRun ==> Past(s.once))
    && (Past(s.once) && !s.h.besideRun ==> s.AccumulatorDone())
    && (s.writer.LastLook? || s.writer.Exited? ==> s.DrainDone())
    && (s.WriterDone() && Apart(s) ==> s.queue == [])
  }

  lemma {:induction false} DoorsRun(s: State, r: RunStep)
    requires Doors(s) && RunEnabled(s, r)
    ensures Doors(RunNext(s, r))
  {
  }

  lemma {:induction false} DoorsOnce(s: State, o: OnceStep)
    requires Doors(s) && OnceEnabled(s, o)
    ensures Doors(OnceNext(s, o))
  {
  }

  lemma {:induction false} DoorsStep(s: State, a: Action)
    requires Doors(s) && Enabled(s, a)
    ensures Doors(Next(s, a))
  {
    match a {
      case Run(r) => DoorsRun(s, r);
      case Once(o) => DoorsOnce(s, o);
      case _ =>
    }
  }

  // The channel holds the last events that entered it.
  predicate Tail(inq: seq<Event>, entered: seq<Event>) {
    |inq| <= |entered| && inq == entered[|entered| - |inq|..]
  }

  predicate AllIn(entered: seq<Event>, from: int, events: set<Event>) {
    forall k :: 0 <= from <= k < |entered| ==> entered[k] in events
  }

  // What enters b.in after the drain saw it empty was sent by pushes that straddled the
  // door; it stays there if the drain has the channel to itself.
  predicate Residue(s: State) {
    && (0 <= s.h.drainedAt <==> Emptied(s.once))
    && Tail(s.inq, s.h.entered)
    && (Emptied(s.once) ==>
          s.h.drainedAt <= |s.h.entered| - |s.inq| && AllIn(s.h.entered, s.h.drainedAt, s.h.straddling))
    && (Emptied(s.once) && Apart(s) ==> s.h.drainedAt == |s.h.entered| - |s.inq|)
  }

  lemma TailTake(inq: seq<Event>, entered: seq<Event>)
    requires Tail(inq, entered) && inq != []
    ensures Tail(inq[1..], entered)
  {
  }

  lemma TailSend(inq: seq<Event>, entered: seq<Event>, e: Event)
    requires Tail(inq, entered)
    ensures Tail(inq + [e], entered + [e])
  {
  }

  lemma AllInSend(entered: seq<Event>, from: int, events: set<Event>, e: Event)
    requires AllIn(entered, from, events) && e in events
    ensures AllIn(entered + [e], from, events)
  {
  }

  lemma {:induction false} ResiduePush(s: State, p: PushStep)
    requires Doors(s) && Residue(s) && PushEnabled(s, p)
    ensures Residue(PushNext(s, p))
  {
    var t := PushNext(s, p);
    if t.inq != s.inq {
      assert t.inq == s.inq + [p.e] && t.h.entered == s.h.entered + [p.e];
      TailSend(s.inq, s.h.entered, p.e);
      if Emptied(s.once) { AllInSend(s.h.entered, s.h.drainedAt, s.h.straddling, p.e); }
    } else {
      ResidueSame(s, t);
    }
  }

  lemma {:induction false} ResidueOnce(s: State, o: OnceStep)
    requires Doors(s) && Residue(s) && OnceEnabled(s, o)
    ensures Residue(OnceNext(s, o))
  {
    var t := OnceNext(s, o);
    if o.DrainEmpty? {
      assert t.inq == [] && t.h.drainedAt == |t.h.entered|;
    } else if o.DrainTake? {
      TailTake(s.inq, s.h.entered);
      assert !Emptied(t.once);
    } else {
      assert t.inq == s.inq && t.h.drainedAt == s.h.drainedAt;
      assert Emptied(t.once) == Emptied(s.once);
    }
  }

  lemma {:induction false} ResidueRun(s: State, r: RunStep)
    requires Doors(s) && Residue(s) && RunEnabled(s, r)
    ensures Residue(RunNext(s, r))
  {
    if r.Take? {
      TailTake(s.inq, s.h.entered);
      assert Emptied(s.once) ==> s.h.besideRun;
    }
  }

  lemma {:induction false} ResidueSame(s: State, t: State)
    requires Residue(s) && t.inq == s.inq && (Apart(t) ==> Apart(s)) && Emptied(t.once) == Emptied(s.once)
    requires t.h.drainedAt == s.h.drainedAt && t.h.entered == s.h.entered
    requires Emptied(s.once) ==> t.h.straddling == s.h.straddling
    ensures Residue(t)
  {
  }

  lemma {:induction false} ResidueStep(s: State, a: Action)
    requires Doors(s) && Residue(s) && Enabled(s, a)
    ensures Residue(Next(s, a))
  {
    match a {
      case Push(p) => ResiduePush(s, p);
      case Once(o) => ResidueOnce(s, o);
      case Run(r) => ResidueRun(s, r);
      case Close(c, k) => ResidueSame(s, CloserNext(s, c, k));
      case Write(w) => ResidueSame(s, WriterNext(s, w));
      case _ => ResidueSame(s, Next(s, a));
    }
  }

  // An event enters b.in once, and none that is still being pushed has.
  predicate Entries(s: State) {
    && (forall i, j :: 0 <= i < j < |s.h.entered| ==> s.h.entered[i] != s.h.entered[j])
    && (forall e :: e in s.pushing ==> e in s.h.pushed && e !in s.h.entered)
    && (forall e :: e in s.h.entered ==> e in s.h.pushed)
  }

  lemma {:induction false} EntriesStep(s: State, a: Action)
    requires Entries(s) && Enabled(s, a)
    ensures Entries(Next(s, a))
  {
    var t := Next(s, a);
    if a.Push? {
      assert t.h.entered == s.h.entered || t.h.entered == s.h.entered + [a.p.e];
    } else {
      assert t.h.entered == s.h.entered && t.h.pushed == s.h.pushed && t.pushing == s.pushing;
    }
  }

  predicate Callers(s: State) {
    forall c :: c in s.closers ==> CallerOk(s, c, s.closers[c])
  }

  predicate CallerOk(s: State, c: nat, pc: CloserPc) {
    match pc
    case InOnce => c == s.owner && s.DoorShut() && !s.DrainDone()
    case BlockedOnce => s.DoorShut()
    case AwaitWriter => s.DrainDone()
    case OutOfTime => s.DrainDone() && c in s.expired
    case AwaitGrace => s.DrainDone() && c in s.expired && s.cancelled
    case Returned(ok) => s.DrainDone() && if ok then s.WriterDone() else c in s.expired && s.cancelled
  }

  // Nothing that a caller relies on is undone by the other goroutines.
  lemma {:induction false} CallersStay(s: State, t: State)
    requires Callers(s) && t.closers == s.closers && t.owner == s.owner
    requires s.DoorShut() ==> t.DoorShut()
    requires s.DrainDone() == t.DrainDone() && (s.WriterDone() ==> t.WriterDone()) && s.expired <= t.expired
    requires s.cancelled ==> t.cancelled
    ensures Callers(t)
  {
    forall c | c in t.closers ensures CallerOk(t, c, t.closers[c]) { assert CallerOk(s, c, s.closers[c]); }
  }

  lemma {:induction false} CallersClose(s: State, c: nat, k: CloserStep)
    requires Callers(s) && CloserEnabled(s, c, k)
    ensures Callers(CloserNext(s, c, k))
  {
    var t := CloserNext(s, c, k);
    forall d | d in t.closers ensures CallerOk(t, d, t.closers[d]) {
      if d in s.closers { assert CallerOk(s, d, s.closers[d]); }
    }
  }

  lemma {:induction false} CallersFinish(s: State)
    requires Callers(s) && s.once.Closing?
    ensures Callers(OnceNext(s, Finish))
  {
    var t := OnceNext(s, Finish);
    forall d | d in t.closers ensures CallerOk(t, d, t.closers[d]) {
      if d in s.closers { assert CallerOk(s, d, s.closers[d]); }
    }
  }

  lemma {:induction false} CallersStep(s: State, a: Action)
    requires Callers(s) && Enabled(s, a)
    ensures Callers(Next(s, a))
  {
    match a {
      case Close(c, k) => CallersClose(s, c, k);
      case Once(o) => if o.Finish? { CallersFinish(s); } else { CallersStay(s, OnceNext(s, o)); }
      case Push(p) => CallersStay(s, PushNext(s, p));
      case Run(r) => CallersStay(s, RunNext(s, r));
      case Write(w) => CallersStay(s, WriterNext(s, w));
      case _ => CallersStay(s, Next(s, a));
    }
  }

  // Every push is stored, lost, or still on the way: in numbers.
  predicate Tallied(s: State) {
    && s.pushing <= s.h.pushed
    && |s.h.pushed| == |s.pushing| + |s.inq| + |RunHeld(s.run)| + |OnceHeld(s.once)|
         + |Flat(s.queue)| + |WriterHeld(s.writer)| + |s.h.stored| + s.lost.Total()
  }

  lemma {:induction false} TalliedRun(s: State, r: RunStep)
    requires Tallied(s) && RunEnabled(s, r)
    ensures Tallied(RunNext(s, r))
  {
    var t := RunNext(s, r);
    if r.Offer? { FlatAppend(s.queue, s.run.cp); }
    assert r.Take? ==> |RunHeld(t.run)| == |RunHeld(s.run)| + 1;
  }

  lemma {:induction false} TalliedOnce(s: State, o: OnceStep)
    requires Tallied(s) && OnceEnabled(s, o)
    ensures Tallied(OnceNext(s, o))
  {
    var t := OnceNext(s, o);
    if o.QueueTry? || o.QueueRoom? { FlatAppend(s.queue, s.once.cp); }
    assert o.DrainTake? ==> |OnceHeld(t.once)| == |OnceHeld(s.once)| + 1;
  }

  lemma {:induction false} TalliedWriter(s: State, w: WriterStep)
    requires Tallied(s) && WriterEnabled(s, w)
    ensures Tallied(WriterNext(s, w))
  {
    if w.TakeBatch? || w.LastTake? { assert |Flat(s.queue)| == |s.queue[0]| + |Flat(s.queue[1..])|; }
  }

  lemma {:induction false} TalliedPush(s: State, p: PushStep)
    requires Tallied(s) && PushEnabled(s, p)
    ensures Tallied(PushNext(s, p))
  {
    var t := PushNext(s, p);
    assert t.run == s.run && t.once == s.once && t.queue == s.queue && t.writer == s.writer;
  }

  lemma {:induction false} TalliedStep(s: State, a: Action)
    requires Tallied(s) && Enabled(s, a)
    ensures Tallied(Next(s, a))
  {
    match a {
      case Run(r) => TalliedRun(s, r);
      case Once(o) => TalliedOnce(s, o);
      case Write(w) => TalliedWriter(s, w);
      case Push(p) => TalliedPush(s, p);
      case Close(c, k) => TalliedClose(s, c, k);
      case _ =>
    }
  }

  lemma {:induction false} TalliedClose(s: State, c: nat, k: CloserStep)
    requires Tallied(s) && CloserEnabled(s, c, k)
    ensures Tallied(CloserNext(s, c, k))
  {
    var t := CloserNext(s, c, k);
    assert OnceHeld(t.once) == OnceHeld(s.once);
  }
}

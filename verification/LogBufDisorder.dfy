/** From the closing of the door on: exactly when the log buffer can still store events out of order. */
module LogBufDisorder {
  import opened LogBuf
  import opened LogBufAccounting
  import opened LogBufShutdown
  import opened LogBufOrder
  import opened LogBufTheorems
  import opened LogBufProgress
  import opened LogBufLoss

  predicate DrainMayTake(once: OncePc) { !Emptied(once) }

  // The order can still break: it has, or Run and the drain can both come to hold events.
  ghost predicate CanBreak(s: State) {
    if s.WriterDone() then !Subsequence(s.h.stored, s.h.entered) else !InLine(s) || CanCross(s)
  }

  predicate CanCross(s: State) { Cross(s.run, s.once, Rest(s)) }

  // Both hold events, or one does and the other can take one of the rest, or both can.
  predicate Cross(run: RunPc, once: OncePc, rest: nat) {
    || (RunHeld(run) != [] && OnceHeld(once) != [])
    || (RunHeld(run) != [] && DrainMayTake(once) && rest > 0)
    || (OnceHeld(once) != [] && RunMayTake(run) && rest > 0)
    || (RunMayTake(run) && DrainMayTake(once) && rest > 1)
  }

  // ----- what is in turn stays so -----

  lemma CrossRest(run: RunPc, once: OncePc, rest: nat, less: nat)
    requires !Cross(run, once, rest) && less <= rest
    ensures !Cross(run, once, less)
  {
  }

  // Run takes an event or not; if not, it does not come to hold or to take more.
  lemma CrossRun(s: State, r: RunStep, rest: nat)
    requires RunEnabled(s, r) && RunSize(s.run, s.cfg.batchSize) && !Cross(s.run, s.once, rest)
    requires r.Take? ==> rest > 0
    ensures InTurn(s, Run(r)) && !Cross(RunNext(s, r).run, s.once, if r.Take? then rest - 1 else rest)
  {
    if r.Take? { assert RunHeld(RunNext(s, r).run) != []; }
  }

  lemma CrossOnce(s: State, o: OnceStep, rest: nat)
    requires OnceEnabled(s, o) && OnceSize(s.once, s.cfg.batchSize) && !Cross(s.run, s.once, rest)
    requires o.DrainTake? ==> rest > 0
    ensures InTurn(s, Once(o)) && !Cross(s.run, OnceNext(s, o).once, if o.DrainTake? then rest - 1 else rest)
  {
    if Queues(o) { assert OnceHeld(s.once) == s.once.cp && |s.once.cp| > 0; }
  }

  lemma CrossStep(s: State, a: Action)
    requires Sizes(s) && s.DoorShut() && !CanCross(s) && Enabled(s, a)
    ensures InTurn(s, a) && !CanCross(Next(s, a))
  {
    var t := Next(s, a);
    RestFalls(s, a);
    match a {
      case Run(r) =>
        CrossRun(s, r, Rest(s));
        CrossRest(t.run, t.once, if r.Take? then Rest(s) - 1 else Rest(s), Rest(t));
      case Once(o) =>
        CrossOnce(s, o, Rest(s));
        CrossRest(t.run, t.once, if o.DrainTake? then Rest(s) - 1 else Rest(s), Rest(t));
      case _ =>
        assert t.run == s.run && t.once == s.once;
        CrossRest(t.run, t.once, Rest(s), Rest(t));
    }
  }

  lemma SubsequenceGrow(a: seq<Event>, b: seq<Event>, c: seq<Event>)
    requires Subsequence(a, b)
    ensures Subsequence(a, b + c)
  {
    var f :| Embeds(a, b, f);
    assert Embeds(a, b + c, f);
  }

  lemma EnteredGrows(s: State, a: Action)
    requires Enabled(s, a)
    ensures s.h.entered <= Next(s, a).h.entered
    ensures s.WriterDone() ==> Next(s, a).WriterDone() && Next(s, a).h.stored == s.h.stored
  {
  }

  lemma SafeStep(s: State, a: Action)
    requires Inv(s) && s.DoorShut() && !CanBreak(s) && Enabled(s, a)
    ensures !CanBreak(Next(s, a))
  {
    var t := Next(s, a);
    if s.WriterDone() {
      EnteredGrows(s, a);
      SubsequenceGrow(s.h.stored, s.h.entered, t.h.entered[|s.h.entered|..]);
      assert t.h.entered == s.h.entered + t.h.entered[|s.h.entered|..];
    } else {
      CrossStep(s, a);
      InLineStep(s, a);
      StoredIsPrefix(t);
    }
  }

  lemma {:induction false} SafeExec(s: State, acts: seq<Action>, t: State)
    requires Inv(s) && s.DoorShut() && !CanBreak(s) && Exec(s, acts) == At(t)
    ensures !CanBreak(t)
    decreases |acts|
  {
    if acts != [] {
      SafeStep(s, acts[0]);
      InvStep(s, acts[0]);
      DoorStaysShut(s, acts[0]);
      SafeExec(Next(s, acts[0]), acts[1..], t);
    }
  }

  lemma StaysInOrder(s: State, t: State)
    requires Inv(s) && s.DoorShut() && !CanBreak(s) && Leads(s, t)
    ensures Subsequence(t.h.stored, t.h.entered)
  {
    var acts :| Exec(s, acts) == At(t);
    SafeExec(s, acts, t);
    if !t.WriterDone() { StoredIsPrefix(t); }
  }

  // ----- schedules that break it -----

  // The writer stores all that is queued.
  lemma {:induction false} Flush(s: State) returns (t: State)
    requires !s.WriterDone()
    ensures Leads(s, t) && !t.WriterDone() && !t.writer.Inserting?
    ensures t == s.(queue := [], writer := t.writer, h := s.h.(stored := Written(s)))
    decreases 2 * |s.queue| + if s.writer.Inserting? then 1 else 0
  {
    if !s.writer.Inserting? && s.queue == [] {
      LeadsNowhere(s);
      t := s;
      assert Written(s) == s.h.stored;
    } else {
      var w := if s.writer.Inserting? then InsertOk else if s.writer.Selecting? then TakeBatch else LastTake;
      WrittenStays(s, w);
      t := Flush(WriterNext(s, w));
      LeadsFrom(s, Write(w), t);
    }
  }

  // Run hands its batch to an empty queue.
  lemma RunQueues(s: State) returns (t: State)
    requires s.queue == [] && s.cfg.depth > 0 && RunHeld(s.run) != []
    ensures Leads(s, t) && t == s.(run := t.run, queue := [RunHeld(s.run)])
  {
    LeadsNowhere(s);
    t := s;
    if s.run.Looping? {
      t := Next(s, Run(Tick));
      LeadsOn(s, s, Run(Tick));
    }
    LeadsOn(s, t, Run(Offer));
    t := Next(t, Run(Offer));
  }

  // Run's batch is stored after all that is queued.
  lemma RunWrites(s: State) returns (t: State)
    requires !s.WriterDone() && s.cfg.depth > 0 && RunHeld(s.run) != []
    ensures Leads(s, t) && !t.WriterDone() && t.h.stored == Written(t) == Written(s) + RunHeld(s.run)
    ensures t == s.(run := t.run, queue := t.queue, writer := t.writer, h := s.h.(stored := t.h.stored))
  {
    var u := Flush(s);
    var v := RunQueues(u);
    LeadsTo(s, u, v);
    OneBatch(v.queue, s.run);
    Joined(Written(s), RunHeld(s.run), []);
    t := Flush(v);
    LeadsTo(s, v, t);
  }

  lemma OneBatch(queue: seq<seq<Event>>, run: RunPc)
    requires queue == [RunHeld(run)]
    ensures Flat(queue) == RunHeld(run)
  {
    assert queue[1..] == [];
  }

  // The drain takes what is in the channel until its batch is full or the channel empty.
  lemma {:induction false} DrainStops(s: State) returns (t: State, more: seq<Event>)
    requires s.once.Draining? && s.once.got != []
    ensures Leads(s, t) && t.once.TryQueue? && t.once.cp == s.once.got + more
    ensures t == s.(once := t.once, inq := t.inq, h := s.h.(drainedAt := t.h.drainedAt))
    decreases |s.inq|
  {
    LeadsNowhere(s);
    if s.inq == [] {
      LeadsOn(s, s, Once(DrainEmpty));
      t, more := Next(s, Once(DrainEmpty)), [];
    } else {
      var u := Next(s, Once(DrainTake));
      LeadsOn(s, s, Once(DrainTake));
      t, more := u, [s.inq[0]];
      if u.once.Draining? {
        t, more := DrainStops(u);
        LeadsFrom(s, Once(DrainTake), t);
        more := [s.inq[0]] + more;
      }
    }
  }

  // The drain queues its batch, and what more of the channel it may have to take first.
  lemma DrainQueues(s: State) returns (t: State, more: seq<Event>)
    requires s.cfg.depth > 0 && s.queue == [] && OnceHeld(s.once) != []
    ensures Leads(s, t) && t.queue == [OnceHeld(s.once) + more]
    ensures t == s.(once := t.once, inq := t.inq, queue := t.queue, h := s.h.(drainedAt := t.h.drainedAt))
  {
    LeadsNowhere(s);
    t, more := s, [];
    if s.once.Draining? {
      t, more := DrainStops(s);
    }
    assert OnceHeld(t.once) == OnceHeld(s.once) + more;
    var o := if t.once.TryQueue? then QueueTry else QueueRoom;
    LeadsOn(s, t, Once(o));
    t := Next(t, Once(o));
  }

  lemma DrainWrites(s: State) returns (t: State, more: seq<Event>)
    requires !s.WriterDone() && Sizes(s) && OnceHeld(s.once) != []
    ensures Leads(s, t) && !t.WriterDone() && t.h.stored == Written(t) == Written(s) + OnceHeld(s.once) + more
    ensures t == s.(once := t.once, inq := t.inq, queue := t.queue, writer := t.writer,
                    h := s.h.(drainedAt := t.h.drainedAt, stored := t.h.stored))
  {
    var u := Flush(s);
    var w;
    w, more := DrainQueues(u);
    LeadsTo(s, u, w);
    assert w.queue[1..] == [] && Flat(w.queue) == OnceHeld(s.once) + more;
    t := Flush(w);
    LeadsTo(s, w, t);
    Joined(Written(s), OnceHeld(s.once), more);
  }

  lemma Joined(a: seq<Event>, b: seq<Event>, c: seq<Event>)
    ensures a + [] + (b + c) == a + b + c && a + [] + [] == a
  {
  }

  // With both holding events either can be stored first.
  lemma BothHeld(s: State) returns (t: State)
    requires Inv(s) && !s.WriterDone() && RunHeld(s.run) != [] && OnceHeld(s.once) != []
    ensures Leads(s, t) && !Subsequence(t.h.stored, t.h.entered)
  {
    var u1 := RunWrites(s);
    InvLeads(s, u1);
    var t1, more1 := DrainWrites(u1);
    LeadsTo(s, u1, t1);
    var u2, more2 := DrainWrites(s);
    var t2 := RunWrites(u2);
    LeadsTo(s, u2, t2);
    NotBothWays(Written(s), RunHeld(s.run), OnceHeld(s.once), more1, more2, s.h.entered);
    t := if Subsequence(t1.h.stored, t1.h.entered) then t2 else t1;
  }

  predicate NoDuplicates(b: seq<Event>) { forall i, j :: 0 <= i < j < |b| ==> b[i] != b[j] }

  lemma NotBothWays(w: seq<Event>, r: seq<Event>, o: seq<Event>, x: seq<Event>, y: seq<Event>, b: seq<Event>)
    requires r != [] && o != [] && NoDuplicates(b)
    ensures !Subsequence(w + r + o + x, b) || !Subsequence(w + o + y + r, b)
  {
    var a1, a2 := w + r + o + x, w + o + y + r;
    var n, m := |w + r|, |w + o + y|;
    assert a1[|w|] == r[0] && a1[n] == o[0] && a2[|w|] == o[0] && a2[m] == r[0];
    if f :| Embeds(a1, b, f) {
      OtherWay(a2, b, |w|, m, f[|w|], f[n]);
    }
  }

  // Two events the other way round than in b.
  lemma OtherWay(a: seq<Event>, b: seq<Event>, i: nat, j: nat, p: int, q: int)
    requires NoDuplicates(b) && i < j < |a| && 0 <= p < q < |b| && a[i] == b[q] && a[j] == b[p]
    ensures !Subsequence(a, b)
  {
    forall f ensures !Embeds(a, b, f) {
      Placed(a, b, f, i, q);
      Placed(a, b, f, j, p);
    }
  }

  lemma Placed(a: seq<Event>, b: seq<Event>, f: seq<int>, i: nat, p: int)
    requires NoDuplicates(b) && i < |a| && 0 <= p < |b| && a[i] == b[p]
    ensures Embeds(a, b, f) ==> f[i] == p
  {
  }

  lemma InTail(inq: seq<Event>, entered: seq<Event>, k: int)
    requires Tail(inq, entered) && 0 <= k < |entered|
    ensures |entered| - |inq| <= k ==> entered[k] in inq
  {
  }

  lemma TailJoins(x: seq<Event>, inq: seq<Event>, entered: seq<Event>)
    requires Subsequence(x, entered) && Tail(inq, entered) && forall e :: e in x ==> e !in inq
    ensures Subsequence(x + inq, entered)
  {
    var f :| Embeds(x, entered, f);
    var n := |entered| - |inq|;
    forall i | 0 <= i < |x| ensures f[i] < n {
      InTail(inq, entered, f[i]);
      assert x[i] in x;
    }
    var g := f + seq(|inq|, i requires 0 <= i < |inq| => n + i);
    assert Embeds(x + inq, entered, g);
  }

  // What is stored, on its way or in somebody's hands is not in the channel.
  lemma NotInChannel(s: State, e: Event)
    requires Conserved(s) && e in Written(s) + RunHeld(s.run) + OnceHeld(s.once)
    ensures e !in s.inq
  {
    assert Places(s, e) == if e in s.h.pushed then 1 else 0;
    OccMember(s.h.stored, e); OccMember(WriterHeld(s.writer), e); OccMember(Flat(s.queue), e);
    OccMember(RunHeld(s.run), e); OccMember(OnceHeld(s.once), e); OccMember(s.inq, e);
  }

  lemma OutOfLine(s: State)
    requires Inv(s) && !InLine(s)
    ensures !Subsequence(Written(s) + RunHeld(s.run) + OnceHeld(s.once), s.h.entered)
  {
    var x := Written(s) + RunHeld(s.run) + OnceHeld(s.once);
    forall e | e in x ensures e !in s.inq { NotInChannel(s, e); }
    if Subsequence(x, s.h.entered) {
      TailJoins(x, s.inq, s.h.entered);
      Regrouped(Written(s), RunHeld(s.run), OnceHeld(s.once), s.inq);
    }
  }

  lemma Regrouped(a: seq<Event>, b: seq<Event>, c: seq<Event>, d: seq<Event>)
    ensures a + b + c + d == a + (b + c + d)
  {
  }

  lemma OutOfLineBreaks(s: State) returns (t: State)
    requires Inv(s) && !s.WriterDone() && !InLine(s)
    ensures Leads(s, t) && !Subsequence(t.h.stored, t.h.entered)
  {
    OutOfLine(s);
    var w, r, o := Written(s), RunHeld(s.run), OnceHeld(s.once);
    if r != [] && o != [] {
      t := BothHeld(s);
    } else if r != [] {
      Shorter(w, r, []);
      t := RunWrites(s);
    } else if o != [] {
      var more;
      t, more := DrainWrites(s);
      Shorter(w, [], o);
      FirstOf(w + o, more, s.h.entered);
    } else {
      Shorter(w, [], []);
      t := Flush(s);
    }
  }

  lemma Shorter(a: seq<Event>, b: seq<Event>, c: seq<Event>)
    ensures b == [] ==> a + b + c == a + c
    ensures c == [] ==> a + b + c == a + b
    ensures b == [] && c == [] ==> a + b + c == a
  {
  }

  lemma FirstOf(a: seq<Event>, b: seq<Event>, c: seq<Event>)
    ensures Subsequence(a + b, c) ==> Subsequence(a, c)
  {
    Shorter(a, b, []);
    Shorter(a, [], []);
    if Subsequence(a + b + [], c) { SubsequenceDrop(a, b, [], c); }
  }

  // The drain takes an event.
  lemma DrainFills(s: State) returns (t: State)
    requires Sizes(s) && s.DoorShut() && OnceHeld(s.once) == [] && DrainMayTake(s.once) && Rest(s) > 0
    ensures Leads(s, t) && OnceHeld(t.once) != [] && t.run == s.run && t.writer == s.writer
  {
    var u := Fill(s);
    var v := u;
    if u.once.AwaitRun? {
      v := Next(u, Once(Grace));
      LeadsOn(s, u, Once(Grace));
    }
    assert v.once.Draining?;
    LeadsOn(s, v, Once(DrainTake));
    t := Next(v, Once(DrainTake));
  }

  // Both come to hold events.
  lemma RunThenDrain(s: State) returns (t: State)
    requires Inv(s) && s.DoorShut() && !s.WriterDone()
    requires RunHeld(s.run) != [] && (OnceHeld(s.once) != [] || (DrainMayTake(s.once) && Rest(s) > 0))
    ensures Leads(s, t) && !Subsequence(t.h.stored, t.h.entered)
  {
    if OnceHeld(s.once) != [] {
      t := BothHeld(s);
    } else {
      var u := DrainFills(s);
      InvLeads(s, u);
      t := BothHeld(u);
      LeadsTo(s, u, t);
    }
  }

  lemma CrossingBreaks(s: State) returns (t: State)
    requires Inv(s) && s.DoorShut() && !s.WriterDone() && CanCross(s)
    ensures Leads(s, t) && !Subsequence(t.h.stored, t.h.entered)
  {
    if RunHeld(s.run) != [] && (OnceHeld(s.once) != [] || (DrainMayTake(s.once) && Rest(s) > 0)) {
      t := RunThenDrain(s);
    } else {
      var u := RunFills(s);
      InvLeads(s, u);
      t := RunThenDrain(u);
      LeadsTo(s, u, t);
    }
  }

  lemma Breaks(s: State) returns (t: State)
    requires Inv(s) && s.DoorShut() && CanBreak(s)
    ensures Leads(s, t) && !Subsequence(t.h.stored, t.h.entered)
  {
    if s.WriterDone() {
      LeadsNowhere(s);
      t := s;
    } else if !InLine(s) {
      t := OutOfLineBreaks(s);
    } else {
      t := CrossingBreaks(s);
    }
  }

  // From the closing of the door on: some way of going on stores two events out of the
  // order in which they entered the channel, exactly if that has happened to what is
  // written and waits, or Run and the drain can both come to hold events.
  lemma DisorderIff(capacity: int, batchSize: int, acts: seq<Action>, s: State)
    requires Reaches(capacity, batchSize, acts, s) && s.DoorShut()
    ensures (exists t :: Leads(s, t) && !Subsequence(t.h.stored, t.h.entered)) <==> CanBreak(s)
  {
    InvReached(capacity, batchSize, acts, s);
    if CanBreak(s) {
      var t := Breaks(s);
    } else {
      forall t | Leads(s, t) ensures Subsequence(t.h.stored, t.h.entered) { StaysInOrder(s, t); }
    }
  }

  // So storage is in the order of entry in every run that got past that, and in every run
  // in which the drain had the channel to itself.
  lemma StoredInOrder(capacity: int, batchSize: int, before: seq<Action>, s: State, acts: seq<Action>, t: State)
    requires Reaches(capacity, batchSize, before, s) && Exec(s, acts) == At(t)
    requires Apart(t) || (s.DoorShut() && !CanBreak(s))
    ensures Subsequence(t.h.stored, t.h.entered)
  {
    InvReached(capacity, batchSize, before, s);
    InvExec(s, acts, t);
    if Apart(t) { StoredIsPrefix(t); } else { StaysInOrder(s, t); }
  }

  // When the door has just shut, and when the drain starts beside Run, two events decide
  // it: one in Run's hands, or that it can take, and one left for the drain.
  lemma AtTheDoor(capacity: int, batchSize: int, acts: seq<Action>, s: State)
    requires Reaches(capacity, batchSize, acts, s) && s.once.AwaitRun?
    ensures CanBreak(s)
      <==> (RunHeld(s.run) != [] && Rest(s) > 0) || (RunMayTake(s.run) && Rest(s) > 1)
    ensures CanBreak(OnceNext(s, Grace)) <==> CanBreak(s)
  {
    InvReached(capacity, batchSize, acts, s);
    var t := OnceNext(s, Grace);
    assert Apart(s) && !s.WriterDone();
    assert Written(t) == Written(s) && Waiting(t) == Waiting(s);
  }
}

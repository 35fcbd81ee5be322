/** Conservation: no event of the log buffer is duplicated and none vanishes. */
module LogBufAccounting {
  import opened LogBuf

  predicate Sizes(s: State) {
    && 0 < s.cfg.batchSize && 0 < s.cfg.capacity && 2 <= s.cfg.depth
    && |s.inq| <= s.cfg.capacity
    && |s.queue| <= s.cfg.depth
    && (forall i :: 0 <= i < |s.queue| ==> 1 <= |s.queue[i]| <= s.cfg.batchSize)
    && RunSize(s.run, s.cfg.batchSize)
    && OnceSize(s.once, s.cfg.batchSize)
    && (s.writer.Inserting? ==> 1 <= |s.writer.cp| <= s.cfg.batchSize)
  }

  predicate RunSize(run: RunPc, max: nat) {
    match run
    case Looping(batch) => |batch| < max
    case Offering(cp, _) => 1 <= |cp| <= max
    case _ => true
  }

  predicate OnceSize(once: OncePc, max: nat) {
    match once
    case Draining(got) => |got| < max
    case TryQueue(cp, last) => 1 <= |cp| <= max && (last || |cp| == max)   // only the last may be short
    case BlockQueue(cp, last) => 1 <= |cp| <= max && (last || |cp| == max)
    case _ => true
  }

  // Every pushed event is in exactly one place, exactly once; nothing else is anywhere.
  ghost predicate Conserved(s: State) {
    forall e :: Places(s, e) == if e in s.h.pushed then 1 else 0
  }

  // The counters Losses reports are the numbers of events lost for each cause.
  predicate Counted(s: State) {
    s.lost == Losses(|s.h.full|, |s.h.overQueue|, |s.h.failed|, |s.h.late|)
  }

  lemma {:induction false} SizesRun(s: State, r: RunStep)
    requires Sizes(s) && RunEnabled(s, r)
    ensures Sizes(RunNext(s, r)) && RunNext(s, r).cfg == s.cfg
  {
    var t := RunNext(s, r);
    assert t.cfg == s.cfg && t.writer == s.writer && t.once == s.once;
    assert RunSize(t.run, t.cfg.batchSize);
    if r.Offer? && |s.queue| < s.cfg.depth {
      assert t.queue == s.queue + [s.run.cp];
    }
  }

  lemma {:induction false} SizesOnce(s: State, o: OnceStep)
    requires Sizes(s) && OnceEnabled(s, o)
    ensures Sizes(OnceNext(s, o)) && OnceNext(s, o).cfg == s.cfg
  {
    var t := OnceNext(s, o);
    assert t.cfg == s.cfg && t.writer == s.writer && t.run == s.run;
    assert OnceSize(t.once, t.cfg.batchSize);
    assert t.queue == s.queue || (|s.queue| < s.cfg.depth && t.queue == s.queue + [s.once.cp]);
  }

  lemma {:induction false} SizesWriter(s: State, w: WriterStep)
    requires Sizes(s) && WriterEnabled(s, w)
    ensures Sizes(WriterNext(s, w)) && WriterNext(s, w).cfg == s.cfg
  {
    var t := WriterNext(s, w);
    assert t.queue == s.queue || (s.queue != [] && t.queue == s.queue[1..]);
    assert t.writer.Inserting? ==> t.writer.cp == s.queue[0];
  }

  lemma {:induction false} SizesPush(s: State, p: PushStep)
    requires Sizes(s) && PushEnabled(s, p)
    ensures Sizes(PushNext(s, p)) && PushNext(s, p).cfg == s.cfg
  {
    var t := PushNext(s, p);
    assert t.run == s.run && t.once == s.once && t.queue == s.queue && t.writer == s.writer;
  }

  lemma {:induction false} SizesClose(s: State, c: nat, k: CloserStep)
    requires Sizes(s) && CloserEnabled(s, c, k)
    ensures Sizes(CloserNext(s, c, k)) && CloserNext(s, c, k).cfg == s.cfg
  {
    var t := CloserNext(s, c, k);
    assert t.run == s.run && t.queue == s.queue && t.writer == s.writer && t.inq == s.inq;
  }

  lemma {:induction false} SizesStep(s: State, a: Action)
    requires Sizes(s) && Enabled(s, a)
    ensures Sizes(Next(s, a)) && Next(s, a).cfg == s.cfg
  {
    match a {
      case Run(r) => SizesRun(s, r);
      case Once(o) => SizesOnce(s, o);
      case Write(w) => SizesWriter(s, w);
      case Push(p) => SizesPush(s, p);
      case Close(c, k) => SizesClose(s, c, k);
      case _ =>
    }
  }

  lemma {:induction false} CountedOnce(s: State, o: OnceStep)
    requires Counted(s) && OnceEnabled(s, o)
    ensures Counted(OnceNext(s, o))
  {
  }

  lemma {:induction false} CountedRun(s: State, r: RunStep)
    requires Counted(s) && RunEnabled(s, r)
    ensures Counted(RunNext(s, r))
  {
  }

  lemma {:induction false} CountedStep(s: State, a: Action)
    requires Counted(s) && Enabled(s, a)
    ensures Counted(Next(s, a))
  {
    match a {
      case Run(r) => CountedRun(s, r);
      case Once(o) => CountedOnce(s, o);
      case Close(c, k) => assert CloserNext(s, c, k).lost == s.lost;
      case _ =>
    }
  }

  // Taking the first event of q over to the end of a, or a batch to the end of the queue.
  lemma OccTake(a: seq<Event>, q: seq<Event>, e: Event)
    requires q != []
    ensures Occ(a + [q[0]], e) + Occ(q[1..], e) == Occ(a, e) + Occ(q, e)
  {
    OccAppend(a, [q[0]], e);
  }

  lemma OccQueue(queue: seq<seq<Event>>, cp: seq<Event>, e: Event)
    ensures Occ(Flat(queue + [cp]), e) == Occ(Flat(queue), e) + Occ(cp, e)
  {
    FlatAppend(queue, cp);
    OccAppend(Flat(queue), cp, e);
  }

  lemma OccDequeue(queue: seq<seq<Event>>, e: Event)
    requires queue != []
    ensures Occ(Flat(queue), e) == Occ(queue[0], e) + Occ(Flat(queue[1..]), e)
  {
    OccAppend(queue[0], Flat(queue[1..]), e);
  }

  lemma {:induction false} PlacesOffer(s: State, e: Event)
    requires s.run.Offering?
    ensures Places(RunNext(s, Offer), e) == Places(s, e)
  {
    var t := RunNext(s, Offer);
    assert RunHeld(t.run) == [] && t.inq == s.inq && t.once == s.once && t.writer == s.writer;
    if |s.queue| < s.cfg.depth {
      OccQueue(s.queue, s.run.cp, e);
      assert Settled(t.h, e) == Settled(s.h, e);
    } else {
      OccAppend(s.h.overQueue, s.run.cp, e);
      assert Settled(t.h, e) == Settled(s.h, e) + Occ(s.run.cp, e);
    }
  }

  lemma {:induction false} PlacesRun(s: State, r: RunStep, e: Event)
    requires RunEnabled(s, r)
    ensures Places(RunNext(s, r), e) == Places(s, e)
  {
    var t := RunNext(s, r);
    if r.Offer? {
      PlacesOffer(s, e);
    } else {
      assert t.queue == s.queue && t.once == s.once && t.writer == s.writer && t.h == s.h;
      if r.Take? {
        assert RunHeld(t.run) == s.run.batch + [s.inq[0]];
        OccTake(s.run.batch, s.inq, e);
      } else {
        assert RunHeld(t.run) == RunHeld(s.run) && t.inq == s.inq;
      }
    }
  }

  lemma {:induction false} PlacesQueue(s: State, o: OnceStep, e: Event)
    requires OnceEnabled(s, o) && (o.QueueTry? || o.QueueRoom? || o.QueueExpired?)
    ensures Places(OnceNext(s, o), e) == Places(s, e)
  {
    var t := OnceNext(s, o);
    assert t.inq == s.inq && t.run == s.run && t.writer == s.writer;
    if o.QueueExpired? {
      OccAppend(s.h.overQueue, s.once.cp, e);
      assert OnceHeld(t.once) == [] && t.queue == s.queue;
      assert Settled(t.h, e) == Settled(s.h, e) + Occ(s.once.cp, e);
    } else if t.once.BlockQueue? {
      assert OnceHeld(t.once) == OnceHeld(s.once) && t.queue == s.queue && t.h == s.h;
    } else {
      OccQueue(s.queue, s.once.cp, e);
      assert OnceHeld(t.once) == [] && t.h == s.h;
    }
  }

  lemma {:induction false} PlacesOnce(s: State, o: OnceStep, e: Event)
    requires OnceEnabled(s, o)
    ensures Places(OnceNext(s, o), e) == Places(s, e)
  {
    var t := OnceNext(s, o);
    if o.QueueTry? || o.QueueRoom? || o.QueueExpired? {
      PlacesQueue(s, o, e);
    } else {
      assert t.run == s.run && t.queue == s.queue && t.writer == s.writer && Settled(t.h, e) == Settled(s.h, e);
      if o.DrainTake? {
        assert OnceHeld(t.once) == s.once.got + [s.inq[0]];
        OccTake(s.once.got, s.inq, e);
      } else {
        assert OnceHeld(t.once) == OnceHeld(s.once) && t.inq == s.inq;
      }
    }
  }

  lemma {:induction false} PlacesInsert(s: State, w: WriterStep, e: Event)
    requires s.writer.Inserting? && (w.InsertOk? || w.InsertFail?)
    ensures Places(WriterNext(s, w), e) == Places(s, e)
  {
    var t := WriterNext(s, w);
    assert t.inq == s.inq && t.run == s.run && t.once == s.once && t.queue == s.queue && WriterHeld(t.writer) == [];
    OccAppend(s.h.stored, s.writer.cp, e);
    OccAppend(s.h.failed, s.writer.cp, e);
    assert Settled(t.h, e) == Settled(s.h, e) + Occ(s.writer.cp, e);
  }

  lemma {:induction false} PlacesWriter(s: State, w: WriterStep, e: Event)
    requires WriterEnabled(s, w)
    ensures Places(WriterNext(s, w), e) == Places(s, e)
  {
    var t := WriterNext(s, w);
    if w.InsertOk? || w.InsertFail? {
      PlacesInsert(s, w, e);
    } else {
      assert t.inq == s.inq && t.run == s.run && t.once == s.once && t.h == s.h && WriterHeld(s.writer) == [];
      if w.TakeBatch? || w.LastTake? { OccDequeue(s.queue, e); }
    }
  }

  lemma {:induction false} PlacesCloser(s: State, c: nat, k: CloserStep, e: Event)
    requires CloserEnabled(s, c, k)
    ensures Places(CloserNext(s, c, k), e) == Places(s, e)
  {
  }

  lemma {:induction false} PlacesCheck(s: State, x: Event, e: Event)
    requires x !in s.h.pushed && x !in s.pushing
    ensures Places(PushNext(s, Check(x)), e) == Places(s, e) + if x == e then 1 else 0
  {
    var t := PushNext(s, Check(x));
    assert InFlight(t, e) == InFlight(s, e) && t.inq == s.inq;
    OccAppend(s.h.late, [x], e);
    assert Occ([x], e) == if x == e then 1 else 0;
  }

  lemma {:induction false} PlacesSend(s: State, x: Event, e: Event)
    requires x in s.pushing
    ensures Places(PushNext(s, PushStep.Send(x)), e) == Places(s, e)
  {
    var t := PushNext(s, PushStep.Send(x));
    assert InFlight(t, e) == InFlight(s, e);
    OccAppend(s.inq, [x], e);
    OccAppend(s.h.full, [x], e);
    assert Occ([x], e) == if x == e then 1 else 0;
    assert (e in t.pushing) == (e in s.pushing && e != x);
  }

  lemma {:induction false} PlacesPush(s: State, p: PushStep, e: Event)
    requires PushEnabled(s, p)
    requires p.Check? ==> p.e !in s.pushing
    ensures Places(PushNext(s, p), e) == Places(s, e) + if p == Check(e) then 1 else 0
  {
    match p {
      case Check(x) => PlacesCheck(s, x, e);
      case Send(x) => PlacesSend(s, x, e);
    }
  }

  // Only a push adds an event: the one it is called with.
  lemma {:induction false} PlacesStep(s: State, a: Action, e: Event)
    requires Conserved(s) && Enabled(s, a)
    ensures Places(Next(s, a), e) == Places(s, e) + if a == Push(Check(e)) then 1 else 0
  {
    match a {
      case Push(p) =>
        assert Places(s, p.e) == if p.e in s.h.pushed then 1 else 0;
        PlacesPush(s, p, e);
      case Run(r) => PlacesRun(s, r, e);
      case Once(o) => PlacesOnce(s, o, e);
      case Write(w) => PlacesWriter(s, w, e);
      case Close(c, k) => PlacesCloser(s, c, k, e);
      case _ =>
    }
  }

  lemma {:induction false} PushedStep(s: State, a: Action)
    requires Enabled(s, a)
    ensures Next(s, a).h.pushed == s.h.pushed + if a.Push? && a.p.Check? then {a.p.e} else {}
    ensures a.Push? && a.p.Check? ==> a.p.e !in s.h.pushed
  {
  }

  lemma {:induction false} ConservedStep(s: State, a: Action)
    requires Conserved(s) && Enabled(s, a)
    ensures Conserved(Next(s, a))
  {
    PushedStep(s, a);
    forall e ensures Places(Next(s, a), e) == if e in Next(s, a).h.pushed then 1 else 0 {
      assert Places(s, e) == if e in s.h.pushed then 1 else 0;
      PlacesStep(s, a, e);
    }
  }
}

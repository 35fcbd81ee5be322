/** The log buffer stores events in the order they entered b.in. */
module LogBufOrder {
  import opened LogBuf
  import opened LogBufShutdown

  // f places a inside b, keeping the order.
  predicate Embeds(a: seq<Event>, b: seq<Event>, f: seq<int>) {
    && |f| == |a|
    && (forall i :: 0 <= i < |a| ==> 0 <= f[i] < |b| && a[i] == b[f[i]])
    && (forall i, j :: 0 <= i < j < |a| ==> f[i] < f[j])
  }

  ghost predicate Subsequence(a: seq<Event>, b: seq<Event>) {
    exists f :: Embeds(a, b, f)
  }

  lemma SubsequenceExtend(a: seq<Event>, b: seq<Event>, e: Event)
    requires Subsequence(a, b)
    ensures Subsequence(a + [e], b + [e])
  {
    var f :| Embeds(a, b, f);
    assert Embeds(a + [e], b + [e], f + [|b|]);
  }

  // Dropping a segment leaves a subsequence.
  lemma SubsequenceDrop(x: seq<Event>, y: seq<Event>, z: seq<Event>, b: seq<Event>)
    requires Subsequence(x + y + z, b)
    ensures Subsequence(x + z, b)
  {
    var a := x + y + z;
    var f :| Embeds(a, b, f);
    var g := f[..|x|] + f[|x| + |y|..];
    forall i | 0 <= i < |x + z| ensures 0 <= g[i] < |b| && (x + z)[i] == b[g[i]] {
      if i < |x| { assert a[i] == x[i]; } else { assert a[i + |y|] == z[i - |x|]; }
    }
    assert Embeds(x + z, b, g);
  }

  // What has been handed to the writer, and what waits to be, oldest first.
  function Written(s: State): seq<Event> { s.h.stored + WriterHeld(s.writer) + Flat(s.queue) }

  function Waiting(s: State): seq<Event> { RunHeld(s.run) + OnceHeld(s.once) + s.inq }

  // What was written and what waits are in the order of entry.
  ghost predicate InLine(s: State) { Subsequence(Written(s) + Waiting(s), s.h.entered) }

  ghost predicate Ordered(s: State) { Apart(s) ==> InLine(s) }

  // Run takes nothing past the drain's batch, and the drain queues nothing past Run's.
  predicate InTurn(s: State, a: Action) {
    && (a == Run(RunStep.Take) ==> OnceHeld(s.once) == [])
    && (a.Once? && Queues(a.o) ==> RunHeld(s.run) == [])
  }

  predicate Queues(o: OnceStep) { o.QueueTry? || o.QueueRoom? || o.QueueExpired? }

  // Moving the first event of q to the end of a, or the whole of a batch to the end of w.
  lemma MoveOne(a: seq<Event>, q: seq<Event>)
    requires q != []
    ensures a + [q[0]] + q[1..] == a + q
  {
  }

  lemma MoveBatch(w: seq<Event>, cp: seq<Event>, rest: seq<Event>)
    ensures w + cp + rest == w + (cp + rest) && [] + rest == rest && cp + [] == cp
  {
  }

  // A step that drops nothing and takes nothing in.
  lemma InLineSame(s: State, t: State)
    requires InLine(s) && t.h.entered == s.h.entered && Written(t) + Waiting(t) == Written(s) + Waiting(s)
    ensures InLine(t)
  {
  }

  // A step that drops the batch between w and rest.
  lemma InLineDrop(s: State, t: State, w: seq<Event>, cp: seq<Event>, rest: seq<Event>)
    requires InLine(s) && t.h.entered == s.h.entered
    requires Written(s) + Waiting(s) == w + cp + rest && Written(t) + Waiting(t) == w + rest
    ensures InLine(t)
  {
    SubsequenceDrop(w, cp, rest, s.h.entered);
  }

  lemma {:induction false} InLineOffer(s: State)
    requires InLine(s) && s.run.Offering?
    ensures InLine(RunNext(s, Offer))
  {
    var t := RunNext(s, Offer);
    var rest := OnceHeld(s.once) + s.inq;
    assert Waiting(t) == rest;
    OfferWaiting(s.run.cp, OnceHeld(s.once), s.inq);
    MoveBatch(Written(s), s.run.cp, rest);
    if |s.queue| < s.cfg.depth {
      QueueWritten(s.h.stored, WriterHeld(s.writer), s.queue, s.run.cp);
      InLineSame(s, t);
    } else {
      InLineDrop(s, t, Written(s), s.run.cp, rest);
    }
  }

  lemma OfferWaiting(cp: seq<Event>, once: seq<Event>, inq: seq<Event>)
    ensures cp + once + inq == cp + (once + inq)
  {
  }

  lemma QueueWritten(stored: seq<Event>, held: seq<Event>, queue: seq<seq<Event>>, cp: seq<Event>)
    ensures stored + held + Flat(queue + [cp]) == stored + held + Flat(queue) + cp
  {
    FlatAppend(queue, cp);
  }

  lemma {:induction false} InLineTake(s: State)
    requires InLine(s) && RunEnabled(s, RunStep.Take) && OnceHeld(s.once) == []
    ensures InLine(RunNext(s, RunStep.Take))
  {
    var t := RunNext(s, RunStep.Take);
    assert RunHeld(t.run) == s.run.batch + [s.inq[0]];
    MoveOne(s.run.batch, s.inq);
    assert Written(t) == Written(s);
    InLineSame(s, t);
  }

  lemma {:induction false} InLineRun(s: State, r: RunStep)
    requires InLine(s) && RunEnabled(s, r) && InTurn(s, Run(r))
    ensures InLine(RunNext(s, r))
  {
    var t := RunNext(s, r);
    if r.Offer? {
      InLineOffer(s);
    } else if r.Take? {
      InLineTake(s);
    } else {
      assert RunHeld(t.run) == RunHeld(s.run);
      InLineSame(s, t);
    }
  }

  lemma {:induction false} InLineQueue(s: State, o: OnceStep)
    requires InLine(s) && OnceEnabled(s, o) && Queues(o) && RunHeld(s.run) == []
    ensures InLine(OnceNext(s, o))
  {
    var t := OnceNext(s, o);
    if t.once.BlockQueue? {
      InLineSame(s, t);
    } else {
      assert OnceHeld(t.once) == [] && t.run == s.run && t.inq == s.inq;
      MoveBatch([], s.once.cp, s.inq);
      assert Waiting(s) == s.once.cp + s.inq && Waiting(t) == s.inq;
      MoveBatch(Written(s), s.once.cp, s.inq);
      if o.QueueExpired? {
        InLineDrop(s, t, Written(s), s.once.cp, s.inq);
      } else {
        QueueWritten(s.h.stored, WriterHeld(s.writer), s.queue, s.once.cp);
        InLineSame(s, t);
      }
    }
  }

  lemma {:induction false} InLineOnce(s: State, o: OnceStep)
    requires InLine(s) && OnceEnabled(s, o) && InTurn(s, Once(o))
    ensures InLine(OnceNext(s, o))
  {
    var t := OnceNext(s, o);
    if Queues(o) {
      InLineQueue(s, o);
    } else if o.DrainTake? {
      assert OnceHeld(t.once) == s.once.got + [s.inq[0]];
      MoveTwo(RunHeld(s.run), s.once.got, s.inq);
      InLineSame(s, t);
    } else {
      assert OnceHeld(t.once) == OnceHeld(s.once);
      InLineSame(s, t);
    }
  }

  lemma MoveTwo(r: seq<Event>, a: seq<Event>, q: seq<Event>)
    requires q != []
    ensures r + (a + [q[0]]) + q[1..] == r + a + q
  {
  }

  lemma {:induction false} InLineWriter(s: State, w: WriterStep)
    requires InLine(s) && WriterEnabled(s, w)
    ensures InLine(WriterNext(s, w))
  {
    var t := WriterNext(s, w);
    assert Waiting(t) == Waiting(s);
    if w.InsertFail? {
      var rest := Flat(s.queue) + Waiting(s);
      InsertParts(s.h.stored, s.writer.cp, Flat(s.queue), Waiting(s));
      InsertParts(s.h.stored, [], Flat(s.queue), Waiting(s));
      InLineDrop(s, t, s.h.stored, s.writer.cp, rest);
    } else {
      WrittenStays(s, w);
      InLineSame(s, t);
    }
  }

  lemma InsertParts(stored: seq<Event>, cp: seq<Event>, queued: seq<Event>, waiting: seq<Event>)
    ensures stored + cp + queued + waiting == stored + cp + (queued + waiting)
    ensures stored + [] + queued + waiting == stored + (queued + waiting)
  {
  }

  lemma {:induction false} WrittenStays(s: State, w: WriterStep)
    requires WriterEnabled(s, w) && !w.InsertFail?
    ensures Written(WriterNext(s, w)) == Written(s)
  {
    if w.TakeBatch? || w.LastTake? {
      assert Flat(s.queue) == s.queue[0] + Flat(s.queue[1..]);
    }
  }

  lemma {:induction false} InLinePush(s: State, p: PushStep)
    requires InLine(s) && PushEnabled(s, p)
    ensures InLine(PushNext(s, p))
  {
    var t := PushNext(s, p);
    assert Written(t) == Written(s);
    if t.inq == s.inq + [p.e] && t.h.entered == s.h.entered + [p.e] {
      PushParts(Written(s), RunHeld(s.run) + OnceHeld(s.once), s.inq, p.e);
      SubsequenceExtend(Written(s) + Waiting(s), s.h.entered, p.e);
    } else {
      assert Waiting(t) == Waiting(s);
      InLineSame(s, t);
    }
  }

  lemma PushParts(w: seq<Event>, held: seq<Event>, inq: seq<Event>, e: Event)
    ensures w + (held + (inq + [e])) == w + (held + inq) + [e]
  {
  }

  // A step in turn keeps the order.
  lemma {:induction false} InLineStep(s: State, a: Action)
    requires InLine(s) && Enabled(s, a) && InTurn(s, a)
    ensures InLine(Next(s, a))
  {
    match a {
      case Run(r) => InLineRun(s, r);
      case Once(o) => InLineOnce(s, o);
      case Write(w) => InLineWriter(s, w);
      case Push(p) => InLinePush(s, p);
      case Close(c, k) =>
        assert OnceHeld(CloserNext(s, c, k).once) == OnceHeld(s.once);
        InLineSame(s, CloserNext(s, c, k));
      case _ => InLineSame(s, Next(s, a));
    }
  }

  lemma {:induction false} OrderedStep(s: State, a: Action)
    requires Doors(s) && Ordered(s) && Enabled(s, a)
    ensures Ordered(Next(s, a))
  {
    if Apart(Next(s, a)) {
      ApartInTurn(s, a);
      InLineStep(s, a);
    }
  }

  // A drain that has the channel to itself had it before, and works in turn.
  lemma {:induction false} ApartInTurn(s: State, a: Action)
    requires Doors(s) && Enabled(s, a) && Apart(Next(s, a))
    ensures Apart(s) && InTurn(s, a)
  {
  }
}

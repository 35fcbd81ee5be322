/** Whose batches a shutdown can drop for want of room: the last resort of the drain, exactly. */
module LogBufRoom {
  import opened LogBuf
  import opened LogBufAccounting
  import opened LogBufShutdown
  import opened LogBufTheorems
  import opened LogBufProgress
  import opened LogBufLoss

  // How many batches of at most size events n events make.
  function Batches(n: nat, size: nat): nat
    requires size > 0
  {
    if n == 0 then 0 else if n <= size then 1 else 1 + Batches(n - size, size)
  }

  lemma {:induction false} MoreBatches(n: nat, m: nat, size: nat)
    requires size > 0 && n <= m
    ensures Batches(n, size) <= Batches(m, size)
  {
    if n > size { MoreBatches(n - size, m - size, size); }
  }

  // ceil(n / size)
  lemma {:induction false} BatchesIsCeil(n: nat, size: nat)
    requires size > 0
    ensures (Batches(n, size) - 1) * size < n || n == 0
    ensures n <= Batches(n, size) * size
  {
    if n > size {
      BatchesIsCeil(n - size, size);
      assert Batches(n, size) * size == Batches(n - size, size) * size + size;
      assert (Batches(n, size) - 1) * size == (Batches(n - size, size) - 1) * size + size;
    }
  }

  // What the drain has yet to queue, once it no longer waits for Run: its batch and, until
  // it has seen the channel empty, all that is in the channel or on the way to it.
  function Queueing(s: State): nat {
    |OnceHeld(s.once)| + if Emptied(s.once) then 0 else Rest(s)
  }

  function Need(s: State): nat
    requires s.cfg.batchSize > 0
  {
    Batches(Queueing(s), s.cfg.batchSize)
  }

  // Run has ended, and the drain is not waiting for room.
  predicate Alone(s: State) { s.DoorShut() && s.AccumulatorDone() && !s.once.BlockQueue? }

  predicate HasRoom(s: State)
    requires s.cfg.batchSize > 0
  {
    |s.queue| + Need(s) <= s.cfg.depth
  }

  // ----- with room nothing is dropped -----

  lemma RoomOnce(s: State, o: OnceStep)
    requires Sizes(s) && Alone(s) && HasRoom(s) && OnceEnabled(s, o)
    ensures var t := OnceNext(s, o); Alone(t) && HasRoom(t) && t.h.overQueue == s.h.overQueue
  {
    var t := OnceNext(s, o);
    if o.DrainEmpty? {
      MoreBatches(Queueing(t), Queueing(s), s.cfg.batchSize);
    } else if o.QueueTry? {
      assert Need(s) > 0 && |t.queue| == |s.queue| + 1;
      assert Need(t) == Need(s) - 1;
    }
  }

  lemma RoomPush(s: State, p: PushStep)
    requires Sizes(s) && Alone(s) && HasRoom(s) && PushEnabled(s, p)
    ensures var t := PushNext(s, p); Alone(t) && HasRoom(t) && t.h.overQueue == s.h.overQueue
  {
    var t := PushNext(s, p);
    RestFalls(s, Push(p));
    MoreBatches(Queueing(t), Queueing(s), s.cfg.batchSize);
  }

  lemma RoomStep(s: State, a: Action)
    requires Sizes(s) && Alone(s) && HasRoom(s) && Enabled(s, a)
    ensures var t := Next(s, a);
      t.cfg == s.cfg && Alone(t) && HasRoom(t) && t.h.overQueue == s.h.overQueue
  {
    match a {
      case Once(o) => RoomOnce(s, o);
      case Push(p) => RoomPush(s, p);
      case Close(c, k) => assert CloserNext(s, c, k).once == s.once;
      case _ =>
    }
  }

  lemma {:induction false} RoomExec(s: State, acts: seq<Action>, t: State)
    requires Sizes(s) && Alone(s) && HasRoom(s) && Exec(s, acts) == At(t)
    ensures t.h.overQueue == s.h.overQueue
    decreases |acts|
  {
    if acts != [] {
      RoomStep(s, acts[0]);
      SizesStep(s, acts[0]);
      RoomExec(Next(s, acts[0]), acts[1..], t);
    }
  }

  // ----- without room some schedule drops a batch -----

  // Some schedule from s drops a batch at the queue.
  ghost predicate CanDrop(s: State) { exists t :: Leads(s, t) && s.h.overQueue < t.h.overQueue }

  lemma DropLater(s: State, t: State)
    requires Leads(s, t) && CanDrop(t) && t.h.overQueue == s.h.overQueue
    ensures CanDrop(s)
  {
    var u :| Leads(t, u) && t.h.overQueue < u.h.overQueue;
    LeadsTo(s, t, u);
  }

  lemma Does(s: State, a: Action) returns (t: State)
    requires Enabled(s, a)
    ensures t == Next(s, a) && Leads(s, t)
  {
    t := Next(s, a);
    LeadsNowhere(s);
    LeadsOn(s, s, a);
  }

  // The queue is full, the deadline passes, and the writer does not get to run.
  lemma DropsNow(s: State)
    requires Sizes(s) && s.once.TryQueue? && |s.queue| == s.cfg.depth
    ensures CanDrop(s)
  {
    var t := Does(s, Once(QueueTry));
    var u := Does(t, Expire(t.owner));
    LeadsTo(s, t, u);
    var v := Does(u, Once(QueueExpired));
    LeadsTo(s, u, v);
    assert v.h.overQueue == s.h.overQueue + s.once.cp;
  }

  // The drain takes one event more, after waiting for it if the channel is empty.
  lemma TakesOne(s: State) returns (t: State)
    requires Sizes(s) && s.once.Draining? && Rest(s) > 0
    ensures Leads(s, t) && Sizes(t) && Rest(t) == Rest(s) - 1 && |OnceHeld(t.once)| == |OnceHeld(s.once)| + 1
    ensures t.once.Draining? || (t.once.TryQueue? && !t.once.last)
    ensures t.run == s.run && t.queue == s.queue && t.cfg == s.cfg && t.h.overQueue == s.h.overQueue
  {
    var u := Fill(s);
    t := Does(u, Once(DrainTake));
    LeadsTo(s, u, t);
    SizesStep(u, Once(DrainTake));
  }

  // What the drain still has to queue does not fit.
  predicate Short(s: State) { Sizes(s) && Alone(s) && !HasRoom(s) }

  lemma {:induction false} Drops(s: State)
    requires Short(s)
    ensures CanDrop(s)
    decreases Queueing(s), Rest(s), OnceLeft(s.once)
  {
    match s.once {
      case AwaitRun => DropsAfter(s, RunDone);
      case Draining(_) =>
        if Rest(s) > 0 {
          var t := TakesOne(s);
          assert Queueing(t) == Queueing(s);
          Drops(t);
          DropLater(s, t);
        } else {
          DropsAfter(s, DrainEmpty);
        }
      case TryQueue(_, _) => if |s.queue| == s.cfg.depth { DropsNow(s); } else { DropsAfter(s, QueueTry); }
      case _ => assert false;
    }
  }

  // A step of the drain that leaves it as short of room.
  lemma {:induction false} DropsAfter(s: State, o: OnceStep)
    requires Short(s) && OnceEnabled(s, o)
    requires o.RunDone? || (o.DrainEmpty? && Rest(s) == 0) || (o.QueueTry? && |s.queue| < s.cfg.depth)
    ensures CanDrop(s)
    decreases Queueing(s), Rest(s), OnceLeft(s.once), 0
  {
    StaysShort(s, o);
    var t := Does(s, Once(o));
    Drops(t);
    DropLater(s, t);
  }

  lemma StaysShort(s: State, o: OnceStep)
    requires Short(s) && OnceEnabled(s, o)
    requires o.RunDone? || (o.DrainEmpty? && Rest(s) == 0) || (o.QueueTry? && |s.queue| < s.cfg.depth)
    ensures var t := OnceNext(s, o);
      && Short(t) && t.h.overQueue == s.h.overQueue && Rest(t) == Rest(s) && Queueing(t) <= Queueing(s)
      && if o.QueueTry? then Queueing(t) < Queueing(s) else OnceLeft(t.once) < OnceLeft(s.once)
  {
    SizesOnce(s, o);
    if o.QueueTry? { assert Need(s) > 1 && Need(OnceNext(s, o)) == Need(s) - 1; }
  }

  // Once Run has ended, and while the drain is not waiting for room: some schedule counts
  // a batch of the drain as lost for want of room exactly if the batches that it still has
  // to queue do not fit.  If they do, none does, whatever deadline passes: a deadline that
  // was over before the batch was tried included.
  lemma DropIff(capacity: int, batchSize: int, acts: seq<Action>, s: State)
    requires Reaches(capacity, batchSize, acts, s) && Alone(s)
    ensures s.cfg.batchSize > 0
    ensures CanDrop(s) <==> |s.queue| + Need(s) > s.cfg.depth
    ensures HasRoom(s) ==> forall t :: Leads(s, t) ==> t.h.overQueue == s.h.overQueue
  {
    InvReached(capacity, batchSize, acts, s);
    if HasRoom(s) {
      forall t | Leads(s, t) ensures t.h.overQueue == s.h.overQueue {
        var more :| Exec(s, more) == At(t);
        RoomExec(s, more, t);
      }
    } else {
      Drops(s);
    }
  }

  // ----- before the deadline nothing is dropped -----

  lemma InTimeStep(s: State, a: Action)
    requires s.DoorShut() && s.AccumulatorDone() && Enabled(s, a) && Next(s, a).owner !in Next(s, a).expired
    ensures var t := Next(s, a);
      && t.DoorShut() && t.AccumulatorDone() && t.owner == s.owner && s.owner !in s.expired
      && t.h.overQueue == s.h.overQueue
  {
    DoorStaysShut(s, a);
    match a {
      case Close(c, k) => assert CloserNext(s, c, k).owner == s.owner;
      case _ =>
    }
  }

  lemma {:induction false} InTimeExec(s: State, acts: seq<Action>, t: State)
    requires s.DoorShut() && s.AccumulatorDone() && Exec(s, acts) == At(t) && t.owner !in t.expired
    ensures t.h.overQueue == s.h.overQueue && s.owner !in s.expired && t.owner == s.owner
    decreases |acts|
  {
    if acts != [] {
      KeepsOwner(s, acts[0]);
      InTimeExec(Next(s, acts[0]), acts[1..], t);
      InTimeStep(s, acts[0]);
    }
  }

  lemma KeepsOwner(s: State, a: Action)
    requires s.DoorShut() && s.AccumulatorDone() && Enabled(s, a)
    ensures Next(s, a).DoorShut() && Next(s, a).AccumulatorDone()
  {
    DoorStaysShut(s, a);
  }

  // However full the queue is: once Run has ended, no batch is dropped before the deadline
  // of the Close that drains has passed.
  lemma NoDropInTime(s: State, t: State)
    requires s.DoorShut() && s.AccumulatorDone() && Leads(s, t) && t.owner !in t.expired
    ensures t.h.overQueue == s.h.overQueue
  {
    var acts :| Exec(s, acts) == At(t);
    InTimeExec(s, acts, t);
  }
}

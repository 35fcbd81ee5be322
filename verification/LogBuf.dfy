/**
 The asynchronous log buffer as a protocol: any number of `Push` callers, one
 accumulator (`Run`), one writer goroutine and any number of `Close` callers share
 two bounded channels and four "closed" signals.

 A state is a value; `Next(s, a)` performs one atomic step `a` of one goroutine.
 A `select` arm and the counter update that follows it are one step.  Every call of
 `Push` has its own identity, so "the same event" never means "an equal row".
 */
module LogBuf {

  // One call of Push.
  type Event = nat

  datatype RunPc =
    | NotStarted
    | Looping(batch: seq<Event>)            // in the select of Run
    | Offering(cp: seq<Event>, stop: bool)  // inside handoff, before its select
    | Returning                             // before the deferred close(runDone)
    | Finished

  // The body that closeOnce runs, executed by the first Close caller.
  datatype OncePc =
    | Open                                 // no Close yet
    | AwaitRun                             // the door is shut, waiting for runDone
    | Draining(got: seq<Event>)
    | TryQueue(cp: seq<Event>, last: bool)    // the non-blocking send of queue
    | BlockQueue(cp: seq<Event>, last: bool)  // the blocking select of queue
    | Closing                              // before close(drained)
    | Shut

  datatype WriterPc =
    | Selecting
    | LastLook                 // drained was seen; the inner select
    | Inserting(cp: seq<Event>)
    | Exited

  datatype CloserPc =
    | InOnce        // executing the body
    | BlockedOnce   // waiting for another caller to finish the body
    | AwaitWriter   // select on wrDone and the deadline
    | OutOfTime     // the deadline won; about to cancel the insert
    | AwaitGrace    // select on wrDone and the grace timer
    | Returned(ok: bool)

  // What happened so far; nothing in the protocol reads it.
  datatype History = History(
    pushed: set<Event>,       // every Push that was called
    entered: seq<Event>,      // in the order they entered b.in
    stored: seq<Event>,       // InsertEvents returned nil
    full: seq<Event>,         // the four kinds of loss
    overQueue: seq<Event>,
    failed: seq<Event>,
    late: seq<Event>,
    straddling: set<Event>,   // inside Push, past the check, when the door shut
    drainedAt: int,           // |entered| when the drain saw b.in empty, or -1
    besideRun: bool)          // the drain started while Run had not ended

  // What New fixes: channel capacities and the flush threshold.
  datatype Config = Config(capacity: nat, depth: nat, batchSize: nat)

  datatype Losses = Losses(full: nat, queue: nat, insert: nat, late: nat) {
    function Total(): nat { full + queue + insert + late }
  }

  datatype State = State(
    cfg: Config,
    pushing: set<Event>,      // past the closed check, before the send
    inq: seq<Event>,          // b.in
    queue: seq<seq<Event>>,   // b.batches
    stopped: bool,            // Run's context is cancelled
    run: RunPc, once: OncePc, writer: WriterPc,
    owner: nat,               // the Close caller that executes the body
    closers: map<nat, CloserPc>,
    expired: set<nat>,        // Close callers whose deadline has passed
    cancelled: bool,          // the context of the inserts is cancelled
    lost: Losses,
    h: History)
  {
    // The four signal channels: each is closed by the step that moves its owner on.
    predicate DoorShut() { !once.Open? }        // b.closed
    predicate AccumulatorDone() { run.Finished? }  // b.runDone
    predicate DrainDone() { once.Shut? }        // b.drained
    predicate WriterDone() { writer.Exited? }   // b.wrDone
  }

  function NewConfig(capacity: int, batchSize: int): Config {
    var c := if capacity <= 0 then 10000 else capacity;
    var b := if batchSize <= 0 then 1000 else batchSize;
    Config(c, if c / b < 2 then 2 else c / b, b)
  }

  function Init(capacity: int, batchSize: int): State {
    State(NewConfig(capacity, batchSize), {}, [], [], false, NotStarted, Open, Selecting, 0, map[], {}, false,
          Losses(0, 0, 0, 0), History({}, [], [], [], [], [], [], {}, -1, false))
  }

  // The steps of each goroutine.  The ensures clauses of the ...Next functions say
  // which parts of the state that goroutine can touch at all.
  datatype PushStep = Check(e: Event) | Send(e: Event)   // the two selects of Push
  datatype RunStep = Start | Take | Tick | OnStopped | OnClosed | Offer | Return
  datatype OnceStep =
    | RunDone | Grace | DrainTake | DrainEmpty
    | QueueTry | QueueRoom | QueueExpired | Finish
  datatype CloserStep = Call | Unblock | SeeWriterDone | Timeout | CancelInsert | GiveUp
  datatype WriterStep = TakeBatch | SeeDrained | LastTake | Exit | InsertOk | InsertFail

  datatype Action =
    | Push(p: PushStep)
    | Run(r: RunStep)
    | Once(o: OnceStep)
    | Close(c: nat, k: CloserStep)
    | Write(w: WriterStep)
    | CancelRun       // the context given to Run is cancelled
    | Expire(c: nat)  // the deadline of Close caller c passes

  predicate PushEnabled(s: State, p: PushStep) {
    match p
    case Check(e) => e !in s.h.pushed
    case Send(e) => e in s.pushing
  }

  function PushNext(s: State, p: PushStep): (t: State)
    requires PushEnabled(s, p)
    ensures t == s.(pushing := t.pushing, inq := t.inq, lost := t.lost, h := t.h)
    ensures t.h == s.h.(pushed := t.h.pushed, entered := t.h.entered, full := t.h.full, late := t.h.late)
  {
    match p
    case Check(e) =>
      var h := s.h.(pushed := s.h.pushed + {e});
      if s.DoorShut() then s.(lost := s.lost.(late := s.lost.late + 1), h := h.(late := h.late + [e]))
      else s.(pushing := s.pushing + {e}, h := h)
    case Send(e) =>
      if |s.inq| < s.cfg.capacity
      then s.(pushing := s.pushing - {e}, inq := s.inq + [e], h := s.h.(entered := s.h.entered + [e]))
      else s.(pushing := s.pushing - {e}, lost := s.lost.(full := s.lost.full + 1), h := s.h.(full := s.h.full + [e]))
  }

  // handoff: nothing to offer when the batch is empty.
  function Handoff(batch: seq<Event>, stop: bool): RunPc {
    if batch != [] then Offering(batch, stop) else if stop then Returning else Looping([])
  }

  predicate RunEnabled(s: State, r: RunStep) {
    match r
    case Start => s.run.NotStarted?
    case Take => s.run.Looping? && s.inq != []
    case Tick => s.run.Looping?
    case OnStopped => s.run.Looping? && s.stopped
    case OnClosed => s.run.Looping? && s.DoorShut()
    case Offer => s.run.Offering?
    case Return => s.run.Returning?
  }

  function RunNext(s: State, r: RunStep): (t: State)
    requires RunEnabled(s, r)
    ensures t == s.(run := t.run, inq := t.inq, queue := t.queue, lost := t.lost, h := t.h)
    ensures t.h == s.h.(overQueue := t.h.overQueue)
  {
    match r
    case Start => s.(run := Looping([]))
    case Take =>
      var batch := s.run.batch + [s.inq[0]];
      s.(inq := s.inq[1..],
         run := if |batch| >= s.cfg.batchSize then Offering(batch, false) else Looping(batch))
    case Tick => s.(run := Handoff(s.run.batch, false))
    case OnStopped => s.(run := Handoff(s.run.batch, true))
    case OnClosed => s.(run := Handoff(s.run.batch, true))
    case Offer =>
      var run := if s.run.stop then Returning else Looping([]);
      if |s.queue| < s.cfg.depth then s.(run := run, queue := s.queue + [s.run.cp])
      else s.(run := run, lost := s.lost.(queue := s.lost.queue + |s.run.cp|),
              h := s.h.(overQueue := s.h.overQueue + s.run.cp))
    case Return => s.(run := Finished)
  }

  function AfterQueue(last: bool): OncePc {
    if last then Closing else Draining([])
  }

  predicate OnceEnabled(s: State, o: OnceStep) {
    match o
    case RunDone => s.once.AwaitRun? && s.AccumulatorDone()
    case Grace => s.once.AwaitRun?
    case DrainTake => s.once.Draining? && s.inq != []
    case DrainEmpty => s.once.Draining? && s.inq == []
    case QueueTry => s.once.TryQueue?
    case QueueRoom => s.once.BlockQueue? && |s.queue| < s.cfg.depth
    case QueueExpired => s.once.BlockQueue? && s.owner in s.expired
    case Finish => s.once.Closing?
  }

  function OnceNext(s: State, o: OnceStep): (t: State)
    requires OnceEnabled(s, o)
    ensures t == s.(once := t.once, inq := t.inq, queue := t.queue, closers := t.closers, lost := t.lost, h := t.h)
    ensures t.h == s.h.(overQueue := t.h.overQueue, drainedAt := t.h.drainedAt, besideRun := t.h.besideRun)
  {
    match o
    case RunDone => s.(once := Draining([]))
    case Grace => s.(once := Draining([]), h := s.h.(besideRun := !s.AccumulatorDone()))
    case DrainTake =>
      var got := s.once.got + [s.inq[0]];
      s.(inq := s.inq[1..],
         once := if |got| >= s.cfg.batchSize then TryQueue(got, false) else Draining(got))
    case DrainEmpty =>
      s.(once := if s.once.got == [] then Closing else TryQueue(s.once.got, true),
         h := s.h.(drainedAt := |s.h.entered|))
    case QueueTry =>
      if |s.queue| < s.cfg.depth
      then s.(queue := s.queue + [s.once.cp], once := AfterQueue(s.once.last))
      else s.(once := BlockQueue(s.once.cp, s.once.last))
    case QueueRoom => s.(queue := s.queue + [s.once.cp], once := AfterQueue(s.once.last))
    case QueueExpired =>
      s.(lost := s.lost.(queue := s.lost.queue + |s.once.cp|), once := AfterQueue(s.once.last),
         h := s.h.(overQueue := s.h.overQueue + s.once.cp))
    case Finish =>
      s.(once := Shut, closers := s.closers[s.owner := AwaitWriter])
  }

  predicate Closer(s: State, c: nat, pc: CloserPc) {
    c in s.closers && s.closers[c] == pc
  }

  predicate CloserEnabled(s: State, c: nat, k: CloserStep) {
    match k
    case Call => c !in s.closers
    case Unblock => Closer(s, c, BlockedOnce) && s.once.Shut?
    case SeeWriterDone => Closer(s, c, AwaitWriter) && s.WriterDone()
    case Timeout => Closer(s, c, AwaitWriter) && c in s.expired
    case CancelInsert => Closer(s, c, OutOfTime)
    case GiveUp => Closer(s, c, AwaitGrace)   // wrDone or the grace timer
  }

  function CloserNext(s: State, c: nat, k: CloserStep): (t: State)
    requires CloserEnabled(s, c, k)
    ensures t == s.(once := t.once, owner := t.owner, closers := t.closers, cancelled := t.cancelled, h := t.h)
    ensures t.h == s.h.(straddling := t.h.straddling)
  {
    match k
    case Call =>
      if s.once.Open? then
        s.(once := AwaitRun, owner := c, closers := s.closers[c := InOnce],
           h := s.h.(straddling := s.pushing))
      else s.(closers := s.closers[c := BlockedOnce])
    case Unblock => s.(closers := s.closers[c := AwaitWriter])
    case SeeWriterDone => s.(closers := s.closers[c := Returned(true)])
    case Timeout => s.(closers := s.closers[c := OutOfTime])
    case CancelInsert => s.(closers := s.closers[c := AwaitGrace], cancelled := true)
    case GiveUp => s.(closers := s.closers[c := Returned(false)])
  }

  predicate WriterEnabled(s: State, w: WriterStep) {
    match w
    case TakeBatch => s.writer.Selecting? && s.queue != []
    case SeeDrained => s.writer.Selecting? && s.DrainDone()
    case LastTake => s.writer.LastLook? && s.queue != []
    case Exit => s.writer.LastLook? && s.queue == []
    case InsertOk => s.writer.Inserting?
    case InsertFail => s.writer.Inserting?
  }

  function WriterNext(s: State, w: WriterStep): (t: State)
    requires WriterEnabled(s, w)
    ensures t == s.(queue := t.queue, writer := t.writer, lost := t.lost, h := t.h)
    ensures t.h == s.h.(stored := t.h.stored, failed := t.h.failed)
  {
    match w
    case TakeBatch => s.(queue := s.queue[1..], writer := Inserting(s.queue[0]))
    case SeeDrained => s.(writer := LastLook)
    case LastTake => s.(queue := s.queue[1..], writer := Inserting(s.queue[0]))
    case Exit => s.(writer := Exited)
    case InsertOk =>
      s.(writer := Selecting, h := s.h.(stored := s.h.stored + s.writer.cp))
    case InsertFail =>
      s.(writer := Selecting, lost := s.lost.(insert := s.lost.insert + |s.writer.cp|),
         h := s.h.(failed := s.h.failed + s.writer.cp))
  }

  predicate Enabled(s: State, a: Action) {
    match a
    case Push(p) => PushEnabled(s, p)
    case Run(r) => RunEnabled(s, r)
    case Once(o) => OnceEnabled(s, o)
    case Close(c, k) => CloserEnabled(s, c, k)
    case Write(w) => WriterEnabled(s, w)
    case CancelRun => true
    case Expire(c) => true
  }

  function Next(s: State, a: Action): State
    requires Enabled(s, a)
  {
    match a
    case Push(p) => PushNext(s, p)
    case Run(r) => RunNext(s, r)
    case Once(o) => OnceNext(s, o)
    case Close(c, k) => CloserNext(s, c, k)
    case Write(w) => WriterNext(s, w)
    case CancelRun => s.(stopped := true)
    case Expire(c) => s.(expired := s.expired + {c})
  }

  // Run a schedule; Stuck when one of its steps is not enabled.
  datatype Outcome = Stuck | At(state: State)

  function Exec(s: State, acts: seq<Action>): Outcome
    decreases |acts|
  {
    if acts == [] then At(s)
    else if !Enabled(s, acts[0]) then Stuck
    else Exec(Next(s, acts[0]), acts[1..])
  }

  // s is reached from a new buffer by the schedule acts.
  predicate Reaches(capacity: int, batchSize: int, acts: seq<Action>, s: State) {
    Exec(Init(capacity, batchSize), acts) == At(s)
  }

  // ----- where events are -----

  function RunHeld(run: RunPc): seq<Event> {
    match run case Looping(b) => b case Offering(cp, _) => cp case _ => []
  }

  function OnceHeld(once: OncePc): seq<Event> {
    match once
    case Draining(b) => b
    case TryQueue(cp, _) => cp
    case BlockQueue(cp, _) => cp
    case _ => []
  }

  function WriterHeld(writer: WriterPc): seq<Event> {
    if writer.Inserting? then writer.cp else []
  }

  function Flat(q: seq<seq<Event>>): seq<Event> {
    if q == [] then [] else q[0] + Flat(q[1..])
  }

  lemma {:induction false} FlatAppend(q: seq<seq<Event>>, b: seq<Event>)
    ensures Flat(q + [b]) == Flat(q) + b
  {
    if q == [] {
      assert [b][1..] == [];
    } else {
      assert (q + [b])[1..] == q[1..] + [b];
      FlatAppend(q[1..], b);
    }
  }

  // How many times e occurs in q.
  function Occ(q: seq<Event>, e: Event): nat {
    if q == [] then 0 else (if q[0] == e then 1 else 0) + Occ(q[1..], e)
  }

  lemma {:induction false} OccAppend(a: seq<Event>, b: seq<Event>, e: Event)
    ensures Occ(a + b, e) == Occ(a, e) + Occ(b, e)
  {
    if a == [] {
      assert a + b == b;
    } else {
      assert (a + b)[1..] == a[1..] + b;
      OccAppend(a[1..], b, e);
    }
  }

  // Not yet with the accumulator: inside Push, or in b.in.
  function Outside(s: State, e: Event): nat {
    (if e in s.pushing then 1 else 0) + Occ(s.inq, e)
  }

  // In somebody's hands: local batches, the batch queue, the running insert.
  function InFlight(s: State, e: Event): nat {
    Occ(RunHeld(s.run), e) + Occ(OnceHeld(s.once), e) + Occ(Flat(s.queue), e) + Occ(WriterHeld(s.writer), e)
  }

  // Settled for good: stored, or lost for one of the four causes.
  function Settled(h: History, e: Event): nat {
    Occ(h.stored, e) + Occ(h.full, e) + Occ(h.overQueue, e) + Occ(h.failed, e) + Occ(h.late, e)
  }

  // How many times e occurs over all the places an event can be.
  function Places(s: State, e: Event): nat {
    Outside(s, e) + InFlight(s, e) + Settled(s.h, e)
  }
}

/**
 The sections of the log buffer's code that run without interleaving, on the memory they
 change in place: the accumulator's slice, which is used again and again, and the slices
 in the queue, which the writer reads later.
 */
module LogBufCode {
  import opened LogBuf

  class Buffer {
    const cfg: Config
    const batch: array<Event>            // the accumulator's slice and how much of it is used
    var len: nat
    var inq: seq<Event>
    var batches: seq<array<Event>>
    var lost: Losses

    // The queued slices are copies: none is the accumulator's own.
    ghost predicate Valid()
      reads this
    {
      && 0 < cfg.batchSize && batch.Length == cfg.batchSize && len <= batch.Length
      && forall i :: 0 <= i < |batches| ==> batches[i] != batch
    }

    // What the accumulator holds, and what is queued.
    ghost function Held(): seq<Event>
      requires Valid()
      reads this, batch
    {
      batch[..len]
    }

    ghost function Queue(): seq<seq<Event>>
      reads this, batches
    {
      Contents(batches)
    }

    // The buffer is at s, as far as the accumulator, the channels and the counters go.
    ghost predicate Shows(s: State)
      requires Valid()
      reads this, batch, batches
    {
      s.cfg == cfg && s.inq == inq && s.queue == Queue() && s.lost == lost && RunHeld(s.run) == Held()
    }

    // New, for one accumulator.
    constructor (capacity: int, batchSize: int)
      ensures Valid() && fresh(batch) && cfg == NewConfig(capacity, batchSize)
      ensures Held() == [] && Queue() == [] && inq == [] && Shows(Init(capacity, batchSize))
    {
      var c := if capacity <= 0 then 10000 else capacity;
      var n := if batchSize <= 0 then 1000 else batchSize;
      var depth := c / n;
      if depth < 2 {
        depth := 2;
      }
      cfg := Config(c, depth, n);
      batch := new Event[n];
      len, inq, batches, lost := 0, [], [], Losses(0, 0, 0, 0);
    }

    // The send of Push: into b.in if there is room, else counted.
    method Send(e: Event, ghost s: State)
      requires Valid() && Shows(s) && PushEnabled(s, PushStep.Send(e))
      modifies this`inq, this`lost
      ensures Valid() && Queue() == old(Queue()) && Held() == old(Held())
      ensures |old(inq)| < cfg.capacity ==> inq == old(inq) + [e] && lost == old(lost)
      ensures |old(inq)| >= cfg.capacity ==> inq == old(inq) && lost == old(lost).(full := old(lost).full + 1)
      ensures Shows(PushNext(s, PushStep.Send(e)))
    {
      if |inq| < cfg.capacity {
        inq := inq + [e];
      } else {
        lost := lost.(full := lost.full + 1);
      }
    }

    // The arm of Run that receives: what is queued stays as it is, although the slice it
    // was copied from is written over.
    method Receive(ghost s: State) returns (full: bool)
      requires Valid() && inq != [] && len < batch.Length && Shows(s) && s.run.Looping?
      modifies this`inq, this`len, batch
      ensures Valid() && inq == old(inq)[1..]
      ensures Held() == old(Held()) + [old(inq)[0]] && full == (|Held()| >= cfg.batchSize)
      ensures Queue() == old(Queue()) && Shows(RunNext(s, RunStep.Take))
      ensures full <==> RunNext(s, RunStep.Take).run.Offering?
    {
      batch[len] := inq[0];
      len := len + 1;
      inq := inq[1..];
      full := len >= cfg.batchSize;
      assert forall i :: 0 <= i < |batches| ==> batches[i][..] == old(batches[i][..]);
    }

    // take: a copy of its own for the reader, and the slice is empty again.
    method Take() returns (cp: array?<Event>)
      requires Valid()
      modifies this`len
      ensures Valid() && Held() == [] && Queue() == old(Queue())
      ensures old(Held()) == [] ==> cp == null
      ensures old(Held()) != [] ==> cp != null && fresh(cp) && cp[..] == old(Held())
    {
      if len == 0 {
        return null;
      }
      var n := len;
      var copy := new Event[n];
      for i := 0 to n
        invariant len == n
        invariant forall j :: 0 <= j < i ==> copy[j] == batch[j]
      {
        copy[i] := batch[i];
      }
      assert copy[..] == batch[..n];
      len := 0;
      cp := copy;
    }

    // handoff: the batch goes to the queue whole, or is counted whole.
    method HandOff(ghost s: State)
      requires Valid() && Shows(s) && (Held() != [] ==> s.run.Offering?)
      modifies this`len, this`batches, this`lost
      ensures Valid() && Held() == [] && inq == old(inq)
      ensures old(Held()) == [] ==> Queue() == old(Queue()) && lost == old(lost)
      ensures old(Held()) != [] && |old(Queue())| < cfg.depth ==>
        Queue() == old(Queue()) + [old(Held())] && lost == old(lost)
      ensures old(Held()) != [] && |old(Queue())| >= cfg.depth ==>
        Queue() == old(Queue()) && lost == old(lost).(queue := old(lost).queue + |old(Held())|)
      ensures old(Held()) != [] ==> Shows(RunNext(s, Offer))
    {
      var cp := Take();
      if cp == null {
        return;
      }
      if |batches| < cfg.depth {
        Enqueued(batches, cp);
        batches := batches + [cp];
      } else {
        lost := lost.(queue := lost.queue + cp.Length);
      }
    }

    // The writer takes the oldest batch; what it reads is what was handed off.
    method Dequeue(ghost s: State) returns (cp: array<Event>)
      requires Valid() && batches != [] && Shows(s) && s.writer.Selecting?
      modifies this`batches
      ensures Valid() && cp[..] == old(Queue())[0] && Queue() == old(Queue())[1..] && Held() == old(Held())
      ensures WriterHeld(WriterNext(s, TakeBatch).writer) == cp[..] && Shows(WriterNext(s, TakeBatch))
    {
      cp := batches[0];
      batches := batches[1..];
    }
  }

  ghost function Contents(batches: seq<array<Event>>): (r: seq<seq<Event>>)
    reads batches
    ensures |r| == |batches| && forall i :: 0 <= i < |r| ==> r[i] == batches[i][..]
  {
    seq(|batches|, i requires 0 <= i < |batches| reads batches => batches[i][..])
  }

  lemma Enqueued(batches: seq<array<Event>>, cp: array<Event>)
    ensures Contents(batches + [cp]) == Contents(batches) + [cp[..]]
  {
  }
}

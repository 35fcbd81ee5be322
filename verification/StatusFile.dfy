/**
 The status file of cron.Runner.  Any goroutine may change the state under mu; save takes
 its snapshot and writes the file under saveMu.  A write replaces the whole file or fails.
 */
module StatusFile {

  datatype Pc<T> =
    | Outside(dirty: bool)                 // dirty: it has changed the state since it last called save
    | Waiting(since: nat)                  // called save at version since
    | Locked(since: nat)                   // holds saveMu
    | Snapped(since: nat, snap: T, ver: nat)

  // last: the version this goroutine made last.
  datatype Thread<T> = Thread(pc: Pc<T>, last: nat)

  datatype State<T> = State(
    hist: seq<T>,             // every version of the state; the last one is in memory
    file: T, fileVer: nat,    // what the file holds, and which version it is
    threads: seq<Thread<T>>,
    lastSnap: nat, lastOk: bool)   // the last save to return: its snapshot, and whether it wrote

  function Version<T>(s: State<T>): int { |s.hist| - 1 }

  // A service that starts on the file it reads.
  function Init<T>(file: T): State<T> { State([file], file, 0, [], 0, true) }

  datatype Action<T> =
    | Spawn
    | Change(i: nat, to: T)
    | Call(i: nat)
    | Lock(i: nat)
    | Snap(i: nat)
    | Write(i: nat, ok: bool)

  predicate Holder<T>(t: Thread<T>) { t.pc.Locked? || t.pc.Snapped? }

  predicate Free<T>(threads: seq<Thread<T>>) { forall i :: 0 <= i < |threads| ==> !Holder(threads[i]) }

  predicate Enabled<T>(s: State<T>, a: Action<T>) {
    match a
    case Spawn => true
    case Change(i, _) => i < |s.threads| && s.threads[i].pc.Outside?
    case Call(i) => i < |s.threads| && s.threads[i].pc.Outside?
    case Lock(i) => i < |s.threads| && s.threads[i].pc.Waiting? && Free(s.threads)
    case Snap(i) => i < |s.threads| && s.threads[i].pc.Locked? && s.hist != []
    case Write(i, _) => i < |s.threads| && s.threads[i].pc.Snapped?
  }

  function At<T>(s: State<T>, i: nat, pc: Pc<T>): State<T>
    requires i < |s.threads|
  {
    s.(threads := s.threads[i := s.threads[i].(pc := pc)])
  }

  function Next<T>(s: State<T>, a: Action<T>): State<T>
    requires Enabled(s, a)
  {
    match a
    case Spawn => s.(threads := s.threads + [Thread(Outside(false), 0)])
    case Change(i, to) => s.(hist := s.hist + [to], threads := s.threads[i := Thread(Outside(true), |s.hist|)])
    case Call(i) => At(s, i, Waiting(if s.hist == [] then 0 else |s.hist| - 1))
    case Lock(i) => At(s, i, Locked(s.threads[i].pc.since))
    case Snap(i) => At(s, i, Snapped(s.threads[i].pc.since, s.hist[|s.hist| - 1], |s.hist| - 1))
    case Write(i, ok) =>
      var pc := s.threads[i].pc;
      var t := At(s, i, Outside(false)).(lastSnap := pc.ver, lastOk := ok);
      if ok then t.(file := pc.snap, fileVer := pc.ver) else t
  }

  ghost predicate Run<T>(states: seq<State<T>>, actions: seq<Action<T>>, file: T) {
    && |states| == |actions| + 1 && states[0] == Init(file)
    && forall k :: 0 <= k < |actions| ==> Enabled(states[k], actions[k]) && states[k + 1] == Next(states[k], actions[k])
  }

  // ----- invariants -----

  ghost predicate Inv<T>(s: State<T>) {
    && Filed(s) && OneHolder(s.threads) && Authored(s)
    && forall i :: 0 <= i < |s.threads| ==> Covers(s, s.threads[i])
  }

  predicate Filed<T(==)>(s: State<T>) {
    && s.hist != [] && s.fileVer <= s.lastSnap < |s.hist|
    && s.file == s.hist[s.fileVer] && (s.lastOk ==> s.fileVer == s.lastSnap)
  }

  predicate OneHolder<T>(threads: seq<Thread<T>>) {
    forall i, j :: 0 <= i < j < |threads| ==> !(Holder(threads[i]) && Holder(threads[j]))
  }

  // Some goroutine made the version in memory.
  predicate Authored<T>(s: State<T>) {
    |s.hist| == 1 || exists i :: 0 <= i < |s.threads| && s.threads[i].last == |s.hist| - 1
  }

  // The goroutine's own changes are in the last snapshot, or will be in its next.
  ghost predicate Covers<T>(s: State<T>, t: Thread<T>)
    requires s.hist != []
  {
    && t.last < |s.hist|
    && match t.pc
       case Outside(dirty) => dirty || t.last <= s.lastSnap
       case Waiting(since) => t.last <= since < |s.hist|
       case Locked(since) => t.last <= since < |s.hist|
       case Snapped(since, snap, ver) => t.last <= since <= ver < |s.hist| && snap == s.hist[ver] && s.lastSnap <= ver
  }

  lemma CoversLater<T>(s: State<T>, a: Action<T>, i: nat)
    requires Inv(s) && Enabled(s, a) && i < |Next(s, a).threads|
    ensures Next(s, a).hist != [] && Covers(Next(s, a), Next(s, a).threads[i])
  {
    if i < |s.threads| { assert Covers(s, s.threads[i]); }
    if a.Write? { assert Covers(s, s.threads[a.i]); }
  }

  lemma AuthorLater<T>(s: State<T>, a: Action<T>)
    requires Inv(s) && Enabled(s, a)
    ensures Authored(Next(s, a))
  {
    var t := Next(s, a);
    if a.Change? {
      assert t.threads[a.i].last == |t.hist| - 1;
    } else if |s.hist| > 1 {
      var i :| 0 <= i < |s.threads| && s.threads[i].last == |s.hist| - 1;
      assert t.threads[i].last == s.threads[i].last;
    }
  }

  lemma OneHolderLater<T>(s: State<T>, a: Action<T>)
    requires OneHolder(s.threads) && Enabled(s, a)
    ensures OneHolder(Next(s, a).threads)
  {
  }

  lemma FileLater<T>(s: State<T>, a: Action<T>)
    requires Inv(s) && Enabled(s, a)
    ensures Filed(Next(s, a))
  {
    if a.Write? { assert Covers(s, s.threads[a.i]); }
  }

  lemma StepKeeps<T>(s: State<T>, a: Action<T>)
    requires Inv(s) && Enabled(s, a)
    ensures Inv(Next(s, a))
  {
    FileLater(s, a);
    AuthorLater(s, a);
    OneHolderLater(s, a);
    forall i | 0 <= i < |Next(s, a).threads|
      ensures Covers(Next(s, a), Next(s, a).threads[i])
    {
      CoversLater(s, a, i);
    }
  }

  lemma {:induction false} Invariant<T>(states: seq<State<T>>, actions: seq<Action<T>>, file: T, k: nat)
    requires Run(states, actions, file) && k < |states|
    ensures Inv(states[k])
  {
    if k > 0 {
      Invariant(states, actions, file, k - 1);
      StepKeeps(states[k - 1], actions[k - 1]);
    }
  }

  // ----- what it means -----

  // The file never steps back, and always holds a state that was once in memory.
  lemma {:induction false} NeverStepsBack<T>(states: seq<State<T>>, actions: seq<Action<T>>, file: T, j: nat, k: nat)
    requires Run(states, actions, file) && j <= k < |states|
    ensures states[j].fileVer <= states[k].fileVer < |states[k].hist| && states[j].hist <= states[k].hist
    ensures states[k].file == states[k].hist[states[k].fileVer]
  {
    Invariant(states, actions, file, k);
    if j < k {
      NeverStepsBack(states, actions, file, j, k - 1);
      Invariant(states, actions, file, k - 1);
      assert Enabled(states[k - 1], actions[k - 1]);
      if actions[k - 1].Write? { assert Covers(states[k - 1], states[k - 1].threads[actions[k - 1].i]); }
    }
  }

  // A save that succeeds leaves in the file every change made before it was called.
  lemma SaveIsComplete<T>(states: seq<State<T>>, actions: seq<Action<T>>, file: T, k: nat)
    requires Run(states, actions, file) && k < |actions| && actions[k].Write? && actions[k].ok
    ensures actions[k].i < |states[k].threads| && states[k].threads[actions[k].i].pc.Snapped?
    ensures states[k + 1].fileVer >= states[k].threads[actions[k].i].pc.since
    ensures states[k + 1].fileVer >= states[k].threads[actions[k].i].last
  {
    Invariant(states, actions, file, k);
    assert Enabled(states[k], actions[k]);
    assert Covers(states[k], states[k].threads[actions[k].i]);
  }

  // Nobody is saving, or has changed the state without saving since.
  ghost predicate Quiet<T>(s: State<T>) {
    forall i :: 0 <= i < |s.threads| ==> s.threads[i].pc == Outside(false)
  }

  // Once all is quiet, the last save has seen everything, and if it succeeded the file
  // is the state in memory.
  lemma QuietFileIsCurrent<T>(states: seq<State<T>>, actions: seq<Action<T>>, file: T, k: nat)
    requires Run(states, actions, file) && k < |states| && Quiet(states[k])
    ensures states[k].lastSnap == Version(states[k])
    ensures states[k].lastOk ==> states[k].file == states[k].hist[|states[k].hist| - 1]
  {
    Invariant(states, actions, file, k);
    var s := states[k];
    if |s.hist| > 1 {
      var i :| 0 <= i < |s.threads| && s.threads[i].last == |s.hist| - 1;
      assert Covers(s, s.threads[i]);
    }
  }
}

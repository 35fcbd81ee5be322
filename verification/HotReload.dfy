/**
 The stat, read, publish protocol by which the groups file, the separation lists and the
 IP lists are reloaded.  Files are replaced whole; each has one reloader.
 */
module HotReload {
  import opened Wrappers

  // One version of the file: its fingerprint, and what it parses to, if it does.
  datatype Version<C> = Absent | Present(stamp: nat, body: Option<C>)

  datatype Pc<C> =
    | Idle
    | Stamped(ver: nat)                     // has the fingerprint of version ver
    | Parsed(ver: nat, at: nat, body: C)    // ... and what version `at` parses to
    | Published(ver: nat)                   // ... and has published it

  datatype State<C> = State(
    hist: seq<Version<C>>,      // the versions so far; the last one is on disk
    pc: Pc<C>,
    stamp: Option<nat>, content: C,
    stampVer: int, contentVer: int)   // the versions these are of, -1 when of none

  function Current<C>(s: State<C>): Version<C>
    requires s.hist != []
  {
    s.hist[|s.hist| - 1]
  }

  datatype Action<C> =
    | Replace(v: Version<C>)   // somebody replaces the file
    | Stat                     // compares fingerprints; an unchanged file costs no more
    | Restat                   // ipindex takes the fingerprint again before it reads
    | Read
    | Publish
    | Record

  function Next<C>(s: State<C>, a: Action<C>): State<C>
    requires s.hist != []
  {
    var c, v := |s.hist| - 1, Current(s);
    match a
    case Replace(w) => s.(hist := s.hist + [w])
    case Stat =>
      if s.pc.Idle? && v.Present? && s.stamp != Some(v.stamp) then s.(pc := Stamped(c)) else s
    case Restat => if s.pc.Stamped? then s.(pc := if v.Present? then Stamped(c) else Idle) else s
    case Read =>
      if !s.pc.Stamped? then s
      else if v.Present? && v.body.Some? then s.(pc := Parsed(s.pc.ver, c, v.body.value))
      else s.(pc := Idle)
    case Publish =>
      if s.pc.Parsed? then s.(pc := Published(s.pc.ver), content := s.pc.body, contentVer := s.pc.at) else s
    case Record =>
      if s.pc.Published? && s.pc.ver < |s.hist| && s.hist[s.pc.ver].Present?
      then s.(pc := Idle, stamp := Some(s.hist[s.pc.ver].stamp), stampVer := s.pc.ver) else s
  }

  function Exec<C>(s: State<C>, actions: seq<Action<C>>): (r: State<C>)
    requires s.hist != []
    ensures r.hist != [] && s.hist <= r.hist
    decreases |actions|
  {
    if actions == [] then s
    else
      var t := Exec(s, actions[..|actions| - 1]);
      assert s.hist <= t.hist <= Next(t, actions[|actions| - 1]).hist;
      Next(t, actions[|actions| - 1])
  }

  // Nothing loaded yet, or a fingerprint and a content of one version.
  predicate Initial<C(==)>(s: State<C>) {
    && |s.hist| == 1 && s.pc.Idle?
    && if s.stampVer < 0 then s.stampVer == -1 && s.contentVer == -1 && s.stamp == None
       else s.stampVer == s.contentVer == 0 && s.stamp.Some? && s.hist[0] == Present(s.stamp.value, Some(s.content))
  }

  // The fingerprint is never newer than the content, which is never newer than the file.
  predicate Inv<C(==)>(s: State<C>) {
    && s.hist != [] && -1 <= s.stampVer <= s.contentVer < |s.hist|
    && (s.stampVer < 0 ==> s.stamp == None)
    && (s.stampVer >= 0 ==> s.hist[s.stampVer].Present? && s.stamp == Some(s.hist[s.stampVer].stamp))
    && (s.contentVer >= 0 ==> s.hist[s.contentVer].Present? && s.hist[s.contentVer].body == Some(s.content))
    && match s.pc
       case Idle => true
       case Stamped(ver) => ver < |s.hist| && s.hist[ver].Present?
       case Parsed(ver, at, body) =>
         ver <= at < |s.hist| && s.contentVer <= at
         && s.hist[ver].Present? && s.hist[at].Present? && s.hist[at].body == Some(body)
       case Published(ver) => ver < |s.hist| && s.hist[ver].Present? && ver <= s.contentVer
  }

  lemma StepKeeps<C>(s: State<C>, a: Action<C>)
    requires Inv(s)
    ensures Inv(Next(s, a)) && s.contentVer <= Next(s, a).contentVer
  {
  }

  lemma {:induction false} Invariant<C>(s: State<C>, actions: seq<Action<C>>)
    requires Initial(s)
    ensures Inv(Exec(s, actions))
    decreases |actions|
  {
    if actions != [] {
      Invariant(s, actions[..|actions| - 1]);
      StepKeeps(Exec(s, actions[..|actions| - 1]), actions[|actions| - 1]);
    }
  }

  // A fingerprint seen twice hides nothing: what could have been read between the two is
  // what the later version parses to.  Distinct fingerprints are one way to have that.
  predicate Safe<C(==)>(hist: seq<Version<C>>) {
    forall i, k, j :: 0 <= i <= k < j < |hist| && Hides(hist[i], hist[k], hist[j]) ==> hist[j].body == hist[k].body
  }

  // The fingerprint is taken of v, a list is read from w, and x has the fingerprint of v.
  predicate Hides<C>(v: Version<C>, w: Version<C>, x: Version<C>) {
    v.Present? && w.Present? && w.body.Some? && x.Present? && v.stamp == x.stamp
  }

  // If the recorded fingerprint is the file's, what is published is the file.
  predicate UpToDate<C(==)>(t: State<C>)
    requires t.hist != []
  {
    var v := Current(t);
    v.Present? && t.stamp == Some(v.stamp) ==> v.body == Some(t.content)
  }

  lemma NoUpdateLost<C>(s: State<C>, actions: seq<Action<C>>)
    requires Initial(s) && Safe(Exec(s, actions).hist)
    ensures UpToDate(Exec(s, actions))
  {
    Invariant(s, actions);
    SafeIsUpToDate(Exec(s, actions));
  }

  lemma SafeIsUpToDate<C>(t: State<C>)
    requires Inv(t) && Safe(t.hist)
    ensures UpToDate(t)
  {
    var n := |t.hist| - 1;
    if t.stampVer >= 0 && t.contentVer < n && Current(t).Present? && t.stamp == Some(Current(t).stamp) {
      assert Hides(t.hist[t.stampVer], t.hist[t.contentVer], t.hist[n]);
    }
  }

  // What is published only ever moves on to later versions.
  lemma {:induction false} NeverStepsBack<C>(s: State<C>, actions: seq<Action<C>>, n: nat)
    requires Initial(s) && n <= |actions|
    ensures Exec(s, actions[..n]).contentVer <= Exec(s, actions).contentVer
    decreases |actions|
  {
    if n == |actions| {
      assert actions[..n] == actions;
    } else {
      var before := actions[..|actions| - 1];
      assert before[..n] == actions[..n];
      NeverStepsBack(s, before, n);
      Invariant(s, before);
      StepKeeps(Exec(s, before), actions[|actions| - 1]);
    }
  }

  // A whole pass of the reloader while the file stays as it is.
  function Pass<C>(s: State<C>): State<C>
    requires s.hist != []
  {
    Next(Next(Next(Next(s, Stat), Read), Publish), Record)
  }

  // It catches up with the file, or leaves everything as it was when the file cannot be
  // read, so that the next pass tries again.
  lemma PassCatchesUp<C>(s: State<C>, actions: seq<Action<C>>)
    requires Initial(s) && Safe(Exec(s, actions).hist) && Exec(s, actions).pc.Idle?
    ensures var t := Exec(s, actions);
      if Current(t).Present? && Current(t).body.Some?
      then Pass(t).content == Current(t).body.value && Pass(t).stamp == Some(Current(t).stamp)
      else Pass(t) == t
  {
    Invariant(s, actions);
    var t := Exec(s, actions);
    if Current(t).Present? && t.stamp == Some(Current(t).stamp) {
      NoUpdateLost(s, actions);
      PassSkips(t);
    } else if Current(t).Present? && Current(t).body.Some? {
      PassPublishes(t);
    } else {
      PassFails(t);
    }
  }

  lemma PassSkips<C>(t: State<C>)
    requires t.hist != [] && t.pc.Idle? && Current(t).Present? && t.stamp == Some(Current(t).stamp)
    ensures Pass(t) == t
  {
  }

  lemma PassPublishes<C>(t: State<C>)
    requires t.hist != [] && t.pc.Idle? && Current(t).Present? && t.stamp != Some(Current(t).stamp)
      && Current(t).body.Some?
    ensures Pass(t).content == Current(t).body.value && Pass(t).stamp == Some(Current(t).stamp)
  {
  }

  lemma PassFails<C>(t: State<C>)
    requires t.hist != [] && t.pc.Idle? && (Current(t).Absent? || Current(t).body.None?)
    ensures Pass(t) == t
  {
  }

  // ----- the condition is exact -----

  // The file goes through the versions up to n.
  lemma {:induction false} ReplaceTo<C>(s: State<C>, acts: seq<Action<C>>, h: seq<Version<C>>, m: nat, n: nat)
      returns (more: seq<Action<C>>)
    requires s.hist != [] && 0 < m <= n <= |h| && Exec(s, acts).hist == h[..m]
    ensures Exec(s, more) == Exec(s, acts).(hist := h[..n])
  {
    if m == n {
      more := acts;
    } else {
      var init := ReplaceTo(s, acts, h, m, n - 1);
      assert h[..n - 1] + [h[n - 1]] == h[..n];
      more := Then(s, init, Replace(h[n - 1]));
    }
  }

  lemma Then<C>(s: State<C>, acts: seq<Action<C>>, a: Action<C>) returns (more: seq<Action<C>>)
    requires s.hist != []
    ensures Exec(s, more) == Next(Exec(s, acts), a)
  {
    more := acts + [a];
    assert more[..|more| - 1] == acts;
  }

  // Nothing loaded, and the first version on disk.
  function Unloaded<C>(v: Version<C>, c: C): State<C> { State([v], Idle, None, c, -1, -1) }

  // The fingerprint of version i, the content of version k, the file by then version j.
  lemma Hidden<C>(h: seq<Version<C>>, c: C, i: nat, k: nat, j: nat) returns (acts: seq<Action<C>>)
    requires i <= k < j < |h| && Hides(h[i], h[k], h[j])
    ensures Exec(Unloaded(h[0], c), acts) == State(h[..j + 1], Idle, Some(h[j].stamp), h[k].body.value, i, k)
  {
    var s := Unloaded(h[0], c);
    assert Exec(s, []) == s && s.hist == h[..1];
    acts := ReplaceTo(s, [], h, 1, i + 1);
    acts := Then(s, acts, Stat);
    assert Exec(s, acts) == s.(hist := h[..i + 1], pc := Stamped(i));
    acts := ReplaceTo(s, acts, h, i + 1, k + 1);
    acts := ReadHere(s, acts, h, i, k);
    acts := ReplaceTo(s, acts, h, k + 1, j + 1);
  }

  lemma ReadHere<C>(s: State<C>, acts: seq<Action<C>>, h: seq<Version<C>>, i: nat, k: nat)
      returns (more: seq<Action<C>>)
    requires s.hist != [] && i <= k < |h| && h[i].Present? && h[k].Present? && h[k].body.Some?
    requires Exec(s, acts) == Exec(s, acts).(hist := h[..k + 1], pc := Stamped(i))
    ensures Exec(s, more)
      == Exec(s, acts).(pc := Idle, stamp := Some(h[i].stamp), content := h[k].body.value,
                        stampVer := i, contentVer := k)
  {
    more := Then(s, acts, Read);
    more := Then(s, more, Publish);
    more := Then(s, more, Record);
  }

  // No reloader of this file can be out of date under the file's own fingerprint exactly
  // when the file's history is safe.
  lemma SafeIff<C>(h: seq<Version<C>>, c: C)
    requires h != []
    ensures Safe(h) <==>
      forall s: State<C>, acts :: Initial(s) && Exec(s, acts).hist <= h ==> UpToDate(Exec(s, acts))
  {
    if Safe(h) {
      forall s: State<C>, acts | Initial(s) && Exec(s, acts).hist <= h ensures UpToDate(Exec(s, acts)) {
        SafePrefix(Exec(s, acts).hist, h);
        NoUpdateLost(s, acts);
      }
    } else {
      var s, acts := Unsafe(h, c);
    }
  }

  lemma Unsafe<C>(h: seq<Version<C>>, c: C) returns (s: State<C>, acts: seq<Action<C>>)
    requires h != [] && !Safe(h)
    ensures Initial(s) && Exec(s, acts).hist <= h && !UpToDate(Exec(s, acts))
  {
    var i, k, j :| 0 <= i <= k < j < |h| && Hides(h[i], h[k], h[j]) && h[j].body != h[k].body;
    s := Unloaded(h[0], c);
    acts := Hidden(h, c, i, k, j);
    OutOfDate(h, i, k, j, Exec(s, acts));
  }

  lemma OutOfDate<C>(h: seq<Version<C>>, i: nat, k: nat, j: nat, t: State<C>)
    requires i <= k < j < |h| && Hides(h[i], h[k], h[j]) && h[j].body != h[k].body
    requires t == State(h[..j + 1], Idle, Some(h[j].stamp), h[k].body.value, i, k)
    ensures t.hist <= h && !UpToDate(t)
  {
    assert Current(t) == h[j];
  }

  lemma SafePrefix<C>(g: seq<Version<C>>, h: seq<Version<C>>)
    requires Safe(h) && g <= h
    ensures Safe(g)
  {
    forall i, k, j | 0 <= i <= k < j < |g| && Hides(g[i], g[k], g[j]) ensures g[j].body == g[k].body {
      assert g[i] == h[i] && g[k] == h[k] && g[j] == h[j];
    }
  }

  // ----- what a recorded fingerprint hides stays hidden -----

  // Whatever an idle reloader does while the file has the recorded fingerprint, and
  // however long, it changes nothing.
  lemma {:induction false} StampBlocks<C>(t: State<C>, acts: seq<Action<C>>)
    requires t.hist != [] && t.pc.Idle? && Current(t).Present? && t.stamp == Some(Current(t).stamp)
    requires forall n :: 0 <= n < |acts| ==> !acts[n].Replace?
    ensures Exec(t, acts) == t
    decreases |acts|
  {
    if |acts| > 0 { StampBlocks(t, acts[..|acts| - 1]); }
  }

  // So a version that is not safe, with other content than what was read, is not published
  // before the file is replaced again.
  lemma SameStampHidesUpdate<C>(h: seq<Version<C>>, c: C, i: nat, k: nat, j: nat) returns (t: State<C>)
    requires i <= k < j < |h| && Hides(h[i], h[k], h[j])
    ensures exists before :: Exec(Unloaded(h[0], c), before) == t
    ensures t.hist == h[..j + 1] && t.content == h[k].body.value
    ensures forall acts: seq<Action<C>> :: (forall n :: 0 <= n < |acts| ==> !acts[n].Replace?) ==> Exec(t, acts) == t
  {
    var before := Hidden(h, c, i, k, j);
    t := Exec(Unloaded(h[0], c), before);
    forall acts: seq<Action<C>> | forall n :: 0 <= n < |acts| ==> !acts[n].Replace? ensures Exec(t, acts) == t {
      StampBlocks(t, acts);
    }
  }
}

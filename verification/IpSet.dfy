/** ipindex.Set: the named IP lists, each reloaded when its file changes. */
module IpSet {
  import opened HotReload
  import opened Wrappers

  // The file of each list at one moment; C is what a list parses to.
  type Disk<!C> = string -> Version<C>

  class Set<C(==)> {
    var holders: map<string, C>
    var stamps: map<string, nat>

    constructor ()
      ensures holders == map[] && stamps == map[]
    {
      holders, stamps := map[], map[];
    }

    // read: the fingerprint first, then the file.
    method Parse(name: string, atStat: Disk<C>, atRead: Disk<C>) returns (idx: Option<C>, st: Option<nat>)
      ensures st == StampIn(atStat(name))
      ensures idx == if atStat(name).Present? && atRead(name).Present? then atRead(name).body else None
    {
      var fi := atStat(name);
      if fi.Absent? {
        return None, None;
      }
      var file := atRead(name);
      if file.Absent? || file.body.None? {
        return None, Some(fi.stamp);
      }
      return file.body, Some(fi.stamp);
    }

    // A list that cannot be read is empty.  The k-th name is looked at in moments 2k and
    // 2k + 1 of the world.
    method Load(names: seq<string>, world: nat -> Disk<C>, empty: C)
      modifies this
      ensures (holders, stamps) == LoadedAll(old(holders), old(stamps), names, world, empty)
    {
      for k := 0 to |names|
        invariant (holders, stamps) == LoadedAll(old(holders), old(stamps), names[..k], world, empty)
      {
        assert names[..k + 1][..k] == names[..k];
        var idx, st := Parse(names[k], world(2 * k), world(2 * k + 1));
        if idx.None? {
          idx := Some(empty);
        }
        holders := holders[names[k] := idx.value];
        if st.Some? {
          stamps := stamps[names[k] := st.value];
        }
      }
      assert names[..|names|] == names;
    }

    // One turn of Reload: the file is looked at three times.
    method ReloadOne(name: string, first: Disk<C>, atStat: Disk<C>, atRead: Disk<C>) returns (changed: bool)
      requires name in holders
      modifies this
      ensures (holders, stamps) == ReloadedOne(old(holders), old(stamps), name, first(name), atStat(name), atRead(name))
      ensures !changed ==> holders == old(holders)
    {
      changed := false;
      var st := first(name);
      if st.Absent? {
        return;
      }
      if name in stamps && stamps[name] == st.stamp {
        return;
      }
      var idx, ns := Parse(name, atStat, atRead);
      if idx.None? {
        return;
      }
      holders := holders[name := idx.value];
      if ns.Some? {
        stamps := stamps[name := ns.value];
      }
      changed := true;
    }

    // names lists the registered lists, in any order; the k-th is looked at in moments
    // 3k, 3k + 1 and 3k + 2.
    method Reload(names: seq<string>, world: nat -> Disk<C>) returns (changed: seq<string>)
      requires forall name :: name in names <==> name in holders
      modifies this
      ensures (holders, stamps) == ReloadedAll(old(holders), old(stamps), names, world)
      ensures holders.Keys == old(holders).Keys
      ensures forall name :: name in changed ==> name in names
      ensures forall name :: name in holders && name !in changed ==> holders[name] == old(holders)[name]
    {
      changed := [];
      for k := 0 to |names|
        invariant (holders, stamps) == ReloadedAll(old(holders), old(stamps), names[..k], world)
        invariant Kept(old(holders), holders, changed) && forall name :: name in changed ==> name in names
      {
        ReloadedNext(old(holders), old(stamps), names, k, world);
        assert names[k] in names;
        var one := ReloadOne(names[k], world(3 * k), world(3 * k + 1), world(3 * k + 2));
        if one {
          changed := changed + [names[k]];
        }
      }
      assert names[..|names|] == names;
    }
  }

  // The same names, and the same lists but for those changed.
  predicate Kept<C(==)>(before: map<string, C>, after: map<string, C>, changed: seq<string>) {
    && after.Keys == before.Keys
    && forall name :: name in after && name !in changed ==> after[name] == before[name]
  }

  function StampIn<C>(v: Version<C>): Option<nat> { if v.Absent? then None else Some(v.stamp) }

  function StampOf(stamps: map<string, nat>, name: string): Option<nat> {
    if name in stamps then Some(stamps[name]) else None
  }

  function LoadedOne<C>(holders: map<string, C>, stamps: map<string, nat>,
    name: string, fi: Version<C>, file: Version<C>, empty: C)
    : (map<string, C>, map<string, nat>)
  {
    var body := if fi.Present? && file.Present? && file.body.Some? then file.body.value else empty;
    (holders[name := body], if fi.Present? then stamps[name := fi.stamp] else stamps)
  }

  function LoadedAll<C>(holders: map<string, C>, stamps: map<string, nat>,
    names: seq<string>, world: nat -> Disk<C>, empty: C)
    : (map<string, C>, map<string, nat>)
  {
    if names == [] then (holders, stamps)
    else
      var n := |names| - 1;
      var (h, s) := LoadedAll(holders, stamps, names[..n], world, empty);
      LoadedOne(h, s, names[n], world(2 * n)(names[n]), world(2 * n + 1)(names[n]), empty)
  }

  // What Load registers, and that it touches nothing else.
  lemma {:induction false} LoadRegisters<C>(holders: map<string, C>, stamps: map<string, nat>,
    names: seq<string>, world: nat -> Disk<C>, empty: C)
    ensures var h := LoadedAll(holders, stamps, names, world, empty).0;
      && (forall name :: name in h <==> name in holders || name in names)
      && forall name :: name in holders && name !in names ==> h[name] == holders[name]
  {
    if names != [] {
      var n := |names| - 1;
      LoadRegisters(holders, stamps, names[..n], world, empty);
      assert names == names[..n] + [names[n]];
    }
  }

  // The list holds what the file parsed to when it was looked at, nothing if it was not
  // there or could not be read, and the fingerprint is the one taken then.
  predicate HoldsWhat<C(==)>(holders: map<string, C>, stamps: map<string, nat>, name: string,
                             world: nat -> Disk<C>, empty: C) {
    var fi, file := world(0)(name), world(1)(name);
    && name in holders
    && holders[name] == (if fi.Present? && file.Present? && file.body.Some? then file.body.value else empty)
    && (fi.Present? ==> name in stamps && stamps[name] == fi.stamp)
  }

  lemma LoadedHolds<C>(holders: map<string, C>, stamps: map<string, nat>,
                       name: string, world: nat -> Disk<C>, empty: C)
    ensures var (h, s) := LoadedAll(holders, stamps, [name], world, empty);
      HoldsWhat(h, s, name, world, empty) && forall n :: n in stamps && n != name ==> n in s && s[n] == stamps[n]
  {
    assert [name][..0] == [];
    assert LoadedAll(holders, stamps, [], world, empty) == (holders, stamps);
  }

  function ReloadedOne<C>(holders: map<string, C>, stamps: map<string, nat>,
    name: string, st: Version<C>, fi: Version<C>, file: Version<C>)
    : (map<string, C>, map<string, nat>)
  {
    if st.Absent? || (name in stamps && stamps[name] == st.stamp) || fi.Absent? || file.Absent? || file.body.None?
    then (holders, stamps)
    else (holders[name := file.body.value], stamps[name := fi.stamp])
  }

  function ReloadedAll<C>(holders: map<string, C>, stamps: map<string, nat>, names: seq<string>, world: nat -> Disk<C>)
    : (map<string, C>, map<string, nat>)
  {
    if names == [] then (holders, stamps)
    else
      var n := |names| - 1;
      var (h, s) := ReloadedAll(holders, stamps, names[..n], world);
      ReloadedOne(h, s, names[n], world(3 * n)(names[n]), world(3 * n + 1)(names[n]), world(3 * n + 2)(names[n]))
  }

  lemma ReloadedNext<C>(holders: map<string, C>, stamps: map<string, nat>, names: seq<string>,
    k: nat, world: nat -> Disk<C>)
    requires k < |names|
    ensures var (h, s) := ReloadedAll(holders, stamps, names[..k], world);
      ReloadedAll(holders, stamps, names[..k + 1], world)
      == ReloadedOne(h, s, names[k], world(3 * k)(names[k]), world(3 * k + 1)(names[k]), world(3 * k + 2)(names[k]))
  {
    assert names[..k + 1][..k] == names[..k];
  }

  // The list has one content and one fingerprint in both.
  predicate SameAt<C(==)>(a: map<string, C>, s: map<string, nat>, b: map<string, C>, r: map<string, nat>,
                          name: string) {
    name in a && name in b && a[name] == b[name] && StampOf(s, name) == StampOf(r, name)
  }

  // The three looks at the k-th name.
  function ReloadedAt<C>(holders: map<string, C>, stamps: map<string, nat>, name: string, world: nat -> Disk<C>, k: nat)
    : (map<string, C>, map<string, nat>)
  {
    ReloadedOne(holders, stamps, name, world(3 * k)(name), world(3 * k + 1)(name), world(3 * k + 2)(name))
  }

  // The names are reloaded each on its own, whichever others there are: the k-th ends up as
  // a reload of it alone would leave it.
  lemma {:induction false} EachReloaded<C>(holders: map<string, C>, stamps: map<string, nat>, names: seq<string>,
    world: nat -> Disk<C>, k: nat)
    requires k < |names| && forall i, j :: 0 <= i < j < |names| ==> names[i] != names[j]
    requires names[k] in holders
    ensures var (h, s) := ReloadedAll(holders, stamps, names, world);
      var (h1, s1) := ReloadedAt(holders, stamps, names[k], world, k);
      SameAt(h, s, h1, s1, names[k])
  {
    var n := |names| - 1;
    var (h, s) := ReloadedAll(holders, stamps, names[..n], world);
    if k == n {
      OthersReloaded(holders, stamps, names[..n], world, names[k]);
      OneReloaded(holders, stamps, h, s, names[k], world, k);
    } else {
      EachReloaded(holders, stamps, names[..n], world, k);
      OtherReloaded(h, s, names[n], world, n, names[k]);
    }
  }

  // A reload looks at nothing but the list's own content and fingerprint, and touches no other.
  lemma OneReloaded<C>(a: map<string, C>, s: map<string, nat>, b: map<string, C>, r: map<string, nat>,
                       name: string, world: nat -> Disk<C>, k: nat)
    requires SameAt(a, s, b, r, name)
    ensures var (a', s') := ReloadedAt(a, s, name, world, k);
      var (b', r') := ReloadedAt(b, r, name, world, k);
      SameAt(b', r', a', s', name)
  {
  }

  lemma OtherReloaded<C>(a: map<string, C>, s: map<string, nat>,
                         name: string, world: nat -> Disk<C>, k: nat, other: string)
    requires other != name
    ensures var (a', s') := ReloadedAt(a, s, name, world, k);
      && (other in a' <==> other in a) && (other in a ==> a'[other] == a[other])
      && StampOf(s', other) == StampOf(s, other)
  {
  }

  lemma {:induction false} OthersReloaded<C>(holders: map<string, C>, stamps: map<string, nat>, names: seq<string>,
    world: nat -> Disk<C>, name: string)
    requires name !in names
    ensures var (h, s) := ReloadedAll(holders, stamps, names, world);
      && (name in h <==> name in holders) && (name in h ==> h[name] == holders[name])
      && StampOf(s, name) == StampOf(stamps, name)
  {
    if names != [] {
      var n := |names| - 1;
      OthersReloaded(holders, stamps, names[..n], world, name);
      var (h, s) := ReloadedAll(holders, stamps, names[..n], world);
      OtherReloaded(h, s, names[n], world, n, name);
    }
  }

  // So are they loaded: the last of a name's places decides.
  lemma {:induction false} EachLoaded<C>(holders: map<string, C>, stamps: map<string, nat>, names: seq<string>,
    world: nat -> Disk<C>, empty: C, k: nat)
    requires k < |names| && forall j :: k < j < |names| ==> names[j] != names[k]
    ensures var (h, s) := LoadedAll(holders, stamps, names, world, empty);
      HoldsWhat(h, s, names[k], (m: nat) => world(2 * k + m), empty)
  {
    if k < |names| - 1 { EachLoaded(holders, stamps, names[..|names| - 1], world, empty, k); }
  }

  // v has taken the place of the file, or the file is still v.
  function Later<C>(s: State<C>, replaced: bool, v: Version<C>): State<C>
    requires s.hist != []
  {
    if replaced then Next(s, Replace(v)) else s
  }

  // One reload of a list, its file replaced by later versions in between or not, is a
  // pass of the protocol.
  lemma ReloadIsPass<C>(s: State<C>, holders: map<string, C>, stamps: map<string, nat>, name: string,
                        fi: Version<C>, again: bool, file: Version<C>, late: bool)
    requires name in holders && s.hist != [] && s.pc.Idle?
      && s.content == holders[name] && s.stamp == StampOf(stamps, name)
    requires (!again ==> fi == Current(s)) && (!late ==> file == fi)
    ensures var (h, st) := ReloadedOne(holders, stamps, name, Current(s), fi, file);
      var t := Next(Later(Next(s, Stat), again, fi), Restat);
      var r := Next(Next(Next(Later(t, late, file), Read), Publish), Record);
      r.pc.Idle? && r.content == h[name] && r.stamp == StampOf(st, name)
  {
    AfterLooks(s, again, fi);
    var t := Next(Later(Next(s, Stat), again, fi), Restat);
    if t.pc.Stamped? {
      ReadAndRecord(t, fi, late, file);
    } else {
      NothingRead(t, late, file);
    }
  }

  // Where the two looks at the fingerprint leave the reloader.
  lemma AfterLooks<C>(s: State<C>, again: bool, fi: Version<C>)
    requires s.hist != [] && s.pc.Idle? && (!again ==> fi == Current(s))
    ensures var t := Next(Later(Next(s, Stat), again, fi), Restat);
      && t.hist != [] && Current(t) == fi && t.content == s.content && t.stamp == s.stamp
      && if Current(s).Present? && s.stamp != Some(Current(s).stamp) && fi.Present?
         then t.pc == Stamped(|t.hist| - 1) else t.pc.Idle?
  {
  }

  lemma NothingRead<C>(t: State<C>, late: bool, file: Version<C>)
    requires t.hist != [] && t.pc.Idle?
    ensures var r := Next(Next(Next(Later(t, late, file), Read), Publish), Record);
      r.pc.Idle? && r.content == t.content && r.stamp == t.stamp
  {
  }

  lemma ReadAndRecord<C>(t: State<C>, fi: Version<C>, late: bool, file: Version<C>)
    requires t.hist != [] && Current(t) == fi && fi.Present? && t.pc == Stamped(|t.hist| - 1) && (!late ==> file == fi)
    ensures var r := Next(Next(Next(Later(t, late, file), Read), Publish), Record);
      r.pc.Idle? &&
      if file.Present? && file.body.Some? then r.content == file.body.value && r.stamp == Some(fi.stamp)
      else r.content == t.content && r.stamp == t.stamp
  {
  }

  // The fingerprint was taken of the file that v is now, and no list was got from it.
  predicate Missed<C>(fi: Version<C>, file: Version<C>, v: Version<C>) {
    v.Present? && fi.Present? && fi.stamp == v.stamp && !(file.Present? && file.body.Some?)
  }

  // Load of a list unknown before, and a reload that finds the readable file v at all its
  // looks: v is published unless Load recorded its fingerprint without reading it.  The
  // last requirement is that of distinct fingerprints: what Load read between two looks
  // at v is v.
  lemma LoadThenReload<C>(holders: map<string, C>, stamps: map<string, nat>, name: string,
                          fi: Version<C>, file: Version<C>, v: Version<C>, empty: C)
    requires name !in stamps && v.Present? && v.body.Some?
    requires fi.Present? && fi.stamp == v.stamp && file.Present? && file.body.Some? ==> file.body == v.body
    ensures var (h, s) := LoadedOne(holders, stamps, name, fi, file, empty);
      var published := ReloadedOne(h, s, name, v, v, v).0[name];
      && published == (if Missed(fi, file, v) then empty else v.body.value)
      && (published == v.body.value <==> !Missed(fi, file, v) || v.body.value == empty)
  {
  }

  // A missed list stays empty, however readable its file becomes, until somebody changes
  // it: no reload that finds the fingerprint again does anything.
  lemma {:induction false} MissedStaysEmpty<C>(holders: map<string, C>, stamps: map<string, nat>, name: string,
                            fi: Version<C>, file: Version<C>, v: Version<C>, empty: C, looks: seq<Version<C>>)
    requires Missed(fi, file, v)
    requires forall k :: 0 <= k < |looks| ==> looks[k].Absent? || looks[k].stamp == v.stamp
    ensures var (h, s) := LoadedOne(holders, stamps, name, fi, file, empty);
      h[name] == empty && ReloadedOften(h, s, name, looks) == (h, s)
  {
    var (h, s) := LoadedOne(holders, stamps, name, fi, file, empty);
    if looks != [] {
      var n := |looks| - 1;
      MissedStaysEmpty(holders, stamps, name, fi, file, v, empty, looks[..n]);
    }
  }

  // Reloads one after the other, each finding one version at all its looks.
  function ReloadedOften<C>(holders: map<string, C>, stamps: map<string, nat>, name: string, looks: seq<Version<C>>)
    : (map<string, C>, map<string, nat>)
  {
    if looks == [] then (holders, stamps)
    else
      var n := |looks| - 1;
      var (h, s) := ReloadedOften(holders, stamps, name, looks[..n]);
      ReloadedOne(h, s, name, looks[n], looks[n], looks[n])
  }

  // One failed reading is enough.
  lemma UnreadStaysEmpty<C>(holders: map<string, C>, stamps: map<string, nat>, name: string,
                            stamp: nat, body: C, empty: C)
    ensures var unread, readable := Present(stamp, None), Present(stamp, Some(body));
      var (h, s) := LoadedOne(holders, stamps, name, unread, unread, empty);
      h[name] == empty && ReloadedOne(h, s, name, readable, readable, readable) == (h, s)
  {
    var unread, readable := Present(stamp, None), Present(stamp, Some(body));
    assert [readable][..0] == [];
    MissedStaysEmpty(holders, stamps, name, unread, unread, readable, empty, [readable]);
  }
}

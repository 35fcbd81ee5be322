/** Reloading the groups file: the lists it names are loaded before it goes live. */
module GroupsWatcher {
  import opened Text
  import opened Router
  import opened GroupIndex
  import opened SepList
  import opened Wrappers
  import HotReload
  import IpSet

  // The groups file: its fingerprint, and the groups in it if it parses.
  type GroupsFile<R> = HotReload.Version<seq<Group<R>>>

  // The data file a stream names, "" for none: its IP list, or its separation list while
  // separation is switched on.
  type FileOf<!R> = Stream<R> -> string

  predicate NamedBy<R>(g: Group<R>, file: FileOf<R>, name: string) {
    name != "" && exists i :: 0 <= i < |g.streams| && LookupName(file(g.streams[i])) == name
  }

  // Some group listed names it.
  predicate NamedIn<R>(list: seq<Group<R>>, order: seq<nat>, file: FileOf<R>, name: string) {
    exists k :: 0 <= k < |order| && order[k] < |list| && NamedBy(list[order[k]], file, name)
  }

  // ipListFiles and separationFiles; order is that of Groups.List.
  method ListFiles<R>(list: seq<Group<R>>, order: seq<nat>, file: FileOf<R>) returns (out: seq<string>)
    requires forall k :: 0 <= k < |order| ==> order[k] < |list|
    ensures forall name :: name in out <==> NamedIn(list, order, file, name)
    ensures forall i, j :: 0 <= i < j < |out| ==> out[i] != out[j]
  {
    out := [];
    var seen: set<string> := {};
    for k := 0 to |order|
      invariant forall name :: name in seen <==> NamedIn(list, order[..k], file, name)
      invariant SameNames(out, seen)
    {
      NamedNext(list, order, file, k);
      out, seen := AddFiles(list[order[k]], file, out, seen);
    }
    assert order[..|order|] == order;
  }

  ghost predicate SameNames(out: seq<string>, seen: set<string>) {
    && (forall name :: name in out <==> name in seen)
    && forall i, j :: 0 <= i < j < |out| ==> out[i] != out[j]
  }

  // The inner loop, over the streams of one group.
  method AddFiles<R>(g: Group<R>, file: FileOf<R>, before: seq<string>, seenBefore: set<string>)
      returns (out: seq<string>, seen: set<string>)
    requires SameNames(before, seenBefore)
    ensures SameNames(out, seen)
    ensures forall name :: name in seen <==> name in seenBefore || NamedBy(g, file, name)
  {
    out, seen := before, seenBefore;
    for i := 0 to |g.streams|
      invariant SameNames(out, seen)
      invariant forall name :: name in seen <==>
        name in seenBefore || (name != "" && exists j :: 0 <= j < i && LookupName(file(g.streams[j])) == name)
    {
      var f := TrimSuffix(file(g.streams[i]), DAT);
      if f == "" || f in seen {
        continue;
      }
      seen := seen + {f};
      out := out + [f];
    }
  }

  lemma NamedNext<R>(list: seq<Group<R>>, order: seq<nat>, file: FileOf<R>, k: nat)
    requires k < |order| && order[k] < |list|
    ensures forall name :: NamedIn(list, order[..k + 1], file, name) <==>
      NamedIn(list, order[..k], file, name) || NamedBy(list[order[k]], file, name)
  {
    assert order[..k + 1] == order[..k] + [order[k]];
  }

  // No later group has the ID: List returns the group.
  predicate Unshadowed<R>(list: seq<Group<R>>, k: nat)
    requires k < |list|
  {
    LastId(list, list[k].id, |list|) == k
  }

  ghost predicate IsListing<R>(list: seq<Group<R>>, order: seq<nat>) {
    && (forall j :: 0 <= j < |order| ==> order[j] < |list|)
    && forall k :: 0 <= k < |list| ==> (k in order <==> Unshadowed(list, k))
  }

  // Every list that a listed group names is there to be looked up.
  ghost predicate Registered<R>(list: seq<Group<R>>, file: FileOf<R>, names: set<string>) {
    forall k, name :: 0 <= k < |list| && Unshadowed(list, k) && NamedBy(list[k], file, name) ==> name in names
  }

  // The same for separation lists, which are not found if their name ends in the extension.
  ghost predicate SepRegistered<R>(list: seq<Group<R>>, file: FileOf<R>, names: set<string>) {
    forall k, name :: 0 <= k < |list| && Unshadowed(list, k) && NamedBy(list[k], file, name) ==>
      HasSuffix(name, DAT) || name in names
  }

  lemma ListedIsNamed<R>(list: seq<Group<R>>, order: seq<nat>, file: FileOf<R>, k: nat, name: string)
    requires IsListing(list, order) && k < |list| && Unshadowed(list, k) && NamedBy(list[k], file, name)
    ensures NamedIn(list, order, file, name)
  {
    var j :| 0 <= j < |order| && order[j] == k;
  }

  // What is collected is what the listed groups name, and nothing that only hidden ones do.
  lemma CollectedIsListed<R>(list: seq<Group<R>>, order: seq<nat>, file: FileOf<R>, name: string)
    requires IsListing(list, order)
    ensures NamedIn(list, order, file, name)
      <==> exists k :: 0 <= k < |list| && Unshadowed(list, k) && NamedBy(list[k], file, name)
  {
    if NamedIn(list, order, file, name) {
      var j :| 0 <= j < |order| && order[j] < |list| && NamedBy(list[order[j]], file, name);
      assert order[j] in order && Unshadowed(list, order[j]);
    }
    if exists k :: 0 <= k < |list| && Unshadowed(list, k) && NamedBy(list[k], file, name) {
      var k :| 0 <= k < |list| && Unshadowed(list, k) && NamedBy(list[k], file, name);
      ListedIsNamed(list, order, file, k, name);
    }
  }

  lemma CollectedIsRegistered<R>(list: seq<Group<R>>, order: seq<nat>, file: FileOf<R>, names: set<string>)
    requires IsListing(list, order) && forall name :: NamedIn(list, order, file, name) ==> name in names
    ensures Registered(list, file, names)
  {
    forall k, name | 0 <= k < |list| && Unshadowed(list, k) && NamedBy(list[k], file, name)
      ensures name in names
    {
      ListedIsNamed(list, order, file, k, name);
    }
  }

  lemma CollectedIsSepRegistered<R>(list: seq<Group<R>>, order: seq<nat>, file: FileOf<R>, names: set<string>)
    requires IsListing(list, order)
    requires forall name :: NamedIn(list, order, file, name) && !HasSuffix(name, DAT) ==> name in names
    ensures SepRegistered(list, file, names)
  {
    forall k, name | 0 <= k < |list| && Unshadowed(list, k) && NamedBy(list[k], file, name)
      ensures HasSuffix(name, DAT) || name in names
    {
      ListedIsNamed(list, order, file, k, name);
    }
  }

  // ----- listed and served -----

  // Group k is what the engine finds under the alias a.
  predicate ServedAs<R>(list: seq<Group<R>>, k: nat, a: string)
    requires k < |list|
  {
    && a in list[k].aliases && a != ""
    && (forall j :: 0 <= j < |list| ==> list[j].id != a)
    && (forall j :: k < j < |list| ==> a !in list[j].aliases)
  }

  // A group hidden by a later one with its ID has no alias that is nobody's ID and no later
  // group's alias.
  ghost predicate NoneHiddenServed<R>(list: seq<Group<R>>) {
    forall k, a :: 0 <= k < |list| && a in list[k].aliases && ServedAs(list, k, a) ==> Unshadowed(list, k)
  }

  // Every group that the engine can serve is listed.
  ghost predicate ServedAreListed<R>(list: seq<Group<R>>) {
    forall key :: Got(list, key) < |list| ==> Unshadowed(list, Got(list, key))
  }

  lemma ServedHow<R>(list: seq<Group<R>>, key: string)
    ensures Got(list, key) < |list| ==> Unshadowed(list, Got(list, key)) || ServedAs(list, Got(list, key), key)
  {
    var i, k := LastId(list, key, |list|), LastAlias(list, key, |list|);
    if i < |list| {
      assert list[i].id == key;
    } else if k < |list| {
      assert ServedAs(list, k, key);
    }
  }

  lemma ServedIsGot<R>(list: seq<Group<R>>, k: nat, a: string)
    requires k < |list| && ServedAs(list, k, a)
    ensures Got(list, a) == k
  {
    assert LastId(list, a, |list|) == |list|;
    var r := LastAlias(list, a, |list|);
    assert k <= r < |list| && a in list[r].aliases;
  }

  // Exactly when no hidden group can be served is every served group listed, and its
  // lists loaded.
  lemma ServedListedIff<R>(list: seq<Group<R>>)
    ensures ServedAreListed(list) <==> NoneHiddenServed(list)
  {
    if ServedAreListed(list) {
      forall k, a | 0 <= k < |list| && a in list[k].aliases && ServedAs(list, k, a)
        ensures Unshadowed(list, k)
      {
        ServedIsGot(list, k, a);
      }
    }
    if NoneHiddenServed(list) {
      forall key | Got(list, key) < |list|
        ensures Unshadowed(list, Got(list, key))
      {
        ServedHow(list, key);
      }
    }
  }

  // Every IP list that a served group names is there to be looked up, and so is every
  // separation list but those never found.
  ghost predicate ServedFound<R>(list: seq<Group<R>>, ip: FileOf<R>, sep: FileOf<R>,
                                 ips: set<string>, seps: set<string>) {
    forall key, name :: Got(list, key) < |list| ==> FoundFor(list[Got(list, key)], ip, sep, ips, seps, name)
  }

  predicate FoundFor<R>(g: Group<R>, ip: FileOf<R>, sep: FileOf<R>, ips: set<string>, seps: set<string>, name: string) {
    && (NamedBy(g, ip, name) ==> name in ips)
    && (NamedBy(g, sep, name) ==> HasSuffix(name, DAT) || name in seps)
  }

  lemma RegisteredIsFound<R>(list: seq<Group<R>>, ip: FileOf<R>, sep: FileOf<R>, ips: set<string>, seps: set<string>)
    requires Registered(list, ip, ips) && SepRegistered(list, sep, seps) && NoneHiddenServed(list)
    ensures ServedFound(list, ip, sep, ips, seps)
  {
    ServedListedIff(list);
    forall key, name | Got(list, key) < |list|
      ensures FoundFor(list[Got(list, key)], ip, sep, ips, seps, name)
    {
      assert Unshadowed(list, Got(list, key));
    }
  }

  predicate SameBut<T(==)>(before: map<string, T>, after: map<string, T>, name: string) {
    forall n :: n in before && n != name ==> n in after && after[n] == before[n]
  }

  // Every name that was not loaded before holds what its file parsed to at one of the
  // first k moments.
  ghost predicate AllLoaded<I>(holders: map<string, I>, stamps: map<string, nat>, loaded0: set<string>,
                               loaded: set<string>, k: int, world: nat -> nat -> IpSet.Disk<I>, empty: I) {
    forall name :: name in loaded && name !in loaded0 ==> LoadedIn(holders, stamps, name, k, world, empty)
  }

  ghost predicate LoadedIn<I>(holders: map<string, I>, stamps: map<string, nat>, name: string, k: int,
                              world: nat -> nat -> IpSet.Disk<I>, empty: I) {
    exists i: nat :: i < k && IpSet.HoldsWhat(holders, stamps, name, world(i), empty)
  }

  lemma LoadedLater<I>(holders: map<string, I>, stamps: map<string, nat>, loaded0: set<string>,
                       loaded: set<string>, k: int, world: nat -> nat -> IpSet.Disk<I>, empty: I)
    requires AllLoaded(holders, stamps, loaded0, loaded, k, world, empty)
    ensures AllLoaded(holders, stamps, loaded0, loaded, k + 1, world, empty)
  {
    forall name | name in loaded && name !in loaded0 ensures LoadedIn(holders, stamps, name, k + 1, world, empty) {
      var i: nat :| i < k && IpSet.HoldsWhat(holders, stamps, name, world(i), empty);
      assert i < k + 1;
    }
  }

  lemma OneMore<I>(h: map<string, I>, s: map<string, nat>, h': map<string, I>, s': map<string, nat>,
                   loaded0: set<string>, loaded: set<string>, k: nat, name: string,
                   world: nat -> nat -> IpSet.Disk<I>, empty: I)
    requires AllLoaded(h, s, loaded0, loaded, k, world, empty) && name !in loaded
    requires SameBut(h, h', name) && SameBut(s, s', name) && IpSet.HoldsWhat(h', s', name, world(k), empty)
    ensures AllLoaded(h', s', loaded0, loaded + {name}, k + 1, world, empty)
  {
    forall n | n in loaded + {name} && n !in loaded0 ensures LoadedIn(h', s', n, k + 1, world, empty) {
      if n != name {
        var i: nat :| i < k && IpSet.HoldsWhat(h, s, n, world(i), empty);
        assert IpSet.HoldsWhat(h', s', n, world(i), empty);
      }
    }
  }

  // I is what an IP list parses to.
  class Watcher<R, I(==)> {
    const ipFile: FileOf<R>
    const sepFile: FileOf<R>
    const lists: IpSet.Set<I>
    const seps: Set
    var groups: seq<Group<R>>     // what is served
    var loaded: set<string>
    var stamp: Option<nat>

    // known are the lists loaded at startup, those of the groups among them.
    constructor (groups: seq<Group<R>>, stamp: Option<nat>, known: set<string>,
                 lists: IpSet.Set<I>, seps: Set, ipFile: FileOf<R>, sepFile: FileOf<R>)
      requires known <= lists.holders.Keys && Registered(groups, ipFile, lists.holders.Keys)
      requires SepRegistered(groups, sepFile, seps.lists.Keys)
      ensures Valid() && this.groups == groups && this.stamp == stamp && loaded == known
      ensures this.lists == lists && this.seps == seps && this.ipFile == ipFile && this.sepFile == sepFile
    {
      this.groups, this.stamp, loaded := groups, stamp, known;
      this.lists, this.seps, this.ipFile, this.sepFile := lists, seps, ipFile, sepFile;
    }

    // Every list that a listed group names is there to be looked up.
    ghost predicate Valid()
      reads this, lists, seps
    {
      && loaded <= lists.holders.Keys && Registered(groups, ipFile, lists.holders.Keys)
      && SepRegistered(groups, sepFile, seps.lists.Keys)
    }

    // A listed group names the separation list, and it was unknown before.
    ghost predicate NewSep(list: seq<Group<R>>, order: seq<nat>, name: string,
                           lists: map<string, seq<Pair>>, stamps: map<string, nat>) {
      NamedIn(list, order, sepFile, name) && !HasSuffix(name, DAT) && name !in lists && name !in stamps
    }

    // ... and so, unless a hidden group is served, is every list that a served group names.
    ghost predicate AllFound()
      reads this, lists, seps
    {
      ServedFound(groups, ipFile, sepFile, lists.holders.Keys, seps.lists.Keys)
    }

    // The groups go live: only with their lists registered.
    method Publish(next: seq<Group<R>>, st: nat)
      requires Registered(next, ipFile, lists.holders.Keys) && loaded <= lists.holders.Keys
      requires SepRegistered(next, sepFile, seps.lists.Keys)
      modifies this`groups, this`stamp
      ensures groups == next && stamp == Some(st) && Valid()
    {
      groups := next;
      stamp := Some(st);
    }

    method LoadIpLists(names: seq<string>, world: nat -> nat -> IpSet.Disk<I>, empty: I)
      requires loaded <= lists.holders.Keys
      modifies this`loaded, lists
      ensures old(loaded) <= loaded <= lists.holders.Keys && old(lists.holders.Keys) <= lists.holders.Keys
      ensures forall name :: name in names ==> name in lists.holders && name in loaded
      ensures forall name :: name in old(loaded) ==> lists.holders[name] == old(lists.holders)[name]
      ensures AllLoaded(lists.holders, lists.stamps, old(loaded), loaded, |names|, world, empty)
    {
      for i := 0 to |names|
        invariant old(loaded) <= loaded <= lists.holders.Keys && old(lists.holders.Keys) <= lists.holders.Keys
        invariant forall name :: name in names[..i] ==> name in lists.holders && name in loaded
        invariant forall name :: name in old(loaded) ==> lists.holders[name] == old(lists.holders)[name]
        invariant AllLoaded(lists.holders, lists.stamps, old(loaded), loaded, i, world, empty)
      {
        assert names[..i + 1] == names[..i] + [names[i]];
        if names[i] in loaded {
          LoadedLater(lists.holders, lists.stamps, old(loaded), loaded, i, world, empty);
          continue;
        }
        ghost var h, s, l := lists.holders, lists.stamps, loaded;
        LoadOne(names[i], world(i), empty);
        OneMore(h, s, lists.holders, lists.stamps, old(loaded), l, i, names[i], world, empty);
      }
      assert names[..|names|] == names;
    }

    method LoadOne(name: string, world: nat -> IpSet.Disk<I>, empty: I)
      requires loaded <= lists.holders.Keys
      modifies this`loaded, lists
      ensures loaded == old(loaded) + {name} && lists.holders.Keys == old(lists.holders.Keys) + {name}
      ensures SameBut(old(lists.holders), lists.holders, name) && SameBut(old(lists.stamps), lists.stamps, name)
      ensures IpSet.HoldsWhat(lists.holders, lists.stamps, name, world, empty)
    {
      IpSet.LoadRegisters(lists.holders, lists.stamps, [name], world, empty);
      IpSet.LoadedHolds(lists.holders, lists.stamps, name, world, empty);
      lists.Load([name], world, empty);
      loaded := loaded + {name};
    }

    // The file may be replaced between the fingerprint and the reading; order is that of
    // the groups read, and the worlds are the files of the lists as time goes by.
    method Reload(atStat: GroupsFile<R>, atRead: GroupsFile<R>, order: seq<nat>,
                  ipWorld: nat -> nat -> IpSet.Disk<I>, empty: I, sepWorld: nat -> Disk, lower: Lower)
        returns (outcome: Outcome)
      requires Valid() && (Readable(atRead) ==> IsListing(atRead.body.value, order))
      modifies this, lists, seps
      ensures Valid() && old(lists.holders.Keys) <= lists.holders.Keys
      ensures outcome == OutcomeOf(old(stamp), atStat, atRead)
      ensures outcome.Swapped? ==> groups == atRead.body.value && stamp == Some(atStat.stamp)
      ensures NoneHiddenServed(groups) ==> AllFound()
      ensures outcome.Swapped? ==> forall name :: NamedIn(groups, order, ipFile, name) && name !in old(loaded) ==>
        exists k :: LoadedIn(lists.holders, lists.stamps, name, k, ipWorld, empty)
      ensures outcome.Swapped? ==> forall name :: NewSep(groups, order, name, old(seps.lists), old(seps.stamps)) ==>
        exists j :: ReadAt(seps.lists, seps.stamps, name, j, sepWorld, lower)
      ensures forall name :: name in old(loaded) ==> lists.holders[name] == old(lists.holders)[name]
      ensures forall name :: name in old(seps.lists) ==>
        name in seps.lists && seps.lists[name] == old(seps.lists)[name]
      ensures !outcome.Swapped? ==> groups == old(groups) && stamp == old(stamp) && loaded == old(loaded)
      ensures !outcome.Swapped? ==> lists.holders == old(lists.holders) && lists.stamps == old(lists.stamps)
      ensures !outcome.Swapped? ==> seps.lists == old(seps.lists) && seps.stamps == old(seps.stamps)
    {
      if NoneHiddenServed(groups) {
        RegisteredIsFound(groups, ipFile, sepFile, lists.holders.Keys, seps.lists.Keys);
      }
      if atStat.Absent? {
        return Failed;
      }
      if stamp == Some(atStat.stamp) {
        return Unchanged;
      }
      if !Readable(atRead) {
        return Failed;
      }
      var next := atRead.body.value;
      var names := ListFiles(next, order, ipFile);
      LoadIpLists(names, ipWorld, empty);
      CollectedIsRegistered(next, order, ipFile, lists.holders.Keys);
      var files := ListFiles(next, order, sepFile);
      seps.Load(files, sepWorld, lower);
      OnceIsLoaded(files);
      CollectedIsSepRegistered(next, order, sepFile, seps.lists.Keys);
      Publish(next, atStat.stamp);
      if NoneHiddenServed(groups) {
        RegisteredIsFound(groups, ipFile, sepFile, lists.holders.Keys, seps.lists.Keys);
      }
      outcome := Swapped;
    }
  }

  predicate Readable<R>(f: GroupsFile<R>) { f.Present? && f.body.Some? }

  datatype Outcome = Swapped | Unchanged | Failed

  function OutcomeOf<R>(stamp: Option<nat>, atStat: GroupsFile<R>, atRead: GroupsFile<R>): Outcome {
    if atStat.Absent? then Failed
    else if stamp == Some(atStat.stamp) then Unchanged
    else if Readable(atRead) then Swapped else Failed
  }

  lemma OnceIsLoaded(files: seq<string>)
    ensures forall name :: name in files && name != "" && !HasSuffix(name, DAT) ==> name in LoadNames(files)
  {
    forall name | name in files && name != "" && !HasSuffix(name, DAT)
      ensures name in LoadNames(files)
    {
      assert TrimSuffix(name, DAT) == name;
    }
  }

  // Every group is listed exactly when no ID is used twice.
  lemma AllListed<R>(list: seq<Group<R>>)
    ensures (forall k :: 0 <= k < |list| ==> Unshadowed(list, k))
      <==> (forall i, j :: 0 <= i < j < |list| ==> list[i].id != list[j].id)
  {
    if exists i, j :: 0 <= i < j < |list| && list[i].id == list[j].id {
      var i, j :| 0 <= i < j < |list| && list[i].id == list[j].id;
      assert !Unshadowed(list, i);
    } else {
      forall k | 0 <= k < |list|
        ensures Unshadowed(list, k)
      {
        var r := LastId(list, list[k].id, |list|);
        assert k <= r < |list| && list[r].id == list[k].id;
      }
    }
  }

  // A hidden group can still be served, its lists never loaded.
  lemma ShadowedIsServed<R>(g: Group<R>, h: Group<R>)
    requires g.id == h.id != "x" && g.aliases == ["x"] && h.aliases == []
    ensures Got([g, h], "x") == 0 && !Unshadowed([g, h], 0) && !NoneHiddenServed([g, h])
  {
    var list := [g, h];
    assert list[0] == g && list[1] == h && "x" in list[0].aliases && "x" !in list[1].aliases;
    assert LastId(list, "x", 2) == 2 && LastAlias(list, "x", 2) == 0;
    assert LastId(list, g.id, 2) == 1;
    ServedListedIff(list);
  }

  // ----- the code is the protocol -----

  function VersionOf(f: File, lower: Lower): HotReload.Version<seq<Pair>> {
    match f
    case Missing => HotReload.Absent
    case Here(stamp, readable, lines) =>
      HotReload.Present(stamp, if readable then Some(Pairs(lines, lower)) else None)
  }

  // One reload of a separation list, its file replaced by a later version in between or
  // not, is a pass of the protocol.
  lemma ReloadOneIsPass(s: HotReload.State<seq<Pair>>, lists: map<string, seq<Pair>>, stamps: map<string, nat>,
                        name: string, fi: File, file: File, replaced: bool, lower: Lower)
    requires name in lists && s.hist != [] && s.pc.Idle?
      && s.content == lists[name] && s.stamp == IpSet.StampOf(stamps, name)
    requires HotReload.Current(s) == VersionOf(fi, lower) && (!replaced ==> file == fi)
    ensures var (l, st) := ReloadedOne(lists, stamps, name, fi, file, lower);
      var t := HotReload.Next(s, HotReload.Stat);
      var u := if replaced then HotReload.Next(t, HotReload.Replace(VersionOf(file, lower))) else t;
      var r := HotReload.Next(HotReload.Next(HotReload.Next(u, HotReload.Read), HotReload.Publish), HotReload.Record);
      r.pc.Idle? && r.content == l[name] && r.stamp == IpSet.StampOf(st, name)
  {
    var t := HotReload.Next(s, HotReload.Stat);
    if t.pc.Stamped? { IpSet.ReadAndRecord(t, VersionOf(fi, lower), replaced, VersionOf(file, lower)); }
  }

  // And so is one reload of the groups file.
  lemma ReloadIsPass<R>(s: HotReload.State<seq<Group<R>>>, atRead: GroupsFile<R>, replaced: bool)
    requires s.hist != [] && s.pc.Idle? && (!replaced ==> atRead == HotReload.Current(s))
    ensures var t := HotReload.Next(s, HotReload.Stat);
      var u := if replaced then HotReload.Next(t, HotReload.Replace(atRead)) else t;
      var r := HotReload.Next(HotReload.Next(HotReload.Next(u, HotReload.Read), HotReload.Publish), HotReload.Record);
      r.pc.Idle? &&
      if OutcomeOf(s.stamp, HotReload.Current(s), atRead).Swapped?
      then r.content == atRead.body.value && r.stamp == Some(HotReload.Current(s).stamp)
      else r.content == s.content && r.stamp == s.stamp
  {
  }
}

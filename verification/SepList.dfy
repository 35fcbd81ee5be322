/** The separation lists of the engine: keyword to output, one list per file. */
module SepList {
  import opened Text

  const DAT := ".dat"

  datatype Pair = Pair(key: string, out: string)

  // A data file: not there, or with a fingerprint and lines that may fail to be read.
  datatype File = Missing | Here(stamp: nat, readable: bool, lines: seq<string>)

  // The files by list name, at one moment.
  type Disk = string -> File

  // strings.ToLower
  type Lower = string -> string

  // ----- one file -----

  function CutAt(s: string, from: nat := 0): (i: nat)
    requires from <= |s|
    ensures from <= i <= |s| && (i < |s| ==> s[i] == ';') && forall j :: from <= j < i ==> s[j] != ';'
    decreases |s| - from
  {
    if from == |s| || s[from] == ';' then from else CutAt(s, from + 1)
  }

  // A line with a separator behind a keyword.
  predicate IsPair(line: string) { 0 < CutAt(TrimSpace(line)) < |TrimSpace(line)| }

  function PairOf(line: string, lower: Lower): Pair
    requires IsPair(line)
  {
    var ln := TrimSpace(line);
    var i := CutAt(ln);
    Pair(lower(ln[..i]), TrimSpace(ln[i + 1..]))
  }

  // "keyword;output", with space around the line and around the output or not.
  lemma PairOfLine(before: string, keyword: string, output: string, lower: Lower)
    requires (forall c :: c in before ==> IsSpace(c)) && keyword != "" && !IsSpace(keyword[0]) && ';' !in keyword
    ensures var line := before + keyword + ";" + output;
      IsPair(line) && PairOf(line, lower) == Pair(lower(keyword), TrimSpace(output))
  {
    var line := before + keyword + ";" + output;
    TrimLine(before, keyword, output);
    var ln := TrimSpace(line);
    assert ln == keyword + ";" + TrimRight(output);
    CutIs(keyword, TrimRight(output));
    assert ln[..|keyword|] == keyword && ln[|keyword| + 1..] == TrimRight(output);
    TrimTwice(output);
  }

  lemma CutIs(keyword: string, output: string)
    requires ';' !in keyword
    ensures CutAt(keyword + ";" + output) == |keyword|
  {
    var s := keyword + ";" + output;
    assert s[|keyword|] == ';' && forall j :: 0 <= j < |keyword| ==> s[j] == keyword[j] && keyword[j] in keyword;
  }

  lemma TrimLine(before: string, keyword: string, output: string)
    requires (forall c :: c in before ==> IsSpace(c)) && keyword != "" && !IsSpace(keyword[0])
    ensures TrimSpace(before + keyword + ";" + output) == keyword + ";" + TrimRight(output)
  {
    var rest := keyword + ";" + output;
    assert before + keyword + ";" + output == before + rest;
    TrimLeftPast(before, rest);
    TrimRightUpTo(keyword + ";", output);
  }

  function Pairs(lines: seq<string>, lower: Lower): seq<Pair> {
    if lines == [] then []
    else
      var n := |lines| - 1;
      Pairs(lines[..n], lower) + if IsPair(lines[n]) then [PairOf(lines[n], lower)] else []
  }

  // Every other line is skipped.
  lemma NoPair(line: string)
    ensures !IsPair(line) <==> ';' !in TrimSpace(line) || TrimSpace(line)[0] == ';'
  {
  }

  // Lines are read one by one, each to its pair or to nothing, in order.
  lemma {:induction false} PairsInOrder(a: seq<string>, b: seq<string>, lower: Lower)
    ensures Pairs(a + b, lower) == Pairs(a, lower) + Pairs(b, lower)
    ensures |b| == 1 ==> Pairs(b, lower) == if IsPair(b[0]) then [PairOf(b[0], lower)] else []
  {
    if b == [] {
      assert a + b == a;
    } else {
      var n := |b| - 1;
      assert (a + b)[..|a + b| - 1] == a + b[..n] && (a + b)[|a + b| - 1] == b[n];
      PairsInOrder(a, b[..n], lower);
      assert n == 0 ==> b[..n] == [] && Pairs(b[..n], lower) == [];
      Joined(Pairs(a, lower), Pairs(b[..n], lower), if IsPair(b[n]) then [PairOf(b[n], lower)] else []);
    }
  }

  lemma Joined(a: seq<Pair>, b: seq<Pair>, c: seq<Pair>)
    ensures a + b + c == a + (b + c) && [] + c == c
  {
  }

  method ReadPairs(lines: seq<string>, lower: Lower) returns (out: seq<Pair>)
    ensures out == Pairs(lines, lower)
  {
    out := [];
    for k := 0 to |lines|
      invariant out == Pairs(lines[..k], lower)
    {
      assert lines[..k + 1][..k] == lines[..k];
      var ln := TrimSpace(lines[k]);
      var i := CutAt(ln);
      if i == |ln| || i == 0 {
        continue;
      }
      out := out + [Pair(lower(ln[..i]), TrimSpace(ln[i + 1..]))];
    }
    assert lines[..|lines|] == lines;
  }

  predicate OccursAt(t: string, s: string, i: nat) { i + |t| <= |s| && s[i..i + |t|] == t }

  // strings.Contains
  predicate Contains(s: string, t: string) { exists i :: 0 <= i <= |s| && OccursAt(t, s, i) }

  // ----- the set -----

  class Set {
    var lists: map<string, seq<Pair>>
    var stamps: map<string, nat>

    constructor ()
      ensures lists == map[] && stamps == map[]
    {
      lists, stamps := map[], map[];
    }

    // The file may be replaced between the fingerprint and the reading.
    method ReloadOne(name: string, atStat: Disk, atRead: Disk, lower: Lower)
      requires name in lists
      modifies this
      ensures (lists, stamps) == ReloadedOne(old(lists), old(stamps), name, atStat(name), atRead(name), lower)
    {
      var fi := atStat(name);
      if fi.Missing? {
        return;
      }
      if name in stamps && stamps[name] == fi.stamp {
        return;
      }
      var file := atRead(name);
      if file.Missing? || !file.readable {
        return;
      }
      var pairs := ReadPairs(file.lines, lower);
      lists := lists[name := pairs];
      stamps := stamps[name := fi.stamp];
    }

    // The disk at moment 2k is the one the k-th name's fingerprint is taken from, the
    // one at 2k + 1 the one it is read from.
    method Load(names: seq<string>, world: nat -> Disk, lower: Lower)
      modifies this
      ensures lists.Keys == old(lists).Keys + LoadNames(names)
      ensures forall name :: name in old(lists) ==> lists[name] == old(lists)[name]
      ensures forall name :: name in lists && name !in old(lists) && name !in old(stamps) ==>
        exists j :: 0 <= j < |names| && ReadAt(lists, stamps, name, j, world, lower)
    {
      for k := 0 to |names|
        invariant lists.Keys == old(lists).Keys + LoadNames(names[..k])
        invariant forall name :: name in old(lists) ==> name in lists && lists[name] == old(lists)[name]
        invariant forall name :: name in stamps ==> name in old(stamps) || name in lists
        invariant AllRead(lists, stamps, old(lists), old(stamps), k, world, lower)
      {
        LoadNamesNext(names, k);
        ghost var l, s := lists, stamps;
        var name := TrimSuffix(names[k], DAT);
        if name == "" {
          continue;
        }
        if name in lists {
          continue;
        }
        lists := lists[name := []];
        ReloadOne(name, world(2 * k), world(2 * k + 1), lower);
        ReadOne(l, s, old(lists), old(stamps), k, name, world, lower);
      }
      assert names[..|names|] == names;
    }

    // names lists the registered lists, in any order.
    method Reload(names: seq<string>, world: nat -> Disk, lower: Lower)
      requires forall name :: name in names <==> name in lists
      modifies this
      ensures (lists, stamps) == ReloadedAll(old(lists), old(stamps), names, world, lower)
      ensures lists.Keys == old(lists).Keys
    {
      for k := 0 to |names|
        invariant (lists, stamps) == ReloadedAll(old(lists), old(stamps), names[..k], world, lower)
        invariant lists.Keys == old(lists).Keys
      {
        ReloadedNext(old(lists), old(stamps), names, k, world, lower);
        assert names[k] in names;
        ReloadOne(names[k], world(2 * k), world(2 * k + 1), lower);
      }
      assert names[..|names|] == names;
    }

    method Lookup(file: string, key: string, lower: Lower) returns (out: string)
      ensures file == "" || key == "" || TrimSuffix(file, DAT) !in lists ==> out == ""
      ensures file != "" && key != "" && TrimSuffix(file, DAT) in lists ==>
        IsFirstOut(lists[TrimSuffix(file, DAT)], lower(key), out)
    {
      if file == "" || key == "" {
        return "";
      }
      var name := TrimSuffix(file, DAT);
      if name !in lists {
        return "";
      }
      var lk, list := lower(key), lists[name];
      for i := 0 to |list|
        invariant forall j :: 0 <= j < i ==> !Contains(lk, list[j].key)
      {
        if Contains(lk, list[i].key) {
          assert Wins(list, lk, i);
          return list[i].out;
        }
      }
      out := "";
    }
  }

  // One list after the other, each as it is found at its moment.
  function ReloadedAll(lists: map<string, seq<Pair>>, stamps: map<string, nat>,
                       names: seq<string>, world: nat -> Disk, lower: Lower)
    : (map<string, seq<Pair>>, map<string, nat>)
  {
    if names == [] then (lists, stamps)
    else
      var n := |names| - 1;
      var (l, s) := ReloadedAll(lists, stamps, names[..n], world, lower);
      ReloadedOne(l, s, names[n], world(2 * n)(names[n]), world(2 * n + 1)(names[n]), lower)
  }

  lemma ReloadedNext(lists: map<string, seq<Pair>>, stamps: map<string, nat>, names: seq<string>, k: nat,
                     world: nat -> Disk, lower: Lower)
    requires k < |names|
    ensures var (l, s) := ReloadedAll(lists, stamps, names[..k], world, lower);
      ReloadedAll(lists, stamps, names[..k + 1], world, lower)
      == ReloadedOne(l, s, names[k], world(2 * k)(names[k]), world(2 * k + 1)(names[k]), lower)
  {
    assert names[..k + 1][..k] == names[..k];
  }

  // The names are reloaded each on its own: the k-th ends up as a reload of it alone would
  // leave it.
  lemma {:induction false} EachReloaded(lists: map<string, seq<Pair>>, stamps: map<string, nat>, names: seq<string>,
                                        world: nat -> Disk, lower: Lower, k: nat)
    requires k < |names| && forall i, j :: 0 <= i < j < |names| ==> names[i] != names[j]
    requires names[k] in lists
    ensures var name := names[k];
      var (l, s) := ReloadedAll(lists, stamps, names, world, lower);
      var (l1, s1) := ReloadedOne(lists, stamps, name, world(2 * k)(name), world(2 * k + 1)(name), lower);
      name in l && name in l1 && l[name] == l1[name] && SameStamp(s, s1, name)
  {
    var n := |names| - 1;
    if k == n {
      OthersReloaded(lists, stamps, names[..n], world, lower, names[k]);
    } else {
      EachReloaded(lists, stamps, names[..n], world, lower, k);
    }
  }

  predicate SameStamp(a: map<string, nat>, b: map<string, nat>, name: string) {
    (name in a <==> name in b) && (name in a ==> a[name] == b[name])
  }

  lemma {:induction false} OthersReloaded(lists: map<string, seq<Pair>>, stamps: map<string, nat>, names: seq<string>,
                                          world: nat -> Disk, lower: Lower, name: string)
    requires name !in names
    ensures var (l, s) := ReloadedAll(lists, stamps, names, world, lower);
      && (name in l <==> name in lists) && (name in l ==> l[name] == lists[name]) && SameStamp(s, stamps, name)
  {
    if names != [] { OthersReloaded(lists, stamps, names[..|names| - 1], world, lower, name); }
  }

  // Pair i is the first whose keyword occurs in key.
  ghost predicate Wins(list: seq<Pair>, key: string, i: int) {
    0 <= i < |list| && Contains(key, list[i].key) && forall j :: 0 <= j < i ==> !Contains(key, list[j].key)
  }

  // out is the output of that pair, "" when there is none.
  ghost predicate IsFirstOut(list: seq<Pair>, key: string, out: string) {
    || (exists i :: Wins(list, key, i) && out == list[i].out)
    || (out == "" && forall j :: 0 <= j < |list| ==> !Contains(key, list[j].key))
  }

  // What a list holds after its first reading, and the fingerprint: nothing, and none, if
  // the file is not there or cannot be read.
  predicate ReadAt(lists: map<string, seq<Pair>>, stamps: map<string, nat>, name: string, j: int,
                   world: nat -> Disk, lower: Lower) {
    j >= 0 && name in lists &&
    var fi, file := world(2 * j)(name), world(2 * j + 1)(name);
    if fi.Here? && file.Here? && file.readable
    then lists[name] == Pairs(file.lines, lower) && name in stamps && stamps[name] == fi.stamp
    else lists[name] == [] && name !in stamps
  }

  // Every list that was not there before was read at one of the first k moments.
  ghost predicate AllRead(lists: map<string, seq<Pair>>, stamps: map<string, nat>, lists0: map<string, seq<Pair>>,
                          stamps0: map<string, nat>, k: int, world: nat -> Disk, lower: Lower) {
    forall name :: name in lists && name !in lists0 && name !in stamps0 ==>
      exists j :: 0 <= j < k && ReadAt(lists, stamps, name, j, world, lower)
  }

  lemma ReadOne(l: map<string, seq<Pair>>, s: map<string, nat>, lists0: map<string, seq<Pair>>,
                stamps0: map<string, nat>, k: nat, name: string, world: nat -> Disk, lower: Lower)
    requires AllRead(l, s, lists0, stamps0, k, world, lower) && name !in l && (name in s ==> name in stamps0)
    ensures var (l', s') := ReloadedOne(l[name := []], s, name, world(2 * k)(name), world(2 * k + 1)(name), lower);
      AllRead(l', s', lists0, stamps0, k + 1, world, lower)
  {
    var (l', s') := ReloadedOne(l[name := []], s, name, world(2 * k)(name), world(2 * k + 1)(name), lower);
    forall n | n in l' && n !in lists0 && n !in stamps0
      ensures exists j :: 0 <= j < k + 1 && ReadAt(l', s', n, j, world, lower)
    {
      if n == name {
        assert ReadAt(l', s', n, k, world, lower);
      } else {
        var j :| 0 <= j < k && ReadAt(l, s, n, j, world, lower);
        assert ReadAt(l', s', n, j, world, lower);
      }
    }
  }

  function ReloadedOne(lists: map<string, seq<Pair>>, stamps: map<string, nat>,
                       name: string, fi: File, file: File, lower: Lower)
    : (map<string, seq<Pair>>, map<string, nat>)
  {
    if fi.Missing? || (name in stamps && stamps[name] == fi.stamp) || file.Missing? || !file.readable
    then (lists, stamps)
    else (lists[name := Pairs(file.lines, lower)], stamps[name := fi.stamp])
  }

  // The names that Load registers.
  function LoadNames(names: seq<string>): set<string> {
    set n | n in names && TrimSuffix(n, DAT) != "" :: TrimSuffix(n, DAT)
  }

  lemma LoadNamesNext(names: seq<string>, k: nat)
    requires k < |names|
    ensures LoadNames(names[..k + 1]) == LoadNames(names[..k])
      + if TrimSuffix(names[k], DAT) == "" then {} else {TrimSuffix(names[k], DAT)}
  {
    assert names[..k + 1] == names[..k] + [names[k]];
  }

  // ----- registered and found -----

  // The name a stream's file is looked up by; the engine collects these to load.
  function LookupName(file: string): string { TrimSuffix(file, DAT) }

  // Every list that a stream looks up is registered.
  predicate AllFound(files: seq<string>, registered: set<string>) {
    forall k :: 0 <= k < |files| && LookupName(files[k]) != "" ==> LookupName(files[k]) in registered
  }

  // The file's name carries the extension twice.
  predicate Twice(file: string) { HasSuffix(LookupName(file), DAT) }

  predicate NoneTwice(files: seq<string>) { forall k :: 0 <= k < |files| ==> !Twice(files[k]) }

  // Load takes the extension off once more: in a fresh set, all of the lists are found
  // exactly when no file's name carries it twice.
  lemma FoundUnlessTwice(files: seq<string>)
    ensures AllFound(files, LoadNames(Map(files))) <==> NoneTwice(files)
  {
    if NoneTwice(files) {
      forall k | 0 <= k < |files| && LookupName(files[k]) != ""
        ensures LookupName(files[k]) in LoadNames(Map(files))
      {
        assert Map(files)[k] in Map(files) && TrimSuffix(Map(files)[k], DAT) == LookupName(files[k]);
      }
    } else {
      var k := LongestTwice(files, |files|);
      NotLoaded(files, k);
    }
  }

  // What the engine hands to Load.
  function Map(files: seq<string>): seq<string> { seq(|files|, k requires 0 <= k < |files| => LookupName(files[k])) }

  // A longest of the names that carry the extension twice.
  lemma {:induction false} LongestTwice(files: seq<string>, n: nat) returns (k: nat)
    requires n <= |files| && exists j :: 0 <= j < n && Twice(files[j])
    ensures k < n && Twice(files[k])
    ensures forall j :: 0 <= j < n && Twice(files[j]) ==> |files[j]| <= |files[k]|
  {
    if exists j :: 0 <= j < n - 1 && Twice(files[j]) {
      k := LongestTwice(files, n - 1);
      if Twice(files[n - 1]) && |files[n - 1]| > |files[k]| {
        k := n - 1;
      }
    } else {
      k := n - 1;
    }
  }

  lemma NotLoaded(files: seq<string>, k: nat)
    requires k < |files| && Twice(files[k])
    requires forall j :: 0 <= j < |files| && Twice(files[j]) ==> |files[j]| <= |files[k]|
    ensures LookupName(files[k]) != "" && LookupName(files[k]) !in LoadNames(Map(files))
  {
    forall n | n in Map(files)
      ensures TrimSuffix(n, DAT) != LookupName(files[k])
    {
      var j :| 0 <= j < |files| && Map(files)[j] == n;
      TwiceLength(files[j]);
      TwiceLength(files[k]);
    }
  }

  lemma TwiceLength(file: string)
    ensures Twice(file) ==> |file| == |LookupName(file)| + 4 && |LookupName(file)| >= 4
    ensures |TrimSuffix(LookupName(file), DAT)| == |LookupName(file)| - if Twice(file) then 4 else 0
    ensures !Twice(file) ==> !HasSuffix(LookupName(file), DAT) && TrimSuffix(LookupName(file), DAT) == LookupName(file)
  {
  }

  lemma TwiceIsLost()
    ensures !AllFound(["a.dat.dat"], LoadNames(Map(["a.dat.dat"])))
  {
    var files := ["a.dat.dat"];
    assert LookupName(files[0]) == "a.dat" && HasSuffix("a.dat", DAT);
    FoundUnlessTwice(files);
  }
}

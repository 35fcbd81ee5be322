/**
 Groups that hand the visitor to another group: the engine's loop and the admin panel's
 simulator.  A group is named by its place in the configured list, which is what the
 source's pointers compare.
 */
module GroupIndex {
  import opened Router

  datatype Group<R> = Group(id: string, aliases: seq<string>, status: bool,
                            redirect: string, out: string, header: string, streams: seq<Stream<R>>)

  // m names the last group with each ID.
  ghost predicate IdIndex<R>(list: seq<Group<R>>, m: map<string, nat>) {
    && (forall i :: 0 <= i < |list| ==> list[i].id in m && i <= m[list[i].id])
    && (forall key :: key in m ==> m[key] < |list| && list[m[key]].id == key)
  }

  // m names the last group with each alias; the empty alias is nobody's.
  ghost predicate AliasIndex<R>(list: seq<Group<R>>, m: map<string, nat>) {
    && (forall i, a :: 0 <= i < |list| && a in list[i].aliases && a != "" ==> a in m && i <= m[a])
    && (forall key :: key in m ==> key != "" && m[key] < |list| && key in list[m[key]].aliases)
  }

  // The inner loop of index: group i takes over every alias it has.
  method AddAliases<R>(list: seq<Group<R>>, i: nat, before: map<string, nat>) returns (m: map<string, nat>)
    requires i < |list| && AliasIndex(list[..i], before)
    ensures AliasIndex(list[..i + 1], m)
  {
    var aliases := list[i].aliases;
    m := before;
    for j := 0 to |aliases|
      invariant forall a :: a in aliases[..j] && a != "" ==> a in m && m[a] == i
      invariant forall a :: a in before ==> a in m && before[a] <= m[a]
      invariant forall a :: a in m ==> a != "" && (if m[a] == i then a in aliases else a in before && m[a] == before[a])
    {
      var a := aliases[j];
      if a != "" {
        m := m[a := i];
      }
    }
    assert aliases[..|aliases|] == aliases;
  }

  lemma AddId<R>(list: seq<Group<R>>, i: nat, m: map<string, nat>)
    requires i < |list| && IdIndex(list[..i], m)
    ensures IdIndex(list[..i + 1], m[list[i].id := i])
  {
  }

  method Index<R>(list: seq<Group<R>>) returns (byID: map<string, nat>, byAlias: map<string, nat>)
    ensures IdIndex(list, byID) && AliasIndex(list, byAlias)
  {
    byID, byAlias := map[], map[];
    for i := 0 to |list|
      invariant IdIndex(list[..i], byID)
      invariant AliasIndex(list[..i], byAlias)
    {
      AddId(list, i, byID);
      byID := byID[list[i].id := i];
      byAlias := AddAliases(list, i, byAlias);
    }
    assert list[..|list|] == list;
  }

  // The first of list[from..] with the key as its ID or among its aliases, or |list|.
  function Find<R>(list: seq<Group<R>>, key: string, from: nat := 0): (k: nat)
    requires from <= |list|
    ensures from <= k <= |list|
    ensures k < |list| ==> Named(list[k], key)
    ensures forall j :: from <= j < k ==> !Named(list[j], key)
    decreases |list| - from
  {
    if from == |list| || Named(list[from], key) then from else Find(list, key, from + 1)
  }

  predicate Named<R>(g: Group<R>, key: string) { g.id == key || key in g.aliases }

  function LastId<R>(list: seq<Group<R>>, key: string, n: nat): (k: nat)
    requires n <= |list|
    ensures k < n ==> list[k].id == key
    ensures k >= n ==> k == |list|
    ensures forall j :: 0 <= j < n && (j > k || k == |list|) ==> list[j].id != key
  {
    if n == 0 then |list| else if list[n - 1].id == key then n - 1 else LastId(list, key, n - 1)
  }

  function LastAlias<R>(list: seq<Group<R>>, key: string, n: nat): (k: nat)
    requires n <= |list|
    ensures k < n ==> key in list[k].aliases && key != ""
    ensures k >= n ==> k == |list|
    ensures forall j :: 0 <= j < n && (j > k || k == |list|) && key != "" ==> key !in list[j].aliases
  {
    if n == 0 || key == "" then |list|
    else if key in list[n - 1].aliases then n - 1
    else LastAlias(list, key, n - 1)
  }

  // Groups.Get: by ID, then by alias; |list| when there is neither.
  function Got<R>(list: seq<Group<R>>, key: string): nat {
    if LastId(list, key, |list|) < |list| then LastId(list, key, |list|) else LastAlias(list, key, |list|)
  }

  // config.Groups: the list stands for the memory the two maps point into.
  class Groups<R> {
    var list: seq<Group<R>>
    var byID: map<string, nat>
    var byAlias: map<string, nat>

    ghost predicate Valid()
      reads this
    {
      IdIndex(list, byID) && AliasIndex(list, byAlias)
    }

    constructor (list: seq<Group<R>>)
      ensures Valid() && this.list == list
    {
      this.list := list;
      var ids, aliases := Index(list);
      byID, byAlias := ids, aliases;
    }

    method Get(id: string) returns (k: nat, ok: bool)
      requires Valid()
      ensures ok <==> k < |list|
      ensures k == Got(list, id)
    {
      if id in byID {
        return byID[id], true;
      }
      if id in byAlias {
        return byAlias[id], true;
      }
      return |list|, false;
    }

    method Replace(fresh_: seq<Group<R>>)
      modifies this
      ensures Valid() && list == fresh_
    {
      list := fresh_;
      byID, byAlias := Index(fresh_);
    }
  }

  // The first group answering to key is the only one the engine could mean by it.
  predicate Clear<R>(list: seq<Group<R>>, key: string) {
    var i := Find(list, key);
    i < |list| ==>
      && (list[i].id == key || key != "")
      && forall j :: i < j < |list| ==> list[j].id != key && (list[i].id == key || key !in list[j].aliases)
  }

  // The two lookups agree exactly on the clear keys.
  lemma LookupsAgree<R>(list: seq<Group<R>>, key: string)
    ensures Got(list, key) == Find(list, key) <==> Clear(list, key)
  {
    var f, a, b := Find(list, key), LastId(list, key, |list|), LastAlias(list, key, |list|);
    if f < |list| && Got(list, key) == f {
      if a < |list| {
        assert a == f;
      } else {
        assert b == f && key in list[b].aliases;
      }
    }
  }

  // No two groups share a name, and no name is empty.
  ghost predicate Distinct<R>(list: seq<Group<R>>) {
    && (forall i :: 0 <= i < |list| ==> list[i].id != "" && "" !in list[i].aliases)
    && (forall i, j, key :: 0 <= i < j < |list| ==> !(Named(list[i], key) && Named(list[j], key)))
  }

  lemma DistinctIsClear<R>(list: seq<Group<R>>, key: string)
    requires Distinct(list)
    ensures Clear(list, key)
  {
    var i := Find(list, key);
    forall j | i < j < |list|
      ensures !Named(list[j], key)
    {
      assert Named(list[i], key);
    }
  }

  // An alias given to two groups: the engine follows it to the last, the simulator to the first.
  lemma SharedAlias<R>(g: Group<R>, h: Group<R>)
    requires g.id == "a" && h.id == "b" && g.aliases == ["x"] && h.aliases == ["x"]
    ensures Got([g, h], "x") == 1 && Find([g, h], "x") == 0
  {
    var list := [g, h];
    assert list[0] == g && list[1] == h && "x" in list[0].aliases && "x" in list[1].aliases;
  }
}

module GroupLink {
  import opened Text
  import opened Router
  import opened GroupIndex

  // config.MaxGroupHops
  const MAX_HOPS := 3

  // What one pass over a group's streams decides.
  datatype Step = Step(group: nat, stream: string, redirect: string, out: string)

  // The engine's pass: the stream the router picks overrides the group's defaults.
  function Picked<R, V>(list: seq<Group<R>>, k: nat, v: V, why: Filters<R, V>): Step
    requires k < |list|
  {
    var g := list[k];
    var i := Pick(g.streams, v, why);
    if i == |g.streams| then Step(k, "-", g.redirect, g.out)
    else
      var s := g.streams[i];
      if s.out.redirect != "" then Step(k, s.name, s.out.redirect, s.out.out)
      else Step(k, s.name, g.redirect, g.out)
  }

  function PickedHeader<R, V>(g: Group<R>, v: V, why: Filters<R, V>): string {
    var i := Pick(g.streams, v, why);
    if i < |g.streams| && g.streams[i].out.header != "" then g.streams[i].out.header else g.header
  }

  // The simulator's pass, which keeps looking after the winner, after n streams.
  function Scanned<R, V>(list: seq<Group<R>>, k: nat, v: V, why: Filters<R, V>, n: nat): Step
    requires k < |list| && n <= |list[k].streams|
  {
    if n == 0 then Step(k, "-", list[k].redirect, list[k].out)
    else
      var t, s := Scanned(list, k, v, why, n - 1), list[k].streams[n - 1];
      if !(Matches(s, v, why) && t.stream == "-") then t
      else if s.out.redirect != "" then Step(k, s.name, s.out.redirect, s.out.out)
      else t.(stream := s.name)
  }

  // One turn at a group: the step, and where its link leads, if it is a link; legal tells
  // whether that is another group that is there and enabled.
  datatype Turn = Turn(step: Step, next: nat, legal: bool)

  // What either loop does, group by group.
  type Chart = nat -> Turn

  predicate Legal<R>(list: seq<Group<R>>, from: nat, next: nat) { next < |list| && list[next].status && next != from }

  function EngineTurn<R, V>(list: seq<Group<R>>, k: nat, v: V, why: Filters<R, V>): Turn
    requires k < |list|
  {
    var step := Picked(list, k, v, why);
    var next := Got(list, TrimSpace(step.out));
    Turn(step, next, Legal(list, k, next))
  }

  function SimulatorTurn<R, V>(list: seq<Group<R>>, k: nat, v: V, why: Filters<R, V>): Turn
    requires k < |list|
  {
    var step := Scanned(list, k, v, why, |list[k].streams|);
    var next := Find(list, TrimSpace(step.out));
    Turn(step, next, Legal(list, k, next))
  }

  const NOWHERE := Turn(Step(0, "", "", ""), 0, false)

  function Engine<R, V>(list: seq<Group<R>>, v: V, why: Filters<R, V>): Chart {
    (k: nat) => if k < |list| then EngineTurn(list, k, v, why) else NOWHERE
  }

  function Simulator<R, V>(list: seq<Group<R>>, v: V, why: Filters<R, V>): Chart {
    (k: nat) => if k < |list| then SimulatorTurn(list, k, v, why) else NOWHERE
  }

  // The link that the step at group k makes as number hop is followed to next.
  predicate Linked(c: Chart, k: nat, hop: nat, next: nat) {
    c(k).step.redirect == "group" && c(k).legal && next == c(k).next && hop < MAX_HOPS
  }

  // ... or is not followed.
  predicate Stops(c: Chart, k: nat, hop: nat) { c(k).step.redirect == "group" && !(c(k).legal && hop < MAX_HOPS) }

  // The steps are those of the chart, each linked to the one before.
  predicate IsPath(c: Chart, entry: nat, path: seq<Step>) {
    && (|path| > 0 ==> path[0].group == entry)
    && (forall i :: 0 <= i < |path| ==> path[i] == c(path[i].group).step)
    && (forall i :: 0 <= i < |path| - 1 ==> Linked(c, path[i].group, i, path[i + 1].group))
  }

  // The path leads to group k, where no step has been taken yet.
  predicate Pending(c: Chart, entry: nat, path: seq<Step>, k: nat) {
    && IsPath(c, entry, path)
    && if path == [] then k == entry else Linked(c, path[|path| - 1].group, |path| - 1, k)
  }

  lemma Extends(c: Chart, entry: nat, path: seq<Step>, step: Step)
    requires Pending(c, entry, path, step.group) && step == c(step.group).step
    ensures IsPath(c, entry, path + [step])
  {
  }

  // A path that ends at a step that serves, or at a link that is not followed.
  predicate IsWalk(c: Chart, entry: nat, path: seq<Step>, refused: bool) {
    && |path| > 0 && IsPath(c, entry, path)
    && var end := path[|path| - 1];
       if refused then Stops(c, end.group, |path| - 1) else end.redirect != "group"
  }

  // Stream i of the group is served, |streams| for none: its redirect and output if it has
  // a redirect, its content type if it has one, and the group's otherwise.
  predicate Serves<R>(g: Group<R>, i: nat, stream: string, redirect: string, out: string, ctype: string)
    requires i <= |g.streams|
  {
    if i == |g.streams| then stream == "-" && redirect == g.redirect && out == g.out && ctype == g.header
    else
      var s := g.streams[i];
      && stream == s.name
      && (if s.out.redirect == "" then redirect == g.redirect && out == g.out
          else redirect == s.out.redirect && out == s.out.out)
      && ctype == if s.out.header == "" then g.header else s.out.header
  }

  // One turn of the engine's loop, up to the link.
  method PassOver<R, V>(list: seq<Group<R>>, k: nat, v: V, why: Filters<R, V>) returns (step: Step, ctype: string)
    requires k < |list|
    ensures step == Picked(list, k, v, why) && step.group == k && ctype == PickedHeader(list[k], v, why)
    ensures step == Engine(list, v, why)(k).step
    ensures Serves(list[k], Pick(list[k].streams, v, why), step.stream, step.redirect, step.out, ctype)
  {
    var g := list[k];
    var name, redirect, out := "-", g.redirect, g.out;
    ctype := g.header;
    var i := Pick(g.streams, v, why);
    if i < |g.streams| {
      var s := g.streams[i];
      name := s.name;
      if s.out.redirect != "" {
        redirect, out := s.out.redirect, s.out.out;
      }
      if s.out.header != "" {
        ctype := s.out.header;
      }
    }
    step := Step(k, name, redirect, out);
  }

  // The group that a link leads to, and whether it is followed.
  method Target<R, V>(groups: Groups<R>, step: Step, hop: nat, v: V, why: Filters<R, V>) returns (next: nat, ok: bool)
    requires groups.Valid() && step.group < |groups.list| && step.redirect == "group"
    requires step == Picked(groups.list, step.group, v, why)
    ensures if ok then Linked(Engine(groups.list, v, why), step.group, hop, next) && next < |groups.list|
            else Stops(Engine(groups.list, v, why), step.group, hop)
    ensures var k := Got(groups.list, TrimSpace(step.out));
      ok <==> k < |groups.list| && groups.list[k].status && k != step.group && hop < 3
  {
    next, ok := groups.Get(TrimSpace(step.out));
    if !ok || !groups.list[next].status || next == step.group || hop >= MAX_HOPS {
      ok := false;
    }
  }

  // "<group id>/<stream>" of the first link followed, "" before any is.
  function Via<R>(list: seq<Group<R>>, path: seq<Step>): string {
    if path == [] || path[0].group >= |list| then "" else list[path[0].group].id + "/" + path[0].stream
  }

  lemma ViaLater<R>(list: seq<Group<R>>, path: seq<Step>, step: Step)
    ensures path != [] ==> Via(list, path + [step]) == Via(list, path)
    ensures path != [] && path[0].group < |list| ==> Via(list, path) != ""
  {
  }

  // The engine's loop, without a limiter.
  method Follow<R, V>(groups: Groups<R>, entry: nat, v: V, why: Filters<R, V>)
      returns (refused: bool, last: Step, ctype: string, via: string, ghost path: seq<Step>)
    requires groups.Valid() && entry < |groups.list|
    ensures IsWalk(Engine(groups.list, v, why), entry, path, refused)
    ensures last == path[|path| - 1] && last.group < |groups.list|
    ensures ctype == PickedHeader(groups.list[last.group], v, why)
    ensures var g := groups.list[last.group];
      Serves(g, Pick(g.streams, v, why), last.stream, last.redirect, last.out, ctype)
    ensures via == if |path| == 1 then "" else Via(groups.list, path)
    ensures via == if |path| == 1 then "" else groups.list[entry].id + "/" + path[0].stream
  {
    ghost var c := Engine(groups.list, v, why);
    var grp: nat, hop: nat := entry, 0;
    via, path := "", [];
    while true
      invariant hop == |path| <= MAX_HOPS && grp < |groups.list| && Pending(c, entry, path, grp)
      invariant via == Via(groups.list, path)
      decreases MAX_HOPS - hop
    {
      last, ctype := PassOver(groups.list, grp, v, why);
      Extends(c, entry, path, last);
      ViaLater(groups.list, path, last);
      path := path + [last];
      if last.redirect != "group" {
        return false, last, ctype, via, path;
      }
      var next, ok := Target(groups, last, hop, v, why);
      if !ok {
        return true, last, ctype, via, path;
      }
      if via == "" {
        via := groups.list[grp].id + "/" + last.stream;
      }
      grp, hop := next, hop + 1;
    }
  }

  datatype Row = Row(name: string, on: bool, why: string, matches: bool)

  predicate RowOf<R, V>(row: Row, s: Stream<R>, v: V, why: Filters<R, V>) {
    && row.name == s.name && row.on == s.status && row.matches == Matches(s, v, why)
    && row.why == if s.status then why(s.rules, v) else ""
  }

  // The simulator's pass over one group, with the row it shows for every stream.
  method Try<R, V>(list: seq<Group<R>>, k: nat, v: V, why: Filters<R, V>) returns (step: Step, rows: seq<Row>)
    requires k < |list|
    ensures step == Scanned(list, k, v, why, |list[k].streams|)
    ensures |rows| == |list[k].streams|
    ensures forall i :: 0 <= i < |rows| ==> RowOf(rows[i], list[k].streams[i], v, why)
  {
    var g := list[k];
    step, rows := Step(k, "-", g.redirect, g.out), [];
    for i := 0 to |g.streams|
      invariant step == Scanned(list, k, v, why, i) && |rows| == i
      invariant forall j :: 0 <= j < i ==> RowOf(rows[j], g.streams[j], v, why)
    {
      ScannedGroup(list, k, v, why, i);
      var s := g.streams[i];
      var row := Row(s.name, s.status, "", false);
      if s.status {
        row := row.(why := why(s.rules, v));
        row := row.(matches := row.why == "");
        if row.matches && step.stream == "-" {
          step := step.(stream := s.name);
          if s.out.redirect != "" {
            step := step.(redirect := s.out.redirect, out := s.out.out);
          }
        }
      }
      rows := rows + [row];
    }
  }

  // The closure find of the simulator.
  method Search<R>(list: seq<Group<R>>, key: string) returns (k: nat)
    ensures k == Find(list, key)
  {
    k := 0;
    while k < |list|
      invariant k <= |list| && Find(list, key) == Find(list, key, k)
    {
      if list[k].id == key {
        return;
      }
      var j := 0;
      while j < |list[k].aliases|
        invariant j <= |list[k].aliases| && key !in list[k].aliases[..j]
      {
        if list[k].aliases[j] == key {
          return;
        }
        j := j + 1;
      }
      k := k + 1;
    }
  }

  // The simulator's loop; error tells whether the last step carries one.
  method Simulate<R, V>(list: seq<Group<R>>, entry: nat, v: V, why: Filters<R, V>)
      returns (path: seq<Step>, error: bool)
    requires entry < |list|
    ensures IsWalk(Simulator(list, v, why), entry, path, error)
  {
    ghost var c := Simulator(list, v, why);
    var grp: nat, hop: nat := entry, 0;
    path, error := [], false;
    while true
      invariant hop == |path| <= MAX_HOPS && grp < |list| && Pending(c, entry, path, grp)
      decreases MAX_HOPS - hop
    {
      var step, rows := Try(list, grp, v, why);
      ScannedGroup(list, grp, v, why, |list[grp].streams|);
      Extends(c, entry, path, step);
      path := path + [step];
      if step.redirect != "group" {
        return path, false;
      }
      var next;
      next, error := Check(list, step, hop, v, why);
      if error {
        return path, true;
      }
      grp, hop := next, hop + 1;
    }
  }

  // The group that the simulator finds for a link, and whether it reports an error.
  method Check<R, V>(list: seq<Group<R>>, step: Step, hop: nat, v: V, why: Filters<R, V>)
    returns (next: nat, error: bool)
    requires step.group < |list| && step.redirect == "group"
    requires step == Scanned(list, step.group, v, why, |list[step.group].streams|)
    ensures if error then Stops(Simulator(list, v, why), step.group, hop)
            else Linked(Simulator(list, v, why), step.group, hop, next) && next < |list|
  {
    next := Search(list, TrimSpace(step.out));
    error := false;
    if next == |list| {
      error := true;
    } else if !list[next].status {
      error := true;
    } else if next == step.group {
      error := true;
    } else if hop >= MAX_HOPS {
      error := true;
    }
  }

  lemma {:induction false} ScannedGroup<R, V>(list: seq<Group<R>>, k: nat, v: V, why: Filters<R, V>, n: nat)
    requires k < |list| && n <= |list[k].streams|
    ensures Scanned(list, k, v, why, n).group == k
  {
    if n > 0 { ScannedGroup(list, k, v, why, n - 1); }
  }

  // The stream picked is not called "-", or is the last one to match.
  predicate Marked<R, V>(g: Group<R>, v: V, why: Filters<R, V>) {
    var i := Pick(g.streams, v, why);
    i < |g.streams| && g.streams[i].name == "-" ==> forall j :: i < j < |g.streams| ==> !Matches(g.streams[j], v, why)
  }

  // Up to and past the stream that Select returns.
  lemma {:induction false} ScanPicks<R, V>(list: seq<Group<R>>, k: nat, v: V, why: Filters<R, V>, n: nat)
    requires k < |list| && n <= |list[k].streams| && Marked(list[k], v, why)
    ensures Scanned(list, k, v, why, n) ==
      if n <= Pick(list[k].streams, v, why) then Step(k, "-", list[k].redirect, list[k].out)
      else Picked(list, k, v, why)
  {
    if n > 0 { ScanPicks(list, k, v, why, n - 1); }
  }

  lemma PassesAgree<R, V>(list: seq<Group<R>>, k: nat, v: V, why: Filters<R, V>)
    requires k < |list| && Marked(list[k], v, why)
    ensures Scanned(list, k, v, why, |list[k].streams|) == Picked(list, k, v, why)
  {
    ScanPicks(list, k, v, why, |list[k].streams|);
  }

  // The group with the same streams, stream j redirecting to x and no other redirecting.
  function Rewired<R>(g: Group<R>, j: nat, x: string): Group<R> {
    g.(streams := seq(|g.streams|, i requires 0 <= i < |g.streams| =>
      g.streams[i].(out := Out(if i == j then x else "", "", ""))))
  }

  // A group that is not Marked has outputs on which the two passes differ: after the
  // stream named "-" the simulator takes the output of a later one as well.
  lemma PassesDiffer<R, V>(g: Group<R>, v: V, why: Filters<R, V>) returns (h: Group<R>)
    requires !Marked(g, v, why)
    ensures exists j, x :: h == Rewired(g, j, x)
    ensures Scanned([h], 0, v, why, |h.streams|).redirect != Picked([h], 0, v, why).redirect
  {
    var i := Pick(g.streams, v, why);
    var j := Pick(g.streams, v, why, i + 1);
    h := Rewired(g, j, g.redirect + "!");
    SamePick(g, h, v, why, 0);
    SamePick(g, h, v, why, i + 1);
    ScanGoesOn(h, v, why, i, j, |h.streams|, g.redirect + "!");
  }

  lemma {:induction false} SamePick<R, V>(g: Group<R>, h: Group<R>, v: V, why: Filters<R, V>, from: nat)
    requires (exists j, x :: h == Rewired(g, j, x)) && from <= |g.streams|
    ensures |h.streams| == |g.streams| && Pick(h.streams, v, why, from) == Pick(g.streams, v, why, from)
    decreases |g.streams| - from
  {
    if from < |g.streams| {
      assert Matches(h.streams[from], v, why) == Matches(g.streams[from], v, why);
      SamePick(g, h, v, why, from + 1);
    }
  }

  // Only stream j redirects, to x.
  predicate OnlyRedirects<R>(h: Group<R>, j: nat, x: string) {
    forall k :: 0 <= k < |h.streams| ==> h.streams[k].out.redirect == if k == j then x else ""
  }

  // Stream i, named "-", is taken, and so is j, the next to match.
  predicate TakenTwice<R, V>(h: Group<R>, v: V, why: Filters<R, V>, i: nat, j: nat) {
    && i < j < |h.streams| && h.streams[i].name == "-"
    && i == Pick(h.streams, v, why) && j == Pick(h.streams, v, why, i + 1)
  }

  lemma {:induction false} ScanBefore<R, V>(h: Group<R>, v: V, why: Filters<R, V>, i: nat, j: nat, n: nat)
    requires TakenTwice(h, v, why, i, j) && n <= j
    ensures Scanned([h], 0, v, why, n).stream == "-"
  {
    if n > 0 { ScanBefore(h, v, why, i, j, n - 1); }
  }

  lemma {:induction false} ScanGoesOn<R, V>(h: Group<R>, v: V, why: Filters<R, V>, i: nat, j: nat, n: nat, x: string)
    requires TakenTwice(h, v, why, i, j) && OnlyRedirects(h, j, x) && x != "" && j < n <= |h.streams|
    ensures Scanned([h], 0, v, why, n).redirect == x
  {
    if n == j + 1 {
      ScanBefore(h, v, why, i, j, j);
    } else {
      ScanGoesOn(h, v, why, i, j, n - 1, x);
    }
  }

  // Simulator and engine walk the same path and fail together.
  lemma WalksAgree<R, V>(list: seq<Group<R>>, entry: nat, v: V, why: Filters<R, V>,
                         p: seq<Step>, refused: bool, q: seq<Step>, error: bool)
    requires entry < |list| && Distinct(list) && forall k :: 0 <= k < |list| ==> Marked(list[k], v, why)
    requires IsWalk(Engine(list, v, why), entry, p, refused)
    requires IsWalk(Simulator(list, v, why), entry, q, error)
    ensures p == q && refused == error && |p| <= MAX_HOPS + 1
  {
    var c, d := Engine(list, v, why), Simulator(list, v, why);
    forall k | 0 <= k < |list| ensures c(k) == d(k) { TurnsAgree(list, k, v, why); }
    forall k | c(k).legal ensures c(k).next < |list| { LegalIsThere(list, k, v, why); }
    ChartsAgree(c, d, |list|, entry, p, refused, q, error);
  }

  lemma LegalIsThere<R, V>(list: seq<Group<R>>, k: nat, v: V, why: Filters<R, V>)
    ensures Engine(list, v, why)(k).legal ==> Engine(list, v, why)(k).next < |list|
  {
  }

  lemma TurnsAgree<R, V>(list: seq<Group<R>>, k: nat, v: V, why: Filters<R, V>)
    requires k < |list| && Distinct(list) && Marked(list[k], v, why)
    ensures Engine(list, v, why)(k) == Simulator(list, v, why)(k)
  {
    PassesAgree(list, k, v, why);
    SameLook(list, TrimSpace(Picked(list, k, v, why).out));
  }

  lemma SameLook<R>(list: seq<Group<R>>, key: string)
    requires Distinct(list)
    ensures Got(list, key) == Find(list, key)
  {
    DistinctIsClear(list, key);
    LookupsAgree(list, key);
  }

  // Charts that agree on the groups there are have the same walks.
  lemma ChartsAgree(c: Chart, d: Chart, size: nat, entry: nat, p: seq<Step>, refused: bool, q: seq<Step>, error: bool)
    requires (forall k :: 0 <= k < size ==> c(k) == d(k)) && (forall k :: c(k).legal ==> c(k).next < size)
    requires entry < size && IsWalk(c, entry, p, refused) && IsWalk(d, entry, q, error)
    ensures p == q && refused == error && |p| <= MAX_HOPS + 1
  {
    SamePrefix(c, d, size, entry, p, refused, q, error, |p|);
    LinkedAt(c, entry, p, |p| - 2);
    LinkedAt(d, entry, q, |p| - 1);
  }

  lemma LinkedAt(c: Chart, entry: nat, path: seq<Step>, i: int)
    requires IsPath(c, entry, path)
    ensures 0 <= i < |path| - 1 ==> Linked(c, path[i].group, i, path[i + 1].group)
  {
  }

  lemma {:induction false} SamePrefix(c: Chart, d: Chart, size: nat, entry: nat,
                                      p: seq<Step>, refused: bool, q: seq<Step>, error: bool, n: nat)
    requires (forall k :: 0 <= k < size ==> c(k) == d(k)) && (forall k :: c(k).legal ==> c(k).next < size)
    requires entry < size && IsWalk(c, entry, p, refused) && IsWalk(d, entry, q, error) && n <= |p|
    ensures n <= |q| && forall i :: 0 <= i < n ==> p[i] == q[i] && p[i].group < size
  {
    if n > 0 {
      SamePrefix(c, d, size, entry, p, refused, q, error, n - 1);
      LinkedAt(c, entry, p, n - 2);
      LinkedAt(d, entry, q, n - 2);
      assert p[n - 1].group < size && n <= |q| && q[n - 1].group == p[n - 1].group;
    }
  }
}

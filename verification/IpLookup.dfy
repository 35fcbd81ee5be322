/** Building the index from lines and looking an address up. */
module IpLookup {
  import opened IpAddr
  import opened Cidr
  import opened IpIndex

  // ----- sort.Slice: some sorted permutation -----

  method SortRanges(rs: seq<Rng>) returns (s: seq<Rng>)
    ensures Sorted(s) && multiset(s) == multiset(rs)
  {
    s := [];
    for i := 0 to |rs|
      invariant Sorted(s) && multiset(s) == multiset(rs[..i])
    {
      assert rs[..i + 1] == rs[..i] + [rs[i]];
      s := Insert(s, rs[i]);
    }
    assert rs[..|rs|] == rs;
  }

  method Insert(s: seq<Rng>, x: Rng) returns (t: seq<Rng>)
    requires Sorted(s)
    ensures Sorted(t) && multiset(t) == multiset(s) + multiset{x}
  {
    var i := |s|;
    while i > 0 && !LexLeq(s[i - 1], x)
      invariant 0 <= i <= |s|
      invariant forall j :: i <= j < |s| ==> LexLeq(x, s[j])
    {
      i := i - 1;
    }
    t := s[..i] + [x] + s[i..];
    InsertSorted(s, x, i);
    assert s == s[..i] + s[i..];
  }

  lemma InsertSorted(s: seq<Rng>, x: Rng, i: nat)
    requires Sorted(s) && i <= |s|
    requires i > 0 ==> LexLeq(s[i - 1], x)
    requires forall j :: i <= j < |s| ==> LexLeq(x, s[j])
    ensures Sorted(s[..i] + [x] + s[i..])
  {
    var t := s[..i] + [x] + s[i..];
    forall j | 0 <= j < i ensures LexLeq(s[j], x) {
      if j < i - 1 { assert LexLeq(s[j], s[i - 1]); }
    }
    forall j, k | 0 <= j < k < |t| ensures LexLeq(t[j], t[k]) {
      if j < i < k { assert LexLeq(s[j], s[k - 1]); }
    }
  }

  // ----- normalize -----

  method Normalize(rs: seq<Rng>) returns (out: seq<Rng>)
    requires ValidAll(rs)
    ensures Normal(out, rs)
  {
    if |rs| == 0 {
      out := rs;
      NormalOfMerge(rs, rs);
      return;
    }
    var s := SortRanges(rs);
    SameMembers(s, rs);
    out := MergeSorted(s);
    NormalOfMerge(s, rs);
  }

  method MergeSorted(s: seq<Rng>) returns (out: seq<Rng>)
    requires s != [] && Sorted(s) && ValidAll(s)
    ensures out == Merge(s)
  {
    out := [s[0]];
    MergeFirst(s);
    var i := 1;
    while i < |s|
      invariant 1 <= i <= |s| && out != [] && out == Merge(s[..i])
    {
      var r, n := s[i], |out| - 1;
      MergeTakes(s, i, out);
      var next := Next(out[n].hi);
      var adjacent := next.Some? && Rank(r.lo) == Rank(next.a);
      NextTouches(out[n].hi, r.lo);
      if Rank(r.lo) <= Rank(out[n].hi) || adjacent {
        if Rank(r.hi) > Rank(out[n].hi) {
          out := out[n := out[n].(hi := r.hi)];
        }
      } else {
        out := out + [r];
      }
      i := i + 1;
    }
    assert s[..|s|] == s;
  }

  // The test of the loop: lo lies inside or right after what ends at hi.
  lemma NextTouches(hi: Addr, lo: Addr)
    requires Valid(hi) && Valid(lo)
    ensures Rank(lo) <= Rank(hi) + 1 <==> Rank(lo) <= Rank(hi) || (Next(hi).Some? && Rank(lo) == Rank(Next(hi).a))
  {
    NextIsSuccessor(hi, lo);
  }

  // One more range: what the loop body computes.
  function Taken(m: seq<Rng>, r: Rng): seq<Rng>
    requires m != []
  {
    var n := |m| - 1;
    if Rank(r.lo) > Rank(m[n].hi) + 1 then m + [r]
    else if Rank(r.hi) > Rank(m[n].hi) then m[n := m[n].(hi := r.hi)] else m
  }

  lemma MergeFirst(s: seq<Rng>)
    requires s != []
    ensures Merge(s[..1]) == [s[0]]
  {
    assert s[..1][..0] == [] && s[..1][0] == s[0];
    assert Merge(s[..1]) == MergeInto(Merge([]), s[0]);
  }

  lemma MergeTakes(s: seq<Rng>, i: nat, m: seq<Rng>)
    requires Sorted(s) && ValidAll(s) && 0 < i < |s| && m == Merge(s[..i])
    ensures Valid(s[i].lo) && Valid(s[i].hi)
    ensures m != [] && Valid(m[|m| - 1].hi) && Merge(s[..i + 1]) == Taken(m, s[i])
  {
    assert s[i] in s;
    assert s[..i + 1][..i] == s[..i] && s[..i + 1][i] == s[i];
    assert Merge(s[..i + 1]) == MergeInto(m, s[i]);
    MergeSeparated(s[..i]);
    assert m[|m| - 1] in m;
    MergeIntoTakes(m, s[i]);
  }

  lemma MergeIntoTakes(m: seq<Rng>, r: Rng)
    requires m != []
    ensures MergeInto(m, r) == Taken(m, r)
  {
    var n := |m| - 1;
    assert m == m[..n] + [m[n]];
  }

  lemma SameMembers(s: seq<Rng>, rs: seq<Rng>)
    requires multiset(s) == multiset(rs)
    ensures |s| == |rs| && forall q :: q in s <==> q in rs
  {
    assert |multiset(s)| == |s| && |multiset(rs)| == |rs|;
    forall q ensures q in s <==> q in rs {
      assert q in s <==> q in multiset(s);
      assert q in rs <==> q in multiset(rs);
    }
  }

  lemma NormalOfMerge(s: seq<Rng>, rs: seq<Rng>)
    requires Sorted(s) && ValidAll(rs) && (forall q :: q in s <==> q in rs)
    ensures Normal(Merge(s), rs)
  {
    var out := Merge(s);
    MergeSeparated(s);
    forall x | Valid(x) ensures Covers(out, x) <==> Covers(rs, x) {
      MergeCovers(s, x);
      CoversSame(s, rs, x);
    }
    if Ranked(rs) { NormalLabels(s, rs); }
  }

  lemma NormalLabels(s: seq<Rng>, rs: seq<Rng>)
    requires Sorted(s) && ValidAll(s) && Ranked(rs) && (forall q :: q in s <==> q in rs)
    ensures var ks, ko := InOrder(rs), InOrder(Merge(s));
      Labelled(ko, ks) && Homes(ks, ko) && (TouchingShareLabels(ks) ==> AllShare(ks, ko))
  {
    var ks, ko := InOrder(rs), InOrder(Merge(s));
    InOrderMerge(s);
    InOrderSorted(s);
    MergeMerged(InOrder(s));
    forall r | r in ko ensures LabelOfLeast(r, ks) { LabelSame(r, InOrder(s), ks); }
    forall q | q in ks ensures HasHome(q, ko) {}
    if TouchingShareLabels(ks) { MergeShares(InOrder(s)); }
  }

  lemma LabelSame(r: Rng, s: seq<Rng>, rs: seq<Rng>)
    requires LabelOfLeast(r, s) && (forall q :: q in s <==> q in rs)
    ensures LabelOfLeast(r, rs)
  {
    var p :| Least(p, r, s);
    assert Least(p, r, rs);
  }

  lemma CoversSame(s: seq<Rng>, rs: seq<Rng>, x: Addr)
    requires forall q :: q in s <==> q in rs
    ensures Covers(s, x) <==> Covers(rs, x)
  {
  }

  // ----- Parse -----

  method ParseRange(l: Line) returns (r: Range)
    requires ValidLine(l)
    ensures r == RangeOf(l)
  {
    match l {
      case Prefix(net, bits) =>
        var b := new bv8[|net|](i requires 0 <= i < |net| => net[i]);
        assert b[..] == net;
        Masked(b, bits);
        var lo := AddrOf(BitsOf(b[..]));
        LastAddr(b, bits);
        assert Fill(Fill(BitsOf(net), bits, false), bits, true) == Fill(BitsOf(net), bits, true);
        r := Range(Unmap(lo), Unmap(AddrOf(BitsOf(b[..]))));
      case Dash(a, b) =>
        var lo, hi := Unmap(a), Unmap(b);
        if Rank(lo) > Rank(hi) {
          lo, hi := hi, lo;
        }
        r := Range(lo, hi);
      case Single(a) =>
        r := Range(Unmap(a), Unmap(a));
      case _ =>
        r := NoRange;
    }
  }

  predicate ValidLines(lines: seq<Line>) { forall l :: l in lines ==> ValidLine(l) }

  // The label in force after these lines.
  function LabelAfter(lines: seq<Line>): string {
    if lines == [] then ""
    else var n := |lines| - 1;
      if lines[n].Label? then lines[n].text else LabelAfter(lines[..n])
  }

  // A line's ends are out of order only if they part the families.
  lemma LineIsRanked(l: Line)
    requires ValidLine(l)
    ensures var r := RangeOf(l); r.Range? ==> Leq(r.lo, r.hi) || (r.lo.V6? && r.hi.V4?)
  {
    if l.Prefix? { EndsInOrder(BitsOf(l.net), l.bits); }
  }

  // The ranges the lines name, in file order, whose lower end is of the given family.
  function Parsed(lines: seq<Line>, v4: bool): (rs: seq<Rng>)
    requires ValidLines(lines)
    ensures ValidAll(rs) && Ranked(rs) && forall r :: r in rs ==> r.lo.V4? == v4
  {
    if lines == [] then []
    else
      var n := |lines| - 1;
      var rs := Parsed(lines[..n], v4);
      LineIsRanked(lines[n]);
      match RangeOf(lines[n])
      case NoRange => rs
      case Range(lo, hi) => if lo.V4? == v4 then rs + [Rng(lo, hi, LabelAfter(lines[..n]))] else rs
  }

  // What Parse promises about the index.
  ghost predicate Built(idx: Index, lines: seq<Line>)
    requires ValidLines(lines)
  {
    Normal(idx.v4, Parsed(lines, true)) && Normal(idx.v6, Parsed(lines, false))
  }

  method Parse(lines: seq<Line>) returns (idx: Index)
    requires ValidLines(lines)
    ensures Built(idx, lines)
  {
    var v4, v6, tag := [], [], "";
    for i := 0 to |lines|
      invariant tag == LabelAfter(lines[..i])
      invariant v4 == Parsed(lines[..i], true) && v6 == Parsed(lines[..i], false)
    {
      assert lines[..i + 1][..i] == lines[..i] && lines[..i + 1][i] == lines[i];
      if lines[i].Label? {
        tag := lines[i].text;
      } else {
        var range := ParseRange(lines[i]);
        if range.Range? {
          var r := Rng(range.lo, range.hi, tag);
          if r.lo.V4? {
            v4 := v4 + [r];
          } else {
            v6 := v6 + [r];
          }
        }
      }
    }
    assert lines[..|lines|] == lines;
    var n4 := Normalize(v4);
    var n6 := Normalize(v6);
    idx := Index(n4, n6);
  }

  // ----- Lookup -----

  function FamilyOf(idx: Index, x: Addr): seq<Rng> { if x.V4? then idx.v4 else idx.v6 }

  // The answer (tag, ok) of Lookup for ip.
  ghost predicate Answer(idx: Index, ip: Addr, tag: string, ok: bool) {
    var x := Unmap(ip);
    && (ok ==> exists r :: r in FamilyOf(idx, x) && Contains(r, x) && r.tag == tag)
    && (!ok ==> tag == "" && !Covers(FamilyOf(idx, x), x))
  }

  method Lookup(idx: Index, ip: Addr) returns (tag: string, ok: bool)
    requires Separated(idx.v4) && Separated(idx.v6)
    ensures Valid(ip) ==> Answer(idx, ip, tag, ok)
    ensures !Valid(ip) ==> tag == "" && !ok
  {
    if !Valid(ip) {
      return "", false;
    }
    var x := Unmap(ip);
    var rs := if x.V4? then idx.v4 else idx.v6;
    // sort.Search: the first range that starts after x
    var lo, hi := 0, |rs|;
    while lo < hi
      invariant 0 <= lo <= hi <= |rs|
      invariant forall k :: 0 <= k < lo ==> Leq(rs[k].lo, x)
      invariant forall k :: hi <= k < |rs| ==> !Leq(rs[k].lo, x)
    {
      var mid := (lo + hi) / 2;
      if !Leq(rs[mid].lo, x) { hi := mid; } else { lo := mid + 1; }
    }
    var i := lo - 1;
    if i < 0 {
      return "", false;
    }
    if Leq(x, rs[i].hi) {
      return rs[i].tag, true;
    }
    BetweenRanges(rs, i, x);
    return "", false;
  }

  lemma BetweenRanges(rs: seq<Rng>, i: nat, x: Addr)
    requires Separated(rs) && i < |rs| && Leq(rs[i].lo, x) && !Leq(x, rs[i].hi)
    requires forall k :: i < k < |rs| ==> !Leq(rs[k].lo, x)
    ensures !Covers(rs, x)
  {
    forall r | r in rs ensures !Contains(r, x) {
      var k :| 0 <= k < |rs| && rs[k] == r;
    }
  }

  // ----- the index against a linear scan of the lines -----

  // r is a maximal run of the ranges rs: they cover it, and whatever touches it is inside.
  ghost predicate MaximalRun(r: Rng, rs: seq<Rng>) {
    && (forall x :: Valid(x) && Contains(r, x) ==> Covers(rs, x))
    && (forall q :: q in rs && Touch(q, r) ==> Inside(q, r))
  }

  lemma OutputIsRun(out: seq<Rng>, rs: seq<Rng>, r: Rng)
    requires Normal(out, rs) && Ranked(rs) && r in InOrder(out)
    ensures MaximalRun(r, InOrder(rs))
  {
    var ks, ko := InOrder(rs), InOrder(out);
    forall x | Valid(x) && Contains(r, x) ensures Covers(ks, x) {
      assert Covers(out, x);
      InOrderCovers(rs, x);
    }
    forall q | q in ks && Touch(q, r) ensures Inside(q, r) {
      var t := HomeOf(ks, ko, q);
      NotApart(out, t, r);
    }
  }

  lemma InOrderCovers(rs: seq<Rng>, x: Addr)
    ensures Covers(InOrder(rs), x) <==> Covers(rs, x)
  {
    if Covers(rs, x) { var r :| r in rs && Contains(r, x); assert r in InOrder(rs); }
  }

  lemma NotApart(out: seq<Rng>, t: Rng, r: Rng)
    requires Separated(out) && t in out && r in out
    ensures t == r || Rank(t.hi) + 1 < Rank(r.lo) || Rank(r.hi) + 1 < Rank(t.lo)
  {
    var i :| 0 <= i < |out| && out[i] == t;
    var j :| 0 <= j < |out| && out[j] == r;
  }

  // Lookup hits exactly when some line's range contains the address.  A range counts in
  // the family of its lower end.
  lemma LookupIsScan(lines: seq<Line>, idx: Index, ip: Addr, tag: string, ok: bool)
    requires ValidLines(lines) && Built(idx, lines) && Valid(ip) && Answer(idx, ip, tag, ok)
    ensures ok <==> Covers(Parsed(lines, Unmap(ip).V4?), Unmap(ip))
  {
    var x := Unmap(ip);
    assert Covers(FamilyOf(idx, x), x) <==> Covers(Parsed(lines, x.V4?), x);
  }

  // Each range keeps to one address family.
  predicate OneFamilyRanges(lines: seq<Line>)
    requires ValidLines(lines)
  {
    forall l :: l in lines && RangeOf(l).Range? ==> RangeOf(l).lo.V4? == RangeOf(l).hi.V4?
  }

  predicate LineContains(l: Line, x: Addr)
    requires ValidLine(l)
  {
    RangeOf(l).Range? && Leq(RangeOf(l).lo, x) && Leq(x, RangeOf(l).hi)
  }

  // ... hence exactly when some line contains it whose range starts in its family: when
  // every range keeps to one family, exactly when some line contains it.
  lemma LookupIsLineScan(lines: seq<Line>, idx: Index, ip: Addr, tag: string, ok: bool)
    requires ValidLines(lines) && Built(idx, lines) && Valid(ip) && Answer(idx, ip, tag, ok)
    ensures ok <==> exists l :: l in lines && LineContains(l, Unmap(ip)) && RangeOf(l).lo.V4? == Unmap(ip).V4?
    ensures OneFamilyRanges(lines) ==> (ok <==> exists l :: l in lines && LineContains(l, Unmap(ip)))
  {
    LookupIsScan(lines, idx, ip, tag, ok);
    ScanOfLines(lines, Unmap(ip));
    if l :| OneFamilyRanges(lines) && l in lines && LineContains(l, Unmap(ip)) {
      assert RangeOf(l).lo.V4? == Unmap(ip).V4?;
    }
  }

  predicate LineScans(l: Line, x: Addr)
    requires ValidLine(l)
  {
    LineContains(l, x) && RangeOf(l).lo.V4? == x.V4?
  }

  lemma {:induction false} ScanOfLines(lines: seq<Line>, x: Addr)
    requires ValidLines(lines) && Valid(x)
    ensures Covers(Parsed(lines, x.V4?), x) <==> exists l :: l in lines && LineScans(l, x)
  {
    if lines != [] {
      var n := |lines| - 1;
      var init, last := lines[..n], lines[n];
      assert lines == init + [last] && last in lines;
      ScanOfLines(init, x);
      ScanOfLast(lines, init, last, x);
      assert (exists l :: l in lines && LineScans(l, x))
        <==> (exists l :: l in init && LineScans(l, x)) || LineScans(last, x);
    }
  }

  lemma ScanOfLast(lines: seq<Line>, init: seq<Line>, last: Line, x: Addr)
    requires ValidLines(lines) && lines == init + [last] && ValidLines(init) && ValidLine(last)
    ensures Covers(Parsed(lines, x.V4?), x) <==> Covers(Parsed(init, x.V4?), x) || LineScans(last, x)
  {
    assert lines[..|lines| - 1] == init;
    var r := RangeOf(last);
    if r.Range? { CoversSplit(Parsed(init, x.V4?), Rng(r.lo, r.hi, LabelAfter(init)), x); }
  }

  // A CIDR line contains exactly the addresses that share its first bits, in the family
  // of both its ends: a prefix that leaves its family over the mapped addresses holds none.
  lemma CidrLineIsPrefix(net: seq<bv8>, bits: nat, x: seq<bv8>)
    requires ValidLine(Prefix(net, bits)) && |x| == |net|
    ensures var r, a := RangeOf(Prefix(net, bits)), Unmap(AddrOf(BitsOf(x)));
      LineContains(Prefix(net, bits), a)
      <==> BitsOf(x)[..bits] == BitsOf(net)[..bits] && a.V4? == r.lo.V4? == r.hi.V4?
  {
    RangeIsPrefix(BitsOf(net), bits, BitsOf(x));
    EndsInOrder(BitsOf(net), bits);
    if |net| == 16 { MappedBlock(BitsOf(net), bits); }
    var lo, hi := AddrOf(Fill(BitsOf(net), bits, false)), AddrOf(Fill(BitsOf(net), bits, true));
    UnmapBetween(lo, hi, AddrOf(BitsOf(x)));
  }

  // a and b in whichever order, x between them.
  predicate Between(a: Addr, x: Addr, b: Addr) { (Leq(a, x) && Leq(x, b)) || (Leq(b, x) && Leq(x, a)) }

  // A dash line contains exactly the addresses from either end to the other, both included.
  lemma DashIsInterval(a: Addr, b: Addr, x: Addr)
    requires Valid(a) && Valid(b) && Valid(x)
    ensures LineContains(Dash(a, b), x) <==> Between(Unmap(a), x, Unmap(b))
    ensures LineContains(Dash(a, b), x) <==> LineContains(Dash(b, a), x)
    ensures LineContains(Dash(a, b), Unmap(a)) && LineContains(Dash(a, b), Unmap(b))
  {
    assert RangeOf(Dash(a, b)) == RangeOf(Dash(b, a)) by {
      if Rank(Unmap(a)) == Rank(Unmap(b)) { RankInjective(Unmap(a), Unmap(b)); }
    }
  }

  // A line with one address contains that address, and a line without a range none.
  lemma SingleIsItself(a: Addr, x: Addr)
    requires Valid(a) && Valid(x)
    ensures LineContains(Single(a), x) <==> x == Unmap(a)
    ensures !LineContains(Blank, x) && !LineContains(Malformed, x) && forall text :: !LineContains(Label(text), x)
  {
    if LineContains(Single(a), x) { RankInjective(Unmap(a), x); }
  }

  // An IPv4-mapped address is answered as the IPv4 address it stands for.
  lemma MappedIsV4(idx: Index, n: nat, tag: string, ok: bool)
    requires n < V4_SIZE
    ensures Answer(idx, V6(0xffff_0000_0000 + n), tag, ok) <==> Answer(idx, V4(n), tag, ok)
    ensures Answer(idx, V4(n), tag, true) ==> exists r :: r in idx.v4 && Contains(r, V4(n)) && r.tag == tag
  {
    assert Unmap(V4(n)) == V4(n);
  }

  lemma UnmapBetween(lo: Addr, hi: Addr, a: Addr)
    requires Valid(lo) && Valid(hi) && Valid(a) && lo.V4? == hi.V4? == a.V4? && lo.n <= hi.n
    requires lo.V6? && IsMapped(lo.n) ==> IsMapped(hi.n)
    ensures Leq(Unmap(lo), Unmap(a)) && Leq(Unmap(a), Unmap(hi))
      <==> lo.n <= a.n <= hi.n && Unmap(a).V4? == Unmap(lo).V4? == Unmap(hi).V4?
  {
  }

  // The label of a hit is that of a least (lo, hi) range of the maximal run of
  // overlapping or adjacent ranges that holds the address ...
  ghost predicate LabelledBy(r: Rng, rs: seq<Rng>, x: Addr, tag: string) {
    Contains(r, x) && r.tag == tag && MaximalRun(r, rs) && LabelOfLeast(r, rs)
  }

  lemma LookupLabel(lines: seq<Line>, idx: Index, ip: Addr, tag: string)
    requires ValidLines(lines) && Built(idx, lines) && Valid(ip) && Answer(idx, ip, tag, true)
    ensures exists r :: LabelledBy(r, InOrder(Parsed(lines, Unmap(ip).V4?)), Unmap(ip), tag)
  {
    var x := Unmap(ip);
    var r :| r in FamilyOf(idx, x) && Contains(r, x) && r.tag == tag;
    RunLabel(FamilyOf(idx, x), Parsed(lines, x.V4?), r);
    assert LabelledBy(r, InOrder(Parsed(lines, x.V4?)), x, tag);
  }

  // ... hence that of every range holding the address, if touching ranges share labels ...
  lemma LookupLabelOfRange(lines: seq<Line>, idx: Index, ip: Addr, tag: string)
    requires ValidLines(lines) && Built(idx, lines) && Valid(ip) && Answer(idx, ip, tag, true)
    requires TouchingShareLabels(InOrder(Parsed(lines, Unmap(ip).V4?)))
    ensures forall q :: q in Parsed(lines, Unmap(ip).V4?) && Contains(q, Unmap(ip)) ==> q.tag == tag
  {
    var x := Unmap(ip);
    var r :| r in FamilyOf(idx, x) && Contains(r, x) && r.tag == tag;
    RunShares(FamilyOf(idx, x), Parsed(lines, x.V4?), r, x);
  }

  // ... that is, the label in force at the line.
  lemma LookupLabelOfLine(lines: seq<Line>, idx: Index, ip: Addr, tag: string, k: nat, text: string)
    requires ValidLines(lines) && Built(idx, lines) && Valid(ip) && Answer(idx, ip, tag, true)
    requires TouchingShareLabels(InOrder(Parsed(lines, Unmap(ip).V4?)))
    requires k < |lines| && LineScans(lines[k], Unmap(ip)) && InForce(lines, k, text)
    ensures tag == text
  {
    LookupLabelOfRange(lines, idx, ip, tag);
    var r := RangeOf(lines[k]);
    ParsedAreLines(lines, Unmap(ip).V4?, Rng(r.lo, r.hi, text));
    assert LineOf(lines, k, Rng(r.lo, r.hi, text));
  }

  // The text of the last label line before line k, "" if there is none.
  ghost predicate InForce(lines: seq<Line>, k: nat, text: string)
    requires k <= |lines|
  {
    (text == "" && Unlabelled(lines, k)) || exists i :: LastLabel(lines, i, k, text)
  }

  predicate Unlabelled(lines: seq<Line>, k: nat)
    requires k <= |lines|
  {
    forall j :: 0 <= j < k ==> !lines[j].Label?
  }

  predicate LastLabel(lines: seq<Line>, i: int, k: nat, text: string)
    requires k <= |lines|
  {
    0 <= i < k && lines[i] == Label(text) && forall j :: i < j < k ==> !lines[j].Label?
  }

  // q is the range of line k, under the label in force there.
  ghost predicate LineOf(lines: seq<Line>, k: int, q: Rng)
    requires ValidLines(lines)
  {
    0 <= k < |lines| && RangeOf(lines[k]) == Range(q.lo, q.hi) && InForce(lines, k, q.tag)
  }

  lemma {:induction false} LabelInForce(lines: seq<Line>, k: nat, text: string)
    requires k <= |lines|
    ensures InForce(lines, k, text) <==> text == LabelAfter(lines[..k])
  {
    if k > 0 {
      assert lines[..k][..k - 1] == lines[..k - 1] && lines[..k][k - 1] == lines[k - 1];
      LabelInForce(lines, k - 1, text);
      LabelStays(lines, k, text);
    }
  }

  lemma LabelStays(lines: seq<Line>, k: nat, text: string)
    requires 0 < k <= |lines|
    ensures InForce(lines, k, text)
      <==> if lines[k - 1].Label? then lines[k - 1].text == text else InForce(lines, k - 1, text)
  {
    if lines[k - 1].Label? {
      if lines[k - 1].text == text { assert LastLabel(lines, k - 1, k, text); }
    } else {
      var m: nat := k - 1;
      assert Unlabelled(lines, k) <==> Unlabelled(lines, m);
      if i :| LastLabel(lines, i, k, text) { assert LastLabel(lines, i, m, text); }
      if i :| LastLabel(lines, i, m, text) { assert LastLabel(lines, i, k, text); }
    }
  }

  // The ranges parsed are those of the lines, each under the label in force.
  lemma {:induction false} ParsedAreLines(lines: seq<Line>, v4: bool, q: Rng)
    requires ValidLines(lines)
    ensures q in Parsed(lines, v4) <==> q.lo.V4? == v4 && exists k :: LineOf(lines, k, q)
  {
    if lines != [] {
      var n := |lines| - 1;
      assert lines == lines[..n] + [lines[n]] && lines[n] in lines;
      ParsedAreLines(lines[..n], v4, q);
      LabelInForce(lines, n, q.tag);
      LinesOfInit(lines, n, q);
    }
  }

  lemma LinesOfInit(lines: seq<Line>, n: nat, q: Rng)
    requires ValidLines(lines) && n == |lines| - 1 && ValidLines(lines[..n])
    ensures (exists k :: LineOf(lines, k, q)) <==> (exists k :: LineOf(lines[..n], k, q)) || LineOf(lines, n, q)
  {
    forall k: nat | k < n ensures LineOf(lines, k, q) <==> LineOf(lines[..n], k, q) {
      LabelInForce(lines, k, q.tag);
      LabelInForce(lines[..n], k, q.tag);
      assert lines[..n][..k] == lines[..k];
    }
    if k :| LineOf(lines[..n], k, q) { assert LineOf(lines, k, q); }
    if k :| LineOf(lines, k, q) && k != n { assert LineOf(lines[..n], k, q); }
  }

  lemma RunLabel(out: seq<Rng>, rs: seq<Rng>, r: Rng)
    requires Normal(out, rs) && Ranked(rs) && r in InOrder(out)
    ensures MaximalRun(r, InOrder(rs)) && LabelOfLeast(r, InOrder(rs))
  {
    OutputIsRun(out, rs, r);
    assert LabelOfLeast(r, InOrder(rs));
  }

  lemma RunShares(out: seq<Rng>, rs: seq<Rng>, r: Rng, x: Addr)
    requires Normal(out, rs) && Ranked(rs) && r in InOrder(out) && Contains(r, x)
    requires TouchingShareLabels(InOrder(rs))
    ensures forall q :: q in rs && Contains(q, x) ==> q.tag == r.tag
  {
    OutputIsRun(out, rs, r);
    assert AllShare(InOrder(rs), InOrder(out));
    forall q | q in rs && Contains(q, x) ensures q.tag == r.tag {
      assert q in InOrder(rs) && Touch(q, r);
    }
  }

  // ----- canonical form -----

  predicate StartIn(rs: seq<Rng>, v4: bool) { forall r :: r in rs ==> r.lo.V4? == v4 }

  predicate SameBounds(a: seq<Rng>, b: seq<Rng>) {
    |a| == |b| && forall i :: 0 <= i < |a| ==> a[i].lo == b[i].lo && a[i].hi == b[i].hi
  }

  // Two normal lists of one family that cover the same addresses have the same bounds.
  lemma {:induction false} CanonicalForm(a: seq<Rng>, b: seq<Rng>, v4: bool)
    requires ValidAll(a) && Separated(a) && Proper(a) && StartIn(a, v4)
    requires ValidAll(b) && Separated(b) && Proper(b) && StartIn(b, v4)
    requires forall x :: Valid(x) ==> (Covers(a, x) <==> Covers(b, x))
    ensures SameBounds(a, b)
  {
    if a == [] || b == [] {
      HeadCovers(a);
      HeadCovers(b);
    } else {
      SameHeads(a, b, v4);
      SameTails(a, b);
      CanonicalForm(a[1..], b[1..], v4);
    }
  }

  lemma SameHeads(a: seq<Rng>, b: seq<Rng>, v4: bool)
    requires a != [] && ValidAll(a) && Separated(a) && Proper(a) && StartIn(a, v4)
    requires b != [] && ValidAll(b) && Separated(b) && Proper(b) && StartIn(b, v4)
    requires forall x :: Valid(x) ==> (Covers(a, x) <==> Covers(b, x))
    ensures a[0].lo == b[0].lo && a[0].hi == b[0].hi
  {
    assert a[0] in a && b[0] in b;
    HeadCovers(a);
    HeadCovers(b);
    FirstStart(b, a[0].lo);
    FirstStart(a, b[0].lo);
    RankInjective(a[0].lo, b[0].lo);
    FirstEnd(a, b, v4);
    FirstEnd(b, a, v4);
    RankInjective(a[0].hi, b[0].hi);
  }

  lemma SameTails(a: seq<Rng>, b: seq<Rng>)
    requires a != [] && Separated(a) && Proper(a) && b != [] && Separated(b) && Proper(b) && a[0].hi == b[0].hi
    requires forall x :: Valid(x) ==> (Covers(a, x) <==> Covers(b, x))
    ensures forall x :: Valid(x) ==> (Covers(a[1..], x) <==> Covers(b[1..], x))
  {
    forall x | Valid(x) ensures Covers(a[1..], x) <==> Covers(b[1..], x) {
      CoversTail(a, x);
      CoversTail(b, x);
      assert Covers(a, x) <==> Covers(b, x);
    }
  }

  lemma HeadCovers(a: seq<Rng>)
    requires ValidAll(a) && Proper(a)
    ensures a != [] ==> Valid(a[0].lo) && Covers(a, a[0].lo)
  {
    if a != [] { assert a[0] in a; }
  }

  // A tail covers what the whole covers past its head.
  lemma CoversTail(a: seq<Rng>, x: Addr)
    requires a != [] && Separated(a) && Proper(a)
    ensures Covers(a[1..], x) <==> Covers(a, x) && Rank(x) > Rank(a[0].hi)
  {
    assert a[0] in a && a == [a[0]] + a[1..];
    forall r | r in a[1..] ensures Rank(r.lo) > Rank(a[0].hi) && r in a {
      var i :| 1 <= i < |a| && a[i] == r;
    }
  }

  lemma FirstStart(b: seq<Rng>, x: Addr)
    requires Separated(b) && Covers(b, x)
    ensures b != [] && Leq(b[0].lo, x)
  {
    var r :| r in b && Contains(r, x);
    var i :| 0 <= i < |b| && b[i] == r;
    assert i > 0 ==> Rank(b[0].lo) <= Rank(b[i].lo);
  }

  lemma FirstEnd(a: seq<Rng>, b: seq<Rng>, v4: bool)
    requires a != [] && b != [] && a[0].lo == b[0].lo
    requires ValidAll(a) && Separated(a) && Proper(a) && StartIn(a, v4)
    requires ValidAll(b)
    requires forall x :: Valid(x) ==> (Covers(a, x) <==> Covers(b, x))
    ensures Leq(b[0].hi, a[0].hi)
  {
    assert a[0] in a && b[0] in b;
    if !Leq(b[0].hi, a[0].hi) {
      // the address after a[0].hi, across the gap between the families if need be
      var y := if Next(a[0].hi).Some? then Next(a[0].hi).a else V6(0);
      assert Valid(y) && Contains(b[0], y);
      assert Covers(b, y);
      GapAfterFirst(a, y, v4);
    }
  }

  lemma GapAfterFirst(a: seq<Rng>, y: Addr, v4: bool)
    requires a != [] && ValidAll(a) && Separated(a) && StartIn(a, v4) && a[0].lo.V4? == v4
    requires Valid(y) && Leq(a[0].lo, a[0].hi)
    requires Next(a[0].hi) == Some(y) || (Next(a[0].hi) == None && a[0].hi.V4? && y == V6(0))
    ensures !Covers(a, y)
  {
    forall r | r in a ensures !Contains(r, y) {
      var i :| 0 <= i < |a| && a[i] == r;
      assert a[0] in a && Valid(r.lo) && r.lo.V4? == v4;
      NextIsSuccessor(a[0].hi, y);
      if i > 0 { assert Rank(a[0].hi) + 1 < Rank(a[i].lo); }
    }
  }

  // Any two files naming the same addresses, in any order, give the same boundaries
  // (ranges that hold no address aside).
  lemma OrderOfLinesIsIrrelevant(l1: seq<Line>, i1: Index, l2: seq<Line>, i2: Index, v4: bool)
    requires ValidLines(l1) && Built(i1, l1) && ValidLines(l2) && Built(i2, l2)
    requires forall x :: Valid(x) ==> (Covers(Parsed(l1, v4), x) <==> Covers(Parsed(l2, v4), x))
    ensures SameBounds(InOrder(if v4 then i1.v4 else i1.v6), InOrder(if v4 then i2.v4 else i2.v6))
  {
    var a, b := if v4 then i1.v4 else i1.v6, if v4 then i2.v4 else i2.v6;
    OutputFamily(a, Parsed(l1, v4), v4);
    OutputFamily(b, Parsed(l2, v4), v4);
    forall x | Valid(x) ensures Covers(InOrder(a), x) <==> Covers(InOrder(b), x) {
      InOrderCovers(a, x);
      InOrderCovers(b, x);
      assert Covers(a, x) <==> Covers(Parsed(l1, v4), x);
      assert Covers(b, x) <==> Covers(Parsed(l2, v4), x);
    }
    CanonicalForm(InOrder(a), InOrder(b), v4);
  }

  lemma OutputFamily(out: seq<Rng>, rs: seq<Rng>, v4: bool)
    requires Normal(out, rs) && Ranked(rs) && StartIn(rs, v4)
    ensures StartIn(InOrder(out), v4) && Separated(InOrder(out)) && ValidAll(InOrder(out))
  {
    InOrderSeparated(out);
    forall r | r in InOrder(out) ensures r.lo.V4? == v4 {
      assert LabelOfLeast(r, InOrder(rs));
      var p :| Least(p, r, InOrder(rs));
    }
  }
}

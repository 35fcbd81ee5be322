/**
 The IP range index: ranges are sorted and merged once, then looked up by binary
 search.  The text of a line (trimming, net/netip parsing) is already read: a Line is
 what those calls answered.
 */
module IpIndex {
  import opened IpAddr
  import opened Cidr

  datatype Rng = Rng(lo: Addr, hi: Addr, tag: string)

  datatype Index = Index(v4: seq<Rng>, v6: seq<Rng>)

  datatype Line =
    | Blank
    | Label(text: string)                 // # text
    | Prefix(net: seq<bv8>, bits: nat)    // address/bits
    | Dash(a: Addr, b: Addr)              // a-b
    | Single(a: Addr)
    | Malformed

  predicate ValidLine(l: Line) {
    match l
    case Prefix(net, bits) => (|net| == 4 || |net| == 16) && bits <= 8 * |net|
    case Dash(a, b) => Valid(a) && Valid(b)
    case Single(a) => Valid(a)
    case _ => true
  }

  // ----- parseRange -----

  function AddrOf(bits: Bits): (a: Addr)
    requires |bits| == 32 || |bits| == 128
    ensures Valid(a)
  {
    ValueBound(bits, Pow2(|bits|), |bits|);
    Pow2Sizes();
    if |bits| == 32 then V4(Value(bits)) else V6(Value(bits))
  }

  datatype Range = NoRange | Range(lo: Addr, hi: Addr)

  function RangeOf(l: Line): (r: Range)
    requires ValidLine(l)
    ensures r.Range? ==> Valid(r.lo) && Valid(r.hi)
  {
    match l
    case Prefix(net, bits) =>
      Range(Unmap(AddrOf(Fill(BitsOf(net), bits, false))), Unmap(AddrOf(Fill(BitsOf(net), bits, true))))
    case Dash(a, b) =>
      var a, b := Unmap(a), Unmap(b);
      if Rank(a) > Rank(b) then Range(b, a) else Range(a, b)
    case Single(a) => Range(Unmap(a), Unmap(a))
    case _ => NoRange
  }

  // ----- what a list of ranges says -----

  predicate Contains(r: Rng, x: Addr) { Leq(r.lo, x) && Leq(x, r.hi) }

  ghost predicate Covers(rs: seq<Rng>, x: Addr) { exists r :: r in rs && Contains(r, x) }

  predicate LexLeq(a: Rng, b: Rng) {
    Rank(a.lo) < Rank(b.lo) || (Rank(a.lo) == Rank(b.lo) && Rank(a.hi) <= Rank(b.hi))
  }

  predicate Sorted(rs: seq<Rng>) {
    forall i, j :: 0 <= i < j < |rs| ==> LexLeq(rs[i], rs[j])
  }

  predicate ValidAll(rs: seq<Rng>) {
    forall r :: r in rs ==> Valid(r.lo) && Valid(r.hi)
  }

  // Overlapping or adjacent.
  predicate Touch(a: Rng, b: Rng) {
    Rank(a.lo) <= Rank(b.hi) + 1 && Rank(b.lo) <= Rank(a.hi) + 1
  }

  predicate Inside(q: Rng, r: Rng) { Leq(r.lo, q.lo) && Leq(q.hi, r.hi) }

  predicate Proper(rs: seq<Rng>) { forall r :: r in rs ==> Leq(r.lo, r.hi) }

  predicate TouchingShareLabels(rs: seq<Rng>) {
    forall p, q :: p in rs && q in rs && Touch(p, q) ==> p.tag == q.tag
  }

  // Neighbours leave a gap of at least one address.
  predicate Separated(rs: seq<Rng>) {
    forall i, j :: 0 <= i < j < |rs| ==> Rank(rs[i].lo) <= Rank(rs[j].lo) && Rank(rs[i].hi) + 1 < Rank(rs[j].lo)
  }

  // p starts r, gave r its label, and is least among the ranges of rs inside r.
  predicate Least(p: Rng, r: Rng, rs: seq<Rng>) {
    && p in rs && Inside(p, r) && p.lo == r.lo && p.tag == r.tag
    && forall q :: q in rs && Inside(q, r) ==> LexLeq(p, q)
  }

  ghost predicate LabelOfLeast(r: Rng, rs: seq<Rng>) { exists p :: Least(p, r, rs) }

  ghost predicate HasHome(q: Rng, out: seq<Rng>) { exists r :: r in out && Inside(q, r) }

  // Every input ends up inside some output ...
  ghost predicate Homes(s: seq<Rng>, m: seq<Rng>) { forall q {:trigger HasHome(q, m)} :: q in s ==> HasHome(q, m) }

  // ... and every output carries the label of the least input inside it.
  ghost predicate Labelled(m: seq<Rng>, s: seq<Rng>) {
    forall r {:trigger LabelOfLeast(r, s)} :: r in m ==> LabelOfLeast(r, s)
  }

  // Every input inside an output has its label.
  ghost predicate AllShare(s: seq<Rng>, m: seq<Rng>) {
    forall q, r :: q in s && r in m && Inside(q, r) ==> q.tag == r.tag
  }

  // A line can name ends out of order only across the families: a prefix that starts
  // below the mapped addresses and ends among them.
  predicate Ranked(rs: seq<Rng>) { forall r :: r in rs ==> Leq(r.lo, r.hi) || (r.lo.V6? && r.hi.V4?) }

  // The ranges that hold an address at all.
  function InOrder(rs: seq<Rng>): (ks: seq<Rng>)
    ensures Proper(ks) && forall r :: r in ks <==> r in rs && Leq(r.lo, r.hi)
  {
    if rs == [] then [] else
      var n := |rs| - 1;
      assert rs == rs[..n] + [rs[n]];
      if Leq(rs[n].lo, rs[n].hi) then InOrder(rs[..n]) + [rs[n]] else InOrder(rs[..n])
  }

  // What normalize promises about its output.
  ghost predicate Normal(out: seq<Rng>, rs: seq<Rng>) {
    && ValidAll(out) && Separated(out)
    && (forall x :: Valid(x) ==> (Covers(out, x) <==> Covers(rs, x)))
    && (Ranked(rs) ==>
          && Labelled(InOrder(out), InOrder(rs))
          && Homes(InOrder(rs), InOrder(out))
          && (TouchingShareLabels(InOrder(rs)) ==> AllShare(InOrder(rs), InOrder(out))))
  }

  // ----- the merge of a sorted list -----

  function MergeInto(out: seq<Rng>, r: Rng): seq<Rng> {
    if out == [] then [r] else
      var n := |out| - 1;
      if Rank(r.lo) <= Rank(out[n].hi) + 1
      then out[..n] + [if Rank(r.hi) > Rank(out[n].hi) then out[n].(hi := r.hi) else out[n]]
      else out + [r]
  }

  function Merge(s: seq<Rng>): seq<Rng> {
    if s == [] then [] else MergeInto(Merge(s[..|s| - 1]), s[|s| - 1])
  }

  lemma MergeIntoSeparated(out: seq<Rng>, r: Rng)
    requires Separated(out) && ValidAll(out) && Valid(r.lo) && Valid(r.hi)
    requires out != [] ==> Leq(out[|out| - 1].lo, r.lo)
    ensures var m := MergeInto(out, r);
      Separated(m) && ValidAll(m) && m != [] && Leq(m[|m| - 1].lo, r.lo)
  {
    var m := MergeInto(out, r);
    if out != [] {
      var n := |out| - 1;
      assert out[n] in out;
      if Rank(r.lo) <= Rank(out[n].hi) + 1 {
        assert forall i :: 0 <= i < n ==> m[i] == out[i];
        assert m[n].lo == out[n].lo;
      }
      forall q | q in m ensures Valid(q.lo) && Valid(q.hi) {
        assert q in out[..n] ==> q in out;
      }
    }
  }

  lemma {:induction false} MergeSeparated(s: seq<Rng>)
    requires Sorted(s) && ValidAll(s)
    ensures Separated(Merge(s)) && ValidAll(Merge(s))
    ensures s != [] ==> Merge(s) != [] && Leq(Merge(s)[|Merge(s)| - 1].lo, s[|s| - 1].lo)
  {
    if s != [] {
      var n := |s| - 1;
      MergeSeparated(s[..n]);
      if n > 0 { assert LexLeq(s[n - 1], s[n]); }
      assert s[n] in s;
      MergeIntoSeparated(Merge(s[..n]), s[n]);
    }
  }

  lemma {:induction false} MergeCovers(s: seq<Rng>, x: Addr)
    requires Sorted(s) && ValidAll(s) && Valid(x)
    ensures Covers(Merge(s), x) <==> Covers(s, x)
  {
    if s != [] {
      var n := |s| - 1;
      MergeCovers(s[..n], x);
      MergeSeparated(s[..n]);
      if n > 0 { assert LexLeq(s[n - 1], s[n]); }
      CoversSplit(s[..n], s[n], x);
      MergeIntoCovers(Merge(s[..n]), s[n], x);
      assert s == s[..n] + [s[n]];
    }
  }

  lemma CoversSplit(a: seq<Rng>, r: Rng, x: Addr)
    ensures Covers(a + [r], x) <==> Covers(a, x) || Contains(r, x)
  {
    if Covers(a, x) { var q :| q in a && Contains(q, x); assert q in a + [r]; }
    assert r in a + [r];
  }

  lemma MergeIntoCovers(out: seq<Rng>, r: Rng, x: Addr)
    requires out != [] ==> Leq(out[|out| - 1].lo, r.lo)
    requires Valid(x) && Valid(r.lo) && forall q :: q in out ==> Valid(q.hi)
    ensures Covers(MergeInto(out, r), x) <==> Covers(out, x) || Contains(r, x)
  {
    if out == [] {
      CoversSplit([], r, x);
    } else {
      var n := |out| - 1;
      assert out == out[..n] + [out[n]];
      CoversSplit(out[..n], out[n], x);
      CoversSplit(out[..n], if Rank(r.hi) > Rank(out[n].hi) then out[n].(hi := r.hi) else out[n], x);
      CoversSplit(out, r, x);
    }
  }

  // ----- labels -----

  // x comes after everything in s, in the order of the sort.
  predicate Later(s: seq<Rng>, x: Rng) { Leq(x.lo, x.hi) && forall q :: q in s ==> LexLeq(q, x) }

  // The invariant of the merge: s was merged into m.
  ghost predicate Merged(s: seq<Rng>, m: seq<Rng>) {
    && Separated(m) && Proper(m)
    && Homes(s, m) && Labelled(m, s)
  }

  // x joins s without coming inside r, or after everything inside it.
  lemma KeepLeast(s: seq<Rng>, x: Rng, r: Rng, r': Rng)
    requires LabelOfLeast(r, s) && r'.lo == r.lo && r'.tag == r.tag && Leq(r.hi, r'.hi)
    requires forall q :: q in s && Inside(q, r') ==> Inside(q, r)
    requires Inside(x, r') ==> forall q :: q in s ==> LexLeq(q, x)
    ensures LabelOfLeast(r', s + [x])
  {
    var p :| Least(p, r, s);
    assert Least(p, r', s + [x]);
  }

  lemma HomeOf(s: seq<Rng>, m: seq<Rng>, q: Rng) returns (r: Rng)
    requires Homes(s, m) && q in s
    ensures r in m && Inside(q, r)
  {
    assert HasHome(q, m);
    r :| r in m && Inside(q, r);
  }

  lemma AppendLabel(s: seq<Rng>, m: seq<Rng>, x: Rng, r: Rng)
    requires Merged(s, m) && Proper(s) && Leq(x.lo, x.hi)
    requires forall r :: r in m ==> Rank(r.hi) + 1 < Rank(x.lo)
    requires r in m + [x]
    ensures LabelOfLeast(r, s + [x])
  {
    if r in m {
      KeepLeast(s, x, r, r);
    } else {
      forall q | q in s ensures !Inside(q, x) {
        var t := HomeOf(s, m, q);
      }
      assert Least(x, x, s + [x]);
    }
  }

  lemma AppendMerged(s: seq<Rng>, m: seq<Rng>, x: Rng)
    requires Merged(s, m) && Proper(s) && Leq(x.lo, x.hi)
    requires forall r :: r in m ==> Rank(r.hi) + 1 < Rank(x.lo)
    requires Separated(m + [x])
    ensures Merged(s + [x], m + [x])
  {
    forall r | r in m + [x] ensures LabelOfLeast(r, s + [x]) { AppendLabel(s, m, x, r); }
    AppendHomes(s, m, x);
  }

  lemma AppendHomes(s: seq<Rng>, m: seq<Rng>, x: Rng)
    requires Homes(s, m)
    ensures Homes(s + [x], m + [x])
  {
    forall q | q in s + [x] ensures HasHome(q, m + [x]) {
      var r := x;
      if q in s { r := HomeOf(s, m, q); }
      assert r in m + [x] && Inside(q, r);
    }
  }

  lemma LastApart(init: seq<Rng>, r: Rng, t: Rng)
    requires Separated(init + [r]) && t in init
    ensures Rank(t.hi) + 1 < Rank(r.lo)
  {
    var i :| 0 <= i < |init| && init[i] == t;
    assert (init + [r])[i] == t && (init + [r])[|init|] == r;
  }

  // x extends the last output r to r'.
  predicate Extends(s: seq<Rng>, r: Rng, x: Rng, r': Rng) {
    && Leq(x.lo, x.hi) && (forall q :: q in s ==> LexLeq(q, x))
    && r' == r.(hi := r'.hi) && Inside(x, r') && Leq(r.hi, r'.hi)
  }

  lemma InsideLast(s: seq<Rng>, init: seq<Rng>, r: Rng, q: Rng)
    requires Homes(s, init + [r]) && Separated(init + [r]) && Leq(q.lo, q.hi) && q in s && Leq(r.lo, q.lo)
    ensures Inside(q, r)
  {
    var u := HomeOf(s, init + [r], q);
    if u in init { LastApart(init, r, u); }
  }

  lemma ExtendLast(s: seq<Rng>, init: seq<Rng>, r: Rng, x: Rng, r': Rng)
    requires Merged(s, init + [r]) && Proper(s) && Extends(s, r, x, r')
    ensures LabelOfLeast(r', s + [x])
  {
    forall q | q in s && Inside(q, r') ensures Inside(q, r) { InsideLast(s, init, r, q); }
    assert r in init + [r];
    KeepLeast(s, x, r, r');
  }

  lemma ExtendOther(s: seq<Rng>, init: seq<Rng>, r: Rng, x: Rng, r': Rng, t: Rng)
    requires Merged(s, init + [r]) && Proper(s) && Extends(s, r, x, r') && t in init
    ensures LabelOfLeast(t, s + [x])
  {
    LastApart(init, r, t);
    assert t in init + [r];
    KeepLeast(s, x, t, t);
  }

  lemma ExtendMerged(s: seq<Rng>, init: seq<Rng>, r: Rng, x: Rng, r': Rng)
    requires Merged(s, init + [r]) && Proper(s) && Extends(s, r, x, r')
    requires Separated(init + [r'])
    ensures Merged(s + [x], init + [r'])
  {
    assert r in init + [r];
    forall t | t in init + [r'] ensures LabelOfLeast(t, s + [x]) && Leq(t.lo, t.hi) {
      if t == r' { ExtendLast(s, init, r, x, r'); } else { ExtendOther(s, init, r, x, r', t); assert t in init + [r]; }
    }
    ExtendHomes(s, init, r, x, r');
  }

  lemma ExtendHomes(s: seq<Rng>, init: seq<Rng>, r: Rng, x: Rng, r': Rng)
    requires Homes(s, init + [r]) && Extends(s, r, x, r')
    ensures Homes(s + [x], init + [r'])
  {
    forall q | q in s + [x] ensures HasHome(q, init + [r']) {
      var u := r';
      if q in s { u := HomeOf(s, init + [r], q); }
      if u !in init { u := r'; }
      assert u in init + [r'] && Inside(q, u);
    }
  }

  lemma AllBelow(init: seq<Rng>, r: Rng, x: Rng)
    requires Separated(init + [r]) && Leq(r.lo, r.hi) && Rank(r.hi) + 1 < Rank(x.lo)
    ensures forall t :: t in init + [r] ==> Rank(t.hi) + 1 < Rank(x.lo)
  {
    forall t | t in init + [r] ensures Rank(t.hi) + 1 < Rank(x.lo) {
      if t in init { LastApart(init, r, t); }
    }
  }

  lemma MergeIntoMerged(s: seq<Rng>, init: seq<Rng>, r: Rng, x: Rng)
    requires Merged(s, init + [r]) && Proper(s) && Later(s, x) && Leq(r.lo, x.lo) && Leq(r.lo, r.hi)
    requires Separated(MergeInto(init + [r], x))
    ensures Merged(s + [x], MergeInto(init + [r], x))
  {
    var m := init + [r];
    assert m[..|m| - 1] == init && m[|m| - 1] == r;
    if Rank(x.lo) <= Rank(r.hi) + 1 {
      ExtendMerged(s, init, r, x, if Rank(x.hi) > Rank(r.hi) then r.(hi := x.hi) else r);
    } else {
      AllBelow(init, r, x);
      AppendMerged(s, m, x);
    }
  }

  lemma MergeOneMerged(s: seq<Rng>, m: seq<Rng>, x: Rng)
    requires Merged(s, m) && Proper(s) && Later(s, x) && Separated(MergeInto(m, x))
    requires m != [] ==> Leq(m[|m| - 1].lo, x.lo) && Leq(m[|m| - 1].lo, m[|m| - 1].hi)
    ensures Merged(s + [x], MergeInto(m, x))
  {
    if m == [] {
      assert m + [x] == [x];
      AppendMerged(s, m, x);
    } else {
      assert m == m[..|m| - 1] + [m[|m| - 1]];
      MergeIntoMerged(s, m[..|m| - 1], m[|m| - 1], x);
    }
  }

  lemma PrefixOf(s: seq<Rng>, n: nat)
    requires Sorted(s) && ValidAll(s) && Proper(s) && |s| == n + 1
    ensures Sorted(s[..n]) && ValidAll(s[..n]) && Proper(s[..n]) && s == s[..n] + [s[n]] && Later(s[..n], s[n])
  {
    assert s[n] in s;
  }

  lemma LastOutput(s: seq<Rng>, n: nat)
    requires Sorted(s) && ValidAll(s) && |s| == n + 1
    ensures var m := Merge(s[..n]); m != [] ==> Leq(m[|m| - 1].lo, s[n].lo)
  {
    if n == 0 {
      assert Merge(s[..n]) == [];
    } else {
      MergeSeparated(s[..n]);
      LastBefore(s, n);
    }
  }

  lemma LastBefore(s: seq<Rng>, n: nat)
    requires Sorted(s) && |s| == n + 1 && n > 0
    ensures |s[..n]| == n && s[..n][n - 1] == s[n - 1] && Leq(s[n - 1].lo, s[n].lo)
  {
    assert LexLeq(s[n - 1], s[n]);
  }

  lemma ProperLast(m: seq<Rng>)
    requires Proper(m)
    ensures m != [] ==> Leq(m[|m| - 1].lo, m[|m| - 1].hi)
  {
    if m != [] { assert m[|m| - 1] in m; }
  }

  lemma {:induction false} MergeMerged(s: seq<Rng>)
    requires Sorted(s) && ValidAll(s) && Proper(s)
    ensures Merged(s, Merge(s))
  {
    if s != [] {
      var n := |s| - 1;
      PrefixOf(s, n);
      MergeMerged(s[..n]);
      MergedNext(s[..n], s[n]);
    }
  }

  lemma MergedNext(s: seq<Rng>, x: Rng)
    requires Sorted(s + [x]) && ValidAll(s + [x]) && Proper(s) && Later(s, x) && Merged(s, Merge(s))
    ensures Merged(s + [x], Merge(s + [x]))
  {
    MergeNext(s, x);
    ProperLast(Merge(s));
    MergeOneMerged(s, Merge(s), x);
  }

  lemma MergeNext(s: seq<Rng>, x: Rng)
    requires Sorted(s + [x]) && ValidAll(s + [x])
    ensures Merge(s + [x]) == MergeInto(Merge(s), x) && Separated(Merge(s + [x]))
    ensures var m := Merge(s); m != [] ==> Leq(m[|m| - 1].lo, x.lo)
  {
    assert (s + [x])[..|s|] == s && (s + [x])[|s|] == x;
    MergeSeparated(s + [x]);
    LastOutput(s + [x], |s|);
  }

  // ----- touching ranges that share labels -----

  // The last output ends where some input inside it ends.
  ghost predicate EndsAt(s: seq<Rng>, r: Rng) {
    exists q :: q in s && q.hi == r.hi && Inside(q, r)
  }

  lemma ExtendShares(s: seq<Rng>, init: seq<Rng>, r: Rng, x: Rng, r': Rng, e: Rng)
    requires Homes(s, init + [r]) && Separated(init + [r]) && AllShare(s, init + [r])
      && Proper(s) && Extends(s, r, x, r')
    requires e in s && e.hi == r.hi && Inside(e, r) && Touch(e, x) && e.tag == x.tag && Leq(r.lo, x.lo)
    ensures AllShare(s + [x], init + [r'])
  {
    assert r in init + [r];
    forall q, t | q in s + [x] && t in init + [r'] && Inside(q, t) ensures q.tag == t.tag {
      if t in init {
        assert t in init + [r];
        LastApart(init, r, t);
      } else if q in s {
        InsideLast(s, init, r, q);
      }
    }
  }

  lemma AppendShares(s: seq<Rng>, m: seq<Rng>, x: Rng)
    requires Homes(s, m) && Separated(m) && AllShare(s, m) && Proper(s) && Leq(x.lo, x.hi)
    requires forall r :: r in m ==> Rank(r.hi) + 1 < Rank(x.lo)
    ensures AllShare(s + [x], m + [x])
  {
    forall q, t | q in s + [x] && t in m + [x] && Inside(q, t) ensures q.tag == t.tag {
      if q in s && t == x { var u := HomeOf(s, m, q); }
    }
  }

  lemma EndsNow(s: seq<Rng>, x: Rng, e: Rng, r: Rng)
    requires (e in s || e == x) && e.hi == r.hi && Inside(e, r)
    ensures EndsAt(s + [x], r)
  {
    assert e in s + [x];
  }

  lemma SharesExtended(s: seq<Rng>, init: seq<Rng>, r: Rng, x: Rng)
    requires Homes(s, init + [r]) && Separated(init + [r]) && AllShare(s, init + [r]) && Proper(s)
    requires Later(s, x) && EndsAt(s, r) && TouchingShareLabels(s + [x])
    requires Leq(r.lo, x.lo) && Rank(x.lo) <= Rank(r.hi) + 1
    ensures var r' := if Rank(x.hi) > Rank(r.hi) then r.(hi := x.hi) else r;
      AllShare(s + [x], init + [r']) && EndsAt(s + [x], r')
  {
    var e :| e in s && e.hi == r.hi && Inside(e, r);
    var r' := if Rank(x.hi) > Rank(r.hi) then r.(hi := x.hi) else r;
    assert Touch(e, x) && e in s + [x] && x in s + [x];
    ExtendShares(s, init, r, x, r', e);
    EndsNow(s, x, if r' == r then e else x, r');
  }

  lemma MergeIntoShares(s: seq<Rng>, init: seq<Rng>, r: Rng, x: Rng)
    requires Homes(s, init + [r]) && Separated(init + [r]) && AllShare(s, init + [r]) && Proper(s)
    requires Later(s, x) && EndsAt(s, r) && Leq(r.lo, x.lo) && Leq(r.lo, r.hi)
    requires TouchingShareLabels(s + [x])
    ensures var m := MergeInto(init + [r], x); AllShare(s + [x], m) && EndsAt(s + [x], m[|m| - 1])
  {
    var m := init + [r];
    assert m[..|m| - 1] == init && m[|m| - 1] == r;
    if Rank(x.lo) <= Rank(r.hi) + 1 {
      SharesExtended(s, init, r, x);
    } else {
      AllBelow(init, r, x);
      AppendShares(s, m, x);
      EndsNow(s, x, x, x);
    }
  }

  lemma MergeOneShares(s: seq<Rng>, m: seq<Rng>, x: Rng)
    requires Homes(s, m) && Separated(m) && AllShare(s, m) && Proper(s) && Later(s, x)
    requires m != [] ==> var r := m[|m| - 1]; EndsAt(s, r) && Leq(r.lo, x.lo) && Leq(r.lo, r.hi)
    requires TouchingShareLabels(s + [x])
    ensures var m' := MergeInto(m, x); AllShare(s + [x], m') && EndsAt(s + [x], m'[|m'| - 1])
  {
    if m == [] {
      assert m + [x] == [x];
      AppendShares(s, m, x);
      EndsNow(s, x, x, x);
    } else {
      assert m == m[..|m| - 1] + [m[|m| - 1]];
      MergeIntoShares(s, m[..|m| - 1], m[|m| - 1], x);
    }
  }

  lemma MergeProper(s: seq<Rng>)
    requires Sorted(s) && ValidAll(s) && Proper(s)
    ensures Proper(Merge(s))
  {
    MergeMerged(s);
  }

  lemma MergeHomes(s: seq<Rng>)
    requires Sorted(s) && ValidAll(s) && Proper(s)
    ensures Homes(s, Merge(s)) && Separated(Merge(s))
  {
    MergeMerged(s);
  }

  // What the next step needs to know of the merge so far.
  lemma MergeSoFar(s: seq<Rng>, n: nat)
    requires Sorted(s) && ValidAll(s) && Proper(s) && |s| == n + 1
    ensures var m := Merge(s[..n]);
      && Homes(s[..n], m) && Separated(m)
      && (m != [] ==> Leq(m[|m| - 1].lo, s[n].lo) && Leq(m[|m| - 1].lo, m[|m| - 1].hi))
  {
    PrefixOf(s, n);
    LastOutput(s, n);
    MergeHomes(s[..n]);
    MergeProper(s[..n]);
    ProperLast(Merge(s[..n]));
  }

  lemma {:induction false} MergeShares(s: seq<Rng>)
    requires Sorted(s) && ValidAll(s) && Proper(s) && TouchingShareLabels(s)
    ensures AllShare(s, Merge(s))
    ensures s != [] ==> Merge(s) != [] && EndsAt(s, Merge(s)[|Merge(s)| - 1])
  {
    if s != [] {
      var n := |s| - 1;
      PrefixOf(s, n);
      MergeSoFar(s, n);
      MergeShares(s[..n]);
      MergeOneShares(s[..n], Merge(s[..n]), s[n]);
    }
  }

  // ----- ranges that hold no address change nothing -----

  lemma {:induction false} InOrderSorted(s: seq<Rng>)
    requires Sorted(s)
    ensures Sorted(InOrder(s))
  {
    if s != [] {
      var n := |s| - 1;
      InOrderSorted(s[..n]);
      forall q | q in InOrder(s[..n]) ensures LexLeq(q, s[n]) {
        var i :| 0 <= i < n && s[i] == q;
      }
      SortedAppend(InOrder(s[..n]), s[n]);
    }
  }

  lemma SortedAppend(s: seq<Rng>, x: Rng)
    requires Sorted(s) && forall q :: q in s ==> LexLeq(q, x)
    ensures Sorted(s + [x])
  {
  }

  lemma {:induction false} InOrderSeparated(m: seq<Rng>)
    requires Separated(m)
    ensures Separated(InOrder(m))
  {
    if m != [] {
      var n := |m| - 1;
      InOrderSeparated(m[..n]);
      forall q | q in InOrder(m[..n]) ensures Rank(q.lo) <= Rank(m[n].lo) && Rank(q.hi) + 1 < Rank(m[n].lo) {
        var i :| 0 <= i < n && m[i] == q;
      }
    }
  }

  lemma InOrderAppend(m: seq<Rng>, x: Rng)
    ensures InOrder(m + [x]) == if Leq(x.lo, x.hi) then InOrder(m) + [x] else InOrder(m)
  {
    assert (m + [x])[..|m|] == m;
  }

  // x joins the output m, and its ranges in order, alike.
  ghost predicate JoinsAlike(m: seq<Rng>, x: Rng) {
    && Ranked(MergeInto(m, x))
    && InOrder(MergeInto(m, x)) == if Leq(x.lo, x.hi) then MergeInto(InOrder(m), x) else InOrder(m)
  }

  lemma MergeIntoLastOf(init: seq<Rng>, r: Rng, x: Rng)
    ensures MergeInto(init + [r], x) ==
      if Rank(x.lo) <= Rank(r.hi) + 1
      then init + [if Rank(x.hi) > Rank(r.hi) then r.(hi := x.hi) else r]
      else init + [r] + [x]
  {
    assert (init + [r])[..|init|] == init;
  }

  // The last output is in order: x extends it, or comes after it, in both lists.
  lemma JoinsProper(init: seq<Rng>, r: Rng, x: Rng)
    requires Ranked(init + [r]) && Ranked([x]) && Leq(r.lo, r.hi) && Leq(r.lo, x.lo)
    requires Valid(r.lo) && Valid(r.hi) && Valid(x.lo) && Valid(x.hi)
    ensures JoinsAlike(init + [r], x)
  {
    assert x in [x] && r in init + [r];
    MergeIntoLastOf(init, r, x);
    MergeIntoLastOf(InOrder(init), r, x);
    InOrderAppend(init, r);
    InOrderAppend(init, r.(hi := x.hi));
    InOrderAppend(init + [r], x);
    forall q | q in init ensures q in init + [r] {}
  }

  // The last output is out of order: x comes after it, hence after all before it.
  lemma JoinsOdd(init: seq<Rng>, r: Rng, x: Rng)
    requires Ranked(init + [r]) && Ranked([x]) && !Leq(r.lo, r.hi) && Leq(r.lo, x.lo)
    requires Separated(init + [r])
    requires Valid(r.lo) && Valid(r.hi) && Valid(x.lo) && Valid(x.hi)
    ensures JoinsAlike(init + [r], x)
  {
    assert x in [x] && r in init + [r];
    assert r.lo.V6? && r.hi.V4?;
    MergeIntoLastOf(init, r, x);
    InOrderAppend(init, r);
    InOrderAppend(init + [r], x);
    ComesAfter(init, r, x);
  }

  lemma ComesAfter(init: seq<Rng>, r: Rng, x: Rng)
    requires Separated(init + [r]) && Leq(r.lo, x.lo)
    ensures MergeInto(InOrder(init), x) == InOrder(init) + [x]
  {
    var ks := InOrder(init);
    if ks != [] {
      assert ks[|ks| - 1] in init;
      LastApart(init, r, ks[|ks| - 1]);
    }
  }

  lemma Joins(m: seq<Rng>, x: Rng)
    requires Separated(m) && ValidAll(m) && Ranked(m) && Ranked([x]) && Valid(x.lo) && Valid(x.hi)
    requires m != [] ==> Leq(m[|m| - 1].lo, x.lo)
    ensures JoinsAlike(m, x)
  {
    if m == [] {
      InOrderAppend([], x);
      assert [] + [x] == [x];
    } else {
      var n := |m| - 1;
      assert m == m[..n] + [m[n]] && m[n] in m;
      if Leq(m[n].lo, m[n].hi) { JoinsProper(m[..n], m[n], x); } else { JoinsOdd(m[..n], m[n], x); }
    }
  }

  // Merging and leaving out the ranges that hold no address commute.
  lemma {:induction false} InOrderMerge(s: seq<Rng>)
    requires Sorted(s) && ValidAll(s) && Ranked(s)
    ensures Ranked(Merge(s)) && InOrder(Merge(s)) == Merge(InOrder(s))
  {
    if s != [] {
      var n := |s| - 1;
      assert s == s[..n] + [s[n]] && s[n] in s;
      InOrderMerge(s[..n]);
      MergeSeparated(s[..n]);
      LastOutput(s, n);
      Joins(Merge(s[..n]), s[n]);
      InOrderNext(s[..n], s[n]);
    }
  }

  lemma InOrderNext(s: seq<Rng>, x: Rng)
    requires InOrder(Merge(s)) == Merge(InOrder(s)) && JoinsAlike(Merge(s), x)
    ensures Ranked(Merge(s + [x])) && InOrder(Merge(s + [x])) == Merge(InOrder(s + [x]))
  {
    assert (s + [x])[..|s|] == s;
    InOrderAppend(s, x);
    var ks := InOrder(s);
    assert (ks + [x])[..|ks|] == ks;
  }
}

/**
 Addresses of net/netip as the IP index uses them: a family and a number, compared
 family first, with Unmap for IPv4-mapped IPv6 (section 2.5.5.2 of RFC 4291).
 */
module IpAddr {

  datatype Addr = V4(n: nat) | V6(n: nat)

  const V4_SIZE := 0x1_0000_0000
  const V6_SIZE := 0x1_0000_0000_0000_0000_0000_0000_0000_0000
  const MAPPED := 0xffff_0000_0000   // ::ffff:0:0, the first mapped address

  predicate Valid(a: Addr) {
    match a case V4(n) => n < V4_SIZE case V6(n) => n < V6_SIZE
  }

  function Unmap(a: Addr): Addr {
    if a.V6? && MAPPED <= a.n < MAPPED + V4_SIZE then V4(a.n - MAPPED) else a
  }

  // The place of a in the order of netip.Addr.Compare.  One number is left unused
  // between the families: the last V4 address has no successor.
  function Rank(a: Addr): int {
    if a.V4? then a.n else V4_SIZE + 1 + a.n
  }

  predicate Leq(a: Addr, b: Addr) { Rank(a) <= Rank(b) }

  datatype Successor = None | Some(a: Addr)

  // netip.Addr.Next: invalid past the last address of the family.
  function Next(a: Addr): Successor {
    match a
    case V4(n) => if n + 1 < V4_SIZE then Some(V4(n + 1)) else None
    case V6(n) => if n + 1 < V6_SIZE then Some(V6(n + 1)) else None
  }

  lemma RankInjective(a: Addr, b: Addr)
    requires Valid(a) && Valid(b) && Rank(a) == Rank(b)
    ensures a == b
  {
  }

  // Next is the valid address one rank up, if there is one.
  lemma NextIsSuccessor(a: Addr, b: Addr)
    requires Valid(a) && Valid(b)
    ensures Next(a) == Some(b) <==> Rank(b) == Rank(a) + 1
  {
  }
}

/** CIDR prefixes bit by bit (section 3.1 of RFC 4632, section 2.3 of RFC 4291). */
module Cidr {
  import opened IpAddr

  type Bits = seq<bool>

  // The bit that 1 << (7 - k) selects.
  function Mask(k: nat): bv8
    requires k < 8
  {
    match k
    case 0 => 0x80 case 1 => 0x40 case 2 => 0x20 case 3 => 0x10
    case 4 => 0x08 case 5 => 0x04 case 6 => 0x02 case 7 => 0x01
  }

  predicate BitOf(b: bv8, k: nat)
    requires k < 8
  {
    b & Mask(k) != 0
  }

  function WithBit(b: bv8, k: nat, v: bool): bv8
    requires k < 8
  {
    if v then b | Mask(k) else b & !Mask(k)
  }

  lemma WithBitAt(b: bv8, k: nat, v: bool, j: nat)
    requires k < 8 && j < 8
    ensures BitOf(WithBit(b, k, v), j) == if j == k then v else BitOf(b, j)
  {
  }

  function BitsOf(b: seq<bv8>): (r: Bits)
    ensures |r| == 8 * |b|
  {
    seq(8 * |b|, i requires 0 <= i < 8 * |b| => BitOf(b[i / 8], i % 8))
  }

  // The number a big-endian bit string denotes.
  function Value(bits: Bits): nat {
    if bits == [] then 0
    else 2 * Value(bits[..|bits| - 1]) + if bits[|bits| - 1] then 1 else 0
  }

  // All host bits set to the given value.
  function Fill(bits: Bits, p: nat, host: bool): (r: Bits)
    requires p <= |bits|
    ensures |r| == |bits|
  {
    bits[..p] + seq(|bits| - p, _ => host)
  }

  lemma ByteAndBit(i: nat, j: nat)
    ensures i / 8 == j / 8 && i % 8 == j % 8 <==> i == j
  {
  }

  lemma BitAfterWrite(b: seq<bv8>, i: nat, v: bool, j: nat)
    requires i < 8 * |b| && j < 8 * |b|
    ensures BitOf(b[i / 8 := WithBit(b[i / 8], i % 8, v)][j / 8], j % 8) == if j == i then v else BitOf(b[j / 8], j % 8)
  {
    ByteAndBit(i, j);
    if i / 8 == j / 8 { WithBitAt(b[i / 8], i % 8, v, j % 8); }
  }

  // Writing one bit of one byte writes one bit of the string.
  lemma WriteBit(b: seq<bv8>, i: nat, v: bool)
    requires i < 8 * |b|
    ensures BitsOf(b[i / 8 := WithBit(b[i / 8], i % 8, v)]) == BitsOf(b)[i := v]
  {
    var c := b[i / 8 := WithBit(b[i / 8], i % 8, v)];
    forall j | 0 <= j < 8 * |b| ensures BitsOf(c)[j] == BitsOf(b)[i := v][j] {
      BitAfterWrite(b, i, v, j);
    }
  }

  // Bits p..i overwritten.
  function FillTo(bits: Bits, p: nat, i: nat, v: bool): Bits
    requires p <= i <= |bits|
  {
    bits[..p] + seq(i - p, _ => v) + bits[i..]
  }

  // c is b with bits p..i overwritten by v.
  predicate Filled(b: seq<bv8>, c: seq<bv8>, p: nat, i: nat, v: bool) {
    p <= i <= 8 * |b| && |c| == |b| && BitsOf(c) == FillTo(BitsOf(b), p, i, v)
  }

  lemma FillNone(b: seq<bv8>, p: nat, v: bool)
    requires p <= 8 * |b|
    ensures Filled(b, b, p, p, v)
  {
  }

  lemma FillOne(b: seq<bv8>, c: seq<bv8>, p: nat, i: nat, v: bool)
    requires Filled(b, c, p, i, v) && i < 8 * |b|
    ensures Filled(b, c[i / 8 := WithBit(c[i / 8], i % 8, v)], p, i + 1, v)
  {
    WriteBit(c, i, v);
    FillToStep(BitsOf(b), p, i, v);
  }

  lemma FillToStep(bits: Bits, p: nat, i: nat, v: bool)
    requires p <= i < |bits|
    ensures FillTo(bits, p, i, v)[i := v] == FillTo(bits, p, i + 1, v)
  {
  }

  lemma FillAll(b: seq<bv8>, c: seq<bv8>, p: nat, v: bool)
    requires Filled(b, c, p, 8 * |b|, v)
    ensures BitsOf(c) == Fill(BitsOf(b), p, v)
  {
    assert FillTo(BitsOf(b), p, 8 * |b|, v) == Fill(BitsOf(b), p, v);
  }

  method SetBit(b: array<bv8>, i: nat, v: bool)
    requires i < 8 * b.Length
    modifies b
    ensures b[..] == old(b[..])[i / 8 := WithBit(old(b[..])[i / 8], i % 8, v)]
  {
    b[i / 8] := WithBit(b[i / 8], i % 8, v);
  }

  // netip.Prefix.Masked: clear every host bit.
  method Masked(b: array<bv8>, p: nat)
    requires p <= 8 * b.Length
    modifies b
    ensures BitsOf(b[..]) == Fill(BitsOf(old(b[..])), p, false)
  {
    FillNone(b[..], p, false);
    var i := p;
    while i < b.Length * 8
      invariant p <= i <= 8 * b.Length
      invariant Filled(old(b[..]), b[..], p, i, false)
    {
      ghost var was := b[..];
      SetBit(b, i, false);
      FillOne(old(b[..]), was, p, i, false);
      i := i + 1;
    }
    FillAll(old(b[..]), b[..], p, false);
  }

  // The loop of lastAddr: set every host bit of the masked address.
  method LastAddr(b: array<bv8>, p: nat)
    requires p <= 8 * b.Length
    modifies b
    ensures BitsOf(b[..]) == Fill(BitsOf(old(b[..])), p, true)
  {
    FillNone(b[..], p, true);
    var i := p;
    while i < b.Length * 8
      invariant p <= i <= 8 * b.Length
      invariant Filled(old(b[..]), b[..], p, i, true)
    {
      ghost var was := b[..];
      SetBit(b, i, true);
      FillOne(old(b[..]), was, p, i, true);
      i := i + 1;
    }
    FillAll(old(b[..]), b[..], p, true);
  }

  // A CIDR's range, filled bit by bit, is exactly its prefix: an address of the same
  // length lies between the two ends iff it agrees with the prefix on the first p bits.
  lemma {:induction false} RangeIsPrefix(net: Bits, p: nat, x: Bits)
    requires p <= |net| && |x| == |net|
    ensures Value(Fill(net, p, false)) <= Value(x) <= Value(Fill(net, p, true)) <==> x[..p] == net[..p]
  {
    var n := |net|;
    if p == n {
      assert Fill(net, p, false) == Fill(net, p, true) == net;
      assert x[..p] == x && net[..p] == net;
      if Value(x) == Value(net) { ValueInjective(x, net); }
    } else {
      var net', x' := net[..n - 1], x[..n - 1];
      RangeIsPrefix(net', p, x');
      assert Fill(net, p, false)[..n - 1] == Fill(net', p, false);
      assert Fill(net, p, true)[..n - 1] == Fill(net', p, true);
      assert x[..p] == x'[..p] && net[..p] == net'[..p];
    }
  }

  lemma {:induction false} ValueInjective(a: Bits, b: Bits)
    requires |a| == |b| && Value(a) == Value(b)
    ensures a == b
  {
    if a != [] {
      var n := |a| - 1;
      ValueInjective(a[..n], b[..n]);
      assert a == a[..n] + [a[n]] && b == b[..n] + [b[n]];
    }
  }

  lemma {:induction false} ValueBound(bits: Bits, size: nat, n: nat)
    requires |bits| == n && size == Pow2(n)
    ensures Value(bits) < size
  {
    if n > 0 { ValueBound(bits[..n - 1], Pow2(n - 1), n - 1); }
  }

  function Pow2(n: nat): nat { if n == 0 then 1 else 2 * Pow2(n - 1) }

  lemma Pow2Byte(n: nat)
    ensures Pow2(n + 8) == 0x100 * Pow2(n)
  {
    assert Pow2(n + 2) == 4 * Pow2(n);
    assert Pow2(n + 4) == 4 * Pow2(n + 2);
    assert Pow2(n + 6) == 4 * Pow2(n + 4);
  }

  lemma Pow2Sizes()
    ensures Pow2(32) == V4_SIZE && Pow2(128) == V6_SIZE
  {
    Pow2Byte(0); Pow2Byte(8); Pow2Byte(16); Pow2Byte(24);
    Pow2Byte(32); Pow2Byte(40); Pow2Byte(48); Pow2Byte(56);
    Pow2Byte(64); Pow2Byte(72); Pow2Byte(80); Pow2Byte(88);
    Pow2Byte(96); Pow2Byte(104); Pow2Byte(112); Pow2Byte(120);
  }

  lemma EndsInOrder(net: Bits, p: nat)
    requires p <= |net|
    ensures Value(Fill(net, p, false)) <= Value(Fill(net, p, true))
  {
    assert Fill(net, p, false)[..p] == net[..p];
    RangeIsPrefix(net, p, Fill(net, p, false));
  }

  // The ends of a prefix with h host addresses: v * h and v * h + h - 1.
  lemma {:induction false} EndsOf(net: Bits, p: nat)
    requires p <= |net|
    ensures var v, h := Value(net[..p]), Pow2(|net| - p);
      Value(Fill(net, p, false)) == v * h && Value(Fill(net, p, true)) == v * h + h - 1
  {
    var n := |net|;
    if p == n {
      assert Fill(net, p, false) == Fill(net, p, true) == net == net[..p];
    } else {
      EndsOf(net[..n - 1], p);
      assert net[..n - 1][..p] == net[..p];
      assert Fill(net, p, false)[..n - 1] == Fill(net[..n - 1], p, false);
      assert Fill(net, p, true)[..n - 1] == Fill(net[..n - 1], p, true);
      Twice(Value(net[..p]), Pow2(n - 1 - p));
    }
  }

  lemma Twice(v: nat, h: nat)
    ensures v * (2 * h) == 2 * (v * h)
  {
  }

  lemma {:induction false} Pow2Split(a: nat, b: nat)
    ensures Pow2(a + b) == Pow2(b) * Pow2(a)
  {
    if a > 0 {
      Pow2Split(a - 1, b);
      Twice(Pow2(b), Pow2(a - 1));
    }
  }

  predicate IsMapped(n: nat) { MAPPED <= n < MAPPED + V4_SIZE }

  // A prefix that starts among the mapped addresses ends among them.
  lemma MappedBlock(net: Bits, p: nat)
    requires |net| == 128 && p <= 128
    ensures IsMapped(Value(Fill(net, p, false))) ==> IsMapped(Value(Fill(net, p, true)))
  {
    EndsOf(net, p);
    Pow2Sizes();
    var v, h := Value(net[..p]), Pow2(128 - p);
    if p >= 96 {
      Pow2Split(p - 96, 128 - p);
      if IsMapped(v * h) { SmallBlock(v, h, Pow2(p - 96)); }
    } else {
      Pow2Split(95 - p, 33);
      LargeBlock(v, h, Pow2(95 - p));
    }
  }

  lemma SmallBlock(v: nat, h: nat, q: nat)
    requires h * q == V4_SIZE && IsMapped(v * h)
    ensures IsMapped(v * h + h - 1)
  {
    Regroup(0x1_0000, q, h);
    NextMultiple(v, 0x1_0000 * q, h);
  }

  lemma NextMultiple(v: nat, b: nat, h: nat)
    requires v * h < b * h
    ensures v * h + h <= b * h
  {
    assert (b - v) * h == b * h - v * h;
    AtLeastOnce(b - v, h);
  }

  lemma AtLeastOnce(d: int, h: nat)
    requires d * h > 0
    ensures d * h >= h
  {
    if d > 0 { assert (d - 1) * h == d * h - h && (d - 1) * h >= 0; }
  }

  lemma Regroup(k: nat, q: nat, h: nat)
    ensures (k * q) * h == k * (h * q)
  {
  }

  lemma LargeBlock(v: nat, h: nat, q: nat)
    requires h == 2 * V4_SIZE * q
    ensures !IsMapped(v * h)
  {
    Regroup(2 * V4_SIZE, v, q);
    NotMappedMultiple(q * v);
  }

  lemma NotMappedMultiple(w: nat)
    ensures !IsMapped(2 * V4_SIZE * w)
  {
  }
}

/** Case-insensitive replacement in the body of a proxied page. */
module ReplaceCI {

  type Byte = n: int | 0 <= n < 256

  predicate IsUpper(c: Byte) { 'A' as int <= c <= 'Z' as int }

  predicate IsLetter(c: Byte) { IsUpper(c) || 'a' as int <= c <= 'z' as int }

  // Two bytes that are the same but for the case of an ASCII letter.
  predicate Same(a: Byte, b: Byte) {
    a == b || (IsLetter(a) && IsLetter(b) && (a == b + 32 || b == a + 32))
  }

  predicate SameText(a: seq<Byte>, b: seq<Byte>) {
    |a| == |b| && forall i :: 0 <= i < |a| ==> Same(a[i], b[i])
  }

  // ----- folding -----

  function Lower(c: Byte): Byte { if IsUpper(c) then c + 32 else c }

  function Fold(s: seq<Byte>): (r: seq<Byte>)
    ensures |r| == |s|
  {
    seq(|s|, i requires 0 <= i < |s| => Lower(s[i]))
  }

  lemma FoldTells(a: seq<Byte>, b: seq<Byte>)
    ensures Fold(a) == Fold(b) <==> SameText(a, b)
  {
    if Fold(a) == Fold(b) {
      forall i | 0 <= i < |a| ensures Same(a[i], b[i]) { assert Fold(a)[i] == Fold(b)[i]; }
    }
  }

  // The copy is made at the first capital, and folded in place from there.
  method AsciiLower(s: seq<Byte>) returns (r: seq<Byte>)
    ensures r == Fold(s)
  {
    var i := 0;
    while i < |s|
      invariant i <= |s| && forall j :: 0 <= j < i ==> !IsUpper(s[j])
    {
      if IsUpper(s[i]) {
        var b := new Byte[|s|](k requires 0 <= k < |s| => s[k]);
        while i < b.Length
          invariant i <= b.Length == |s|
          invariant forall j :: 0 <= j < |s| ==> b[j] == if j < i then Lower(s[j]) else s[j]
        {
          if IsUpper(b[i]) {
            b[i] := b[i] + 32;
          }
          i := i + 1;
        }
        assert b[..] == Fold(s);
        return b[..];
      }
      i := i + 1;
    }
    assert s == Fold(s);
    r := s;
  }

  // ----- the reference -----

  predicate HitAt(s: seq<Byte>, find: seq<Byte>, i: nat) {
    i + |find| <= |s| && forall k :: 0 <= k < |find| ==> Same(s[i + k], find[k])
  }

  // From position i on, left to right: a hit is replaced and passed over whole, any
  // other byte is kept.
  function Replaced(s: seq<Byte>, find: seq<Byte>, repl: seq<Byte>, i: nat := 0): seq<Byte>
    requires find != []
    decreases |s| - i
  {
    if i >= |s| then []
    else if HitAt(s, find, i) then repl + Replaced(s, find, repl, i + |find|)
    else [s[i]] + Replaced(s, find, repl, i + 1)
  }

  lemma Cons(s: seq<Byte>, i: nat, n: nat, t: seq<Byte>)
    requires i < i + n <= |s|
    ensures [s[i]] + (s[i + 1..i + n] + t) == s[i..i + n] + t
  {
  }

  // Bytes at which no hit begins are copied.
  lemma {:induction false} Copied(s: seq<Byte>, find: seq<Byte>, repl: seq<Byte>, i: nat, n: nat)
    requires find != [] && i + n <= |s| && forall j :: i <= j < i + n ==> !HitAt(s, find, j)
    ensures Replaced(s, find, repl, i) == s[i..i + n] + Replaced(s, find, repl, i + n)
    decreases n
  {
    if n == 0 {
      assert s[i..i] == [];
    } else {
      Copied(s, find, repl, i + 1, n - 1);
      Cons(s, i, n, Replaced(s, find, repl, i + n));
    }
  }

  predicate Is(a: Byte, b: Byte) { a == b }

  predicate At(s: seq<Byte>, t: seq<Byte>, i: nat) {
    i + |t| <= |s| && forall k :: 0 <= k < |t| ==> Is(s[i + k], t[k])
  }

  // strings.Index
  function Index(s: seq<Byte>, t: seq<Byte>, from: nat := 0): (i: int)
    requires from <= |s|
    ensures i == -1 || (i >= from && At(s, t, i))
    ensures forall j: nat :: from <= j && (i == -1 || j < i) ==> !At(s, t, j)
    decreases |s| - from
  {
    if At(s, t, from) then from else if from == |s| then -1 else Index(s, t, from + 1)
  }

  lemma FoldedHit(s: seq<Byte>, find: seq<Byte>, j: nat)
    ensures HitAt(s, find, j) <==> At(Fold(s), Fold(find), j)
  {
    if At(Fold(s), Fold(find), j) {
      forall k | 0 <= k < |find| ensures Same(s[j + k], find[k]) { assert Is(Fold(s)[j + k], Fold(find)[k]); }
    }
  }

  // Looking in the rest of the folded page is looking in the page.
  lemma HitInRest(s: seq<Byte>, find: seq<Byte>, pos: nat, j: nat)
    requires pos <= |s|
    ensures HitAt(s, find, pos + j) <==> At(Fold(s[pos..]), Fold(find), j)
  {
    FoldedHit(s[pos..], find, j);
    DropHit(s, find, pos, j);
  }

  lemma DropHit(s: seq<Byte>, find: seq<Byte>, pos: nat, j: nat)
    requires pos <= |s|
    ensures HitAt(s, find, pos + j) <==> HitAt(s[pos..], find, j)
  {
    if HitAt(s[pos..], find, j) {
      forall k | 0 <= k < |find| ensures Same(s[pos + j + k], find[k]) { assert s[pos..][j + k] == s[pos + j + k]; }
    }
  }

  predicate IsAscii(s: seq<Byte>) { forall c :: c in s ==> c < 0x80 }

  lemma NoHitLeft(s: seq<Byte>, find: seq<Byte>, repl: seq<Byte>, pos: nat)
    requires find != [] && pos <= |s| && Index(Fold(s[pos..]), Fold(find)) < 0
    ensures Replaced(s, find, repl, pos) == s[pos..]
  {
    forall j | pos <= j < |s| ensures !HitAt(s, find, j) { HitInRest(s, find, pos, j - pos); }
    Copied(s, find, repl, pos, |s| - pos);
    assert s[pos..|s|] + [] == s[pos..];
  }

  // What one round of the loop adds, and what is left for the next.
  lemma NextHit(s: seq<Byte>, find: seq<Byte>, repl: seq<Byte>, pos: nat, i: nat)
    requires find != [] && pos <= |s| && i == Index(Fold(s[pos..]), Fold(find))
    ensures pos + i + |find| <= |s|
    ensures Replaced(s, find, repl, pos) == s[pos..pos + i] + (repl + Replaced(s, find, repl, pos + i + |find|))
  {
    HitInRest(s, find, pos, i);
    forall j | pos <= j < pos + i ensures !HitAt(s, find, j) { HitInRest(s, find, pos, j - pos); }
    Copied(s, find, repl, pos, i);
  }

  lemma Glue(done: seq<Byte>, a: seq<Byte>, b: seq<Byte>, c: seq<Byte>)
    ensures done + (a + (b + c)) == done + a + b + c
  {
  }

  lemma DropMore(s: seq<Byte>, pos: nat, i: nat, n: nat)
    requires pos + i + n <= |s|
    ensures s[pos..][..i] == s[pos..pos + i] && s[pos..][i + n..] == s[pos + i + n..]
    ensures Fold(s[pos..])[i + n..] == Fold(s[pos + i + n..])
  {
    assert s[pos..][i + n..] == s[pos + i + n..];
  }

  // The loop's invariant: it has r, and s, with its folded copy, is left of the page.
  ghost predicate Pending(body: seq<Byte>, pos: nat, r: seq<Byte>, s: seq<Byte>, ls: seq<Byte>,
                          find: seq<Byte>, repl: seq<Byte>)
    requires find != []
  {
    && pos <= |body| && s == body[pos..] && ls == Fold(s)
    && r + Replaced(body, find, repl, pos) == Replaced(body, find, repl)
  }

  lemma Round(body: seq<Byte>, pos: nat, r: seq<Byte>, s: seq<Byte>, ls: seq<Byte>,
              find: seq<Byte>, repl: seq<Byte>, i: nat)
    requires find != [] && Pending(body, pos, r, s, ls, find, repl) && i == Index(ls, Fold(find))
    ensures i + |find| <= |s| == |ls|
    ensures Pending(body, pos + i + |find|, r + s[..i] + repl, s[i + |find|..], ls[i + |find|..], find, repl)
  {
    NextHit(body, find, repl, pos, i);
    DropMore(body, pos, i, |find|);
    Glue(r, s[..i], repl, Replaced(body, find, repl, pos + i + |find|));
  }

  // unicodeReplace stands for the (?i) expression used when find is not ASCII.
  method Replace(body: seq<Byte>, find: seq<Byte>, repl: seq<Byte>,
                 unicodeReplace: (seq<Byte>, seq<Byte>, seq<Byte>) -> seq<Byte>) returns (r: seq<Byte>)
    ensures find == [] ==> r == body
    ensures find != [] && IsAscii(find) ==> r == Replaced(body, find, repl)
    ensures !IsAscii(find) ==> r == unicodeReplace(body, find, repl)
  {
    if find == [] {
      return body;
    }
    if !IsAscii(find) {
      return unicodeReplace(body, find, repl);
    }
    r := ReplaceAscii(body, find, repl);
  }

  // The path for an ASCII find: the page and its folded copy are cut side by side.
  method ReplaceAscii(body: seq<Byte>, find: seq<Byte>, repl: seq<Byte>) returns (r: seq<Byte>)
    requires find != []
    ensures r == Replaced(body, find, repl)
  {
    var lf := AsciiLower(find);
    var s := body;
    var ls := AsciiLower(s);
    var i := Index(ls, lf);
    ghost var pos: nat := 0;
    assert body[0..] == body;
    if i < 0 {
      NoHitLeft(body, find, repl, 0);
      return body;
    }
    r := [];
    while i >= 0
      invariant lf == Fold(find) && i == Index(ls, lf) && Pending(body, pos, r, s, ls, find, repl)
      decreases |s|
    {
      Round(body, pos, r, s, ls, find, repl, i);
      r := r + s[..i] + repl;
      s, ls := s[i + |find|..], ls[i + |find|..];
      pos := pos + i + |find|;
      i := Index(ls, lf);
    }
    NoHitLeft(body, find, repl, pos);
    r := r + s;
  }

  // ----- what the reference means -----

  // A page cut into the bytes kept and the hits replaced.
  datatype Piece = Kept(byte: Byte) | Hit(text: seq<Byte>)

  function Source(ps: seq<Piece>): seq<Byte> {
    if ps == [] then [] else TextOf(ps[0]) + Source(ps[1..])
  }

  function Target(ps: seq<Piece>, repl: seq<Byte>): seq<Byte> {
    if ps == [] then [] else NewText(ps[0], repl) + Target(ps[1..], repl)
  }

  function NewText(p: Piece, repl: seq<Byte>): seq<Byte> { if p.Kept? then [p.byte] else repl }

  // From position i of s on: hits are the text looked for, and a byte is kept only
  // where no hit begins.
  ghost predicate Cutting(ps: seq<Piece>, s: seq<Byte>, find: seq<Byte>, i: nat) {
    if ps == [] then i == |s| else Fits(ps[0], s, find, i) && Cutting(ps[1..], s, find, i + Width(ps[0]))
  }

  function Width(p: Piece): nat { if p.Hit? then |p.text| else 1 }

  lemma HitText(s: seq<Byte>, find: seq<Byte>, i: nat)
    requires i + |find| <= |s|
    ensures HitAt(s, find, i) <==> SameText(s[i..i + |find|], find)
  {
    if SameText(s[i..i + |find|], find) {
      forall k | 0 <= k < |find| ensures Same(s[i + k], find[k]) { assert Same(s[i..i + |find|][k], find[k]); }
    }
  }

  // There is such a cutting, and the result is its pieces with repl for every hit.
  lemma {:induction false} CuttingExists(s: seq<Byte>, find: seq<Byte>, repl: seq<Byte>, i: nat)
    returns (ps: seq<Piece>)
    requires find != [] && i <= |s|
    ensures Cutting(ps, s, find, i) && Target(ps, repl) == Replaced(s, find, repl, i)
    decreases |s| - i
  {
    if i == |s| {
      ps := [];
    } else {
      var p := NextPiece(s, find, repl, i);
      var rest := CuttingExists(s, find, repl, i + Width(p));
      ps := [p] + rest;
      PieceAhead(p, rest, s, find, repl, i);
    }
  }

  lemma NextPiece(s: seq<Byte>, find: seq<Byte>, repl: seq<Byte>, i: nat) returns (p: Piece)
    requires find != [] && i < |s|
    ensures Fits(p, s, find, i) && Width(p) > 0
    ensures Replaced(s, find, repl, i) == NewText(p, repl) + Replaced(s, find, repl, i + Width(p))
  {
    if HitAt(s, find, i) {
      p := Hit(s[i..i + |find|]);
      HitText(s, find, i);
    } else {
      p := Kept(s[i]);
    }
  }

  lemma PieceAhead(p: Piece, rest: seq<Piece>, s: seq<Byte>, find: seq<Byte>, repl: seq<Byte>, i: nat)
    requires Fits(p, s, find, i) && Cutting(rest, s, find, i + Width(p))
    ensures Cutting([p] + rest, s, find, i) && Target([p] + rest, repl) == NewText(p, repl) + Target(rest, repl)
  {
    assert ([p] + rest)[1..] == rest;
  }

  // There is only one.
  lemma {:induction false} CuttingUnique(ps: seq<Piece>, qs: seq<Piece>, s: seq<Byte>, find: seq<Byte>, i: nat)
    requires find != [] && Cutting(ps, s, find, i) && Cutting(qs, s, find, i)
    ensures ps == qs
  {
    if ps != [] && qs != [] {
      SameHead(ps[0], qs[0], s, find, i);
      CuttingUnique(ps[1..], qs[1..], s, find, i + Width(ps[0]));
      assert ps == [ps[0]] + ps[1..] && qs == [qs[0]] + qs[1..];
    }
  }

  ghost predicate Fits(p: Piece, s: seq<Byte>, find: seq<Byte>, i: nat) {
    && i + Width(p) <= |s|
    && if p.Hit? then p.text == s[i..i + |p.text|] && SameText(p.text, find) else p.byte == s[i] && !HitAt(s, find, i)
  }

  lemma SameHead(p: Piece, q: Piece, s: seq<Byte>, find: seq<Byte>, i: nat)
    requires find != [] && Fits(p, s, find, i) && Fits(q, s, find, i)
    ensures p == q
  {
    if p.Hit? || q.Hit? { HitText(s, find, i); }
  }

  // The pieces, as they were, make up the page.
  lemma {:induction false} CuttingIsPage(ps: seq<Piece>, s: seq<Byte>, find: seq<Byte>, i: nat)
    requires i <= |s| && Cutting(ps, s, find, i)
    ensures Source(ps) == s[i..]
  {
    if ps != [] {
      var n := i + Width(ps[0]);
      CuttingIsPage(ps[1..], s, find, n);
      PieceAt(ps[0], s, find, i);
      Rejoin(s, i, n);
    }
  }

  function TextOf(p: Piece): seq<Byte> { if p.Kept? then [p.byte] else p.text }

  lemma PieceAt(p: Piece, s: seq<Byte>, find: seq<Byte>, i: nat)
    requires Fits(p, s, find, i)
    ensures TextOf(p) == s[i..i + Width(p)]
  {
  }

  lemma Rejoin(s: seq<Byte>, i: nat, n: nat)
    requires i <= n <= |s|
    ensures s[i..n] + s[n..] == s[i..]
  {
  }

  // Looking for the same text in another case gives the same page.
  lemma {:induction false} CaseOfFind(s: seq<Byte>, find: seq<Byte>, find': seq<Byte>, repl: seq<Byte>, i: nat)
    requires find != [] && SameText(find, find')
    ensures Replaced(s, find, repl, i) == Replaced(s, find', repl, i)
    decreases |s| - i
  {
    if i < |s| {
      FoldTells(find, find');
      FoldedHit(s, find, i);
      FoldedHit(s, find', i);
      CaseOfFind(s, find, find', repl, if HitAt(s, find, i) then i + |find| else i + 1);
    }
  }
}

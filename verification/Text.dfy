/** The string functions of the Go standard library that the models rely on. */
module Text {

  predicate IsDigit(c: char) { '0' <= c <= '9' }

  function Digit(n: nat): char
    requires n < 10
  {
    ['0', '1', '2', '3', '4', '5', '6', '7', '8', '9'][n]
  }

  // strconv.Itoa
  function Itoa(n: nat): (s: string)
    ensures |s| > 0 && forall c :: c in s ==> IsDigit(c)
  {
    if n < 10 then [Digit(n)] else Itoa(n / 10) + [Digit(n % 10)]
  }

  // The number a digit string denotes.
  function Number(s: string): nat
    requires forall c :: c in s ==> IsDigit(c)
  {
    if s == [] then 0 else
      var c := s[|s| - 1];
      assert c in s;
      assert IsDigit(c);
      10 * Number(s[..|s| - 1]) + (c - '0') as nat
  }

  lemma {:induction false} NumberOfItoa(n: nat)
    ensures Number(Itoa(n)) == n
  {
    if n >= 10 {
      NumberOfItoa(n / 10);
      var s := Itoa(n);
      assert s[..|s| - 1] == Itoa(n / 10) && s[|s| - 1] == Digit(n % 10);
    }
  }

  lemma ItoaInjective(a: nat, b: nat)
    requires Itoa(a) == Itoa(b)
    ensures a == b
  {
    NumberOfItoa(a);
    NumberOfItoa(b);
  }

  predicate HasSuffix(s: string, suffix: string) {
    |suffix| <= |s| && s[|s| - |suffix|..] == suffix
  }

  // strings.TrimSuffix
  function TrimSuffix(s: string, suffix: string): string {
    if HasSuffix(s, suffix) then s[..|s| - |suffix|] else s
  }

  predicate HasPrefix(s: string, prefix: string) {
    |prefix| <= |s| && s[..|prefix|] == prefix
  }

  // strings.TrimPrefix
  function TrimPrefix(s: string, prefix: string): string {
    if HasPrefix(s, prefix) then s[|prefix|..] else s
  }

  // unicode.IsSpace
  predicate IsSpace(c: char) {
    var n := c as int;
    || 9 <= n <= 13 || n == 32 || n == 0x85 || n == 0xA0 || n == 0x1680 || 0x2000 <= n <= 0x200a
    || n == 0x2028 || n == 0x2029 || n == 0x202f || n == 0x205f || n == 0x3000
  }

  function TrimLeft(s: string): string {
    if s != [] && IsSpace(s[0]) then TrimLeft(s[1..]) else s
  }

  function TrimRight(s: string): string {
    if s != [] && IsSpace(s[|s| - 1]) then TrimRight(s[..|s| - 1]) else s
  }

  // strings.TrimSpace
  function TrimSpace(s: string): string { TrimRight(TrimLeft(s)) }

  lemma TrimSpaceTight(s: string)
    requires s != [] ==> !IsSpace(s[0]) && !IsSpace(s[|s| - 1])
    ensures TrimSpace(s) == s
  {
  }

  predicate AllSpace(s: string) { forall c :: c in s ==> IsSpace(c) }

  lemma {:induction false} TrimLeftIs(s: string) returns (a: string)
    ensures s == a + TrimLeft(s) && AllSpace(a)
    ensures TrimLeft(s) == "" || !IsSpace(TrimLeft(s)[0])
  {
    a := "";
    if s != [] && IsSpace(s[0]) {
      a := TrimLeftIs(s[1..]);
      a := [s[0]] + a;
    }
  }

  lemma {:induction false} TrimRightIs(s: string) returns (b: string)
    ensures s == TrimRight(s) + b && AllSpace(b)
    ensures TrimRight(s) == "" || !IsSpace(TrimRight(s)[|TrimRight(s)| - 1])
    ensures TrimRight(s) == "" || TrimRight(s)[0] == s[0]
  {
    b := "";
    if s != [] && IsSpace(s[|s| - 1]) {
      b := TrimRightIs(s[..|s| - 1]);
      b := b + [s[|s| - 1]];
    }
  }

  // TrimSpace takes off space, all of it at both ends, and nothing else.
  lemma TrimSpaceIs(s: string) returns (a: string, b: string)
    ensures s == a + TrimSpace(s) + b && AllSpace(a) && AllSpace(b)
    ensures var t := TrimSpace(s); t == "" || (!IsSpace(t[0]) && !IsSpace(t[|t| - 1]))
  {
    a := TrimLeftIs(s);
    b := TrimRightIs(TrimLeft(s));
  }

  lemma {:induction false} TrimLeftPast(a: string, s: string)
    requires AllSpace(a) && (s == "" || !IsSpace(s[0]))
    ensures TrimLeft(a + s) == s
  {
    if a == "" {
      assert a + s == s;
    } else {
      assert (a + s)[1..] == a[1..] + s && a[0] in a;
      TrimLeftPast(a[1..], s);
    }
  }

  lemma {:induction false} TrimRightUpTo(a: string, s: string)
    requires a != "" && !IsSpace(a[|a| - 1])
    ensures TrimRight(a + s) == a + TrimRight(s)
  {
    if s == "" {
      assert a + s == a;
    } else if IsSpace(s[|s| - 1]) {
      assert (a + s)[..|a + s| - 1] == a + s[..|s| - 1];
      TrimRightUpTo(a, s[..|s| - 1]);
    }
  }

  // Trimmed at the right first or not.
  lemma TrimTwice(s: string)
    ensures TrimSpace(TrimRight(s)) == TrimSpace(s)
  {
    var a := TrimLeftIs(s);
    if TrimLeft(s) == "" {
      assert s == a;
      AllSpaceIsNothing(s);
    } else {
      TrimSkips(a, TrimLeft(s));
    }
  }

  lemma TrimSkips(a: string, t: string)
    requires AllSpace(a) && t != "" && !IsSpace(t[0])
    ensures TrimSpace(TrimRight(a + t)) == TrimRight(t)
  {
    TrimRightLater(a, t);
    TrimLeftPast(a, TrimRight(t));
    TrimRightTwice(t);
  }

  lemma {:induction false} AllSpaceIsNothing(s: string)
    requires AllSpace(s)
    ensures TrimLeft(s) == "" && TrimRight(s) == ""
  {
    if s != "" {
      assert s[0] in s && s[|s| - 1] in s;
      AllSpaceIsNothing(s[1..]);
      AllSpaceIsNothing(s[..|s| - 1]);
    }
  }

  lemma {:induction false} TrimRightLater(a: string, t: string)
    requires t != "" && !IsSpace(t[0])
    ensures TrimRight(a + t) == a + TrimRight(t)
    ensures TrimRight(t) != "" && TrimRight(t)[0] == t[0]
  {
    if |t| > 1 && IsSpace(t[|t| - 1]) {
      assert (a + t)[..|a + t| - 1] == a + t[..|t| - 1];
      TrimRightLater(a, t[..|t| - 1]);
    }
  }

  lemma TrimRightTwice(s: string)
    ensures TrimRight(TrimRight(s)) == TrimRight(s)
  {
    var b := TrimRightIs(s);
  }
}

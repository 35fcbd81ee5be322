/** The macros of a template, and their expansion.  Characters stand for bytes. */
module Macros {
  import opened Text
  import opened Wrappers

  // ----- scalar macros -----

  const NAMES := [
    "[()COUNTRY()]", "[()CITY()]", "[KEY]", "[PATH]", "[IP]", "[COUNTRY]", "[CITY]", "[REGION]",
    "[ASN]", "[ORG]", "[TIMEZONE]", "[UTC]", "[LANG]", "[DEVICE]", "[OPERATOR]", "[DOMAIN]",
    "[USERAGENT]", "[CID]", "[PAR-1]", "[PAR-2]", "[PAR-3]", "[PAR-4]", "[PAR-5]"]

  datatype Deps = Deps(
    country: string, city: string, key: string, path: string, ip: string, region: string, asn: string,
    org: string, timezone: string, tzOffset: string, lang: string, device: string, operator_: string,
    domain: string, userAgent: string, cid: string, pars: seq<string>)

  datatype Scalar = Scalar(name: string, val: string)

  // The list up to the extra parameters; escape stands for url.QueryEscape.
  function Fixed(d: Deps, escape: string -> string): (r: seq<Scalar>)
    ensures |r| == 18
  {
    [Scalar("[()COUNTRY()]", d.country), Scalar("[()CITY()]", d.city), Scalar("[KEY]", escape(d.key)),
     Scalar("[PATH]", d.path), Scalar("[IP]", d.ip), Scalar("[COUNTRY]", d.country), Scalar("[CITY]", d.city),
     Scalar("[REGION]", d.region), Scalar("[ASN]", d.asn), Scalar("[ORG]", escape(d.org)),
     Scalar("[TIMEZONE]", d.timezone), Scalar("[UTC]", d.tzOffset), Scalar("[LANG]", d.lang),
     Scalar("[DEVICE]", d.device), Scalar("[OPERATOR]", d.operator_), Scalar("[DOMAIN]", d.domain),
     Scalar("[USERAGENT]", d.userAgent), Scalar("[CID]", d.cid)]
  }

  function ParScalar(d: Deps, i: nat): Scalar {
    Scalar("[PAR-" + Itoa(i + 1) + "]", if i < |d.pars| then d.pars[i] else "")
  }

  // The names are those of the grammar, whatever the visitor's data.
  function ScalarList(d: Deps, escape: string -> string): (r: seq<Scalar>)
    ensures |r| == |NAMES| && forall k :: 0 <= k < |r| ==> r[k].name == NAMES[k]
  {
    ScalarListNames(d, escape);
    seq(|NAMES|, k requires 0 <= k < |NAMES| => ScalarOf(d, escape, k))
  }

  lemma ScalarListNames(d: Deps, escape: string -> string)
    ensures forall k :: 0 <= k < |NAMES| ==> ScalarOf(d, escape, k).name == NAMES[k]
  {
    forall k | 0 <= k < |NAMES| ensures ScalarOf(d, escape, k).name == NAMES[k] { ScalarNames(d, escape, k); }
  }

  // Which value goes under which name; the key and the organisation are escaped.
  predicate Gives(list: seq<Scalar>, d: Deps, escape: string -> string) {
    && Scalar("[()COUNTRY()]", d.country) in list && Scalar("[()CITY()]", d.city) in list
    && Scalar("[KEY]", escape(d.key)) in list && Scalar("[PATH]", d.path) in list && Scalar("[IP]", d.ip) in list
    && Scalar("[COUNTRY]", d.country) in list && Scalar("[CITY]", d.city) in list
    && Scalar("[REGION]", d.region) in list && Scalar("[ASN]", d.asn) in list
    && Scalar("[ORG]", escape(d.org)) in list && Scalar("[TIMEZONE]", d.timezone) in list
    && Scalar("[UTC]", d.tzOffset) in list && Scalar("[LANG]", d.lang) in list
    && Scalar("[DEVICE]", d.device) in list && Scalar("[OPERATOR]", d.operator_) in list
    && Scalar("[DOMAIN]", d.domain) in list && Scalar("[USERAGENT]", d.userAgent) in list
    && Scalar("[CID]", d.cid) in list
  }

  // The extra parameters, numbered from 1; those that are missing are empty.
  predicate GivesPar(list: seq<Scalar>, d: Deps, i: nat) {
    Scalar("[PAR-" + Itoa(i + 1) + "]", if i < |d.pars| then d.pars[i] else "") in list
  }

  lemma FixedGives(list: seq<Scalar>, d: Deps, escape: string -> string)
    requires |list| >= 18 && forall k :: 0 <= k < 18 ==> list[k] == Fixed(d, escape)[k]
    ensures Gives(list, d, escape)
  {
    assert list[0] in list && list[1] in list && list[2] in list && list[3] in list && list[4] in list;
    assert list[5] in list && list[6] in list && list[7] in list && list[8] in list && list[9] in list;
    assert list[10] in list && list[11] in list && list[12] in list && list[13] in list && list[14] in list;
    assert list[15] in list && list[16] in list && list[17] in list;
  }

  lemma ListedAt(d: Deps, escape: string -> string, k: nat)
    requires k < |NAMES|
    ensures |ScalarList(d, escape)| == |NAMES| && ScalarList(d, escape)[k] == ScalarOf(d, escape, k)
  {
  }

  lemma ScalarValues(d: Deps, escape: string -> string)
    ensures Gives(ScalarList(d, escape), d, escape)
    ensures forall i :: 0 <= i < 5 ==> GivesPar(ScalarList(d, escape), d, i)
  {
    var list := ScalarList(d, escape);
    forall k | 0 <= k < 18 ensures list[k] == Fixed(d, escape)[k] { ListedAt(d, escape, k); }
    FixedGives(list, d, escape);
    forall i | 0 <= i < 5 ensures GivesPar(list, d, i) {
      ListedAt(d, escape, 18 + i);
      assert list[18 + i] == ParScalar(d, i);
    }
  }

  method Scalars(d: Deps, escape: string -> string) returns (out: seq<Scalar>)
    ensures out == ScalarList(d, escape)
  {
    out := Fixed(d, escape);
    for i := 0 to 5
      invariant |out| == 18 + i && out[..18] == Fixed(d, escape)
      invariant forall j :: 18 <= j < 18 + i ==> out[j] == ParScalar(d, j - 18)
    {
      var v := "";
      if i < |d.pars| {
        v := d.pars[i];
      }
      out := out + [Scalar("[PAR-" + Itoa(i + 1) + "]", v)];
    }
    ScalarsAre(d, escape, out);
  }

  lemma ScalarsAre(d: Deps, escape: string -> string, out: seq<Scalar>)
    requires |out| == |NAMES| && out[..18] == Fixed(d, escape)
    requires forall i :: 18 <= i < |NAMES| ==> out[i] == ParScalar(d, i - 18)
    ensures out == ScalarList(d, escape)
  {
    forall k | 0 <= k < |NAMES| ensures out[k] == ScalarOf(d, escape, k) {
      if k < 18 { assert out[..18][k] == out[k]; }
    }
  }

  // The k-th of the list.
  function ScalarOf(d: Deps, escape: string -> string, k: nat): Scalar
    requires k < |NAMES|
  {
    if k < 18 then Fixed(d, escape)[k] else ParScalar(d, k - 18)
  }

  // The names do not depend on the visitor.
  lemma ScalarNames(d: Deps, escape: string -> string, k: nat)
    requires k < |NAMES|
    ensures ScalarOf(d, escape, k).name == NAMES[k]
  {
    if k >= 18 { ParName(k - 18); }
  }

  lemma ParName(j: nat)
    requires j < 5
    ensures "[PAR-" + Itoa(j + 1) + "]" == NAMES[18 + j]
  {
    assert Itoa(j + 1) == [Digit(j + 1)];
  }

  // The first of the names that s starts with, or |names|.
  function ScalarAt(s: string, names: seq<string>, from: nat := 0): (k: nat)
    requires from <= |names|
    ensures from <= k <= |names| && (k < |names| ==> HasPrefix(s, names[k]))
    ensures forall j :: from <= j < k ==> !HasPrefix(s, names[j])
    decreases |names| - from
  {
    if from == |names| || HasPrefix(s, names[from]) then from else ScalarAt(s, names, from + 1)
  }

  // ----- RAND macros -----

  datatype Rand =
    | Num(min: string, max: string)
    | Str(arg: string, count: string)
    | Line(arg: string, count: string, unique: bool)
    | Dfl(arg: string, count: string, unique: bool)

  // How many digits follow position i.
  function Run(s: string, i: nat): (n: nat)
    ensures i <= |s| ==> i + n <= |s|
    ensures forall j :: i <= j < i + n && j < |s| ==> IsDigit(s[j])
    ensures i + n < |s| ==> !IsDigit(s[i + n])
    decreases |s| - i
  {
    if i < |s| && IsDigit(s[i]) then 1 + Run(s, i + 1) else 0
  }

  predicate CharAt(s: string, i: nat, c: char) { i < |s| && s[i] == c }

  // The literals that the macros begin with: the whole of a scalar macro, and the heads
  // of the RAND patterns.
  datatype Grammar = Grammar(names: seq<string>, num: string, str: string, line: string, dfl: string)

  const GRAMMAR := Grammar(NAMES, "[RANDNUM-", "[RANDSTR-(", "[RANDLINE-(", "[RANDDFL-(")

  // [RANDNUM-<digits>-<digits>]
  function NumAt(s: string, head: string): (r: Option<(Rand, nat)>)
    ensures r.Some? ==> 0 < r.value.1 <= |s|
  {
    if !HasPrefix(s, head) then None
    else
      var a := Run(s, |head|);
      var m := |head| + a + 1;
      var b := Run(s, m);
      if a > 0 && CharAt(s, m - 1, '-') && b > 0 && CharAt(s, m + b, ']')
      then Some((Num(s[|head|..m - 1], s[m..m + b]), m + b + 1)) else None
  }

  // ")-<digits>]", or ")-<digits>/u]" too: the count, the flag and the end.
  function TailAt(s: string, i: nat, flag: bool): (r: Option<(string, bool, nat)>)
    ensures r.Some? ==> i < r.value.2 <= |s|
  {
    var n := Run(s, i + 2);
    if !(CharAt(s, i, ')') && CharAt(s, i + 1, '-') && n > 0) then None
    else
      var j := i + 2 + n;
      if flag && CharAt(s, j, '/') && CharAt(s, j + 1, 'u') && CharAt(s, j + 2, ']')
      then Some((s[i + 2..j], true, j + 3))
      else if CharAt(s, j, ']') then Some((s[i + 2..j], false, j + 1))
      else None
  }

  // The end of the argument that starts at from: the shortest of at least one character,
  // without line breaks, before a tail; |s| + 1 when there is none.
  function ArgEnd(s: string, from: nat, i: nat, flag: bool): (e: nat)
    requires from < i
    ensures e <= |s| ==> i <= e && TailAt(s, e, flag).Some? && '\n' !in s[i - 1..e]
    ensures forall j :: i <= j < e && j <= |s| && '\n' !in s[i - 1..j] ==> TailAt(s, j, flag).None?
    decreases |s| - i
  {
    if i > |s| || s[i - 1] == '\n' then |s| + 1
    else if TailAt(s, i, flag).Some? then i
    else ArgEnd(s, from, i + 1, flag)
  }

  function ArgMacroAt(s: string, head: string, flag: bool): (r: Option<(string, string, bool, nat)>)
    ensures r.Some? ==> 0 < r.value.3 <= |s|
  {
    if !HasPrefix(s, head) then None
    else
      var e := ArgEnd(s, |head|, |head| + 1, flag);
      if e > |s| then None
      else
        var (count, unique, end) := TailAt(s, e, flag).value;
        Some((s[|head|..e], count, unique, end))
  }

  function StrAt(s: string, head: string): (r: Option<(Rand, nat)>)
    ensures r.Some? ==> 0 < r.value.1 <= |s|
  {
    var r := ArgMacroAt(s, head, false);
    if r.None? then None else Some((Str(r.value.0, r.value.1), r.value.3))
  }

  function LineAt(s: string, head: string): (r: Option<(Rand, nat)>)
    ensures r.Some? ==> 0 < r.value.1 <= |s|
  {
    var r := ArgMacroAt(s, head, true);
    if r.None? then None else Some((Line(r.value.0, r.value.1, r.value.2), r.value.3))
  }

  function DflAt(s: string, head: string): (r: Option<(Rand, nat)>)
    ensures r.Some? ==> 0 < r.value.1 <= |s|
  {
    var r := ArgMacroAt(s, head, true);
    if r.None? then None else Some((Dfl(r.value.0, r.value.1, r.value.2), r.value.3))
  }

  function RandAt(s: string, g: Grammar): (r: Option<(Rand, nat)>)
    ensures r.Some? ==> 0 < r.value.1 <= |s|
  {
    var num, str, line := NumAt(s, g.num), StrAt(s, g.str), LineAt(s, g.line);
    if num.Some? then num else if str.Some? then str else if line.Some? then line else DflAt(s, g.dfl)
  }

  // ----- what the matchers mean -----

  predicate AllDigits(s: string) { s != "" && forall c :: c in s ==> IsDigit(c) }

  lemma {:induction false} RunIs(s: string, i: nat, n: nat)
    requires i + n <= |s| && (forall j :: i <= j < i + n ==> IsDigit(s[j])) && (i + n < |s| ==> !IsDigit(s[i + n]))
    ensures Run(s, i) == n
    decreases n
  {
    if n > 0 { RunIs(s, i + 1, n - 1); }
  }

  // s starts with the bytes of a whole tail at position i.
  ghost predicate TailWritten(s: string, i: nat, count: string, unique: bool) {
    AllDigits(count) && i <= |s| && HasPrefix(s[i..], ")-" + count + (if unique then "/u]" else "]"))
  }

  function TailWidth(count: string, unique: bool): nat { 2 + |count| + if unique then 3 else 1 }

  lemma TailSound(s: string, i: nat, flag: bool)
    requires TailAt(s, i, flag).Some?
    ensures var (count, unique, end) := TailAt(s, i, flag).value;
      TailWritten(s, i, count, unique) && (unique ==> flag) && end == i + TailWidth(count, unique)
  {
    var (count, unique, end) := TailAt(s, i, flag).value;
    var t := ")-" + count + (if unique then "/u]" else "]");
    assert |t| == end - i;
    forall j | 0 <= j < |t| ensures s[i + j] == t[j] {
      if 2 <= j < 2 + |count| { assert t[j] == count[j - 2]; }
    }
    assert s[i..][..|t|] == t;
    forall c | c in count ensures IsDigit(c) {
      var j :| 0 <= j < |count| && count[j] == c;
      assert s[i + 2 + j] == c;
    }
  }

  lemma TailComplete(s: string, i: nat, count: string, unique: bool, flag: bool)
    requires TailWritten(s, i, count, unique) && (unique ==> flag)
    ensures TailAt(s, i, flag) == Some((count, unique, i + TailWidth(count, unique)))
  {
    var t := ")-" + count + (if unique then "/u]" else "]");
    forall j | 0 <= j < |t| ensures i + j < |s| && s[i + j] == t[j] { assert s[i..][..|t|][j] == t[j]; }
    forall j | i + 2 <= j < i + 2 + |count| ensures IsDigit(s[j]) {
      assert t[j - i] == count[j - i - 2] && count[j - i - 2] in count;
    }
    assert t[2 + |count|] == if unique then '/' else ']';
    RunIs(s, i + 2, |count|);
    forall j | 0 <= j < |count| ensures s[i + 2 + j] == count[j] { assert t[2 + j] == count[j]; }
    assert s[i + 2..i + 2 + |count|] == count;
  }

  // A match is a way of writing the macro ...
  lemma NumSound(s: string, head: string)
    requires NumAt(s, head).Some?
    ensures var (r, n) := NumAt(s, head).value;
      r.Num? && AllDigits(r.min) && AllDigits(r.max) && s[..n] == head + r.min + "-" + r.max + "]"
  {
    var (r, n) := NumAt(s, head).value;
    var t := head + r.min + "-" + r.max + "]";
    var m := |head| + |r.min| + 1;
    assert s[..|head|] == head && |t| == n;
    forall j | 0 <= j < n ensures s[j] == t[j] {
      if j < |head| { assert s[..|head|][j] == head[j]; }
    }
    assert s[..n] == t;
    SliceDigits(s, |head|, m - 1);
    SliceDigits(s, m, n - 1);
  }

  lemma SliceDigits(s: string, i: nat, j: nat)
    requires i < j <= |s| && forall k :: i <= k < j ==> IsDigit(s[k])
    ensures AllDigits(s[i..j])
  {
  }

  lemma PrefixRun(s: string, t: string, i: nat, ds: string)
    requires HasPrefix(s, t) && i + |ds| < |t| && t[i..i + |ds|] == ds && AllDigits(ds) && !IsDigit(t[i + |ds|])
    ensures Run(s, i) == |ds| && s[i..i + |ds|] == ds && s[i + |ds|] == t[i + |ds|]
  {
    forall j | 0 <= j < |t| ensures s[j] == t[j] { assert s[..|t|][j] == t[j]; }
    forall j | i <= j < i + |ds| ensures IsDigit(s[j]) { assert t[i..i + |ds|][j - i] == ds[j - i] && ds[j - i] in ds; }
    RunIs(s, i, |ds|);
    assert s[i..i + |ds|] == t[i..i + |ds|];
  }

  // ... and the macro, however written, is matched.
  lemma NumComplete(s: string, head: string, min: string, max: string)
    requires AllDigits(min) && AllDigits(max) && HasPrefix(s, head + min + "-" + max + "]")
    ensures NumAt(s, head) == Some((Num(min, max), |head| + |min| + |max| + 2))
  {
    NumRuns(s, head, min, max);
    NumFrom(s, head, min, max);
  }

  lemma NumFrom(s: string, head: string, min: string, max: string)
    requires min != "" && max != "" && NumLies(s, head, min, max)
    ensures NumAt(s, head) == Some((Num(min, max), |head| + |min| + |max| + 2))
  {
    NumParts(s, head, |min|, |max|);
  }

  // The parts of the macro, each at its place in s.
  ghost predicate NumLies(s: string, head: string, min: string, max: string) {
    var m := |head| + |min| + 1;
    && HasPrefix(s, head) && Run(s, |head|) == |min| && CharAt(s, m - 1, '-') && s[|head|..m - 1] == min
    && Run(s, m) == |max| && CharAt(s, m + |max|, ']') && s[m..m + |max|] == max
  }

  lemma NumParts(s: string, head: string, a: nat, b: nat)
    requires HasPrefix(s, head) && Run(s, |head|) == a > 0 && CharAt(s, |head| + a, '-')
    requires Run(s, |head| + a + 1) == b > 0 && CharAt(s, |head| + a + 1 + b, ']')
    ensures NumAt(s, head)
      == Some((Num(s[|head|..|head| + a], s[|head| + a + 1..|head| + a + 1 + b]), |head| + a + b + 2))
  {
  }

  lemma NumRuns(s: string, head: string, min: string, max: string)
    requires AllDigits(min) && AllDigits(max) && HasPrefix(s, head + min + "-" + max + "]")
    ensures NumLies(s, head, min, max)
  {
    var t := head + min + "-" + max + "]";
    var m := |head| + |min| + 1;
    NumText(head, min, max);
    PrefixRun(s, t, |head|, min);
    PrefixRun(s, t, m, max);
    assert s[..|head|] == s[..|t|][..|head|];
  }

  lemma NumText(head: string, min: string, max: string)
    ensures var t, m := head + min + "-" + max + "]", |head| + |min| + 1;
      && t[..|head|] == head && t[|head|..m - 1] == min && t[m - 1] == '-'
      && t[m..m + |max|] == max && t[m + |max|] == ']'
  {
  }

  // s starts with head, the argument and a tail.
  ghost predicate ArgWritten(s: string, head: string, arg: string, count: string, unique: bool) {
    && arg != "" && '\n' !in arg && HasPrefix(s, head + arg)
    && TailWritten(s, |head| + |arg|, count, unique)
  }

  // A match is a way of writing the macro, and the one with the shortest argument.
  lemma ArgSound(s: string, head: string, flag: bool)
    requires head != "" && ArgMacroAt(s, head, flag).Some?
    ensures var (arg, count, unique, n) := ArgMacroAt(s, head, flag).value;
      && ArgWritten(s, head, arg, count, unique) && (unique ==> flag)
      && n == |head| + |arg| + TailWidth(count, unique)
  {
    var e := ArgEnd(s, |head|, |head| + 1, flag);
    TailSound(s, e, flag);
    HeadThenArg(s, head, e);
  }

  lemma HeadThenArg(s: string, head: string, e: nat)
    requires HasPrefix(s, head) && |head| < e <= |s|
    ensures var arg := s[|head|..e]; HasPrefix(s, head + arg) && |head| + |arg| == e
  {
    assert s[..e] == head + s[|head|..e];
  }

  lemma ArgComplete(s: string, head: string, flag: bool, arg: string, count: string, unique: bool)
    requires ArgWritten(s, head, arg, count, unique) && (unique ==> flag)
    ensures ArgMacroAt(s, head, flag).Some? && |ArgMacroAt(s, head, flag).value.0| <= |arg|
  {
    var e := |head| + |arg|;
    TailComplete(s, e, count, unique, flag);
    assert s[..e] == head + arg;
    assert s[..|head|] == s[..e][..|head|];
    assert s[|head|..e] == s[..e][|head|..];
    assert '\n' !in s[|head|..e];
  }

  // A macro whose argument has no bracket is matched with that very argument.
  lemma ArgIs(s: string, head: string, flag: bool, arg: string, count: string, unique: bool)
    requires head != "" && ArgWritten(s, head, arg, count, unique) && (unique ==> flag) && ')' !in arg
    ensures ArgMacroAt(s, head, flag) == Some((arg, count, unique, |head| + |arg| + TailWidth(count, unique)))
  {
    ArgComplete(s, head, flag, arg, count, unique);
    ArgSound(s, head, flag);
    var (a, c, u, n) := ArgMacroAt(s, head, flag).value;
    OneWay(s, head, a, c, u, arg, count, unique);
  }

  // There is one way to write it.
  lemma OneWay(s: string, head: string, a: string, c: string, u: bool, arg: string, count: string, unique: bool)
    requires ArgWritten(s, head, a, c, u) && ArgWritten(s, head, arg, count, unique) && |a| <= |arg| && ')' !in arg
    ensures a == arg && c == count && u == unique
  {
    TailStarts(s, |head| + |a|, c, u);
    ArgCharacters(s, head, arg);
    assert |a| == |arg|;
    SameArg(s, head, a, arg);
    OneTail(s, |head| + |arg|, c, u, count, unique);
  }

  lemma OneTail(s: string, i: nat, c: string, u: bool, count: string, unique: bool)
    requires TailWritten(s, i, c, u) && TailWritten(s, i, count, unique)
    ensures c == count && u == unique
  {
    TailComplete(s, i, count, unique, true);
    TailComplete(s, i, c, u, true);
  }

  lemma TailStarts(s: string, i: nat, count: string, unique: bool)
    requires TailWritten(s, i, count, unique)
    ensures i < |s| && s[i] == ')'
  {
    CharOf(s[i..], ")-" + count + (if unique then "/u]" else "]"), 0);
  }

  lemma ArgCharacters(s: string, head: string, arg: string)
    requires HasPrefix(s, head + arg) && ')' !in arg
    ensures forall k :: |head| <= k < |head| + |arg| ==> s[k] != ')'
  {
    forall k | |head| <= k < |head| + |arg| ensures s[k] != ')' {
      CharOf(s, head + arg, k);
      assert (head + arg)[k] == arg[k - |head|];
    }
  }

  lemma SameArg(s: string, head: string, a: string, b: string)
    requires HasPrefix(s, head + a) && HasPrefix(s, head + b) && |a| == |b|
    ensures a == b
  {
    assert (head + a)[|head|..] == a && (head + b)[|head|..] == b;
  }

  // The texts that the RANDSTR pattern matches, and those of RANDLINE and RANDDFL, which
  // may carry the flag.
  lemma StrIs(s: string, head: string)
    requires head != ""
    ensures StrAt(s, head).Some? <==> exists arg, count :: ArgWritten(s, head, arg, count, false)
    ensures StrAt(s, head).Some? ==> var (r, n) := StrAt(s, head).value;
      r.Str? && ArgWritten(s, head, r.arg, r.count, false) && n == |head| + |r.arg| + TailWidth(r.count, false)
  {
    if StrAt(s, head).Some? {
      ArgSound(s, head, false);
      var (r, n) := StrAt(s, head).value;
      assert ArgWritten(s, head, r.arg, r.count, false);
    }
    if arg, count :| ArgWritten(s, head, arg, count, false) { ArgComplete(s, head, false, arg, count, false); }
  }

  lemma LineIs(s: string, head: string)
    requires head != ""
    ensures LineAt(s, head).Some? <==> exists arg, count, unique :: ArgWritten(s, head, arg, count, unique)
    ensures LineAt(s, head).Some? ==> var (r, n) := LineAt(s, head).value;
      && r.Line? && ArgWritten(s, head, r.arg, r.count, r.unique)
      && n == |head| + |r.arg| + TailWidth(r.count, r.unique)
    ensures DflAt(s, head).Some? == LineAt(s, head).Some?
    ensures LineAt(s, head).Some? ==> var (r, n) := LineAt(s, head).value;
      DflAt(s, head).value == (Dfl(r.arg, r.count, r.unique), n)
  {
    if LineAt(s, head).Some? {
      ArgSound(s, head, true);
      var (r, n) := LineAt(s, head).value;
      assert ArgWritten(s, head, r.arg, r.count, r.unique);
    }
    if arg, count, unique :| ArgWritten(s, head, arg, count, unique) {
      ArgComplete(s, head, true, arg, count, unique);
    }
  }

  // ----- no two macros start alike -----

  // The only closing bracket is the last character.
  predicate Closes(s: string) { s != "" && s[|s| - 1] == ']' && forall i :: 0 <= i < |s| - 1 ==> s[i] != ']' }

  lemma NamesClose(k: nat)
    requires k < |NAMES|
    ensures Closes(NAMES[k])
  {
  }

  lemma NamesDistinct(j: nat, k: nat)
    requires j < |NAMES| && k < |NAMES| && NAMES[j] == NAMES[k]
    ensures j == k
  {
  }

  // At most one name fits, so the order of the list does not matter.
  lemma OneScalar(s: string, j: nat, k: nat)
    requires j < |NAMES| && k < |NAMES| && HasPrefix(s, NAMES[j]) && HasPrefix(s, NAMES[k])
    ensures NAMES[j] == NAMES[k]
  {
    NamesClose(j);
    NamesClose(k);
    SamePrefixCloses(s, NAMES[j], NAMES[k]);
  }

  lemma CharOf(s: string, p: string, i: nat)
    ensures HasPrefix(s, p) && i < |p| ==> i < |s| && s[i] == p[i]
  {
    if HasPrefix(s, p) && i < |p| { assert s[..|p|][i] == p[i]; }
  }

  lemma SamePrefixCloses(s: string, a: string, b: string)
    requires Closes(a) && Closes(b) && HasPrefix(s, a) && HasPrefix(s, b)
    ensures a == b
  {
    CharOf(s, a, |a| - 1);
    CharOf(s, b, |b| - 1);
    CharOf(s, b, |a| - 1);
    CharOf(s, a, |b| - 1);
  }

  predicate Head(s: string) { s == GRAMMAR.num || s == GRAMMAR.str || s == GRAMMAR.line || s == GRAMMAR.dfl }

  // The pattern behind a head is the only one that can match there ...
  lemma OneRand(s: string, a: string, b: string)
    requires Head(a) && Head(b) && HasPrefix(s, a) && HasPrefix(s, b)
    ensures a == b
  {
    CharOf(s, a, 5);
    CharOf(s, b, 5);
  }

  lemma NamesNotRand(k: nat)
    requires k < |NAMES|
    ensures |NAMES[k]| > 2 && (NAMES[k][1] != 'R' || NAMES[k][2] != 'A')
  {
  }

  // ... and no scalar macro does.
  lemma ScalarOrRand(s: string, k: nat, head: string)
    requires k < |NAMES| && HasPrefix(s, NAMES[k]) && Head(head)
    ensures !HasPrefix(s, head)
  {
    NamesNotRand(k);
    CharOf(s, NAMES[k], 1);
    CharOf(s, NAMES[k], 2);
    CharOf(s, head, 1);
    CharOf(s, head, 2);
  }
}

/**
 A template cut into spans: width(s, i) is the length of the macro that begins at
 position i of s, 0 when none does, and show(s, i) is its value.
 */
module Spans {

  // A character, or a macro that takes up n characters.
  datatype Span = Plain(c: char) | Macro(n: nat)

  type Widths = (string, nat) -> nat
  type Values = (string, nat) -> string

  function Width(s: string, i: nat, width: Widths): (n: nat)
    requires i < |s|
    ensures n <= |s| - i && (n > 0 ==> s[i] == '[')
  {
    if s[i] == '[' && width(s, i) <= |s| - i then width(s, i) else 0
  }

  // The spans of s from position i on: nothing else decides them.
  function Split(s: string, i: nat, width: Widths): seq<Span>
    requires i <= |s|
    decreases |s| - i
  {
    if i == |s| then []
    else
      var n := Width(s, i, width);
      if n == 0 then [Plain(s[i])] + Split(s, i + 1, width) else [Macro(n)] + Split(s, i + n, width)
  }

  function Size(p: Span): nat { if p.Plain? then 1 else p.n }

  // The spans of s from position i on, written out one after the other: a character as it
  // is, a macro as its value.
  function Render(ps: seq<Span>, s: string, i: nat, show: Values): string {
    if ps == [] then ""
    else (if ps[0].Plain? then [ps[0].c] else show(s, i)) + Render(ps[1..], s, i + Size(ps[0]), show)
  }

  // The spans lie one after the other on s, from position i to its end: a macro wherever
  // one begins, and the character of s where none does.
  predicate Tiles(ps: seq<Span>, s: string, i: nat, width: Widths) {
    if ps == [] then i == |s|
    else
      && i < |s|
      && (if ps[0].Plain? then ps[0].c == s[i] && Width(s, i, width) == 0 else ps[0].n == Width(s, i, width) > 0)
      && Tiles(ps[1..], s, i + Size(ps[0]), width)
  }

  lemma {:induction false} SplitTiles(s: string, i: nat, width: Widths)
    requires i <= |s|
    ensures Tiles(Split(s, i, width), s, i, width)
    decreases |s| - i
  {
    if i < |s| {
      var n := Width(s, i, width);
      if n == 0 {
        SplitTiles(s, i + 1, width);
        assert Split(s, i, width)[1..] == Split(s, i + 1, width);
      } else {
        SplitTiles(s, i + n, width);
        assert Split(s, i, width)[1..] == Split(s, i + n, width);
      }
    }
  }

  // There is no other way for them to.
  lemma {:induction false} TilingUnique(ps: seq<Span>, s: string, i: nat, width: Widths)
    requires i <= |s| && Tiles(ps, s, i, width)
    ensures ps == Split(s, i, width)
  {
    if ps != [] {
      TilingUnique(ps[1..], s, i + Size(ps[0]), width);
      assert ps == [ps[0]] + ps[1..];
    }
  }

  // The same from position i of s on, cutting and writing at once.
  function Output(s: string, i: nat, width: Widths, show: Values): string
    requires i <= |s|
    decreases |s| - i
  {
    if i == |s| then ""
    else
      var n := Width(s, i, width);
      if n == 0 then [s[i]] + Output(s, i + 1, width, show) else show(s, i) + Output(s, i + n, width, show)
  }

  lemma {:induction false} OutputIsRender(s: string, i: nat, width: Widths, show: Values)
    requires i <= |s|
    ensures Output(s, i, width, show) == Render(Split(s, i, width), s, i, show)
    decreases |s| - i
  {
    if i < |s| {
      var n := Width(s, i, width);
      if n == 0 {
        OutputIsRender(s, i + 1, width, show);
        assert Split(s, i, width)[1..] == Split(s, i + 1, width);
      } else {
        OutputIsRender(s, i + n, width, show);
        assert Split(s, i, width)[1..] == Split(s, i + n, width);
      }
    }
  }

  // What one turn of a loop that writes the output has to add.
  lemma OutputPlain(b: string, s: string, i: nat, width: Widths, show: Values)
    requires i < |s| && Width(s, i, width) == 0
    ensures b + Output(s, i, width, show) == b + [s[i]] + Output(s, i + 1, width, show)
  {
    Regroup(b, [s[i]], Output(s, i + 1, width, show));
  }

  lemma OutputMacro(b: string, s: string, i: nat, width: Widths, show: Values, n: nat)
    requires i < |s| && Width(s, i, width) == n > 0
    ensures b + Output(s, i, width, show) == b + show(s, i) + Output(s, i + n, width, show)
  {
    Regroup(b, show(s, i), Output(s, i + n, width, show));
  }

  // A macro from i to j is written as its value.
  lemma WrittenAs(s: string, i: nat, j: nat, width: Widths, show: Values, val: string)
    requires i < j <= |s| && Width(s, i, width) == j - i && show(s, i) == val
    ensures Output(s, i, width, show) == val + Output(s, j, width, show)
  {
  }

  lemma Regroup(b: string, x: string, y: string)
    ensures b + (x + y) == b + x + y
  {
  }
}

/** render.Expand. */
module Expansion {
  import opened Text
  import opened Wrappers
  import opened Macros
  import opened Spans

  datatype Macro = Named(k: nat) | Random(r: Rand)

  // The macro s starts with, and its length: a matter of the template alone.
  function MacroAt(s: string, g: Grammar): Option<(Macro, nat)> {
    var k := ScalarAt(s, g.names);
    if k < |g.names| then Some((Named(k), |g.names[k]|))
    else
      var r := RandAt(s, g);
      if r.None? then None else Some((Random(r.value.0), r.value.1))
  }

  function MacroWidth(s: string, i: nat, g: Grammar): nat {
    if i > |s| then 0
    else
      var m := MacroAt(s[i..], g);
      if m.None? then 0 else m.value.1
  }

  function WidthsOf(g: Grammar): Widths { (s: string, i: nat) => MacroWidth(s, i, g) }

  // ----- values -----

  const MAX_INT := 0x7fff_ffff_ffff_ffff

  // strconv.Atoi, its error ignored: what is not a number is 0, and a number that does not
  // fit is cut to the largest.
  function Count(s: string): nat {
    if !AllDigits(s) then 0 else if Number(s) > MAX_INT then MAX_INT else Number(s)
  }

  // intn; a bound past the largest int has wrapped to a negative one.
  function Intn(n: int, draw: nat): (r: nat)
    ensures 0 < n <= MAX_INT ==> r < n
  {
    if n > MAX_INT || n <= 0 then 0 else draw % n
  }

  // randNum
  function RandNum(a: nat, b: nat, draw: nat): nat {
    var (lo, hi) := if b < a then (b, a) else (a, b);
    lo + Intn(hi - lo + 1, draw)
  }

  // The number drawn is between the bounds, in whichever order they are written.
  lemma RandNumInRange(a: nat, b: nat, draw: nat)
    ensures a <= b ==> a <= RandNum(a, b, draw) <= b
    ensures b <= a ==> b <= RandNum(a, b, draw) <= a
  {
  }

  ghost predicate Drawable(a: nat, b: nat, n: nat) { exists draw :: RandNum(a, b, draw) == n }

  // Every number between them can be drawn, except when there are more than an int can count.
  lemma RandNumReaches(a: nat, b: nat)
    requires a <= b <= MAX_INT
    ensures (forall n :: a <= n <= b ==> Drawable(a, b, n)) <==> !(a == 0 && b == MAX_INT)
  {
    if a == 0 && b == MAX_INT {
      assert !Drawable(a, b, 1);
    } else {
      forall n | a <= n <= b ensures Drawable(a, b, n) {
        Small(n - a, b - a + 1);
        assert RandNum(a, b, n - a) == n;
      }
    }
  }

  lemma Small(x: nat, n: nat)
    requires x < n
    ensures x % n == x
  {
  }

  // randStr: the i-th character is the i-th draw.
  function RandStr(chars: string, count: nat, draw: nat -> nat): string {
    if chars == "" then "" else seq(count, i requires 0 <= i < count => chars[draw(i) % |chars|])
  }

  method RandStrLoop(chars: string, count: nat, draw: nat -> nat) returns (b: string)
    ensures b == RandStr(chars, count, draw)
    ensures forall c :: c in b ==> c in chars
  {
    b := "";
    if chars == "" || count <= 0 {
      return;
    }
    for i := 0 to count
      invariant |b| == i && forall j :: 0 <= j < i ==> b[j] == chars[draw(j) % |chars|]
    {
      b := b + [chars[draw(i) % |chars|]];
    }
  }

  // What the values are made from besides the visitor's data: the expansion of scalar
  // macros in an argument, the random draws at each place of the template, and the lines
  // read from data files.
  datatype Env = Env(nested: string -> string, draw: nat -> nat -> nat, lines: (Rand, nat) -> string)

  function Value(m: Macro, at: nat, list: seq<Scalar>, env: Env): string {
    match m
    case Named(k) => if k < |list| then list[k].val else ""
    case Random(Num(a, b)) => Itoa(RandNum(Count(a), Count(b), env.draw(at)(0)))
    case Random(Str(arg, count)) => RandStr(env.nested(arg), Count(count), env.draw(at))
    case Random(Line(arg, count, unique)) => env.lines(Line(env.nested(arg), count, unique), at)
    case Random(Dfl(arg, count, unique)) => env.lines(Dfl(env.nested(arg), count, unique), at)
  }

  function MacroShown(s: string, i: nat, g: Grammar, list: seq<Scalar>, env: Env): string {
    if i > |s| || MacroAt(s[i..], g).None? then "" else Value(MacroAt(s[i..], g).value.0, i, list, env)
  }

  function ValuesOf(g: Grammar, list: seq<Scalar>, env: Env): Values {
    (s: string, i: nat) => MacroShown(s, i, g, list, env)
  }

  // ----- the loops -----

  ghost predicate Lists(list: seq<Scalar>, names: seq<string>) {
    |list| == |names| && forall k :: 0 <= k < |list| ==> list[k].name == names[k]
  }

  method MacroValue(s: string, at: nat, list: seq<Scalar>, env: Env, g: Grammar) returns (val: string, n: nat)
    requires Lists(list, g.names) && "" !in g.names
    ensures n <= |s| && (n == 0 <==> MacroAt(s, g).None?)
    ensures n > 0 ==> n == MacroAt(s, g).value.1 && val == Value(MacroAt(s, g).value.0, at, list, env)
  {
    for k := 0 to |list|
      invariant ScalarAt(s, g.names) == ScalarAt(s, g.names, k)
    {
      if HasPrefix(s, list[k].name) {
        return list[k].val, |list[k].name|;
      }
    }
    val, n := RandValue(s, at, list, env, g);
  }

  method RandValue(s: string, at: nat, list: seq<Scalar>, env: Env, g: Grammar) returns (val: string, n: nat)
    ensures n <= |s| && (n == 0 <==> RandAt(s, g).None?)
    ensures n > 0 ==> RandAt(s, g).value.1 == n <= |s| && val == Value(Random(RandAt(s, g).value.0), at, list, env)
  {
    var m := NumAt(s, g.num);
    if m.Some? {
      return Itoa(RandNum(Count(m.value.0.min), Count(m.value.0.max), env.draw(at)(0))), m.value.1;
    }
    m := StrAt(s, g.str);
    if m.Some? {
      val := RandStrLoop(env.nested(m.value.0.arg), Count(m.value.0.count), env.draw(at));
      return val, m.value.1;
    }
    m := LineAt(s, g.line);
    if m.Some? {
      return env.lines(Line(env.nested(m.value.0.arg), m.value.0.count, m.value.0.unique), at), m.value.1;
    }
    m := DflAt(s, g.dfl);
    if m.Some? {
      return env.lines(Dfl(env.nested(m.value.0.arg), m.value.0.count, m.value.0.unique), at), m.value.1;
    }
    return "", 0;
  }

  // One turn of the loop: what it writes, and where it goes on.
  method Turn(s: string, i: nat, b: string, list: seq<Scalar>, env: Env, g: Grammar) returns (b': string, i': nat)
    requires Lists(list, g.names) && "" !in g.names && i < |s|
    ensures Turned(b, s, i, WidthsOf(g), ValuesOf(g, list, env), b', i')
  {
    if s[i] != '[' {
      return b + [s[i]], i + 1;
    }
    var val, n := MacroValue(s[i..], i, list, env, g);
    if n == 0 {
      return b + "[", i + 1;
    }
    return b + val, i + n;
  }

  method ExpandWith(s: string, list: seq<Scalar>, env: Env, g: Grammar) returns (b: string)
    requires Lists(list, g.names) && "" !in g.names
    ensures b == Output(s, 0, WidthsOf(g), ValuesOf(g, list, env))
  {
    b := "";
    var i: nat := 0;
    while i < |s|
      invariant i <= |s|
      invariant b + Output(s, i, WidthsOf(g), ValuesOf(g, list, env))
        == Output(s, 0, WidthsOf(g), ValuesOf(g, list, env))
    {
      var next, at := Turn(s, i, b, list, env, g);
      TurnOn(b, s, i, WidthsOf(g), ValuesOf(g, list, env), next, at);
      b, i := next, at;
    }
  }

  ghost predicate Turned(b: string, s: string, i: nat, width: Widths, show: Values, b': string, i': nat)
    requires i < |s|
  {
    if Width(s, i, width) == 0 then b' == b + [s[i]] && i' == i + 1
    else b' == b + show(s, i) && i' == i + Width(s, i, width)
  }

  lemma TurnOn(b: string, s: string, i: nat, width: Widths, show: Values, b': string, i': nat)
    requires i < |s| && Turned(b, s, i, width, show, b', i')
    ensures i' <= |s| && b' + Output(s, i', width, show) == b + Output(s, i, width, show)
  {
    var n := Width(s, i, width);
    if n == 0 { OutputPlain(b, s, i, width, show); } else { OutputMacro(b, s, i, width, show, n); }
  }

  method Expand(s: string, d: Deps, escape: string -> string, env: Env) returns (b: string)
    ensures b == Render(Split(s, 0, WidthsOf(GRAMMAR)), s, 0, ValuesOf(GRAMMAR, ScalarList(d, escape), env))
  {
    var list := Scalars(d, escape);
    NamesNotEmpty();
    b := ExpandWith(s, list, env, GRAMMAR);
    OutputIsRender(s, 0, WidthsOf(GRAMMAR), ValuesOf(GRAMMAR, list, env));
  }

  lemma NamesNotEmpty()
    ensures "" !in NAMES
  {
    forall k | 0 <= k < |NAMES| ensures NAMES[k] != "" { NamesClose(k); }
  }

  // ----- values are never read as templates -----

  lemma ScalarHere(s: string, g: Grammar, k: nat)
    requires k < |g.names| && HasPrefix(s, g.names[k])
    requires forall j :: 0 <= j < |g.names| && HasPrefix(s, g.names[j]) ==> j == k
    ensures MacroAt(s, g) == Some((Named(k), |g.names[k]|))
  {
    FoundName(s, g.names, 0, k);
  }

  lemma {:induction false} FoundName(s: string, names: seq<string>, from: nat, k: nat)
    requires from <= k < |names| && HasPrefix(s, names[k])
    ensures ScalarAt(s, names, from) <= k
    decreases k - from
  {
    if from < k { FoundName(s, names, from + 1, k); }
  }

  // The k-th name is the only one that s starts with, and it opens a macro.
  predicate OnlyName(s: string, g: Grammar, k: nat) {
    && k < |g.names| && g.names[k] != "" && g.names[k][0] == '[' && HasPrefix(s, g.names[k])
    && forall j :: 0 <= j < |g.names| && HasPrefix(s, g.names[j]) ==> j == k
  }

  lemma NameInFront(s: string, i: nat, g: Grammar, k: nat, list: seq<Scalar>, env: Env)
    requires k < |list| && i < |s| && OnlyName(s[i..], g, k)
    ensures Width(s, i, WidthsOf(g)) == |g.names[k]| > 0 && ValuesOf(g, list, env)(s, i) == list[k].val
  {
    ScalarHere(s[i..], g, k);
    CharOf(s[i..], g.names[k], 0);
  }

  // The names of the source are told apart wherever they stand.
  lemma NamesApart(s: string, k: nat)
    requires k < |NAMES| && HasPrefix(s, NAMES[k])
    ensures s != "" && OnlyName(s, GRAMMAR, k)
  {
    forall j | 0 <= j < |NAMES| && HasPrefix(s, NAMES[j]) ensures j == k {
      OneScalar(s, j, k);
      NamesDistinct(j, k);
    }
    NamesClose(k);
    NamesOpen(k);
  }

  lemma NamesOpen(k: nat)
    requires k < |NAMES| && NAMES[k] != ""
    ensures NAMES[k][0] == '['
  {
  }

  lemma NameIsMacro(s: string, i: nat, j: nat, k: nat, list: seq<Scalar>, env: Env)
    requires k < |NAMES| && k < |list| && i <= j <= |s| && s[i..j] == NAMES[k]
    ensures i < j && Width(s, i, WidthsOf(GRAMMAR)) == j - i
    ensures ValuesOf(GRAMMAR, list, env)(s, i) == list[k].val
  {
    assert s[i..][..j - i] == s[i..j];
    NamesApart(s[i..], k);
    NameInFront(s, i, GRAMMAR, k, list, env);
  }

  // Wherever the pass meets a scalar macro, it writes the value, whatever that contains,
  // macros included, and goes on behind the macro in the template.
  lemma ValueIsVerbatim(s: string, i: nat, j: nat, k: nat, list: seq<Scalar>, env: Env)
    requires k < |NAMES| && k < |list| && i <= j <= |s| && s[i..j] == NAMES[k]
    ensures var width, show := WidthsOf(GRAMMAR), ValuesOf(GRAMMAR, list, env);
      Output(s, i, width, show) == list[k].val + Output(s, j, width, show)
  {
    NameIsMacro(s, i, j, k, list, env);
    WrittenAs(s, i, j, WidthsOf(GRAMMAR), ValuesOf(GRAMMAR, list, env), list[k].val);
  }

  lemma {:induction false} PlainIsKept(a: string, s: string, i: nat, width: Widths, show: Values)
    requires i + |a| <= |s| && s[i..i + |a|] == a && '[' !in a
    ensures Output(s, i, width, show) == a + Output(s, i + |a|, width, show)
    decreases |a|
  {
    if a != "" {
      assert s[i] == s[i..i + |a|][0] == a[0] && a[0] in a;
      assert s[i + 1..i + 1 + |a[1..]|] == s[i..i + |a|][1..];
      PlainIsKept(a[1..], s, i + 1, width, show);
      Regroup([a[0]], a[1..], Output(s, i + |a|, width, show));
      assert [a[0]] + a[1..] == a;
    }
  }

  lemma KeptThenWritten(s: string, i: nat, j: nat, width: Widths, show: Values, val: string)
    requires i < j <= |s| && '[' !in s[..i] && Width(s, i, width) == j - i && show(s, i) == val
    ensures Render(Split(s, 0, width), s, 0, show) == s[..i] + val + Render(Split(s, j, width), s, j, show)
  {
    OutputIsRender(s, 0, width, show);
    OutputIsRender(s, j, width, show);
    PlainIsKept(s[..i], s, 0, width, show);
    WrittenAs(s, i, j, width, show, val);
    Regroup(s[..i], val, Output(s, j, width, show));
  }

  // So a template with a scalar macro from i to j, and no bracket before it, expands to
  // what stands before it, the value, and what the rest expands to where it stands.
  lemma ExpandsInPlace(s: string, i: nat, j: nat, k: nat, list: seq<Scalar>, env: Env)
    requires k < |NAMES| && k < |list| && i <= j <= |s| && s[i..j] == NAMES[k] && '[' !in s[..i]
    ensures var width, show := WidthsOf(GRAMMAR), ValuesOf(GRAMMAR, list, env);
      Render(Split(s, 0, width), s, 0, show) == s[..i] + list[k].val + Render(Split(s, j, width), s, j, show)
  {
    NameIsMacro(s, i, j, k, list, env);
    KeptThenWritten(s, i, j, WidthsOf(GRAMMAR), ValuesOf(GRAMMAR, list, env), list[k].val);
  }

  // ----- RAND macros in a template -----

  // Digits stand for their number, up to the largest int.
  function Capped(n: nat): nat { if n > 0x7fff_ffff_ffff_ffff then 0x7fff_ffff_ffff_ffff else n }

  lemma CountIs(s: string, n: nat)
    ensures AllDigits(s) ==> Count(s) == Capped(Number(s))
    ensures n <= MAX_INT ==> Count(Itoa(n)) == n
  {
    NumberOfItoa(n);
  }

  lemma NumHere(s: string, min: string, max: string)
    requires AllDigits(min) && AllDigits(max) && HasPrefix(s, "[RANDNUM-" + min + "-" + max + "]")
    ensures MacroAt(s, GRAMMAR) == Some((Random(Num(min, max)), |"[RANDNUM-" + min + "-" + max + "]"|))
  {
    NumFits(s, GRAMMAR, min, max);
    NoName(s, GRAMMAR.num);
  }

  lemma NumFits(s: string, g: Grammar, min: string, max: string)
    requires AllDigits(min) && AllDigits(max) && HasPrefix(s, g.num + min + "-" + max + "]")
    ensures HasPrefix(s, g.num)
    ensures ScalarAt(s, g.names) == |g.names| ==>
      MacroAt(s, g) == Some((Random(Num(min, max)), |g.num + min + "-" + max + "]"|))
  {
    NumComplete(s, g.num, min, max);
    HeadOf(s, g.num, min + "-" + max + "]");
    assert g.num + min + "-" + max + "]" == g.num + (min + "-" + max + "]");
    if ScalarAt(s, g.names) == |g.names| { OnlyRand(s, g, Num(min, max), |g.num| + |min| + |max| + 2); }
  }

  lemma HeadOf(s: string, head: string, rest: string)
    ensures HasPrefix(s, head + rest) ==> HasPrefix(s, head)
  {
    if HasPrefix(s, head + rest) { assert s[..|head|] == s[..|head + rest|][..|head|]; }
  }

  lemma OnlyRand(s: string, g: Grammar, r: Rand, n: nat)
    requires ScalarAt(s, g.names) == |g.names| && NumAt(s, g.num) == Some((r, n))
    ensures MacroAt(s, g) == Some((Random(r), n))
  {
  }

  lemma NoName(s: string, head: string)
    requires Head(head) && HasPrefix(s, head)
    ensures ScalarAt(s, NAMES) == |NAMES|
  {
    var k := ScalarAt(s, NAMES);
    if k < |NAMES| { ScalarOrRand(s, k, head); }
  }

  lemma NumIsMacro(s: string, i: nat, j: nat, min: string, max: string, list: seq<Scalar>, env: Env)
    requires i <= j <= |s| && AllDigits(min) && AllDigits(max) && s[i..j] == "[RANDNUM-" + min + "-" + max + "]"
    ensures i < j && Width(s, i, WidthsOf(GRAMMAR)) == j - i
    ensures ValuesOf(GRAMMAR, list, env)(s, i) == Itoa(RandNum(Count(min), Count(max), env.draw(i)(0)))
  {
    assert s[i..][..j - i] == s[i..j];
    assert s[i] == s[i..j][0] == '[';
    NumHere(s[i..], min, max);
  }

  // Wherever it stands, [RANDNUM-min-max] is written as a number between its bounds, in
  // whichever order they are.
  lemma NumExpands(s: string, i: nat, j: nat, min: string, max: string, list: seq<Scalar>, env: Env) returns (n: nat)
    requires i <= j <= |s| && AllDigits(min) && AllDigits(max) && s[i..j] == "[RANDNUM-" + min + "-" + max + "]"
    ensures var a, b := Capped(Number(min)), Capped(Number(max)); a <= n <= b || b <= n <= a
    ensures var width, show := WidthsOf(GRAMMAR), ValuesOf(GRAMMAR, list, env);
      Output(s, i, width, show) == Itoa(n) + Output(s, j, width, show)
  {
    n := RandNum(Count(min), Count(max), env.draw(i)(0));
    CountIs(min, 0);
    CountIs(max, 0);
    RandNumInRange(Count(min), Count(max), env.draw(i)(0));
    NumIsMacro(s, i, j, min, max, list, env);
    WrittenAs(s, i, j, WidthsOf(GRAMMAR), ValuesOf(GRAMMAR, list, env), Itoa(n));
  }

  // The text of a macro with an argument.
  function ArgText(head: string, arg: string, count: string, unique: bool): string {
    head + arg + (")-" + count + (if unique then "/u]" else "]"))
  }

  // An argument without a bracket or a line break, and a number behind it.
  predicate Plain(arg: string, count: string) { arg != "" && ')' !in arg && '\n' !in arg && AllDigits(count) }

  lemma TextIsWritten(s: string, head: string, arg: string, count: string, unique: bool)
    requires Plain(arg, count) && HasPrefix(s, ArgText(head, arg, count, unique))
    ensures ArgWritten(s, head, arg, count, unique) && HasPrefix(s, head)
    ensures |ArgText(head, arg, count, unique)| == |head| + |arg| + TailWidth(count, unique)
  {
    var tail := ")-" + count + (if unique then "/u]" else "]");
    HeadOf(s, head + arg, tail);
    HeadOf(s, head, arg);
    Behind(s, head + arg, tail);
  }

  lemma Behind(s: string, a: string, b: string)
    requires HasPrefix(s, a + b)
    ensures |a| <= |s| && HasPrefix(s[|a|..], b)
  {
    assert s[|a|..][..|b|] == s[..|a + b|][|a|..] == b;
  }

  // The four kinds by their heads.
  function ByHead(head: string, arg: string, count: string, unique: bool): Option<Rand> {
    if head == "[RANDSTR-(" && !unique then Some(Str(arg, count))
    else if head == "[RANDLINE-(" then Some(Line(arg, count, unique))
    else if head == "[RANDDFL-(" then Some(Dfl(arg, count, unique))
    else None
  }

  lemma ArgHere(s: string, head: string, arg: string, count: string, unique: bool)
    requires Plain(arg, count) && ByHead(head, arg, count, unique).Some?
    requires HasPrefix(s, ArgText(head, arg, count, unique))
    ensures MacroAt(s, GRAMMAR)
      == Some((Random(ByHead(head, arg, count, unique).value), |ArgText(head, arg, count, unique)|))
  {
    TextIsWritten(s, head, arg, count, unique);
    ArgFound(s, head, head != GRAMMAR.str, arg, count, unique);
    NoName(s, head);
    OtherHeads(s, head);
    RandHere(s, GRAMMAR, head);
  }

  lemma ArgFound(s: string, head: string, flag: bool, arg: string, count: string, unique: bool)
    requires head != "" && Plain(arg, count) && (unique ==> flag)
    requires HasPrefix(s, ArgText(head, arg, count, unique))
    ensures ArgMacroAt(s, head, flag) == Some((arg, count, unique, |ArgText(head, arg, count, unique)|))
  {
    TextIsWritten(s, head, arg, count, unique);
    ArgIs(s, head, flag, arg, count, unique);
  }

  lemma OtherHeads(s: string, head: string)
    requires Head(head) && HasPrefix(s, head)
    ensures head != GRAMMAR.num ==> !HasPrefix(s, GRAMMAR.num)
    ensures head != GRAMMAR.str ==> !HasPrefix(s, GRAMMAR.str)
    ensures head != GRAMMAR.line ==> !HasPrefix(s, GRAMMAR.line)
    ensures head != GRAMMAR.dfl ==> !HasPrefix(s, GRAMMAR.dfl)
  {
    if HasPrefix(s, GRAMMAR.num) { OneRand(s, head, GRAMMAR.num); }
    if HasPrefix(s, GRAMMAR.str) { OneRand(s, head, GRAMMAR.str); }
    if HasPrefix(s, GRAMMAR.line) { OneRand(s, head, GRAMMAR.line); }
    if HasPrefix(s, GRAMMAR.dfl) { OneRand(s, head, GRAMMAR.dfl); }
  }

  lemma RandHere(s: string, g: Grammar, head: string)
    requires ScalarAt(s, g.names) == |g.names| && !HasPrefix(s, g.num)
    requires head != g.str ==> !HasPrefix(s, g.str)
    requires head != g.line ==> !HasPrefix(s, g.line)
    requires g.str != g.line && g.str != g.dfl && g.line != g.dfl
    requires head == g.str || head == g.line || head == g.dfl
    requires ArgMacroAt(s, head, head != g.str).Some?
    ensures var (a, c, u, n) := ArgMacroAt(s, head, head != g.str).value;
      MacroAt(s, g)
      == Some((Random(if head == g.str then Str(a, c) else if head == g.line then Line(a, c, u) else Dfl(a, c, u)), n))
  {
  }

  lemma ArgIsMacro(s: string, i: nat, j: nat, head: string, arg: string, count: string, unique: bool,
                   list: seq<Scalar>, env: Env)
    requires i <= j <= |s| && Plain(arg, count) && ByHead(head, arg, count, unique).Some?
    requires s[i..j] == ArgText(head, arg, count, unique)
    ensures i < j && Width(s, i, WidthsOf(GRAMMAR)) == j - i
    ensures ValuesOf(GRAMMAR, list, env)(s, i)
      == Value(Random(ByHead(head, arg, count, unique).value), i, list, env)
  {
    assert s[i..][..j - i] == s[i..j];
    assert s[i] == s[i..j][0] == '[';
    ArgHere(s[i..], head, arg, count, unique);
  }

  lemma ValueByHead(at: nat, head: string, arg: string, count: string, unique: bool, list: seq<Scalar>, env: Env)
      returns (v: string)
    requires AllDigits(count) && ByHead(head, arg, count, unique).Some?
    ensures v == Value(Random(ByHead(head, arg, count, unique).value), at, list, env)
    ensures head == "[RANDSTR-(" && env.nested(arg) != "" ==>
      |v| == Capped(Number(count)) && forall c :: c in v ==> c in env.nested(arg)
    ensures head == "[RANDLINE-(" ==> v == env.lines(Line(env.nested(arg), count, unique), at)
    ensures head == "[RANDDFL-(" ==> v == env.lines(Dfl(env.nested(arg), count, unique), at)
  {
    v := Value(Random(ByHead(head, arg, count, unique).value), at, list, env);
    CountIs(count, 0);
  }

  // Wherever they stand, [RANDSTR-(chars)-n] is n characters out of what chars expands to,
  // and [RANDLINE-(file)-n] and [RANDDFL-(file)-n], with /u or not, what the data file gives.
  lemma ArgExpands(s: string, i: nat, j: nat, head: string, arg: string, count: string, unique: bool,
                   list: seq<Scalar>, env: Env) returns (v: string)
    requires i <= j <= |s| && Plain(arg, count) && s[i..j] == ArgText(head, arg, count, unique)
    requires (head == "[RANDSTR-(" && !unique) || head == "[RANDLINE-(" || head == "[RANDDFL-("
    ensures var width, show := WidthsOf(GRAMMAR), ValuesOf(GRAMMAR, list, env);
      Output(s, i, width, show) == v + Output(s, j, width, show)
    ensures head == "[RANDSTR-(" && env.nested(arg) != "" ==>
      |v| == Capped(Number(count)) && forall c :: c in v ==> c in env.nested(arg)
    ensures head == "[RANDLINE-(" ==> v == env.lines(Line(env.nested(arg), count, unique), i)
    ensures head == "[RANDDFL-(" ==> v == env.lines(Dfl(env.nested(arg), count, unique), i)
  {
    v := ValueByHead(i, head, arg, count, unique, list, env);
    ArgIsMacro(s, i, j, head, arg, count, unique, list, env);
    WrittenAs(s, i, j, WidthsOf(GRAMMAR), ValuesOf(GRAMMAR, list, env), v);
  }

  // An argument counts only for what its scalar macros expand to.
  lemma ArgumentIsExpanded(m: Macro, arg: string, at: nat, list: seq<Scalar>, env: Env)
    requires m.Random? && !m.r.Num? && env.nested(arg) == env.nested(m.r.arg)
    ensures Value(Random(m.r.(arg := arg)), at, list, env) == Value(m, at, list, env)
  {
  }

  // Every text over the characters can be drawn.
  lemma RandStrReaches(chars: string, w: string) returns (draw: nat -> nat)
    requires chars != "" && forall c :: c in w ==> c in chars
    ensures RandStr(chars, |w|, draw) == w
  {
    var at := Places(chars, w);
    draw := (i: nat) => if i < |at| then at[i] else 0;
    forall i | 0 <= i < |w| ensures RandStr(chars, |w|, draw)[i] == w[i] { Small(at[i], |chars|); }
  }

  lemma {:induction false} Places(chars: string, w: string) returns (at: seq<nat>)
    requires forall c :: c in w ==> c in chars
    ensures |at| == |w| && forall i :: 0 <= i < |w| ==> at[i] < |chars| && chars[at[i]] == w[i]
  {
    at := [];
    if w != "" {
      var n := |w| - 1;
      at := Places(chars, w[..n]);
      assert w[n] in w;
      var k: nat :| k < |chars| && chars[k] == w[n];
      at := at + [k];
    }
  }
}

/**
 UTC offsets: the printed form that filters and macros use, and the operator-written
 forms it is compared with.  Upper-casing and the length of a digit group are modelled
 on characters: no letter outside ASCII upper-cases to U, T, C, G, M or Z, and a group
 with one in it is not a number however it is cut.
 */
module Offsets {
  import opened Text
  import opened Wrappers

  const HOUR := 3600
  // The first offset, in seconds, that the parser refuses.
  const LIMIT := 15 * HOUR

  function TwoDigits(n: nat): string { if n < 10 then "0" + Itoa(n) else Itoa(n) }

  function HourMinute(h: nat, m: nat): string {
    if m == 0 then Itoa(h) else Itoa(h) + ":" + TwoDigits(m)
  }

  function Body(abs: nat): string { HourMinute(abs / 3600, abs % 3600 / 60) }

  function FormatOffset(sec: int): string { if sec < 0 then "-" + Body(-sec) else "+" + Body(sec) }

  // strings.Cut at a colon.
  function Cut(s: string): (string, string, bool) {
    if s == [] then (s, "", false)
    else if s[0] == ':' then ("", s[1..], true)
    else var (a, b, ok) := Cut(s[1..]); ([s[0]] + a, b, ok)
  }

  predicate Digits(s: string) { s != "" && forall c :: c in s ==> IsDigit(c) }

  // strconv.Atoi, but for the numbers that do not fit, which are out of range here anyway.
  function Atoi(s: string): Option<int> {
    if Digits(s) then Some(Number(s))
    else if s != "" && s[0] == '+' && Digits(s[1..]) then Some(Number(s[1..]))
    else if s != "" && s[0] == '-' && Digits(s[1..]) then Some(0 - Number(s[1..]))
    else None
  }

  function Upper(s: string): string {
    seq(|s|, i requires 0 <= i < |s| => if 'a' <= s[i] <= 'z' then s[i] - 32 as char else s[i])
  }

  // The typographic minus.
  function Retype(s: string): string {
    seq(|s|, i requires 0 <= i < |s| => if s[i] == '\U{2212}' then '-' else s[i])
  }

  function Stripped(s: string): string {
    TrimSpace(TrimPrefix(TrimPrefix(Upper(TrimSpace(Retype(s))), "UTC"), "GMT"))
  }

  // The hours and the minutes, as written.
  function Parts(s: string): (string, string) {
    var (hs, ms, colon) := Cut(s);
    if !colon && |hs| == 4 then (hs[..2], hs[2..]) else (hs, ms)
  }

  function Seconds(h: Option<int>, m: Option<int>): (r: Option<int>)
    ensures r.Some? ==> 0 <= r.value < LIMIT && r.value % 60 == 0
  {
    if h.None? || !(0 <= h.value <= 14) || m.None? || !(0 <= m.value <= 59) then None
    else Some(h.value * 3600 + m.value * 60)
  }

  function Clock(s: string): (r: Option<int>)
    ensures r.Some? ==> 0 <= r.value < LIMIT && r.value % 60 == 0
  {
    var (hs, ms) := Parts(s);
    Seconds(Atoi(hs), if ms == "" then Some(0) else Atoi(ms))
  }

  // The offset that s, already stripped, means in seconds.
  function Read(s: string): (r: Option<int>)
    ensures r.Some? ==> -LIMIT < r.value < LIMIT && r.value % 60 == 0
  {
    if s == "" || s == "Z" then Some(0)
    else if s[0] == '+' then Clock(s[1..])
    else if s[0] == '-' then
      var c := Clock(s[1..]);
      if c.None? then None else Some(-c.value)
    else Clock(s)
  }

  // What is accepted is a whole number of minutes under 15 hours.
  function Meaning(s: string): (r: Option<int>)
    ensures r.Some? ==> -LIMIT < r.value < LIMIT && r.value % 60 == 0
  {
    Read(Stripped(s))
  }

  function NormOffset(s: string): Option<string> {
    var sec := Meaning(s);
    if sec.None? then None else Some(FormatOffset(sec.value))
  }

  // ----- the printed form -----

  lemma {:induction false} CutAt(a: string, b: string)
    requires ':' !in a
    ensures Cut(a + ":" + b) == (a, b, true) && Cut(a) == (a, "", false)
  {
    if a == "" {
      assert (a + ":" + b)[1..] == b;
    } else {
      assert (a + ":" + b)[1..] == a[1..] + ":" + b && (a + ":" + b)[0] == a[0];
      CutAt(a[1..], b);
      assert [a[0]] + a[1..] == a;
    }
  }

  lemma CutHourMinute(h: nat, m: nat)
    ensures Cut(HourMinute(h, m)) == (Itoa(h), if m == 0 then "" else TwoDigits(m), m != 0)
  {
    CutAt(Itoa(h), TwoDigits(m));
  }

  lemma TwoDigitsRead(n: nat)
    ensures Digits(TwoDigits(n)) && Number(TwoDigits(n)) == n
  {
    NumberOfItoa(n);
    if n < 10 {
      var s := TwoDigits(n);
      assert s == ['0', Digit(n)] && s[..1] == ['0'] && ['0'][..0] == [];
      assert Number(s) == 10 * Number(s[..1]) + (s[1] - '0') as nat;
      assert Number(s[..1]) == 10 * Number([]) + 0;
    }
  }

  lemma HourMinuteInjective(h: nat, m: nat, h': nat, m': nat)
    requires HourMinute(h, m) == HourMinute(h', m')
    ensures h == h' && m == m'
  {
    CutHourMinute(h, m);
    CutHourMinute(h', m');
    ItoaInjective(h, h');
    TwoDigitsRead(m);
    TwoDigitsRead(m');
  }

  lemma BodyInjective(x: nat, y: nat)
    requires Body(x) == Body(y)
    ensures x / 60 == y / 60
  {
    HourMinuteInjective(x / 3600, x % 3600 / 60, y / 3600, y % 3600 / 60);
    MinutesOf(x);
    MinutesOf(y);
  }

  lemma MinutesOf(x: nat)
    ensures x / 3600 * 60 + x % 3600 / 60 == x / 60 && x % 3600 / 60 < 60
    ensures x / 3600 * 3600 + x % 3600 / 60 * 60 == x / 60 * 60
    ensures x < LIMIT ==> x / 3600 <= 14
  {
  }

  function Abs(n: int): nat { if n < 0 then -n else n }

  // Equal printed forms come from offsets of one sign and the same minutes.
  lemma PrintedApart(a: int, b: int)
    requires FormatOffset(a) == FormatOffset(b)
    ensures (a < 0 <==> b < 0) && Abs(a) / 60 == Abs(b) / 60
  {
    assert FormatOffset(a)[0] == (if a < 0 then '-' else '+') && FormatOffset(a)[1..] == Body(Abs(a));
    assert FormatOffset(b)[0] == (if b < 0 then '-' else '+') && FormatOffset(b)[1..] == Body(Abs(b));
    BodyInjective(Abs(a), Abs(b));
  }

  lemma PrintedInjective(a: int, b: int)
    requires FormatOffset(60 * a) == FormatOffset(60 * b)
    ensures a == b
  {
    PrintedApart(60 * a, 60 * b);
  }

  // ----- reading it back -----

  predicate Plain(c: char) { IsDigit(c) || c == ':' || c == '+' || c == '-' }

  lemma NotPrefix(s: string, p: string)
    requires p != "" && (s == "" || s[0] != p[0])
    ensures TrimPrefix(s, p) == s
  {
  }

  lemma PlainUpper(s: string)
    requires forall c :: c in s ==> Plain(c)
    ensures Upper(s) == s && Retype(s) == s && TrimSpace(s) == s
  {
    assert forall i :: 0 <= i < |s| ==> Plain(s[i]);
    assert Upper(s) == s;
    assert Retype(s) == s;
    if s != "" { assert Plain(s[0]) && Plain(s[|s| - 1]); }
    TrimSpaceTight(s);
  }

  lemma PlainIsTight(s: string)
    requires forall c :: c in s ==> Plain(c)
    ensures Stripped(s) == s
  {
    PlainUpper(s);
    if s != "" { assert Plain(s[0]); }
    NotPrefix(s, "UTC");
    NotPrefix(s, "GMT");
  }

  lemma ClockParts(s: string, hs: string, ms: string, h: nat, m: nat)
    requires Parts(s) == (hs, ms) && Atoi(hs) == Some(h) && h <= 14 && m <= 59
    requires if ms == "" then m == 0 else Atoi(ms) == Some(m)
    ensures Clock(s) == Some(h * 3600 + m * 60)
  {
  }

  lemma AtoiItoa(n: nat)
    ensures Atoi(Itoa(n)) == Some(n) && (n < 100 ==> |Itoa(n)| <= 2)
  {
    NumberOfItoa(n);
    if 10 <= n < 100 { assert Itoa(n / 10) == [Digit(n / 10)]; }
  }

  lemma AtoiTwoDigits(n: nat)
    ensures Atoi(TwoDigits(n)) == Some(n) && TwoDigits(n) != ""
  {
    TwoDigitsRead(n);
  }

  lemma ClockOfHourMinute(h: nat, m: nat)
    requires h <= 14 && m <= 59
    ensures Clock(HourMinute(h, m)) == Some(h * 3600 + m * 60)
  {
    CutHourMinute(h, m);
    AtoiItoa(h);
    AtoiTwoDigits(m);
    ClockParts(HourMinute(h, m), Itoa(h), if m == 0 then "" else TwoDigits(m), h, m);
  }

  lemma ClockOfBody(abs: nat)
    requires abs < LIMIT
    ensures Clock(Body(abs)) == Some(abs / 60 * 60)
  {
    MinutesOf(abs);
    ClockOfHourMinute(abs / 3600, abs % 3600 / 60);
  }

  lemma PlainHourMinute(h: nat, m: nat)
    ensures HourMinute(h, m) != "" && IsDigit(HourMinute(h, m)[0]) && forall c :: c in HourMinute(h, m) ==> Plain(c)
  {
    TwoDigitsRead(m);
    assert Itoa(h)[0] in Itoa(h) && HourMinute(h, m)[0] == Itoa(h)[0];
  }

  // A sign before a spelling that starts with a digit.
  lemma ReadSigned(w: string, v: int)
    requires w != "" && IsDigit(w[0]) && Clock(w) == Some(v)
    ensures Read("+" + w) == Some(v) && Read("-" + w) == Some(-v) && Read(w) == Some(v)
  {
    assert ("+" + w)[1..] == w && ("-" + w)[1..] == w;
  }

  lemma BodySpells(abs: nat)
    requires abs < LIMIT
    ensures Spells(Body(abs), abs / 60 * 60)
  {
    PlainHourMinute(abs / 3600, abs % 3600 / 60);
    ClockOfBody(abs);
  }

  lemma NormOfSigned(sign: string, w: string, v: int)
    requires (sign == "+" || sign == "-") && Spells(w, v)
    ensures NormOffset(sign + w) == Some(FormatOffset(if sign == "-" then 0 - v else v))
  {
    BareIsRead(sign, w, v);
  }

  lemma SameMinutes(x: nat, y: nat)
    requires x / 60 == y / 60
    ensures x / 3600 == y / 3600 && x % 3600 / 60 == y % 3600 / 60
  {
    MinutesOf(x);
    MinutesOf(y);
  }

  lemma SameBody(x: nat, y: nat)
    requires x / 60 == y / 60
    ensures Body(x) == Body(y)
  {
    SameMinutes(x, y);
  }

  // A printed offset spells its whole minutes, which print alike.
  lemma WholeMinutes(abs: nat) returns (v: nat, w: string)
    requires abs < LIMIT
    ensures w == Body(abs) == Body(v) && Spells(w, v)
    ensures v == 0 <==> abs < 60
  {
    v, w := abs / 60 * 60, Body(abs);
    BodySpells(abs);
    SameBody(abs, v);
  }

  lemma NormalEast(sec: nat)
    requires sec < LIMIT
    ensures NormOffset(FormatOffset(sec)) == Some(FormatOffset(sec))
  {
    var v, w := WholeMinutes(sec);
    NormOfSigned("+", w, v);
  }

  lemma NormalWest(abs: nat)
    requires 0 < abs < LIMIT
    ensures NormOffset(FormatOffset(0 - abs)) == Some(if abs < 60 then "+" + Body(0) else FormatOffset(0 - abs))
  {
    var v, w := WholeMinutes(abs);
    NormOfSigned("-", w, v);
    PrintWest(abs);
    if v > 0 { PrintWest(v); }
  }

  lemma PrintWest(abs: nat)
    requires abs > 0
    ensures FormatOffset(0 - abs) == "-" + Body(abs)
  {
  }

  // The printed form is its own normal form exactly below 15 hours, but for the offsets
  // of less than a minute west, which print as "-0".
  lemma PrintedIsNormal(sec: int)
    ensures NormOffset(FormatOffset(sec)) == Some(FormatOffset(sec)) <==> -LIMIT < sec < LIMIT && !(-60 < sec < 0)
  {
    if 0 <= sec < LIMIT {
      NormalEast(sec);
    } else if -LIMIT < sec < 0 {
      NormalWest(-sec);
      assert FormatOffset(sec)[0] != ("+" + Body(0))[0];
    } else {
      NotNormal(sec);
    }
  }

  lemma NotNormal(sec: int)
    requires !(-LIMIT < sec < LIMIT)
    ensures NormOffset(FormatOffset(sec)) != Some(FormatOffset(sec))
  {
    var m := Meaning(FormatOffset(sec));
    if m.Some? { FarApart(m.value, sec); }
  }

  lemma FarApart(v: int, sec: int)
    requires -LIMIT < v < LIMIT && !(-LIMIT < sec < LIMIT)
    ensures FormatOffset(v) != FormatOffset(sec)
  {
    MinutesBelow(Abs(v), Abs(sec));
    if FormatOffset(v) == FormatOffset(sec) { PrintedApart(v, sec); }
  }

  lemma MinutesBelow(x: nat, y: nat)
    requires x < LIMIT <= y
    ensures x / 60 < y / 60
  {
  }

  // Normalizing twice changes nothing.
  lemma NormIdempotent(s: string, t: string)
    requires NormOffset(s) == Some(t)
    ensures NormOffset(t) == Some(t)
  {
    PrintedAgain(Meaning(s).value);
  }

  lemma PrintedAgain(v: int)
    requires -LIMIT < v < LIMIT && v % 60 == 0
    ensures NormOffset(FormatOffset(v)) == Some(FormatOffset(v))
  {
    assert v == 60 * (v / 60);
    NormalMinutes(v / 60);
  }

  lemma NormalMinutes(n: int)
    requires -900 < n < 900
    ensures NormOffset(FormatOffset(60 * n)) == Some(FormatOffset(60 * n))
  {
    if n >= 0 { NormalEast(60 * n); } else { NormalWest(60 * -n); }
  }

  // ----- the forms an operator may write -----

  datatype Style = Short | Colon | Packed

  function Written(h: nat, m: nat, style: Style): string {
    match style
    case Short => HourMinute(h, m)
    case Colon => TwoDigits(h) + ":" + TwoDigits(m)
    case Packed => TwoDigits(h) + TwoDigits(m)
  }

  lemma TwoDigitsLength(n: nat)
    requires n < 100
    ensures |TwoDigits(n)| == 2
  {
    if n >= 10 { assert Itoa(n / 10) == [Digit(n / 10)]; }
  }

  lemma ClockOfWritten(h: nat, m: nat, style: Style)
    requires h <= 14 && m <= 59
    ensures Clock(Written(h, m, style)) == Some(h * 3600 + m * 60)
  {
    var hs, ms := TwoDigits(h), TwoDigits(m);
    AtoiTwoDigits(h);
    AtoiTwoDigits(m);
    TwoDigitsRead(h);
    TwoDigitsRead(m);
    match style
    case Short => ClockOfHourMinute(h, m);
    case Colon =>
      CutAt(hs, ms);
      ClockParts(hs + ":" + ms, hs, ms, h, m);
    case Packed =>
      TwoDigitsLength(h);
      TwoDigitsLength(m);
      assert (hs + ms)[..2] == hs && (hs + ms)[2..] == ms;
      CutAt(hs + ms, "");
      ClockParts(hs + ms, hs, ms, h, m);
  }

  predicate IsSign(s: string) { s == "" || s == "+" || s == "-" }

  // w is an unsigned spelling of v seconds.
  ghost predicate Spells(w: string, v: int) {
    w != "" && IsDigit(w[0]) && Clock(w) == Some(v) && forall c :: c in w ==> Plain(c)
  }

  lemma WrittenSpells(h: nat, m: nat, style: Style)
    requires h <= 14 && m <= 59
    ensures Spells(Written(h, m, style), h * 3600 + m * 60)
  {
    ClockOfWritten(h, m, style);
    PlainWritten(h, m, style);
  }

  lemma PlainWritten(h: nat, m: nat, style: Style)
    ensures Written(h, m, style) != "" && IsDigit(Written(h, m, style)[0])
    ensures forall c :: c in Written(h, m, style) ==> Plain(c)
  {
    TwoDigitsRead(h);
    TwoDigitsRead(m);
    assert TwoDigits(h)[0] in TwoDigits(h) && Itoa(h)[0] in Itoa(h);
    match style
    case Short => PlainHourMinute(h, m);
    case Colon => assert Written(h, m, Colon)[0] == TwoDigits(h)[0];
    case Packed => assert Written(h, m, Packed)[0] == TwoDigits(h)[0];
  }

  predicate IsZone(s: string) { s == "UTC" || s == "GMT" }

  // A zone's name before an offset is dropped.
  lemma StrippedZone(zone: string, s: string)
    requires IsZone(Upper(zone)) && s != "" && forall c :: c in s ==> Plain(c)
    ensures Stripped(zone + s) == s
  {
    var t := zone + s;
    ZoneLetters(zone);
    assert Plain(s[|s| - 1]) && Plain(s[0]);
    forall c | c in t ensures c != '\U{2212}' { assert c in zone || Plain(c); }
    RetypeNone(t);
    assert t[0] in zone && !IsSpace(t[|t| - 1]);
    TrimSpaceTight(t);
    PlainUpper(s);
    UpperOf(zone, s);
    StrippedHead(Upper(zone), s);
  }

  lemma RetypeNone(s: string)
    requires '\U{2212}' !in s
    ensures Retype(s) == s
  {
    forall i | 0 <= i < |s| ensures s[i] != '\U{2212}' { assert s[i] in s; }
  }

  lemma UpperOf(a: string, b: string)
    ensures Upper(a + b) == Upper(a) + Upper(b)
  {
  }

  lemma ZoneLetters(zone: string)
    requires IsZone(Upper(zone))
    ensures forall c :: c in zone ==> !IsSpace(c) && c != '\U{2212}'
    ensures |zone| == 3
  {
    var u := Upper(zone);
    assert |u| == 3;
    forall i | 0 <= i < 3 ensures !IsSpace(zone[i]) && zone[i] != '\U{2212}' {
      assert 'A' <= u[i] <= 'Z';
    }
  }

  lemma StrippedHead(zone: string, s: string)
    requires IsZone(zone) && s != "" && Plain(s[0])
    ensures TrimPrefix(TrimPrefix(zone + s, "UTC"), "GMT") == s
  {
    var t := zone + s;
    assert t[..3] == zone && t[3..] == s && t[0] == zone[0];
    if zone == "UTC" { NotPrefix(s, "GMT"); } else { NotPrefix(t, "UTC"); }
  }

  lemma BareIsRead(sign: string, w: string, v: int)
    requires IsSign(sign) && Spells(w, v)
    ensures Meaning(sign + w) == Some(if sign == "-" then -v else v)
  {
    if sign == "" { assert sign + w == w; }
    PlainIsTight(sign + w);
    ReadSigned(w, v);
  }

  // Every spelling, signed or not, after a zone's name or not, is read as what it spells.
  lemma SpelledIsRead(zone: string, sign: string, w: string, v: int)
    requires (zone == "" || IsZone(Upper(zone))) && IsSign(sign) && Spells(w, v)
    ensures Meaning(zone + (sign + w)) == Some(if sign == "-" then -v else v)
  {
    BareIsRead(sign, w, v);
    if zone == "" {
      assert zone + (sign + w) == sign + w;
    } else {
      if sign == "" { assert sign + w == w; }
      StrippedZone(zone, sign + w);
      PlainIsTight(sign + w);
    }
  }

  lemma MeaningOfLetters(s: string, u: string)
    requires s != "" && Retype(s) == s && !IsSpace(s[0]) && !IsSpace(s[|s| - 1]) && Upper(s) == u
    ensures Meaning(s) == Read(TrimSpace(TrimPrefix(TrimPrefix(u, "UTC"), "GMT")))
  {
    TrimSpaceTight(s);
  }

  // Greenwich has names of its own.
  lemma ZeroByName()
    ensures Meaning("Z") == Some(0) && Meaning("z") == Some(0)
    ensures Meaning("UTC") == Some(0) && Meaning("GMT") == Some(0)
  {
    ZuluIsZero("Z");
    ZuluIsZero("z");
    ZoneIsZero("UTC");
    ZoneIsZero("GMT");
  }

  lemma ZuluIsZero(s: string)
    requires s == "Z" || s == "z"
    ensures Meaning(s) == Some(0)
  {
    assert Upper(s) == "Z" && Retype(s) == s;
    MeaningOfLetters(s, "Z");
    NotPrefix("Z", "UTC");
    NotPrefix("Z", "GMT");
    TrimSpaceTight("Z");
  }

  lemma ZoneIsZero(s: string)
    requires s == "UTC" || s == "GMT"
    ensures Meaning(s) == Some(0)
  {
    assert Upper(s) == s && Retype(s) == s;
    MeaningOfLetters(s, s);
    if s == "UTC" { NotPrefix("", "GMT"); } else { NotPrefix("GMT", "UTC"); }
    TrimSpaceTight("");
  }

  // ----- the filter -----

  predicate Emptyish(s: string) { s == "" || s == "-" }

  // tzAny, for a way of comparing zone names.
  method TzAny(values: seq<string>, zone: string, offset: string, sameZone: (string, string) -> bool)
    returns (hit: bool)
    ensures hit <==> exists i :: 0 <= i < |values| && Accepts(TrimSpace(values[i]), zone, offset, sameZone)
  {
    for i := 0 to |values|
      invariant forall j :: 0 <= j < i ==> !Accepts(TrimSpace(values[j]), zone, offset, sameZone)
    {
      var e := TrimSpace(values[i]);
      if '/' in e {
        if !Emptyish(zone) && sameZone(e, zone) {
          return true;
        }
        continue;
      }
      if Emptyish(offset) {
        continue;
      }
      var n := NormOffset(e);
      if n.Some? && n.value == offset {
        return true;
      }
    }
    hit := false;
  }

  predicate Accepts(e: string, zone: string, offset: string, sameZone: (string, string) -> bool) {
    if '/' in e then !Emptyish(zone) && sameZone(e, zone)
    else !Emptyish(offset) && NormOffset(e) == Some(offset)
  }

  // A value with a slash is compared with the visitor's zone, if that is known, and with
  // nothing else; any other value has nothing to do with the zone.
  lemma ZonesMatchByName(e: string, zone: string, offset: string, other: string, sameZone: (string, string) -> bool)
    ensures '/' in e ==> (Accepts(e, zone, offset, sameZone) <==> zone != "" && zone != "-" && sameZone(e, zone))
    ensures '/' !in e ==> Accepts(e, zone, offset, sameZone) == Accepts(e, other, offset, sameZone)
    ensures '/' !in e && (offset == "" || offset == "-") ==> !Accepts(e, zone, offset, sameZone)
  {
  }

  lemma NormMeans(e: string, minutes: int)
    ensures NormOffset(e) == Some(FormatOffset(60 * minutes)) <==> Meaning(e) == Some(60 * minutes)
  {
    var m := Meaning(e);
    if m.Some? && FormatOffset(m.value) == FormatOffset(60 * minutes) {
      assert m.value == 60 * (m.value / 60);
      PrintedInjective(m.value / 60, minutes);
    }
  }

  // A value that is not a zone name accepts a visitor exactly when it means the
  // visitor's offset, in whole minutes.
  lemma OffsetsMatchAsNumbers(e: string, zone: string, minutes: int, sameZone: (string, string) -> bool)
    requires '/' !in e
    ensures Accepts(e, zone, FormatOffset(60 * minutes), sameZone) <==> Meaning(e) == Some(60 * minutes)
  {
    PrintedLength(60 * minutes);
    NormMeans(e, minutes);
  }

  lemma PrintedLength(sec: int)
    ensures |FormatOffset(sec)| > 1
  {
    PlainHourMinute(Abs(sec) / 3600, Abs(sec) % 3600 / 60);
  }

  // A zone less than a minute west of Greenwich is accepted by no offset at all.
  lemma SliverMatchesNothing(e: string, zone: string, sec: int, sameZone: (string, string) -> bool)
    requires '/' !in e && -60 < sec < 0
    ensures !Accepts(e, zone, FormatOffset(sec), sameZone)
  {
    NormNever(e, sec);
  }

  lemma NormNever(e: string, sec: int)
    requires -60 < sec < 0
    ensures NormOffset(e) != Some(FormatOffset(sec))
  {
    var m := Meaning(e);
    if m.Some? && FormatOffset(m.value) == FormatOffset(sec) { PrintedApart(m.value, sec); }
  }
}

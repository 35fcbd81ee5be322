/** Rate limits and serve limits over whole runs of concurrent calls. */
module Limits {
  import opened Redis
  import opened Text

  // One call, run by Redis at time now.  Calls of all requests are interleaved.
  datatype Timed = Timed(call: Call, now: nat)

  predicate InOrder(run: seq<Timed>, from: nat) {
    run == [] || (from <= run[0].now && InOrder(run[1..], run[0].now))
  }

  function State(db: Db, run: seq<Timed>): Db
    decreases |run|
  {
    if run == [] then db else State(After(db, run[0].call, run[0].now), run[1..])
  }

  predicate Touches(c: Call, key: string) { OpOf(c).Does? && OpOf(c).op.key == key }

  // How many a call's rule allows, and for how long: 0 and 0 if it counts nothing.
  function MaxOf(c: Call): int {
    match c
    case Firewall(_, _, max, _) => max
    case LoginAllow(_, max, _) => max
    case TakeLimit(_, _, rule, _) => if rule.enabled then rule.count else 0
    case _ => 0
  }

  // The rule's own window; a minute for a rate limit without one, a day for a limit per
  // period without one, and 48 hours for a daily limit.
  function WindowOf(c: Call): int {
    match c
    case Firewall(_, _, _, window) => if window > 0 then window else 60_000
    case LoginAllow(_, _, window) => if window > 0 then window else 60_000
    case TakeLimit(_, _, rule, _) =>
      if rule.kind != 2 then 48 * 3_600_000 else if rule.seconds > 0 then 1000 * rule.seconds else 24 * 3_600_000
    case _ => 0
  }

  // c guards key: at most max per window of length w.
  predicate Guards(c: Call, key: string, max: nat, w: nat) {
    && Touches(c, key) && MaxOf(c) == max && WindowOf(c) == w
    && (c.Firewall? || c.LoginAllow? || c.TakeLimit?)
  }

  // A rule that is off allows every call and counts none.
  lemma Disabled(db: Db, c: Call, now: nat)
    requires (c.Firewall? || c.LoginAllow? || c.TakeLimit?) && MaxOf(c) <= 0
    ensures Allowed(db, c, now) && After(db, c, now) == db
  {
  }

  predicate GuardedBy(run: seq<Timed>, key: string, max: nat, w: nat) {
    forall e :: e in run && Touches(e.call, key) ==> Guards(e.call, key, max, w)
  }

  // ----- the fixed window -----

  function AllowedIn(db: Db, run: seq<Timed>, key: string, t: nat, w: nat): nat
    decreases |run|
  {
    if run == [] then 0
    else
      var e := run[0];
      (if Touches(e.call, key) && t <= e.now < t + w && Allowed(db, e.call, e.now) then 1 else 0)
      + AllowedIn(After(db, e.call, e.now), run[1..], key, t, w)
  }

  // How many calls on key can still be allowed before t + w, seen at time now.
  function Room(db: Db, key: string, now: nat, t: nat, w: nat, max: nat): nat {
    if !Live(db, key, now) then max
    else
      (if db[key].n < max then max - db[key].n else 0)
      + (if db[key].exp.Until? && db[key].exp.t < t + w then max else 0)
  }

  lemma RoomLater(db: Db, key: string, now: nat, later: nat, t: nat, w: nat, max: nat)
    requires now <= later < t + w
    ensures Room(db, key, later, t, w, max) <= Room(db, key, now, t, w, max)
  {
  }

  lemma RoomAfter(db: Db, c: Call, key: string, now: nat, t: nat, w: nat, max: nat)
    requires t <= now < t + w && max > 0
    requires Touches(c, key) ==> Guards(c, key, max, w)
    ensures (if Touches(c, key) && Allowed(db, c, now) then 1 else 0) + Room(After(db, c, now), key, now, t, w, max)
         <= Room(db, key, now, t, w, max)
  {
  }

  lemma {:induction false} RoomBounds(db: Db, run: seq<Timed>, key: string, now: nat, t: nat, w: nat, max: nat)
    requires InOrder(run, now) && GuardedBy(run, key, max, w) && max > 0 && t <= now
    ensures now < t + w ==> AllowedIn(db, run, key, t, w) <= Room(db, key, now, t, w, max)
    ensures now >= t + w ==> AllowedIn(db, run, key, t, w) == 0
    decreases |run|
  {
    if run != [] {
      var e := run[0];
      assert e in run;
      var db' := After(db, e.call, e.now);
      RoomBounds(db', run[1..], key, e.now, t, w, max);
      if e.now < t + w {
        RoomLater(db, key, now, e.now, t, w, max);
        RoomAfter(db, e.call, key, e.now, t, w, max);
      }
    }
  }

  // Any half-open interval of length w holds at most 2 * max allowed calls per key,
  // whatever the database held before and whatever the other callers do.
  lemma {:induction false} FixedWindow(db: Db, run: seq<Timed>, from: nat, key: string, t: nat, w: nat, max: nat)
    requires InOrder(run, from) && GuardedBy(run, key, max, w) && max > 0
    ensures AllowedIn(db, run, key, t, w) <= 2 * max
    decreases |run|
  {
    if run != [] {
      var e := run[0];
      assert e in run;
      if t <= e.now {
        RoomBounds(db, run, key, e.now, t, w, max);
      } else {
        FixedWindow(After(db, e.call, e.now), run[1..], e.now, key, t, w, max);
      }
    }
  }

  // ----- every guarded key expires -----

  // If key has an expiry at all, it is at most w away.
  predicate Soon(db: Db, key: string, now: nat, w: nat) {
    Live(db, key, now) && db[key].exp.Until? ==> db[key].exp.t <= now + w
  }

  lemma {:induction false} SoonStays(db: Db, run: seq<Timed>, from: nat, key: string, w: nat, max: nat)
    requires InOrder(run, from) && GuardedBy(run, key, max, w) && Soon(db, key, from, w)
    ensures Soon(State(db, run), key, if run == [] then from else run[|run| - 1].now, w)
    decreases |run|
  {
    if run != [] {
      assert run[0] in run;
      var db' := After(db, run[0].call, run[0].now);
      assert Soon(db', key, run[0].now, w);
      SoonStays(db', run[1..], run[0].now, key, w, max);
    }
  }

  // Right after any rate-limited hit the key expires within w, even if it had no TTL
  // before; so nobody is locked out for longer.
  lemma HitExpires(db: Db, run: seq<Timed>, from: nat, e: Timed, key: string, w: nat, max: nat)
    requires InOrder(run + [e], from) && GuardedBy(run + [e], key, max, w) && Soon(db, key, from, w) && w > 0
    requires Guards(e.call, key, max, w) && (e.call.Firewall? || e.call.LoginAllow?)
    ensures var after := State(db, run + [e]);
      key in after && after[key].exp.Until? && e.now < after[key].exp.t <= e.now + w
  {
    Prefix(db, run, from, e);
    assert forall x :: x in run ==> x in run + [e];
    SoonStays(db, run, from, key, w, max);
    assert e in run + [e];
  }

  lemma {:induction false} Prefix(db: Db, run: seq<Timed>, from: nat, e: Timed)
    requires InOrder(run + [e], from)
    ensures InOrder(run, from) && (if run == [] then from else run[|run| - 1].now) <= e.now
    ensures State(db, run + [e]) == After(State(db, run), e.call, e.now)
    decreases |run|
  {
    if run == [] {
      assert run + [e] == [e] && [e][1..] == [];
    } else {
      assert (run + [e])[1..] == run[1..] + [e];
      Prefix(After(db, run[0].call, run[0].now), run[1..], run[0].now, e);
    }
  }

  // takeLimitScript heals a key without TTL exactly when the limit still has room.
  lemma TakeHeals(db: Db, key: string, ttl: nat, lim: nat, now: nat)
    requires Live(db, key, now) && db[key].exp.Never?
    ensures Apply(db, Take(key, ttl, lim), now).0[key].exp.Never? <==> db[key].n >= lim
  {
  }

  // ----- serve limits are exact -----

  // How many times a limit of lim on key was granted.
  function Granted(db: Db, run: seq<Timed>, key: string, lim: nat): nat
    decreases |run|
  {
    if run == [] then 0
    else
      var e := run[0];
      (if TakesOn(e.call, key, lim) && Allowed(db, e.call, e.now) then 1 else 0)
      + Granted(After(db, e.call, e.now), run[1..], key, lim)
  }

  predicate TakesOn(c: Call, key: string, lim: nat) {
    c.TakeLimit? && Touches(c, key) && c.rule.count == lim
  }

  // The run stays within one lifetime of key: nobody finds it expired.
  predicate OneLife(db: Db, run: seq<Timed>, key: string)
    decreases |run|
  {
    run == [] ||
    (&& (Touches(run[0].call, key) && key in db ==> Live(db, key, run[0].now))
     && OneLife(After(db, run[0].call, run[0].now), run[1..], key))
  }

  predicate OnlyTakes(run: seq<Timed>, key: string) {
    forall e :: e in run && Touches(e.call, key) ==> e.call.TakeLimit?
  }

  // However the calls are interleaved, a limit is granted at most lim times per
  // lifetime of its key, minus what the counter already shows.
  lemma {:induction false} GrantedPerLife(db: Db, run: seq<Timed>, key: string, lim: nat)
    requires OneLife(db, run, key) && OnlyTakes(run, key)
    ensures Granted(db, run, key, lim) <= (if key !in db then lim else if db[key].n < lim then lim - db[key].n else 0)
    decreases |run|
  {
    if run != [] {
      assert run[0] in run;
      GrantedPerLife(After(db, run[0].call, run[0].now), run[1..], key, lim);
    }
  }

  function AllowedAll(db: Db, run: seq<Timed>, key: string): nat
    decreases |run|
  {
    if run == [] then 0
    else
      var e := run[0];
      (if Touches(e.call, key) && Allowed(db, e.call, e.now) then 1 else 0)
      + AllowedAll(After(db, e.call, e.now), run[1..], key)
  }

  function Asked(run: seq<Timed>, key: string): nat {
    if run == [] then 0 else (if Touches(run[0].call, key) then 1 else 0) + Asked(run[1..], key)
  }

  // Nothing is refused early either: within one lifetime of a key guarded by max, the
  // first calls up to max are allowed and the others are not.
  lemma {:induction false} AllowedExactly(db: Db, run: seq<Timed>, key: string, max: nat, w: nat)
    requires OneLife(db, run, key) && GuardedBy(run, key, max, w) && max > 0
    ensures var left := if key !in db then max else if db[key].n < max then max - db[key].n else 0;
      AllowedAll(db, run, key) == if Asked(run, key) < left then Asked(run, key) else left
    decreases |run|
  {
    if run != [] {
      assert run[0] in run;
      AllowedExactly(After(db, run[0].call, run[0].now), run[1..], key, max, w);
    }
  }

  // ----- even rotation -----

  // What the Rotate calls on key answered, in order.
  function Indexes(db: Db, run: seq<Timed>, key: string): seq<int>
    decreases |run|
  {
    if run == [] then []
    else
      var rest := Indexes(After(db, run[0].call, run[0].now), run[1..], key);
      if Touches(run[0].call, key) then [Answer(db, run[0].call, run[0].now)] + rest else rest
  }

  predicate Rotates(run: seq<Timed>, key: string, mod: nat) {
    forall e :: e in run && Touches(e.call, key) ==> e.call.Rotate? && e.call.mod == mod
  }

  // The variant after n turns of the cycle.
  function Variant(n: nat, mod: nat): nat
    requires mod > 0
  {
    n % mod
  }

  function Turned(db: Db, key: string): nat { if key in db then db[key].n else 0 }

  // Concurrent requests share one cycle: any two answers less than mod apart differ, so
  // every mod answers in a row are the mod variants, each once.
  lemma {:induction false} RotationCycles(db: Db, run: seq<Timed>, key: string, mod: nat)
    requires Rotates(run, key, mod) && (key in db ==> db[key].exp.Never?) && mod > 1
    ensures forall j :: 0 <= j < |Indexes(db, run, key)| ==>
      Indexes(db, run, key)[j] == Variant(Turned(db, key) + j, mod)
    decreases |run|
  {
    if run != [] {
      assert run[0] in run;
      var db' := After(db, run[0].call, run[0].now);
      RotationCycles(db', run[1..], key, mod);
      var ix, rest := Indexes(db, run, key), Indexes(db', run[1..], key);
      assert forall j :: 0 <= j < |rest| ==> rest[j] == Variant(Turned(db', key) + j, mod);
      if Touches(run[0].call, key) {
        assert Turned(db', key) == Turned(db, key) + 1 && ix == [Answer(db, run[0].call, run[0].now)] + rest;
        assert ix[0] == Variant(Turned(db, key), mod);
        forall j | 0 < j < |ix| ensures ix[j] == Variant(Turned(db, key) + j, mod) {
          assert ix[j] == rest[j - 1] == Variant(Turned(db', key) + (j - 1), mod);
        }
      }
    }
  }

  lemma RotationIsEven(db: Db, run: seq<Timed>, key: string, mod: nat, i: nat, j: nat)
    requires Rotates(run, key, mod) && (key in db ==> db[key].exp.Never?) && mod > 1
    requires i < j < |Indexes(db, run, key)| && j - i < mod
    ensures Indexes(db, run, key)[i] != Indexes(db, run, key)[j]
  {
    RotationCycles(db, run, key, mod);
    var n := Turned(db, key);
    assert Indexes(db, run, key)[i] == Variant(n + i, mod) && Indexes(db, run, key)[j] == Variant(n + j, mod);
    Residues(n + i, n + j, mod);
  }

  lemma Residues(a: nat, b: nat, mod: nat)
    requires a < b < a + mod
    ensures Variant(a, mod) != Variant(b, mod)
  {
    var q, q' := a / mod, b / mod;
    assert a == q * mod + a % mod && b == q' * mod + b % mod;
    Multiple(q' - q, mod);
  }

  lemma Multiple(k: int, mod: nat)
    ensures k * mod <= 0 || k * mod >= mod
  {
  }

  // ----- the daily key -----

  lemma {:induction false} DateInRange(day: nat)
    ensures 1 <= DateOf(day).m <= 12 && 1 <= DateOf(day).d <= 31
  {
    if day > 0 { DateInRange(day - 1); }
  }

  lemma {:induction false} StampGrows(a: nat, b: nat)
    requires a < b
    ensures DateOf(a).Stamp() < DateOf(b).Stamp()
    decreases b
  {
    DateInRange(b - 1);
    if a < b - 1 { StampGrows(a, b - 1); }
  }

  lemma DayTextInjective(a: nat, b: nat)
    requires DayText(a) == DayText(b)
    ensures a == b
  {
    ItoaInjective(DateOf(a).Stamp(), DateOf(b).Stamp());
    if a < b { StampGrows(a, b); } else if b < a { StampGrows(b, a); }
  }

  // Each kind of key is recognised by its first letters.
  lemma KeyHeads(c: Call)
    requires OpOf(c).Does?
    ensures var key := OpOf(c).op.key;
      match c
      case Firewall(_, _, _, _) => |key| > 0 && key[0] == 'f'
      case LoginAllow(_, _, _) => |key| > 1 && key[0] == 'l' && key[1] == 'o'
      case TakeLimit(_, _, rule, _) =>
        |key| > 4 && key[0] == 'l' && key[1] == 'i' && key[4] == if rule.kind == 2 then 'p' else 'd'
      case Rotate(_, _, _) => |key| > 0 && key[0] == 'r'
      case Unique(_, _, _) => |key| > 0 && key[0] == 'u'
  {
  }

  lemma LastColon(a: string, x: string)
    requires ':' !in x
    ensures var s := a + ":" + x; s[|a|] == ':' && (forall i :: |a| < i < |s| ==> s[i] != ':') && s[|a| + 1..] == x
  {
    var s := a + ":" + x;
    forall i | |a| < i < |s| ensures s[i] != ':' { assert s[i] == x[i - |a| - 1]; }
  }

  // What follows the last colon is determined by the whole.
  lemma AfterLastColon(a: string, x: string, b: string, y: string)
    requires a + ":" + x == b + ":" + y && ':' !in x && ':' !in y
    ensures x == y
  {
    LastColon(a, x);
    LastColon(b, y);
  }

  // Only a daily take of that very day runs on a daily key.
  lemma DailyKeyTouched(c: Call, id: string, stream: string, day: nat)
    requires Touches(c, DailyKey(id, stream, day))
    ensures c.TakeLimit? && c.rule.kind != 2 && c.at / DAY == day && OpOf(c).op.ttl == 2 * DAY
  {
    var key := DailyKey(id, stream, day);
    assert key[0] == 'l' && key[1] == 'i' && key[4] == 'd';
    KeyHeads(c);
    SameDay(c.id, c.stream, c.at / DAY, id, stream, day);
  }

  lemma SameDay(i: string, s: string, d: nat, id: string, stream: string, day: nat)
    requires DailyKey(i, s, d) == DailyKey(id, stream, day)
    ensures d == day
  {
    AfterLastColon("lim:d:" + i + ":" + s, DayText(d), "lim:d:" + id + ":" + stream, DayText(day));
    DayTextInjective(d, day);
  }

  // Redis runs a take less than a day after its caller read the clock.
  predicate Prompt(run: seq<Timed>) {
    forall e :: e in run && e.call.TakeLimit? ==> e.call.at <= e.now < e.call.at + DAY
  }

  // key does not expire before the end of the day after its own.
  predicate OutlivesDay(db: Db, key: string, day: nat) {
    key in db && db[key].exp.Until? ==> db[key].exp.t >= (day + 2) * DAY
  }

  // The 48 hours of TTL outlive the day: a daily key has one life.
  lemma {:induction false} DailyOneLife(db: Db, run: seq<Timed>, id: string, stream: string, day: nat)
    requires Prompt(run) && OutlivesDay(db, DailyKey(id, stream, day), day)
    ensures OneLife(db, run, DailyKey(id, stream, day)) && OnlyTakes(run, DailyKey(id, stream, day))
    decreases |run|
  {
    var key := DailyKey(id, stream, day);
    if run != [] {
      var e := run[0];
      assert e in run;
      if Touches(e.call, key) {
        DailyKeyTouched(e.call, id, stream, day);
        WithinDays(e.call.at, e.now, day);
      }
      DailyOneLife(After(db, e.call, e.now), run[1..], id, stream, day);
    }
  }

  lemma WithinDays(at: nat, now: nat, day: nat)
    requires at / DAY == day && at <= now < at + DAY
    ensures day * DAY <= now < (day + 2) * DAY
  {
  }

  // A daily limit of Count is granted at most Count times per group, stream name and
  // UTC day, over every interleaving.
  lemma DailyLimit(db: Db, run: seq<Timed>, id: string, stream: string, day: nat, lim: nat)
    requires Prompt(run) && OutlivesDay(db, DailyKey(id, stream, day), day)
    ensures Granted(db, run, DailyKey(id, stream, day), lim) <= lim
  {
    DailyOneLife(db, run, id, stream, day);
    GrantedPerLife(db, run, DailyKey(id, stream, day), lim);
  }

  // A limit per period is granted at most Count times per lifetime of its key.
  lemma PeriodLimit(db: Db, run: seq<Timed>, id: string, stream: string, lim: nat)
    requires OneLife(db, run, PeriodKey(id, stream))
    ensures Granted(db, run, PeriodKey(id, stream), lim) <= lim
  {
    var key := PeriodKey(id, stream);
    assert key[0] == 'l' && key[1] == 'i' && key[4] == 'p';
    forall e | e in run && Touches(e.call, key) ensures e.call.TakeLimit? { KeyHeads(e.call); }
    GrantedPerLife(db, run, key, lim);
  }

  // ----- whose counter a key is -----

  predicate NoColon(s: string) { ':' !in s }

  // The part of a call's key that is the group's ID.
  function GroupOf(c: Call): string {
    match c
    case Firewall(id, _, _, _) => id
    case LoginAllow(_, _, _) => ""
    case TakeLimit(id, _, _, _) => id
    case Rotate(id, _, _) => id
    case Unique(id, _, _) => id
  }

  // The same visitor of the same group, the same login, the same stream and kind of limit
  // (and day), or the same rotation.
  predicate SameCounter(c: Call, d: Call) {
    match (c, d)
    case (Firewall(id, ip, _, _), Firewall(id', ip', _, _)) => id == id' && ip == ip'
    case (LoginAllow(who, _, _), LoginAllow(who', _, _)) => who == who'
    case (TakeLimit(id, stream, rule, at), TakeLimit(id', stream', rule', at')) =>
      && id == id' && stream == stream' && (rule.kind == 2 <==> rule'.kind == 2)
      && (rule.kind == 2 || at / DAY == at' / DAY)
    case (Rotate(id, stream, _), Rotate(id', stream', _)) => id == id' && stream == stream'
    case (Unique(id, ip, _), Unique(id', ip', _)) => id == id' && ip == ip'
    case _ => false
  }

  lemma ColonAt(head: string, a: string, x: string)
    requires NoColon(a)
    ensures var s, i := head + a + ":" + x, |head| + |a|;
      s[i] == ':' && (forall k :: |head| <= k < i ==> s[k] != ':') && s[|head|..i] == a && s[i + 1..] == x
  {
    var s := head + a + ":" + x;
    forall k | |head| <= k < |head| + |a| ensures s[k] != ':' { assert s[k] == a[k - |head|]; }
  }

  // What stands before the first colon behind head, and what behind it.
  lemma FirstColon(head: string, a: string, x: string, b: string, y: string)
    requires head + a + ":" + x == head + b + ":" + y && NoColon(a) && NoColon(b)
    ensures a == b && x == y
  {
    ColonAt(head, a, x);
    ColonAt(head, b, y);
  }

  lemma SameTail(head: string, a: string, b: string)
    ensures head + a == head + b <==> a == b
  {
    assert (head + a)[|head|..] == a && (head + b)[|head|..] == b;
  }

  // The stream's name and the day, told apart from behind.
  lemma SameDaily(id: string, s: string, d: nat, id': string, s': string, d': nat)
    requires NoColon(id) && NoColon(id') && DailyKey(id, s, d) == DailyKey(id', s', d')
    ensures id == id' && s == s' && d == d'
  {
    SameDay(id, s, d, id', s', d');
    var day := DayText(d);
    var x, y := s + ":" + day, s' + ":" + day;
    Grouped("lim:d:", id, s, day);
    Grouped("lim:d:", id', s', day);
    FirstColon("lim:d:", id, x, id', y);
    assert x[..|x| - |day| - 1] == s && y[..|y| - |day| - 1] == s';
  }

  lemma Grouped(head: string, id: string, s: string, day: string)
    ensures head + id + ":" + s + ":" + day == head + id + ":" + (s + ":" + day)
  {
  }

  // Two calls count on one key exactly if they are of the same counter, given that no
  // group's ID has a colon in it.
  lemma OneCounterEach(c: Call, d: Call)
    requires OpOf(c).Does? && OpOf(d).Does? && NoColon(GroupOf(c)) && NoColon(GroupOf(d))
    ensures Touches(d, OpOf(c).op.key) <==> SameCounter(c, d)
  {
    KeyHeads(c);
    KeyHeads(d);
    if Touches(d, OpOf(c).op.key) {
      match (c, d)
      case (Firewall(id, ip, _, _), Firewall(id', ip', _, _)) => FirstColon("fw:", id, ip, id', ip');
      case (LoginAllow(who, _, _), LoginAllow(who', _, _)) => SameTail("login:", who, who');
      case (TakeLimit(id, s, rule, at), TakeLimit(id', s', rule', at')) =>
        if rule.kind == 2 {
          FirstColon("lim:p:", id, s, id', s');
        } else {
          SameDaily(id, s, at / DAY, id', s', at' / DAY);
        }
      case (Rotate(id, s, _), Rotate(id', s', _)) => FirstColon("rot:", id, s, id', s');
      case (Unique(id, ip, _), Unique(id', ip', _)) => FirstColon("uniq:", id, ip, id', ip');
      case _ =>
    }
  }

  // With a colon in an ID two visitors can share a counter.
  lemma ColonShares()
    ensures Touches(Firewall("a", "b:1", 1, 0), OpOf(Firewall("a:b", "1", 1, 0)).op.key)
    ensures !SameCounter(Firewall("a:b", "1", 1, 0), Firewall("a", "b:1", 1, 0))
  {
  }

  // ----- nobody pays for the others -----

  // Every call of this counter lets at least n through, and no ID in the run has a colon.
  predicate LetsThrough(run: seq<Timed>, c: Call, n: nat) {
    forall e :: e in run ==> NoColon(GroupOf(e.call)) && (SameCounter(c, e.call) ==> MaxOf(e.call) >= n)
  }

  function Own(run: seq<Timed>, c: Call): nat {
    if run == [] then 0 else (if SameCounter(c, run[0].call) then 1 else 0) + Own(run[1..], c)
  }

  function OwnAllowed(db: Db, run: seq<Timed>, c: Call): nat
    decreases |run|
  {
    if run == [] then 0
    else
      var e := run[0];
      (if SameCounter(c, e.call) && Allowed(db, e.call, e.now) then 1 else 0)
      + OwnAllowed(After(db, e.call, e.now), run[1..], c)
  }

  function Counted(db: Db, key: string): nat { if key in db then db[key].n else 0 }

  // Who has not asked more often than he may is never refused, whoever else asks
  // whatever in between.
  lemma {:induction false} NobodyElseCounts(db: Db, run: seq<Timed>, c: Call, n: nat)
    requires (c.Firewall? || c.LoginAllow? || c.TakeLimit?) && OpOf(c).Does? && NoColon(GroupOf(c))
    requires Counted(db, OpOf(c).op.key) + Own(run, c) <= n && LetsThrough(run, c, n)
    ensures OwnAllowed(db, run, c) == Own(run, c)
    decreases |run|
  {
    if run != [] {
      var e := run[0];
      assert e in run;
      var db' := After(db, e.call, e.now);
      OneAsks(db, e, c, n);
      NobodyElseCounts(db', run[1..], c, n);
    }
  }

  lemma OneAsks(db: Db, e: Timed, c: Call, n: nat)
    requires (c.Firewall? || c.LoginAllow? || c.TakeLimit?) && OpOf(c).Does? && NoColon(GroupOf(c))
    requires NoColon(GroupOf(e.call)) && (SameCounter(c, e.call) ==> MaxOf(e.call) >= n)
    requires Counted(db, OpOf(c).op.key) + (if SameCounter(c, e.call) then 1 else 0) <= n
    ensures SameCounter(c, e.call) ==> Allowed(db, e.call, e.now)
    ensures Counted(After(db, e.call, e.now), OpOf(c).op.key)
      <= Counted(db, OpOf(c).op.key) + if SameCounter(c, e.call) then 1 else 0
  {
    if OpOf(e.call).Does? { OneCounterEach(c, e.call); }
  }

  // ----- the calendar -----

  // Days from the first of January of the year 1 to the first of January of year y.
  function DaysBefore(y: nat): int
    requires y > 0
  {
    365 * (y - 1) + (y - 1) / 4 - (y - 1) / 100 + (y - 1) / 400
  }

  const MONTH_STARTS := [0, 31, 59, 90, 120, 151, 181, 212, 243, 273, 304, 334]

  // The number of a date in the Gregorian calendar.
  function DayNumber(a: Date): int
    requires a.y > 0 && 1 <= a.m <= 12
  {
    DaysBefore(a.y) + MONTH_STARTS[a.m - 1] + (if a.m > 2 && LeapYear(a.y) then 1 else 0) + a.d - 1
  }

  lemma YearLength(y: nat)
    requires y > 0
    ensures DaysBefore(y + 1) == DaysBefore(y) + 365 + if y % 4 == 0 && (y % 100 != 0 || y % 400 == 0) then 1 else 0
  {
    Quotient(y, 4);
    Quotient(y, 100);
    Quotient(y, 400);
  }

  lemma Quotient(y: nat, n: nat)
    requires y > 0 && n > 0
    ensures y / n == (y - 1) / n + if y % n == 0 then 1 else 0
  {
    var q, r := (y - 1) / n, (y - 1) % n;
    assert y == q * n + r + 1;
    if r + 1 == n {
      assert y == (q + 1) * n;
      DivMod(y, q + 1, 0, n);
    } else {
      DivMod(y, q, r + 1, n);
    }
  }

  lemma DivMod(y: nat, q: nat, r: nat, n: nat)
    requires r < n && y == q * n + r
    ensures y / n == q && y % n == r
  {
    var q', r' := y / n, y % n;
    assert y == q' * n + r';
    if q' < q { Multiple(q - q', n); }
    if q < q' { Multiple(q' - q, n); }
  }

  predicate IsDate(a: Date) { a.y > 0 && 1 <= a.m <= 12 && 1 <= a.d <= MonthLength(a.y, a.m) }

  lemma TomorrowIsNext(a: Date)
    requires IsDate(a)
    ensures IsDate(Tomorrow(a)) && DayNumber(Tomorrow(a)) == DayNumber(a) + 1
  {
    if a.m == 12 && a.d == 31 { YearLength(a.y); }
  }

  // The date in a daily key is that day's: 719162 days after the first day of the year 1
  // is 1970-01-01.
  lemma {:induction false} DateIsTheDay(day: nat)
    ensures IsDate(DateOf(day)) && DayNumber(DateOf(day)) == 719162 + day
  {
    if day > 0 {
      DateIsTheDay(day - 1);
      TomorrowIsNext(DateOf(day - 1));
    }
  }
}

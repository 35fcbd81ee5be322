/**
 Counters over Redis: a map from key to a count with an optional expiry, changed by
 scripts that run as one step each.  Times are milliseconds since the epoch; `now` is
 Redis's clock when the script runs.
 */
module Redis {
  import opened Text

  datatype Expiry = Never | Until(t: nat)
  datatype Cell = Cell(n: nat, exp: Expiry)
  type Db = map<string, Cell>

  predicate Live(db: Db, key: string, now: nat) {
    key in db && (db[key].exp.Never? || now < db[key].exp.t)
  }

  function Read(db: Db, key: string, now: nat): nat {
    if Live(db, key, now) then db[key].n else 0
  }

  // What the scripts and commands do to one key.
  datatype Op =
    | Hit(key: string, ttl: nat)              // incrTTLScript
    | Take(key: string, ttl: nat, lim: nat)   // takeLimitScript
    | Incr(key: string)                       // INCR
    | SetNX(key: string, ttl: nat)            // SET NX with a TTL

  // INCR, then PEXPIRE if this was the first or the key has no TTL.
  function Bumped(db: Db, key: string, ttl: nat, now: nat): Db {
    var n := Read(db, key, now) + 1;
    var exp := if n == 1 || !Live(db, key, now) || db[key].exp.Never? then Until(now + ttl) else db[key].exp;
    db[key := Cell(n, exp)]
  }

  // The database after the step, and what the script returns.
  function Apply(db: Db, op: Op, now: nat): (r: (Db, int))
    ensures forall k :: k != op.key ==> (k in r.0 <==> k in db) && (k in db ==> r.0[k] == db[k])
  {
    match op
    case Hit(key, ttl) => (Bumped(db, key, ttl, now), Read(db, key, now) + 1)
    case Take(key, ttl, lim) =>
      if Read(db, key, now) >= lim then (db, -1)
      else (Bumped(db, key, ttl, now), Read(db, key, now) + 1)
    case Incr(key) =>
      var n := Read(db, key, now) + 1;
      (db[key := Cell(n, if Live(db, key, now) then db[key].exp else Never)], n)
    case SetNX(key, ttl) =>
      if Live(db, key, now) then (db, 0) else (db[key := Cell(1, Until(now + ttl))], 1)
  }

  // ----- the calls of package store -----

  datatype LimitRule = LimitRule(enabled: bool, kind: int, count: int, seconds: int)

  datatype Call =
    | Firewall(id: string, ip: string, max: int, window: int)
    | LoginAllow(who: string, max: int, window: int)
    | TakeLimit(id: string, stream: string, rule: LimitRule, at: nat)  // at: the caller's clock
    | Rotate(id: string, stream: string, mod: int)
    | Unique(id: string, ip: string, ttl: int)

  const MINUTE := 60_000
  const DAY := 86_400_000

  function Positive(x: int, default: nat): (r: nat)
    ensures default > 0 ==> r > 0
  {
    if x > 0 then x else default
  }

  datatype Date = Date(y: nat, m: nat, d: nat) {
    function Stamp(): nat { 10000 * y + 100 * m + d }
  }

  predicate LeapYear(y: nat) { y % 4 == 0 && (y % 100 != 0 || y % 400 == 0) }

  function MonthLength(y: nat, m: nat): nat {
    if m == 2 then (if LeapYear(y) then 29 else 28)
    else if m == 4 || m == 6 || m == 9 || m == 11 then 30 else 31
  }

  function Tomorrow(a: Date): Date {
    if a.d < MonthLength(a.y, a.m) then Date(a.y, a.m, a.d + 1)
    else if a.m < 12 then Date(a.y, a.m + 1, 1)
    else Date(a.y + 1, 1, 1)
  }

  // The UTC date, days after 1970-01-01.
  function DateOf(day: nat): Date {
    if day == 0 then Date(1970, 1, 1) else Tomorrow(DateOf(day - 1))
  }

  // Format("20060102")
  function DayText(day: nat): string { Itoa(DateOf(day).Stamp()) }

  function DailyKey(id: string, stream: string, day: nat): string {
    "lim:d:" + id + ":" + stream + ":" + DayText(day)
  }

  function PeriodKey(id: string, stream: string): string { "lim:p:" + id + ":" + stream }

  // limitKey: the key and its TTL.
  function LimitKey(id: string, stream: string, rule: LimitRule, at: nat): (string, nat) {
    if rule.kind == 2 then (PeriodKey(id, stream), Positive(1000 * rule.seconds, DAY))
    else (DailyKey(id, stream, at / DAY), 2 * DAY)
  }

  datatype MaybeOp = NoOp | Does(op: Op)

  // The script a call runs, if it runs one.
  function OpOf(c: Call): MaybeOp {
    match c
    case Firewall(id, ip, max, window) =>
      if max <= 0 then NoOp else Does(Hit("fw:" + id + ":" + ip, Positive(window, MINUTE)))
    case LoginAllow(who, max, window) =>
      if max <= 0 then NoOp else Does(Hit("login:" + who, Positive(window, MINUTE)))
    case TakeLimit(id, stream, rule, at) =>
      if !rule.enabled || rule.count <= 0 then NoOp
      else var (key, ttl) := LimitKey(id, stream, rule, at); Does(Take(key, ttl, rule.count))
    case Rotate(id, stream, mod) => if mod <= 1 then NoOp else Does(Incr("rot:" + id + ":" + stream))
    case Unique(id, ip, ttl) => Does(SetNX("uniq:" + id + ":" + ip, Positive(ttl, DAY)))
  }

  function After(db: Db, c: Call, now: nat): Db {
    if OpOf(c).NoOp? then db else Apply(db, OpOf(c).op, now).0
  }

  // What a call answers: allowed or not (1/0), or the index of Rotate.
  function Answer(db: Db, c: Call, now: nat): int {
    if OpOf(c).NoOp? then (if c.Rotate? then 0 else 1)
    else
      var n := Apply(db, OpOf(c).op, now).1;
      match c
      case Firewall(_, _, max, _) => if n <= max then 1 else 0
      case LoginAllow(_, max, _) => if n <= max then 1 else 0
      case TakeLimit(_, _, _, _) => if n >= 0 then 1 else 0
      case Rotate(_, _, mod) => if mod > 0 then (n - 1) % mod else 0
      case Unique(_, _, _) => n
  }

  predicate Allowed(db: Db, c: Call, now: nat) { Answer(db, c, now) != 0 }

  // The store, updated in place by its callers.
  class Counters {
    var db: Db

    constructor ()
      ensures db == map[]
    {
      db := map[];
    }

    method IncrWithTTL(key: string, ttl: nat, now: nat) returns (n: int)
      modifies this
      ensures (db, n) == Apply(old(db), Hit(key, ttl), now)
    {
      var live := Live(db, key, now);
      n := (if live then db[key].n else 0) + 1;
      var exp := if live then db[key].exp else Never;
      db := db[key := Cell(n, exp)];
      if n == 1 || exp.Never? {
        db := db[key := Cell(n, Until(now + ttl))];
      }
      assert db == Bumped(old(db), key, ttl, now);
    }

    method FirewallCheck(id: string, ip: string, max: int, window: int, now: nat) returns (allowed: bool)
      modifies this
      ensures db == After(old(db), Firewall(id, ip, max, window), now)
      ensures allowed == Allowed(old(db), Firewall(id, ip, max, window), now)
    {
      if max <= 0 {
        return true;
      }
      var w := window;
      if w <= 0 {
        w := MINUTE;
      }
      var n := IncrWithTTL("fw:" + id + ":" + ip, w, now);
      allowed := n <= max;
    }

    method LoginCheck(who: string, max: int, window: int, now: nat) returns (allowed: bool)
      modifies this
      ensures db == After(old(db), LoginAllow(who, max, window), now)
      ensures allowed == Allowed(old(db), LoginAllow(who, max, window), now)
    {
      if max <= 0 {
        return true;
      }
      var w := window;
      if w <= 0 {
        w := MINUTE;
      }
      var n := IncrWithTTL("login:" + who, w, now);
      allowed := n <= max;
    }

    method TakeUnit(id: string, stream: string, rule: LimitRule, at: nat, now: nat) returns (ok: bool)
      modifies this
      ensures db == After(old(db), TakeLimit(id, stream, rule, at), now)
      ensures ok == Allowed(old(db), TakeLimit(id, stream, rule, at), now)
    {
      if !rule.enabled || rule.count <= 0 {
        return true;
      }
      var (key, ttl) := LimitKey(id, stream, rule, at);
      var live := Live(db, key, now);
      var n: int := if live then db[key].n else 0;
      if n >= rule.count {
        return false;
      }
      n := n + 1;
      var exp := if live then db[key].exp else Never;
      if n == 1 || exp.Never? {
        exp := Until(now + ttl);
      }
      db := db[key := Cell(n, exp)];
      ok := n >= 0;
    }

    method RotateIndex(id: string, stream: string, mod: int, now: nat) returns (i: int)
      modifies this
      ensures db == After(old(db), Rotate(id, stream, mod), now)
      ensures i == Answer(old(db), Rotate(id, stream, mod), now)
      ensures mod > 0 ==> 0 <= i < mod
    {
      if mod <= 1 {
        return 0;
      }
      var key := "rot:" + id + ":" + stream;
      var n: nat := (if Live(db, key, now) then db[key].n else 0) + 1;
      db := db[key := Cell(n, if Live(db, key, now) then db[key].exp else Never)];
      i := (n - 1) % mod;
    }
  }
}

/** Intervals of the background jobs. */
module CronConfig {

  datatype Entry = Entry(enabled: bool, everyMinutes: int)

  // The part of cron.Config that the schedule depends on.
  datatype Config = Config(ipLists: Entry, geoDB: Entry,
    virusTotal: Entry, disk: Entry, cleanup: Entry, conversions: Entry)

  const JOBS := ["ip_lists", "geo_db", "virustotal", "disk", "cleanup", "conversions"]
  const TELEGRAM_TEST := "telegram_test"

  // Nanoseconds, as in time.Duration.
  const MINUTE := 60_000_000_000
  // The most minutes a time.Duration can hold.
  const MAX_MINUTES := 153_722_867

  // A product in int64, which wraps around.
  function Wrap(n: int): int { (n + 0x8000_0000_0000_0000) % 0x1_0000_0000_0000_0000 - 0x8000_0000_0000_0000 }

  function EntryOf(c: Config, job: string): Entry {
    if job == "ip_lists" then c.ipLists
    else if job == "geo_db" then c.geoDB
    else if job == "virustotal" then c.virusTotal
    else if job == "disk" then c.disk
    else if job == "cleanup" then c.cleanup
    else if job == "conversions" then c.conversions
    else Entry(false, 0)
  }

  function Enabled(c: Config, job: string): bool { EntryOf(c, job).enabled }

  function MinInterval(job: string): nat {
    if job == "ip_lists" then 10
    else if job == "geo_db" || job == "cleanup" then 60
    else if job == "virustotal" then 30
    else if job == "disk" || job == "conversions" then 1
    else 0
  }

  // The minutes between runs that the configuration asks for.
  function Minutes(c: Config, job: string): int {
    var m := EntryOf(c, job).everyMinutes;
    if m < MinInterval(job) then MinInterval(job) else m
  }

  function Interval(c: Config, job: string): int { Wrap(Minutes(c, job) * MINUTE) }

  // Every job goes by its own switch, its own setting and its own minimum.
  lemma OwnSettings(c: Config)
    ensures Minutes(c, "ip_lists") == Max(10, c.ipLists.everyMinutes) && Enabled(c, "ip_lists") == c.ipLists.enabled
    ensures Minutes(c, "geo_db") == Max(60, c.geoDB.everyMinutes) && Enabled(c, "geo_db") == c.geoDB.enabled
    ensures Minutes(c, "virustotal") == Max(30, c.virusTotal.everyMinutes)
    ensures Enabled(c, "virustotal") == c.virusTotal.enabled
    ensures Minutes(c, "disk") == Max(1, c.disk.everyMinutes) && Enabled(c, "disk") == c.disk.enabled
    ensures Minutes(c, "cleanup") == Max(60, c.cleanup.everyMinutes) && Enabled(c, "cleanup") == c.cleanup.enabled
    ensures Minutes(c, "conversions") == Max(1, c.conversions.everyMinutes)
    ensures Enabled(c, "conversions") == c.conversions.enabled
    ensures forall job :: job !in JOBS ==> !Enabled(c, job)
  {
    assert JOBS[0] == "ip_lists" && JOBS[1] == "geo_db" && JOBS[2] == "virustotal";
    assert JOBS[3] == "disk" && JOBS[4] == "cleanup" && JOBS[5] == "conversions";
  }

  function Max(a: int, b: int): int { if a < b then b else a }

  // No upper bound is enforced on the setting: the interval is the configured one, which
  // is never below the job's minimum, exactly when it fits in a time.Duration.
  lemma IntervalExact(c: Config, job: string)
    ensures Interval(c, job) == Minutes(c, job) * MINUTE <==> Minutes(c, job) <= MAX_MINUTES
    ensures Minutes(c, job) >= MinInterval(job) && Minutes(c, job) >= EntryOf(c, job).everyMinutes
    ensures Minutes(c, job) <= MAX_MINUTES ==> Interval(c, job) >= MinInterval(job) * MINUTE
  {
  }

  // A setting above the bound that makes the job due the moment it ends.
  lemma IntervalOverflows(c: Config)
    requires c.virusTotal.everyMinutes == MAX_MINUTES + 1
    ensures Interval(c, "virustotal") < 0
  {
  }
}

/** The state machine of cron.Runner: one ticking goroutine, one goroutine per run. */
module CronRunner {
  import opened CronConfig

  // Times are nanoseconds since the zero time.Time.
  datatype JobStatus = JobStatus(lastRun: int, ok: bool, message: string, durationMs: int, nextRun: int, running: bool)

  const NEVER := JobStatus(0, false, "", 0, 0, false)

  function StatusOf(jobs: map<string, JobStatus>, job: string): JobStatus {
    if job in jobs then jobs[job] else NEVER
  }

  // ----- the sections under the lock -----

  // What exec returned, and when.
  datatype Outcome = Outcome(began: int, ended: int, msg: string, err: string)

  function NextRun(job: string, at: int, cfg: Config): int {
    if job == TELEGRAM_TEST then 0 else at + Interval(cfg, job)
  }

  function Report(o: Outcome): string {
    if o.err == "" then o.msg else if o.msg == "" then o.err else o.msg + " — " + o.err
  }

  function Completed(job: string, cfg: Config, o: Outcome, at: int): JobStatus {
    JobStatus(o.began, o.err == "", Report(o), (o.ended - o.began) / 1_000_000, NextRun(job, at, cfg), false)
  }

  predicate IsDue(jobs: map<string, JobStatus>, cfg: Config, job: string, now: int) {
    Enabled(cfg, job) && StatusOf(jobs, job).nextRun <= now
  }

  class Runner {
    var jobs: map<string, JobStatus>
    var running: set<string>

    // A flag left up in the file belongs to a process that is gone.
    constructor (st: map<string, JobStatus>)
      ensures running == {} && jobs == Cleared(st)
    {
      running := {};
      jobs := map k | k in st :: st[k].(running := false);
    }

    // The part of Tick under the lock: whether to go on to start.
    method Check(cfg: Config, job: string, now: int, requested: set<string>) returns (due: bool, go: bool)
      ensures due == IsDue(jobs, cfg, job, now)
      ensures go == (job !in running && (due || job in requested))
    {
      var js := StatusOf(jobs, job);
      due := Enabled(cfg, job) && !(now < js.nextRun);
      var busy := job in running;
      go := !(busy || !(due || job in requested));
    }

    // The first part of start.
    method Claim(job: string) returns (ok: bool, prev: JobStatus)
      modifies this
      ensures ok == (job !in old(running)) && prev == StatusOf(old(jobs), job)
      ensures ok ==> running == old(running) + {job} && jobs == old(jobs)[job := prev.(running := true)]
      ensures !ok ==> running == old(running) && jobs == old(jobs)
    {
      prev := StatusOf(jobs, job);
      if job in running {
        return false, prev;
      }
      running := running + {job};
      var js := prev;
      js := js.(running := true);
      jobs := jobs[job := js];
      ok := true;
    }

    // The last part of start's goroutine; ctxErr tells a shutdown.
    method End(job: string, cfg: Config, prev: JobStatus, o: Outcome, now: int, ctxErr: bool)
      modifies this
      ensures running == old(running) - {job}
      ensures jobs == old(jobs)[job := if ctxErr then prev else Completed(job, cfg, o, now)]
      ensures !ctxErr ==> var js := jobs[job];
        && js.lastRun == o.began && js.ok == (o.err == "") && !js.running
        && js.durationMs == (o.ended - o.began) / 1_000_000
        && js.nextRun == (if job == "telegram_test" then 0 else now + Interval(cfg, job))
        && js.message == (if o.msg != "" && o.err != "" then o.msg + " — " + o.err else o.msg + o.err)
    {
      if ctxErr {
        jobs := jobs[job := prev];
        running := running - {job};
        return;
      }
      var took := o.ended - o.began;
      var js := JobStatus(o.began, o.err == "", o.msg, took / 1_000_000, 0, false);
      if o.err != "" {
        js := js.(message := o.err);
        if o.msg != "" {
          js := js.(message := o.msg + " — " + o.err);
        }
      }
      if job != TELEGRAM_TEST {
        js := js.(nextRun := now + Interval(cfg, job));
      }
      jobs := jobs[job := js];
      running := running - {job};
    }
  }

  function Cleared(st: map<string, JobStatus>): map<string, JobStatus> {
    map k | k in st :: st[k].(running := false)
  }

  // ----- runs -----

  datatype Event =
    | Began(job: string, at: int, due: bool, was: JobStatus)   // was: the status the run found
    | Done(job: string, at: int, cfg: Config)

  // A run in flight.
  datatype Instance = Instance(job: string, cfg: Config, prev: JobStatus)

  datatype Tick =
    | Idle
    | Loop(cfg: Config, now: int, requested: set<string>, i: nat, since: Mark)
    | Starting(cfg: Config, now: int, requested: set<string>, i: nat, since: Mark, job: string, due: bool)

  // Where the tick began: the length of the log and the jobs that were busy.
  datatype Mark = Mark(log: nat, busy: set<string>)

  datatype State = State(
    jobs: map<string, JobStatus>, running: set<string>, live: seq<Instance>,
    tick: Tick, clock: int, cancelled: bool, log: seq<Event>)

  // New, on the statuses read from the file.
  function New(st: map<string, JobStatus>, clock: int): State {
    State(Cleared(st), {}, [], Idle, clock, false, [])
  }

  datatype Action =
    | Pass(time: nat)
    | Cancel
    | TickBegins(cfg: Config, requested: set<string>)   // with a usable config
    | TickGoesOn                                        // the next job of the loop, or the end of it
    | TickStarts                                        // start, called by the loop
    | Ends(k: nat, o: Outcome)                          // run k returned from exec

  function Resume(t: Tick): Tick
    requires t.Starting?
  {
    Loop(t.cfg, t.now, t.requested, t.i + 1, t.since)
  }

  function GoOn(s: State): State
    requires s.tick.Loop?
  {
    var t := s.tick;
    if t.i < |JOBS| then
      var job := JOBS[t.i];
      var due := IsDue(s.jobs, t.cfg, job, t.now);
      if job in s.running || !(due || job in t.requested)
      then s.(tick := Loop(t.cfg, t.now, t.requested, t.i + 1, t.since))
      else s.(tick := Starting(t.cfg, t.now, t.requested, t.i, t.since, job, due))
    else if t.i == |JOBS| && TELEGRAM_TEST in t.requested then
      s.(tick := Starting(t.cfg, t.now, t.requested, t.i, t.since, TELEGRAM_TEST, false))
    else s.(tick := Idle)
  }

  function Started(s: State): State
    requires s.tick.Starting?
  {
    var job := s.tick.job;
    if job in s.running then s.(tick := Resume(s.tick))
    else
      var prev := StatusOf(s.jobs, job);
      s.(jobs := s.jobs[job := prev.(running := true)], running := s.running + {job},
         live := s.live + [Instance(job, s.tick.cfg, prev)], tick := Resume(s.tick),
         log := s.log + [Began(job, s.clock, s.tick.due, prev)])
  }

  function Ended(s: State, k: nat, o: Outcome): State
    requires k < |s.live|
  {
    var x := s.live[k];
    s.(jobs := s.jobs[x.job := if s.cancelled then x.prev else Completed(x.job, x.cfg, o, s.clock)],
       running := s.running - {x.job}, live := s.live[..k] + s.live[k + 1..],
       log := if s.cancelled then s.log else s.log + [Done(x.job, s.clock, x.cfg)])
  }

  function Next(s: State, a: Action): State {
    match a
    case Pass(time) => s.(clock := s.clock + time)
    case Cancel => s.(cancelled := true)
    case TickBegins(cfg, requested) =>
      if s.tick.Idle? then s.(tick := Loop(cfg, s.clock, requested, 0, Mark(|s.log|, s.running))) else s
    case TickGoesOn => if s.tick.Loop? then GoOn(s) else s
    case TickStarts => if s.tick.Starting? then Started(s) else s
    case Ends(k, o) => if k < |s.live| then Ended(s, k, o) else s
  }

  function Exec(s: State, actions: seq<Action>): State
    decreases |actions|
  {
    if actions == [] then s else Next(Exec(s, actions[..|actions| - 1]), actions[|actions| - 1])
  }

  // ----- invariants -----

  // One run per busy job.
  ghost predicate Owners(s: State) {
    && Distinct(s.live)
    && (forall i :: 0 <= i < |s.live| ==> s.live[i].job in s.running)
    && (forall job :: job in s.running ==> Alive(s.live, job))
  }

  ghost predicate Distinct(live: seq<Instance>) {
    forall i, j :: 0 <= i < j < |live| ==> live[i].job != live[j].job
  }

  ghost predicate Alive(live: seq<Instance>, job: string) {
    exists i :: 0 <= i < |live| && live[i].job == job
  }

  ghost predicate Flags(s: State) {
    forall job :: StatusOf(s.jobs, job).running <==> job in s.running
  }

  // The status the latest run of the job found.
  function Was(log: seq<Event>, job: string): JobStatus {
    if log == [] then NEVER
    else
      var e := log[|log| - 1];
      if e.Began? && e.job == job then e.was else Was(log[..|log| - 1], job)
  }

  // A run holds its job's status: that of before, with the flag up.
  ghost predicate Held(s: State) {
    forall i :: 0 <= i < |s.live| ==> Holds(s, s.live[i])
  }

  predicate Holds(s: State, x: Instance) {
    !x.prev.running && StatusOf(s.jobs, x.job) == x.prev.(running := true) && x.prev == Was(s.log, x.job)
  }

  // When the job may run next: an interval after the last completed run.
  function Planned(st: map<string, JobStatus>, log: seq<Event>, job: string): int {
    if log == [] then StatusOf(st, job).nextRun
    else
      var e := log[|log| - 1];
      if e.Done? && e.job == job then NextRun(job, e.at, e.cfg) else Planned(st, log[..|log| - 1], job)
  }

  ghost predicate OnPlan(st: map<string, JobStatus>, s: State) {
    forall job :: StatusOf(s.jobs, job).nextRun == Planned(st, s.log, job)
  }

  // Between the check and the start of a due job nothing has changed for it.
  ghost predicate StillDue(s: State) {
    && (!s.tick.Idle? ==> s.tick.now <= s.clock)
    && (s.tick.Starting? && s.tick.due
        ==> s.tick.job !in s.running && IsDue(s.jobs, s.tick.cfg, s.tick.job, s.tick.now))
  }

  ghost predicate Spaced(st: map<string, JobStatus>, log: seq<Event>) {
    forall i :: 0 <= i < |log| && log[i].Began? && log[i].due ==> log[i].at >= Planned(st, log[..i], log[i].job)
  }

  // ----- a tick -----

  // Due, by the plan at the beginning of the tick, or requested.
  predicate Wanted(st: map<string, JobStatus>, log: seq<Event>, t: Tick, job: string)
    requires !t.Idle? && t.since.log <= |log|
  {
    job in t.requested || (Enabled(t.cfg, job) && Planned(st, log[..t.since.log], job) <= t.now)
  }

  predicate BeganSince(log: seq<Event>, from: nat, job: string) {
    exists k :: from <= k < |log| && log[k].Began? && log[k].job == job
  }

  // Nothing has happened to the job since the tick began.
  ghost predicate Quiet(s: State, job: string)
    requires !s.tick.Idle?
  {
    job !in s.running && forall k :: s.tick.since.log <= k < |s.log| ==> s.log[k].job != job
  }

  // The jobs the loop has passed have been started if wanted; the rest have not been touched.
  ghost predicate Covered(st: map<string, JobStatus>, s: State) {
    !s.tick.Idle? ==>
      && s.tick.since.log <= |s.log|
      && (forall j :: 0 <= j < |JOBS| && JOBS[j] !in s.tick.since.busy ==> CoveredAt(st, s, j))
      && (s.tick.Starting? && s.tick.i < |JOBS| ==> s.tick.job == JOBS[s.tick.i] && s.tick.job !in s.running)
      && (s.tick.Starting? && s.tick.i >= |JOBS| ==> s.tick.job == TELEGRAM_TEST)
  }

  ghost predicate CoveredAt(st: map<string, JobStatus>, s: State, j: nat)
    requires !s.tick.Idle? && s.tick.since.log <= |s.log| && j < |JOBS|
  {
    if j < s.tick.i then Wanted(st, s.log, s.tick, JOBS[j]) ==> BeganSince(s.log, s.tick.since.log, JOBS[j])
    else Quiet(s, JOBS[j])
  }
}

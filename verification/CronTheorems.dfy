/** What every run of the scheduler keeps. */
module CronTheorems {
  import opened CronConfig
  import opened CronRunner

  // ----- one section at a time -----

  lemma AliveLater(live: seq<Instance>, x: Instance, job: string)
    ensures Alive(live + [x], job) <==> Alive(live, job) || job == x.job
  {
    if Alive(live, job) {
      var i :| 0 <= i < |live| && live[i].job == job;
      assert (live + [x])[i] == live[i];
    }
    assert (live + [x])[|live|] == x;
  }

  lemma OwnersStarted(s: State)
    requires s.tick.Starting? && Owners(s)
    ensures Owners(Started(s))
  {
    var t := Started(s);
    if s.tick.job !in s.running {
      forall job | job in t.running
        ensures Alive(t.live, job)
      {
        AliveLater(s.live, t.live[|s.live|], job);
      }
    }
  }

  function Without(live: seq<Instance>, k: nat): seq<Instance>
    requires k < |live|
  {
    live[..k] + live[k + 1..]
  }

  lemma WithoutAt(live: seq<Instance>, k: nat, i: nat)
    requires Distinct(live) && k < |live| && i < |live| - 1
    ensures Without(live, k)[i] == live[if i < k then i else i + 1]
    ensures Without(live, k)[i].job != live[k].job
  {
  }

  lemma WithoutOne(live: seq<Instance>, k: nat, job: string)
    requires Distinct(live) && k < |live| && Alive(live, job) && job != live[k].job
    ensures Alive(Without(live, k), job)
  {
    var i :| 0 <= i < |live| && live[i].job == job;
    assert Without(live, k)[if i < k then i else i - 1] == live[i];
  }

  lemma WithoutDistinct(live: seq<Instance>, k: nat)
    requires Distinct(live) && k < |live|
    ensures Distinct(Without(live, k))
  {
  }

  lemma OwnersEnded(s: State, k: nat, o: Outcome)
    requires k < |s.live| && Owners(s)
    ensures Owners(Ended(s, k, o))
  {
    var t := Ended(s, k, o);
    assert t.live == Without(s.live, k);
    WithoutDistinct(s.live, k);
    forall job | job in t.running ensures Alive(t.live, job) { WithoutOne(s.live, k, job); }
    forall i | 0 <= i < |t.live| ensures t.live[i].job in t.running { WithoutAt(s.live, k, i); }
  }

  lemma HeldStarted(s: State)
    requires s.tick.Starting? && Owners(s) && Flags(s) && Held(s)
    ensures Held(Started(s))
  {
    var t := Started(s);
    if s.tick.job !in s.running {
      assert t.log[..|t.log| - 1] == s.log;
      forall i | 0 <= i < |t.live| ensures Holds(t, t.live[i]) {
        if i < |s.live| { assert Holds(s, s.live[i]) && s.live[i].job in s.running; }
      }
    }
  }

  lemma WasLater(log: seq<Event>, e: Event, job: string)
    requires e.Done? || e.job != job
    ensures Was(log + [e], job) == Was(log, job)
  {
    assert (log + [e])[..|log|] == log;
  }

  lemma HoldsLater(s: State, t: State, x: Instance)
    requires Holds(s, x) && StatusOf(t.jobs, x.job) == StatusOf(s.jobs, x.job) && Was(t.log, x.job) == Was(s.log, x.job)
    ensures Holds(t, x)
  {
  }

  lemma HoldsEnded(s: State, k: nat, o: Outcome, x: Instance)
    requires k < |s.live| && Holds(s, x) && x.job != s.live[k].job
    ensures Holds(Ended(s, k, o), x)
  {
    var t := Ended(s, k, o);
    if !s.cancelled { WasLater(s.log, Done(s.live[k].job, s.clock, s.live[k].cfg), x.job); }
    HoldsLater(s, t, x);
  }

  lemma HeldEnded(s: State, k: nat, o: Outcome)
    requires k < |s.live| && Owners(s) && Held(s)
    ensures Held(Ended(s, k, o))
  {
    var t := Ended(s, k, o);
    assert t.live == Without(s.live, k);
    forall i | 0 <= i < |t.live| ensures Holds(t, t.live[i]) {
      WithoutAt(s.live, k, i);
      HoldsEnded(s, k, o, t.live[i]);
    }
  }

  lemma FlagsEnded(s: State, k: nat, o: Outcome)
    requires k < |s.live| && Flags(s) && Holds(s, s.live[k])
    ensures Flags(Ended(s, k, o))
  {
  }

  lemma FlagsStarted(s: State)
    requires s.tick.Starting? && Flags(s)
    ensures Flags(Started(s))
  {
  }

  lemma PlanStarted(st: map<string, JobStatus>, s: State)
    requires s.tick.Starting? && OnPlan(st, s)
    ensures OnPlan(st, Started(s))
  {
    var t := Started(s);
    if s.tick.job !in s.running { assert t.log[..|t.log| - 1] == s.log; }
  }

  lemma PlanEnded(st: map<string, JobStatus>, s: State, k: nat, o: Outcome)
    requires k < |s.live| && OnPlan(st, s) && Held(s)
    ensures OnPlan(st, Ended(s, k, o))
  {
    var t := Ended(s, k, o);
    if !s.cancelled { assert t.log[..|t.log| - 1] == s.log; }
  }

  lemma SpacedLater(st: map<string, JobStatus>, log: seq<Event>, e: Event)
    requires Spaced(st, log)
    requires e.Began? && e.due ==> e.at >= Planned(st, log, e.job)
    ensures Spaced(st, log + [e])
  {
    forall i | 0 <= i < |log| + 1
      ensures (log + [e])[..i] == log[..i]
    {
    }
  }

  lemma SpacedStarted(st: map<string, JobStatus>, s: State)
    requires s.tick.Starting? && OnPlan(st, s) && StillDue(s) && Spaced(st, s.log)
    ensures Spaced(st, Started(s).log)
  {
    var job := s.tick.job;
    if job !in s.running {
      assert StatusOf(s.jobs, job).nextRun == Planned(st, s.log, job);
      SpacedLater(st, s.log, Began(job, s.clock, s.tick.due, StatusOf(s.jobs, job)));
    }
  }

  // ----- runs -----

  ghost predicate Inv(st: map<string, JobStatus>, s: State) {
    Owners(s) && Flags(s) && Held(s) && OnPlan(st, s) && StillDue(s) && Spaced(st, s.log)
  }

  lemma StartKeeps(st: map<string, JobStatus>, s: State)
    requires Inv(st, s) && s.tick.Starting?
    ensures Inv(st, Started(s))
  {
    OwnersStarted(s);
    FlagsStarted(s);
    HeldStarted(s);
    PlanStarted(st, s);
    SpacedStarted(st, s);
  }

  lemma EndKeeps(st: map<string, JobStatus>, s: State, k: nat, o: Outcome)
    requires Inv(st, s) && k < |s.live|
    ensures Inv(st, Ended(s, k, o))
  {
    OwnersEnded(s, k, o);
    FlagsEnded(s, k, o);
    HeldEnded(s, k, o);
    PlanEnded(st, s, k, o);
    EndedDue(s, k, o);
    if !s.cancelled { SpacedLater(st, s.log, Done(s.live[k].job, s.clock, s.live[k].cfg)); }
  }

  lemma StepKeeps(st: map<string, JobStatus>, s: State, a: Action)
    requires Inv(st, s)
    ensures Inv(st, Next(s, a))
  {
    match a
    case TickStarts => if s.tick.Starting? { StartKeeps(st, s); }
    case Ends(k, o) => if k < |s.live| { EndKeeps(st, s, k, o); }
    case TickGoesOn => if s.tick.Loop? { GoOnKeeps(s); }
    case _ =>
  }

  lemma GoOnKeeps(s: State)
    requires s.tick.Loop? && StillDue(s)
    ensures StillDue(GoOn(s)) && GoOn(s) == s.(tick := GoOn(s).tick)
  {
  }

  lemma EndedDue(s: State, k: nat, o: Outcome)
    requires k < |s.live| && Owners(s) && StillDue(s)
    ensures StillDue(Ended(s, k, o))
  {
  }

  lemma {:induction false} Invariant(st: map<string, JobStatus>, clock: int, actions: seq<Action>)
    ensures Inv(Cleared(st), Exec(New(st, clock), actions))
    decreases |actions|
  {
    if actions != [] {
      Invariant(st, clock, actions[..|actions| - 1]);
      StepKeeps(Cleared(st), Exec(New(st, clock), actions[..|actions| - 1]), actions[|actions| - 1]);
    }
  }

  // ----- what it means -----

  // At most one run of each job is alive, and a job's flag is up exactly while one is.
  lemma OneInstance(st: map<string, JobStatus>, clock: int, actions: seq<Action>, job: string)
    ensures var s := Exec(New(st, clock), actions);
      && (forall i, j :: 0 <= i < |s.live| && 0 <= j < |s.live| && s.live[i].job == s.live[j].job ==> i == j)
      && (StatusOf(s.jobs, job).running <==> Alive(s.live, job))
  {
    Invariant(st, clock, actions);
    var s := Exec(New(st, clock), actions);
    assert Owners(s) && Flags(s);
  }

  // A run cut short by shutdown leaves its job's status as it was when the run began,
  // and nothing else changes.
  lemma InterruptionRestores(st: map<string, JobStatus>, clock: int, actions: seq<Action>,
                             k: nat, o: Outcome, job: string)
    requires var s := Exec(New(st, clock), actions); s.cancelled && k < |s.live|
    ensures var s := Exec(New(st, clock), actions);
      StatusOf(Next(s, Ends(k, o)).jobs, job) == if job == s.live[k].job then Was(s.log, job) else StatusOf(s.jobs, job)
  {
    Invariant(st, clock, actions);
  }

  // The end of the job's last completed run, in log[..n].
  predicate LastDone(log: seq<Event>, j: nat, n: nat, job: string) {
    && j < n <= |log| && log[j].Done? && log[j].job == job
    && forall m :: j < m < n && log[m].Done? ==> log[m].job != job
  }

  lemma {:induction false} PlannedAfter(st: map<string, JobStatus>, log: seq<Event>, j: nat, n: nat, job: string)
    requires LastDone(log, j, n, job)
    ensures Planned(st, log[..n], job) == NextRun(job, log[j].at, log[j].cfg)
  {
    assert log[..n][..n - 1] == log[..n - 1];
    if j < n - 1 { PlannedAfter(st, log, j, n - 1, job); }
  }

  // A run that nobody asked for begins no sooner than the configured interval after the
  // last completed one ended; a setting that fits never makes that less than the minimum.
  lemma IntervalKept(st: map<string, JobStatus>, clock: int, actions: seq<Action>, j: nat, i: nat)
    requires var log := Exec(New(st, clock), actions).log;
      && i < |log| && log[i].Began? && log[i].due && log[i].job in JOBS && LastDone(log, j, i, log[i].job)
    ensures var log := Exec(New(st, clock), actions).log;
      && log[i].at >= log[j].at + Interval(log[j].cfg, log[i].job)
      && (Minutes(log[j].cfg, log[i].job) <= MAX_MINUTES ==>
            && log[i].at >= log[j].at + Minutes(log[j].cfg, log[i].job) * MINUTE
            && log[i].at >= log[j].at + MinInterval(log[i].job) * MINUTE)
  {
    Invariant(st, clock, actions);
    var log := Exec(New(st, clock), actions).log;
    PlannedAfter(Cleared(st), log, j, i, log[i].job);
    IntervalExact(log[j].cfg, log[i].job);
  }

  // ... and from that moment on it is due: neither sooner nor later.
  lemma DueExactly(st: map<string, JobStatus>, clock: int, actions: seq<Action>, j: nat,
                   job: string, cfg: Config, now: int)
    requires job in JOBS
    requires var log := Exec(New(st, clock), actions).log; LastDone(log, j, |log|, job)
    ensures var s := Exec(New(st, clock), actions);
      IsDue(s.jobs, cfg, job, now)
      <==> Enabled(cfg, job) && now >= s.log[j].at + Interval(s.log[j].cfg, job)
  {
    Invariant(st, clock, actions);
    var log := Exec(New(st, clock), actions).log;
    assert log[..|log|] == log;
    PlannedAfter(Cleared(st), log, j, |log|, job);
    assert JOBS[0] != TELEGRAM_TEST;
    var k :| 0 <= k < |JOBS| && JOBS[k] == job;
    NotTelegram(k);
  }

  // Nothing else is ever started: what a tick is about to start is requested, or it is
  // switched on and its time has come.
  lemma {:induction false} OnlyWhatIsWanted(st: map<string, JobStatus>, clock: int, actions: seq<Action>)
    ensures var s := Exec(New(st, clock), actions);
      s.tick.Starting? ==>
        || s.tick.job in s.tick.requested
        || (Enabled(s.tick.cfg, s.tick.job) && StatusOf(s.jobs, s.tick.job).nextRun <= s.tick.now)
    decreases |actions|
  {
    Invariant(st, clock, actions);
    Asked(st, clock, actions);
  }

  lemma {:induction false} Asked(st: map<string, JobStatus>, clock: int, actions: seq<Action>)
    ensures var t := Exec(New(st, clock), actions).tick; t.Starting? && !t.due ==> t.job in t.requested
    decreases |actions|
  {
    if actions != [] { Asked(st, clock, actions[..|actions| - 1]); }
  }

  // Once every run has ended, a restart from the state that was saved changes nothing.
  lemma RestartIsSeamless(st: map<string, JobStatus>, clock: int, actions: seq<Action>)
    requires Exec(New(st, clock), actions).live == []
    ensures New(Exec(New(st, clock), actions).jobs, clock).jobs == Exec(New(st, clock), actions).jobs
  {
    Invariant(st, clock, actions);
    var s := Exec(New(st, clock), actions);
    forall job | job in s.jobs
      ensures !s.jobs[job].running
    {
      assert StatusOf(s.jobs, job).running <==> job in s.running;
    }
    assert Cleared(s.jobs) == s.jobs;
  }

  // ----- a tick starts everything that is due -----

  lemma {:induction false} QuietPlan(st: map<string, JobStatus>, log: seq<Event>, n: nat, job: string)
    requires n <= |log| && forall k :: n <= k < |log| ==> log[k].job != job
    ensures Planned(st, log, job) == Planned(st, log[..n], job)
    decreases |log|
  {
    if n == |log| {
      assert log[..n] == log;
    } else {
      assert log[..|log| - 1][..n] == log[..n];
      QuietPlan(st, log[..|log| - 1], n, job);
    }
  }

  lemma BeganLater(log: seq<Event>, e: Event, from: nat, job: string)
    requires BeganSince(log, from, job)
    ensures BeganSince(log + [e], from, job)
  {
    var k :| from <= k < |log| && log[k].Began? && log[k].job == job;
    assert (log + [e])[k] == log[k];
  }

  lemma WantedLater(st: map<string, JobStatus>, log: seq<Event>, e: Event, t: Tick, job: string)
    requires !t.Idle? && t.since.log <= |log|
    ensures Wanted(st, log + [e], t, job) == Wanted(st, log, t, job)
  {
    assert (log + [e])[..t.since.log] == log[..t.since.log];
  }

  // What one more event, of another job, leaves as it was.
  lemma CoveredLater(st: map<string, JobStatus>, s: State, t: State, e: Event, j: nat)
    requires !s.tick.Idle? && s.tick.since.log <= |s.log| && j < |JOBS| && CoveredAt(st, s, j)
    requires t.tick == s.tick && t.log == s.log + [e] && (JOBS[j] in t.running ==> JOBS[j] in s.running)
    requires e.job != JOBS[j] || j < s.tick.i
    ensures CoveredAt(st, t, j)
  {
    WantedLater(st, s.log, e, s.tick, JOBS[j]);
    if BeganSince(s.log, s.tick.since.log, JOBS[j]) { BeganLater(s.log, e, s.tick.since.log, JOBS[j]); }
  }

  lemma CoveredEnded(st: map<string, JobStatus>, s: State, k: nat, o: Outcome)
    requires k < |s.live| && Covered(st, s) && Owners(s) && !s.tick.Idle?
    ensures Covered(st, Ended(s, k, o))
  {
    var t := Ended(s, k, o);
    forall j | 0 <= j < |JOBS| && JOBS[j] !in t.tick.since.busy
      ensures CoveredAt(st, t, j)
    {
      assert CoveredAt(st, s, j);
      if !s.cancelled { CoveredLater(st, s, t, Done(s.live[k].job, s.clock, s.live[k].cfg), j); }
    }
  }

  lemma JobsDistinct(i: nat, j: nat)
    requires i < |JOBS| && j < |JOBS| && JOBS[i] == JOBS[j]
    ensures i == j
  {
    assert JOBS[0][0] == 'i' && JOBS[1][0] == 'g' && JOBS[2][0] == 'v' && JOBS[3][0] == 'd';
    assert JOBS[4][1] == 'l' && JOBS[5][1] == 'o' && JOBS[4][0] == 'c' && JOBS[5][0] == 'c';
  }

  lemma NotTelegram(j: nat)
    requires j < |JOBS|
    ensures JOBS[j] != TELEGRAM_TEST
  {
    assert TELEGRAM_TEST[0] == 't';
    assert JOBS[0][0] == 'i' && JOBS[1][0] == 'g' && JOBS[2][0] == 'v' && JOBS[3][0] == 'd';
    assert JOBS[4][0] == 'c' && JOBS[5][0] == 'c';
  }

  lemma CoveredStarted(st: map<string, JobStatus>, s: State, j: nat)
    requires s.tick.Starting? && Covered(st, s) && j < |JOBS| && JOBS[j] !in s.tick.since.busy
    ensures CoveredAt(st, Started(s), j)
  {
    var t := Started(s);
    assert CoveredAt(st, s, j);
    NotTelegram(j);
    if s.tick.job !in s.running {
      var e := t.log[|s.log|];
      assert t.log == s.log + [e];
      WantedLater(st, s.log, e, s.tick, JOBS[j]);
      if j == s.tick.i {
        assert t.log[|s.log|].Began? && t.log[|s.log|].job == JOBS[j];
      } else {
        if s.tick.i < |JOBS| && JOBS[j] == s.tick.job { JobsDistinct(j, s.tick.i); }
        if BeganSince(s.log, s.tick.since.log, JOBS[j]) { BeganLater(s.log, e, s.tick.since.log, JOBS[j]); }
      }
    }
  }

  lemma CoveredGoOn(st: map<string, JobStatus>, s: State, j: nat)
    requires s.tick.Loop? && Covered(st, s) && OnPlan(st, s) && j < |JOBS| && JOBS[j] !in s.tick.since.busy
    ensures !GoOn(s).tick.Idle? ==> CoveredAt(st, GoOn(s), j)
  {
    assert CoveredAt(st, s, j);
    if j == s.tick.i { QuietPlan(st, s.log, s.tick.since.log, JOBS[j]); }
  }

  lemma CoveredStep(st: map<string, JobStatus>, s: State, a: Action)
    requires Covered(st, s) && Inv(st, s)
    ensures Covered(st, Next(s, a))
  {
    var t := Next(s, a);
    if t.tick.Idle? {
    } else if s.tick.Idle? {
      assert a.TickBegins? ==> t.log == s.log && t.tick.i == 0;
    } else if a.Ends? && a.k < |s.live| {
      CoveredEnded(st, s, a.k, a.o);
    } else {
      forall j | 0 <= j < |JOBS| && JOBS[j] !in s.tick.since.busy
        ensures CoveredAt(st, t, j)
      {
        assert CoveredAt(st, s, j);
        if s.tick.Starting? { CoveredStarted(st, s, j); } else { CoveredGoOn(st, s, j); }
      }
    }
  }

  lemma {:induction false} Coverage(st: map<string, JobStatus>, clock: int, actions: seq<Action>)
    ensures Covered(Cleared(st), Exec(New(st, clock), actions))
    decreases |actions|
  {
    if actions != [] {
      var before := actions[..|actions| - 1];
      Coverage(st, clock, before);
      Invariant(st, clock, before);
      CoveredStep(Cleared(st), Exec(New(st, clock), before), actions[|actions| - 1]);
    }
  }

  // When a tick has been through its loop, every job that was due or requested, and
  // free when the tick began, has been started.
  lemma TickStartsWhatIsDue(st: map<string, JobStatus>, clock: int, actions: seq<Action>, j: nat)
    requires var s := Exec(New(st, clock), actions);
      s.tick.Loop? && s.tick.i == |JOBS| && j < |JOBS| && JOBS[j] !in s.tick.since.busy
    ensures var s := Exec(New(st, clock), actions);
      s.tick.since.log <= |s.log| &&
      (Wanted(Cleared(st), s.log, s.tick, JOBS[j]) ==> BeganSince(s.log, s.tick.since.log, JOBS[j]))
  {
    Coverage(st, clock, actions);
    assert CoveredAt(Cleared(st), Exec(New(st, clock), actions), j);
  }
}

/** How long a job may run before the pool's manager kills its worker. */
module PoolTiming {
  import opened Basics
  import opened ThreadPool
  import opened PoolProofs

  /** The manager oversleeps by at most `slack`, and one pass of `check_workers` takes
      at most `pass`. */
  predicate Timely(c: Config, s: Pool, pass: nat, slack: nat) {
    match s.manager
    case Off => true
    case Sleeping(since) => s.clock <= since + c.timeout + slack
    case _ => s.clock <= s.history.passBegan + pass
  }

  predicate TimelyRun(c: Config, run: seq<Event>, pass: nat, slack: nat) {
    && Timely(c, Exec(c, run), pass, slack)
    && (run != [] ==> TimelyRun(c, run[..|run| - 1], pass, slack))
  }

  predicate Unscanned(s: Pool, j: nat) {
    s.manager.Scanning? && (j in s.runningQueue || s.manager.hand == Some(j))
  }

  /** The manager has seen every job in the pool during the present pass, or during the
      one before if it has not reached the job yet. */
  ghost predicate SeenOk(s: Pool, j: nat) {
    j < |s.history.places| && s.history.places[j].InPool? && j < |s.history.seen| && !s.manager.Off? ==>
      && s.history.seen[j] <= s.clock
      && s.history.lastPassBegan <= s.history.seen[j]
      && (s.history.passBegan <= s.history.seen[j] || Unscanned(s, j))
  }

  /** A job that survives an examination has run for no more than the timeout. */
  ghost predicate RunOk(c: Config, s: Pool, w: nat) {
    w in s.workers && s.workers[w].Running? && JobKnown(s, s.workers[w].job)
    && s.jobs[s.workers[w].job].started.Some? ==>
      s.history.seen[s.workers[w].job] <= s.jobs[s.workers[w].job].started.value + c.timeout
  }

  ghost predicate PassOk(c: Config, s: Pool, pass: nat, slack: nat) {
    && s.history.lastPassBegan <= s.history.passBegan <= s.clock
    && match s.manager
       case Off => true
       case Sleeping(since) => since <= s.history.passBegan + pass
       case _ => s.history.passBegan <= s.history.lastPassBegan + pass + c.timeout + slack
  }

  ghost predicate TimingOk(c: Config, s: Pool, pass: nat, slack: nat) {
    && PassOk(c, s, pass, slack)
    && (forall j: nat :: SeenOk(s, j))
    && (forall w: nat :: RunOk(c, s, w))
  }

  lemma StepPass(c: Config, s: Pool, e: Event, pass: nat, slack: nat)
    requires 0 <= c.timeout && PassOk(c, s, pass, slack) && Timely(c, s, pass, slack)
    ensures PassOk(c, Step(c, s, e), pass, slack)
  {
  }

  lemma WakeSeen(s: Pool, j: nat)
    requires TrackedOk(s) && SeenOk(s, j) && s.manager.Sleeping?
    ensures SeenOk(WakeStep(s), j)
  {
    assert j < |s.history.places| && s.history.places[j].InPool? ==> Tracked(s)[j] == 1;
  }

  lemma ExamineSeen(c: Config, s: Pool, readd: seq<nat>, j0: nat, j: nat)
    requires SeenOk(s, j) && s.manager == Scanning(readd, Some(j0)) && JobKnown(s, j0)
    requires s.history.lastPassBegan <= s.history.passBegan <= s.clock
    ensures SeenOk(ExamineStep(c, s, readd, j0), j)
  {
  }

  lemma StepSeen(c: Config, s: Pool, e: Event, pass: nat, slack: nat, j: nat)
    requires Inv(s) && TrackedOk(s) && TimingOk(c, s, pass, slack)
    ensures SeenOk(Step(c, s, e), j)
  {
    assert SeenOk(s, j);
    if Step(c, s, e) == s {
    } else if e.Wake? {
      WakeSeen(s, j);
    } else if e.Examine? {
      ExamineSeen(c, s, s.manager.readd, s.manager.hand.value, j);
    }
  }

  lemma ExamineRun(c: Config, s: Pool, readd: seq<nat>, j0: nat, w: nat)
    requires Inv(s) && RunOk(c, s, w) && JobKnown(s, j0)
    ensures RunOk(c, ExamineStep(c, s, readd, j0), w)
  {
    assert PcOk(s, w) && JobOk(s, j0);
  }

  lemma StepRun(c: Config, s: Pool, e: Event, pass: nat, slack: nat, w: nat)
    requires Inv(s) && TimingOk(c, s, pass, slack) && 0 <= c.timeout
    ensures RunOk(c, Step(c, s, e), w)
  {
    assert RunOk(c, s, w) && PcOk(s, w);
    if Step(c, s, e) == s {
    } else if e.Examine? {
      ExamineRun(c, s, s.manager.readd, s.manager.hand.value, w);
    } else if e.Begin? {
      assert SeenOk(s, s.workers[e.w].job) && PcOk(s, e.w);
    } else if e.Enqueue? {
      assert PcOk(s, e.w);
    }
  }

  lemma {:induction false} TimelyRunIsOk(c: Config, run: seq<Event>, pass: nat, slack: nat)
    requires 0 <= c.timeout && TimelyRun(c, run, pass, slack)
    ensures TimingOk(c, Exec(c, run), pass, slack)
    decreases |run|
  {
    if run != [] {
      var s, e := Exec(c, run[..|run| - 1]), run[|run| - 1];
      TimelyRunIsOk(c, run[..|run| - 1], pass, slack);
      ExecSafe(c, run[..|run| - 1]);
      StepPass(c, s, e, pass, slack);
      forall j: nat ensures SeenOk(Step(c, s, e), j) { StepSeen(c, s, e, pass, slack, j); }
      forall w: nat ensures RunOk(c, Step(c, s, e), w) { StepRun(c, s, e, pass, slack, w); }
    }
  }

  // ----- what every run keeps about times

  /** A job is completed after it was started, both in the past, and then has no thread. */
  predicate RecordOk(job: Job, now: int) {
    && (job.started.Some? ==> job.started.value <= now)
    && (job.completed.Some? ==>
          && job.started.Some? && job.started.value <= job.completed.value <= now
          && job.thread.None?)
  }

  predicate RecordsOk(s: Pool) { forall j :: 0 <= j < |s.jobs| ==> RecordOk(s.jobs[j], s.clock) }

  lemma StepRecords(c: Config, s: Pool, e: Event)
    requires Inv(s) && RecordsOk(s)
    ensures RecordsOk(Step(c, s, e))
  {
    if e.Begin? || e.Finish? { assert PcOk(s, e.w); }
  }

  /** In every run the records of all jobs are honest. */
  lemma {:induction false} RecordsAreHonest(c: Config, run: seq<Event>)
    ensures RecordsOk(Exec(c, run))
    decreases |run|
  {
    if run != [] {
      RecordsAreHonest(c, run[..|run| - 1]);
      ExecSafe(c, run[..|run| - 1]);
      StepRecords(c, Exec(c, run[..|run| - 1]), run[|run| - 1]);
    }
  }

  /** When the manager may wake: never before it has slept for the timeout. */
  ghost predicate ApartOk(c: Config, s: Pool) {
    && s.history.passBegan <= s.clock
    && (s.manager.Sleeping? ==> s.history.passBegan <= s.manager.since <= s.clock)
    && (s.manager.Scanning? || s.manager.Readding? ==> s.history.lastPassBegan + c.timeout <= s.history.passBegan)
  }

  lemma StepApart(c: Config, s: Pool, e: Event)
    requires ApartOk(c, s)
    ensures ApartOk(c, Step(c, s, e))
  {
  }

  lemma {:induction false} ExecApart(c: Config, run: seq<Event>)
    ensures ApartOk(c, Exec(c, run))
    decreases |run|
  {
    if run != [] {
      ExecApart(c, run[..|run| - 1]);
      StepApart(c, Exec(c, run[..|run| - 1]), run[|run| - 1]);
    }
  }

  /** In every run a pass begins only in a pool that was not told to terminate, and at least the
      timeout after the pass before it began, or after the pool was started. */
  lemma PassesAreApart(c: Config, run: seq<Event>, e: Event)
    requires !Exec(c, run).manager.Scanning? && Step(c, Exec(c, run), e).manager.Scanning?
    ensures e.Wake? && !Exec(c, run).terminate
    ensures Step(c, Exec(c, run), e).history.passBegan == Exec(c, run).clock
    ensures Exec(c, run).clock >= Exec(c, run).history.passBegan + c.timeout
  {
    ExecApart(c, run);
  }

  /** In every run, raising handlers included, in which the manager is timely, no job is
      still running later than twice the timeout, two passes and the oversleep after
      its start. */
  lemma NoJobRunsForever(c: Config, run: seq<Event>, pass: nat, slack: nat, w: nat, j: nat)
    requires 0 <= c.timeout && TimelyRun(c, run, pass, slack)
    requires At(Exec(c, run), w, Running(j))
    ensures var s := Exec(c, run);
            && j < |s.jobs| && s.jobs[j].started.Some?
            && s.clock <= s.jobs[j].started.value + 2 * c.timeout + 2 * pass + slack
  {
    var s := Exec(c, run);
    ExecSafe(c, run);
    TimelyRunIsOk(c, run, pass, slack);
    assert PcOk(s, w) && SeenOk(s, j) && RunOk(c, s, w);
  }
}

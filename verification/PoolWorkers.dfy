/** How many workers the pool lists, and which thread a timeout kills. */
module PoolWorkers {
  import opened Basics
  import opened ThreadPool
  import opened PoolProofs

  // ----- which threads are dead

  predicate Kills(c: Config, s: Pool, e: Event, t: nat) { t in s.workers && t !in Step(c, s, e).workers }

  /** Some step of the run killed the thread. */
  predicate Killed(c: Config, run: seq<Event>, t: nat) {
    run != [] && (Killed(c, run[..|run| - 1], t) || Kills(c, Exec(c, run[..|run| - 1]), run[|run| - 1], t))
  }

  /** New threads have new numbers, and no number is skipped. */
  ghost predicate Launches(s: Pool, s': Pool) {
    && s.launched <= s'.launched
    && (forall t :: t in s'.workers ==> t in s.workers || s.launched <= t)
    && (forall t: nat :: s.launched <= t < s'.launched ==> t in s'.workers)
  }

  lemma ExamineLaunches(c: Config, s: Pool, readd: seq<nat>, j: nat)
    requires Inv(s) && JobKnown(s, j)
    ensures Launches(s, ExamineStep(c, s, readd, j))
  {
  }

  lemma StepLaunches(c: Config, s: Pool, e: Event)
    requires Inv(s)
    ensures Launches(s, Step(c, s, e))
  {
    if Step(c, s, e) == s {
    } else if e.Start? {
      InRange(s.launched, c.numThreads);
    } else if e.Examine? {
      ExamineLaunches(c, s, s.manager.readd, s.manager.hand.value);
    }
  }

  lemma {:induction false} KilledIff(c: Config, run: seq<Event>, t: nat)
    ensures Killed(c, run, t) <==> t < Exec(c, run).launched && t !in Exec(c, run).workers
    decreases |run|
  {
    if run != [] {
      var s, e := Exec(c, run[..|run| - 1]), run[|run| - 1];
      KilledIff(c, run[..|run| - 1], t);
      ExecSafe(c, run[..|run| - 1]);
      StepLaunches(c, s, e);
      assert Sizes(s);
    }
  }

  ghost predicate PlaceKnown(s: Pool, j: nat) {
    j < |s.history.places| && !s.history.places[j].Waiting? ==> s.history.places[j].w < s.launched
  }

  lemma ExaminePlaces(c: Config, s: Pool, readd: seq<nat>, j0: nat, j: nat)
    requires Inv(s) && PlaceKnown(s, j) && JobKnown(s, j0)
    ensures PlaceKnown(ExamineStep(c, s, readd, j0), j)
  {
  }

  lemma StepPlaces(c: Config, s: Pool, e: Event, j: nat)
    requires Inv(s) && PlaceKnown(s, j)
    ensures PlaceKnown(Step(c, s, e), j)
  {
    if Step(c, s, e) == s {
    } else if e.Examine? {
      ExaminePlaces(c, s, s.manager.readd, s.manager.hand.value, j);
    }
  }

  lemma {:induction false} ExecPlaces(c: Config, run: seq<Event>, j: nat)
    ensures PlaceKnown(Exec(c, run), j)
    decreases |run|
  {
    if run != [] {
      ExecPlaces(c, run[..|run| - 1], j);
      ExecSafe(c, run[..|run| - 1]);
      StepPlaces(c, Exec(c, run[..|run| - 1]), run[|run| - 1], j);
    }
  }

  // ----- every run

  /** The event examines a job that was started by `t` more than the timeout ago and has not
      been completed. */
  predicate TimesOut(c: Config, s: Pool, e: Event, t: nat) {
    && e.Examine? && s.manager.Scanning? && s.manager.hand.Some? && s.manager.hand.value < |s.jobs|
    && var job := s.jobs[s.manager.hand.value];
    && job.started.Some? && job.completed.None? && s.clock - job.started.value > c.timeout
    && job.thread == Some(t)
  }

  predicate ShutsDown(s: Pool, e: Event) { e.Shutdown? && s.terminate && s.manager.Sleeping? }

  lemma ExamineKillsIff(c: Config, s: Pool, readd: seq<nat>, j: nat, t: nat)
    requires Inv(s) && s.manager == Scanning(readd, Some(j)) && JobKnown(s, j) && t in s.workers
    ensures t !in ExamineStep(c, s, readd, j).workers <==> TimesOut(c, s, Examine, t)
  {
    if Expired(s.jobs[j], s.clock, c.timeout) && s.jobs[j].thread.Some? {
      KillEffect(c, s, readd, j, s.jobs[j].thread.value);
    }
  }

  lemma OthersKillNone(c: Config, s: Pool, e: Event, t: nat)
    requires Inv(s) && t in s.workers && !e.Examine?
    ensures t !in Step(c, s, e).workers <==> ShutsDown(s, e)
  {
  }

  /** In every run a step kills a live thread if and only if it shuts down a pool that was told
      to terminate, or examines a job that the thread started more than the timeout ago and
      that has not been completed. */
  lemma KillsIff(c: Config, run: seq<Event>, e: Event, t: nat)
    requires t in Exec(c, run).workers
    ensures Kills(c, Exec(c, run), e, t) <==> ShutsDown(Exec(c, run), e) || TimesOut(c, Exec(c, run), e, t)
  {
    var s := Exec(c, run);
    ExecSafe(c, run);
    if e.Examine? {
      if s.manager.Scanning? && s.manager.hand.Some? && s.manager.hand.value < |s.jobs| {
        ExamineKillsIff(c, s, s.manager.readd, s.manager.hand.value, t);
      }
    } else {
      OthersKillNone(c, s, e, t);
    }
  }

  /** The thread recorded for an overdue job is dead if and only if it was killed before. */
  lemma RecordedIsListedIff(c: Config, run: seq<Event>, j: nat) returns (t: nat)
    requires Overdue(c, Exec(c, run), j)
    ensures Exec(c, run).jobs[j].thread == Some(t) && JobKnown(Exec(c, run), j)
    ensures Exec(c, run).history.places[j] == InPool(t)
    ensures t in Exec(c, run).listed <==> !Killed(c, run, t)
  {
    ExecSafe(c, run);
    t := HandIsInPool(Exec(c, run), j);
    ExecPlaces(c, run, j);
    KilledIff(c, run, t);
  }

  lemma ExamineSurplus(c: Config, s: Pool, readd: seq<nat>, j: nat, t: nat)
    requires Inv(s) && JobKnown(s, j) && Expired(s.jobs[j], s.clock, c.timeout) && s.jobs[j].thread == Some(t)
    ensures ExamineStep(c, s, readd, j).history.surplus == s.history.surplus + Count(t !in s.listed)
    ensures |ExamineStep(c, s, readd, j).listed| == |s.listed| + Count(t !in s.listed)
  {
    ExamineCount(c, s, readd, j);
  }

  /** In every run examining an overdue job adds a worker to the list if and only if the
      thread recorded for the job was killed by an earlier step. */
  lemma ExamineAddsIff(c: Config, run: seq<Event>, j: nat)
    requires Overdue(c, Exec(c, run), j)
    ensures var s := Exec(c, run);
            && s.jobs[j].thread.Some?
            && |Step(c, s, Examine).listed| == |s.listed| + Count(Killed(c, run, s.jobs[j].thread.value))
  {
    ExecSafe(c, run);
    var t := RecordedIsListedIff(c, run, j);
    ExamineSurplus(c, Exec(c, run), Exec(c, run).manager.readd, j, t);
  }

  /** The manager is about to replace a thread that was killed before. */
  predicate FindsKilled(c: Config, run: seq<Event>) {
    var s := Exec(c, run);
    && FindsOverdue(c, s)
    && s.jobs[s.manager.hand.value].thread.Some?
    && Killed(c, run, s.jobs[s.manager.hand.value].thread.value)
  }

  predicate Restarts(s: Pool, e: Event) { e.Start? && s.terminate && s.manager.Off? }

  /** How often, since the pool was started, the manager replaced a thread killed before. */
  function Strays(c: Config, run: seq<Event>): nat {
    if run == [] then 0
    else
      var before, e := run[..|run| - 1], run[|run| - 1];
      if Restarts(Exec(c, before), e) then 0
      else Strays(c, before) + Count(e.Examine? && FindsKilled(c, before))
  }

  predicate FindsOverdue(c: Config, s: Pool) {
    s.manager.Scanning? && s.manager.hand.Some? && Overdue(c, s, s.manager.hand.value)
  }

  lemma OverdueSurplus(c: Config, run: seq<Event>)
    requires FindsOverdue(c, Exec(c, run))
    ensures Step(c, Exec(c, run), Examine).history.surplus == Exec(c, run).history.surplus + Count(FindsKilled(c, run))
  {
    var s := Exec(c, run);
    ExecSafe(c, run);
    var t := RecordedIsListedIff(c, run, s.manager.hand.value);
    ExamineSurplus(c, s, s.manager.readd, s.manager.hand.value, t);
  }

  lemma QuietSurplus(c: Config, s: Pool, e: Event)
    requires !Restarts(s, e) && !(e.Examine? && FindsOverdue(c, s))
    ensures Step(c, s, e).history.surplus == s.history.surplus
  {
  }

  lemma {:induction false} SurplusIsStrays(c: Config, run: seq<Event>)
    ensures Exec(c, run).history.surplus == Strays(c, run)
    decreases |run|
  {
    if run != [] {
      var before, e := run[..|run| - 1], run[|run| - 1];
      SurplusIsStrays(c, before);
      if Restarts(Exec(c, before), e) {
      } else if e.Examine? && FindsOverdue(c, Exec(c, before)) {
        OverdueSurplus(c, before);
      } else {
        QuietSurplus(c, Exec(c, before), e);
      }
    }
  }

  /** While the pool is up the listed workers are the live ones. There are never fewer than
      configured, and more by exactly the number of times since the start that the manager
      replaced a thread which an earlier step had killed. */
  lemma ListedWorkers(c: Config, run: seq<Event>)
    ensures var s := Exec(c, run);
            && s.listed == s.workers.Keys
            && (!s.manager.Off? ==> |s.listed| == c.numThreads + Strays(c, run))
            && (s.manager.Off? ==> s.listed == {})
  {
    ExecSafe(c, run);
    SurplusIsStrays(c, run);
  }

  // ----- runs in which no handler raises, with any number of restarts

  predicate NoRaises(run: seq<Event>) { forall i :: 0 <= i < |run| ==> !run[i].Raise? }

  /** The event shuts the pool down while a worker is executing the job. */
  ghost predicate Interrupts(s: Pool, e: Event, j: nat) {
    e.Shutdown? && s.manager.Sleeping? && s.terminate && exists w :: At(s, w, Running(j))
  }

  /** The job was running when the pool was shut down. */
  ghost predicate Interrupted(c: Config, run: seq<Event>, j: nat) {
    run != [] && (Interrupted(c, run[..|run| - 1], j) || Interrupts(Exec(c, run[..|run| - 1]), run[|run| - 1], j))
  }

  /** An orphaned job that is still in the pool has a dead thread. */
  ghost predicate OrphanOk(s: Pool, j: nat) {
    j < |s.history.places| && j in s.history.orphaned && s.history.places[j].InPool? ==>
      s.history.places[j].w !in s.workers
  }

  lemma ExamineOrphans(c: Config, s: Pool, readd: seq<nat>, j0: nat, j: nat)
    requires Inv(s) && JobKnown(s, j0) && s.history.places[j0].InPool? && OrphanOk(s, j) && PlaceKnown(s, j)
    ensures OrphanOk(ExamineStep(c, s, readd, j0), j)
  {
    assert JobOk(s, j0) && PcOk(s, s.history.places[j0].w);
  }

  lemma StepOrphans(c: Config, s: Pool, e: Event, j: nat)
    requires Inv(s) && TrackedOk(s) && OrphanOk(s, j) && PlaceKnown(s, j)
    ensures OrphanOk(Step(c, s, e), j)
  {
    if Step(c, s, e) == s {
    } else if e.Examine? {
      TrackedExamine(c, s, s.manager.readd, s.manager.hand.value);
      ExamineOrphans(c, s, s.manager.readd, s.manager.hand.value, j);
    } else if e.Start? {
      InRange(s.launched, c.numThreads);
    } else if e.Enqueue? {
      assert PcOk(s, e.w) && JobOk(s, s.workers[e.w].job);
    }
  }

  /** Without raises a timeout orphans no job. */
  lemma ExamineOrphansNone(c: Config, s: Pool, readd: seq<nat>, j: nat)
    requires Inv(s) && JobKnown(s, j) && s.history.places[j].InPool? && OrphanOk(s, j) && s.history.raised == {}
    ensures ExamineStep(c, s, readd, j).history.orphaned == s.history.orphaned
  {
    assert JobOk(s, j) && PcOk(s, s.history.places[j].w);
  }

  ghost predicate OrphansAre(c: Config, run: seq<Event>, s: Pool) {
    && s.history.raised == {}
    && (forall j: nat :: j in s.history.orphaned <==> Interrupted(c, run, j))
    && (forall j: nat :: OrphanOk(s, j))
  }

  lemma StepOrphaned(c: Config, s: Pool, e: Event, j: nat)
    requires Inv(s) && TrackedOk(s) && s.history.raised == {} && !e.Raise? && forall j: nat :: OrphanOk(s, j)
    ensures j in Step(c, s, e).history.orphaned <==> j in s.history.orphaned || Interrupts(s, e, j)
    ensures Step(c, s, e).history.raised == {}
  {
    if Step(c, s, e) == s {
    } else if e.Examine? {
      TrackedExamine(c, s, s.manager.readd, s.manager.hand.value);
      ExamineOrphansNone(c, s, s.manager.readd, s.manager.hand.value);
    } else if e.Shutdown? {
      ShutdownOrphaned(s, j);
    }
  }

  lemma ShutdownOrphaned(s: Pool, j: nat)
    ensures j in ShutdownStep(s).history.orphaned <==> j in s.history.orphaned || exists w :: At(s, w, Running(j))
  {
    var stopped := set w | w in s.workers && s.workers[w].Running? :: s.workers[w].job;
    if j in stopped {
      var w :| w in s.workers && s.workers[w].Running? && s.workers[w].job == j;
      assert At(s, w, Running(j));
    }
    if w :| At(s, w, Running(j)) { assert s.workers[w].job in stopped; }
  }

  lemma {:induction false} OrphanedIff(c: Config, run: seq<Event>)
    requires NoRaises(run)
    ensures OrphansAre(c, run, Exec(c, run))
    decreases |run|
  {
    if run != [] {
      var before, e := run[..|run| - 1], run[|run| - 1];
      var s := Exec(c, before);
      OrphanedIff(c, before);
      ExecSafe(c, before);
      forall j: nat { ExecPlaces(c, before, j); }
      forall j: nat
        ensures j in Step(c, s, e).history.orphaned <==> Interrupted(c, run, j)
        ensures OrphanOk(Step(c, s, e), j)
      {
        StepOrphaned(c, s, e, j);
        StepOrphans(c, s, e, j);
      }
      StepOrphaned(c, s, e, 0);
    }
  }

  /** Without raises the recorded thread of an overdue job was killed if and only if the job
      was running at an earlier shutdown. */
  lemma KilledIffInterrupted(c: Config, run: seq<Event>, j: nat) returns (t: nat)
    requires NoRaises(run) && Overdue(c, Exec(c, run), j)
    ensures Exec(c, run).jobs[j].thread == Some(t)
    ensures Killed(c, run, t) <==> Interrupted(c, run, j)
    ensures At(Exec(c, run), t, Running(j)) <==> !Interrupted(c, run, j)
  {
    var s := Exec(c, run);
    ExecSafe(c, run);
    OrphanedIff(c, run);
    t := RecordedIsListedIff(c, run, j);
    KillTarget(c, run, j);
    assert OrphanOk(s, j);
  }

  /** In every run without raising handlers, restarts included, the timeout of an overdue job
      kills the worker that is executing it, and adds no worker, if and only if the job was
      not running at an earlier shutdown. */
  lemma TimeoutIsExactIff(c: Config, run: seq<Event>, j: nat)
    requires NoRaises(run) && Overdue(c, Exec(c, run), j)
    ensures var s := Exec(c, run);
            && s.jobs[j].thread.Some?
            && (At(s, s.jobs[j].thread.value, Running(j)) <==> !Interrupted(c, run, j))
            && |Step(c, s, Examine).listed| == |s.listed| + Count(Interrupted(c, run, j))
  {
    var t := KilledIffInterrupted(c, run, j);
    ExamineAddsIff(c, run, j);
  }

  /** The manager is about to examine an overdue job that was running at a shutdown. */
  ghost predicate FindsInterrupted(c: Config, run: seq<Event>) {
    FindsOverdue(c, Exec(c, run)) && Interrupted(c, run, Exec(c, run).manager.hand.value)
  }

  /** How often that happened since the pool was started. */
  ghost function Revivals(c: Config, run: seq<Event>): nat {
    if run == [] then 0
    else
      var before, e := run[..|run| - 1], run[|run| - 1];
      if Restarts(Exec(c, before), e) then 0
      else Revivals(c, before) + Count(e.Examine? && FindsInterrupted(c, before))
  }

  lemma {:induction false} StraysAreRevivals(c: Config, run: seq<Event>)
    requires NoRaises(run)
    ensures Strays(c, run) == Revivals(c, run)
    decreases |run|
  {
    if run != [] {
      var before := run[..|run| - 1];
      StraysAreRevivals(c, before);
      if FindsOverdue(c, Exec(c, before)) {
        var t := KilledIffInterrupted(c, before, Exec(c, before).manager.hand.value);
      }
    }
  }

  /** In every run without raising handlers exactly `num_threads` workers are listed while the
      pool is up if and only if, since the start, no job that was running at an earlier
      shutdown came to be examined as overdue. */
  lemma ListedExactlyIff(c: Config, run: seq<Event>)
    requires NoRaises(run) && !Exec(c, run).manager.Off?
    ensures |Exec(c, run).listed| == c.numThreads + Revivals(c, run)
    ensures |Exec(c, run).listed| == c.numThreads <==> Revivals(c, run) == 0
  {
    ListedWorkers(c, run);
    StraysAreRevivals(c, run);
  }

  // ----- runs in which nothing is interrupted

  ghost predicate InterruptsNone(s: Pool, e: Event) { forall j: nat :: !Interrupts(s, e, j) }

  /** No handler raises, and no shutdown finds a worker inside a handler. */
  ghost predicate Calm(c: Config, run: seq<Event>) {
    run != [] ==>
      && Calm(c, run[..|run| - 1]) && !run[|run| - 1].Raise?
      && InterruptsNone(Exec(c, run[..|run| - 1]), run[|run| - 1])
  }

  lemma {:induction false} CalmIsUninterrupted(c: Config, run: seq<Event>)
    requires Calm(c, run)
    ensures NoRaises(run) && forall j: nat :: !Interrupted(c, run, j)
    decreases |run|
  {
    if run != [] { CalmIsUninterrupted(c, run[..|run| - 1]); }
  }

  lemma {:induction false} CalmHasNoStrays(c: Config, run: seq<Event>)
    requires Calm(c, run)
    ensures Strays(c, run) == 0
    decreases |run|
  {
    if run != [] {
      var before := run[..|run| - 1];
      CalmHasNoStrays(c, before);
      CalmIsUninterrupted(c, before);
      if FindsKilled(c, before) {
        var t := KilledIffInterrupted(c, before, Exec(c, before).manager.hand.value);
      }
    }
  }

  /** If no handler raises and no shutdown interrupts a job, then, restarts included, every
      timeout kills the worker that is executing the overdue job at that moment, and exactly
      `num_threads` workers are listed. */
  lemma CalmRunsAreExact(c: Config, run: seq<Event>)
    requires Calm(c, run)
    ensures var s := Exec(c, run);
            && (!s.manager.Off? ==> |s.listed| == c.numThreads)
            && forall j: nat :: Overdue(c, s, j) ==> s.jobs[j].thread.Some? && At(s, s.jobs[j].thread.value, Running(j))
  {
    CalmHasNoStrays(c, run);
    ListedWorkers(c, run);
    CalmIsUninterrupted(c, run);
    var s := Exec(c, run);
    forall j: nat | Overdue(c, s, j) ensures s.jobs[j].thread.Some? && At(s, s.jobs[j].thread.value, Running(j)) {
      TimeoutIsExactIff(c, run, j);
    }
  }
}

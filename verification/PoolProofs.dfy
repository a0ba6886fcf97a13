/** Safety of the worker pool over every run. */
module PoolProofs {
  import opened Basics
  import opened ThreadPool

  // ----- the invariant, part by part

  ghost predicate Sizes(s: Pool) {
    && |s.history.places| == |s.jobs| && |s.history.seen| == |s.jobs|
    && s.listed == s.workers.Keys
    && (forall w :: w in s.workers ==> w < s.launched)
    && (s.manager.Off? ==> s.workers == map[])
    && (forall j :: j in s.history.raised || j in s.history.orphaned ==> j < |s.jobs|)
  }

  /** The work queue holds the jobs submitted last, in order. */
  ghost predicate InOrder(s: Pool) {
    && |s.workQueue| <= |s.jobs|
    && forall i :: 0 <= i < |s.workQueue| ==> s.workQueue[i] == |s.jobs| - |s.workQueue| + i
  }

  predicate Active(s: Pool, j: nat) {
    && j < |s.jobs| && s.jobs[j].started.Some? && s.jobs[j].completed.None?
    && j !in s.history.raised && j !in s.history.orphaned
  }

  predicate Placed(s: Pool, j: nat, p: Place) { j < |s.history.places| && s.history.places[j] == p }

  /** A worker holds the job it took, and is inside the handler only of an active job. */
  ghost predicate PcOk(s: Pool, w: nat) {
    w in s.workers ==>
      match s.workers[w]
      case Idle => true
      case Claimed(j) => Placed(s, j, ClaimedBy(w))
      case Queued(j) => Placed(s, j, InPool(w)) && j < |s.jobs| && s.jobs[j].started.None?
      case Running(j) => Placed(s, j, InPool(w)) && Active(s, j)
  }

  /** An active job in the pool is being executed by the worker that took it. */
  ghost predicate JobOk(s: Pool, j: nat)
    requires j < |s.jobs| == |s.history.places|
  {
    var job, place := s.jobs[j], s.history.places[j];
    && (place == Waiting <==> |s.jobs| - |s.workQueue| <= j)
    && (place.ClaimedBy? ==> At(s, place.w, Claimed(j)))
    && (place.Waiting? || place.ClaimedBy? || place.Lost? ==> job == NEW_JOB)
    && (job.started.None? ==> job.completed.None? && j !in s.history.raised && j !in s.history.orphaned)
    && (job.started.Some? && job.completed.None? ==> !place.Waiting? && job.thread == Some(place.w))
    && (place.InPool? && Active(s, j) ==> At(s, place.w, Running(j)))
  }

  ghost predicate Inv(s: Pool) {
    && Sizes(s) && InOrder(s)
    && (forall w :: PcOk(s, w))
    && (forall j :: 0 <= j < |s.jobs| ==> JobOk(s, j))
  }

  lemma {:induction false} InRange(from: nat, n: nat)
    ensures |Range(from, n)| == n
    ensures forall w :: w in Range(from, n) <==> from <= w < from + n
  {
    if n > 0 { InRange(from, n - 1); }
  }

  lemma SubmitKeeps(s: Pool)
    requires Inv(s)
    ensures Inv(SubmitStep(s))
  {
    var s' := SubmitStep(s);
    forall w ensures PcOk(s', w) { assert PcOk(s, w); }
    forall j | 0 <= j < |s'.jobs| ensures JobOk(s', j) { assert j < |s.jobs| ==> JobOk(s, j); }
  }

  lemma PopKeeps(s: Pool, w0: nat)
    requires Inv(s) && At(s, w0, Idle) && s.workQueue != [] && JobKnown(s, s.workQueue[0])
    ensures Inv(PopStep(s, w0))
  {
    var s' := PopStep(s, w0);
    var j0 := s.workQueue[0];
    assert JobOk(s, j0);
    forall w ensures PcOk(s', w) { assert PcOk(s, w); }
    forall j | 0 <= j < |s'.jobs| ensures JobOk(s', j) { assert JobOk(s, j); }
  }

  lemma EnqueueKeeps(s: Pool, w0: nat, j0: nat)
    requires Inv(s) && At(s, w0, Claimed(j0)) && JobKnown(s, j0)
    ensures Inv(EnqueueStep(s, w0, j0))
  {
    var s' := EnqueueStep(s, w0, j0);
    assert PcOk(s, w0) && JobOk(s, j0);
    forall w ensures PcOk(s', w) { assert PcOk(s, w); }
    forall j | 0 <= j < |s'.jobs| ensures JobOk(s', j) { assert JobOk(s, j); }
  }

  lemma BeginKeeps(s: Pool, w0: nat, j0: nat)
    requires Inv(s) && At(s, w0, Queued(j0)) && JobKnown(s, j0)
    ensures Inv(BeginStep(s, w0, j0))
  {
    var s' := BeginStep(s, w0, j0);
    assert PcOk(s, w0) && JobOk(s, j0);
    forall w ensures PcOk(s', w) { assert PcOk(s, w); }
    forall j | 0 <= j < |s'.jobs| ensures JobOk(s', j) { assert JobOk(s, j); }
  }

  lemma FinishKeeps(s: Pool, w0: nat, j0: nat)
    requires Inv(s) && At(s, w0, Running(j0)) && JobKnown(s, j0)
    ensures Inv(FinishStep(s, w0, j0))
  {
    var s' := FinishStep(s, w0, j0);
    assert PcOk(s, w0) && JobOk(s, j0);
    forall w ensures PcOk(s', w) { assert PcOk(s, w); }
    forall j | 0 <= j < |s'.jobs| ensures JobOk(s', j) { assert JobOk(s, j); }
  }

  lemma RaiseKeeps(s: Pool, w0: nat, j0: nat)
    requires Inv(s) && At(s, w0, Running(j0))
    ensures Inv(RaiseStep(s, w0, j0))
  {
    var s' := RaiseStep(s, w0, j0);
    assert PcOk(s, w0);
    forall w ensures PcOk(s', w) { assert PcOk(s, w); }
    forall j | 0 <= j < |s'.jobs| ensures JobOk(s', j) { assert JobOk(s, j); }
  }

  lemma StartKeeps(c: Config, s: Pool)
    requires Inv(s) && s.manager.Off?
    ensures Inv(StartStep(c, s))
  {
    var s' := StartStep(c, s);
    InRange(s.launched, c.numThreads);
    forall w ensures PcOk(s', w) { assert PcOk(s, w); }
    forall j | 0 <= j < |s'.jobs| ensures JobOk(s', j) { assert JobOk(s, j); }
  }

  lemma ShutdownKeeps(s: Pool)
    requires Inv(s)
    ensures Inv(ShutdownStep(s))
  {
    var s' := ShutdownStep(s);
    forall w | w in s.workers && s.workers[w].Running? ensures Active(s, s.workers[w].job) { assert PcOk(s, w); }
    forall w ensures PcOk(s', w) { assert PcOk(s, w); }
    forall j | 0 <= j < |s'.jobs| ensures JobOk(s', j) { assert JobOk(s, j); }
  }

  lemma ExaminedKeeps(s: Pool, readd: seq<nat>, j0: nat)
    requires Inv(s) && s.manager.Scanning? && JobKnown(s, j0)
    ensures Inv(Examined(s, readd, j0))
  {
    var s' := Examined(s, readd, j0);
    forall w ensures PcOk(s', w) { assert PcOk(s, w); }
    forall j | 0 <= j < |s'.jobs| ensures JobOk(s', j) { assert JobOk(s, j); }
  }

  lemma RetireKeeps(s: Pool, j0: nat)
    requires Inv(s) && JobKnown(s, j0) && Completed(s.jobs[j0])
    ensures Inv(Retire(s, j0))
  {
    var s' := Retire(s, j0);
    assert JobOk(s, j0);
    forall w ensures PcOk(s', w) { assert PcOk(s, w); }
    forall j | 0 <= j < |s'.jobs| ensures JobOk(s', j) { assert JobOk(s, j); }
  }

  /** Killing the recorded thread `t` of an unfinished job, whatever it is doing now. */
  lemma KillKeeps(s: Pool, j0: nat, t: nat)
    requires Inv(s) && !s.manager.Off? && JobKnown(s, j0)
    requires s.history.places[j0] == InPool(t) && s.jobs[j0].started.Some? && s.jobs[j0].completed.None?
    ensures Inv(ReplaceWorker(Retire(s, j0), t, j0))
  {
    var s' := ReplaceWorker(Retire(s, j0), t, j0);
    assert JobOk(s, j0) && PcOk(s, t);
    assert forall w :: w in s'.workers <==> w == s.launched || (w in s.workers && w != t);
    assert Sizes(s') && InOrder(s');
    forall w ensures PcOk(s', w) { KillPc(s, j0, t, w); }
    forall j | 0 <= j < |s'.jobs| ensures JobOk(s', j) { KillJob(s, j0, t, j); }
  }

  lemma KillPc(s: Pool, j0: nat, t: nat, w: nat)
    requires Inv(s) && JobKnown(s, j0)
    requires s.history.places[j0] == InPool(t) && s.jobs[j0].started.Some? && s.jobs[j0].completed.None?
    ensures PcOk(ReplaceWorker(Retire(s, j0), t, j0), w)
  {
    assert PcOk(s, t) && PcOk(s, w);
  }

  lemma KillJob(s: Pool, j0: nat, t: nat, j: nat)
    requires Inv(s) && JobKnown(s, j0) && j < |s.jobs|
    requires s.history.places[j0] == InPool(t) && s.jobs[j0].started.Some? && s.jobs[j0].completed.None?
    ensures JobOk(ReplaceWorker(Retire(s, j0), t, j0), j)
  {
    assert JobOk(s, j) && PcOk(s, t);
  }

  lemma ExamineKeeps(c: Config, s: Pool, readd: seq<nat>, j0: nat)
    requires Inv(s) && s.manager.Scanning? && JobKnown(s, j0) && s.history.places[j0].InPool?
    ensures Inv(ExamineStep(c, s, readd, j0))
  {
    assert JobOk(s, j0);
    ExaminedKeeps(s, readd, j0);
    ExaminedKeeps(s, readd + [j0], j0);
    if Expired(s.jobs[j0], s.clock, c.timeout) {
      KillKeeps(Examined(s, readd, j0), j0, s.history.places[j0].w);
    } else if Completed(s.jobs[j0]) {
      RetireKeeps(Examined(s, readd, j0), j0);
    }
  }

  // ----- the running queue, the manager's hand and its re-add list share no job

  function Held(m: Manager): multiset<nat> {
    match m
    case Scanning(readd, Some(j)) => multiset(readd) + multiset{j}
    case Scanning(readd, None) => multiset(readd)
    case Readding(readd) => multiset(readd)
    case _ => multiset{}
  }

  function Tracked(s: Pool): multiset<nat> { multiset(s.runningQueue) + Held(s.manager) }

  ghost predicate TrackedOk(s: Pool) {
    forall j: nat :: Tracked(s)[j] == if j < |s.history.places| && s.history.places[j].InPool? then 1 else 0
  }

  lemma TrackedEnqueue(s: Pool, w0: nat, j0: nat)
    requires Inv(s) && TrackedOk(s) && At(s, w0, Claimed(j0)) && JobKnown(s, j0)
    ensures TrackedOk(EnqueueStep(s, w0, j0))
  {
    assert PcOk(s, w0);
    assert Tracked(EnqueueStep(s, w0, j0)) == Tracked(s) + multiset{j0};
  }

  lemma TrackedRetire(s: Pool, s': Pool, j0: nat)
    requires TrackedOk(s) && j0 < |s.history.places| == |s'.history.places|
    requires s.history.places[j0].InPool? && !s'.history.places[j0].InPool?
    requires forall j :: 0 <= j < |s.history.places| && j != j0 ==>
               (s.history.places[j].InPool? <==> s'.history.places[j].InPool?)
    requires Tracked(s) == Tracked(s') + multiset{j0}
    ensures TrackedOk(s')
  {
  }

  lemma TrackedSame(s: Pool, s': Pool)
    requires TrackedOk(s) && |s.history.places| == |s'.history.places| && Tracked(s') == Tracked(s)
    requires forall j :: 0 <= j < |s.history.places| ==>
               (s.history.places[j].InPool? <==> s'.history.places[j].InPool?)
    ensures TrackedOk(s')
  {
  }

  lemma TrackedKill(s: Pool, s1: Pool, j0: nat, t: nat)
    requires Inv(s) && TrackedOk(s) && JobKnown(s, j0) && s.history.places[j0] == InPool(t)
    requires s1.workers == s.workers && s1.history.places == s.history.places
    requires Tracked(s) == Tracked(s1) + multiset{j0}
    ensures TrackedOk(ReplaceWorker(Retire(s1, j0), t, j0))
  {
    assert PcOk(s, t);
    TrackedRetire(s, ReplaceWorker(Retire(s1, j0), t, j0), j0);
  }

  lemma TrackedExamine(c: Config, s: Pool, readd: seq<nat>, j0: nat)
    requires Inv(s) && TrackedOk(s) && JobKnown(s, j0) && s.manager == Scanning(readd, Some(j0))
    ensures s.history.places[j0].InPool?
    ensures TrackedOk(ExamineStep(c, s, readd, j0))
  {
    assert Tracked(s)[j0] > 0;
    assert JobOk(s, j0);
    if Expired(s.jobs[j0], s.clock, c.timeout) {
      TrackedKill(s, Examined(s, readd, j0), j0, s.history.places[j0].w);
    } else if Completed(s.jobs[j0]) {
      TrackedRetire(s, Retire(Examined(s, readd, j0), j0), j0);
    } else {
      TrackedSame(s, Examined(s, readd + [j0], j0));
    }
  }

  lemma HeadFirst(q: seq<nat>)
    requires q != []
    ensures multiset(q) == multiset{q[0]} + multiset(q[1..])
  {
    assert q == [q[0]] + q[1..];
  }

  lemma TrackedPopRunning(s: Pool)
    requires TrackedOk(s) && s.manager.Scanning? && s.manager.hand.None? && s.runningQueue != []
    ensures TrackedOk(PopRunningStep(s))
  {
    HeadFirst(s.runningQueue);
    assert Tracked(PopRunningStep(s)) == Tracked(s);
  }

  lemma TrackedPop(s: Pool, w: nat)
    requires Inv(s) && TrackedOk(s) && s.workQueue != [] && JobKnown(s, s.workQueue[0])
    ensures TrackedOk(PopStep(s, w))
  {
    assert JobOk(s, s.workQueue[0]);
    TrackedSame(s, PopStep(s, w));
  }

  lemma TrackedReadd(s: Pool)
    requires TrackedOk(s) && s.manager.Readding? && s.manager.readd != []
    ensures TrackedOk(ReaddStep(s))
  {
    HeadFirst(s.manager.readd);
    assert Tracked(ReaddStep(s)) == Tracked(s);
  }

  lemma TrackedSubmit(s: Pool)
    requires TrackedOk(s)
    ensures TrackedOk(SubmitStep(s))
  {
    assert Tracked(SubmitStep(s)) == Tracked(s);
  }

  lemma TrackedShutdown(s: Pool)
    requires TrackedOk(s) && s.manager.Sleeping?
    ensures TrackedOk(ShutdownStep(s))
  {
    TrackedSame(s, ShutdownStep(s));
  }

  lemma StepTracked(c: Config, s: Pool, e: Event)
    requires Inv(s) && TrackedOk(s)
    ensures TrackedOk(Step(c, s, e))
  {
    var s' := Step(c, s, e);
    if s' == s {
    } else if e.Submit? {
      TrackedSubmit(s);
    } else if e.Enqueue? {
      TrackedEnqueue(s, e.w, s.workers[e.w].job);
    } else if e.Examine? {
      TrackedExamine(c, s, s.manager.readd, s.manager.hand.value);
    } else if e.PopRunning? {
      TrackedPopRunning(s);
    } else if e.Readd? {
      TrackedReadd(s);
    } else if e.Pop? {
      TrackedPop(s, e.w);
    } else if e.Shutdown? {
      TrackedShutdown(s);
    } else {
      TrackedSame(s, s');
    }
  }

  // ----- how many workers are listed

  function Spare(s: Pool): int { |s.listed| - s.history.surplus }

  ghost predicate CountOk(c: Config, s: Pool) { !s.manager.Off? ==> Spare(s) == c.numThreads }

  lemma SwapSize(a: set<nat>, t: nat, x: nat)
    requires x !in a
    ensures |a - {t} + {x}| == if t in a then |a| else |a| + 1
  {
    if t in a {
      assert a == (a - {t}) + {t};
    } else {
      assert a - {t} == a;
    }
  }

  lemma ReplaceCount(s: Pool, t: nat, j: nat)
    requires s.launched !in s.listed
    ensures Spare(ReplaceWorker(s, t, j)) == Spare(s)
  {
    SwapSize(s.listed, t, s.launched);
  }

  lemma ExamineCount(c: Config, s: Pool, readd: seq<nat>, j: nat)
    requires s.launched !in s.listed && JobKnown(s, j)
    ensures Spare(ExamineStep(c, s, readd, j)) == Spare(s)
  {
    var s1 := Retire(Examined(s, readd, j), j);
    if Expired(s.jobs[j], s.clock, c.timeout) && s.jobs[j].thread.Some? {
      calc {
        Spare(ExamineStep(c, s, readd, j));
      ==
        Spare(ReplaceWorker(s1, s.jobs[j].thread.value, j));
      ==  { ReplaceCount(s1, s.jobs[j].thread.value, j); }
        Spare(s1);
      ==
        Spare(s);
      }
    }
  }

  lemma StepCount(c: Config, s: Pool, e: Event)
    requires Inv(s) && CountOk(c, s)
    ensures CountOk(c, Step(c, s, e))
  {
    var s' := Step(c, s, e);
    if s' == s {
    } else if e.Start? {
      InRange(s.launched, c.numThreads);
    } else if e.Examine? {
      ExamineCount(c, s, s.manager.readd, s.manager.hand.value);
    }
  }

  // ----- every run keeps the invariant

  ghost predicate Safe(c: Config, s: Pool) { Inv(s) && TrackedOk(s) && CountOk(c, s) }

  lemma StepKeeps(c: Config, s: Pool, e: Event)
    requires Safe(c, s)
    ensures Safe(c, Step(c, s, e))
  {
    StepTracked(c, s, e);
    StepCount(c, s, e);
    var s' := Step(c, s, e);
    if s' == s {
    } else if e.Submit? { SubmitKeeps(s);
    } else if e.Pop? { PopKeeps(s, e.w);
    } else if e.Enqueue? { EnqueueKeeps(s, e.w, s.workers[e.w].job);
    } else if e.Begin? { BeginKeeps(s, e.w, s.workers[e.w].job);
    } else if e.Finish? { FinishKeeps(s, e.w, s.workers[e.w].job);
    } else if e.Raise? { RaiseKeeps(s, e.w, s.workers[e.w].job);
    } else if e.Examine? {
      TrackedExamine(c, s, s.manager.readd, s.manager.hand.value);
      ExamineKeeps(c, s, s.manager.readd, s.manager.hand.value);
    } else if e.Start? { StartKeeps(c, s);
    } else if e.Shutdown? { ShutdownKeeps(s);
    } else { QuietKeeps(s, s'); }
  }

  /** Steps that touch only the manager, the running queue or the clock. */
  lemma QuietKeeps(s: Pool, s': Pool)
    requires Inv(s) && (s'.manager.Off? ==> s.manager.Off?)
    requires s'.workQueue == s.workQueue && s'.jobs == s.jobs && s'.workers == s.workers
    requires s'.listed == s.listed && s'.launched == s.launched
    requires s'.history.(passBegan := 0, lastPassBegan := 0) == s.history.(passBegan := 0, lastPassBegan := 0)
    ensures Inv(s')
  {
    forall w ensures PcOk(s', w) { assert PcOk(s, w); }
    forall j | 0 <= j < |s'.jobs| ensures JobOk(s', j) { assert JobOk(s, j); }
  }

  lemma {:induction false} ExecSafe(c: Config, run: seq<Event>)
    ensures Safe(c, Exec(c, run))
  {
    if run != [] {
      ExecSafe(c, run[..|run| - 1]);
      StepKeeps(c, Exec(c, run[..|run| - 1]), run[|run| - 1]);
    }
  }

  // ----- main results

  function Count(b: bool): nat { if b then 1 else 0 }

  /** The manager has dropped the job, or its worker died before it reached the manager. */
  predicate IsOut(s: Pool, j: nat) {
    j < |s.history.places| && (s.history.places[j].Gone? || s.history.places[j].Lost?)
  }

  /** At every moment each submitted job is in exactly one place: the work queue, a
      worker's hands, the manager's queues, or out of the pool. No queue holds it twice. */
  lemma ExactlyOnePlace(c: Config, run: seq<Event>, j: nat)
    requires j < |Exec(c, run).jobs|
    ensures var s := Exec(c, run);
            && Tracked(s)[j] <= 1
            && Count(j in s.workQueue) + Count(exists w :: At(s, w, Claimed(j))) + Tracked(s)[j]
               + Count(IsOut(s, j)) == 1
  {
    ExecSafe(c, run);
    var s := Exec(c, run);
    assert JobOk(s, j);
    assert j in s.workQueue <==> |s.jobs| - |s.workQueue| <= j by {
      if |s.jobs| - |s.workQueue| <= j { assert s.workQueue[j - (|s.jobs| - |s.workQueue|)] == j; }
    }
    if w :| At(s, w, Claimed(j)) { assert PcOk(s, w); }
    if s.history.places[j].ClaimedBy? { assert At(s, s.history.places[j].w, Claimed(j)); }
    assert Tracked(s)[j] == Count(s.history.places[j].InPool?);
  }

  /** Jobs are claimed in the order they were submitted: the k-th claim takes job k. */
  lemma ClaimedInOrder(c: Config, run: seq<Event>, w: nat)
    requires At(Exec(c, run), w, Idle) && Exec(c, run).workQueue != []
    ensures var s := Exec(c, run);
            && At(Step(c, s, Pop(w)), w, Claimed(s.workQueue[0]))
            && Step(c, s, Pop(w)).workQueue == s.workQueue[1..]
            && s.workQueue[0] == |s.jobs| - |s.workQueue|
  {
    ExecSafe(c, run);
  }

  /** A job is started at most once and its record is final once it is completed. */
  lemma {:induction false} StartedOnce(c: Config, run: seq<Event>, more: seq<Event>, j: nat)
    requires j < |Exec(c, run).jobs|
    ensures j < |Exec(c, run + more).jobs|
    ensures var job, job' := Exec(c, run).jobs[j], Exec(c, run + more).jobs[j];
            && (job.started.Some? ==> job'.started == job.started)
            && (Completed(job) ==> job' == job)
    decreases |more|
  {
    if more == [] {
      assert run + more == run;
    } else {
      var before := run + more[..|more| - 1];
      StartedOnce(c, run, more[..|more| - 1], j);
      assert (run + more)[..|run + more| - 1] == before;
      ExecSafe(c, before);
      StepStartsOnce(c, Exec(c, before), more[|more| - 1], j);
    }
  }

  lemma StepStartsOnce(c: Config, s: Pool, e: Event, j: nat)
    requires Inv(s) && j < |s.jobs|
    ensures j < |Step(c, s, e).jobs|
    ensures var job, job' := s.jobs[j], Step(c, s, e).jobs[j];
            && (job.started.Some? ==> job'.started == job.started)
            && (Completed(job) ==> job' == job)
  {
    if e.Begin? || e.Finish? { assert PcOk(s, e.w); }
  }

  /** The manager is about to examine `j` and finds it overdue. */
  predicate Overdue(c: Config, s: Pool, j: nat) {
    && s.manager.Scanning? && s.manager.hand == Some(j)
    && j < |s.jobs| && Expired(s.jobs[j], s.clock, c.timeout)
  }

  lemma KillEffect(c: Config, s: Pool, readd: seq<nat>, j: nat, t: nat)
    requires JobKnown(s, j) && Expired(s.jobs[j], s.clock, c.timeout) && s.jobs[j].thread == Some(t)
    ensures ExamineStep(c, s, readd, j).workers == (s.workers - {t})[s.launched := Idle]
  {
    assert Retire(Examined(s, readd, j), j).workers == s.workers;
  }

  /** A timeout kill removes exactly one thread, the one recorded for the overdue job.
      That thread is executing this job if and only if the job's handler has not raised
      and its thread was not killed before. */
  lemma KillTarget(c: Config, run: seq<Event>, j: nat)
    requires Overdue(c, Exec(c, run), j)
    ensures KillsRecorded(c, Exec(c, run), j)
  {
    ExecSafe(c, run);
    KillTargetAt(c, Exec(c, run), j);
  }

  ghost predicate KillsRecorded(c: Config, s: Pool, j: nat)
    requires j < |s.jobs|
  {
    && s.jobs[j].thread.Some?
    && var t := s.jobs[j].thread.value;
    && Step(c, s, Examine).workers == (s.workers - {t})[s.launched := Idle]
    && (At(s, t, Running(j)) <==> j !in s.history.raised && j !in s.history.orphaned)
  }

  lemma KillTargetAt(c: Config, s: Pool, j: nat)
    requires Inv(s) && TrackedOk(s) && Overdue(c, s, j)
    ensures KillsRecorded(c, s, j)
  {
    var t := HandIsInPool(s, j);
    KillEffect(c, s, s.manager.readd, j, t);
  }

  lemma HandIsInPool(s: Pool, j: nat) returns (t: nat)
    requires Inv(s) && TrackedOk(s) && s.manager.Scanning? && s.manager.hand == Some(j) && j < |s.jobs|
    requires s.jobs[j].started.Some? && s.jobs[j].completed.None?
    ensures s.jobs[j].thread == Some(t) && s.history.places[j] == InPool(t)
    ensures At(s, t, Running(j)) <==> j !in s.history.raised && j !in s.history.orphaned
  {
    assert Tracked(s)[j] > 0;
    t := s.history.places[j].w;
    assert JobOk(s, j) && PcOk(s, t);
  }

  /** In every run, whatever the workers do in between, a job leaves the manager's queues
      exactly if the manager examines it and finds it overdue or completed. */
  lemma LeavesPoolIff(c: Config, run: seq<Event>, e: Event, j: nat)
    requires j < |Exec(c, run).jobs| && Tracked(Exec(c, run))[j] == 1
    ensures var s := Exec(c, run);
            Tracked(Step(c, s, e))[j] == 0 <==>
              && e.Examine? && s.manager.Scanning? && s.manager.hand == Some(j)
              && s.jobs[j].started.Some?
              && (s.jobs[j].completed.Some? || s.clock - s.jobs[j].started.value > c.timeout)
  {
    var s := Exec(c, run);
    ExecSafe(c, run);
    StepKeeps(c, s, e);
    if e.Examine? && Step(c, s, e) != s {
      TrackedExamine(c, s, s.manager.readd, s.manager.hand.value);
      ExamineRetiresIff(c, s, s.manager.readd, s.manager.hand.value, j);
    } else {
      StaysInPool(c, s, e, j);
    }
    TrackedIffInPool(Step(c, s, e), j);
  }

  predicate InPoolAt(s: Pool, j: nat) { j < |s.history.places| && s.history.places[j].InPool? }

  lemma TrackedIffInPool(s: Pool, j: nat)
    requires TrackedOk(s)
    ensures Tracked(s)[j] == Count(InPoolAt(s, j))
  {
  }

  lemma StaysInPool(c: Config, s: Pool, e: Event, j: nat)
    requires Inv(s) && InPoolAt(s, j) && (e.Examine? ==> Step(c, s, e) == s)
    ensures InPoolAt(Step(c, s, e), j)
  {
    if e.Pop? && s.workQueue != [] && JobKnown(s, s.workQueue[0]) { assert JobOk(s, s.workQueue[0]); }
  }

  lemma ExamineRetiresIff(c: Config, s: Pool, readd: seq<nat>, j0: nat, j: nat)
    requires Inv(s) && JobKnown(s, j0) && InPoolAt(s, j0) && InPoolAt(s, j)
    ensures !InPoolAt(ExamineStep(c, s, readd, j0), j)
       <==> j == j0 && (Expired(s.jobs[j], s.clock, c.timeout) || Completed(s.jobs[j]))
  {
    assert JobOk(s, j0);
    var t := s.history.places[j0].w;
    assert PcOk(s, t);
  }
}

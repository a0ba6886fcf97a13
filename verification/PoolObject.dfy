/** `ThreadPool` and `ThreadPoolJob#exec` as an object whose fields the source updates, one
    method for each stretch that no other thread interrupts, and one uninterrupted pass of
    `check_workers`. Every method is a step, or a run of steps, of the pool machine. */
module PoolObject {
  import opened Basics
  import opened ThreadPool
  import opened PoolProofs

  lemma StepsSnoc(c: Config, s: Pool, run: seq<Event>, e: Event)
    ensures Steps(c, s, run + [e]) == Step(c, Steps(c, s, run), e)
  {
    assert (run + [e])[..|run|] == run;
  }

  lemma {:induction false} StepsAppend(c: Config, s: Pool, a: seq<Event>, b: seq<Event>)
    ensures Steps(c, s, a + b) == Steps(c, Steps(c, s, a), b)
    decreases |b|
  {
    if b == [] {
      assert a + b == a;
    } else {
      assert (a + b)[..|a + b| - 1] == a + b[..|b| - 1];
      StepsAppend(c, s, a, b[..|b| - 1]);
    }
  }

  lemma HeadIsKnown(s: Pool)
    requires Inv(s) && TrackedOk(s) && s.runningQueue != []
    ensures JobKnown(s, s.runningQueue[0])
  {
    assert Tracked(s)[s.runningQueue[0]] > 0;
  }

  /** `s'` is `s` after the manager's locked block for job `j`, whatever the history. */
  ghost predicate IsExamined(c: Config, s: Pool, readd: seq<nat>, j: nat, s': Pool)
    requires j < |s.jobs|
  {
    var expired := Expired(s.jobs[j], s.clock, c.timeout);
    && (expired ==> s.jobs[j].thread.Some?)
    && var t := if expired then {s.jobs[j].thread.value} else {};
    && s' == s.(manager := Scanning(if expired || Completed(s.jobs[j]) then readd else readd + [j], None),
                workers := if expired then (s.workers - t)[s.launched := Idle] else s.workers,
                listed := if expired then s.listed - t + {s.launched} else s.listed,
                launched := if expired then s.launched + 1 else s.launched,
                history := s'.history)
  }

  lemma StepIsExamined(c: Config, s: Pool, readd: seq<nat>, j: nat)
    requires Inv(s) && s.manager == Scanning(readd, Some(j)) && JobKnown(s, j)
    ensures IsExamined(c, s, readd, j, Step(c, s, Examine))
  {
    assert JobOk(s, j);
  }

  /** The jobs of the running queue that a pass at time `now` puts back. */
  function Kept(queue: seq<nat>, jobs: seq<Job>, now: int, timeout: int): seq<nat> {
    if queue == [] then []
    else
      var j, before := queue[|queue| - 1], Kept(queue[..|queue| - 1], jobs, now, timeout);
      if j < |jobs| && !Expired(jobs[j], now, timeout) && !Completed(jobs[j]) then before + [j] else before
  }

  /** A pass puts back the jobs of the queue that are not completed and have not run for more
      than the timeout. */
  lemma {:induction false} KeptIff(queue: seq<nat>, jobs: seq<Job>, now: int, timeout: int, j: nat)
    ensures j in Kept(queue, jobs, now, timeout) <==>
              && j in queue && j < |jobs|
              && (jobs[j].started.Some? ==> jobs[j].completed.None? && now - jobs[j].started.value <= timeout)
  {
    if queue != [] {
      KeptIff(queue[..|queue| - 1], jobs, now, timeout, j);
      assert queue == queue[..|queue| - 1] + [queue[|queue| - 1]];
    }
  }

  lemma KeptTake(queue: seq<nat>, n: nat, jobs: seq<Job>, now: int, timeout: int)
    requires n < |queue| && queue[n] < |jobs|
    ensures Kept(queue[..n + 1], jobs, now, timeout)
         == Kept(queue[..n], jobs, now, timeout)
            + if Expired(jobs[queue[n]], now, timeout) || Completed(jobs[queue[n]]) then [] else [queue[n]]
  {
    assert queue[..n + 1][..n] == queue[..n];
  }

  class WorkerPool {
    const config: Config
    var workQueue: seq<nat>
    var runningQueue: seq<nat>
    var jobs: seq<Job>
    var workers: map<nat, Pc>
    var listed: set<nat>
    var launched: nat
    var terminate: bool
    var clock: int
    ghost var manager: Manager
    ghost var history: History

    ghost function State(): Pool reads this {
      Pool(workQueue, runningQueue, jobs, workers, listed, launched, manager, terminate, clock, history)
    }

    ghost predicate Valid() reads this { Safe(config, State()) }

    constructor (config: Config)
      ensures State() == INIT && this.config == config && Valid()
    {
      this.config := config;
      workQueue, runningQueue, jobs, workers, listed := [], [], [], map[], {};
      launched, terminate, clock := 0, true, 0;
      manager, history := INIT.manager, INIT.history;
      new;
      ExecSafe(config, []);
    }

    /** `<<` */
    method Push()
      requires Valid()
      modifies this
      ensures Valid() && State() == Step(config, old(State()), Submit)
      ensures workQueue == old(workQueue) + [|old(jobs)|] && jobs == old(jobs) + [NEW_JOB]
    {
      StepKeeps(config, State(), Submit);
      history := Step(config, State(), Submit).history;
      workQueue, jobs := workQueue + [|jobs|], jobs + [NEW_JOB];
    }

    /** `@work_queue.pop` in the worker `w`. */
    method PopWork(w: nat) returns (work: nat)
      requires Valid() && At(State(), w, Idle) && workQueue != []
      modifies this
      ensures Valid() && State() == Step(config, old(State()), Pop(w))
      ensures [work] + workQueue == old(workQueue) && workers == old(workers)[w := Claimed(work)]
    {
      StepKeeps(config, State(), Pop(w));
      history := Step(config, State(), Pop(w)).history;
      work, workQueue := workQueue[0], workQueue[1..];
      workers := workers[w := Claimed(work)];
    }

    /** The worker `w` reports its job to the manager. */
    method PushRunning(w: nat, work: nat)
      requires Valid() && At(State(), w, Claimed(work))
      modifies this
      ensures Valid() && State() == Step(config, old(State()), Enqueue(w))
      ensures runningQueue == old(runningQueue) + [work] && workers == old(workers)[w := Queued(work)]
    {
      assert PcOk(State(), w);
      StepKeeps(config, State(), Enqueue(w));
      history := Step(config, State(), Enqueue(w)).history;
      runningQueue := runningQueue + [work];
      workers := workers[w := Queued(work)];
    }

    /** The first locked block of `exec`. */
    method BeginExec(w: nat, work: nat)
      requires Valid() && At(State(), w, Queued(work))
      modifies this
      ensures Valid() && State() == Step(config, old(State()), Begin(w))
      ensures |jobs| == |old(jobs)| && work < |jobs|
      ensures jobs[work].thread == Some(w) && jobs[work].started == Some(clock) && clock == old(clock)
      ensures forall j :: 0 <= j < |jobs| && j != work ==> jobs[j] == old(jobs)[j]
    {
      assert PcOk(State(), w);
      StepKeeps(config, State(), Begin(w));
      jobs := jobs[work := jobs[work].(thread := Some(w))];
      jobs := jobs[work := jobs[work].(started := Some(clock))];
      assert jobs == old(jobs)[work := old(jobs)[work].(thread := Some(w), started := Some(clock))];
      workers := workers[w := Running(work)];
    }

    /** The second locked block of `exec`. */
    method EndExec(w: nat, work: nat)
      requires Valid() && At(State(), w, Running(work))
      modifies this
      ensures Valid() && State() == Step(config, old(State()), Finish(w))
      ensures |jobs| == |old(jobs)| && work < |jobs|
      ensures jobs[work].completed == Some(clock) && jobs[work].thread.None? && clock == old(clock)
      ensures forall j :: 0 <= j < |jobs| && j != work ==> jobs[j] == old(jobs)[j]
    {
      assert PcOk(State(), w);
      StepKeeps(config, State(), Finish(w));
      jobs := jobs[work := jobs[work].(completed := Some(clock))];
      jobs := jobs[work := jobs[work].(thread := None)];
      assert jobs == old(jobs)[work := old(jobs)[work].(completed := Some(clock), thread := None)];
      workers := workers[w := Idle];
    }

    method LaunchWorker()
      modifies this`workers, this`listed, this`launched
      ensures workers == old(workers)[old(launched) := Idle]
      ensures listed == old(listed) + {old(launched)} && launched == old(launched) + 1
    {
      workers := workers[launched := Idle];
      listed := listed + {launched};
      launched := launched + 1;
    }

    /** The locked block of `check_workers`: `work` is put back, dropped, or its thread is
        killed and replaced. `next` is the pool after the step. */
    method ExamineWork(work: nat, readd: seq<nat>, ghost next: Pool) returns (readd': seq<nat>)
      requires work < |jobs| && IsExamined(config, State(), readd, work, next)
      modifies this
      ensures State() == next && manager == Scanning(readd', None)
      ensures readd' == if Expired(jobs[work], clock, config.timeout) || Completed(jobs[work]) then readd
                        else readd + [work]
    {
      readd' := readd;
      if Expired(jobs[work], clock, config.timeout) {
        ReplaceThread(jobs[work].thread.value);
      } else if !Completed(jobs[work]) {
        readd' := readd + [work];
      }
      manager, history := next.manager, next.history;
    }

    method ReplaceThread(thread: nat)
      modifies this`workers, this`listed, this`launched
      ensures workers == (old(workers) - {thread})[old(launched) := Idle]
      ensures listed == old(listed) - {thread} + {old(launched)} && launched == old(launched) + 1
    {
      workers := workers - {thread};
      listed := listed - {thread};
      LaunchWorker();
    }

    /** One turn of the scanning loop of `check_workers`. */
    method ScanOne(readd: seq<nat>) returns (readd': seq<nat>, ghost run: seq<Event>)
      requires Valid() && manager == Scanning(readd, None) && runningQueue != []
      modifies this
      ensures Valid() && State() == Steps(config, old(State()), run)
      ensures manager == Scanning(readd', None) && jobs == old(jobs) && clock == old(clock)
      ensures runningQueue == old(runningQueue)[1..] && old(runningQueue)[0] < |jobs|
      ensures var work := old(runningQueue)[0];
        readd' == if Expired(jobs[work], clock, config.timeout) || Completed(jobs[work]) then readd else readd + [work]
    {
      HeadIsKnown(State());
      StepsSnoc(config, State(), [], PopRunning);
      StepsSnoc(config, State(), [] + [PopRunning], Examine);
      run := [] + [PopRunning] + [Examine];
      var work := TakeRunning();
      StepKeeps(config, State(), Examine);
      StepIsExamined(config, State(), readd, work);
      readd' := ExamineWork(work, readd, Step(config, State(), Examine));
    }

    /** The scanning loop of `check_workers`. */
    method ScanRunning() returns (readd: seq<nat>, ghost run: seq<Event>)
      requires Valid() && manager == Scanning([], None)
      modifies this
      ensures Valid() && State() == Steps(config, old(State()), run)
      ensures manager == Scanning(readd, None) && runningQueue == [] && jobs == old(jobs) && clock == old(clock)
      ensures readd == Kept(old(runningQueue), jobs, clock, config.timeout)
    {
      readd, run := [], [];
      ghost var done := 0;
      while |runningQueue| > 0
        invariant Valid() && State() == Steps(config, old(State()), run)
        invariant manager == Scanning(readd, None) && jobs == old(jobs) && clock == old(clock)
        invariant done <= |old(runningQueue)| && runningQueue == old(runningQueue)[done..]
        invariant readd == Kept(old(runningQueue)[..done], jobs, clock, config.timeout)
        decreases |runningQueue|
      {
        ghost var turn;
        readd, turn := ScanOne(readd);
        StepsAppend(config, old(State()), run, turn);
        run := run + turn;
        KeptTake(old(runningQueue), done, jobs, clock, config.timeout);
        done := done + 1;
      }
      assert old(runningQueue)[..done] == old(runningQueue);
    }

    /** `@running_queue.pop` */
    method TakeRunning() returns (work: nat)
      requires Valid() && manager.Scanning? && manager.hand.None? && runningQueue != []
      modifies this
      ensures Valid() && State() == Step(config, old(State()), PopRunning)
      ensures work == old(runningQueue)[0]
    {
      StepKeeps(config, State(), PopRunning);
      manager := Scanning(manager.readd, Some(runningQueue[0]));
      work := runningQueue[0];
      runningQueue := runningQueue[1..];
    }

    /** One turn of the loop that puts jobs back: the first of `readd` is next. */
    method PutBack(ghost readd: seq<nat>, work: nat)
      requires Valid() && manager == Readding(readd) && readd != [] && readd[0] == work
      modifies `runningQueue, `manager
      ensures Valid() && State() == Step(config, old(State()), Readd)
      ensures manager == Readding(readd[1..]) && runningQueue == old(runningQueue) + [work]
    {
      StepKeeps(config, State(), Readd);
      runningQueue := runningQueue + [work];
      manager := Readding(readd[1..]);
    }

    /** The loop that puts the jobs of `readd` back. */
    method ReaddAll(readd: seq<nat>) returns (ghost run: seq<Event>)
      requires Valid() && manager == Readding(readd)
      modifies `runningQueue, `manager
      ensures Valid() && State() == Steps(config, old(State()), run)
      ensures manager == Readding([]) && runningQueue == old(runningQueue) + readd
    {
      run := [];
      for i := 0 to |readd|
        invariant Valid() && State() == Steps(config, old(State()), run)
        invariant manager == Readding(readd[i..]) && runningQueue == old(runningQueue) + readd[..i]
      {
        StepsSnoc(config, old(State()), run, Readd);
        PutBack(readd[i..], readd[i]);
        run := run + [Readd];
      }
    }

    ghost method Woken() returns (run: seq<Event>)
      requires Valid() && manager.Sleeping? && !terminate && clock >= manager.since + config.timeout
      modifies `manager, `history
      ensures Valid() && State() == Steps(config, old(State()), run) && manager == Scanning([], None)
    {
      run := [Wake];
      StepKeeps(config, State(), Wake);
      StepsSnoc(config, State(), [], Wake);
      assert [] + [Wake] == run;
      history := Step(config, State(), Wake).history;
      manager := Scanning([], None);
    }

    ghost method ScanEnded(readd: seq<nat>) returns (run: seq<Event>)
      requires Valid() && manager == Scanning(readd, None) && runningQueue == []
      modifies `manager
      ensures Valid() && State() == Steps(config, old(State()), run) && manager == Readding(readd)
    {
      run := [EndScan];
      StepKeeps(config, State(), EndScan);
      StepsSnoc(config, State(), [], EndScan);
      assert [] + [EndScan] == run;
      manager := Readding(readd);
    }

    ghost method PassEnded() returns (run: seq<Event>)
      requires Valid() && manager == Readding([])
      modifies `manager
      ensures Valid() && State() == Steps(config, old(State()), run) && manager == Sleeping(clock)
    {
      run := [EndPass];
      StepKeeps(config, State(), EndPass);
      StepsSnoc(config, State(), [], EndPass);
      assert [] + [EndPass] == run;
      manager := Sleeping(clock);
    }

    /** The loop of `start`. */
    method LaunchAll()
      requires workers == map[] && listed == {}
      modifies `workers, `listed, `launched
      ensures launched == old(launched) + config.numThreads && listed == Range(old(launched), config.numThreads)
      ensures workers == map w | w in Range(old(launched), config.numThreads) :: Idle
    {
      for i := 0 to config.numThreads
        invariant launched == old(launched) + i && listed == Range(old(launched), i)
        invariant workers == map w | w in Range(old(launched), i) :: Idle
      {
        LaunchWorker();
      }
    }

    /** `start`, which does nothing on a running pool. After `stop` it may be called once the
        manager thread has ended. */
    method Start()
      requires Valid() && (terminate ==> manager.Off?)
      modifies this
      ensures Valid() && State() == Step(config, old(State()), ThreadPool.Start)
      ensures !terminate && |listed| == if old(terminate) then config.numThreads else |old(listed)|
      ensures manager == if old(terminate) then Sleeping(clock) else old(manager)
    {
      StepKeeps(config, State(), ThreadPool.Start);
      ghost var next := Step(config, State(), ThreadPool.Start);
      if terminate {
        terminate := false;
        LaunchAll();
        manager, history := Sleeping(clock), next.history;
        assert workers == next.workers;
        assert State() == next;
        InRange(old(launched), config.numThreads);
      }
    }

    /** `stop`, up to its wait for the manager. */
    method Stop()
      requires Valid()
      modifies `terminate
      ensures Valid() && State() == Step(config, old(State()), ThreadPool.Stop) && terminate
    {
      StepKeeps(config, State(), ThreadPool.Stop);
      terminate := true;
    }

    /** `check_workers` once the pool is told to terminate. */
    method KillAll()
      requires Valid() && manager.Sleeping? && terminate
      modifies this
      ensures Valid() && State() == Step(config, old(State()), Shutdown)
      ensures workers == map[] && listed == {}
    {
      StepKeeps(config, State(), Shutdown);
      ghost var next := Step(config, State(), Shutdown);
      var threads := listed;
      while threads != {}
        invariant threads <= listed && listed == old(listed) && workers.Keys == threads
        invariant State() == old(State()).(workers := workers)
        decreases threads
      {
        var t :| t in threads;
        workers := workers - {t};
        threads := threads - {t};
      }
      listed := {};
      assert workers == map[];
      manager, history := next.manager, next.history;
    }

    /** One uninterrupted `check_workers` between two sleeps: the running queue keeps, in
        order, the jobs that are neither overdue nor completed. */
    method CheckWorkers() returns (ghost run: seq<Event>)
      requires Valid() && manager.Sleeping? && !terminate && clock >= manager.since + config.timeout
      modifies this
      ensures Valid() && State() == Steps(config, old(State()), run)
      ensures runningQueue == Kept(old(runningQueue), jobs, clock, config.timeout)
      ensures jobs == old(jobs) && clock == old(clock) && manager == Sleeping(clock)
    {
      ghost var s := State();
      ghost var woken := Woken();
      var readd;
      ghost var scanned;
      readd, scanned := ScanRunning();
      ghost var ended := ScanEnded(readd);
      ghost var added := ReaddAll(readd);
      ghost var slept := PassEnded();
      run := woken + scanned + ended + added + slept;
      StepsAppend(config, s, woken, scanned);
      StepsAppend(config, s, woken + scanned, ended);
      StepsAppend(config, s, woken + scanned + ended, added);
      StepsAppend(config, s, woken + scanned + ended + added, slept);
    }
  }
}

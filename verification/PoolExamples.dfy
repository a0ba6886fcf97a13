/** Two runs of the worker pool that show why the exact claims need their conditions. */
module PoolExamples {
  import opened Basics
  import opened ThreadPool
  import opened PoolProofs
  import opened PoolWorkers

  const ONE_WORKER := Config(1, 10)

  /** One worker has begun the first job. */
  const FIRST_BEGUN := Pool(
    [], [0], [Job(Some(0), None, Some(0))], map[0 := Running(0)], {0}, 1, Sleeping(0), false, 0,
    History([InPool(0)], {}, {}, 0, [0], 0, 0))

  /** The first job has raised, and the same worker has just begun the second. */
  const SECOND_BEGUN := Pool(
    [], [0, 1], [Job(Some(0), None, Some(0)), Job(Some(11), None, Some(0))], map[0 := Running(1)], {0}, 1,
    Sleeping(0), false, 11, History([InPool(0), InPool(0)], {0}, {}, 0, [0, 11], 0, 0))

  /** The pool was stopped while the first job was running. */
  const STOPPED := Pool(
    [], [0], [Job(Some(0), None, Some(0))], map[], {}, 1, Off, true, 0,
    History([InPool(0)], {}, {0}, 0, [0], 0, 0))

  /** It has been started again. */
  const RESTARTED := Pool(
    [], [0], [Job(Some(0), None, Some(0))], map[1 := Idle], {1}, 2, Sleeping(0), false, 0,
    History([InPool(0)], {}, {0}, 0, [0], 0, 0))

  lemma Extend(run: seq<Event>, s: Pool, e: Event) returns (run': seq<Event>, s': Pool)
    requires Exec(ONE_WORKER, run) == s
    ensures run' == run + [e] && s' == Step(ONE_WORKER, s, e) && Exec(ONE_WORKER, run') == s'
  {
    run', s' := run + [e], Step(ONE_WORKER, s, e);
    assert run'[..|run'| - 1] == run;
  }

  lemma ReachFirst() returns (run: seq<Event>)
    ensures Exec(ONE_WORKER, run) == FIRST_BEGUN && NoRaises(run)
  {
    var s := INIT;
    run, s := Extend([], s, Start);
    assert s.workers == map[0 := Idle] && s.listed == {0} by { assert Range(0, 1) == Range(0, 0) + {0} == {0}; }
    run, s := Extend(run, s, Submit);
    run, s := Extend(run, s, Pop(0));
    run, s := Extend(run, s, Enqueue(0));
    run, s := Extend(run, s, Begin(0));
    assert s.history.seen == [0];
  }

  lemma ReachSecond() returns (run: seq<Event>)
    ensures Exec(ONE_WORKER, run) == SECOND_BEGUN
  {
    run := ReachFirst();
    var s := FIRST_BEGUN;
    run, s := Extend(run, s, Raise(0));
    run, s := Extend(run, s, Tick(11));
    run, s := Extend(run, s, Submit);
    run, s := Extend(run, s, Pop(0));
    run, s := Extend(run, s, Enqueue(0));
    run, s := Extend(run, s, Begin(0));
  }

  /** After a handler raised, the timeout of its job kills a thread that is executing a
      job which is not overdue. */
  lemma RaisingJobKillsAnother()
    ensures exists run: seq<Event> :: var s := Exec(ONE_WORKER, run);
              Overdue(ONE_WORKER, s, 0) && At(s, 0, Running(1)) && 0 !in Step(ONE_WORKER, s, Examine).workers
  {
    var run := ReachSecond();
    var s := SECOND_BEGUN;
    run, s := Extend(run, s, Wake);
    run, s := Extend(run, s, PopRunning);
    assert Overdue(ONE_WORKER, Exec(ONE_WORKER, run), 0);
  }

  lemma ReachStopped() returns (run: seq<Event>)
    ensures Exec(ONE_WORKER, run) == STOPPED && NoRaises(run)
  {
    run := ReachFirst();
    var s := FIRST_BEGUN;
    run, s := Extend(run, s, Stop);
    run, s := Extend(run, s, Shutdown);
    assert s.history.places == [InPool(0)];
    assert s.history.orphaned == {0} by { assert 0 in FIRST_BEGUN.workers; }
  }

  lemma ReachRestarted() returns (run: seq<Event>)
    ensures Exec(ONE_WORKER, run) == RESTARTED && NoRaises(run)
  {
    run := ReachStopped();
    var s := STOPPED;
    run, s := Extend(run, s, Start);
    assert Range(1, 1) == Range(1, 0) + {1} == {1};
    assert s.history.seen == [0];
  }

  lemma ReachHeld() returns (run: seq<Event>)
    ensures NoRaises(run)
    ensures Exec(ONE_WORKER, run) == RESTARTED.(
              clock := 11, runningQueue := [], manager := Scanning([], Some(0)),
              history := RESTARTED.history.(passBegan := 11))
  {
    run := ReachRestarted();
    var s := RESTARTED;
    run, s := Extend(run, s, Tick(11));
    run, s := Extend(run, s, Wake);
    run, s := Extend(run, s, PopRunning);
  }

  /** A job interrupted by `stop` makes the restarted pool launch a worker too many. */
  lemma RestartAddsWorker()
    ensures exists run :: NoRaises(run) && !Exec(ONE_WORKER, run).manager.Off? && |Exec(ONE_WORKER, run).listed| == 2
  {
    var run := ReachHeld();
    var s;
    run, s := Extend(run, Exec(ONE_WORKER, run), Examine);
    assert s.history.surplus == 1;
    ListedWorkers(ONE_WORKER, run);
    assert NoRaises(run);
  }
}

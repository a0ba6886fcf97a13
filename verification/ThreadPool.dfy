/** The worker pool of lib/rjr/util/thread_pool.rb as a machine over its atomic
    steps: what one thread does between two points where another may run.

    Jobs are numbered in the order they are submitted, threads in the order they
    are launched. */
module ThreadPool {
  import opened Basics

  datatype Job = Job(started: Option<int>, completed: Option<int>, thread: Option<nat>)

  const NEW_JOB := Job(None, None, None)

  predicate Completed(j: Job) { j.started.Some? && j.completed.Some? }

  predicate Expired(j: Job, now: int, timeout: int) {
    j.started.Some? && j.completed.None? && now - j.started.value > timeout
  }

  /** Where a worker thread is: waiting in `pop`, about to push onto the running
      queue, about to enter `exec`, or inside the handler. */
  datatype Pc = Idle | Claimed(job: nat) | Queued(job: nat) | Running(job: nat)

  /** Where the manager thread is; `hand` is the job it has popped and not examined. */
  datatype Manager =
    | Off
    | Sleeping(since: int)
    | Scanning(readd: seq<nat>, hand: Option<nat>)
    | Readding(readd: seq<nat>)

  /** Where a job is, and the worker that took it from the work queue. */
  datatype Place = Waiting | ClaimedBy(w: nat) | InPool(w: nat) | Gone(w: nat) | Lost(w: nat)

  datatype Config = Config(numThreads: nat, timeout: int)

  datatype Pool = Pool(
    workQueue: seq<nat>,
    runningQueue: seq<nat>,
    jobs: seq<Job>,
    workers: map<nat, Pc>,   // the threads that are alive
    listed: set<nat>,        // @worker_threads
    launched: nat,
    manager: Manager,
    terminate: bool,
    clock: int,
    history: History)

  /** What has happened so far; no step depends on it. */
  datatype History = History(
    places: seq<Place>,
    raised: set<nat>,        // jobs whose handler raised
    orphaned: set<nat>,      // jobs whose thread was killed for another reason than the job's own timeout
    surplus: nat,            // workers launched since `start` in place of a thread that was no longer listed
    seen: seq<int>,          // when each job was put on the running queue or last examined (or the pool started)
    passBegan: int,
    lastPassBegan: int)

  const INIT := Pool([], [], [], map[], {}, 0, Off, true, 0, History([], {}, {}, 0, [], 0, 0))

  datatype Event =
    | Submit | Pop(w: nat) | Enqueue(w: nat) | Begin(w: nat) | Finish(w: nat) | Raise(w: nat)
    | Tick(dt: nat)
    | Wake | PopRunning | Examine | EndScan | Readd | EndPass
    | Start | Stop | Shutdown

  // ----- the steps

  /** `<<` */
  function SubmitStep(s: Pool): Pool {
    s.(workQueue := s.workQueue + [|s.jobs|], jobs := s.jobs + [NEW_JOB],
       history := s.history.(places := s.history.places + [Waiting], seen := s.history.seen + [s.clock]))
  }

  function PopStep(s: Pool, w: nat): Pool
    requires s.workQueue != [] && s.workQueue[0] < |s.history.places|
  {
    var j := s.workQueue[0];
    s.(workQueue := s.workQueue[1..], workers := s.workers[w := Claimed(j)],
       history := s.history.(places := s.history.places[j := ClaimedBy(w)]))
  }

  function EnqueueStep(s: Pool, w: nat, j: nat): Pool
    requires j < |s.history.places| && j < |s.history.seen|
  {
    s.(runningQueue := s.runningQueue + [j], workers := s.workers[w := Queued(j)],
       history := s.history.(places := s.history.places[j := InPool(w)], seen := s.history.seen[j := s.clock]))
  }

  /** The first locked block of `exec`. */
  function BeginStep(s: Pool, w: nat, j: nat): Pool
    requires j < |s.jobs|
  {
    s.(jobs := s.jobs[j := s.jobs[j].(thread := Some(w), started := Some(s.clock))],
       workers := s.workers[w := Running(j)])
  }

  /** The second locked block of `exec`. */
  function FinishStep(s: Pool, w: nat, j: nat): Pool
    requires j < |s.jobs|
  {
    s.(jobs := s.jobs[j := s.jobs[j].(completed := Some(s.clock), thread := None)],
       workers := s.workers[w := Idle])
  }

  /** The handler raises; the worker rescues and pops again. */
  function RaiseStep(s: Pool, w: nat, j: nat): Pool {
    s.(workers := s.workers[w := Idle], history := s.history.(raised := s.history.raised + {j}))
  }

  function WakeStep(s: Pool): Pool {
    s.(manager := Scanning([], None),
       history := s.history.(lastPassBegan := s.history.passBegan, passBegan := s.clock))
  }

  function PopRunningStep(s: Pool): Pool
    requires s.manager.Scanning? && s.runningQueue != []
  {
    s.(runningQueue := s.runningQueue[1..], manager := Scanning(s.manager.readd, Some(s.runningQueue[0])))
  }

  function ReaddStep(s: Pool): Pool
    requires s.manager.Readding? && s.manager.readd != []
  {
    s.(runningQueue := s.runningQueue + [s.manager.readd[0]], manager := Readding(s.manager.readd[1..]))
  }

  /** The locked block of `check_workers`, with `j` just popped. */
  function ExamineStep(c: Config, s: Pool, readd: seq<nat>, j: nat): Pool
    requires j < |s.jobs| && j < |s.history.seen|
  {
    if Expired(s.jobs[j], s.clock, c.timeout) then
      match s.jobs[j].thread
      case Some(t) => ReplaceWorker(Retire(Examined(s, readd, j), j), t, j)
      case None => Examined(s, readd, j)
    else if !Completed(s.jobs[j]) then Examined(s, readd + [j], j)
    else Retire(Examined(s, readd, j), j)
  }

  function Examined(s: Pool, readd: seq<nat>, j: nat): Pool
    requires j < |s.history.seen|
  {
    s.(manager := Scanning(readd, None), history := s.history.(seen := s.history.seen[j := s.clock]))
  }

  function Retire(s: Pool, j: nat): Pool {
    if j < |s.history.places| && s.history.places[j].InPool? then
      s.(history := s.history.(places := s.history.places[j := Gone(s.history.places[j].w)]))
    else s
  }

  /** The thread `t`, recorded for the job `j`, is killed, taken off the list and replaced. */
  function ReplaceWorker(s: Pool, t: nat, j: nat): Pool {
    var pc := if t in s.workers then s.workers[t] else Idle;
    var h := s.history;
    s.(workers := (s.workers - {t})[s.launched := Idle],
       listed := s.listed - {t} + {s.launched},
       launched := s.launched + 1,
       history := h.(
         places := if pc.Claimed? && pc.job < |h.places| then h.places[pc.job := Lost(t)] else h.places,
         orphaned := if pc.Running? && pc.job != j then h.orphaned + {pc.job} else h.orphaned,
         surplus := if t in s.listed then h.surplus else h.surplus + 1))
  }

  function Range(from: nat, n: nat): set<nat> {
    if n == 0 then {} else Range(from, n - 1) + {from + n - 1}
  }

  function StartStep(c: Config, s: Pool): Pool {
    var added := Range(s.launched, c.numThreads);
    s.(terminate := false, workers := map w | w in added :: Idle, listed := added,
       launched := s.launched + c.numThreads, manager := Sleeping(s.clock),
       history := s.history.(surplus := 0, passBegan := s.clock, lastPassBegan := s.clock,
                             seen := seq(|s.history.seen|, _ => s.clock)))
  }

  /** The branch of `check_workers` taken once the pool is told to terminate. */
  function ShutdownStep(s: Pool): Pool {
    var h := s.history;
    s.(workers := map[], listed := {}, manager := Off,
       history := h.(
         places := seq(|h.places|, i requires 0 <= i < |h.places| =>
                         if h.places[i].ClaimedBy? then Lost(h.places[i].w) else h.places[i]),
         orphaned := h.orphaned + set w | w in s.workers && s.workers[w].Running? :: s.workers[w].job))
  }

  predicate At(s: Pool, w: nat, pc: Pc) { w in s.workers && s.workers[w] == pc }

  predicate JobKnown(s: Pool, j: nat) { j < |s.jobs| && j < |s.history.places| && j < |s.history.seen| }

  /** One atomic step; an event that cannot happen now changes nothing. */
  function Step(c: Config, s: Pool, e: Event): Pool {
    match e
    case Submit => SubmitStep(s)
    case Pop(w) =>
      if At(s, w, Idle) && s.workQueue != [] && JobKnown(s, s.workQueue[0]) then PopStep(s, w) else s
    case Enqueue(w) =>
      if w in s.workers && s.workers[w].Claimed? && JobKnown(s, s.workers[w].job)
      then EnqueueStep(s, w, s.workers[w].job) else s
    case Begin(w) =>
      if w in s.workers && s.workers[w].Queued? && JobKnown(s, s.workers[w].job)
      then BeginStep(s, w, s.workers[w].job) else s
    case Finish(w) =>
      if w in s.workers && s.workers[w].Running? && JobKnown(s, s.workers[w].job)
      then FinishStep(s, w, s.workers[w].job) else s
    case Raise(w) =>
      if w in s.workers && s.workers[w].Running? then RaiseStep(s, w, s.workers[w].job) else s
    case Tick(dt) => s.(clock := s.clock + dt)
    case Wake =>
      if s.manager.Sleeping? && s.clock >= s.manager.since + c.timeout && !s.terminate then WakeStep(s) else s
    case PopRunning =>
      if s.manager.Scanning? && s.manager.hand.None? && s.runningQueue != [] then PopRunningStep(s) else s
    case Examine =>
      if s.manager.Scanning? && s.manager.hand.Some? && JobKnown(s, s.manager.hand.value)
      then ExamineStep(c, s, s.manager.readd, s.manager.hand.value) else s
    case EndScan =>
      if s.manager.Scanning? && s.manager.hand.None? && s.runningQueue == []
      then s.(manager := Readding(s.manager.readd)) else s
    case Readd =>
      if s.manager.Readding? && s.manager.readd != [] then ReaddStep(s) else s
    case EndPass =>
      if s.manager.Readding? && s.manager.readd == [] then s.(manager := Sleeping(s.clock)) else s
    case Start => if s.terminate && s.manager.Off? then StartStep(c, s) else s
    case Stop => s.(terminate := true)
    case Shutdown => if s.manager.Sleeping? && s.terminate then ShutdownStep(s) else s
  }

  /** `s` after a sequence of events. */
  function Steps(c: Config, s: Pool, run: seq<Event>): Pool {
    if run == [] then s else Step(c, Steps(c, s, run[..|run| - 1]), run[|run| - 1])
  }

  /** The pool after a run: any sequence of events from the new pool. */
  function Exec(c: Config, run: seq<Event>): Pool { Steps(c, INIT, run) }
}

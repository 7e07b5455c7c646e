/**
 The multi-rate scheduler as a state machine (core/code/GenericTarget/GT_BaseRateScheduler.cpp,
 GT_PeriodicTask.cpp and the waiting side of GT_PeriodicTimer.cpp).

 The threads are the main thread (Start and Stop), the master thread (timer ticks to notifications) and one
 worker per task. Every shared access of the program is one step, and a run is any interleaving of steps.
 A state covers the whole life of one scheduler object, including failed starts and restarts.
 */
module Scheduler {
  import opened PeriodicTasks

  datatype WorkerPc = NotSpawned | AtSemWait | CheckTerminate | InStep | ClearFlag | WorkerExited
  datatype NotifyPc = NotifyIdle | AtCas | AtPost

  /**
   One task with its worker, and the master's position inside this task's `Notify`. The last four fields are
   history: notifications received, finished steps, and what `Stop` found.
   */
  datatype Task = Task(
    timing: Timing,
    counters: Counters,
    pendingOrRunning: bool,
    semaphore: nat,
    overloads: nat,
    started: bool,
    terminate: bool,
    worker: WorkerPc,
    notify: NotifyPc,
    notified: nat,
    completed: nat,
    stopPosted: bool,
    completedAtStop: nat)
  {
    predicate WorkerAlive() { worker != NotSpawned && worker != WorkerExited }
    predicate Active() { worker == CheckTerminate || worker == InStep || worker == ClearFlag }
    predicate Stopping() { terminate || stopPosted }

    // A job is queued, running, or dropped by the stop of its worker.
    predicate JobInFlight() { pendingOrRunning && worker != ClearFlag }
  }

  function B(b: bool): nat { if b then 1 else 0 }

  function FreshTask(timing: Timing, semInitOk: bool): Task {
    Task(timing, CountersAfter(timing, 0), false, 0, 0, semInitOk, false,
         if semInitOk then AtSemWait else NotSpawned, NotifyIdle, 0, 0, false, 0)
  }

  // ---- One task ----

  predicate WorkerEnabled(t: Task) {
    t.WorkerAlive() && (t.worker == AtSemWait ==> t.semaphore > 0)
  }

  /** One step of the worker; a wait that fails ends the thread. */
  function WorkerStep(t: Task): Task
    requires WorkerEnabled(t)
  {
    match t.worker
    case AtSemWait => t.(semaphore := t.semaphore - 1, worker := CheckTerminate)
    case CheckTerminate => t.(worker := if t.terminate then WorkerExited else InStep)
    case InStep => t.(completed := t.completed + 1, worker := ClearFlag)
    case _ => t.(pendingOrRunning := false, worker := AtSemWait)
  }

  function WaitFails(t: Task): Task
    requires t.worker == AtSemWait
  {
    t.(worker := WorkerExited)
  }

  /** The three atomic parts of `Notify`: counters, compare-and-swap, post. */
  function NotifyCount(t: Task): Task {
    var c := CountTick(t.counters, t.timing);
    t.(counters := c.counters, notified := t.notified + 1, notify := if c.due then AtCas else NotifyIdle)
  }

  function NotifyCas(t: Task): Task {
    if t.pendingOrRunning then t.(overloads := t.overloads + 1, notify := NotifyIdle)
    else t.(pendingOrRunning := true, notify := AtPost)
  }

  function NotifyPost(t: Task): Task {
    t.(semaphore := t.semaphore + 1, notify := NotifyIdle)
  }

  datatype StopPc = StopSetTerminate | StopPost | StopJoin | StopClear

  predicate StopEnabled(t: Task, pc: StopPc) {
    pc == StopJoin ==> !t.WorkerAlive()
  }

  /**
   The steps of `PeriodicTask::Stop`; the post happens only for a started task. A semaphore that cannot be destroyed
   (`ok` is false) leaves the task marked as started, so a second stop posts again.
   */
  function StopStep(t: Task, pc: StopPc, ok: bool): Task {
    match pc
    case StopSetTerminate =>
      if t.Stopping() then t.(terminate := true)
      else t.(terminate := true, completedAtStop := t.completed)
    case StopPost => if t.started then t.(semaphore := t.semaphore + 1, stopPosted := true) else t
    case StopJoin => t.(started := t.started && !ok)
    case StopClear => t.(terminate := false)
  }

  /** Jobs that `Notify` accepted: releases that did not become overloads. */
  function Accepted(t: Task): int {
    ReleaseCount(t.timing, t.notified) - B(t.notify == AtCas) - t.overloads
  }

  predicate TaskOk(t: Task) {
    && (t.WorkerAlive() ==> t.started)
    && (t.started ==> t.worker != NotSpawned)
    && (t.worker == WorkerExited && !t.started ==> t.stopPosted)
    && (t.worker == NotSpawned ==> t.notified == 0)
    && t.counters == CountersAfter(t.timing, t.notified)
    && Accepted(t) == t.completed + B(t.JobInFlight())
    && (t.WorkerAlive() ==>
          t.semaphore + B(t.Active()) + B(t.notify == AtPost) == B(t.pendingOrRunning) + B(t.stopPosted))
    && (t.worker == InStep || t.worker == ClearFlag ==> t.pendingOrRunning)
    && (t.stopPosted && t.WorkerAlive() ==> t.terminate)
    && (t.notify != NotifyIdle ==> !t.Stopping() && t.worker != NotSpawned)
    && (t.Stopping() ==>
          t.completedAtStop <= t.completed && t.completed + B(t.worker == InStep) <= t.completedAtStop + 1)
  }

  lemma NotifyKeepsTask(t: Task)
    requires TaskOk(t) && !t.Stopping() && t.worker != NotSpawned
    ensures t.notify == NotifyIdle ==> TaskOk(NotifyCount(t))
    ensures t.notify == AtCas ==> TaskOk(NotifyCas(t))
    ensures t.notify == AtPost ==> TaskOk(NotifyPost(t))
  {
    if t.notify == NotifyIdle {
      assert CountersAfter(t.timing, t.notified + 1) == NotifyCount(t).counters;
      assert Due(t.timing, t.notified) <==> NotifyCount(t).notify == AtCas;
      assert ReleaseCount(t.timing, t.notified + 1)
          == ReleaseCount(t.timing, t.notified) + B(Due(t.timing, t.notified));
    }
  }

  lemma StopStepKeepsTask(t: Task, pc: StopPc, ok: bool)
    requires TaskOk(t) && t.notify == NotifyIdle && StopEnabled(t, pc)
    requires pc != StopSetTerminate ==> t.terminate
    requires pc == StopPost && t.WorkerAlive() ==> !t.stopPosted
    requires pc == StopJoin || pc == StopClear ==> !t.WorkerAlive() && (t.worker == WorkerExited ==> t.stopPosted)
    ensures TaskOk(StopStep(t, pc, ok))
  {
  }

  /** Without interference from the worker the three parts together are the job rule of `PeriodicTask.Notify`. */
  lemma NotifyPartsCompose(t: Task)
    requires TaskOk(t) && t.notify == NotifyIdle
    ensures var a := NotifyCount(t);
            var b := if a.notify == AtCas then NotifyCas(a) else a;
            var c := if b.notify == AtPost then NotifyPost(b) else b;
            && c.notify == NotifyIdle
            && c.counters == CountersAfter(t.timing, t.notified + 1)
            && Job(c.pendingOrRunning, c.semaphore, c.overloads)
               == JobAfter(t.timing, Job(t.pendingOrRunning, t.semaphore, t.overloads), t.notified, 1)
  {
    var j := Job(t.pendingOrRunning, t.semaphore, t.overloads);
    assert JobAfter(t.timing, j, t.notified, 0) == j;
  }

  /**
   The four steps of a stop, with the end of the worker in front of the join, are together `PeriodicTask.Stop`: a task
   that is not started is left alone, and a started one gets one post.
   */
  lemma StopPartsCompose(t: Task, ok: bool)
    requires !t.terminate
    ensures var a := StopStep(StopStep(t, StopSetTerminate, ok), StopPost, ok);
            var b := if a.WorkerAlive() then a.(worker := WorkerExited) else a;
            var c := StopStep(StopStep(b, StopJoin, ok), StopClear, ok);
            && a.terminate && (StopEnabled(a, StopJoin) <==> !a.WorkerAlive()) && StopEnabled(b, StopJoin)
            && !c.terminate && !c.WorkerAlive() && c.started == (t.started && !ok)
            && c.semaphore == t.semaphore + (if t.started then 1 else 0)
            && c.pendingOrRunning == t.pendingOrRunning && c.overloads == t.overloads
  {
  }

  // ---- The scheduler ----

  datatype MainPc =
    | Idle
    | StartTask(k: nat, ok: bool)
    | SpawnMaster
    | RaisePriority
    | Started
    | SetTerminate
    | CancelRunning
    | SignalCancel
    | JoinMaster
    | StopTimer
    | ClearTerminate
    | StopTask(k: nat, pc: StopPc, rollback: bool)
    | DeleteTasks

  datatype Fd = CancelFd | TimerFd

  /** The outcome of a blocking call of the master thread. */
  datatype Wakeup = Ready(fds: seq<Fd>) | Interrupted | Failed

  datatype MasterPc =
    | NoThread
    | StartClock
    | LoopCheck
    | WaitEntry
    | WaitLoop
    | InEpoll
    | AfterEpoll(result: Wakeup)
    | Events(fds: seq<Fd>)
    | AfterRead(outcome: Wakeup, rest: seq<Fd>)
    | TickReturned
    | NotifyTask(i: nat, counted: bool)
    | Exited

  /** The timer: its flags, the readable cancel event, unread expirations and the overload counters. */
  datatype Timer = Timer(started: bool, running: bool, signalled: bool, pending: nat, cpuOverloads: nat, lost: nat)

  /** History of one clock run: expirations read, ticks read, notification rounds begun, ticks discarded. */
  datatype Tally = Tally(read: nat, ticks: nat, rounds: nat, discarded: nat)

  datatype State = State(
    config: seq<Timing>,
    tasks: seq<Task>,
    main: MainPc,
    master: MasterPc,
    terminate: bool,
    timer: Timer,
    tally: Tally,
    clocked: bool,
    lateClock: bool,
    signalFailed: bool)

  datatype Action =
    | MainMoves(ok: bool, semInitOk: bool)
    | MasterMoves(result: Wakeup)
    | WorkerMoves(i: nat)
    | WorkerWaitFails(i: nat)
    | TimerExpires

  // The generated model interface has at least one timing; the values themselves are arbitrary.
  predicate ConfigOk(config: seq<Timing>) { |config| > 0 }

  function Init(config: seq<Timing>): State {
    var timer, tally := Timer(false, false, false, 0, 0, 0), Tally(0, 0, 0, 0);
    State(config, [], Idle, NoThread, false, timer, tally, false, false, false)
  }

  predicate MasterAlive(s: State) { s.master != NoThread && s.master != Exited }

  /** The master exists only while the main thread is at one of these places. */
  predicate MainAllowsMaster(s: State) { BeforeCancel(s) || AfterCancel(s) }

  predicate BeforeCancel(s: State) {
    s.main == RaisePriority || s.main == Started || s.main == SetTerminate || s.main == CancelRunning
  }

  predicate AfterCancel(s: State) { s.main == SignalCancel || s.main == JoinMaster }

  // ---- Main thread ----

  predicate MainEnabled(s: State) {
    && (s.main == JoinMaster ==> s.master == Exited)
    && (s.main.StopTask? && s.main.k < |s.tasks| ==> StopEnabled(s.tasks[s.main.k], s.main.pc))
  }

  function AfterStop(s: State, k: nat, rollback: bool): MainPc {
    if rollback then NextStart(s, k + 1, false)
    else if k + 1 < |s.tasks| then StopTask(k + 1, StopSetTerminate, false)
    else DeleteTasks
  }

  /** The next iteration of the start loop, or what follows the loop. */
  function NextStart(s: State, k: nat, ok: bool): MainPc {
    if k < |s.config| then StartTask(k, ok)
    else if ok then SpawnMaster
    else if |s.tasks| > 0 then StopTask(0, StopSetTerminate, false)
    else DeleteTasks
  }

  /** One iteration of `StartWorkerThreads`; a task that cannot get its priority is stopped again at once. */
  function StartTaskStep(s: State, k: nat, good: bool, ok: bool, semInitOk: bool): State
    requires k < |s.config|
  {
    var s' := s.(tasks := s.tasks + [FreshTask(s.config[k], semInitOk)]);
    if !semInitOk then s'.(main := NextStart(s', k + 1, false))
    else if !ok then s'.(main := StopTask(k, StopSetTerminate, true))
    else s'.(main := NextStart(s', k + 1, good))
  }

  function NextStop(s: State, k: nat, pc: StopPc, rollback: bool): MainPc {
    match pc
    case StopSetTerminate => StopTask(k, StopPost, rollback)
    case StopPost => StopTask(k, StopJoin, rollback)
    case StopJoin => StopTask(k, StopClear, rollback)
    case StopClear => AfterStop(s, k, rollback)
  }

  function StopTaskStep(s: State, k: nat, pc: StopPc, rollback: bool, ok: bool): State
    requires k < |s.tasks|
  {
    s.(tasks := s.tasks[k := StopStep(s.tasks[k], pc, ok)], main := NextStop(s, k, pc, rollback))
  }

  predicate MainStarting(s: State) {
    s.main == Idle || s.main == SpawnMaster || s.main == RaisePriority || s.main == Started || s.main == SetTerminate
  }

  /** Start outside the loop over the tasks, and the request that begins Stop. */
  function StartControl(s: State, ok: bool): State {
    match s.main
    case Idle => s.(main := NextStart(s, 0, true))
    case SpawnMaster => s.(master := StartClock, main := RaisePriority)
    case RaisePriority => s.(main := if ok then Started else SetTerminate)
    case Started => s.(main := SetTerminate)
    case _ => s.(terminate := true, main := CancelRunning)
  }

  /** `StopMasterThread` after its flag is set: cancel the clock, join the master, stop the timer. */
  function StopControl(s: State, ok: bool): State {
    match s.main
    case CancelRunning =>
      s.(timer := s.timer.(running := false), lateClock := false, signalFailed := false,
         main := if s.timer.running then SignalCancel else JoinMaster)
    case SignalCancel =>
      var signalled := ok && s.timer.started;
      s.(timer := s.timer.(signalled := signalled || s.timer.signalled), signalFailed := !signalled, main := JoinMaster)
    case JoinMaster => s.(main := StopTimer)
    case StopTimer =>
      s.(timer := if s.timer.started then s.timer.(started := false, signalled := false, pending := 0) else s.timer,
         main := ClearTerminate)
    case ClearTerminate =>
      s.(terminate := false, main := if |s.tasks| > 0 then StopTask(0, StopSetTerminate, false) else DeleteTasks)
    case _ => s.(tasks := [], clocked := false, master := NoThread, main := Idle)
  }

  function MainStep(s: State, ok: bool, semInitOk: bool): State {
    if s.main.StartTask? then
      if s.main.k < |s.config| then StartTaskStep(s, s.main.k, s.main.ok, ok, semInitOk) else s
    else if s.main.StopTask? then
      if s.main.k < |s.tasks| then StopTaskStep(s, s.main.k, s.main.pc, s.main.rollback, ok) else s
    else if MainStarting(s) then StartControl(s, ok)
    else StopControl(s, ok)
  }

  // ---- Master thread ----

  predicate MasterEnabled(s: State, r: Wakeup) {
    match s.master
    case NoThread => false
    case Exited => false
    case InEpoll =>
      r.Ready? ==>
        && |r.fds| > 0
        && (CancelFd in r.fds ==> s.timer.signalled)
        && (TimerFd in r.fds ==> s.timer.pending > 0)
        && (forall i, j :: 0 <= i < j < |r.fds| ==> r.fds[i] != r.fds[j])
    case _ => true
  }

  /** The range-based loop over the tasks moves on. */
  function NextNotify(s: State, i: nat): MasterPc {
    if i < |s.tasks| then NotifyTask(i, false) else LoopCheck
  }

  /** A successful read of the timer takes all pending expirations; all but one of them are lost. */
  function ReadTimer(t: Timer): Timer {
    if t.pending > 1 then Timer(t.started, t.running, t.signalled, 0, t.cpuOverloads + 1, t.lost + (t.pending - 1))
    else t.(pending := 0)
  }

  function ReadTick(s: State, next: MasterPc): State {
    s.(timer := ReadTimer(s.timer),
       tally := s.tally.(read := s.tally.read + s.timer.pending, ticks := s.tally.ticks + 1),
       master := next)
  }

  function NotifyStep(s: State, i: nat, counted: bool): State
    requires i < |s.tasks|
  {
    var t := s.tasks[i];
    if !counted then
      var t' := NotifyCount(t);
      s.(tasks := s.tasks[i := t'], master := if t'.notify == AtCas then NotifyTask(i, true) else NextNotify(s, i + 1))
    else if t.notify == AtCas then
      var t' := NotifyCas(t);
      s.(tasks := s.tasks[i := t'], master := if t'.notify == AtPost then NotifyTask(i, true) else NextNotify(s, i + 1))
    else
      s.(tasks := s.tasks[i := NotifyPost(t)], master := NextNotify(s, i + 1))
  }

  /** `PeriodicTimer::WaitForTick` up to the return of `epoll_wait`, and the start of the clock. */
  function WaitStep(s: State, r: Wakeup): State {
    match s.master
    case StartClock =>
      if s.timer.started || s.timer.running || r.Failed? then s.(master := Exited)
      else
        s.(timer := Timer(true, true, false, 0, 0, 0), tally := Tally(0, 0, 0, 0), clocked := true,
           lateClock := AfterCancel(s), master := LoopCheck)
    case LoopCheck => s.(master := if s.terminate then Exited else WaitEntry)
    case WaitEntry => s.(master := if s.timer.running then WaitLoop else Exited)
    case WaitLoop => s.(master := if s.timer.running then InEpoll else Exited)
    case InEpoll => s.(master := AfterEpoll(r))
    case _ => s
  }

  function EpollReturned(s: State, result: Wakeup): State {
    if !s.timer.running || result.Failed? then s.(master := Exited)
    else if result.Interrupted? then s.(master := WaitLoop)
    else s.(master := Events(result.fds))
  }

  /** The next of the reported events: the cancel event, or a read of the timer with outcome r. */
  function NextEvent(s: State, fds: seq<Fd>, r: Wakeup): State {
    if fds == [] then s.(master := WaitLoop)
    else if fds[0] == CancelFd then s.(master := Exited)
    else if r.Ready? then ReadTick(s, AfterRead(r, fds[1..]))
    else s.(master := AfterRead(r, fds[1..]))
  }

  function ReadReturned(s: State, outcome: Wakeup, rest: seq<Fd>): State {
    if outcome.Ready? then
      if !s.timer.running then Discard(s) else s.(master := TickReturned)
    else if s.timer.running && outcome.Interrupted? then s.(master := Events(rest))
    else s.(master := Exited)
  }

  function BeginRound(s: State): State {
    if s.terminate then Discard(s)
    else s.(master := NextNotify(s, 0), tally := s.tally.(rounds := s.tally.rounds + 1))
  }

  /** What the master does with the result of `epoll_wait`. */
  function TickStep(s: State, r: Wakeup): State {
    match s.master
    case AfterEpoll(result) => EpollReturned(s, result)
    case Events(fds) => NextEvent(s, fds, r)
    case AfterRead(outcome, rest) => ReadReturned(s, outcome, rest)
    case TickReturned => BeginRound(s)
    case _ => s
  }

  /** A tick that was read when the master has to stop reaches no task. */
  function Discard(s: State): State {
    s.(master := Exited, tally := s.tally.(discarded := s.tally.discarded + 1))
  }

  predicate MasterTicking(s: State) {
    s.master.AfterEpoll? || s.master.Events? || s.master.AfterRead? || s.master == TickReturned
  }

  function MasterStep(s: State, r: Wakeup): State {
    if s.master.NotifyTask? then
      if s.master.i < |s.tasks| then NotifyStep(s, s.master.i, s.master.counted) else s
    else if MasterTicking(s) then TickStep(s, r)
    else WaitStep(s, r)
  }

  predicate Enabled(s: State, a: Action) {
    match a
    case MainMoves(_, _) => MainEnabled(s)
    case MasterMoves(r) => MasterEnabled(s, r)
    case WorkerMoves(i) => i < |s.tasks| && WorkerEnabled(s.tasks[i])
    case WorkerWaitFails(i) => i < |s.tasks| && s.tasks[i].worker == AtSemWait
    case TimerExpires => s.timer.started
  }

  function Apply(s: State, a: Action): State
    requires Enabled(s, a)
  {
    match a
    case MainMoves(ok, semInitOk) => MainStep(s, ok, semInitOk)
    case MasterMoves(r) => MasterStep(s, r)
    case WorkerMoves(i) => s.(tasks := s.tasks[i := WorkerStep(s.tasks[i])])
    case WorkerWaitFails(i) => s.(tasks := s.tasks[i := WaitFails(s.tasks[i])])
    case TimerExpires => s.(timer := s.timer.(pending := s.timer.pending + 1))
  }

  // ---- Invariant ----

  predicate AllTasksUp(s: State) {
    && |s.tasks| == |s.config|
    && forall i :: 0 <= i < |s.tasks| ==>
          s.tasks[i].worker != NotSpawned && s.tasks[i].started && !s.tasks[i].Stopping()
  }

  // While tasks are started one by one: none runs unless it was started, and a task that could not get its
  // priority has already been stopped again.
  predicate StartShape(s: State, k: nat, ok: bool) {
    && k == |s.tasks| < |s.config| && s.master == NoThread && !s.clocked
    && (forall i :: 0 <= i < |s.tasks| ==> Rested(s.tasks[i]))
    && (ok ==> forall i :: 0 <= i < |s.tasks| ==> s.tasks[i].started && !s.tasks[i].Stopping())
  }

  // A task that is not being stopped right now: it was never stopped, or its stop is complete.
  predicate Rested(t: Task) {
    !t.terminate && (t.stopPosted ==> !t.WorkerAlive())
  }

  // A task inside `PeriodicTask::Stop`.
  predicate MidStop(t: Task, pc: StopPc) {
    match pc
    case StopSetTerminate => Rested(t)
    case StopPost => t.terminate && (t.stopPosted ==> !t.WorkerAlive())
    case StopJoin => t.terminate && (t.WorkerAlive() || t.worker == WorkerExited ==> t.stopPosted)
    case StopClear => t.terminate && !t.WorkerAlive() && (t.worker == WorkerExited ==> t.stopPosted)
  }

  predicate StopShape(s: State, k: nat, pc: StopPc, rollback: bool) {
    && k < |s.tasks| && !MasterAlive(s)
    && MidStop(s.tasks[k], pc)
    && (forall i :: 0 <= i < |s.tasks| && i != k ==> Rested(s.tasks[i]))
    && (rollback ==> k == |s.tasks| - 1 && s.master == NoThread && !s.clocked)
    && (!rollback ==> forall i :: 0 <= i < k ==> !s.tasks[i].WorkerAlive())
  }

  predicate ControlShape(s: State) {
    && (s.main == Idle ==> s.tasks == [] && s.master == NoThread && !s.clocked)
    && (s.main == SpawnMaster ==> AllTasksUp(s) && s.master == NoThread && !s.clocked)
    && (MainAllowsMaster(s) ==> AllTasksUp(s) && s.master != NoThread)
    && (s.main == StopTimer || s.main == ClearTerminate ==> AllTasksUp(s) && s.master == Exited)
    && (s.main == DeleteTasks ==> !MasterAlive(s) && forall i :: 0 <= i < |s.tasks| ==> !s.tasks[i].WorkerAlive())
  }

  /** Where the main thread is decides which tasks exist and which of them are being stopped. */
  predicate MainShape(s: State) {
    if s.main.StartTask? then StartShape(s, s.main.k, s.main.ok)
    else if s.main.StopTask? then StopShape(s, s.main.k, s.main.pc, s.main.rollback)
    else ControlShape(s)
  }

  predicate TaskListOk(config: seq<Timing>, tasks: seq<Task>) {
    && |tasks| <= |config|
    && forall i :: 0 <= i < |tasks| ==> tasks[i].timing == config[i] && TaskOk(tasks[i])
  }

  predicate TasksOk(s: State) { TaskListOk(s.config, s.tasks) }

  /** Only the task that the master is notifying is inside `Notify`. */
  predicate NotifyShape(s: State) {
    && (forall i :: 0 <= i < |s.tasks| && s.tasks[i].notify != NotifyIdle ==> s.master == NotifyTask(i, true))
    && (s.master.NotifyTask? ==>
          && s.master.i < |s.tasks|
          && (s.master.counted ==> s.tasks[s.master.i].notify != NotifyIdle))
  }

  /** Task i has still to be counted in the round that is under way. */
  predicate Behind(s: State, i: nat) {
    s.master.NotifyTask? && (i > s.master.i || (i == s.master.i && !s.master.counted))
  }

  predicate RoundsShape(s: State) {
    && (s.clocked ==> forall i :: 0 <= i < |s.tasks| ==> s.tasks[i].notified + B(Behind(s, i)) == s.tally.rounds)
    && (!s.clocked ==> forall i :: 0 <= i < |s.tasks| ==> s.tasks[i].notified == 0)
  }

  predicate TickInHand(s: State) {
    s.master == TickReturned || (s.master.AfterRead? && s.master.outcome.Ready?)
  }

  predicate TallyOk(s: State) {
    s.clocked ==>
      && s.tally.read == s.tally.ticks + s.timer.lost
      && s.tally.ticks == s.tally.rounds + s.tally.discarded + B(TickInHand(s))
      && s.tally.discarded <= 1
      && (s.tally.discarded == 1 ==> s.master == Exited)
      && (s.timer.lost == 0 <==> s.timer.cpuOverloads == 0)
      && s.timer.cpuOverloads <= s.timer.lost
  }

  /** The master is past the start of its clock. */
  predicate Clocking(s: State) { MasterAlive(s) && s.master != StartClock }

  predicate ClockShape(s: State) {
    && (MasterAlive(s) ==> MainAllowsMaster(s))
    && (Clocking(s) ==> s.timer.started && s.clocked)
    && (s.master == StartClock ==> !s.clocked)
    && (s.terminate <==> AfterCancel(s) || s.main == CancelRunning || s.main == StopTimer || s.main == ClearTerminate)
    && (BeforeCancel(s) && Clocking(s) ==> s.timer.running)
    && (!BeforeCancel(s) ==> (s.timer.running <==> s.lateClock))
    && (AfterCancel(s) && s.lateClock ==> s.master == LoopCheck || s.master == Exited)
    && (s.main == JoinMaster && s.master == InEpoll ==> s.timer.signalled || s.signalFailed)
    && (!MainAllowsMaster(s) && s.main != StopTimer ==> !s.timer.started)
  }

  /** A readable timer has an unread expiration: only the master reads it, and it has not done so yet. */
  predicate EventsShape(s: State) {
    && (s.master.Events? && TimerFd in s.master.fds ==> s.timer.pending > 0)
    && (s.master.AfterEpoll? && s.master.result.Ready? && TimerFd in s.master.result.fds ==> s.timer.pending > 0)
    && (s.master.AfterRead? && !s.master.outcome.Ready? ==> s.timer.pending > 0)
  }

  predicate CountsShape(s: State) {
    NotifyShape(s) && RoundsShape(s) && TallyOk(s)
  }

  predicate Inv(s: State) {
    ConfigOk(s.config) && TasksOk(s) && MainShape(s) && CountsShape(s) && ClockShape(s) && EventsShape(s)
  }

  // ---- Every step keeps the invariant ----

  // What the shape of the whole state needs to know about a single task.
  predicate Consistent(t: Task) {
    && (t.WorkerAlive() ==> t.started)
    && (t.started ==> t.worker != NotSpawned)
    && (t.worker == WorkerExited && !t.started ==> t.stopPosted)
  }

  predicate AllConsistent(s: State) {
    forall i :: 0 <= i < |s.tasks| ==> Consistent(s.tasks[i])
  }

  lemma TasksConsistent(s: State)
    requires TasksOk(s)
    ensures AllConsistent(s)
  {
    forall i | 0 <= i < |s.tasks| ensures Consistent(s.tasks[i]) { assert TaskOk(s.tasks[i]); }
  }

  lemma FreshTaskOk(t: Timing, semInitOk: bool)
    ensures TaskOk(FreshTask(t, semInitOk))
  {
  }

  lemma UpdateKeepsList(config: seq<Timing>, tasks: seq<Task>, k: nat, t: Task)
    requires TaskListOk(config, tasks) && k < |tasks| && t.timing == tasks[k].timing && TaskOk(t)
    ensures TaskListOk(config, tasks[k := t])
  {
  }

  lemma AppendKeepsList(config: seq<Timing>, tasks: seq<Task>, t: Task)
    requires TaskListOk(config, tasks) && |tasks| < |config| && t.timing == config[|tasks|] && TaskOk(t)
    ensures TaskListOk(config, tasks + [t])
  {
  }

  lemma StartTaskKeepsShape(s: State, k: nat, good: bool, ok: bool, semInitOk: bool)
    requires k < |s.config| && AllConsistent(s) && StartShape(s, k, good)
    ensures MainShape(StartTaskStep(s, k, good, ok, semInitOk))
  {
    var s' := StartTaskStep(s, k, good, ok, semInitOk);
    assert s'.tasks[k] == FreshTask(s.config[k], semInitOk);
    assert forall i :: 0 <= i < k ==> s'.tasks[i] == s.tasks[i];
  }

  lemma StartTaskKeepsCounts(s: State, k: nat, good: bool, ok: bool, semInitOk: bool)
    requires k < |s.config| && CountsShape(s) && EventsShape(s) && !MasterAlive(s) && !s.clocked
    ensures CountsShape(StartTaskStep(s, k, good, ok, semInitOk))
        && EventsShape(StartTaskStep(s, k, good, ok, semInitOk))
  {
  }

  lemma StartTaskKeepsClock(s: State, k: nat, good: bool, ok: bool, semInitOk: bool)
    requires k < |s.config| && ClockShape(s) && s.main == StartTask(k, good) && |s.tasks| == k
    ensures ClockShape(StartTaskStep(s, k, good, ok, semInitOk))
  {
  }

  lemma StopStepKeepsMidStop(t: Task, pc: StopPc, ok: bool)
    requires Consistent(t) && MidStop(t, pc) && StopEnabled(t, pc)
    ensures var t' := StopStep(t, pc, ok);
            match pc
            case StopSetTerminate => MidStop(t', StopPost)
            case StopPost => MidStop(t', StopJoin)
            case StopJoin => MidStop(t', StopClear)
            case StopClear => Rested(t') && !t'.WorkerAlive()
  {
  }

  lemma StopTaskKeepsShape(s: State, k: nat, pc: StopPc, rollback: bool, ok: bool)
    requires AllConsistent(s) && |s.tasks| <= |s.config| && StopShape(s, k, pc, rollback) && StopEnabled(s.tasks[k], pc)
    ensures MainShape(StopTaskStep(s, k, pc, rollback, ok))
  {
    var s' := StopTaskStep(s, k, pc, rollback, ok);
    StopStepKeepsMidStop(s.tasks[k], pc, ok);
    assert forall i :: 0 <= i < |s.tasks| && i != k ==> s'.tasks[i] == s.tasks[i];
  }

  lemma StopTaskKeepsCounts(s: State, k: nat, pc: StopPc, rollback: bool, ok: bool)
    requires k < |s.tasks| && CountsShape(s) && EventsShape(s) && !MasterAlive(s)
    ensures CountsShape(StopTaskStep(s, k, pc, rollback, ok)) && EventsShape(StopTaskStep(s, k, pc, rollback, ok))
  {
  }

  lemma StopTaskKeepsClock(s: State, k: nat, pc: StopPc, rollback: bool, ok: bool)
    requires ClockShape(s) && s.main == StopTask(k, pc, rollback) && k < |s.tasks| && !MasterAlive(s)
    ensures ClockShape(StopTaskStep(s, k, pc, rollback, ok))
  {
  }

  lemma StartControlKeepsCounts(s: State, ok: bool)
    requires CountsShape(s) && EventsShape(s) && (s.main == SpawnMaster ==> s.master == NoThread && !s.clocked)
    ensures CountsShape(StartControl(s, ok)) && EventsShape(StartControl(s, ok))
  {
  }

  lemma StartControlKeepsShape(s: State, ok: bool)
    requires ControlShape(s) && |s.config| > 0 && MainStarting(s)
    ensures MainShape(StartControl(s, ok))
  {
  }

  lemma StartControlKeepsClock(s: State, ok: bool)
    requires ControlShape(s) && ClockShape(s) && |s.config| > 0 && MainStarting(s)
    ensures ClockShape(StartControl(s, ok))
  {
  }

  predicate MainStopping(s: State) {
    !s.main.StartTask? && !s.main.StopTask? && !MainStarting(s)
  }

  lemma StopControlKeepsCounts(s: State, ok: bool)
    requires CountsShape(s) && EventsShape(s) && MainStopping(s)
    requires s.main == DeleteTasks || s.main == StopTimer ==> !MasterAlive(s)
    ensures CountsShape(StopControl(s, ok)) && EventsShape(StopControl(s, ok))
  {
  }

  lemma StopControlKeepsShape(s: State, ok: bool)
    requires ControlShape(s) && MainEnabled(s) && MainStopping(s)
    ensures MainShape(StopControl(s, ok))
  {
    if s.main == ClearTerminate {
      ClearTerminateKeepsShape(s, ok);
    } else {
      assert ControlShape(StopControl(s, ok));
    }
  }

  lemma ClearTerminateKeepsShape(s: State, ok: bool)
    requires AllTasksUp(s) && s.master == Exited && s.main == ClearTerminate
    ensures MainShape(StopControl(s, ok))
  {
    if |s.tasks| > 0 {
      assert forall i :: 0 <= i < |s.tasks| ==> Rested(s.tasks[i]);
      assert StopShape(StopControl(s, ok), 0, StopSetTerminate, false);
    }
  }

  lemma StopControlKeepsClock(s: State, ok: bool)
    requires ControlShape(s) && ClockShape(s) && MainEnabled(s) && MainStopping(s)
    ensures ClockShape(StopControl(s, ok))
  {
  }

  lemma StartTaskKeepsTasks(s: State, k: nat, good: bool, ok: bool, semInitOk: bool)
    requires TasksOk(s) && k == |s.tasks| < |s.config|
    ensures TasksOk(StartTaskStep(s, k, good, ok, semInitOk))
  {
    FreshTaskOk(s.config[k], semInitOk);
    AppendKeepsList(s.config, s.tasks, FreshTask(s.config[k], semInitOk));
  }

  lemma StopTaskKeepsTasks(s: State, k: nat, pc: StopPc, rollback: bool, ok: bool)
    requires TasksOk(s) && NotifyShape(s) && !MasterAlive(s) && k < |s.tasks|
    requires MidStop(s.tasks[k], pc) && StopEnabled(s.tasks[k], pc)
    ensures TasksOk(StopTaskStep(s, k, pc, rollback, ok))
  {
    StopTaskKeepsOne(s, k, pc, ok);
    UpdateKeepsList(s.config, s.tasks, k, StopStep(s.tasks[k], pc, ok));
  }

  lemma ControlFrame(s: State, ok: bool)
    ensures StartControl(s, ok).config == s.config && StartControl(s, ok).tasks == s.tasks
    ensures StopControl(s, ok).config == s.config
        && (StopControl(s, ok).tasks == s.tasks || StopControl(s, ok).tasks == [])
  {
  }

  lemma FewerTasksOk(s: State, s': State)
    requires TasksOk(s) && s'.config == s.config && (s'.tasks == s.tasks || s'.tasks == [])
    ensures TasksOk(s')
  {
  }

  lemma MainKeepsTasks(s: State, ok: bool, semInitOk: bool)
    requires TasksOk(s) && ConfigOk(s.config) && MainShape(s) && NotifyShape(s) && MainEnabled(s)
    ensures TasksOk(MainStep(s, ok, semInitOk)) && MainStep(s, ok, semInitOk).config == s.config
  {
    if s.main.StartTask? {
      StartTaskKeepsTasks(s, s.main.k, s.main.ok, ok, semInitOk);
    } else if s.main.StopTask? {
      StopTaskKeepsTasks(s, s.main.k, s.main.pc, s.main.rollback, ok);
    } else {
      ControlFrame(s, ok);
      FewerTasksOk(s, MainStep(s, ok, semInitOk));
    }
  }

  lemma StopTaskKeepsOne(s: State, k: nat, pc: StopPc, ok: bool)
    requires TasksOk(s) && NotifyShape(s) && !MasterAlive(s) && k < |s.tasks|
    requires MidStop(s.tasks[k], pc) && StopEnabled(s.tasks[k], pc)
    ensures TaskOk(StopStep(s.tasks[k], pc, ok)) && StopStep(s.tasks[k], pc, ok).timing == s.tasks[k].timing
  {
    var t := s.tasks[k];
    assert TaskOk(t);
    assert t.notify == NotifyIdle;
    StopStepKeepsTask(t, pc, ok);
  }

  lemma MainKeepsShapes(s: State, ok: bool, semInitOk: bool)
    requires ConfigOk(s.config) && |s.tasks| <= |s.config| && AllConsistent(s)
    requires MainShape(s) && CountsShape(s) && ClockShape(s) && EventsShape(s) && MainEnabled(s)
    ensures var s' := MainStep(s, ok, semInitOk); MainShape(s') && CountsShape(s') && ClockShape(s') && EventsShape(s')
  {
    if s.main.StartTask? {
      StartTaskKeepsShape(s, s.main.k, s.main.ok, ok, semInitOk);
      StartTaskKeepsCounts(s, s.main.k, s.main.ok, ok, semInitOk);
      StartTaskKeepsClock(s, s.main.k, s.main.ok, ok, semInitOk);
    } else if s.main.StopTask? {
      StopTaskKeepsShape(s, s.main.k, s.main.pc, s.main.rollback, ok);
      StopTaskKeepsCounts(s, s.main.k, s.main.pc, s.main.rollback, ok);
      StopTaskKeepsClock(s, s.main.k, s.main.pc, s.main.rollback, ok);
    } else if MainStarting(s) {
      StartControlKeepsCounts(s, ok);
      StartControlKeepsShape(s, ok);
      StartControlKeepsClock(s, ok);
    } else {
      StopControlKeepsCounts(s, ok);
      StopControlKeepsShape(s, ok);
      StopControlKeepsClock(s, ok);
    }
  }

  lemma MainKeepsInv(s: State, ok: bool, semInitOk: bool)
    requires Inv(s) && MainEnabled(s)
    ensures Inv(MainStep(s, ok, semInitOk))
  {
    TasksConsistent(s);
    MainKeepsTasks(s, ok, semInitOk);
    MainKeepsShapes(s, ok, semInitOk);
  }

  // A move of the master thread that leaves the tasks alone.
  lemma MasterMoveKeepsShape(s: State, s': State)
    requires MainShape(s) && MainAllowsMaster(s)
    requires s'.config == s.config && s'.tasks == s.tasks && s'.main == s.main && s'.master != NoThread
    ensures MainShape(s')
  {
  }

  lemma WaitStepKeepsCounts(s: State, r: Wakeup)
    requires Clocking(s) ==> s.clocked
    requires CountsShape(s) && MasterAlive(s) && !s.master.NotifyTask? && !MasterTicking(s)
    requires s.master == StartClock ==> !s.clocked
    ensures CountsShape(WaitStep(s, r))
  {
  }

  lemma WaitStepKeepsClock(s: State, r: Wakeup)
    requires ClockShape(s) && EventsShape(s) && MasterEnabled(s, r) && !s.master.NotifyTask? && !MasterTicking(s)
    ensures ClockShape(WaitStep(s, r)) && EventsShape(WaitStep(s, r))
  {
  }

  lemma ReadTickKeepsTally(s: State, fds: seq<Fd>, r: Wakeup)
    requires TallyOk(s) && s.clocked && s.master.Events? && s.timer.pending > 0 && r.Ready?
    ensures TallyOk(ReadTick(s, AfterRead(r, fds)))
  {
  }

  lemma TickStepKeepsTally(s: State, r: Wakeup)
    requires TallyOk(s) && EventsShape(s) && s.clocked && MasterTicking(s)
    ensures TallyOk(TickStep(s, r))
  {
    if s.master.Events? && s.master.fds != [] && s.master.fds[0] != CancelFd && r.Ready? {
      ReadTickKeepsTally(s, s.master.fds[1..], r);
    }
  }

  lemma NextEventKeepsEvents(s: State, fds: seq<Fd>, r: Wakeup)
    requires EventsShape(s) && s.master == Events(fds)
    ensures EventsShape(NextEvent(s, fds, r))
  {
  }

  lemma TickStepKeepsEvents(s: State, r: Wakeup)
    requires EventsShape(s) && MasterTicking(s)
    ensures EventsShape(TickStep(s, r))
  {
    match s.master
    case Events(fds) => NextEventKeepsEvents(s, fds, r);
    case AfterEpoll(result) => assert EventsShape(EpollReturned(s, result));
    case AfterRead(outcome, rest) => assert EventsShape(ReadReturned(s, outcome, rest));
    case TickReturned => assert EventsShape(BeginRound(s));
  }

  lemma BeginRoundKeepsRounds(s: State)
    requires NotifyShape(s) && RoundsShape(s) && s.clocked && s.master == TickReturned
    ensures NotifyShape(BeginRound(s)) && RoundsShape(BeginRound(s))
  {
  }

  // A step that begins no round and touches no task.
  lemma FrameKeepsRounds(s: State, s': State)
    requires NotifyShape(s) && RoundsShape(s) && s.clocked && MasterTicking(s) && TickFrame(s, s')
    requires s'.tally.rounds == s.tally.rounds && !s'.master.NotifyTask?
    ensures NotifyShape(s') && RoundsShape(s')
  {
  }

  lemma TickStepKeepsRounds(s: State, r: Wakeup)
    requires NotifyShape(s) && RoundsShape(s) && s.clocked && MasterTicking(s)
    ensures NotifyShape(TickStep(s, r)) && RoundsShape(TickStep(s, r))
  {
    if s.master == TickReturned {
      BeginRoundKeepsRounds(s);
    } else {
      TickStepFrame(s, r);
      FrameKeepsRounds(s, TickStep(s, r));
    }
  }

  /** What the master leaves alone while it waits for a tick and handles it. */
  predicate TickFrame(s: State, s': State) {
    && s'.config == s.config && s'.tasks == s.tasks && s'.main == s.main && s'.terminate == s.terminate
    && s'.clocked == s.clocked && s'.lateClock == s.lateClock && s'.signalFailed == s.signalFailed
    && s'.timer.signalled == s.timer.signalled && s'.timer.started == s.timer.started
    && s'.timer.running == s.timer.running
    && s'.master != NoThread && s'.master != StartClock && s'.master != InEpoll
  }

  lemma TickPartsFrame(s: State, result: Wakeup, fds: seq<Fd>)
    ensures TickFrame(s, EpollReturned(s, result)) && TickFrame(s, ReadReturned(s, result, fds))
    ensures TickFrame(s, BeginRound(s))
  {
  }

  lemma ReadTickFrame(s: State, next: MasterPc)
    requires next != NoThread && next != StartClock && next != InEpoll
    ensures TickFrame(s, ReadTick(s, next)) && TickFrame(s, s.(master := next))
  {
  }

  lemma NextEventFrame(s: State, fds: seq<Fd>, r: Wakeup)
    ensures TickFrame(s, NextEvent(s, fds, r))
  {
    ReadTickFrame(s, NextEvent(s, fds, r).master);
  }

  lemma TickStepFrame(s: State, r: Wakeup)
    requires MasterTicking(s)
    ensures TickFrame(s, TickStep(s, r))
  {
    match s.master
    case AfterEpoll(result) => TickPartsFrame(s, result, []);
    case Events(fds) => NextEventFrame(s, fds, r);
    case AfterRead(outcome, rest) => TickPartsFrame(s, outcome, rest);
    case TickReturned => TickPartsFrame(s, r, []);
  }

  lemma TickFrameKeepsClock(s: State, s': State)
    requires ClockShape(s) && MasterTicking(s) && TickFrame(s, s')
    ensures ClockShape(s')
  {
  }

  lemma NotifyStepKeepsTasks(s: State, i: nat, counted: bool)
    requires TasksOk(s) && NotifyShape(s) && s.master == NotifyTask(i, counted) && AllTasksUp(s)
    ensures TasksOk(NotifyStep(s, i, counted))
  {
    NotifyKeepsTask(s.tasks[i]);
    var t' := NotifyStep(s, i, counted).tasks[i];
    UpdateKeepsList(s.config, s.tasks, i, t');
  }

  // What `Notify` does to the task as far as the other tasks and threads can tell.
  lemma NotifyStepEffect(s: State, i: nat, counted: bool)
    requires i < |s.tasks| && (counted <==> s.tasks[i].notify != NotifyIdle)
    ensures var s' := NotifyStep(s, i, counted); var t, t' := s.tasks[i], s'.tasks[i];
            && s' == s.(tasks := s.tasks[i := t'], master := s'.master)
            && t'.worker == t.worker && t'.started == t.started && t'.Stopping() == t.Stopping()
            && t'.notified == t.notified + B(!counted)
            && s'.master == if t'.notify != NotifyIdle then NotifyTask(i, true) else NextNotify(s, i + 1)
  {
  }

  lemma NotifyMoveKeepsRounds(s: State, s': State, i: nat, counted: bool)
    requires i < |s.tasks| && NotifyShape(s) && RoundsShape(s) && s.clocked && s.master == NotifyTask(i, counted)
    requires |s'.tasks| == |s.tasks| && s' == s.(tasks := s.tasks[i := s'.tasks[i]], master := s'.master)
    requires s'.tasks[i].notified == s.tasks[i].notified + B(!counted)
    requires s'.master == if s'.tasks[i].notify != NotifyIdle then NotifyTask(i, true) else NextNotify(s, i + 1)
    ensures NotifyShape(s') && RoundsShape(s')
  {
    assert forall j :: 0 <= j < |s.tasks| && j != i ==> s'.tasks[j] == s.tasks[j];
  }

  lemma NotifyMoveKeepsShape(s: State, s': State, i: nat, counted: bool)
    requires i < |s.tasks| && MainShape(s) && ClockShape(s) && EventsShape(s) && TallyOk(s)
        && s.master == NotifyTask(i, counted)
    requires |s'.tasks| == |s.tasks| && s' == s.(tasks := s.tasks[i := s'.tasks[i]], master := s'.master)
    requires s'.tasks[i].worker == s.tasks[i].worker && s'.tasks[i].started == s.tasks[i].started
    requires s'.tasks[i].Stopping() == s.tasks[i].Stopping()
    requires s'.master.NotifyTask? || s'.master == LoopCheck
    ensures MainShape(s') && ClockShape(s') && EventsShape(s') && TallyOk(s')
  {
    assert forall j :: 0 <= j < |s.tasks| && j != i ==> s'.tasks[j] == s.tasks[j];
    assert AllTasksUp(s');
  }

  lemma NotifyStepKeepsInv(s: State)
    requires Inv(s) && s.master.NotifyTask?
    ensures Inv(NotifyStep(s, s.master.i, s.master.counted))
  {
    var i, counted := s.master.i, s.master.counted;
    var s' := NotifyStep(s, i, counted);
    NotifyStepKeepsTasks(s, i, counted);
    NotifyStepEffect(s, i, counted);
    NotifyMoveKeepsRounds(s, s', i, counted);
    NotifyMoveKeepsShape(s, s', i, counted);
  }

  lemma TickStepKeepsInv(s: State, r: Wakeup)
    requires Inv(s) && MasterTicking(s)
    ensures Inv(TickStep(s, r))
  {
    TickStepFrame(s, r);
    TickStepKeepsTally(s, r);
    TickStepKeepsEvents(s, r);
    TickStepKeepsRounds(s, r);
    TickFrameKeepsClock(s, TickStep(s, r));
    MasterMoveKeepsShape(s, TickStep(s, r));
  }

  lemma WaitStepKeepsInv(s: State, r: Wakeup)
    requires Inv(s) && MasterEnabled(s, r) && !s.master.NotifyTask? && !MasterTicking(s)
    ensures Inv(WaitStep(s, r))
  {
    var s' := WaitStep(s, r);
    assert s'.config == s.config && s'.tasks == s.tasks && s'.main == s.main && s'.master != NoThread;
    WaitStepKeepsCounts(s, r);
    WaitStepKeepsClock(s, r);
    MasterMoveKeepsShape(s, s');
  }

  lemma MasterKeepsInv(s: State, r: Wakeup)
    requires Inv(s) && MasterEnabled(s, r)
    ensures Inv(MasterStep(s, r))
  {
    if s.master.NotifyTask? {
      NotifyStepKeepsInv(s);
    } else if MasterTicking(s) {
      TickStepKeepsInv(s, r);
    } else {
      WaitStepKeepsInv(s, r);
    }
  }

  /** A worker changes only its own semaphore, flag, position and completed steps. */
  predicate WorkerFrame(t: Task, t': Task) {
    && t'.timing == t.timing && t'.started == t.started && t'.notify == t.notify && t'.notified == t.notified
    && t'.terminate == t.terminate && t'.stopPosted == t.stopPosted
    && (t'.WorkerAlive() ==> t.WorkerAlive()) && (t'.worker != NotSpawned)
    && (t'.worker == WorkerExited && t.worker != WorkerExited ==> t.started)
  }

  lemma WorkerKeepsShape(s: State, i: nat, t': Task)
    requires i < |s.tasks| && MainShape(s) && AllConsistent(s) && WorkerFrame(s.tasks[i], t')
        && s.tasks[i].WorkerAlive()
    ensures MainShape(s.(tasks := s.tasks[i := t']))
  {
  }

  lemma WorkerKeepsCounts(s: State, i: nat, t': Task)
    requires i < |s.tasks| && CountsShape(s) && WorkerFrame(s.tasks[i], t')
    ensures CountsShape(s.(tasks := s.tasks[i := t']))
  {
  }

  lemma WorkerKeepsTask(t: Task)
    requires TaskOk(t)
    ensures WorkerEnabled(t) ==> TaskOk(WorkerStep(t)) && WorkerFrame(t, WorkerStep(t))
    ensures t.worker == AtSemWait ==> TaskOk(WaitFails(t)) && WorkerFrame(t, WaitFails(t))
  {
  }

  lemma WorkerKeepsInv(s: State, i: nat, t': Task)
    requires Inv(s) && i < |s.tasks| && s.tasks[i].WorkerAlive()
    requires TaskOk(t') && WorkerFrame(s.tasks[i], t')
    ensures Inv(s.(tasks := s.tasks[i := t']))
  {
    TasksConsistent(s);
    WorkerKeepsShape(s, i, t');
    WorkerKeepsCounts(s, i, t');
    UpdateKeepsList(s.config, s.tasks, i, t');
  }

  lemma ExpiryKeepsInv(s: State)
    requires Inv(s) && s.timer.started
    ensures Inv(s.(timer := s.timer.(pending := s.timer.pending + 1)))
  {
  }

  lemma StepKeepsInv(s: State, a: Action)
    requires Inv(s) && Enabled(s, a)
    ensures Inv(Apply(s, a))
  {
    match a
    case MainMoves(ok, semInitOk) => MainKeepsInv(s, ok, semInitOk);
    case MasterMoves(r) => MasterKeepsInv(s, r);
    case WorkerMoves(i) =>
      WorkerKeepsTask(s.tasks[i]);
      WorkerKeepsInv(s, i, WorkerStep(s.tasks[i]));
    case WorkerWaitFails(i) =>
      WorkerKeepsTask(s.tasks[i]);
      WorkerKeepsInv(s, i, WaitFails(s.tasks[i]));
    case TimerExpires => ExpiryKeepsInv(s);
  }
}

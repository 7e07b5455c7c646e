/** What holds in every state that the scheduler can reach, over every interleaving and every restart. */
module SchedulerTheorems {
  import opened PeriodicTasks
  import opened Scheduler

  /** The actions can be taken one after the other from s and lead to `end`. */
  ghost predicate Runs(s: State, actions: seq<Action>, end: State)
    decreases |actions|
  {
    if actions == [] then end == s
    else Enabled(s, actions[0]) && Runs(Apply(s, actions[0]), actions[1..], end)
  }

  ghost predicate Reachable(s: State) {
    ConfigOk(s.config) && exists actions :: Runs(Init(s.config), actions, s)
  }

  lemma {:induction false} RunKeepsInv(s: State, actions: seq<Action>, end: State)
    requires Inv(s) && Runs(s, actions, end)
    ensures Inv(end)
    decreases |actions|
  {
    if actions != [] {
      StepKeepsInv(s, actions[0]);
      RunKeepsInv(Apply(s, actions[0]), actions[1..], end);
    }
  }

  lemma ReachableInv(s: State)
    requires Reachable(s)
    ensures Inv(s)
  {
    var actions :| Runs(Init(s.config), actions, s);
    RunKeepsInv(Init(s.config), actions, s);
  }

  lemma {:induction false} ExtendRun(s: State, actions: seq<Action>, mid: State, a: Action)
    requires Runs(s, actions, mid) && Enabled(mid, a)
    ensures Runs(s, actions + [a], Apply(mid, a))
    decreases |actions|
  {
    if actions == [] {
      assert ([a])[1..] == [];
    } else {
      ExtendRun(Apply(s, actions[0]), actions[1..], mid, a);
      assert (actions + [a])[1..] == actions[1..] + [a];
    }
  }

  lemma Extend(s: State, a: Action, s': State)
    requires Reachable(s) && Enabled(s, a) && s' == Apply(s, a) && s'.config == s.config
    ensures Reachable(s')
  {
    var actions :| Runs(Init(s.config), actions, s);
    ExtendRun(Init(s.config), actions, s, a);
  }

  // ---- Jobs ----

  /**
   Exact job accounting: with n notifications delivered, the finished jobs, the overloads and the job in
   flight together are the release points among them, whose number is the closed form unless a counter wraps.
   (Between its counters and its compare-and-swap the master holds one release that is neither yet.)
   */
  lemma JobAccounting(s: State, i: nat)
    requires Reachable(s) && i < |s.tasks|
    ensures var t := s.tasks[i];
            var accounted := t.completed + t.overloads + B(t.JobInFlight()) + B(t.notify == AtCas);
            && i < |s.config| && t.timing == s.config[i]
            && accounted == ReleaseCount(s.config[i], t.notified)
            && (s.config[i].NeverWraps() ==> accounted == s.config[i].Releasing(t.notified))
  {
    ReachableInv(s);
    assert TaskOk(s.tasks[i]);
    if s.config[i].NeverWraps() { ReleaseCountClosedForm(s.config[i], s.tasks[i].notified); }
  }

  /**
   Single flight: before its stop a task's semaphore is 0 or 1, and its flag is set exactly when one job is
   about to be posted, or is in the semaphore, or is held by the worker between wakeup and clearing the flag.
   */
  lemma SingleFlight(s: State, i: nat)
    requires Reachable(s) && i < |s.tasks|
    requires s.tasks[i].WorkerAlive() && !s.tasks[i].stopPosted
    ensures var t := s.tasks[i];
            && t.semaphore <= 1
            && t.semaphore + B(t.Active()) + B(t.notify == AtPost) == B(t.pendingOrRunning)
            && (t.worker == InStep ==> t.pendingOrRunning && t.semaphore == 0)
  {
    ReachableInv(s);
    assert TaskOk(s.tasks[i]);
  }

  /** From the moment the stop flag is set at most one admitted step still finishes, and at most one is dropped. */
  lemma JobsAfterStop(s: State, i: nat)
    requires Reachable(s) && i < |s.tasks| && s.tasks[i].Stopping()
    ensures var t := s.tasks[i];
            && t.completed <= t.completedAtStop + 1
            && (t.worker == InStep ==> t.completed == t.completedAtStop)
            && (t.worker == WorkerExited ==> Accepted(t) == t.completed + B(t.pendingOrRunning))
  {
    ReachableInv(s);
    assert TaskOk(s.tasks[i]);
  }

  // ---- Ticks ----

  /**
   Every expiration that was read was delivered as a round of notifications, was counted as lost, is in the
   master's hands, or was the one tick discarded at the end; and every task has seen every finished round.
   */
  lemma TickAccounting(s: State)
    requires Reachable(s) && s.clocked
    ensures s.tally.read == s.tally.rounds + s.timer.lost + s.tally.discarded + B(TickInHand(s))
    ensures s.tally.discarded <= 1 && (s.tally.discarded == 1 ==> s.master == Exited)
    ensures s.timer.lost > 0 <==> s.timer.cpuOverloads > 0
    ensures forall i :: 0 <= i < |s.tasks| ==> s.tasks[i].notified + B(Behind(s, i)) == s.tally.rounds
    ensures s.master == Exited ==>
              forall i :: 0 <= i < |s.tasks| ==> s.tally.read == s.tasks[i].notified + s.timer.lost + s.tally.discarded
  {
    ReachableInv(s);
  }

  // ---- Shutdown ----

  /** `Notify` runs only on tasks that are started and not being stopped, and no master outlives its tasks. */
  lemma NotifyOnlyLiveTasks(s: State)
    requires Reachable(s)
    ensures s.master.NotifyTask? ==>
              && s.master.i < |s.tasks|
              && s.tasks[s.master.i].started && !s.tasks[s.master.i].Stopping()
              && s.tasks[s.master.i].worker != NotSpawned
    ensures forall i :: 0 <= i < |s.tasks| && s.tasks[i].notify != NotifyIdle ==> s.master == NotifyTask(i, true)
    ensures s.main.StopTask? || s.main == DeleteTasks || s.main == Idle ==> !MasterAlive(s)
  {
    ReachableInv(s);
  }

  /** The master waits in `epoll_wait` and no descriptor is readable. */
  predicate Blocked(s: State) {
    s.master == InEpoll && !s.timer.signalled && s.timer.pending == 0
  }

  /** The cancel event is readable only between the signal and the stop of the timer, and then the write succeeded. */
  predicate SignalShape(s: State) {
    && (s.timer.signalled ==> s.timer.started && (s.main == JoinMaster || s.main == StopTimer))
    && (s.main == JoinMaster && s.timer.signalled ==> !s.signalFailed)
    && (s.master == StartClock ==> !s.timer.started)
  }

  /**
   What a running master leaves alone; only `Cancel`, `Stop` and the start of a clock change the rest of the timer.
   */
  predicate TimerFrame(s: State, s': State) {
    && s'.main == s.main && s'.terminate == s.terminate && s'.signalFailed == s.signalFailed && s'.master != StartClock
    && s'.timer.signalled == s.timer.signalled && s'.timer.started == s.timer.started
    && s'.timer.running == s.timer.running
  }

  lemma TickKeepsTimer(s: State, r: Wakeup)
    requires MasterTicking(s)
    ensures TimerFrame(s, TickStep(s, r))
  {
    TickStepFrame(s, r);
  }

  lemma WaitKeepsTimer(s: State, r: Wakeup)
    requires MasterAlive(s) && s.master != StartClock && !MasterTicking(s) && !s.master.NotifyTask?
    ensures TimerFrame(s, WaitStep(s, r))
  {
  }

  lemma NotifyKeepsTimer(s: State)
    requires s.master.NotifyTask? && s.master.i < |s.tasks|
    ensures TimerFrame(s, NotifyStep(s, s.master.i, s.master.counted))
  {
  }

  lemma MasterKeepsTimer(s: State, r: Wakeup)
    requires NotifyShape(s) && MasterAlive(s) && s.master != StartClock
    ensures TimerFrame(s, MasterStep(s, r))
  {
    if s.master.NotifyTask? {
      NotifyKeepsTimer(s);
    } else if MasterTicking(s) {
      TickKeepsTimer(s, r);
    } else {
      WaitKeepsTimer(s, r);
    }
  }

  lemma ControlKeepsSignal(s: State, ok: bool)
    requires ControlShape(s) && ClockShape(s) && SignalShape(s) && !s.main.StartTask? && !s.main.StopTask?
        && MainEnabled(s)
    ensures MainStarting(s) ==> SignalShape(StartControl(s, ok))
    ensures !MainStarting(s) ==> SignalShape(StopControl(s, ok))
  {
  }

  lemma TasksKeepSignal(s: State, ok: bool, semInitOk: bool)
    requires SignalShape(s) && (s.main.StartTask? || s.main.StopTask?)
    ensures SignalShape(MainStep(s, ok, semInitOk))
  {
  }

  lemma MainKeepsSignal(s: State, ok: bool, semInitOk: bool)
    requires Inv(s) && SignalShape(s) && MainEnabled(s)
    ensures SignalShape(MainStep(s, ok, semInitOk))
  {
    if s.main.StartTask? || s.main.StopTask? {
      TasksKeepSignal(s, ok, semInitOk);
    } else {
      ControlKeepsSignal(s, ok);
    }
  }

  lemma StepKeepsSignal(s: State, a: Action)
    requires Inv(s) && SignalShape(s) && Enabled(s, a)
    ensures SignalShape(Apply(s, a))
  {
    match a
    case MainMoves(ok, semInitOk) => MainKeepsSignal(s, ok, semInitOk);
    case MasterMoves(r) => if s.master != StartClock { MasterKeepsTimer(s, r); }
    case _ =>
  }

  lemma {:induction false} RunKeepsSignal(s: State, actions: seq<Action>, end: State)
    requires Inv(s) && SignalShape(s) && Runs(s, actions, end)
    ensures SignalShape(end)
    decreases |actions|
  {
    if actions != [] {
      StepKeepsInv(s, actions[0]);
      StepKeepsSignal(s, actions[0]);
      RunKeepsSignal(Apply(s, actions[0]), actions[1..], end);
    }
  }

  lemma ReachableSignal(s: State)
    requires Reachable(s)
    ensures SignalShape(s)
  {
    var actions :| Runs(Init(s.config), actions, s);
    RunKeepsSignal(Init(s.config), actions, s);
  }

  /**
   Once `Cancel` has returned, a master that waits with no expiration pending is blocked exactly when the write of the
   cancel event failed. A master anywhere else can always go on.
   */
  lemma CancelledMasterNotBlocked(s: State)
    requires Reachable(s) && s.main == JoinMaster
    ensures Blocked(s) <==> s.master == InEpoll && s.timer.pending == 0 && s.signalFailed
    ensures s.master == InEpoll && !s.signalFailed ==> MasterEnabled(s, Ready([CancelFd]))
    ensures MasterAlive(s) && s.master != InEpoll ==> forall r :: MasterEnabled(s, r)
  {
    ReachableInv(s);
    ReachableSignal(s);
  }

  /** A bound on the steps that the master can still take while it is being joined. */
  function MasterRank(s: State): nat {
    match s.master
    case NoThread => 0
    case Exited => 0
    case InEpoll => 2
    case Events(_) => 2
    case StartClock => 2
    case NotifyTask(i, counted) =>
      if i < |s.tasks| then
        1 + 3 * (|s.tasks| - i) - (if counted then if s.tasks[i].notify == AtPost then 2 else 1 else 0)
      else 1
    case _ => 1
  }

  /** Every step of the master while the main thread joins it brings its end nearer; no other step moves it away. */
  lemma JoinedMasterEnds(s: State, a: Action)
    requires Reachable(s) && s.main == JoinMaster && Enabled(s, a)
    ensures a.MasterMoves? ==> MasterRank(Apply(s, a)) < MasterRank(s)
    ensures !a.MasterMoves? && s.master != Exited
        ==> MasterRank(Apply(s, a)) == MasterRank(s) && Apply(s, a).main == JoinMaster
    ensures MasterRank(s) == 0 <==> s.master == Exited
  {
    ReachableInv(s);
    if a.MasterMoves? {
      JoinedMasterStep(s, a.result);
    } else if a.WorkerMoves? {
      WorkerKeepsRank(s, a.i, WorkerStep(s.tasks[a.i]));
    } else if a.WorkerWaitFails? {
      WorkerKeepsRank(s, a.i, WaitFails(s.tasks[a.i]));
    }
  }

  lemma JoinedMasterStep(s: State, r: Wakeup)
    requires Inv(s) && s.main == JoinMaster && MasterEnabled(s, r)
    ensures MasterRank(MasterStep(s, r)) < MasterRank(s)
  {
    if s.master.NotifyTask? {
      NotifyStepEffect(s, s.master.i, s.master.counted);
    } else if MasterTicking(s) {
      JoinedTickStep(s, r);
    } else {
      JoinedWaitStep(s, r);
    }
  }

  lemma JoinedTickStep(s: State, r: Wakeup)
    requires ClockShape(s) && s.main == JoinMaster && MasterTicking(s)
    ensures MasterRank(TickStep(s, r)) < MasterRank(s)
  {
    assert !s.timer.running && s.terminate;
  }

  lemma JoinedWaitStep(s: State, r: Wakeup)
    requires ClockShape(s) && s.main == JoinMaster && MasterAlive(s) && !MasterTicking(s) && !s.master.NotifyTask?
    ensures MasterRank(WaitStep(s, r)) < MasterRank(s)
  {
    assert s.master == WaitEntry || s.master == WaitLoop ==> !s.timer.running;
  }

  lemma WorkerKeepsRank(s: State, i: nat, t: Task)
    requires i < |s.tasks| && t.notify == s.tasks[i].notify
    ensures MasterRank(s.(tasks := s.tasks[i := t])) == MasterRank(s)
  {
  }

  function WorkerRank(t: Task): nat {
    match t.worker
    case InStep => 4
    case ClearFlag => 3
    case AtSemWait => 2
    case CheckTerminate => 1
    case _ => 0
  }

  /** A worker that is being joined can always take a step, and every step brings its end nearer. */
  lemma JoinedWorkerEnds(s: State)
    requires Reachable(s)
    requires s.main.StopTask? && s.main.pc == StopJoin
    ensures s.main.k < |s.tasks|
    ensures var t := s.tasks[s.main.k];
            t.WorkerAlive() ==> WorkerEnabled(t) && WorkerRank(WorkerStep(t)) < WorkerRank(t)
    ensures WorkerRank(s.tasks[s.main.k]) == 0 <==> MainEnabled(s)
  {
    ReachableInv(s);
    assert TaskOk(s.tasks[s.main.k]);
  }

  // ---- The running flag ----

  /** A finished stop leaves nothing behind but, possibly, the timer's running flag. */
  lemma FlagAfterStop(s: State)
    requires Reachable(s) && s.main == Idle
    ensures !s.timer.started && s.master == NoThread && !s.terminate && s.tasks == []
  {
    ReachableInv(s);
  }

  /** Every step up to the next state in which the scheduler is idle. */
  ghost predicate UntilIdle(s: State, actions: seq<Action>, end: State)
    decreases |actions|
  {
    if actions == [] then end == s
    else s.main != Idle && Enabled(s, actions[0]) && UntilIdle(Apply(s, actions[0]), actions[1..], end)
  }

  /** The main thread is past `Cancel` on its way to the end of a stop, or stops the workers of a failed start. */
  predicate Ending(s: State) {
    || AfterCancel(s) || s.main == StopTimer || s.main == ClearTerminate
    || (s.main.StopTask? && !s.main.rollback) || s.main == DeleteTasks || s.main == Idle
  }

  /** The next step of the master, which starts the clock, succeeds. */
  predicate ClockStarts(actions: seq<Action>) {
    actions != [] && if actions[0].MasterMoves? then !actions[0].result.Failed? else ClockStarts(actions[1..])
  }

  // What any step before the end of a stop does to the flag and to a clock start that is still to come.
  predicate FlagStep(s: State, a: Action, s': State) {
    && Ending(s') && (s'.master == StartClock ==> s.master == StartClock)
    && (s.master == StartClock && !a.MasterMoves? ==> s'.master == StartClock && s'.main != Idle)
    && (s.master == StartClock && a.MasterMoves? ==> s'.master != StartClock)
    && (s'.timer.running <==> if s.master == StartClock && a.MasterMoves? then !a.result.Failed? else s.timer.running)
  }

  lemma EndingControl(s: State, ok: bool)
    requires ControlShape(s) && ClockShape(s) && Ending(s) && s.main != Idle && !s.main.StopTask? && MainEnabled(s)
    ensures FlagStep(s, MainMoves(ok, ok), StopControl(s, ok))
  {
  }

  lemma EndingTasks(s: State, ok: bool)
    requires s.main.StopTask? && !s.main.rollback && s.main.k < |s.tasks| && !MasterAlive(s)
    ensures FlagStep(s, MainMoves(ok, ok), StopTaskStep(s, s.main.k, s.main.pc, false, ok))
  {
  }

  lemma EndingClock(s: State, r: Wakeup)
    requires ClockShape(s) && SignalShape(s) && Ending(s) && s.master == StartClock
    ensures FlagStep(s, MasterMoves(r), WaitStep(s, r))
  {
  }

  lemma EndingStep(s: State, a: Action)
    requires Inv(s) && SignalShape(s) && Ending(s) && s.main != Idle && Enabled(s, a)
    ensures FlagStep(s, a, Apply(s, a))
  {
    match a
    case MainMoves(ok, _) =>
      if s.main.StopTask? {
        EndingTasks(s, ok);
      } else {
        EndingControl(s, ok);
      }
    case MasterMoves(r) =>
      if s.master == StartClock {
        EndingClock(s, r);
      } else {
        MasterKeepsTimer(s, r);
      }
    case _ =>
  }

  // An idle scheduler has no master, so the flag is what it is.
  lemma IdleFlag(s: State)
    requires MainShape(s) && s.main == Idle
    ensures s.master == NoThread
  {
  }

  /** The flag at the end of a stop is decided by the clock start that is still to come, if there is one. */
  lemma {:induction false} FlagRun(s: State, actions: seq<Action>, end: State)
    requires Inv(s) && SignalShape(s) && Ending(s) && UntilIdle(s, actions, end) && end.main == Idle
    ensures end.timer.running <==> if s.master == StartClock then ClockStarts(actions) else s.timer.running
    decreases |actions|
  {
    if actions == [] {
      IdleFlag(s);
    } else {
      var a := actions[0];
      StepKeepsInv(s, a);
      StepKeepsSignal(s, a);
      EndingStep(s, a);
      FlagRun(Apply(s, a), actions[1..], end);
    }
  }

  /**
   For every stop, seen from the moment at which it cancels the clock: whatever happens until the scheduler is idle,
   the running flag is left set if and only if at that moment the master has not yet started its clock, and that
   start then succeeds.
   */
  lemma FlagExactly(s: State, ok: bool, semInitOk: bool, actions: seq<Action>, end: State)
    requires Reachable(s) && s.main == CancelRunning
    requires UntilIdle(MainStep(s, ok, semInitOk), actions, end) && end.main == Idle
    ensures end.timer.running <==> s.master == StartClock && ClockStarts(actions)
  {
    ReachableInv(s);
    ReachableSignal(s);
    var cancel := MainMoves(ok, semInitOk);
    StepKeepsInv(s, cancel);
    StepKeepsSignal(s, cancel);
    FlagRun(Apply(s, cancel), actions, end);
  }

  /** No round of notifications begins: the clock is not started, or only so late that the master ends at once. */
  predicate Silent(s: State) {
    && (!s.clocked ==> s.master == NoThread || s.master == StartClock || s.master == Exited)
    && (s.clocked ==> s.tally.rounds == 0 && ((s.master == LoopCheck && s.terminate) || s.master == Exited))
    && (!Ending(s) ==> s.timer.running && !s.clocked)
  }

  lemma SilentControl(s: State, ok: bool)
    requires ControlShape(s) && ClockShape(s) && Silent(s) && !s.main.StartTask? && !s.main.StopTask? && MainEnabled(s)
    requires s.main == Idle ==> s.timer.running
    ensures MainStarting(s) ==> Silent(StartControl(s, ok))
    ensures !MainStarting(s) ==> Silent(StopControl(s, ok))
  {
  }

  lemma SilentTasks(s: State, ok: bool, semInitOk: bool)
    requires MainShape(s) && Silent(s) && (s.main.StartTask? || s.main.StopTask?)
    ensures Silent(MainStep(s, ok, semInitOk))
  {
  }

  lemma SilentMain(s: State, ok: bool, semInitOk: bool)
    requires Inv(s) && Silent(s) && MainEnabled(s) && (s.main == Idle ==> s.timer.running)
    ensures Silent(MainStep(s, ok, semInitOk))
  {
    if s.main.StartTask? || s.main.StopTask? {
      SilentTasks(s, ok, semInitOk);
    } else {
      SilentControl(s, ok);
    }
  }

  lemma SilentMaster(s: State, r: Wakeup)
    requires ClockShape(s) && Silent(s) && MasterAlive(s)
    ensures Silent(MasterStep(s, r))
  {
  }

  lemma SilentStep(s: State, a: Action)
    requires Inv(s) && Silent(s) && s.main != Idle && Enabled(s, a)
    ensures Silent(Apply(s, a))
  {
    match a
    case MainMoves(ok, semInitOk) => SilentMain(s, ok, semInitOk);
    case MasterMoves(r) => SilentMaster(s, r);
    case _ =>
  }

  lemma {:induction false} SilentRun(s: State, actions: seq<Action>, end: State)
    requires Inv(s) && Silent(s) && UntilIdle(s, actions, end)
    ensures Inv(end) && Silent(end)
    decreases |actions|
  {
    if actions != [] {
      StepKeepsInv(s, actions[0]);
      SilentStep(s, actions[0]);
      SilentRun(Apply(s, actions[0]), actions[1..], end);
    }
  }

  /**
   With the flag left set, the whole next start delivers no tick: from the idle state to the next one, the master is
   never in a notification, no round begins, and no task is ever notified.
   */
  lemma StaleFlagSilencesStart(s: State, ok: bool, semInitOk: bool, actions: seq<Action>, end: State)
    requires Reachable(s) && s.main == Idle && s.timer.running
    requires UntilIdle(MainStep(s, ok, semInitOk), actions, end)
    ensures !end.master.NotifyTask? && (end.clocked ==> end.tally.rounds == 0)
    ensures forall i :: 0 <= i < |end.tasks| ==> end.tasks[i].notified == 0
  {
    ReachableInv(s);
    StepKeepsInv(s, MainMoves(ok, semInitOk));
    SilentMain(s, ok, semInitOk);
    SilentRun(MainStep(s, ok, semInitOk), actions, end);
  }

  // ---- Two runs that show why the conditions above are needed ----

  const ONE_TASK := [Timing(1, 0)]

  function OneTask(t: Task, main: MainPc, master: MasterPc, terminate: bool, timer: Timer): State {
    State(ONE_TASK, [t], main, master, terminate, timer, Tally(0, 0, 0, 0), false, false, false)
  }

  const UP := FreshTask(Timing(1, 0), true)
  const IDLE_TIMER := Timer(false, false, false, 0, 0, 0)
  const NO_WAKEUP := Ready([])

  lemma StartsUp()
    ensures Reachable(OneTask(UP, Started, StartClock, false, IDLE_TIMER))
  {
    var s0 := Init(ONE_TASK);
    assert Runs(s0, [], s0);
    var s1 := s0.(main := StartTask(0, true));
    Extend(s0, MainMoves(true, true), s1);
    var s2 := OneTask(UP, SpawnMaster, NoThread, false, IDLE_TIMER);
    assert [] + [UP] == [UP];
    Extend(s1, MainMoves(true, true), s2);
    var s3 := s2.(main := RaisePriority, master := StartClock);
    Extend(s2, MainMoves(true, true), s3);
    Extend(s3, MainMoves(true, true), s3.(main := Started));
  }

  /**
   A stop that begins before the master has started its clock ends with the running flag set: `Cancel` finds
   nothing to cancel, then the clock starts, and `Stop` closes the timer without clearing the flag.
   */
  lemma EarlyStopLeavesFlag()
    ensures exists s :: Reachable(s) && s.main == Idle && s.timer.running
  {
    StopsEarly();
    var s4 := OneTask(UP, JoinMaster, LoopCheck, true, RUNNING_TIMER).(clocked := true, lateClock := true);
    Extend(s4, MasterMoves(NO_WAKEUP), s4.(master := Exited));
    var s6 := s4.(master := Exited, main := StopTimer);
    Extend(s4.(master := Exited), MainMoves(true, true), s6);
    var s7 := s6.(main := ClearTerminate, timer := IDLE_TIMER.(running := true));
    Extend(s6, MainMoves(true, true), s7);
    var s8 := s7.(main := StopTask(0, StopSetTerminate, false), terminate := false);
    Extend(s7, MainMoves(true, true), s8);
    StopsToIdle(s8);
  }

  lemma StopsEarly()
    ensures Reachable(OneTask(UP, JoinMaster, LoopCheck, true, RUNNING_TIMER).(clocked := true, lateClock := true))
  {
    StartsUp();
    var s0 := OneTask(UP, Started, StartClock, false, IDLE_TIMER);
    Extend(s0, MainMoves(true, true), s0.(main := SetTerminate));
    var s2 := s0.(main := CancelRunning, terminate := true);
    Extend(s0.(main := SetTerminate), MainMoves(true, true), s2);
    Extend(s2, MainMoves(true, true), s2.(main := JoinMaster));
    Extend(s2.(main := JoinMaster), MasterMoves(NO_WAKEUP),
           OneTask(UP, JoinMaster, LoopCheck, true, RUNNING_TIMER).(clocked := true, lateClock := true));
  }

  lemma StopMove(s: State, t: Task, pc: StopPc)
    requires Reachable(s) && s.tasks == [t] && s.main == StopTask(0, pc, false) && StopEnabled(t, pc)
    ensures Reachable(s.(tasks := [StopStep(t, pc, true)], main := NextStop(s, 0, pc, false)))
  {
    var s' := s.(tasks := [StopStep(t, pc, true)], main := NextStop(s, 0, pc, false));
    assert s.tasks[0 := StopStep(t, pc, true)] == [StopStep(t, pc, true)];
    Extend(s, MainMoves(true, true), s');
  }

  lemma WorkerMove(s: State, t: Task)
    requires Reachable(s) && s.tasks == [t] && WorkerEnabled(t)
    ensures Reachable(s.(tasks := [WorkerStep(t)]))
  {
    assert s.tasks[0 := WorkerStep(t)] == [WorkerStep(t)];
    Extend(s, WorkerMoves(0), s.(tasks := [WorkerStep(t)]));
  }

  /** The stop of the only task, from a state in which its worker waits. */
  lemma StopsToIdle(s: State)
    requires Reachable(s) && s.tasks == [UP] && s.main == StopTask(0, StopSetTerminate, false)
    ensures exists e :: Reachable(e) && e.main == Idle && e.timer == s.timer
  {
    var t1 := UP.(terminate := true);
    StopMove(s, UP, StopSetTerminate);
    var t2 := t1.(stopPosted := true, semaphore := 1);
    StopMove(s.(tasks := [t1], main := StopTask(0, StopPost, false)), t1, StopPost);
    var s2 := s.(tasks := [t2], main := StopTask(0, StopJoin, false));
    JoinsAndClears(s2, t2);
  }

  lemma JoinsAndClears(s: State, t: Task)
    requires Reachable(s) && s.tasks == [t] && s.main == StopTask(0, StopJoin, false)
    requires t.worker == AtSemWait && t.semaphore > 0 && t.terminate && t.started
    ensures exists e :: Reachable(e) && e.main == Idle && e.timer == s.timer
  {
    var t3 := t.(semaphore := t.semaphore - 1, worker := CheckTerminate);
    WorkerMove(s, t);
    var t4 := t3.(worker := WorkerExited);
    WorkerMove(s.(tasks := [t3]), t3);
    Clears(s.(tasks := [t4]), t4);
  }

  lemma Clears(s: State, t: Task)
    requires Reachable(s) && s.tasks == [t] && s.main == StopTask(0, StopJoin, false) && t.worker == WorkerExited
    ensures Reachable(s.(tasks := [], clocked := false, master := NoThread, main := Idle))
  {
    StopMove(s, t, StopJoin);
    var t5 := t.(started := false);
    var s5 := s.(tasks := [t5], main := StopTask(0, StopClear, false));
    StopMove(s5, t5, StopClear);
    var s6 := s.(tasks := [t5.(terminate := false)], main := DeleteTasks);
    Deletes(s6);
  }

  lemma Deletes(s: State)
    requires Reachable(s) && s.main == DeleteTasks
    ensures Reachable(s.(tasks := [], clocked := false, master := NoThread, main := Idle))
  {
    Extend(s, MainMoves(true, true), s.(tasks := [], clocked := false, master := NoThread, main := Idle));
  }

  const RUNNING_TIMER := Timer(true, true, false, 0, 0, 0)

  lemma WaitsForTick()
    ensures Reachable(OneTask(UP, Started, InEpoll, false, RUNNING_TIMER).(clocked := true))
  {
    StartsUp();
    var s0 := OneTask(UP, Started, StartClock, false, IDLE_TIMER);
    var s1 := OneTask(UP, Started, LoopCheck, false, RUNNING_TIMER).(clocked := true);
    Extend(s0, MasterMoves(NO_WAKEUP), s1);
    Extend(s1, MasterMoves(NO_WAKEUP), s1.(master := WaitEntry));
    Extend(s1.(master := WaitEntry), MasterMoves(NO_WAKEUP), s1.(master := WaitLoop));
    Extend(s1.(master := WaitLoop), MasterMoves(NO_WAKEUP), s1.(master := InEpoll));
  }

  /** When the write of the cancel event fails, the joined master can be left blocked until the timer expires. */
  lemma FailedSignalCanBlock()
    ensures exists s :: Reachable(s) && s.main == JoinMaster && Blocked(s)
  {
    WaitsForTick();
    var s2 := OneTask(UP, Started, InEpoll, false, RUNNING_TIMER).(clocked := true);
    Extend(s2, MainMoves(true, true), s2.(main := SetTerminate));
    var s4 := s2.(main := CancelRunning, terminate := true);
    Extend(s2.(main := SetTerminate), MainMoves(true, true), s4);
    var s5 := s4.(main := SignalCancel, timer := RUNNING_TIMER.(running := false));
    Extend(s4, MainMoves(true, true), s5);
    Extend(s5, MainMoves(false, true), s5.(main := JoinMaster, signalFailed := true));
    assert Blocked(s5.(main := JoinMaster, signalFailed := true));
  }
}

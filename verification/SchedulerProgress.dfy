/**
 That things happen: a tick that has expired reaches every task, and a job that has been queued is run. Nothing here
 depends on an order of the threads; other threads may move in between.
 */
module SchedulerProgress {
  import opened PeriodicTasks
  import opened Scheduler
  import opened SchedulerTheorems

  // ---- The master delivers ticks ----

  /** The master is on its way from an expiration to the notification of the last task. */
  predicate InRound(s: State) {
    match s.master
    case WaitEntry => s.timer.pending > 0
    case WaitLoop => s.timer.pending > 0
    case InEpoll => s.timer.pending > 0
    case AfterEpoll(result) => result.Ready? && result.fds != [] && CancelFd !in result.fds
    case Events(fds) => fds != [] && CancelFd !in fds
    case AfterRead(outcome, _) => outcome.Ready?
    case TickReturned => true
    case NotifyTask(_, _) => true
    case _ => false
  }

  /** The round of notifications is still to begin. */
  predicate RoundToCome(s: State) { InRound(s) && !s.master.NotifyTask? }

  /** A bound on the steps to the end of the round. */
  function RoundRank(s: State): nat {
    match s.master
    case WaitEntry => 8 + 3 * |s.tasks|
    case WaitLoop => 7 + 3 * |s.tasks|
    case InEpoll => 6 + 3 * |s.tasks|
    case AfterEpoll(_) => 5 + 3 * |s.tasks|
    case Events(_) => 4 + 3 * |s.tasks|
    case AfterRead(_, _) => 3 + 3 * |s.tasks|
    case TickReturned => 2 + 3 * |s.tasks|
    case NotifyTask(i, counted) =>
      if i < |s.tasks| then
        1 + 3 * (|s.tasks| - i) - (if counted then if s.tasks[i].notify == AtPost then 2 else 1 else 0)
      else 1
    case _ => 0
  }

  // What a step of the master does to its round while the scheduler runs and its calls succeed.
  predicate RoundStep(s: State, s': State) {
    && (InRound(s') || s'.master == LoopCheck)
    && RoundRank(s') < RoundRank(s)
    && s'.tally.rounds + B(RoundToCome(s')) == s.tally.rounds + B(RoundToCome(s))
    && s'.tally.discarded == s.tally.discarded
  }

  lemma RoundWaits(s: State, r: Wakeup)
    requires ClockShape(s) && SignalShape(s) && s.main == Started && InRound(s) && MasterEnabled(s, r) && r.Ready?
    requires s.master == WaitEntry || s.master == WaitLoop || s.master == InEpoll
    ensures RoundStep(s, WaitStep(s, r))
  {
  }

  lemma RoundTicks(s: State, r: Wakeup)
    requires ClockShape(s) && ControlShape(s) && |s.config| > 0 && s.main == Started
    requires InRound(s) && MasterTicking(s) && r.Ready?
    ensures RoundStep(s, TickStep(s, r))
  {
    assert s.timer.running && !s.terminate;
    match s.master
    case AfterEpoll(result) => assert RoundStep(s, EpollReturned(s, result));
    case Events(fds) =>
      assert fds[0] in fds;
      assert RoundStep(s, NextEvent(s, fds, r));
    case AfterRead(outcome, rest) => assert RoundStep(s, ReadReturned(s, outcome, rest));
    case TickReturned => assert RoundStep(s, BeginRound(s));
  }

  lemma RoundNotifies(s: State)
    requires NotifyShape(s) && s.master.NotifyTask?
    ensures RoundStep(s, NotifyStep(s, s.master.i, s.master.counted))
  {
    NotifyStepEffect(s, s.master.i, s.master.counted);
  }

  lemma RoundMasterStep(s: State, r: Wakeup)
    requires Inv(s) && SignalShape(s) && s.main == Started && InRound(s) && MasterEnabled(s, r) && r.Ready?
    ensures RoundStep(s, MasterStep(s, r)) && MasterStep(s, r).main == Started
  {
    if s.master.NotifyTask? {
      RoundNotifies(s);
    } else if MasterTicking(s) {
      RoundTicks(s, r);
      TickStepFrame(s, r);
    } else {
      RoundWaits(s, r);
    }
  }

  // Neither a worker nor an expiration touches the round.
  lemma OthersKeepRound(s: State, a: Action)
    requires InRound(s) && Enabled(s, a) && !a.MasterMoves? && !a.MainMoves?
    ensures var s' := Apply(s, a);
            && InRound(s') && RoundRank(s') == RoundRank(s) && s'.main == s.main
            && s'.tally == s.tally && (RoundToCome(s') <==> RoundToCome(s))
  {
  }

  /**
   A run, up to the end of the round, of the master with calls that succeed, all workers and the timer, while the main
   thread leaves the scheduler started.
   */
  ghost predicate RoundRun(s: State, actions: seq<Action>, end: State)
    decreases |actions|
  {
    if actions == [] then end == s
    else
      && s.master != LoopCheck && Enabled(s, actions[0])
      && !actions[0].MainMoves? && (actions[0].MasterMoves? ==> actions[0].result.Ready?)
      && RoundRun(Apply(s, actions[0]), actions[1..], end)
  }

  function MasterSteps(actions: seq<Action>): nat {
    if actions == [] then 0 else B(actions[0].MasterMoves?) + MasterSteps(actions[1..])
  }

  lemma {:induction false} RoundBound(s: State, actions: seq<Action>, end: State)
    requires Inv(s) && SignalShape(s) && s.main == Started && (InRound(s) || s.master == LoopCheck)
    requires RoundRun(s, actions, end)
    ensures Inv(end) && SignalShape(end) && end.main == Started && (InRound(end) || end.master == LoopCheck)
    ensures MasterSteps(actions) + RoundRank(end) <= RoundRank(s)
    ensures end.tally.rounds + B(RoundToCome(end)) == s.tally.rounds + B(RoundToCome(s))
    decreases |actions|
  {
    if actions != [] {
      var a := actions[0];
      StepKeepsInv(s, a);
      StepKeepsSignal(s, a);
      if a.MasterMoves? {
        RoundMasterStep(s, a.result);
      } else {
        OthersKeepRound(s, a);
      }
      RoundBound(Apply(s, a), actions[1..], end);
    }
  }

  /**
   Every expired tick is delivered: while the scheduler runs and the calls of the master succeed, a master that waits
   with an expiration pending is back at the top of its loop within its rank of steps, whatever the other threads do.
   Then exactly one round has been added, and every task has been notified exactly once more. Before that the master
   always has a step.
   */
  lemma TickIsDelivered(s: State, actions: seq<Action>, end: State)
    requires Reachable(s) && s.main == Started && s.master == InEpoll && s.timer.pending > 0
    requires RoundRun(s, actions, end)
    ensures MasterSteps(actions) + RoundRank(end) <= 6 + 3 * |s.config|
    ensures end.master != LoopCheck ==> MasterEnabled(end, Ready([TimerFd]))
    ensures end.master == LoopCheck ==>
              && end.tally.rounds == s.tally.rounds + 1 && |end.tasks| == |s.tasks| == |s.config|
              && forall i :: 0 <= i < |s.tasks| ==> end.tasks[i].notified == s.tasks[i].notified + 1
  {
    ReachableInv(s);
    ReachableSignal(s);
    RoundBound(s, actions, end);
    RoundRunConfig(s, actions, end);
    RoundCounts(s);
    if end.master == LoopCheck { RoundCounts(end); }
  }

  lemma {:induction false} RoundRunConfig(s: State, actions: seq<Action>, end: State)
    requires Inv(s) && RoundRun(s, actions, end)
    ensures end.config == s.config
    decreases |actions|
  {
    if actions != [] {
      StepKeepsInv(s, actions[0]);
      StepKeepsConfig(s, actions[0]);
      RoundRunConfig(Apply(s, actions[0]), actions[1..], end);
    }
  }

  lemma StepKeepsConfig(s: State, a: Action)
    requires Inv(s) && Enabled(s, a) && !a.MainMoves?
    ensures Apply(s, a).config == s.config
  {
    if a.MasterMoves? && MasterTicking(s) { TickStepFrame(s, a.result); }
  }

  // Outside a round every task has been notified in all rounds.
  lemma RoundCounts(s: State)
    requires Inv(s) && s.main == Started && MasterAlive(s) && s.master != StartClock && !s.master.NotifyTask?
    ensures |s.tasks| == |s.config| && forall i :: 0 <= i < |s.tasks| ==> s.tasks[i].notified == s.tally.rounds
  {
  }

  /**
   From the top of the loop of a running scheduler the master waits again after three steps, and nothing else changes.
   */
  lemma MasterWaitsAgain(s: State, r: Wakeup)
    requires Reachable(s) && s.main == Started && s.master == LoopCheck
    ensures MasterStep(MasterStep(MasterStep(s, r), r), r) == s.(master := InEpoll)
  {
    ReachableInv(s);
  }

  /** So it does when a signal interrupts its wait or its read, within the same call. */
  lemma InterruptedWaitsAgain(s: State, r: Wakeup)
    requires Reachable(s) && s.main == Started
    ensures s.master == AfterEpoll(Interrupted) ==> MasterStep(MasterStep(s, r), r) == s.(master := InEpoll)
    ensures s.master == AfterRead(Interrupted, [])
        ==> MasterStep(MasterStep(MasterStep(s, r), r), r) == s.(master := InEpoll)
  {
    ReachableInv(s);
    if s.master == AfterEpoll(Interrupted) {
      WaitsAgain(s, r);
    } else if s.master == AfterRead(Interrupted, []) {
      WaitsAgain(s.(master := Events([])), r);
    }
  }

  lemma WaitsAgain(s: State, r: Wakeup)
    requires s.timer.running && (s.master == AfterEpoll(Interrupted) || s.master == Events([]))
    ensures MasterStep(MasterStep(s, r), r) == s.(master := InEpoll)
  {
  }

  /** A cancel event ends the master at once, even when a tick is reported behind it. */
  lemma CancelEventEnds(s: State, rest: seq<Fd>, r: Wakeup)
    requires s.master == Events([CancelFd] + rest)
    ensures MasterStep(s, r) == s.(master := Exited)
  {
  }

  /** No event before the cancellation is the cancel event. */
  predicate NoCancelEvent(s: State) {
    BeforeCancel(s) ==>
      && (s.master.AfterEpoll? && s.master.result.Ready? ==> CancelFd !in s.master.result.fds)
      && (s.master.Events? ==> CancelFd !in s.master.fds)
      && (s.master.AfterRead? ==> CancelFd !in s.master.rest)
  }

  /** No tick is discarded before the stop has set its flag. */
  predicate NothingDiscarded(s: State) {
    s.clocked && (s.main == RaisePriority || s.main == Started || s.main == SetTerminate) ==> s.tally.discarded == 0
  }

  lemma MainKeepsEvents(s: State, ok: bool, semInitOk: bool)
    requires Inv(s) && NoCancelEvent(s) && NothingDiscarded(s) && MainEnabled(s)
    ensures NoCancelEvent(MainStep(s, ok, semInitOk)) && NothingDiscarded(MainStep(s, ok, semInitOk))
  {
    if s.main.StartTask? || s.main.StopTask? {
      TasksMoveOn(s, ok, semInitOk);
    } else {
      ControlMovesOn(s, ok);
    }
  }

  lemma TasksMoveOn(s: State, ok: bool, semInitOk: bool)
    requires MainShape(s) && (s.main.StartTask? || s.main.StopTask?)
    ensures !BeforeCancel(MainStep(s, ok, semInitOk))
  {
  }

  lemma ControlMovesOn(s: State, ok: bool)
    requires ControlShape(s) && NoCancelEvent(s) && NothingDiscarded(s) && !s.main.StartTask? && !s.main.StopTask?
    ensures MainStarting(s) ==> NoCancelEvent(StartControl(s, ok)) && NothingDiscarded(StartControl(s, ok))
    ensures !MainStarting(s) ==> NoCancelEvent(StopControl(s, ok)) && NothingDiscarded(StopControl(s, ok))
  {
  }

  lemma TicksKeepEvents(s: State, r: Wakeup)
    requires ClockShape(s) && NoCancelEvent(s) && NothingDiscarded(s) && MasterTicking(s)
    ensures NoCancelEvent(TickStep(s, r)) && NothingDiscarded(TickStep(s, r))
  {
    match s.master
    case AfterEpoll(result) => TickPartsKeepEvents(s, result, []);
    case Events(fds) => NextEventKeepsNoCancel(s, fds, r);
    case AfterRead(outcome, rest) => TickPartsKeepEvents(s, outcome, rest);
    case TickReturned => TickPartsKeepEvents(s, r, []);
  }

  lemma TickPartsKeepEvents(s: State, result: Wakeup, rest: seq<Fd>)
    requires ClockShape(s) && NoCancelEvent(s) && NothingDiscarded(s)
    ensures s.master == AfterEpoll(result) ==>
              NoCancelEvent(EpollReturned(s, result)) && NothingDiscarded(EpollReturned(s, result))
    ensures s.master == AfterRead(result, rest) ==>
              NoCancelEvent(ReadReturned(s, result, rest)) && NothingDiscarded(ReadReturned(s, result, rest))
    ensures s.master == TickReturned ==> NoCancelEvent(BeginRound(s)) && NothingDiscarded(BeginRound(s))
  {
  }

  lemma NextEventKeepsNoCancel(s: State, fds: seq<Fd>, r: Wakeup)
    requires NoCancelEvent(s) && NothingDiscarded(s) && s.master == Events(fds)
    ensures NoCancelEvent(NextEvent(s, fds, r)) && NothingDiscarded(NextEvent(s, fds, r))
  {
  }

  lemma WaitsKeepEvents(s: State, r: Wakeup)
    requires ClockShape(s) && SignalShape(s) && NoCancelEvent(s) && NothingDiscarded(s) && MasterEnabled(s, r)
    requires !MasterTicking(s) && !s.master.NotifyTask?
    ensures NoCancelEvent(WaitStep(s, r)) && NothingDiscarded(WaitStep(s, r))
  {
  }

  lemma StepKeepsEvents(s: State, a: Action)
    requires Inv(s) && SignalShape(s) && NoCancelEvent(s) && NothingDiscarded(s) && Enabled(s, a)
    ensures NoCancelEvent(Apply(s, a)) && NothingDiscarded(Apply(s, a))
  {
    match a
    case MainMoves(ok, semInitOk) => MainKeepsEvents(s, ok, semInitOk);
    case MasterMoves(r) =>
      if s.master.NotifyTask? {
        NotifyStepEffect(s, s.master.i, s.master.counted);
      } else if MasterTicking(s) {
        TicksKeepEvents(s, r);
      } else {
        WaitsKeepEvents(s, r);
      }
    case _ =>
  }

  lemma {:induction false} RunKeepsEvents(s: State, actions: seq<Action>, end: State)
    requires Inv(s) && SignalShape(s) && NoCancelEvent(s) && NothingDiscarded(s) && Runs(s, actions, end)
    ensures NoCancelEvent(end) && NothingDiscarded(end)
    decreases |actions|
  {
    if actions != [] {
      StepKeepsInv(s, actions[0]);
      StepKeepsSignal(s, actions[0]);
      StepKeepsEvents(s, actions[0]);
      RunKeepsEvents(Apply(s, actions[0]), actions[1..], end);
    }
  }

  /**
   Before a stop sets its flag, no tick that was read is ever discarded, and a clocked master leaves its loop only
   because a wait or a read failed.
   */
  lemma RunningMasterStays(s: State, r: Wakeup)
    requires Reachable(s) && s.clocked && (s.main == RaisePriority || s.main == Started || s.main == SetTerminate)
    ensures s.tally.discarded == 0
    ensures MasterEnabled(s, r) && MasterStep(s, r).master == Exited ==>
              (s.master.AfterEpoll? && s.master.result.Failed?) || (s.master.AfterRead? && s.master.outcome.Failed?)
  {
    var actions :| Runs(Init(s.config), actions, s);
    RunKeepsEvents(Init(s.config), actions, s);
    ReachableInv(s);
    if MasterEnabled(s, r) && MasterStep(s, r).master == Exited { OnlyFailuresEnd(s, r); }
  }

  lemma OnlyFailuresEnd(s: State, r: Wakeup)
    requires NotifyShape(s) && ClockShape(s) && NoCancelEvent(s) && s.clocked
    requires BeforeCancel(s) && s.main != CancelRunning && MasterEnabled(s, r) && MasterStep(s, r).master == Exited
    ensures (s.master.AfterEpoll? && s.master.result.Failed?) || (s.master.AfterRead? && s.master.outcome.Failed?)
  {
    if s.master.NotifyTask? {
      NotifyStepEffect(s, s.master.i, s.master.counted);
    } else if MasterTicking(s) {
      TicksStay(s, r);
    }
  }

  lemma TicksStay(s: State, r: Wakeup)
    requires s.timer.running && !s.terminate && MasterTicking(s) && NoCancelEvent(s) && BeforeCancel(s)
    ensures TickStep(s, r).master == Exited ==>
              (s.master.AfterEpoll? && s.master.result.Failed?) || (s.master.AfterRead? && s.master.outcome.Failed?)
  {
  }

  /** A read of the timer takes all expirations; all but one are counted as lost, as one overload. */
  lemma ReadTakesAll(s: State, rest: seq<Fd>)
    requires Reachable(s) && s.master == Events([TimerFd] + rest)
    ensures var s' := MasterStep(s, Ready([]));
            && s'.master == AfterRead(Ready([]), rest) && s'.timer.pending == 0
            && s'.tally.read == s.tally.read + s.timer.pending && s'.tally.ticks == s.tally.ticks + 1
            && s'.timer.lost + 1 == s.timer.lost + s.timer.pending
            && s'.timer.cpuOverloads == s.timer.cpuOverloads + B(s.timer.pending > 1)
  {
    ReachableInv(s);
    assert TimerFd in [TimerFd] + rest;
    assert ([TimerFd] + rest)[1..] == rest;
  }

  function Expirations(actions: seq<Action>): nat {
    if actions == [] then 0 else B(actions[0].TimerExpires?) + Expirations(actions[1..])
  }

  lemma StepCountsExpirations(s: State, a: Action)
    requires Reachable(s) && s.main == Started && s.clocked && Enabled(s, a) && !a.MainMoves?
    ensures var s' := Apply(s, a);
            && s'.main == Started && s'.clocked && s'.config == s.config
            && s'.tally.read + s'.timer.pending == s.tally.read + s.timer.pending + B(a.TimerExpires?)
  {
    assert s.master != StartClock by { ReachableInv(s); }
    if a.MasterMoves? {
      if MasterTicking(s) { TickCountsExpirations(s, a.result); } else { OthersCountExpirations(s, a.result); }
    }
  }

  lemma TickCountsExpirations(s: State, r: Wakeup)
    requires MasterTicking(s)
    ensures var s' := TickStep(s, r);
            && s'.main == s.main && s'.clocked == s.clocked && s'.config == s.config
            && s'.tally.read + s'.timer.pending == s.tally.read + s.timer.pending
  {
    TickStepFrame(s, r);
    match s.master
    case AfterEpoll(result) => assert EpollReturned(s, result).(master := s.master) == s;
    case Events(fds) =>
    case AfterRead(outcome, rest) => assert ReadReturned(s, outcome, rest).timer == s.timer;
    case TickReturned => assert BeginRound(s).timer == s.timer;
  }

  lemma OthersCountExpirations(s: State, r: Wakeup)
    requires !MasterTicking(s) && s.master != StartClock
    ensures var s' := MasterStep(s, r);
            && s'.main == s.main && s'.clocked == s.clocked && s'.config == s.config
            && s'.tally == s.tally && s'.timer == s.timer
  {
  }

  /**
   No expiration is lost or invented: over any run of a scheduler whose clock runs, the expirations read and those still
   pending grow together by exactly one for each time that the timer expires.
   */
  lemma {:induction false} ExpirationsAccounted(s: State, actions: seq<Action>, end: State)
    requires Reachable(s) && s.main == Started && s.clocked && Runs(s, actions, end)
    requires forall i :: 0 <= i < |actions| ==> !actions[i].MainMoves?
    ensures end.tally.read + end.timer.pending == s.tally.read + s.timer.pending + Expirations(actions)
    decreases |actions|
  {
    if actions != [] {
      var a := actions[0];
      StepCountsExpirations(s, a);
      Extend(s, a, Apply(s, a));
      ExpirationsAccounted(Apply(s, a), actions[1..], end);
    }
  }

  // ---- The workers run jobs ----

  /**
   Where the worker is in its round of four steps; the completed jobs already count the one whose flag is cleared last.
   */
  function Place(t: Task): int {
    match t.worker
    case CheckTerminate => 1
    case InStep => 2
    case ClearFlag => -1
    case _ => 0
  }

  function Progress(t: Task): int { 4 * t.completed + Place(t) }

  /** A queued job is run: four steps of the worker complete it, clear the flag and lead back to the wait. */
  lemma FourStepsCompleteAJob(t: Task)
    requires TaskOk(t) && t.worker == AtSemWait && t.semaphore > 0 && !t.terminate
    ensures var t1 := WorkerStep(t);
            && WorkerEnabled(t1) && WorkerEnabled(WorkerStep(t1)) && WorkerEnabled(WorkerStep(WorkerStep(t1)))
            && WorkerStep(WorkerStep(WorkerStep(t1)))
               == t.(semaphore := t.semaphore - 1, completed := t.completed + 1, pendingOrRunning := false)
  {
  }

  /** Before its stop a worker leaves its loop through a wait that fails, and in no other way. */
  lemma RunningWorkerStays(s: State, a: Action, i: nat)
    requires Reachable(s) && Enabled(s, a) && i < |s.tasks| && s.tasks[i].WorkerAlive() && !s.tasks[i].terminate
    requires i < |Apply(s, a).tasks|
    ensures Apply(s, a).tasks[i].worker == WorkerExited <==> a == WorkerWaitFails(i)
    ensures Apply(s, a).tasks[i].worker != NotSpawned
  {
    ReachableInv(s);
    match a
    case MainMoves(ok, semInitOk) => MainKeepsWorker(s, ok, semInitOk, i);
    case MasterMoves(r) => MasterKeepsProgress(s, r, i);
    case _ =>
  }

  lemma MainKeepsWorker(s: State, ok: bool, semInitOk: bool, i: nat)
    requires MainShape(s) && i < |s.tasks| && i < |MainStep(s, ok, semInitOk).tasks|
    ensures MainStep(s, ok, semInitOk).tasks[i].worker == s.tasks[i].worker
  {
    if !s.main.StartTask? && !s.main.StopTask? { ControlFrame(s, ok); }
  }

  /** While the scheduler is started, a job in flight that has been posted gives its worker a step. */
  lemma JobGivesAStep(s: State, i: nat)
    requires Reachable(s) && i < |s.tasks| && s.main == Started
    requires s.tasks[i].JobInFlight() && s.tasks[i].notify != AtPost && s.tasks[i].worker != WorkerExited
    ensures WorkerEnabled(s.tasks[i])
  {
    ReachableInv(s);
    assert TaskOk(s.tasks[i]);
  }

  function WorkerSteps(actions: seq<Action>, i: nat): nat {
    if actions == [] then 0 else B(actions[0] == WorkerMoves(i)) + WorkerSteps(actions[1..], i)
  }

  /** A run while the main thread leaves the scheduler started and no wait of worker i fails. */
  ghost predicate WorkerRun(s: State, actions: seq<Action>, i: nat, end: State)
    decreases |actions|
  {
    if actions == [] then end == s
    else
      && Enabled(s, actions[0]) && !actions[0].MainMoves? && actions[0] != WorkerWaitFails(i)
      && WorkerRun(Apply(s, actions[0]), actions[1..], i, end)
  }

  lemma WorkerProgressStep(s: State, a: Action, i: nat)
    requires Inv(s) && s.main == Started && i < |s.tasks| && s.tasks[i].WorkerAlive()
    requires Enabled(s, a) && !a.MainMoves? && a != WorkerWaitFails(i)
    ensures var s' := Apply(s, a);
            && s'.main == Started && |s'.tasks| == |s.tasks| && s'.tasks[i].WorkerAlive()
            && Progress(s'.tasks[i]) == Progress(s.tasks[i]) + B(a == WorkerMoves(i))
  {
    assert AllTasksUp(s);
    if a.MasterMoves? {
      MasterKeepsProgress(s, a.result, i);
    }
  }

  lemma MasterKeepsProgress(s: State, r: Wakeup, i: nat)
    requires Inv(s) && MasterEnabled(s, r) && i < |s.tasks|
    ensures var s' := MasterStep(s, r);
            && s'.main == s.main && |s'.tasks| == |s.tasks|
            && s'.tasks[i].worker == s.tasks[i].worker && s'.tasks[i].completed == s.tasks[i].completed
  {
    if s.master.NotifyTask? {
      RoundLeavesWorkers(s, i);
    } else if MasterTicking(s) {
      TickStepFrame(s, r);
    }
  }

  lemma RoundLeavesWorkers(s: State, i: nat)
    requires NotifyShape(s) && s.master.NotifyTask? && i < |s.tasks|
    ensures var s' := NotifyStep(s, s.master.i, s.master.counted);
            && s'.main == s.main && |s'.tasks| == |s.tasks|
            && s'.tasks[i].worker == s.tasks[i].worker && s'.tasks[i].completed == s.tasks[i].completed
  {
    NotifyLeavesWorker(s.tasks[s.master.i]);
  }

  lemma NotifyLeavesWorker(t: Task)
    ensures NotifyCount(t).worker == NotifyCas(t).worker == NotifyPost(t).worker == t.worker
    ensures NotifyCount(t).completed == NotifyCas(t).completed == NotifyPost(t).completed == t.completed
  {
  }

  /** Over any such run a worker makes exactly one step of progress with every move: one job for every four moves. */
  lemma {:induction false} WorkerProgress(s: State, actions: seq<Action>, i: nat, end: State)
    requires Inv(s) && s.main == Started && i < |s.tasks| && s.tasks[i].WorkerAlive() && WorkerRun(s, actions, i, end)
    ensures i < |end.tasks| && end.tasks[i].WorkerAlive()
    ensures Progress(end.tasks[i]) == Progress(s.tasks[i]) + WorkerSteps(actions, i)
    decreases |actions|
  {
    if actions != [] {
      StepKeepsInv(s, actions[0]);
      WorkerProgressStep(s, actions[0], i);
      WorkerProgress(Apply(s, actions[0]), actions[1..], i, end);
    }
  }

  /** A job in flight is completed within three moves of its worker, whatever the other threads do. */
  lemma JobCompletes(s: State, actions: seq<Action>, i: nat, end: State)
    requires Reachable(s) && s.main == Started && i < |s.tasks| && s.tasks[i].WorkerAlive() && s.tasks[i].JobInFlight()
    requires WorkerRun(s, actions, i, end) && WorkerSteps(actions, i) >= 3
    ensures i < |end.tasks| && end.tasks[i].completed > s.tasks[i].completed
  {
    ReachableInv(s);
    WorkerProgress(s, actions, i, end);
  }
}

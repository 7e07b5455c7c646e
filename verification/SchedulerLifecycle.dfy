/**
 That a start and a stop come to their end, and that a start succeeds exactly when its calls do. As in the other
 theorems the threads take turns in any order.
 */
module SchedulerLifecycle {
  import opened Scheduler
  import opened SchedulerTheorems

  predicate Settled(s: State) { s.main == Idle || s.main == Started }

  /** A start without a failed call so far. */
  predicate Starting(s: State) {
    (s.main.StartTask? && s.main.ok) || s.main == SpawnMaster || s.main == RaisePriority
  }

  /** The call that the main thread makes here, if it makes one, succeeds. */
  predicate Succeeds(s: State, a: Action) {
    a.MainMoves? ==>
      && (s.main.StartTask? ==> a.semInitOk && a.ok)
      && (s.main == RaisePriority ==> a.ok)
  }

  // ---- How far it is to the end ----

  function StopPlace(pc: StopPc): nat {
    match pc
    case StopSetTerminate => 4
    case StopPost => 3
    case StopJoin => 2
    case StopClear => 1
  }

  /** A bound on the steps of the main thread until its start or stop is over. */
  function MainRank(s: State): int {
    var n, m := |s.config|, |s.tasks|;
    match s.main
    case Idle => 0
    case Started => 0
    case DeleteTasks => 1
    case StopTask(k, pc, rollback) =>
      if rollback then 9 + 4 * n + 5 * (n - k - 1) + StopPlace(pc) else 1 + 4 * (m - k - 1) + StopPlace(pc)
    case ClearTerminate => 2 + 4 * m
    case StopTimer => 3 + 4 * m
    case JoinMaster => 4 + 4 * m
    case SignalCancel => 5 + 4 * m
    case CancelRunning => 6 + 4 * m
    case SetTerminate => 7 + 4 * m
    case RaisePriority => 8 + 4 * m
    case SpawnMaster => 9 + 4 * n
    case StartTask(k, _) => 9 + 4 * n + 5 * (n - k)
  }

  /** Where the main thread is among the tasks. */
  predicate Placed(s: State) {
    && 0 < |s.config| && |s.tasks| <= |s.config|
    && (s.main == Idle ==> s.tasks == [])
    && (s.main == RaisePriority ==> |s.tasks| == |s.config|)
    && (s.main.StartTask? ==> s.main.k == |s.tasks| < |s.config|)
    && (s.main.StopTask? ==> s.main.k < |s.tasks| && (s.main.rollback ==> s.main.k == |s.tasks| - 1))
  }

  lemma MainIsPlaced(s: State)
    requires Reachable(s)
    ensures Placed(s) && (s.main == SpawnMaster ==> |s.tasks| == |s.config|)
  {
    ReachableInv(s);
  }

  lemma TasksGoOn(s: State, ok: bool, semInitOk: bool)
    requires Placed(s) && (s.main.StartTask? || s.main.StopTask?)
    ensures 0 <= MainRank(MainStep(s, ok, semInitOk)) < MainRank(s)
  {
    match s.main
    case StartTask(k, good) => StartTaskGoesOn(s, k, good, ok, semInitOk);
    case StopTask(k, pc, rollback) => StopTaskGoesOn(s, k, pc, rollback, ok);
  }

  lemma StartTaskGoesOn(s: State, k: nat, good: bool, ok: bool, semInitOk: bool)
    requires Placed(s) && s.main == StartTask(k, good)
    ensures 0 <= MainRank(StartTaskStep(s, k, good, ok, semInitOk)) < MainRank(s)
  {
  }

  lemma StopTaskGoesOn(s: State, k: nat, pc: StopPc, rollback: bool, ok: bool)
    requires Placed(s) && s.main == StopTask(k, pc, rollback)
    ensures 0 <= MainRank(StopTaskStep(s, k, pc, rollback, ok)) < MainRank(s)
  {
  }

  lemma ControlGoesOn(s: State, ok: bool, semInitOk: bool)
    requires Placed(s) && (s.main == SpawnMaster ==> |s.tasks| == |s.config|)
    requires !Settled(s) && !s.main.StartTask? && !s.main.StopTask?
    ensures 0 <= MainRank(MainStep(s, ok, semInitOk)) < MainRank(s)
  {
  }

  lemma OthersKeepMain(s: State, a: Action)
    requires Reachable(s) && Enabled(s, a) && !a.MainMoves?
    ensures var s' := Apply(s, a); s'.main == s.main && s'.config == s.config && |s'.tasks| == |s.tasks|
  {
    if a.MasterMoves? { MasterKeepsMain(s, a.result); }
  }

  lemma MasterKeepsMain(s: State, r: Wakeup)
    ensures var s' := MasterStep(s, r); s'.main == s.main && s'.config == s.config && |s'.tasks| == |s.tasks|
  {
    if MasterTicking(s) { TickStepFrame(s, r); }
  }

  lemma Waits(s: State)
    requires Reachable(s) && !MainEnabled(s)
    ensures || (s.main == JoinMaster && MasterAlive(s))
            || (s.main.StopTask? && s.main.k < |s.tasks| && s.main.pc == StopJoin && s.tasks[s.main.k].WorkerAlive())
  {
    ReachableInv(s);
  }

  /**
   Every start and every stop goes on: each step of the main thread lowers a rank that no other thread changes, and it
   has a step except while it joins a thread that has not ended.
   */
  lemma MainGoesOn(s: State, a: Action)
    requires Reachable(s) && Enabled(s, a) && !Settled(s)
    ensures 0 <= MainRank(Apply(s, a)) <= MainRank(s) && (a.MainMoves? ==> MainRank(Apply(s, a)) < MainRank(s))
    ensures MainEnabled(s)
        || (s.main == JoinMaster && MasterAlive(s))
        || (s.main.StopTask? && s.main.k < |s.tasks| && s.main.pc == StopJoin && s.tasks[s.main.k].WorkerAlive())
  {
    MainIsPlaced(s);
    if !MainEnabled(s) { Waits(s); }
    match a
    case MainMoves(ok, semInitOk) =>
      if s.main.StartTask? || s.main.StopTask? {
        TasksGoOn(s, ok, semInitOk);
      } else {
        ControlGoesOn(s, ok, semInitOk);
      }
    case _ => OthersKeepMain(s, a);
  }

  // ---- Which starts succeed ----

  /** Any steps of all threads up to the end of the start or stop. */
  ghost predicate UntilSettled(s: State, actions: seq<Action>, end: State)
    decreases |actions|
  {
    if actions == [] then end == s && Settled(s)
    else !Settled(s) && Enabled(s, actions[0]) && UntilSettled(Apply(s, actions[0]), actions[1..], end)
  }

  predicate AllSucceed(s: State, actions: seq<Action>)
    decreases |actions|
  {
    || actions == []
    || (Enabled(s, actions[0]) && Succeeds(s, actions[0]) && AllSucceed(Apply(s, actions[0]), actions[1..]))
  }

  lemma StartTasks(s: State, ok: bool, semInitOk: bool)
    requires Placed(s) && (s.main.StartTask? || s.main.StopTask?)
    ensures var s' := MainStep(s, ok, semInitOk);
            && s'.config == s.config && s'.main != Started && s'.main != Idle
            && (Starting(s') <==> Starting(s) && Succeeds(s, MainMoves(ok, semInitOk)))
  {
  }

  lemma StartControls(s: State, ok: bool)
    requires Placed(s) && MainStarting(s) && !Settled(s)
    ensures var s' := StartControl(s, ok);
            && s'.config == s.config && s'.main != Idle
            && (Starting(s') || s'.main == Started <==> Starting(s) && (s.main == RaisePriority ==> ok))
  {
  }

  lemma StopControls(s: State, ok: bool)
    requires !s.main.StartTask? && !s.main.StopTask? && !MainStarting(s)
    ensures var s' := StopControl(s, ok); s'.config == s.config && !Starting(s') && s'.main != Started && !Starting(s)
  {
  }

  lemma StartMoves(s: State, a: Action)
    requires Reachable(s) && Enabled(s, a) && !Settled(s)
    ensures var s' := Apply(s, a);
            && s'.config == s.config && (s'.main == Idle ==> !Starting(s))
            && (Starting(s') || s'.main == Started <==> Starting(s) && Succeeds(s, a))
  {
    MainIsPlaced(s);
    match a
    case MainMoves(ok, semInitOk) =>
      if s.main.StartTask? || s.main.StopTask? {
        StartTasks(s, ok, semInitOk);
      } else if MainStarting(s) {
        StartControls(s, ok);
      } else {
        StopControls(s, ok);
      }
    case _ => OthersKeepMain(s, a);
  }

  lemma {:induction false} StartDecides(s: State, actions: seq<Action>, end: State)
    requires Reachable(s) && UntilSettled(s, actions, end)
    ensures Reachable(end) && Settled(end) && end.config == s.config
    ensures end.main == Started <==> s.main == Started || (Starting(s) && AllSucceed(s, actions))
    decreases |actions|
  {
    if actions != [] {
      var a := actions[0];
      var s' := Apply(s, a);
      StartMoves(s, a);
      Extend(s, a, s');
      StartDecides(s', actions[1..], end);
      if Settled(s') { assert actions[1..] == []; }
    }
  }

  lemma SettledShape(s: State)
    requires Reachable(s) && Settled(s)
    ensures s.main == Started ==>
              && |s.tasks| == |s.config| && s.master != NoThread && !s.terminate
              && forall i :: 0 <= i < |s.tasks| ==>
                    && s.tasks[i].timing == s.config[i] && s.tasks[i].started && !s.tasks[i].terminate
                    && s.tasks[i].worker != NotSpawned
    ensures s.main == Idle ==> s.tasks == [] && s.master == NoThread && !s.terminate
  {
    ReachableInv(s);
    if s.main == Started {
      forall i | 0 <= i < |s.tasks| ensures s.tasks[i].timing == s.config[i] { assert TaskOk(s.tasks[i]); }
    }
  }

  lemma StartBegins(s: State, ok: bool, semInitOk: bool)
    requires Reachable(s) && s.main == Idle
    ensures var s' := MainStep(s, ok, semInitOk); Reachable(s') && Starting(s') && !Settled(s') && s'.config == s.config
  {
    MainIsPlaced(s);
    Extend(s, MainMoves(ok, semInitOk), MainStep(s, ok, semInitOk));
  }

  /**
   A start succeeds if and only if every task gets its semaphore and its priority and the master gets its priority.
   Then every configured task is started with its own timing, and the master exists; otherwise the scheduler ends as
   it began, without threads and tasks.
   */
  lemma StartExactly(s: State, ok: bool, semInitOk: bool, actions: seq<Action>, end: State)
    requires Reachable(s) && s.main == Idle && UntilSettled(MainStep(s, ok, semInitOk), actions, end)
    ensures end.main == Started <==> AllSucceed(MainStep(s, ok, semInitOk), actions)
    ensures end.main == Started ==>
              && |end.tasks| == |s.config| && end.master != NoThread && !end.terminate
              && forall i :: 0 <= i < |end.tasks| ==>
                    && end.tasks[i].timing == s.config[i] && end.tasks[i].started && !end.tasks[i].terminate
                    && end.tasks[i].worker != NotSpawned
    ensures end.main != Started ==> end.main == Idle && end.tasks == [] && end.master == NoThread && !end.terminate
  {
    StartBegins(s, ok, semInitOk);
    StartDecides(MainStep(s, ok, semInitOk), actions, end);
    SettledShape(end);
  }

  // ---- What a stop leaves ----

  predicate ClosedIsEmpty(s: State) { !s.timer.started ==> s.timer.pending == 0 }

  lemma TickKeepsEmpty(s: State, r: Wakeup)
    requires MasterTicking(s) && ClosedIsEmpty(s)
    ensures ClosedIsEmpty(TickStep(s, r))
  {
    match s.master
    case AfterEpoll(result) => assert EpollReturned(s, result).timer == s.timer;
    case Events(fds) =>
    case AfterRead(outcome, rest) => assert ReadReturned(s, outcome, rest).timer == s.timer;
    case TickReturned => assert BeginRound(s).timer == s.timer;
    case _ =>
  }

  lemma StepKeepsEmpty(s: State, a: Action)
    requires ClosedIsEmpty(s) && Enabled(s, a)
    ensures ClosedIsEmpty(Apply(s, a))
  {
    match a
    case MainMoves(ok, semInitOk) => if !s.main.StartTask? && !s.main.StopTask? { MainKeepsEmpty(s, ok, semInitOk); }
    case MasterMoves(r) => if MasterTicking(s) { TickKeepsEmpty(s, r); } else { WaitKeepsEmpty(s, r); }
    case _ =>
  }

  lemma WaitKeepsEmpty(s: State, r: Wakeup)
    requires !MasterTicking(s) && ClosedIsEmpty(s)
    ensures ClosedIsEmpty(MasterStep(s, r))
  {
  }

  lemma MainKeepsEmpty(s: State, ok: bool, semInitOk: bool)
    requires ClosedIsEmpty(s) && !s.main.StartTask? && !s.main.StopTask?
    ensures ClosedIsEmpty(MainStep(s, ok, semInitOk))
  {
  }

  lemma {:induction false} RunKeepsEmpty(s: State, actions: seq<Action>, end: State)
    requires ClosedIsEmpty(s) && Runs(s, actions, end)
    ensures ClosedIsEmpty(end)
    decreases |actions|
  {
    if actions != [] {
      StepKeepsEmpty(s, actions[0]);
      RunKeepsEmpty(Apply(s, actions[0]), actions[1..], end);
    }
  }

  /** An idle scheduler is a new one, but for the running flag and the statistics of its last clock. */
  lemma IdleIsNew(s: State)
    requires Reachable(s) && s.main == Idle
    ensures s == Init(s.config).(timer := Timer(false, s.timer.running, false, 0, s.timer.cpuOverloads, s.timer.lost),
                                 tally := s.tally, lateClock := s.lateClock, signalFailed := s.signalFailed)
  {
    ReachableInv(s);
    ReachableSignal(s);
    var actions :| Runs(Init(s.config), actions, s);
    RunKeepsEmpty(Init(s.config), actions, s);
  }

  // ---- The cancel event ----

  /** What `epoll_wait` can report: the timer, the cancel event, or both in either order, each only when readable. */
  lemma EpollAnswersExactly(s: State, fds: seq<Fd>)
    requires s.master == InEpoll
    ensures MasterEnabled(s, Ready(fds)) <==>
              || (fds == [TimerFd] && s.timer.pending > 0)
              || (fds == [CancelFd] && s.timer.signalled)
              || ((fds == [TimerFd, CancelFd] || fds == [CancelFd, TimerFd])
                  && s.timer.pending > 0 && s.timer.signalled)
  {
    if |fds| == 1 {
      assert fds == [fds[0]] && fds[0] in fds;
      assert fds[0] == TimerFd || fds[0] == CancelFd;
    } else if |fds| == 2 {
      assert fds == [fds[0], fds[1]] && fds[0] in fds && fds[1] in fds;
    } else if |fds| >= 3 {
      assert fds[0] == fds[1] || fds[0] == fds[2] || fds[1] == fds[2];
    }
  }

  /** The steps of the cancel are together `PeriodicTimer.Cancel`. */
  lemma CancelPartsCompose(s: State, ok: bool, semInitOk: bool)
    requires s.main == CancelRunning
    ensures var a := MainStep(s, ok, semInitOk);
            var b := if a.main == SignalCancel then MainStep(a, ok, semInitOk) else a;
            && (a.main == SignalCancel <==> s.timer.running) && b.main == JoinMaster && !b.timer.running
            && (b.timer.signalled <==> s.timer.signalled || (s.timer.running && s.timer.started && ok))
            && b.timer.started == s.timer.started && b.timer.pending == s.timer.pending
  {
  }

  predicate SignalDecided(s: State, ok: bool) {
    s.main == JoinMaster && (Clocking(s) && !s.lateClock ==> (s.timer.signalled <==> ok))
  }

  lemma MasterKeepsDecided(s: State, r: Wakeup, ok: bool)
    requires Reachable(s) && SignalDecided(s, ok) && MasterEnabled(s, r)
    ensures SignalDecided(MasterStep(s, r), ok)
  {
    ReachableInv(s);
    if s.master != StartClock {
      MasterKeepsTimer(s, r);
      if MasterTicking(s) { TickStepFrame(s, r); }
    }
  }

  lemma {:induction false} RunKeepsDecided(s: State, actions: seq<Action>, end: State, ok: bool)
    requires Reachable(s) && SignalDecided(s, ok) && Runs(s, actions, end)
    requires forall i :: 0 <= i < |actions| ==> !actions[i].MainMoves?
    ensures Reachable(end) && SignalDecided(end, ok)
    decreases |actions|
  {
    if actions != [] {
      var a := actions[0];
      assert !a.MainMoves?;
      OthersKeepMain(s, a);
      Extend(s, a, Apply(s, a));
      if a.MasterMoves? { MasterKeepsDecided(s, a.result, ok); }
      RunKeepsDecided(Apply(s, a), actions[1..], end, ok);
    }
  }

  /** A master that still waits while it is joined has been signalled exactly when the write of the event succeeded. */
  lemma CancelReaches(s: State, ok: bool, semInitOk: bool, actions: seq<Action>, end: State)
    requires Reachable(s) && s.main == SignalCancel && Runs(MainStep(s, ok, semInitOk), actions, end)
    requires forall i :: 0 <= i < |actions| ==> !actions[i].MainMoves?
    ensures end.master == InEpoll ==> (end.timer.signalled <==> ok)
  {
    ReachableInv(s);
    ReachableSignal(s);
    Extend(s, MainMoves(ok, semInitOk), MainStep(s, ok, semInitOk));
    RunKeepsDecided(MainStep(s, ok, semInitOk), actions, end, ok);
    ReachableInv(end);
  }
}

/**
 The descriptors and the period of the master clock (core/code/GenericTarget/GT_PeriodicTimer.cpp:5-156).

 Sample times are doubles; their finite values are modelled as reals, so the rounding of the program's
 long double arithmetic is not part of this model. The waiting side is in `Scheduler`.
 */
module PeriodicTimers {

  datatype Double = NaN | Infinite | Finite(value: real)

  const GIGA := 1_000_000_000
  const TIME_MAX := 0x7FFF_FFFF_FFFF_FFFF

  datatype Period = Invalid | Valid(seconds: int, nanoseconds: int)

  /** The checks and the conversion at the top of `Start`. */
  function ToPeriod(s: Double): Period {
    if !s.Finite? || s.value <= 0.0 then Invalid
    else
      var whole := s.value.Floor;
      if whole >= TIME_MAX then Invalid
      else
        var nanoseconds := ((s.value - whole as real) * GIGA as real).Floor;
        if whole == 0 && nanoseconds == 0 then Invalid else Valid(whole, nanoseconds)
  }

  /**
   A sample time is accepted exactly when it is finite, at least a nanosecond and below the range of time_t;
   it is then programmed to the whole number of nanoseconds below it, normalized.
   */
  lemma PeriodExactly(s: Double)
    ensures ToPeriod(s).Valid? <==>
            s.Finite? && s.value * 1_000_000_000.0 >= 1.0 && s.value < 9_223_372_036_854_775_807.0
    ensures ToPeriod(s).Valid? ==>
              var p := ToPeriod(s);
              && 0 <= p.nanoseconds < 1_000_000_000 && p.seconds >= 0
              && p.seconds * 1_000_000_000 + p.nanoseconds == (s.value * 1_000_000_000.0).Floor >= 1
  {
    if s.Finite? && s.value > 0.0 {
      var whole := s.value.Floor;
      var fraction := (s.value - whole as real) * GIGA as real;
      assert 0.0 <= fraction < GIGA as real;
      assert s.value * GIGA as real == (whole * GIGA) as real + fraction;
      FloorShift(whole * GIGA, fraction);
      if s.value < TIME_MAX as real { assert whole < TIME_MAX; }
      if whole < TIME_MAX { assert s.value < whole as real + 1.0 <= TIME_MAX as real; }
    }
  }

  lemma FloorShift(n: int, x: real)
    ensures (n as real + x).Floor == n + x.Floor
  {
    assert x.Floor as real <= x < x.Floor as real + 1.0;
    assert (n + x.Floor) as real <= n as real + x < (n + x.Floor) as real + 1.0;
  }

  /** The answers of the kernel to one `Start`; a negative descriptor is a failure. */
  datatype Calls = Calls(epollFd: int, cancelFd: int, timerFd: int, addCancelOk: bool, addTimerOk: bool,
                         setTimeOk: bool)
  {
    predicate AllOk() {
      epollFd >= 0 && cancelFd >= 0 && timerFd >= 0 && addCancelOk && addTimerOk && setTimeOk
    }

    // The kernel hands out descriptors that are not in use.
    predicate Unused(open: set<int>) {
      && epollFd !in open && cancelFd !in open && timerFd !in open
      && (epollFd >= 0 && cancelFd >= 0 ==> epollFd != cancelFd)
      && (epollFd >= 0 && timerFd >= 0 ==> epollFd != timerFd)
      && (cancelFd >= 0 && timerFd >= 0 ==> cancelFd != timerFd)
    }
  }

  class PeriodicTimer {
    var epollFd: int
    var cancelFd: int
    var timerFd: int
    var isStarted: bool
    var isRunning: bool
    var numCPUOverloads: nat
    var numLostTicks: nat
    var period: Period
    var cancelSignals: nat

    /** All descriptors that the process has open. */
    var open: set<int>

    function Own(): set<int>
      reads this
    {
      if isStarted then {epollFd, cancelFd, timerFd} else {}
    }

    /** The timer is started exactly when its three descriptors are open; otherwise it has none. */
    predicate Consistent()
      reads this
    {
      && (isStarted ==> epollFd >= 0 && cancelFd >= 0 && timerFd >= 0
                        && epollFd != cancelFd && epollFd != timerFd && cancelFd != timerFd)
      && (!isStarted ==> epollFd == -1 && cancelFd == -1 && timerFd == -1)
      && Own() <= open
      && (isStarted ==> period.Valid?)
    }

    constructor (open: set<int>)
      ensures Consistent() && !isStarted && !isRunning && this.open == open
    {
      epollFd, cancelFd, timerFd := -1, -1, -1;
      isStarted, isRunning := false, false;
      numCPUOverloads, numLostTicks, period, cancelSignals := 0, 0, Invalid, 0;
      this.open := open;
    }

    method CloseFd(fd: int)
      modifies `open
      ensures open == old(open) - {fd}
    {
      open := open - {fd};
    }

    /**
     All or nothing: `Start` succeeds exactly when the timer is neither started nor running, the sample time is
     acceptable and every call succeeds. On every failure path the descriptors opened so far are closed again
     and the timer is unchanged.
     */
    method Start(sampleTime: Double, k: Calls) returns (ok: bool)
      requires Consistent() && k.Unused(open)
      modifies this
      ensures Consistent()
      ensures ok == (!old(isStarted) && !old(isRunning) && ToPeriod(sampleTime).Valid? && k.AllOk())
      ensures k.AllOk() <==>
                && k.epollFd >= 0 && k.cancelFd >= 0 && k.timerFd >= 0
                && k.addCancelOk && k.addTimerOk && k.setTimeOk
      ensures ok ==>
                && isStarted && isRunning && period == ToPeriod(sampleTime)
                && epollFd == k.epollFd && cancelFd == k.cancelFd && timerFd == k.timerFd
                && open == old(open) + Own() && Own() !! old(open)
                && numCPUOverloads == 0 && numLostTicks == 0 && cancelSignals == 0
      ensures !ok ==>
                && open == old(open) && epollFd == old(epollFd) && cancelFd == old(cancelFd) && timerFd == old(timerFd)
                && isStarted == old(isStarted) && isRunning == old(isRunning) && period == old(period)
                && numCPUOverloads == old(numCPUOverloads) && numLostTicks == old(numLostTicks)
                && cancelSignals == old(cancelSignals)
    {
      if isStarted {
        return false;
      }
      if isRunning {
        return false;
      }
      var p := ToPeriod(sampleTime);
      if p.Invalid? {
        return false;
      }

      if k.epollFd < 0 {
        return false;
      }
      open := open + {k.epollFd};
      if k.cancelFd < 0 {
        CloseFd(k.epollFd);
        return false;
      }
      open := open + {k.cancelFd};
      if k.timerFd < 0 {
        CloseFd(k.cancelFd);
        CloseFd(k.epollFd);
        return false;
      }
      open := open + {k.timerFd};

      if !k.addCancelOk || !k.addTimerOk || !k.setTimeOk {
        CloseFd(k.timerFd);
        CloseFd(k.cancelFd);
        CloseFd(k.epollFd);
        return false;
      }

      epollFd := k.epollFd;
      cancelFd := k.cancelFd;
      timerFd := k.timerFd;
      numCPUOverloads := 0;
      numLostTicks := 0;
      period := p;
      cancelSignals := 0;
      isStarted := true;
      isRunning := true;
      return true;
    }

    /** Signals the cancel event when the running flag was set; on a descriptor that is not open the write fails. */
    method Cancel(writeOk: bool) returns (signalled: bool)
      requires Consistent()
      modifies `isRunning, `cancelSignals
      ensures Consistent() && !isRunning
      ensures signalled == (old(isRunning) && isStarted && writeOk)
      ensures cancelSignals == old(cancelSignals) + if signalled then 1 else 0
    {
      var was := isRunning;
      isRunning := false;
      signalled := false;
      if was && cancelFd >= 0 && writeOk {
        cancelSignals := cancelSignals + 1;
        signalled := true;
      }
    }

    /** Closes exactly the timer's descriptors; the running flag is not touched. */
    method Stop()
      requires Consistent()
      modifies this
      ensures Consistent() && !isStarted
      ensures open == old(open) - old(Own())
      ensures isRunning == old(isRunning)
      ensures numCPUOverloads == old(numCPUOverloads) && numLostTicks == old(numLostTicks) && period == old(period)
      ensures cancelSignals == if old(isStarted) then 0 else old(cancelSignals)
    {
      if !isStarted {
        return;
      }
      if timerFd >= 0 {
        CloseFd(timerFd);
        timerFd := -1;
      }
      if cancelFd >= 0 {
        CloseFd(cancelFd);
        cancelFd := -1;
      }
      if epollFd >= 0 {
        CloseFd(epollFd);
        epollFd := -1;
      }
      cancelSignals := 0;
      isStarted := false;
    }
  }

  /**
   A start, a cancel and a stop give back every descriptor and leave the timer ready for another start, in
   whatever way the calls turned out.
   */
  method StartCancelStop(timer: PeriodicTimer, sampleTime: Double, k: Calls, writeOk: bool) returns (ok: bool)
    requires timer.Consistent() && !timer.isStarted && k.Unused(timer.open)
    modifies timer
    ensures timer.Consistent() && !timer.isStarted && !timer.isRunning && timer.open == old(timer.open)
    ensures ok == (!old(timer.isRunning) && ToPeriod(sampleTime).Valid? && k.AllOk())
  {
    ok := timer.Start(sampleTime, k);
    var signalled := timer.Cancel(writeOk);
    timer.Stop();
  }

  /** In the other order the running flag stays set, and the next start is refused. */
  method CancelStartStop(timer: PeriodicTimer, sampleTime: Double, k: Calls, again: Calls, writeOk: bool)
    returns (first: bool, second: bool)
    requires timer.Consistent() && !timer.isStarted && !timer.isRunning && k.Unused(timer.open)
        && again.Unused(timer.open)
    modifies timer
    ensures timer.Consistent() && (timer.isStarted <==> second)
    ensures first == (ToPeriod(sampleTime).Valid? && k.AllOk())
    ensures first ==> !second && timer.isRunning
  {
    var signalled := timer.Cancel(writeOk);
    first := timer.Start(sampleTime, k);
    timer.Stop();
    second := timer.Start(sampleTime, again);
  }
}

/**
 The periodic worker task (core/code/GenericTarget/GT_PeriodicTask.cpp).

 `Notify` runs two down-counters, first the offset and then the period, and at a release point tries to
 queue one job. The counters are 32-bit atomics, so the decrement wraps at the bottom of the range.
 */
module PeriodicTasks {
  import opened Arithmetic

  const INT32_MIN := -0x8000_0000
  const INT32_MAX := 0x7FFF_FFFF
  type int32 = x: int | INT32_MIN <= x <= INT32_MAX

  /** The sample ticks and offset ticks that the generated model interface gives for one task. */
  datatype Timing = Timing(period: int32, offset: int32)
  {
    // A non-positive offset does not delay, and a non-positive period releases on every tick.
    function Delay(): nat { if offset > 0 then offset else 0 }
    function Period(): (p: int) ensures p >= 1 { if period >= 1 then period else 1 }

    // Both fields are 32-bit integers; the code generator itself emits no negative value.
    predicate NeverWraps() { period != INT32_MIN && offset != INT32_MIN }

    /** The closed form: tick number k (from 0) is a release point. */
    predicate Releases(k: nat) { k >= Delay() && (k - Delay()) % Period() == 0 }

    /** How many of the first n ticks are release points: ceil(max(0, n - delay) / period). */
    function Releasing(n: nat): nat {
      if n <= Delay() then 0 else (n - Delay() + Period() - 1) / Period()
    }
  }

  /** The two counters that `Notify` changes. */
  datatype Counters = Counters(ticks: int32, offset: int32)
  datatype Count = Count(counters: Counters, due: bool)

  function Decrement(x: int32): int32 { if x == INT32_MIN then INT32_MAX else x - 1 }

  /** The counting half of `Notify`: new counters, and whether this tick is a release point. */
  function CountTick(c: Counters, t: Timing): Count {
    var offset := Decrement(c.offset);
    if offset < 0 then
      var ticks := Decrement(c.ticks);
      if ticks < 1 then Count(Counters(t.period, 0), true) else Count(Counters(ticks, 0), false)
    else
      Count(Counters(c.ticks, offset), false)
  }

  /** The counters after `Start` and k notifications. */
  function CountersAfter(t: Timing, k: nat): Counters {
    if k == 0 then Counters(1, t.offset) else CountTick(CountersAfter(t, k - 1), t).counters
  }

  /** Notification number k (from 0) reaches the release point. */
  predicate Due(t: Timing, k: nat) { CountTick(CountersAfter(t, k), t).due }

  /** The number of release points among the first n notifications. */
  function ReleaseCount(t: Timing, n: nat): nat {
    if n == 0 then 0 else ReleaseCount(t, n - 1) + if Due(t, n - 1) then 1 else 0
  }

  /**
   The value of both counters on unbounded runs. While the offset runs, the tick counter keeps its start
   value; afterwards it cycles through period, period - 1, ..., 1.
   */
  lemma {:induction false} CountersClosedForm(t: Timing, k: nat)
    requires t.NeverWraps()
    ensures k == 0 ==> CountersAfter(t, k) == Counters(1, t.offset)
    ensures 0 < k <= t.Delay() ==> CountersAfter(t, k) == Counters(1, t.offset - k)
    ensures k > t.Delay() ==>
              && CountersAfter(t, k).offset == 0
              && CountersAfter(t, k).ticks
                  == if t.period >= 1 then t.period - (k - t.Delay() - 1) % t.period else t.period
  {
    if k > 0 {
      CountersClosedForm(t, k - 1);
      if k - 1 > t.Delay() && t.period >= 1 {
        ModStep(k - 1 - t.Delay() - 1, t.period);
      }
      if k - 1 == t.Delay() && t.period >= 1 {
        DivModUnique(0, t.period, 0, 0);
      }
    }
  }

  /** The counters stay within their documented ranges, so no decrement ever wraps. */
  lemma CountersInRange(t: Timing, k: nat)
    requires t.NeverWraps()
    ensures var c := CountersAfter(t, k);
            0 <= c.offset <= t.Delay() || (k == 0 && c.offset == t.offset)
    ensures t.period >= 1 && k > t.Delay() ==> 1 <= CountersAfter(t, k).ticks <= t.period
    ensures CountersAfter(t, k).offset != INT32_MIN && CountersAfter(t, k).ticks != INT32_MIN
  {
    CountersClosedForm(t, k);
  }

  /** The k-th notification is a release point exactly by the closed form. */
  lemma DueClosedForm(t: Timing, k: nat)
    requires t.NeverWraps()
    ensures Due(t, k) <==> t.Releases(k)
  {
    CountersClosedForm(t, k);
    if k > t.Delay() {
      var p := t.Period();
      ModStep(k - t.Delay() - 1, p);
      if p == 1 { DivModUnique(k - t.Delay(), 1, k - t.Delay(), 0); }
    } else if k == t.Delay() {
      DivModUnique(0, t.Period(), 0, 0);
    }
  }

  /** With the lowest 32-bit value in the period or the offset a decrement wraps and a release is missed. */
  lemma WrapMissesRelease(t: Timing)
    requires !t.NeverWraps()
    ensures exists k: nat :: t.Releases(k) && !Due(t, k)
  {
    DivModUnique(0, t.Period(), 0, 0);
    if t.offset == INT32_MIN {
      assert t.Releases(0) && !Due(t, 0);
    } else {
      var early := Timing(1, t.offset);
      var k := t.Delay();
      SameCountersUntilRelease(t, early, k);
      CountersClosedForm(early, k);
      assert CountersAfter(t, k + 1) == Counters(INT32_MIN, 0);
      DivModUnique(1, 1, 1, 0);
      assert t.Releases(k + 1) && !Due(t, k + 1);
    }
  }

  /** The period plays no part before the first release. */
  lemma {:induction false} SameCountersUntilRelease(t: Timing, u: Timing, k: nat)
    requires t.offset == u.offset && k <= t.Delay() && u.NeverWraps()
    ensures CountersAfter(t, k) == CountersAfter(u, k)
  {
    if k > 0 {
      SameCountersUntilRelease(t, u, k - 1);
      CountersClosedForm(u, k - 1);
    }
  }

  /** `Notify` follows the closed form on every tick exactly when neither value is the lowest 32-bit one. */
  lemma ReleaseExactly(t: Timing)
    ensures (forall k: nat :: Due(t, k) <==> t.Releases(k)) <==> t.period != -2147483648 && t.offset != -2147483648
  {
    if t.NeverWraps() {
      forall k: nat ensures Due(t, k) <==> t.Releases(k) { DueClosedForm(t, k); }
    } else {
      WrapMissesRelease(t);
    }
  }

  /** The number of releases in n ticks, in closed form. */
  lemma {:induction false} ReleaseCountClosedForm(t: Timing, n: nat)
    requires t.NeverWraps()
    ensures ReleaseCount(t, n) == t.Releasing(n)
  {
    if n > 0 {
      ReleaseCountClosedForm(t, n - 1);
      DueClosedForm(t, n - 1);
      if n - 1 >= t.Delay() {
        CeilStep(n - 1 - t.Delay(), t.Period());
        DivModUnique(t.Period() - 1, t.Period(), 0, t.Period() - 1);
      }
    }
  }

  /** A tick distance that is a multiple of every task's period. */
  ghost predicate CommonMultiple(tasks: seq<Timing>, h: nat) {
    forall i :: 0 <= i < |tasks| ==> h % tasks[i].Period() == 0
  }

  /** From tick `from` on, the releases of all tasks look the same h ticks later. */
  ghost predicate RepeatsAfter(tasks: seq<Timing>, from: nat, h: nat) {
    forall i, k: nat :: 0 <= i < |tasks| && k >= from ==> (Due(tasks[i], k) <==> Due(tasks[i], k + h))
  }

  /**
   Once every offset has passed, the joint release pattern repeats after h ticks exactly when h is a common
   multiple of the periods.
   */
  lemma JointPattern(tasks: seq<Timing>, from: nat, h: nat)
    requires forall i :: 0 <= i < |tasks| ==> tasks[i].NeverWraps() && tasks[i].Delay() <= from
    ensures RepeatsAfter(tasks, from, h) <==> CommonMultiple(tasks, h)
  {
    if CommonMultiple(tasks, h) {
      forall i, k: nat | 0 <= i < |tasks| && k >= from
        ensures Due(tasks[i], k) <==> Due(tasks[i], k + h)
      {
        DueClosedForm(tasks[i], k);
        DueClosedForm(tasks[i], k + h);
        ModShift(k - tasks[i].Delay(), h, tasks[i].Period());
      }
    }
    if RepeatsAfter(tasks, from, h) {
      forall i | 0 <= i < |tasks| ensures h % tasks[i].Period() == 0 {
        var t := tasks[i];
        var p := t.Period();
        var k := t.Delay() + p * from;
        MulMod(p, from);
        assert p * from >= from by { MulMono(from, 1, p); }
        DueClosedForm(t, k);
        DueClosedForm(t, k + h);
        assert Due(tasks[i], k) <==> Due(tasks[i], k + h);
        ModShift(p * from, h, p);
      }
    }
  }

  /** The product of the periods is a positive common multiple. */
  lemma {:induction false} SomeCommonMultiple(tasks: seq<Timing>) returns (h: nat)
    ensures h > 0 && CommonMultiple(tasks, h)
    decreases |tasks|
  {
    if tasks == [] {
      h := 1;
    } else {
      var n := |tasks| - 1;
      var p := tasks[n].Period();
      var rest := SomeCommonMultiple(tasks[..n]);
      h := rest * p;
      ExtendCommonMultiple(tasks, n, rest);
    }
  }

  lemma ExtendCommonMultiple(tasks: seq<Timing>, n: nat, rest: nat)
    requires |tasks| == n + 1 && rest > 0 && CommonMultiple(tasks[..n], rest)
    ensures rest * tasks[n].Period() > 0 && CommonMultiple(tasks, rest * tasks[n].Period())
  {
    var p := tasks[n].Period();
    MulMono(rest, 1, p);
    MulMod(p, rest);
    forall i | 0 <= i < n ensures (rest * p) % tasks[i].Period() == 0 {
      assert rest % tasks[..n][i].Period() == 0;
      MultipleOfMultiple(p, rest, tasks[i].Period());
    }
  }

  lemma MultipleOfMultiple(q: nat, h: nat, p: int)
    requires p >= 1 && h % p == 0
    ensures (q * h) % p == 0 && (h * q) % p == 0
  {
    var m := h / p;
    assert q * h == p * (q * m) by {
      assert h == p * m;
      Regroup3(q, p, m);
    }
    MulMod(p, q * m);
  }

  lemma Regroup3(q: int, p: int, m: int)
    ensures q * (p * m) == p * (q * m)
  {
  }

  lemma LeastCommonMultiple(tasks: seq<Timing>) returns (least: nat)
    ensures least > 0 && CommonMultiple(tasks, least)
    ensures forall h: nat :: 0 < h < least ==> !CommonMultiple(tasks, h)
  {
    var some := SomeCommonMultiple(tasks);
    least := 1;
    while !CommonMultiple(tasks, least)
      invariant 1 <= least <= some
      invariant forall h: nat :: 0 < h < least ==> !CommonMultiple(tasks, h)
      decreases some - least
    {
      least := least + 1;
    }
  }

  /**
   The shortest repetition of the joint pattern is the least common multiple of the periods, and the pattern repeats
   after h ticks exactly when h is a multiple of it.
   */
  lemma ShortestRepetition(tasks: seq<Timing>, from: nat) returns (least: nat)
    requires forall i :: 0 <= i < |tasks| ==> tasks[i].NeverWraps() && tasks[i].Delay() <= from
    ensures least > 0 && CommonMultiple(tasks, least)
    ensures forall h: nat :: 0 < h < least ==> !CommonMultiple(tasks, h) && !RepeatsAfter(tasks, from, h)
    ensures forall h: nat :: RepeatsAfter(tasks, from, h) <==> h % least == 0
  {
    least := LeastCommonMultiple(tasks);
    forall h: nat | 0 < h < least ensures !RepeatsAfter(tasks, from, h) { JointPattern(tasks, from, h); }
    forall h: nat ensures RepeatsAfter(tasks, from, h) <==> h % least == 0 {
      JointPattern(tasks, from, h);
      MultiplesOnly(tasks, least, h);
    }
  }

  lemma MultiplesOnly(tasks: seq<Timing>, least: nat, h: nat)
    requires least > 0 && CommonMultiple(tasks, least) && forall g: nat :: 0 < g < least ==> !CommonMultiple(tasks, g)
    ensures CommonMultiple(tasks, h) <==> h % least == 0
  {
    var q, r := h / least, h % least;
    assert h == r + q * least;
    forall i | 0 <= i < |tasks| ensures h % tasks[i].Period() == r % tasks[i].Period() {
      assert least % tasks[i].Period() == 0;
      MultipleOfMultiple(q, least, tasks[i].Period());
      ModShift(r, q * least, tasks[i].Period());
    }
    assert CommonMultiple(tasks, h) <==> CommonMultiple(tasks, r) by {
      if CommonMultiple(tasks, h) { assert forall i :: 0 <= i < |tasks| ==> r % tasks[i].Period() == 0; }
      if CommonMultiple(tasks, r) { assert forall i :: 0 <= i < |tasks| ==> h % tasks[i].Period() == 0; }
    }
    if r == 0 {
      forall i | 0 <= i < |tasks| ensures r % tasks[i].Period() == 0 { DivModUnique(0, tasks[i].Period(), 0, 0); }
      assert CommonMultiple(tasks, r);
    }
  }

  /** The part of the task that the notifying thread and the worker share. */
  datatype Job = Job(pendingOrRunning: bool, semaphore: nat, overloads: nat)

  /** A release point queues one job, or counts an overload when one is already queued or running. */
  function Release(j: Job): Job {
    if j.pendingOrRunning then j.(overloads := j.overloads + 1)
    else j.(pendingOrRunning := true, semaphore := j.semaphore + 1)
  }

  /** The effect of k notifications on the job state while the worker does not move. */
  function JobAfter(t: Timing, j: Job, from: nat, k: nat): Job {
    if k == 0 then j
    else
      var before := JobAfter(t, j, from, k - 1);
      if Due(t, from + k - 1) then Release(before) else before
  }

  /**
   Without the worker, any number of notifications queues at most one job and counts every other release
   as an overload.
   */
  lemma {:induction false} BurstAccounting(t: Timing, j: Job, from: nat, k: nat)
    ensures var after := JobAfter(t, j, from, k);
            var releases := ReleaseCount(t, from + k) - ReleaseCount(t, from);
            && after.semaphore - j.semaphore == (if !j.pendingOrRunning && releases > 0 then 1 else 0)
            && after.overloads - j.overloads == releases - (after.semaphore - j.semaphore)
            && (after.pendingOrRunning <==> j.pendingOrRunning || releases > 0)
            && releases >= 0
  {
    if k > 0 {
      BurstAccounting(t, j, from, k - 1);
      assert ReleaseCount(t, from + k) == ReleaseCount(t, from + k - 1) + if Due(t, from + k - 1) then 1 else 0;
    }
  }

  class PeriodicTask {
    const timing: Timing
    var started: bool
    var terminate: bool
    var pendingOrRunning: bool
    var overloads: nat
    var ticks: int32
    var offsetSamples: int32
    var semaphore: nat

    /** The worker thread has been spawned and not yet joined. */
    var thread: bool

    constructor (timing: Timing)
      ensures this.timing == timing && !started && !terminate && !thread
    {
      this.timing := timing;
      thread := false;
      started, terminate, pendingOrRunning := false, false, false;
      overloads, ticks, offsetSamples, semaphore := 0, 0, 0, 0;
    }

    function Counted(): Counters
      reads this
    {
      Counters(ticks, offsetSamples)
    }

    function Shared(): Job
      reads this
    {
      Job(pendingOrRunning, semaphore, overloads)
    }

    /**
     The outcomes are those of `sem_init`, of setting the priority and, for the stop after a refused priority, of
     `sem_destroy`. A task that fails to start has no worker.
     */
    method Start(semInitOk: bool, priorityOk: bool, destroyOk: bool) returns (ok: bool)
      requires thread ==> started
      modifies this
      ensures ok == (!old(started) && semInitOk && priorityOk)
      ensures ok ==> started && thread && Counted() == CountersAfter(timing, 0) && Shared() == Job(false, 0, 0)
      ensures old(started) || !semInitOk ==>
                Counted() == old(Counted()) && Shared() == old(Shared()) && started == old(started)
                    && thread == old(thread)
      ensures !old(started) && semInitOk && !priorityOk ==> !thread && started == !destroyOk && !terminate
      ensures old(started) || !semInitOk || priorityOk ==> terminate == old(terminate)
    {
      if started {
        return false;
      }
      if !semInitOk {
        return false;
      }
      semaphore := 0;
      started := true;
      ticks := 1;
      offsetSamples := timing.offset;
      pendingOrRunning := false;
      overloads := 0;
      thread := true;
      if !priorityOk {
        Stop(destroyOk);
        return false;
      }
      return true;
    }

    /**
     The part of the stopping thread; the worker's part is in the state machine. A task whose semaphore cannot be
     destroyed stays marked as started.
     */
    method Stop(destroyOk: bool)
      modifies `terminate, `semaphore, `thread, `started
      ensures !terminate && started == (old(started) && !destroyOk)
      ensures thread == (old(thread) && !old(started))
      ensures semaphore == old(semaphore) + if old(started) then 1 else 0
    {
      terminate := true;
      if started {
        semaphore := semaphore + 1;
        if thread {
          thread := false;
        }
        if destroyOk {
          started := false;
        }
      }
      terminate := false;
    }

    /** `n` is the number of notifications since `Start`. */
    method Notify(ghost n: nat)
      requires started && Counted() == CountersAfter(timing, n)
      modifies this
      ensures Counted() == CountersAfter(timing, n + 1)
      ensures Shared() == JobAfter(timing, old(Shared()), n, 1)
      ensures started == old(started) && terminate == old(terminate) && thread == old(thread)
    {
      assert JobAfter(timing, Shared(), n, 0) == Shared();
      offsetSamples := Decrement(offsetSamples);
      if offsetSamples < 0 {
        offsetSamples := 0;
        ticks := Decrement(ticks);
        if ticks < 1 {
          ticks := timing.period;
          if pendingOrRunning {
            overloads := overloads + 1;
            return;
          }
          pendingOrRunning := true;
          semaphore := semaphore + 1;
        }
      }
    }
  }
}

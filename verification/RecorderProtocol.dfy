/**
 One Start-Stop run of a data recorder as a state machine: any number of writers, the recorder thread and the
 thread that calls `Stop` (library/drivers/GT_DriverImplementationDetails.cpp:99-131, 185-217 and
 GT_DriverImplementationDetails.hpp:240-274).

 The event is a semaphore that the waiting thread drains one `sem_trywait` at a time, so posts can be swallowed.
 */
module RecorderProtocol {
  import opened Arithmetic
  import opened Bytes
  import opened DataRecorder

  /** The recorder thread. `Taking` and `Leaving` are before its two locked sections. */
  datatype ThreadPc = LoopTop | AtWait | Draining | CheckTerminate | Taking | Writing | Leaving | Finished

  /** The controlling thread; while it is `Flushing` it holds the buffer's lock. */
  datatype MainPc =
    | Recording | StopNotify | StopJoin | StopReset | StopClear | StopFlush | Flushing | FlushEnd | Stopped

  /**
   `pendingNotifies` counts writers between their append and their `Notify`. `accepted` (every sample appended
   so far), `dropped` (what the final flush could not write) and `lastPassFailed` (a call of the thread's last write
   pass failed) are history.
   */
  datatype State<T> = State(
    settings: Settings,
    buffer: seq<T>,
    local: seq<T>,
    disk: Disk<T>,
    semaphore: nat,
    pendingNotifies: nat,
    terminate: bool,
    thread: ThreadPc,
    main: MainPc,
    accepted: seq<T>,
    dropped: seq<T>,
    lastPassFailed: bool)

  datatype Action<T> =
    | WriterAppends(sample: seq<T>)
    | WriterSkips
    | WriterNotifies
    | ThreadMoves(io: Io)
    | ThreadWaitFails
    | MainMoves(io: Io)

  function Init<T>(c: Settings, files: map<nat, DataFile<T>>): State<T> {
    State(c, [], [], FreshDisk(files), 0, 0, false, LoopTop, Recording, [], [], false)
  }

  predicate ThreadEnabled<T>(s: State<T>) {
    && s.thread != Finished
    && (s.thread == AtWait ==> s.semaphore > 0)
    && (s.thread == Taking || (s.thread == Leaving && s.local != []) ==> s.main != Flushing)
  }

  predicate Enabled<T>(s: State<T>, a: Action<T>) {
    match a
    case WriterAppends(sample) => s.main != Flushing && |sample| == s.settings.Width()
    case WriterSkips => true
    case WriterNotifies => s.pendingNotifies > 0
    case ThreadMoves(_) => ThreadEnabled(s)
    case ThreadWaitFails => s.thread == AtWait
    case MainMoves(_) => (s.main == StopJoin ==> s.thread == Finished)
  }

  function ThreadStep<T>(s: State<T>, io: Io): State<T>
    requires s.settings.Ok()
  {
    match s.thread
    case LoopTop => s.(thread := if s.terminate then Leaving else AtWait)
    case AtWait => if s.semaphore > 0 then s.(semaphore := s.semaphore - 1, thread := Draining) else s
    case Draining =>
      if s.semaphore > 0 then s.(semaphore := s.semaphore - 1) else s.(thread := CheckTerminate)
    case CheckTerminate => s.(thread := if s.terminate then Leaving else Taking)
    case Taking => s.(local := s.local + s.buffer, buffer := [], thread := Writing)
    case Writing =>
      if s.local == [] then s.(thread := LoopTop)
      else
        var r := WriteChunk(s.settings, s.disk, s.local, io);
        s.(disk := r.disk, local := r.rest, thread := if r.again then Writing else LoopTop,
           lastPassFailed := PassFails(s.disk, io))
    case Leaving => s.(buffer := s.local + s.buffer, local := [], thread := Finished)
    case Finished => s
  }

  function MainStep<T>(s: State<T>, io: Io): State<T>
    requires s.settings.Ok()
  {
    match s.main
    case Recording => s.(terminate := true, main := StopNotify)
    case StopNotify => s.(semaphore := s.semaphore + 1, main := StopJoin)
    case StopJoin => s.(main := StopReset)
    case StopReset => s.(terminate := false, main := StopClear)
    case StopClear => s.(semaphore := 0, main := StopFlush)
    case StopFlush => s.(main := Flushing)
    case Flushing =>
      if s.buffer == [] then s.(main := FlushEnd)
      else
        var r := WriteChunk(s.settings, s.disk, s.buffer, io);
        if r.again then s.(disk := r.disk, buffer := r.rest)
        else s.(disk := r.disk, buffer := [], dropped := r.rest, main := FlushEnd)
    case FlushEnd => s.(main := Stopped)
    case Stopped => s
  }

  function Apply<T>(s: State<T>, a: Action<T>): State<T>
    requires s.settings.Ok()
  {
    match a
    case WriterAppends(sample) =>
      s.(buffer := s.buffer + sample, accepted := s.accepted + sample, pendingNotifies := s.pendingNotifies + 1)
    case WriterSkips => s.(pendingNotifies := s.pendingNotifies + 1)
    case WriterNotifies =>
      s.(semaphore := s.semaphore + 1, pendingNotifies := if s.pendingNotifies > 0 then s.pendingNotifies - 1 else 0)
    case ThreadMoves(io) => ThreadStep(s, io)
    case ThreadWaitFails => s.(thread := CheckTerminate)
    case MainMoves(io) => MainStep(s, io)
  }

  // ---- Invariants ----

  /** Past the join the recorder thread is gone and has left its rest in the buffer. */
  predicate Joined<T>(s: State<T>) {
    s.main != Recording && s.main != StopNotify && s.main != StopJoin
  }

  predicate ThreadShape<T>(s: State<T>) {
    && (Joined(s) ==> s.thread == Finished)
    && (s.thread == Finished ==> s.local == [] && s.main != Recording)
    && (s.terminate <==> s.main == StopNotify || s.main == StopJoin || s.main == StopReset)
    && (s.thread == Leaving ==> s.terminate)
  }

  /** No wakeup is lost: a sample in the buffer is announced, or the thread is on its way to take it. */
  predicate Announced<T>(s: State<T>) {
    s.buffer != [] && (s.thread == LoopTop || s.thread == AtWait || s.thread == Writing) ==>
      s.semaphore > 0 || s.pendingNotifies > 0
  }

  /** The stop request cannot be missed although its post may be drained. */
  predicate StopAnnounced<T>(s: State<T>) {
    s.main == StopJoin && (s.thread == AtWait || s.thread == Taking || s.thread == Writing) ==>
      s.semaphore > 0 || s.thread == Taking || s.thread == Writing
  }

  /** Outside its write loop the thread holds unwritten samples exactly when its last pass failed. */
  predicate PassShape<T>(s: State<T>) {
    && (s.thread != Writing && s.thread != Finished ==> (s.local != [] <==> s.lastPassFailed))
    && (s.thread == Writing && s.lastPassFailed ==> s.local != [])
  }

  predicate Whole<T>(s: State<T>)
    requires s.settings.Ok()
  {
    var w := s.settings.Width();
    |s.buffer| % w == 0 && |s.local| % w == 0 && |s.accepted| % w == 0
  }

  /** The samples are so few that the 32-bit file number cannot wrap. */
  predicate Fits<T>(s: State<T>) {
    s.settings.perFile > 0 ==> |s.accepted| <= UINT32_LIMIT * (s.settings.perFile * s.settings.Width())
  }

  /** Files, then the thread's local buffer, then what was dropped, then the shared buffer: all samples in order. */
  ghost predicate AllKept<T>(s: State<T>) {
    Stored(s.disk.files, s.disk.created) + s.local + s.dropped + s.buffer == s.accepted
  }

  ghost predicate Conserved<T>(s: State<T>) {
    && DiskOk(s.settings, s.disk)
    && AllKept(s)
    && (s.dropped != [] ==> s.thread == Finished)
    && (s.dropped != [] ==> s.main == FlushEnd || s.main == Stopped)
  }

  ghost predicate Inv<T>(s: State<T>) {
    && s.settings.Ok()
    && ThreadShape(s)
    && Announced(s)
    && StopAnnounced(s)
    && PassShape(s)
    && Whole(s)
    && (Fits(s) ==> Conserved(s))
  }

  lemma InitInv<T>(c: Settings, files: map<nat, DataFile<T>>)
    requires c.Ok()
    ensures Inv(Init(c, files))
  {
    FreshDiskOk(c, files);
    DivModUnique(0, c.Width(), 0, 0);
  }

  // With few enough samples the next pass of the write loop cannot begin a file too many.
  lemma FewFiles<T>(s: State<T>, buffer: seq<T>, io: Io)
    requires s.settings.Ok() && DiskOk(s.settings, s.disk) && Fits(s)
    requires |Stored(s.disk.files, s.disk.created)| + |buffer| <= |s.accepted| && buffer != []
    ensures WriteChunk(s.settings, s.disk, buffer, io).disk.created <= UINT32_LIMIT
  {
    var c, d := s.settings, s.disk;
    if !d.started && d.created == UINT32_LIMIT {
      assert d.Finished() == UINT32_LIMIT;
      assert 0 in d.files && c.perFile > 0;
      StoredAtLeast(c, d.files, UINT32_LIMIT);
    }
  }

  lemma PassKeepsConserved<T>(s: State<T>, io: Io)
    requires s.settings.Ok() && Fits(s) && Conserved(s) && s.thread == Writing && s.local != []
    ensures Conserved(ThreadStep(s, io))
  {
    var r, s' := WriteChunk(s.settings, s.disk, s.local, io), ThreadStep(s, io);
    FewFiles(s, s.local, io);
    ChunkConserves(s.settings, s.disk, s.local, io);
    assert s'.disk == r.disk && s'.local == r.rest && s'.dropped == s.dropped == [] && s'.buffer == s.buffer;
  }

  lemma ThreadKeepsConserved<T>(s: State<T>, io: Io)
    requires s.settings.Ok() && ThreadShape(s) && Fits(s) && Conserved(s) && ThreadEnabled(s)
    ensures Conserved(ThreadStep(s, io))
  {
    var stored := Stored(s.disk.files, s.disk.created);
    match s.thread
    case Writing => if s.local != [] { PassKeepsConserved(s, io); }
    case Taking => assert stored + (s.local + s.buffer) + s.dropped + [] == stored + s.local + s.dropped + s.buffer;
    case Leaving => assert stored + [] + s.dropped + (s.local + s.buffer) == stored + s.local + s.dropped + s.buffer;
    case _ =>
  }

  lemma FlushKeepsConserved<T>(s: State<T>, io: Io)
    requires s.settings.Ok() && ThreadShape(s) && Fits(s) && Conserved(s) && s.main == Flushing && s.buffer != []
    ensures Conserved(MainStep(s, io))
  {
    var r, s' := WriteChunk(s.settings, s.disk, s.buffer, io), MainStep(s, io);
    assert s.local == [] && s.dropped == [];
    FewFiles(s, s.buffer, io);
    ChunkConserves(s.settings, s.disk, s.buffer, io);
    OnlyBuffer(Stored(s.disk.files, s.disk.created), s.buffer);
    OnlyBuffer(Stored(r.disk.files, r.disk.created), r.rest);
    assert s'.disk == r.disk && s'.local == [];
    if r.again {
      assert s'.buffer == r.rest && s'.dropped == [];
    } else {
      assert s'.buffer == [] && s'.dropped == r.rest;
    }
  }

  lemma OnlyBuffer<T>(stored: seq<T>, rest: seq<T>)
    ensures stored + [] + [] + rest == stored + rest
    ensures stored + [] + rest + [] == stored + rest
  {
  }

  lemma MainKeepsConserved<T>(s: State<T>, io: Io)
    requires s.settings.Ok() && ThreadShape(s) && Fits(s) && Conserved(s)
    ensures Conserved(MainStep(s, io))
  {
    if s.main == Flushing && s.buffer != [] { FlushKeepsConserved(s, io); }
  }

  lemma WholeSum<T>(a: seq<T>, b: seq<T>, w: nat)
    requires w > 0 && |a| % w == 0 && |b| % w == 0
    ensures |a + b| % w == 0
  {
    ModShift(|a|, |b|, w);
  }

  lemma StepKeepsWhole<T>(s: State<T>, a: Action<T>)
    requires s.settings.Ok() && Whole(s) && Enabled(s, a)
    ensures Whole(Apply(s, a))
  {
    var w := s.settings.Width();
    DivModUnique(0, w, 0, 0);
    DivModUnique(w, w, 1, 0);
    match a
    case WriterAppends(sample) =>
      WholeSum(s.buffer, sample, w);
      WholeSum(s.accepted, sample, w);
    case ThreadMoves(io) =>
      WholeSum(s.local, s.buffer, w);
      if s.thread == Writing && s.local != [] { ChunkRest(s.settings, s.disk, s.local, io); }
    case MainMoves(io) =>
      if s.main == Flushing && s.buffer != [] { ChunkRest(s.settings, s.disk, s.buffer, io); }
    case _ =>
  }

  lemma ChunkRest<T>(c: Settings, d: Disk<T>, buffer: seq<T>, io: Io)
    requires c.Ok() && |buffer| % c.Width() == 0
    ensures |WriteChunk(c, d, buffer, io).rest| % c.Width() == 0
  {
    ChunkFits(c, |buffer|);
  }

  lemma StepKeepsPass<T>(s: State<T>, a: Action<T>)
    requires s.settings.Ok() && Whole(s) && PassShape(s) && Enabled(s, a)
    ensures PassShape(Apply(s, a))
  {
    if a.ThreadMoves? && s.thread == Writing && s.local != [] { GivesUpExactly(s.settings, s.disk, s.local, a.io); }
  }

  lemma StepKeepsProgress<T>(s: State<T>, a: Action<T>)
    requires s.settings.Ok() && ThreadShape(s) && Announced(s) && StopAnnounced(s) && Enabled(s, a)
    ensures ThreadShape(Apply(s, a)) && Announced(Apply(s, a)) && StopAnnounced(Apply(s, a))
  {
  }

  lemma StepKeepsConserved<T>(s: State<T>, a: Action<T>)
    requires s.settings.Ok() && ThreadShape(s) && Enabled(s, a) && Fits(Apply(s, a)) && (Fits(s) ==> Conserved(s))
    ensures Conserved(Apply(s, a))
  {
    assert Fits(s);
    match a
    case WriterAppends(sample) =>
      var stored := Stored(s.disk.files, s.disk.created);
      assert stored + s.local + s.dropped + (s.buffer + sample) == (stored + s.local + s.dropped + s.buffer) + sample;
    case ThreadMoves(io) => ThreadKeepsConserved(s, io);
    case MainMoves(io) => MainKeepsConserved(s, io);
    case _ =>
  }

  lemma StepKeepsInv<T>(s: State<T>, a: Action<T>)
    requires Inv(s) && Enabled(s, a)
    ensures Inv(Apply(s, a))
  {
    StepKeepsWhole(s, a);
    StepKeepsProgress(s, a);
    StepKeepsPass(s, a);
    if Fits(Apply(s, a)) { StepKeepsConserved(s, a); }
  }

  // ---- Runs ----

  ghost predicate Runs<T>(s: State<T>, actions: seq<Action<T>>, end: State<T>)
    requires s.settings.Ok()
    decreases |actions|
  {
    if actions == [] then end == s
    else
      && Enabled(s, actions[0])
      && Apply(s, actions[0]).settings.Ok()
      && Runs(Apply(s, actions[0]), actions[1..], end)
  }

  /** s is reached from a fresh start over some contents of the directory. */
  ghost predicate Reachable<T(!new)>(s: State<T>) {
    && s.settings.Ok()
    && exists files, actions :: Runs(Init(s.settings, files), actions, s)
  }

  lemma {:induction false} RunKeepsInv<T>(s: State<T>, actions: seq<Action<T>>, end: State<T>)
    requires Inv(s) && Runs(s, actions, end)
    ensures Inv(end)
    decreases |actions|
  {
    if actions != [] {
      StepKeepsInv(s, actions[0]);
      RunKeepsInv(Apply(s, actions[0]), actions[1..], end);
    }
  }

  lemma ReachableInv<T(!new)>(s: State<T>)
    requires Reachable(s)
    ensures Inv(s)
  {
    var files, actions :| Runs(Init(s.settings, files), actions, s);
    InitInv(s.settings, files);
    RunKeepsInv(Init(s.settings, files), actions, s);
  }

  /**
   Conservation over every interleaving and every pattern of failures: the files in order, the thread's local
   buffer, what the flush dropped and the shared buffer are together exactly the accepted samples in order.
   Every file keeps to the rotation bounds.
   */
  lemma SamplesConserved<T(!new)>(s: State<T>)
    requires Reachable(s) && Fits(s)
    ensures Stored(s.disk.files, s.disk.created) + s.local + s.dropped + s.buffer == s.accepted
    ensures DiskOk(s.settings, s.disk)
    ensures s.settings.perFile == 0 ==> s.disk.created <= 1
  {
    ReachableInv(s);
    OneFileWithoutLimit(s.settings, s.disk);
  }

  /** The samples that the writers of a run append, in the order in which they get the lock. */
  function Samples<T>(actions: seq<Action<T>>): seq<T> {
    if actions == [] then []
    else (if actions[0].WriterAppends? then actions[0].sample else []) + Samples(actions[1..])
  }

  lemma {:induction false} AcceptedExactly<T>(s: State<T>, actions: seq<Action<T>>, end: State<T>)
    requires s.settings.Ok() && Runs(s, actions, end)
    ensures end.accepted == s.accepted + Samples(actions)
    decreases |actions|
  {
    if actions != [] {
      var a := actions[0];
      assert a.ThreadMoves? || a.MainMoves? ==> Apply(s, a).accepted == s.accepted;
      AcceptedExactly(Apply(s, a), actions[1..], end);
    }
  }

  /** So what the recorder holds after any run is what its writers have appended in that run, in order. */
  lemma RunConserves<T(!new)>(c: Settings, files: map<nat, DataFile<T>>, actions: seq<Action<T>>, end: State<T>)
    requires c.Ok() && Runs(Init(c, files), actions, end) && end.settings == c && Fits(end)
    ensures Stored(end.disk.files, end.disk.created) + end.local + end.dropped + end.buffer == Samples(actions)
  {
    AcceptedExactly(Init(c, files), actions, end);
    assert Reachable(end);
    SamplesConserved(end);
  }

  lemma OneFileWithoutLimit<T>(c: Settings, d: Disk<T>)
    requires DiskOk(c, d)
    ensures c.perFile == 0 ==> d.created <= 1
  {
    assert d.Finished() > 0 ==> 0 in d.files;
  }

  /**
   After the stop, the files hold every sample accepted before the flush exactly once and in order, precisely
   when the flush reported success; otherwise what is missing is one tail of them.
   */
  lemma FlushCompletes<T(!new)>(s: State<T>)
    requires Reachable(s) && Fits(s) && s.main == Stopped
    ensures |s.buffer| + |s.dropped| <= |s.accepted|
    ensures Stored(s.disk.files, s.disk.created) + s.dropped == s.accepted[..|s.accepted| - |s.buffer|]
    ensures s.dropped == [] <==> Stored(s.disk.files, s.disk.created) == s.accepted[..|s.accepted| - |s.buffer|]
  {
    ReachableInv(s);
    var stored := Stored(s.disk.files, s.disk.created);
    assert s.local == [];
    assert s.accepted == (stored + s.dropped) + s.buffer;
  }

  // ---- The stop leaves nothing behind ----

  /** After the flush these elements are in the files, or at their end among the dropped ones. */
  ghost predicate Saved<T>(s: State<T>, x: seq<T>) {
    s.main == FlushEnd || s.main == Stopped ==> x <= Stored(s.disk.files, s.disk.created) + s.dropped
  }

  lemma StepKeepsSaved<T>(s: State<T>, a: Action<T>, x: seq<T>)
    requires Inv(s) && Enabled(s, a) && Fits(Apply(s, a)) && x <= s.accepted && Saved(s, x)
    ensures x <= Apply(s, a).accepted && Saved(Apply(s, a), x)
  {
    if a.MainMoves? && s.main == Flushing {
      StepKeepsInv(s, a);
      FlushSaves(s, a.io);
    } else {
      OthersKeepSaved(s, a);
    }
  }

  // Nothing but the flush leads behind the flush, and there nothing changes the files any more.
  lemma OthersKeepSaved<T>(s: State<T>, a: Action<T>)
    requires s.settings.Ok() && ThreadShape(s) && Enabled(s, a) && !(a.MainMoves? && s.main == Flushing)
    ensures var s' := Apply(s, a);
            && s.accepted <= s'.accepted
            && (s'.main == FlushEnd || s'.main == Stopped ==>
                  (s.main == FlushEnd || s.main == Stopped) && s'.disk == s.disk && s'.dropped == s.dropped)
  {
  }

  lemma FlushSaves<T>(s: State<T>, io: Io)
    requires s.settings.Ok() && s.main == Flushing && Fits(MainStep(s, io)) && Inv(MainStep(s, io))
    ensures MainStep(s, io).main == FlushEnd ==>
              Stored(MainStep(s, io).disk.files, MainStep(s, io).disk.created) + MainStep(s, io).dropped == s.accepted
  {
    var s' := MainStep(s, io);
    if s'.main == FlushEnd {
      var stored := Stored(s'.disk.files, s'.disk.created);
      assert s'.local == [] && s'.buffer == [] && s'.accepted == s.accepted && AllKept(s');
      assert stored + [] + s'.dropped + [] == stored + s'.dropped;
    }
  }

  lemma {:induction false} RunKeepsSaved<T>(s: State<T>, actions: seq<Action<T>>, end: State<T>, x: seq<T>)
    requires Inv(s) && Runs(s, actions, end) && Fits(end) && x <= s.accepted && Saved(s, x)
    ensures Saved(end, x)
    decreases |actions|
  {
    if actions != [] {
      var s' := Apply(s, actions[0]);
      StepKeepsInv(s, actions[0]);
      AcceptedGrows(s', actions[1..], end);
      StepKeepsSaved(s, actions[0], x);
      RunKeepsSaved(s', actions[1..], end, x);
    }
  }

  lemma {:induction false} AcceptedGrows<T>(s: State<T>, actions: seq<Action<T>>, end: State<T>)
    requires s.settings.Ok() && Runs(s, actions, end)
    ensures |s.accepted| <= |end.accepted| && end.settings == s.settings && (Fits(end) ==> Fits(s))
    decreases |actions|
  {
    if actions != [] { AcceptedGrows(Apply(s, actions[0]), actions[1..], end); }
  }

  /**
   Whatever was accepted before the flush has ended is written or reported: from any state before the end of the flush,
   in any run to the end of the stop, everything accepted so far is in the files, followed by what the flush dropped;
   and all of it is in the files when the flush dropped nothing.
   */
  lemma AcceptedIsSaved<T(!new)>(s: State<T>, actions: seq<Action<T>>, end: State<T>)
    requires Reachable(s) && s.main != FlushEnd && s.main != Stopped
    requires Runs(s, actions, end) && end.main == Stopped && Fits(end)
    ensures s.accepted <= Stored(end.disk.files, end.disk.created) + end.dropped
    ensures end.dropped == [] ==> s.accepted <= Stored(end.disk.files, end.disk.created)
  {
    ReachableInv(s);
    RunKeepsSaved(s, actions, end, s.accepted);
    assert Stored(end.disk.files, end.disk.created) + [] == Stored(end.disk.files, end.disk.created);
  }

  /** How far the stop is from its end. */
  function StopRank<T>(s: State<T>): nat {
    match s.main
    case Recording => 9 + |s.buffer|
    case StopNotify => 8 + |s.buffer|
    case StopJoin => 7 + |s.buffer|
    case StopReset => 6 + |s.buffer|
    case StopClear => 5 + |s.buffer|
    case StopFlush => 4 + |s.buffer|
    case Flushing => 3 + |s.buffer|
    case FlushEnd => 1
    case Stopped => 0
  }

  /** Past the join every step of the stop is enabled and leads on to its end; before, only the join waits. */
  lemma StopGoesOn<T>(s: State<T>, io: Io)
    requires s.settings.Ok() && s.main != Stopped
    ensures Enabled(s, MainMoves(io)) <==> !(s.main == StopJoin && s.thread != Finished)
    ensures StopRank(MainStep(s, io)) < StopRank(s)
    ensures s.main == StopNotify <==> MainStep(s, io).semaphore == s.semaphore + 1
  {
  }

  /** What each finished step of the stop has cleared, as long as nobody writes. */
  predicate ClearedSoFar<T>(s: State<T>) {
    && s.pendingNotifies == 0
    && (s.main == StopFlush || s.main == Flushing || s.main == FlushEnd || s.main == Stopped ==> s.semaphore == 0)
    && (s.main == FlushEnd || s.main == Stopped ==> s.buffer == [])
  }

  predicate NoWriters<T>(actions: seq<Action<T>>) {
    forall i :: 0 <= i < |actions| ==> !actions[i].WriterAppends? && !actions[i].WriterSkips?
  }

  lemma StepKeepsCleared<T>(s: State<T>, a: Action<T>)
    requires s.settings.Ok() && ThreadShape(s) && ClearedSoFar(s) && Enabled(s, a)
    requires !a.WriterAppends? && !a.WriterSkips?
    ensures ClearedSoFar(Apply(s, a))
  {
  }

  lemma {:induction false} RunKeepsCleared<T>(s: State<T>, actions: seq<Action<T>>, end: State<T>)
    requires Inv(s) && ClearedSoFar(s) && NoWriters(actions) && Runs(s, actions, end)
    ensures Inv(end) && ClearedSoFar(end)
    decreases |actions|
  {
    if actions != [] {
      assert !actions[0].WriterAppends? && !actions[0].WriterSkips?;
      StepKeepsInv(s, actions[0]);
      StepKeepsCleared(s, actions[0]);
      RunKeepsCleared(Apply(s, actions[0]), actions[1..], end);
    }
  }

  /** A stop during which nobody writes leaves buffers, event and stop request as a new recorder has them. */
  lemma StoppedIsClean<T(!new)>(s: State<T>, actions: seq<Action<T>>, end: State<T>)
    requires Reachable(s) && s.main == Recording && s.pendingNotifies == 0
    requires NoWriters(actions) && Runs(s, actions, end) && end.main == Stopped
    ensures end.buffer == [] && end.local == [] && end.semaphore == 0 && end.pendingNotifies == 0
    ensures !end.terminate && end.thread == Finished
  {
    ReachableInv(s);
    RunKeepsCleared(s, actions, end);
  }

  // ---- Who waits for whom ----

  /**
   The two steps of a writer are together the `Write` of the class. Only a sample of the right size can have to wait,
   and only for the flush.
   */
  lemma WriterSteps<T>(s: State<T>, timestamp: seq<T>, values: seq<T>)
    requires s.settings.Ok() && |timestamp| == s.settings.stamp
    ensures var right := |values| == s.settings.values;
            var added := if right then timestamp + values else [];
            var s1 := Apply(s, if right then WriterAppends(timestamp + values) else WriterSkips);
            && Enabled(s, WriterSkips) && (right ==> (Enabled(s, WriterAppends(added)) <==> s.main != Flushing))
            && Enabled(s1, WriterNotifies)
            && Apply(s1, WriterNotifies)
               == s.(buffer := s.buffer + added, accepted := s.accepted + added, semaphore := s.semaphore + 1)
    ensures Enabled(s, WriterNotifies) <==> s.pendingNotifies >= 1
  {
  }

  /** The recorder thread is blocked only while it waits and nothing has been posted; no lock ever delays it. */
  lemma ThreadWaitsExactly<T(!new)>(s: State<T>, io: Io)
    requires Reachable(s)
    ensures Enabled(s, ThreadMoves(io)) <==> s.thread != Finished && (s.thread == AtWait ==> s.semaphore >= 1)
    ensures Enabled(s, ThreadWaitFails) <==> s.thread == AtWait
  {
    ReachableInv(s);
  }

  function ThreadRun<T>(s: State<T>, n: nat): State<T>
    requires s.settings.Ok()
    decreases n
  {
    if n == 0 then s else ThreadRun(ThreadStep(s, GRANTED), n - 1)
  }

  /** A wait swallows all posts, however many there are. */
  lemma WaitDrains<T>(s: State<T>)
    requires s.settings.Ok() && s.thread == AtWait && s.semaphore > 0
    ensures ThreadRun(s, s.semaphore + 1) == s.(semaphore := 0, thread := CheckTerminate)
  {
    Drains(ThreadStep(s, GRANTED));
  }

  lemma {:induction false} Drains<T>(s: State<T>)
    requires s.settings.Ok() && s.thread == Draining
    ensures ThreadRun(s, s.semaphore + 1) == s.(semaphore := 0, thread := CheckTerminate)
    decreases s.semaphore
  {
    if s.semaphore == 0 {
      assert ThreadRun(ThreadStep(s, GRANTED), 0) == ThreadStep(s, GRANTED);
    } else {
      Drains(ThreadStep(s, GRANTED));
    }
  }

  /** While the recorder thread is alive, a non-empty buffer is never left without a wakeup. */
  lemma NoLostWakeup<T(!new)>(s: State<T>)
    requires Reachable(s) && s.buffer != [] && s.thread != Finished
    ensures s.semaphore > 0 || s.pendingNotifies > 0
            || s.thread == Draining || s.thread == CheckTerminate || s.thread == Taking
            || (s.thread == Leaving && s.terminate)
  {
    ReachableInv(s);
  }

  /** A bound on the steps of the recorder thread while it is being joined and nobody posts. */
  function ThreadRank<T>(s: State<T>): nat {
    match s.thread
    case Finished => 0
    case Leaving => 1
    case LoopTop => 2
    case CheckTerminate => 2
    case Writing => 3 + |s.local|
    case Taking => 4 + |s.local| + |s.buffer|
    case Draining => 3 + s.semaphore
    case AtWait => 4 + s.semaphore
  }

  /** The stop request is always observed: the joined thread is never blocked, and its steps lead to its end. */
  lemma JoinedThreadEnds<T(!new)>(s: State<T>, io: Io)
    requires Reachable(s) && s.main == StopJoin && s.thread != Finished
    ensures ThreadEnabled(s)
    ensures ThreadRank(ThreadStep(s, io)) < ThreadRank(s)
  {
    ReachableInv(s);
  }

  /** What one step of another thread can add to the rank: a post, or the elements that the thread is about to take. */
  function Raised<T>(s: State<T>, a: Action<T>): nat {
    match a
    case WriterNotifies => 1
    case WriterAppends(sample) => |sample|
    case _ => 0
  }

  predicate ThreadAction<T>(a: Action<T>) { a.ThreadMoves? || a.ThreadWaitFails? }

  lemma JoinStepBound<T>(s: State<T>, a: Action<T>)
    requires Inv(s) && s.main == StopJoin && Enabled(s, a) && Apply(s, a).main == StopJoin
    ensures (if ThreadAction(a) then 1 else 0) + ThreadRank(Apply(s, a)) <= ThreadRank(s) + Raised(s, a)
  {
  }

  /** A run during which `Stop` waits for the recorder thread. */
  ghost predicate JoinRun<T>(s: State<T>, actions: seq<Action<T>>, end: State<T>)
    requires s.settings.Ok()
    decreases |actions|
  {
    && s.main == StopJoin
    && if actions == [] then end == s
       else
         && Enabled(s, actions[0]) && Apply(s, actions[0]).settings.Ok()
         && JoinRun(Apply(s, actions[0]), actions[1..], end)
  }

  function ThreadSteps<T>(actions: seq<Action<T>>): nat {
    if actions == [] then 0 else (if ThreadAction(actions[0]) then 1 else 0) + ThreadSteps(actions[1..])
  }

  function RaisedBy<T>(s: State<T>, actions: seq<Action<T>>): nat
    requires s.settings.Ok()
    decreases |actions|
  {
    if actions == [] then 0
    else
      Raised(s, actions[0])
      + if Apply(s, actions[0]).settings.Ok() then RaisedBy(Apply(s, actions[0]), actions[1..]) else 0
  }

  /**
   Over any run of the join: the recorder thread takes no more steps than its rank at the beginning, plus one for
   every post and one for every element that writers add meanwhile. So it ends unless writers go on without end.
   */
  lemma {:induction false} JoinBound<T>(s: State<T>, actions: seq<Action<T>>, end: State<T>)
    requires Inv(s) && JoinRun(s, actions, end)
    ensures ThreadSteps(actions) + ThreadRank(end) <= ThreadRank(s) + RaisedBy(s, actions)
    decreases |actions|
  {
    if actions != [] {
      StepKeepsInv(s, actions[0]);
      JoinStepBound(s, actions[0]);
      JoinBound(Apply(s, actions[0]), actions[1..], end);
    }
  }

  // ---- The steps of the write loop are the method ----

  /** The thread from its first pass until it leaves the write loop. */
  function WritingRun<T>(s: State<T>, io: nat -> Io, k: nat): State<T>
    requires s.settings.Ok()
    decreases |s.local|, if s.thread == Writing then 1 else 0
  {
    if s.thread != Writing then s else WritingRun(ThreadStep(s, io(k)), io, k + 1)
  }

  /** Pass by pass, the thread does what `DataRecorder.WriteBufferToDataFiles` does, and touches nothing else. */
  lemma {:induction false} WritingRunIsWriteBuffer<T>(s: State<T>, io: nat -> Io, k: nat)
    requires s.settings.Ok() && s.thread == Writing
    ensures var r := WriteBuffer(s.settings, s.disk, s.local, io, k);
            && WritingRun(s, io, k) == s.(disk := r.disk, local := r.rest, thread := LoopTop,
                                          lastPassFailed := WritingRun(s, io, k).lastPassFailed)
    decreases |s.local|
  {
    var s' := ThreadStep(s, io(k));
    if s'.thread == Writing {
      WritingRunIsWriteBuffer(s', io, k + 1);
    } else {
      assert WritingRun(s', io, k + 1) == s';
    }
  }

  /** The flush from its first pass to its end. */
  function FlushRun<T>(s: State<T>, io: nat -> Io, k: nat): State<T>
    requires s.settings.Ok()
    decreases |s.buffer|, if s.main == Flushing then 1 else 0
  {
    if s.main != Flushing then s else FlushRun(MainStep(s, io(k)), io, k + 1)
  }

  /** Pass by pass, the flush does what `DataRecorder.FlushBuffer` does: it drops exactly what the method reports. */
  lemma {:induction false} FlushRunIsWriteBuffer<T>(s: State<T>, io: nat -> Io, k: nat)
    requires s.settings.Ok() && s.main == Flushing && s.dropped == []
    ensures var r := WriteBuffer(s.settings, s.disk, s.buffer, io, k);
            FlushRun(s, io, k) == s.(disk := r.disk, buffer := [], dropped := r.rest, main := FlushEnd)
    decreases |s.buffer|
  {
    var s' := MainStep(s, io(k));
    if s'.main == Flushing {
      FlushRunIsWriteBuffer(s', io, k + 1);
    } else {
      assert FlushRun(s', io, k + 1) == s';
    }
  }

  // ---- When samples wait ----

  /**
   For every reachable state: while the thread waits, it holds unwritten samples if and only if a call of its last
   write pass failed.
   */
  lemma WaitingExactly<T(!new)>(s: State<T>)
    requires Reachable(s) && s.thread == AtWait
    ensures s.local != [] <==> s.lastPassFailed
  {
    ReachableInv(s);
  }

  /**
   A recorder at rest, with its thread waiting and no post pending or about to be made, has everything in its files
   if and only if no call of the last write pass failed.
   */
  lemma QuietExactly<T(!new)>(s: State<T>)
    requires Reachable(s) && Fits(s) && s.main == Recording
    requires s.thread == AtWait && s.semaphore == 0 && s.pendingNotifies == 0
    ensures s.buffer == [] && s.dropped == []
    ensures Stored(s.disk.files, s.disk.created) == s.accepted <==> !s.lastPassFailed
  {
    ReachableInv(s);
    var stored := Stored(s.disk.files, s.disk.created);
    assert stored + s.local + [] + [] == stored + s.local;
    assert s.local == [] ==> stored + s.local == stored;
  }

  // ---- The recorder thread settles ----

  /** How far the thread is from its rest when nobody disturbs it and no call fails. */
  function SettleRank<T>(s: State<T>): nat {
    7 * s.semaphore + |s.local| + |s.buffer| +
    match s.thread
    case Draining => 5
    case CheckTerminate => 4
    case Taking => 3
    case Writing => 2
    case LoopTop => 1
    case _ => 0
  }

  predicate Undisturbed<T>(s: State<T>) { s.main == Recording && s.pendingNotifies == 0 && !s.lastPassFailed }

  predicate Resting<T>(s: State<T>) { s.thread == AtWait && s.semaphore == 0 }

  lemma SettleStep<T>(s: State<T>)
    requires Inv(s) && Undisturbed(s)
    ensures ThreadEnabled(s) <==> !Resting(s)
    ensures !Resting(s) ==>
              var s' := ThreadStep(s, GRANTED);
              SettleRank(s') < SettleRank(s) && Undisturbed(s') && s'.accepted == s.accepted
              && s'.settings == s.settings
  {
    if s.thread == Writing && s.local != [] { GivesUpExactly(s.settings, s.disk, s.local, GRANTED); }
  }

  predicate ThreadSucceeds<T>(actions: seq<Action<T>>) {
    forall i :: 0 <= i < |actions| ==> actions[i] == ThreadMoves(GRANTED)
  }

  lemma RestHasStored<T>(s: State<T>)
    requires Inv(s) && Undisturbed(s) && Resting(s) && Fits(s)
    ensures Stored(s.disk.files, s.disk.created) == s.accepted
  {
    assert s.local == [] && s.buffer == [] && s.dropped == [];
    OnlyBuffer(Stored(s.disk.files, s.disk.created), []);
  }

  /**
   Convergence: left alone with calls that succeed, the thread takes at most its rank of steps from any state in which
   no earlier call has failed it, and when it can take no more, every accepted sample is in the files.
   */
  lemma {:induction false} Settles<T>(s: State<T>, actions: seq<Action<T>>, end: State<T>)
    requires Inv(s) && Undisturbed(s) && Fits(s) && ThreadSucceeds(actions) && Runs(s, actions, end)
    ensures |actions| + SettleRank(end) <= SettleRank(s)
    ensures !ThreadEnabled(end) ==>
              Resting(end) && end.accepted == s.accepted && Stored(end.disk.files, end.disk.created) == s.accepted
    decreases |actions|
  {
    SettleStep(s);
    if actions == [] {
      if Resting(s) { RestHasStored(s); }
    } else {
      assert actions[0] == ThreadMoves(GRANTED);
      StepKeepsInv(s, actions[0]);
      Settles(Apply(s, actions[0]), actions[1..], end);
    }
  }

  /** And such a run to the rest exists from every such state. */
  lemma {:induction false} RestIsReached<T>(s: State<T>) returns (actions: seq<Action<T>>, end: State<T>)
    requires Inv(s) && Undisturbed(s)
    ensures ThreadSucceeds(actions) && Runs(s, actions, end) && Resting(end) && !ThreadEnabled(end)
    decreases SettleRank(s)
  {
    SettleStep(s);
    if Resting(s) {
      actions, end := [], s;
    } else {
      StepKeepsInv(s, ThreadMoves(GRANTED));
      var rest;
      rest, end := RestIsReached(ThreadStep(s, GRANTED));
      actions := [ThreadMoves(GRANTED)] + rest;
      assert actions[1..] == rest;
    }
  }

  const GRANTED := Io(true, true, true)

  predicate NoFailures<T>(actions: seq<Action<T>>) {
    forall i :: 0 <= i < |actions| && actions[i].ThreadMoves? ==> actions[i].io == GRANTED
  }

  lemma {:induction false} NoFailuresKeep<T>(s: State<T>, actions: seq<Action<T>>, end: State<T>)
    requires s.settings.Ok() && Runs(s, actions, end) && NoFailures(actions) && !s.lastPassFailed
    ensures !end.lastPassFailed
    decreases |actions|
  {
    if actions != [] {
      assert actions[0].ThreadMoves? ==> actions[0].io == GRANTED;
      NoFailuresKeep(Apply(s, actions[0]), actions[1..], end);
    }
  }

  /** Over every run without failures, no sample sleeps: at rest the files hold everything. */
  lemma NoFailuresNothingWaits<T(!new)>(c: Settings, files: map<nat, DataFile<T>>, actions: seq<Action<T>>, s: State<T>)
    requires c.Ok() && Runs(Init(c, files), actions, s) && NoFailures(actions) && s.settings == c
    ensures s.thread == AtWait ==> s.local == []
    ensures Fits(s) && s.main == Recording && s.thread == AtWait && s.semaphore == 0 && s.pendingNotifies == 0 ==>
              Stored(s.disk.files, s.disk.created) == s.accepted
  {
    NoFailuresKeep(Init(c, files), actions, s);
    assert Reachable(s);
    if s.thread == AtWait { WaitingExactly(s); }
    if Fits(s) && s.main == Recording && s.thread == AtWait && s.semaphore == 0 && s.pendingNotifies == 0 {
      QuietExactly(s);
    }
  }

  // ---- A failed write waits for the next event ----

  lemma {:induction false} ExtendRun<T>(s: State<T>, actions: seq<Action<T>>, mid: State<T>, a: Action<T>)
    requires s.settings.Ok() && Runs(s, actions, mid) && mid.settings.Ok() && Enabled(mid, a)
        && Apply(mid, a).settings.Ok()
    ensures Runs(s, actions + [a], Apply(mid, a))
    decreases |actions|
  {
    if actions == [] {
      assert ([a])[1..] == [];
    } else {
      ExtendRun(Apply(s, actions[0]), actions[1..], mid, a);
      assert (actions + [a])[1..] == actions[1..] + [a];
    }
  }

  lemma Extend<T(!new)>(s: State<T>, a: Action<T>, s': State<T>)
    requires Reachable(s) && Enabled(s, a) && s' == Apply(s, a) && s'.settings == s.settings
    ensures Reachable(s')
  {
    var files, actions :| Runs(Init(s.settings, files), actions, s);
    ExtendRun(Init(s.settings, files), actions, s, a);
  }

  const REFUSED := Io(false, false, false)

  // A first sample has been appended and announced, and the thread is about to take it.
  lemma ReachesTaking<T(!new)>(c: Settings, sample: seq<T>)
    requires c.Ok() && |sample| == c.Width()
    ensures Reachable(Init<T>(c, map[]).(buffer := sample, accepted := sample, thread := Taking))
  {
    var s0 := Init<T>(c, map[]);
    assert Runs(s0, [], s0);
    var s1 := s0.(buffer := sample, accepted := sample, pendingNotifies := 1);
    assert [] + sample == sample;
    Extend(s0, WriterAppends(sample), s1);
    var s2 := s1.(semaphore := 1, pendingNotifies := 0);
    Extend(s1, WriterNotifies, s2);
    Extend(s2, ThreadMoves(REFUSED), s2.(thread := AtWait));
    var s3 := s2.(semaphore := 0, thread := Draining);
    Extend(s2.(thread := AtWait), ThreadMoves(REFUSED), s3);
    Extend(s3, ThreadMoves(REFUSED), s3.(thread := CheckTerminate));
    Extend(s3.(thread := CheckTerminate), ThreadMoves(REFUSED), s3.(thread := Taking));
  }

  /**
   Samples whose write failed stay in the thread's local buffer without any wakeup pending: they are written
   with the next sample or by the final flush, not earlier.
   */
  lemma FailedWriteIsNotRetried<T(!new)>(c: Settings, sample: seq<T>)
    requires c.Ok() && |sample| == c.Width()
    ensures exists s: State<T> :: Reachable(s) && s.thread == AtWait && s.semaphore == 0 && s.pendingNotifies == 0
                                  && s.main == Recording && s.local == sample && s.disk.created == 0 && s.lastPassFailed
  {
    ReachesTaking(c, sample);
    var s3 := Init<T>(c, map[]).(buffer := sample, accepted := sample, thread := Taking);
    var s4 := s3.(thread := Writing, local := sample, buffer := []);
    assert [] + sample == sample;
    Extend(s3, ThreadMoves(REFUSED), s4);
    assert WriteChunk(c, s4.disk, sample, REFUSED) == Chunk(s4.disk, sample, false);
    var s5 := s4.(thread := LoopTop, lastPassFailed := true);
    Extend(s4, ThreadMoves(REFUSED), s5);
    Extend(s5, ThreadMoves(REFUSED), s5.(thread := AtWait));
  }

  // ---- How large a file can become ----

  lemma StepKeepsSizes<T>(s: State<T>, a: Action<T>)
    requires s.settings.Ok() && s.settings.perFile > 0 && SizesOk(s.settings, s.disk) && Enabled(s, a)
    ensures SizesOk(s.settings, Apply(s, a).disk) && Apply(s, a).settings == s.settings
  {
    match a
    case ThreadMoves(io) => if s.thread == Writing { PassKeepsSizes(s.settings, s.disk, s.local, io); }
    case MainMoves(io) => if s.main == Flushing { PassKeepsSizes(s.settings, s.disk, s.buffer, io); }
    case _ =>
  }

  lemma {:induction false} RunKeepsSizes<T>(s: State<T>, actions: seq<Action<T>>, end: State<T>)
    requires s.settings.Ok() && s.settings.perFile > 0 && SizesOk(s.settings, s.disk) && Runs(s, actions, end)
    ensures end.settings == s.settings && SizesOk(end.settings, end.disk)
    decreases |actions|
  {
    if actions != [] {
      StepKeepsSizes(s, actions[0]);
      RunKeepsSizes(Apply(s, actions[0]), actions[1..], end);
    }
  }

  /** The files of a run; after the number has wrapped there are 2^32 of them. */
  function NumFiles<T>(s: State<T>): nat { Min(s.disk.created, UINT32_LIMIT) }

  /** No file holds more than n samples. */
  predicate FilesHold<T>(s: State<T>, n: nat) {
    forall k :: 0 <= k < NumFiles(s) && k in s.disk.files ==> |s.disk.files[k].data| <= n * s.settings.Width()
  }

  /** The bound on every file in every reachable state, before and after the file number wraps. */
  lemma FileBound<T(!new)>(s: State<T>)
    requires Reachable(s) && s.settings.perFile > 0
    ensures FilesHold(s, 2 * s.settings.perFile - 1)
  {
    var files, actions :| Runs(Init(s.settings, files), actions, s);
    RunKeepsSizes(Init(s.settings, files), actions, s);
  }

  /** Recording, with nothing buffered and no post pending, at the top of the thread's loop. */
  predicate Between<T>(s: State<T>) {
    && s.main == Recording && s.thread == LoopTop && !s.terminate && s.semaphore == 0
    && s.local == [] && s.buffer == [] && s.dropped == []
  }

  // One post, and the thread writes the whole buffer.
  lemma WritesAll<T(!new)>(s: State<T>, io: nat -> Io) returns (s': State<T>)
    requires Reachable(s) && Between(s.(buffer := [])) && s.pendingNotifies > 0
    requires WriteBuffer(s.settings, s.disk, s.buffer, io, 0).rest == []
    ensures Reachable(s') && s'.disk == WriteBuffer(s.settings, s.disk, s.buffer, io, 0).disk
    ensures Between(s') && s'.settings == s.settings && s'.accepted == s.accepted
    ensures s'.pendingNotifies == s.pendingNotifies - 1
  {
    TakesBuffer(s);
    assert [] + s.buffer == s.buffer;
    var taken := s.(thread := Writing, local := s.buffer, buffer := [], pendingNotifies := s.pendingNotifies - 1);
    WritingRunReachable(taken, io, 0);
    WritingRunIsWriteBuffer(taken, io, 0);
    s' := WritingRun(taken, io, 0);
  }

  // n samples appended and then written.
  lemma AppendsAndWrites<T(!new)>(s: State<T>, x: T, n: nat, io: nat -> Io) returns (s': State<T>)
    requires Reachable(s) && Between(s) && n > 0
    requires WriteBuffer(s.settings, s.disk, Copies(x, n * s.settings.Width()), io, 0).rest == []
    ensures Reachable(s') && s'.disk == WriteBuffer(s.settings, s.disk, Copies(x, n * s.settings.Width()), io, 0).disk
    ensures Between(s') && s'.settings == s.settings && s'.pendingNotifies == s.pendingNotifies + n - 1
    ensures s'.accepted == s.accepted + Copies(x, n * s.settings.Width())
  {
    var samples := Copies(x, n * s.settings.Width());
    AppendsMany(s, x, n);
    assert [] + samples == samples;
    var s1 := s.(buffer := samples, accepted := s.accepted + samples, pendingNotifies := s.pendingNotifies + n);
    s' := WritesAll(s1, io);
  }

  lemma StartsBetween<T(!new)>(c: Settings)
    requires c.Ok()
    ensures Reachable(Init<T>(c, map[])) && Between(Init<T>(c, map[]))
  {
    assert Runs(Init<T>(c, map[]), [], Init<T>(c, map[]));
  }

  // One sample less than the limit, and then as many as the limit, end up in one file.
  lemma LargestFile<T(!new)>(c: Settings, x: T) returns (s: State<T>)
    requires c.Ok() && c.perFile > 1
    ensures Reachable(s) && s.settings == c && s.disk.created == 1
    ensures 0 in s.disk.files && |s.disk.files[0].data| == (2 * c.perFile - 1) * c.Width()
  {
    var n, w, io := c.perFile, c.Width(), (_: nat) => GRANTED;
    var one, two := Copies(x, (n - 1) * w), Copies(x, n * w);
    StartsBetween<T>(c);
    FirstWrite(c, one, n - 1, io);
    var s1 := AppendsAndWrites(Init<T>(c, map[]), x, n - 1, io);
    RotationBoundIsTight(c, one, two, io);
    SecondWrite(c, s1.disk, two, io);
    s := AppendsAndWrites(s1, x, n, io);
    Distribute(n - 1, n, w);
  }

  /**
   Where there is a limit, the documented maximum of `perFile` samples per file holds in all reachable states if and
   only if `perFile` is 1.
   */
  lemma DocumentedMaximumExactly<T(!new)>(c: Settings, x: T)
    requires c.Ok() && c.perFile > 0
    ensures (forall s: State<T> :: Reachable(s) && s.settings == c ==> FilesHold(s, c.perFile)) <==> c.perFile == 1
  {
    if c.perFile == 1 {
      forall s: State<T> | Reachable(s) && s.settings == c ensures FilesHold(s, 1) { FileBound(s); }
    } else {
      var s := LargestFile(c, x);
      StrictlyMore(c.perFile, 2 * c.perFile - 1, c.Width());
      assert !FilesHold(s, c.perFile);
    }
  }

  lemma StrictlyMore(a: nat, b: nat, w: nat)
    requires a < b && w > 0
    ensures a * w < b * w
  {
    MulMono(w, a + 1, b);
  }

  // ---- How many samples a run can conserve ----

  lemma MoreCopies<T>(front: seq<T>, x: T, n: nat, w: nat)
    requires n > 0
    ensures front + Copies(x, (n - 1) * w) + Copies(x, w) == front + Copies(x, n * w)
  {
    OneLess(n, w);
    assert Copies(x, (n - 1) * w) + Copies(x, w) == Copies(x, n * w);
  }

  // Any number of samples in a row, each of them still to be announced.
  lemma {:induction false} AppendsMany<T(!new)>(s: State<T>, x: T, n: nat)
    requires Reachable(s) && s.main == Recording
    ensures Reachable(s.(buffer := s.buffer + Copies(x, n * s.settings.Width()),
                         accepted := s.accepted + Copies(x, n * s.settings.Width()),
                         pendingNotifies := s.pendingNotifies + n))
  {
    var w := s.settings.Width();
    if n == 0 {
      assert s.buffer + Copies(x, 0) == s.buffer && s.accepted + Copies(x, 0) == s.accepted;
      assert s.(buffer := s.buffer + Copies(x, 0), accepted := s.accepted + Copies(x, 0)) == s;
    } else {
      AppendsMany(s, x, n - 1);
      var m := (n - 1) * w;
      var s1 := s.(buffer := s.buffer + Copies(x, m), accepted := s.accepted + Copies(x, m),
                   pendingNotifies := s.pendingNotifies + (n - 1));
      MoreCopies(s.buffer, x, n, w);
      MoreCopies(s.accepted, x, n, w);
      Extend(s1, WriterAppends(Copies(x, w)),
             s.(buffer := s.buffer + Copies(x, n * w), accepted := s.accepted + Copies(x, n * w),
                pendingNotifies := s.pendingNotifies + n));
    }
  }

  // One post, and the thread takes the buffer.
  lemma TakesBuffer<T(!new)>(s: State<T>)
    requires Reachable(s) && s.thread == LoopTop && !s.terminate && s.main == Recording && s.semaphore == 0
        && s.pendingNotifies > 0
    ensures Reachable(s.(thread := Writing, local := s.local + s.buffer, buffer := [],
                         pendingNotifies := s.pendingNotifies - 1))
  {
    var s1 := s.(semaphore := 1, pendingNotifies := s.pendingNotifies - 1);
    Extend(s, WriterNotifies, s1);
    Extend(s1, ThreadMoves(GRANTED), s1.(thread := AtWait));
    DrainsAndTakes(s1.(thread := AtWait));
    assert s1.(thread := Writing, local := s.local + s.buffer, buffer := [], semaphore := 0)
        == s.(thread := Writing, local := s.local + s.buffer, buffer := [], pendingNotifies := s.pendingNotifies - 1);
  }

  lemma DrainsAndTakes<T(!new)>(s: State<T>)
    requires Reachable(s) && s.thread == AtWait && !s.terminate && s.main == Recording && s.semaphore == 1
    ensures Reachable(s.(thread := Writing, local := s.local + s.buffer, buffer := [], semaphore := 0))
  {
    var s2 := s.(semaphore := 0);
    Extend(s, ThreadMoves(GRANTED), s2.(thread := Draining));
    Extend(s2.(thread := Draining), ThreadMoves(GRANTED), s2.(thread := CheckTerminate));
    Extend(s2.(thread := CheckTerminate), ThreadMoves(GRANTED), s2.(thread := Taking));
    Extend(s2.(thread := Taking), ThreadMoves(GRANTED),
        s2.(thread := Writing, local := s.local + s.buffer, buffer := []));
  }

  lemma {:induction false} WritingRunReachable<T(!new)>(s: State<T>, io: nat -> Io, k: nat)
    requires Reachable(s) && s.thread == Writing
    ensures Reachable(WritingRun(s, io, k))
    decreases |s.local|
  {
    var s' := ThreadStep(s, io(k));
    Extend(s, ThreadMoves(io(k)), s');
    if s'.thread == Writing {
      WritingRunReachable(s', io, k + 1);
    } else {
      assert WritingRun(s', io, k + 1) == s';
    }
  }

  /** So many samples that 2^32 files are full and nothing is left. */
  function Full(c: Settings): nat { UINT32_LIMIT * (c.perFile * c.Width()) }

  lemma FillsAll<T(!new)>(c: Settings, x: T) returns (s: State<T>)
    requires c.Ok() && c.perFile > 0
    ensures Reachable(s) && s.settings == c && Between(s) && s.pendingNotifies > 0
    ensures |s.accepted| == Full(c) && DiskOk(c, s.disk) && s.disk.created == UINT32_LIMIT && !s.disk.started
        && SmallNames(s.disk)
  {
    var n, w, io := UINT32_LIMIT * c.perFile, c.Width(), (_: nat) => GRANTED;
    assert n * w == Full(c);
    StartsBetween<T>(c);
    FreshDiskOk<T>(c, map[]);
    FillsFiles(c, FreshDisk(map[]), Copies(x, n * w), UINT32_LIMIT, io, 0);
    s := AppendsAndWrites(Init<T>(c, map[]), x, n, io);
  }

  // The sample behind the last full file destroys the first file.
  lemma OneTooMany<T(!new)>(c: Settings, x: T) returns (s: State<T>)
    requires c.Ok() && c.perFile > 0
    ensures Reachable(s) && s.settings == c && s.main == Recording && s.buffer == [] && s.dropped == []
    ensures |s.accepted| == Full(c) + c.Width()
    ensures |Stored(s.disk.files, s.disk.created)| + |s.local| < |s.accepted|
  {
    var w := c.Width();
    var s0 := FillsAll(c, x);
    ReachableInv(s0);
    AppendsMany(s0, x, 1);
    var one := Copies(x, w);
    assert 1 * w == w && [] + one == one;
    var s1 := s0.(buffer := one, accepted := s0.accepted + one, pendingNotifies := s0.pendingNotifies + 1);
    TakesBuffer(s1);
    var s2 := s1.(thread := Writing, local := one, buffer := [], pendingNotifies := s0.pendingNotifies);
    s := ThreadStep(s2, GRANTED);
    Extend(s2, ThreadMoves(GRANTED), s);
    WrapLosesFirstFile(c, s2.disk, one, GRANTED);
    assert Stored(s0.disk.files, UINT32_LIMIT) == s0.accepted by { EmptyParts(Stored(s0.disk.files, UINT32_LIMIT)); }
    assert s.disk.created == UINT32_LIMIT + 1 && UINT32_LIMIT !in s.disk.files;
    assert Stored(s.disk.files, UINT32_LIMIT + 1) == Stored(s.disk.files, UINT32_LIMIT) + [];
  }

  lemma EmptyParts<T>(stored: seq<T>)
    ensures stored + [] + [] + [] == stored
  {
  }

  /** Any longer run that loses samples. */
  lemma TooMany<T(!new)>(c: Settings, m: nat, x: T) returns (s: State<T>)
    requires c.Ok() && c.perFile > 0 && m % c.Width() == 0 && m > Full(c)
    ensures Reachable(s) && s.settings == c && |s.accepted| == m && !AllKept(s)
  {
    var w := c.Width();
    var more := m / w - UINT32_LIMIT * c.perFile;
    assert more * w == m - Full(c) by { WholeRest(m, UINT32_LIMIT, c.perFile, w); }
    assert more > 0;
    OneLess(more, w);
    var s0 := OneTooMany(c, x);
    AppendsMany(s0, x, more - 1);
    var rest := Copies(x, (more - 1) * w);
    s := s0.(buffer := s0.buffer + rest, accepted := s0.accepted + rest,
             pendingNotifies := s0.pendingNotifies + (more - 1));
  }

  lemma WholeRest(m: nat, limit: nat, perFile: nat, w: nat)
    requires w > 0 && m % w == 0
    ensures (m / w - limit * perFile) * w == m - limit * (perFile * w)
  {
    Distribute(m / w, -(limit * perFile), w);
    assert limit * (perFile * w) == limit * perFile * w;
    assert m == w * (m / w);
  }

  /**
   The exact range of conservation: every reachable state with m accepted elements keeps all of them in order if and
   only if they fit 2^32 files, or there is no limit per file.
   */
  lemma FitsExactly<T(!new)>(c: Settings, m: nat, x: T)
    requires c.Ok() && m % c.Width() == 0
    ensures (forall s: State<T> :: Reachable(s) && s.settings == c && |s.accepted| == m ==> AllKept(s))
            <==> (c.perFile > 0 ==> m <= 4294967296 * (c.perFile * c.Width()))
  {
    if c.perFile > 0 && m > Full(c) {
      var s := TooMany(c, m, x);
    } else {
      forall s: State<T> | Reachable(s) && s.settings == c && |s.accepted| == m ensures AllKept(s) { ReachableInv(s); }
    }
  }
}

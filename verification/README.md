# Verified model of Generic Target

Generic Target turns a Simulink model into a standalone real-time program. This project models the parts of it in
which threads, failing system calls and binary formats meet, and proves what they guarantee.

* **Scheduler** (`PeriodicTask.dfy`, `Scheduler.dfy`, `SchedulerTheorems.dfy`, `SchedulerProgress.dfy`,
  `SchedulerLifecycle.dfy`, `PeriodicTimer.dfy`): the master thread that turns timer expirations into base-rate ticks,
  one worker thread per task, and the thread that starts and stops them. Every access to shared data is one step of a
  state machine, and a run is any interleaving of such steps, including failed starts, failed waits and restarts.
* **Data recorder** (`DataRecorder.dfy`, `RecorderProtocol.dfy`, `RecordedFiles.dfy`): any number of writers, the
  recorder thread, and the thread that stops it. They share a buffer, a semaphore that is drained when it is waited
  for, and rotating data files whose every operation may fail.
* **File formats** (`FileFormat.dfy`, `RecorderManager.dfy`, `Decimal.dfy`): the data file headers, the index file,
  identifiers and file names, with a decoder that follows the documented layout.
* **TCP client** (`TcpClient.dfy`): a management thread that connects and reconnects while callers of Send and Receive
  hold a lock, and a Destroy that closes the socket under both of them.
* **UDP service** (`UdpService.dfy`): configuration, the bind that resumes where it failed, and multicast membership
  against the kernel's side of it.
* **Bus helpers** (`BusNames.dfy`, `Dimensions.dfy`): the MATLAB functions that flatten a bus into a label string and
  the compiled dimensions into a string and a sample size.

Code that changes objects is a class with the program's fields; each method is proved equal to a function on values,
and the theorems are about those functions. Threads are state machines: `Enabled` says when a step can be taken, `Apply`
what it does, `Reachable` is everything that a finite sequence of steps leads to.

## Findings

Each of these is a lemma or a method contract. Where the program meets a promise only under a condition, the lemma says
exactly when.

* `Notify` misses a release exactly when the period or the offset is the lowest 32-bit integer
  (`PeriodicTasks.ReleaseExactly`). This is a property of the 32-bit counters: the code generator computes periods from
  positive and offsets from non-negative times, so it does not emit that value.
* A stop that cancels the clock before the master thread has started it leaves the timer's running flag set, exactly
  when that start then succeeds, and the whole next start delivers no tick (`SchedulerTheorems.FlagExactly`,
  `EarlyStopLeavesFlag`, `StaleFlagSilencesStart`).
* While it is joined, a master thread that waits with no expiration pending is blocked exactly when the write of the
  cancel event failed (`SchedulerTheorems.CancelledMasterNotBlocked`, `FailedSignalCanBlock`).
* The documentation gives `numSamplesPerFile` as the maximum of a file. The code clips each chunk, not the file, so a
  file can hold up to twice that number less one; over all runs the documented maximum holds exactly when it is 1. The
  model follows the code (`RecorderProtocol.DocumentedMaximumExactly`, `FileBound`, `DataRecorder.RotationOvershoots`).
* The 32-bit file number wraps after 2^32 files, and the next header truncates file 0. A run of any recorder with a limit
  per file reaches this without any failure, and the number of samples that all runs conserve is exactly that of 2^32
  full files (`RecorderProtocol.FitsExactly`, `DataRecorder.PassConservesExactly`, `WrapIsReached`).
* Samples whose write failed wait for the next notification or the final flush: a recorder at rest has stored everything
  exactly when no call of its last write pass failed (`RecorderProtocol.QuietExactly`, `FailedWriteIsNotRetried`).
* The offset field of a header is a 32-bit sum and is right exactly for headers below 2^32 bytes (`FileFormat.OffsetExactly`).
* A Send or Receive that commands a new TCP address still transfers over the old connection, and so do later calls with
  the same address until the management thread acts: the transfer reaches the address of the call exactly when that is
  the address of the command the management thread last acted on (`TcpClient.TransferPeer`, `TransferToOldPeer`,
  `RepeatedCallToOldPeer`). The window ends when that thread, having read the new command, closes the old connection
  (`SocketDiscipline`, `OldPeerIsReachable`).
* A Receive for zero bytes can drop a live TCP connection; a live connection survives every answer of `recv` exactly when
  the requested size is not zero (`TcpClient.LiveReceive`, `EmptyReceiveDrops`).
* A UDP reception that read the bound flag before a Destroy and a Create can join groups on an unbound socket. Over any
  sequence of operations groups are joined only on a bound socket exactly when no reception acts on an outdated flag while
  the socket is open and the kernel accepts a valid group (`UdpService.GroupsBoundExactly`, `OutdatedReadJoins`).
* After a UDP Destroy only the default configuration is accepted (`UdpService.DestroyKeepsConfigurationMark`).
* A bus without elements behind a sibling with leaves adds a comma, so labels and the number of signals are wrong exactly
  for such trees and for trees without leaves (`BusNames.SplitExactly`, `NumSignalsExactly`).
* A last signal without dimensions is not seen by the dimension parser (`Dimensions.DimensionsExactly`). The last two are
  properties of the MATLAB functions on all their arguments; whether Simulink ever reports such a bus or signal is not
  part of this model.

## Model

| member | source | states |
|---|---|---|
| PeriodicTasks.PeriodicTask.Start | core/code/GenericTarget/GT_PeriodicTask.cpp:12-51 | a refused start changes nothing; a successful one resets counters, flag, overloads and semaphore to the state from which the closed form counts, and has a worker; one whose priority is refused is stopped again and has none |
| PeriodicTasks.PeriodicTask.Stop | core/code/GenericTarget/GT_PeriodicTask.cpp:53-68 | posts once to a started task, joins its worker, and leaves it marked as started exactly when the semaphore cannot be destroyed |
| PeriodicTasks.PeriodicTask.Notify | core/code/GenericTarget/GT_PeriodicTask.cpp:70-91 | the n-th call leaves exactly the counters and the job state that the specification functions give after n + 1 ticks |
| PeriodicTasks.CountersClosedForm | core/code/GenericTarget/GT_PeriodicTask.cpp:29-33 | both down-counters in closed form after any number of ticks |
| PeriodicTasks.CountersInRange | core/code/GenericTarget/GT_PeriodicTask.cpp:70-78 | the counters stay in [0, offset] and [1, period] for ever, so no 32-bit decrement wraps |
| PeriodicTasks.DueClosedForm | core/code/GenericTarget/GT_PeriodicTask.cpp:70-91 | tick k is a release point if and only if k >= offset and k - offset is a multiple of the period |
| PeriodicTasks.WrapMissesRelease | core/code/GenericTarget/GT_PeriodicTask.cpp:70-78 | with the lowest 32-bit value as period or offset some release is missed |
| PeriodicTasks.ReleaseExactly | core/code/GenericTarget/GT_PeriodicTask.cpp:70-91 | the closed form holds on all ticks if and only if neither value is the lowest 32-bit integer |
| PeriodicTasks.ReleaseCountClosedForm | core/code/GenericTarget/GT_PeriodicTask.cpp:70-91 | n ticks contain ceil(max(0, n - offset) / period) releases |
| PeriodicTasks.JointPattern | core/code/GenericTarget/GT_PeriodicTask.cpp:70-91 | behind the largest offset the joint pattern of all tasks repeats after h ticks if and only if h is a common multiple of the periods |
| PeriodicTasks.ShortestRepetition | core/code/GenericTarget/GT_PeriodicTask.cpp:70-91 | the shortest repetition is the least common multiple of the periods, and all repetitions are its multiples |
| PeriodicTasks.BurstAccounting | core/code/GenericTarget/GT_PeriodicTask.cpp:80-91 | while the worker does not move, any number of ticks queues at most one job and counts all other releases as overloads |
| Scheduler.NotifyPartsCompose | core/code/GenericTarget/GT_PeriodicTask.cpp:70-91 | counting, compare-and-swap and post without interference are together the sequential `Notify` |
| Scheduler.NotifyKeepsTask | core/code/GenericTarget/GT_PeriodicTask.cpp:70-91 | each atomic part of `Notify` keeps the job accounting and the single-flight invariant |
| Scheduler.StopStepKeepsTask | core/code/GenericTarget/GT_PeriodicTask.cpp:53-68 | each step of a task's stop keeps them, also when the semaphore cannot be destroyed |
| Scheduler.StopPartsCompose | core/code/GenericTarget/GT_PeriodicTask.cpp:53-68 | the four steps of a stop are together the stop of the class: one post and a join for a started task, nothing for any other |
| Scheduler.WorkerKeepsTask | core/code/GenericTarget/GT_PeriodicTask.cpp:93-119 | each step of the worker, including a failed wait, keeps them |
| Scheduler.MainKeepsInv | core/code/GenericTarget/GT_BaseRateScheduler.cpp:11-35 | every step of start, rollback and stop keeps the invariant of the whole scheduler |
| Scheduler.MasterKeepsInv | core/code/GenericTarget/GT_BaseRateScheduler.cpp:37-60 | every step of the master thread and of its wait keeps it |
| Scheduler.StepKeepsInv | core/code/GenericTarget/GT_BaseRateScheduler.cpp:11-116 | so does every step of every thread and every timer expiration |
| SchedulerTheorems.ReachableInv | core/code/GenericTarget/GT_BaseRateScheduler.cpp:11-116 | the invariant holds in every state of every interleaving |
| SchedulerTheorems.JobAccounting | core/code/GenericTarget/GT_PeriodicTask.cpp:70-119 | in every reachable state finished jobs, overloads, the job in flight and the release in the master's hand add up to the release points among the ticks delivered, in closed form unless a counter wraps |
| SchedulerTheorems.SingleFlight | core/code/GenericTarget/GT_PeriodicTask.cpp:80-119 | before its stop the semaphore of a task is 0 or 1, and its flag is set exactly when one job is being posted, queued or held by the worker |
| SchedulerTheorems.JobsAfterStop | core/code/GenericTarget/GT_PeriodicTask.cpp:53-68 | after the stop flag at most one admitted step finishes; accepted jobs are the finished ones plus at most one dropped |
| SchedulerTheorems.TickAccounting | core/code/GenericTarget/GT_PeriodicTimer.cpp:180-199 | expirations read are rounds delivered, lost ticks, the tick in hand and at most one tick discarded at the end; every task saw every finished round |
| SchedulerProgress.TickIsDelivered | core/code/GenericTarget/GT_BaseRateScheduler.cpp:45-59 | while the scheduler runs and the calls of the master succeed, a waiting master with an expiration pending is back at the top of its loop within its rank of steps, whatever the other threads do; then exactly one round has been added and every task has been notified exactly once more |
| SchedulerProgress.MasterWaitsAgain | core/code/GenericTarget/GT_PeriodicTimer.cpp:158-170 | from the top of its loop the master of a running scheduler waits again after three steps that change nothing else |
| SchedulerProgress.InterruptedWaitsAgain | core/code/GenericTarget/GT_PeriodicTimer.cpp:168-199 | so it does after an interrupted wait or read, within the same call |
| SchedulerProgress.CancelEventEnds | core/code/GenericTarget/GT_PeriodicTimer.cpp:180-183 | a cancel event ends the master at once, even when a tick is reported behind it |
| SchedulerProgress.RunningMasterStays | core/code/GenericTarget/GT_BaseRateScheduler.cpp:46-53 | before a stop sets its flag no tick that was read is discarded, and a clocked master leaves its loop only because a wait or a read failed |
| SchedulerProgress.ReadTakesAll | core/code/GenericTarget/GT_PeriodicTimer.cpp:184-194 | a successful read takes all expirations, counts all but one as lost, and one overload if there was more than one |
| SchedulerProgress.ExpirationsAccounted | core/code/GenericTarget/GT_PeriodicTimer.cpp:184-194 | over any run of a scheduler whose clock runs, the expirations read and those pending grow together by exactly one for each expiration of the timer |
| SchedulerProgress.FourStepsCompleteAJob | core/code/GenericTarget/GT_PeriodicTask.cpp:105-119 | four steps of a worker complete a queued job, clear the flag and lead back to the wait, and each of them is enabled |
| SchedulerProgress.WorkerProgress | core/code/GenericTarget/GT_PeriodicTask.cpp:105-119 | over any run of a started scheduler a worker completes exactly one job with every four of its moves |
| SchedulerProgress.JobCompletes | core/code/GenericTarget/GT_PeriodicTask.cpp:105-119 | a job in flight is completed within three moves of its worker, whatever the other threads do |
| SchedulerProgress.JobGivesAStep | core/code/GenericTarget/GT_PeriodicTask.cpp:93-119 | and a posted job always gives its worker a move |
| SchedulerProgress.RunningWorkerStays | core/code/GenericTarget/GT_PeriodicTask.cpp:105-112 | before its stop a worker leaves its loop through a wait that fails, and in no other way |
| SchedulerLifecycle.StartExactly | core/code/GenericTarget/GT_BaseRateScheduler.cpp:11-27 | whatever the other threads do, a start ends with all configured tasks and the master running if and only if every task gets its semaphore and priority and the master its priority; otherwise no thread and no task is left |
| SchedulerLifecycle.MainGoesOn | core/code/GenericTarget/GT_BaseRateScheduler.cpp:11-35 | every step of a start or a stop lowers a rank that no other thread changes, and the main thread has a step except while it joins a thread that has not ended |
| SchedulerLifecycle.IdleIsNew | core/code/GenericTarget/GT_BaseRateScheduler.cpp:29-35 | in every reachable idle state the scheduler is a new one, but for the running flag and the statistics of its last clock |
| SchedulerLifecycle.EpollAnswersExactly | core/code/GenericTarget/GT_PeriodicTimer.cpp:158-199 | the wait can report exactly the timer, the cancel event, or both in either order, each only when it is readable |
| SchedulerLifecycle.CancelPartsCompose | core/code/GenericTarget/GT_PeriodicTimer.cpp:100-112 | the steps of the cancel are together the cancel of the class: the exchange of the flag alone decides whether the event is written |
| SchedulerLifecycle.CancelReaches | core/code/GenericTarget/GT_PeriodicTimer.cpp:100-112 | for every continuation of a cancel: a master that still waits while it is joined has been signalled if and only if the write of the cancel event succeeded |
| SchedulerTheorems.NotifyOnlyLiveTasks | core/code/GenericTarget/GT_BaseRateScheduler.cpp:28-60 | no `Notify` on a task that is stopped, being stopped or deleted, and no master thread while tasks are stopped |
| SchedulerTheorems.CancelledMasterNotBlocked | core/code/GenericTarget/GT_PeriodicTimer.cpp:100-112 | a joined master that waits with no expiration pending is blocked if and only if the write of the cancel event failed; anywhere else it can go on |
| SchedulerTheorems.JoinedMasterEnds | core/code/GenericTarget/GT_BaseRateScheduler.cpp:103-116 | every step of a joined master decreases a rank that is zero exactly when it has ended, and no other thread raises it |
| SchedulerTheorems.JoinedWorkerEnds | core/code/GenericTarget/GT_PeriodicTask.cpp:53-68 | a worker that is being joined is never blocked and its steps lead to its end |
| SchedulerTheorems.FlagExactly | core/code/GenericTarget/GT_BaseRateScheduler.cpp:103-116 | for every stop and every continuation up to the idle state: the running flag is left set if and only if the master had not started its clock when the stop cancelled it, and that start succeeds |
| SchedulerTheorems.FlagAfterStop | core/code/GenericTarget/GT_BaseRateScheduler.cpp:103-116 | after a stop no master thread, no task, no terminate flag and no started timer is left |
| SchedulerTheorems.StaleFlagSilencesStart | core/code/GenericTarget/GT_PeriodicTimer.cpp:10-13 | with the flag left set no round of notifications begins and no task is notified until the scheduler is idle again |
| SchedulerTheorems.EarlyStopLeavesFlag | core/code/GenericTarget/GT_BaseRateScheduler.cpp:37-48 | a concrete interleaving that ends with the flag set |
| SchedulerTheorems.FailedSignalCanBlock | core/code/GenericTarget/GT_PeriodicTimer.cpp:100-112 | a concrete interleaving in which the joined master is blocked |
| PeriodicTimers.PeriodExactly | core/code/GenericTarget/GT_PeriodicTimer.cpp:15-29 | exactly which sample times are accepted, and that seconds and nanoseconds are the floor of the time in nanoseconds, normalized and at least 1 |
| PeriodicTimers.PeriodicTimer.Start | core/code/GenericTarget/GT_PeriodicTimer.cpp:5-98 | all or nothing on every failure path: open descriptors and fields are unchanged, or exactly three new descriptors are open |
| PeriodicTimers.PeriodicTimer.Cancel | core/code/GenericTarget/GT_PeriodicTimer.cpp:100-112 | clears the flag and signals exactly when the flag was set, the timer is started and the write succeeds |
| PeriodicTimers.PeriodicTimer.Stop | core/code/GenericTarget/GT_PeriodicTimer.cpp:114-156 | closes exactly the timer's own descriptors and leaves the running flag alone |
| PeriodicTimers.StartCancelStop | core/code/GenericTarget/GT_PeriodicTimer.cpp:5-156 | a start, a cancel and a stop leak no descriptor, whatever fails, and leave the timer ready for another start |
| PeriodicTimers.CancelStartStop | core/code/GenericTarget/GT_PeriodicTimer.cpp:5-156 | in the order cancel, start, stop the next start is refused |
| DataRecorder.DataRecorder.Write | library/drivers/GT_DriverImplementationDetails.cpp:209-217 | a sample of the right size is appended behind its timestamp, any other is ignored, and both post the event |
| DataRecorder.DataRecorder.TakeBuffer | library/drivers/GT_DriverImplementationDetails.hpp:254-274 | the shared buffer moves behind the local one and is left empty |
| DataRecorder.DataRecorder.StartCurrentFile | library/drivers/GT_DriverImplementationDetails.cpp:270-278 | a header is written only for a file that is not started, and a failure changes nothing |
| DataRecorder.DataRecorder.WriteBufferToDataFiles | library/drivers/GT_DriverImplementationDetails.cpp:265-307 | terminates, and leaves exactly the disk and the rest of the specification whose conservation is proved below |
| DataRecorder.DataRecorder.FlushBuffer | library/drivers/GT_DriverImplementationDetails.hpp:240-249 | success if and only if nothing was left, and then the files have grown by exactly the buffer |
| DataRecorder.ChunkConserves | library/drivers/GT_DriverImplementationDetails.cpp:380-422 | one pass: files then rest are what files then buffer were, finished files are untouched, whole samples stay whole, file sizes stay in bounds |
| DataRecorder.WriteConserves | library/drivers/GT_DriverImplementationDetails.cpp:265-307 | the same for the whole loop and any pattern of failures |
| DataRecorder.NothingLeft | library/drivers/GT_DriverImplementationDetails.cpp:265-307 | when no call fails the loop writes everything |
| DataRecorder.GivesUpExactly | library/drivers/GT_DriverImplementationDetails.cpp:270-296 | with whole samples to write a pass gives up if and only if its header, open or append fails |
| DataRecorder.FillsFiles | library/drivers/GT_DriverImplementationDetails.cpp:265-307 | without failures a write of n times the limit finishes exactly n files and leaves nothing |
| DataRecorder.RotationOvershoots | library/drivers/GT_DriverImplementationDetails.cpp:280-305 | a pass makes a file larger than the limit N if and only if it is started, not empty, and the buffer does not fit behind it |
| DataRecorder.RotationBoundIsTight | library/drivers/GT_DriverImplementationDetails.cpp:280-305 | for every N > 1 two writes without failures fill a file with 2N - 1 samples |
| DataRecorder.WrapLosesFirstFile | library/drivers/GT_DriverImplementationDetails.cpp:302-305 | header number 2^32 + 1 destroys the samples of file 0 |
| DataRecorder.WrapIsReached | library/drivers/GT_DriverImplementationDetails.cpp:302-305 | for every limit and value one write without failures reaches 2^32 full files, and the next pass loses samples |
| DataRecorder.PassConservesExactly | library/drivers/GT_DriverImplementationDetails.cpp:265-307 | a pass loses no sample if and only if it does not begin a file with a wrapped number |
| RecorderProtocol.StepKeepsInv | library/drivers/GT_DriverImplementationDetails.hpp:254-274 | every step of writers, recorder thread and stopper keeps conservation, wakeups and stop announcement |
| RecorderProtocol.SamplesConserved | library/drivers/GT_DriverImplementationDetails.cpp:185-217 | in every reachable state files, local buffer, dropped tail and shared buffer are together the accepted samples in order; finished files hold N to 2N - 1 samples, the started one fewer than N, and for N = 0 there is one file |
| RecorderProtocol.RunConserves | library/drivers/GT_DriverImplementationDetails.cpp:185-217 | after any run from a fresh start, files, local buffer, dropped tail and shared buffer are together exactly the samples that the writers appended in that run, in the order in which they got the lock |
| RecorderProtocol.FlushCompletes | library/drivers/GT_DriverImplementationDetails.cpp:185-203 | after the stop the files hold everything accepted before the flush, once and in order, if and only if the flush dropped nothing |
| RecorderProtocol.AcceptedIsSaved | library/drivers/GT_DriverImplementationDetails.cpp:185-203 | in any run to the end of a stop, everything accepted before the flush has ended is in the files, followed by what the flush dropped |
| RecorderProtocol.StopGoesOn | library/drivers/GT_DriverImplementationDetails.cpp:185-203 | every step of the stop leads on to its end, and only the join waits |
| RecorderProtocol.StoppedIsClean | library/drivers/GT_DriverImplementationDetails.cpp:185-203 | a stop during which nobody writes leaves both buffers empty, nothing posted, no stop request and no thread |
| RecorderProtocol.WriterSteps | library/drivers/GT_DriverImplementationDetails.cpp:209-217 | the two steps of a writer are together the write method of the class; only a sample of the right size can have to wait, and only for the flush |
| RecorderProtocol.ThreadWaitsExactly | library/drivers/GT_DriverImplementationDetails.hpp:254-274 | in every reachable state the recorder thread is blocked only while it waits and nothing has been posted |
| RecorderProtocol.WaitDrains | library/drivers/GT_DriverImplementationDetails.cpp:99-131 | one wait swallows all posts, however many there are |
| RecorderProtocol.NoLostWakeup | library/drivers/GT_DriverImplementationDetails.cpp:99-131 | a non-empty buffer always has a post pending, a writer about to post, or the thread on its way to take it |
| RecorderProtocol.JoinedThreadEnds | library/drivers/GT_DriverImplementationDetails.cpp:185-203 | the stop request is observed even when its post is drained: the joined thread is never blocked and its steps lead to its end |
| RecorderProtocol.JoinBound | library/drivers/GT_DriverImplementationDetails.cpp:185-203 | over any run of the join the thread takes no more steps than its rank, one per post and one per element that writers add meanwhile |
| RecorderProtocol.WritingRunIsWriteBuffer | library/drivers/GT_DriverImplementationDetails.hpp:254-274 | the passes of the state machine are together the write method of the class |
| RecorderProtocol.FlushRunIsWriteBuffer | library/drivers/GT_DriverImplementationDetails.hpp:240-249 | so are the passes of the flush, and they drop exactly what the flush method reports |
| RecorderProtocol.WaitingExactly | library/drivers/GT_DriverImplementationDetails.hpp:254-274 | in every reachable state in which the thread waits, it holds unwritten samples if and only if a call of its last write pass failed |
| RecorderProtocol.QuietExactly | library/drivers/GT_DriverImplementationDetails.hpp:254-274 | a recorder at rest has all accepted samples in its files if and only if no call of the last write pass failed |
| RecorderProtocol.NoFailuresNothingWaits | library/drivers/GT_DriverImplementationDetails.hpp:254-274 | over every run without failures the files of a recorder at rest hold everything |
| RecorderProtocol.Settles | library/drivers/GT_DriverImplementationDetails.hpp:254-274 | convergence: with calls that succeed the undisturbed thread takes at most its rank of steps, and when it can take no more every accepted sample is in the files |
| RecorderProtocol.RestIsReached | library/drivers/GT_DriverImplementationDetails.hpp:254-274 | and such a run to the rest exists from every such state |
| RecorderProtocol.FileBound | library/drivers/GT_DriverImplementationDetails.cpp:280-305 | in every reachable state, also after the file number has wrapped, no file holds more than 2N - 1 samples |
| RecorderProtocol.DocumentedMaximumExactly | documentation/html/datarecording.html:123-494 | the documented maximum of N samples per file holds in all reachable states if and only if N is 1 |
| RecorderProtocol.FitsExactly | library/drivers/GT_DriverImplementationDetails.cpp:302-305 | all reachable states with m accepted elements keep all of them in order if and only if m does not exceed 2^32 full files, or there is no limit per file |
| RecorderProtocol.FailedWriteIsNotRetried | library/drivers/GT_DriverImplementationDetails.hpp:254-274 | a concrete interleaving in which failed samples wait without any pending wakeup |
| FileFormat.WriteDoublesHeader | library/drivers/GT_DriverImplementationDetails.cpp:219-263 | the bytes written field by field are the header that the decoder inverts |
| FileFormat.WriteBusHeader | library/drivers/GT_DriverImplementationDetails.cpp:324-378 | the same for bus files |
| FileFormat.WriteIndexFile | library/drivers/GT_DriverImplementationDetails.cpp:650-738 | the bytes of the index file for any list of identifiers |
| FileFormat.SamplesExactly | documentation/html/datarecording.html:123-494 | data can be cut into samples if and only if its length is a multiple, and joining the samples gives the data |
| FileFormat.OffsetExactly | library/drivers/GT_DriverImplementationDetails.cpp:231-238 | the offset field is the true length of the header if and only if that is below 2^32 |
| FileFormat.DoublesLayout | documentation/html/datarecording.html:123-494 | a scalar data file byte by byte: magic, offset and count most significant byte first, labels, terminator, byte order, data |
| FileFormat.BusLayout | documentation/html/datarecording.html:123-494 | a bus data file byte by byte, with its three strings in order |
| FileFormat.IndexLayout | documentation/html/datarecording.html:123-494 | the date and the number of recorders of an index file byte by byte |
| FileFormat.KindsDiffer | documentation/html/datarecording.html:123-494 | no reader of one kind of file accepts a file of another kind |
| FileFormat.FileRoundTrip | documentation/html/datarecording.html:123-494 | the documented layout, read by a decoder, gives back strings, count, byte order and every sample of both kinds of files |
| FileFormat.IndexRoundTrip | documentation/html/datarecording.html:123-494 | and date, identifiers and strings of the index file |
| RecordedFiles.FilesDecode | library/drivers/GT_DriverImplementationDetails.cpp:265-307 | files that decode one by one decode together to what the recorder stored, in order |
| RecordedFiles.RunDecodes | library/drivers/GT_DriverImplementationDetails.hpp:240-274 | end to end: after any interleaving, failures and rotation, with a successful flush, decoding the files in order gives exactly the samples accepted before the flush |
| RecordedFiles.DoublesRunDecodes | library/drivers/GT_DriverImplementationDetails.cpp:209-307 | that for scalar recorders and their header |
| RecordedFiles.DoublesAreWords | library/drivers/GT_DriverImplementationDetails.cpp:209-217 | a double of a bus, a value of a scalar recorder and a timestamp all take eight bytes, and the sample widths are sums of them |
| RecordedFiles.BusRunDecodes | library/drivers/GT_DriverImplementationDetails.cpp:309-422 | that for bus recorders and their header |
| DecimalText.FirstDigit | library/drivers/GT_DriverImplementationDetails.cpp:205-207 | a file number is written without leading zeros |
| DecimalText.ValueOfDecimal | library/drivers/GT_DriverImplementationDetails.cpp:205-207 | the decimal suffix of a file name determines the file number |
| RecorderManager.DataRecorderManager.ConvertToPrintableString | library/drivers/GT_DriverImplementationDetails.cpp:584-592 | the loop keeps exactly the bytes of `PrintableOnly` |
| RecorderManager.PrintableExactly | library/drivers/GT_DriverImplementationDetails.cpp:584-592 | the result is printable, and equal to its input if and only if the input is printable |
| RecorderManager.PrintableBytes | library/drivers/GT_DriverImplementationDetails.cpp:584-592 | what is kept are the characters from blank to tilde, each as often as before |
| RecorderManager.IdCharacters | library/drivers/GT_DriverImplementationDetails.cpp:594-606 | an identifier keeps letters, digits, underscores and hyphens in place, every other byte becomes an underscore, and nothing in it ends a path or a string |
| RecorderManager.LabelsRoundTrip | library/drivers/GT_DriverImplementationDetails.cpp:584-592 | labels from arbitrary bytes survive the header because filtering removes the terminator |
| RecorderManager.BusTextsRoundTrip | library/drivers/GT_DriverImplementationDetails.cpp:475-479 | so do names, dimensions and data types of a bus |
| RecorderManager.DataRecorderManager.ConvertToValidId | library/drivers/GT_DriverImplementationDetails.cpp:594-606 | the loop replaces exactly the bytes that are not allowed |
| RecorderManager.DataRecorderManager.Register | library/drivers/GT_DriverImplementationDetails.cpp:435-455 | identifiers stay valid and pairwise distinct over any calls; a taken one is refused; list, index file and success in every failure case |
| RecorderManager.DataRecorderManager.AddDataRecorderScalarDoubles | library/drivers/GT_DriverImplementationDetails.cpp:424-456 | the recorder is registered under its converted identifier, with the filtered labels in its header |
| RecorderManager.DataRecorderManager.AddDataRecorderBus | library/drivers/GT_DriverImplementationDetails.cpp:468-504 | the same with the three filtered strings of a bus |
| RecorderManager.FileNamesDistinct | library/drivers/GT_DriverImplementationDetails.cpp:205-207 | file names are equal if and only if identifier and number are, although identifiers may contain underscores and digits |
| RecorderManager.NoFileIsTheIndex | library/drivers/GT_DriverImplementationDetails.cpp:650-660 | no data file is named like the index file |
| RecorderManager.IndexListsRecorders | library/drivers/GT_DriverImplementationDetails.cpp:650-738 | the index file of any set of registered recorders decodes to them and to the five strings in their documented order |
| TcpClient.StepKeepsInv | library/drivers/GT_DriverImplementationDetails.cpp:1660-1913 | every step of callers, management thread, Create and Destroy keeps the socket, command and stop invariants |
| TcpClient.Quiescence | library/drivers/GT_DriverImplementationDetails.cpp:1768-1800 | no command is lost: a sleeping management thread without pending posts has the last command, and the service is connected to it exactly when it is a connect command |
| TcpClient.Settles | library/drivers/GT_DriverImplementationDetails.cpp:1768-1905 | convergence: left alone with calls that succeed the management thread takes at most its rank of steps, and when it can take no more the service is connected to the commanded address exactly when that is a connect command |
| TcpClient.RestIsReached | library/drivers/GT_DriverImplementationDetails.cpp:1768-1905 | and such a run to the rest exists from every undisturbed state |
| TcpClient.CommandAtRest | library/drivers/GT_DriverImplementationDetails.cpp:1798-1800 | at rest port 0 means disconnected, and so does the address 0.0.0.0; any other command means connected to it |
| TcpClient.DestroyedIsNew | library/drivers/GT_DriverImplementationDetails.cpp:1679-1693 | a Destroy during which nobody calls ends with the shared state of a new service |
| TcpClient.DestroyGoesOn | library/drivers/GT_DriverImplementationDetails.cpp:1679-1693 | every step of Destroy leads on to its end, and only a lock holder and the join make it wait |
| TcpClient.SocketDiscipline | library/drivers/GT_DriverImplementationDetails.cpp:1802-1905 | before a termination a connected service has a completely configured, non-blocking socket outside `Connect`; its peer is the thread's destination if and only if no newer command has just been read |
| TcpClient.LiveConnectionStays | library/drivers/GT_DriverImplementationDetails.cpp:1768-1796 | over any run without a new command, a lost connection or a Destroy, an established connection keeps its socket |
| TcpClient.ConnectedIsWanted | library/drivers/GT_DriverImplementationDetails.cpp:1768-1796 | every connected service whose management thread waits and has read the last command is in such a state |
| TcpClient.LockExcludes | library/drivers/GT_DriverImplementationDetails.cpp:1695-1796 | while a caller holds the lock no other thread changes the flag, the command or the socket of a connected service, and the management thread reads no command; Destroy clears the command without the lock |
| TcpClient.ManagerWaitsExactly | library/drivers/GT_DriverImplementationDetails.cpp:1768-1796 | the management thread waits only for a post and, at its four locked sections, for the lock |
| TcpClient.CallersSeeNoHalfOpenSocket | library/drivers/GT_DriverImplementationDetails.cpp:1695-1760 | even during a termination a caller that sees the flag never uses a socket that is still being configured |
| TcpClient.DestroyedIsClosed | library/drivers/GT_DriverImplementationDetails.cpp:1679-1693 | without a management thread the socket is closed and the flag false |
| TcpClient.FailedAttempt | library/drivers/GT_DriverImplementationDetails.cpp:1802-1894 | in every state after a failed attempt the service is not connected, and the socket is closed or, after a failed `connect`, open and bound without a peer |
| TcpClient.HolderReleases | library/drivers/GT_DriverImplementationDetails.cpp:1695-1760 | the holder of the lock releases it within its rank of steps, whatever its calls see |
| TcpClient.JoinedManagerEnds | library/drivers/GT_DriverImplementationDetails.cpp:1679-1693 | a joined management thread waits for nothing but a lock holder, and no longer than the rank of that holder; its steps lead to its end |
| TcpClient.JoinBound | library/drivers/GT_DriverImplementationDetails.cpp:1679-1693 | over any run of the join the management thread takes no more steps than its rank and one per post of a caller |
| TcpClient.QuietPeer | library/drivers/GT_DriverImplementationDetails.cpp:1768-1796 | while the management thread waits and no post is under way, the peer is the commanded address |
| TcpClient.TransferPeer | library/drivers/GT_DriverImplementationDetails.cpp:1695-1760 | on any connection and whatever happens between lock and transfer, a call transfers to the peer of the command that the management thread last acted on; it reaches its own address if and only if that is the same |
| TcpClient.QuietTransferPeer | library/drivers/GT_DriverImplementationDetails.cpp:1695-1760 | on a quiet connection that is the commanded address |
| TcpClient.RepeatedCallToOldPeer | library/drivers/GT_DriverImplementationDetails.cpp:1695-1704 | a reachable state in which a call that commands nothing new transfers to another address |
| TcpClient.TransferToOldPeer | library/drivers/GT_DriverImplementationDetails.cpp:1695-1704 | a concrete interleaving in which a call commands one address and transfers to another |
| TcpClient.LiveReceive | library/drivers/GT_DriverImplementationDetails.cpp:1728-1760 | in every state with a connection it survives all answers of a live, error-free `recv` if and only if the requested size is not zero |
| TcpClient.EmptyReceiveDrops | library/drivers/GT_DriverImplementationDetails.cpp:1739-1757 | a reachable state in which a Receive of zero bytes has taken the flag from a complete connection |
| TcpClient.OldPeerIsReachable | library/drivers/GT_DriverImplementationDetails.cpp:1768-1796 | a concrete interleaving with a connection to the previous peer |
| TcpClient.CallIsCallerRun | library/drivers/GT_DriverImplementationDetails.cpp:1695-1760 | the steps of one caller are together the whole call, and touch nothing else |
| TcpClient.TcpClientService.Create | library/drivers/GT_DriverImplementationDetails.cpp:1660-1677 | the first configuration stays and spawns the only management thread; a second one is accepted exactly when equal |
| TcpClient.TcpClientService.Destroy | library/drivers/GT_DriverImplementationDetails.cpp:1679-1693 | joins the management thread and leaves a service like a new one |
| TcpClient.TcpClientService.Send | library/drivers/GT_DriverImplementationDetails.cpp:1695-1726 | when the call reaches the socket the connection is kept if and only if it did not fail with one of four error codes; a changed command and a loss add exactly one post each; result and error code in every case |
| TcpClient.TcpClientService.Receive | library/drivers/GT_DriverImplementationDetails.cpp:1728-1760 | the same for receiving, where zero bytes and four other error codes are losses; a live connection that gives an answer is kept if and only if the requested size is not zero |
| UdpService.UdpService.OpenSocket | library/drivers/GT_DriverImplementationDetails.cpp:1300-1377 | the socket carries every option or is closed again |
| UdpService.UdpService.Configure | library/drivers/GT_DriverImplementationDetails.cpp:1291-1374 | the locked part of Create is `ConfigureResult` for every outcome of the calls |
| UdpService.UdpService.Create | library/drivers/GT_DriverImplementationDetails.cpp:1290-1377 | the service and the result are those of `CreateResult` when nothing comes between the two locked parts |
| UdpService.CreateIsTwoParts | library/drivers/GT_DriverImplementationDetails.cpp:1290-1377 | which is the locked part of Create followed by that of the bind |
| UdpService.UdpService.AttemptToBind | library/drivers/GT_DriverImplementationDetails.cpp:1425-1463 | the resumable bind is `AttemptResult` for any value read in front of the lock, and success without that value means bound |
| UdpService.UdpService.Destroy | library/drivers/GT_DriverImplementationDetails.cpp:1379-1393 | everything is reset except the mark that a configuration was set |
| UdpService.RunKeepsOk | library/drivers/GT_DriverImplementationDetails.cpp:1290-1511 | over any interleaving of locked parts, outdated reads of the flag and failures: status, bound flag, options, one bind per socket though the kernel would accept more, and the list of groups equal to the kernel's membership without duplicates |
| UdpService.OptionsAreConfigured | library/drivers/GT_DriverImplementationDetails.cpp:1302-1374 | over any sequence of operations, field by field: an open socket has the fixed options and every configured option with its own value, a bound port is the configured one as near as a port allows, a bound service has its device, and joined groups are class D |
| UdpService.ReceiveOnUnbound | library/drivers/GT_DriverImplementationDetails.cpp:1411-1423 | one reception leaves groups joined on an unbound socket if and only if the flag it read is out of date, the socket is open and the kernel accepts a valid group |
| UdpService.GroupsBoundExactly | library/drivers/GT_DriverImplementationDetails.cpp:1290-1511 | over any sequence of operations, groups are joined only on a bound socket in every state if and only if no reception of it meets those conditions |
| UdpService.OutdatedReadJoins | library/drivers/GT_DriverImplementationDetails.cpp:1411-1423 | a concrete sequence of operations that does so |
| UdpService.FirstConfigurationStays | library/drivers/GT_DriverImplementationDetails.cpp:1290-1300 | until a Destroy the first configuration stays |
| UdpService.FirstRequestWins | library/drivers/GT_DriverImplementationDetails.cpp:1290-1374 | the first request to a new service succeeds exactly when its nine calls do, and until a Destroy every socket carries its values, field by field |
| UdpService.DifferingRequestRejected | library/drivers/GT_DriverImplementationDetails.cpp:1290-1300 | a differing request is rejected and changes nothing; an equal one succeeds exactly when the socket is open or opens |
| UdpService.DestroyKeepsConfigurationMark | library/drivers/GT_DriverImplementationDetails.cpp:1379-1393 | after Destroy a configuration is accepted if and only if it is the reset one and the calls succeed |
| UdpService.BindResumes | library/drivers/GT_DriverImplementationDetails.cpp:1425-1463 | after a failed device binding the next attempt does not bind the port again |
| UdpService.UdpService.RemoveInvalidGroupAddresses | library/drivers/GT_DriverImplementationDetails.cpp:1513-1521 | erasing in place is the filter for class D addresses (section 4 of RFC 1112) |
| UdpService.UdpService.MakeUnique | library/drivers/GT_DriverImplementationDetails.cpp:1523-1535 | erasing in place keeps each group at its first occurrence |
| UdpService.DistinctMeaning | library/drivers/GT_DriverImplementationDetails.cpp:1523-1535 | which has no duplicates and the same members |
| UdpService.DistinctKeepsOrder | library/drivers/GT_DriverImplementationDetails.cpp:1523-1535 | and the order of first occurrences |
| UdpService.UdpService.LeaveUnwanted | library/drivers/GT_DriverImplementationDetails.cpp:1465-1488 | no group is left that is not a member, and list and kernel agree afterwards |
| UdpService.UdpService.JoinDesired | library/drivers/GT_DriverImplementationDetails.cpp:1489-1511 | no group is joined twice, and list and kernel agree afterwards |
| UdpService.UdpService.UpdateMulticastGroups | library/drivers/GT_DriverImplementationDetails.cpp:1465-1511 | list and kernel membership are those of `UpdateResult` |
| UdpService.UpdatedExactly | library/drivers/GT_DriverImplementationDetails.cpp:1465-1511 | exactly which groups are joined after an update, for any outcome of leaves and joins |
| UdpService.UpdatedKeepsOrder | library/drivers/GT_DriverImplementationDetails.cpp:1465-1511 | groups that were joined before keep their order, in front of all new ones |
| UdpService.AllCallsSucceed | library/drivers/GT_DriverImplementationDetails.cpp:1465-1511 | when all calls succeed they are the valid desired groups |
| BusNames.GetAllBusNames | library/GT_GetAllBusNames.m:4-27 | for every prefix: fails exactly when some name in the tree is no variable name, and otherwise gives the specified string for the prefix without trailing blanks |
| BusNames.StripIsLongest | library/GT_GetAllBusNames.m:15 | what `strcat` leaves of an argument is the longest prefix that does not end in one of the six blank characters |
| BusNames.NamesAccepted | library/GT_GetAllBusNames.m:12 | exactly which names pass, and every keyword fails |
| BusNames.SplitExactly | library/GT_GetAllBusNames.m:4-27 | for every tree with valid names, splitting at the commas gives the dotted leaf paths in depth-first order if and only if there is a leaf and no hollow bus follows a sibling with leaves |
| BusNames.CommaCount | library/GT_WriteScalarDoublesToFileInitFcn.m:14 | the number of commas for every tree: leaves plus stray commas, less one |
| BusNames.NumSignalsExactly | library/GT_WriteScalarDoublesToFileInitFcn.m:14 | the derived number of signals is the number of leaves in exactly the same trees |
| BusNames.NotEmptyIsTidy | library/GT_GetAllBusNames.m:4-27 | all trees whose buses have elements are such trees |
| BusNames.HollowBusAddsAComma | library/GT_GetAllBusNames.m:18-25 | the shortest tree that goes wrong |
| BusNames.PathsDistinct | library/GT_GetAllBusNames.m:4-27 | when siblings have distinct names, no label occurs twice |
| Dimensions.ExtractCompiledDimension | library/GT_UpdateWriteBusToFile.m:70-99 | for every flat vector of integers: fails exactly on an index error, and otherwise prints the groups it holds and the saturated true size |
| Dimensions.ExtractSizes | library/GT_UpdateWriteBusToFile.m:84-93 | the inner loop prints the sizes of one signal and multiplies them, saturating at both ends of the unsigned range |
| Dimensions.SizeExactly | library/GT_UpdateWriteBusToFile.m:101-115 | the table of sizes gives for every supported type the least number of bytes that can hold all its values |
| Dimensions.PrintedExample | library/GT_UpdateWriteBusToFile.m:79-97 | the notation on one example |
| Dimensions.DimensionsRoundTrip | library/GT_UpdateWriteBusToFile.m:77-98 | the printed dimensions of any list of signals read back as that list |
| Dimensions.DimensionsExactly | library/GT_UpdateWriteBusToFile.m:77-98 | from well-formed vectors the string reads back as the signals if and only if the last one has dimensions |
| Dimensions.SampleSizeExactly | library/GT_UpdateWriteBusToFile.m:94-115 | the number of bytes is the sum over the signals of elements times the bytes that their type needs, if and only if that fits 32 bits |
| Dimensions.ElementsExactly | library/GT_UpdateWriteBusToFile.m:94-115 | the product of the dimensions is the number of index vectors, for every vector of integers |

## Left out

- PeriodicTimers.PeriodExactly: sample times are reals, so the rounding of `long double` products is not modelled.
- PeriodicTimers.PeriodicTimer.Stop: the read that clears a pending cancel event, with its retries, is not modelled; the descriptor is closed right after it.
- DataRecorder.WriteConserves: appends are atomic; partial writes and errors that only appear when a file is closed are not modelled, nor are failing writes inside a header.
- DataRecorder.RotationOvershoots: a file that grows past the range of `size_t` is not modelled; counters of samples, overloads, lost ticks and semaphores are unbounded.
- RecorderProtocol.SamplesConserved: stated for at most as many samples as fill 2^32 files, the exact limit by `RecorderProtocol.FitsExactly`. Writes after the flush stay in the buffer and belong to no run.
- RecorderProtocol.JoinBound and TcpClient.JoinBound: a thread that drains its semaphore goes on as long as others keep posting, so the bounds count the posts; fairness of the operating system and wall-clock time are not modelled.
- TcpClient.Settles and RecorderProtocol.Settles: about threads that nobody disturbs and calls that succeed; nothing is claimed about how long a failing `connect` is repeated.
- TcpClient.LiveReceive: for a request of zero bytes the answer may be zero or that there is no data yet, whichever the platform gives; the number of bytes that have arrived is not modelled.
- FileFormat.FileRoundTrip: 2^32 - 1 signals, or 2^32 - 8 and more bytes per bus sample, where the sample width itself wraps, are not modelled.
- UdpService.UdpService.UpdateMulticastGroups: the result of a leave or join depends on the group and not on the position in the list, which is no restriction because each group is left or joined at most once.
- Dimensions.ExtractCompiledDimension: the body of its loop and the inner loop are methods of their own, `ExtractSignal` and `ExtractSizes`. A negative entry, which stands for a whole bus, counts as zero elements, as the unsigned product does; entries that are no integers are not modelled.
- `WaitForTick` is part of the state machine `Scheduler` and not a method of the timer class, because its steps interleave with `Cancel` and `Stop`.
- Windows branches, error texts, console output, thread priorities and their effects on timing, except that setting a priority may fail.
- `epoll_ctl` on removal, leaving groups before a socket is closed, and other clean-up calls whose results the program ignores. The result of `sem_destroy`, which decides whether a task stays marked as started, is modelled; the further stop in the destructor of a deleted task is not.
- SendTo and ReceiveFrom of the UDP service: thin wrappers over the platform once the membership is updated.
- The lookup lists of the service managers and the registration of drivers: linear searches over lists that only grow.
- A recorder whose start fails: it has no thread and no final flush, so samples written to it stay in its buffer.
- A second start of a recorder under the same file name, which overwrites the files of the first.
- Calendar, thermal, crash-handling and argument drivers, the application socket, generated S-functions and code templates, and the content of the model's step functions.

/**
 The TCP client service (library/drivers/GT_DriverImplementationDetails.cpp:1647-1913): a management thread,
 any number of callers of Send and Receive, and the thread that calls Create and Destroy.

 `Connect` configures the socket without the lock. A caller holds the lock during its whole call, so the state
 has one caller position. The event is a semaphore that the waiting thread drains one post at a time.
 */
module TcpClient {
  import opened Bytes

  type uint16 = x: int | 0 <= x < 0x1_0000

  datatype Address = Address(ip: (byte, byte, byte, byte), port: uint16)

  const NO_ADDRESS := Address((0, 0, 0, 0), 0)

  predicate IsConnectCommand(a: Address) { a.ip != (0, 0, 0, 0) && a.port != 0 }

  /** The socket: how far it has been configured, and the peer that it is connected to. */
  datatype Socket =
    | Closed
    | Open(reusePort: bool, reuseAddress: bool, priority: bool, bound: bool, device: bool, peer: Address,
           nonBlocking: bool)

  const FRESH := Open(false, false, false, false, false, NO_ADDRESS, false)

  predicate Operational(s: Socket, peer: Address) {
    s == Open(true, true, true, true, true, peer, true)
  }

  /** The management thread; the places from `Opening` to `Publishing` are inside `Connect`. */
  datatype ManagerPc =
    | NoThread
    | LoopTop
    | ReadCommand
    | Decide
    | Disconnecting
    | Opening
    | SettingReusePort
    | SettingReuseAddress
    | SettingPriority
    | Binding
    | BindingDevice
    | Connecting
    | SettingNonBlocking
    | Publishing
    | ClosingFailed
    | Sleeping
    | AtWait
    | Draining
    | FinalDisconnect
    | Finished

  /** What a caller that holds the lock does next. */
  datatype CallerPc = Free | PostCommand(io: bool) | InOut | PostLost | Returning

  datatype MainPc =
    | Idle | Created | DestroyDisconnect | DestroyNotify | DestroyJoin | DestroyReset | DestroyClear | DestroyAddress

  /**
   `notConnected` and `changed` are locals of the management thread; `previous` is its destination before the last
   change.
   */
  datatype State = State(
    connected: bool,
    commanded: Address,
    socket: Socket,
    semaphore: nat,
    terminate: bool,
    caller: CallerPc,
    manager: ManagerPc,
    destination: Address,
    previous: Address,
    changed: bool,
    notConnected: bool,
    main: MainPc)

  const INIT := State(false, NO_ADDRESS, Closed, 0, false, Free, NoThread, NO_ADDRESS, NO_ADDRESS, false, true, Idle)

  /** `lost` says whether a call that reached the socket saw that the peer has closed the connection. */
  datatype Action =
    | CallerLocks(address: Address, manageConnection: bool, io: bool)
    | CallerMoves(lost: bool)
    | ManagerMoves(ok: bool)
    | ManagerWaitFails
    | MainMoves

  predicate Configuring(pc: ManagerPc) {
    match pc
    case Opening => true
    case SettingReusePort => true
    case SettingReuseAddress => true
    case SettingPriority => true
    case Binding => true
    case BindingDevice => true
    case Connecting => true
    case SettingNonBlocking => true
    case Publishing => true
    case ClosingFailed => true
    case _ => false
  }

  predicate ManagerAlive(s: State) { s.manager != NoThread && s.manager != Finished }

  // The places of the management thread where it needs the lock.
  predicate NeedsLock(pc: ManagerPc) {
    pc == ReadCommand || pc == Disconnecting || pc == Publishing || pc == FinalDisconnect
  }

  predicate ManagerEnabled(s: State) {
    && ManagerAlive(s)
    && (NeedsLock(s.manager) ==> s.caller == Free)
    && (s.manager == AtWait ==> s.semaphore > 0)
  }

  predicate MainEnabled(s: State) {
    && (s.main == DestroyDisconnect ==> s.caller == Free)
    && (s.main == DestroyJoin ==> s.manager == Finished)
  }

  predicate Enabled(s: State, a: Action) {
    match a
    case CallerLocks(_, _, _) => s.caller == Free
    case CallerMoves(_) => s.caller != Free
    case ManagerMoves(_) => ManagerEnabled(s)
    case ManagerWaitFails => s.manager == AtWait
    case MainMoves => MainEnabled(s)
  }

  /** The command half of Send and Receive, with the lock just taken. */
  function CallerLock(s: State, address: Address, manageConnection: bool, io: bool): State {
    if manageConnection && address != s.commanded then s.(commanded := address, caller := PostCommand(io))
    else s.(caller := if io then InOut else Returning)
  }

  function CallerStep(s: State, lost: bool): State {
    match s.caller
    case Free => s
    case PostCommand(io) => s.(semaphore := s.semaphore + 1, caller := if io then InOut else Returning)
    case InOut => if s.connected && lost then s.(connected := false, caller := PostLost) else s.(caller := Returning)
    case PostLost => s.(semaphore := s.semaphore + 1, caller := Returning)
    case Returning => s.(caller := Free)
  }

  function Disconnected(s: State): State { s.(socket := Closed, connected := false) }

  /** The option, binding or mode that each call inside `Connect` sets, and the place after it. */
  function Configured(k: Socket, pc: ManagerPc): Socket
    requires k.Open?
  {
    match pc
    case SettingReusePort => k.(reusePort := true)
    case SettingReuseAddress => k.(reuseAddress := true)
    case SettingPriority => k.(priority := true)
    case Binding => k.(bound := true)
    case BindingDevice => k.(device := true)
    case SettingNonBlocking => k.(nonBlocking := true)
    case _ => k
  }

  function NextStage(pc: ManagerPc): ManagerPc {
    match pc
    case SettingReusePort => SettingReuseAddress
    case SettingReuseAddress => SettingPriority
    case SettingPriority => Binding
    case Binding => BindingDevice
    case BindingDevice => Connecting
    case SettingNonBlocking => Publishing
    case _ => ClosingFailed
  }

  /** A call on a closed socket fails; a failed call closes the socket, except for `connect` and `socket` themselves. */
  function ConnectStep(s: State, ok: bool): State {
    match s.manager
    case Opening => if ok then s.(socket := FRESH, manager := SettingReusePort) else s.(manager := Sleeping)
    case Connecting =>
      if ok && s.socket.Open? then s.(socket := s.socket.(peer := s.destination), manager := SettingNonBlocking)
      else s.(manager := Sleeping)
    case ClosingFailed => s.(socket := Closed, manager := Sleeping)
    case Publishing => s.(connected := true, manager := AtWait)
    case _ =>
      if ok && s.socket.Open? then s.(socket := Configured(s.socket, s.manager), manager := NextStage(s.manager))
      else s.(manager := ClosingFailed)
  }

  /** The loop of the management thread from its top to the decision to connect. */
  function DecideStep(s: State): State {
    match s.manager
    case LoopTop => s.(manager := if s.terminate then FinalDisconnect else ReadCommand)
    case ReadCommand =>
      s.(changed := s.destination != s.commanded, previous := s.destination, destination := s.commanded,
         notConnected := !s.connected, manager := Decide)
    case Decide => s.(manager := if s.notConnected || s.changed then Disconnecting else AtWait)
    case _ => Disconnected(s).(manager := if IsConnectCommand(s.destination) then Opening else AtWait)
  }

  /** The pauses of the loop, and its end. */
  function PauseStep(s: State): State {
    match s.manager
    case Sleeping => s.(manager := LoopTop)
    case AtWait => if s.semaphore > 0 then s.(semaphore := s.semaphore - 1, manager := Draining) else s
    case Draining => if s.semaphore > 0 then s.(semaphore := s.semaphore - 1) else s.(manager := LoopTop)
    case FinalDisconnect => Disconnected(s).(manager := Finished)
    case _ => s
  }

  predicate Deciding(pc: ManagerPc) {
    pc == LoopTop || pc == ReadCommand || pc == Decide || pc == Disconnecting
  }

  function ManagerStep(s: State, ok: bool): State {
    if Configuring(s.manager) then ConnectStep(s, ok)
    else if Deciding(s.manager) then DecideStep(s)
    else PauseStep(s)
  }

  /** Create spawns the thread with its fresh locals; Destroy stops it and resets the service. */
  function MainStep(s: State): State {
    match s.main
    case Idle =>
      s.(manager := LoopTop, destination := NO_ADDRESS, previous := NO_ADDRESS, changed := false, notConnected := true,
         main := Created)
    case Created => s.(terminate := true, main := DestroyDisconnect)
    case DestroyDisconnect => Disconnected(s).(main := DestroyNotify)
    case DestroyNotify => s.(semaphore := s.semaphore + 1, main := DestroyJoin)
    case DestroyJoin => s.(main := DestroyReset)
    case DestroyReset => s.(terminate := false, manager := NoThread, main := DestroyClear)
    case DestroyClear => s.(semaphore := 0, main := DestroyAddress)
    case DestroyAddress => s.(commanded := NO_ADDRESS, main := Idle)
  }

  function Apply(s: State, a: Action): State {
    match a
    case CallerLocks(address, manageConnection, io) => CallerLock(s, address, manageConnection, io)
    case CallerMoves(lost) => CallerStep(s, lost)
    case ManagerMoves(ok) => ManagerStep(s, ok)
    case ManagerWaitFails => s.(manager := LoopTop)
    case MainMoves => MainStep(s)
  }

  // ---- Invariants ----

  /** The stage that the socket has reached at each place inside `Connect`, unless Destroy has closed it. */
  predicate Stage(pc: ManagerPc, k: Socket, destination: Address) {
    match pc
    case Opening => k == Closed
    case SettingReusePort => k == FRESH
    case SettingReuseAddress => k == FRESH.(reusePort := true)
    case SettingPriority => k == FRESH.(reusePort := true, reuseAddress := true)
    case Binding => k == FRESH.(reusePort := true, reuseAddress := true, priority := true)
    case BindingDevice => k == FRESH.(reusePort := true, reuseAddress := true, priority := true, bound := true)
    case Connecting =>
      k == FRESH.(reusePort := true, reuseAddress := true, priority := true, bound := true, device := true)
    case SettingNonBlocking => k == Open(true, true, true, true, true, destination, false)
    case Publishing => Operational(k, destination)
    case Sleeping => k == Closed || k == Open(true, true, true, true, true, NO_ADDRESS, false)
    case _ => true
  }

  // The connected socket still belongs to the destination before the change.
  predicate PeerIsOld(s: State) {
    s.changed && (s.manager == Decide || s.manager == Disconnecting)
  }

  function Peer(s: State): Address { if PeerIsOld(s) then s.previous else s.destination }

  predicate ThreadShape(s: State) {
    && (s.terminate <==>
          (s.main == DestroyDisconnect || s.main == DestroyNotify || s.main == DestroyJoin || s.main == DestroyReset))
    && (s.main == Idle || s.main == DestroyClear || s.main == DestroyAddress <==> s.manager == NoThread)
    && (s.main == DestroyReset ==> s.manager == Finished)
    && (s.manager == Finished || s.manager == FinalDisconnect ==> s.terminate)
    && (PeerIsOld(s) ==> s.previous != s.destination)
  }

  predicate SocketShape(s: State) {
    && ((s.socket == Closed && s.terminate) || Stage(s.manager, s.socket, s.destination))
    && (s.connected ==>
          && !Configuring(s.manager) && s.manager != Sleeping && ManagerAlive(s)
          && ((s.socket == Closed && s.terminate) || Operational(s.socket, Peer(s)))
          && IsConnectCommand(Peer(s)))
    && (Configuring(s.manager) ==> IsConnectCommand(s.destination))
    && (!ManagerAlive(s) ==> s.socket == Closed)
  }

  /** A post that the management thread has not consumed, or one that the lock holder is about to make. */
  predicate Signalled(s: State) {
    s.semaphore > 0 || s.caller.PostCommand? || s.caller == PostLost
  }

  predicate AfterRead(pc: ManagerPc) {
    pc == Decide || pc == Disconnecting || Configuring(pc) || pc == AtWait
  }

  /** What the management thread read is still current, or a signal is on its way. */
  predicate CommandShape(s: State) {
    && (AfterRead(s.manager) ==> s.destination == s.commanded || Signalled(s))
    && (s.manager == Decide && !s.terminate ==> s.notConnected || s.connected || Signalled(s))
    && (s.manager == Decide && !s.notConnected && !s.changed && !s.terminate
        ==> IsConnectCommand(s.destination) || Signalled(s))
    && (s.manager == AtWait && !s.terminate ==> (s.connected <==> IsConnectCommand(s.destination)) || Signalled(s))
  }

  /** A stop request is never missed although its post may be drained. */
  predicate StopShape(s: State) {
    s.main == DestroyJoin && (s.manager == ReadCommand || AfterRead(s.manager)) ==> s.semaphore > 0
  }

  predicate Inv(s: State) {
    ThreadShape(s) && SocketShape(s) && CommandShape(s) && StopShape(s)
  }

  lemma ConnectKeepsSocket(s: State, ok: bool)
    requires ThreadShape(s) && SocketShape(s) && ManagerEnabled(s) && Configuring(s.manager)
    ensures ThreadShape(ConnectStep(s, ok)) && SocketShape(ConnectStep(s, ok))
  {
  }

  lemma ConnectKeepsCommand(s: State, ok: bool)
    requires SocketShape(s) && CommandShape(s) && StopShape(s) && Configuring(s.manager)
    ensures CommandShape(ConnectStep(s, ok)) && StopShape(ConnectStep(s, ok))
  {
  }

  lemma DecideKeepsSocket(s: State)
    requires ThreadShape(s) && SocketShape(s) && Deciding(s.manager)
    ensures ThreadShape(DecideStep(s)) && SocketShape(DecideStep(s))
  {
  }

  lemma DecideKeepsCommand(s: State)
    requires ThreadShape(s) && SocketShape(s) && CommandShape(s) && StopShape(s) && ManagerEnabled(s)
        && Deciding(s.manager)
    ensures CommandShape(DecideStep(s)) && StopShape(DecideStep(s))
  {
  }

  lemma PauseKeepsInv(s: State)
    requires Inv(s) && ManagerEnabled(s) && !Configuring(s.manager) && !Deciding(s.manager)
    ensures Inv(PauseStep(s))
  {
  }

  lemma ManagerKeepsInv(s: State, ok: bool)
    requires Inv(s) && ManagerEnabled(s)
    ensures Inv(ManagerStep(s, ok))
  {
    if Configuring(s.manager) {
      ConnectKeepsSocket(s, ok);
      ConnectKeepsCommand(s, ok);
    } else if Deciding(s.manager) {
      DecideKeepsSocket(s);
      DecideKeepsCommand(s);
    } else {
      PauseKeepsInv(s);
    }
  }

  lemma CallerKeepsInv(s: State, address: Address, manageConnection: bool, io: bool, lost: bool)
    requires Inv(s)
    ensures s.caller == Free ==> Inv(CallerLock(s, address, manageConnection, io))
    ensures s.caller != Free ==> Inv(CallerStep(s, lost))
  {
  }

  lemma MainKeepsInv(s: State)
    requires Inv(s) && MainEnabled(s)
    ensures Inv(MainStep(s))
  {
  }

  lemma StepKeepsInv(s: State, a: Action)
    requires Inv(s) && Enabled(s, a)
    ensures Inv(Apply(s, a))
  {
    match a
    case CallerLocks(address, manageConnection, io) => CallerKeepsInv(s, address, manageConnection, io, false);
    case CallerMoves(lost) => CallerKeepsInv(s, NO_ADDRESS, false, false, lost);
    case ManagerMoves(ok) => ManagerKeepsInv(s, ok);
    case ManagerWaitFails =>
    case MainMoves => MainKeepsInv(s);
  }

  // ---- Runs ----

  ghost predicate Runs(s: State, actions: seq<Action>, end: State)
    decreases |actions|
  {
    if actions == [] then end == s
    else Enabled(s, actions[0]) && Runs(Apply(s, actions[0]), actions[1..], end)
  }

  ghost predicate Reachable(s: State) { exists actions :: Runs(INIT, actions, s) }

  lemma {:induction false} RunKeepsInv(s: State, actions: seq<Action>, end: State)
    requires Inv(s) && Runs(s, actions, end)
    ensures Inv(end)
    decreases |actions|
  {
    if actions != [] {
      StepKeepsInv(s, actions[0]);
      RunKeepsInv(Apply(s, actions[0]), actions[1..], end);
    }
  }

  lemma ReachableInv(s: State)
    requires Reachable(s)
    ensures Inv(s)
  {
    var actions :| Runs(INIT, actions, s);
    RunKeepsInv(INIT, actions, s);
  }

  lemma {:induction false} ExtendRun(s: State, actions: seq<Action>, mid: State, a: Action)
    requires Runs(s, actions, mid) && Enabled(mid, a)
    ensures Runs(s, actions + [a], Apply(mid, a))
    decreases |actions|
  {
    if actions == [] {
      assert ([a])[1..] == [];
    } else {
      ExtendRun(Apply(s, actions[0]), actions[1..], mid, a);
      assert (actions + [a])[1..] == actions[1..] + [a];
    }
  }

  lemma Extend(s: State, a: Action, s': State)
    requires Reachable(s) && Enabled(s, a) && s' == Apply(s, a)
    ensures Reachable(s')
  {
    var actions :| Runs(INIT, actions, s);
    ExtendRun(INIT, actions, s, a);
  }

  /**
   No command is lost: when the management thread sleeps with nothing pending, it has seen the last command,
   and the service is connected exactly when that command is to connect, to the commanded address.
   */
  lemma Quiescence(s: State)
    requires Reachable(s) && !s.terminate
    requires s.manager == AtWait && s.semaphore == 0 && s.caller == Free
    ensures s.destination == s.commanded
    ensures s.connected <==> IsConnectCommand(s.commanded)
    ensures s.connected ==> Operational(s.socket, s.commanded)
  {
    ReachableInv(s);
  }

  // ---- The management thread settles ----

  /** How far the management thread is from resting, when it is alone and its calls succeed. */
  function SettleRank(s: State): nat {
    16 * s.semaphore +
    match s.manager
    case AtWait => 0
    case Publishing => 1
    case SettingNonBlocking => 2
    case Connecting => 3
    case BindingDevice => 4
    case Binding => 5
    case SettingPriority => 6
    case SettingReuseAddress => 7
    case SettingReusePort => 8
    case Opening => 9
    case Disconnecting => 10
    case Decide => 11
    case ReadCommand => 12
    case LoopTop => 13
    case _ => 14 + if s.manager == ClosingFailed then 1 else 0
  }

  /** Created, not being destroyed, and nobody holds the lock. */
  predicate Undisturbed(s: State) { s.main == Created && !s.terminate && s.caller == Free }

  predicate Resting(s: State) { s.manager == AtWait && s.semaphore == 0 }

  lemma SettleConnect(s: State)
    requires SocketShape(s) && Undisturbed(s) && Configuring(s.manager)
    ensures SettleRank(ConnectStep(s, true)) < SettleRank(s) && Undisturbed(ConnectStep(s, true))
    ensures ConnectStep(s, true).commanded == s.commanded
  {
  }

  lemma SettleDecide(s: State)
    requires Undisturbed(s) && Deciding(s.manager)
    ensures SettleRank(DecideStep(s)) < SettleRank(s) && Undisturbed(DecideStep(s))
    ensures DecideStep(s).commanded == s.commanded
  {
  }

  lemma SettlePause(s: State)
    requires ThreadShape(s) && Undisturbed(s) && !Resting(s) && !Configuring(s.manager) && !Deciding(s.manager)
    ensures SettleRank(PauseStep(s)) < SettleRank(s) && Undisturbed(PauseStep(s))
    ensures PauseStep(s).commanded == s.commanded
  {
  }

  /** Every step of the management thread brings it nearer to its rest, where it has no step. */
  lemma SettleStep(s: State)
    requires Inv(s) && Undisturbed(s)
    ensures ManagerEnabled(s) <==> !Resting(s)
    ensures !Resting(s) ==>
              var s' := ManagerStep(s, true);
              SettleRank(s') < SettleRank(s) && Undisturbed(s') && s'.commanded == s.commanded
  {
    if Configuring(s.manager) {
      SettleConnect(s);
    } else if Deciding(s.manager) {
      SettleDecide(s);
    } else if !Resting(s) {
      SettlePause(s);
    }
  }

  predicate ManagerSucceeds(actions: seq<Action>) {
    forall i :: 0 <= i < |actions| ==> actions[i] == ManagerMoves(true)
  }

  lemma QuiescentInv(s: State)
    requires Inv(s) && !s.terminate && Resting(s) && s.caller == Free
    ensures s.destination == s.commanded
    ensures s.connected <==> IsConnectCommand(s.commanded)
    ensures s.connected ==> Operational(s.socket, s.commanded)
  {
  }

  /**
   Convergence: left alone with calls that succeed, the management thread takes at most its rank of steps from any
   state, and when it can take no more it rests, with the service connected to the commanded address exactly when that
   is a connect command.
   */
  lemma {:induction false} Settles(s: State, actions: seq<Action>, end: State)
    requires Inv(s) && Undisturbed(s) && ManagerSucceeds(actions) && Runs(s, actions, end)
    ensures |actions| + SettleRank(end) <= SettleRank(s)
    ensures !ManagerEnabled(end) ==>
              && Resting(end) && end.commanded == s.commanded
              && (end.connected <==> IsConnectCommand(s.commanded))
              && (end.connected ==> Operational(end.socket, s.commanded))
    decreases |actions|
  {
    SettleStep(s);
    if actions == [] {
      if Resting(s) { QuiescentInv(s); }
    } else {
      assert actions[0] == ManagerMoves(true);
      StepKeepsInv(s, actions[0]);
      assert ManagerSucceeds(actions[1..]);
      Settles(Apply(s, actions[0]), actions[1..], end);
    }
  }

  /**
   What a command means: at rest the service is connected if the port is not 0 and some octet of the address is not 0;
   port 0 disconnects, whatever the address, and so does the address 0.0.0.0, whatever the port.
   */
  lemma CommandAtRest(s: State)
    requires Reachable(s) && !s.terminate && Resting(s) && s.caller == Free
    ensures s.commanded.port == 0 ==> !s.connected
    ensures s.commanded.ip == (0, 0, 0, 0) ==> !s.connected
    ensures var (ip, port) := (s.commanded.ip, s.commanded.port);
            (ip.0 > 0 || ip.1 > 0 || ip.2 > 0 || ip.3 > 0) && port > 0
            ==> s.connected && s.socket.Open? && s.socket.peer == s.commanded
  {
    Quiescence(s);
  }

  /** And such a run to the rest exists from every state. */
  lemma {:induction false} RestIsReached(s: State) returns (actions: seq<Action>, end: State)
    requires Inv(s) && Undisturbed(s)
    ensures ManagerSucceeds(actions) && Runs(s, actions, end) && Resting(end) && !ManagerEnabled(end)
    decreases SettleRank(s)
  {
    SettleStep(s);
    if Resting(s) {
      actions, end := [], s;
    } else {
      StepKeepsInv(s, ManagerMoves(true));
      var rest;
      rest, end := RestIsReached(ManagerStep(s, true));
      actions := [ManagerMoves(true)] + rest;
      assert actions[1..] == rest;
    }
  }

  /**
   Socket discipline: without a termination a connected service has a completely configured, non-blocking,
   connected socket, and the management thread is not inside `Connect`. The peer is the thread's destination
   except from the moment it reads a new command until it has closed the old connection.
   */
  lemma SocketDiscipline(s: State)
    requires Reachable(s) && s.connected && !s.terminate
    ensures s.socket.Open? && Operational(s.socket, s.socket.peer) && IsConnectCommand(s.socket.peer)
    ensures ManagerAlive(s) && !Configuring(s.manager)
    ensures s.socket.peer == s.destination <==> !PeerIsOld(s)
    ensures PeerIsOld(s) ==> s.socket.peer == s.previous
  {
    ReachableInv(s);
  }

  /** Even during a termination a caller that finds the flag set never sees a half-configured socket. */
  lemma CallersSeeNoHalfOpenSocket(s: State)
    requires Reachable(s) && s.connected
    ensures s.socket == Closed || Operational(s.socket, s.socket.peer)
    ensures s.socket == Closed ==> s.terminate
  {
    ReachableInv(s);
  }

  /**
   After a failed attempt the service is not connected, and the socket is closed or, when `connect` itself failed, open
   and bound but without a peer.
   */
  lemma FailedAttempt(s: State)
    requires Reachable(s) && s.manager == Sleeping
    ensures !s.connected
    ensures s.socket == Closed || s.socket == Open(true, true, true, true, true, Address((0, 0, 0, 0), 0), false)
  {
    ReachableInv(s);
  }

  /** After Destroy has joined the management thread the service is disconnected and its socket is closed. */
  lemma DestroyedIsClosed(s: State)
    requires Reachable(s) && !ManagerAlive(s)
    ensures s.socket == Closed && !s.connected
  {
    ReachableInv(s);
  }

  // ---- The lock, and the connection that is still wanted ----

  /** The management thread waits only for a post and, at its four locked sections, for the lock. */
  lemma ManagerWaitsExactly(s: State)
    ensures ManagerEnabled(s) <==>
              && s.manager != NoThread && s.manager != Finished
              && !(s.manager == AtWait && s.semaphore == 0)
              && !(s.caller != Free && (s.manager == ReadCommand || s.manager == Disconnecting
                                        || s.manager == Publishing || s.manager == FinalDisconnect))
    ensures Enabled(s, ManagerWaitFails) <==> s.manager == AtWait
  {
  }

  /**
   While a caller holds the lock no other step changes what the lock protects, with one exception: the last step of
   Destroy clears the command without the lock.
   */
  lemma LockExcludes(s: State, a: Action)
    requires Reachable(s) && s.caller != Free && Enabled(s, a) && !a.CallerMoves?
    ensures var s' := Apply(s, a);
            && s'.connected == s.connected && s'.caller == s.caller
            && ((s.main == DestroyAddress && a.MainMoves?) || s'.commanded == s.commanded)
            && (a.MainMoves? || (s'.destination == s.destination && s'.notConnected == s.notConnected))
            && (s.connected ==> s'.socket == s.socket)
  {
    ReachableInv(s);
    match a
    case ManagerMoves(ok) => ManagerRespectsLock(s, ok);
    case _ =>
  }

  lemma ManagerRespectsLock(s: State, ok: bool)
    requires s.caller != Free && ManagerEnabled(s) && (s.connected ==> !Configuring(s.manager))
    ensures var s' := ManagerStep(s, ok);
            && s'.connected == s.connected && s'.commanded == s.commanded && s'.caller == s.caller
            && s'.destination == s.destination && s'.notConnected == s.notConnected
            && (s.connected ==> s'.socket == s.socket)
  {
    if Configuring(s.manager) {
      assert !s.connected && ManagerStep(s, ok) == ConnectStep(s, ok);
    } else if Deciding(s.manager) {
      assert ManagerStep(s, ok) == DecideStep(s);
    } else {
      assert ManagerStep(s, ok) == PauseStep(s);
    }
  }

  /** A connection that the management thread has no reason to close. */
  predicate Wanted(s: State) {
    && s.connected && !s.terminate && s.main == Created && s.destination == s.commanded
    && (s.manager == AtWait || s.manager == Draining || s.manager == LoopTop || s.manager == ReadCommand
        || (s.manager == Decide && !s.notConnected && !s.changed))
  }

  /** No new command, no loss and no Destroy; anything else may happen, in any order and number. */
  predicate Harmless(a: Action, commanded: Address) {
    match a
    case CallerLocks(address, manageConnection, _) => manageConnection ==> address == commanded
    case CallerMoves(lost) => !lost
    case MainMoves => false
    case _ => true
  }

  /** A connection is kept until another address is commanded, a transfer sees it closed, or Destroy is called. */
  lemma {:induction false} LiveConnectionStays(s: State, actions: seq<Action>, end: State)
    requires Wanted(s) && Runs(s, actions, end)
    requires forall i :: 0 <= i < |actions| ==> Harmless(actions[i], s.commanded)
    ensures Wanted(end) && end.commanded == s.commanded && end.socket == s.socket
    decreases |actions|
  {
    if actions != [] {
      assert Harmless(actions[0], s.commanded);
      LiveConnectionStays(Apply(s, actions[0]), actions[1..], end);
    }
  }

  /** Every connection is such a one as soon as the management thread waits and has read the last command. */
  lemma ConnectedIsWanted(s: State)
    requires Reachable(s) && s.connected && !s.terminate && s.manager == AtWait && s.destination == s.commanded
    ensures Wanted(s) && Operational(s.socket, s.commanded)
  {
    ReachableInv(s);
  }

  // ---- Destroy leaves a new service ----

  /** What each finished step of Destroy has reset, as long as nobody calls. */
  predicate ResetSoFar(s: State) {
    && s.caller == Free
    && (s.main == DestroyClear || s.main == DestroyAddress || s.main == Idle ==>
          !s.connected && s.socket == Closed && !s.terminate && s.manager == NoThread)
    && (s.main == DestroyAddress || s.main == Idle ==> s.semaphore == 0)
    && (s.main == Idle ==> s.commanded == NO_ADDRESS)
  }

  predicate NoCalls(actions: seq<Action>) { forall i :: 0 <= i < |actions| ==> !actions[i].CallerLocks? }

  lemma StepKeepsReset(s: State, a: Action)
    requires Inv(s) && ResetSoFar(s) && Enabled(s, a) && !a.CallerLocks?
    ensures ResetSoFar(Apply(s, a))
  {
    StepKeepsInv(s, a);
    match a
    case ManagerMoves(ok) => ManagerLeavesReset(s, ok);
    case _ =>
  }

  lemma ManagerLeavesReset(s: State, ok: bool)
    requires ManagerEnabled(s)
    ensures ManagerStep(s, ok).caller == s.caller && ManagerStep(s, ok).main == s.main
    ensures ManagerStep(s, ok).commanded == s.commanded && ManagerStep(s, ok).semaphore <= s.semaphore
  {
    if Configuring(s.manager) {
      ConnectLeavesRest(s, ok);
    } else if !Deciding(s.manager) {
      PauseLeavesRest(s);
    }
  }

  lemma ConnectLeavesRest(s: State, ok: bool)
    ensures ConnectStep(s, ok).caller == s.caller && ConnectStep(s, ok).main == s.main
    ensures ConnectStep(s, ok).commanded == s.commanded && ConnectStep(s, ok).semaphore == s.semaphore
  {
  }

  lemma PauseLeavesRest(s: State)
    ensures PauseStep(s).caller == s.caller && PauseStep(s).main == s.main
    ensures PauseStep(s).commanded == s.commanded && PauseStep(s).semaphore <= s.semaphore
  {
  }

  lemma {:induction false} RunKeepsReset(s: State, actions: seq<Action>, end: State)
    requires Inv(s) && ResetSoFar(s) && NoCalls(actions) && Runs(s, actions, end)
    ensures ResetSoFar(end)
    decreases |actions|
  {
    if actions != [] {
      assert !actions[0].CallerLocks?;
      StepKeepsInv(s, actions[0]);
      StepKeepsReset(s, actions[0]);
      assert NoCalls(actions[1..]);
      RunKeepsReset(Apply(s, actions[0]), actions[1..], end);
    }
  }

  /**
   A Destroy during which nobody calls ends, from any state of a created service, with the shared state of a new one:
   not connected, socket closed, nothing posted, no command, no thread. A Create after it starts as the first one does.
   */
  lemma DestroyedIsNew(s: State, actions: seq<Action>, end: State)
    requires Reachable(s) && s.caller == Free && s.main == Created
    requires NoCalls(actions) && Runs(s, actions, end) && end.main == Idle
    ensures end.connected == INIT.connected && end.commanded == INIT.commanded && end.socket == INIT.socket
    ensures end.semaphore == 0 && !end.terminate && end.caller == Free && end.manager == NoThread
    ensures end.commanded.ip == (0, 0, 0, 0) && end.commanded.port == 0
    ensures var none := Address((0, 0, 0, 0), 0);
            MainStep(end) == MainStep(INIT)
            == State(false, none, Closed, 0, false, Free, LoopTop, none, none, false, true, Created)
  {
    ReachableInv(s);
    RunKeepsReset(s, actions, end);
  }

  function DestroyRank(pc: MainPc): nat {
    match pc
    case Idle => 0
    case DestroyAddress => 1
    case DestroyClear => 2
    case DestroyReset => 3
    case DestroyJoin => 4
    case DestroyNotify => 5
    case DestroyDisconnect => 6
    case Created => 7
  }

  /** Every step of Destroy leads on to its end, and only a lock holder and the join make it wait. */
  lemma DestroyGoesOn(s: State)
    requires s.main != Idle
    ensures DestroyRank(MainStep(s).main) < DestroyRank(s.main)
    ensures MainEnabled(s) <==>
            !(s.main == DestroyDisconnect && s.caller != Free) && !(s.main == DestroyJoin && s.manager != Finished)
    ensures s.main == Created ==>
              var s2 := MainStep(MainStep(s));
              && s2.main == DestroyNotify && s2.terminate && !s2.connected && s2.socket == Closed
              && s2.semaphore == s.semaphore
    ensures s.main == DestroyNotify <==> MainStep(s).semaphore == s.semaphore + 1
    ensures s.main != DestroyNotify ==> MainStep(s).semaphore == if s.main == DestroyClear then 0 else s.semaphore
  {
  }

  /** A bound on the steps of the management thread while it is being joined and nobody posts. */
  function ManagerRank(s: State): nat { PcRank(s.manager, s.semaphore) }

  function PcRank(pc: ManagerPc, semaphore: nat): nat {
    match pc
    case NoThread => 0
    case Finished => 0
    case FinalDisconnect => 1
    case LoopTop => 2
    case Sleeping => 3
    case ClosingFailed => 4
    case Draining => 3 + semaphore
    case AtWait => 4 + semaphore
    case Publishing => 5 + semaphore
    case SettingNonBlocking => 6 + semaphore
    case Connecting => 7 + semaphore
    case BindingDevice => 8 + semaphore
    case Binding => 9 + semaphore
    case SettingPriority => 10 + semaphore
    case SettingReuseAddress => 11 + semaphore
    case SettingReusePort => 12 + semaphore
    case Opening => 13 + semaphore
    case Disconnecting => 14 + semaphore
    case Decide => 15 + semaphore
    case ReadCommand => 16 + semaphore
  }

  // Where a step inside `Connect` can lead.
  lemma ConnectLeadsOn(s: State, ok: bool)
    requires Configuring(s.manager)
    ensures var s' := ConnectStep(s, ok); var pc := s'.manager;
            && s'.semaphore == s.semaphore
            && match s.manager
               case Opening => pc == SettingReusePort || pc == Sleeping
               case Connecting => pc == SettingNonBlocking || pc == Sleeping
               case ClosingFailed => pc == Sleeping
               case Publishing => pc == AtWait
               case _ => pc == NextStage(s.manager) || pc == ClosingFailed
  {
  }

  lemma ConnectStepEnds(s: State, ok: bool)
    requires Configuring(s.manager)
    ensures ManagerRank(ConnectStep(s, ok)) < ManagerRank(s)
  {
    ConnectLeadsOn(s, ok);
  }

  lemma PauseStepEnds(s: State)
    requires ManagerEnabled(s) && !Configuring(s.manager) && (s.manager == LoopTop ==> s.terminate)
    ensures ManagerRank(ManagerStep(s, true)) < ManagerRank(s)
  {
  }

  /** How many steps the holder of the lock is away from releasing it. */
  function CallerRank(pc: CallerPc): nat {
    match pc
    case Free => 0
    case Returning => 1
    case PostLost => 2
    case InOut => 3
    case PostCommand(_) => 4
  }

  function CallerSteps(s: State, lost: seq<bool>): State
    decreases |lost|
  {
    if lost == [] then s else CallerSteps(CallerStep(s, lost[0]), lost[1..])
  }

  lemma CallerReturns(s: State, lost: bool)
    ensures s.caller != Free ==> CallerRank(CallerStep(s, lost).caller) < CallerRank(s.caller)
    ensures s.caller != Free ==> Enabled(s, CallerMoves(lost)) && Apply(s, CallerMoves(lost)) == CallerStep(s, lost)
    ensures s.caller == Free ==> CallerStep(s, lost) == s
    ensures CallerStep(s, lost).manager == s.manager && CallerStep(s, lost).semaphore >= s.semaphore
  {
  }

  /** The holder of the lock releases it within its rank, whatever its calls see. */
  lemma {:induction false} HolderReleases(s: State, lost: seq<bool>)
    requires |lost| >= CallerRank(s.caller)
    ensures CallerSteps(s, lost).caller == Free
    ensures CallerSteps(s, lost).manager == s.manager && CallerSteps(s, lost).semaphore >= s.semaphore
    decreases |lost|
  {
    if lost != [] {
      CallerReturns(s, lost[0]);
      HolderReleases(CallerStep(s, lost[0]), lost[1..]);
    }
  }

  /**
   The joined management thread waits for nothing but a caller that holds the lock, and no longer than the rank of that
   caller; and its steps lead to its end.
   */
  lemma JoinedManagerEnds(s: State, ok: bool)
    requires Reachable(s) && s.main == DestroyJoin && s.manager != Finished
    ensures ManagerEnabled(s) || (NeedsLock(s.manager) && s.caller != Free)
    ensures forall lost: seq<bool> :: |lost| >= CallerRank(s.caller) ==> ManagerEnabled(CallerSteps(s, lost))
    ensures ManagerEnabled(s) ==> ManagerRank(ManagerStep(s, ok)) < ManagerRank(s)
  {
    ReachableInv(s);
    if ManagerEnabled(s) { ManagerStepEnds(s, ok); }
    forall lost: seq<bool> | |lost| >= CallerRank(s.caller) ensures ManagerEnabled(CallerSteps(s, lost)) {
      HolderReleases(s, lost);
    }
  }

  /** A step of the management thread, including a failing wait. */
  predicate ManagerAction(a: Action) { a.ManagerMoves? || a.ManagerWaitFails? }

  function Posted(s: State, a: Action): nat {
    if a.CallerMoves? && (s.caller.PostCommand? || s.caller == PostLost) then 1 else 0
  }

  /**
   While the management thread is joined, each of its steps lowers the rank, and of the others only a post raises it.
   */
  lemma JoinStepBound(s: State, a: Action)
    requires Inv(s) && s.main == DestroyJoin && Enabled(s, a) && Apply(s, a).main == DestroyJoin
    ensures (if ManagerAction(a) then 1 else 0) + ManagerRank(Apply(s, a)) <= ManagerRank(s) + Posted(s, a)
  {
    match a
    case ManagerMoves(ok) => ManagerStepEnds(s, ok);
    case ManagerWaitFails =>
    case _ => OthersRaiseRank(s, a);
  }

  lemma ManagerStepEnds(s: State, ok: bool)
    requires ThreadShape(s) && s.main == DestroyJoin && ManagerEnabled(s)
    ensures ManagerRank(ManagerStep(s, ok)) < ManagerRank(s)
  {
    if Configuring(s.manager) {
      ConnectStepEnds(s, ok);
    } else {
      PauseStepEnds(s);
    }
  }

  lemma OthersRaiseRank(s: State, a: Action)
    requires s.main == DestroyJoin && Enabled(s, a) && !ManagerAction(a) && Apply(s, a).main == DestroyJoin
    ensures ManagerRank(Apply(s, a)) <= ManagerRank(s) + Posted(s, a)
  {
    assert Apply(s, a).manager == s.manager && Apply(s, a).semaphore == s.semaphore + Posted(s, a);
    PostRaisesRank(s.manager, s.semaphore, Posted(s, a));
  }

  lemma PostRaisesRank(pc: ManagerPc, semaphore: nat, posts: nat)
    ensures PcRank(pc, semaphore) <= PcRank(pc, semaphore + posts) <= PcRank(pc, semaphore) + posts
  {
  }

  /** A run during which Destroy waits for the management thread. */
  ghost predicate JoinRun(s: State, actions: seq<Action>, end: State)
    decreases |actions|
  {
    && s.main == DestroyJoin
    && if actions == [] then end == s else Enabled(s, actions[0]) && JoinRun(Apply(s, actions[0]), actions[1..], end)
  }

  function ManagerSteps(actions: seq<Action>): nat {
    if actions == [] then 0 else (if ManagerAction(actions[0]) then 1 else 0) + ManagerSteps(actions[1..])
  }

  function Posts(s: State, actions: seq<Action>): nat
    decreases |actions|
  {
    if actions == [] then 0 else Posted(s, actions[0]) + Posts(Apply(s, actions[0]), actions[1..])
  }

  /**
   Over any run of the join: the management thread takes no more steps than its rank at the beginning, plus one for
   every post that callers make meanwhile. So it ends unless callers post without end.
   */
  lemma {:induction false} JoinBound(s: State, actions: seq<Action>, end: State)
    requires Inv(s) && JoinRun(s, actions, end)
    ensures ManagerSteps(actions) + ManagerRank(end) <= ManagerRank(s) + Posts(s, actions)
    decreases |actions|
  {
    if actions != [] {
      JoinStepBound(s, actions[0]);
      StepKeepsInv(s, actions[0]);
      JoinBound(Apply(s, actions[0]), actions[1..], end);
    }
  }

  // ---- Where a transfer goes ----

  predicate BeforeTransfer(pc: CallerPc) { pc.PostCommand? || pc == InOut }

  /** While a caller is between taking the lock and its transfer, nobody opens, closes or publishes the socket. */
  lemma HeldStep(s: State, a: Action)
    requires Inv(s) && Enabled(s, a) && BeforeTransfer(s.caller) && BeforeTransfer(Apply(s, a).caller)
    ensures Apply(s, a).connected == s.connected
    ensures s.connected ==> Apply(s, a).socket == s.socket
  {
    if a.ManagerMoves? { HeldManagerStep(s, a.ok); }
  }

  lemma HeldManagerStep(s: State, ok: bool)
    requires SocketShape(s) && ManagerEnabled(s) && s.caller != Free
    ensures ManagerStep(s, ok).connected == s.connected
    ensures s.connected ==> ManagerStep(s, ok).socket == s.socket
  {
  }

  /** A run in which one caller holds the lock and has not yet used the socket. */
  ghost predicate HeldRun(s: State, actions: seq<Action>, end: State)
    decreases |actions|
  {
    && BeforeTransfer(s.caller)
    && if actions == [] then end == s else Enabled(s, actions[0]) && HeldRun(Apply(s, actions[0]), actions[1..], end)
  }

  lemma {:induction false} HeldSocket(s: State, actions: seq<Action>, end: State)
    requires Inv(s) && HeldRun(s, actions, end)
    ensures end.connected == s.connected && (s.connected ==> end.socket == s.socket)
    decreases |actions|
  {
    if actions != [] {
      HeldStep(s, actions[0]);
      StepKeepsInv(s, actions[0]);
      HeldSocket(Apply(s, actions[0]), actions[1..], end);
    }
  }

  /** When the management thread waits and no post is under way, the peer is the commanded address. */
  lemma QuietPeer(s: State)
    requires Reachable(s) && s.connected && !s.terminate && s.manager == AtWait && !Signalled(s)
    ensures s.socket.Open? && s.socket.peer == s.commanded
  {
    ReachableInv(s);
  }

  /**
   A Send or Receive on any connection, whatever happens between its lock and its transfer: the transfer goes to the
   peer of the command that the management thread last acted on, so it reaches the address of the call if and only if
   that is the address of that command.
   */
  lemma TransferPeer(s: State, address: Address, manageConnection: bool, actions: seq<Action>, end: State)
    requires Reachable(s) && s.connected && !s.terminate && s.caller == Free
    requires HeldRun(CallerLock(s, address, manageConnection, true), actions, end) && end.caller == InOut
    ensures end.connected && end.socket.Open? && end.socket.peer == Peer(s)
    ensures end.socket.peer == address <==> address == Peer(s)
  {
    ReachableInv(s);
    StepKeepsInv(s, CallerLocks(address, manageConnection, true));
    HeldSocket(CallerLock(s, address, manageConnection, true), actions, end);
  }

  /**
   On a quiet connection that is the commanded address: the transfer arrives exactly when the call repeats the command.
   */
  lemma QuietTransferPeer(s: State, address: Address, manageConnection: bool, actions: seq<Action>, end: State)
    requires Reachable(s) && s.connected && !s.terminate && s.caller == Free && s.manager == AtWait && s.semaphore == 0
    requires HeldRun(CallerLock(s, address, manageConnection, true), actions, end) && end.caller == InOut
    ensures end.socket.Open? && (end.socket.peer == address <==> address == s.commanded)
  {
    QuietPeer(s);
    SocketDiscipline(s);
    TransferPeer(s, address, manageConnection, actions, end);
  }

  // ---- A run in which the flag is set while the socket still belongs to the previous command ----

  const FIRST := Address((10, 0, 0, 1), 5000)
  const SECOND := Address((10, 0, 0, 2), 5000)

  function At(pc: ManagerPc, k: Socket): State {
    State(false, FIRST, k, 1, false, Free, pc, FIRST, NO_ADDRESS, true, true, Created)
  }

  lemma Move(s: State, s': State)
    requires Reachable(s) && ManagerEnabled(s) && s' == ManagerStep(s, true)
    ensures Reachable(s')
  {
    Extend(s, ManagerMoves(true), s');
  }

  lemma ReachesOpening()
    ensures Reachable(At(Opening, Closed))
  {
    assert Runs(INIT, [], INIT);
    var s0 := INIT.(manager := LoopTop, main := Created);
    Extend(INIT, MainMoves, s0);
    var s1 := s0.(commanded := FIRST, caller := PostCommand(false));
    Extend(s0, CallerLocks(FIRST, true, false), s1);
    var s2 := s1.(semaphore := 1, caller := Returning);
    Extend(s1, CallerMoves(false), s2);
    var s3 := s2.(caller := Free);
    Extend(s2, CallerMoves(false), s3);
    Move(s3, s3.(manager := ReadCommand));
    Move(s3.(manager := ReadCommand), At(Decide, Closed));
    Move(At(Decide, Closed), At(Disconnecting, Closed));
    Move(At(Disconnecting, Closed), At(Opening, Closed));
  }

  const READY := Open(true, true, true, true, true, FIRST, true)

  // One successful call inside `Connect`.
  lemma ConnectMove(pc: ManagerPc, k: Socket, next: ManagerPc, k': Socket)
    requires Reachable(At(pc, k)) && Configuring(pc) && !NeedsLock(pc) && ConnectStep(At(pc, k), true) == At(next, k')
    ensures Reachable(At(next, k'))
  {
    Move(At(pc, k), At(next, k'));
  }

  lemma ReachesConnecting()
    ensures Reachable(At(Connecting, Open(true, true, true, true, true, NO_ADDRESS, false)))
  {
    ReachesOpening();
    ConnectMove(Opening, Closed, SettingReusePort, FRESH);
    ConnectMove(SettingReusePort, FRESH, SettingReuseAddress,
        Open(true, false, false, false, false, NO_ADDRESS, false));
    ConnectMove(SettingReuseAddress, Open(true, false, false, false, false, NO_ADDRESS, false),
                SettingPriority, Open(true, true, false, false, false, NO_ADDRESS, false));
    ConnectMove(SettingPriority, Open(true, true, false, false, false, NO_ADDRESS, false),
                Binding, Open(true, true, true, false, false, NO_ADDRESS, false));
    ConnectMove(Binding, Open(true, true, true, false, false, NO_ADDRESS, false),
                BindingDevice, Open(true, true, true, true, false, NO_ADDRESS, false));
    ConnectMove(BindingDevice, Open(true, true, true, true, false, NO_ADDRESS, false),
                Connecting, Open(true, true, true, true, true, NO_ADDRESS, false));
  }

  lemma ReachesWait()
    ensures Reachable(At(AtWait, READY).(connected := true))
  {
    ReachesConnecting();
    ConnectMove(Connecting, Open(true, true, true, true, true, NO_ADDRESS, false),
                SettingNonBlocking, Open(true, true, true, true, true, FIRST, false));
    ConnectMove(SettingNonBlocking, Open(true, true, true, true, true, FIRST, false), Publishing, READY);
    Move(At(Publishing, READY), At(AtWait, READY).(connected := true));
  }

  /** A call that commands a second address still transfers to the first. */
  lemma TransferToOldPeer()
    ensures exists s :: Reachable(s) && s.caller == InOut && s.connected && s.commanded == SECOND
                        && s.socket.Open? && s.socket.peer == FIRST
  {
    ReachesWait();
    var s0 := At(AtWait, READY).(connected := true);
    var s1 := s0.(commanded := SECOND, caller := PostCommand(true));
    Extend(s0, CallerLocks(SECOND, true, true), s1);
    Extend(s1, CallerMoves(false), s1.(semaphore := 2, caller := InOut));
  }

  /**
   So does the next call, although it commands nothing new: the management thread has not yet acted on the second
   address.
   */
  lemma RepeatedCallToOldPeer()
    ensures exists s :: Reachable(s) && s.connected && !s.terminate && s.caller == Free && s.manager == AtWait
                        && s.commanded == SECOND && CallerLock(s, SECOND, true, true) == s.(caller := InOut)
                        && s.socket.Open? && s.socket.peer == FIRST
  {
    ReachesWait();
    var s0 := At(AtWait, READY).(connected := true);
    var s1 := s0.(commanded := SECOND, caller := PostCommand(true));
    Extend(s0, CallerLocks(SECOND, true, true), s1);
    var s2 := s1.(semaphore := 2, caller := InOut);
    Extend(s1, CallerMoves(false), s2);
    Extend(s2, CallerMoves(false), s2.(caller := Returning));
    Extend(s2.(caller := Returning), CallerMoves(false), s2.(caller := Free));
  }

  /** A new command is read while the old connection is open and its flag still set. */
  lemma OldPeerIsReachable()
    ensures exists s :: Reachable(s) && !s.terminate && s.connected && s.socket.Open? && s.socket.peer != s.destination
  {
    ReachesWait();
    var s0 := At(AtWait, READY).(connected := true);
    var s1 := s0.(commanded := SECOND, caller := PostCommand(false));
    Extend(s0, CallerLocks(SECOND, true, false), s1);
    var s2 := s1.(semaphore := 2, caller := Returning);
    Extend(s1, CallerMoves(false), s2);
    var s3 := s2.(caller := Free);
    Extend(s2, CallerMoves(false), s3);
    Move(s3, s3.(semaphore := 1, manager := Draining));
    Move(s3.(semaphore := 1, manager := Draining), s3.(semaphore := 0, manager := Draining));
    Move(s3.(semaphore := 0, manager := Draining), s3.(semaphore := 0, manager := LoopTop));
    var s4 := s3.(semaphore := 0, manager := ReadCommand);
    Move(s3.(semaphore := 0, manager := LoopTop), s4);
    Move(s4, s4.(manager := Decide, destination := SECOND, previous := FIRST, changed := true, notConnected := false));
  }

  // ---- The calls themselves ----

  datatype Errno = EConnReset | EPipe | ENotConn | ETimedOut | EShutdown | NoError | OtherError(code: int)

  /** What `send` or `recv` returned. */
  datatype Transfer = Transfer(bytes: int, error: Errno)

  predicate SendLost(t: Transfer) {
    t.bytes < 0 && (t.error == EConnReset || t.error == EPipe || t.error == ENotConn || t.error == ETimedOut)
  }

  predicate ReceiveLost(t: Transfer) {
    t.bytes == 0
    || (t.bytes < 0 && (t.error == EConnReset || t.error == ENotConn || t.error == EShutdown || t.error == ETimedOut))
  }

  /** The state that Send and Receive change under the lock. */
  datatype Shared = Shared(connected: bool, commanded: Address, semaphore: nat)

  /** One whole call: a changed command and a lost connection are each announced with one post. */
  function Call(h: Shared, address: Address, manageConnection: bool, io: bool, lost: bool): Shared {
    var changes := manageConnection && address != h.commanded;
    var drops := h.connected && io && lost;
    Shared(h.connected && !drops, if manageConnection then address else h.commanded,
           h.semaphore + (if changes then 1 else 0) + (if drops then 1 else 0))
  }

  /** The steps of one caller, from taking the lock to releasing it. */
  function CallerRun(s: State, lost: bool): State
    decreases CallerRank(s.caller)
  {
    if s.caller == Free then s else CallerRun(CallerStep(s, lost), lost)
  }

  // The part of a call that uses the socket, and the release of the lock.
  lemma InOutRun(s: State, lost: bool)
    requires s.caller == InOut
    ensures var drops := s.connected && lost;
            CallerRun(s, lost)
            == s.(connected := s.connected && !drops, semaphore := s.semaphore + (if drops then 1 else 0),
                  caller := Free)
  {
    var s1 := CallerStep(s, lost);
    assert CallerRun(s, lost) == CallerRun(s1, lost);
    var s2 := if s.connected && lost then CallerStep(s1, lost) else s1;
    assert CallerRun(s1, lost) == CallerRun(s2, lost);
    assert CallerRun(s2, lost) == CallerStep(s2, lost);
  }

  /** A call without interference on the event is `Call`, and touches nothing else. */
  lemma CallIsCallerRun(s: State, address: Address, manageConnection: bool, io: bool, lost: bool)
    requires s.caller == Free
    ensures var h := Call(Shared(s.connected, s.commanded, s.semaphore), address, manageConnection, io, lost);
            CallerRun(CallerLock(s, address, manageConnection, io), lost)
            == s.(connected := h.connected, commanded := h.commanded, semaphore := h.semaphore)
  {
    var s1 := CallerLock(s, address, manageConnection, io);
    var s2 := if s1.caller.PostCommand? then CallerStep(s1, lost) else s1;
    assert CallerRun(s1, lost) == CallerRun(s2, lost);
    if io {
      InOutRun(s2, lost);
    } else {
      assert CallerRun(s2, lost) == CallerStep(s2, lost);
    }
  }

  /**
   What `recv` can answer while the connection is alive and has no error: some of the bytes that have arrived, and
   for a request of zero bytes zero; or that there are none yet.
   */
  predicate LiveAnswer(maxSize: int, t: Transfer) {
    if t.bytes < 0 then t.error.OtherError? else t.bytes <= maxSize && (t.bytes == 0 <==> maxSize == 0)
  }

  /** The state after a Receive that nobody interferes with. */
  function AfterReceive(s: State, address: Address, manageConnection: bool, maxSize: int, t: Transfer): State
    requires s.caller == Free
  {
    CallerRun(CallerLock(s, address, manageConnection, maxSize >= 0), ReceiveLost(t))
  }

  /**
   A live connection survives a Receive, whatever `recv` answers, if and only if the requested size is not zero; and
   for every answer with data or of zero bytes it survives exactly then.
   */
  lemma LiveReceive(s: State, address: Address, manageConnection: bool, maxSize: int)
    requires s.caller == Free && s.connected
    ensures (forall t :: LiveAnswer(maxSize, t) ==> AfterReceive(s, address, manageConnection, maxSize, t).connected)
            <==> maxSize != 0
    ensures forall t :: LiveAnswer(maxSize, t) && t.bytes >= 0 ==>
              (AfterReceive(s, address, manageConnection, maxSize, t).connected <==> maxSize != 0)
  {
    forall t
      ensures AfterReceive(s, address, manageConnection, maxSize, t).connected <==> !(maxSize >= 0 && ReceiveLost(t))
    {
      CallIsCallerRun(s, address, manageConnection, maxSize >= 0, ReceiveLost(t));
    }
    assert LiveAnswer(0, Transfer(0, NoError)) && ReceiveLost(Transfer(0, NoError));
  }

  /** A Receive of zero bytes takes the flag from a connection that is complete and alive. */
  lemma EmptyReceiveDrops()
    ensures LiveAnswer(0, Transfer(0, NoError))
    ensures exists s :: Reachable(s) && !s.terminate && s.caller == Free && s.manager == AtWait
                        && !s.connected && Operational(s.socket, s.commanded) && IsConnectCommand(s.commanded)
  {
    ReachesWait();
    var s0 := At(AtWait, READY).(connected := true);
    var lost := ReceiveLost(Transfer(0, NoError));
    Extend(s0, CallerLocks(FIRST, true, true), s0.(caller := InOut));
    var s2 := s0.(connected := false, caller := PostLost);
    Extend(s0.(caller := InOut), CallerMoves(lost), s2);
    var s3 := s2.(semaphore := 2, caller := Returning);
    Extend(s2, CallerMoves(false), s3);
    Extend(s3, CallerMoves(false), s3.(caller := Free));
  }

  datatype Configuration = Configuration(port: int, deviceName: string, socketPriority: int)

  const NO_CONFIGURATION := Configuration(0, "", 0)

  class TcpClientService {
    var isCreated: bool
    var activeConf: Configuration
    var isConnected: bool
    var commandedAddress: Address
    var latestErrorCode: Errno
    var event: nat

    /** The management thread is running and has not been joined. */
    var managementThread: bool

    /** There is a management thread exactly while the service is created. */
    predicate Consistent()
      reads this
    {
      managementThread == isCreated && (!isCreated ==> activeConf == NO_CONFIGURATION)
    }

    constructor ()
      ensures View() == Shared(false, NO_ADDRESS, 0) && !isCreated && Consistent()
    {
      isCreated, activeConf, managementThread := false, NO_CONFIGURATION, false;
      isConnected, commandedAddress, latestErrorCode, event := false, NO_ADDRESS, NoError, 0;
    }

    function View(): Shared
      reads this
    {
      Shared(isConnected, commandedAddress, event)
    }

    /**
     The first Create spawns the management thread; a later one is refused unless the configuration is the same, and
     spawns none. A thread priority that cannot be set is only reported.
     */
    method Create(conf: Configuration) returns (ok: bool)
      requires Consistent()
      modifies `isCreated, `activeConf, `managementThread
      ensures Consistent() && isCreated && managementThread
      ensures ok == (!old(isCreated) || conf == old(activeConf))
      ensures activeConf == if old(isCreated) then old(activeConf) else conf
    {
      if isCreated {
        return conf == activeConf;
      }
      activeConf := conf;
      managementThread := true;
      isCreated := true;
      return true;
    }

    /** Joins the management thread and resets the service; what the thread does meanwhile is in the state machine. */
    method Destroy()
      requires Consistent()
      modifies this
      ensures Consistent() && !isCreated && View() == Shared(false, NO_ADDRESS, 0) && latestErrorCode == NoError
    {
      isConnected := false;
      event := event + 1;
      if managementThread {
        managementThread := false;
      }
      isCreated := false;
      latestErrorCode := NoError;
      event := 0;
      activeConf := NO_CONFIGURATION;
      commandedAddress := NO_ADDRESS;
    }

    method SetNewAddressCommand(address: Address) returns (changed: bool)
      modifies `commandedAddress
      ensures changed == (address != old(commandedAddress)) && commandedAddress == address
    {
      changed := commandedAddress != address;
      commandedAddress := address;
    }

    /** `result` is what `send` returns if it is called. */
    method Send(address: Address, manageConnection: bool, size: int, result: Transfer)
      returns (tx: int, code: Errno, connected: bool)
      modifies `isConnected, `commandedAddress, `latestErrorCode, `event
      ensures View() == Call(old(View()), address, manageConnection, size >= 0, SendLost(result))
      ensures connected == isConnected
      ensures old(isConnected) && size >= 0 ==>
                (isConnected <==> !(tx < 0 && code in {EConnReset, EPipe, ENotConn, ETimedOut}))
      ensures event == old(event) + (if manageConnection && address != old(commandedAddress) then 1 else 0)
                       + (if old(isConnected) && !isConnected then 1 else 0)
      ensures !old(isConnected) ==> !isConnected
      ensures old(isConnected) && size < 0 ==> isConnected
      ensures commandedAddress == if manageConnection then address else old(commandedAddress)
      ensures tx == if old(isConnected) && size >= 0 then result.bytes else -1
      ensures code == latestErrorCode == if old(isConnected) && size >= 0 then result.error else old(latestErrorCode)
    {
      tx := -1;
      code := latestErrorCode;
      if manageConnection {
        var changed := SetNewAddressCommand(address);
        if changed {
          event := event + 1;
        }
      }
      if isConnected && size >= 0 {
        tx := result.bytes;
        latestErrorCode := result.error;
        code := result.error;
        if SendLost(result) {
          isConnected := false;
          event := event + 1;
        }
      }
      connected := isConnected;
    }

    /** `result` is what `recv` returns if it is called; zero bytes count as a closed connection. */
    method Receive(address: Address, manageConnection: bool, maxSize: int, result: Transfer)
      returns (rx: int, code: Errno, connected: bool)
      modifies `isConnected, `commandedAddress, `latestErrorCode, `event
      ensures View() == Call(old(View()), address, manageConnection, maxSize >= 0, ReceiveLost(result))
      ensures connected == isConnected
      ensures old(isConnected) && maxSize >= 0 ==>
                (isConnected <==> rx != 0 && !(rx < 0 && code in {EConnReset, ENotConn, EShutdown, ETimedOut}))
      ensures event == old(event) + (if manageConnection && address != old(commandedAddress) then 1 else 0)
                       + (if old(isConnected) && !isConnected then 1 else 0)
      ensures !old(isConnected) ==> !isConnected
      ensures old(isConnected) && maxSize < 0 ==> isConnected
      ensures commandedAddress == if manageConnection then address else old(commandedAddress)
      ensures old(isConnected) && LiveAnswer(maxSize, result) && result.bytes >= 0 ==> (isConnected <==> maxSize != 0)
      ensures rx == if old(isConnected) && maxSize >= 0 then result.bytes else -1
      ensures code == latestErrorCode == if old(isConnected) && maxSize >= 0 then result.error else old(latestErrorCode)
    {
      rx := -1;
      code := latestErrorCode;
      if manageConnection {
        var changed := SetNewAddressCommand(address);
        if changed {
          event := event + 1;
        }
      }
      if isConnected && maxSize >= 0 {
        rx := result.bytes;
        latestErrorCode := result.error;
        code := result.error;
        if ReceiveLost(result) {
          isConnected := false;
          event := event + 1;
        }
      }
      connected := isConnected;
    }
  }
}

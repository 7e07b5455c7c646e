/**
 The UDP service: configuration, progress of the bind and multicast membership
 (library/drivers/GT_DriverImplementationDetails.cpp:1239-1535).

 The parts of the operations that hold the service's lock follow one another. The bound flag is also read without
 the lock, in front of the bind and in front of a reception, so what was read can be out of date by the time the
 lock is taken. The socket is modelled with the kernel's side of it: options, bound port and device, and the
 groups that it is a member of.
 */
module UdpService {
  import opened Bytes

  type Group = (byte, byte, byte, byte)

  datatype Configuration = Configuration(
    port: int,
    deviceName: string,
    socketPriority: int,
    allowBroadcast: bool,
    allowZeroLengthMessage: bool,
    multicastAll: bool,
    multicastLoop: bool,
    multicastTTL: byte,
    multicastInterfaceAddress: Group)

  const RESET := Configuration(0, "", 0, false, false, true, true, 0, (0, 0, 0, 0))

  datatype Options = Options(
    reusePort: bool,
    reuseAddress: bool,
    nonBlocking: bool,
    priority: int,
    broadcast: bool,
    multicastAll: bool,
    multicastLoop: bool,
    multicastTTL: byte)

  // The options of a new socket.
  const DEFAULTS := Options(false, false, false, 0, false, true, true, 1)

  function AllOptions(c: Configuration): Options {
    Options(true, true, true, c.socketPriority, c.allowBroadcast, c.multicastAll, c.multicastLoop, c.multicastTTL)
  }

  /** `binds` counts the successful calls of bind on this socket. */
  datatype Socket =
    | Closed
    | Open(options: Options, binds: nat, port: int, device: string, members: set<Group>)

  const FRESH := Open(DEFAULTS, 0, 0, "", {})

  datatype Service = Service(
    conf: Configuration,
    confSet: bool,
    socket: Socket,
    joined: seq<Group>,
    isBound: bool,
    status: int)

  const NEW_SERVICE := Service(RESET, false, Closed, [], false, 0)

  function ClampPort(port: int): int { if port < 0 then 0 else if port > 65535 then 65535 else port }

  // ---- Lists of groups ----

  /** Class D: the first octet is between 224 and 239 (RFC 1112, section 4). */
  predicate IsMulticast(g: Group) { 224 <= g.0 <= 239 }

  function Valid(s: seq<Group>): seq<Group> {
    if s == [] then [] else Valid(s[..|s| - 1]) + if IsMulticast(s[|s| - 1]) then [s[|s| - 1]] else []
  }

  /** Each group at its first occurrence. */
  function Distinct(s: seq<Group>): seq<Group> {
    if s == [] then []
    else
      var d := Distinct(s[..|s| - 1]);
      if s[|s| - 1] in d then d else d + [s[|s| - 1]]
  }

  predicate NoDuplicates(s: seq<Group>) { forall i, j :: 0 <= i < j < |s| ==> s[i] != s[j] }

  lemma {:induction false} ValidMeaning(s: seq<Group>)
    ensures forall g :: g in Valid(s) <==> g in s && IsMulticast(g)
  {
    if s != [] {
      ValidMeaning(s[..|s| - 1]);
      assert s == s[..|s| - 1] + [s[|s| - 1]];
    }
  }

  lemma {:induction false} DistinctMeaning(s: seq<Group>)
    ensures NoDuplicates(Distinct(s))
    ensures forall g :: g in Distinct(s) <==> g in s
  {
    if s != [] {
      DistinctMeaning(s[..|s| - 1]);
      assert s == s[..|s| - 1] + [s[|s| - 1]];
    }
  }

  /** The result keeps the order in which the groups first appear. */
  lemma {:induction false} DistinctKeepsOrder(s: seq<Group>, a: Group, b: Group, i: nat, j: nat)
    requires i < |Distinct(s)| && j < |Distinct(s)| && Distinct(s)[i] == a && Distinct(s)[j] == b && i < j
    ensures exists k :: 0 <= k < |s| && s[k] == a && b !in s[..k + 1]
  {
    var n := |s| - 1;
    DistinctMeaning(s[..n]);
    DistinctMeaning(s);
    if j < |Distinct(s[..n])| {
      DistinctKeepsOrder(s[..n], a, b, i, j);
      var k :| 0 <= k < n && s[..n][k] == a && b !in s[..n][..k + 1];
      assert s[..n][..k + 1] == s[..k + 1];
    } else {
      assert a in s[..n] && b !in s[..n];
      var k :| 0 <= k < n && s[..n][k] == a;
      assert forall x :: x in s[..k + 1] ==> x in s[..n];
    }
  }

  // ---- The operations on values ----

  /** The answers of the kernel: to the nine calls of Create, to the two of the bind, and per group. */
  datatype Kernel = Kernel(setup: nat -> bool, portOk: bool, deviceOk: bool, leaveOk: Group -> bool,
                           joinOk: Group -> bool)

  function SetUp(c: Configuration, k: Kernel): Socket {
    if forall n :: 0 <= n < 9 ==> k.setup(n) then FRESH.(options := AllOptions(c)) else Closed
  }

  /** The locked part of the bind. A call on a closed socket fails. */
  function BindResult(v: Service, k: Kernel): Service {
    var v1 :=
      if v.status >= 1 then v
      else if k.portOk && v.socket.Open? then
        v.(socket := v.socket.(binds := v.socket.binds + 1, port := ClampPort(v.conf.port)), status := 1)
      else v;
    if v1.status < 1 then v1
    else
      var v2 :=
        if v1.status >= 2 then v1
        else if k.deviceOk && v1.socket.Open? then v1.(socket := v1.socket.(device := v1.conf.deviceName), status := 2)
        else v1;
      if v2.status < 2 then v2 else v2.(isBound := true)
  }

  /** AttemptToBind, given what it read of the bound flag before it took the lock. */
  function AttemptResult(v: Service, seen: bool, k: Kernel): Service { if seen then v else BindResult(v, k) }

  /** The locked part of Create: the service, and whether its socket is open with the desired configuration. */
  function ConfigureResult(v: Service, desired: Configuration, k: Kernel): (Service, bool) {
    var v1 := if v.confSet then v else v.(conf := desired, confSet := true);
    if v1.conf != desired then (v1, false)
    else
      var v2 := if v1.socket.Open? then v1 else v1.(socket := SetUp(v1.conf, k));
      (v2, v2.socket.Open?)
  }

  /** The service after Create, and its result, when nothing comes between its two locked parts. */
  function CreateResult(v: Service, desired: Configuration, k: Kernel): (Service, bool) {
    var c := ConfigureResult(v, desired, k);
    if c.1 then (AttemptResult(c.0, c.0.isBound, k), true) else c
  }

  function DestroyResult(v: Service): Service { Service(RESET, v.confSet, Closed, [], false, 0) }

  /** First the groups that stay joined, then the desired ones that were or become joined. */
  function Kept(joined: seq<Group>, desired: seq<Group>, leaveOk: Group -> bool): seq<Group> {
    if joined == [] then []
    else
      var g := joined[|joined| - 1];
      Kept(joined[..|joined| - 1], desired, leaveOk) + if g in desired || !leaveOk(g) then [g] else []
  }

  function Added(joined: seq<Group>, desired: seq<Group>, joinOk: Group -> bool): seq<Group> {
    if desired == [] then []
    else
      var g := desired[|desired| - 1];
      Added(joined, desired[..|desired| - 1], joinOk) + if g in joined || joinOk(g) then [g] else []
  }

  function UpdatedGroups(joined: seq<Group>, groups: seq<Group>, k: Kernel): seq<Group> {
    var desired := Distinct(Valid(groups));
    Distinct(Kept(joined, desired, k.leaveOk) + Added(joined, desired, k.joinOk))
  }

  function ToSet(s: seq<Group>): set<Group> { set g | g in s }

  /** The update of the memberships; on a closed socket no call succeeds. */
  function UpdateResult(v: Service, groups: seq<Group>, k: Kernel): Service {
    var joined := UpdatedGroups(v.joined, groups, Answers(v.socket, k));
    v.(joined := joined, socket := WithMembers(v.socket, ToSet(joined)))
  }

  function Answers(socket: Socket, k: Kernel): Kernel {
    if socket.Open? then k else k.(leaveOk := _ => false, joinOk := _ => false)
  }

  function WithMembers(socket: Socket, members: set<Group>): Socket {
    if socket.Open? then socket.(members := members) else socket
  }

  lemma {:induction false} KeptMeaning(joined: seq<Group>, desired: seq<Group>, leaveOk: Group -> bool)
    ensures forall g :: g in Kept(joined, desired, leaveOk) <==> g in joined && (g in desired || !leaveOk(g))
  {
    if joined != [] {
      KeptMeaning(joined[..|joined| - 1], desired, leaveOk);
      assert joined == joined[..|joined| - 1] + [joined[|joined| - 1]];
    }
  }

  lemma {:induction false} AddedMeaning(joined: seq<Group>, desired: seq<Group>, joinOk: Group -> bool)
    ensures forall g :: g in Added(joined, desired, joinOk) <==> g in desired && (g in joined || joinOk(g))
  {
    if desired != [] {
      AddedMeaning(joined, desired[..|desired| - 1], joinOk);
      assert desired == desired[..|desired| - 1] + [desired[|desired| - 1]];
    }
  }

  lemma KeptStep(joined: seq<Group>, i: nat, desired: seq<Group>, leaveOk: Group -> bool)
    requires i < |joined|
    ensures Kept(joined[..i + 1], desired, leaveOk)
            == Kept(joined[..i], desired, leaveOk)
               + if joined[i] in desired || !leaveOk(joined[i]) then [joined[i]] else []
  {
    assert joined[..i + 1][..i] == joined[..i];
  }

  lemma AddedStep(joined: seq<Group>, desired: seq<Group>, i: nat, joinOk: Group -> bool)
    requires i < |desired|
    ensures Added(joined, desired[..i + 1], joinOk)
            == Added(joined, desired[..i], joinOk)
               + if desired[i] in joined || joinOk(desired[i]) then [desired[i]] else []
  {
    assert desired[..i + 1][..i] == desired[..i];
  }

  lemma OnlyHere(s: seq<Group>, i: nat)
    requires NoDuplicates(s) && i < |s|
    ensures s[i] !in s[..i] && s[i] !in s[i + 1..]
  {
  }

  /**
   Exactly which groups are joined after an update: the valid desired ones that already were or could be joined,
   and the unwanted ones that could not be left. The list names each of them once.
   */
  lemma UpdatedExactly(joined: seq<Group>, groups: seq<Group>, k: Kernel)
    ensures NoDuplicates(UpdatedGroups(joined, groups, k))
    ensures forall g :: g in UpdatedGroups(joined, groups, k) <==>
              if g in groups && IsMulticast(g) then g in joined || k.joinOk(g) else g in joined && !k.leaveOk(g)
  {
    var valid := Valid(groups);
    var desired := Distinct(valid);
    ValidMeaning(groups);
    DistinctMeaning(valid);
    KeptMeaning(joined, desired, k.leaveOk);
    AddedMeaning(joined, desired, k.joinOk);
    DistinctMeaning(Kept(joined, desired, k.leaveOk) + Added(joined, desired, k.joinOk));
  }

  /** When every leave and join succeeds, the joined groups are exactly the valid desired groups. */
  lemma AllCallsSucceed(joined: seq<Group>, groups: seq<Group>, k: Kernel)
    requires forall g :: k.leaveOk(g) && k.joinOk(g)
    ensures ToSet(UpdatedGroups(joined, groups, k)) == set g | g in groups && IsMulticast(g)
  {
    UpdatedExactly(joined, groups, k);
  }

  lemma {:induction false} DistinctSame(x: seq<Group>)
    requires NoDuplicates(x)
    ensures Distinct(x) == x
  {
    if x != [] {
      DistinctSame(x[..|x| - 1]);
      assert x == x[..|x| - 1] + [x[|x| - 1]];
    }
  }

  lemma {:induction false} DistinctPrefix(x: seq<Group>, y: seq<Group>)
    requires NoDuplicates(x)
    ensures x <= Distinct(x + y)
    decreases |y|
  {
    if y == [] {
      assert x + y == x;
      DistinctSame(x);
    } else {
      assert (x + y)[..|x + y| - 1] == x + y[..|y| - 1];
      DistinctPrefix(x, y[..|y| - 1]);
    }
  }

  lemma {:induction false} KeptOrder(joined: seq<Group>, desired: seq<Group>, leaveOk: Group -> bool, i: nat, j: nat)
    requires i < j < |Kept(joined, desired, leaveOk)|
    ensures var kept := Kept(joined, desired, leaveOk);
            exists p, q :: 0 <= p < q < |joined| && joined[p] == kept[i] && joined[q] == kept[j]
  {
    var kept, n := Kept(joined, desired, leaveOk), |joined| - 1;
    var front := Kept(joined[..n], desired, leaveOk);
    if j < |front| {
      KeptOrder(joined[..n], desired, leaveOk, i, j);
      var p, q :| 0 <= p < q < n && joined[..n][p] == front[i] && joined[..n][q] == front[j];
      assert joined[p] == kept[i] && joined[q] == kept[j];
    } else {
      KeptMeaning(joined[..n], desired, leaveOk);
      assert front[i] in joined[..n];
      var p :| 0 <= p < n && joined[..n][p] == front[i];
      assert joined[p] == kept[i] && joined[n] == kept[j];
    }
  }

  lemma {:induction false} KeptNoDuplicates(joined: seq<Group>, desired: seq<Group>, leaveOk: Group -> bool)
    requires NoDuplicates(joined)
    ensures NoDuplicates(Kept(joined, desired, leaveOk))
  {
    if joined != [] {
      KeptNoDuplicates(joined[..|joined| - 1], desired, leaveOk);
      KeptMeaning(joined[..|joined| - 1], desired, leaveOk);
    }
  }

  /** The groups that were joined before stay in their order, in front of all new ones. */
  lemma UpdatedKeepsOrder(joined: seq<Group>, groups: seq<Group>, k: Kernel, i: nat, j: nat)
    requires NoDuplicates(joined) && i < j < |UpdatedGroups(joined, groups, k)|
    requires UpdatedGroups(joined, groups, k)[j] in joined
    ensures var r := UpdatedGroups(joined, groups, k);
            exists p, q :: 0 <= p < q < |joined| && joined[p] == r[i] && joined[q] == r[j]
  {
    var r, desired := UpdatedGroups(joined, groups, k), Distinct(Valid(groups));
    var kept, added := Kept(joined, desired, k.leaveOk), Added(joined, desired, k.joinOk);
    KeptNoDuplicates(joined, desired, k.leaveOk);
    DistinctPrefix(kept, added);
    DistinctMeaning(kept + added);
    KeptMeaning(joined, desired, k.leaveOk);
    AddedMeaning(joined, desired, k.joinOk);
    assert r[j] in kept + added;
    var m :| 0 <= m < |kept| && kept[m] == r[j];
    assert m == j;
    KeptOrder(joined, desired, k.leaveOk, i, j);
  }

  // ---- Invariant over any sequence of operations ----

  predicate Ok(v: Service) {
    && 0 <= v.status <= 2
    && (v.isBound <==> v.status == 2)
    && (v.socket.Closed? ==> v.status == 0 && v.joined == [])
    && (v.socket.Open? ==>
          && v.confSet
          && v.socket.options == AllOptions(v.conf)
          && v.socket.binds == (if v.status >= 1 then 1 else 0)
          && (v.status >= 1 ==> v.socket.port == ClampPort(v.conf.port))
          && (v.status == 2 ==> v.socket.device == v.conf.deviceName)
          && NoDuplicates(v.joined)
          && ToSet(v.joined) == v.socket.members)
    && (forall g :: g in v.joined ==> IsMulticast(g))
  }

  /** The locked parts. `seen` is what a caller read of the bound flag, at any time before it got the lock. */
  datatype Operation =
    | DoConfigure(conf: Configuration, kernel: Kernel)
    | DoBind(seen: bool, kernel: Kernel)
    | DoReceive(seen: bool, groups: seq<Group>, kernel: Kernel)
    | DoDestroy

  function Step(v: Service, op: Operation): Service {
    match op
    case DoConfigure(conf, k) => ConfigureResult(v, conf, k).0
    case DoBind(seen, k) => AttemptResult(v, seen, k)
    case DoReceive(seen, groups, k) => if seen then UpdateResult(v, groups, k) else v
    case DoDestroy => DestroyResult(v)
  }

  function After(v: Service, ops: seq<Operation>): Service
    decreases |ops|
  {
    if ops == [] then v else After(Step(v, ops[0]), ops[1..])
  }

  lemma BindKeepsOk(v: Service, k: Kernel)
    requires Ok(v)
    ensures Ok(BindResult(v, k))
  {
  }

  lemma ConfigureKeepsOk(v: Service, conf: Configuration, k: Kernel)
    requires Ok(v)
    ensures Ok(ConfigureResult(v, conf, k).0)
  {
    assert ToSet([]) == {};
  }

  lemma UpdateKeepsOk(v: Service, groups: seq<Group>, k: Kernel)
    requires Ok(v)
    ensures Ok(UpdateResult(v, groups, k))
  {
    UpdatedExactly(v.joined, groups, Answers(v.socket, k));
    EmptyExactly(UpdateResult(v, groups, k).joined);
  }

  lemma EmptyExactly(s: seq<Group>)
    ensures s == [] <==> forall g :: g !in s
  {
    if s != [] { assert s[0] in s; }
  }

  lemma StepKeepsOk(v: Service, op: Operation)
    requires Ok(v)
    ensures Ok(Step(v, op))
  {
    match op
    case DoConfigure(conf, k) => ConfigureKeepsOk(v, conf, k);
    case DoBind(seen, k) => BindKeepsOk(v, k);
    case DoReceive(seen, groups, k) => UpdateKeepsOk(v, groups, k);
    case DoDestroy =>
  }

  /** Create without interference is its two locked parts. */
  lemma CreateIsTwoParts(v: Service, desired: Configuration, k: Kernel)
    ensures CreateResult(v, desired, k).0
            == After(v, if ConfigureResult(v, desired, k).1
                        then [DoConfigure(desired, k), DoBind(ConfigureResult(v, desired, k).0.isBound, k)]
                        else [DoConfigure(desired, k)])
  {
    var c := ConfigureResult(v, desired, k);
    var first, bind := DoConfigure(desired, k), DoBind(c.0.isBound, k);
    assert [first][1..] == [] && After(c.0, []) == c.0;
    assert [first, bind][1..] == [bind] && [bind][1..] == [];
    assert After(v, [first]) == c.0;
    assert After(c.0, [bind]) == After(Step(c.0, bind), []);
  }

  /**
   Over any interleaving of locked parts, any outdated reads of the flag and any failures: a bound port means an
   open socket that carries every option of the active configuration, the port was bound at most once on it, the
   service is operational exactly at the last status, and the list of joined groups has no duplicates and equals
   the kernel's membership.
   */
  lemma {:induction false} RunKeepsOk(v: Service, ops: seq<Operation>)
    requires Ok(v)
    ensures Ok(After(v, ops))
    decreases |ops|
  {
    if ops != [] {
      StepKeepsOk(v, ops[0]);
      RunKeepsOk(Step(v, ops[0]), ops[1..]);
    }
  }

  /**
   Over any sequence of operations, field by field: an open socket has the three fixed options, every configured option
   with its own value, and, once it is bound, the configured port, as near as the range of a port allows.
   */
  lemma OptionsAreConfigured(v: Service, ops: seq<Operation>)
    requires Ok(v)
    ensures var e := After(v, ops);
            e.socket.Open? ==>
              var o := e.socket.options;
              && o.reusePort && o.reuseAddress && o.nonBlocking
              && o.priority == e.conf.socketPriority && o.broadcast == e.conf.allowBroadcast
              && o.multicastAll == e.conf.multicastAll && o.multicastLoop == e.conf.multicastLoop
              && o.multicastTTL == e.conf.multicastTTL
    ensures var e := After(v, ops);
            e.socket.Open? && e.status >= 1 ==>
              && 0 <= e.socket.port <= 65535 && (0 <= e.conf.port <= 65535 ==> e.socket.port == e.conf.port)
              && (e.conf.port < 0 ==> e.socket.port == 0) && (e.conf.port > 65535 ==> e.socket.port == 65535)
    ensures var e := After(v, ops); e.isBound ==> e.socket.Open? && e.socket.device == e.conf.deviceName
    ensures forall g :: g in After(v, ops).joined ==> g.0 / 16 == 14
  {
    RunKeepsOk(v, ops);
  }

  /** Class D is the prefix 1110 of the first octet. */
  lemma ValidIsClassD(s: seq<Group>)
    ensures forall g :: g in Valid(s) <==> g in s && g.0 / 16 == 14
  {
    ValidMeaning(s);
  }

  /** Until a Destroy the first configuration stays, whatever else is requested. */
  lemma {:induction false} FirstConfigurationStays(v: Service, ops: seq<Operation>)
    requires v.confSet && forall i :: 0 <= i < |ops| ==> ops[i] != DoDestroy
    ensures After(v, ops).confSet && After(v, ops).conf == v.conf
    decreases |ops|
  {
    if ops != [] {
      FirstConfigurationStays(Step(v, ops[0]), ops[1..]);
    }
  }

  /**
   The first request to a new service wins: its calls decide alone whether it succeeds, and until a Destroy every socket
   carries its values.
   */
  lemma FirstRequestWins(desired: Configuration, k: Kernel, ops: seq<Operation>)
    requires forall i :: 0 <= i < |ops| ==> ops[i] != DoDestroy
    ensures CreateResult(NEW_SERVICE, desired, k).1 <==> forall n :: 0 <= n < 9 ==> k.setup(n)
    ensures var e := After(NEW_SERVICE, [DoConfigure(desired, k)] + ops);
            && e.confSet && e.conf == desired
            && (e.socket.Open? ==>
                  var o := e.socket.options;
                  && o.priority == desired.socketPriority && o.broadcast == desired.allowBroadcast
                  && o.multicastAll == desired.multicastAll && o.multicastLoop == desired.multicastLoop
                  && o.multicastTTL == desired.multicastTTL)
            && (e.isBound ==> e.socket.Open? && e.socket.device == desired.deviceName)
  {
    var all := [DoConfigure(desired, k)] + ops;
    assert all[1..] == ops;
    FirstConfigurationStays(Step(NEW_SERVICE, all[0]), ops);
    OptionsAreConfigured(NEW_SERVICE, all);
  }

  /**
   A request for a differing configuration is rejected and touches nothing; an equal one never fails on an open socket.
   */
  lemma DifferingRequestRejected(v: Service, desired: Configuration, k: Kernel)
    requires v.confSet
    ensures desired != v.conf ==> CreateResult(v, desired, k) == (v, false)
    ensures desired == v.conf && v.socket.Open? ==> CreateResult(v, desired, k).1
    ensures desired == v.conf && v.socket.Closed?
        ==> (CreateResult(v, desired, k).1 <==> forall n :: 0 <= n < 9 ==> k.setup(n))
  {
  }

  /** Groups are joined only on a bound socket. */
  predicate GroupsBound(v: Service) { v.isBound || v.joined == [] }

  /**
   A reception that acts on an outdated read of the flag, on an open socket, for a valid group that the kernel accepts.
   */
  predicate Breaks(v: Service, op: Operation) {
    && op.DoReceive? && op.seen && !v.isBound && v.socket.Open?
    && exists g :: g in op.groups && IsMulticast(g) && op.kernel.joinOk(g)
  }

  /** When groups are joined only on a bound socket, a reception breaks that exactly under those four conditions. */
  lemma ReceiveOnUnbound(v: Service, seen: bool, groups: seq<Group>, k: Kernel)
    requires Ok(v) && GroupsBound(v)
    ensures GroupsBound(Step(v, DoReceive(seen, groups, k))) <==> !Breaks(v, DoReceive(seen, groups, k))
  {
    var v' := Step(v, DoReceive(seen, groups, k));
    UpdateKeepsOk(v, groups, k);
    UpdatedExactly(v.joined, groups, Answers(v.socket, k));
    EmptyExactly(v'.joined);
  }

  /** The other operations keep it whatever they read. */
  lemma OthersKeepGroupsBound(v: Service, op: Operation)
    requires Ok(v) && GroupsBound(v) && !op.DoReceive?
    ensures GroupsBound(Step(v, op))
  {
  }

  predicate AlwaysGroupsBound(v: Service, ops: seq<Operation>)
    decreases |ops|
  {
    GroupsBound(v) && (ops != [] ==> AlwaysGroupsBound(Step(v, ops[0]), ops[1..]))
  }

  predicate NeverBreaks(v: Service, ops: seq<Operation>)
    decreases |ops|
  {
    ops != [] ==> !Breaks(v, ops[0]) && NeverBreaks(Step(v, ops[0]), ops[1..])
  }

  /**
   Over any sequence of operations, reads and failures: in every state groups are joined only on a bound socket, if and
   only if no reception of the sequence meets the four conditions.
   */
  lemma {:induction false} GroupsBoundExactly(v: Service, ops: seq<Operation>)
    requires Ok(v) && GroupsBound(v)
    ensures AlwaysGroupsBound(v, ops) <==> NeverBreaks(v, ops)
    decreases |ops|
  {
    if ops != [] {
      var op := ops[0];
      StepKeepsOk(v, op);
      if op.DoReceive? {
        ReceiveOnUnbound(v, op.seen, op.groups, op.kernel);
      } else {
        OthersKeepGroupsBound(v, op);
      }
      if GroupsBound(Step(v, op)) { GroupsBoundExactly(Step(v, op), ops[1..]); }
    }
  }

  /**
   Such a run: bound, read as bound, destroyed, created again with the reset configuration while the port is taken,
   and then the reception gets the lock.
   */
  lemma OutdatedReadJoins(g: Group)
    requires IsMulticast(g)
    ensures var good := Kernel(_ => true, true, true, _ => true, _ => true);
            var bad := good.(portOk := false);
            var bound := After(NEW_SERVICE, [DoConfigure(RESET, good), DoBind(false, good)]);
            var v := After(bound,
                [DoDestroy, DoConfigure(RESET, good), DoBind(false, bad), DoReceive(bound.isBound, [g], good)]);
            bound.isBound && !v.isBound && v.joined != []
  {
    var good := Kernel(_ => true, true, true, _ => true, _ => true);
    var bad := good.(portOk := false);
    var v1 := Step(NEW_SERVICE, DoConfigure(RESET, good));
    var v2 := Step(v1, DoBind(false, good));
    TwoSteps(NEW_SERVICE, DoConfigure(RESET, good), DoBind(false, good));
    var v3 := Step(Step(v2, DoDestroy), DoConfigure(RESET, good));
    var v4 := Step(v3, DoBind(false, bad));
    var last := DoReceive(v2.isBound, [g], good);
    FourSteps(v2, DoDestroy, DoConfigure(RESET, good), DoBind(false, bad), last);
    StepKeepsOk(NEW_SERVICE, DoConfigure(RESET, good));
    StepKeepsOk(v1, DoBind(false, good));
    StepKeepsOk(v2, DoDestroy);
    StepKeepsOk(Step(v2, DoDestroy), DoConfigure(RESET, good));
    StepKeepsOk(v3, DoBind(false, bad));
    assert g in [g] && good.joinOk(g);
    ReceiveOnUnbound(v4, v2.isBound, [g], good);
  }

  lemma TwoSteps(v: Service, a: Operation, b: Operation)
    ensures After(v, [a, b]) == Step(Step(v, a), b)
  {
    assert [a, b][1..] == [b] && [b][1..] == [];
    assert After(Step(v, a), [b]) == After(Step(Step(v, a), b), []);
  }

  lemma FourSteps(v: Service, a: Operation, b: Operation, c: Operation, d: Operation)
    ensures After(v, [a, b, c, d]) == Step(Step(Step(Step(v, a), b), c), d)
  {
    assert [a, b, c, d][1..] == [b, c, d] && [b, c, d][1..] == [c, d];
    assert After(v, [a, b, c, d]) == After(Step(v, a), [b, c, d]) == After(Step(Step(v, a), b), [c, d]);
    TwoSteps(Step(Step(v, a), b), c, d);
  }

  /**
   Destroy resets the configuration but not the mark that one has been set: afterwards Create accepts a
   configuration exactly when it is the reset one (and its calls succeed).
   */
  lemma DestroyKeepsConfigurationMark(v: Service, desired: Configuration, k: Kernel)
    requires v.confSet
    ensures CreateResult(DestroyResult(v), desired, k).1 <==>
              && desired == Configuration(0, "", 0, false, false, true, true, 0, (0, 0, 0, 0))
              && forall n :: 0 <= n < 9 ==> k.setup(n)
  {
  }

  /** The bind resumes: once it has succeeded on the port, a later call needs only the device. */
  lemma BindResumes(v: Service, k1: Kernel, k2: Kernel)
    requires Ok(v) && v.socket.Open? && v.status == 0
    requires k1.portOk && !k1.deviceOk && k2.deviceOk
    ensures var v1 := BindResult(v, k1); var v2 := BindResult(v1, k2);
            && v1.status == 1 && !v1.isBound
            && v2.isBound && v2.socket.binds == 1
  {
  }

  // ---- The service object ----

  class UdpService {
    var activeConf: Configuration
    var activeConfSet: bool
    var socket: Socket
    var currentlyJoinedGroups: seq<Group>
    var isBound: bool
    var attemptToBindStatus: int

    constructor ()
      ensures View() == NEW_SERVICE
    {
      activeConf, activeConfSet, socket := RESET, false, Closed;
      currentlyJoinedGroups, isBound, attemptToBindStatus := [], false, 0;
    }

    function View(): Service
      reads this
    {
      Service(activeConf, activeConfSet, socket, currentlyJoinedGroups, isBound, attemptToBindStatus)
    }

    // One option of the open socket; when the call fails the socket is closed.
    method SetOption(options: Options, ok: bool) returns (done: bool)
      requires socket.Open?
      modifies `socket
      ensures done == ok
      ensures socket == if ok then old(socket).(options := options) else Closed
    {
      if ok {
        socket := socket.(options := options);
      } else {
        socket := Closed;
      }
      done := ok;
    }

    /** The calls of Create on a socket that is not open yet. */
    method OpenSocket(k: Kernel) returns (ok: bool)
      requires socket.Closed?
      modifies `socket
      ensures socket == SetUp(activeConf, k) && ok == socket.Open?
    {
      ok := k.setup(0);
      if !ok { return; }
      socket := FRESH;
      ok := SetOption(socket.options.(reusePort := true), k.setup(1));
      if !ok { return; }
      ok := SetOption(socket.options.(reuseAddress := true), k.setup(2));
      if !ok { return; }
      ok := SetOption(socket.options.(nonBlocking := true), k.setup(3));
      if !ok { return; }
      ok := SetOption(socket.options.(priority := activeConf.socketPriority), k.setup(4));
      if !ok { return; }
      ok := SetOption(socket.options.(broadcast := activeConf.allowBroadcast), k.setup(5));
      if !ok { return; }
      ok := SetOption(socket.options.(multicastAll := activeConf.multicastAll), k.setup(6));
      if !ok { return; }
      ok := SetOption(socket.options.(multicastLoop := activeConf.multicastLoop), k.setup(7));
      if !ok { return; }
      ok := SetOption(socket.options.(multicastTTL := activeConf.multicastTTL), k.setup(8));
    }

    /** The locked part of Create. */
    method Configure(desiredConf: Configuration, k: Kernel) returns (ok: bool)
      modifies this
      ensures (View(), ok) == ConfigureResult(old(View()), desiredConf, k)
    {
      if !activeConfSet {
        activeConf := desiredConf;
        activeConfSet := true;
      }
      if activeConf != desiredConf {
        return false;
      }
      if !socket.Open? {
        var isOpen := OpenSocket(k);
        if !isOpen {
          return false;
        }
      }
      return true;
    }

    method Create(desiredConf: Configuration, k: Kernel) returns (ok: bool)
      modifies this
      ensures (View(), ok) == CreateResult(old(View()), desiredConf, k)
    {
      ok := Configure(desiredConf, k);
      if ok {
        var operational := AttemptToBind(isBound, k);
      }
    }

    /** `seen` is what the check in front of the lock read. */
    method AttemptToBind(seen: bool, k: Kernel) returns (ok: bool)
      modifies `socket, `attemptToBindStatus, `isBound
      ensures View() == AttemptResult(old(View()), seen, k)
      ensures ok == (seen || attemptToBindStatus >= 2) && (!seen && ok ==> isBound)
    {
      if !seen {
        if attemptToBindStatus < 1 {
          if !(k.portOk && socket.Open?) {
            return false;
          }
          socket := socket.(binds := socket.binds + 1, port := ClampPort(activeConf.port));
          attemptToBindStatus := 1;
        }
        if attemptToBindStatus < 2 {
          if !(k.deviceOk && socket.Open?) {
            return false;
          }
          socket := socket.(device := activeConf.deviceName);
          attemptToBindStatus := 2;
        }
        isBound := true;
      }
      return true;
    }

    method Destroy()
      modifies this
      ensures View() == DestroyResult(old(View()))
    {
      if socket.Open? {
        socket := Closed;
      }
      currentlyJoinedGroups := [];
      isBound := false;
      attemptToBindStatus := 0;
      activeConf := RESET;
    }

    static method Contains(groups: seq<Group>, g: Group) returns (found: bool)
      ensures found <==> g in groups
    {
      found := false;
      var i := 0;
      while i < |groups| && !found
        invariant i <= |groups|
        invariant found <==> g in groups[..i]
      {
        found := groups[i] == g;
        i := i + 1;
      }
    }

    /** Erases in place; `k` walks over what is left. */
    static method RemoveInvalidGroupAddresses(groups: seq<Group>) returns (r: seq<Group>)
      ensures r == Valid(groups)
    {
      r := groups;
      var k := 0;
      ghost var seen := 0;
      while k < |r|
        invariant k <= |r| && seen <= |groups| && |r| - k == |groups| - seen
        invariant r[..k] == Valid(groups[..seen])
        invariant r[k..] == groups[seen..]
        decreases |r| - k
      {
        assert r[k] == r[k..][0] == groups[seen];
        assert groups[..seen + 1][..seen] == groups[..seen];
        if r[k].0 < 224 || r[k].0 > 239 {
          r := r[..k] + r[k + 1..];
        } else {
          k := k + 1;
        }
        seen := seen + 1;
      }
      assert groups[..seen] == groups && r[..k] == r;
    }

    /** Erases every group that already occurs before its position. */
    static method MakeUnique(groups: seq<Group>) returns (r: seq<Group>)
      ensures r == Distinct(groups)
    {
      r := groups;
      var k := 0;
      ghost var seen := 0;
      while k < |r|
        invariant k <= |r| && seen <= |groups| && |r| - k == |groups| - seen
        invariant r[..k] == Distinct(groups[..seen])
        invariant r[k..] == groups[seen..]
        decreases |r| - k
      {
        assert r[k] == r[k..][0] == groups[seen];
        assert groups[..seen + 1][..seen] == groups[..seen];
        var alreadyExists := false;
        var i := 0;
        while i < k && !alreadyExists
          invariant i <= k
          invariant alreadyExists <==> r[k] in r[..i]
        {
          alreadyExists := r[i] == r[k];
          i := i + 1;
        }
        assert alreadyExists <==> r[k] in r[..k];
        assert r[k..][1..] == r[k + 1..] && groups[seen..][1..] == groups[seen + 1..];
        if alreadyExists {
          ghost var before, after := r[..k], r[k + 1..];
          r := r[..k] + r[k + 1..];
          assert r[..k] == before && r[k..] == after;
        } else {
          k := k + 1;
        }
        seen := seen + 1;
      }
      assert groups[..seen] == groups && r[..k] == r;
    }

    // The two membership calls, which fail on a closed socket. Their preconditions say that no group is left that is
    // not a member, and none is joined twice.
    method LeaveMulticastGroup(g: Group, ok: bool) returns (left: bool)
      requires socket.Open? ==> g in socket.members
      modifies `socket
      ensures left == (ok && old(socket).Open?)
      ensures socket == if left then old(socket).(members := old(socket).members - {g}) else old(socket)
    {
      left := ok && socket.Open?;
      if left {
        socket := socket.(members := socket.members - {g});
      }
    }

    method JoinMulticastGroup(g: Group, ok: bool) returns (joined: bool)
      requires socket.Open? ==> g !in socket.members
      modifies `socket
      ensures joined == (ok && old(socket).Open?)
      ensures socket == if joined then old(socket).(members := old(socket).members + {g}) else old(socket)
    {
      joined := ok && socket.Open?;
      if joined {
        socket := socket.(members := socket.members + {g});
      }
    }

    /** The list names the kernel's memberships, each of them once. */
    predicate Agrees(groups: seq<Group>)
      reads this
    {
      NoDuplicates(groups) && if socket.Open? then socket.members == ToSet(groups) else groups == []
    }

    method LeaveUnwanted(desired: seq<Group>, k: Kernel) returns (kept: seq<Group>)
      requires Agrees(currentlyJoinedGroups)
      modifies `socket
      ensures kept == Kept(currentlyJoinedGroups, desired, Answers(old(socket), k).leaveOk)
      ensures socket == WithMembers(old(socket), ToSet(kept))
    {
      kept := [];
      ghost var was, joined := socket, currentlyJoinedGroups;
      ghost var leaveOk := Answers(was, k).leaveOk;
      var i := 0;
      while i < |currentlyJoinedGroups|
        invariant i <= |joined| && currentlyJoinedGroups == joined
        invariant kept == Kept(joined[..i], desired, leaveOk)
        invariant was.Open? ==> socket.Open? && socket == was.(members := socket.members)
        invariant was.Closed? ==> socket == was
        invariant was.Open? ==> forall g :: g in socket.members <==> g in kept || g in joined[i..]
      {
        var g := currentlyJoinedGroups[i];
        KeptStep(joined, i, desired, leaveOk);
        KeptMeaning(joined[..i], desired, leaveOk);
        OnlyHere(joined, i);
        assert g !in kept;
        assert forall x :: x in joined[i..] <==> x == g || x in joined[i + 1..];
        var keepJoined := Contains(desired, g);
        if !keepJoined {
          var left := LeaveMulticastGroup(g, k.leaveOk(g));
          keepJoined := !left;
        }
        if keepJoined {
          kept := kept + [g];
        }
        i := i + 1;
      }
      assert joined[..i] == joined && joined[i..] == [];
      assert was.Open? ==> socket.members == ToSet(kept);
    }

    method JoinDesired(desired: seq<Group>, kept: seq<Group>, k: Kernel) returns (joinedGroups: seq<Group>)
      requires NoDuplicates(desired) && socket == WithMembers(socket, ToSet(kept))
      requires forall g :: g in kept ==> g in currentlyJoinedGroups
      requires forall g :: g in currentlyJoinedGroups && g in desired ==> g in kept
      modifies `socket
      ensures joinedGroups == kept + Added(currentlyJoinedGroups, desired, Answers(old(socket), k).joinOk)
      ensures socket == WithMembers(old(socket), ToSet(joinedGroups))
    {
      joinedGroups := kept;
      ghost var was, joined := socket, currentlyJoinedGroups;
      ghost var joinOk := Answers(was, k).joinOk;
      var i := 0;
      while i < |desired|
        invariant i <= |desired| && currentlyJoinedGroups == joined
        invariant joinedGroups == kept + Added(joined, desired[..i], joinOk)
        invariant socket == WithMembers(was, ToSet(joinedGroups))
      {
        var g := desired[i];
        AddedStep(joined, desired, i, joinOk);
        AddedMeaning(joined, desired[..i], joinOk);
        OnlyHere(desired, i);
        var alreadyJoined := Contains(currentlyJoinedGroups, g);
        if !alreadyJoined {
          alreadyJoined := JoinMulticastGroup(g, k.joinOk(g));
        }
        if alreadyJoined {
          joinedGroups := joinedGroups + [g];
        }
        i := i + 1;
      }
      assert desired[..i] == desired;
    }

    method UpdateMulticastGroups(groups: seq<Group>, k: Kernel)
      requires Ok(View())
      modifies `socket, `currentlyJoinedGroups
      ensures View() == UpdateResult(old(View()), groups, k)
    {
      var desired := RemoveInvalidGroupAddresses(groups);
      desired := MakeUnique(desired);
      DistinctMeaning(Valid(groups));
      KeptMeaning(currentlyJoinedGroups, desired, Answers(socket, k).leaveOk);
      var kept := LeaveUnwanted(desired, k);
      var joinedGroups := JoinDesired(desired, kept, k);
      var unique := MakeUnique(joinedGroups);
      DistinctMeaning(joinedGroups);
      assert ToSet(unique) == ToSet(joinedGroups);
      currentlyJoinedGroups := unique;
    }
  }
}

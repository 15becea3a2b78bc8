/**
 The request protocol of driver.c as a transition system.

 Any number of calls of `bacnetReadProperty`, `bacnetWriteProperty` and `bacnetWhoIs`
 (requesters), of pops and removals on the discovered-device table (takers), and the one
 receive thread take steps in any order. A step ends at a lock, unlock, wait or signal point;
 the body of a list-mutex section and the unlock that ends it are one step.

 A call allocates one `return_data_t` and at most one `device_condition_map_t`. Both are named
 by the call, so identities are fresh and are never reused.
 */
module Protocol {
  import opened Bacnet
  import Lists

  type OpId = nat
  type TakerId = nat
  type Device = uint32

  datatype Kind = Read | Write | WhoIs

  datatype Service = Error | Abort | Reject | ReadAck | WriteAck

  /** A received response. `body` is its decoded value, if it decodes; `cause` is the call whose
      request it answers, None for a message that answers nothing. The code never sees `cause`. */
  datatype Msg = Msg(service: Service, src: Address, id: nat, body: Option<AppValue>, cause: Option<OpId>)

  datatype IAm = IAm(device: Device, src: Address)

  datatype Actor = Requester(op: OpId) | Receiver | Taking(taker: TakerId)

  datatype Mutex =
    | ListMutex            // returnDataHead->mutex
    | CondListMutex        // deviceCondtionMapHead->mutex
    | TableMutex           // addressEntryHead->mutex
    | NodeMutex(node: OpId)   // return_data_t.mutex
    | CondMutex(waiter: OpId) // device_condition_map_t.mutex

  datatype PC =
    // return_data_set
    | Starting | Linking | Clearing
    // find_and_bind
    | Binding
    | CondAddLock | CondAdding | CondGetLock | CondGetting
    | CondLock | CondSending | CondEntering | CondWaiting | CondWoken
    | CondDropLock | CondDropping | BindChecking | Rebinding
    // send and wait_for_data
    | NodeLock | ListLock | Sending | Storing | Broadcasting | Entering | Waiting | Woken | Checking | Fetching
    // return_data_remove_by_ptr
    | UnlinkLock | Unlinking
    // returned; returned with the node still linked; dereferenced NULL or left the modelled code
    | Done | Leaked | Faulted

  datatype Result = Running | Got(value: Option<Block>) | Status(code: nat) | Finished

  /** `return_data_t`: the fields the handlers and the caller share. */
  datatype Node = Node(id: nat, target: Address, err: bool, value: Option<Block>)

  /** One call: its program counter, its `return_data_t`, its locals (`waiter`, its `map`, and
      `sent`, the id its send returned) and history. `bound` records that `find_and_bind` returned
      true, `woken` that a signal ended its last wait, `live` what the test of the I-Am handler that
      sent it found, `checkedAt` the length of the log when a write tested `errorDetected` or a read
      fetched its value. */
  datatype Op = Op(kind: Kind, device: Device, pc: PC, node: Node, waiter: OpId, sent: nat, result: Result,
                   bound: bool, woken: bool, live: bool, checkedAt: nat)

  /** The receive thread, inside the handler of one message. A response handler allocates a value
      and then decodes into it. The I-Am handler tests the address of a waiter; `live` records whether
      the call that added the waiter was in `find_and_bind` then. */
  datatype Rx =
    | Idle
    | GetLock(msg: Msg) | Getting(msg: Msg)
    | Judging(msg: Msg, node: OpId) | LockingNode(msg: Msg, node: OpId)
    | Delivering(msg: Msg, node: OpId) | Decoding(msg: Msg, node: OpId)
    | Signalling(msg: Msg, node: OpId) | Releasing(msg: Msg, node: OpId)
    | CGetLock(iam: IAm) | CGetting(iam: IAm) | CTesting(iam: IAm, node: OpId)
    | CBinding(iam: IAm, node: OpId, live: bool) | CLockingNode(iam: IAm, node: OpId, live: bool)
    | CSignalling(iam: IAm, node: OpId, live: bool) | CReleasing(iam: IAm, node: OpId, live: bool)
    | TableLock(iam: IAm) | TableAdding(iam: IAm)

  /** An entry of the discovered-device table, numbered in order of insertion. */
  datatype Entry = Entry(serial: nat, device: Device, address: Address)

  datatype TakerPC = Wanting | Holding | Ended

  /** `address_entry_pop` (goal None) or `address_entry_remove` of a device. */
  datatype Taker = Taker(goal: Option<Device>, pc: TakerPC, got: Option<Entry>)

  /** What the handlers recorded: an error or a new block in a node, or a new binding. */
  datatype Event = Recorded(node: OpId, msg: Msg) | BindingAdded(device: Device, address: Address)

  /** The discovered-device table addressEntryHead, with the entries ever inserted and taken. */
  datatype Discovery = Discovery(table: seq<Entry>, inserted: seq<Entry>, gone: seq<Entry>, takers: map<TakerId, Taker>)

  datatype State = State(
    ops: map<OpId, Op>,
    locks: map<Mutex, Actor>,          // the mutexes held, and by whom
    pend: seq<OpId>,                   // returnDataHead, first node first
    cond: seq<OpId>,                   // deviceCondtionMapHead
    bind: map<Device, Address>,        // the address bindings of the stack
    outstanding: map<nat, OpId>,       // requests on the wire that may still be answered
    rx: Rx,
    log: seq<Event>,
    found: Discovery)

  /** What does not change during a run: the bindings at start-up and the id a Who-Is node carries. */
  datatype Config = Config(bind: map<Device, Address>, placeholder: nat)

  ghost predicate Init(c: Config, s: State) {
    && (c.placeholder == 0 || c.placeholder == 255)
    && s == State(map[], map[], [], [], c.bind, map[], Idle, [], Discovery([], [], [], map[]))
  }

  // ---- Lookups ----

  function Ids(ops: map<OpId, Op>, pend: seq<OpId>): (r: seq<nat>)
    ensures |r| == |pend|
  {
    seq(|pend|, i requires 0 <= i < |pend| => if pend[i] in ops then ops[pend[i]].node.id else 0)
  }

  /** `return_data_get`: the first linked node with this id. */
  function Lookup(ops: map<OpId, Op>, pend: seq<OpId>, id: nat): Option<OpId> {
    var i := Lists.IndexOf(Ids(ops, pend), id);
    if i < |pend| then Some(pend[i]) else None
  }

  function Devices(ops: map<OpId, Op>, cond: seq<OpId>): (r: seq<Device>)
    ensures |r| == |cond|
  {
    seq(|cond|, i requires 0 <= i < |cond| => if cond[i] in ops then ops[cond[i]].device else 0)
  }

  /** The position `device_condition_map_get` stops at. */
  function CondIndex(ops: map<OpId, Op>, cond: seq<OpId>, d: Device): (i: nat)
    ensures i <= |cond|
  {
    Lists.IndexOf(Devices(ops, cond), d)
  }

  /** `device_condition_map_get`. */
  function CondLookup(ops: map<OpId, Op>, cond: seq<OpId>, d: Device): Option<OpId> {
    var i := CondIndex(ops, cond, d);
    if i < |cond| then Some(cond[i]) else None
  }

  function EntryDevices(table: seq<Entry>): (r: seq<Device>)
    ensures |r| == |table|
  {
    seq(|table|, i requires 0 <= i < |table| => table[i].device)
  }

  // ---- Requesters ----

  /** The mutex a step has to acquire, if any. A wait re-acquires the mutex it gave up. */
  function Wants(t: OpId, o: Op): Option<Mutex> {
    match o.pc
    case Starting | ListLock | UnlinkLock => Some(ListMutex)
    case CondAddLock | CondGetLock | CondDropLock => Some(CondListMutex)
    case CondLock | CondWaiting => Some(CondMutex(o.waiter))
    case NodeLock | Waiting => Some(NodeMutex(t))
    case _ => None
  }

  /** The mutex a step releases, if any. */
  function Drops(t: OpId, o: Op): Option<Mutex> {
    match o.pc
    case Linking | Storing | Unlinking => Some(ListMutex)
    case CondAdding | CondGetting | CondDropping => Some(CondListMutex)
    case CondEntering | CondWoken => Some(CondMutex(o.waiter))
    case Entering | Woken => Some(NodeMutex(t))
    case _ => None
  }

  function FailResult(k: Kind): Result {
    if k == Read then Got(None) else Status(1)
  }

  /** What a step of a call reads from outside its own record: the binding of its device, the
      first waiter for its device, whether its node is linked, the length of the log; and what is
      left open: the id a send returns and whether the elapsed-time test of a failed bind fires. */
  datatype Input = Input(binding: Option<Address>, first: Option<OpId>, linked: bool, now: nat, id: nat, late: bool)

  function InputOf(s: State, t: OpId, id: nat, late: bool): Input
    requires t in s.ops
  {
    var d := s.ops[t].device;
    Input(if d in s.bind then Some(s.bind[d]) else None, CondLookup(s.ops, s.cond, d), t in s.pend, |s.log|, id, late)
  }

  /** return_data_set, and the assignment after it in write and Who-Is. */
  function SetNext(o: Op): Op {
    match o.pc
    case Starting => o.(pc := Linking)
    case Linking => o.(pc := if o.kind.Read? then Binding else Clearing)
    case Clearing => o.(pc := if o.kind.WhoIs? then NodeLock else Binding, node := o.node.(err := false))
    case _ => o
  }

  function Bound(o: Op, a: Address): Op {
    o.(pc := NodeLock, node := o.node.(target := a), bound := true)
  }

  function Fail(o: Op): Op {
    o.(pc := UnlinkLock, result := FailResult(o.kind))
  }

  /** find_and_bind, outside its wait for an I-Am. */
  function BindNext(o: Op, e: Input): Op {
    match o.pc
    case Binding =>
      if o.device > BACNET_MAX_INSTANCE then Fail(o)
      else if e.binding.Some? then Bound(o, e.binding.value)
      else o.(pc := CondAddLock)
    case BindChecking => if o.node.err then Fail(o) else o.(pc := Rebinding)
    case Rebinding =>
      if e.binding.None? then Fail(o.(node := o.node.(err := o.node.err || e.late)))
      else if o.node.id == 0 then Bound(o, e.binding.value)
      else o.(pc := Faulted)
    case _ => o
  }

  /** The wait of find_and_bind for an I-Am: add a waiter, look one up, send Who-Is and wait on
      what the lookup returned, remove a waiter. */
  function WaiterNext(o: Op, e: Input): Op {
    match o.pc
    case CondAddLock => o.(pc := CondAdding)
    case CondAdding => o.(pc := CondGetLock)
    case CondGetLock => o.(pc := CondGetting)
    case CondGetting =>
      if e.first.Some? then o.(pc := CondLock, waiter := e.first.value) else o.(pc := Faulted)
    case CondLock => o.(pc := CondSending)
    case CondSending => o.(pc := CondEntering)
    case CondEntering => o.(pc := CondWaiting, woken := false)
    case CondWaiting => o.(pc := CondWoken)
    case CondWoken => o.(pc := CondDropLock)
    case CondDropLock => o.(pc := CondDropping)
    case CondDropping => o.(pc := BindChecking)
    case _ => o
  }

  /** From the node mutex to the start of the wait: both mutexes are held across a send. */
  function SendNext(o: Op, e: Input): Op {
    match o.pc
    case NodeLock => o.(pc := if o.kind.WhoIs? then Broadcasting else ListLock)
    case ListLock => o.(pc := Sending)
    case Sending => o.(pc := Storing, sent := e.id)
    case Storing => o.(pc := Entering, node := o.node.(id := o.sent))
    case Broadcasting => o.(pc := Entering)
    case Entering => o.(pc := Waiting, woken := false)
    case _ => o
  }

  /** The end of wait_for_data and what its caller does. The time variables of wait_for_data stay
      0, so only errorDetected makes it return false; a read ignores what it returns. */
  function WaitNext(o: Op, e: Input): Op {
    match o.pc
    case Waiting => o.(pc := Woken)
    case Woken => if o.kind.WhoIs? then o.(pc := UnlinkLock, result := Finished) else o.(pc := Checking)
    case Checking =>
      if o.kind.Read? then o.(pc := Fetching)
      else if o.node.err then o.(pc := Leaked, result := Status(1), checkedAt := e.now)
      else o.(pc := UnlinkLock, result := Status(0), checkedAt := e.now)
    case Fetching => o.(pc := UnlinkLock, result := Got(o.node.value), checkedAt := e.now)
    case _ => o
  }

  /** return_data_remove_by_ptr; a node that is not linked has no neighbours to follow. */
  function UnlinkNext(o: Op, e: Input): Op {
    match o.pc
    case UnlinkLock => o.(pc := Unlinking)
    case Unlinking => o.(pc := if e.linked then Done else Faulted)
    case _ => o
  }

  predicate InSet(pc: PC) {
    pc.Starting? || pc.Linking? || pc.Clearing?
  }

  predicate InBind(pc: PC) {
    pc.Binding? || pc.BindChecking? || pc.Rebinding?
  }

  predicate InWaiter(pc: PC) {
    pc.CondAddLock? || pc.CondAdding? || pc.CondGetLock? || pc.CondGetting?
    || pc.CondLock? || pc.CondSending? || pc.CondEntering? || pc.CondWaiting? || pc.CondWoken?
    || pc.CondDropLock? || pc.CondDropping?
  }

  predicate InSend(pc: PC) {
    pc.NodeLock? || pc.ListLock? || pc.Sending? || pc.Storing? || pc.Broadcasting? || pc.Entering?
  }

  predicate InWait(pc: PC) {
    pc.Waiting? || pc.Woken? || pc.Checking? || pc.Fetching?
  }

  predicate InUnlink(pc: PC) {
    pc.UnlinkLock? || pc.Unlinking?
  }

  function OpNext(o: Op, e: Input): Op {
    if InSet(o.pc) then SetNext(o)
    else if InBind(o.pc) then BindNext(o, e)
    else if InWaiter(o.pc) then WaiterNext(o, e)
    else if InSend(o.pc) then SendNext(o, e)
    else if InWait(o.pc) then WaitNext(o, e)
    else UnlinkNext(o, e)
  }

  function PendNext(pend: seq<OpId>, t: OpId, pc: PC): seq<OpId> {
    match pc
    case Linking => [t] + pend
    case Unlinking => if t in pend then Lists.RemoveAt(pend, Lists.IndexOf(pend, t)) else pend
    case _ => pend
  }

  function CondNext(ops: map<OpId, Op>, cond: seq<OpId>, t: OpId, o: Op): seq<OpId> {
    match o.pc
    case CondAdding => [t] + cond
    case CondDropping =>
      var i := CondIndex(ops, cond, o.device);
      if i < |cond| then Lists.RemoveAt(cond, i) else cond
    case _ => cond
  }

  function LocksNext(locks: map<Mutex, Actor>, a: Actor, wants: Option<Mutex>, drops: Option<Mutex>)
    : map<Mutex, Actor>
  {
    if wants.Some? then locks[wants.value := a]
    else if drops.Some? then locks - {drops.value}
    else locks
  }

  function OutstandingNext(outstanding: map<nat, OpId>, t: OpId, o: Op, id: nat): map<nat, OpId> {
    if o.pc.Sending? && id != 0 then outstanding[id := t] else outstanding
  }

  function RequesterStep(s: State, t: OpId, id: nat, late: bool): State
    requires t in s.ops
  {
    var o := s.ops[t];
    s.(ops := s.ops[t := OpNext(o, InputOf(s, t, id, late))],
       locks := LocksNext(s.locks, Requester(t), Wants(t, o), Drops(t, o)),
       pend := PendNext(s.pend, t, o.pc),
       cond := CondNext(s.ops, s.cond, t, o),
       outstanding := OutstandingNext(s.outstanding, t, o, id))
  }

  /** From its send until it returns, a read or write keeps its invoke id busy. */
  predicate Live(o: Op) {
    !o.kind.WhoIs? &&
    (o.pc.Storing? || o.pc.Entering? || o.pc.Waiting? || o.pc.Woken? || o.pc.Checking?
     || o.pc.Fetching? || (o.bound && (o.pc.UnlinkLock? || o.pc.Unlinking?)))
  }

  /** What the transaction layer promises about the id it hands out; 0 means nothing was sent. */
  ghost predicate FreshId(s: State, id: nat) {
    id == 0 || (id <= 255 && id !in s.outstanding && forall u :: u in s.ops && Live(s.ops[u]) ==> s.ops[u].sent != id)
  }

  predicate Over(pc: PC) {
    pc.Done? || pc.Leaked? || pc.Faulted?
  }

  ghost predicate RequesterEnabled(s: State, t: OpId, id: nat) {
    && t in s.ops
    && var o := s.ops[t];
    && !Over(o.pc)
    && (Wants(t, o).Some? ==> Wants(t, o).value !in s.locks)
    && (o.pc.Sending? ==> FreshId(s, id))
  }

  function NewOp(c: Config, k: Kind, d: Device): Op {
    var node := Node(if k == WhoIs then c.placeholder else 0, ZERO_ADDRESS, false, None);
    Op(k, d, Starting, node, 0, 0, Running, false, false, false, 0)
  }

  // ---- The receive thread ----

  predicate IsFailure(m: Msg) {
    m.service.Error? || m.service.Abort? || m.service.Reject?
  }

  function RxWants(rx: Rx): Option<Mutex> {
    match rx
    case GetLock(_) => Some(ListMutex)
    case LockingNode(_, n) => Some(NodeMutex(n))
    case CGetLock(_) => Some(CondListMutex)
    case CLockingNode(_, n, _) => Some(CondMutex(n))
    case TableLock(_) => Some(TableMutex)
    case _ => None
  }

  function RxDrops(rx: Rx): Option<Mutex> {
    match rx
    case Getting(_) => Some(ListMutex)
    case Releasing(_, n) => Some(NodeMutex(n))
    case CGetting(_) => Some(CondListMutex)
    case CReleasing(_, n, _) => Some(CondMutex(n))
    case TableAdding(_) => Some(TableMutex)
    case _ => None
  }

  /** Does the unlocked test at the start of a handler set errorDetected? */
  predicate SetsError(m: Msg, node: Node) {
    IsFailure(m) && node.target == m.src
  }

  /** Does the read ACK handler store a value? */
  predicate SetsValue(m: Msg, node: Node) {
    node.target == m.src && m.body.Some?
  }

  /** Is a call in `find_and_bind`, where the address its waiter points at is its local variable? */
  predicate InFindAndBind(pc: PC) {
    InBind(pc) || InWaiter(pc)
  }

  predicate AdderInside(ops: map<OpId, Op>, node: OpId) {
    node in ops && InFindAndBind(ops[node].pc)
  }

  /** `skip` is the outcome of the I-Am handler's test of the address length when the address lies in
      a frame that is gone. In `find_and_bind` the address is zeroed, so its length is 0. */
  function RxNext(s: State, skip: bool): Rx {
    match s.rx
    case Idle => Idle
    case GetLock(m) => Getting(m)
    case Getting(m) =>
      var n := Lookup(s.ops, s.pend, m.id);
      if n.Some? then Judging(m, n.value) else Idle
    case Judging(m, n) =>
      if m.service.ReadAck? && n in s.ops && s.ops[n].node.value.Some? then Idle else LockingNode(m, n)
    case LockingNode(m, n) => if m.service.ReadAck? then Delivering(m, n) else Signalling(m, n)
    case Delivering(m, n) => if n in s.ops && SetsValue(m, s.ops[n].node) then Decoding(m, n) else Signalling(m, n)
    case Decoding(m, n) => Signalling(m, n)
    case Signalling(m, n) => Releasing(m, n)
    case Releasing(m, n) => Idle
    case CGetLock(a) => CGetting(a)
    case CGetting(a) =>
      var n := CondLookup(s.ops, s.cond, a.device);
      if n.Some? then CTesting(a, n.value) else TableLock(a)
    case CTesting(a, n) =>
      var live := AdderInside(s.ops, n);
      if live || !skip then CBinding(a, n, live) else CLockingNode(a, n, live)
    case CBinding(a, n, live) => CLockingNode(a, n, live)
    case CLockingNode(a, n, live) => CSignalling(a, n, live)
    case CSignalling(a, n, live) => CReleasing(a, n, live)
    case CReleasing(a, n, _) => Idle
    case TableLock(a) => TableAdding(a)
    case TableAdding(a) => Idle
  }

  /** Does the current step of the receive thread set errorDetected or value of its node? */
  predicate Records(rx: Rx, ops: map<OpId, Op>) {
    (rx.Judging? && rx.node in ops && SetsError(rx.msg, ops[rx.node].node))
    || (rx.Delivering? && rx.node in ops && SetsValue(rx.msg, ops[rx.node].node))
  }

  /** Does it decode into the block that the value points at? */
  predicate Decodes(rx: Rx, ops: map<OpId, Op>) {
    rx.Decoding? && rx.node in ops && rx.msg.body.Some?
  }

  function Recording(m: Msg, node: Node): Node {
    if IsFailure(m) then node.(err := true) else node.(value := Some(Undecoded))
  }

  /** The node of the handler after a step that writes to it. */
  function Written(rx: Rx, node: Node): Node
    requires rx.Judging? || rx.Delivering? || (rx.Decoding? && rx.msg.body.Some?)
  {
    if rx.Decoding? then node.(value := Some(Decoded(rx.msg.body.value))) else Recording(rx.msg, node)
  }

  /** The call a signal wakes, if any; an I-Am signal wakes the waiter `w`. */
  function Wakes(rx: Rx, ops: map<OpId, Op>, w: Option<OpId>): Option<OpId> {
    if rx.Signalling? && rx.node in ops && ops[rx.node].pc.Waiting? then Some(rx.node)
    else if rx.CSignalling? && w.Some? && w.value in ops then w
    else None
  }

  function Waken(rx: Rx, o: Op): Op {
    o.(woken := true, live := if rx.CSignalling? then rx.live else o.live)
  }

  function RxOps(rx: Rx, ops: map<OpId, Op>, w: Option<OpId>): map<OpId, Op> {
    if Records(rx, ops) || Decodes(rx, ops) then
      var o := ops[rx.node];
      ops[rx.node := o.(node := Written(rx, o.node))]
    else if Wakes(rx, ops, w).Some? then
      var u := Wakes(rx, ops, w).value;
      ops[u := Waken(rx, ops[u])]
    else ops
  }

  function RxLog(rx: Rx, ops: map<OpId, Op>, log: seq<Event>): seq<Event> {
    if Records(rx, ops) then log + [Recorded(rx.node, rx.msg)]
    else if rx.CBinding? then log + [BindingAdded(rx.iam.device, rx.iam.src)]
    else log
  }

  /** `address_add_binding`. */
  function RxBind(rx: Rx, bind: map<Device, Address>): map<Device, Address> {
    if rx.CBinding? then bind[rx.iam.device := rx.iam.src] else bind
  }

  /** `address_entry_set`. */
  function Insert(f: Discovery, a: IAm): Discovery {
    if a.device in EntryDevices(f.table) then f
    else
      var e := Entry(|f.inserted|, a.device, a.src);
      f.(table := [e] + f.table, inserted := f.inserted + [e])
  }

  function RxStep(s: State, w: Option<OpId>, skip: bool): State {
    State(RxOps(s.rx, s.ops, w), LocksNext(s.locks, Receiver, RxWants(s.rx), RxDrops(s.rx)), s.pend, s.cond,
          RxBind(s.rx, s.bind), s.outstanding, RxNext(s, skip), RxLog(s.rx, s.ops, s.log),
          if s.rx.TableAdding? then Insert(s.found, s.rx.iam) else s.found)
  }

  predicate WaitsOn(o: Op, node: OpId) {
    o.pc.CondWaiting? && o.waiter == node
  }

  /** `pthread_cond_signal` on an I-Am node wakes a waiter when there is one. */
  ghost predicate GoodChoice(ops: map<OpId, Op>, node: OpId, w: Option<OpId>) {
    match w
    case Some(u) => u in ops && WaitsOn(ops[u], node)
    case None => forall u :: u in ops ==> !WaitsOn(ops[u], node)
  }

  ghost predicate RxEnabled(s: State, w: Option<OpId>) {
    && s.rx != Idle
    && (RxWants(s.rx).Some? ==> RxWants(s.rx).value !in s.locks)
    && (s.rx.CSignalling? ==> GoodChoice(s.ops, s.rx.node, w))
  }

  function RxMsg(rx: Rx): Option<Msg> {
    match rx
    case GetLock(m) => Some(m)
    case Getting(m) => Some(m)
    case Judging(m, _) => Some(m)
    case LockingNode(m, _) => Some(m)
    case Delivering(m, _) => Some(m)
    case Decoding(m, _) => Some(m)
    case Signalling(m, _) => Some(m)
    case Releasing(m, _) => Some(m)
    case _ => None
  }

  // ---- Takers ----

  function TakerWants(x: Taker): Option<Mutex> {
    if x.pc.Wanting? then Some(TableMutex) else None
  }

  function TakerDrops(x: Taker): Option<Mutex> {
    if x.pc.Holding? then Some(TableMutex) else None
  }

  /** The position a pop or a removal takes, or the length of the table. */
  function TakeIndex(table: seq<Entry>, goal: Option<Device>): (i: nat)
    ensures i <= |table|
  {
    if goal.None? then 0 else Lists.IndexOf(EntryDevices(table), goal.value)
  }

  function TakeNext(f: Discovery, k: TakerId): Discovery
    requires k in f.takers
  {
    var x := f.takers[k];
    match x.pc
    case Wanting => f.(takers := f.takers[k := x.(pc := Holding)])
    case Holding =>
      var i := TakeIndex(f.table, x.goal);
      if i < |f.table| then
        Discovery(Lists.RemoveAt(f.table, i), f.inserted, f.gone + [f.table[i]],
                  f.takers[k := x.(pc := Ended, got := Some(f.table[i]))])
      else f.(takers := f.takers[k := x.(pc := Ended)])
    case Ended => f
  }

  function TakerStep(s: State, k: TakerId): State
    requires k in s.found.takers
  {
    var x := s.found.takers[k];
    s.(found := TakeNext(s.found, k), locks := LocksNext(s.locks, Taking(k), TakerWants(x), TakerDrops(x)))
  }

  predicate TakerEnabled(s: State, k: TakerId) {
    && k in s.found.takers && !s.found.takers[k].pc.Ended?
    && (s.found.takers[k].pc.Wanting? ==> TableMutex !in s.locks)
  }

  // ---- Actions ----

  datatype Action =
    | Call(t: OpId, kind: Kind, device: Device)
    | Request(t: OpId, id: nat, late: bool)
    | Receive(msg: Msg)
    | ReceiveIAm(iam: IAm)
    | Handle(w: Option<OpId>, skip: bool)
    | Expire(id: nat)
    | Take(k: TakerId, goal: Option<Device>)
    | TakeStep(k: TakerId)

  /** Any message may arrive, forged or late, but none with id 0, and one that claims to answer a
      request answers a request still on the wire. */
  ghost predicate Enabled(s: State, a: Action) {
    match a
    case Call(t, k, d) => t !in s.ops
    case Request(t, id, late) => RequesterEnabled(s, t, id)
    case Receive(m) =>
      && s.rx == Idle && m.id != 0
      && (m.cause.Some? ==> m.id in s.outstanding && s.outstanding[m.id] == m.cause.value)
    case ReceiveIAm(_) => s.rx == Idle
    case Handle(w, _) => RxEnabled(s, w)
    case Expire(id) => !(RxMsg(s.rx).Some? && RxMsg(s.rx).value.id == id)
    case Take(k, goal) => k !in s.found.takers
    case TakeStep(k) => TakerEnabled(s, k)
  }

  ghost function Apply(c: Config, s: State, a: Action): State
    requires Enabled(s, a)
  {
    match a
    case Call(t, k, d) => s.(ops := s.ops[t := NewOp(c, k, d)])
    case Request(t, id, late) => RequesterStep(s, t, id, late)
    case Receive(m) => s.(rx := GetLock(m))
    case ReceiveIAm(i) => s.(rx := CGetLock(i))
    case Handle(w, skip) => RxStep(s, w, skip)
    case Expire(id) => s.(outstanding := s.outstanding - {id})
    case Take(k, goal) => s.(found := s.found.(takers := s.found.takers[k := Taker(goal, Wanting, None)]))
    case TakeStep(k) => TakerStep(s, k)
  }

  ghost predicate Next(c: Config, s: State, s': State) {
    exists a: Action :: Enabled(s, a) && s' == Apply(c, s, a)
  }

  ghost predicate StepAt(c: Config, run: seq<State>, i: nat)
    requires i + 1 < |run|
  {
    Next(c, run[i], run[i + 1])
  }

  ghost predicate IsRun(c: Config, run: seq<State>) {
    |run| > 0 && Init(c, run[0]) && forall i :: 0 <= i < |run| - 1 ==> StepAt(c, run, i)
  }

  ghost predicate Reachable(c: Config, s: State) {
    exists run: seq<State> :: IsRun(c, run) && run[|run| - 1] == s
  }
}

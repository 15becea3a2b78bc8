/** Waiting for an I-Am: which call a handler wakes, and when a woken call finds its device bound. */
module Waking {
  import opened Bacnet
  import opened Lists
  import opened Protocol
  import opened Locking
  import opened Calls
  import opened Waiters
  import opened Safety
  import opened Signals
  import opened Theorems

  // ---- Which waiter a handler finds ----

  /** The waiter of another call for this device is linked in front of position `j`. */
  ghost predicate WaiterInFront(ops: map<OpId, Op>, cond: seq<OpId>, d: Device, j: nat)
    requires j <= |cond|
  {
    exists i :: 0 <= i < j && NamedBy(ops, cond[i], d)
  }

  predicate NamedBy(ops: map<OpId, Op>, n: OpId, d: Device) {
    n in ops && ops[n].device == d
  }

  lemma FirstOfDevice(ops: map<OpId, Op>, cond: seq<OpId>, d: Device, j: nat)
    requires j < |cond| && NamedBy(ops, cond[j], d) && forall n :: n in cond ==> n in ops
    ensures CondIndex(ops, cond, d) == j <==> !WaiterInFront(ops, cond, d, j)
  {
    var ds := Devices(ops, cond);
    var k := CondIndex(ops, cond, d);
    IndexOfFirst(ds, d, j);
    if k < j {
      assert NamedBy(ops, cond[k], d);
    } else {
      forall i | 0 <= i < j ensures !NamedBy(ops, cond[i], d) {
        assert ds[i] == ds[..k][i];
      }
    }
  }

  /** The I-Am handler finds the waiter of a waiting call if and only if that waiter is linked, and no
      other waiter for its device in front of it. */
  lemma WaiterDispatchExact(c: Config, s: State, u: OpId)
    requires Reachable(c, s) && u in s.ops && s.ops[u].pc.CondWaiting?
    ensures var o := s.ops[u];
            CondLookup(s.ops, s.cond, o.device) == Some(o.waiter) <==>
            o.waiter in s.cond && !WaiterInFront(s.ops, s.cond, o.device, IndexOf(s.cond, o.waiter))
  {
    ReachableInv(c, s);
    assert WaiterOk(s.ops, s.bind, s.ops[u]);
    FindsWaiter(s.ops, s.cond, s.ops[u].device, s.ops[u].waiter);
  }

  lemma FindsWaiter(ops: map<OpId, Op>, cond: seq<OpId>, d: Device, n: OpId)
    requires CondOk(ops, cond) && NamedBy(ops, n, d)
    ensures CondLookup(ops, cond, d) == Some(n) <==>
            n in cond && !WaiterInFront(ops, cond, d, IndexOf(cond, n))
  {
    if n in cond {
      var j := IndexOf(cond, n);
      FirstOfDevice(ops, cond, d, j);
      var k := CondIndex(ops, cond, d);
      assert k != j && k < |cond| ==> cond[k] != cond[j];
    }
  }

  // ---- A call alone on its device ----

  /** No other call for the device of this one is between adding and removing a waiter. */
  ghost predicate Alone(ops: map<OpId, Op>, u: OpId)
    requires u in ops
  {
    forall v :: v in ops && v != u && Names(ops[v], ops[u].device) ==> !InWindow(ops[v].pc)
  }

  predicate InWindowAt(s: State, u: OpId) {
    u in s.ops && InWindow(s.ops[u].pc)
  }

  ghost predicate Undisturbed(s: State, u: OpId) {
    InWindowAt(s, u) ==> Alone(s.ops, u)
  }

  /** Where the local `map` has been set. */
  predicate HasGot(pc: PC) {
    HasWaiter(pc) || pc.CondDropLock? || pc.CondDropping? || pc.BindChecking? || pc.Rebinding?
  }

  /** The waiter of a call in its window is linked, and what the call got is its own. */
  ghost predicate Own(ops: map<OpId, Op>, cond: seq<OpId>, u: OpId) {
    u in ops ==> (InWindow(ops[u].pc) ==> u in cond) && (HasGot(ops[u].pc) ==> ops[u].waiter == u)
  }

  lemma AloneLookup(c: Config, ops: map<OpId, Op>, cond: seq<OpId>, u: OpId)
    requires CallsOk(c, ops) && CondOk(ops, cond) && u in ops && InWindow(ops[u].pc) && Alone(ops, u) && u in cond
    ensures CondLookup(ops, cond, ops[u].device) == Some(u)
  {
    var d := ops[u].device;
    var linked := LinkedFor(ops, cond, d);
    forall v | v in WaitingFor(ops, d) ensures v == u {
      assert ControlOk(c, ops[v]);
    }
    assert WaitingFor(ops, d) == {u} && Balanced(ops, cond, d);
    CondLookupFirst(ops, cond, d);
    OnlyMember(linked, u, CondLookup(ops, cond, d).value);
  }

  lemma OnlyMember(s: set<OpId>, x: OpId, y: OpId)
    requires |s| == 1 && x in s && y in s
    ensures x == y
  {
    assert |s - {x}| == 0;
    assert x != y ==> y in s - {x};
  }

  lemma OwnStep(o: Op, e: Input, u: OpId)
    requires !Over(o.pc) && (HasGot(o.pc) ==> o.waiter == u) && (o.pc.CondGetting? ==> e.first == Some(u))
    ensures HasGot(OpNext(o, e).pc) ==> OpNext(o, e).waiter == u
  {
    if InWaiter(o.pc) { assert HasGot(WaiterNext(o, e).pc) ==> WaiterNext(o, e).waiter == u; }
    else if Unbound(o.pc) { GotEarly(o, e); }
    else { LateStays(o, e); }
  }

  lemma GotEarly(o: Op, e: Input)
    requires InSet(o.pc) || InBind(o.pc)
    ensures OpNext(o, e).waiter == o.waiter && (HasGot(OpNext(o, e).pc) ==> HasGot(o.pc))
  {
    if InSet(o.pc) { assert SetNext(o).waiter == o.waiter && !HasGot(SetNext(o).pc); }
    else { assert BindNext(o, e).waiter == o.waiter && (HasGot(BindNext(o, e).pc) ==> HasGot(o.pc)); }
  }

  /** The call's own step. */
  lemma OwnKeepsOwn(c: Config, s: State, u: OpId, id: nat, late: bool)
    requires CallsOk(c, s.ops) && CondOk(s.ops, s.cond) && RequesterEnabled(s, u, id)
    requires Undisturbed(s, u) && Own(s.ops, s.cond, u)
    ensures var s' := RequesterStep(s, u, id, late); Own(s'.ops, s'.cond, u)
  {
    var o, e := s.ops[u], InputOf(s, u, id, late);
    if o.pc.CondGetting? {
      AloneLookup(c, s.ops, s.cond, u);
    }
    OwnStep(o, e, u);
    if Left(o.pc) { LateStays(o, e); } else { WindowNext(o, e); }
  }

  /** A step of another call: it removes no waiter of this device. */
  lemma OtherKeepsOwn(c: Config, s: State, t: OpId, id: nat, late: bool, u: OpId)
    requires CallsOk(c, s.ops) && CondOk(s.ops, s.cond) && RequesterEnabled(s, t, id) && t != u
    requires Undisturbed(s, u) && Own(s.ops, s.cond, u)
    ensures var s' := RequesterStep(s, t, id, late); Own(s'.ops, s'.cond, u)
  {
    if InWindowAt(s, u) && s.ops[t].pc.CondDropping? {
      assert ControlOk(c, s.ops[t]);
      OtherDrops(s.ops, s.cond, t, u);
    }
  }

  lemma OtherDrops(ops: map<OpId, Op>, cond: seq<OpId>, t: OpId, u: OpId)
    requires CondOk(ops, cond) && t in ops && u in ops && ops[t].pc.CondDropping? && u in cond
    requires ops[t].device != ops[u].device
    ensures u in CondNext(ops, cond, t, ops[t])
  {
    CondLookupFirst(ops, cond, ops[t].device);
    var i := CondIndex(ops, cond, ops[t].device);
    if i < |cond| {
      DistinctRemove(cond, i);
    }
  }

  lemma ActionKeepsOwn(c: Config, s: State, a: Action, u: OpId)
    requires CallsOk(c, s.ops) && CondOk(s.ops, s.cond) && Enabled(s, a)
    requires Undisturbed(s, u) && Own(s.ops, s.cond, u)
    ensures var s' := Apply(c, s, a); Own(s'.ops, s'.cond, u)
  {
    match a
    case Request(t, id, late) =>
      if t == u { OwnKeepsOwn(c, s, u, id, late); } else { OtherKeepsOwn(c, s, t, id, late, u); }
    case Handle(w, _) => RxSameWaiter(s.rx, s.ops, w);
    case _ =>
  }

  lemma NextKeepsOwn(c: Config, s: State, s': State, u: OpId)
    requires CallsOk(c, s.ops) && CondOk(s.ops, s.cond) && Next(c, s, s')
    requires Undisturbed(s, u) && Own(s.ops, s.cond, u)
    ensures Own(s'.ops, s'.cond, u)
  {
    var a: Action :| Enabled(s, a) && s' == Apply(c, s, a);
    ActionKeepsOwn(c, s, a, u);
  }

  lemma StepKeepsOwn(c: Config, run: seq<State>, j: nat, u: OpId)
    requires IsRun(c, run) && 0 < j < |run| && Undisturbed(run[j - 1], u) && Own(run[j - 1].ops, run[j - 1].cond, u)
    ensures Own(run[j].ops, run[j].cond, u)
  {
    RunInv(c, run, j - 1);
    assert StepAt(c, run, j - 1);
    NextKeepsOwn(c, run[j - 1], run[j], u);
  }

  /** If a call has never shared its window with another call for its device, its waiter is linked
      throughout its window, and what it gets is its own waiter. */
  lemma {:induction false} AloneKeepsOwn(c: Config, run: seq<State>, j: nat, u: OpId)
    requires IsRun(c, run) && j < |run| && forall k :: 0 <= k < j ==> Undisturbed(run[k], u)
    ensures Own(run[j].ops, run[j].cond, u)
  {
    if j == 0 {
    } else {
      AloneKeepsOwn(c, run, j - 1, u);
      StepKeepsOwn(c, run, j, u);
    }
  }

  /** A waiting call waits on its own waiter, no other call does, and the I-Am handler finds that one. */
  ghost predicate OwnWaiter(ops: map<OpId, Op>, cond: seq<OpId>, u: OpId) {
    && u in ops && WaitsOn(ops[u], u) && CondLookup(ops, cond, ops[u].device) == Some(u)
    && forall v :: v in ops && WaitsOn(ops[v], u) ==> v == u
  }

  lemma AloneOwnWaiter(c: Config, ops: map<OpId, Op>, cond: seq<OpId>, bind: map<Device, Address>, u: OpId)
    requires CallsOk(c, ops) && CondOk(ops, cond) && WaitersOk(ops, bind)
    requires u in ops && ops[u].pc.CondWaiting? && Alone(ops, u) && Own(ops, cond, u)
    ensures OwnWaiter(ops, cond, u)
  {
    AloneLookup(c, ops, cond, u);
    forall v | v in ops && WaitsOn(ops[v], u) ensures v == u {
      assert ControlOk(c, ops[v]) && WaiterOk(ops, bind, ops[v]);
    }
  }

  /** If a call has never shared its window with another call for its device, every lookup of the device
      in its window gives its waiter; and while it waits, it waits on that one, alone. */
  lemma AloneFound(c: Config, run: seq<State>, j: nat, u: OpId)
    requires IsRun(c, run) && j < |run| && forall k :: 0 <= k <= j ==> Undisturbed(run[k], u)
    ensures InWindowAt(run[j], u) ==> CondLookup(run[j].ops, run[j].cond, run[j].ops[u].device) == Some(u)
    ensures u in run[j].ops && run[j].ops[u].pc.CondWaiting? ==> OwnWaiter(run[j].ops, run[j].cond, u)
  {
    AloneKeepsOwn(c, run, j, u);
    RunInv(c, run, j);
    if InWindowAt(run[j], u) {
      AloneLookup(c, run[j].ops, run[j].cond, u);
      if run[j].ops[u].pc.CondWaiting? {
        AloneOwnWaiter(c, run[j].ops, run[j].cond, run[j].bind, u);
      }
    }
  }

  // ---- Lost wake-ups ----

  /** When the I-Am handler signals a waiter, no call is between its Who-Is and its wait on it. */
  lemma WhoIsWaitBeforeSignal(c: Config, s: State, u: OpId)
    requires Reachable(c, s) && s.rx.CSignalling? && u in s.ops && s.ops[u].waiter == s.rx.node
    ensures !s.ops[u].pc.CondSending? && !s.ops[u].pc.CondEntering? && !s.ops[u].pc.CondWoken?
  {
    ReachableLocks(c, s);
    ReceiverExcludes(s, CondMutex(s.rx.node), u);
    HoldsWaiter(u, s.ops[u]);
  }

  lemma HoldsWaiter(t: OpId, o: Op)
    ensures o.pc.CondSending? || o.pc.CondEntering? || o.pc.CondWoken? ==> Holds(t, o, CondMutex(o.waiter))
  {
  }

  lemma ReceiverExcludes(s: State, mu: Mutex, u: OpId)
    requires LockInv(s) && RxHolds(s.rx, mu) && u in s.ops
    ensures !Holds(u, s.ops[u], mu)
  {
    assert Owns(s.locks, mu, Receiver) <==> RxHolds(s.rx, mu);
    assert Owns(s.locks, mu, Requester(u)) <==> Holds(u, s.ops[u], mu);
  }

  /** When the I-Am handler is done with a waiter on which calls wait, one of them is awake; and the
      device is bound to the sender if the waiter's call was in `find_and_bind` at the test. */
  lemma IAmWakes(c: Config, s: State, u: OpId)
    requires Reachable(c, s) && s.rx.CReleasing? && u in s.ops && WaitsOn(s.ops[u], s.rx.node)
    ensures s.ops[u].device == s.rx.iam.device
    ensures exists v :: v in s.ops && WaitsOn(s.ops[v], s.rx.node) && s.ops[v].woken
    ensures s.rx.live ==> s.ops[u].device in s.bind && s.bind[s.ops[u].device] == s.rx.iam.src
  {
    ReachableSignalled(c, s);
    ReachableInv(c, s);
    assert WaiterOk(s.ops, s.bind, s.ops[u]);
  }

  /** The signal of the I-Am handler is sure to leave a call that waits on the waiter awake if and only
      if the call is awake already or no other call waits on it: it wakes one of those that do. */
  lemma SignalDecides(s: State, u: OpId)
    requires s.rx.CSignalling? && u in s.ops && WaitsOn(s.ops[u], s.rx.node)
    ensures (forall w, skip :: RxEnabled(s, w) ==> RxStep(s, w, skip).ops[u].woken) <==>
            s.ops[u].woken || forall v :: v in s.ops && v != u ==> !WaitsOn(s.ops[v], s.rx.node)
  {
    if v :| v in s.ops && v != u && WaitsOn(s.ops[v], s.rx.node) {
      assert RxEnabled(s, Some(v)) && RxStep(s, Some(v), false).ops[u] == s.ops[u];
    }
  }

  // ---- An I-Am for a call that is alone ----

  /** The handler of this I-Am is at work on the waiter of call `u`. */
  predicate Reaching(s: State, u: OpId, a: IAm) {
    u in s.ops &&
    match s.rx
    case CGetLock(b) => b == a
    case CGetting(b) => b == a
    case CTesting(b, n) => b == a && n == u
    case CBinding(b, n, live) => b == a && n == u && live
    case CLockingNode(b, n, live) => b == a && n == u && live
    case CSignalling(b, n, live) => b == a && n == u && live
    case CReleasing(b, n, live) => b == a && n == u && live && s.ops[u].woken
    case _ => false
  }

  /** It has woken the call and bound its device to the sender. */
  predicate Reached(s: State, u: OpId, a: IAm) {
    u in s.ops && s.ops[u].woken && a.device in s.bind && s.bind[a.device] == a.src
  }

  predicate WaitsFor(s: State, u: OpId, d: Device) {
    u in s.ops && s.ops[u].pc.CondWaiting? && s.ops[u].device == d
  }

  lemma ReachingRequest(s: State, t: OpId, id: nat, late: bool, u: OpId, a: IAm)
    requires RequesterEnabled(s, t, id) && Reaching(s, u, a) && s.ops[u].pc.CondWaiting?
    requires RequesterStep(s, t, id, late).ops[u].pc.CondWaiting?
    ensures Reaching(RequesterStep(s, t, id, late), u, a)
  {
    if t == u { WaitEnds(s.ops[u], InputOf(s, u, id, late)); }
  }

  lemma WaitEnds(o: Op, e: Input)
    requires o.pc.CondWaiting?
    ensures OpNext(o, e).pc.CondWoken?
  {
  }

  lemma ReachingHandle(s: State, w: Option<OpId>, skip: bool, u: OpId, a: IAm)
    requires RxEnabled(s, w) && OwnWaiter(s.ops, s.cond, u) && Reaching(s, u, a) && s.ops[u].device == a.device
    requires RxWaiterOk(s.ops, s.bind, s.rx)
    ensures var s' := RxStep(s, w, skip);
            if s'.rx == Idle then Reached(s', u, a) else Reaching(s', u, a)
  {
  }

  lemma ReachingAction(c: Config, s: State, x: Action, u: OpId, a: IAm)
    requires Enabled(s, x) && s.rx != Idle && Reaching(s, u, a) && s.ops[u].device == a.device
    requires OwnWaiter(s.ops, s.cond, u) && RxWaiterOk(s.ops, s.bind, s.rx)
    requires u in Apply(c, s, x).ops && Apply(c, s, x).ops[u].pc.CondWaiting?
    ensures var s' := Apply(c, s, x);
            if s'.rx == Idle then Reached(s', u, a) else Reaching(s', u, a)
  {
    match x
    case Request(t, id, late) => ReachingRequest(s, t, id, late, u, a);
    case Handle(w, skip) => ReachingHandle(s, w, skip, u, a);
    case _ =>
  }

  lemma ReachingNext(c: Config, s: State, s': State, u: OpId, a: IAm)
    requires OwnWaiter(s.ops, s.cond, u) && RxWaiterOk(s.ops, s.bind, s.rx) && Next(c, s, s')
    requires s.rx != Idle && Reaching(s, u, a) && s.ops[u].device == a.device
    requires u in s'.ops && s'.ops[u].pc.CondWaiting?
    ensures if s'.rx == Idle then Reached(s', u, a) else Reaching(s', u, a)
  {
    var x: Action :| Enabled(s, x) && s' == Apply(c, s, x);
    ReachingAction(c, s, x, u, a);
  }

  lemma StepKeepsReaching(c: Config, run: seq<State>, k: nat, u: OpId, a: IAm)
    requires IsRun(c, run) && 0 < k < |run| && run[k - 1].rx != Idle && OwnWaiter(run[k - 1].ops, run[k - 1].cond, u)
    requires WaitsFor(run[k - 1], u, a.device) && WaitsFor(run[k], u, a.device) && Reaching(run[k - 1], u, a)
    ensures if run[k].rx == Idle then Reached(run[k], u, a) else Reaching(run[k], u, a)
  {
    assert StepAt(c, run, k - 1);
    RunRxWaiter(c, run, k - 1);
    ReachingNext(c, run[k - 1], run[k], u, a);
  }

  lemma RunRxWaiter(c: Config, run: seq<State>, k: nat)
    requires IsRun(c, run) && k < |run|
    ensures RxWaiterOk(run[k].ops, run[k].bind, run[k].rx)
  {
    RunInv(c, run, k);
  }

  /** An I-Am for the device of a call that has never shared its window with another call for the device:
      if the call waits from when the I-Am is received until its handler is done, it has been woken and
      the device is bound to the sender. */
  lemma {:induction false} IAmReachesAlone(c: Config, run: seq<State>, i: nat, j: nat, u: OpId, a: IAm)
    requires IsRun(c, run) && i <= j < |run| && run[i].rx == CGetLock(a)
    requires forall k :: i <= k < j ==> run[k].rx != Idle
    requires forall k :: i <= k <= j ==> WaitsFor(run[k], u, a.device)
    requires forall k :: 0 <= k <= j ==> Undisturbed(run[k], u)
    ensures if run[j].rx == Idle then Reached(run[j], u, a) else Reaching(run[j], u, a)
  {
    if i == j {
    } else {
      IAmReachesAlone(c, run, i, j - 1, u, a);
      AloneFound(c, run, j - 1, u);
      StepKeepsReaching(c, run, j, u, a);
    }
  }

  // ---- Woken and bound ----

  /** No other call ever named the device of this one. */
  ghost predicate Sole(ops: map<OpId, Op>, u: OpId) {
    u in ops && !ops[u].kind.WhoIs? && forall v :: v in ops && v != u ==> !Names(ops[v], ops[u].device)
  }

  /** A call in `find_and_bind` that a signal woke finds its device bound if the call that added its
      waiter was in `find_and_bind` when the handler tested, or still is; in particular if no other
      call ever named the device. */
  lemma WokenIsBound(c: Config, s: State, t: OpId)
    requires Reachable(c, s) && t in s.ops && InFindAndBind(s.ops[t].pc) && s.ops[t].woken
    ensures s.ops[t].live || AdderInside(s.ops, s.ops[t].waiter) || Sole(s.ops, t) ==> s.ops[t].device in s.bind
  {
    ReachableInv(c, s);
    assert WaiterOk(s.ops, s.bind, s.ops[t]) && ControlOk(c, s.ops[t]);
  }

  /** The second bind request succeeds if and only if the device is bound, with the address it then
      has; so it succeeds after such a wait. */
  lemma BindingProgress(c: Config, s: State, t: OpId, id: nat, late: bool)
    requires Reachable(c, s) && RequesterEnabled(s, t, id) && s.ops[t].pc.Rebinding?
    ensures var o, o' := s.ops[t], RequesterStep(s, t, id, late).ops[t];
            && (o'.bound <==> o.device in s.bind)
            && (o'.bound ==> o'.pc.NodeLock? && o'.node.target == s.bind[o.device])
            && (!o'.bound ==> o'.pc.UnlinkLock? && o'.node.err == late)
            && (o.woken && (o.live || AdderInside(s.ops, o.waiter) || Sole(s.ops, t)) ==> o'.bound)
  {
    NoErrorInBind(c, s, t);
    if s.ops[t].woken {
      WokenIsBound(c, s, t);
    }
    RebindingStep(s.ops[t], InputOf(s, t, id, late));
  }

  lemma RebindingStep(o: Op, e: Input)
    requires o.pc.Rebinding? && o.node.id == 0 && !o.bound
    ensures var o' := OpNext(o, e);
            if e.binding.Some? then o' == Bound(o, e.binding.value)
            else !o'.bound && o'.pc.UnlinkLock? && o'.node.err == (o.node.err || e.late)
  {
  }

  /** A call that has never shared its window with another call for its device finds the device bound
      after a wait that a signal ended. */
  lemma AloneIsBound(c: Config, run: seq<State>, j: nat, u: OpId)
    requires IsRun(c, run) && j < |run| && forall k :: 0 <= k <= j ==> Undisturbed(run[k], u)
    requires u in run[j].ops && InFindAndBind(run[j].ops[u].pc) && run[j].ops[u].woken
    ensures run[j].ops[u].waiter == u && run[j].ops[u].device in run[j].bind
  {
    AloneKeepsOwn(c, run, j, u);
    RunReaches(c, run, j);
    WokenWaited(c, run[j], u);
    WokenIsBound(c, run[j], u);
  }

  lemma WokenWaited(c: Config, s: State, t: OpId)
    requires Reachable(c, s) && t in s.ops && InFindAndBind(s.ops[t].pc) && s.ops[t].woken
    ensures HasGot(s.ops[t].pc)
  {
    ReachableInv(c, s);
    assert WaiterOk(s.ops, s.bind, s.ops[t]);
  }

  // ---- The test of the I-Am handler decides ----

  ghost predicate Path(c: Config, run: seq<State>) {
    |run| > 0 && forall i :: 0 <= i < |run| - 1 ==> StepAt(c, run, i)
  }

  ghost predicate Leads(c: Config, s: State, s': State) {
    exists run: seq<State> :: Path(c, run) && run[0] == s && run[|run| - 1] == s'
  }

  /** The device is bound, or the handler is about to bind it. */
  predicate Binds(s: State, d: Device) {
    d in s.bind || (s.rx.CBinding? && s.rx.iam.device == d)
  }

  lemma ActionKeepsBinds(c: Config, s: State, a: Action, d: Device)
    requires Enabled(s, a) && Binds(s, d)
    ensures Binds(Apply(c, s, a), d)
  {
  }

  lemma NextKeepsBinds(c: Config, s: State, s': State, d: Device)
    requires Next(c, s, s') && Binds(s, d)
    ensures Binds(s', d)
  {
    var a: Action :| Enabled(s, a) && s' == Apply(c, s, a);
    ActionKeepsBinds(c, s, a, d);
  }

  lemma {:induction false} PathKeepsBinds(c: Config, run: seq<State>, j: nat, d: Device)
    requires Path(c, run) && j < |run| && Binds(run[0], d)
    ensures Binds(run[j], d)
  {
    if j == 0 {
    } else {
      PathKeepsBinds(c, run, j - 1, d);
      assert StepAt(c, run, j - 1);
      NextKeepsBinds(c, run[j - 1], run[j], d);
    }
  }

  /** The handler has just signalled; this call is awake, and its device `d` is not bound. */
  predicate WokenUnbound(s: State, u: OpId, d: Device) {
    s.rx.CReleasing? && u in s.ops && WaitsOn(s.ops[u], s.rx.node) && s.ops[u].woken && d !in s.bind
  }

  lemma LeadsSelf(c: Config, s: State)
    ensures Leads(c, s, s)
  {
    assert Path(c, [s]) && [s][0] == s;
  }

  lemma LeadsOn(c: Config, s: State, s1: State, a: Action)
    requires Leads(c, s, s1) && Enabled(s1, a)
    ensures Leads(c, s, Apply(c, s1, a))
  {
    var run: seq<State> :| Path(c, run) && run[0] == s && run[|run| - 1] == s1;
    var more := run + [Apply(c, s1, a)];
    PathOn(c, run, more[|run|]);
    assert more[0] == s && more[|more| - 1] == Apply(c, s1, a);
  }

  lemma PathOn(c: Config, run: seq<State>, s': State)
    requires Path(c, run) && Next(c, run[|run| - 1], s')
    ensures Path(c, run + [s'])
  {
    forall i | 0 <= i < |run| ensures StepAt(c, run + [s'], i) {
      if i < |run| - 1 { assert StepAt(c, run, i); }
    }
  }

  /** The handler is about to signal a waiter on which call `u` waits, and device `d` is not bound. */
  predicate AboutToWake(s: State, u: OpId, d: Device) {
    s.rx.CLockingNode? && u in s.ops && WaitsOn(s.ops[u], s.rx.node) && d !in s.bind
  }

  lemma SignalsUnbound(c: Config, s0: State, s: State, u: OpId, d: Device)
    requires Leads(c, s0, s) && AboutToWake(s, u, d) && CondMutex(s.rx.node) !in s.locks
    ensures exists s' :: Leads(c, s0, s') && WokenUnbound(s', u, d)
  {
    LeadsOn(c, s0, s, Handle(None, false));
    var s1 := RxStep(s, None, false);
    LeadsOn(c, s0, s1, Handle(Some(u), false));
    assert WokenUnbound(RxStep(s1, Some(u), false), u, d);
  }

  /** A call that holds the mutex of the waiter. */
  ghost predicate WaiterHeld(s: State, h: OpId) {
    s.rx.CLockingNode? && h in s.ops && s.ops[h].waiter == s.rx.node && CondMutex(s.rx.node) in s.locks
  }

  /** A call gives the mutex up with its next step. */
  lemma Unlocks(c: Config, s0: State, s: State, u: OpId, d: Device, h: OpId)
    requires Leads(c, s0, s) && AboutToWake(s, u, d) && WaiterHeld(s, h)
    requires s.ops[h].pc.CondEntering? || s.ops[h].pc.CondWoken?
    ensures exists s' :: Leads(c, s0, s') && WokenUnbound(s', u, d)
  {
    LeadsOn(c, s0, s, Request(h, 0, false));
    SignalsUnbound(c, s0, RequesterStep(s, h, 0, false), u, d);
  }

  lemma SendsAndUnlocks(c: Config, s0: State, s: State, u: OpId, d: Device, h: OpId)
    requires Leads(c, s0, s) && AboutToWake(s, u, d) && WaiterHeld(s, h) && s.ops[h].pc.CondSending?
    ensures exists s' :: Leads(c, s0, s') && WokenUnbound(s', u, d)
  {
    LeadsOn(c, s0, s, Request(h, 0, false));
    Unlocks(c, s0, RequesterStep(s, h, 0, false), u, d, h);
  }

  lemma HolderOf(s: State) returns (h: OpId)
    requires LockInv(s) && s.rx.CLockingNode? && CondMutex(s.rx.node) in s.locks
    ensures WaiterHeld(s, h) && (s.ops[h].pc.CondSending? || s.ops[h].pc.CondEntering? || s.ops[h].pc.CondWoken?)
  {
    var mu := CondMutex(s.rx.node);
    match s.locks[mu]
    case Requester(t) =>
      h := t;
      assert Owns(s.locks, mu, Requester(t));
    case Receiver =>
      assert Owns(s.locks, mu, Receiver);
      assert false;
    case Taking(k) =>
      assert Owns(s.locks, mu, Taking(k));
      assert false;
  }

  /** The mutex of the waiter is free or becomes free, and then the handler signals. */
  lemma SignalComes(c: Config, s: State, u: OpId, d: Device)
    requires LockInv(s) && AboutToWake(s, u, d)
    ensures exists s' :: Leads(c, s, s') && WokenUnbound(s', u, d)
  {
    LeadsSelf(c, s);
    if CondMutex(s.rx.node) !in s.locks {
      SignalsUnbound(c, s, s, u, d);
    } else {
      var h := HolderOf(s);
      if s.ops[h].pc.CondSending? {
        SendsAndUnlocks(c, s, s, u, d, h);
      } else {
        Unlocks(c, s, s, u, d, h);
      }
    }
  }

  /** Before the I-Am handler tests the address of a waiter: it is sure that the signal wakes no call
      on that waiter with its device unbound if and only if the call that added the waiter is in
      `find_and_bind`, or the device is bound already. */
  lemma TestDecides(c: Config, s: State, u: OpId)
    requires Reachable(c, s) && s.rx.CTesting? && u in s.ops && WaitsOn(s.ops[u], s.rx.node)
    ensures AdderInside(s.ops, s.rx.node) || s.ops[u].device in s.bind <==>
            forall skip, s' :: Leads(c, RxStep(s, None, skip), s') ==> !WokenUnbound(s', u, s.ops[u].device)
  {
    WaiterDevice(c, s, u);
    if AdderInside(s.ops, s.rx.node) || s.ops[u].device in s.bind {
      forall skip, s' | Leads(c, RxStep(s, None, skip), s') ensures !WokenUnbound(s', u, s.ops[u].device) {
        TestBinds(s, skip);
        LeadsBound(c, RxStep(s, None, skip), s', s.ops[u].device);
      }
    } else {
      ReachableLocks(c, s);
      HandleKeepsLocks(s, None, true);
      SignalComes(c, RxStep(s, None, true), u, s.ops[u].device);
    }
  }

  lemma WaiterDevice(c: Config, s: State, u: OpId)
    requires Reachable(c, s) && s.rx.CTesting? && u in s.ops && WaitsOn(s.ops[u], s.rx.node)
    ensures s.ops[u].device == s.rx.iam.device
  {
    ReachableInv(c, s);
    assert WaiterOk(s.ops, s.bind, s.ops[u]);
  }

  lemma TestBinds(s: State, skip: bool)
    requires s.rx.CTesting? && (AdderInside(s.ops, s.rx.node) || s.rx.iam.device in s.bind)
    ensures Binds(RxStep(s, None, skip), s.rx.iam.device)
  {
  }

  lemma LeadsBound(c: Config, s: State, s': State, d: Device)
    requires Leads(c, s, s') && Binds(s, d)
    ensures Binds(s', d)
  {
    var run: seq<State> :| Path(c, run) && run[0] == s && run[|run| - 1] == s';
    PathKeepsBinds(c, run, |run| - 1, d);
  }
}

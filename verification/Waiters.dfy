/** The waiters for I-Am: how many are linked for each device, who waits on what, and which
    address a bound call has. */
module Waiters {
  import opened Bacnet
  import opened Lists
  import opened Protocol
  import opened Calls

  /** Between adding a waiter and removing one. */
  predicate InWindow(pc: PC) {
    InWaiter(pc) && !pc.CondAddLock? && !pc.CondAdding?
  }

  ghost function LinkedFor(ops: map<OpId, Op>, cond: seq<OpId>, d: Device): set<OpId> {
    set n | n in cond && n in ops && ops[n].device == d
  }

  ghost function WaitingFor(ops: map<OpId, Op>, d: Device): set<OpId> {
    set t | t in ops && InWindow(ops[t].pc) && ops[t].device == d
  }

  ghost predicate Balanced(ops: map<OpId, Op>, cond: seq<OpId>, d: Device) {
    |LinkedFor(ops, cond, d)| == |WaitingFor(ops, d)|
  }

  /** Every linked waiter was added by its call, and for each device as many waiters are linked as
      calls are in their window, although a call may wait on, and remove, another call's waiter. */
  ghost predicate CondOk(ops: map<OpId, Op>, cond: seq<OpId>) {
    && Distinct(cond)
    && (forall n :: n in cond ==> n in ops && Added(ops[n].pc) && !ops[n].kind.WhoIs?)
    && (forall d :: Balanced(ops, cond, d))
  }

  /** The call has left `find_and_bind`, for good. */
  predicate Left(pc: PC) {
    !Unbound(pc)
  }

  predicate Added(pc: PC) {
    !InSet(pc) && !pc.Binding? && !pc.CondAddLock? && !pc.CondAdding?
  }

  /** The call's `find_and_bind` is about this device. */
  predicate Names(o: Op, d: Device) {
    !o.kind.WhoIs? && o.device == d
  }

  lemma CondLookupFirst(ops: map<OpId, Op>, cond: seq<OpId>, d: Device)
    requires forall n :: n in cond ==> n in ops
    ensures match CondLookup(ops, cond, d)
            case Some(n) => n in cond && ops[n].device == d && cond[CondIndex(ops, cond, d)] == n
            case None => LinkedFor(ops, cond, d) == {}
  {
    var ds := Devices(ops, cond);
    if CondLookup(ops, cond, d).None? {
      forall n | n in cond ensures ops[n].device != d {
        var i :| 0 <= i < |cond| && cond[i] == n;
        assert ds[i] == ops[n].device && ds[i] in ds;
      }
    }
  }

  /** The get after a set never yields NULL, and the remove finds a node. */
  lemma WaiterFound(ops: map<OpId, Op>, cond: seq<OpId>, t: OpId)
    requires CondOk(ops, cond) && t in ops && InWindow(ops[t].pc)
    ensures CondLookup(ops, cond, ops[t].device).Some?
  {
    var d := ops[t].device;
    assert t in WaitingFor(ops, d);
    CondLookupFirst(ops, cond, d);
    assert Balanced(ops, cond, d);
  }

  /** A step that neither adds nor removes a waiter. */
  lemma CondFrame(ops: map<OpId, Op>, cond: seq<OpId>, ops': map<OpId, Op>)
    requires CondOk(ops, cond) && ops.Keys <= ops'.Keys
    requires forall t :: t in ops' ==>
                           if t in ops then
                             ops'[t].device == ops[t].device && ops'[t].kind == ops[t].kind
                             && (InWindow(ops'[t].pc) <==> InWindow(ops[t].pc))
                             && (Added(ops[t].pc) ==> Added(ops'[t].pc))
                           else !InWindow(ops'[t].pc)
    ensures CondOk(ops', cond)
  {
    forall d ensures Balanced(ops', cond, d) {
      assert Balanced(ops, cond, d);
      assert LinkedFor(ops', cond, d) == LinkedFor(ops, cond, d);
      assert WaitingFor(ops', d) == WaitingFor(ops, d);
    }
  }

  lemma AddLinked(ops: map<OpId, Op>, cond: seq<OpId>, t: OpId, o': Op, d: Device)
    requires t in ops && t !in cond && o'.device == ops[t].device
    ensures LinkedFor(ops[t := o'], [t] + cond, d) == LinkedFor(ops, cond, d) + (if d == o'.device then {t} else {})
  {
  }

  lemma DropLinked(ops: map<OpId, Op>, cond: seq<OpId>, t: OpId, o': Op, i: nat, d: Device)
    requires t in ops && o'.device == ops[t].device && Distinct(cond) && i < |cond|
    requires cond[i] in ops && ops[cond[i]].device == o'.device
    ensures LinkedFor(ops[t := o'], RemoveAt(cond, i), d)
         == LinkedFor(ops, cond, d) - (if d == o'.device then {cond[i]} else {})
  {
    DistinctRemove(cond, i);
  }

  lemma MoveWindow(ops: map<OpId, Op>, t: OpId, o': Op, d: Device)
    requires t in ops && o'.device == ops[t].device
    ensures WaitingFor(ops[t := o'], d) ==
            if d != o'.device then WaitingFor(ops, d)
            else if InWindow(o'.pc) then WaitingFor(ops, d) + {t}
            else WaitingFor(ops, d) - {t}
  {
  }

  lemma AddingBalances(ops: map<OpId, Op>, cond: seq<OpId>, t: OpId, o': Op, d: Device)
    requires t in ops && t !in cond && !InWindow(ops[t].pc) && o'.device == ops[t].device && InWindow(o'.pc)
    requires Balanced(ops, cond, d)
    ensures Balanced(ops[t := o'], [t] + cond, d)
  {
    AddLinked(ops, cond, t, o', d);
    MoveWindow(ops, t, o', d);
  }

  lemma DroppingBalances(ops: map<OpId, Op>, cond: seq<OpId>, t: OpId, o': Op, i: nat, d: Device)
    requires t in ops && InWindow(ops[t].pc) && o'.device == ops[t].device && !InWindow(o'.pc)
    requires Distinct(cond) && i < |cond| && cond[i] in ops && ops[cond[i]].device == o'.device
    requires Balanced(ops, cond, d)
    ensures Balanced(ops[t := o'], RemoveAt(cond, i), d)
  {
    DropLinked(ops, cond, t, o', i, d);
    MoveWindow(ops, t, o', d);
    assert t in WaitingFor(ops, o'.device) && cond[i] in LinkedFor(ops, cond, o'.device);
  }

  lemma AddingKeepsCond(ops: map<OpId, Op>, cond: seq<OpId>, t: OpId, o': Op)
    requires CondOk(ops, cond) && t in ops && ops[t].pc.CondAdding?
    requires o'.device == ops[t].device && InWindow(o'.pc) && !o'.kind.WhoIs?
    ensures CondOk(ops[t := o'], [t] + cond)
  {
    var ops', cond' := ops[t := o'], [t] + cond;
    assert t !in cond;
    DistinctPrepend(t, cond);
    forall d ensures Balanced(ops', cond', d) {
      AddingBalances(ops, cond, t, o', d);
    }
  }

  lemma DroppingKeepsCond(ops: map<OpId, Op>, cond: seq<OpId>, t: OpId, o': Op)
    requires CondOk(ops, cond) && t in ops && ops[t].pc.CondDropping?
    requires o'.device == ops[t].device && o'.kind == ops[t].kind && !InWindow(o'.pc) && Added(o'.pc)
    ensures CondOk(ops[t := o'], CondNext(ops, cond, t, ops[t]))
  {
    var i := CondIndex(ops, cond, o'.device);
    WaiterFound(ops, cond, t);
    CondLookupFirst(ops, cond, o'.device);
    DistinctRemove(cond, i);
    var ops', cond' := ops[t := o'], RemoveAt(cond, i);
    forall d ensures Balanced(ops', cond', d) {
      DroppingBalances(ops, cond, t, o', i, d);
    }
  }

  ghost predicate WindowStep(o: Op, o': Op) {
    && (Added(o.pc) || o.pc.CondAdding? ==> Added(o'.pc))
    && (InWindow(o'.pc) <==> (InWindow(o.pc) || o.pc.CondAdding?) && !o.pc.CondDropping?)
  }

  lemma WindowInside(o: Op, e: Input)
    requires InWaiter(o.pc) && NoFault(o, e)
    ensures WindowStep(o, WaiterNext(o, e))
  {
  }

  lemma WindowEarly(o: Op, e: Input)
    requires InSet(o.pc) || InBind(o.pc)
    ensures WindowStep(o, OpNext(o, e)) && OpNext(o, e).woken == o.woken && !HasWaiter(OpNext(o, e).pc)
  {
    if InSet(o.pc) { assert !Added(o.pc); }
  }

  lemma SendLeft(o: Op, e: Input)
    requires InSend(o.pc)
    ensures Left(SendNext(o, e).pc)
  {
  }

  lemma WaitLeft(o: Op, e: Input)
    requires InWait(o.pc)
    ensures Left(WaitNext(o, e).pc)
  {
  }

  lemma LateStays(o: Op, e: Input)
    requires Left(o.pc) && !Over(o.pc)
    ensures Left(OpNext(o, e).pc)
  {
    if InSend(o.pc) { SendLeft(o, e); }
    else if InWait(o.pc) { WaitLeft(o, e); }
  }

  lemma WindowNext(o: Op, e: Input)
    requires !Over(o.pc) && NoFault(o, e)
    ensures WindowStep(o, OpNext(o, e))
  {
    if InWaiter(o.pc) { WindowInside(o, e); }
    else if Unbound(o.pc) { WindowEarly(o, e); }
    else { LateStays(o, e); }
  }

  lemma CallKeepsCond(c: Config, ops: map<OpId, Op>, cond: seq<OpId>, t: OpId, e: Input)
    requires CondOk(ops, cond) && t in ops && ControlOk(c, ops[t]) && !Over(ops[t].pc) && NoFault(ops[t], e)
    ensures CondOk(ops[t := OpNext(ops[t], e)], CondNext(ops, cond, t, ops[t]))
  {
    var o' := OpNext(ops[t], e);
    StepNext(c, ops[t], e);
    WindowNext(ops[t], e);
    if ops[t].pc.CondAdding? {
      AddingKeepsCond(ops, cond, t, o');
    } else if ops[t].pc.CondDropping? {
      DroppingKeepsCond(ops, cond, t, o');
    } else {
      CondFrame(ops, cond, ops[t := o']);
    }
  }

  // ---- Who waits on what, and what a signal means ----

  /** Where the local `map` is set. */
  predicate HasWaiter(pc: PC) {
    pc.CondLock? || pc.CondSending? || pc.CondEntering? || pc.CondWaiting? || pc.CondWoken?
  }

  predicate Waited(pc: PC) {
    pc.CondWaiting? || pc.CondWoken? || pc.CondDropLock? || pc.CondDropping? || pc.BindChecking? || pc.Rebinding?
  }

  /** What a call knows that a signal woke in `find_and_bind`: its device is bound, if the call that
      added the waiter was in `find_and_bind` when the handler tested; otherwise that call has left. */
  predicate WokenOk(ops: map<OpId, Op>, bind: map<Device, Address>, o: Op) {
    Unbound(o.pc) && o.woken ==>
      && Waited(o.pc) && o.waiter in ops && Names(ops[o.waiter], o.device)
      && if o.live then o.device in bind else Left(ops[o.waiter].pc)
  }

  /** A call waits on a waiter of its own device. */
  predicate WaiterOk(ops: map<OpId, Op>, bind: map<Device, Address>, o: Op) {
    (HasWaiter(o.pc) ==> o.waiter in ops && Names(ops[o.waiter], o.device)) && WokenOk(ops, bind, o)
  }

  ghost predicate WaitersOk(ops: map<OpId, Op>, bind: map<Device, Address>) {
    forall t :: t in ops ==> WaiterOk(ops, bind, ops[t])
  }

  predicate PastTest(rx: Rx) {
    rx.CLockingNode? || rx.CSignalling? || rx.CReleasing?
  }

  /** The I-Am handler works on a waiter of its device. Past its test it has bound the device to the
      sender, or the call that added the waiter has left. */
  predicate RxWaiterOk(ops: map<OpId, Op>, bind: map<Device, Address>, rx: Rx) {
    && (rx.CTesting? || rx.CBinding? || PastTest(rx) ==> rx.node in ops && Names(ops[rx.node], rx.iam.device))
    && (rx.CTesting? ==> Added(ops[rx.node].pc))
    && (rx.CBinding? || PastTest(rx) ==> rx.live || Left(ops[rx.node].pc))
    && (PastTest(rx) && rx.live ==> rx.iam.device in bind && bind[rx.iam.device] == rx.iam.src)
  }

  /** An address a device is bound to was bound at start-up or came in an I-Am. */
  ghost predicate BoundTo(c: Config, log: seq<Event>, d: Device, a: Address) {
    (d in c.bind && c.bind[d] == a) || BindingAdded(d, a) in log
  }

  ghost predicate BindOk(c: Config, log: seq<Event>, bind: map<Device, Address>) {
    forall d :: d in bind ==> BoundTo(c, log, d, bind[d])
  }

  ghost predicate TargetsOk(c: Config, ops: map<OpId, Op>, log: seq<Event>) {
    forall t :: t in ops && ops[t].bound ==>
                  ops[t].device <= BACNET_MAX_INSTANCE && BoundTo(c, log, ops[t].device, ops[t].node.target)
  }

  /** A call stays what it is, keeps its waiter added, and does not come back to `find_and_bind`. */
  ghost predicate Advances(o: Op, o': Op) {
    && o'.kind == o.kind && o'.device == o.device
    && (Added(o.pc) ==> Added(o'.pc)) && (Left(o.pc) ==> Left(o'.pc))
  }

  lemma CallAdvances(c: Config, o: Op, e: Input)
    requires ControlOk(c, o) && !Over(o.pc) && NoFault(o, e)
    ensures Advances(o, OpNext(o, e))
  {
    StepNext(c, o, e);
    WindowNext(o, e);
    if Left(o.pc) { LateStays(o, e); }
  }

  lemma WaiterFrame(ops: map<OpId, Op>, bind: map<Device, Address>, t: OpId, o': Op, o: Op)
    requires t in ops && Advances(ops[t], o') && WaiterOk(ops, bind, o)
    ensures WaiterOk(ops[t := o'], bind, o)
  {
  }

  lemma RxWaiterFrame(ops: map<OpId, Op>, bind: map<Device, Address>, rx: Rx, t: OpId, o': Op)
    requires RxWaiterOk(ops, bind, rx) && t in ops && Advances(ops[t], o')
    ensures RxWaiterOk(ops[t := o'], bind, rx)
  {
  }

  lemma CallKeepsWaiters(s: State, t: OpId, e: Input)
    requires WaitersOk(s.ops, s.bind) && t in s.ops && !Over(s.ops[t].pc)
    requires Advances(s.ops[t], OpNext(s.ops[t], e))
    requires e.first.Some? ==> e.first.value in s.ops && Names(s.ops[e.first.value], s.ops[t].device)
    ensures WaitersOk(s.ops[t := OpNext(s.ops[t], e)], s.bind)
  {
    var o' := OpNext(s.ops[t], e);
    assert WaiterOk(s.ops, s.bind, s.ops[t]);
    WaiterStep(s.ops, s.bind, s.ops[t], e);
    var ops' := s.ops[t := o'];
    forall u | u in ops' ensures WaiterOk(ops', s.bind, ops'[u]) {
      WaiterFrame(s.ops, s.bind, t, o', ops'[u]);
    }
  }

  lemma WaiterStep(ops: map<OpId, Op>, bind: map<Device, Address>, o: Op, e: Input)
    requires WaiterOk(ops, bind, o) && !Over(o.pc) && OpNext(o, e).device == o.device
    requires e.first.Some? ==> e.first.value in ops && Names(ops[e.first.value], o.device)
    ensures WaiterOk(ops, bind, OpNext(o, e))
  {
    if InWaiter(o.pc) { WaiterStepInside(ops, bind, o, e); }
    else if Unbound(o.pc) { WaiterStepEarly(ops, bind, o, e); }
    else { LateStays(o, e); }
  }

  lemma WaiterStepEarly(ops: map<OpId, Op>, bind: map<Device, Address>, o: Op, e: Input)
    requires WaiterOk(ops, bind, o) && (InSet(o.pc) || InBind(o.pc)) && OpNext(o, e).device == o.device
    ensures WaiterOk(ops, bind, OpNext(o, e))
  {
    if InSet(o.pc) { assert !HasWaiter(SetNext(o).pc) && SetNext(o).woken == o.woken; }
    else {
      var o' := BindNext(o, e);
      assert !HasWaiter(o'.pc) && o'.woken == o.woken && o'.live == o.live && o'.waiter == o.waiter;
    }
  }

  lemma WaiterStepInside(ops: map<OpId, Op>, bind: map<Device, Address>, o: Op, e: Input)
    requires WaiterOk(ops, bind, o) && InWaiter(o.pc)
    requires e.first.Some? ==> e.first.value in ops && Names(ops[e.first.value], o.device)
    ensures WaiterOk(ops, bind, WaiterNext(o, e))
  {
  }

  lemma TargetStep(c: Config, log: seq<Event>, o: Op, e: Input)
    requires ControlOk(c, o) && !Over(o.pc)
    requires o.bound ==> o.device <= BACNET_MAX_INSTANCE && BoundTo(c, log, o.device, o.node.target)
    requires e.binding.Some? ==> BoundTo(c, log, o.device, e.binding.value)
    ensures var o' := OpNext(o, e);
            o'.bound ==> o'.device <= BACNET_MAX_INSTANCE && BoundTo(c, log, o'.device, o'.node.target)
  {
    StepNext(c, o, e);
    if InBind(o.pc) { BindTarget(c, o, e); }
    else if !o.bound { StillUnbound(c, o, e); }
  }

  lemma BindTarget(c: Config, o: Op, e: Input)
    requires InBind(o.pc) && ControlOk(c, o)
    ensures BindNext(o, e).bound ==> o.device <= BACNET_MAX_INSTANCE && e.binding == Some(BindNext(o, e).node.target)
  {
  }

  lemma StillUnbound(c: Config, o: Op, e: Input)
    requires ControlOk(c, o) && !Over(o.pc) && !InBind(o.pc) && !o.bound
    ensures !OpNext(o, e).bound
  {
  }

  // ---- The receive thread ----

  lemma HandleKeepsRxWaiter(s: State, w: Option<OpId>, skip: bool)
    requires CondOk(s.ops, s.cond) && RxWaiterOk(s.ops, s.bind, s.rx)
    ensures RxWaiterOk(s.ops, RxBind(s.rx, s.bind), RxNext(s, skip))
  {
    if s.rx.CGetting? {
      CondLookupFirst(s.ops, s.cond, s.rx.iam.device);
    }
  }

  /** What whoever a signal on an I-Am node wakes knows. */
  lemma WokenKnows(s: State, w: Option<OpId>, u: OpId)
    requires WaitersOk(s.ops, s.bind) && RxWaiterOk(s.ops, s.bind, s.rx) && RxEnabled(s, w)
    requires u in s.ops && Wakes(s.rx, s.ops, w) == Some(u)
    ensures WokenOk(s.ops, s.bind, Waken(s.rx, s.ops[u]))
  {
    assert WaiterOk(s.ops, s.bind, s.ops[u]);
  }

  /** Only what a waiter's call is and where it is matters to the calls that wait on it. */
  lemma WaiterMoves(ops: map<OpId, Op>, bind: map<Device, Address>, ops': map<OpId, Op>, bind': map<Device, Address>,
                    o: Op)
    requires WaiterOk(ops, bind, o) && ops'.Keys == ops.Keys && bind.Keys <= bind'.Keys
    requires forall t :: t in ops ==> SameWaiter(ops[t], ops'[t])
    ensures WaiterOk(ops', bind', o)
  {
  }

  predicate SameWaiter(o: Op, o': Op) {
    o'.kind == o.kind && o'.device == o.device && o'.pc == o.pc && o'.waiter == o.waiter
  }

  lemma HandleKeepsWaiters(s: State, w: Option<OpId>)
    requires WaitersOk(s.ops, s.bind) && RxWaiterOk(s.ops, s.bind, s.rx) && RxEnabled(s, w)
    ensures WaitersOk(RxOps(s.rx, s.ops, w), RxBind(s.rx, s.bind))
  {
    var ops', bind' := RxOps(s.rx, s.ops, w), RxBind(s.rx, s.bind);
    RxSameWaiter(s.rx, s.ops, w);
    forall t | t in ops' ensures WaiterOk(ops', bind', ops'[t]) {
      assert WaiterOk(s.ops, s.bind, s.ops[t]);
      if Wakes(s.rx, s.ops, w) == Some(t) {
        WokenKnows(s, w, t);
      }
      RxLeavesWaiter(s, w, t);
      WaiterMoves(s.ops, s.bind, ops', bind', ops'[t]);
    }
  }

  lemma RxWaiterMoves(ops: map<OpId, Op>, bind: map<Device, Address>, rx: Rx, ops': map<OpId, Op>)
    requires RxWaiterOk(ops, bind, rx) && ops'.Keys == ops.Keys
    requires forall t :: t in ops ==> SameWaiter(ops[t], ops'[t])
    ensures RxWaiterOk(ops', bind, rx)
  {
  }

  lemma RxSameWaiter(rx: Rx, ops: map<OpId, Op>, w: Option<OpId>)
    ensures RxOps(rx, ops, w).Keys == ops.Keys
    ensures forall t :: t in ops ==> SameWaiter(ops[t], RxOps(rx, ops, w)[t])
  {
  }

  lemma RxLeavesWaiter(s: State, w: Option<OpId>, t: OpId)
    requires t in s.ops && WaiterOk(s.ops, s.bind, s.ops[t])
    requires Wakes(s.rx, s.ops, w) == Some(t) ==> WokenOk(s.ops, s.bind, Waken(s.rx, s.ops[t]))
    ensures WaiterOk(s.ops, s.bind, RxOps(s.rx, s.ops, w)[t])
  {
  }

  lemma HandleKeepsBind(c: Config, s: State)
    requires BindOk(c, s.log, s.bind)
    ensures BindOk(c, RxLog(s.rx, s.ops, s.log), RxBind(s.rx, s.bind))
  {
    var log', bind' := RxLog(s.rx, s.ops, s.log), RxBind(s.rx, s.bind);
    forall d | d in bind' ensures BoundTo(c, log', d, bind'[d]) {
      if s.rx.CBinding? && d == s.rx.iam.device {
        assert log'[|s.log|] == BindingAdded(d, bind'[d]);
      } else {
        assert BoundTo(c, s.log, d, s.bind[d]);
        BoundToGrows(c, s.log, log', d, s.bind[d]);
      }
    }
  }

  lemma BoundToGrows(c: Config, log: seq<Event>, log': seq<Event>, d: Device, a: Address)
    requires BoundTo(c, log, d, a) && log <= log'
    ensures BoundTo(c, log', d, a)
  {
  }

  lemma TargetsGrow(c: Config, ops: map<OpId, Op>, log: seq<Event>, ops': map<OpId, Op>, log': seq<Event>)
    requires TargetsOk(c, ops, log) && log <= log' && ops'.Keys == ops.Keys
    requires forall t :: t in ops ==> ops'[t].device == ops[t].device && ops'[t].bound == ops[t].bound
                                      && ops'[t].node.target == ops[t].node.target
    ensures TargetsOk(c, ops', log')
  {
    forall t | t in ops' && ops'[t].bound ensures BoundTo(c, log', ops'[t].device, ops'[t].node.target) {
      BoundToGrows(c, log, log', ops[t].device, ops[t].node.target);
    }
  }
}

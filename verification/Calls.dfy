/** What holds of each call by itself, step by step. */
module Calls {
  import opened Bacnet
  import opened Protocol

  predicate Linked(pc: PC) {
    !pc.Starting? && !pc.Linking? && !pc.Done? && !pc.Faulted?
  }

  /** Before a read or write has been sent. */
  predicate Unsent(pc: PC) {
    InSet(pc) || InBind(pc) || InWaiter(pc) || pc.NodeLock? || pc.ListLock? || pc.Sending?
  }

  predicate Unbound(pc: PC) {
    InSet(pc) || InBind(pc) || InWaiter(pc)
  }

  /** Where the calls of each kind can be, and the invoke id their node carries there. */
  predicate ControlOk(c: Config, o: Op) {
    match o.kind
    case WhoIs =>
      && (InSet(o.pc) || o.pc.NodeLock? || o.pc.Broadcasting? || o.pc.Entering? || o.pc.Waiting?
          || o.pc.Woken? || InUnlink(o.pc) || o.pc.Done?)
      && o.node.id == c.placeholder && !o.bound && o.sent == 0
    case _ =>
      && !o.pc.Broadcasting? && !o.pc.Faulted?
      && (o.kind.Read? ==> !o.pc.Clearing? && !o.pc.Leaked?)
      && (o.kind.Write? ==> !o.pc.Fetching?)
      && (Unbound(o.pc) ==> !o.bound && !o.node.err)
      && (!o.bound ==> Unbound(o.pc) || InUnlink(o.pc) || o.pc.Done?)
      && (Unsent(o.pc) || !o.bound ==> o.sent == 0)
      && o.node.id == (if o.pc.Storing? then 0 else o.sent)
      && o.sent <= 255
      && (InWaiter(o.pc) || o.pc.BindChecking? || o.pc.Rebinding? || o.bound ==> o.device <= BACNET_MAX_INSTANCE)
  }

  /** The value points at this block, which may have been decoded into since. */
  predicate PointsAt(value: Option<Block>, block: Block) {
    value.Some? && (block.Decoded? ==> value.value == block)
  }

  /** What a call returns, and what it knows of its node by then. */
  predicate ResultOk(o: Op) {
    InUnlink(o.pc) || o.pc.Done? || o.pc.Leaked? ==>
      if o.kind.WhoIs? then o.result.Finished?
      else if !o.bound then o.result == FailResult(o.kind)
      else if o.kind.Write? then o.result == Status(if o.pc.Leaked? then 1 else 0)
      else o.result.Got? && (o.result.value.Some? ==> PointsAt(o.node.value, o.result.value.value))
  }

  ghost predicate CallsOk(c: Config, ops: map<OpId, Op>) {
    forall t :: t in ops ==> ControlOk(c, ops[t]) && ResultOk(ops[t])
  }

  /** The steps on which a call would leave the modelled code. */
  predicate NoFault(o: Op, e: Input) {
    (o.pc.CondGetting? ==> e.first.Some?) && (o.pc.Unlinking? ==> e.linked)
  }

  predicate IdAllowed(o: Op, e: Input) {
    o.pc.Sending? ==> e.id <= 255
  }

  // ControlOk is kept by each part of a call.

  ghost predicate KeepsControl(c: Config, o: Op, e: Input, o': Op) {
    ControlOk(c, o) && NoFault(o, e) && IdAllowed(o, e) ==> ControlOk(c, o')
  }

  lemma ControlSet(c: Config, o: Op, e: Input)
    requires InSet(o.pc)
    ensures KeepsControl(c, o, e, SetNext(o))
  {
  }

  lemma ControlBind(c: Config, o: Op, e: Input)
    requires InBind(o.pc)
    ensures KeepsControl(c, o, e, BindNext(o, e))
  {
  }

  lemma ControlWaiter(c: Config, o: Op, e: Input)
    requires InWaiter(o.pc)
    ensures KeepsControl(c, o, e, WaiterNext(o, e))
  {
  }

  lemma ControlSend(c: Config, o: Op, e: Input)
    requires InSend(o.pc)
    ensures KeepsControl(c, o, e, SendNext(o, e))
  {
  }

  lemma ControlWait(c: Config, o: Op, e: Input)
    requires InWait(o.pc)
    ensures KeepsControl(c, o, e, WaitNext(o, e))
  {
  }

  lemma ControlUnlink(c: Config, o: Op, e: Input)
    requires InUnlink(o.pc)
    ensures KeepsControl(c, o, e, UnlinkNext(o, e))
  {
  }

  lemma ControlNext(c: Config, o: Op, e: Input)
    requires ControlOk(c, o) && NoFault(o, e) && IdAllowed(o, e) && !Over(o.pc)
    ensures ControlOk(c, OpNext(o, e))
  {
    if InSet(o.pc) { ControlSet(c, o, e); }
    else if InBind(o.pc) { ControlBind(c, o, e); }
    else if InWaiter(o.pc) { ControlWaiter(c, o, e); }
    else if InSend(o.pc) { ControlSend(c, o, e); }
    else if InWait(o.pc) { ControlWait(c, o, e); }
    else { ControlUnlink(c, o, e); }
  }

  lemma ResultBind(o: Op, e: Input)
    requires InBind(o.pc) && !o.bound && !o.kind.WhoIs?
    ensures ResultOk(BindNext(o, e))
  {
  }

  lemma ResultWait(c: Config, o: Op, e: Input)
    requires InWait(o.pc) && ControlOk(c, o)
    ensures ResultOk(WaitNext(o, e))
  {
  }

  lemma ResultNext(c: Config, o: Op, e: Input)
    requires ControlOk(c, o) && ResultOk(o) && !Over(o.pc)
    ensures ResultOk(OpNext(o, e))
  {
    if InSet(o.pc) { assert !InUnlink(SetNext(o).pc); }
    else if InBind(o.pc) { ResultBind(o, e); }
    else if InWaiter(o.pc) { assert !InUnlink(WaiterNext(o, e).pc); }
    else if InSend(o.pc) { assert !InUnlink(SendNext(o, e).pc); }
    else if InWait(o.pc) { ResultWait(c, o, e); }
    else { assert InUnlink(o.pc); }
  }

  /** While it binds, a read or write has no error and no id. */
  lemma CleanWhileBinding(c: Config, o: Op)
    requires ControlOk(c, o) && (InBind(o.pc) || InWaiter(o.pc))
    ensures !o.node.err && o.node.id == 0 && !o.bound
  {
  }

  // How a step changes what the rest of the model looks at.

  ghost predicate LinkedStep(o: Op, o': Op) {
    !o'.pc.Faulted? ==> (Linked(o'.pc) <==> (Linked(o.pc) || o.pc.Linking?) && !o.pc.Unlinking?)
  }

  ghost predicate LiveStep(o: Op, o': Op) {
    Live(o') ==> o.pc.Sending? || (Live(o) && o'.sent == o.sent)
  }

  /** Nothing of a call's identity changes, and once a response can reach a node its id and target
      are fixed, its value is the receiver's to set, and a recorded error stays. */
  ghost predicate NodeStep(o: Op, o': Op) {
    && o'.kind == o.kind && o'.device == o.device && o'.node.value == o.node.value
    && (o.node.id != 0 ==> o'.node.id == o.node.id && o'.node.target == o.node.target)
    && (o.node.id != 0 && !o.kind.WhoIs? && o.node.err ==> o'.node.err)
    && (o.bound ==> o'.bound && o'.node.target == o.node.target && o'.node.err == o.node.err)
    && (o.sent != 0 ==> o'.sent == o.sent)
  }

  ghost predicate GoodStep(o: Op, o': Op) {
    LinkedStep(o, o') && LiveStep(o, o') && NodeStep(o, o')
  }

  lemma StepSet(o: Op)
    requires InSet(o.pc) && (o.node.id != 0 ==> o.kind.WhoIs?) && !o.bound
    ensures GoodStep(o, SetNext(o))
  {
  }

  lemma StepBind(o: Op, e: Input)
    requires InBind(o.pc) && o.node.id == 0 && !o.bound
    ensures GoodStep(o, BindNext(o, e))
  {
  }

  lemma StepWaiter(o: Op, e: Input)
    requires InWaiter(o.pc)
    ensures GoodStep(o, WaiterNext(o, e))
  {
  }

  lemma StepSend(o: Op, e: Input)
    requires InSend(o.pc) && (o.node.id != 0 && o.pc.Storing? ==> o.node.id == o.sent)
    requires (o.pc.Sending? ==> o.sent == 0) && (o.pc.Broadcasting? ==> o.kind.WhoIs?)
    ensures GoodStep(o, SendNext(o, e))
  {
  }

  lemma StepWait(o: Op, e: Input)
    requires InWait(o.pc) && (o.kind.WhoIs? || o.bound)
    ensures GoodStep(o, WaitNext(o, e))
  {
  }

  lemma StepUnlink(o: Op, e: Input)
    requires InUnlink(o.pc)
    ensures GoodStep(o, UnlinkNext(o, e))
  {
  }

  lemma StepNext(c: Config, o: Op, e: Input)
    requires ControlOk(c, o) && !Over(o.pc)
    ensures GoodStep(o, OpNext(o, e))
  {
    if InSet(o.pc) { StepSet(o); }
    else if InBind(o.pc) { StepBind(o, e); }
    else if InWaiter(o.pc) { StepWaiter(o, e); }
    else if InSend(o.pc) { StepSend(o, e); }
    else if InWait(o.pc) { StepWait(o, e); }
    else { StepUnlink(o, e); }
  }
}

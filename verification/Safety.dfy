/** The inductive invariant of the protocol, and that it holds in every state of every run. */
module Safety {
  import opened Bacnet
  import opened Protocol
  import opened Locking
  import opened Calls
  import opened Pending
  import opened Receiving
  import opened Waiters
  import opened Discovering

  ghost predicate TablesOk(c: Config, s: State) {
    CallsOk(c, s.ops) && PendOk(s.ops, s.pend) && WireOk(s.ops, s.outstanding) && IdsOk(s.ops, s.outstanding)
  }

  ghost predicate ResponsesOk(s: State) {
    && RxOk(s.ops, s.outstanding, s.rx) && RxEffect(s.ops, s.rx)
    && LogOk(s.ops, s.log) && OutcomesOk(s.ops, s.log) && BlocksOk(s.ops, s.log, s.rx)
  }

  ghost predicate BindingOk(c: Config, s: State) {
    && CondOk(s.ops, s.cond) && WaitersOk(s.ops, s.bind) && RxWaiterOk(s.ops, s.bind, s.rx)
    && BindOk(c, s.log, s.bind) && TargetsOk(c, s.ops, s.log)
  }

  ghost predicate Inv(c: Config, s: State) {
    LockInv(s) && TablesOk(c, s) && ResponsesOk(s) && BindingOk(c, s) && FoundOk(s.found)
  }

  lemma InitInv(c: Config, s: State)
    requires Init(c, s)
    ensures Inv(c, s)
  {
    forall d ensures Balanced(s.ops, s.cond, d) {
      assert LinkedFor(s.ops, s.cond, d) == {} && WaitingFor(s.ops, d) == {};
    }
  }

  // ---- Steps of a call ----

  /** What the rest of the state guarantees about the step call `t` is about to take. */
  lemma RequestReady(c: Config, s: State, t: OpId, id: nat, late: bool)
    requires TablesOk(c, s) && BindingOk(c, s) && RequesterEnabled(s, t, id)
    ensures var o, e := s.ops[t], InputOf(s, t, id, late);
            && ControlOk(c, o) && ResultOk(o) && NoFault(o, e) && IdAllowed(o, e) && e.now == |s.log|
            && (e.first.Some? ==> e.first.value in s.ops && Names(s.ops[e.first.value], o.device))
            && (e.binding.Some? ==> BoundTo(c, s.log, o.device, e.binding.value))
  {
    var o := s.ops[t];
    CondLookupFirst(s.ops, s.cond, o.device);
    if o.pc.CondGetting? {
      WaiterFound(s.ops, s.cond, t);
    }
  }

  lemma RequestKeepsCalls(c: Config, s: State, t: OpId, id: nat, late: bool)
    requires TablesOk(c, s) && BindingOk(c, s) && RequesterEnabled(s, t, id)
    ensures CallsOk(c, RequesterStep(s, t, id, late).ops)
  {
    var o, e := s.ops[t], InputOf(s, t, id, late);
    RequestReady(c, s, t, id, late);
    ControlNext(c, o, e);
    ResultNext(c, o, e);
  }

  lemma SendingSets(o: Op, e: Input)
    requires o.pc.Sending?
    ensures OpNext(o, e).sent == e.id
  {
  }

  lemma NotFaulted(c: Config, o: Op, e: Input)
    requires ControlOk(c, o) && NoFault(o, e) && IdAllowed(o, e) && !Over(o.pc)
    ensures !OpNext(o, e).pc.Faulted?
  {
    ControlNext(c, o, e);
  }

  lemma RequestKeepsTables(c: Config, s: State, t: OpId, id: nat, late: bool)
    requires TablesOk(c, s) && BindingOk(c, s) && RequesterEnabled(s, t, id)
    ensures TablesOk(c, RequesterStep(s, t, id, late))
  {
    var o, e := s.ops[t], InputOf(s, t, id, late);
    RequestKeepsCalls(c, s, t, id, late);
    RequestReady(c, s, t, id, late);
    StepNext(c, o, e);
    NotFaulted(c, o, e);
    CallKeepsPend(s.ops, s.pend, t, OpNext(o, e));
    if o.pc.Sending? { SendingSets(o, e); }
    CallKeepsIds(s, t, OpNext(o, e), id);
  }

  lemma RequestKeepsRx(c: Config, s: State, t: OpId, id: nat, late: bool)
    requires TablesOk(c, s) && RxOk(s.ops, s.outstanding, s.rx) && RxEffect(s.ops, s.rx)
    requires BlocksOk(s.ops, s.log, s.rx) && RequesterEnabled(s, t, id)
    ensures var s' := RequesterStep(s, t, id, late);
            RxOk(s'.ops, s'.outstanding, s.rx) && RxEffect(s'.ops, s.rx) && BlocksOk(s'.ops, s.log, s.rx)
  {
    var o, o' := s.ops[t], OpNext(s.ops[t], InputOf(s, t, id, late));
    StepNext(c, o, InputOf(s, t, id, late));
    RxOkFrame(s.ops, s.outstanding, s.rx, t, o', OutstandingNext(s.outstanding, t, o, id));
    EffectFrame(s.ops, s.outstanding, s.rx, t, o');
    CallKeepsBlocks(s.ops, s.log, s.rx, t, o');
  }

  lemma RequestKeepsResponses(c: Config, s: State, t: OpId, id: nat, late: bool)
    requires TablesOk(c, s) && BindingOk(c, s) && ResponsesOk(s) && RequesterEnabled(s, t, id)
    ensures ResponsesOk(RequesterStep(s, t, id, late))
  {
    var e := InputOf(s, t, id, late);
    RequestKeepsRx(c, s, t, id, late);
    RequestReady(c, s, t, id, late);
    CallKeepsLog(c, s.ops, s.log, t, e);
    CallKeepsOutcomes(c, s.ops, s.log, t, e);
  }

  lemma RequestKeepsTargets(c: Config, s: State, t: OpId, e: Input)
    requires TargetsOk(c, s.ops, s.log) && t in s.ops && ControlOk(c, s.ops[t]) && !Over(s.ops[t].pc)
    requires e.binding.Some? ==> BoundTo(c, s.log, s.ops[t].device, e.binding.value)
    ensures TargetsOk(c, s.ops[t := OpNext(s.ops[t], e)], s.log)
  {
    TargetStep(c, s.log, s.ops[t], e);
  }

  lemma RequestKeepsBinding(c: Config, s: State, t: OpId, id: nat, late: bool)
    requires TablesOk(c, s) && BindingOk(c, s) && RequesterEnabled(s, t, id)
    ensures BindingOk(c, RequesterStep(s, t, id, late))
  {
    var o, e := s.ops[t], InputOf(s, t, id, late);
    RequestReady(c, s, t, id, late);
    StepNext(c, o, e);
    CallAdvances(c, o, e);
    CallKeepsCond(c, s.ops, s.cond, t, e);
    CallKeepsWaiters(s, t, e);
    RequestKeepsTargets(c, s, t, e);
    RxWaiterFrame(s.ops, s.bind, s.rx, t, OpNext(o, e));
  }

  lemma RequestKeepsInv(c: Config, s: State, t: OpId, id: nat, late: bool)
    requires Inv(c, s) && RequesterEnabled(s, t, id)
    ensures Inv(c, RequesterStep(s, t, id, late))
  {
    RequestKeepsLocks(s, t, id, late);
    RequestKeepsTables(c, s, t, id, late);
    RequestKeepsResponses(c, s, t, id, late);
    RequestKeepsBinding(c, s, t, id, late);
  }

  // ---- Steps of the receive thread ----

  lemma HandleKeepsCalls(c: Config, s: State, w: Option<OpId>)
    requires TablesOk(c, s) && ResponsesOk(s)
    ensures CallsOk(c, RxOps(s.rx, s.ops, w))
  {
    var ops' := RxOps(s.rx, s.ops, w);
    forall t | t in ops' ensures ControlOk(c, ops'[t]) && ResultOk(ops'[t]) {
      RxNodes(s.rx, s.ops, w, t);
      if (Records(s.rx, s.ops) || Decodes(s.rx, s.ops)) && s.rx.node == t {
        WritingOk(c, s, t, ops'[t]);
      } else {
        assert ControlOk(c, s.ops[t]) && ResultOk(s.ops[t]);
      }
    }
  }

  lemma HandleKeepsTables(c: Config, s: State, w: Option<OpId>, skip: bool)
    requires TablesOk(c, s) && ResponsesOk(s)
    ensures TablesOk(c, RxStep(s, w, skip))
  {
    HandleKeepsCalls(c, s, w);
    RxOpsSameCall(s.rx, s.ops, w);
    PendFrame(s.ops, s.pend, RxOps(s.rx, s.ops, w));
    IdsFrame(s.ops, RxOps(s.rx, s.ops, w), s.outstanding);
  }

  /** A response reaches only a node whose request was sent, stores only a first block, and decodes
      only into one that is not decoded. */
  lemma WritingOk(c: Config, s: State, t: OpId, o': Op)
    requires TablesOk(c, s) && ResponsesOk(s) && t in s.ops
    requires (Records(s.rx, s.ops) || Decodes(s.rx, s.ops)) && s.rx.node == t
    requires o' == s.ops[t].(node := Written(s.rx, s.ops[t].node), woken := o'.woken, live := o'.live)
    ensures ControlOk(c, o') && ResultOk(o')
  {
    assert ControlOk(c, s.ops[t]) && ResultOk(s.ops[t]);
  }

  lemma HandleKeepsResponses(c: Config, s: State, w: Option<OpId>, skip: bool)
    requires TablesOk(c, s) && ResponsesOk(s)
    ensures ResponsesOk(RxStep(s, w, skip))
  {
    HandleKeepsRx(c, s, w, skip);
    HandleHasEffect(s, w, skip);
    HandleKeepsLog(s, w);
    HandleKeepsOutcomes(s, w);
    HandleKeepsBlocks(s, w, skip);
  }

  lemma HandleKeepsBinding(c: Config, s: State, w: Option<OpId>, skip: bool)
    requires TablesOk(c, s) && BindingOk(c, s) && RxEnabled(s, w)
    ensures BindingOk(c, RxStep(s, w, skip))
  {
    var ops' := RxOps(s.rx, s.ops, w);
    RxSameWaiter(s.rx, s.ops, w);
    CondFrame(s.ops, s.cond, ops');
    HandleKeepsWaiters(s, w);
    HandleKeepsRxWaiter(s, w, skip);
    RxWaiterMoves(s.ops, RxBind(s.rx, s.bind), RxNext(s, skip), ops');
    HandleKeepsBind(c, s);
    HandleKeepsTargets(c, s, w);
  }

  lemma HandleKeepsTargets(c: Config, s: State, w: Option<OpId>)
    requires TargetsOk(c, s.ops, s.log)
    ensures TargetsOk(c, RxOps(s.rx, s.ops, w), RxLog(s.rx, s.ops, s.log))
  {
    var ops' := RxOps(s.rx, s.ops, w);
    RxOpsSameCall(s.rx, s.ops, w);
    forall t | t in s.ops ensures ops'[t].node.target == s.ops[t].node.target {
      RxNodes(s.rx, s.ops, w, t);
    }
    TargetsGrow(c, s.ops, s.log, ops', RxLog(s.rx, s.ops, s.log));
  }

  lemma HandleKeepsInv(c: Config, s: State, w: Option<OpId>, skip: bool)
    requires Inv(c, s) && RxEnabled(s, w)
    ensures Inv(c, RxStep(s, w, skip))
  {
    HandleKeepsLocks(s, w, skip);
    HandleKeepsTables(c, s, w, skip);
    HandleKeepsResponses(c, s, w, skip);
    HandleKeepsBinding(c, s, w, skip);
    if s.rx.TableAdding? {
      InsertKeepsFound(s.found, s.rx.iam);
    }
  }

  // ---- The other actions ----

  lemma NewCallTables(c: Config, s: State, t: OpId, o: Op)
    requires TablesOk(c, s) && t !in s.ops && o.pc.Starting? && ControlOk(c, o)
    ensures TablesOk(c, s.(ops := s.ops[t := o]))
  {
    PendFrame(s.ops, s.pend, s.ops[t := o]);
    IdsFrame(s.ops, s.ops[t := o], s.outstanding);
  }

  lemma NewCallResponses(c: Config, s: State, t: OpId, o: Op)
    requires ResponsesOk(s) && WaitersOk(s.ops, s.bind) && t !in s.ops && o.pc.Starting? && ControlOk(c, o)
    requires !o.woken && !o.node.value.Some?
    ensures ResponsesOk(s.(ops := s.ops[t := o])) && WaitersOk(s.ops[t := o], s.bind)
  {
    var ops' := s.ops[t := o];
    forall u | u in ops' ensures WaiterOk(ops', s.bind, ops'[u]) {
      assert u != t ==> WaiterOk(s.ops, s.bind, s.ops[u]);
    }
  }

  lemma CallKeepsInv(c: Config, s: State, t: OpId, k: Kind, d: Device)
    requires Inv(c, s) && t !in s.ops
    ensures Inv(c, s.(ops := s.ops[t := NewOp(c, k, d)]))
  {
    var o := NewOp(c, k, d);
    CallStepKeepsLocks(s, t, o);
    NewCallTables(c, s, t, o);
    CondFrame(s.ops, s.cond, s.ops[t := o]);
    NewCallResponses(c, s, t, o);
  }

  lemma ExpireKeepsIds(ops: map<OpId, Op>, outstanding: map<nat, OpId>, id: nat)
    requires WireOk(ops, outstanding) && IdsOk(ops, outstanding)
    ensures WireOk(ops, outstanding - {id}) && IdsOk(ops, outstanding - {id})
  {
  }

  lemma ExpireKeepsRx(ops: map<OpId, Op>, outstanding: map<nat, OpId>, rx: Rx, id: nat)
    requires RxOk(ops, outstanding, rx) && (RxMsg(rx).Some? ==> RxMsg(rx).value.id != id)
    ensures RxOk(ops, outstanding - {id}, rx)
  {
    assert RxMsg(rx).Some? ==> MsgOk(outstanding, RxMsg(rx).value);
  }

  lemma ExpireKeepsInv(c: Config, s: State, id: nat)
    requires Inv(c, s) && Enabled(s, Expire(id))
    ensures Inv(c, Apply(c, s, Expire(id)))
  {
    ExpireKeepsIds(s.ops, s.outstanding, id);
    ExpireKeepsRx(s.ops, s.outstanding, s.rx, id);
  }

  lemma ReceiveKeepsLocks(locks: map<Mutex, Actor>, rx: Rx)
    requires RxLocks(Idle, locks) && (rx.CGetLock? || rx.GetLock?)
    ensures RxLocks(rx, locks)
  {
    forall mu ensures Owns(locks, mu, Receiver) <==> RxHolds(rx, mu) {
      assert Owns(locks, mu, Receiver) <==> RxHolds(Idle, mu);
    }
  }

  /** A message is taken up when no handler is at work. */
  lemma ReceiveKeepsInv(c: Config, s: State, rx: Rx)
    requires Inv(c, s) && s.rx == Idle && (rx.CGetLock? || (rx.GetLock? && MsgOk(s.outstanding, rx.msg)))
    ensures Inv(c, s.(rx := rx))
  {
    ReceiveKeepsLocks(s.locks, rx);
  }

  lemma TakersKeepInv(c: Config, s: State, a: Action)
    requires Inv(c, s) && Enabled(s, a) && (a.Take? || a.TakeStep?)
    ensures Inv(c, Apply(c, s, a))
  {
    KeepsLocks(c, s, a);
    if a.TakeStep? {
      TakeKeepsFound(s.found, a.k);
    } else {
      NewTakerKeepsFound(s.found, a.k, a.goal);
    }
  }

  lemma KeepsInv(c: Config, s: State, a: Action)
    requires Inv(c, s) && Enabled(s, a)
    ensures Inv(c, Apply(c, s, a))
  {
    match a
    case Request(t, id, late) => RequestKeepsInv(c, s, t, id, late);
    case Handle(w, skip) => HandleKeepsInv(c, s, w, skip);
    case Call(t, k, d) => CallKeepsInv(c, s, t, k, d);
    case Take(_, _) => TakersKeepInv(c, s, a);
    case TakeStep(_) => TakersKeepInv(c, s, a);
    case Expire(id) => ExpireKeepsInv(c, s, id);
    case Receive(m) => ReceiveKeepsInv(c, s, GetLock(m));
    case ReceiveIAm(i) => ReceiveKeepsInv(c, s, CGetLock(i));
  }

  lemma NextKeepsInv(c: Config, s: State, s': State)
    requires Inv(c, s) && Next(c, s, s')
    ensures Inv(c, s')
  {
    var a: Action :| Enabled(s, a) && s' == Apply(c, s, a);
    KeepsInv(c, s, a);
  }

  lemma StepKeepsInv(c: Config, run: seq<State>, i: nat)
    requires IsRun(c, run) && 0 < i < |run| && Inv(c, run[i - 1])
    ensures Inv(c, run[i])
  {
    assert StepAt(c, run, i - 1);
    NextKeepsInv(c, run[i - 1], run[i]);
  }

  /** The invariant holds in every state of every run, whatever the interleaving. */
  lemma {:induction false} RunInv(c: Config, run: seq<State>, i: nat)
    requires IsRun(c, run) && i < |run|
    ensures Inv(c, run[i])
  {
    if i == 0 {
      InitInv(c, run[0]);
    } else {
      RunInv(c, run, i - 1);
      StepKeepsInv(c, run, i);
    }
  }

  /** Every state of a run is reachable. */
  lemma RunReaches(c: Config, run: seq<State>, i: nat)
    requires IsRun(c, run) && i < |run|
    ensures Reachable(c, run[i])
  {
    var prefix := run[..i + 1];
    forall k | 0 <= k < |prefix| - 1 ensures StepAt(c, prefix, k) {
      assert StepAt(c, run, k);
    }
    assert IsRun(c, prefix) && prefix[|prefix| - 1] == run[i];
  }

  lemma ReachableInv(c: Config, s: State)
    requires Reachable(c, s)
    ensures Inv(c, s)
  {
    var run: seq<State> :| IsRun(c, run) && run[|run| - 1] == s;
    RunInv(c, run, |run| - 1);
  }

  lemma ReachableLocks(c: Config, s: State)
    requires Reachable(c, s)
    ensures LockInv(s)
  {
    ReachableInv(c, s);
  }
}

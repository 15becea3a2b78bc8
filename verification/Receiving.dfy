/** What the response handlers do to nodes: every recorded outcome comes from a message with the
    node's invoke id and target address, and every outcome a call sees was recorded. */
module Receiving {
  import opened Bacnet
  import opened Protocol
  import opened Calls
  import opened Pending

  function RxNode(rx: Rx): Option<OpId> {
    match rx
    case Judging(_, n) => Some(n)
    case LockingNode(_, n) => Some(n)
    case Delivering(_, n) => Some(n)
    case Decoding(_, n) => Some(n)
    case Signalling(_, n) => Some(n)
    case Releasing(_, n) => Some(n)
    case _ => None
  }

  /** No response carries id 0, and an answer is to a request that is still on the wire. */
  predicate MsgOk(outstanding: map<nat, OpId>, m: Msg) {
    m.id != 0 && (m.cause.Some? ==> m.id in outstanding && outstanding[m.id] == m.cause.value)
  }

  /** The node a handler works on has the id of its message, and is the one of the request that the
      message answers unless it is a stray. */
  predicate TargetOk(ops: map<OpId, Op>, m: Msg, n: OpId) {
    n in ops && ops[n].node.id == m.id && (m.cause.Some? ==> m.cause.value == n || Stray(ops[n]))
  }

  /** Between the allocation of a value and the decoding into it. */
  predicate DecodingOk(m: Msg, node: Node) {
    m.service.ReadAck? && SetsValue(m, node) && node.value == Some(Undecoded)
  }

  predicate RxOk(ops: map<OpId, Op>, outstanding: map<nat, OpId>, rx: Rx) {
    && (RxMsg(rx).Some? ==> MsgOk(outstanding, RxMsg(rx).value))
    && (RxNode(rx).Some? ==> TargetOk(ops, rx.msg, rx.node))
    && (rx.LockingNode? && rx.msg.service.ReadAck? ==> ops[rx.node].node.value.None?)
    && (rx.Delivering? ==> rx.msg.service.ReadAck? && ops[rx.node].node.value.None?)
    && (rx.Decoding? ==> DecodingOk(rx.msg, ops[rx.node].node))
  }

  predicate RxEffect(ops: map<OpId, Op>, rx: Rx) {
    RxNode(rx).Some? && !rx.Judging? ==> rx.node in ops && EffectOk(rx, ops[rx.node])
  }

  /** A handler that is past its test, or its decoding, has recorded what its message says. */
  predicate EffectOk(rx: Rx, o: Op)
    requires RxMsg(rx).Some?
  {
    var m := RxMsg(rx).value;
    m.src == o.node.target && !o.kind.WhoIs? ==>
      && (IsFailure(m) ==> o.node.err)
      && ((rx.Signalling? || rx.Releasing?) && m.service.ReadAck? && m.body.Some? ==> IsDecoded(o.node))
  }

  predicate IsDecoded(node: Node) {
    node.value.Some? && node.value.value.Decoded?
  }

  lemma RxOkFrame(ops: map<OpId, Op>, outstanding: map<nat, OpId>, rx: Rx, t: OpId, o': Op,
                  outstanding': map<nat, OpId>)
    requires RxOk(ops, outstanding, rx)
    requires t in ops && NodeStep(ops[t], o') && !Over(ops[t].pc)
    requires forall id :: id in outstanding ==> id in outstanding' && outstanding'[id] == outstanding[id]
    ensures RxOk(ops[t := o'], outstanding', rx)
  {
  }

  /** Dispatch: what `return_data_get` returns is fit for its message. */
  lemma DispatchOk(c: Config, ops: map<OpId, Op>, pend: seq<OpId>, outstanding: map<nat, OpId>, m: Msg)
    requires PendOk(ops, pend) && CallsOk(c, ops) && IdsOk(ops, outstanding) && MsgOk(outstanding, m)
    ensures Lookup(ops, pend, m.id).Some? ==> TargetOk(ops, m, Lookup(ops, pend, m.id).value)
  {
    LookupFirst(ops, pend, m.id);
    var found := Lookup(ops, pend, m.id);
    if found.Some? && !Stray(ops[found.value]) {
      LinkedHolder(c, ops, pend, found.value);
    }
  }

  lemma HandleHasEffect(s: State, w: Option<OpId>, skip: bool)
    requires RxOk(s.ops, s.outstanding, s.rx) && RxEffect(s.ops, s.rx) && BlocksOk(s.ops, s.log, s.rx)
    ensures RxEffect(RxOps(s.rx, s.ops, w), RxNext(s, skip))
  {
  }

  lemma EffectFrame(ops: map<OpId, Op>, outstanding: map<nat, OpId>, rx: Rx, t: OpId, o': Op)
    requires RxOk(ops, outstanding, rx) && RxEffect(ops, rx) && t in ops && NodeStep(ops[t], o')
    ensures RxEffect(ops[t := o'], rx)
  {
  }

  lemma HandleKeepsRx(c: Config, s: State, w: Option<OpId>, skip: bool)
    requires PendOk(s.ops, s.pend) && CallsOk(c, s.ops) && IdsOk(s.ops, s.outstanding)
    requires RxOk(s.ops, s.outstanding, s.rx)
    ensures RxOk(RxOps(s.rx, s.ops, w), s.outstanding, RxNext(s, skip))
  {
    if s.rx.Getting? {
      DispatchOk(c, s.ops, s.pend, s.outstanding, s.rx.msg);
    }
  }

  // ---- The log of outcomes ----

  /** There is a block, and if it is decoded it has these contents. */
  predicate StoredFrom(value: Option<Block>, contents: AppValue) {
    value.Some? && (value.value.Decoded? ==> value.value.contents == contents)
  }

  /** An event of the log agrees with the node it was recorded in. */
  predicate RecordedOk(o: Op, n: OpId, m: Msg, j: nat) {
    && m.id != 0 && m.id == o.node.id && m.src == o.node.target
    && (IsFailure(m) && !o.kind.WhoIs? ==> o.node.err)
    && (!IsFailure(m) ==> m.service.ReadAck? && m.body.Some? && StoredFrom(o.node.value, m.body.value))
    && (m.cause.Some? ==> m.cause.value == n || o.kind.WhoIs? || (o.pc.Leaked? && o.checkedAt <= j))
  }

  ghost predicate LogOk(ops: map<OpId, Op>, log: seq<Event>) {
    forall j :: 0 <= j < |log| && log[j].Recorded? ==>
      log[j].node in ops && RecordedOk(ops[log[j].node], log[j].node, log[j].msg, j)
  }

  ghost predicate Failed(log: seq<Event>, t: OpId, hi: nat) {
    exists j :: 0 <= j < hi && j < |log| && FailureAt(log, t, j)
  }

  predicate FailureAt(log: seq<Event>, t: OpId, j: nat)
    requires j < |log|
  {
    log[j].Recorded? && log[j].node == t && IsFailure(log[j].msg)
  }

  /** A block was stored in the node of `t` before position `hi`. */
  ghost predicate Answered(log: seq<Event>, t: OpId, hi: nat) {
    exists j :: 0 <= j < hi && j < |log| && AckAt(log, t, j)
  }

  predicate AckAt(log: seq<Event>, t: OpId, j: nat)
    requires j < |log|
  {
    log[j].Recorded? && log[j].node == t && log[j].msg.service.ReadAck?
  }

  /** A block that is not decoded is in the hands of a handler, which stored the only one of its node. */
  ghost predicate BlocksOk(ops: map<OpId, Op>, log: seq<Event>, rx: Rx) {
    && (forall t :: t in ops && ops[t].node.value == Some(Undecoded) ==> rx.Decoding? && rx.node == t)
    && (rx.Decoding? ==> OnlyAck(log, rx.node, rx.msg))
  }

  ghost predicate OnlyAck(log: seq<Event>, t: OpId, m: Msg) {
    forall j :: 0 <= j < |log| && AckAt(log, t, j) ==> log[j].msg == m
  }

  /** A stored value and a recorded error have a cause in the log, and a write that returned tested
      errorDetected when the log was that long. */
  ghost predicate OutcomeOk(t: OpId, o: Op, log: seq<Event>) {
    && (o.node.value.Some? ==> Answered(log, t, |log|))
    && (o.bound && o.node.err ==> Failed(log, t, |log|))
    && (o.kind.Write? && o.bound && (InUnlink(o.pc) || o.pc.Done?) ==>
          o.checkedAt <= |log| && !Failed(log, t, o.checkedAt))
    && (o.pc.Leaked? ==> o.checkedAt <= |log| && Failed(log, t, o.checkedAt))
    && (o.kind.Read? && o.bound && (InUnlink(o.pc) || o.pc.Done?) ==>
          o.checkedAt <= |log| && o.result.Got? && (o.result.value.Some? <==> Answered(log, t, o.checkedAt)))
  }

  ghost predicate OutcomesOk(ops: map<OpId, Op>, log: seq<Event>) {
    forall t :: t in ops ==> OutcomeOk(t, ops[t], log)
  }

  lemma OutcomeGrows(t: OpId, o: Op, log: seq<Event>, more: seq<Event>)
    requires OutcomeOk(t, o, log)
    ensures OutcomeOk(t, o, log + more)
  {
    var log' := log + more;
    assert forall j :: 0 <= j < |log| ==> log'[j] == log[j];
    FailedGrows(t, |log|, log, more);
    if o.checkedAt <= |log| {
      FailedGrows(t, o.checkedAt, log, more);
    }
  }

  lemma FailedGrows(t: OpId, hi: nat, log: seq<Event>, more: seq<Event>)
    requires hi <= |log|
    ensures Failed(log + more, t, hi) <==> Failed(log, t, hi)
    ensures Answered(log + more, t, hi) <==> Answered(log, t, hi)
    ensures Failed(log, t, hi) ==> Failed(log + more, t, |log + more|)
    ensures Answered(log, t, hi) ==> Answered(log + more, t, |log + more|)
  {
    var log' := log + more;
    assert forall j :: 0 <= j < |log| ==> log'[j] == log[j];
    forall j | 0 <= j < hi
      ensures (FailureAt(log', t, j) <==> FailureAt(log, t, j)) && (AckAt(log', t, j) <==> AckAt(log, t, j))
    {
    }
  }

  // A step of a call keeps both.

  lemma LogStep(c: Config, o: Op, e: Input, n: OpId, m: Msg, j: nat)
    requires ControlOk(c, o) && !Over(o.pc) && RecordedOk(o, n, m, j) && j < e.now
    ensures RecordedOk(OpNext(o, e), n, m, j)
  {
    StepNext(c, o, e);
  }

  /** What a call sees of its node is what was recorded. */
  ghost predicate NothingMissed(t: OpId, o: Op, log: seq<Event>) {
    && (!o.kind.WhoIs? && !o.node.err ==> !Failed(log, t, |log|))
    && (o.node.value.Some? <==> Answered(log, t, |log|))
  }

  lemma OutcomeBind(t: OpId, o: Op, e: Input, log: seq<Event>)
    requires InBind(o.pc) && OutcomeOk(t, o, log) && !o.node.err && !o.bound
    ensures OutcomeOk(t, BindNext(o, e), log)
  {
  }

  lemma OutcomeSend(t: OpId, o: Op, e: Input, log: seq<Event>)
    requires InSend(o.pc) && OutcomeOk(t, o, log)
    ensures OutcomeOk(t, SendNext(o, e), log)
  {
  }

  lemma OutcomeWait(t: OpId, o: Op, e: Input, log: seq<Event>)
    requires InWait(o.pc) && OutcomeOk(t, o, log) && NothingMissed(t, o, log) && e.now == |log|
    requires if o.kind.WhoIs? then !o.bound else o.bound
    requires o.kind.WhoIs? ==> o.pc.Waiting? || o.pc.Woken?
    requires o.pc.Fetching? ==> o.kind.Read?
    ensures OutcomeOk(t, WaitNext(o, e), log)
  {
  }

  lemma OutcomeUnlink(t: OpId, o: Op, e: Input, log: seq<Event>)
    requires InUnlink(o.pc) && OutcomeOk(t, o, log)
    ensures OutcomeOk(t, UnlinkNext(o, e), log)
  {
  }

  lemma OutcomeStep(c: Config, t: OpId, o: Op, e: Input, log: seq<Event>)
    requires ControlOk(c, o) && !Over(o.pc) && OutcomeOk(t, o, log) && NothingMissed(t, o, log) && e.now == |log|
    ensures OutcomeOk(t, OpNext(o, e), log)
  {
    if InSet(o.pc) { assert SetNext(o).node.value == o.node.value && !SetNext(o).bound; }
    else if InBind(o.pc) { OutcomeBind(t, o, e, log); }
    else if InWaiter(o.pc) { assert WaiterNext(o, e).node == o.node && !WaiterNext(o, e).bound; }
    else if InSend(o.pc) { OutcomeSend(t, o, e, log); }
    else if InWait(o.pc) { OutcomeWait(t, o, e, log); }
    else { OutcomeUnlink(t, o, e, log); }
  }

  lemma LogMissesNothing(ops: map<OpId, Op>, log: seq<Event>, t: OpId)
    requires LogOk(ops, log) && t in ops && OutcomeOk(t, ops[t], log)
    ensures NothingMissed(t, ops[t], log)
  {
  }

  lemma CallKeepsLog(c: Config, ops: map<OpId, Op>, log: seq<Event>, t: OpId, e: Input)
    requires t in ops && ControlOk(c, ops[t]) && !Over(ops[t].pc) && e.now == |log|
    requires LogOk(ops, log)
    ensures LogOk(ops[t := OpNext(ops[t], e)], log)
  {
    var o' := OpNext(ops[t], e);
    forall j | 0 <= j < |log| && log[j].Recorded? && log[j].node == t
      ensures RecordedOk(o', t, log[j].msg, j)
    {
      LogStep(c, ops[t], e, t, log[j].msg, j);
    }
  }

  lemma CallKeepsOutcomes(c: Config, ops: map<OpId, Op>, log: seq<Event>, t: OpId, e: Input)
    requires t in ops && ControlOk(c, ops[t]) && !Over(ops[t].pc) && e.now == |log|
    requires LogOk(ops, log) && OutcomesOk(ops, log)
    ensures OutcomesOk(ops[t := OpNext(ops[t], e)], log)
  {
    LogMissesNothing(ops, log, t);
    OutcomeStep(c, t, ops[t], e, log);
  }

  lemma CallKeepsBlocks(ops: map<OpId, Op>, log: seq<Event>, rx: Rx, t: OpId, o': Op)
    requires BlocksOk(ops, log, rx) && t in ops && o'.node.value == ops[t].node.value
    ensures BlocksOk(ops[t := o'], log, rx)
  {
  }

  // So does a step of the receive thread.

  lemma HandleKeepsLog(s: State, w: Option<OpId>)
    requires RxOk(s.ops, s.outstanding, s.rx) && LogOk(s.ops, s.log) && OutcomesOk(s.ops, s.log)
    requires BlocksOk(s.ops, s.log, s.rx)
    ensures LogOk(RxOps(s.rx, s.ops, w), RxLog(s.rx, s.ops, s.log))
  {
    var ops', log' := RxOps(s.rx, s.ops, w), RxLog(s.rx, s.ops, s.log);
    forall j | 0 <= j < |log'| && log'[j].Recorded?
      ensures log'[j].node in ops' && RecordedOk(ops'[log'[j].node], log'[j].node, log'[j].msg, j)
    {
      if j < |s.log| {
        OldEvent(s, w, j);
      } else {
        NewEvent(s, w);
      }
    }
  }

  lemma OldEvent(s: State, w: Option<OpId>, j: nat)
    requires RxOk(s.ops, s.outstanding, s.rx) && LogOk(s.ops, s.log) && j < |s.log| && s.log[j].Recorded?
    requires BlocksOk(s.ops, s.log, s.rx)
    ensures var n := s.log[j].node;
            n in s.ops && RecordedOk(RxOps(s.rx, s.ops, w)[n], n, s.log[j].msg, j)
  {
    var n, m := s.log[j].node, s.log[j].msg;
    RxNodes(s.rx, s.ops, w, n);
    assert RecordedOk(s.ops[n], n, m, j);
    if s.rx.Decoding? && s.rx.node == n && !IsFailure(m) {
      assert AckAt(s.log, n, j);
    }
  }

  /** What the receive thread does to one call. */
  lemma RxNodes(rx: Rx, ops: map<OpId, Op>, w: Option<OpId>, t: OpId)
    requires t in ops
    ensures var o, o' := ops[t], RxOps(rx, ops, w)[t];
            && o' == o.(node := o'.node, woken := o'.woken, live := o'.live)
            && o'.node == (if (Records(rx, ops) || Decodes(rx, ops)) && rx.node == t then Written(rx, o.node)
                           else o.node)
  {
  }

  lemma NewEvent(s: State, w: Option<OpId>)
    requires Records(s.rx, s.ops) && RxOk(s.ops, s.outstanding, s.rx) && OutcomesOk(s.ops, s.log)
    ensures RecordedOk(RxOps(s.rx, s.ops, w)[s.rx.node], s.rx.node, s.rx.msg, |s.log|)
  {
    RxNodes(s.rx, s.ops, w, s.rx.node);
    assert OutcomeOk(s.rx.node, s.ops[s.rx.node], s.log);
  }

  lemma HandleKeepsOutcomes(s: State, w: Option<OpId>)
    requires RxOk(s.ops, s.outstanding, s.rx) && OutcomesOk(s.ops, s.log)
    ensures OutcomesOk(RxOps(s.rx, s.ops, w), RxLog(s.rx, s.ops, s.log))
  {
    var ops', log' := RxOps(s.rx, s.ops, w), RxLog(s.rx, s.ops, s.log);
    forall t | t in ops' ensures OutcomeOk(t, ops'[t], log') {
      RxNodes(s.rx, s.ops, w, t);
      assert OutcomeOk(t, s.ops[t], s.log);
      OutcomeGrows(t, s.ops[t], s.log, log'[|s.log|..]);
      assert log' == s.log + log'[|s.log|..];
      if Records(s.rx, s.ops) && s.rx.node == t {
        RecordedOutcome(t, s.ops[t], s.rx.msg, s.log);
      }
    }
  }

  lemma HandleKeepsBlocks(s: State, w: Option<OpId>, skip: bool)
    requires RxOk(s.ops, s.outstanding, s.rx) && OutcomesOk(s.ops, s.log) && LogOk(s.ops, s.log)
    requires BlocksOk(s.ops, s.log, s.rx)
    ensures BlocksOk(RxOps(s.rx, s.ops, w), RxLog(s.rx, s.ops, s.log), RxNext(s, skip))
  {
    var ops', rx' := RxOps(s.rx, s.ops, w), RxNext(s, skip);
    forall t | t in ops' && ops'[t].node.value == Some(Undecoded) ensures rx'.Decoding? && rx'.node == t {
      RxNodes(s.rx, s.ops, w, t);
    }
    if rx'.Decoding? {
      StoresOnce(s);
    }
  }

  /** A block is stored in a node that had none, so it is the only one. */
  lemma StoresOnce(s: State)
    requires RxOk(s.ops, s.outstanding, s.rx) && OutcomesOk(s.ops, s.log) && LogOk(s.ops, s.log)
    requires s.rx.Delivering? && Records(s.rx, s.ops)
    ensures OnlyAck(RxLog(s.rx, s.ops, s.log), s.rx.node, s.rx.msg)
  {
    var n := s.rx.node;
    LogMissesNothing(s.ops, s.log, n);
    var log' := RxLog(s.rx, s.ops, s.log);
    forall j | 0 <= j < |log'| && AckAt(log', n, j) ensures log'[j].msg == s.rx.msg {
      if j < |s.log| {
        assert AckAt(s.log, n, j);
      }
    }
  }

  lemma RecordedOutcome(t: OpId, o: Op, m: Msg, log: seq<Event>)
    requires OutcomeOk(t, o, log + [Recorded(t, m)])
    requires IsFailure(m) || (m.service.ReadAck? && m.body.Some?)
    ensures OutcomeOk(t, o.(node := Recording(m, o.node)), log + [Recorded(t, m)])
  {
    var log' := log + [Recorded(t, m)];
    assert log'[|log|] == Recorded(t, m);
    assert IsFailure(m) ==> FailureAt(log', t, |log|);
    assert !IsFailure(m) ==> AckAt(log', t, |log|);
  }
}

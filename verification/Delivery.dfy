/** From the lookup of a response to the result of its request. */
module Delivery {
  import opened Bacnet
  import opened Protocol
  import opened Locking
  import opened Calls
  import opened Pending
  import opened Receiving
  import opened Safety
  import opened Theorems

  /** The handler of this message is at work on the node of call `t` and has not signalled yet. */
  predicate Working(rx: Rx, m: Msg, t: OpId) {
    RxMsg(rx) == Some(m) && RxNode(rx) == Some(t) && !rx.Signalling? && !rx.Releasing?
  }

  // ---- Reads ----

  /** A decoded value; that of the message if the node was empty when the message was looked up. */
  predicate Has(node: Node, m: Msg, first: bool) {
    IsDecoded(node) && (first ==> m.body == Some(node.value.value.contents))
  }

  /** The read has its value, or the handler of its answer is about to store or decode it. */
  predicate Coming(s: State, t: OpId, m: Msg, first: bool) {
    && t in s.ops && s.ops[t].node.target == m.src && s.ops[t].node.id == m.id
    && s.ops[t].bound && s.ops[t].kind.Read?
    && (Has(s.ops[t].node, m, first) || (Working(s.rx, m, t) && (first ==> !IsDecoded(s.ops[t].node))))
  }

  predicate Decodable(m: Msg) {
    m.service.ReadAck? && m.body.Some? && m.id != 0
  }

  lemma ComingRequest(c: Config, s: State, u: OpId, id: nat, late: bool, t: OpId, m: Msg, first: bool)
    requires CallsOk(c, s.ops) && RequesterEnabled(s, u, id) && Coming(s, t, m, first) && m.id != 0
    ensures Coming(RequesterStep(s, u, id, late), t, m, first)
  {
    StepNext(c, s.ops[u], InputOf(s, u, id, late));
  }

  lemma ComingHandle(s: State, w: Option<OpId>, skip: bool, t: OpId, m: Msg, first: bool)
    requires RxOk(s.ops, s.outstanding, s.rx) && BlocksOk(s.ops, s.log, s.rx)
    requires Decodable(m) && Coming(s, t, m, first)
    ensures Coming(RxStep(s, w, skip), t, m, first)
  {
    RxOpsSameCall(s.rx, s.ops, w);
    RxNodes(s.rx, s.ops, w, t);
  }

  lemma ComingAction(c: Config, s: State, a: Action, t: OpId, m: Msg, first: bool)
    requires CallsOk(c, s.ops) && RxOk(s.ops, s.outstanding, s.rx) && BlocksOk(s.ops, s.log, s.rx)
    requires Enabled(s, a) && Decodable(m) && Coming(s, t, m, first)
    ensures Coming(Apply(c, s, a), t, m, first)
  {
    match a
    case Request(u, id, late) => ComingRequest(c, s, u, id, late, t, m, first);
    case Handle(w, skip) => ComingHandle(s, w, skip, t, m, first);
    case _ =>
  }

  lemma ComingNext(c: Config, s: State, s': State, t: OpId, m: Msg, first: bool)
    requires Inv(c, s) && Next(c, s, s') && Decodable(m) && Coming(s, t, m, first)
    ensures Coming(s', t, m, first)
  {
    var a: Action :| Enabled(s, a) && s' == Apply(c, s, a);
    ComingAction(c, s, a, t, m, first);
  }

  lemma ComingStep(c: Config, run: seq<State>, j: nat, t: OpId, m: Msg, first: bool)
    requires IsRun(c, run) && 0 < j < |run| && Decodable(m) && Coming(run[j - 1], t, m, first)
    ensures Coming(run[j], t, m, first)
  {
    RunInv(c, run, j - 1);
    assert StepAt(c, run, j - 1);
    ComingNext(c, run[j - 1], run[j], t, m, first);
  }

  lemma {:induction false} StaysComing(c: Config, run: seq<State>, i: nat, j: nat, t: OpId, m: Msg, first: bool)
    requires IsRun(c, run) && i <= j < |run| && Decodable(m) && Coming(run[i], t, m, first)
    ensures Coming(run[j], t, m, first)
  {
    if i == j {
    } else {
      StaysComing(c, run, i, j - 1, t, m, first);
      ComingStep(c, run, j, t, m, first);
    }
  }

  /** The read has its value, and has returned it or will. */
  predicate Kept(s: State, t: OpId, m: Msg, first: bool) {
    && t in s.ops && s.ops[t].bound && s.ops[t].kind.Read? && Has(s.ops[t].node, m, first)
    && (s.ops[t].result.Running? || s.ops[t].result == Got(s.ops[t].node.value))
  }

  lemma KeptRequest(c: Config, s: State, u: OpId, id: nat, late: bool, t: OpId, m: Msg, first: bool)
    requires CallsOk(c, s.ops) && RequesterEnabled(s, u, id) && Kept(s, t, m, first)
    ensures Kept(RequesterStep(s, u, id, late), t, m, first)
  {
    StepNext(c, s.ops[u], InputOf(s, u, id, late));
    BoundReadResult(c, s.ops[t], InputOf(s, t, id, late));
  }

  /** A bound read gets its result from its node. */
  lemma BoundReadResult(c: Config, o: Op, e: Input)
    requires ControlOk(c, o) && o.bound && o.kind.Read?
    ensures Over(o.pc) || OpNext(o, e).result == o.result || OpNext(o, e).result == Got(o.node.value)
  {
    if InSend(o.pc) { assert SendNext(o, e).result == o.result; }
    else if InWait(o.pc) { assert WaitNext(o, e).result == o.result || WaitNext(o, e).result == Got(o.node.value); }
  }

  lemma KeptHandle(s: State, w: Option<OpId>, skip: bool, t: OpId, m: Msg, first: bool)
    requires RxOk(s.ops, s.outstanding, s.rx) && Kept(s, t, m, first)
    ensures Kept(RxStep(s, w, skip), t, m, first)
  {
    HandleKeepsValue(s, w, t);
    RxOpsSameCall(s.rx, s.ops, w);
  }

  lemma KeptAction(c: Config, s: State, a: Action, t: OpId, m: Msg, first: bool)
    requires CallsOk(c, s.ops) && RxOk(s.ops, s.outstanding, s.rx)
    requires Enabled(s, a) && Kept(s, t, m, first)
    ensures Kept(Apply(c, s, a), t, m, first)
  {
    match a
    case Request(u, id, late) => KeptRequest(c, s, u, id, late, t, m, first);
    case Handle(w, skip) => KeptHandle(s, w, skip, t, m, first);
    case _ =>
  }

  lemma KeptNext(c: Config, s: State, s': State, t: OpId, m: Msg, first: bool)
    requires Inv(c, s) && Next(c, s, s') && Kept(s, t, m, first)
    ensures Kept(s', t, m, first)
  {
    var a: Action :| Enabled(s, a) && s' == Apply(c, s, a);
    KeptAction(c, s, a, t, m, first);
  }

  lemma KeptStep(c: Config, run: seq<State>, j: nat, t: OpId, m: Msg, first: bool)
    requires IsRun(c, run) && 0 < j < |run| && Kept(run[j - 1], t, m, first)
    ensures Kept(run[j], t, m, first)
  {
    RunInv(c, run, j - 1);
    assert StepAt(c, run, j - 1);
    KeptNext(c, run[j - 1], run[j], t, m, first);
  }

  lemma {:induction false} StaysKept(c: Config, run: seq<State>, i: nat, j: nat, t: OpId, m: Msg, first: bool)
    requires IsRun(c, run) && i <= j < |run| && Kept(run[i], t, m, first)
    ensures Kept(run[j], t, m, first)
  {
    if i == j {
    } else {
      StaysKept(c, run, i, j - 1, t, m, first);
      KeptStep(c, run, j, t, m, first);
    }
  }

  lemma FinishedRead(c: Config, s: State, t: OpId)
    requires Reachable(c, s) && t in s.ops && s.ops[t].kind.Read? && s.ops[t].pc.Done?
    ensures !s.ops[t].result.Running?
  {
    ReachableInv(c, s);
    assert ControlOk(c, s.ops[t]) && ResultOk(s.ops[t]);
  }

  /** Once a handler has signalled the node of a read with a decodable answer, the read, if it has not
      fetched yet, returns a decoded value: in particular when that signal ended its wait. */
  lemma SignalledReadReturns(c: Config, run: seq<State>, i: nat, k: nat, t: OpId)
    requires IsRun(c, run) && i <= k < |run| && run[i].rx.Signalling? && run[i].rx.node == t && t in run[i].ops
    requires run[i].ops[t].kind.Read? && run[i].ops[t].bound && run[i].ops[t].result.Running?
    requires Decodable(run[i].rx.msg) && run[i].rx.msg.src == run[i].ops[t].node.target
    requires t in run[k].ops && run[k].ops[t].pc.Done?
    ensures run[k].ops[t].result.Got? && run[k].ops[t].result.value.Some? && run[k].ops[t].result.value.value.Decoded?
  {
    RunInv(c, run, i);
    assert EffectOk(run[i].rx, run[i].ops[t]);
    StaysKept(c, run, i, k, t, run[i].rx.msg, false);
    RunReaches(c, run, k);
    FinishedRead(c, run[k], t);
  }

  /** The step in which a handler looks its message up. */
  ghost predicate LooksUp(run: seq<State>, i: nat, m: Msg) {
    i + 1 < |run| && run[i].rx == Getting(m) && run[i + 1].rx != run[i].rx
  }

  lemma LookupHandle(s: State, w: Option<OpId>, skip: bool, m: Msg)
    requires s.rx == Getting(m)
    ensures RxStep(s, w, skip).ops == s.ops
    ensures RxStep(s, w, skip).rx == var n := Lookup(s.ops, s.pend, m.id); if n.Some? then Judging(m, n.value) else Idle
  {
  }

  lemma OthersLeaveHandler(c: Config, s: State, a: Action)
    requires Enabled(s, a) && s.rx.Getting? && !a.Handle?
    ensures Apply(c, s, a).rx == s.rx
  {
  }

  lemma LookupStep(c: Config, s: State, s': State, m: Msg)
    requires Next(c, s, s') && s.rx == Getting(m) && s'.rx != s.rx
    ensures s'.ops == s.ops
    ensures s'.rx == var n := Lookup(s.ops, s.pend, m.id); if n.Some? then Judging(m, n.value) else Idle
  {
    var a: Action :| Enabled(s, a) && s' == Apply(c, s, a);
    if a.Handle? {
      LookupHandle(s, a.w, a.skip, m);
    } else {
      OthersLeaveHandler(c, s, a);
    }
  }

  /** A request that its answer finds: it is linked, and no stray with its id in front of it. */
  ghost predicate Findable(s: State, t: OpId, m: Msg) {
    t in s.pend && t in s.ops && !Stray(s.ops[t]) && !Shadowed(s.ops, s.pend, t, m.id)
  }

  lemma FindsRequest(c: Config, run: seq<State>, i: nat, t: OpId, m: Msg)
    requires IsRun(c, run) && LooksUp(run, i, m) && m.cause == Some(t) && Findable(run[i], t, m)
    ensures run[i + 1].rx == Judging(m, t) && run[i + 1].ops == run[i].ops
    ensures var o := run[i].ops[t]; m.id != 0 && o.node.id == m.id && (o.kind.WhoIs? || o.bound)
  {
    RunReaches(c, run, i);
    StoredBeforeLookup(c, run[i], t);
    RunInv(c, run, i);
    assert MsgOk(run[i].outstanding, m) && ControlOk(c, run[i].ops[t]);
    DispatchExact(c, run[i], t);
    assert StepAt(c, run, i);
    LookupStep(c, run[i], run[i + 1], m);
  }

  /** An answer to a read, decodable and from its target, that is looked up while the read is linked
      and not shadowed: if the handler is done before the read fetches, the read returns a decoded
      value, and that of this answer if it had none before. */
  lemma AnswerReturned(c: Config, run: seq<State>, i: nat, j: nat, k: nat, t: OpId, m: Msg)
    requires IsRun(c, run) && LooksUp(run, i, m) && i < j <= k < |run|
    requires m.cause == Some(t) && Findable(run[i], t, m) && run[i].ops[t].kind.Read?
    requires m.service.ReadAck? && m.body.Some? && m.src == run[i].ops[t].node.target
    requires run[j].rx == Idle && t in run[j].ops && run[j].ops[t].result.Running?
    requires t in run[k].ops && run[k].ops[t].pc.Done?
    ensures var r := run[k].ops[t].result;
            && r.Got? && r.value.Some? && r.value.value.Decoded?
            && (run[i].ops[t].node.value.None? ==> r == Got(Some(Decoded(m.body.value))))
  {
    FindsRequest(c, run, i, t, m);
    var first := run[i].ops[t].node.value.None?;
    StaysComing(c, run, i + 1, j, t, m, first);
    StaysKept(c, run, j, k, t, m, first);
    RunReaches(c, run, k);
    FinishedRead(c, run[k], t);
  }

  // ---- Writes ----

  /** The write has its error, or the handler of the failure is about to set it. */
  predicate Failing(s: State, t: OpId, m: Msg) {
    && t in s.ops && s.ops[t].node.target == m.src && s.ops[t].node.id == m.id
    && s.ops[t].bound && s.ops[t].kind.Write?
    && (s.ops[t].node.err || s.rx == Judging(m, t))
  }

  lemma FailingRequest(c: Config, s: State, u: OpId, id: nat, late: bool, t: OpId, m: Msg)
    requires CallsOk(c, s.ops) && RequesterEnabled(s, u, id) && Failing(s, t, m) && m.id != 0
    ensures Failing(RequesterStep(s, u, id, late), t, m)
  {
    StepNext(c, s.ops[u], InputOf(s, u, id, late));
  }

  lemma FailingHandle(s: State, w: Option<OpId>, skip: bool, t: OpId, m: Msg)
    requires IsFailure(m) && Failing(s, t, m)
    ensures Failing(RxStep(s, w, skip), t, m)
  {
    RxOpsSameCall(s.rx, s.ops, w);
    RxNodes(s.rx, s.ops, w, t);
  }

  lemma FailingAction(c: Config, s: State, a: Action, t: OpId, m: Msg)
    requires CallsOk(c, s.ops) && Enabled(s, a) && IsFailure(m) && m.id != 0 && Failing(s, t, m)
    ensures Failing(Apply(c, s, a), t, m)
  {
    match a
    case Request(u, id, late) => FailingRequest(c, s, u, id, late, t, m);
    case Handle(w, skip) => FailingHandle(s, w, skip, t, m);
    case _ =>
  }

  lemma FailingNext(c: Config, s: State, s': State, t: OpId, m: Msg)
    requires Inv(c, s) && Next(c, s, s') && IsFailure(m) && m.id != 0 && Failing(s, t, m)
    ensures Failing(s', t, m)
  {
    var a: Action :| Enabled(s, a) && s' == Apply(c, s, a);
    FailingAction(c, s, a, t, m);
  }

  lemma FailingStep(c: Config, run: seq<State>, j: nat, t: OpId, m: Msg)
    requires IsRun(c, run) && 0 < j < |run| && IsFailure(m) && m.id != 0 && Failing(run[j - 1], t, m)
    ensures Failing(run[j], t, m)
  {
    RunInv(c, run, j - 1);
    assert StepAt(c, run, j - 1);
    FailingNext(c, run[j - 1], run[j], t, m);
  }

  lemma {:induction false} StaysFailing(c: Config, run: seq<State>, i: nat, j: nat, t: OpId, m: Msg)
    requires IsRun(c, run) && i <= j < |run| && IsFailure(m) && m.id != 0 && Failing(run[i], t, m)
    ensures Failing(run[j], t, m)
  {
    if i == j {
    } else {
      StaysFailing(c, run, i, j - 1, t, m);
      FailingStep(c, run, j, t, m);
    }
  }

  /** The write has its error, and has returned 1 or will. */
  predicate Refused(s: State, t: OpId) {
    && t in s.ops && s.ops[t].bound && s.ops[t].kind.Write? && s.ops[t].node.err
    && (s.ops[t].result.Running? || s.ops[t].result == Status(1))
  }

  lemma RefusedRequest(c: Config, s: State, u: OpId, id: nat, late: bool, t: OpId)
    requires CallsOk(c, s.ops) && RequesterEnabled(s, u, id) && Refused(s, t)
    ensures Refused(RequesterStep(s, u, id, late), t)
  {
    StepNext(c, s.ops[u], InputOf(s, u, id, late));
    BoundWriteResult(c, s.ops[t], InputOf(s, t, id, late));
  }

  /** A bound write gets its result from its errorDetected. */
  lemma BoundWriteResult(c: Config, o: Op, e: Input)
    requires ControlOk(c, o) && o.bound && o.kind.Write? && o.node.err
    ensures Over(o.pc) || OpNext(o, e).result == o.result || OpNext(o, e).result == Status(1)
  {
    if InSend(o.pc) { assert SendNext(o, e).result == o.result; }
    else if InWait(o.pc) { assert WaitNext(o, e).result == o.result || WaitNext(o, e).result == Status(1); }
  }

  lemma RefusedHandle(s: State, w: Option<OpId>, skip: bool, t: OpId)
    requires Refused(s, t)
    ensures Refused(RxStep(s, w, skip), t)
  {
    RxOpsSameCall(s.rx, s.ops, w);
    RxNodes(s.rx, s.ops, w, t);
  }

  lemma RefusedAction(c: Config, s: State, a: Action, t: OpId)
    requires CallsOk(c, s.ops) && Enabled(s, a) && Refused(s, t)
    ensures Refused(Apply(c, s, a), t)
  {
    match a
    case Request(u, id, late) => RefusedRequest(c, s, u, id, late, t);
    case Handle(w, skip) => RefusedHandle(s, w, skip, t);
    case _ =>
  }

  lemma RefusedNext(c: Config, s: State, s': State, t: OpId)
    requires Inv(c, s) && Next(c, s, s') && Refused(s, t)
    ensures Refused(s', t)
  {
    var a: Action :| Enabled(s, a) && s' == Apply(c, s, a);
    RefusedAction(c, s, a, t);
  }

  lemma RefusedStep(c: Config, run: seq<State>, j: nat, t: OpId)
    requires IsRun(c, run) && 0 < j < |run| && Refused(run[j - 1], t)
    ensures Refused(run[j], t)
  {
    RunInv(c, run, j - 1);
    assert StepAt(c, run, j - 1);
    RefusedNext(c, run[j - 1], run[j], t);
  }

  lemma {:induction false} StaysRefused(c: Config, run: seq<State>, i: nat, j: nat, t: OpId)
    requires IsRun(c, run) && i <= j < |run| && Refused(run[i], t)
    ensures Refused(run[j], t)
  {
    if i == j {
    } else {
      StaysRefused(c, run, i, j - 1, t);
      RefusedStep(c, run, j, t);
    }
  }

  lemma FinishedWrite(c: Config, s: State, t: OpId)
    requires Reachable(c, s) && t in s.ops && s.ops[t].kind.Write? && Over(s.ops[t].pc)
    ensures !s.ops[t].result.Running?
  {
    ReachableInv(c, s);
    assert ControlOk(c, s.ops[t]) && ResultOk(s.ops[t]);
  }

  /** A failure from its target that answers a write and is looked up while the write is linked and not
      shadowed: if the handler is done before the write tests errorDetected, the write returns 1. */
  lemma FailureReturned(c: Config, run: seq<State>, i: nat, j: nat, k: nat, t: OpId, m: Msg)
    requires IsRun(c, run) && LooksUp(run, i, m) && i < j <= k < |run|
    requires m.cause == Some(t) && Findable(run[i], t, m) && run[i].ops[t].kind.Write?
    requires m.service.Error? || m.service.Abort? || m.service.Reject?
    requires m.src == run[i].ops[t].node.target
    requires run[j].rx == Idle && t in run[j].ops && run[j].ops[t].result.Running?
    requires t in run[k].ops && Over(run[k].ops[t].pc)
    ensures run[k].ops[t].result == Status(1)
  {
    FindsRequest(c, run, i, t, m);
    StaysFailing(c, run, i + 1, j, t, m);
    StaysRefused(c, run, j, k, t);
    RunReaches(c, run, k);
    FinishedWrite(c, run[k], t);
  }
}

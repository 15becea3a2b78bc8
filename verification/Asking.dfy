/** No call waits for what it has not asked for. */
module Asking {
  import opened Bacnet
  import opened Protocol
  import opened Locking
  import opened Calls
  import opened Safety
  import opened Binding

  predicate AwaitsAnswer(pc: PC) {
    pc.Storing? || pc.Entering? || pc.Waiting?
  }

  predicate AwaitsIAm(pc: PC) {
    pc.CondEntering? || pc.CondWaiting?
  }

  predicate Awaits(o: Op) {
    AwaitsAnswer(o.pc) || AwaitsIAm(o.pc)
  }

  /** The call stands at the send whose effect it waits for later: a Who-Is for its device while it
      binds, a Who-Is to everyone if it is one, and its own request otherwise. */
  predicate SendsFor(o: Op, later: Op) {
    && o.kind == later.kind && o.device == later.device
    && if AwaitsIAm(later.pc) then o.pc.CondSending?
       else if o.kind.WhoIs? then o.pc.Broadcasting?
       else o.pc.Sending? && o.bound && o.node.target == later.node.target
  }

  /** It goes on waiting for the same thing. */
  predicate StillFor(o: Op, later: Op) {
    && o.kind == later.kind && o.device == later.device
    && if AwaitsIAm(later.pc) then AwaitsIAm(o.pc)
       else AwaitsAnswer(o.pc) && o.node.target == later.node.target
  }

  predicate Asked(o: Op, o': Op) {
    Awaits(o') ==> SendsFor(o, o') || StillFor(o, o')
  }

  lemma AskedSet(o: Op)
    requires InSet(o.pc)
    ensures !Awaits(SetNext(o))
  {
  }

  lemma AskedBind(o: Op, e: Input)
    requires InBind(o.pc)
    ensures !Awaits(BindNext(o, e))
  {
  }

  lemma AskedWaiter(o: Op, e: Input)
    requires InWaiter(o.pc)
    ensures Asked(o, WaiterNext(o, e))
  {
  }

  lemma AskedSend(c: Config, o: Op, e: Input)
    requires InSend(o.pc) && ControlOk(c, o)
    ensures Asked(o, SendNext(o, e))
  {
  }

  lemma AskedLast(o: Op, e: Input)
    ensures InWait(o.pc) ==> !Awaits(WaitNext(o, e))
    ensures InUnlink(o.pc) ==> !Awaits(UnlinkNext(o, e))
  {
  }

  lemma AskedNext(c: Config, o: Op, e: Input)
    requires ControlOk(c, o) && !Over(o.pc)
    ensures Asked(o, OpNext(o, e))
  {
    if InSet(o.pc) { AskedSet(o); }
    else if InBind(o.pc) { AskedBind(o, e); }
    else if InWaiter(o.pc) { AskedWaiter(o, e); }
    else if InSend(o.pc) { AskedSend(c, o, e); }
    else { AskedLast(o, e); }
  }

  lemma AskedAction(c: Config, s: State, a: Action, t: OpId)
    requires CallsOk(c, s.ops) && Enabled(s, a) && t in s.ops
    ensures t in Apply(c, s, a).ops && Asked(s.ops[t], Apply(c, s, a).ops[t])
  {
    match a
    case Request(u, id, late) => if u == t { AskedNext(c, s.ops[t], InputOf(s, t, id, late)); }
    case Handle(w, _) => RxOpsSameCall(s.rx, s.ops, w); RxKeepsTarget(s.rx, s.ops, w, t);
    case _ =>
  }

  lemma RxKeepsTarget(rx: Rx, ops: map<OpId, Op>, w: Option<OpId>, t: OpId)
    requires t in ops
    ensures t in RxOps(rx, ops, w) && RxOps(rx, ops, w)[t].node.target == ops[t].node.target
  {
  }

  lemma AskedStep(c: Config, s: State, s': State, t: OpId)
    requires CallsOk(c, s.ops) && Next(c, s, s') && t in s'.ops
    ensures if t in s.ops then Asked(s.ops[t], s'.ops[t]) else s'.ops[t].pc.Starting?
  {
    var a: Action :| Enabled(s, a) && s' == Apply(c, s, a);
    if t in s.ops {
      AskedAction(c, s, a, t);
    } else {
      NewIsStarting(c, s, a, t);
    }
  }

  lemma SendsForBoth(o: Op, o': Op, o'': Op)
    requires SendsFor(o, o') && Awaits(o'') && StillFor(o', o'')
    ensures Awaits(o') && SendsFor(o, o'')
  {
  }

  /** A call that waits, for an answer or for an I-Am, stood earlier at the send it waits for. */
  lemma {:induction false} AskedBeforeWaiting(c: Config, run: seq<State>, j: nat, t: OpId)
    requires IsRun(c, run) && j < |run| && t in run[j].ops && Awaits(run[j].ops[t])
    ensures exists i :: 0 <= i < j && t in run[i].ops && SendsFor(run[i].ops[t], run[j].ops[t])
  {
    if j > 0 {
      RunInv(c, run, j - 1);
      assert StepAt(c, run, j - 1);
      AskedStep(c, run[j - 1], run[j], t);
      if !SendsFor(run[j - 1].ops[t], run[j].ops[t]) {
        AskedBeforeWaiting(c, run, j - 1, t);
        var i :| 0 <= i < j - 1 && t in run[i].ops && SendsFor(run[i].ops[t], run[j - 1].ops[t]);
        SendsForBoth(run[i].ops[t], run[j - 1].ops[t], run[j].ops[t]);
      }
    }
  }
}

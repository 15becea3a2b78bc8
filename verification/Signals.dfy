/** No wake-up is lost: a signal finds its call waiting, or its wait already over. */
module Signals {
  import opened Bacnet
  import opened Protocol
  import opened Locking
  import opened Safety

  /** The wait of `wait_for_data` has ended. */
  predicate WaitOver(pc: PC) {
    pc.Checking? || pc.Fetching? || InUnlink(pc) || pc.Done? || pc.Leaked?
  }

  /** When a response handler is about to release a node, a call still waiting on it is awake. */
  ghost predicate ResponseSignalled(s: State) {
    s.rx.Releasing? && s.rx.node in s.ops && s.ops[s.rx.node].pc.Waiting? ==> s.ops[s.rx.node].woken
  }

  ghost predicate AwakeOn(ops: map<OpId, Op>, node: OpId) {
    exists u :: u in ops && WaitsOn(ops[u], node) && ops[u].woken
  }

  /** When the I-Am handler is about to release a waiter, a call waiting on it is awake, if any is. */
  ghost predicate IAmSignalled(s: State) {
    s.rx.CReleasing? && (exists u :: u in s.ops && WaitsOn(s.ops[u], s.rx.node)) ==> AwakeOn(s.ops, s.rx.node)
  }

  ghost predicate Signalled(s: State) {
    ResponseSignalled(s) && IAmSignalled(s)
  }

  predicate Waits(pc: PC) {
    pc.Waiting? || pc.CondWaiting?
  }

  lemma BindStartsNoWait(o: Op, e: Input)
    requires InBind(o.pc)
    ensures !Waits(BindNext(o, e).pc)
  {
  }

  lemma CondWaitStarts(o: Op, e: Input)
    requires InWaiter(o.pc)
    ensures var o' := WaiterNext(o, e);
            !o'.pc.Waiting? && (o'.pc.CondWaiting? ==> o.pc.CondEntering? && o'.waiter == o.waiter)
  {
  }

  lemma ResponseWaitStarts(o: Op, e: Input)
    requires InSend(o.pc)
    ensures !SendNext(o, e).pc.CondWaiting? && (SendNext(o, e).pc.Waiting? ==> o.pc.Entering?)
  {
  }

  lemma WaitStartsOnce(o: Op, e: Input)
    requires InWait(o.pc)
    ensures !Waits(WaitNext(o, e).pc)
  {
  }

  /** A call starts to wait holding the mutex of what it waits on. */
  lemma WaitStarts(o: Op, e: Input, n: OpId)
    requires !Over(o.pc)
    ensures OpNext(o, e).pc.Waiting? ==> o.pc.Entering?
    ensures WaitsOn(OpNext(o, e), n) ==> o.pc.CondEntering? && o.waiter == n
  {
    if InSet(o.pc) { assert !Waits(SetNext(o).pc); }
    else if InBind(o.pc) { BindStartsNoWait(o, e); }
    else if InWaiter(o.pc) { CondWaitStarts(o, e); }
    else if InSend(o.pc) { ResponseWaitStarts(o, e); }
    else if InWait(o.pc) { WaitStartsOnce(o, e); }
    else { assert !Waits(UnlinkNext(o, e).pc); }
  }

  lemma RequestKeepsResponseSignalled(c: Config, s: State, t: OpId, id: nat, late: bool)
    requires LockInv(s) && RequesterEnabled(s, t, id) && ResponseSignalled(s)
    ensures ResponseSignalled(RequesterStep(s, t, id, late))
  {
    if s.rx.Releasing? && s.rx.node == t {
      WaitStarts(s.ops[t], InputOf(s, t, id, late), t);
      assert Owns(s.locks, NodeMutex(t), Receiver) <==> RxHolds(s.rx, NodeMutex(t));
      assert Owns(s.locks, NodeMutex(t), Requester(t)) <==> Holds(t, s.ops[t], NodeMutex(t));
    }
  }

  lemma RequestKeepsIAmSignalled(c: Config, s: State, t: OpId, id: nat, late: bool)
    requires LockInv(s) && RequesterEnabled(s, t, id) && IAmSignalled(s)
    ensures IAmSignalled(RequesterStep(s, t, id, late))
  {
    if s.rx.CReleasing? {
      var n := s.rx.node;
      var ops' := RequesterStep(s, t, id, late).ops;
      WaitStarts(s.ops[t], InputOf(s, t, id, late), n);
      assert Owns(s.locks, CondMutex(n), Receiver) <==> RxHolds(s.rx, CondMutex(n));
      assert Owns(s.locks, CondMutex(n), Requester(t)) <==> Holds(t, s.ops[t], CondMutex(n));
      assert !WaitsOn(s.ops[t], n) && !WaitsOn(ops'[t], n);
      if AwakeOn(s.ops, n) {
        var u :| u in s.ops && WaitsOn(s.ops[u], n) && s.ops[u].woken;
        assert u in ops' && WaitsOn(ops'[u], n) && ops'[u].woken;
      }
    }
  }

  lemma HandleKeepsSignalled(s: State, w: Option<OpId>, skip: bool)
    requires RxEnabled(s, w)
    ensures Signalled(RxStep(s, w, skip))
  {
    if s.rx.CSignalling? {
      var ops' := RxOps(s.rx, s.ops, w);
      if w.Some? {
        assert WaitsOn(ops'[w.value], s.rx.node) && ops'[w.value].woken;
      }
    }
  }

  lemma KeepsSignalled(c: Config, s: State, a: Action)
    requires Inv(c, s) && Signalled(s) && Enabled(s, a)
    ensures Signalled(Apply(c, s, a))
  {
    match a
    case Request(t, id, late) =>
      RequestKeepsResponseSignalled(c, s, t, id, late);
      RequestKeepsIAmSignalled(c, s, t, id, late);
    case Handle(w, skip) => HandleKeepsSignalled(s, w, skip);
    case Call(t, k, d) => CallKeepsSignalled(s, t, NewOp(c, k, d));
    case _ =>
  }

  lemma CallKeepsSignalled(s: State, t: OpId, o: Op)
    requires Signalled(s) && t !in s.ops && o.pc.Starting?
    ensures Signalled(s.(ops := s.ops[t := o]))
  {
    if s.rx.CReleasing? && AwakeOn(s.ops, s.rx.node) {
      var u :| u in s.ops && WaitsOn(s.ops[u], s.rx.node) && s.ops[u].woken;
      assert WaitsOn(s.ops[t := o][u], s.rx.node);
    }
  }

  lemma NextKeepsSignalled(c: Config, s: State, s': State)
    requires Inv(c, s) && Signalled(s) && Next(c, s, s')
    ensures Signalled(s')
  {
    var a: Action :| Enabled(s, a) && s' == Apply(c, s, a);
    KeepsSignalled(c, s, a);
  }

  lemma StepKeepsSignalled(c: Config, run: seq<State>, i: nat)
    requires IsRun(c, run) && i + 1 < |run| && Signalled(run[i])
    ensures Signalled(run[i + 1])
  {
    RunInv(c, run, i);
    assert StepAt(c, run, i);
    NextKeepsSignalled(c, run[i], run[i + 1]);
  }

  lemma {:induction false} RunSignalled(c: Config, run: seq<State>, i: nat)
    requires IsRun(c, run) && i < |run|
    ensures Signalled(run[i])
  {
    if i == 0 {
    } else {
      RunSignalled(c, run, i - 1);
      StepKeepsSignalled(c, run, i - 1);
    }
  }

  lemma ReachableSignalled(c: Config, s: State)
    requires Reachable(c, s)
    ensures Signalled(s)
  {
    var run: seq<State> :| IsRun(c, run) && run[|run| - 1] == s;
    RunSignalled(c, run, |run| - 1);
  }
}

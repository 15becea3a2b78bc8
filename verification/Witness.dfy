/** A run in which the node that a failed write left linked takes the answer to a later read. */
module Witness {
  import opened Bacnet
  import opened Protocol

  lemma RunOn(c: Config, run: seq<State>, s': State)
    requires IsRun(c, run) && Next(c, run[|run| - 1], s')
    ensures IsRun(c, run + [s'])
  {
    forall i | 0 <= i < |run| ensures StepAt(c, run + [s'], i) {
      if i < |run| - 1 { assert StepAt(c, run, i); }
    }
  }

  lemma Extend(c: Config, s: State, a: Action)
    requires Reachable(c, s) && Enabled(s, a)
    ensures Reachable(c, Apply(c, s, a))
  {
    var run: seq<State> :| IsRun(c, run) && run[|run| - 1] == s;
    var more := run + [Apply(c, s, a)];
    RunOn(c, run, more[|run|]);
    assert IsRun(c, more) && more[|more| - 1] == Apply(c, s, a);
  }

  lemma Moves(c: Config, s: State, t: OpId, id: nat, s': State)
    requires Reachable(c, s) && RequesterEnabled(s, t, id) && s' == RequesterStep(s, t, id, false)
    ensures Reachable(c, s')
  {
    Extend(c, s, Request(t, id, false));
  }

  /** A step that touches no table: the call's record becomes `o'`, the locks become `locks'`. */
  lemma Steps(c: Config, s: State, t: OpId, o': Op, locks': map<Mutex, Actor>)
    requires Reachable(c, s) && RequesterEnabled(s, t, 0)
    requires var o := s.ops[t];
             && !o.pc.Linking? && !o.pc.Unlinking? && !InWaiter(o.pc) && !o.pc.Sending?
             && o' == OpNext(o, InputOf(s, t, 0, false))
             && locks' == LocksNext(s.locks, Requester(t), Wants(t, o), Drops(t, o))
    ensures Reachable(c, s.(ops := s.ops[t := o'], locks := locks'))
  {
    Moves(c, s, t, 0, s.(ops := s.ops[t := o'], locks := locks'));
  }

  lemma Overwrite(ops: map<OpId, Op>, t: OpId, o: Op, o': Op)
    ensures ops[t := o][t := o'] == ops[t := o']
  {
  }

  lemma Handles(c: Config, s: State, s': State)
    requires Reachable(c, s) && s.rx != Idle && !s.rx.CSignalling? && s' == RxStep(s, None, true)
    requires RxWants(s.rx).Some? ==> RxWants(s.rx).value !in s.locks
    ensures Reachable(c, s')
  {
    Extend(c, s, Handle(None, true));
  }

  /** Call `t` runs return_data_set with nobody in its way. */
  lemma Sets(c: Config, s: State, t: OpId, s': State)
    requires Reachable(c, s) && t in s.ops && s.ops[t].pc.Starting? && s.ops[t].kind.Read? && s.locks == map[]
    requires s' == s.(ops := s.ops[t := s.ops[t].(pc := Binding)], pend := [t] + s.pend)
    ensures Reachable(c, s')
  {
    var o := s.ops[t];
    var s1 := s.(ops := s.ops[t := o.(pc := Linking)], locks := map[ListMutex := Requester(t)]);
    Moves(c, s, t, 0, s1);
    assert s1.ops[t := o.(pc := Binding)] == s.ops[t := o.(pc := Binding)];
    Moves(c, s1, t, 0, s');
  }

  lemma Links(c: Config, s: State, t: OpId, s': State)
    requires Reachable(c, s) && t in s.ops && s.ops[t].pc.Linking? && s.ops[t].kind.Write?
    requires s.locks == map[ListMutex := Requester(t)]
    requires s' == s.(ops := s.ops[t := s.ops[t].(pc := Clearing)], pend := [t] + s.pend, locks := map[])
    ensures Reachable(c, s')
  {
    Moves(c, s, t, 0, s');
  }

  lemma SetsWrite(c: Config, s: State, t: OpId, s': State)
    requires Reachable(c, s) && t in s.ops && s.ops[t].pc.Starting? && s.ops[t].kind.Write? && s.locks == map[]
    requires !s.ops[t].node.err
    requires s' == s.(ops := s.ops[t := s.ops[t].(pc := Binding)], pend := [t] + s.pend)
    ensures Reachable(c, s')
  {
    var o1, o2 := s.ops[t].(pc := Linking), s.ops[t].(pc := Clearing);
    Steps(c, s, t, o1, map[ListMutex := Requester(t)]);
    Overwrite(s.ops, t, o1, o2);
    var s2 := s.(ops := s.ops[t := o2], pend := [t] + s.pend);
    Links(c, s.(ops := s.ops[t := o1], locks := map[ListMutex := Requester(t)]), t, s2);
    Overwrite(s.ops, t, o2, s'.ops[t]);
    Steps(c, s2, t, s'.ops[t], map[]);
  }

  /** Call `t`, its device bound, sends with this id and starts to wait. */
  function Sent(o: Op, a: Address, id: nat): Op {
    o.(pc := Waiting, node := Node(id, a, o.node.err, o.node.value), sent := id, bound := true, woken := false)
  }

  lemma Binds(c: Config, s: State, t: OpId)
    requires Reachable(c, s) && t in s.ops && s.ops[t].pc.Binding? && !s.ops[t].kind.WhoIs? && s.locks == map[]
    requires s.ops[t].device <= BACNET_MAX_INSTANCE && s.ops[t].device in s.bind
    ensures Reachable(c, s.(ops := s.ops[t := Bound(s.ops[t], s.bind[s.ops[t].device])]))
  {
    Steps(c, s, t, Bound(s.ops[t], s.bind[s.ops[t].device]), map[]);
  }

  lemma LocksNode(c: Config, s: State, t: OpId, s': State)
    requires Reachable(c, s) && t in s.ops && s.ops[t].pc.NodeLock? && !s.ops[t].kind.WhoIs? && s.locks == map[]
    requires s' == s.(ops := s.ops[t := s.ops[t].(pc := ListLock)], locks := map[NodeMutex(t) := Requester(t)])
    ensures Reachable(c, s')
  {
    Steps(c, s, t, s'.ops[t], s'.locks);
  }

  lemma LocksBoth(c: Config, s: State, t: OpId, s': State)
    requires Reachable(c, s) && t in s.ops && s.ops[t].pc.NodeLock? && !s.ops[t].kind.WhoIs? && s.locks == map[]
    requires s' == s.(ops := s.ops[t := s.ops[t].(pc := Sending)],
                      locks := map[NodeMutex(t) := Requester(t), ListMutex := Requester(t)])
    ensures Reachable(c, s')
  {
    var o1 := s.ops[t].(pc := ListLock);
    var s1 := s.(ops := s.ops[t := o1], locks := map[NodeMutex(t) := Requester(t)]);
    LocksNode(c, s, t, s1);
    Overwrite(s.ops, t, o1, s'.ops[t]);
    Steps(c, s1, t, s'.ops[t], s'.locks);
  }

  lemma Stores(c: Config, s: State, t: OpId, s': State)
    requires Reachable(c, s) && t in s.ops && s.ops[t].pc.Storing?
    requires s.locks == map[NodeMutex(t) := Requester(t), ListMutex := Requester(t)]
    requires var o := s.ops[t];
             s' == s.(ops := s.ops[t := o.(pc := Entering, node := o.node.(id := o.sent))],
                      locks := map[NodeMutex(t) := Requester(t)])
    ensures Reachable(c, s')
  {
    Steps(c, s, t, s'.ops[t], s'.locks);
  }

  lemma StartsWait(c: Config, s: State, t: OpId, s': State)
    requires Reachable(c, s) && t in s.ops && s.ops[t].pc.Entering? && s.locks == map[NodeMutex(t) := Requester(t)]
    requires s' == s.(ops := s.ops[t := s.ops[t].(pc := Waiting, woken := false)], locks := map[])
    ensures Reachable(c, s')
  {
    Steps(c, s, t, s'.ops[t], map[]);
  }

  lemma Sends(c: Config, s: State, t: OpId, id: nat, s': State)
    requires Reachable(c, s) && t in s.ops && s.ops[t].pc.Sending? && FreshId(s, id) && id != 0
    requires s' == s.(ops := s.ops[t := s.ops[t].(pc := Storing, sent := id)], outstanding := s.outstanding[id := t])
    ensures Reachable(c, s')
  {
    Moves(c, s, t, id, s');
  }

  lemma SendsAndWaits(c: Config, s: State, t: OpId, id: nat, s': State)
    requires Reachable(c, s) && t in s.ops && s.ops[t].pc.Sending? && s.ops[t].bound && FreshId(s, id) && id != 0
    requires s.locks == map[NodeMutex(t) := Requester(t), ListMutex := Requester(t)]
    requires s' == s.(ops := s.ops[t := Sent(s.ops[t], s.ops[t].node.target, id)], locks := map[],
                      outstanding := s.outstanding[id := t])
    ensures Reachable(c, s')
  {
    var o := s.ops[t];
    var o1 := o.(pc := Storing, sent := id);
    var o2 := o1.(pc := Entering, node := o.node.(id := id));
    var s1 := s.(ops := s.ops[t := o1], outstanding := s.outstanding[id := t]);
    Sends(c, s, t, id, s1);
    Overwrite(s.ops, t, o1, o2);
    var s2 := s1.(ops := s.ops[t := o2], locks := map[NodeMutex(t) := Requester(t)]);
    Stores(c, s1, t, s2);
    Overwrite(s.ops, t, o2, s'.ops[t]);
    StartsWait(c, s2, t, s');
  }

  lemma WakesUp(c: Config, s: State, t: OpId, s': State)
    requires Reachable(c, s) && t in s.ops && s.ops[t].pc.Waiting? && s.locks == map[]
    requires s' == s.(ops := s.ops[t := s.ops[t].(pc := Woken)], locks := map[NodeMutex(t) := Requester(t)])
    ensures Reachable(c, s')
  {
    Steps(c, s, t, s'.ops[t], s'.locks);
  }

  lemma Unlocks(c: Config, s: State, t: OpId, s': State)
    requires Reachable(c, s) && t in s.ops && s.ops[t].pc.Woken? && !s.ops[t].kind.WhoIs?
    requires s.locks == map[NodeMutex(t) := Requester(t)]
    requires s' == s.(ops := s.ops[t := s.ops[t].(pc := Checking)], locks := map[])
    ensures Reachable(c, s')
  {
    Steps(c, s, t, s'.ops[t], map[]);
  }

  /** A write whose node carries an error wakes up and returns 1, leaving the node linked. */
  lemma Leaks(c: Config, s: State, t: OpId, s': State)
    requires Reachable(c, s) && t in s.ops && s.ops[t].pc.Waiting? && s.ops[t].kind.Write? && s.ops[t].node.err
    requires s.locks == map[]
    requires s' == s.(ops := s.ops[t := s.ops[t].(pc := Leaked, result := Status(1), checkedAt := |s.log|)])
    ensures Reachable(c, s')
  {
    var o1, o2 := s.ops[t].(pc := Woken), s.ops[t].(pc := Checking);
    var s1 := s.(ops := s.ops[t := o1], locks := map[NodeMutex(t) := Requester(t)]);
    WakesUp(c, s, t, s1);
    Overwrite(s.ops, t, o1, o2);
    Unlocks(c, s1, t, s.(ops := s.ops[t := o2]));
    Overwrite(s.ops, t, o2, s'.ops[t]);
    Steps(c, s.(ops := s.ops[t := o2]), t, s'.ops[t], map[]);
  }

  /** A message is received and looked up. */
  lemma Looks(c: Config, s: State, m: Msg, n: OpId, s': State)
    requires Reachable(c, s) && s.rx == Idle && Enabled(s, Receive(m)) && s.locks == map[]
    requires Lookup(s.ops, s.pend, m.id) == Some(n) && s' == s.(rx := Judging(m, n))
    ensures Reachable(c, s')
  {
    var s1 := s.(rx := GetLock(m));
    Extend(c, s, Receive(m));
    var s2 := s.(rx := Getting(m), locks := map[ListMutex := Receiver]);
    Handles(c, s1, s2);
    Handles(c, s2, s');
  }

  /** The rest of a failure handler: errorDetected is set and the waiting call is woken. */
  lemma Rejects(c: Config, s: State, s': State)
    requires Reachable(c, s) && s.rx.Judging? && IsFailure(s.rx.msg) && s.locks == map[]
    requires s.rx.node in s.ops && s.ops[s.rx.node].node.target == s.rx.msg.src && s.ops[s.rx.node].pc.Waiting?
    requires var n, o := s.rx.node, s.ops[s.rx.node];
             s' == s.(rx := Idle, log := s.log + [Recorded(n, s.rx.msg)],
                      ops := s.ops[n := o.(node := o.node.(err := true), woken := true)])
    ensures Reachable(c, s')
  {
    var m, n, o := s.rx.msg, s.rx.node, s.ops[s.rx.node];
    var failed := o.(node := o.node.(err := true));
    var s1 := s.(rx := LockingNode(m, n), log := s.log + [Recorded(n, m)], ops := s.ops[n := failed]);
    Handles(c, s, s1);
    Overwrite(s.ops, n, failed, failed.(woken := true));
    SignalsNode(c, s1, s');
  }

  lemma SignalsNode(c: Config, s: State, s': State)
    requires Reachable(c, s) && s.rx.LockingNode? && IsFailure(s.rx.msg) && s.locks == map[]
    requires s.rx.node in s.ops && s.ops[s.rx.node].pc.Waiting?
    requires s' == s.(rx := Idle, ops := s.ops[s.rx.node := s.ops[s.rx.node].(woken := true)])
    ensures Reachable(c, s')
  {
    var m, n := s.rx.msg, s.rx.node;
    var s1 := s.(rx := Signalling(m, n), locks := map[NodeMutex(n) := Receiver]);
    Handles(c, s, s1);
    var s2 := s1.(rx := Releasing(m, n), ops := s'.ops);
    Handles(c, s1, s2);
    Handles(c, s2, s');
  }

  // ---- The run ----

  const HERE := Address(6, Mac(10, 0, 0, 1, 0xBA, 0xC0), 0, [])

  const START := Config(map[7 := HERE], 0)

  /** Call 1 reads, call 0 writes; both nodes are linked, that of the write in front. */
  function BothLinked(): State {
    State(map[1 := NewOp(START, Read, 7).(pc := Binding), 0 := NewOp(START, Write, 7).(pc := Binding)],
          map[], [0, 1], [], START.bind, map[], Idle, [], Discovery([], [], [], map[]))
  }

  lemma BothLinkedReachable()
    ensures Reachable(START, BothLinked())
  {
    var s0 := State(map[], map[], [], [], START.bind, map[], Idle, [], Discovery([], [], [], map[]));
    assert IsRun(START, [s0]) && [s0][|[s0]| - 1] == s0;
    var s1 := s0.(ops := map[1 := NewOp(START, Read, 7)]);
    Extend(START, s0, Call(1, Read, 7));
    var s2 := s0.(ops := map[1 := NewOp(START, Read, 7).(pc := Binding)], pend := [1]);
    assert s1.ops[1 := NewOp(START, Read, 7).(pc := Binding)] == s2.ops;
    Sets(START, s1, 1, s2);
    var s3 := s2.(ops := s2.ops[0 := NewOp(START, Write, 7)]);
    Extend(START, s2, Call(0, Write, 7));
    assert s3.ops[0 := NewOp(START, Write, 7).(pc := Binding)] == BothLinked().ops;
    assert [0] + [1] == [0, 1];
    SetsWrite(START, s3, 0, BothLinked());
  }

  const REJECTION := Msg(Reject, HERE, 5, None, Some(0))

  /** The write is sent with id 5, rejected, and leaves its node; its id is free again. */
  function FailedWrite(): Op {
    var o := Sent(NewOp(START, Write, 7), HERE, 5);
    o.(pc := Leaked, node := o.node.(err := true), woken := true, result := Status(1), checkedAt := 1)
  }

  function WriteLeaked(): State {
    BothLinked().(ops := map[1 := NewOp(START, Read, 7).(pc := Binding), 0 := FailedWrite()],
                  log := [Recorded(0, REJECTION)])
  }

  /** From the bind request to the wait. */
  lemma BindsAndSends(s: State, t: OpId, id: nat, s': State)
    requires Reachable(START, s) && t in s.ops && s.ops[t].pc.Binding? && !s.ops[t].kind.WhoIs?
    requires s.ops[t].device == 7 && s.bind == START.bind && s.locks == map[] && FreshId(s, id) && id != 0
    requires s' == s.(ops := s.ops[t := Sent(s.ops[t], HERE, id)], outstanding := s.outstanding[id := t])
    ensures Reachable(START, s')
  {
    var b := Bound(s.ops[t], HERE);
    Binds(START, s, t);
    var s1 := s.(ops := s.ops[t := b.(pc := Sending)],
                 locks := map[NodeMutex(t) := Requester(t), ListMutex := Requester(t)]);
    Overwrite(s.ops, t, b, b.(pc := Sending));
    LocksBoth(START, s.(ops := s.ops[t := b]), t, s1);
    Overwrite(s.ops, t, b.(pc := Sending), s'.ops[t]);
    SendsAndWaits(START, s1, t, id, s');
  }

  lemma WriteWaits(s: State)
    requires s == BothLinked().(ops := map[1 := NewOp(START, Read, 7).(pc := Binding),
                                           0 := Sent(NewOp(START, Write, 7), HERE, 5)], outstanding := map[5 := 0])
    ensures Reachable(START, s)
  {
    BothLinkedReachable();
    assert BothLinked().ops[0 := s.ops[0]] == s.ops;
    BindsAndSends(BothLinked(), 0, 5, s);
  }

  /** The waiting write once its rejection has been handled. */
  function WriteRejected(): State {
    var o := Sent(NewOp(START, Write, 7), HERE, 5);
    BothLinked().(ops := map[1 := NewOp(START, Read, 7).(pc := Binding),
                             0 := o.(node := o.node.(err := true), woken := true)],
                  outstanding := map[5 := 0], log := [Recorded(0, REJECTION)])
  }

  lemma WriteRejectedReachable()
    ensures Reachable(START, WriteRejected())
  {
    var o := Sent(NewOp(START, Write, 7), HERE, 5);
    var s0 := BothLinked().(ops := map[1 := NewOp(START, Read, 7).(pc := Binding), 0 := o], outstanding := map[5 := 0]);
    WriteWaits(s0);
    assert Ids(s0.ops, s0.pend)[0] == 5;
    Looks(START, s0, REJECTION, 0, s0.(rx := Judging(REJECTION, 0)));
    assert s0.ops[0 := WriteRejected().ops[0]] == WriteRejected().ops;
    Rejects(START, s0.(rx := Judging(REJECTION, 0)), WriteRejected());
  }

  lemma WriteLeakedReachable()
    ensures Reachable(START, WriteLeaked())
  {
    WriteRejectedReachable();
    var s1 := WriteRejected();
    var s2 := s1.(ops := WriteLeaked().ops);
    assert s1.ops[0 := FailedWrite()] == s2.ops;
    Leaks(START, s1, 0, s2);
    assert s2.outstanding - {5} == map[];
    Extend(START, s2, Expire(5));
  }

  const ANSWER := Msg(ReadAck, HERE, 5, Some(Boolean(true)), Some(1))

  /** A state of a run, with distinct live ids, in which the answer to a waiting read is in the hands
      of a handler that works on another node: that of a write that has already returned. */
  lemma AnswerMisdirected()
    ensures exists s :: Reachable(START, s) && s.rx == Judging(ANSWER, 0) && s.ops.Keys == {0, 1}
                        && s.ops[1].kind.Read? && s.ops[1].pc.Waiting? && s.ops[1].node.id == ANSWER.id
                        && s.ops[1].node.target == ANSWER.src && s.ops[0].pc.Leaked? && Live(s.ops[1])
  {
    WriteLeakedReachable();
    var s0 := WriteLeaked();
    var s2 := s0.(ops := s0.ops[1 := Sent(s0.ops[1], HERE, 5)], outstanding := map[5 := 1]);
    BindsAndSends(s0, 1, 5, s2);
    assert Ids(s2.ops, s2.pend)[0] == 5;
    Looks(START, s2, ANSWER, 0, s2.(rx := Judging(ANSWER, 0)));
    assert s2.ops.Keys == {0, 1};
  }

  /** A state of a run in which a write that was sent has been given the result 0 although no response
      was ever recorded: its wait timed out, and wait_for_data did not notice. */
  lemma UnansweredWriteSucceeds()
    ensures exists s :: Reachable(START, s) && s.log == [] && 0 in s.ops && s.ops[0].kind.Write? && s.ops[0].bound
                        && s.ops[0].sent != 0 && s.ops[0].pc.UnlinkLock? && s.ops[0].result == Status(0)
  {
    var o := Sent(NewOp(START, Write, 7), HERE, 5);
    var s0 := BothLinked().(ops := map[1 := NewOp(START, Read, 7).(pc := Binding), 0 := o], outstanding := map[5 := 0]);
    WriteWaits(s0);
    var o1, o2 := o.(pc := Woken), o.(pc := Checking);
    var s1 := s0.(ops := s0.ops[0 := o1], locks := map[NodeMutex(0) := Requester(0)]);
    WakesUp(START, s0, 0, s1);
    Overwrite(s0.ops, 0, o1, o2);
    var s2 := s0.(ops := s0.ops[0 := o2]);
    Unlocks(START, s1, 0, s2);
    Steps(START, s2, 0, o2.(pc := UnlinkLock, result := Status(0)), map[]);
  }
}

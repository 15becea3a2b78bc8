/** Runs that show where the guarantees of the protocol end: a read that gets a block before it is
    decoded, an I-Am that wakes a call without binding its device, and one that misses its call. */
module Races {
  import opened Bacnet
  import opened Lists
  import opened Protocol
  import opened Witness

  // ---- A value fetched between its allocation and its decoding ----

  /** A read on an idle driver, sent with id 5 to the device bound at HERE. */
  function OneRead(): State {
    State(map[1 := Sent(NewOp(START, Read, 7), HERE, 5)], map[], [1], [], START.bind, map[5 := 1], Idle, [],
          Discovery([], [], [], map[]))
  }

  lemma OneReadReachable()
    ensures Reachable(START, OneRead())
  {
    var o := NewOp(START, Read, 7);
    var s0 := OneRead().(ops := map[], pend := [], outstanding := map[]);
    assert IsRun(START, [s0]) && [s0][|[s0]| - 1] == s0;
    Extend(START, s0, Call(1, Read, 7));
    var s1, s2 := s0.(ops := map[1 := o]), s0.(ops := map[1 := o.(pc := Binding)], pend := [1]);
    assert s1.ops[1 := o.(pc := Binding)] == s2.ops;
    Sets(START, s1, 1, s2);
    assert s2.ops[1 := OneRead().ops[1]] == OneRead().ops;
    BindsAndSends(s2, 1, 5, OneRead());
  }

  /** The wait of a read ends by itself. */
  lemma ReadTimesOut(c: Config, s: State, t: OpId, s': State)
    requires Reachable(c, s) && t in s.ops && s.ops[t].pc.Waiting? && s.ops[t].kind.Read? && s.locks == map[]
    requires s' == s.(ops := s.ops[t := s.ops[t].(pc := Fetching)])
    ensures Reachable(c, s')
  {
    var o1, o2 := s.ops[t].(pc := Woken), s.ops[t].(pc := Checking);
    var s1 := s.(ops := s.ops[t := o1], locks := map[NodeMutex(t) := Requester(t)]);
    WakesUp(c, s, t, s1);
    Overwrite(s.ops, t, o1, o2);
    Unlocks(c, s1, t, s.(ops := s.ops[t := o2]));
    Overwrite(s.ops, t, o2, s'.ops[t]);
    Steps(c, s.(ops := s.ops[t := o2]), t, s'.ops[t], map[]);
  }

  /** The handler of an ACK locks the node of its read and allocates the value. */
  lemma Allocates(c: Config, s: State, s': State)
    requires Reachable(c, s) && s.rx.Judging? && s.rx.msg.service.ReadAck? && s.locks == map[] && s.rx.node in s.ops
    requires var node := s.ops[s.rx.node].node; node.value.None? && SetsValue(s.rx.msg, node)
    requires var m, n, o := s.rx.msg, s.rx.node, s.ops[s.rx.node];
             s' == s.(rx := Decoding(m, n), log := s.log + [Recorded(n, m)], locks := map[NodeMutex(n) := Receiver],
                      ops := s.ops[n := o.(node := o.node.(value := Some(Undecoded)))])
    ensures Reachable(c, s')
  {
    var m, n := s.rx.msg, s.rx.node;
    var s1 := s.(rx := LockingNode(m, n));
    Handles(c, s, s1);
    var s2 := s1.(rx := Delivering(m, n), locks := map[NodeMutex(n) := Receiver]);
    Handles(c, s1, s2);
    Handles(c, s2, s');
  }

  /** A state of a run in which a read has been given a block that is not decoded: its wait timed out
      just before the handler of its answer took the node, and it fetched just after the allocation. */
  lemma UndecodedReturned()
    ensures exists x :: Reachable(START, x) && x.rx == Decoding(ANSWER, 1) && 1 in x.ops && x.ops[1].kind.Read?
                        && x.ops[1].pc.UnlinkLock? && x.ops[1].result == Got(Some(Undecoded))
  {
    OneReadReachable();
    var s0 := OneRead();
    assert Ids(s0.ops, s0.pend)[0] == 5;
    var s1 := s0.(rx := Judging(ANSWER, 1));
    Looks(START, s0, ANSWER, 1, s1);
    var o2 := s0.ops[1].(pc := Fetching);
    var s2 := s1.(ops := s1.ops[1 := o2]);
    ReadTimesOut(START, s1, 1, s2);
    var o3 := o2.(node := o2.node.(value := Some(Undecoded)));
    var s3 := s2.(rx := Decoding(ANSWER, 1), log := [Recorded(1, ANSWER)], locks := map[NodeMutex(1) := Receiver],
                  ops := s2.ops[1 := o3]);
    assert [] + [Recorded(1, ANSWER)] == s3.log;
    Allocates(START, s2, s3);
    FetchesUndecoded(s3, o3);
  }

  lemma FetchesUndecoded(s: State, o: Op)
    requires Reachable(START, s) && 1 in s.ops && s.ops[1] == o && o.pc.Fetching? && o.node.value == Some(Undecoded)
    requires s.rx == Decoding(ANSWER, 1) && o.kind.Read?
    ensures exists x :: Reachable(START, x) && x.rx == Decoding(ANSWER, 1) && 1 in x.ops && x.ops[1].kind.Read?
                        && x.ops[1].pc.UnlinkLock? && x.ops[1].result == Got(Some(Undecoded))
  {
    var o' := o.(pc := UnlinkLock, result := Got(Some(Undecoded)), checkedAt := |s.log|);
    Steps(START, s, 1, o', s.locks);
    var s' := s.(ops := s.ops[1 := o']);
    assert s'.ops[1] == o' && s' == s.(ops := s.ops[1 := o'], locks := s.locks);
  }

  // ---- The wait for an I-Am ----

  /** A step inside the wait of `find_and_bind`. */
  lemma WaitsOnward(c: Config, s: State, t: OpId, o': Op, cond': seq<OpId>, locks': map<Mutex, Actor>)
    requires Reachable(c, s) && RequesterEnabled(s, t, 0) && InWaiter(s.ops[t].pc)
    requires var o := s.ops[t];
             && o' == WaiterNext(o, InputOf(s, t, 0, false)) && cond' == CondNext(s.ops, s.cond, t, o)
             && locks' == LocksNext(s.locks, Requester(t), Wants(t, o), Drops(t, o))
    ensures Reachable(c, s.(ops := s.ops[t := o'], cond := cond', locks := locks'))
  {
    Moves(c, s, t, 0, s.(ops := s.ops[t := o'], cond := cond', locks := locks'));
  }

  lemma AsksForWaiter(c: Config, s: State, t: OpId, s': State)
    requires Reachable(c, s) && t in s.ops && s.ops[t].pc.Binding? && s.locks == map[]
    requires s.ops[t].device <= BACNET_MAX_INSTANCE && s.ops[t].device !in s.bind
    requires s' == s.(ops := s.ops[t := s.ops[t].(pc := CondAdding)], locks := map[CondListMutex := Requester(t)])
    ensures Reachable(c, s')
  {
    var o1 := s.ops[t].(pc := CondAddLock);
    Steps(c, s, t, o1, map[]);
    Overwrite(s.ops, t, o1, s'.ops[t]);
    WaitsOnward(c, s.(ops := s.ops[t := o1]), t, s'.ops[t], s.cond, s'.locks);
  }

  /** Call `t`, its device not bound, adds a waiter. */
  lemma AddsWaiter(c: Config, s: State, t: OpId, s': State)
    requires Reachable(c, s) && t in s.ops && s.ops[t].pc.Binding? && s.locks == map[]
    requires s.ops[t].device <= BACNET_MAX_INSTANCE && s.ops[t].device !in s.bind
    requires s' == s.(ops := s.ops[t := s.ops[t].(pc := CondGetLock)], cond := [t] + s.cond)
    ensures Reachable(c, s')
  {
    var o1 := s.ops[t].(pc := CondAdding);
    var s1 := s.(ops := s.ops[t := o1], locks := map[CondListMutex := Requester(t)]);
    AsksForWaiter(c, s, t, s1);
    Overwrite(s.ops, t, o1, s'.ops[t]);
    WaitsOnward(c, s1, t, s'.ops[t], s'.cond, map[]);
  }

  lemma SameLookup(ops: map<OpId, Op>, cond: seq<OpId>, t: OpId, o': Op, d: Device)
    requires t in ops && o'.device == ops[t].device
    ensures CondIndex(ops[t := o'], cond, d) == CondIndex(ops, cond, d)
  {
    assert Devices(ops[t := o'], cond) == Devices(ops, cond);
  }

  /** It gets the first waiter of its device. */
  lemma GetsWaiter(c: Config, s: State, t: OpId, n: OpId, s': State)
    requires Reachable(c, s) && t in s.ops && s.ops[t].pc.CondGetLock? && s.locks == map[]
    requires CondLookup(s.ops, s.cond, s.ops[t].device) == Some(n)
    requires s' == s.(ops := s.ops[t := s.ops[t].(pc := CondLock, waiter := n)])
    ensures Reachable(c, s')
  {
    var o1 := s.ops[t].(pc := CondGetting);
    var s1 := s.(ops := s.ops[t := o1], locks := map[CondListMutex := Requester(t)]);
    WaitsOnward(c, s, t, o1, s.cond, s1.locks);
    Overwrite(s.ops, t, o1, s'.ops[t]);
    SameLookup(s.ops, s.cond, t, o1, s.ops[t].device);
    WaitsOnward(c, s1, t, s'.ops[t], s.cond, map[]);
  }

  lemma Asks(c: Config, s: State, t: OpId, s': State)
    requires Reachable(c, s) && t in s.ops && s.ops[t].pc.CondLock? && s.locks == map[]
    requires s' == s.(ops := s.ops[t := s.ops[t].(pc := CondEntering)],
                      locks := map[CondMutex(s.ops[t].waiter) := Requester(t)])
    ensures Reachable(c, s')
  {
    var o1 := s.ops[t].(pc := CondSending);
    WaitsOnward(c, s, t, o1, s.cond, s'.locks);
    Overwrite(s.ops, t, o1, s'.ops[t]);
    WaitsOnward(c, s.(ops := s.ops[t := o1], locks := s'.locks), t, s'.ops[t], s.cond, s'.locks);
  }

  /** It sends its Who-Is and waits. */
  lemma AsksAndWaits(c: Config, s: State, t: OpId, s': State)
    requires Reachable(c, s) && t in s.ops && s.ops[t].pc.CondLock? && s.locks == map[]
    requires s' == s.(ops := s.ops[t := s.ops[t].(pc := CondWaiting, woken := false)])
    ensures Reachable(c, s')
  {
    var o1 := s.ops[t].(pc := CondEntering);
    var s1 := s.(ops := s.ops[t := o1], locks := map[CondMutex(o1.waiter) := Requester(t)]);
    Asks(c, s, t, s1);
    Overwrite(s.ops, t, o1, s'.ops[t]);
    WaitsOnward(c, s1, t, s'.ops[t], s.cond, map[]);
  }

  /** Its wait ends by itself. */
  lemma StopsWaiting(c: Config, s: State, t: OpId, s': State)
    requires Reachable(c, s) && t in s.ops && s.ops[t].pc.CondWaiting? && s.locks == map[]
    requires s' == s.(ops := s.ops[t := s.ops[t].(pc := CondDropLock)])
    ensures Reachable(c, s')
  {
    var o := s.ops[t];
    var o1 := o.(pc := CondWoken);
    var held := map[CondMutex(o.waiter) := Requester(t)];
    WaitsOnward(c, s, t, o1, s.cond, held);
    Overwrite(s.ops, t, o1, s'.ops[t]);
    WaitsOnward(c, s.(ops := s.ops[t := o1], locks := held), t, s'.ops[t], s.cond, map[]);
  }

  lemma Removes(c: Config, s: State, t: OpId, s': State)
    requires Reachable(c, s) && t in s.ops && s.ops[t].pc.CondDropping? && s.locks == map[CondListMutex := Requester(t)]
    requires var i := CondIndex(s.ops, s.cond, s.ops[t].device);
             i < |s.cond| && s' == s.(ops := s.ops[t := s.ops[t].(pc := BindChecking)], cond := RemoveAt(s.cond, i),
                                      locks := map[])
    ensures Reachable(c, s')
  {
    WaitsOnward(c, s, t, s'.ops[t], s'.cond, map[]);
  }

  /** It removes the first waiter of its device. */
  lemma DropsFirst(c: Config, s: State, t: OpId, s': State)
    requires Reachable(c, s) && t in s.ops && s.ops[t].pc.CondDropLock? && s.locks == map[]
    requires var i := CondIndex(s.ops, s.cond, s.ops[t].device);
             i < |s.cond| && s' == s.(ops := s.ops[t := s.ops[t].(pc := BindChecking)], cond := RemoveAt(s.cond, i))
    ensures Reachable(c, s')
  {
    var o1 := s.ops[t].(pc := CondDropping);
    var s1 := s.(ops := s.ops[t := o1], locks := map[CondListMutex := Requester(t)]);
    WaitsOnward(c, s, t, o1, s.cond, s1.locks);
    Overwrite(s.ops, t, o1, s'.ops[t]);
    SameLookup(s.ops, s.cond, t, o1, s.ops[t].device);
    Removes(c, s1, t, s');
  }

  lemma GivesUp(c: Config, s: State, t: OpId, s': State)
    requires Reachable(c, s) && t in s.ops && s.ops[t].pc.Rebinding? && s.ops[t].kind.Read? && s.locks == map[]
    requires !s.ops[t].node.err && s.ops[t].device !in s.bind
    requires s' == s.(ops := s.ops[t := s.ops[t].(pc := UnlinkLock, result := Got(None))])
    ensures Reachable(c, s')
  {
    Steps(c, s, t, s'.ops[t], map[]);
  }

  /** A read whose device is still not bound fails. */
  lemma FailsToBind(c: Config, s: State, t: OpId, s': State)
    requires Reachable(c, s) && t in s.ops && s.ops[t].pc.BindChecking? && s.ops[t].kind.Read? && s.locks == map[]
    requires !s.ops[t].node.err && s.ops[t].device !in s.bind
    requires s' == s.(ops := s.ops[t := s.ops[t].(pc := UnlinkLock, result := Got(None))])
    ensures Reachable(c, s')
  {
    var o1 := s.ops[t].(pc := Rebinding);
    Steps(c, s, t, o1, map[]);
    Overwrite(s.ops, t, o1, s'.ops[t]);
    GivesUp(c, s.(ops := s.ops[t := o1]), t, s');
  }

  lemma Unlinks(c: Config, s: State, t: OpId, s': State)
    requires Reachable(c, s) && t in s.ops && s.ops[t].pc.Unlinking? && t in s.pend
    requires s' == s.(ops := s.ops[t := s.ops[t].(pc := Done)], pend := PendNext(s.pend, t, Unlinking),
                      locks := s.locks - {ListMutex})
    ensures Reachable(c, s')
  {
    UnlinkStep(s.ops[t], InputOf(s, t, 0, false));
    Moves(c, s, t, 0, s');
  }

  lemma UnlinkStep(o: Op, e: Input)
    requires o.pc.Unlinking? && e.linked
    ensures OpNext(o, e) == o.(pc := Done)
  {
  }

  lemma Returns(c: Config, s: State, t: OpId, s': State)
    requires Reachable(c, s) && t in s.ops && s.ops[t].pc.UnlinkLock? && s.locks == map[] && t in s.pend
    requires s' == s.(ops := s.ops[t := s.ops[t].(pc := Done)], pend := PendNext(s.pend, t, Unlinking))
    ensures Reachable(c, s')
  {
    var o1 := s.ops[t].(pc := Unlinking);
    var s1 := s.(ops := s.ops[t := o1], locks := map[ListMutex := Requester(t)]);
    LocksToUnlink(c, s, t, s1);
    Overwrite(s.ops, t, o1, s'.ops[t]);
    assert s1.locks - {ListMutex} == map[];
    Unlinks(c, s1, t, s');
  }

  lemma LocksToUnlink(c: Config, s: State, t: OpId, s': State)
    requires Reachable(c, s) && t in s.ops && s.ops[t].pc.UnlinkLock? && s.locks == map[]
    requires s' == s.(ops := s.ops[t := s.ops[t].(pc := Unlinking)], locks := map[ListMutex := Requester(t)])
    ensures Reachable(c, s')
  {
    Steps(c, s, t, s'.ops[t], s'.locks);
  }

  /** An I-Am is received and finds a waiter. */
  lemma Finds(c: Config, s: State, a: IAm, n: OpId, s': State)
    requires Reachable(c, s) && s.rx == Idle && s.locks == map[]
    requires CondLookup(s.ops, s.cond, a.device) == Some(n) && s' == s.(rx := CTesting(a, n))
    ensures Reachable(c, s')
  {
    Extend(c, s, ReceiveIAm(a));
    var s2 := s.(rx := CGetting(a), locks := map[CondListMutex := Receiver]);
    Handles(c, s.(rx := CGetLock(a)), s2);
    FindsFirst(c, s2, s');
  }

  lemma FindsFirst(c: Config, s: State, s': State)
    requires Reachable(c, s) && s.rx.CGetting? && s.locks == map[CondListMutex := Receiver]
    requires var n := CondLookup(s.ops, s.cond, s.rx.iam.device);
             n.Some? && s' == s.(rx := CTesting(s.rx.iam, n.value), locks := map[])
    ensures Reachable(c, s')
  {
    Handles(c, s, s');
  }

  // ---- Two reads of one device ----

  const COLD := Config(map[], 0)

  const I_AM := IAm(7, HERE)

  /** A read of device 7 in `find_and_bind`. */
  function Asking(pc: PC, waiter: OpId): Op {
    NewOp(COLD, Read, 7).(pc := pc, waiter := waiter)
  }

  function Two(o0: Op, o1: Op, cond: seq<OpId>): State {
    State(map[0 := o0, 1 := o1], map[], [1, 0], cond, map[], map[], Idle, [], Discovery([], [], [], map[]))
  }

  lemma BothBinding()
    ensures Reachable(COLD, Two(Asking(Binding, 0), Asking(Binding, 0), []))
  {
    var o, s := NewOp(COLD, Read, 7), Two(Asking(Binding, 0), Asking(Binding, 0), []);
    var s0 := s.(ops := map[], pend := []);
    assert IsRun(COLD, [s0]) && [s0][|[s0]| - 1] == s0;
    Extend(COLD, s0, Call(0, Read, 7));
    var s1, s2 := s0.(ops := map[0 := o]), s0.(ops := map[0 := o.(pc := Binding)], pend := [0]);
    assert s1.ops[0 := o.(pc := Binding)] == s2.ops;
    Sets(COLD, s1, 0, s2);
    Extend(COLD, s2, Call(1, Read, 7));
    var s3 := s2.(ops := s2.ops[1 := o]);
    assert s3.ops[1 := o.(pc := Binding)] == s.ops;
    assert [1] + [0] == s.pend;
    Sets(COLD, s3, 1, s);
  }

  /** What a lookup of device 7 finds is the first waiter. */
  lemma FirstWaiter(s: State, n: OpId)
    requires |s.cond| > 0 && s.cond[0] == n && n in s.ops && s.ops[n].device == 7
    ensures CondIndex(s.ops, s.cond, 7) == 0 && CondLookup(s.ops, s.cond, 7) == Some(n)
  {
    assert Devices(s.ops, s.cond)[0] == 7;
  }

  /** Both have added their waiters, that of read 1 in front. */
  lemma BothAdded()
    ensures Reachable(COLD, Two(Asking(CondGetLock, 0), Asking(CondGetLock, 0), [1, 0]))
  {
    BothBinding();
    var b, g := Asking(Binding, 0), Asking(CondGetLock, 0);
    assert map[0 := b, 1 := b][0 := g] == map[0 := g, 1 := b] && [0] + [] == [0];
    AddsWaiter(COLD, Two(b, b, []), 0, Two(g, b, [0]));
    assert map[0 := g, 1 := b][1 := g] == map[0 := g, 1 := g] && [1] + [0] == [1, 0];
    AddsWaiter(COLD, Two(g, b, [0]), 1, Two(g, g, [1, 0]));
  }

  /** Read 0 waits on the waiter of read 1. */
  lemma WaitsOnOther()
    ensures Reachable(COLD, Two(Asking(CondWaiting, 1), Asking(CondGetLock, 0), [1, 0]))
  {
    BothAdded();
    var g, l, w := Asking(CondGetLock, 0), Asking(CondLock, 1), Asking(CondWaiting, 1);
    FirstWaiter(Two(g, g, [1, 0]), 1);
    assert map[0 := g, 1 := g][0 := l] == map[0 := l, 1 := g];
    GetsWaiter(COLD, Two(g, g, [1, 0]), 0, 1, Two(l, g, [1, 0]));
    assert map[0 := l, 1 := g][0 := w] == map[0 := w, 1 := g];
    AsksAndWaits(COLD, Two(l, g, [1, 0]), 0, Two(w, g, [1, 0]));
  }

  /** It times out and removes that waiter. */
  lemma RemovesOther()
    ensures Reachable(COLD, Two(Asking(BindChecking, 1), Asking(CondGetLock, 0), [0]))
  {
    WaitsOnOther();
    var g, w, l, b := Asking(CondGetLock, 0), Asking(CondWaiting, 1), Asking(CondDropLock, 1), Asking(BindChecking, 1);
    assert map[0 := w, 1 := g][0 := l] == map[0 := l, 1 := g];
    StopsWaiting(COLD, Two(w, g, [1, 0]), 0, Two(l, g, [1, 0]));
    FirstWaiter(Two(l, g, [1, 0]), 1);
    assert map[0 := l, 1 := g][0 := b] == map[0 := b, 1 := g] && RemoveAt([1, 0], 0) == [0];
    DropsFirst(COLD, Two(l, g, [1, 0]), 0, Two(b, g, [0]));
  }

  /** Read 0 has returned and read 1 is in `find_and_bind`; the waiter of read 0 is linked. */
  function OneLeft(o1: Op): State {
    Two(Asking(Done, 1).(result := Got(None)), o1, [0]).(pend := [1])
  }

  lemma OtherFails()
    ensures Reachable(COLD, Two(Asking(UnlinkLock, 1).(result := Got(None)), Asking(CondGetLock, 0), [0]))
  {
    RemovesOther();
    var g, b, u := Asking(CondGetLock, 0), Asking(BindChecking, 1), Asking(UnlinkLock, 1).(result := Got(None));
    assert map[0 := b, 1 := g][0 := u] == map[0 := u, 1 := g];
    FailsToBind(COLD, Two(b, g, [0]), 0, Two(u, g, [0]));
  }

  lemma OnlyOneLinked()
    ensures PendNext([1, 0], 0, Unlinking) == [1]
  {
    assert [1, 0][1] == 0 && [1, 0][0] != 0;
    IndexOfIs([1, 0], 0, 1);
    assert RemoveAt([1, 0], 1) == [1];
  }

  lemma OtherReturns()
    ensures Reachable(COLD, OneLeft(Asking(CondGetLock, 0)))
  {
    OtherFails();
    OnlyOneLinked();
    var g, u := Asking(CondGetLock, 0), Asking(UnlinkLock, 1).(result := Got(None));
    assert map[0 := u, 1 := g][0 := u.(pc := Done)] == OneLeft(g).ops;
    Returns(COLD, Two(u, g, [0]), 0, OneLeft(g));
  }

  /** A state of a run in which the I-Am handler is about to test an address in the frame of a call
      that has returned, and a call waits on that waiter. */
  lemma StaleTest()
    ensures Reachable(COLD, OneLeft(Asking(CondWaiting, 0)).(rx := CTesting(I_AM, 0)))
  {
    OtherReturns();
    var g, l, w := Asking(CondGetLock, 0), Asking(CondLock, 0), Asking(CondWaiting, 0);
    FirstWaiter(OneLeft(g), 0);
    assert OneLeft(g).ops[1 := l] == OneLeft(l).ops;
    GetsWaiter(COLD, OneLeft(g), 1, 0, OneLeft(l));
    assert OneLeft(l).ops[1 := w] == OneLeft(w).ops;
    AsksAndWaits(COLD, OneLeft(l), 1, OneLeft(w));
    FirstWaiter(OneLeft(w), 0);
    Finds(COLD, OneLeft(w), I_AM, 0, OneLeft(w).(rx := CTesting(I_AM, 0)));
  }

  /** The handler passes over the test and signals. */
  lemma SignalsStale(c: Config, s: State, u: OpId, s': State)
    requires Reachable(c, s) && s.rx.CTesting? && !AdderInside(s.ops, s.rx.node) && s.locks == map[]
    requires u in s.ops && WaitsOn(s.ops[u], s.rx.node)
    requires s' == s.(rx := CReleasing(s.rx.iam, s.rx.node, false), locks := map[CondMutex(s.rx.node) := Receiver],
                      ops := s.ops[u := s.ops[u].(woken := true, live := false)])
    ensures Reachable(c, s')
  {
    var s1 := s.(rx := CLockingNode(s.rx.iam, s.rx.node, false));
    Handles(c, s, s1);
    var s2 := s1.(rx := CSignalling(s.rx.iam, s.rx.node, false), locks := s'.locks);
    Handles(c, s1, s2);
    Extend(c, s2, Handle(Some(u), false));
  }

  /** A state of a run in which an I-Am for its device has woken a call, and the device is not bound:
      the call waits on the waiter of a call that has returned. */
  lemma WokenNotBound()
    ensures exists s :: Reachable(COLD, s) && s.rx == CReleasing(I_AM, 0, false) && s.bind == map[]
                        && s.ops.Keys == {0, 1} && s.ops[0].pc.Done?
                        && s.ops[1].device == I_AM.device && WaitsOn(s.ops[1], 0) && s.ops[1].woken
  {
    StaleTest();
    var s0 := OneLeft(Asking(CondWaiting, 0)).(rx := CTesting(I_AM, 0));
    var s1 := s0.(rx := CReleasing(I_AM, 0, false), locks := map[CondMutex(0) := Receiver],
                  ops := s0.ops[1 := s0.ops[1].(woken := true, live := false)]);
    SignalsStale(COLD, s0, 1, s1);
    assert s1.ops.Keys == {0, 1} && s1.ops[0] == s0.ops[0];
  }

  // ---- An I-Am that misses its call ----

  /** Read 0 waits on its own waiter, and so does read 1. */
  lemma BothWait()
    ensures Reachable(COLD, Two(Asking(CondWaiting, 0), Asking(CondWaiting, 1), [1, 0]))
  {
    FirstWaits();
    var w, b, g, l := Asking(CondWaiting, 0), Asking(Binding, 0), Asking(CondGetLock, 0), Asking(CondLock, 1);
    var w' := Asking(CondWaiting, 1);
    assert map[0 := w, 1 := b][1 := g] == map[0 := w, 1 := g] && [1] + [0] == [1, 0];
    AddsWaiter(COLD, Two(w, b, [0]), 1, Two(w, g, [1, 0]));
    FirstWaiter(Two(w, g, [1, 0]), 1);
    assert map[0 := w, 1 := g][1 := l] == map[0 := w, 1 := l];
    GetsWaiter(COLD, Two(w, g, [1, 0]), 1, 1, Two(w, l, [1, 0]));
    assert map[0 := w, 1 := l][1 := w'] == map[0 := w, 1 := w'];
    AsksAndWaits(COLD, Two(w, l, [1, 0]), 1, Two(w, w', [1, 0]));
  }

  lemma FirstWaits()
    ensures Reachable(COLD, Two(Asking(CondWaiting, 0), Asking(Binding, 0), [0]))
  {
    BothBinding();
    var w, b, g, l := Asking(CondWaiting, 0), Asking(Binding, 0), Asking(CondGetLock, 0), Asking(CondLock, 0);
    assert map[0 := b, 1 := b][0 := g] == map[0 := g, 1 := b] && [0] + [] == [0];
    AddsWaiter(COLD, Two(b, b, []), 0, Two(g, b, [0]));
    FirstWaiter(Two(g, b, [0]), 0);
    assert map[0 := g, 1 := b][0 := l] == map[0 := l, 1 := b];
    GetsWaiter(COLD, Two(g, b, [0]), 0, 0, Two(l, b, [0]));
    assert map[0 := l, 1 := b][0 := w] == map[0 := w, 1 := b];
    AsksAndWaits(COLD, Two(l, b, [0]), 0, Two(w, b, [0]));
  }

  /** Read 0 times out and removes the waiter of read 1. */
  lemma WaiterRemoved()
    ensures Reachable(COLD, Two(Asking(BindChecking, 0), Asking(CondWaiting, 1), [0]))
  {
    BothWait();
    var w, w', l, b := Asking(CondWaiting, 0), Asking(CondWaiting, 1), Asking(CondDropLock, 0), Asking(BindChecking, 0);
    assert map[0 := w, 1 := w'][0 := l] == map[0 := l, 1 := w'];
    StopsWaiting(COLD, Two(w, w', [1, 0]), 0, Two(l, w', [1, 0]));
    FirstWaiter(Two(l, w', [1, 0]), 1);
    assert map[0 := l, 1 := w'][0 := b] == map[0 := b, 1 := w'] && RemoveAt([1, 0], 0) == [0];
    DropsFirst(COLD, Two(l, w', [1, 0]), 0, Two(b, w', [0]));
  }

  /** The I-Am handler binds the device and locks a waiter whose call is in `find_and_bind`. */
  lemma BindsAndLocks(c: Config, s: State, s': State)
    requires Reachable(c, s) && s.rx.CTesting? && AdderInside(s.ops, s.rx.node) && s.locks == map[]
    requires s' == s.(rx := CSignalling(s.rx.iam, s.rx.node, true), locks := map[CondMutex(s.rx.node) := Receiver],
                      bind := s.bind[s.rx.iam.device := s.rx.iam.src],
                      log := s.log + [BindingAdded(s.rx.iam.device, s.rx.iam.src)])
    ensures Reachable(c, s')
  {
    var s1 := s.(rx := CBinding(s.rx.iam, s.rx.node, true));
    Handles(c, s, s1);
    var s2 := s1.(rx := CLockingNode(s.rx.iam, s.rx.node, true), bind := s'.bind, log := s'.log);
    Handles(c, s1, s2);
    Handles(c, s2, s');
  }

  /** The state after the I-Am handler has bound device 7 and locked waiter `n`. */
  function Locked(s: State, n: OpId): State {
    s.(rx := CSignalling(I_AM, n, true), locks := map[CondMutex(n) := Receiver],
       bind := s.bind[7 := HERE], log := s.log + [BindingAdded(7, HERE)])
  }

  /** A state of a run in which the handler of an I-Am is done with its signal, and a call that waits for
      this device on its own waiter is not awake: another call removed that waiter. */
  lemma IAmMissesCall()
    ensures exists s :: Reachable(COLD, s) && s.rx == CReleasing(I_AM, 0, true) && s.ops.Keys == {0, 1}
                        && s.ops[1].device == I_AM.device && WaitsOn(s.ops[1], 1) && !s.ops[1].woken
  {
    WaiterRemoved();
    var s0 := Two(Asking(BindChecking, 0), Asking(CondWaiting, 1), [0]);
    FirstWaiter(s0, 0);
    Finds(COLD, s0, I_AM, 0, s0.(rx := CTesting(I_AM, 0)));
    BindsAndLocks(COLD, s0.(rx := CTesting(I_AM, 0)), Locked(s0, 0));
    Extend(COLD, Locked(s0, 0), Handle(None, true));
    var s1 := Locked(s0, 0).(rx := CReleasing(I_AM, 0, true));
    assert s1.ops.Keys == {0, 1} && RxStep(Locked(s0, 0), None, true) == s1;
  }

  // ---- An I-Am that wakes another call ----

  /** Both reads wait on the waiter of read 1. */
  lemma BothWaitOnOne()
    ensures Reachable(COLD, Two(Asking(CondWaiting, 1), Asking(CondWaiting, 1), [1, 0]))
  {
    WaitsOnOther();
    var g, l, w := Asking(CondGetLock, 0), Asking(CondLock, 1), Asking(CondWaiting, 1);
    FirstWaiter(Two(w, g, [1, 0]), 1);
    assert map[0 := w, 1 := g][1 := l] == map[0 := w, 1 := l];
    GetsWaiter(COLD, Two(w, g, [1, 0]), 1, 1, Two(w, l, [1, 0]));
    assert map[0 := w, 1 := l][1 := w] == map[0 := w, 1 := w];
    AsksAndWaits(COLD, Two(w, l, [1, 0]), 1, Two(w, w, [1, 0]));
  }

  /** A state of a run in which the handler of an I-Am is done with its signal, and a call that waits for
      this device on its own waiter, linked and found by the handler, is not awake: the signal woke
      another call that waits on it. */
  lemma IAmWakesOther()
    ensures exists s :: Reachable(COLD, s) && s.rx == CReleasing(I_AM, 1, true) && s.ops.Keys == {0, 1}
                        && CondLookup(s.ops, s.cond, 7) == Some(1) && s.cond == [1, 0]
                        && s.ops[1].device == I_AM.device && WaitsOn(s.ops[1], 1) && !s.ops[1].woken
                        && WaitsOn(s.ops[0], 1) && s.ops[0].woken
  {
    BothWaitOnOne();
    var w := Asking(CondWaiting, 1);
    var s0 := Two(w, w, [1, 0]);
    FirstWaiter(s0, 1);
    Finds(COLD, s0, I_AM, 1, s0.(rx := CTesting(I_AM, 1)));
    BindsAndLocks(COLD, s0.(rx := CTesting(I_AM, 1)), Locked(s0, 1));
    var s1 := Locked(s0, 1).(rx := CReleasing(I_AM, 1, true),
                             ops := s0.ops[0 := w.(woken := true, live := true)]);
    SignalsOne(Locked(s0, 1), 0, s1);
    assert s1.ops.Keys == {0, 1};
    FirstWaiter(s1, 1);
  }

  lemma SignalsOne(s: State, u: OpId, s': State)
    requires Reachable(COLD, s) && s.rx.CSignalling? && u in s.ops && WaitsOn(s.ops[u], s.rx.node)
    requires s' == s.(rx := CReleasing(s.rx.iam, s.rx.node, s.rx.live),
                      ops := s.ops[u := s.ops[u].(woken := true, live := s.rx.live)])
    ensures Reachable(COLD, s')
  {
    Extend(COLD, s, Handle(Some(u), true));
  }
}

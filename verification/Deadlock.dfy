/** Deadlock freedom: whenever a thread is blocked, the holder of the mutex it wants can step, or
    the holder of the one mutex that holder wants can. */
module Deadlock {
  import opened Bacnet
  import opened Protocol
  import opened Locking
  import opened Safety

  /** The thread is in the middle of a call, a handler or a table operation. */
  predicate Active(s: State, a: Actor) {
    match a
    case Requester(t) => t in s.ops && !Over(s.ops[t].pc)
    case Receiver => s.rx != Idle
    case Taking(k) => k in s.found.takers && !s.found.takers[k].pc.Ended?
  }

  function ActorWants(s: State, a: Actor): Option<Mutex>
    requires Active(s, a)
  {
    match a
    case Requester(t) => Wants(t, s.ops[t])
    case Receiver => RxWants(s.rx)
    case Taking(k) => TakerWants(s.found.takers[k])
  }

  predicate Blocked(s: State, a: Actor)
    requires Active(s, a)
  {
    ActorWants(s, a).Some? && ActorWants(s, a).value in s.locks
  }

  /** The action is a step of this thread. */
  predicate StepOf(x: Action, a: Actor) {
    match a
    case Requester(t) => x.Request? && x.t == t
    case Receiver => x.Handle?
    case Taking(k) => x.TakeStep? && x.k == k
  }

  ghost predicate CanStep(s: State, a: Actor) {
    exists x: Action :: Enabled(s, x) && StepOf(x, a)
  }

  /** A thread that is not blocked can step, whatever ids the transaction layer has left. */
  lemma UnblockedCanStep(s: State, a: Actor)
    requires Active(s, a) && !Blocked(s, a)
    ensures CanStep(s, a)
  {
    match a
    case Requester(t) =>
      assert FreshId(s, 0);
      assert Enabled(s, Request(t, 0, false)) && StepOf(Request(t, 0, false), a);
    case Receiver =>
      var w := if s.rx.CSignalling? && exists u :: u in s.ops && WaitsOn(s.ops[u], s.rx.node)
               then (var u :| u in s.ops && WaitsOn(s.ops[u], s.rx.node); Some(u)) else None;
      assert Enabled(s, Handle(w, false)) && StepOf(Handle(w, false), a);
    case Taking(k) =>
      assert Enabled(s, TakeStep(k)) && StepOf(TakeStep(k), a);
  }

  lemma HolderActive(s: State, mu: Mutex)
    requires LockInv(s) && mu in s.locks
    ensures Active(s, s.locks[mu])
  {
    match s.locks[mu]
    case Requester(t) => assert Owns(s.locks, mu, Requester(t));
    case Receiver => assert Owns(s.locks, mu, Receiver);
    case Taking(k) => assert Owns(s.locks, mu, Taking(k));
  }

  /** Lock ordering: a thread acquires a mutex while holding one only when it holds its own node
      mutex and acquires the list mutex. */
  lemma NestedAcquisition(s: State, mu: Mutex)
    requires LockInv(s) && mu in s.locks && Active(s, s.locks[mu])
    ensures ActorWants(s, s.locks[mu]).Some? ==>
              s.locks[mu].Requester? && mu == NodeMutex(s.locks[mu].op)
              && ActorWants(s, s.locks[mu]) == Some(ListMutex)
  {
    match s.locks[mu]
    case Requester(t) => assert Owns(s.locks, mu, Requester(t));
    case Receiver => assert Owns(s.locks, mu, Receiver);
    case Taking(k) => assert Owns(s.locks, mu, Taking(k));
  }

  /** The receive thread never holds two mutexes. */
  lemma ReceiverHoldsOne(s: State, mu: Mutex, nu: Mutex)
    requires LockInv(s) && Owns(s.locks, mu, Receiver) && Owns(s.locks, nu, Receiver)
    ensures mu == nu
  {
    assert RxHolds(s.rx, mu) && RxHolds(s.rx, nu);
  }

  /** The holder of a mutex, or the holder of the list mutex that holder wants. */
  function Unblocker(s: State, mu: Mutex): Actor
    requires mu in s.locks
  {
    var h := s.locks[mu];
    if Active(s, h) && Blocked(s, h) then s.locks[ActorWants(s, h).value] else h
  }

  /** In every reachable state, every blocked thread waits for a thread that can step. */
  lemma DeadlockFree(c: Config, s: State, a: Actor)
    requires Reachable(c, s) && Active(s, a) && Blocked(s, a)
    ensures var u := Unblocker(s, ActorWants(s, a).value);
            u != a && Active(s, u) && CanStep(s, u)
  {
    ReachableInv(c, s);
    var mu := ActorWants(s, a).value;
    HolderActive(s, mu);
    NestedAcquisition(s, mu);
    var u := Unblocker(s, mu);
    if Blocked(s, s.locks[mu]) {
      HolderActive(s, ListMutex);
      NestedAcquisition(s, ListMutex);
    }
    UnblockedCanStep(s, u);
  }

  // ---- Every step of a call brings its return closer ----

  /** A bound on the steps a call still has to take. */
  function StepsLeft(pc: PC): nat {
    match pc
    case Starting => 29 case Linking => 28 case Clearing => 27 case Binding => 26
    case CondAddLock => 25 case CondAdding => 24 case CondGetLock => 23 case CondGetting => 22
    case CondLock => 21 case CondSending => 20 case CondEntering => 19 case CondWaiting => 18
    case CondWoken => 17 case CondDropLock => 16 case CondDropping => 15 case BindChecking => 14
    case Rebinding => 13 case NodeLock => 12 case ListLock => 11 case Sending => 10
    case Storing => 9 case Broadcasting => 9 case Entering => 8 case Waiting => 7
    case Woken => 6 case Checking => 5 case Fetching => 4 case UnlinkLock => 3 case Unlinking => 2
    case _ => 0
  }

  lemma SetAdvances(o: Op)
    requires InSet(o.pc)
    ensures StepsLeft(SetNext(o).pc) < StepsLeft(o.pc)
  {
  }

  lemma BindAdvances(o: Op, e: Input)
    requires InBind(o.pc)
    ensures StepsLeft(BindNext(o, e).pc) < StepsLeft(o.pc)
  {
  }

  lemma WaiterAdvances(o: Op, e: Input)
    requires InWaiter(o.pc)
    ensures StepsLeft(WaiterNext(o, e).pc) < StepsLeft(o.pc)
  {
  }

  lemma SendAdvances(o: Op, e: Input)
    requires InSend(o.pc)
    ensures StepsLeft(SendNext(o, e).pc) < StepsLeft(o.pc)
  {
  }

  lemma WaitAdvances(o: Op, e: Input)
    requires InWait(o.pc)
    ensures StepsLeft(WaitNext(o, e).pc) < StepsLeft(o.pc)
  {
  }

  lemma CallAdvances(o: Op, e: Input)
    requires !Over(o.pc)
    ensures StepsLeft(OpNext(o, e).pc) < StepsLeft(o.pc)
  {
    if InSet(o.pc) { SetAdvances(o); }
    else if InBind(o.pc) { BindAdvances(o, e); }
    else if InWaiter(o.pc) { WaiterAdvances(o, e); }
    else if InSend(o.pc) { SendAdvances(o, e); }
    else if InWait(o.pc) { WaitAdvances(o, e); }
  }

  /** A call returns after at most 29 steps of its own: each brings it closer, and no step of another
      thread sets it back. */
  lemma BoundedCalls(c: Config, s: State, a: Action, t: OpId)
    requires Enabled(s, a) && t in s.ops
    ensures var s' := Apply(c, s, a);
            && t in s'.ops && StepsLeft(s.ops[t].pc) <= 29
            && if a.Request? && a.t == t then StepsLeft(s'.ops[t].pc) < StepsLeft(s.ops[t].pc)
               else s'.ops[t].pc == s.ops[t].pc
  {
    match a
    case Request(u, id, late) =>
      if u == t { CallAdvances(s.ops[t], InputOf(s, t, id, late)); }
    case Handle(w, _) => RxOpsSameCall(s.rx, s.ops, w);
    case _ =>
  }
}

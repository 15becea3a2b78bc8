/** Mutex ownership: a mutex is held exactly when the program counter of its holder says so. */
module Locking {
  import opened Bacnet
  import opened Protocol

  /** Does a call hold this mutex at its program counter? */
  predicate Holds(t: OpId, o: Op, mu: Mutex) {
    match o.pc
    case Linking | Unlinking => mu == ListMutex
    case CondAdding | CondGetting | CondDropping => mu == CondListMutex
    case CondSending | CondEntering | CondWoken => mu == CondMutex(o.waiter)
    case ListLock | Broadcasting | Entering | Woken => mu == NodeMutex(t)
    case Sending | Storing => mu == NodeMutex(t) || mu == ListMutex
    case _ => false
  }

  predicate RxHolds(rx: Rx, mu: Mutex) {
    match rx
    case Getting(_) => mu == ListMutex
    case Delivering(_, n) => mu == NodeMutex(n)
    case Decoding(_, n) => mu == NodeMutex(n)
    case Signalling(_, n) => mu == NodeMutex(n)
    case Releasing(_, n) => mu == NodeMutex(n)
    case CGetting(_) => mu == CondListMutex
    case CSignalling(_, n, _) => mu == CondMutex(n)
    case CReleasing(_, n, _) => mu == CondMutex(n)
    case TableAdding(_) => mu == TableMutex
    case _ => false
  }

  predicate Owns(locks: map<Mutex, Actor>, mu: Mutex, a: Actor) {
    mu in locks && locks[mu] == a
  }

  ghost predicate OpLocks(ops: map<OpId, Op>, locks: map<Mutex, Actor>) {
    forall t, mu :: Owns(locks, mu, Requester(t)) <==> t in ops && Holds(t, ops[t], mu)
  }

  ghost predicate RxLocks(rx: Rx, locks: map<Mutex, Actor>) {
    forall mu :: Owns(locks, mu, Receiver) <==> RxHolds(rx, mu)
  }

  ghost predicate TakerLocks(takers: map<TakerId, Taker>, locks: map<Mutex, Actor>) {
    forall k, mu :: Owns(locks, mu, Taking(k)) <==> k in takers && takers[k].pc.Holding? && mu == TableMutex
  }

  ghost predicate LockInv(s: State) {
    OpLocks(s.ops, s.locks) && RxLocks(s.rx, s.locks) && TakerLocks(s.found.takers, s.locks)
  }

  // What one step does to the mutexes its call holds.

  predicate HoldsAfter(held: bool, mu: Mutex, wants: Option<Mutex>, drops: Option<Mutex>) {
    if wants.Some? then held || mu == wants.value
    else if drops.Some? then held && mu != drops.value
    else held
  }

  ghost predicate HoldsStep(t: OpId, o: Op, o': Op, mu: Mutex) {
    Holds(t, o', mu) <==> HoldsAfter(Holds(t, o, mu), mu, Wants(t, o), Drops(t, o))
  }

  lemma SetHolds(t: OpId, o: Op, e: Input, mu: Mutex)
    requires InSet(o.pc)
    ensures HoldsStep(t, o, SetNext(o), mu)
  {
  }

  lemma BindHolds(t: OpId, o: Op, e: Input, mu: Mutex)
    requires InBind(o.pc)
    ensures HoldsStep(t, o, BindNext(o, e), mu)
  {
  }

  lemma WaiterHolds(t: OpId, o: Op, e: Input, mu: Mutex)
    requires InWaiter(o.pc)
    ensures HoldsStep(t, o, WaiterNext(o, e), mu)
  {
  }

  lemma SendHolds(t: OpId, o: Op, e: Input, mu: Mutex)
    requires InSend(o.pc)
    ensures HoldsStep(t, o, SendNext(o, e), mu)
  {
  }

  lemma WaitHolds(t: OpId, o: Op, e: Input, mu: Mutex)
    requires InWait(o.pc)
    ensures HoldsStep(t, o, WaitNext(o, e), mu)
  {
  }

  lemma UnlinkHolds(t: OpId, o: Op, e: Input, mu: Mutex)
    requires InUnlink(o.pc)
    ensures HoldsStep(t, o, UnlinkNext(o, e), mu)
  {
  }

  lemma OpHolds(t: OpId, o: Op, e: Input, mu: Mutex)
    requires !Over(o.pc)
    ensures HoldsStep(t, o, OpNext(o, e), mu)
  {
    if InSet(o.pc) { SetHolds(t, o, e, mu); }
    else if InBind(o.pc) { BindHolds(t, o, e, mu); }
    else if InWaiter(o.pc) { WaiterHolds(t, o, e, mu); }
    else if InSend(o.pc) { SendHolds(t, o, e, mu); }
    else if InWait(o.pc) { WaitHolds(t, o, e, mu); }
    else { UnlinkHolds(t, o, e, mu); }
  }

  lemma DropsHeld(t: OpId, o: Op)
    ensures Drops(t, o).Some? ==> Wants(t, o).None? && Holds(t, o, Drops(t, o).value)
  {
  }

  lemma RxHoldsAfter(s: State, skip: bool, mu: Mutex)
    ensures RxHolds(RxNext(s, skip), mu) <==> HoldsAfter(RxHolds(s.rx, mu), mu, RxWants(s.rx), RxDrops(s.rx))
    ensures RxDrops(s.rx).Some? ==> RxWants(s.rx).None? && RxHolds(s.rx, RxDrops(s.rx).value)
  {
  }

  // Ownership is kept, group of threads by group of threads.

  predicate Free(locks: map<Mutex, Actor>, mu: Option<Mutex>) {
    mu.Some? ==> mu.value !in locks
  }

  lemma CallStepsOpLocks(ops: map<OpId, Op>, locks: map<Mutex, Actor>, t: OpId, o': Op)
    requires OpLocks(ops, locks) && t in ops
    requires var o := ops[t]; Free(locks, Wants(t, o)) && forall mu :: HoldsStep(t, o, o', mu)
    ensures OpLocks(ops[t := o'], LocksNext(locks, Requester(t), Wants(t, ops[t]), Drops(t, ops[t])))
  {
    var o := ops[t];
    DropsHeld(t, o);
    var ops' := ops[t := o'];
    var locks' := LocksNext(locks, Requester(t), Wants(t, o), Drops(t, o));
    OtherLocks(locks, Requester(t), Wants(t, o), Drops(t, o));
    forall u, mu ensures Owns(locks', mu, Requester(u)) <==> u in ops' && Holds(u, ops'[u], mu) {
      assert HoldsStep(t, o, o', mu);
      assert Owns(locks, mu, Requester(u)) <==> u in ops && Holds(u, ops[u], mu);
    }
  }

  /** The locks of the other threads are not touched by an acquisition or a release of `a`. */
  lemma OtherLocks(locks: map<Mutex, Actor>, a: Actor, wants: Option<Mutex>, drops: Option<Mutex>)
    requires Free(locks, wants)
    requires drops.Some? && wants.None? ==> Owns(locks, drops.value, a)
    ensures var locks' := LocksNext(locks, a, wants, drops);
            forall mu, b: Actor :: b != a ==> (Owns(locks', mu, b) <==> Owns(locks, mu, b))
  {
  }

  lemma OpLocksFrame(ops: map<OpId, Op>, locks: map<Mutex, Actor>, ops': map<OpId, Op>, locks': map<Mutex, Actor>)
    requires OpLocks(ops, locks) && ops.Keys == ops'.Keys
    requires forall t, mu :: t in ops ==> (Holds(t, ops[t], mu) <==> Holds(t, ops'[t], mu))
    requires forall mu, b: Actor :: b.Requester? ==> (Owns(locks', mu, b) <==> Owns(locks, mu, b))
    ensures OpLocks(ops', locks')
  {
    forall t, mu ensures Owns(locks', mu, Requester(t)) <==> t in ops' && Holds(t, ops'[t], mu) {
      assert Owns(locks', mu, Requester(t)) <==> Owns(locks, mu, Requester(t));
    }
  }

  lemma RequestKeepsLocks(s: State, t: OpId, id: nat, late: bool)
    requires LockInv(s) && RequesterEnabled(s, t, id)
    ensures LockInv(RequesterStep(s, t, id, late))
  {
    var o := s.ops[t];
    var e := InputOf(s, t, id, late);
    forall mu ensures HoldsStep(t, o, OpNext(o, e), mu) {
      OpHolds(t, o, e, mu);
    }
    CallStepsOpLocks(s.ops, s.locks, t, OpNext(o, e));
    DropsHeld(t, o);
    OtherLocks(s.locks, Requester(t), Wants(t, o), Drops(t, o));
  }

  /** The receive thread changes nothing of a call but its node and what it knows of its wake-up. */
  ghost predicate SameCall(o: Op, o': Op) {
    o' == o.(node := o'.node, woken := o'.woken, live := o'.live)
  }

  lemma RxOpsSameCall(rx: Rx, ops: map<OpId, Op>, w: Option<OpId>)
    ensures RxOps(rx, ops, w).Keys == ops.Keys
    ensures forall t :: t in ops ==> SameCall(ops[t], RxOps(rx, ops, w)[t])
  {
  }

  lemma HandleKeepsOpLocks(s: State, w: Option<OpId>)
    requires LockInv(s) && RxEnabled(s, w)
    ensures OpLocks(RxOps(s.rx, s.ops, w), LocksNext(s.locks, Receiver, RxWants(s.rx), RxDrops(s.rx)))
  {
    RxHoldsAfter(s, false, ListMutex);
    OtherLocks(s.locks, Receiver, RxWants(s.rx), RxDrops(s.rx));
    RxOpsSameCall(s.rx, s.ops, w);
    OpLocksFrame(s.ops, s.locks, RxOps(s.rx, s.ops, w), LocksNext(s.locks, Receiver, RxWants(s.rx), RxDrops(s.rx)));
  }

  lemma HandleKeepsRxLocks(s: State, skip: bool)
    requires RxLocks(s.rx, s.locks)
    ensures RxLocks(RxNext(s, skip), LocksNext(s.locks, Receiver, RxWants(s.rx), RxDrops(s.rx)))
  {
    var locks' := LocksNext(s.locks, Receiver, RxWants(s.rx), RxDrops(s.rx));
    forall mu ensures Owns(locks', mu, Receiver) <==> RxHolds(RxNext(s, skip), mu) {
      RxHoldsAfter(s, skip, mu);
      assert Owns(s.locks, mu, Receiver) <==> RxHolds(s.rx, mu);
    }
  }

  lemma HandleKeepsLocks(s: State, w: Option<OpId>, skip: bool)
    requires LockInv(s) && RxEnabled(s, w)
    ensures LockInv(RxStep(s, w, skip))
  {
    HandleKeepsOpLocks(s, w);
    HandleKeepsRxLocks(s, skip);
    RxHoldsAfter(s, false, ListMutex);
    OtherLocks(s.locks, Receiver, RxWants(s.rx), RxDrops(s.rx));
  }

  lemma TakerLocksStep(f: Discovery, locks: map<Mutex, Actor>, k: TakerId)
    requires TakerLocks(f.takers, locks)
    requires k in f.takers && (f.takers[k].pc.Wanting? ==> TableMutex !in locks)
    ensures var x := f.takers[k];
            TakerLocks(TakeNext(f, k).takers, LocksNext(locks, Taking(k), TakerWants(x), TakerDrops(x)))
  {
    var x := f.takers[k];
    var takers' := TakeNext(f, k).takers;
    var locks' := LocksNext(locks, Taking(k), TakerWants(x), TakerDrops(x));
    forall j, mu
      ensures Owns(locks', mu, Taking(j)) <==> j in takers' && takers'[j].pc.Holding? && mu == TableMutex
    {
      assert Owns(locks, mu, Taking(j)) <==> j in f.takers && f.takers[j].pc.Holding? && mu == TableMutex;
      assert Owns(locks, TableMutex, Taking(k)) <==> x.pc.Holding?;
    }
  }

  lemma TakeKeepsLocks(s: State, k: TakerId)
    requires LockInv(s) && TakerEnabled(s, k)
    ensures LockInv(TakerStep(s, k))
  {
    var x := s.found.takers[k];
    assert x.pc.Holding? ==> Owns(s.locks, TableMutex, Taking(k));
    OtherLocks(s.locks, Taking(k), TakerWants(x), TakerDrops(x));
    OpLocksFrame(s.ops, s.locks, s.ops, TakerStep(s, k).locks);
    TakerLocksStep(s.found, s.locks, k);
  }

  lemma KeepsLocks(c: Config, s: State, a: Action)
    requires LockInv(s) && Enabled(s, a)
    ensures LockInv(Apply(c, s, a))
  {
    match a
    case Request(t, id, late) => RequestKeepsLocks(s, t, id, late);
    case Handle(w, skip) => HandleKeepsLocks(s, w, skip);
    case TakeStep(k) => TakeKeepsLocks(s, k);
    case Call(t, k, d) => CallStepKeepsLocks(s, t, NewOp(c, k, d));
    case _ =>
  }

  lemma CallStepKeepsLocks(s: State, t: OpId, o: Op)
    requires OpLocks(s.ops, s.locks) && t !in s.ops && o.pc.Starting?
    ensures OpLocks(s.ops[t := o], s.locks)
  {
  }
}

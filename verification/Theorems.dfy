/** What the protocol guarantees in every reachable state and over every run. */
module Theorems {
  import opened Bacnet
  import opened Lists
  import opened Protocol
  import opened Locking
  import opened Calls
  import opened Pending
  import opened Receiving
  import opened Waiters
  import opened Discovering
  import opened Safety
  import opened Signals

  /** No call dereferences NULL after a lookup, removes a node that is not linked, or reaches the
      transaction-state branches of `find_and_bind`. */
  lemma NeverFaults(c: Config, s: State, t: OpId)
    requires Reachable(c, s) && t in s.ops
    ensures !s.ops[t].pc.Faulted?
  {
    ReachableInv(c, s);
    assert ControlOk(c, s.ops[t]);
  }

  // ---- Lost wake-ups ----

  /** When a handler looks up the answer to a request, the request's id is stored in its node. */
  lemma StoredBeforeLookup(c: Config, s: State, t: OpId)
    requires Reachable(c, s) && s.rx.Getting? && s.rx.msg.cause == Some(t)
    ensures t in s.ops && s.ops[t].node.id == s.rx.msg.id && !Unsent(s.ops[t].pc) && !s.ops[t].pc.Storing?
  {
    ReachableInv(c, s);
    var o := s.ops[t];
    assert o.sent == s.rx.msg.id && ControlOk(c, o);
    assert Owns(s.locks, ListMutex, Receiver) <==> RxHolds(s.rx, ListMutex);
    assert Owns(s.locks, ListMutex, Requester(t)) <==> Holds(t, o, ListMutex);
  }

  /** When a handler signals the node of a request, that request has begun its wait. */
  lemma WaitBeforeSignal(c: Config, s: State)
    requires Reachable(c, s) && s.rx.Signalling? && s.rx.node in s.ops && !s.ops[s.rx.node].kind.WhoIs?
    ensures s.ops[s.rx.node].pc.Waiting? || WaitOver(s.ops[s.rx.node].pc)
  {
    ReachableInv(c, s);
    var n := s.rx.node;
    assert ControlOk(c, s.ops[n]) && s.ops[n].node.id != 0;
    assert Owns(s.locks, NodeMutex(n), Receiver) <==> RxHolds(s.rx, NodeMutex(n));
    assert Owns(s.locks, NodeMutex(n), Requester(n)) <==> Holds(n, s.ops[n], NodeMutex(n));
  }

  /** So when the handler is done with the node, the request is awake or its wait is over. */
  lemma NoLostWakeup(c: Config, s: State)
    requires Reachable(c, s) && s.rx.Releasing? && s.rx.node in s.ops && !s.ops[s.rx.node].kind.WhoIs?
    ensures var o := s.ops[s.rx.node]; (o.pc.Waiting? && o.woken) || WaitOver(o.pc)
  {
    ReachableSignalled(c, s);
    ReachableInv(c, s);
    var n := s.rx.node;
    assert ControlOk(c, s.ops[n]) && s.ops[n].node.id != 0;
    assert Owns(s.locks, NodeMutex(n), Receiver) <==> RxHolds(s.rx, NodeMutex(n));
    assert Owns(s.locks, NodeMutex(n), Requester(n)) <==> Holds(n, s.ops[n], NodeMutex(n));
  }

  /** By then the node holds what the message says, if it came from the request's target: a failure
      has set errorDetected, a decodable ACK has left a decoded value. */
  lemma HandlerEffect(c: Config, s: State)
    requires Reachable(c, s) && s.rx.Releasing? && s.rx.node in s.ops && !s.ops[s.rx.node].kind.WhoIs?
    requires s.rx.msg.src == s.ops[s.rx.node].node.target
    ensures var v := s.rx.msg.service; v.Error? || v.Abort? || v.Reject? ==> s.ops[s.rx.node].node.err
    ensures s.rx.msg.service.ReadAck? && s.rx.msg.body.Some? ==> IsDecoded(s.ops[s.rx.node].node)
  {
    ReachableInv(c, s);
    assert EffectOk(s.rx, s.ops[s.rx.node]);
  }

  // ---- Dispatch ----

  /** A stray node with this id is linked in front of call `t`. */
  ghost predicate Shadowed(ops: map<OpId, Op>, pend: seq<OpId>, t: OpId, id: nat) {
    exists i, j :: 0 <= i < j < |pend| && pend[j] == t && StrayWith(ops, pend[i], id)
  }

  predicate StrayWith(ops: map<OpId, Op>, n: OpId, id: nat) {
    n in ops && Stray(ops[n]) && ops[n].node.id == id
  }

  /** The first node with the id of live call `t` is `t` or a stray in front of it. */
  lemma FirstWithId(c: Config, ops: map<OpId, Op>, pend: seq<OpId>, outstanding: map<nat, OpId>, t: OpId, j: nat)
    requires PendOk(ops, pend) && CallsOk(c, ops) && IdsOk(ops, outstanding)
    requires j < |pend| && pend[j] == t && ops[t].node.id != 0 && !Stray(ops[t])
    ensures var i := IndexOf(Ids(ops, pend), ops[t].node.id);
            i <= j && (i == j || StrayWith(ops, pend[i], ops[t].node.id))
  {
    var ids := Ids(ops, pend);
    var id := ops[t].node.id;
    var i := IndexOf(ids, id);
    assert ids[j] == id;
    IndexOfFirst(ids, id, j);
    if i != j && !Stray(ops[pend[i]]) {
      LinkedHolder(c, ops, pend, pend[i]);
      LinkedHolder(c, ops, pend, t);
    }
  }

  lemma StrayFirst(ops: map<OpId, Op>, pend: seq<OpId>, k: nat, id: nat)
    requires k < |pend| && StrayWith(ops, pend[k], id)
    ensures IndexOf(Ids(ops, pend), id) <= k
  {
    IndexOfFirst(Ids(ops, pend), id, k);
  }

  lemma DispatchExactly(c: Config, ops: map<OpId, Op>, pend: seq<OpId>, outstanding: map<nat, OpId>, t: OpId)
    requires PendOk(ops, pend) && CallsOk(c, ops) && IdsOk(ops, outstanding)
    requires t in pend && ops[t].node.id != 0 && !Stray(ops[t])
    ensures Lookup(ops, pend, ops[t].node.id) == Some(t) <==> !Shadowed(ops, pend, t, ops[t].node.id)
  {
    var id := ops[t].node.id;
    var j :| 0 <= j < |pend| && pend[j] == t;
    FirstWithId(c, ops, pend, outstanding, t, j);
    if Shadowed(ops, pend, t, id) {
      var k, l :| 0 <= k < l < |pend| && pend[l] == t && StrayWith(ops, pend[k], id);
      StrayFirst(ops, pend, k, id);
    }
  }

  /** A lookup of the id of a linked request finds that request if and only if no stray node, of a
      finished write or of a Who-Is, with the same id is linked in front of it. */
  lemma DispatchExact(c: Config, s: State, t: OpId)
    requires Reachable(c, s) && t in s.pend && t in s.ops && s.ops[t].node.id != 0 && !Stray(s.ops[t])
    ensures Lookup(s.ops, s.pend, s.ops[t].node.id) == Some(t) <==> !Shadowed(s.ops, s.pend, t, s.ops[t].node.id)
  {
    ReachableInv(c, s);
    DispatchExactly(c, s.ops, s.pend, s.outstanding, t);
  }

  /** With a Who-Is node that carries id 0, only the node of a failed write can be in the way. */
  lemma OnlyLeaksShadow(c: Config, s: State, t: OpId)
    requires Reachable(c, s) && t in s.pend && t in s.ops && s.ops[t].node.id != 0 && !Stray(s.ops[t])
    requires c.placeholder == 0 && forall u :: u in s.ops ==> !s.ops[u].pc.Leaked?
    ensures Lookup(s.ops, s.pend, s.ops[t].node.id) == Some(t)
  {
    ReachableInv(c, s);
    DispatchExactly(c, s.ops, s.pend, s.outstanding, t);
    forall n | n in s.ops ensures !StrayWith(s.ops, n, s.ops[t].node.id) {
      assert ControlOk(c, s.ops[n]);
    }
  }

  /** A handler's step changes the fields of at most one node, one with the id of its message and
      the address of its source; that is the only live request with this id. */
  lemma OneNodeChanges(c: Config, s: State, w: Option<OpId>, skip: bool, t: OpId, u: OpId)
    requires Reachable(c, s) && RxEnabled(s, w) && t in s.ops && u in s.ops
    ensures RxStep(s, w, skip).ops.Keys == s.ops.Keys
    ensures var s' := RxStep(s, w, skip);
            s'.ops[t].node != s.ops[t].node ==>
              && RxNode(s.rx) == Some(t)
              && s.rx.msg.id == s.ops[t].node.id && s.rx.msg.src == s.ops[t].node.target
              && (u != t ==> s'.ops[u].node == s.ops[u].node)
              && (u != t && Live(s.ops[t]) && Live(s.ops[u]) ==> s.ops[u].sent != s.rx.msg.id)
  {
    ReachableInv(c, s);
    RxOpsSameCall(s.rx, s.ops, w);
    RxNodes(s.rx, s.ops, w, t);
    RxNodes(s.rx, s.ops, w, u);
    assert ControlOk(c, s.ops[t]);
  }

  /** The block stays, and so do its contents once it is decoded. */
  predicate KeepsBlock(value: Option<Block>, value': Option<Block>) {
    value.Some? ==> value'.Some? && (value.value.Decoded? ==> value' == value)
  }

  lemma ValueKept(c: Config, s: State, a: Action, t: OpId)
    requires Inv(c, s) && Enabled(s, a) && t in s.ops
    ensures t in Apply(c, s, a).ops && KeepsBlock(s.ops[t].node.value, Apply(c, s, a).ops[t].node.value)
  {
    match a
    case Request(u, id, late) => RequestKeepsValue(c, s, u, id, late, t);
    case Handle(w, _) => HandleKeepsValue(s, w, t);
    case _ =>
  }

  lemma RequestKeepsValue(c: Config, s: State, u: OpId, id: nat, late: bool, t: OpId)
    requires CallsOk(c, s.ops) && RequesterEnabled(s, u, id) && t in s.ops
    ensures var ops' := RequesterStep(s, u, id, late).ops; t in ops' && ops'[t].node.value == s.ops[t].node.value
  {
    StepNext(c, s.ops[u], InputOf(s, u, id, late));
  }

  lemma HandleKeepsValue(s: State, w: Option<OpId>, t: OpId)
    requires RxOk(s.ops, s.outstanding, s.rx) && t in s.ops
    ensures t in RxOps(s.rx, s.ops, w) && KeepsBlock(s.ops[t].node.value, RxOps(s.rx, s.ops, w)[t].node.value)
  {
    RxOpsSameCall(s.rx, s.ops, w);
    RxNodes(s.rx, s.ops, w, t);
  }

  lemma NextKeepsValue(c: Config, s: State, s': State, t: OpId)
    requires Inv(c, s) && Next(c, s, s') && t in s.ops
    ensures t in s'.ops && KeepsBlock(s.ops[t].node.value, s'.ops[t].node.value)
  {
    var a: Action :| Enabled(s, a) && s' == Apply(c, s, a);
    ValueKept(c, s, a, t);
  }

  lemma StepKeepsValue(c: Config, run: seq<State>, j: nat, t: OpId)
    requires IsRun(c, run) && j + 1 < |run| && t in run[j].ops
    ensures t in run[j + 1].ops && KeepsBlock(run[j].ops[t].node.value, run[j + 1].ops[t].node.value)
  {
    RunInv(c, run, j);
    assert StepAt(c, run, j);
    NextKeepsValue(c, run[j], run[j + 1], t);
  }

  /** A block that was stored is never replaced, and once decoded it is never written again. */
  lemma {:induction false} ValueNeverOverwritten(c: Config, run: seq<State>, i: nat, j: nat, t: OpId)
    requires IsRun(c, run) && i <= j < |run| && t in run[i].ops
    ensures t in run[j].ops && KeepsBlock(run[i].ops[t].node.value, run[j].ops[t].node.value)
  {
    if i == j {
    } else {
      ValueNeverOverwritten(c, run, i, j - 1, t);
      StepKeepsValue(c, run, j - 1, t);
    }
  }

  // ---- Provenance ----

  /** A message that call `t` may act on: it carries the id its send returned and comes from the
      address its device is bound to; and it answers no other request. */
  ghost predicate MeantFor(c: Config, s: State, t: OpId, m: Msg)
    requires t in s.ops
  {
    var o := s.ops[t];
    && m.id == o.sent != 0 && m.src == o.node.target
    && o.device <= BACNET_MAX_INSTANCE && BoundTo(c, s.log, o.device, o.node.target)
    && (m.cause.Some? ==> m.cause.value == t)
  }

  /** A bound read returns a value if and only if a read ACK was recorded before it fetched its
      value. That ACK was meant for the read, and the value is its decoded value, or a block that was
      not decoded yet. */
  lemma ReadProvenance(c: Config, s: State, t: OpId)
    requires Reachable(c, s) && t in s.ops && s.ops[t].kind.Read? && s.ops[t].bound && s.ops[t].pc.Done?
    ensures var o := s.ops[t];
            && o.result.Got? && o.checkedAt <= |s.log|
            && (o.result.value.Some? <==> Answered(s.log, t, o.checkedAt))
            && forall j :: 0 <= j < o.checkedAt && AckAt(s.log, t, j) ==>
                 && MeantFor(c, s, t, s.log[j].msg) && s.log[j].msg.body.Some?
                 && (o.result.value == Some(Undecoded) || o.result.value == Some(Decoded(s.log[j].msg.body.value)))
  {
    ReachableInv(c, s);
    var o := s.ops[t];
    assert ControlOk(c, o) && ResultOk(o) && OutcomeOk(t, o, s.log);
    forall j | 0 <= j < o.checkedAt && AckAt(s.log, t, j)
      ensures MeantFor(c, s, t, s.log[j].msg) && s.log[j].msg.body.Some?
      ensures o.result.value == Some(Undecoded) || o.result.value == Some(Decoded(s.log[j].msg.body.value))
    {
      assert RecordedOk(o, t, s.log[j].msg, j);
      assert o.result.value.Some?;
    }
  }

  /** What a read fetches is not decoded if and only if a handler then stands between allocating and
      decoding on the node of that read. */
  lemma FetchExact(c: Config, s: State, t: OpId, id: nat, late: bool)
    requires Reachable(c, s) && RequesterEnabled(s, t, id) && s.ops[t].pc.Fetching?
    ensures var r := RequesterStep(s, t, id, late).ops[t].result;
            && r.Got? && (r.value.Some? <==> Answered(s.log, t, |s.log|))
            && (r.value == Some(Undecoded) <==> s.rx.Decoding? && s.rx.node == t)
  {
    ReachableInv(c, s);
    LogMissesNothing(s.ops, s.log, t);
    FetchStep(s.ops[t], InputOf(s, t, id, late));
  }

  lemma FetchStep(o: Op, e: Input)
    requires o.pc.Fetching?
    ensures OpNext(o, e).result == Got(o.node.value)
  {
  }

  /** A bound write returns 1 if and only if an Error, Abort or Reject was recorded before it tested
      errorDetected, and otherwise 0; such a response was meant for that write. */
  lemma WriteProvenance(c: Config, s: State, t: OpId)
    requires Reachable(c, s) && t in s.ops && s.ops[t].kind.Write? && s.ops[t].bound
    requires s.ops[t].pc.Done? || s.ops[t].pc.Leaked?
    ensures var o := s.ops[t];
            && o.checkedAt <= |s.log| && (o.result == Status(0) || o.result == Status(1))
            && (o.result == Status(1) <==>
                exists j :: 0 <= j < o.checkedAt && s.log[j].Recorded? && s.log[j].node == t
                            && var v := s.log[j].msg.service; v.Error? || v.Abort? || v.Reject?)
            && (forall j :: 0 <= j < o.checkedAt && s.log[j].Recorded? && s.log[j].node == t ==>
                  var v := s.log[j].msg.service;
                  v.Error? || v.Abort? || v.Reject? ==> MeantFor(c, s, t, s.log[j].msg))
  {
    ReachableInv(c, s);
    var o := s.ops[t];
    assert ControlOk(c, o) && ResultOk(o) && OutcomeOk(t, o, s.log);
    forall j | 0 <= j < o.checkedAt && s.log[j].Recorded? && s.log[j].node == t && IsFailure(s.log[j].msg)
      ensures MeantFor(c, s, t, s.log[j].msg)
    {
      assert RecordedOk(o, t, s.log[j].msg, j);
    }
    FailedByRefusal(s.log, t, o.checkedAt);
  }

  lemma FailedByRefusal(log: seq<Event>, t: OpId, hi: nat)
    requires hi <= |log|
    ensures Failed(log, t, hi) <==>
            exists j :: 0 <= j < hi && log[j].Recorded? && log[j].node == t
                        && var v := log[j].msg.service; v.Error? || v.Abort? || v.Reject?
  {
    if Failed(log, t, hi) {
      var j :| 0 <= j < hi && FailureAt(log, t, j);
      assert log[j].Recorded? && log[j].node == t;
    }
    if j :| 0 <= j < hi && log[j].Recorded? && log[j].node == t && IsFailure(log[j].msg) {
      assert FailureAt(log, t, j);
    }
  }

  /** A call that could not bind fails with nothing sent. */
  lemma UnboundFails(c: Config, s: State, t: OpId)
    requires Reachable(c, s) && t in s.ops && !s.ops[t].kind.WhoIs? && !s.ops[t].bound && s.ops[t].pc.Done?
    ensures s.ops[t].result == (if s.ops[t].kind.Read? then Got(None) else Status(1)) && s.ops[t].sent == 0
    ensures forall m :: Recorded(t, m) !in s.log
  {
    ReachableInv(c, s);
    assert ControlOk(c, s.ops[t]) && ResultOk(s.ops[t]);
  }

  /** A Who-Is that is over has returned the device table, whatever came in meanwhile. */
  lemma WhoIsFinishes(c: Config, s: State, t: OpId)
    requires Reachable(c, s) && t in s.ops && s.ops[t].kind.WhoIs? && Over(s.ops[t].pc)
    ensures s.ops[t].pc.Done? && s.ops[t].result == Finished && t !in s.pend
  {
    ReachableInv(c, s);
    OverWhoIs(c, s.ops[t]);
  }

  lemma OverWhoIs(c: Config, o: Op)
    requires ControlOk(c, o) && ResultOk(o) && o.kind.WhoIs? && Over(o.pc)
    ensures o.pc.Done? && o.result == Finished
  {
  }

  /** A write or Who-Is starts with errorDetected cleared. */
  lemma StartsClear(s: State, t: OpId, id: nat, late: bool)
    requires RequesterEnabled(s, t, id) && s.ops[t].pc.Clearing?
    ensures !RequesterStep(s, t, id, late).ops[t].node.err
  {
  }

  // ---- Binding ----

  /** `find_and_bind` returns true only for an instance in range, with the target set to an address
      the device was bound to at start-up or by a handled I-Am. */
  lemma BindingSafety(c: Config, s: State, t: OpId)
    requires Reachable(c, s) && t in s.ops && s.ops[t].bound
    ensures s.ops[t].device <= BACNET_MAX_INSTANCE
    ensures BoundTo(c, s.log, s.ops[t].device, s.ops[t].node.target)
  {
    ReachableInv(c, s);
  }

  /** Inside `find_and_bind` no error is ever set and no id is stored. */
  lemma NoErrorInBind(c: Config, s: State, t: OpId)
    requires Reachable(c, s) && t in s.ops && (InBind(s.ops[t].pc) || InWaiter(s.ops[t].pc))
    ensures !s.ops[t].node.err && s.ops[t].node.id == 0 && !s.ops[t].bound
  {
    ReachableInv(c, s);
    CleanWhileBinding(c, s.ops[t]);
  }

  // ---- Conservation ----

  /** For every device, as many waiters are linked as calls are between adding and removing one; so
      the get after a set finds one, and so does every remove. */
  lemma WaiterCount(c: Config, s: State, d: Device)
    requires Reachable(c, s)
    ensures |LinkedFor(s.ops, s.cond, d)| == |WaitingFor(s.ops, d)|
    ensures forall t :: t in s.ops && InWindow(s.ops[t].pc) && s.ops[t].device == d ==>
              CondLookup(s.ops, s.cond, d).Some?
  {
    ReachableInv(c, s);
    assert Balanced(s.ops, s.cond, d);
    forall t | t in s.ops && InWindow(s.ops[t].pc) && s.ops[t].device == d
      ensures CondLookup(s.ops, s.cond, d).Some?
    {
      WaiterFound(s.ops, s.cond, t);
    }
  }

  /** The pending table holds, each once, exactly the nodes of the calls between set and remove and
      one for every write that returned 1 after its bind. */
  lemma PendingConservation(c: Config, s: State, t: OpId)
    requires Reachable(c, s)
    ensures multiset(s.pend)[t] <= 1
    ensures t in s.pend <==> t in s.ops && Linked(s.ops[t].pc)
    ensures t in s.ops && s.ops[t].pc.Leaked? <==>
            t in s.pend && s.ops[t].kind.Write? && s.ops[t].bound && s.ops[t].result == Status(1)
            && !InUnlink(s.ops[t].pc) && !InSend(s.ops[t].pc) && !InWait(s.ops[t].pc)
  {
    ReachableInv(c, s);
    if t in s.ops {
      LeakedExactly(c, s.ops[t]);
    }
    DistinctOnce(s.pend, t);
  }

  lemma LeakedExactly(c: Config, o: Op)
    requires ControlOk(c, o) && ResultOk(o)
    ensures o.pc.Leaked? <==>
            Linked(o.pc) && o.kind.Write? && o.bound && o.result == Status(1)
            && !InUnlink(o.pc) && !InSend(o.pc) && !InWait(o.pc)
  {
  }

  lemma {:induction false} DistinctOnce<T>(q: seq<T>, x: T)
    requires Distinct(q)
    ensures multiset(q)[x] <= 1
    ensures x !in q ==> multiset(q)[x] == 0
  {
    if q == [] {
    } else {
      DistinctOnce(q[1..], x);
      assert q == [q[0]] + q[1..];
      assert multiset(q)[x] == multiset([q[0]])[x] + multiset(q[1..])[x];
    }
  }

  /** The discovered-device table never holds two entries for a device, and over any interleaving
      every entry inserted is either still linked or was taken once. */
  lemma DiscoveryConservation(c: Config, s: State, e: Entry)
    requires Reachable(c, s)
    ensures Distinct(EntryDevices(s.found.table))
    ensures multiset(s.found.inserted) == multiset(s.found.table) + multiset(s.found.gone)
    ensures multiset(s.found.table)[e] + multiset(s.found.gone)[e] <= 1
  {
    ReachableInv(c, s);
    TakenOnce(s.found, e);
  }

  /** No two pops or removals get the same entry, and a removal gets one of its device. */
  lemma TakersGetDistinctEntries(c: Config, s: State, k: TakerId, l: TakerId)
    requires Reachable(c, s) && k in s.found.takers && l in s.found.takers && k != l
    requires s.found.takers[k].got.Some?
    ensures s.found.takers[k].got != s.found.takers[l].got
    ensures s.found.takers[k].got.value in s.found.gone && s.found.takers[k].got.value !in s.found.table
    ensures s.found.takers[k].goal.Some? ==> s.found.takers[k].got.value.device == s.found.takers[k].goal.value
  {
    ReachableInv(c, s);
    TakenOnce(s.found, s.found.takers[k].got.value);
  }

  lemma ActionKeepsInserted(c: Config, s: State, a: Action)
    requires Enabled(s, a)
    ensures s.found.inserted <= Apply(c, s, a).found.inserted
  {
  }

  lemma InsertedKept(c: Config, s: State, s': State)
    requires Next(c, s, s')
    ensures s.found.inserted <= s'.found.inserted
  {
    var a: Action :| Enabled(s, a) && s' == Apply(c, s, a);
    ActionKeepsInserted(c, s, a);
  }

  lemma StepKeepsInserted(c: Config, run: seq<State>, j: nat)
    requires IsRun(c, run) && j + 1 < |run|
    ensures run[j].found.inserted <= run[j + 1].found.inserted
  {
    assert StepAt(c, run, j);
    InsertedKept(c, run[j], run[j + 1]);
  }

  lemma {:induction false} InsertedGrows(c: Config, run: seq<State>, i: nat, j: nat)
    requires IsRun(c, run) && i <= j < |run|
    ensures run[i].found.inserted <= run[j].found.inserted
  {
    if i == j {
    } else {
      InsertedGrows(c, run, i, j - 1);
      StepKeepsInserted(c, run, j - 1);
    }
  }

  /** The address of the first I-Am is kept until its entry is taken: at every later point of a run
      the entry is still the one linked for its device, or it has been taken. */
  lemma FirstAddressKept(c: Config, run: seq<State>, i: nat, j: nat, e: Entry)
    requires IsRun(c, run) && i <= j < |run| && e in run[i].found.inserted
    ensures e in run[j].found.table <==> e !in run[j].found.gone
    ensures e in run[j].found.table ==> forall x :: x in run[j].found.table && x.device == e.device ==> x == e
  {
    InsertedGrows(c, run, i, j);
    RunInv(c, run, j);
    LinkedOrTaken(run[j].found, e);
  }

  lemma LinkedOrTaken(f: Discovery, e: Entry)
    requires FoundOk(f) && e in f.inserted
    ensures e in f.table <==> e !in f.gone
    ensures e in f.table ==> forall x :: x in f.table && x.device == e.device ==> x == e
  {
    TakenOnce(f, e);
    assert multiset(f.inserted)[e] >= 1;
    assert (e in f.table <==> multiset(f.table)[e] > 0) && (e in f.gone <==> multiset(f.gone)[e] > 0);
    forall x | e in f.table && x in f.table && x.device == e.device ensures x == e {
      var i :| 0 <= i < |f.table| && f.table[i] == e;
      var j :| 0 <= j < |f.table| && f.table[j] == x;
      assert EntryDevices(f.table)[i] == EntryDevices(f.table)[j];
    }
  }
}

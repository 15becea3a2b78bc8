/** From the lookup of a message to the end of its handler. */
module Handling {
  import opened Bacnet
  import opened Protocol
  import opened Locking
  import opened Calls
  import opened Receiving
  import opened Waiters
  import opened Safety
  import opened Signals
  import opened Theorems
  import opened Delivery

  // ---- Responses ----

  /** The handler of this message is at work on the node of call `t`, and will signal it. */
  predicate Responding(s: State, m: Msg, t: OpId) {
    && t in s.ops && !s.ops[t].kind.WhoIs?
    && RxMsg(s.rx) == Some(m) && RxNode(s.rx) == Some(t)
    && (s.rx.Judging? && m.service.ReadAck? ==> s.ops[t].node.value.None?)
  }

  predicate AwakeOrOver(s: State, t: OpId) {
    t in s.ops && ((s.ops[t].pc.Waiting? && s.ops[t].woken) || WaitOver(s.ops[t].pc))
  }

  lemma RespondingRequest(c: Config, s: State, u: OpId, id: nat, late: bool, m: Msg, t: OpId)
    requires CallsOk(c, s.ops) && RequesterEnabled(s, u, id) && Responding(s, m, t)
    ensures Responding(RequesterStep(s, u, id, late), m, t)
  {
    StepNext(c, s.ops[u], InputOf(s, u, id, late));
  }

  lemma RespondingHandle(s: State, w: Option<OpId>, skip: bool, m: Msg, t: OpId)
    requires Responding(s, m, t) && (s.rx.Releasing? ==> AwakeOrOver(s, t))
    ensures var s' := RxStep(s, w, skip);
            if s'.rx == Idle then AwakeOrOver(s', t) else Responding(s', m, t)
  {
    RxOpsSameCall(s.rx, s.ops, w);
    RxNodes(s.rx, s.ops, w, t);
  }

  lemma RespondingAction(c: Config, s: State, a: Action, m: Msg, t: OpId)
    requires CallsOk(c, s.ops) && Enabled(s, a) && Responding(s, m, t) && (s.rx.Releasing? ==> AwakeOrOver(s, t))
    ensures var s' := Apply(c, s, a);
            if s'.rx == Idle then AwakeOrOver(s', t) else Responding(s', m, t)
  {
    match a
    case Request(u, id, late) => RespondingRequest(c, s, u, id, late, m, t);
    case Handle(w, skip) => RespondingHandle(s, w, skip, m, t);
    case _ =>
  }

  lemma RespondingNext(c: Config, s: State, s': State, m: Msg, t: OpId)
    requires Reachable(c, s) && Next(c, s, s') && Responding(s, m, t)
    ensures if s'.rx == Idle then AwakeOrOver(s', t) else Responding(s', m, t)
  {
    ReachableInv(c, s);
    if s.rx.Releasing? {
      NoLostWakeup(c, s);
    }
    var a: Action :| Enabled(s, a) && s' == Apply(c, s, a);
    RespondingAction(c, s, a, m, t);
  }

  lemma RespondingStep(c: Config, run: seq<State>, k: nat, m: Msg, t: OpId)
    requires IsRun(c, run) && 0 < k < |run| && Responding(run[k - 1], m, t)
    ensures if run[k].rx == Idle then AwakeOrOver(run[k], t) else Responding(run[k], m, t)
  {
    RunReaches(c, run, k - 1);
    assert StepAt(c, run, k - 1);
    RespondingNext(c, run[k - 1], run[k], m, t);
  }

  lemma {:induction false} StaysResponding(c: Config, run: seq<State>, i: nat, j: nat, m: Msg, t: OpId)
    requires IsRun(c, run) && i <= j < |run| && Responding(run[i], m, t) && forall k :: i <= k < j ==> run[k].rx != Idle
    ensures if run[j].rx == Idle then AwakeOrOver(run[j], t) else Responding(run[j], m, t)
  {
    if i == j {
    } else {
      StaysResponding(c, run, i, j - 1, m, t);
      RespondingStep(c, run, j, m, t);
    }
  }

  /** A response of any service and from any source that is looked up and finds the node of a read or
      write: when its handler is done, that call is awake or its wait is over. The one exception is a read
      ACK for a node that has its value. */
  lemma ResponseWakes(c: Config, run: seq<State>, i: nat, j: nat, m: Msg, t: OpId)
    requires IsRun(c, run) && LooksUp(run, i, m) && i < j < |run|
    requires Lookup(run[i].ops, run[i].pend, m.id) == Some(t) && t in run[i].ops && !run[i].ops[t].kind.WhoIs?
    requires m.service.ReadAck? ==> run[i].ops[t].node.value.None?
    requires run[j].rx == Idle && forall k :: i < k < j ==> run[k].rx != Idle
    ensures t in run[j].ops && (run[j].ops[t].pc.Waiting? ==> run[j].ops[t].woken)
    ensures run[j].ops[t].pc.Waiting? || WaitOver(run[j].ops[t].pc)
  {
    assert StepAt(c, run, i);
    LookupStep(c, run[i], run[i + 1], m);
    StaysResponding(c, run, i + 1, j, m, t);
  }

  // ---- I-Ams ----

  /** The step in which the I-Am handler looks for a waiter. */
  ghost predicate LooksForWaiter(run: seq<State>, i: nat, a: IAm) {
    i + 1 < |run| && run[i].rx == CGetting(a) && run[i + 1].rx != run[i].rx
  }

  ghost predicate HasWaiterFor(s: State, d: Device) {
    exists n :: n in s.cond && n in s.ops && s.ops[n].device == d
  }

  ghost predicate HasEntry(table: seq<Entry>, d: Device) {
    exists e :: e in table && e.device == d
  }

  lemma WaiterFoundOrNot(c: Config, s: State, d: Device)
    requires Reachable(c, s)
    ensures CondLookup(s.ops, s.cond, d).Some? <==> HasWaiterFor(s, d)
  {
    ReachableInv(c, s);
    CondLookupFirst(s.ops, s.cond, d);
    if n :| n in s.cond && n in s.ops && s.ops[n].device == d {
      assert n in LinkedFor(s.ops, s.cond, d);
    }
  }

  lemma SearchHandle(s: State, w: Option<OpId>, skip: bool, a: IAm)
    requires s.rx == CGetting(a)
    ensures var s', n := RxStep(s, w, skip), CondLookup(s.ops, s.cond, a.device);
            && s'.rx == (if n.Some? then CTesting(a, n.value) else TableLock(a)) && s'.found == s.found
  {
  }

  lemma OthersLeaveSearch(c: Config, s: State, x: Action)
    requires Enabled(s, x) && s.rx != Idle && !x.Handle?
    ensures Apply(c, s, x).rx == s.rx && Apply(c, s, x).found.inserted == s.found.inserted
  {
  }

  lemma SearchStep(c: Config, s: State, s': State, a: IAm)
    requires Next(c, s, s') && s.rx == CGetting(a) && s'.rx != s.rx
    ensures var n := CondLookup(s.ops, s.cond, a.device);
            && s'.rx == (if n.Some? then CTesting(a, n.value) else TableLock(a))
            && s'.found.inserted == s.found.inserted
  {
    var x: Action :| Enabled(s, x) && s' == Apply(c, s, x);
    if x.Handle? {
      SearchHandle(s, x.w, x.skip, a);
    } else {
      OthersLeaveSearch(c, s, x);
    }
  }

  /** The handler works on a waiter, and has inserted nothing. */
  predicate Notifying(s: State, inserted: seq<Entry>) {
    (s.rx.CTesting? || s.rx.CBinding? || PastTest(s.rx)) && s.found.inserted == inserted
  }

  lemma NotifyingHandle(s: State, w: Option<OpId>, skip: bool, inserted: seq<Entry>)
    requires Notifying(s, inserted)
    ensures var s' := RxStep(s, w, skip);
            s'.found.inserted == inserted && (s'.rx == Idle || Notifying(s', inserted))
  {
  }

  lemma NotifyingNext(c: Config, s: State, s': State, inserted: seq<Entry>)
    requires Next(c, s, s') && Notifying(s, inserted)
    ensures s'.found.inserted == inserted && (s'.rx == Idle || Notifying(s', inserted))
  {
    var x: Action :| Enabled(s, x) && s' == Apply(c, s, x);
    if x.Handle? {
      NotifyingHandle(s, x.w, x.skip, inserted);
    } else {
      OthersLeaveSearch(c, s, x);
    }
  }

  lemma {:induction false} StaysNotifying(c: Config, run: seq<State>, i: nat, j: nat, inserted: seq<Entry>)
    requires IsRun(c, run) && i <= j < |run| && Notifying(run[i], inserted)
    requires forall k :: i <= k < j ==> run[k].rx != Idle
    ensures run[j].found.inserted == inserted && (run[j].rx == Idle || Notifying(run[j], inserted))
  {
    if i == j {
    } else {
      StaysNotifying(c, run, i, j - 1, inserted);
      assert StepAt(c, run, j - 1);
      NotifyingNext(c, run[j - 1], run[j], inserted);
    }
  }

  /** An I-Am that finds a waiter for its device inserts nothing. */
  lemma WaiterInsertsNothing(c: Config, run: seq<State>, i: nat, j: nat, a: IAm)
    requires IsRun(c, run) && LooksForWaiter(run, i, a) && HasWaiterFor(run[i], a.device) && i < j < |run|
    requires run[j].rx == Idle && forall k :: i < k < j ==> run[k].rx != Idle
    ensures run[j].found.inserted == run[i].found.inserted
  {
    RunReaches(c, run, i);
    WaiterFoundOrNot(c, run[i], a.device);
    assert StepAt(c, run, i);
    SearchStep(c, run[i], run[i + 1], a);
    StaysNotifying(c, run, i + 1, j, run[i].found.inserted);
  }

  /** The handler is about to insert, and has inserted nothing yet. */
  predicate Discovers(s: State, a: IAm, inserted: seq<Entry>) {
    (s.rx == TableLock(a) || s.rx == TableAdding(a)) && s.found.inserted == inserted
  }

  /** What an insertion leaves: a new entry for the device, or the one it had. */
  ghost predicate Inserted(f: Discovery, f': Discovery, a: IAm) {
    if HasEntry(f.table, a.device) then f' == f
    else
      var e := Entry(|f.inserted|, a.device, a.src);
      f'.inserted == f.inserted + [e] && f'.table == [e] + f.table && f'.gone == f.gone
  }

  lemma InsertInserts(f: Discovery, a: IAm)
    ensures Inserted(f, Insert(f, a), a)
  {
    var ds := EntryDevices(f.table);
    if a.device in ds {
      var i :| 0 <= i < |ds| && ds[i] == a.device;
      assert f.table[i] in f.table && f.table[i].device == a.device;
    } else {
      forall e | e in f.table ensures e.device != a.device {
        var i :| 0 <= i < |f.table| && f.table[i] == e;
        assert ds[i] in ds;
      }
    }
  }

  lemma DiscoversHandle(s: State, w: Option<OpId>, skip: bool, a: IAm, inserted: seq<Entry>)
    requires Discovers(s, a, inserted)
    ensures var s' := RxStep(s, w, skip);
            if s'.rx == Idle then s.rx == TableAdding(a) && Inserted(s.found, s'.found, a)
            else Discovers(s', a, inserted)
  {
    InsertInserts(s.found, a);
  }

  lemma DiscoversNext(c: Config, s: State, s': State, a: IAm, inserted: seq<Entry>)
    requires Next(c, s, s') && Discovers(s, a, inserted)
    ensures if s'.rx == Idle then s.rx == TableAdding(a) && Inserted(s.found, s'.found, a)
            else Discovers(s', a, inserted)
  {
    var x: Action :| Enabled(s, x) && s' == Apply(c, s, x);
    if x.Handle? {
      DiscoversHandle(s, x.w, x.skip, a, inserted);
    } else {
      OthersLeaveSearch(c, s, x);
    }
  }

  lemma {:induction false} StaysDiscovering(c: Config, run: seq<State>, i: nat, j: nat, a: IAm, inserted: seq<Entry>)
    requires IsRun(c, run) && i <= j < |run| && Discovers(run[i], a, inserted)
    requires forall k :: i <= k <= j ==> run[k].rx != Idle
    ensures Discovers(run[j], a, inserted)
  {
    if i == j {
    } else {
      StaysDiscovering(c, run, i, j - 1, a, inserted);
      assert StepAt(c, run, j - 1);
      DiscoversNext(c, run[j - 1], run[j], a, inserted);
    }
  }

  lemma HoldsTable(c: Config, s: State, a: IAm)
    requires Reachable(c, s) && s.rx == TableAdding(a)
    ensures Owns(s.locks, TableMutex, Receiver)
  {
    ReachableLocks(c, s);
    assert Owns(s.locks, TableMutex, Receiver) <==> RxHolds(s.rx, TableMutex);
  }

  lemma SearchFails(c: Config, run: seq<State>, i: nat, a: IAm)
    requires IsRun(c, run) && LooksForWaiter(run, i, a) && !HasWaiterFor(run[i], a.device)
    ensures Discovers(run[i + 1], a, run[i].found.inserted)
  {
    RunReaches(c, run, i);
    WaiterFoundOrNot(c, run[i], a.device);
    assert StepAt(c, run, i);
    SearchStep(c, run[i], run[i + 1], a);
  }

  lemma EndsInserting(c: Config, run: seq<State>, j: nat, a: IAm, inserted: seq<Entry>)
    requires IsRun(c, run) && 0 < j < |run| && Discovers(run[j - 1], a, inserted) && run[j].rx == Idle
    ensures run[j - 1].rx == TableAdding(a) && Inserted(run[j - 1].found, run[j].found, a)
  {
    assert StepAt(c, run, j - 1);
    DiscoversNext(c, run[j - 1], run[j], a, inserted);
  }

  lemma LastInserts(c: Config, run: seq<State>, i: nat, j: nat, a: IAm)
    requires IsRun(c, run) && LooksForWaiter(run, i, a) && !HasWaiterFor(run[i], a.device) && i < j < |run|
    requires run[j].rx == Idle && forall k :: i < k < j ==> run[k].rx != Idle
    ensures run[j - 1].rx == TableAdding(a) && run[j - 1].found.inserted == run[i].found.inserted
    ensures Inserted(run[j - 1].found, run[j].found, a)
  {
    SearchFails(c, run, i, a);
    StaysDiscovering(c, run, i + 1, j - 1, a, run[i].found.inserted);
    EndsInserting(c, run, j, a, run[i].found.inserted);
  }

  /** An I-Am that finds no waiter for its device: the last thing its handler does, holding the table
      mutex, is to insert one entry, with the device and the sender, if no entry of the device is linked
      then, and otherwise nothing; before that it inserts nothing. */
  lemma IAmDiscovers(c: Config, run: seq<State>, i: nat, j: nat, a: IAm)
    requires IsRun(c, run) && LooksForWaiter(run, i, a) && !HasWaiterFor(run[i], a.device) && i < j < |run|
    requires run[j].rx == Idle && forall k :: i < k < j ==> run[k].rx != Idle
    ensures Owns(run[j - 1].locks, TableMutex, Receiver)
    ensures run[j - 1].found.inserted == run[i].found.inserted
    ensures if exists e :: e in run[j - 1].found.table && e.device == a.device
            then run[j].found.inserted == run[i].found.inserted
            else
              var e := Entry(|run[i].found.inserted|, a.device, a.src);
              run[j].found.inserted == run[i].found.inserted + [e] && e in run[j].found.table
    ensures exists e :: e in run[j].found.table && e.device == a.device
  {
    LastInserts(c, run, i, j, a);
    RunReaches(c, run, j - 1);
    HoldsTable(c, run[j - 1], a);
    EntryLinked(run[j - 1].found, run[j].found, a);
  }

  lemma EntryLinked(f: Discovery, f': Discovery, a: IAm)
    requires Inserted(f, f', a)
    ensures HasEntry(f'.table, a.device)
    ensures !HasEntry(f.table, a.device) ==> Entry(|f.inserted|, a.device, a.src) in f'.table
  {
    if !HasEntry(f.table, a.device) {
      assert f'.table[0].device == a.device;
    }
  }
}

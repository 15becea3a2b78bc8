/** `find_and_bind` seen from outside: who is bound at once, who never is; and what a pop or a removal
    of a discovered device gets. */
module Binding {
  import opened Bacnet
  import opened Lists
  import opened Protocol
  import opened Calls
  import opened Waiters
  import opened Discovering
  import opened Safety

  /** A call for an instance above 4194303 asks nobody, is never bound, and fails. */
  lemma OutOfRangeFails(c: Config, s: State, t: OpId)
    requires Reachable(c, s) && t in s.ops && !s.ops[t].kind.WhoIs? && s.ops[t].device > 4194303
    ensures !InWaiter(s.ops[t].pc) && !s.ops[t].bound && s.ops[t].sent == 0
    ensures s.ops[t].pc.Done? ==> s.ops[t].result == (if s.ops[t].kind.Read? then Got(None) else Status(1))
  {
    ReachableInv(c, s);
    assert ControlOk(c, s.ops[t]) && ResultOk(s.ops[t]);
  }

  /** The first bind request succeeds if and only if the instance is in range and the device is bound,
      with the address it has then; if only the address is missing, the call goes on to ask for it. */
  lemma FirstBind(s: State, t: OpId, id: nat, late: bool)
    requires RequesterEnabled(s, t, id) && s.ops[t].pc.Binding? && !s.ops[t].bound
    ensures var o, o' := s.ops[t], RequesterStep(s, t, id, late).ops[t];
            && (o'.bound <==> o.device <= 4194303 && o.device in s.bind)
            && (o'.bound ==> o'.pc.NodeLock? && o'.node.target == s.bind[o.device])
            && (!o'.bound && o.device <= 4194303 ==> o'.pc.CondAddLock?)
            && (o.device > 4194303 ==> o'.pc.UnlinkLock?)
  {
  }

  /** The call has not tried to bind yet, or is bound. */
  predicate Straight(o: Op) {
    InSet(o.pc) || o.pc.Binding? || o.bound
  }

  lemma StraightStep(c: Config, o: Op, e: Input)
    requires ControlOk(c, o) && !o.kind.WhoIs? && !Over(o.pc) && Straight(o)
    requires o.device <= 4194303 && e.binding.Some?
    ensures Straight(OpNext(o, e))
  {
    StepNext(c, o, e);
    if InSet(o.pc) { assert InSet(SetNext(o).pc) || SetNext(o).pc.Binding?; }
  }

  lemma StraightAction(c: Config, s: State, a: Action, t: OpId)
    requires CallsOk(c, s.ops) && Enabled(s, a) && t in s.ops && !s.ops[t].kind.WhoIs? && Straight(s.ops[t])
    requires s.ops[t].device <= 4194303 && s.ops[t].device in s.bind
    ensures t in Apply(c, s, a).ops && Straight(Apply(c, s, a).ops[t])
  {
    match a
    case Request(u, id, late) => if u == t { StraightStep(c, s.ops[t], InputOf(s, t, id, late)); }
    case Handle(w, _) => RxSameWaiter(s.rx, s.ops, w); RxKeepsBound(s.rx, s.ops, w, t);
    case _ =>
  }

  lemma RxKeepsBound(rx: Rx, ops: map<OpId, Op>, w: Option<OpId>, t: OpId)
    requires t in ops
    ensures t in RxOps(rx, ops, w) && RxOps(rx, ops, w)[t].bound == ops[t].bound
  {
  }

  /** A call of this kind whose device is in range and bound. */
  predicate Ready(s: State, t: OpId) {
    t in s.ops ==> !s.ops[t].kind.WhoIs? && s.ops[t].device <= 4194303 && s.ops[t].device in s.bind
  }

  predicate GoesStraight(s: State, t: OpId) {
    t in s.ops ==> Straight(s.ops[t])
  }

  lemma StraightNext(c: Config, s: State, s': State, t: OpId)
    requires CallsOk(c, s.ops) && Next(c, s, s') && Ready(s, t) && GoesStraight(s, t)
    ensures GoesStraight(s', t)
  {
    var a: Action :| Enabled(s, a) && s' == Apply(c, s, a);
    if t in s.ops {
      StraightAction(c, s, a, t);
    } else {
      NewIsStarting(c, s, a, t);
    }
  }

  lemma NewIsStarting(c: Config, s: State, a: Action, t: OpId)
    requires Enabled(s, a) && t !in s.ops
    ensures t in Apply(c, s, a).ops ==> Apply(c, s, a).ops[t].pc.Starting?
  {
    if a.Handle? {
      RxSameWaiter(s.rx, s.ops, a.w);
    }
  }

  lemma StraightInRun(c: Config, run: seq<State>, j: nat, t: OpId)
    requires IsRun(c, run) && 0 < j < |run| && Ready(run[j - 1], t) && GoesStraight(run[j - 1], t)
    ensures GoesStraight(run[j], t)
  {
    RunInv(c, run, j - 1);
    assert StepAt(c, run, j - 1);
    StraightNext(c, run[j - 1], run[j], t);
  }

  /** A read or write whose device is in range and bound all along never waits for an I-Am, and is bound
      by the time it is over. */
  lemma {:induction false} BoundThroughout(c: Config, run: seq<State>, j: nat, t: OpId)
    requires IsRun(c, run) && j < |run| && forall k :: 0 <= k <= j ==> Ready(run[k], t)
    ensures t in run[j].ops ==> InSet(run[j].ops[t].pc) || run[j].ops[t].pc.Binding? || run[j].ops[t].bound
  {
    if j == 0 {
    } else {
      BoundThroughout(c, run, j - 1, t);
      StraightInRun(c, run, j, t);
    }
  }

  /** A call in `find_and_bind`, or bound. */
  predicate InOrBound(o: Op) {
    InFindAndBind(o.pc) || o.bound
  }

  lemma InOrBoundStep(c: Config, o: Op, e: Input)
    requires ControlOk(c, o) && !o.kind.WhoIs? && !Over(o.pc) && InOrBound(o) && NoFault(o, e)
    requires o.device <= 4194303 && e.binding.Some?
    ensures InOrBound(OpNext(o, e))
  {
    StepNext(c, o, e);
    if InBind(o.pc) {
      CleanWhileBinding(c, o);
      assert InOrBound(BindNext(o, e));
    } else if InWaiter(o.pc) {
      assert InOrBound(WaiterNext(o, e));
    }
  }

  lemma InOrBoundAction(c: Config, s: State, a: Action, t: OpId)
    requires TablesOk(c, s) && BindingOk(c, s) && Enabled(s, a) && t in s.ops && !s.ops[t].kind.WhoIs?
    requires InOrBound(s.ops[t]) && s.ops[t].device <= 4194303 && s.ops[t].device in s.bind
    ensures t in Apply(c, s, a).ops && InOrBound(Apply(c, s, a).ops[t])
  {
    match a
    case Request(u, id, late) =>
      if u == t {
        RequestReady(c, s, t, id, late);
        InOrBoundStep(c, s.ops[t], InputOf(s, t, id, late));
      }
    case Handle(w, _) => RxSameWaiter(s.rx, s.ops, w); RxKeepsBound(s.rx, s.ops, w, t);
    case _ =>
  }

  /** The call is in `find_and_bind` and its device, in range, is bound; or the call is. */
  predicate WillBind(s: State, t: OpId) {
    && t in s.ops && !s.ops[t].kind.WhoIs? && s.ops[t].device <= 4194303
    && s.ops[t].device in s.bind && InOrBound(s.ops[t])
  }

  lemma ActionKeepsDevice(c: Config, s: State, a: Action, t: OpId)
    requires CallsOk(c, s.ops) && Enabled(s, a) && t in s.ops
    ensures var s' := Apply(c, s, a);
            && t in s'.ops && s'.ops[t].kind == s.ops[t].kind && s'.ops[t].device == s.ops[t].device
            && s.bind.Keys <= s'.bind.Keys
  {
    match a
    case Request(u, id, late) => if u == t { StepNext(c, s.ops[t], InputOf(s, t, id, late)); }
    case Handle(w, _) => RxSameWaiter(s.rx, s.ops, w);
    case _ =>
  }

  lemma WillBindNext(c: Config, s: State, s': State, t: OpId)
    requires Inv(c, s) && Next(c, s, s') && WillBind(s, t)
    ensures WillBind(s', t)
  {
    var a: Action :| Enabled(s, a) && s' == Apply(c, s, a);
    InOrBoundAction(c, s, a, t);
    ActionKeepsDevice(c, s, a, t);
  }

  lemma WillBindStep(c: Config, run: seq<State>, j: nat, t: OpId)
    requires IsRun(c, run) && 0 < j < |run| && WillBind(run[j - 1], t)
    ensures WillBind(run[j], t)
  {
    RunInv(c, run, j - 1);
    assert StepAt(c, run, j - 1);
    WillBindNext(c, run[j - 1], run[j], t);
  }

  /** If the device of a call is bound at any time while the call is in `find_and_bind`, the call comes
      out of it bound. */
  lemma {:induction false} BoundInTime(c: Config, run: seq<State>, i: nat, j: nat, t: OpId)
    requires IsRun(c, run) && i <= j < |run| && t in run[i].ops && !run[i].ops[t].kind.WhoIs?
    requires InFindAndBind(run[i].ops[t].pc) && run[i].ops[t].device <= 4194303
    requires run[i].ops[t].device in run[i].bind
    ensures WillBind(run[j], t)
    ensures t in run[j].ops && (InFindAndBind(run[j].ops[t].pc) || run[j].ops[t].bound)
  {
    if i == j {
    } else {
      BoundInTime(c, run, i, j - 1, t);
      WillBindStep(c, run, j, t);
    }
  }

  // ---- Pops and removals ----

  /** What a pop, or a removal, gets when it is done: the first entry, or the one of its device. */
  predicate Gets(goal: Option<Device>, table: seq<Entry>, got: Option<Entry>) {
    match got
    case Some(e) => e in table && (if goal.None? then e == table[0] else e.device == goal.value)
    case None => table == [] || (goal.Some? && forall e :: e in table ==> e.device != goal.value)
  }

  lemma TakeNextGets(f: Discovery, k: TakerId)
    requires FoundOk(f) && k in f.takers && f.takers[k].pc.Holding? && f.takers[k].got.None?
    ensures var f', x' := TakeNext(f, k), TakeNext(f, k).takers[k];
            && x'.pc.Ended? && Gets(f.takers[k].goal, f.table, x'.got)
            && f'.gone == f.gone + (if x'.got.Some? then [x'.got.value] else [])
            && forall e :: e in f'.table <==> e in f.table && Some(e) != x'.got
  {
    var ds, goal := EntryDevices(f.table), f.takers[k].goal;
    var i := TakeIndex(f.table, goal);
    EntriesDistinct(f);
    if i < |f.table| {
      DistinctRemove(f.table, i);
      assert goal.Some? ==> ds[i] == goal.value;
    } else if goal.Some? {
      forall e | e in f.table ensures e.device != goal.value {
        var j :| 0 <= j < |f.table| && f.table[j] == e;
        assert ds[j] in ds;
      }
    }
  }

  lemma EntriesDistinct(f: Discovery)
    requires FoundOk(f)
    ensures Distinct(f.table)
  {
    var ds := EntryDevices(f.table);
    forall i, j | 0 <= i < j < |f.table| ensures f.table[i] != f.table[j] {
      assert ds[i] != ds[j];
    }
  }

  /** A pop takes the first entry off the discovered-device table, a removal the one of its device, if
      there is one; the others stay, and what was taken is recorded as gone. */
  lemma TakerGets(c: Config, s: State, k: TakerId)
    requires Reachable(c, s) && TakerEnabled(s, k) && s.found.takers[k].pc.Holding?
    ensures var f, f' := s.found, TakerStep(s, k).found;
            && f'.takers[k].pc.Ended? && Gets(f.takers[k].goal, f.table, f'.takers[k].got)
            && f'.gone == f.gone + (if f'.takers[k].got.Some? then [f'.takers[k].got.value] else [])
            && forall e :: e in f'.table <==> e in f.table && Some(e) != f'.takers[k].got
  {
    ReachableInv(c, s);
    TakeNextGets(s.found, k);
  }
}

/** device_condition_map.c: the waiters for I-Am, keyed by device id; ids may repeat. */
module ConditionMap {
  import opened Bacnet
  import opened Chain
  import opened Lists
  import Protocol

  /** The data is the address the caller of the set passed; no caller passes NULL. */
  type Table = List<uint32, Address>

  // ---- The waiters of the protocol model ----

  /** The list holds, in order, the devices of the calls whose waiters are linked in this state. */
  ghost predicate Represents(keys: seq<uint32>, s: Protocol.State) {
    keys == Protocol.Devices(s.ops, s.cond) && Distinct(s.cond)
  }

  /** The node that stands for the waiter of a call, if it is linked. */
  ghost function NodeOf(nodes: seq<Node<uint32, Address>>, s: Protocol.State, t: Protocol.OpId)
    : (n: Node?<uint32, Address>)
  {
    At(nodes, IndexOf(s.cond, t))
  }

  lemma SameDevices(ops: map<Protocol.OpId, Protocol.Op>, cond: seq<Protocol.OpId>, t: Protocol.OpId, o: Protocol.Op)
    requires t in ops && o.device == ops[t].device
    ensures Protocol.Devices(ops[t := o], cond) == Protocol.Devices(ops, cond)
  {
  }

  lemma WaiterStep(o: Protocol.Op, e: Protocol.Input)
    requires o.pc.CondAdding? || o.pc.CondDropping?
    ensures Protocol.OpNext(o, e).device == o.device
  {
  }

  /** What the get finds is the waiter that the model's lookup finds. */
  lemma GetRefinesLookup(keys: seq<uint32>, nodes: seq<Node<uint32, Address>>, s: Protocol.State, d: uint32)
    requires Represents(keys, s) && |nodes| == |keys|
    ensures At(nodes, IndexOf(keys, d)) == match Protocol.CondLookup(s.ops, s.cond, d)
                                           case Some(t) => NodeOf(nodes, s, t)
                                           case None => null
  {
    var i := IndexOf(keys, d);
    if i < |keys| {
      IndexOfDistinct(s.cond, i);
    }
  }

  /** The set is the model's adding step. */
  lemma SetRefinesAdding(keys: seq<uint32>, s: Protocol.State, t: Protocol.OpId, id: nat, late: bool)
    requires Represents(keys, s) && t in s.ops && t !in s.cond && s.ops[t].pc.CondAdding?
    ensures Represents([s.ops[t].device] + keys, Protocol.RequesterStep(s, t, id, late))
  {
    var e := Protocol.InputOf(s, t, id, late);
    WaiterStep(s.ops[t], e);
    DistinctPrepend(t, s.cond);
    SameDevices(s.ops, [t] + s.cond, t, Protocol.OpNext(s.ops[t], e));
    assert forall j :: 0 < j <= |s.cond| ==> ([t] + s.cond)[j] == s.cond[j - 1];
    assert Protocol.Devices(s.ops, [t] + s.cond) == [s.ops[t].device] + keys;
  }

  /** The remove is the model's dropping step. */
  lemma RemoveRefinesDropping(keys: seq<uint32>, s: Protocol.State, t: Protocol.OpId, id: nat, late: bool)
    requires Represents(keys, s) && t in s.ops && s.ops[t].pc.CondDropping?
    ensures var i := IndexOf(keys, s.ops[t].device);
            Represents(if i < |keys| then RemoveAt(keys, i) else keys, Protocol.RequesterStep(s, t, id, late))
  {
    var e := Protocol.InputOf(s, t, id, late);
    var i := IndexOf(keys, s.ops[t].device);
    var cond' := if i < |keys| then RemoveAt(s.cond, i) else s.cond;
    WaiterStep(s.ops[t], e);
    assert Protocol.CondNext(s.ops, s.cond, t, s.ops[t]) == cond';
    SameDevices(s.ops, cond', t, Protocol.OpNext(s.ops[t], e));
    if i < |keys| {
      DistinctRemove(s.cond, i);
      DevicesRemove(s.ops, s.cond, i);
    }
  }

  lemma DevicesRemove(ops: map<Protocol.OpId, Protocol.Op>, cond: seq<Protocol.OpId>, i: nat)
    requires i < |cond|
    ensures Protocol.Devices(ops, RemoveAt(cond, i)) == RemoveAt(Protocol.Devices(ops, cond), i)
  {
  }

  lemma KeepsDevice(o: Protocol.Op, e: Protocol.Input)
    ensures Protocol.OpNext(o, e).device == o.device
  {
    if Protocol.InSet(o.pc) { assert Protocol.SetNext(o).device == o.device; }
    else if Protocol.InBind(o.pc) { assert Protocol.BindNext(o, e).device == o.device; }
    else if Protocol.InWaiter(o.pc) { assert Protocol.WaiterNext(o, e).device == o.device; }
    else if Protocol.InSend(o.pc) { assert Protocol.SendNext(o, e).device == o.device; }
    else if Protocol.InWait(o.pc) { assert Protocol.WaitNext(o, e).device == o.device; }
    else { assert Protocol.UnlinkNext(o, e).device == o.device; }
  }

  lemma HandlerKeepsDevices(rx: Protocol.Rx, ops: map<Protocol.OpId, Protocol.Op>, w: Option<Protocol.OpId>,
                            cond: seq<Protocol.OpId>)
    ensures Protocol.Devices(Protocol.RxOps(rx, ops, w), cond) == Protocol.Devices(ops, cond)
  {
  }

  /** Does this step change the list of waiters? */
  predicate TouchesList(s: Protocol.State, a: Protocol.Action) {
    a.Request? && a.t in s.ops && (s.ops[a.t].pc.CondAdding? || s.ops[a.t].pc.CondDropping?)
  }

  /** No other step of the protocol changes what the list stands for. */
  lemma OthersKeepList(c: Protocol.Config, keys: seq<uint32>, s: Protocol.State, a: Protocol.Action)
    requires Represents(keys, s) && Protocol.Enabled(s, a) && !TouchesList(s, a)
    requires forall t :: t in s.cond ==> t in s.ops
    ensures Represents(keys, Protocol.Apply(c, s, a))
  {
    match a
    case Request(t, id, late) =>
      KeepsDevice(s.ops[t], Protocol.InputOf(s, t, id, late));
      SameDevices(s.ops, s.cond, t, Protocol.OpNext(s.ops[t], Protocol.InputOf(s, t, id, late)));
    case Handle(w, _) => HandlerKeepsDevices(s.rx, s.ops, w, s.cond);
    case Call(t, k, d) => assert Protocol.Devices(s.ops[t := Protocol.NewOp(c, k, d)], s.cond) == keys;
    case _ =>
  }

  // ---- The operations ----

  /** `device_condition_map_get`: the first waiter for this device, or null. On the list of the model's
      waiters it is the model's lookup. */
  method Get(list: List?<uint32, Address>, deviceId: uint32, ghost s: Protocol.State)
    returns (n: Node?<uint32, Address>)
    requires list != null ==> list.Valid()
    ensures n == if list == null then null else At(list.nodes, IndexOf(list.Keys(), deviceId))
    ensures list != null && Represents(list.Keys(), s) ==>
              n == match Protocol.CondLookup(s.ops, s.cond, deviceId)
                   case Some(t) => NodeOf(list.nodes, s, t)
                   case None => null
  {
    if list == null {
      return null;
    }
    n := list.Find(deviceId);
    if Represents(list.Keys(), s) {
      GetRefinesLookup(list.Keys(), list.nodes, s, deviceId);
    }
  }

  /** `device_condition_map_set`: a waiter is linked in front, even if the device has one. For a call that
      adds its waiter it is the model's adding step. */
  method Set(list: Table, deviceId: uint32, address: Address, ghost s: Protocol.State, ghost t: Protocol.OpId)
    requires list.Valid()
    modifies list, list.nodes`prev
    ensures list.Valid() && |list.nodes| == |old(list.nodes)| + 1 && list.nodes[1..] == old(list.nodes)
    ensures fresh(list.nodes[0])
    ensures list.Keys() == [deviceId] + old(list.Keys()) && list.Values() == [address] + old(list.Values())
    ensures Represents(old(list.Keys()), s) && Adds(s, t, deviceId) ==>
              forall id, late :: Represents(list.Keys(), Protocol.RequesterStep(s, t, id, late))
  {
    var n := list.Prepend(deviceId, address);
    if Represents(old(list.Keys()), s) && Adds(s, t, deviceId) {
      forall id, late ensures Represents(list.Keys(), Protocol.RequesterStep(s, t, id, late)) {
        SetRefinesAdding(old(list.Keys()), s, t, id, late);
      }
    }
  }

  predicate Adds(s: Protocol.State, t: Protocol.OpId, d: uint32) {
    t in s.ops && t !in s.cond && s.ops[t].pc.CondAdding? && s.ops[t].device == d
  }

  /** `device_condition_map_remove`: the first waiter for this device is removed, if there is one. For a
      call that removes a waiter it is the model's dropping step. */
  method Remove(list: Table, deviceId: uint32, ghost s: Protocol.State, ghost t: Protocol.OpId) returns (ok: bool)
    requires list.Valid()
    modifies list, list.nodes`next, list.nodes`prev
    ensures list.Valid() && ok == (deviceId in old(list.Keys()))
    ensures var i := IndexOf(old(list.Keys()), deviceId);
            list.nodes == if ok then RemoveAt(old(list.nodes), i) else old(list.nodes)
    ensures Represents(old(list.Keys()), s) && Drops(s, t, deviceId) ==>
              forall id, late :: Represents(list.Keys(), Protocol.RequesterStep(s, t, id, late))
  {
    ghost var keys, i := list.Keys(), IndexOf(list.Keys(), deviceId);
    if Represents(keys, s) && Drops(s, t, deviceId) {
      forall id, late
        ensures Represents(if i < |keys| then RemoveAt(keys, i) else keys, Protocol.RequesterStep(s, t, id, late))
      {
        RemoveRefinesDropping(keys, s, t, id, late);
      }
    }
    var dcm := list.Find(deviceId);
    if dcm == null {
      return false;
    }
    list.Unlink(dcm, i);
    return true;
  }

  predicate Drops(s: Protocol.State, t: Protocol.OpId, d: uint32) {
    t in s.ops && s.ops[t].pc.CondDropping? && s.ops[t].device == d
  }
}

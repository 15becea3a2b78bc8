/** return_data.c: the table of pending requests, keyed by invoke id. */
module ReturnData {
  import opened Bacnet
  import opened Chain
  import opened Lists
  import Protocol

  datatype Data = Data(target: Address, err: bool, value: Option<Block>)

  type Table = List<byte, Data>
  type Entry = Node<byte, Data>

  /** Where requestInvokeID lies in `return_data_t` on a 64-bit machine, after the value pointer. */
  const INVOKE_ID_OFFSET := 8

  /** The id a new node keeps. `return_data_set` stores the id and then clears, from `value` on, as
      many bytes as a BACNET_READ_ACCESS_DATA has, which reaches the id when they are more than 8. */
  function StoredId(cleared: nat, invokeId: byte): byte {
    if cleared > INVOKE_ID_OFFSET then 0 else invokeId
  }

  // ---- The table of the protocol model ----

  /** The list holds, in order, the invoke ids of the nodes of the calls linked in this state. */
  ghost predicate Represents(keys: seq<byte>, s: Protocol.State) {
    keys == Protocol.Ids(s.ops, s.pend) && Distinct(s.pend)
  }

  /** The node that stands for a call, if it is linked. */
  ghost function NodeOf(nodes: seq<Entry>, s: Protocol.State, t: Protocol.OpId): (n: Node?<byte, Data>) {
    At(nodes, IndexOf(s.pend, t))
  }

  lemma SameIds(ops: map<Protocol.OpId, Protocol.Op>, pend: seq<Protocol.OpId>, t: Protocol.OpId, o: Protocol.Op)
    requires t in ops && o.node.id == ops[t].node.id
    ensures Protocol.Ids(ops[t := o], pend) == Protocol.Ids(ops, pend)
  {
  }

  /** What the lookup finds in the list is the node of the call that the model's lookup finds. */
  lemma GetRefinesLookup(keys: seq<byte>, nodes: seq<Entry>, s: Protocol.State, id: byte)
    requires Represents(keys, s) && |nodes| == |keys|
    ensures At(nodes, IndexOf(keys, id)) == match Protocol.Lookup(s.ops, s.pend, id)
                                            case Some(t) => NodeOf(nodes, s, t)
                                            case None => null
  {
    var i := IndexOf(keys, id);
    if i < |keys| {
      IndexOfDistinct(s.pend, i);
    }
  }

  /** Linking a node in front is the model's linking step. */
  lemma SetRefinesLinking(keys: seq<byte>, s: Protocol.State, t: Protocol.OpId, id: nat, late: bool)
    requires Represents(keys, s) && t in s.ops && t !in s.pend && s.ops[t].pc.Linking? && s.ops[t].node.id < 0x100
    ensures Represents([s.ops[t].node.id] + keys, Protocol.RequesterStep(s, t, id, late))
  {
    var o := s.ops[t];
    var o' := Protocol.OpNext(o, Protocol.InputOf(s, t, id, late));
    LinkingStep(o, Protocol.InputOf(s, t, id, late));
    DistinctPrepend(t, s.pend);
    SameIds(s.ops, [t] + s.pend, t, o');
    assert forall i :: 0 < i <= |s.pend| ==> ([t] + s.pend)[i] == s.pend[i - 1];
    assert Protocol.Ids(s.ops, [t] + s.pend) == [o.node.id] + keys;
  }

  lemma LinkingStep(o: Protocol.Op, e: Protocol.Input)
    requires o.pc.Linking?
    ensures Protocol.OpNext(o, e).node == o.node
  {
  }

  /** Storing the id that a send returned is the model's storing step. */
  lemma StoreRefinesStoring(keys: seq<byte>, s: Protocol.State, t: Protocol.OpId, id: nat, late: bool)
    requires Represents(keys, s) && t in s.pend && t in s.ops && s.ops[t].pc.Storing? && s.ops[t].sent < 0x100
    ensures Represents(keys[IndexOf(s.pend, t) := s.ops[t].sent], Protocol.RequesterStep(s, t, id, late))
  {
    var e := Protocol.InputOf(s, t, id, late);
    StoringStep(s.ops[t], e);
    forall j | 0 <= j < |s.pend| && s.pend[j] == t ensures j == IndexOf(s.pend, t) {
      IndexOfDistinct(s.pend, j);
    }
    assert keys[IndexOf(s.pend, t) := s.ops[t].sent]
        == Protocol.Ids(s.ops[t := Protocol.OpNext(s.ops[t], e)], s.pend);
  }

  lemma StoringStep(o: Protocol.Op, e: Protocol.Input)
    requires o.pc.Storing?
    ensures Protocol.OpNext(o, e).node.id == o.sent
  {
  }

  /** Unlinking the node that stands for call `t` is the model's unlinking step. */
  lemma RemoveRefinesUnlinking(keys: seq<byte>, s: Protocol.State, t: Protocol.OpId, id: nat, late: bool)
    requires Represents(keys, s) && t in s.pend && t in s.ops && s.ops[t].pc.Unlinking?
    ensures Represents(RemoveAt(keys, IndexOf(s.pend, t)), Protocol.RequesterStep(s, t, id, late))
  {
    var e := Protocol.InputOf(s, t, id, late);
    var i := IndexOf(s.pend, t);
    UnlinkingStep(s.ops[t], e);
    DistinctRemove(s.pend, i);
    SameIds(s.ops, RemoveAt(s.pend, i), t, Protocol.OpNext(s.ops[t], e));
    IdsRemove(s.ops, s.pend, i);
  }

  lemma UnlinkingStep(o: Protocol.Op, e: Protocol.Input)
    requires o.pc.Unlinking?
    ensures Protocol.OpNext(o, e).node == o.node
  {
  }

  lemma IdsRemove(ops: map<Protocol.OpId, Protocol.Op>, pend: seq<Protocol.OpId>, i: nat)
    requires i < |pend|
    ensures Protocol.Ids(ops, RemoveAt(pend, i)) == RemoveAt(Protocol.Ids(ops, pend), i)
  {
  }

  lemma KeepsId(o: Protocol.Op, e: Protocol.Input)
    requires !o.pc.Storing? && !Protocol.Over(o.pc)
    ensures Protocol.OpNext(o, e).node.id == o.node.id
  {
    if Protocol.InSet(o.pc) { assert Protocol.SetNext(o).node.id == o.node.id; }
    else if Protocol.InBind(o.pc) { assert Protocol.BindNext(o, e).node.id == o.node.id; }
    else if Protocol.InWaiter(o.pc) { assert Protocol.WaiterNext(o, e).node == o.node; }
    else if Protocol.InSend(o.pc) { assert Protocol.SendNext(o, e).node == o.node; }
    else if Protocol.InWait(o.pc) { assert Protocol.WaitNext(o, e).node == o.node; }
    else { assert Protocol.UnlinkNext(o, e).node == o.node; }
  }

  lemma HandlerKeepsIds(rx: Protocol.Rx, ops: map<Protocol.OpId, Protocol.Op>, w: Option<Protocol.OpId>,
                        pend: seq<Protocol.OpId>)
    ensures Protocol.Ids(Protocol.RxOps(rx, ops, w), pend) == Protocol.Ids(ops, pend)
  {
  }

  /** Does this step change the table? */
  predicate TouchesTable(s: Protocol.State, a: Protocol.Action) {
    a.Request? && a.t in s.ops && (s.ops[a.t].pc.Linking? || s.ops[a.t].pc.Storing? || s.ops[a.t].pc.Unlinking?)
  }

  /** No other step of the protocol changes what the list stands for. */
  lemma OthersKeepTable(c: Protocol.Config, keys: seq<byte>, s: Protocol.State, a: Protocol.Action)
    requires Represents(keys, s) && Protocol.Enabled(s, a) && !TouchesTable(s, a)
    requires forall t :: t in s.pend ==> t in s.ops
    ensures Represents(keys, Protocol.Apply(c, s, a))
  {
    match a
    case Request(t, id, late) =>
      KeepsId(s.ops[t], Protocol.InputOf(s, t, id, late));
      SameIds(s.ops, s.pend, t, Protocol.OpNext(s.ops[t], Protocol.InputOf(s, t, id, late)));
    case Handle(w, _) => HandlerKeepsIds(s.rx, s.ops, w, s.pend);
    case Call(t, k, d) => assert Protocol.Ids(s.ops[t := Protocol.NewOp(c, k, d)], s.pend) == keys;
    case _ =>
  }

  // ---- The operations ----

  /** `return_data_get`: the first node with this invoke id, or null. On the list of the model's linked
      calls it is the model's lookup. */
  method Get(list: List?<byte, Data>, invokeId: byte, ghost s: Protocol.State) returns (n: Node?<byte, Data>)
    requires list != null ==> list.Valid()
    ensures n == if list == null then null else At(list.nodes, IndexOf(list.Keys(), invokeId))
    ensures list != null && Represents(list.Keys(), s) ==>
              n == match Protocol.Lookup(s.ops, s.pend, invokeId)
                   case Some(t) => NodeOf(list.nodes, s, t)
                   case None => null
  {
    if list == null {
      return null;
    }
    n := list.Find(invokeId);
    if Represents(list.Keys(), s) {
      GetRefinesLookup(list.Keys(), list.nodes, s, invokeId);
    }
  }

  /** `return_data_set`: a zeroed node is linked in front. For a call about to link its node it is the
      model's linking step. */
  method Set(list: Table, invokeId: byte, cleared: nat, ghost s: Protocol.State, ghost t: Protocol.OpId)
    returns (n: Entry)
    requires list.Valid()
    modifies list, list.nodes`prev
    ensures list.Valid() && fresh(n) && list.nodes == [n] + old(list.nodes)
    ensures list.Keys() == [if cleared > 8 then 0 else invokeId] + old(list.Keys())
    ensures list.Values() == [Data(Address(0, Mac(0, 0, 0, 0, 0, 0), 0, []), false, None)] + old(list.Values())
    ensures Represents(old(list.Keys()), s) && Links(s, t, StoredId(cleared, invokeId)) ==>
              forall id, late :: Represents(list.Keys(), Protocol.RequesterStep(s, t, id, late))
  {
    n := list.Prepend(StoredId(cleared, invokeId), Data(ZERO_ADDRESS, false, None));
    if Represents(old(list.Keys()), s) && Links(s, t, StoredId(cleared, invokeId)) {
      forall id, late ensures Represents(list.Keys(), Protocol.RequesterStep(s, t, id, late)) {
        SetRefinesLinking(old(list.Keys()), s, t, id, late);
      }
    }
  }

  predicate Links(s: Protocol.State, t: Protocol.OpId, id: byte) {
    t in s.ops && t !in s.pend && s.ops[t].pc.Linking? && s.ops[t].node.id == id
  }

  /** The assignment to requestInvokeID of a linked node, after a send. For a call that stores the id its
      send returned it is the model's storing step. */
  method StoreId(list: Table, data: Entry, invokeId: byte, ghost s: Protocol.State, ghost t: Protocol.OpId)
    requires list.Valid() && data in list.nodes
    modifies data`key
    ensures list.Valid() && list.nodes == old(list.nodes) && list.Values() == old(list.Values())
    ensures list.Keys() == old(list.Keys())[IndexOf(list.nodes, data) := invokeId]
    ensures Represents(old(list.Keys()), s) && data == NodeOf(list.nodes, s, t) && Stores(s, t, invokeId) ==>
              forall id, late :: Represents(list.Keys(), Protocol.RequesterStep(s, t, id, late))
  {
    ghost var nodes, keys, i := list.nodes, list.Keys(), IndexOf(list.nodes, data);
    data.key := invokeId;
    assert forall j :: 0 <= j < |nodes| && nodes[j] == data ==> j == i;
    if Represents(keys, s) && data == NodeOf(nodes, s, t) && Stores(s, t, invokeId) {
      forall id, late ensures Represents(list.Keys(), Protocol.RequesterStep(s, t, id, late)) {
        StoreRefinesStoring(keys, s, t, id, late);
      }
    }
  }

  predicate Stores(s: Protocol.State, t: Protocol.OpId, id: byte) {
    t in s.ops && t in s.pend && s.ops[t].pc.Storing? && s.ops[t].sent == id
  }

  /** `return_data_remove_by_ptr`: exactly this linked node is removed; NULL is refused. For a call that
      unlinks its node it is the model's unlinking step. */
  method RemoveByPtr(list: Table, data: Node?<byte, Data>, ghost s: Protocol.State, ghost t: Protocol.OpId)
    returns (ok: bool)
    requires list.Valid() && (data != null ==> data in list.nodes)
    modifies list, list.nodes`next, list.nodes`prev
    ensures list.Valid() && ok == (data != null)
    ensures var was, i := old(list.nodes), IndexOf(old(list.nodes), data);
            list.nodes == if ok then RemoveAt(was, i) else was
    ensures ok && Represents(old(list.Keys()), s) && data == NodeOf(old(list.nodes), s, t) && Unlinks(s, t) ==>
              forall id, late :: Represents(list.Keys(), Protocol.RequesterStep(s, t, id, late))
  {
    if data == null {
      return false;
    }
    ghost var nodes, keys := list.nodes, list.Keys();
    list.Unlink(data, IndexOf(list.nodes, data));
    if Represents(keys, s) && data == NodeOf(nodes, s, t) && Unlinks(s, t) {
      IndexOfDistinct(nodes, IndexOf(s.pend, t));
      forall id, late ensures Represents(list.Keys(), Protocol.RequesterStep(s, t, id, late)) {
        RemoveRefinesUnlinking(keys, s, t, id, late);
      }
    }
    return true;
  }

  predicate Unlinks(s: Protocol.State, t: Protocol.OpId) {
    t in s.ops && t in s.pend && s.ops[t].pc.Unlinking?
  }
}

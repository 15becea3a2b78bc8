/** address_entry.c: the discovered-device table, keyed by device id. */
module AddressEntry {
  import opened Bacnet
  import opened Chain
  import opened Lists
  import Protocol

  datatype Data = Data(flags: byte, maxApdu: nat, address: Address)

  type Table = List<uint32, Data>

  const BAC_ADDRESS_MULT: byte := 1

  /** One entry per device. */
  ghost predicate ValidTable(list: Table)
    reads list, list.nodes
  {
    list.Valid() && Distinct(list.Keys())
  }

  /** `bacnet_address_matches` compares network and station address, not the MAC. */
  method AddressMatches(a1: Address, a2: Address) returns (same: bool)
    ensures same <==> a1.net == a2.net && a1.adr == a2.adr
  {
    if a1.net != a2.net {
      return false;
    }
    if |a1.adr| != |a2.adr| {
      return false;
    }
    for i := 0 to |a1.adr|
      invariant a1.adr[..i] == a2.adr[..i]
    {
      if a1.adr[i] != a2.adr[i] {
        return false;
      }
    }
    return true;
  }

  /** `address_entry_set`: a device that has an entry keeps it, whatever the address; the answer is
      then null. */
  method Set(list: Table, deviceId: uint32, maxApdu: nat, src: Address) returns (n: Node?<uint32, Data>)
    requires ValidTable(list)
    modifies list, list.nodes`prev
    ensures ValidTable(list) && (n == null <==> deviceId in old(list.Keys()))
    ensures n == null ==> list.nodes == old(list.nodes) && list.Keys() == old(list.Keys())
                          && list.Values() == old(list.Values())
    ensures n != null ==>
              fresh(n) && list.nodes == [n] + old(list.nodes) && list.Keys() == [deviceId] + old(list.Keys())
                          && list.Values() == [Data(1, maxApdu, src)] + old(list.Values())
  {
    var entry := list.Find(deviceId);
    if entry != null {
      var matches := AddressMatches(entry.data.address, src);
      assert entry.key == deviceId;
      if matches || deviceId == entry.key {
        return null;
      }
    }
    DistinctPrepend(deviceId, list.Keys());
    n := list.Prepend(deviceId, Data(BAC_ADDRESS_MULT, maxApdu, src));
    assert list.Keys() == [deviceId] + old(list.Keys());
  }

  /** `address_entry_remove`: the entry of this device is removed, if there is one. */
  method Remove(list: Table, deviceId: uint32)
    requires ValidTable(list)
    modifies list, list.nodes`next, list.nodes`prev
    ensures ValidTable(list)
    ensures var i := IndexOf(old(list.Keys()), deviceId);
            if i < |old(list.nodes)| then
              list.nodes == RemoveAt(old(list.nodes), i) && list.Keys() == RemoveAt(old(list.Keys()), i)
              && list.Values() == RemoveAt(old(list.Values()), i)
            else list.nodes == old(list.nodes) && list.Keys() == old(list.Keys()) && list.Values() == old(list.Values())
  {
    ghost var keys := list.Keys();
    ghost var i := IndexOf(keys, deviceId);
    var entry := list.Find(deviceId);
    if entry == null {
      return;
    }
    list.Unlink(entry, i);
    DistinctRemove(keys, i);
  }

  /** `address_entry_pop`: the first entry is taken off the list. */
  method Pop(list: Table) returns (entry: Node?<uint32, Data>)
    requires ValidTable(list)
    modifies list, list.nodes`next, list.nodes`prev
    ensures ValidTable(list) && entry == At(old(list.nodes), 0)
    ensures list.nodes == if entry == null then [] else old(list.nodes)[1..]
  {
    ghost var keys := list.Keys();
    entry := list.first;
    if entry != null {
      list.Unlink(entry, 0);
      DistinctRemove(keys, 0);
      assert list.Keys() == RemoveAt(keys, 0);
    }
  }

  // ---- The table of the protocol model ----

  /** The list holds, in order, the devices and addresses of the model's table. */
  ghost predicate Represents(keys: seq<uint32>, values: seq<Data>, f: Protocol.Discovery) {
    && keys == Protocol.EntryDevices(f.table) && |values| == |keys|
    && forall i :: 0 <= i < |values| ==> values[i].address == f.table[i].address
  }

  /** What a set leaves is what the model's insertion leaves. */
  lemma SetRefinesInsert(keys: seq<uint32>, values: seq<Data>, f: Protocol.Discovery, a: Protocol.IAm, maxApdu: nat)
    requires Represents(keys, values, f)
    ensures if a.device in keys then Represents(keys, values, Protocol.Insert(f, a))
            else Represents([a.device] + keys, [Data(BAC_ADDRESS_MULT, maxApdu, a.src)] + values, Protocol.Insert(f, a))
  {
    var table' := Protocol.Insert(f, a).table;
    assert a.device !in keys ==> forall i :: 0 < i < |table'| ==> table'[i] == f.table[i - 1];
  }

  /** What a pop, of the first entry, or a removal, of the first one of a device, leaves is what the
      model's taker leaves. */
  lemma RemovalRefinesTake(keys: seq<uint32>, values: seq<Data>, f: Protocol.Discovery, k: Protocol.TakerId)
    requires Represents(keys, values, f) && k in f.takers && f.takers[k].pc.Holding?
    ensures var goal := f.takers[k].goal;
            var i := if goal.None? then 0 else IndexOf(keys, goal.value);
            if i < |keys| then Represents(RemoveAt(keys, i), RemoveAt(values, i), Protocol.TakeNext(f, k))
            else Represents(keys, values, Protocol.TakeNext(f, k))
  {
    var i := Protocol.TakeIndex(f.table, f.takers[k].goal);
    if i < |keys| {
      TableRemove(keys, values, f.table, i);
    }
  }

  lemma TableRemove(keys: seq<uint32>, values: seq<Data>, table: seq<Protocol.Entry>, i: nat)
    requires keys == Protocol.EntryDevices(table) && |values| == |keys| && i < |keys|
    requires forall j :: 0 <= j < |values| ==> values[j].address == table[j].address
    ensures Protocol.EntryDevices(RemoveAt(table, i)) == RemoveAt(keys, i)
    ensures forall j :: 0 <= j < |values| - 1 ==> RemoveAt(values, i)[j].address == RemoveAt(table, i)[j].address
  {
  }
}

/** address_instance_map.c: the cache from IP addresses to device instances. */
module AddressInstanceMap {
  import opened Bacnet
  import opened Chain
  import opened Decimal
  import opened Lists

  /** Keyed by the address as text. */
  type Table = List<string, uint32>

  /** `address_instance_map_get`: the first entry for this address, or null. */
  method Get(list: List?<string, uint32>, address: string) returns (n: Node?<string, uint32>)
    requires list != null ==> list.Valid()
    ensures n == if list == null then null else At(list.nodes, IndexOf(list.Keys(), address))
  {
    if list == null {
      return null;
    }
    n := list.Find(address);
  }

  /** `address_instance_map_set`: an entry is linked in front, even if the address has one. */
  method Set(list: Table, address: string, instance: string)
    requires list.Valid()
    modifies list, list.nodes`prev
    ensures list.Valid() && |list.nodes| == |old(list.nodes)| + 1 && list.nodes[1..] == old(list.nodes)
    ensures fresh(list.nodes[0])
    ensures list.Keys() == [address] + old(list.Keys())
    ensures list.Values() == [ToUint32(Strtoul(instance))] + old(list.Values())
  {
    var n := list.Prepend(address, ToUint32(Strtoul(instance)));
  }

  /** The map a cache stands for: for each address, its first entry. */
  ghost function CacheMap(keys: seq<string>, values: seq<uint32>): map<string, uint32>
    requires |keys| == |values|
  {
    map k | k in keys :: values[IndexOf(keys, k)]
  }

  lemma IndexPrepend(keys: seq<string>, address: string, k: string)
    ensures IndexOf([address] + keys, k) == if k == address then 0 else IndexOf(keys, k) + 1
  {
    assert ([address] + keys)[1..] == keys;
  }

  lemma CachePrepend(keys: seq<string>, values: seq<uint32>, address: string, v: uint32)
    requires |keys| == |values|
    ensures CacheMap([address] + keys, [v] + values) == CacheMap(keys, values)[address := v]
  {
    var m, m' := CacheMap(keys, values)[address := v], CacheMap([address] + keys, [v] + values);
    assert m'.Keys == m.Keys;
    forall k | k in m' ensures m'[k] == m[k] {
      IndexPrepend(keys, address, k);
    }
  }

  /** A set is an update of that map: the latest instance set for an address is what a get finds,
      and a printed instance is stored as it was. */
  lemma SetUpdates(keys: seq<string>, values: seq<uint32>, address: string, instance: uint32)
    requires |keys| == |values|
    ensures CacheMap([address] + keys, [ToUint32(Strtoul(Print(instance)))] + values)
         == CacheMap(keys, values)[address := instance]
  {
    var v := ToUint32(Strtoul(Print(instance)));
    Uint32Kept(instance);
    CachePrepend(keys, values, address, v);
  }
}

/** `ip_to_instance` of driver.c: find the device instance behind an IP address, through the cache
    or by draining the discovered-device table into it. */
module IpToInstance {
  import opened Bacnet
  import opened Chain
  import opened Decimal
  import opened DottedQuad
  import opened Lists
  import AddressEntry
  import AddressInstanceMap

  /** The text "%d.%d.%d.%d" of the address octets of a MAC. */
  function Quad(mac: Mac): string {
    Print(mac.ip0) + "." + (Print(mac.ip1) + "." + (Print(mac.ip2) + "." + Print(mac.ip3)))
  }

  ghost function Members<K, D>(q: seq<Node<K, D>>): set<Node<K, D>> {
    set n | n in q
  }

  /** Is this entry a device on the local IP network? */
  predicate IsLocal(d: AddressEntry.Data) {
    d.address.adr == []
  }

  /** The cache keys after one entry, and after all entries, of a table. */
  function Remembered(keys: seq<string>, d: AddressEntry.Data): seq<string> {
    if IsLocal(d) then [Quad(d.address.mac)] + keys else keys
  }

  function KeysAfter(keys: seq<string>, data: seq<AddressEntry.Data>): seq<string>
    decreases |data|
  {
    if data == [] then keys else KeysAfter(Remembered(keys, data[0]), data[1..])
  }

  /** The instances that go with them. */
  function RememberedInstance(instances: seq<uint32>, id: uint32, d: AddressEntry.Data): seq<uint32> {
    if IsLocal(d) then [id] + instances else instances
  }

  function InstancesAfter(instances: seq<uint32>, ids: seq<uint32>, data: seq<AddressEntry.Data>): seq<uint32>
    requires |ids| == |data|
    decreases |data|
  {
    if data == [] then instances
    else InstancesAfter(RememberedInstance(instances, ids[0], data[0]), ids[1..], data[1..])
  }

  /** Every cached key is a dotted quad; a printed instance never is. */
  predicate Dotted(keys: seq<string>) {
    forall i :: 0 <= i < |keys| ==> '.' in keys[i]
  }

  lemma QuadDotted(mac: Mac)
    ensures '.' in Quad(mac)
  {
    assert Quad(mac)[|Print(mac.ip0)|] == '.';
  }

  /** The octets of a MAC. */
  function OctetsOf(mac: Mac): Octets {
    Octets(mac.ip0, mac.ip1, mac.ip2, mac.ip3)
  }

  lemma PrintedOctet(n: byte)
    ensures IsOctet(Print(n)) && Value(Print(n)) == n && '.' !in Print(n)
  {
    if n < 10 {
    } else if n < 100 {
      assert Print(n) == [DigitChar(n / 10)] + [DigitChar(n % 10)];
    } else {
      assert Print(n / 10) == [DigitChar(n / 100)] + [DigitChar(n / 10 % 10)];
      assert Print(n) == [DigitChar(n / 100)] + [DigitChar(n / 10 % 10)] + [DigitChar(n % 10)];
    }
  }

  lemma OctetPrinted(p: string)
    requires IsOctet(p)
    ensures p == Print(Value(p))
  {
    var n := Value(p);
    if |p| == 1 {
      assert p == [DigitChar(n)];
    } else if |p| == 2 {
      assert Print(n) == [DigitChar(n / 10)] + [DigitChar(n % 10)];
      assert p == [p[0]] + [p[1]];
    } else {
      assert n / 10 == 10 * Digit(p[0]) + Digit(p[1]);
      assert Print(n / 10) == [DigitChar(n / 100)] + [DigitChar(n / 10 % 10)];
      assert Print(n) == [DigitChar(n / 100)] + [DigitChar(n / 10 % 10)] + [DigitChar(n % 10)];
      assert p == [p[0]] + [p[1]] + [p[2]];
    }
  }

  /** What is printed for a MAC reads as its four IP octets, in order. */
  lemma QuadRead(mac: Mac)
    ensures Parse(Quad(mac)) == Some(Octets(mac.ip0, mac.ip1, mac.ip2, mac.ip3))
  {
    var p0, p1, p2, p3 := Print(mac.ip0), Print(mac.ip1), Print(mac.ip2), Print(mac.ip3);
    PrintedOctet(mac.ip0);
    PrintedOctet(mac.ip1);
    PrintedOctet(mac.ip2);
    PrintedOctet(mac.ip3);
    SplitPart(p3);
    SplitFirst(p2, p3);
    SplitFirst(p1, p2 + "." + p3);
    SplitFirst(p0, p1 + "." + (p2 + "." + p3));
    assert Quad(mac) == p0 + "." + (p1 + "." + (p2 + "." + p3));
    assert Split(Quad(mac)) == [p0, p1, p2, p3];
  }

  /** A text that reads as four octets is what is printed for a MAC if and only if the MAC has them. */
  lemma QuadExact(s: string, mac: Mac)
    requires Parse(s).Some?
    ensures s == Quad(mac) <==> Parse(s).value == OctetsOf(mac)
  {
    QuadRead(mac);
    if Parse(s).value == OctetsOf(mac) {
      var parts := Split(s);
      JoinSplit(s);
      OctetPrinted(parts[0]);
      OctetPrinted(parts[1]);
      OctetPrinted(parts[2]);
      OctetPrinted(parts[3]);
      JoinFour(parts);
    }
  }

  lemma JoinFour(parts: seq<string>)
    requires |parts| == 4
    ensures Join(parts) == parts[0] + "." + (parts[1] + "." + (parts[2] + "." + parts[3]))
  {
    assert Join(parts[1..]) == parts[1] + "." + Join(parts[1..][1..]);
    assert parts[1..][1..] == parts[2..] && Join(parts[2..]) == parts[2] + "." + Join(parts[2..][1..]);
    assert parts[2..][1..] == parts[3..] && Join(parts[3..]) == parts[3];
  }

  /** The text of an address and that of an instance, with their terminating NULs, fit their buffers. */
  lemma TextsFit(mac: Mac, deviceId: uint32)
    ensures |Quad(mac)| + 1 <= 17 && |Print(deviceId)| + 1 <= 17
  {
    assert Power(3) == 1000 && Power(10) == 1000 * (1000 * (1000 * Power(1)));
    PrintLength(mac.ip0, 3);
    PrintLength(mac.ip1, 3);
    PrintLength(mac.ip2, 3);
    PrintLength(mac.ip3, 3);
    PrintLength(deviceId, 10);
  }

  /** Two MACs print alike exactly when their IP octets agree. */
  lemma QuadInjective(a: Mac, b: Mac)
    ensures Quad(a) == Quad(b) <==> a.ip0 == b.ip0 && a.ip1 == b.ip1 && a.ip2 == b.ip2 && a.ip3 == b.ip3
  {
    if Quad(a) == Quad(b) {
      var a3, b3 := Print(a.ip3), Print(b.ip3);
      var a2, b2 := Print(a.ip2) + "." + a3, Print(b.ip2) + "." + b3;
      var a1, b1 := Print(a.ip1) + "." + a2, Print(b.ip1) + "." + b2;
      FirstNumber(a.ip0, a1, b.ip0, b1);
      FirstNumber(a.ip1, a2, b.ip1, b2);
      FirstNumber(a.ip2, a3, b.ip2, b3);
      Uint32Kept(a.ip3);
      Uint32Kept(b.ip3);
    }
  }

  lemma FirstNumber(m: byte, rest: string, n: byte, tail: string)
    requires Print(m) + "." + rest == Print(n) + "." + tail
    ensures m == n && rest == tail
  {
    var s := Print(m) + "." + rest;
    assert s == Print(m) + ("." + rest) == Print(n) + ("." + tail);
    ReadPrinted(m, "." + rest);
    ReadPrinted(n, "." + tail);
    assert s[|Print(m)| + 1..] == rest && s[|Print(m)| + 1..] == tail;
  }

  /** The existence test, which looks for the instance among the addresses, finds nothing. */
  lemma TestFindsNothing(keys: seq<string>, instance: uint32)
    requires Dotted(keys)
    ensures IndexOf(keys, Print(instance)) == |keys|
  {
    PrintDigits(instance);
    assert '.' !in Print(instance);
  }

  /** One entry of the walk: add a local device to the cache. */
  method Remember(aim: AddressInstanceMap.Table, deviceId: uint32, data: AddressEntry.Data)
    requires aim.Valid() && Dotted(aim.Keys())
    modifies aim, aim.nodes`prev
    ensures aim.Valid() && Dotted(aim.Keys())
    ensures if data.address.adr == [] then
              aim.Keys() == [Quad(data.address.mac)] + old(aim.Keys()) && aim.Values() == [deviceId] + old(aim.Values())
            else aim.Keys() == old(aim.Keys()) && aim.Values() == old(aim.Values())
    ensures aim.Keys() == Remembered(old(aim.Keys()), data)
    ensures aim.Values() == RememberedInstance(old(aim.Values()), deviceId, data)
    ensures fresh(Members(aim.nodes) - Members(old(aim.nodes)))
  {
    if data.address.adr == [] {
      var instance := Print(deviceId);
      TestFindsNothing(aim.Keys(), deviceId);
      QuadDotted(data.address.mac);
      Uint32Kept(deviceId);
      var existing := AddressInstanceMap.Get(aim, instance);
      if existing == null {
        AddressInstanceMap.Set(aim, Quad(data.address.mac), instance);
        assert aim.nodes == [aim.nodes[0]] + old(aim.nodes);
      }
    }
  }

  /** An I-Am that the receive thread inserts into the table while it is walked. */
  datatype Arrival = Arrival(deviceId: uint32, maxApdu: nat, src: Address)

  /** The keys in front of those still to be visited, after one insertion and after these. */
  function FrontAfter(front: seq<uint32>, rest: seq<uint32>, x: Arrival): seq<uint32> {
    if x.deviceId in front + rest then front else [x.deviceId] + front
  }

  function Front(front: seq<uint32>, rest: seq<uint32>, xs: seq<Arrival>): seq<uint32>
    decreases |xs|
  {
    if xs == [] then front else Front(FrontAfter(front, rest, xs[0]), rest, xs[1..])
  }

  /** One insertion by the receive thread, in front of whatever the walk has left. */
  method Insert(at: AddressEntry.Table, x: Arrival, ghost front: seq<uint32>, ghost rest: seq<uint32>)
    returns (ghost k: nat)
    requires AddressEntry.ValidTable(at) && at.Keys() == front + rest
    modifies at, at.nodes`prev
    ensures AddressEntry.ValidTable(at) && at.Keys() == FrontAfter(front, rest, x) + rest
    ensures |front| + k == |FrontAfter(front, rest, x)| && k <= |at.nodes|
    ensures at.nodes[k..] == old(at.nodes) && at.Values()[k..] == old(at.Values())
    ensures fresh(Members(at.nodes) - Members(old(at.nodes)))
  {
    var n := AddressEntry.Set(at, x.deviceId, x.maxApdu, x.src);
    k := if n == null then 0 else 1;
    assert [x.deviceId] + (front + rest) == ([x.deviceId] + front) + rest;
  }

  lemma Skipped<T>(t: seq<T>, more: nat, mid: seq<T>, k: nat, was: seq<T>)
    requires more <= |t| && t[more..] == mid && k <= |mid| && mid[k..] == was
    ensures t[more + k..] == was
  {
  }

  lemma FreshOnly<T>(now: set<T>, mid: set<T>, was: set<T>)
    ensures now - was <= (now - mid) + (mid - was)
  {
  }

  /** What comes in before a turn of the walk. */
  method Receive(at: AddressEntry.Table, xs: seq<Arrival>, ghost front: seq<uint32>, ghost rest: seq<uint32>)
    returns (ghost k: nat)
    requires AddressEntry.ValidTable(at) && at.Keys() == front + rest
    modifies at, at.nodes`prev
    ensures AddressEntry.ValidTable(at) && at.Keys() == Front(front, rest, xs) + rest
    ensures |front| + k == |Front(front, rest, xs)| && k <= |at.nodes|
    ensures at.nodes[k..] == old(at.nodes) && at.Values()[k..] == old(at.Values())
    ensures fresh(Members(at.nodes) - Members(old(at.nodes)))
    decreases |xs|
  {
    ghost var nodes, values := at.nodes, at.Values();
    k := 0;
    if xs != [] {
      k := Insert(at, xs[0], front, rest);
      ghost var midNodes, midValues := at.nodes, at.Values();
      ghost var more := Receive(at, xs[1..], FrontAfter(front, rest, xs[0]), rest);
      Skipped(at.nodes, more, midNodes, k, nodes);
      Skipped(at.Values(), more, midValues, k, values);
      k := more + k;
      FreshOnly(Members(at.nodes), Members(midNodes), Members(nodes));
    }
  }

  /** Because ids are unique, removing by the id of the entry just visited removes that entry, wherever
      it is. */
  method RemoveVisited(at: AddressEntry.Table, current: Node<uint32, AddressEntry.Data>, ghost k: nat)
    returns (next: Node?<uint32, AddressEntry.Data>)
    requires AddressEntry.ValidTable(at) && k < |at.nodes| && current == at.nodes[k]
    modifies at, at.nodes`next, at.nodes`prev
    ensures AddressEntry.ValidTable(at) && at.nodes == RemoveAt(old(at.nodes), k) && next == At(at.nodes, k)
    ensures at.Keys() == RemoveAt(old(at.Keys()), k) && at.Values() == RemoveAt(old(at.Values()), k)
  {
    ghost var keys := at.Keys();
    next := current.next;
    assert keys[k] == current.key;
    IndexOfDistinct(keys, k);
    AddressEntry.Remove(at, current.key);
  }

  /** The I-Ams that come in before turn `i`. */
  function Before(arrivals: seq<seq<Arrival>>, i: nat): seq<Arrival> {
    if i < |arrivals| then arrivals[i] else []
  }

  /** The table keys after a walk over `rest`, in the turns from `i` on. */
  function Remaining(front: seq<uint32>, rest: seq<uint32>, arrivals: seq<seq<Arrival>>, i: nat): seq<uint32>
    decreases |rest|
  {
    if rest == [] then front
    else Remaining(Front(front, rest, Before(arrivals, i)), rest[1..], arrivals, i + 1)
  }

  lemma Passed<T>(t: seq<T>, more: nat, k: nat)
    requires more + k < |t|
    ensures t[more..][k] == t[more + k] && RemoveAt(t, more + k)[more + k..] == t[more..][k..][1..]
  {
  }

  lemma Removed(front: seq<uint32>, rest: seq<uint32>)
    requires rest != []
    ensures RemoveAt(front + rest, |front|) == front + rest[1..] && (front + rest)[|front|] == rest[0]
  {
  }

  /** If nothing comes in, nothing remains but what was in front. */
  lemma {:induction false} NothingComes(front: seq<uint32>, rest: seq<uint32>, i: nat)
    ensures Remaining(front, rest, [], i) == front
    decreases |rest|
  {
    if rest == [] {
    } else {
      assert Front(front, rest, Before([], i)) == front;
      NothingComes(front, rest[1..], i + 1);
    }
  }

  predicate Comes(xs: seq<Arrival>, d: uint32) {
    exists x :: x in xs && x.deviceId == d
  }

  lemma {:induction false} FrontHas(front: seq<uint32>, rest: seq<uint32>, xs: seq<Arrival>, d: uint32)
    ensures d in Front(front, rest, xs) <==> d in front || (d !in rest && Comes(xs, d))
    decreases |xs|
  {
    if xs == [] {
    } else {
      FrontHas(FrontAfter(front, rest, xs[0]), rest, xs[1..], d);
      assert Comes(xs, d) <==> xs[0].deviceId == d || Comes(xs[1..], d);
      assert d in front + rest <==> d in front || d in rest;
    }
  }

  /** Device `d` comes in before turn `i + k`, when the walk has passed its entry or it has none. */
  ghost predicate ComesAt(rest: seq<uint32>, arrivals: seq<seq<Arrival>>, i: nat, d: uint32, k: nat) {
    k < |rest| && Comes(Before(arrivals, i + k), d) && d !in rest[k..]
  }

  ghost predicate ComesLate(rest: seq<uint32>, arrivals: seq<seq<Arrival>>, i: nat, d: uint32) {
    exists k: nat :: ComesAt(rest, arrivals, i, d, k)
  }

  /** Which devices a walk leaves in the table: those in front of it, and those that come in during the
      walk when it has passed their entry or they have none. */
  lemma {:induction false} WhatRemains(front: seq<uint32>, rest: seq<uint32>, arrivals: seq<seq<Arrival>>, i: nat,
                                       d: uint32)
    ensures d in Remaining(front, rest, arrivals, i) <==> d in front || ComesLate(rest, arrivals, i, d)
    decreases |rest|
  {
    if rest == [] {
    } else {
      FrontHas(front, rest, Before(arrivals, i), d);
      WhatRemains(Front(front, rest, Before(arrivals, i)), rest[1..], arrivals, i + 1, d);
      NextTurn(rest, arrivals, i, d);
    }
  }

  lemma NextTurn(rest: seq<uint32>, arrivals: seq<seq<Arrival>>, i: nat, d: uint32)
    requires rest != []
    ensures ComesLate(rest, arrivals, i, d) <==>
            (Comes(Before(arrivals, i), d) && d !in rest) || ComesLate(rest[1..], arrivals, i + 1, d)
  {
    assert rest[0..] == rest;
    assert ComesAt(rest, arrivals, i, d, 0) <==> Comes(Before(arrivals, i), d) && d !in rest;
    if k: nat :| ComesAt(rest, arrivals, i, d, k) && k > 0 {
      assert rest[1..][k - 1..] == rest[k..];
      assert ComesAt(rest[1..], arrivals, i + 1, d, k - 1);
    }
    var left, j := rest[1..], i + 1;
    if k: nat :| ComesAt(left, arrivals, j, d, k) {
      assert rest[1..][k..] == rest[k + 1..];
      assert ComesAt(rest, arrivals, i, d, k + 1);
    }
  }

  /** What one turn of the walk, with the I-Ams that come in before the removal, does to the table. */
  method Advance(at: AddressEntry.Table, current: Node<uint32, AddressEntry.Data>, xs: seq<Arrival>,
                 ghost front: seq<uint32>, ghost rest: seq<uint32>)
    returns (next: Node?<uint32, AddressEntry.Data>)
    requires AddressEntry.ValidTable(at)
    requires at.Keys() == front + rest && rest != [] && current == at.nodes[|front|]
    modifies at, at.nodes`next, at.nodes`prev
    ensures AddressEntry.ValidTable(at)
    ensures var f := Front(front, rest, xs);
            && at.Keys() == f + rest[1..] && next == At(at.nodes, |f|)
            && at.Values()[|f|..] == old(at.Values())[|front|..][1..]
    ensures fresh(Members(at.nodes) - Members(old(at.nodes)))
  {
    ghost var more := Receive(at, xs, front, rest);
    ghost var f, nodes, values := Front(front, rest, xs), at.nodes, at.Values();
    Passed(nodes, more, |front|);
    Passed(values, more, |front|);
    Removed(f, rest);
    next := RemoveVisited(at, current, |f|);
    assert at.Values() == RemoveAt(values, |f|) && at.nodes == RemoveAt(nodes, |f|);
    assert Members(at.nodes) <= Members(nodes);
  }

  /** What it does to the cache and the table. */
  method Turn(aim: AddressInstanceMap.Table, at: AddressEntry.Table, current: Node<uint32, AddressEntry.Data>,
              xs: seq<Arrival>, ghost front: seq<uint32>, ghost rest: seq<uint32>)
    returns (next: Node?<uint32, AddressEntry.Data>)
    requires aim.Valid() && Dotted(aim.Keys()) && AddressEntry.ValidTable(at)
    requires at.Keys() == front + rest && rest != [] && current == at.nodes[|front|]
    modifies aim, aim.nodes`prev, at, at.nodes`next, at.nodes`prev
    ensures aim.Valid() && Dotted(aim.Keys()) && AddressEntry.ValidTable(at)
    ensures var f := Front(front, rest, xs);
            && at.Keys() == f + rest[1..] && next == At(at.nodes, |f|)
            && at.Values()[|f|..] == old(at.Values())[|front|..][1..]
    ensures aim.Keys() == Remembered(old(aim.Keys()), old(at.Values())[|front|])
    ensures aim.Values() == RememberedInstance(old(aim.Values()), rest[0], old(at.Values())[|front|])
    ensures fresh(Members(aim.nodes) - Members(old(aim.nodes)))
    ensures fresh(Members(at.nodes) - Members(old(at.nodes)))
  {
    ghost var data := at.Values();
    assert current.key == at.Keys()[|front|] && current.data == data[|front|];
    Remember(aim, current.key, current.data);
    assert AddressEntry.ValidTable(at) && at.Keys() == front + rest && at.Values() == data;
    ghost var keys, instances := aim.Keys(), aim.Values();
    next := Advance(at, current, xs, front, rest);
    assert aim.Keys() == keys && aim.Values() == instances;
  }

  /** The objects of both tables. */
  ghost function Footprint(aim: AddressInstanceMap.Table, at: AddressEntry.Table): set<object>
    reads aim, at
  {
    {aim, at} + (set n | n in aim.nodes) + (set n | n in at.nodes)
  }

  /** Where a walk stands: `front` is what it has left or what came in, `rest` and `data` what it has still
      to visit, from `current` on. */
  ghost predicate Walking(aim: AddressInstanceMap.Table, at: AddressEntry.Table,
                          current: Node?<uint32, AddressEntry.Data>, front: seq<uint32>, rest: seq<uint32>,
                          data: seq<AddressEntry.Data>)
    reads aim, aim.nodes, at, at.nodes
  {
    && aim.Valid() && Dotted(aim.Keys()) && AddressEntry.ValidTable(at)
    && at.Keys() == front + rest && current == At(at.nodes, |front|) && at.Values()[|front|..] == data
  }

  /** One turn of the walk, and what the walks from here and from the next turn end with. `owned` holds the
      objects of both tables. */
  method OneTurn(aim: AddressInstanceMap.Table, at: AddressEntry.Table, current: Node<uint32, AddressEntry.Data>,
                 arrivals: seq<seq<Arrival>>, i: nat,
                 ghost front: seq<uint32>, ghost rest: seq<uint32>, ghost data: seq<AddressEntry.Data>,
                 ghost owned: set<object>)
    returns (next: Node?<uint32, AddressEntry.Data>, ghost owned': set<object>)
    requires Walking(aim, at, current, front, rest, data) && Footprint(aim, at) <= owned
    modifies owned
    ensures |rest| == |data| > 0
    ensures Walking(aim, at, next, Front(front, rest, Before(arrivals, i)), rest[1..], data[1..])
    ensures Remaining(Front(front, rest, Before(arrivals, i)), rest[1..], arrivals, i + 1)
         == Remaining(front, rest, arrivals, i)
    ensures KeysAfter(aim.Keys(), data[1..]) == KeysAfter(old(aim.Keys()), data)
    ensures InstancesAfter(aim.Values(), rest[1..], data[1..]) == InstancesAfter(old(aim.Values()), rest, data)
    ensures Footprint(aim, at) <= owned' && fresh(owned' - owned)
  {
    assert data[0] == at.Values()[|front|];
    next := Turn(aim, at, current, Before(arrivals, i), front, rest);
    owned' := owned + Footprint(aim, at);
  }

  /** The walk over the table, while the receive thread inserts: the entries that were in the table are
      removed and its local devices added to the cache, later entries in front of earlier ones; what came
      in meanwhile stays. */
  method Drain(aim: AddressInstanceMap.Table, at: AddressEntry.Table, arrivals: seq<seq<Arrival>>)
    requires aim.Valid() && Dotted(aim.Keys()) && AddressEntry.ValidTable(at)
    modifies Footprint(aim, at)
    ensures aim.Valid() && Dotted(aim.Keys()) && AddressEntry.ValidTable(at)
    ensures at.Keys() == Remaining([], old(at.Keys()), arrivals, 0)
    ensures aim.Keys() == KeysAfter(old(aim.Keys()), old(at.Values()))
    ensures aim.Values() == InstancesAfter(old(aim.Values()), old(at.Keys()), old(at.Values()))
  {
    ghost var was, keys, instances, ids, values := Footprint(aim, at), aim.Keys(), aim.Values(), at.Keys(), at.Values();
    ghost var front, rest, data, owned := [], ids, values, was;
    var i := 0;
    var current := at.first;
    while current != null
      invariant Walking(aim, at, current, front, rest, data) && |rest| == |data|
      invariant Footprint(aim, at) <= owned && fresh(owned - was)
      invariant 0 <= i && Remaining(front, rest, arrivals, i) == Remaining([], ids, arrivals, 0)
      invariant KeysAfter(aim.Keys(), data) == KeysAfter(keys, values)
      invariant InstancesAfter(aim.Values(), rest, data) == InstancesAfter(instances, ids, values)
      decreases |rest|
    {
      current, owned := OneTurn(aim, at, current, arrivals, i, front, rest, data, owned);
      front, rest, data := Front(front, rest, Before(arrivals, i)), rest[1..], data[1..];
      i := i + 1;
    }
  }

  /** The instance of the first of these keys, or 0. */
  function Found(keys: seq<string>, instances: seq<uint32>, key: string): uint32 {
    var i := IndexOf(keys, key);
    if i < |keys| && i < |instances| then instances[i] else 0
  }

  /** The cache lookup of `ip_to_instance`, 0 standing for none. */
  method LookUp(aim: AddressInstanceMap.Table, key: string) returns (hit: bool, instance: uint32)
    requires aim.Valid()
    ensures hit <==> key in aim.Keys()
    ensures if key in aim.Keys() then instance == aim.Values()[IndexOf(aim.Keys(), key)] else instance == 0
    ensures instance == Found(aim.Keys(), aim.Values(), key)
  {
    var entry := AddressInstanceMap.Get(aim, key);
    hit := entry != null;
    instance := if entry != null then entry.data else 0;
  }

  /** A device on the local IP network with these octets. */
  predicate HasOctets(d: AddressEntry.Data, o: Octets) {
    && d.address.adr == []
    && d.address.mac.ip0 == o.a && d.address.mac.ip1 == o.b && d.address.mac.ip2 == o.c && d.address.mac.ip3 == o.d
  }

  /** The last such device of a table. */
  ghost predicate LastWith(data: seq<AddressEntry.Data>, o: Octets, k: nat) {
    k < |data| && HasOctets(data[k], o) && forall j :: k < j < |data| ==> !HasOctets(data[j], o)
  }

  /** This is the instance of the last such device of a table, or 0 if there is none. */
  ghost predicate InstanceOf(ids: seq<uint32>, data: seq<AddressEntry.Data>, o: Octets, r: uint32)
    requires |ids| == |data|
  {
    (exists k: nat :: LastWith(data, o, k) && r == ids[k]) || (r == 0 && forall d :: d in data ==> !HasOctets(d, o))
  }

  /** The second half of `ip_to_instance`: the walk, and another lookup. */
  method Discover(aim: AddressInstanceMap.Table, at: AddressEntry.Table, key: string, arrivals: seq<seq<Arrival>>)
    returns (instance: uint32)
    requires aim.Valid() && Dotted(aim.Keys()) && AddressEntry.ValidTable(at)
    modifies Footprint(aim, at)
    ensures aim.Valid() && Dotted(aim.Keys()) && AddressEntry.ValidTable(at)
    ensures instance == Found(aim.Keys(), aim.Values(), key)
    ensures at.Keys() == Remaining([], old(at.Keys()), arrivals, 0) && (arrivals == [] ==> at.nodes == [])
    ensures aim.Keys() == KeysAfter(old(aim.Keys()), old(at.Values()))
    ensures aim.Values() == InstancesAfter(old(aim.Values()), old(at.Keys()), old(at.Values()))
  {
    NothingComes([], at.Keys(), 0);
    Drain(aim, at, arrivals);
    var hit;
    hit, instance := LookUp(aim, key);
  }

  /** `ip_to_instance` once it is known whether the text is an IP address. */
  method ResolveText(bbmd: bool, isIp: bool, aim: AddressInstanceMap.Table, at: AddressEntry.Table, text: string,
                     arrivals: seq<seq<Arrival>>)
    returns (instance: uint32)
    requires aim.Valid() && Dotted(aim.Keys()) && AddressEntry.ValidTable(at)
    modifies Footprint(aim, at)
    ensures aim.Valid() && Dotted(aim.Keys()) && AddressEntry.ValidTable(at)
    ensures if bbmd then instance == 0xFFFF_FFFF
            else if !isIp then instance == 0
            else instance == Found(aim.Keys(), aim.Values(), text)
    ensures if bbmd || !isIp || text in old(aim.Keys()) then
              aim.nodes == old(aim.nodes) && at.nodes == old(at.nodes)
              && aim.Keys() == old(aim.Keys()) && aim.Values() == old(aim.Values())
            else
              at.Keys() == Remaining([], old(at.Keys()), arrivals, 0) && (arrivals == [] ==> at.nodes == [])
              && aim.Keys() == KeysAfter(old(aim.Keys()), old(at.Values()))
              && aim.Values() == InstancesAfter(old(aim.Values()), old(at.Keys()), old(at.Values()))
  {
    if bbmd {
      return UINT32_MAX;
    }
    if isIp {
      var hit;
      hit, instance := LookUp(aim, text);
      if !hit {
        instance := Discover(aim, at, text, arrivals);
      }
      return instance;
    }
    return 0;
  }

  /** What `ip_to_instance` answers, from what the cache and the table hold when it is called. */
  ghost predicate IsAnswer(bbmd: bool, text: string, keys: seq<string>, instances: seq<uint32>,
                           ids: seq<uint32>, data: seq<AddressEntry.Data>, r: uint32)
    requires |keys| == |instances| && |ids| == |data|
  {
    if bbmd then r == 0xFFFF_FFFF
    else if Parse(text).None? then r == 0
    else if text in keys then r == instances[IndexOf(keys, text)]
    else InstanceOf(ids, data, Parse(text).value, r)
  }

  lemma Answered(text: string, keys: seq<string>, instances: seq<uint32>, ids: seq<uint32>,
                 data: seq<AddressEntry.Data>)
    requires |keys| == |instances| && |ids| == |data| && Parse(text).Some?
    ensures IsAnswer(false, text, keys, instances, ids, data,
                     if text in keys then Found(keys, instances, text)
                     else Found(KeysAfter(keys, data), InstancesAfter(instances, ids, data), text))
  {
    if text !in keys {
      LastByOctets(keys, instances, ids, data, text);
    }
  }

  /** `ip_to_instance`. `bbmd` says whether the two BBMD variables are set; `at` is the table `bacnetWhoIs`
      returned, and `arrivals` what comes in while it is walked. */
  method Resolve(bbmd: bool, aim: AddressInstanceMap.Table, at: AddressEntry.Table, deviceInstance: string,
                 arrivals: seq<seq<Arrival>>)
    returns (instance: uint32)
    requires aim.Valid() && Dotted(aim.Keys()) && AddressEntry.ValidTable(at)
    modifies Footprint(aim, at)
    ensures aim.Valid() && Dotted(aim.Keys()) && AddressEntry.ValidTable(at)
    ensures IsAnswer(bbmd, deviceInstance, old(aim.Keys()), old(aim.Values()), old(at.Keys()), old(at.Values()),
                     instance)
    ensures bbmd || Parse(deviceInstance).None? || deviceInstance in old(aim.Keys()) ==>
              aim.Keys() == old(aim.Keys()) && aim.Values() == old(aim.Values()) && at.nodes == old(at.nodes)
    ensures !bbmd && Parse(deviceInstance).Some? && deviceInstance !in old(aim.Keys()) ==>
              && at.Keys() == Remaining([], old(at.Keys()), arrivals, 0) && (arrivals == [] ==> at.nodes == [])
              && aim.Keys() == KeysAfter(old(aim.Keys()), old(at.Values()))
              && aim.Values() == InstancesAfter(old(aim.Values()), old(at.Keys()), old(at.Values()))
  {
    if Parse(deviceInstance).Some? {
      Answered(deviceInstance, aim.Keys(), aim.Values(), at.Keys(), at.Values());
    }
    instance := ResolveText(bbmd, Parse(deviceInstance).Some?, aim, at, deviceInstance, arrivals);
  }

  /** What an uncached address resolves to, by the octets it reads as. */
  lemma LastByOctets(keys: seq<string>, instances: seq<uint32>, ids: seq<uint32>, data: seq<AddressEntry.Data>,
                     key: string)
    requires |data| == |ids| && Parse(key).Some? && key !in keys
    ensures InstanceOf(ids, data, Parse(key).value,
                       Found(KeysAfter(keys, data), InstancesAfter(instances, ids, data), key))
  {
    var o, r := Parse(key).value, Found(KeysAfter(keys, data), InstancesAfter(instances, ids, data), key);
    LastLocalWins(keys, instances, ids, data, key);
    forall j | 0 <= j < |data| ensures Answers(data[j], key) <==> HasOctets(data[j], o) {
      QuadExact(key, data[j].address.mac);
    }
    if k: nat :| LastAnswer(data, key, k) && r == ids[k] {
      assert LastWith(data, o, k);
    }
  }

  predicate Answers(d: AddressEntry.Data, key: string) {
    IsLocal(d) && Quad(d.address.mac) == key
  }

  ghost predicate LastAnswer(data: seq<AddressEntry.Data>, key: string, k: nat) {
    k < |data| && Answers(data[k], key) && forall j :: k < j < |data| ==> !Answers(data[j], key)
  }

  /** The instance of the last local entry with this address, or `other` if there is none. */
  ghost predicate ResolvesTo(ids: seq<uint32>, data: seq<AddressEntry.Data>, key: string, other: uint32, r: uint32)
    requires |data| == |ids|
  {
    (exists k: nat :: LastAnswer(data, key, k) && r == ids[k])
    || (r == other && forall j :: 0 <= j < |data| ==> !Answers(data[j], key))
  }

  /** What an address resolves to after the walk: the instance of the last local entry of the table
      with that address, or what it resolved to before if there is none. */
  lemma {:induction false} LastLocalWins(keys: seq<string>, instances: seq<uint32>, ids: seq<uint32>,
                                         data: seq<AddressEntry.Data>, key: string)
    requires |data| == |ids|
    decreases |data|
    ensures ResolvesTo(ids, data, key, Found(keys, instances, key),
                       Found(KeysAfter(keys, data), InstancesAfter(instances, ids, data), key))
  {
    if data == [] {
    } else {
      var ks, vs := Remembered(keys, data[0]), RememberedInstance(instances, ids[0], data[0]);
      LastLocalWins(ks, vs, ids[1..], data[1..], key);
      var r := Found(KeysAfter(keys, data), InstancesAfter(instances, ids, data), key);
      if Answers(data[0], key) {
        FoundFirst(keys, instances, ids[0], key);
      } else {
        NoAnswer(keys, instances, data[0], ids[0], key);
      }
      ResolvedByRest(ids, data, key, Found(keys, instances, key), r);
    }
  }

  lemma ResolvedByRest(ids: seq<uint32>, data: seq<AddressEntry.Data>, key: string, other: uint32, r: uint32)
    requires 0 < |data| == |ids|
    requires ResolvesTo(ids[1..], data[1..], key, if Answers(data[0], key) then ids[0] else other, r)
    ensures ResolvesTo(ids, data, key, other, r)
  {
    var rest := data[1..];
    if k: nat :| LastAnswer(rest, key, k) && r == ids[1..][k] {
      assert forall j :: k + 1 < j < |data| ==> data[j] == rest[j - 1];
      assert LastAnswer(data, key, k + 1);
    } else {
      assert forall j :: 0 < j < |data| ==> data[j] == rest[j - 1];
      assert Answers(data[0], key) ==> LastAnswer(data, key, 0);
    }
  }

  lemma FoundFirst(keys: seq<string>, instances: seq<uint32>, id: uint32, key: string)
    ensures Found([key] + keys, [id] + instances, key) == id
  {
    assert ([key] + keys)[0] == key;
  }

  lemma NoAnswer(keys: seq<string>, instances: seq<uint32>, d: AddressEntry.Data, id: uint32, key: string)
    requires !Answers(d, key)
    ensures Found(Remembered(keys, d), RememberedInstance(instances, id, d), key) == Found(keys, instances, key)
  {
    if IsLocal(d) {
      FoundPast(keys, instances, Quad(d.address.mac), id, key);
    }
  }

  lemma FoundPast(keys: seq<string>, instances: seq<uint32>, other: string, id: uint32, key: string)
    requires other != key
    ensures Found([other] + keys, [id] + instances, key) == Found(keys, instances, key)
  {
    assert ([other] + keys)[1..] == keys;
  }
}

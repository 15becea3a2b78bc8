/** The GET and PUT commands of main.c with the list builders and converters of driver.c. */
module Commands {
  import opened Addressing
  import opened Bacnet
  import opened Cells
  import opened Lists

  /** `bacnet_attributes_t`: what a device resource refers to. */
  datatype Attributes = Attributes(object: nat, property: nat, instance: uint32, index: uint32)

  /** `iot_data_t`, as far as the commands handle it; a `Foreign` value is of any other type. */
  datatype IotValue =
    | Bool(b: bool)
    | String(text: string)
    | UInt8(n8: byte) | UInt16(n16: uint16) | UInt32(n32: uint32) | UInt64(n64: nat)
    | Int8(i8: int) | Int16(i16: int) | Int32(i32: int) | Int64(i64: int)
    | Float32(r: real) | Float64(d: real)
    | Foreign

  datatype ReadCall = ReadCall(address: DeviceAddress, what: Attributes)

  datatype WriteItem = WriteItem(what: Attributes, value: AppValue, priority: nat)

  datatype WriteCall = WriteCall(address: DeviceAddress, item: WriteItem)

  /** The protocol side of a command. How the n-th read or write since start-up ends is not known
      here; the calls are kept in the order they were made. */
  class Bus {
    const answer: (nat, ReadCall) -> Option<AppValue>
    const accepts: (nat, WriteCall) -> bool
    var readLog: seq<ReadCall>
    var writeLog: seq<WriteCall>

    constructor (answer: (nat, ReadCall) -> Option<AppValue>, accepts: (nat, WriteCall) -> bool)
      ensures this.answer == answer && this.accepts == accepts && readLog == [] && writeLog == []
    {
      this.answer, this.accepts, this.readLog, this.writeLog := answer, accepts, [], [];
    }

    /** `bacnetReadProperty`: an allocated value, or NULL. */
    method ReadProperty(heap: Heap, call: ReadCall) returns (c: Cell?<AppValue>)
      modifies this`readLog, heap
      ensures readLog == old(readLog) + [call]
      ensures match answer(|old(readLog)|, call)
              case None => c == null && heap.live == old(heap.live)
              case Some(v) => c != null && fresh(c) && c.item == v && heap.live == old(heap.live) + {c}
    {
      var r := answer(|readLog|, call);
      readLog := readLog + [call];
      if r.None? {
        return null;
      }
      c := heap.Alloc(r.value);
    }

    /** `bacnetWriteProperty`: 0, or 1 on failure. */
    method WriteProperty(call: WriteCall) returns (error: nat)
      modifies this`writeLog
      ensures writeLog == old(writeLog) + [call]
      ensures error == if accepts(|old(writeLog)|, call) then 0 else 1
    {
      error := if accepts(|writeLog|, call) then 0 else 1;
      writeLog := writeLog + [call];
    }
  }

  // ---- GET ----

  /** `read_access_data_populate`: the requests as a list, in order. */
  method ReadAccessDataPopulate(heap: Heap, requests: seq<Attributes>)
    returns (head: Cell?<Attributes>, ghost q: seq<Cell<Attributes>>)
    modifies heap
    ensures Linked(head, q) && Items(q) == requests
    ensures heap.live == old(heap.live) + (set c | c in q) && (forall c :: c in q ==> fresh(c))
  {
    head, q := null, [];
    for i := 0 to |requests|
      invariant Linked(head, q) && Items(q) == requests[..i]
      invariant fresh(set c | c in q)
      invariant heap.live == old(heap.live) + set c | c in q
    {
      var c := heap.Alloc(requests[i]);
      ghost var was := q;
      head := Append(head, c, q);
      q := q + [c];
      assert requests[..i + 1] == requests[..i] + [requests[i]];
    }
  }

  /** The ends of the reads a GET would make, were it to make them all. */
  function Answers(bus: Bus, from: nat, address: DeviceAddress, requests: seq<Attributes>): (r: seq<Option<AppValue>>)
    ensures |r| == |requests|
  {
    seq(|requests|, i requires 0 <= i < |requests| => bus.answer(from + i, ReadCall(address, requests[i])))
  }

  function ReadCalls(address: DeviceAddress, requests: seq<Attributes>): (r: seq<ReadCall>)
    ensures |r| == |requests|
  {
    seq(|requests|, i requires 0 <= i < |requests| => ReadCall(address, requests[i]))
  }

  /** One read, its result linked behind the earlier ones. */
  method ReadNext(bus: Bus, heap: Heap, call: ReadCall, head: Cell?<AppValue>, ghost rs: seq<Cell<AppValue>>)
    returns (ok: bool, results: Cell?<AppValue>, ghost c: Cell?<AppValue>)
    requires Linked(head, rs)
    modifies bus`readLog, heap, rs`next
    ensures bus.readLog == old(bus.readLog) + [call]
    ensures match bus.answer(|old(bus.readLog)|, call)
            case None => !ok && results == head && c == null && Linked(head, rs) && heap.live == old(heap.live)
            case Some(v) =>
              && ok && c != null && fresh(c) && c.item == v && Linked(results, rs + [c])
              && heap.live == old(heap.live) + {c}
  {
    var result := bus.ReadProperty(heap, call);
    c := result;
    if result == null {
      return false, head, c;
    }
    results := Append(head, result, rs);
    ok := true;
  }

  /** The read loop of `bacnet_get_handler`: it stops at the first read that fails. */
  method ReadAll(bus: Bus, heap: Heap, address: DeviceAddress, head: Cell?<Attributes>,
                 ghost q: seq<Cell<Attributes>>, ghost requests: seq<Attributes>)
    returns (ok: bool, results: Cell?<AppValue>, ghost rs: seq<Cell<AppValue>>)
    requires Linked(head, q) && Items(q) == requests
    modifies bus`readLog, heap
    ensures |rs| <= |requests| && (ok <==> |rs| == |requests|)
    ensures bus.readLog == old(bus.readLog) + ReadCalls(address, requests)[..if ok then |rs| else |rs| + 1]
    ensures var answers := Answers(bus, |old(bus.readLog)|, address, requests);
            && (!ok ==> answers[|rs|] == None)
            && forall i :: 0 <= i < |rs| ==> answers[i] == Some(rs[i].item)
    ensures Linked(results, rs) && (forall c :: c in rs ==> fresh(c)) && heap.live == old(heap.live) + set c | c in rs
  {
    ghost var answers, calls := Answers(bus, |bus.readLog|, address, requests), ReadCalls(address, requests);
    ok, results, rs := true, null, [];
    var current := head;
    ghost var i := 0;
    while current != null
      invariant 0 <= i <= |q| && current == At(q, i) && i == |rs|
      invariant bus.readLog == old(bus.readLog) + calls[..i]
      invariant Linked(results, rs) && fresh(set c | c in rs)
      invariant forall j :: 0 <= j < i ==> answers[j] == Some(rs[j].item)
      invariant heap.live == old(heap.live) + set c | c in rs
      decreases |q| - i
    {
      assert current.item == requests[i] && calls[..i + 1] == calls[..i] + [calls[i]];
      ghost var c;
      ok, results, c := ReadNext(bus, heap, ReadCall(address, current.item), results, rs);
      if !ok {
        break;
      }
      rs := rs + [c];
      current := current.next;
      i := i + 1;
    }
  }

  /** The value a reading gets; a tag that is not handled leaves it alone. */
  function Converted(v: AppValue): Option<IotValue> {
    match v
    case Boolean(b) => Some(Bool(b))
    case CharacterString(text) => Some(String(text))
    case UnsignedInt(u) => Some(UInt32(u))
    case SignedInt(i) => Some(Int32(i))
    case Real(r) => Some(Float32(r))
    case Double(d) => Some(Float64(d))
    case OtherTag(_) => None
  }

  /** What a value that was read makes of a reading, type by type. */
  predicate ReadAs(v: AppValue, was: Option<IotValue>, now: Option<IotValue>) {
    match v
    case Boolean(b) => now == Some(Bool(b))
    case CharacterString(text) => now == Some(String(text))
    case UnsignedInt(u) => now == Some(UInt32(u))
    case SignedInt(i) => now == Some(Int32(i))
    case Real(r) => now == Some(Float32(r))
    case Double(d) => now == Some(Float64(d))
    case OtherTag(_) => now == was
  }

  /** `devsdk_commandresult_populate`: converts the results in order, freeing each. */
  method CommandResultPopulate(heap: Heap, readings: array<Option<IotValue>>, results: Cell?<AppValue>,
                               ghost rs: seq<Cell<AppValue>>)
    requires Linked(results, rs) && |rs| <= readings.Length && forall c :: c in rs ==> c in heap.live
    modifies heap, readings
    ensures heap.live == old(heap.live) - set c | c in rs
    ensures forall j :: 0 <= j < readings.Length ==>
                          readings[j] == if j < |rs| && Converted(rs[j].item).Some? then Converted(rs[j].item)
                                         else old(readings[j])
  {
    var current := results;
    var i := 0;
    while i < readings.Length && current != null
      invariant 0 <= i <= |rs| && current == At(rs, i)
      invariant heap.live == old(heap.live) - set c | c in rs[..i]
      invariant forall j :: 0 <= j < readings.Length ==>
                              readings[j] == if j < i && Converted(rs[j].item).Some? then Converted(rs[j].item)
                                             else old(readings[j])
      decreases |rs| - i
    {
      var v := Converted(current.item);
      if v.Some? {
        readings[i] := v;
      }
      var next := current.next;
      heap.Free(current);
      current := next;
      assert rs[..i + 1] == rs[..i] + [rs[i]];
      i := i + 1;
    }
    assert rs[..i] == rs;
  }

  /** `bacnet_get_handler`. Let k be the number of reads before the first that fails. The reads made
      are the requests in order, up to that one; the first k readings come from the first k requests;
      later readings are not touched; and nothing allocated is left. */
  method GetHandler(bus: Bus, heap: Heap, address: DeviceAddress, requests: seq<Attributes>,
                    readings: array<Option<IotValue>>)
    returns (ok: bool, exception: Option<string>)
    requires readings.Length == |requests|
    modifies bus`readLog, heap, readings
    ensures var answers := Answers(bus, |old(bus.readLog)|, address, requests);
            var k := IndexOf(answers, None);
            && (ok <==> k == |requests|) && exception == (if ok then None else Some("Error reading data"))
            && bus.readLog == old(bus.readLog) + ReadCalls(address, requests)[..if ok then k else k + 1]
            && forall j :: 0 <= j < |requests| ==>
                 readings[j] == if j < k && Converted(answers[j].value).Some? then Converted(answers[j].value)
                                else old(readings[j])
    ensures forall j :: 0 <= j < |requests| ==>
                          var answers := Answers(bus, |old(bus.readLog)|, address, requests);
                          if j < IndexOf(answers, None) then ReadAs(answers[j].value, old(readings[j]), readings[j])
                          else readings[j] == old(readings[j])
    ensures forall i :: |old(bus.readLog)| <= i < |bus.readLog| ==>
                          bus.readLog[i] == ReadCall(address, requests[i - |old(bus.readLog)|])
    ensures heap.live == old(heap.live)
  {
    var data; ghost var q;
    data, q := ReadAccessDataPopulate(heap, requests);
    var results; ghost var rs;
    ok, results, rs := ReadAll(bus, heap, address, data, q, requests);
    IndexOfIs(Answers(bus, |old(bus.readLog)|, address, requests), None, |rs|);
    exception := if ok then None else Some("Error reading data");
    FreeAll(heap, data, q);
    CommandResultPopulate(heap, readings, results, rs);
  }

  // ---- PUT ----

  /** The application value a value is sent as. 64-bit integers are logged as unsupported and sent
      with tag 0; a value of another type is refused. */
  function Encoded(v: IotValue): Option<AppValue> {
    match v
    case Bool(b) => Some(Boolean(b))
    case String(text) => Some(CharacterString(text))
    case UInt8(n) => Some(UnsignedInt(n))
    case UInt16(n) => Some(UnsignedInt(n))
    case UInt32(n) => Some(UnsignedInt(n))
    case UInt64(_) => Some(OtherTag(0))
    case Int8(i) => Some(SignedInt(i))
    case Int16(i) => Some(SignedInt(i))
    case Int32(i) => Some(SignedInt(i))
    case Int64(_) => Some(OtherTag(0))
    case Float32(r) => Some(Real(r))
    case Float64(d) => Some(Double(d))
    case Foreign => None
  }

  /** What a value is sent as, type by type: unsigned and signed numbers of up to 32 bits as they are, and
      64-bit integers as an empty value with tag 0, the null of BACnet. */
  predicate SentAs(v: IotValue, a: AppValue) {
    match v
    case Bool(b) => a == Boolean(b)
    case String(text) => a == CharacterString(text)
    case UInt8(n) => a == UnsignedInt(n)
    case UInt16(n) => a == UnsignedInt(n)
    case UInt32(n) => a == UnsignedInt(n)
    case UInt64(_) => a == OtherTag(0)
    case Int8(i) => a == SignedInt(i)
    case Int16(i) => a == SignedInt(i)
    case Int32(i) => a == SignedInt(i)
    case Int64(_) => a == OtherTag(0)
    case Float32(r) => a == Real(r)
    case Float64(d) => a == Double(d)
    case Foreign => false
  }

  /** Every type but the foreign ones is sent, as said. */
  lemma EncodedAs(v: IotValue)
    ensures Encoded(v).Some? <==> !v.Foreign?
    ensures Encoded(v).Some? ==> SentAs(v, Encoded(v).value)
  {
  }

  /** A value that was read is written back as it was. */
  lemma ReadThenWritten(v: AppValue)
    ensures Converted(v).Some? ==> Encoded(Converted(v).value) == Some(v)
  {
  }

  /** A value that was written is read back, its number as one of 32 bits, except that 64-bit integers
      are lost; a value of another type is not written at all. */
  lemma WrittenThenRead(v: IotValue)
    ensures Encoded(v).None? <==> v.Foreign?
    ensures Encoded(v).Some? ==>
              Converted(Encoded(v).value) ==
              match v
              case UInt8(n) => Some(UInt32(n))
              case UInt16(n) => Some(UInt32(n))
              case Int8(i) => Some(Int32(i))
              case Int16(i) => Some(Int32(i))
              case UInt64(_) => None
              case Int64(_) => None
              case _ => Some(v)
  {
  }

  predicate AllAccepted(values: seq<IotValue>) {
    forall i :: 0 <= i < |values| ==> Encoded(values[i]).Some?
  }

  /** The writes a PUT asks for, each with priority 1. */
  function WriteItems(requests: seq<Attributes>, values: seq<IotValue>): (r: seq<WriteItem>)
    requires |requests| == |values| && AllAccepted(values)
    ensures |r| == |requests|
  {
    seq(|requests|, i requires 0 <= i < |requests| => WriteItem(requests[i], Encoded(values[i]).value, 1))
  }

  function Reversed<T>(s: seq<T>): (r: seq<T>)
    ensures |r| == |s|
    ensures forall i :: 0 <= i < |s| ==> r[i] == s[|s| - 1 - i]
  {
    if s == [] then [] else Reversed(s[1..]) + [s[0]]
  }

  lemma {:induction false} ReversedAppend<T>(s: seq<T>, x: T)
    ensures Reversed(s + [x]) == [x] + Reversed(s)
  {
    if s == [] {
      assert s + [x] == [x];
    } else {
      assert (s + [x])[1..] == s[1..] + [x];
      ReversedAppend(s[1..], x);
    }
  }

  /** `bacnet_write_access_data_add`: the new item goes in front. */
  method WriteAccessDataAdd(heap: Heap, head: Cell?<WriteItem>, item: WriteItem, ghost q: seq<Cell<WriteItem>>)
    returns (data: Cell<WriteItem>)
    requires Linked(head, q)
    modifies heap
    ensures fresh(data) && Linked(data, [data] + q) && data.item == item && heap.live == old(heap.live) + {data}
  {
    data := heap.Alloc(item);
    data.next := head;
    DistinctPrepend(data, q);
  }

  /** `write_access_data_populate`: the items in reverse; a value of another type frees what was
      built and fails. */
  method WriteAccessDataPopulate(heap: Heap, requests: seq<Attributes>, values: seq<IotValue>)
    returns (ok: bool, head: Cell?<WriteItem>, ghost q: seq<Cell<WriteItem>>)
    requires |requests| == |values|
    modifies heap
    ensures ok <==> AllAccepted(values)
    ensures ok ==> Linked(head, q) && Items(q) == Reversed(WriteItems(requests, values)) && fresh(set c | c in q)
    ensures heap.live == if ok then old(heap.live) + (set c | c in q) else old(heap.live)
  {
    head, q := null, [];
    for i := 0 to |values|
      invariant AllAccepted(values[..i])
      invariant Linked(head, q) && Items(q) == Reversed(WriteItems(requests[..i], values[..i]))
      invariant fresh(set c | c in q) && heap.live == old(heap.live) + set c | c in q
    {
      var v := Encoded(values[i]);
      if v.None? {
        FreeAll(heap, head, q);
        return false, head, q;
      }
      var item := WriteItem(requests[i], v.value, 1);
      head := WriteAccessDataAdd(heap, head, item, q);
      q := [head] + q;
      ItemsGrow(requests, values, i);
    }
    assert requests[..|values|] == requests && values[..|values|] == values;
    ok := true;
  }

  lemma ItemsGrow(requests: seq<Attributes>, values: seq<IotValue>, i: nat)
    requires i < |requests| == |values| && AllAccepted(values[..i]) && Encoded(values[i]).Some?
    ensures AllAccepted(values[..i + 1])
    ensures Reversed(WriteItems(requests[..i + 1], values[..i + 1]))
         == [WriteItem(requests[i], Encoded(values[i]).value, 1)] + Reversed(WriteItems(requests[..i], values[..i]))
  {
    var was := WriteItems(requests[..i], values[..i]);
    var item := WriteItem(requests[i], Encoded(values[i]).value, 1);
    assert WriteItems(requests[..i + 1], values[..i + 1]) == was + [item];
    ReversedAppend(was, item);
  }

  function WriteCalls(address: DeviceAddress, items: seq<WriteItem>): (r: seq<WriteCall>)
    ensures |r| == |items|
  {
    seq(|items|, i requires 0 <= i < |items| => WriteCall(address, items[i]))
  }

  /** The ends of these writes, were they all made. */
  function Acceptances(bus: Bus, from: nat, calls: seq<WriteCall>): (r: seq<bool>)
    ensures |r| == |calls|
  {
    seq(|calls|, i requires 0 <= i < |calls| => bus.accepts(from + i, calls[i]))
  }

  /** The write loop of `bacnet_put_handler`: it stops at the first write that fails. */
  method WriteAll(bus: Bus, address: DeviceAddress, head: Cell?<WriteItem>, ghost q: seq<Cell<WriteItem>>)
    returns (error: nat)
    requires Linked(head, q)
    modifies bus`writeLog
    ensures var calls := WriteCalls(address, Items(q));
            var k := IndexOf(Acceptances(bus, |old(bus.writeLog)|, calls), false);
            && (error == 0 <==> k == |calls|)
            && bus.writeLog == old(bus.writeLog) + calls[..if k == |calls| then k else k + 1]
  {
    ghost var was, calls := bus.writeLog, WriteCalls(address, Items(q));
    ghost var accepted := Acceptances(bus, |was|, calls);
    error := 0;
    var current := head;
    ghost var i := 0;
    while current != null
      invariant 0 <= i <= |q| && current == At(q, i) && error == 0
      invariant bus.writeLog == was + calls[..i]
      invariant forall j :: 0 <= j < i ==> accepted[j]
      decreases |q| - i
    {
      ghost var call := WriteCall(address, current.item);
      error := bus.WriteProperty(WriteCall(address, current.item));
      assert calls[..i + 1] == calls[..i] + [call];
      assert bus.writeLog == was + calls[..i + 1];
      if error != 0 {
        break;
      }
      current := current.next;
      i := i + 1;
    }
    IndexOfIs(accepted, false, i);
  }

  /** These writes are requests from the last one on, each of its value with priority 1. */
  predicate Sent(address: DeviceAddress, requests: seq<Attributes>, values: seq<IotValue>, calls: seq<WriteCall>)
    requires |requests| == |values|
  {
    |calls| <= |requests| && forall i :: 0 <= i < |calls| ==>
      var j := |requests| - 1 - i;
      && calls[i].address == address && calls[i].item.what == requests[j] && calls[i].item.priority == 1
      && SentAs(values[j], calls[i].item.value)
  }

  lemma CallsSent(address: DeviceAddress, requests: seq<Attributes>, values: seq<IotValue>, n: nat)
    requires |requests| == |values| && AllAccepted(values) && n <= |requests|
    ensures Sent(address, requests, values, WriteCalls(address, Reversed(WriteItems(requests, values)))[..n])
  {
    var calls := WriteCalls(address, Reversed(WriteItems(requests, values)));
    forall i | 0 <= i < n ensures SentAs(values[|requests| - 1 - i], calls[i].item.value) {
      EncodedAs(values[|requests| - 1 - i]);
    }
  }

  lemma AcceptedExactly(values: seq<IotValue>)
    ensures AllAccepted(values) <==> forall v :: v in values ==> !v.Foreign?
  {
    forall i | 0 <= i < |values| ensures Encoded(values[i]).Some? <==> !values[i].Foreign? {
      EncodedAs(values[i]);
    }
  }

  /** `bacnet_put_handler`. If any value is of another type nothing is written. Otherwise the writes
      made are the requests from the last to the first, up to the first that fails, each with
      priority 1. Nothing allocated is left. */
  method PutHandler(bus: Bus, heap: Heap, address: DeviceAddress, requests: seq<Attributes>, values: seq<IotValue>)
    returns (ok: bool, exception: Option<string>)
    requires |requests| == |values|
    modifies bus`writeLog, heap
    ensures heap.live == old(heap.live)
    ensures (exists v :: v in values && v.Foreign?) ==>
              !ok && exception == Some("Error populating write_data") && bus.writeLog == old(bus.writeLog)
    ensures AllAccepted(values) ==>
              var calls := WriteCalls(address, Reversed(WriteItems(requests, values)));
              var k := IndexOf(Acceptances(bus, |old(bus.writeLog)|, calls), false);
              && (ok <==> k == |requests|) && exception == (if ok then None else Some("Error writing property"))
              && bus.writeLog == old(bus.writeLog) + calls[..if ok then k else k + 1]
    ensures (forall v :: v in values ==> !v.Foreign?) ==>
              Sent(address, requests, values, bus.writeLog[|old(bus.writeLog)|..])
  {
    AcceptedExactly(values);
    var head; ghost var q;
    ok, head, q := WriteAccessDataPopulate(heap, requests, values);
    if !ok {
      return false, Some("Error populating write_data");
    }
    ghost var from, calls := |bus.writeLog|, WriteCalls(address, Reversed(WriteItems(requests, values)));
    var error := WriteAll(bus, address, head, q);
    assert bus.writeLog[from..] == calls[..|bus.writeLog| - from];
    CallsSent(address, requests, values, |bus.writeLog| - from);
    FreeAll(heap, head, q);
    if error != 0 {
      return false, Some("Error writing property");
    }
    return true, None;
  }
}

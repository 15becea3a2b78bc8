# A verified model of the BACnet device service driver

The device service answers EdgeX GET, PUT and discovery requests by talking BACnet to devices. Any
number of service threads call `bacnetReadProperty`, `bacnetWriteProperty` and `bacnetWhoIs`; one
receive thread runs the handlers of the responses. They share linked tables, a handful of mutexes and
a condition variable per request. This project models that request protocol, the tables it runs on,
and the commands on top of it, and proves what they guarantee.

`dafny verify dfyconfig.toml` checks the whole project.

## How it is laid out

The request protocol is concurrent and is modelled as a state machine; code that one thread runs by
itself is modelled as methods over objects.

- `Protocol.dfy`: the state machine. `SetNext`, `BindNext`, `WaiterNext`, `SendNext`, `WaitNext` and
  `UnlinkNext` are the steps of a call (src/c/return_data.c:111-142, src/c/driver.c:764-1005), and
  `PendNext`, `CondNext` and `LocksNext` what these do to the tables and mutexes. `RxNext`, `RxOps`,
  `RxLog` and `RxBind` are the steps of the handlers (src/c/driver.c:83-276). `TakeNext` and `Insert`
  are the discovered-device table. `Enabled` and `Apply` put them together; a run is any sequence of
  enabled actions, so every interleaving, timeout and spurious wake-up is a run.
- `Locking.dfy`, `Calls.dfy`, `Pending.dfy`, `Receiving.dfy`, `Waiters.dfy`, `Discovering.dfy`: the
  parts of the invariant; `Safety.dfy`: the invariant is inductive; `Signals.dfy`: a signal finds the
  call that waits on its node or waiter.
- `Theorems.dfy`, `Asking.dfy`, `Delivery.dfy`, `Handling.dfy`, `Binding.dfy`, `Waking.dfy`,
  `Deadlock.dfy`: the results, on requests, on what is sent before a wait, from the lookup of a response
  to the result of its request, from the lookup of a message to the end of its handler, on
  `find_and_bind`, on the wait for an I-Am, and on blocking.
- `Witness.dfy`, `Races.dfy`: runs that show where the guarantees end.
- `Chain.dfy`: the doubly linked list the four table files each spell out. `ReturnData.dfy`,
  `ConditionMap.dfy`, `AddressEntry.dfy`, `AddressInstanceMap.dfy`: the four tables on the heap, with
  lemmas that tie three of them to the tables of the state machine.
- `IpToInstance.dfy`: resolving an IP address while draining the device table; `DottedQuad.dfy`: IP
  addresses as inet_pton reads them. `Addressing.dfy`,
  `Decimal.dfy`: device addresses as text and back. `Cells.dfy`, `Commands.dfy`: GET and PUT.

## What is assumed

The BACnet stack is not part of this model. About it the model assumes:

- A send returns an invoke id from 1 to 255 that no read or write between its send and its return
  holds and that no request still on the wire has, or 0 when nothing was sent (`Protocol.FreshId`).
- Any message may arrive at any time, from anywhere, with any content and any id but 0. A message that
  answers a request (its `cause`, which the code cannot see) carries that request's id and arrives
  while the request counts as on the wire (`Protocol.Enabled`).
- `address_bind_request` and `address_add_binding` read and write one map from devices to addresses.
- Handlers run on one thread, one at a time (src/c/driver.c:740).
- A signal wakes a waiter if there is one; a wait may also end without a signal. The wait is not in a
  loop (src/c/driver.c:810, src/c/driver.c:875).
- `address_match` says whether two addresses are equal in every field.
- A request that a message answers stays on the wire, and so its id in use, while the handler of a
  message with that id is at work (`Expire` in `Protocol.Enabled`).
- The address of a waiter is a local variable of the call that added it. While that call is in
  `find_and_bind` it is zeroed; afterwards the length read there may be anything (`skip` in
  `Protocol.RxNext`).
- A freed node is not used for a later call, and a handler or a call that still points at it finds it
  as it was.

## What the code does that one might not expect

- `return_data_set` stores the invoke id and then clears as many bytes from `value` on as a
  `BACNET_READ_ACCESS_DATA` has (src/c/return_data.c:121-123). On a 64-bit machine this reaches the
  id, so a Who-Is node carries 0, not the 255 it was asked for. `ReturnData.StoredId` follows the
  layout; the protocol results hold for both ids (`Protocol.Config`).
- A write that fails after its bind leaves its node linked (src/c/driver.c:996-999). That node can sit
  in front of a later request with the same id and take its responses. `Witness.AnswerMisdirected` is
  such a run; `Theorems.DispatchExact` says exactly when a lookup finds the right node.
- `wait_for_data` never sees a timeout, because its time variables stay 0 (src/c/driver.c:864-889); a
  write that is never answered returns 0 (`Witness.UnansweredWriteSucceeds`).
- A response with the right id from the wrong address still ends the wait (src/c/driver.c:94-106;
  `Theorems.NoLostWakeup` asks nothing of the source). A read woken that way returns NULL unless an ACK
  is recorded before it fetches (`Theorems.ReadProvenance`).
- The ACK handler stores the value before it decodes into it, and a read fetches the value without the
  node's mutex (src/c/driver.c:199-202, 918). `Races.UndecodedReturned` is a run in which a read gets a
  block that is not decoded; `Theorems.FetchExact` says exactly when that happens, and
  `Delivery.SignalledReadReturns` that it cannot once that handler has signalled.
- A waiter may stay linked after the call that added it has returned, because calls remove by device id.
  The I-Am handler then tests a variable of a function that has returned (src/c/driver.c:238), may not
  bind, and still signals: `Races.WokenNotBound`. `Waking.TestDecides` says exactly when a call is sure
  to wake up bound.
- For the same reason an I-Am may leave a call that waits for its device asleep, in two ways. Its handler
  may signal a waiter that nobody waits on, because another call removed the one this call waits on
  (`Races.IAmMissesCall`). Or several calls wait on one waiter, of which `pthread_cond_signal` wakes one
  (`Races.IAmWakesOther`). `Waking.WaiterDispatchExact` says exactly when the handler finds a call's
  waiter, and `Waking.SignalDecides` exactly when its signal is sure to leave a call on that waiter awake.
  A call that never shares the time between adding and removing a waiter with another call for its device
  is always reached (`Waking.IAmReachesAlone`).
- `ip_to_instance` tests for an existing entry with the instance in place of the address
  (src/c/driver.c:344); the test never finds anything (`IpToInstance.TestFindsNothing`).
- docs/device_addressing.txt allows an IP address as `DeviceInstance`; `bacnet_getaddress` reads its
  first number only (`Addressing.DottedQuadInstance`).
- PUT writes in reverse order (src/c/driver.c:421), and sends 64-bit integers with tag 0.

## Model

| member | source | states |
|---|---|---|
| `Safety.RunInv` | src/c/driver.c:764-1005 | the invariant of locks, tables, nodes, bindings and discovery holds at every point of every run, whatever the interleaving |
| `Theorems.NeverFaults` | src/c/driver.c:797-843 | no call uses a NULL lookup result, unlinks a node that is not linked, or reaches the transaction-state branches after a bind |
| `Asking.AskedBeforeWaiting` | src/c/driver.c:906-915 | a call that waits has sent what it waits for earlier in the run: its request to its bound target, a Who-Is for its device while it binds, or a Who-Is to everyone |
| `Theorems.StoredBeforeLookup` | src/c/driver.c:906-914 | when a handler looks up the answer to a request, that request's id is already in its node |
| `Theorems.WaitBeforeSignal` | src/c/driver.c:860-876 | when a handler signals a request's node, the request waits or its wait is over |
| `Theorems.NoLostWakeup` | src/c/driver.c:182-207 | when a handler is done with a request's node, the request has been woken or its wait is over |
| `Theorems.HandlerEffect` | src/c/driver.c:90-106 | by then an Error, Abort or Reject from the target has set errorDetected, and a decodable ACK has left a decoded value |
| `Handling.ResponseWakes` | src/c/driver.c:83-275 | when the handler of a response of any service and from any source that found the node of a read or write is done, that call is awake or its wait is over; the one exception is a read ACK for a node that has its value |
| `Theorems.DispatchExact` | src/c/return_data.c:16-33 | a lookup of a waiting request's id finds that request if and only if no node of a failed write or of a Who-Is with the same id is linked in front of it |
| `Theorems.OnlyLeaksShadow` | src/c/return_data.c:95-108 | with no failed write and a Who-Is node of id 0 the lookup always finds the request |
| `Witness.AnswerMisdirected` | src/c/driver.c:994-999 | a reachable state in which the answer to a waiting read is being handled on the node of a write that has already returned |
| `Witness.UnansweredWriteSucceeds` | src/c/driver.c:860-890 | a reachable state in which a write that was sent has the result 0 although no response was ever recorded |
| `Theorems.OneNodeChanges` | src/c/driver.c:83-208 | a handler's step changes at most one node, one with the message's id and source, and no other live request has that id |
| `Theorems.ValueNeverOverwritten` | src/c/driver.c:181-207 | a stored block is never replaced, and once decoded never written again, for the rest of the run |
| `Theorems.ReadProvenance` | src/c/driver.c:893-923 | a bound read returns a value if and only if an ACK was recorded before it fetched; that ACK has the id its own send returned and the source bound for its device and answers no other request, and the value is the one decoded from it, or a block not decoded yet |
| `Theorems.FetchExact` | src/c/driver.c:199-202 | what a read fetches is not decoded if and only if a handler stands between allocating and decoding on its node |
| `Delivery.SignalledReadReturns` | src/c/driver.c:199-206 | once the handler of a decodable answer has signalled the node, a read that has not fetched returns a decoded value |
| `Delivery.AnswerReturned` | src/c/driver.c:181-207 | a decodable answer from the target, looked up while its read is linked and not shadowed and handled before the read fetches, makes the read return a decoded value, and its own if it is the first |
| `Delivery.FailureReturned` | src/c/driver.c:83-164 | an Error, Abort or Reject from the target, looked up while its write is linked and not shadowed and handled before the write tests errorDetected, makes the write return 1 |
| `Races.UndecodedReturned` | src/c/driver.c:917-922 | a reachable state in which a read has been given a block that is not decoded |
| `Theorems.WriteProvenance` | src/c/driver.c:967-1005 | a bound write returns 0 or 1, and 1 if and only if an Error, Abort or Reject was recorded before its check, and such a response had its id and target and answered no other request |
| `Theorems.UnboundFails` | src/c/driver.c:899-904 | a call that does not bind fails with nothing sent and nothing recorded in its node |
| `Theorems.StartsClear` | src/c/driver.c:973-974 | a write or a Who-Is starts with errorDetected cleared |
| `Theorems.WhoIsFinishes` | src/c/driver.c:937-965 | a Who-Is that is over has returned and left no node linked, whatever came in meanwhile |
| `Theorems.BindingSafety` | src/c/driver.c:774-795 | find_and_bind returns true only for an instance in range, with a target bound at start-up or by a handled I-Am |
| `Theorems.NoErrorInBind` | src/c/driver.c:814-829 | inside find_and_bind no error is ever set and the invoke id is still 0 |
| `Binding.OutOfRangeFails` | src/c/driver.c:774-780 | a call for an instance above 4194303 asks nobody, sends nothing and fails |
| `Binding.FirstBind` | src/c/driver.c:787-795 | the first bind request succeeds if and only if the instance is in range and the device bound, with its current address; if only the address is missing the call goes on to ask for it |
| `Binding.BoundThroughout` | src/c/driver.c:787-795 | a call whose device is in range and bound all along never waits for an I-Am and is bound when it is over |
| `Binding.BoundInTime` | src/c/driver.c:764-857 | if the device of a call is bound at any time while the call is in find_and_bind, the call comes out of it bound |
| `Waking.WaiterDispatchExact` | src/c/device_condition_map.c:17-33 | an I-Am's lookup finds the waiter of a waiting call if and only if it is linked and no other waiter for its device is in front of it |
| `Waking.AloneKeepsOwn` | src/c/device_condition_map.c:77-147 | the waiter of a call that has never shared its window, between adding and removing a waiter, with another call for its device is linked throughout it, and what the call gets is its own waiter |
| `Waking.AloneFound` | src/c/driver.c:797-812 | in the window of such a call every lookup of its device gives its waiter; and it waits on that one, alone |
| `Waking.WhoIsWaitBeforeSignal` | src/c/driver.c:800-811 | when the I-Am handler signals a waiter, no call is between its Who-Is and its wait on that waiter |
| `Waking.IAmWakes` | src/c/driver.c:233-246 | when the I-Am handler is done with a waiter, one of the calls waiting on it is awake, and the device is bound to the sender if the call that added it was in find_and_bind at the test |
| `Waking.SignalDecides` | src/c/driver.c:243-245 | the signal is sure to leave a call that waits on the waiter awake if and only if it is awake already or no other call waits on it |
| `Waking.IAmReachesAlone` | src/c/driver.c:233-246 | if a call that has never shared its window waits from the receipt of an I-Am until its handler is done, it is awake and the device is bound to the sender |
| `Waking.AloneIsBound` | src/c/driver.c:809-823 | after a wait that a signal ended, such a call finds its device bound |
| `Waking.TestDecides` | src/c/driver.c:238-242 | at its test, the handler is sure not to wake a call unbound if and only if the call that added the waiter is in find_and_bind or the device is already bound |
| `Waking.WokenIsBound` | src/c/driver.c:809-823 | a call that a signal woke finds its device bound if the call that added its waiter was in find_and_bind at the test or still is, in particular if no other call names the device |
| `Waking.BindingProgress` | src/c/driver.c:820-832 | the second bind request succeeds if and only if the device is bound, with its current address; so it does after such a wait |
| `Races.StaleTest` | src/c/driver.c:238-238 | a reachable state in which the handler is about to test an address in the frame of a call that has returned, while another call waits on that waiter |
| `Races.WokenNotBound` | src/c/driver.c:238-246 | a reachable state in which an I-Am for its device has woken a call and the device is not bound |
| `Races.IAmMissesCall` | src/c/device_condition_map.c:111-147 | a reachable state in which an I-Am was signalled and a call that waits for its device on its own waiter, which another call removed, is not awake |
| `Races.IAmWakesOther` | src/c/driver.c:244-244 | a reachable state in which an I-Am was signalled and a call that waits for its device on its own waiter, linked and found, is not awake, but another call that waits on it is |
| `Theorems.WaiterCount` | src/c/driver.c:797-812 | for each device as many waiters are linked as calls are between adding and removing one, so the get after a set and every remove find one |
| `Theorems.PendingConservation` | src/c/driver.c:898-1002 | the pending table holds, once each, the nodes of the calls between set and remove and of the writes that failed after binding |
| `Theorems.DiscoveryConservation` | src/c/address_entry.c:93-191 | one entry per device; entries inserted are those linked plus those taken, none twice |
| `Handling.IAmDiscovers` | src/c/driver.c:247-251 | the handler of an I-Am that finds no waiter ends with inserting one entry, with the device and the sender, if no entry of the device is linked while it holds the table mutex, and otherwise nothing |
| `Handling.WaiterInsertsNothing` | src/c/driver.c:233-246 | the handler of an I-Am that finds a waiter inserts nothing |
| `Binding.TakerGets` | src/c/address_entry.c:139-191 | a pop takes the first entry, a removal the one of its device, if there is one; the others stay |
| `Theorems.FirstAddressKept` | src/c/address_entry.c:102-111 | an inserted entry stays the only one of its device until it is taken |
| `Theorems.TakersGetDistinctEntries` | src/c/main.c:349-349 | no two pops or removals get the same entry |
| `Deadlock.DeadlockFree` | src/c/driver.c:906-914 | in every reachable state each blocked thread waits for a thread that can step |
| `Deadlock.NestedAcquisition` | src/c/driver.c:984-993 | a thread acquires a mutex while holding another only when it holds its own node and wants the list |
| `Deadlock.ReceiverHoldsOne` | src/c/driver.c:235-251 | the receive thread never holds two mutexes |
| `Deadlock.BoundedCalls` | src/c/driver.c:764-1005 | a call returns after at most 29 steps of its own, and no other thread sets it back |
| `Locking.KeepsLocks` | src/c/return_data.c:145-153 | every action keeps each mutex with the one thread whose program counter is in its section |
| `Waiters.WaiterFound` | src/c/device_condition_map.c:17-33 | a call between adding and removing a waiter always finds one for its device |
| `Discovering.InsertKeepsFound` | src/c/address_entry.c:93-136 | insertion if absent keeps one entry per device and the count of entries |
| `Discovering.TakeKeepsFound` | src/c/address_entry.c:139-191 | so do pop and removal, and what is taken was taken by nobody before |
| `Chain.List.Find` | src/c/return_data.c:17-33 | the lookup loop finds the first node with a key, or null |
| `Chain.List.Prepend` | src/c/return_data.c:130-139 | linking in front keeps a proper doubly linked list and is prepending |
| `Chain.List.PointPast` | src/c/return_data.c:41-61 | once the neighbours of a node point past it, the others form a proper doubly linked list |
| `Chain.List.Unlink` | src/c/return_data.c:41-61 | unlinking keeps a proper doubly linked list, removes exactly that node, and keeps the keys and data of the others in order |
| `ReturnData.Get` | src/c/return_data.c:96-108 | the first node with the invoke id, or null; on a list that stands for the pending table of a state, what the model's lookup finds |
| `ReturnData.Set` | src/c/return_data.c:111-142 | a zeroed node is prepended; it keeps the id unless the clearing of `value` reaches it; for a call at this point it is the model's linking step |
| `ReturnData.StoreId` | src/c/driver.c:908-913 | storing an id changes the key of that node only; for a call at this point it is the model's storing step |
| `ReturnData.RemoveByPtr` | src/c/return_data.c:145-153 | exactly the given node is removed; NULL is refused; for a call at this point it is the model's unlinking step |
| `ReturnData.GetRefinesLookup` | src/c/return_data.c:96-108 | on a list that stands for the pending table of a state, the node found is that of the call the model's lookup finds |
| `ReturnData.SetRefinesLinking` | src/c/return_data.c:130-139 | linking the node of a call in front leaves a list that stands for the state after its linking step |
| `ReturnData.StoreRefinesStoring` | src/c/driver.c:908-913 | so does storing the id that its send returned, for its storing step |
| `ReturnData.RemoveRefinesUnlinking` | src/c/return_data.c:35-66 | so does removing its node, for its unlinking step |
| `ReturnData.OthersKeepTable` | src/c/return_data.c:96-153 | no other action of the protocol changes what the list stands for |
| `ConditionMap.Get` | src/c/device_condition_map.c:63-74 | the first waiter of a device, or null; on a list that stands for the waiters of a state, what the model's lookup finds |
| `ConditionMap.Set` | src/c/device_condition_map.c:77-108 | a waiter is prepended, even if the device has one; for a call at this point it is the model's adding step |
| `ConditionMap.Remove` | src/c/device_condition_map.c:111-147 | the first waiter of the device is removed if and only if there is one; for a call at this point it is the model's dropping step |
| `ConditionMap.GetRefinesLookup` | src/c/device_condition_map.c:63-74 | on a list that stands for the waiters of a state, the node found is the waiter that the model's lookup finds |
| `ConditionMap.SetRefinesAdding` | src/c/device_condition_map.c:77-108 | a set leaves a list that stands for the state after the adding step |
| `ConditionMap.RemoveRefinesDropping` | src/c/device_condition_map.c:111-147 | so does a remove, for the dropping step |
| `ConditionMap.OthersKeepList` | src/c/device_condition_map.c:63-147 | no other action of the protocol changes what the list stands for |
| `AddressEntry.AddressMatches` | src/c/address_entry.c:18-46 | addresses match if and only if network and station address are equal |
| `AddressEntry.Set` | src/c/address_entry.c:93-136 | a device without an entry gets one in front; one with an entry keeps it and null is returned |
| `AddressEntry.Remove` | src/c/address_entry.c:139-173 | the entry of the device is removed, if there is one |
| `AddressEntry.Pop` | src/c/address_entry.c:175-191 | the first entry is taken off, or null returned |
| `AddressEntry.SetRefinesInsert` | src/c/address_entry.c:98-136 | on a list that holds the model's table, a set leaves the devices and addresses that the model's insertion leaves |
| `AddressEntry.RemovalRefinesTake` | src/c/address_entry.c:139-191 | a pop of the first entry and a removal of the first of a device leave what the model's takers leave |
| `AddressInstanceMap.Get` | src/c/address_instance_map.c:65-77 | the first entry of an address, or null |
| `AddressInstanceMap.Set` | src/c/address_instance_map.c:80-102 | an entry is prepended with the parsed instance |
| `AddressInstanceMap.SetUpdates` | src/c/address_instance_map.c:80-102 | a set is an update of the map from addresses to latest instances, and a printed instance is kept |
| `DottedQuad.JoinSplit` | src/c/driver.c:315-315 | what lies between the dots of a text, joined by dots, is the text |
| `IpToInstance.QuadRead` | src/c/driver.c:334-341 | what is printed for a MAC reads as its four IP octets, in order |
| `IpToInstance.QuadExact` | src/c/driver.c:315-341 | a text that inet_pton accepts is what is printed for a MAC if and only if it reads as its octets |
| `IpToInstance.QuadInjective` | src/c/driver.c:337-341 | two devices share a cache key if and only if their IP octets are equal |
| `IpToInstance.TestFindsNothing` | src/c/driver.c:343-348 | the existence test never suppresses an insertion |
| `IpToInstance.RemoveVisited` | src/c/driver.c:350-352 | removing by id during the walk removes the entry just visited, wherever it is |
| `IpToInstance.TextsFit` | src/c/driver.c:334-342 | the printed address and instance fit their buffers of 17 bytes |
| `IpToInstance.Drain` | src/c/driver.c:328-353 | the walk, with I-Am insertions in between, removes the entries that were there and puts every one without a station address into the cache |
| `IpToInstance.WhatRemains` | src/c/driver.c:247-251 | after the walk the table holds exactly the devices that came in when the walk had passed their entry or they had none |
| `IpToInstance.Resolve` | src/c/driver.c:303-362 | UINT32_MAX with BBMD, 0 for a text that is no IP address, the cached instance, or that of the last entry without a station address whose octets are those the text reads as, or 0; and what happens to cache and table |
| `IpToInstance.LastLocalWins` | src/c/driver.c:328-358 | after the walk an address resolves to the last entry of the table with that address, or to what it was before |
| `Decimal.PrintLength` | src/c/driver.c:645-662 | a number below 10^k prints in at most k digits |
| `Decimal.StrtolPrinted` | src/c/main.c:131-135 | strtol in base 0 reads back what %u and %d print, whatever text follows |
| `Decimal.Uint32Kept` | src/c/address_instance_map.c:89-89 | strtoul reads back every 32-bit number that %u prints |
| `Addressing.ProtocolPopulate` | src/c/driver.c:642-667 | both properties are set, and their texts fit buffers of 11 and 6 bytes |
| `Addressing.AddressRoundTrip` | src/c/main.c:263-291 | what a discovered device's properties say parses if and only if its id is not UINT32_MAX and no exception is set, and then to the same id and port |
| `Addressing.DottedQuadInstance` | src/c/main.c:131-135 | a dotted quad given as instance is read as its first number, whatever the other properties are |
| `Addressing.MissingProtocol` | src/c/main.c:287-291 | without a BACnet-IP protocol its exception is set, also over a pending one |
| `Addressing.MissingInstance` | src/c/main.c:268-277 | without an instance its exception is set, or a pending one kept |
| `Addressing.MissingPort` | src/c/main.c:269-284 | a printed instance without a port gets port 47808 |
| `Addressing.BothGiven` | src/c/main.c:268-284 | with both given the instance is what strtol reads in 32 bits, the port in 16, and an instance of all ones is taken for a missing one |
| `Decimal.StrtolHex` | src/c/main.c:134-134 | after 0x hexadecimal digits are read, and large numbers saturate |
| `Decimal.StrtolOctal` | src/c/main.c:134-134 | after another 0 octal digits are read |
| `Decimal.StrtolDecimal` | src/c/main.c:134-134 | otherwise decimal digits are read |
| `Decimal.StrtolSigned` | src/c/main.c:134-134 | leading space is skipped and a minus sign negates |
| `Decimal.StrtoulDecimal` | src/c/address_instance_map.c:89-89 | strtoul reads decimal digits, and a minus sign wraps around |
| `Commands.ReadThenWritten` | src/c/driver.c:464-488 | a value that was read and is written back is encoded as it was |
| `Commands.WrittenThenRead` | src/c/driver.c:510-575 | a value that was written is read back with its number widened to 32 bits; 64-bit integers are lost and other types refused |
| `Cells.Append` | src/c/driver.c:279-299 | walking to the tail appends to the list |
| `Cells.FreeAll` | src/c/driver.c:583-592 | every cell of a list is freed once |
| `Commands.ReadAccessDataPopulate` | src/c/driver.c:427-439 | the list built is the requests in order |
| `Commands.ReadAll` | src/c/main.c:447-468 | reads are made in order up to the first that fails, and their values collected in order |
| `Commands.CommandResultPopulate` | src/c/driver.c:454-493 | each reading gets its converted value or is left alone, and every result is freed |
| `Commands.GetHandler` | src/c/main.c:418-475 | reads made, readings set type by type, readings untouched, result, exception and freed memory, by the position of the first failing read |
| `Commands.ReversedAppend` | src/c/driver.c:402-424 | adding in front of the reversed list is reversing the longer list |
| `Commands.WriteAccessDataPopulate` | src/c/driver.c:495-581 | succeeds if and only if no value has a refused type, with the writes reversed; otherwise everything built is freed |
| `Commands.WriteAll` | src/c/main.c:517-532 | writes are made up to the first that fails |
| `Commands.EncodedAs` | src/c/driver.c:510-575 | every IoT type but the foreign ones is sent, as the type it is sent as |
| `Commands.PutHandler` | src/c/main.c:486-543 | a foreign type means no write at all; otherwise the writes are the requests from last to first up to the first failure, each with its value as sent type by type and priority 1, and nothing stays allocated |

## Left out

- BACnet stack internals (decoding, transaction state, binding table, sockets): foreign code, used through the assumptions above.
- EdgeX SDK calls, logging, start-up, shutdown, environment variables and device profiles: they are parameters or do not appear.
- Clocks: a timeout is a wake-up that may happen at any time; the elapsed-time test after a failed bind may go either way.
- The one transfer of `bip_set_port`, a global of the stack, and the MS/TP build.
- Attribute tables (`parseType`, `parseProperty`, `bacnet_getattributes`): simple lookups.
- `get_device_properties`, `get_supported_services` and the registration of discovered devices: straight-line calls of the SDK on the result of reads.
- Memory reuse: a handler that still points at a freed node, or decodes into a block that its reader has freed, is harmless in the model; the model says nothing about what the freed memory becomes.
- Values of type REAL, DOUBLE and character string are payloads without rounding or character sets; a body that does not decode as an application value is any value.
- The NULL test on the address of a waiter (src/c/device_condition_map.c:26): every caller passes one.
- Drain: states the walk without pops and removals by other threads in between.
- GetHandler: takes the end of each read from an unknown function of the call and its number; the protocol results say what a read may return.
- PutHandler: takes the end of each write from an unknown function of the call and its number, like GetHandler.
- DispatchExact: is about the node a lookup finds; a response to a request that has no node any more finds none or a stray.

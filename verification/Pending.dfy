/** The table of pending requests: which nodes are linked, which invoke ids are in use, and which
    node a response is dispatched to. */
module Pending {
  import opened Lists
  import opened Protocol
  import opened Calls

  /** The linked nodes are those of the calls between their set and their remove, and of the writes
      that returned through the error exit. */
  ghost predicate PendOk(ops: map<OpId, Op>, pend: seq<OpId>) {
    Distinct(pend) && forall t :: t in pend <==> t in ops && Linked(ops[t].pc)
  }

  lemma CallKeepsPend(ops: map<OpId, Op>, pend: seq<OpId>, t: OpId, o': Op)
    requires PendOk(ops, pend) && t in ops
    requires LinkedStep(ops[t], o') && !o'.pc.Faulted?
    ensures PendOk(ops[t := o'], PendNext(pend, t, ops[t].pc))
  {
    var o := ops[t];
    if o.pc.Linking? {
      DistinctPrepend(t, pend);
    } else if o.pc.Unlinking? && t in pend {
      DistinctRemove(pend, IndexOf(pend, t));
    }
  }

  lemma PendFrame(ops: map<OpId, Op>, pend: seq<OpId>, ops': map<OpId, Op>)
    requires PendOk(ops, pend) && ops.Keys <= ops'.Keys
    requires forall t :: t in ops' ==> if t in ops then ops'[t].pc == ops[t].pc else !Linked(ops'[t].pc)
    ensures PendOk(ops', pend)
  {
  }

  // ---- Invoke ids ----

  /** A request on the wire was sent by the call it names. */
  ghost predicate WireOk(ops: map<OpId, Op>, outstanding: map<nat, OpId>) {
    forall id :: id in outstanding ==>
                   var t := outstanding[id]; id != 0 && t in ops && !ops[t].kind.WhoIs? && ops[t].sent == id
  }

  /** Live requests hold distinct ids, and no other request holds the id of one on the wire. */
  ghost predicate IdsOk(ops: map<OpId, Op>, outstanding: map<nat, OpId>) {
    && (forall t, u :: t in ops && u in ops && t != u && Live(ops[t]) && Live(ops[u]) && ops[t].sent != 0
                       ==> ops[t].sent != ops[u].sent)
    && (forall t :: t in ops && Live(ops[t]) && ops[t].sent in outstanding ==> outstanding[ops[t].sent] == t)
  }

  lemma CallKeepsIds(s: State, t: OpId, o': Op, id: nat)
    requires WireOk(s.ops, s.outstanding) && IdsOk(s.ops, s.outstanding) && t in s.ops
    requires var o := s.ops[t];
             && LiveStep(o, o') && NodeStep(o, o')
             && (o.pc.Sending? ==> FreshId(s, id) && o'.sent == id && o.sent == 0 && !o.kind.WhoIs?)
    ensures WireOk(s.ops[t := o'], OutstandingNext(s.outstanding, t, s.ops[t], id))
    ensures IdsOk(s.ops[t := o'], OutstandingNext(s.outstanding, t, s.ops[t], id))
  {
  }

  lemma IdsFrame(ops: map<OpId, Op>, ops': map<OpId, Op>, outstanding: map<nat, OpId>)
    requires WireOk(ops, outstanding) && IdsOk(ops, outstanding) && ops.Keys <= ops'.Keys
    requires forall t :: t in ops' ==>
                           if t in ops then SameIds(ops[t], ops'[t]) else ops'[t].sent == 0 && !Live(ops'[t])
    ensures WireOk(ops', outstanding) && IdsOk(ops', outstanding)
  {
  }

  predicate SameIds(o: Op, o': Op) {
    o'.kind == o.kind && o'.pc == o.pc && o'.bound == o.bound && o'.sent == o.sent
  }

  // ---- Dispatch ----

  /** A node that no call is waiting on any more, or that belongs to no request. */
  predicate Stray(o: Op) {
    o.pc.Leaked? || o.kind.WhoIs?
  }

  lemma LookupFirst(ops: map<OpId, Op>, pend: seq<OpId>, id: nat)
    requires forall t :: t in pend ==> t in ops
    ensures match Lookup(ops, pend, id)
            case Some(n) => n in pend && ops[n].node.id == id
            case None => forall n :: n in pend ==> ops[n].node.id != id
  {
    var ids := Ids(ops, pend);
    forall n | n in pend && Lookup(ops, pend, id).None? ensures ops[n].node.id != id {
      var i :| 0 <= i < |pend| && pend[i] == n;
      assert ids[i] == ops[n].node.id && ids[i] in ids;
    }
  }

  /** A linked node with a response's id is the live request that holds it, or a stray. */
  lemma LinkedHolder(c: Config, ops: map<OpId, Op>, pend: seq<OpId>, n: OpId)
    requires PendOk(ops, pend) && CallsOk(c, ops) && n in pend && ops[n].node.id != 0 && !Stray(ops[n])
    ensures Live(ops[n]) && ops[n].sent == ops[n].node.id
  {
    assert ControlOk(c, ops[n]);
  }
}

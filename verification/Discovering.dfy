/** The discovered-device table: I-Am insertions, pops and removals, in any order. */
module Discovering {
  import opened Bacnet
  import opened Lists
  import opened Protocol

  /** Every taker got an entry that is gone, for the device it asked for, and no two got the same. */
  ghost predicate TakersOk(f: Discovery) {
    && (forall k :: k in f.takers && f.takers[k].got.Some? ==>
                      f.takers[k].pc.Ended? && f.takers[k].got.value in f.gone
                      && (f.takers[k].goal.Some? ==> f.takers[k].got.value.device == f.takers[k].goal.value))
    && (forall k, l :: k in f.takers && l in f.takers && k != l && f.takers[k].got.Some? ==>
                         f.takers[k].got != f.takers[l].got)
  }

  /** One entry per device; entries inserted are numbered in order; and they are those still linked
      together with those taken. */
  ghost predicate FoundOk(f: Discovery) {
    && Distinct(EntryDevices(f.table))
    && (forall k :: 0 <= k < |f.inserted| ==> f.inserted[k].serial == k)
    && multiset(f.inserted) == multiset(f.table) + multiset(f.gone)
    && TakersOk(f)
  }

  lemma InsertKeepsFound(f: Discovery, a: IAm)
    requires FoundOk(f)
    ensures FoundOk(Insert(f, a))
  {
    if a.device !in EntryDevices(f.table) {
      var e := Entry(|f.inserted|, a.device, a.src);
      DistinctPrepend(a.device, EntryDevices(f.table));
      assert EntryDevices([e] + f.table) == [a.device] + EntryDevices(f.table);
      assert multiset(f.inserted + [e]) == multiset(f.inserted) + multiset{e};
      assert multiset([e] + f.table) == multiset{e} + multiset(f.table);
    }
  }

  lemma NewTakerKeepsFound(f: Discovery, k: TakerId, goal: Option<Device>)
    requires FoundOk(f) && k !in f.takers
    ensures FoundOk(f.(takers := f.takers[k := Taker(goal, Wanting, None)]))
  {
  }

  /** The entry taken was linked, so no earlier taker got it. */
  lemma TakenIsNew(f: Discovery, goal: Option<Device>)
    requires FoundOk(f) && TakeIndex(f.table, goal) < |f.table|
    ensures var e := f.table[TakeIndex(f.table, goal)]; e !in f.gone && (goal.Some? ==> e.device == goal.value)
  {
    var i := TakeIndex(f.table, goal);
    TakenOnce(f, f.table[i]);
    assert multiset(f.table)[f.table[i]] >= 1;
    assert goal.Some? ==> EntryDevices(f.table)[i] == goal.value;
  }

  lemma TakeKeepsTakers(f: Discovery, k: TakerId)
    requires FoundOk(f) && k in f.takers
    ensures TakersOk(TakeNext(f, k))
  {
    if f.takers[k].pc.Holding? && TakeIndex(f.table, f.takers[k].goal) < |f.table| {
      TakenIsNew(f, f.takers[k].goal);
    }
  }

  lemma TakeKeepsFound(f: Discovery, k: TakerId)
    requires FoundOk(f) && k in f.takers
    ensures FoundOk(TakeNext(f, k))
  {
    TakeKeepsTakers(f, k);
    var i := TakeIndex(f.table, f.takers[k].goal);
    if f.takers[k].pc.Holding? && i < |f.table| {
      DistinctRemove(EntryDevices(f.table), i);
      RemovedOne(f.table, i);
      assert EntryDevices(RemoveAt(f.table, i)) == RemoveAt(EntryDevices(f.table), i);
      assert multiset(f.gone + [f.table[i]]) == multiset(f.gone) + multiset{f.table[i]};
    }
  }

  /** No entry is taken twice, and none is both linked and taken. */
  lemma TakenOnce(f: Discovery, e: Entry)
    requires FoundOk(f)
    ensures multiset(f.inserted)[e] <= 1
    ensures multiset(f.table)[e] + multiset(f.gone)[e] == multiset(f.inserted)[e]
    ensures e in f.gone ==> e !in f.table && multiset(f.gone)[e] == 1
  {
    SerialsOnce(f.inserted, e);
    assert e in f.table ==> multiset(f.table)[e] >= 1;
    assert e in f.gone ==> multiset(f.gone)[e] >= 1;
    assert (multiset(f.table) + multiset(f.gone))[e] == multiset(f.table)[e] + multiset(f.gone)[e];
  }

  lemma {:induction false} SerialsOnce(es: seq<Entry>, e: Entry)
    requires forall k :: 0 <= k < |es| ==> es[k].serial == k
    ensures multiset(es)[e] <= 1
    ensures e.serial >= |es| ==> multiset(es)[e] == 0
  {
    if es == [] {
    } else {
      var n := |es| - 1;
      SerialsOnce(es[..n], e);
      assert es == es[..n] + [es[n]];
    }
  }
}

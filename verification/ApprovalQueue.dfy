/** The approval queue view agrees with the state machine. */
module ApprovalQueue {
  import opened Wrappers
  import opened ApprovalSpec
  import opened ApprovalTheorems

  lemma {:induction false} ItemsExact(cfg: Config, s: State, id: nat, live: bool, now: int)
    requires s.rows.Keys == s.meta.Keys && 0 !in s.rows
    ensures forall i :: 0 <= i < |ItemsUpTo(cfg, s, id, live, now)| ==>
              var item := ItemsUpTo(cfg, s, id, live, now)[i];
              item.rowId <= id && InQueue(s, item.rowId) && item == ItemOf(cfg, s, item.rowId, live, now)
    ensures forall i, j :: 0 <= i < j < |ItemsUpTo(cfg, s, id, live, now)| ==>
              ItemsUpTo(cfg, s, id, live, now)[i].rowId < ItemsUpTo(cfg, s, id, live, now)[j].rowId
    ensures forall k: nat :: k <= id && InQueue(s, k) ==> ItemOf(cfg, s, k, live, now) in ItemsUpTo(cfg, s, id, live, now)
  {
    if id > 0 {
      ItemsExact(cfg, s, id - 1, live, now);
    }
  }

  /** The row-level reasons for which resolve refuses a row whoever asks. */
  predicate RefusesRow(e: Option<Error>) {
    e.Some? && (e.value.NoSuchRow? || e.value.NotPending? || e.value.HardLimitNoAffordance?)
  }

  predicate Listed(items: seq<Item>, id: nat) {
    exists i :: 0 <= i < |items| && items[i].rowId == id
  }

  /** THE VIEW AGREES. In every state of the machine the unfiltered view lists, in order and once each, exactly the rows
      that resolve accepts; an item offers a hold exactly when hold for full review succeeds on it, and shows a
      countdown in the same cases. */
  lemma ViewAgrees(cfg: Config, s: State, live: bool, now: int, id: nat, who: string, sinkFails: bool)
    requires Inv(cfg, s)
    ensures var items := QueueView(cfg, s, AllItems, live, now);
      && (Listed(items, id) <==> !RefusesRow(ResolveError(s, id, who, sinkFails)))
      && (forall i, j :: 0 <= i < j < |items| ==> items[i].rowId < items[j].rowId)
      && (forall i :: 0 <= i < |items| ==>
            (DoHold in items[i].actions <==> HoldError(s, items[i].rowId).None?)
            && (items[i].countdown.Some? <==> DoHold in items[i].actions)
            && items[i].resolveDisabled == !live)
  {
    var all := ItemsUpTo(cfg, s, s.last, live, now);
    ItemsExact(cfg, s, s.last, live, now);
    FilterAll(all);
    forall i | 0 <= i < |all|
      ensures DoHold in all[i].actions <==> HoldError(s, all[i].rowId).None?
      ensures all[i].countdown.Some? <==> DoHold in all[i].actions
      ensures all[i].resolveDisabled == !live
    {
      HoldOffered(cfg, s, all[i].rowId, live, now);
    }
    ListedIffInQueue(cfg, s, live, now, id);
    InQueueIffAccepted(s, id, who, sinkFails);
  }

  lemma ListedIffInQueue(cfg: Config, s: State, live: bool, now: int, id: nat)
    requires s.rows.Keys == s.meta.Keys && (forall k :: k in s.rows <==> 1 <= k <= s.last)
    ensures Listed(ItemsUpTo(cfg, s, s.last, live, now), id) <==> InQueue(s, id)
  {
    ItemsExact(cfg, s, s.last, live, now);
    if InQueue(s, id) {
      assert ItemOf(cfg, s, id, live, now) in ItemsUpTo(cfg, s, s.last, live, now);
    }
  }

  lemma InQueueIffAccepted(s: State, id: nat, who: string, sinkFails: bool)
    requires s.rows.Keys == s.meta.Keys
    ensures InQueue(s, id) <==> !RefusesRow(ResolveError(s, id, who, sinkFails))
  {
  }

  lemma HoldOffered(cfg: Config, s: State, id: nat, live: bool, now: int)
    requires id in s.rows && id in s.meta && RowOk(cfg, s.rows[id], s.meta[id]) && InQueue(s, id)
    ensures var item := ItemOf(cfg, s, id, live, now);
            && (DoHold in item.actions <==> HoldError(s, id).None?)
            && (item.countdown.Some? <==> DoHold in item.actions) && item.resolveDisabled == !live
  {
  }

  lemma {:induction false} FilterAll(items: seq<Item>)
    ensures Filter(items, item => Shows(AllItems, item)) == items
  {
    if |items| > 0 {
      FilterAll(items[1..]);
      assert items == [items[0]] + items[1..];
    }
  }

  /** The approvals and safety-hold filters split the unfiltered view: every item is in exactly one of them, and they
      lose none. */
  lemma FiltersPartition(cfg: Config, s: State, live: bool, now: int, item: Item)
    ensures item in QueueView(cfg, s, AllItems, live, now)
            <==> item in QueueView(cfg, s, Approvals, live, now) || item in QueueView(cfg, s, SafetyHolds, live, now)
    ensures !(item in QueueView(cfg, s, Approvals, live, now) && item in QueueView(cfg, s, SafetyHolds, live, now))
    ensures |QueueView(cfg, s, AllItems, live, now)| ==
            |QueueView(cfg, s, Approvals, live, now)| + |QueueView(cfg, s, SafetyHolds, live, now)|
    ensures item in QueueView(cfg, s, Overdue, live, now)
            <==> item in QueueView(cfg, s, AllItems, live, now) && item.overdue
  {
    var all := ItemsUpTo(cfg, s, s.last, live, now);
    FilterMembers(all, x => Shows(AllItems, x));
    FilterMembers(all, x => Shows(Approvals, x));
    FilterMembers(all, x => Shows(SafetyHolds, x));
    FilterMembers(all, x => Shows(Overdue, x));
    PartitionSizes(all);
  }

  lemma {:induction false} PartitionSizes(items: seq<Item>)
    ensures |Filter(items, x => Shows(AllItems, x))| ==
            |Filter(items, x => Shows(Approvals, x))| + |Filter(items, x => Shows(SafetyHolds, x))|
  {
    if |items| > 0 {
      PartitionSizes(items[1..]);
    }
  }
}

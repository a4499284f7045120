/** Handling a stream of events one after another: redelivering an event is harmless, and
    the market and day totals count every distinct fill exactly once, whatever the order. */
module Replay {
  import opened CivilDate
  import opened Derivation
  import opened Entities
  import opened Handler

  ghost predicate Indexable(es: seq<FillEvent>) {
    forall e | e in es :: e.timestamp < I32Limit
  }

  /** The store after handling `es` in order, starting from `s`. */
  function Run(s: Store, es: seq<FillEvent>): Store
    requires forall e | e in es :: e.timestamp < I32Limit
    decreases |es|
  {
    if es == [] then s
    else Handle(Run(s, es[..|es| - 1]), es[|es| - 1]).0
  }

  // ---------------------------------------------------------------------------------------
  // Redelivery

  /** Handling `e` in store `st` changes nothing: its order is stored, or its price faults. */
  predicate Settled(st: Store, e: FillEvent) {
    OrderId(e) in st.orders || PriceFaults(e)
  }

  lemma SettledIsNoOp(st: Store, e: FillEvent)
    requires e.timestamp < I32Limit
    requires Settled(st, e)
    ensures Handle(st, e).0 == st
  {
    if OrderId(e) !in st.orders {
      NewEventOutcome(st, e);
    }
  }

  lemma HandleSettles(st: Store, e: FillEvent, other: FillEvent)
    requires e.timestamp < I32Limit && other.timestamp < I32Limit
    ensures Settled(Handle(st, e).0, e)
    ensures Settled(st, other) ==> Settled(Handle(st, e).0, other)
  {
    OrdersOnlyGrow(st, e);
    if OrderId(e) !in st.orders {
      NewEventOutcome(st, e);
    }
  }

  /** Every event already handled is settled in the resulting store. */
  lemma {:induction false} RunSettles(s: Store, es: seq<FillEvent>, i: nat)
    requires Indexable(es)
    requires i < |es|
    ensures Settled(Run(s, es), es[i])
    decreases |es|
  {
    var prefix := es[..|es| - 1];
    var last := es[|es| - 1];
    assert forall e | e in prefix :: e in es;
    if i == |es| - 1 {
      HandleSettles(Run(s, prefix), last, last);
    } else {
      assert es[i] == prefix[i];
      RunSettles(s, prefix, i);
      HandleSettles(Run(s, prefix), last, es[i]);
    }
  }

  /** Delivering an already-handled event again leaves the store exactly as it was. */
  lemma RedeliveryIsNoOp(s: Store, es: seq<FillEvent>, i: nat)
    requires Indexable(es)
    requires i < |es|
    ensures Indexable(es + [es[i]])
    ensures Run(s, es + [es[i]]) == Run(s, es)
  {
    var es' := es + [es[i]];
    assert es'[..|es'| - 1] == es;
    RunSettles(s, es, i);
    SettledIsNoOp(Run(s, es), es[i]);
  }

  // ---------------------------------------------------------------------------------------
  // Totals

  /** An aggregate the handler maintains: a market (by non-zero token id) or a day bucket. */
  datatype Bucket = MarketOf(tokenId: nat) | DayOf(day: nat)

  datatype Totals = Totals(orders: nat, volume: real) {
    function Plus(other: Totals): Totals {
      Totals(orders + other.orders, volume + other.volume)
    }
  }

  const NoTotals: Totals := Totals(0, 0.0)

  lemma PlusNone(t: Totals)
    ensures t.Plus(NoTotals) == t
  {
  }

  /** One step of a running sum: adding a part to a partial sum adds it to the total. */
  lemma PlusStep(start: Totals, before: Totals, after: Totals, sum: Totals, part: Totals, sum': Totals)
    requires before == start.Plus(sum) && after == before.Plus(part) && sum' == sum.Plus(part)
    ensures after == start.Plus(sum')
  {
    PlusAssociative(start, sum, part);
  }

  lemma PlusAssociative(t1: Totals, t2: Totals, t3: Totals)
    ensures t1.Plus(t2).Plus(t3) == t1.Plus(t2.Plus(t3))
    ensures t1.Plus(t2).Plus(t3) == t1.Plus(t3).Plus(t2)
  {
  }

  function VolumeOf(e: FillEvent): real {
    VolumeUsd(e.makerAmountFilled, e.takerAmountFilled, OrderSide(e.makerAssetId, e.takerAssetId))
  }

  /** The event counts toward the bucket. */
  predicate Hits(e: FillEvent, b: Bucket) {
    match b
    case MarketOf(tokenId) =>
      tokenId != 0 && MarketTokenId(OrderSide(e.makerAssetId, e.takerAssetId), e) == tokenId
    case DayOf(day) => e.timestamp / SecondsPerDay == day
  }

  function Contribution(e: FillEvent, b: Bucket): Totals {
    if Hits(e, b) then Totals(1, VolumeOf(e)) else NoTotals
  }

  /** Count and summed volume of the events of `es` that fall in bucket `b`. */
  function Tally(es: seq<FillEvent>, b: Bucket): Totals
    decreases |es|
  {
    if es == [] then NoTotals
    else Tally(es[..|es| - 1], b).Plus(Contribution(es[|es| - 1], b))
  }

  /** The totals a store holds for a bucket (zero where there is no record yet). */
  function TotalsAt(s: Store, b: Bucket): Totals {
    match b
    case MarketOf(tokenId) => MarketTotals(s.markets, tokenId)
    case DayOf(day) => DayTotals(s.daily, day)
  }

  function MarketTotals(markets: map<nat, Market>, tokenId: nat): Totals {
    if tokenId in markets then Totals(markets[tokenId].totalOrders, markets[tokenId].totalVolume) else NoTotals
  }

  function DayTotals(daily: map<nat, DailyStats>, day: nat): Totals {
    if day in daily then Totals(daily[day].totalOrders, daily[day].totalVolume) else NoTotals
  }

  lemma MarketsAfterAdds(markets: map<nat, Market>, e: FillEvent, tokenId: nat)
    ensures MarketTotals(MarketsAfter(markets, e), tokenId) ==
            MarketTotals(markets, tokenId).Plus(Contribution(e, MarketOf(tokenId)))
  {
    var t := TradedToken(e);
    var c := Contribution(e, MarketOf(tokenId));
    if t == 0 || t != tokenId {
      assert !Hits(e, MarketOf(tokenId));
      assert c == NoTotals;
      if t != 0 {
        assert MarketsAfter(markets, e) == markets[t := RecordFill(LoadMarket(markets, t), FillVolume(e), e.timestamp)];
      }
      assert MarketTotals(MarketsAfter(markets, e), tokenId) == MarketTotals(markets, tokenId);
      PlusNone(MarketTotals(markets, tokenId));
    } else {
      assert Hits(e, MarketOf(tokenId));
      assert c == Totals(1, FillVolume(e));
      var before := LoadMarket(markets, t);
      var r := RecordFill(before, FillVolume(e), e.timestamp);
      assert MarketsAfter(markets, e)[tokenId] == r;
      assert MarketTotals(markets, tokenId) == Totals(before.totalOrders, before.totalVolume);
    }
  }

  lemma DailyAfterAdds(daily: map<nat, DailyStats>, e: FillEvent, day: nat)
    requires e.timestamp < I32Limit
    ensures DayTotals(DailyAfter(daily, e), day) == DayTotals(daily, day).Plus(Contribution(e, DayOf(day)))
  {
    if day != DayId(e.timestamp) {
      assert Contribution(e, DayOf(day)) == NoTotals;
      OtherDayKept(daily, e, day);
      PlusNone(DayTotals(daily, day));
    } else {
      assert Contribution(e, DayOf(day)) == Totals(1, FillVolume(e));
      OwnDayAdds(daily, e);
    }
  }

  lemma OtherDayKept(daily: map<nat, DailyStats>, e: FillEvent, day: nat)
    requires e.timestamp < I32Limit && day != DayId(e.timestamp)
    ensures DayTotals(DailyAfter(daily, e), day) == DayTotals(daily, day)
  {
    var today := DayId(e.timestamp);
    var r := AccumulateDay(LoadDay(daily, today, e.timestamp), FillVolume(e));
    assert DailyAfter(daily, e) == daily[today := r];
  }

  lemma OwnDayAdds(daily: map<nat, DailyStats>, e: FillEvent)
    requires e.timestamp < I32Limit
    ensures var today := DayId(e.timestamp);
            DayTotals(DailyAfter(daily, e), today) == DayTotals(daily, today).Plus(Totals(1, FillVolume(e)))
  {
    var today := DayId(e.timestamp);
    var before := LoadDay(daily, today, e.timestamp);
    var r := AccumulateDay(before, FillVolume(e));
    assert DailyAfter(daily, e)[today] == r;
    assert DayTotals(daily, today) == Totals(before.totalOrders, before.totalVolume);
  }

  /** Distinct events with distinct order ids. */
  ghost predicate DistinctOrders(es: seq<FillEvent>) {
    && (forall e | e in multiset(es) :: multiset(es)[e] == 1)
    && (forall e1, e2 | e1 in multiset(es) && e2 in multiset(es) && e1 != e2 :: OrderId(e1) != OrderId(e2))
  }

  /** A batch of distinct, not yet indexed events that all price without fault. */
  ghost predicate FreshBatch(s: Store, es: seq<FillEvent>) {
    && DistinctOrders(es)
    && (forall e | e in multiset(es) :: e.timestamp < I32Limit && OrderId(e) !in s.orders && !PriceFaults(e))
  }

  lemma FreshBatchPrefix(s: Store, es: seq<FillEvent>)
    requires es != []
    requires FreshBatch(s, es)
    ensures var prefix, last := es[..|es| - 1], es[|es| - 1];
            && FreshBatch(s, prefix)
            && last !in prefix
            && (forall e | e in prefix :: OrderId(e) != OrderId(last))
  {
    var prefix, last := es[..|es| - 1], es[|es| - 1];
    assert es == prefix + [last];
    var ms, mp := multiset(es), multiset(prefix);
    assert ms == mp + multiset{last};
    assert last in ms;
    assert ms[last] == mp[last] + 1;
    assert mp[last] == 0;
    forall e | e in mp
      ensures mp[e] == 1 && e in ms
    {
      assert mp[e] <= ms[e];
    }
    forall e | e in prefix
      ensures OrderId(e) != OrderId(last)
    {
      assert e in mp && e != last;
    }
  }

  /** The order ids of a batch. */
  ghost function BatchIds(es: seq<FillEvent>): set<string> {
    set e | e in es :: OrderId(e)
  }

  lemma BatchIdsStep(es: seq<FillEvent>)
    requires es != []
    ensures BatchIds(es) == BatchIds(es[..|es| - 1]) + {OrderId(es[|es| - 1])}
  {
    var prefix, last := es[..|es| - 1], es[|es| - 1];
    assert es == prefix + [last];
    forall id | id in BatchIds(es)
      ensures id in BatchIds(prefix) || id == OrderId(last)
    {
      var e :| e in es && OrderId(e) == id;
      if e != last {
        assert e in prefix;
      }
    }
    forall id | id in BatchIds(prefix)
      ensures id in BatchIds(es)
    {
      var e :| e in prefix && OrderId(e) == id;
      assert e in es;
    }
    assert last in es;
  }

  /** Handling a fresh event adds its order id and keeps every stored order. */
  lemma FreshStepOrders(before: Store, e: FillEvent)
    requires e.timestamp < I32Limit && OrderId(e) !in before.orders && !PriceFaults(e)
    ensures var after := Handle(before, e).0;
            && after.orders.Keys == before.orders.Keys + {OrderId(e)}
            && forall id | id in before.orders :: after.orders[id] == before.orders[id]
  {
    NewEventOutcome(before, e);
  }

  /** Once the rest of a fresh batch is handled, its last event is still new: handling it
      adds that event's order id and keeps every stored order. */
  lemma RunStepOrders(s: Store, es: seq<FillEvent>)
    requires es != [] && FreshBatch(s, es)
    requires Indexable(es[..|es| - 1])
    requires Run(s, es[..|es| - 1]).orders.Keys == s.orders.Keys + BatchIds(es[..|es| - 1])
    ensures Indexable(es)
    ensures var before, after := Run(s, es[..|es| - 1]).orders, Run(s, es).orders;
            && after.Keys == before.Keys + {OrderId(es[|es| - 1])}
            && forall id | id in before :: after[id] == before[id]
  {
    var prefix, last := es[..|es| - 1], es[|es| - 1];
    FreshBatchPrefix(s, es);
    assert last in multiset(es);
    assert OrderId(last) !in BatchIds(prefix);
    FreshStepOrders(Run(s, prefix), last);
  }

  /** The order ids stored after a fresh batch are exactly the ones before plus those of the
      batch. */
  lemma {:induction false} RunOrderIds(s: Store, es: seq<FillEvent>)
    requires FreshBatch(s, es)
    ensures Indexable(es)
    ensures Run(s, es).orders.Keys == s.orders.Keys + BatchIds(es)
    decreases |es|
  {
    if es == [] {
      assert BatchIds(es) == {};
    } else {
      FreshBatchPrefix(s, es);
      RunOrderIds(s, es[..|es| - 1]);
      RunStepOrders(s, es);
      BatchIdsStep(es);
    }
  }

  /** A fresh batch leaves every order stored before it as it was. */
  lemma {:induction false} RunKeepsOrders(s: Store, es: seq<FillEvent>)
    requires FreshBatch(s, es)
    ensures Indexable(es)
    ensures forall id | id in s.orders :: id in Run(s, es).orders && Run(s, es).orders[id] == s.orders[id]
    decreases |es|
  {
    if es != [] {
      var prefix := es[..|es| - 1];
      FreshBatchPrefix(s, es);
      RunOrderIds(s, prefix);
      RunKeepsOrders(s, prefix);
      RunStepOrders(s, es);
    }
  }

  /** One fresh event adds its contribution to every bucket's totals. */
  lemma HandleAddsContribution(st: Store, e: FillEvent, b: Bucket)
    requires e.timestamp < I32Limit
    requires OrderId(e) !in st.orders && !PriceFaults(e)
    ensures TotalsAt(Handle(st, e).0, b) == TotalsAt(st, b).Plus(Contribution(e, b))
  {
    NewEventOutcome(st, e);
    ProcessedStore(st, e);
    match b
    case MarketOf(tokenId) => MarketsAfterAdds(st.markets, e, tokenId);
    case DayOf(day) => DailyAfterAdds(st.daily, e, day);
  }

  /** Handling the last event of a fresh batch adds its contribution, and the rest of the
      batch is still fresh. */
  lemma RunStepAdds(s: Store, es: seq<FillEvent>, b: Bucket)
    requires es != [] && FreshBatch(s, es)
    ensures Indexable(es) && FreshBatch(s, es[..|es| - 1])
    ensures TotalsAt(Run(s, es), b) == TotalsAt(Run(s, es[..|es| - 1]), b).Plus(Contribution(es[|es| - 1], b))
  {
    LastIsFresh(s, es);
    HandleAddsContribution(Run(s, es[..|es| - 1]), es[|es| - 1], b);
  }

  /** After a fresh batch, a market's (or day's) order count has grown by the number of the
      batch's fills in it, and its volume by their summed volume. */
  lemma {:induction false} RunTotals(s: Store, es: seq<FillEvent>, b: Bucket)
    requires FreshBatch(s, es)
    ensures Indexable(es)
    ensures TotalsAt(Run(s, es), b) == TotalsAt(s, b).Plus(Tally(es, b))
    decreases |es|
  {
    if es != [] {
      var prefix, last := es[..|es| - 1], es[|es| - 1];
      RunStepAdds(s, es, b);
      RunTotals(s, prefix, b);
      PlusStep(TotalsAt(s, b), TotalsAt(Run(s, prefix), b), TotalsAt(Run(s, es), b),
               Tally(prefix, b), Contribution(last, b), Tally(es, b));
    } else {
      assert Run(s, es) == s;
      assert Tally(es, b) == NoTotals;
      PlusNone(TotalsAt(s, b));
    }
  }

  /** The last event of a fresh batch is still new once the rest of the batch is handled. */
  lemma LastIsFresh(s: Store, es: seq<FillEvent>)
    requires es != []
    requires FreshBatch(s, es)
    ensures Indexable(es) && FreshBatch(s, es[..|es| - 1])
    ensures var prefix, last := es[..|es| - 1], es[|es| - 1];
            && OrderId(last) !in Run(s, prefix).orders
            && !PriceFaults(last)
            && last.timestamp < I32Limit
  {
    var prefix, last := es[..|es| - 1], es[|es| - 1];
    FreshBatchPrefix(s, es);
    RunOrderIds(s, prefix);
    assert last in multiset(es);
  }

  lemma {:induction false} TallyConcat(a: seq<FillEvent>, c: seq<FillEvent>, b: Bucket)
    ensures Tally(a + c, b) == Tally(a, b).Plus(Tally(c, b))
    decreases |c|
  {
    if c == [] {
      assert a + c == a;
    } else {
      var ac := a + c;
      assert ac[..|ac| - 1] == a + c[..|c| - 1];
      TallyConcat(a, c[..|c| - 1], b);
      var t1, t2, t3 := Tally(a, b), Tally(c[..|c| - 1], b), Contribution(c[|c| - 1], b);
      PlusAssociative(t1, t2, t3);
    }
  }

  /** Taking one event out of a batch takes its contribution out of the tally. */
  lemma TallyRemove(c: seq<FillEvent>, j: nat, b: Bucket)
    requires j < |c|
    ensures multiset(c[..j] + c[j + 1..]) == multiset(c) - multiset{c[j]}
    ensures Tally(c, b) == Tally(c[..j] + c[j + 1..], b).Plus(Contribution(c[j], b))
  {
    var left, x, right := c[..j], c[j], c[j + 1..];
    assert c == (left + [x]) + right;
    assert multiset(c) == multiset(left) + multiset{x} + multiset(right);
    var t1, t2, t3 := Tally(left, b), Contribution(x, b), Tally(right, b);
    assert Tally(c, b) == Tally(left + [x], b).Plus(t3) by {
      TallyConcat(left + [x], right, b);
    }
    assert Tally(left + [x], b) == t1.Plus(t2) by {
      assert (left + [x])[..|left + [x]| - 1] == left;
    }
    assert Tally(left + right, b) == t1.Plus(t3) by {
      TallyConcat(left, right, b);
    }
    PlusAssociative(t1, t2, t3);
  }

  /** The totals of a batch do not depend on the order of its events. */
  lemma {:induction false} TallyPermutation(a: seq<FillEvent>, c: seq<FillEvent>, b: Bucket)
    requires multiset(a) == multiset(c)
    ensures Tally(a, b) == Tally(c, b)
    decreases |a|
  {
    if a != [] {
      var prefix, last := a[..|a| - 1], a[|a| - 1];
      assert a == prefix + [last];
      assert multiset(a) == multiset(prefix) + multiset{last};
      assert last in multiset(c);
      var j :| 0 <= j < |c| && c[j] == last;
      TallyRemove(c, j, b);
      TallyPermutation(prefix, c[..j] + c[j + 1..], b);
    } else {
      assert c == [];
    }
  }

  /** Processing a fresh batch in any order leaves every market and day with the same totals. */
  lemma TotalsOrderIndependent(s: Store, es: seq<FillEvent>, es': seq<FillEvent>, b: Bucket)
    requires FreshBatch(s, es)
    requires multiset(es) == multiset(es')
    ensures FreshBatch(s, es')
    ensures Indexable(es) && Indexable(es')
    ensures TotalsAt(Run(s, es), b) == TotalsAt(Run(s, es'), b)
  {
    RunTotals(s, es, b);
    RunTotals(s, es', b);
    TallyPermutation(es, es', b);
  }
}

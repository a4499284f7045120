/** The OrderFilled handler as a function of the entity store: deduplicate by order id,
    derive side, price and volume, update the traded market, record the order, then fold
    the fill into its day bucket. The store is the three entity tables, keyed as the
    handler keys them (order id, market token id, day number). */
module Handler {
  import opened Text
  import opened CivilDate
  import opened Derivation
  import opened Entities

  datatype Store = Store(
    orders: map<string, Order>,
    markets: map<nat, Market>,
    daily: map<nat, DailyStats>)

  /** What one event did: nothing (already indexed), nothing (the price division faulted),
      or the order it recorded. */
  datatype Outcome = Duplicate | Failed(error: ArithmeticError) | Processed(order: Order)

  /** The price division faults for this event. */
  predicate PriceFaults(e: FillEvent) {
    Price(e.makerAmountFilled, e.takerAmountFilled, OrderSide(e.makerAssetId, e.takerAssetId)).Err?
  }

  /** The order record built from an event and its derived fields. */
  function NewOrder(e: FillEvent, side: Side, price: real, volumeUsd: real, question: Option<string>): Order {
    Order(
      id := OrderId(e),
      orderHash := e.orderHash,
      maker := e.maker,
      taker := e.taker,
      makerAssetId := e.makerAssetId,
      takerAssetId := e.takerAssetId,
      makerAmountFilled := e.makerAmountFilled,
      takerAmountFilled := e.takerAmountFilled,
      fee := e.fee,
      blockNumber := e.blockNumber,
      transactionHash := e.transactionHash,
      timestamp := e.timestamp,
      side := side,
      price := price,
      volumeUsd := volumeUsd,
      createdAt := e.timestamp,
      updatedAt := e.timestamp,
      marketQuestion := question)
  }

  /** The market a fill trades (0 when it trades none). */
  function TradedToken(e: FillEvent): nat {
    MarketTokenId(OrderSide(e.makerAssetId, e.takerAssetId), e)
  }

  /** The USD volume of a fill. */
  function FillVolume(e: FillEvent): real {
    VolumeUsd(e.makerAmountFilled, e.takerAmountFilled, OrderSide(e.makerAssetId, e.takerAssetId))
  }

  /** The market table after a fill: the traded market, loaded or created, records the fill. */
  function MarketsAfter(markets: map<nat, Market>, e: FillEvent): map<nat, Market> {
    var tokenId := TradedToken(e);
    if tokenId == 0 then markets
    else markets[tokenId := RecordFill(LoadMarket(markets, tokenId), FillVolume(e), e.timestamp)]
  }

  /** The market question copied onto the order: the traded market's, read before the update. */
  function QuestionFor(markets: map<nat, Market>, e: FillEvent): Option<string> {
    var tokenId := TradedToken(e);
    if tokenId == 0 then None else Some(LoadMarket(markets, tokenId).question)
  }

  /** The day-bucket table after a fill: the bucket of its day, loaded or created, accumulates it. */
  function DailyAfter(daily: map<nat, DailyStats>, e: FillEvent): map<nat, DailyStats>
    requires e.timestamp < I32Limit
  {
    var day := DayId(e.timestamp);
    daily[day := AccumulateDay(LoadDay(daily, day, e.timestamp), FillVolume(e))]
  }

  /** The new store and the outcome of handling one event. */
  function Handle(s: Store, e: FillEvent): (Store, Outcome)
    requires e.timestamp < I32Limit
  {
    var id := OrderId(e);
    if id in s.orders then (s, Duplicate)
    else
      var side := OrderSide(e.makerAssetId, e.takerAssetId);
      match Price(e.makerAmountFilled, e.takerAmountFilled, side)
      case Err(error) => (s, Failed(error))
      case Ok(price) =>
        var order := NewOrder(e, side, price, FillVolume(e), QuestionFor(s.markets, e));
        (Store(s.orders[id := order], MarketsAfter(s.markets, e), DailyAfter(s.daily, e)), Processed(order))
  }

  // ---------------------------------------------------------------------------------------
  // Invariants of the store the handler maintains

  /** A stored market: keyed by its non-zero token id, placeholder metadata never enriched,
      creation time never set, at least one fill recorded, non-negative volume. */
  ghost predicate ValidMarket(tokenId: nat, m: Market) {
    && tokenId != 0
    && m.tokenId == tokenId
    && m.id == DecimalString(tokenId)
    && m.question == QuestionPrefix + DecimalString(tokenId)
    && m.description == ""
    && m.status == ActiveStatus
    && m.endDate == 0 && m.resolutionDate == 0 && m.createdAt == 0
    && m.totalOrders >= 1
    && m.totalVolume >= 0.0
    && m.lastOrderAt == m.updatedAt
  }

  /** A stored day bucket: keyed by its day number, labelled with that day's date, created by
      a fill of that day, at least one fill, the average is volume over count. */
  ghost predicate ValidDay(day: nat, d: DailyStats) {
    && d.id == DecimalString(day)
    && d.date == DayDate(day)
    && d.createdAt < I32Limit && DayId(d.createdAt) == day
    && d.uniqueTraders == 0
    && d.totalOrders >= 1
    && d.totalVolume >= 0.0
    && d.avgOrderSize == d.totalVolume / (d.totalOrders as real)
  }

  /** A stored order: keyed by the hex of its own hash, created and updated at its block time. */
  ghost predicate ValidOrder(id: string, o: Order) {
    && o.id == id
    && id == ToHexString(o.orderHash)
    && o.createdAt == o.updatedAt == o.timestamp
    && o.volumeUsd >= 0.0
    && o.price >= 0.0
  }

  ghost predicate ValidStore(s: Store) {
    && (forall id | id in s.orders :: ValidOrder(id, s.orders[id]))
    && (forall k | k in s.markets :: ValidMarket(k, s.markets[k]))
    && (forall d | d in s.daily :: ValidDay(d, s.daily[d]))
  }

  // ---------------------------------------------------------------------------------------
  // Properties of one call

  /** An event whose order id is already stored changes nothing. */
  lemma DuplicateIsNoOp(s: Store, e: FillEvent)
    requires e.timestamp < I32Limit
    requires OrderId(e) in s.orders
    ensures Handle(s, e) == (s, Duplicate)
  {
  }

  /** A new event fails exactly when the price division faults, and then changes nothing;
      otherwise its order is stored under its id. */
  lemma NewEventOutcome(s: Store, e: FillEvent)
    requires e.timestamp < I32Limit
    requires OrderId(e) !in s.orders
    ensures Handle(s, e).1.Failed? <==> PriceFaults(e)
    ensures Handle(s, e).1.Failed? ==> Handle(s, e).0 == s
    ensures Handle(s, e).1.Processed? <==> !PriceFaults(e)
    ensures Handle(s, e).1.Processed? ==>
              Handle(s, e).0.orders == s.orders[OrderId(e) := Handle(s, e).1.order]
  {
  }

  /** The order recorded for a new event carries the event's fields, its derived side, price
      and volume, the block time as creation time, and the question of its market if any. */
  lemma RecordedOrder(s: Store, e: FillEvent)
    requires e.timestamp < I32Limit
    requires Handle(s, e).1.Processed?
    ensures var o := Handle(s, e).1.order;
            var side := OrderSide(e.makerAssetId, e.takerAssetId);
            var tokenId := MarketTokenId(side, e);
            && o.id == OrderId(e) && o.orderHash == e.orderHash
            && o.maker == e.maker && o.taker == e.taker
            && o.makerAssetId == e.makerAssetId && o.takerAssetId == e.takerAssetId
            && o.makerAmountFilled == e.makerAmountFilled && o.takerAmountFilled == e.takerAmountFilled
            && o.fee == e.fee && o.blockNumber == e.blockNumber
            && o.transactionHash == e.transactionHash && o.timestamp == e.timestamp
            && o.side == side
            && Price(e.makerAmountFilled, e.takerAmountFilled, side) == Ok(o.price)
            && o.volumeUsd == VolumeUsd(e.makerAmountFilled, e.takerAmountFilled, side)
            && o.createdAt == o.updatedAt == e.timestamp
            && (tokenId == 0 <==> o.marketQuestion.None?)
            && (tokenId != 0 ==> o.marketQuestion == Some(LoadMarket(s.markets, tokenId).question))
  {
  }

  /** A processed event stores its order and updates the market and day tables. */
  lemma ProcessedStore(s: Store, e: FillEvent)
    requires e.timestamp < I32Limit
    requires Handle(s, e).1.Processed?
    ensures Handle(s, e).0 == Store(s.orders[OrderId(e) := Handle(s, e).1.order],
                                    MarketsAfter(s.markets, e), DailyAfter(s.daily, e))
  {
  }

  /** A fill adds its volume and one order to the market it trades, stamps that market with
      the block time, and leaves every other market as it was; with no traded token (both
      assets the settlement asset) no market changes. */
  lemma MarketUpdate(markets: map<nat, Market>, e: FillEvent)
    ensures var tokenId := TradedToken(e);
            var after := MarketsAfter(markets, e);
            var before := LoadMarket(markets, tokenId);
            && (tokenId == 0 ==> after == markets)
            && (tokenId != 0 ==>
                  && after.Keys == markets.Keys + {tokenId}
                  && (forall k | k in markets && k != tokenId :: after[k] == markets[k])
                  && after[tokenId].totalVolume == before.totalVolume + FillVolume(e)
                  && after[tokenId].totalOrders == before.totalOrders + 1
                  && after[tokenId].lastOrderAt == e.timestamp
                  && after[tokenId].updatedAt == e.timestamp
                  && after[tokenId].question == before.question
                  && after[tokenId].createdAt == before.createdAt)
  {
  }

  /** A fill adds its volume and one order to the bucket of its day, recomputes that bucket's
      average, and leaves every other bucket as it was. */
  lemma DailyUpdate(daily: map<nat, DailyStats>, e: FillEvent)
    requires e.timestamp < I32Limit
    ensures var day := e.timestamp / SecondsPerDay;
            var after := DailyAfter(daily, e);
            var before := LoadDay(daily, day, e.timestamp);
            && after.Keys == daily.Keys + {day}
            && (forall d | d in daily && d != day :: after[d] == daily[d])
            && after[day].totalVolume == before.totalVolume + FillVolume(e)
            && after[day].totalOrders == before.totalOrders + 1
            && after[day].avgOrderSize == after[day].totalVolume / (after[day].totalOrders as real)
            && after[day].createdAt == before.createdAt
            && after[day].date == before.date
            && after[day].uniqueTraders == before.uniqueTraders
  {
  }

  /** A bucket created by a fill is labelled with the date of its own day. That label is the
      one the source computes from the 32-bit product exactly when the product does not wrap
      (timestamps up to 2147483); see `CivilDate.AsWrittenDayMatchesBucketIff`. */
  lemma NewBucketLabel(daily: map<nat, DailyStats>, e: FillEvent)
    requires e.timestamp < I32Limit
    requires DayId(e.timestamp) !in daily
    ensures var d := DailyAfter(daily, e)[DayId(e.timestamp)];
            && d.id == DecimalString(DayId(e.timestamp))
            && d.date == IsoDate(CivilFromDays(DayId(e.timestamp)))
            && (e.timestamp * 1000 < I32Limit ==>
                  d.date == IsoDate(CivilFromDays(AsWrittenDay(e.timestamp))))
  {
    if e.timestamp * 1000 < I32Limit {
      AsWrittenDayMatchesBucketIff(e.timestamp);
    }
  }

  /** Handling the same event a second time changes nothing. */
  lemma HandleIdempotent(s: Store, e: FillEvent)
    requires e.timestamp < I32Limit
    ensures Handle(Handle(s, e).0, e).0 == Handle(s, e).0
    ensures Handle(s, e).1.Processed? ==> Handle(Handle(s, e).0, e).1 == Duplicate
  {
  }

  /** Stored order ids are never dropped and stored orders never change. */
  lemma OrdersOnlyGrow(s: Store, e: FillEvent)
    requires e.timestamp < I32Limit
    ensures s.orders.Keys <= Handle(s, e).0.orders.Keys
    ensures forall id | id in s.orders :: Handle(s, e).0.orders[id] == s.orders[id]
  {
  }

  lemma RecordFillValid(markets: map<nat, Market>, e: FillEvent)
    requires forall k | k in markets :: ValidMarket(k, markets[k])
    requires TradedToken(e) != 0
    ensures ValidMarket(TradedToken(e), MarketsAfter(markets, e)[TradedToken(e)])
  {
    var tokenId := TradedToken(e);
    var before := LoadMarket(markets, tokenId);
    if tokenId !in markets {
      assert before == NewMarket(tokenId);
    } else {
      assert ValidMarket(tokenId, before);
    }
  }

  lemma MarketsStayValid(markets: map<nat, Market>, e: FillEvent)
    requires forall k | k in markets :: ValidMarket(k, markets[k])
    ensures var after := MarketsAfter(markets, e);
            forall k | k in after :: ValidMarket(k, after[k])
  {
    if TradedToken(e) != 0 {
      RecordFillValid(markets, e);
    }
  }

  lemma AccumulateDayValid(daily: map<nat, DailyStats>, e: FillEvent)
    requires e.timestamp < I32Limit
    requires forall d | d in daily :: ValidDay(d, daily[d])
    ensures ValidDay(DayId(e.timestamp), DailyAfter(daily, e)[DayId(e.timestamp)])
  {
    var day := DayId(e.timestamp);
    var before := LoadDay(daily, day, e.timestamp);
    if day !in daily {
      assert before == NewDailyStats(day, e.timestamp);
    } else {
      assert ValidDay(day, before);
    }
  }

  lemma DaysStayValid(daily: map<nat, DailyStats>, e: FillEvent)
    requires e.timestamp < I32Limit
    requires forall d | d in daily :: ValidDay(d, daily[d])
    ensures var after := DailyAfter(daily, e);
            forall d | d in after :: ValidDay(d, after[d])
  {
    AccumulateDayValid(daily, e);
  }

  lemma OrdersStayValid(s: Store, e: FillEvent)
    requires e.timestamp < I32Limit
    requires forall id | id in s.orders :: ValidOrder(id, s.orders[id])
    ensures var s' := Handle(s, e).0;
            forall id | id in s'.orders :: ValidOrder(id, s'.orders[id])
  {
  }

  /** Handling an event keeps every stored entity well-formed. */
  lemma HandlePreservesValid(s: Store, e: FillEvent)
    requires e.timestamp < I32Limit
    requires ValidStore(s)
    ensures ValidStore(Handle(s, e).0)
  {
    OrdersStayValid(s, e);
    if Handle(s, e).1.Processed? {
      ProcessedStore(s, e);
      MarketsStayValid(s.markets, e);
      DaysStayValid(s.daily, e);
    }
  }
}

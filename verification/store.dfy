/** The entity store the handler loads from and saves to, and the handler itself as
    methods that update it in place: `load` is a map lookup, `save` a map update. */
module Indexer {
  import opened Text
  import opened CivilDate
  import opened Derivation
  import opened Entities
  import opened Handler

  class EntityStore {
    var orders: map<string, Order>
    var markets: map<nat, Market>
    var daily: map<nat, DailyStats>

    function Contents(): Store
      reads this
    {
      Store(orders, markets, daily)
    }

    ghost predicate Valid()
      reads this
    {
      ValidStore(Contents())
    }

    constructor ()
      ensures Contents() == Store(map[], map[], map[])
      ensures Valid()
    {
      orders := map[];
      markets := map[];
      daily := map[];
    }

    /** The stored market for a token, or a fresh one with placeholder metadata and zero
        totals; nothing is saved. */
    method GetOrCreateMarket(tokenId: nat) returns (market: Market)
      ensures market == LoadMarket(markets, tokenId)
      ensures tokenId !in markets ==>
                && market.tokenId == tokenId
                && market.id == DecimalString(tokenId)
                && market.question == "Market " + DecimalString(tokenId)
                && market.description == "" && market.status == "ACTIVE"
                && market.totalVolume == 0.0 && market.totalOrders == 0
                && market.lastOrderAt == 0 && market.createdAt == 0 && market.updatedAt == 0
                && market.endDate == 0 && market.resolutionDate == 0
      ensures Valid() && tokenId in markets ==>
                market.tokenId == tokenId && market.totalOrders >= 1 && market.createdAt == 0
    {
      if tokenId in markets {
        market := markets[tokenId];
      } else {
        var id := DecimalString(tokenId);
        market := Market(id, tokenId, "", "", 0, 0, "", 0.0, 0, 0, 0, 0);
        market := market.(question := "Market " + id);
        market := market.(description := "");
        market := market.(status := "ACTIVE");
      }
    }

    /** Folds one fill into the bucket of its day, creating the bucket on the day's first fill. */
    method UpdateDailyStats(volumeUsd: real, timestamp: nat)
      requires timestamp < I32Limit
      modifies this`daily
      ensures var day := timestamp / SecondsPerDay;
              daily == old(daily)[day := AccumulateDay(LoadDay(old(daily), day, timestamp), volumeUsd)]
      ensures var day := timestamp / SecondsPerDay;
              && daily[day].totalOrders == (if day in old(daily) then old(daily)[day].totalOrders else 0) + 1
              && daily[day].totalVolume == (if day in old(daily) then old(daily)[day].totalVolume else 0.0) + volumeUsd
              && daily[day].avgOrderSize == daily[day].totalVolume / (daily[day].totalOrders as real)
              && (day !in old(daily) ==> daily[day].createdAt == timestamp && daily[day].uniqueTraders == 0)
      ensures forall d | d in old(daily) && d != timestamp / SecondsPerDay :: d in daily && daily[d] == old(daily)[d]
    {
      var day := DayId(timestamp);
      var stats: DailyStats;
      if day in daily {
        stats := daily[day];
      } else {
        stats := DailyStats(DecimalString(day), DayDate(day), 0.0, 0, 0, 0.0, timestamp);
      }
      ghost var before := stats;
      assert before == LoadDay(daily, day, timestamp);
      stats := stats.(totalVolume := stats.totalVolume + volumeUsd);
      stats := stats.(totalOrders := stats.totalOrders + 1);
      stats := stats.(avgOrderSize := stats.totalVolume / (stats.totalOrders as real));
      assert stats == AccumulateDay(before, volumeUsd);
      daily := daily[day := stats];
    }

    /** Indexes one OrderFilled event: a no-op if its order id is already stored, otherwise
        derive, update the market, save the order and update the day bucket. */
    method HandleOrderFilled(e: FillEvent) returns (outcome: Outcome)
      requires e.timestamp < I32Limit
      modifies this
      ensures (Contents(), outcome) == Handle(old(Contents()), e)
      ensures old(OrderId(e) in orders) ==> outcome == Duplicate && Contents() == old(Contents())
      ensures outcome.Failed? ==> Contents() == old(Contents())
      ensures outcome.Processed? ==> OrderId(e) in orders && orders[OrderId(e)] == outcome.order
      ensures old(Valid()) ==> Valid()
    {
      var id := OrderId(e);
      if id in orders {
        outcome := Duplicate;
        return;
      }
      ghost var s := Contents();

      var side := OrderSide(e.makerAssetId, e.takerAssetId);
      var priceResult := Price(e.makerAmountFilled, e.takerAmountFilled, side);
      if priceResult.Err? {
        outcome := Failed(priceResult.error);
        return;
      }
      var price := priceResult.value;
      var volumeUsd := VolumeUsd(e.makerAmountFilled, e.takerAmountFilled, side);

      var question: Option<string> := None;
      var tokenId := if side == Buy then e.takerAssetId else e.makerAssetId;
      if tokenId != 0 {
        var market := GetOrCreateMarket(tokenId);
        question := Some(market.question);
        market := market.(totalVolume := market.totalVolume + volumeUsd);
        market := market.(totalOrders := market.totalOrders + 1);
        market := market.(lastOrderAt := e.timestamp);
        market := market.(updatedAt := e.timestamp);
        markets := markets[tokenId := market];
      }
      assert markets == MarketsAfter(s.markets, e) && question == QuestionFor(s.markets, e) by {
        assert tokenId == TradedToken(e) && volumeUsd == FillVolume(e);
      }

      var order := NewOrder(e, side, price, volumeUsd, question);
      orders := orders[id := order];

      UpdateDailyStats(volumeUsd, e.timestamp);
      outcome := Processed(order);

      assert (Contents(), outcome) == Handle(s, e);
      if ValidStore(s) {
        HandlePreservesValid(s, e);
      }
    }
  }
}

/** The indexed records: the decoded fill event, and the Order, Market and DailyStats
    entities with their ids, their defaults on creation and the way one fill updates them. */
module Entities {
  import opened Text
  import opened CivilDate
  import opened Derivation

  datatype Option<T> = None | Some(value: T)

  /** One decoded OrderFilled event with its block and transaction context. */
  datatype FillEvent = FillEvent(
    orderHash: seq<byte>,
    maker: seq<byte>,
    taker: seq<byte>,
    makerAssetId: nat,
    takerAssetId: nat,
    makerAmountFilled: nat,
    takerAmountFilled: nat,
    fee: nat,
    blockNumber: nat,
    transactionHash: seq<byte>,
    timestamp: nat)

  datatype Order = Order(
    id: string,
    orderHash: seq<byte>,
    maker: seq<byte>,
    taker: seq<byte>,
    makerAssetId: nat,
    takerAssetId: nat,
    makerAmountFilled: nat,
    takerAmountFilled: nat,
    fee: nat,
    blockNumber: nat,
    transactionHash: seq<byte>,
    timestamp: nat,
    side: Side,
    price: real,
    volumeUsd: real,
    createdAt: nat,
    updatedAt: nat,
    marketQuestion: Option<string>)  // left unset when the fill touches no market

  datatype Market = Market(
    id: string,
    tokenId: nat,
    question: string,
    description: string,
    endDate: nat,
    resolutionDate: nat,
    status: string,
    totalVolume: real,
    totalOrders: nat,
    lastOrderAt: nat,
    createdAt: nat,
    updatedAt: nat)

  datatype DailyStats = DailyStats(
    id: string,
    date: string,
    totalVolume: real,
    totalOrders: nat,
    uniqueTraders: nat,
    avgOrderSize: real,
    createdAt: nat)

  const ActiveStatus: string := "ACTIVE"
  const QuestionPrefix: string := "Market "

  /** The order id: the hex string of the order hash. */
  function OrderId(e: FillEvent): string {
    ToHexString(e.orderHash)
  }

  /** The market a fill trades: the token acquired on a BUY, the token given up on a SELL. */
  function MarketTokenId(side: Side, e: FillEvent): nat {
    if side == Buy then e.takerAssetId else e.makerAssetId
  }

  /** A fill touches no market only when both of its assets are the settlement asset. */
  lemma MarketTokenIdZero(e: FillEvent)
    ensures var side := OrderSide(e.makerAssetId, e.takerAssetId);
            MarketTokenId(side, e) == 0 <==> side == Buy && e.takerAssetId == 0
    ensures MarketTokenId(OrderSide(e.makerAssetId, e.takerAssetId), e) == 0 <==>
              e.makerAssetId == 0 && e.takerAssetId == 0
  {
  }

  /** A market as first created for a token: placeholder metadata and zero totals. */
  function NewMarket(tokenId: nat): Market {
    Market(
      id := DecimalString(tokenId),
      tokenId := tokenId,
      question := QuestionPrefix + DecimalString(tokenId),
      description := "",
      endDate := 0,
      resolutionDate := 0,
      status := ActiveStatus,
      totalVolume := 0.0,
      totalOrders := 0,
      lastOrderAt := 0,
      createdAt := 0,
      updatedAt := 0)
  }

  /** The stored market for a token, or a new one when there is none. */
  function LoadMarket(markets: map<nat, Market>, tokenId: nat): (m: Market)
    ensures tokenId in markets ==> m == markets[tokenId]
    ensures tokenId !in markets ==> m.totalVolume == 0.0 && m.totalOrders == 0 && m.tokenId == tokenId
  {
    if tokenId in markets then markets[tokenId] else NewMarket(tokenId)
  }

  /** One more fill on a market: volume and count grow by the fill, activity time is the block's. */
  function RecordFill(m: Market, volumeUsd: real, timestamp: nat): (r: Market)
    ensures r.totalVolume - m.totalVolume == volumeUsd && r.totalOrders == m.totalOrders + 1
    ensures r.lastOrderAt == r.updatedAt == timestamp
    ensures r.(totalVolume := m.totalVolume, totalOrders := m.totalOrders,
               lastOrderAt := m.lastOrderAt, updatedAt := m.updatedAt) == m
  {
    m.(totalVolume := m.totalVolume + volumeUsd,
       totalOrders := m.totalOrders + 1,
       lastOrderAt := timestamp,
       updatedAt := timestamp)
  }

  /** A day bucket as first created by a fill at `timestamp`. */
  function NewDailyStats(day: nat, timestamp: nat): DailyStats {
    DailyStats(
      id := DecimalString(day),
      date := DayDate(day),
      totalVolume := 0.0,
      totalOrders := 0,
      uniqueTraders := 0,
      avgOrderSize := 0.0,
      createdAt := timestamp)
  }

  /** The stored bucket for a day, or a new one created at `timestamp`. */
  function LoadDay(daily: map<nat, DailyStats>, day: nat, timestamp: nat): (d: DailyStats)
    ensures day in daily ==> d == daily[day]
    ensures day !in daily ==> d.totalVolume == 0.0 && d.totalOrders == 0 && d.createdAt == timestamp
  {
    if day in daily then daily[day] else NewDailyStats(day, timestamp)
  }

  /** One more fill in a day bucket: volume and count grow, the average is recomputed. */
  function AccumulateDay(d: DailyStats, volumeUsd: real): (r: DailyStats)
    ensures r.totalVolume - d.totalVolume == volumeUsd && r.totalOrders == d.totalOrders + 1
    ensures r.totalOrders >= 1 && r.avgOrderSize == r.totalVolume / (r.totalOrders as real)
    ensures r.(totalVolume := d.totalVolume, totalOrders := d.totalOrders, avgOrderSize := d.avgOrderSize) == d
  {
    var totalVolume := d.totalVolume + volumeUsd;
    var totalOrders := d.totalOrders + 1;
    d.(totalVolume := totalVolume,
       totalOrders := totalOrders,
       avgOrderSize := totalVolume / (totalOrders as real))
  }
}

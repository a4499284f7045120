/** What one fill means economically: the side of the trade, its price in cents and its
    USD volume, derived from the filled amounts and asset ids alone. Asset id 0 is the
    USD-pegged settlement token (USDC, six decimals); decimals are exact (`real`). */
module Derivation {

  datatype Side = Buy | Sell

  /** The arithmetic fault a decimal division by zero raises; it aborts the handler. */
  datatype ArithmeticError = DivisionByZero

  datatype Result<T> = Ok(value: T) | Err(error: ArithmeticError)

  const SettlementAssetId: nat := 0
  const CentsPerUnit: real := 100.0
  const SettlementUnit: real := 1000000.0  // 10^6: the settlement token has six decimals

  /** BUY when the maker pays with the settlement asset, SELL otherwise, whatever the taker's asset. */
  function OrderSide(makerAssetId: nat, takerAssetId: nat): (side: Side)
    ensures side == Buy <==> makerAssetId == SettlementAssetId
    ensures side == Sell <==> makerAssetId != SettlementAssetId
  {
    if makerAssetId == SettlementAssetId then Buy else Sell
  }

  /** Price in cents: the settlement leg over the token leg, times 100. A zero taker amount
      yields 0; a SELL with a zero maker amount and a non-zero taker amount divides by zero. */
  function Price(makerAmount: nat, takerAmount: nat, side: Side): (r: Result<real>)
    ensures takerAmount == 0 ==> r == Ok(0.0)
    ensures r.Err? <==> side == Sell && takerAmount != 0 && makerAmount == 0
    ensures r.Ok? ==> r.value >= 0.0
  {
    if takerAmount == 0 then Ok(0.0)
    else match side
      case Buy => Ok((makerAmount as real) / (takerAmount as real) * CentsPerUnit)
      case Sell => if makerAmount == 0 then Err(DivisionByZero)
                   else Ok((takerAmount as real) / (makerAmount as real) * CentsPerUnit)
  }

  /** The USD value of a fill: the settlement leg (maker's for BUY, taker's for SELL) in whole dollars. */
  function VolumeUsd(makerAmount: nat, takerAmount: nat, side: Side): (v: real)
    ensures v >= 0.0
    ensures v * 1000000.0 == (if side == Buy then makerAmount else takerAmount) as real
  {
    var settlementLeg := if side == Buy then makerAmount else takerAmount;
    (settlementLeg as real) / SettlementUnit
  }

  /** A non-zero price is 100 times the ratio of the two legs: maker over taker for BUY,
      taker over maker for SELL. */
  lemma PriceIsCentsRatio(makerAmount: nat, takerAmount: nat, side: Side)
    requires takerAmount != 0
    requires Price(makerAmount, takerAmount, side).Ok?
    ensures var p := Price(makerAmount, takerAmount, side).value;
            side == Buy ==> p * (takerAmount as real) == 100.0 * (makerAmount as real)
    ensures var p := Price(makerAmount, takerAmount, side).value;
            side == Sell ==> p * (makerAmount as real) == 100.0 * (takerAmount as real)
  {
  }

  /** Swapping the legs and flipping the side gives the same price. */
  lemma PriceMirror(makerAmount: nat, takerAmount: nat)
    requires makerAmount != 0 && takerAmount != 0
    ensures Price(makerAmount, takerAmount, Buy) == Price(takerAmount, makerAmount, Sell)
    ensures Price(makerAmount, takerAmount, Buy).Ok?
  {
  }

  /** A BUY price lies on the 0..100 cents scale exactly when the maker pays at most as many
      units as it receives. */
  lemma BuyPriceAtMostOneDollar(makerAmount: nat, takerAmount: nat)
    requires takerAmount != 0
    ensures Price(makerAmount, takerAmount, Buy).Ok?
    ensures Price(makerAmount, takerAmount, Buy).value <= CentsPerUnit <==> makerAmount <= takerAmount
  {
    var p := Price(makerAmount, takerAmount, Buy).value;
    var m, t := makerAmount as real, takerAmount as real;
    PriceIsCentsRatio(makerAmount, takerAmount, Buy);
    var d := p - 100.0;
    assert d * t == p * t - 100.0 * t;
    assert d * t == 100.0 * (m - t);
    if makerAmount <= takerAmount {
      if d > 0.0 {
        PositiveTimesPositive(d, t);
        assert false;
      }
    } else {
      if d <= 0.0 {
        NonPositiveTimesPositive(d, t);
        assert false;
      }
    }
  }

  lemma NonPositiveTimesPositive(x: real, y: real)
    requires x <= 0.0 && y > 0.0
    ensures x * y <= 0.0
  {
  }

  lemma PositiveTimesPositive(x: real, y: real)
    requires x > 0.0 && y > 0.0
    ensures x * y > 0.0
  {
  }

  /** The volume reads only the settlement leg: the maker amount for BUY, the taker amount for SELL. */
  lemma VolumeReadsSettlementLegOnly(makerAmount: nat, takerAmount: nat, other: nat)
    ensures VolumeUsd(makerAmount, takerAmount, Buy) == VolumeUsd(makerAmount, other, Buy)
    ensures VolumeUsd(makerAmount, takerAmount, Sell) == VolumeUsd(other, takerAmount, Sell)
  {
  }

  /** A USDC-for-token BUY of 50 USDC for 100 tokens (both six decimals) is priced at 50 cents. */
  lemma BuyExample()
    ensures OrderSide(0, 123) == Buy
    ensures Price(50_000000, 100_000000, Buy) == Ok(50.0)
    ensures VolumeUsd(50_000000, 100_000000, Buy) == 50.0
  {
  }

  /** A token-for-USDC SELL of 100 tokens for 60 USDC is priced at 60 cents. */
  lemma SellExample()
    ensures OrderSide(123, 0) == Sell
    ensures Price(100_000000, 60_000000, Sell) == Ok(60.0)
    ensures VolumeUsd(100_000000, 60_000000, Sell) == 60.0
  {
  }

  /** The formula works on raw units: 50 USDC (six decimals) for 100 raw token units is
      priced at 50000000, not 50. */
  lemma RawUnitsExample()
    ensures Price(50_000000, 100, Buy) == Ok(50000000.0)
    ensures VolumeUsd(50_000000, 100, Buy) == 50.0
  {
  }
}

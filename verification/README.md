# Polymarket OrderFilled indexer — a verified model

This project models the OrderFilled handler of a Polymarket CTF Exchange indexer
(`src/EventHandlers.ts`). For each fill event, the handler:

1. deduplicates by order id (the hex of the order hash);
2. derives the side, the price in cents and the USD volume from the filled amounts and asset ids;
3. updates the traded market, creating it with placeholder metadata on its first fill;
4. saves the order;
5. folds the fill into the bucket of its UTC day.

The model has two layers:

- **Pure functions.** `Handler.Handle` maps the entity store (three maps: orders by id,
  markets by token id, day buckets by day number) and one event to the new store and an outcome.
- **Imperative class.** `Indexer.EntityStore` holds the same three maps as fields, updated in
  place in the order the source updates them. Its `HandleOrderFilled` method is proved equal to
  `Handler.Handle`, and proved to keep the store invariant. One step differs from the code as
  written: a new day bucket is labelled with the date of its own day, not with the date of the
  wrapped 32-bit product at src/EventHandlers.ts:80 (see "## Findings").

Modules:

- `Text`: `BigInt.toString` and `Bytes.toHexString`. Decimal strings read back as their
  number (a round trip); hex strings are injective (distinct hashes give distinct order ids).
- `CivilDate`: the day-bucket key, the `YYYY-MM-DD` label of a day (a days-to-civil-date
  conversion with its inverse), and the 32-bit arithmetic of the date expression.
- `Derivation`: `getOrderSide`, `calculatePrice` and `calculateVolumeUsd`.
- `Entities`: the event and the Order, Market and DailyStats records, with their defaults
  and single-fill updates.
- `Handler`: the handler as a function, its one-call properties, and the invariant of the
  store it maintains.
- `Indexer`: the store class and the handler's three functions as methods.
- `Replay`: sequences of events.
  - Redelivering an already handled event changes nothing.
  - After a batch of distinct fresh fills, every market's and every day's order count and
    volume have grown by exactly the fills that hit it.
  - Those totals do not depend on the order in which the fills arrive.

Decimal (`BigDecimal`) values are exact `real`s. Amounts and asset ids are `nat`. Asset
id 0 is the settlement token (USDC, six decimals).

`calculatePrice` has no guard for a SELL whose maker amount is 0 and whose taker amount is
not. The decimal division by zero then aborts the handler. The model returns
`Err(DivisionByZero)` from `Derivation.Price`, and `Handler.Handle` reports `Failed` with
the store unchanged. Nothing has been saved at that point, because the market and order
saves come after the price is computed.

The price formula divides raw amounts. A BUY of 50 USDC for 100 raw token units is
therefore priced at 50000000.0: the formula divides raw units without rescaling them to a
common number of decimals (`Derivation.RawUnitsExample`).

## Model

| member | source | states |
|---|---|---|
| Derivation.OrderSide | src/EventHandlers.ts:9-13 | BUY exactly when the maker asset id is 0, whatever the taker asset id; SELL otherwise |
| Derivation.Price | src/EventHandlers.ts:16-35 | zero taker amount gives 0 for either side; it faults exactly for a SELL with zero maker and non-zero taker amount; every price is non-negative |
| Derivation.PriceIsCentsRatio | src/EventHandlers.ts:28-34 | BUY price times taker amount is 100 times maker amount; SELL price times maker amount is 100 times taker amount |
| Derivation.PriceMirror | src/EventHandlers.ts:28-34 | with both amounts non-zero, price(m, t, BUY) equals price(t, m, SELL) |
| Derivation.BuyPriceAtMostOneDollar | src/EventHandlers.ts:28-30 | a BUY price is at most 100 cents exactly when the maker amount is at most the taker amount |
| Derivation.VolumeUsd | src/EventHandlers.ts:38-47 | volume times 10^6 is the settlement leg (maker amount for BUY, taker amount for SELL); volume is non-negative |
| Derivation.VolumeReadsSettlementLegOnly | src/EventHandlers.ts:43-46 | the volume does not depend on the non-settlement leg |
| Derivation.BuyExample | src/EventHandlers.ts:28-30 | 50 USDC for 100 tokens (six decimals each) is a BUY at 50 cents with volume 50 |
| Derivation.SellExample | src/EventHandlers.ts:31-34 | 100 tokens for 60 USDC is a SELL at 60 cents with volume 60 |
| Derivation.RawUnitsExample | src/EventHandlers.ts:28-30 | 50 USDC for 100 raw token units is priced at 50000000, since amounts are not rescaled |
| Text.DecimalString | src/EventHandlers.ts:51 | the id string of a number is non-empty and all digits, with no leading zero |
| Text.DecimalRoundTrip | src/EventHandlers.ts:74 | reading a number's id string back gives the number |
| Text.DecimalStringInjective | src/EventHandlers.ts:54 | distinct token ids (and day numbers) get distinct entity ids |
| Text.ToHexString | src/EventHandlers.ts:97 | the order id is "0x" followed by two characters per hash byte |
| Text.HexDigitsInjective | src/EventHandlers.ts:97 | the hex digits of two byte strings agree only when the bytes do |
| Text.ToHexStringInjective | src/EventHandlers.ts:97 | two order hashes share an order id only when they are equal |
| CivilDate.DayId | src/EventHandlers.ts:73 | the bucket key is the floor of timestamp / 86400: day * 86400 <= timestamp < (day + 1) * 86400 |
| CivilDate.WrapI32 | src/EventHandlers.ts:80 | the 32-bit wrap lies in the i32 range, is congruent modulo 2^32, and is the identity on that range |
| CivilDate.DayOfMillis | src/EventHandlers.ts:80 | the day of a millisecond instant is its floor day: day * 86400000 <= ms < (day + 1) * 86400000 |
| CivilDate.SplitDayOfEra | src/EventHandlers.ts:80 | a day of a 400-year era splits into a year of the era and a day of that year, the day 365 only in leap years |
| CivilDate.DaysInMonth | src/EventHandlers.ts:80 | every Gregorian month has 28 to 31 days |
| CivilDate.CivilFromDays | src/EventHandlers.ts:80 | every day count names a month in 1..12 and a day in 1..31 |
| CivilDate.CivilDateExists | src/EventHandlers.ts:80 | the date of every day count exists: its day is within the length of its month in that year (29 February only in leap years) |
| CivilDate.MonthLength | src/EventHandlers.ts:80 | counted from March, the month starts step by 30 days after April, June, September and November and by 31 days otherwise |
| CivilDate.LeapYearOfEra | src/EventHandlers.ts:80 | a year of an era that has a day 365 is a Gregorian leap year |
| CivilDate.MonthOfYearRoundTrip | src/EventHandlers.ts:80 | the month split of a day of the year maps back to the same month and starts no later than that day |
| CivilDate.DateOfEraDayRoundTrip | src/EventHandlers.ts:80 | the date of a day of a year of an era converts back to that day count |
| CivilDate.CivilRoundTrip | src/EventHandlers.ts:80 | converting a day count to a civil date and back gives the day count |
| CivilDate.ZerosReadAsZero | src/EventHandlers.ts:80 | a run of zeros reads as 0 |
| CivilDate.LeadingZerosReadAsNothing | src/EventHandlers.ts:80 | leading zeros do not change the number a digit string reads as |
| CivilDate.Padded | src/EventHandlers.ts:80 | the zero-padded string is all digits and reads back as the number; it is at least the width long, exactly the width when the number fits |
| CivilDate.IsoYear | src/EventHandlers.ts:80 | a year in 0..9999 is four digits that read back as the year; a negative year is '-' and digits that read as its magnitude; a later year is '+' and digits that read as the year |
| CivilDate.IsoDate | src/EventHandlers.ts:80 | the `YYYY-MM-DD` label has at least ten characters |
| CivilDate.IsoDateReadsBack | src/EventHandlers.ts:80 | for years 0..9999 the label has ten characters, '-' at positions 4 and 7, and its three fields read back as the year, the month and the day |
| CivilDate.DayDate | src/EventHandlers.ts:80 | the label of a bucket: the ISO date of its day number (a definition; its properties are stated by DayDateMatchesMillis and IsoDateReadsBack) |
| CivilDate.AsWrittenDay | src/EventHandlers.ts:80 | the day named by `timestamp.toI32() * 1000` computed in 32-bit arithmetic (a definition; compared with the bucket by AsWrittenDayMatchesBucketIff) |
| CivilDate.DayDateMatchesMillis | src/EventHandlers.ts:80 | with full-width arithmetic the millisecond instant falls on the bucket's day, so the label is that day's date |
| CivilDate.AsWrittenDayMatchesBucketIff | src/EventHandlers.ts:80 | the 32-bit product names the bucket's day exactly when timestamp * 1000 < 2^31 |
| CivilDate.AsWrittenDateExample | src/EventHandlers.ts:73-80 | timestamp 1700000000 is bucketed on day 19675, but the 32-bit product names day -10 |
| CivilDate.BucketDateExample | src/EventHandlers.ts:80 | day 19675 is 2023-11-14 |
| CivilDate.WrappedDateExample | src/EventHandlers.ts:80 | day -10 is 1969-12-22 |
| Entities.OrderId | src/EventHandlers.ts:97 | the order id is the hex string of the order hash (a definition; injective by Text.ToHexStringInjective) |
| Entities.MarketTokenId | src/EventHandlers.ts:137 | the traded token: the taker asset id for a BUY, the maker asset id for a SELL (a definition; see MarketTokenIdZero) |
| Entities.MarketTokenIdZero | src/EventHandlers.ts:137-138 | a fill touches no market exactly when both asset ids are 0 (a BUY with taker asset 0) |
| Entities.NewMarket | src/EventHandlers.ts:53-66 | the market created on a token's first fill: id and question from the token id, empty description, ACTIVE, zero volume, count and times (a definition; its invariant is Handler.ValidMarket, kept by Handler.RecordFillValid) |
| Entities.LoadMarket | src/EventHandlers.ts:50-69 | a stored market is returned as is; otherwise a market for that token with zero volume and count |
| Entities.RecordFill | src/EventHandlers.ts:142-146 | one fill adds its volume and one order, stamps lastOrderAt and updatedAt with the block time, and changes no other field |
| Entities.NewDailyStats | src/EventHandlers.ts:78-86 | the bucket created on a day's first fill: id from the day number, zero totals and average, created at the fill's time (a definition; its label is stated by Handler.NewBucketLabel) |
| Entities.LoadDay | src/EventHandlers.ts:76-86 | a stored bucket is returned as is; otherwise a bucket created at the timestamp with zero volume and count |
| Entities.AccumulateDay | src/EventHandlers.ts:88-90 | one fill adds its volume and one order; the average is volume over a count of at least 1; no other field changes |
| Handler.NewOrder | src/EventHandlers.ts:106-134 | the order record built from an event and its derived fields (a definition; its contents are stated by Handler.RecordedOrder) |
| Handler.MarketsAfter | src/EventHandlers.ts:137-148 | the market table after a fill (a definition; its effect is stated by Handler.MarketUpdate) |
| Handler.QuestionFor | src/EventHandlers.ts:137-140 | the question copied onto the order: the traded market's, read before its update (a definition; stated by Handler.RecordedOrder) |
| Handler.DailyAfter | src/EventHandlers.ts:72-92 | the day-bucket table after a fill (a definition; its effect is stated by Handler.DailyUpdate) |
| Handler.Handle | src/EventHandlers.ts:95-154 | the new store and outcome of one event (a definition; its properties are the Handler lemmas below, and Indexer.EntityStore.HandleOrderFilled is proved equal to it) |
| Handler.DuplicateIsNoOp | src/EventHandlers.ts:97-103 | an event whose order id is stored returns Duplicate and changes nothing |
| Handler.NewEventOutcome | src/EventHandlers.ts:106-151 | a new event fails exactly when its price division faults, leaving the store as it was; otherwise its order is stored under its id |
| Handler.RecordedOrder | src/EventHandlers.ts:106-140 | the stored order copies the event's fields, carries the derived side, price and volume, has the block time as createdAt and updatedAt, and has the question of its market, if it has one |
| Handler.MarketUpdate | src/EventHandlers.ts:137-148 | the traded market gains the fill's volume and one order, is stamped with the block time, keeps question and createdAt; no other market changes; no market changes when the token id is 0 |
| Handler.DailyUpdate | src/EventHandlers.ts:72-92 | the fill's day bucket gains its volume and one order, the average is recomputed, createdAt, date and uniqueTraders are kept; no other bucket changes |
| Handler.NewBucketLabel | src/EventHandlers.ts:78-80 | a bucket created by a fill gets the id and the date of its own day; that date equals the source's label whenever the 32-bit product does not wrap |
| Handler.HandleIdempotent | src/EventHandlers.ts:97-151 | handling the same event twice leaves the store as handling it once; the second call reports Duplicate |
| Handler.OrdersOnlyGrow | src/EventHandlers.ts:100-151 | stored orders are never removed or rewritten |
| Handler.RecordFillValid | src/EventHandlers.ts:50-69 | the traded market, created or loaded, is well-formed after the fill |
| Handler.MarketsStayValid | src/EventHandlers.ts:137-148 | every market keeps its placeholder metadata, createdAt 0 and at least one recorded fill |
| Handler.AccumulateDayValid | src/EventHandlers.ts:76-90 | the fill's bucket is well-formed after the fill |
| Handler.DaysStayValid | src/EventHandlers.ts:72-92 | every day bucket keeps its id, its date, its creation time in that day, uniqueTraders 0, and average = volume / count |
| Handler.OrdersStayValid | src/EventHandlers.ts:106-134 | every stored order is keyed by the hex of its hash and was created and updated at its block time |
| Handler.HandlePreservesValid | src/EventHandlers.ts:95-154 | handling any event keeps the whole store well-formed |
| Indexer.EntityStore.GetOrCreateMarket | src/EventHandlers.ts:50-69 | returns the stored market, or a new one with id and question from the token id, empty description, ACTIVE, and zero volume, count and times |
| Indexer.EntityStore.UpdateDailyStats | src/EventHandlers.ts:72-92 | the bucket of timestamp / 86400 gains the volume and one order, its average is volume over count, creation fields are set only on creation, and no other bucket changes |
| Indexer.EntityStore.HandleOrderFilled | src/EventHandlers.ts:95-154 | the new store and outcome are those of Handler.Handle; a stored id changes nothing; a fault changes nothing; a processed order is stored; the store invariant is kept |
| Replay.Run | src/EventHandlers.ts:95-154 | the store after handling a sequence of events one after another (a definition; its properties are the Replay lemmas below) |
| Replay.SettledIsNoOp | src/EventHandlers.ts:99-103 | an event whose order is stored, or whose price faults, leaves the store unchanged |
| Replay.HandleSettles | src/EventHandlers.ts:97-151 | after handling an event it is settled, and events settled before stay settled |
| Replay.RunSettles | src/EventHandlers.ts:97-151 | every event of a handled sequence is settled in the resulting store |
| Replay.RedeliveryIsNoOp | src/EventHandlers.ts:97-103 | delivering an already handled event again leaves the store exactly as it was |
| Replay.FreshStepOrders | src/EventHandlers.ts:100-151 | handling a fresh event adds exactly its order id and keeps every stored order |
| Replay.RunOrderIds | src/EventHandlers.ts:97-151 | after a fresh batch the stored order ids are exactly the earlier ones plus those of the batch |
| Replay.RunKeepsOrders | src/EventHandlers.ts:99-103 | after a fresh batch every order stored before it is still stored, unchanged |
| Replay.MarketsAfterAdds | src/EventHandlers.ts:137-148 | one fill adds (1, its volume) to the totals of its market and nothing to any other market |
| Replay.DailyAfterAdds | src/EventHandlers.ts:72-92 | one fill adds (1, its volume) to the totals of its day and nothing to any other day |
| Replay.HandleAddsContribution | src/EventHandlers.ts:137-154 | a fresh event adds its contribution to every market's and every day's totals |
| Replay.RunTotals | src/EventHandlers.ts:95-154 | after a fresh batch each market's and day's count and volume grew by exactly the count and summed volume of the batch's fills in it |
| Replay.TallyPermutation | src/EventHandlers.ts:143-144 | the count and summed volume of a batch in a bucket do not depend on the batch's order |
| Replay.TotalsOrderIndependent | src/EventHandlers.ts:137-154 | processing a fresh batch in any order leaves every market and day with the same totals |

## Left out

- `src/index.ts` (process start-up and signal handling) is not part of this model.
- The generated entity classes and the persistence layer. `load` is a map lookup and
  `save` a map update, with no failures of the store itself.
- The `log.info` call at src/EventHandlers.ts:157-163. It has no effect on state.
- Precision limits of `BigDecimal`. Decimal arithmetic is exact (`real`).
- Timestamps of 2^31 seconds or more. `timestamp.toI32()` cannot represent them, so
  `Handler.Handle`, `Indexer.EntityStore.HandleOrderFilled` and
  `Indexer.EntityStore.UpdateDailyStats` require `timestamp < 2^31`.
- Concurrency and atomicity across events. The handler runs events one at a time.
- `uniqueTraders` is never computed by the handler. The model keeps it at 0, as the source does.
- A failed handler call (the division by zero) is a failed event in the model. What the
  hosting indexer then does (halting, retrying) is not modelled.
- Entities.NewDailyStats: labels a new bucket `DayDate(day)`, the date of its own day, not
  the date of the wrapped 32-bit product at src/EventHandlers.ts:80; the two agree exactly
  for timestamps up to 2147483 (see "## Findings" and Handler.NewBucketLabel).
- Entities.LoadDay: a bucket it creates carries the corrected label of NewDailyStats.
- Indexer.EntityStore.UpdateDailyStats: a bucket it creates carries the corrected label of
  NewDailyStats, not the wrapped label as written.
- Indexer.EntityStore.HandleOrderFilled: proved equal to `Handler.Handle`, whose new buckets
  carry the corrected label, not the wrapped label as written.
- Handler.AccumulateDayValid: the bucket invariant `ValidDay` includes `date == DayDate(day)`,
  which holds of the corrected label, not of the label as written.
- Handler.DaysStayValid: rests on the same corrected-label invariant `ValidDay`.
- Handler.HandlePreservesValid: rests on the same corrected-label invariant `ValidDay`.
- Replay.RunTotals and Replay.TotalsOrderIndependent: stated for batches of distinct,
  not yet indexed events whose price does not fault. Duplicates and faulting events are
  covered separately by Replay.RedeliveryIsNoOp and Handler.NewEventOutcome.

## Findings

| source | as written | input that shows it | evidently intended | confidence | as-written member | corrected member |
|---|---|---|---|---|---|---|
| src/EventHandlers.ts:80 | the date label is computed from `timestamp.toI32() * 1000`, an i32 product that wraps for timestamps above 2147483 (1970-01-25) | timestamp 1700000000: the bucket is day 19675 (2023-11-14), but the wrapped product -807049216 ms names day -10, so the bucket is labelled 1969-12-22 | the label is the date of the bucket's own day, that is of the full-width instant timestamp * 1000 | high that the product wraps in 32-bit arithmetic; not executed | CivilDate.AsWrittenDayMatchesBucketIff | CivilDate.DayDateMatchesMillis |

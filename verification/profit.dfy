/** The per-day profitability aggregation of `handleTokenAnalysis`
    (server/routes/analyze-token.ts): for every price sample, count the
    holders whose estimated buy price is below that day's price. */
module Profit {
  import opened Api

  /** The source's test for one holder on one day: its address has an
      estimate, the estimate is truthy (non-zero), and it is strictly below
      the day's price. An estimate equal to the day's price does not count. */
  predicate InProfit(h: TokenHolder, buyPrices: map<string, real>, dayPrice: real) {
    h.address in buyPrices && buyPrices[h.address] != 0.0 && buyPrices[h.address] < dayPrice
  }

  /** Reference definition of the count: the positions in the holder list
      (duplicates are separate positions) whose holder is in profit. */
  ghost function ProfitIndices(holders: seq<TokenHolder>, buyPrices: map<string, real>, dayPrice: real): set<nat> {
    set i: nat | i < |holders| && InProfit(holders[i], buyPrices, dayPrice)
  }

  /** The `forEach` over the holders that increments the counter once per
      holder in profit. */
  function CountInProfit(holders: seq<TokenHolder>, buyPrices: map<string, real>, dayPrice: real): (n: nat)
    ensures n <= |holders|
    ensures n == 0 <==> forall i :: 0 <= i < |holders| ==> !InProfit(holders[i], buyPrices, dayPrice)
    ensures n == |holders| <==> forall i :: 0 <= i < |holders| ==> InProfit(holders[i], buyPrices, dayPrice)
    decreases |holders|
  {
    if |holders| == 0 then 0
    else
      var last := |holders| - 1;
      var before := CountInProfit(holders[..last], buyPrices, dayPrice);
      assert forall i :: 0 <= i < last ==> holders[..last][i] == holders[i];
      before + (if InProfit(holders[last], buyPrices, dayPrice) then 1 else 0)
  }

  /** The counter equals the number of holder positions in profit. */
  lemma {:induction false} CountMatchesReference(holders: seq<TokenHolder>, buyPrices: map<string, real>, dayPrice: real)
    ensures CountInProfit(holders, buyPrices, dayPrice) == |ProfitIndices(holders, buyPrices, dayPrice)|
    decreases |holders|
  {
    if |holders| > 0 {
      var last := |holders| - 1;
      var prefix := holders[..last];
      CountMatchesReference(prefix, buyPrices, dayPrice);
      var before := ProfitIndices(prefix, buyPrices, dayPrice);
      var all := ProfitIndices(holders, buyPrices, dayPrice);
      if InProfit(holders[last], buyPrices, dayPrice) {
        assert all == before + {last};
        assert last !in before;
      } else {
        assert all == before;
      }
    }
  }

  /** A higher day price never leaves fewer holders in profit. */
  lemma {:induction false} CountMonotone(holders: seq<TokenHolder>, buyPrices: map<string, real>, low: real, high: real)
    requires low <= high
    ensures CountInProfit(holders, buyPrices, low) <= CountInProfit(holders, buyPrices, high)
    decreases |holders|
  {
    if |holders| > 0 {
      CountMonotone(holders[..|holders| - 1], buyPrices, low, high);
    }
  }

  /** A quantity whose product with a positive factor is non-negative is
      itself non-negative. */
  lemma NonNegativeFactor(x: real, t: real)
    requires t > 0.0
    requires x * t >= 0.0
    ensures x >= 0.0
  {
  }

  /** `walletsInProfit / totalWallets * 100`, or 0 without wallets. */
  function Percentage(inProfit: nat, total: nat): (pct: real)
    requires inProfit <= total
    ensures 0.0 <= pct <= 100.0
    ensures total == 0 ==> pct == 0.0
    ensures total > 0 ==> pct * (total as real) == 100.0 * (inProfit as real)
  {
    if total > 0 then
      var t := total as real;
      var share := inProfit as real / t;
      assert share * t == inProfit as real;
      assert (1.0 - share) * t == t - inProfit as real;
      NonNegativeFactor(1.0 - share, t);
      NonNegativeFactor(share, t);
      share * 100.0
    else 0.0
  }

  /** A higher count out of the same total never gives a lower percentage. */
  lemma PercentageMonotone(a: nat, b: nat, total: nat)
    requires a <= b <= total
    ensures Percentage(a, total) <= Percentage(b, total)
  {
    if total > 0 {
      var t := total as real;
      var pa := Percentage(a, total);
      var pb := Percentage(b, total);
      assert (pb - pa) * t == 100.0 * (b as real - a as real);
      NonNegativeFactor(pb - pa, t);
    }
  }

  /** The record for one price sample: nobody counts as in profit exactly
      when no holder passes the test, and everybody exactly when every
      holder does. */
  function DayResult(day: PriceData, holders: seq<TokenHolder>, buyPrices: map<string, real>): (r: AnalysisResult)
    ensures r.Valid()
    ensures r.date == day.date && r.price == day.price
    ensures r.totalWallets == |holders|
    ensures r.walletsInProfit == 0 <==>
      forall j :: 0 <= j < |holders| ==> !InProfit(holders[j], buyPrices, day.price)
    ensures r.walletsInProfit == |holders| <==>
      forall j :: 0 <= j < |holders| ==> InProfit(holders[j], buyPrices, day.price)
  {
    var walletsInProfit := CountInProfit(holders, buyPrices, day.price);
    var totalWallets := |holders|;
    var percentage := Percentage(walletsInProfit, totalWallets);
    AnalysisResult(day.date, day.price, walletsInProfit, totalWallets, percentage)
  }

  /** `priceHistory.map(...)`: one record per sample, in sample order. */
  function Aggregate(days: seq<PriceData>, holders: seq<TokenHolder>, buyPrices: map<string, real>): (rs: seq<AnalysisResult>)
    ensures |rs| == |days|
    ensures forall i :: 0 <= i < |rs| ==>
      && rs[i].Valid()
      && rs[i].date == days[i].date
      && rs[i].price == days[i].price
      && rs[i].totalWallets == |holders|
  {
    seq(|days|, i requires 0 <= i < |days| => DayResult(days[i], holders, buyPrices))
  }

  /** Each record counts exactly the holder positions that pass the
      profit test on its day. */
  lemma AggregateCounts(days: seq<PriceData>, holders: seq<TokenHolder>, buyPrices: map<string, real>, i: nat)
    requires i < |days|
    ensures Aggregate(days, holders, buyPrices)[i].walletsInProfit ==
      |ProfitIndices(holders, buyPrices, days[i].price)|
  {
    CountMatchesReference(holders, buyPrices, days[i].price);
  }

  /** Across one aggregation, a day with a price at least as high has at
      least as many wallets in profit and at least as high a percentage. */
  lemma AggregateMonotone(days: seq<PriceData>, holders: seq<TokenHolder>, buyPrices: map<string, real>, i: nat, j: nat)
    requires i < |days| && j < |days|
    requires days[i].price <= days[j].price
    ensures Aggregate(days, holders, buyPrices)[i].walletsInProfit <= Aggregate(days, holders, buyPrices)[j].walletsInProfit
    ensures Aggregate(days, holders, buyPrices)[i].percentageInProfit <= Aggregate(days, holders, buyPrices)[j].percentageInProfit
  {
    var rs := Aggregate(days, holders, buyPrices);
    CountMonotone(holders, buyPrices, days[i].price, days[j].price);
    PercentageMonotone(rs[i].walletsInProfit, rs[j].walletsInProfit, |holders|);
  }
}

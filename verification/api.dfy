/** The records the client and server exchange (shared/api.ts). JavaScript
    numbers become `real` for quantities and `nat` for counts; strings are
    `seq<char>`. */
module Api {

  /** One account holding the token, as the holder query reports it. */
  datatype TokenHolder = TokenHolder(address: string, amount: real, decimals: int)

  /** One sample of the price history. */
  datatype PriceData = PriceData(date: string, price: real)

  /** The profitability figures for one price sample. */
  datatype AnalysisResult = AnalysisResult(
    date: string,
    price: real,
    walletsInProfit: nat,
    totalWallets: nat,
    percentageInProfit: real)
  {
    /** The invariant every result keeps: the profitable wallets are some
        of all wallets, and the percentage is their share out of 100, or 0
        when there are no wallets. */
    predicate Valid() {
      && walletsInProfit <= totalWallets
      && 0.0 <= percentageInProfit <= 100.0
      && (totalWallets == 0 ==> percentageInProfit == 0.0)
      && (totalWallets > 0 ==>
            percentageInProfit * (totalWallets as real) == 100.0 * (walletsInProfit as real))
    }
  }

  /** What a successful analysis returns to the client. */
  datatype TokenAnalysisResponse = TokenAnalysisResponse(
    results: seq<AnalysisResult>,
    csvDownloadUrl: string)
}

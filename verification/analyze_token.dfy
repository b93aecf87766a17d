/** The analysis route (`handleTokenAnalysis` in
    server/routes/analyze-token.ts) as one pure function. Everything the
    source obtains from outside — the two upstream replies, the random
    draws, the two clock readings, the outcome of writing the report, and
    the number and date conversions — arrives in a `World`; the effects the
    route would perform are returned, in order, next to its reply. */
module AnalyzeToken {
  import opened Wrappers
  import opened Api
  import opened Text
  import Holders
  import Prices
  import BuyPrices
  import Profit
  import Report
  import Download

  /** The request body; a field the client left out is `None`. */
  datatype TokenAnalysisRequest = TokenAnalysisRequest(tokenMint: Option<string>, heliusApiKey: Option<string>)

  /** JavaScript truthiness of a string field: present and non-empty. */
  predicate Truthy(field: Option<string>) {
    field.Some? && field.value != ""
  }

  /** An outside effect of the route. `WriteReport` is the attempt to
      store the report (creating the data directory, then writing the
      file), whether or not it succeeds. */
  datatype Effect =
    | QueryHolders(tokenMint: string, apiKey: string)
    | QueryPrices(tokenMint: string, timeFrom: int, timeTo: int)
    | WriteReport(filename: string, contents: string)

  /** How the attempt to store the report went. A failure while creating
      the data directory and a failure while writing the file are the same
      outcome here: either way no file is stored and the error's message
      is answered. */
  datatype StorageReply = Stored | StorageFailed(message: string)

  /** The inputs the source takes from the network, the clock, the random
      number generator, the file system and the runtime's conversions. */
  datatype World = World(
    holderReply: Holders.RpcReply,
    priceReply: Prices.PriceReply,
    random: nat -> real,
    priceClockMs: int,
    reportClockMs: nat,
    storage: StorageReply,
    toNumber: string -> real,
    formatDate: int -> string,
    toFixed: (real, nat) -> string)

  /** Status 400, status 500 with the failure's message, or 200. */
  datatype AnalysisReply =
    | BadRequest(error: string)
    | Failed(error: string)
    | Analyzed(response: TokenAnalysisResponse)

  datatype Handled = Handled(reply: AnalysisReply, effects: seq<Effect>)

  const MissingFieldMessage: string := "Missing required field: tokenMint or heliusApiKey"

  /** The holder list a reply carries, empty when it carries none. */
  function HolderEntries(reply: Holders.RpcReply): seq<Holders.RawHolder> {
    if reply.RpcAnswered? && reply.value.Some? then reply.value.value else []
  }

  /** The price items a reply carries, empty when it carries none. */
  function PriceItems(reply: Prices.PriceReply): seq<Prices.RawPriceItem> {
    if reply.PriceAnswered? && reply.items.Some? then reply.items.value else []
  }

  /** Steps 3 and 4 of the route: estimate a buy price per holder, then
      aggregate every price sample against the estimates. */
  function Analyze(holders: seq<TokenHolder>, days: seq<PriceData>, random: nat -> real): (rs: seq<AnalysisResult>)
    requires BuyPrices.ValidStream(random)
    ensures |rs| == |days|
    ensures forall i :: 0 <= i < |rs| ==>
      && rs[i].Valid()
      && rs[i].date == days[i].date
      && rs[i].price == days[i].price
      && rs[i].totalWallets == |holders|
  {
    Profit.Aggregate(days, holders, BuyPrices.EstimateBuyPrices(holders, random))
  }

  /** Step 5 once results exist: the report write and the reply. */
  function Publish(tokenMint: string, results: seq<AnalysisResult>, world: World): (h: Handled)
    ensures |h.effects| == 1
    ensures h.effects[0] == WriteReport(Report.Filename(tokenMint, world.reportClockMs), Report.Csv(results, world.toFixed))
    ensures h.reply.Failed? <==> world.storage.StorageFailed?
    ensures h.reply.Failed? ==> h.reply.error == world.storage.message
    ensures h.reply.Analyzed? ==>
      h.reply.response == TokenAnalysisResponse(results, Report.DownloadUrl(Report.Filename(tokenMint, world.reportClockMs)))
  {
    var filename := Report.Filename(tokenMint, world.reportClockMs);
    var write := WriteReport(filename, Report.Csv(results, world.toFixed));
    match world.storage
    case StorageFailed(message) => Handled(Failed(message), [write])
    case Stored => Handled(Analyzed(TokenAnalysisResponse(results, Report.DownloadUrl(filename))), [write])
  }

  /** The holder call answered with a holder list (possibly empty). */
  predicate HoldersArrived(world: World) {
    world.holderReply.RpcAnswered? && world.holderReply.value.Some?
  }

  /** The price call answered with at least one item. */
  predicate PricesArrived(world: World) {
    |PriceItems(world.priceReply)| > 0
  }

  /** What a request and its world must bring for the route to answer 200:
      both fields, a holder list, a non-empty price list, and a report
      written without error. */
  predicate Succeeds(request: TokenAnalysisRequest, world: World) {
    && Truthy(request.tokenMint) && Truthy(request.heliusApiKey)
    && HoldersArrived(world)
    && PricesArrived(world)
    && world.storage.Stored?
  }

  /** Steps 2 to 5, once the holder list is in hand: the price query, then
      the analysis and its report. A missing or empty price list ends the
      request after the price query with the price failure message. */
  function AfterHolders(tokenMint: string, holders: seq<TokenHolder>, world: World): (h: Handled)
    requires BuyPrices.ValidStream(world.random)
    ensures !h.reply.BadRequest?
    ensures 1 <= |h.effects| <= 2
    ensures h.effects[0] == QueryPrices(tokenMint, Prices.Window(world.priceClockMs).0, Prices.Window(world.priceClockMs).1)
    ensures !PricesArrived(world) ==> h.reply == Failed(Prices.FetchFailedMessage) && |h.effects| == 1
    ensures PricesArrived(world) && world.storage.StorageFailed? ==>
      h.reply == Failed(world.storage.message) && |h.effects| == 2
    ensures h.reply.Analyzed? <==> PricesArrived(world) && world.storage.Stored?
    ensures h.reply.Analyzed? ==>
      && |h.effects| == 2
      && h.effects[1] == WriteReport(Report.Filename(tokenMint, world.reportClockMs),
                                     Report.Csv(h.reply.response.results, world.toFixed))
      && h.reply.response.csvDownloadUrl == Report.DownloadUrl(Report.Filename(tokenMint, world.reportClockMs))
  {
    var window := Prices.Window(world.priceClockMs);
    var priceQuery := QueryPrices(tokenMint, window.0, window.1);
    var prices := Prices.FetchPrices(world.priceReply, world.formatDate);
    assert prices.Err? <==> !PricesArrived(world);
    if prices.Err? then Handled(Failed(prices.message), [priceQuery])
    else
      var published := Publish(tokenMint, Analyze(holders, prices.value, world.random), world);
      Handled(published.reply, [priceQuery, published.effects[0]])
  }

  /** The route after its request check: holders, prices, buy-price
      estimates, per-day aggregation, report. The first failure ends the
      request with nothing but its message. */
  function Pipeline(tokenMint: string, apiKey: string, world: World): (h: Handled)
    requires apiKey != ""
    requires BuyPrices.ValidStream(world.random)
    ensures !h.reply.BadRequest?
    ensures 1 <= |h.effects| <= 3 && h.effects[0] == QueryHolders(tokenMint, apiKey)
    ensures !HoldersArrived(world) ==>
      h == Handled(Failed(Holders.FetchFailedMessage), [QueryHolders(tokenMint, apiKey)])
    ensures HoldersArrived(world) ==>
      |h.effects| >= 2 &&
      h.effects[1] == QueryPrices(tokenMint, Prices.Window(world.priceClockMs).0, Prices.Window(world.priceClockMs).1)
    ensures HoldersArrived(world) && !PricesArrived(world) ==>
      h.reply == Failed(Prices.FetchFailedMessage) && |h.effects| == 2
    ensures HoldersArrived(world) && PricesArrived(world) && world.storage.StorageFailed? ==>
      h.reply == Failed(world.storage.message) && |h.effects| == 3
    ensures h.reply.Analyzed? <==>
      HoldersArrived(world) && PricesArrived(world) && world.storage.Stored?
    ensures h.reply.Analyzed? ==>
      && |h.effects| == 3
      && h.effects[2] == WriteReport(Report.Filename(tokenMint, world.reportClockMs),
                                     Report.Csv(h.reply.response.results, world.toFixed))
      && h.reply.response.csvDownloadUrl == Report.DownloadUrl(Report.Filename(tokenMint, world.reportClockMs))
  {
    var holderQuery := QueryHolders(tokenMint, apiKey);
    var holders := Holders.FetchHolders(apiKey, world.holderReply, world.toNumber);
    assert holders.Err? <==> !HoldersArrived(world);
    if holders.Err? then Handled(Failed(holders.message), [holderQuery])
    else
      var rest := AfterHolders(tokenMint, holders.value, world);
      Handled(rest.reply, [holderQuery] + rest.effects)
  }

  /** The route: a request missing either field is refused with status 400
      before anything is queried; any other request runs the pipeline. */
  function HandleTokenAnalysis(request: TokenAnalysisRequest, world: World): (h: Handled)
    requires BuyPrices.ValidStream(world.random)
    ensures h.reply.BadRequest? <==> !Truthy(request.tokenMint) || !Truthy(request.heliusApiKey)
    ensures h.reply.BadRequest? ==> h.reply.error == MissingFieldMessage && h.effects == []
    ensures !h.reply.BadRequest? ==>
      1 <= |h.effects| <= 3 &&
      h.effects[0] == QueryHolders(request.tokenMint.value, request.heliusApiKey.value)
    ensures !h.reply.BadRequest? && !HoldersArrived(world) ==>
      h.reply == Failed(Holders.FetchFailedMessage) && |h.effects| == 1
    ensures !h.reply.BadRequest? && HoldersArrived(world) ==>
      |h.effects| >= 2 &&
      h.effects[1] == QueryPrices(request.tokenMint.value,
                                  Prices.Window(world.priceClockMs).0, Prices.Window(world.priceClockMs).1)
    ensures !h.reply.BadRequest? && HoldersArrived(world) && !PricesArrived(world) ==>
      h.reply == Failed(Prices.FetchFailedMessage) && |h.effects| == 2
    ensures !h.reply.BadRequest? && HoldersArrived(world) && PricesArrived(world) && world.storage.StorageFailed? ==>
      h.reply == Failed(world.storage.message) && |h.effects| == 3
    ensures h.reply.Analyzed? <==> Succeeds(request, world)
    ensures h.reply.Analyzed? ==>
      && |h.effects| == 3
      && h.effects[2] == WriteReport(Report.Filename(request.tokenMint.value, world.reportClockMs),
                                     Report.Csv(h.reply.response.results, world.toFixed))
      && h.reply.response.csvDownloadUrl ==
           Report.DownloadUrl(Report.Filename(request.tokenMint.value, world.reportClockMs))
  {
    if !Truthy(request.tokenMint) || !Truthy(request.heliusApiKey) then
      Handled(BadRequest(MissingFieldMessage), [])
    else
      Pipeline(request.tokenMint.value, request.heliusApiKey.value, world)
  }

  /** A successful analysis reports the analysis of exactly the holder
      list and the price list the two replies carried. */
  lemma AnalyzedInputs(request: TokenAnalysisRequest, world: World)
    requires BuyPrices.ValidStream(world.random)
    requires Succeeds(request, world)
    ensures HandleTokenAnalysis(request, world).reply.Analyzed?
    ensures Prices.FetchPrices(world.priceReply, world.formatDate).Ok?
    ensures HandleTokenAnalysis(request, world).reply.response.results ==
      Analyze(Holders.Normalize(HolderEntries(world.holderReply), world.toNumber),
              Prices.FetchPrices(world.priceReply, world.formatDate).value, world.random)
  {
  }

  /** The records of a successful analysis: one per price item, in order,
      each valid, with the item's formatted time and price, and the number
      of holder entries as the wallet total. */
  lemma AnalyzedResults(request: TokenAnalysisRequest, world: World)
    requires BuyPrices.ValidStream(world.random)
    requires Succeeds(request, world)
    ensures HandleTokenAnalysis(request, world).reply.Analyzed?
    ensures var results := HandleTokenAnalysis(request, world).reply.response.results;
      var items := PriceItems(world.priceReply);
      && |results| == |items| > 0
      && forall i :: 0 <= i < |results| ==>
           && results[i].Valid()
           && results[i].date == world.formatDate(items[i].unixTime)
           && results[i].price == items[i].value
           && results[i].totalWallets == |HolderEntries(world.holderReply)|
  {
    AnalyzedInputs(request, world);
    var holders := Holders.Normalize(HolderEntries(world.holderReply), world.toNumber);
    var prices := Prices.FetchPrices(world.priceReply, world.formatDate).value;
    var results := Analyze(holders, prices, world.random);
    assert HandleTokenAnalysis(request, world).reply.response.results == results;
    assert PriceItems(world.priceReply) == world.priceReply.items.value;
  }

  /** A failed holder query ends the request before the price query. */
  lemma HolderFailureStopsEarly(request: TokenAnalysisRequest, world: World)
    requires BuyPrices.ValidStream(world.random)
    requires Truthy(request.tokenMint) && Truthy(request.heliusApiKey)
    requires world.holderReply.RpcFailed? || world.holderReply == Holders.RpcAnswered(None)
    ensures HandleTokenAnalysis(request, world) ==
      Handled(Failed(Holders.FetchFailedMessage),
              [QueryHolders(request.tokenMint.value, request.heliusApiKey.value)])
  {
  }

  /** A price query that fails or returns no samples ends the request with
      the price failure after both queries and before any report is
      written. */
  lemma PriceFailureStopsBeforeReport(request: TokenAnalysisRequest, world: World)
    requires BuyPrices.ValidStream(world.random)
    requires Truthy(request.tokenMint) && Truthy(request.heliusApiKey)
    requires HoldersArrived(world)
    requires !PricesArrived(world)
    ensures HandleTokenAnalysis(request, world).reply == Failed(Prices.FetchFailedMessage)
    ensures |HandleTokenAnalysis(request, world).effects| == 2
    ensures HandleTokenAnalysis(request, world).effects[1] ==
      QueryPrices(request.tokenMint.value,
                  Prices.Window(world.priceClockMs).0, Prices.Window(world.priceClockMs).1)
  {
  }

  /** When every holder's estimate lies in [lo, hi) with lo positive, a
      day priced at or below lo has nobody in profit and a day priced at or
      above hi has every holder in profit. */
  lemma {:induction false} BoundedEstimatesExtremes(holders: seq<TokenHolder>, buyPrices: map<string, real>, lo: real, hi: real, day: PriceData)
    requires 0.0 < lo
    requires forall j :: 0 <= j < |holders| ==>
      holders[j].address in buyPrices && lo <= buyPrices[holders[j].address] < hi
    ensures day.price <= lo ==> Profit.CountInProfit(holders, buyPrices, day.price) == 0
    ensures day.price >= hi ==> Profit.CountInProfit(holders, buyPrices, day.price) == |holders|
  {
    var p := day.price;
    if p <= lo {
      forall j | 0 <= j < |holders|
        ensures !Profit.InProfit(holders[j], buyPrices, p)
      {
      }
    }
    if p >= hi {
      forall j | 0 <= j < |holders|
        ensures Profit.InProfit(holders[j], buyPrices, p)
      {
      }
    }
  }

  /** Because every estimate lies in [42.5, 230), a day priced at or below
      42.5 has nobody in profit and a day priced at or above 230 has every
      holder in profit. */
  lemma ProfitExtremes(holders: seq<TokenHolder>, days: seq<PriceData>, random: nat -> real, i: nat)
    requires BuyPrices.ValidStream(random)
    requires i < |days|
    ensures var r := Analyze(holders, days, random)[i];
      && (r.price <= BuyPrices.MinEstimate ==> r.walletsInProfit == 0 && r.percentageInProfit == 0.0)
      && (r.price >= BuyPrices.MaxEstimate ==> r.walletsInProfit == r.totalWallets)
  {
    var buyPrices := BuyPrices.EstimateBuyPrices(holders, random);
    BuyPrices.EveryHolderPriced(holders, random);
    BoundedEstimatesExtremes(holders, buyPrices, BuyPrices.MinEstimate, BuyPrices.MaxEstimate, days[i]);
  }

  /** Every part of a generated report name other than the mint's prefix
      is accepted in a header value, so the whole name is accepted exactly
      when that prefix is. */
  lemma FilenameHeaderSafe(tokenMint: string, nowMs: nat)
    ensures Download.HeaderSafe(Report.Filename(tokenMint, nowMs)) <==>
      Download.HeaderSafe(Prefix(tokenMint, 8))
  {
    var p := Prefix(tokenMint, 8);
    var digits := NatToString(nowMs);
    var f := Report.Filename(tokenMint, nowMs);
    assert f == ((Report.FilePrefix + p) + ("_" + digits)) + Report.FileExtension;
    assert Download.HeaderSafe(Report.FilePrefix);
    assert Download.HeaderSafe(Report.FileExtension);
    assert Download.HeaderSafe(digits) by {
      forall i | 0 <= i < |digits| ensures Download.HeaderChar(digits[i]) {
        assert IsDigit(digits[i]);
      }
    }
    Download.HeaderSafeAppend("_", digits);
    Download.HeaderSafeAppend(Report.FilePrefix, p);
    Download.HeaderSafeAppend(Report.FilePrefix + p, "_" + digits);
    Download.HeaderSafeAppend((Report.FilePrefix + p) + ("_" + digits), Report.FileExtension);
  }

  /** The report link handed back names the file just written, and, while
      that file exists, the download route serves it exactly when the first
      eight characters of the mint contain no `..` and only characters a
      header value accepts. */
  lemma ReportLinkDownloads(request: TokenAnalysisRequest, world: World, existing: set<string>)
    requires BuyPrices.ValidStream(world.random)
    requires Succeeds(request, world)
    requires Report.Filename(request.tokenMint.value, world.reportClockMs) in existing
    ensures var h := HandleTokenAnalysis(request, world);
      && h.reply.Analyzed?
      && var filename := h.reply.response.csvDownloadUrl[|Report.DownloadRoute|..];
      && filename == h.effects[2].filename
      && (Download.HandleDownload(filename, existing).Serve? <==>
            !HasDotDot(Prefix(request.tokenMint.value, 8)) &&
            Download.HeaderSafe(Prefix(request.tokenMint.value, 8)))
  {
    var filename := Report.Filename(request.tokenMint.value, world.reportClockMs);
    Report.FilenameShape(request.tokenMint.value, world.reportClockMs);
    FilenameHeaderSafe(request.tokenMint.value, world.reportClockMs);
    assert filename != "" by {
      assert EndsWith(filename, Report.FileExtension);
    }
    var answer := Download.HandleDownload(filename, existing);
    assert answer.Serve? <==> !HasDotDot(filename) && Download.HeaderSafe(filename);
  }
}

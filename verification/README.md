# Token profitability analysis — Dafny model

This project models the server core of a Solana token profitability tool.

The analysis route takes a token mint and an indexer API key. It:

1. fetches the token's largest holder accounts;
2. fetches a seven-day price history;
3. gives every holder a synthetic, randomly drawn buy price;
4. for every price sample, counts the holders whose buy price is below that sample's price;
5. writes the per-sample figures to a CSV report and returns them with a download link.

The download route serves such a report after checking its file name.

Everything the routes take from outside becomes an input:

- the two upstream replies;
- the `Math.random()` draws, as a stream `random: nat -> real` where holder `i` uses draws `2i` and `2i+1`;
- the two `Date.now()` readings;
- the outcome of writing the report;
- the data directory's contents, as a set of names;
- `Number(...)`, the dayjs date formatting and `Number#toFixed`, as function parameters.

The analysis route returns its reply together with the ordered list of outside effects it performs. These are the holder query, the price query and the report write. Because the effects are part of the result, statements such as "a refused request queries nothing" can be expressed and proved.

Modules, one per file:

- `Wrappers` (wrappers.dfy): the datatypes `Option` and `Result`.
- `Text` (text.dfy): the JavaScript string built-ins the routes use (`endsWith`, `includes`, `slice`, `join`, integer `toString`), each with a reference definition. It also holds `startsWith` and `split`, which the routes do not call; they are used only to state the shape of the generated names and to read a report back for its round trip.
- `Api` (api.dfy): the records of shared/api.ts, plus the invariant `AnalysisResult.Valid`.
- `Holders` (holders.dfy), `Prices` (prices.dfy): the pure parts of the two upstream fetches.
- `BuyPrices` (buy_prices.dfy): the placeholder buy-price estimate.
- `Profit` (profit.dfy): the per-sample aggregation.
- `Report` (report.dfy): the CSV text, the file name and the download URL.
- `Download` (download.dfy): the download route's decision, including the header-value check that setting the attachment header performs.
- `AnalyzeToken` (analyze_token.dfy): the analysis route end to end.

Behaviour of the code worth knowing:

- The route names each price sample `dayPrice` and logs "days of price data" (analyze-token.ts:30,37). The price query nevertheless asks for one sample per minute (`type: "1m"`). The model produces one record per returned sample, whatever the sampling interval.
- `entry.decimals || 9` replaces a reported scale of 0 by 9, not only a missing one.
- The holder fetch's own "key is required" error is modelled (`Holders.FetchHolders`). The route can never reach it, because the route refuses an empty key first.
- The download route sets `Content-Disposition` to a value containing the file name. Node's header-value check throws for a character other than tab, 0x20-0x7E or 0x80-0xFF, and the route's `catch` answers 500. So a report generated for a mint such as `中中中中` exists but cannot be downloaded.

## Model

| member | source | states |
|---|---|---|
| AnalyzeToken.HandleTokenAnalysis | server/routes/analyze-token.ts:14-69 | a request missing `tokenMint` or `heliusApiKey` (absent or empty) gets 400 with the fixed message and performs no query; every other request queries holders first; a missing holder list answers 500 with the holder message after that one query; otherwise the price query for the seven-day window comes second; a missing or empty price list answers 500 with the price message after two effects; a storage failure answers 500 with its own message after three; the answer is 200 exactly when both fields are given, the holder reply carries a list, the price reply carries a non-empty list and the report is stored; a 200 wrote the report under the generated name and links to that same name |
| AnalyzeToken.Pipeline | server/routes/analyze-token.ts:24-64 | after the request check: holders are queried first, at most three effects happen; a missing holder list ends with the holder message after the holder query alone; otherwise the second effect is the price query for the seven-day window; a missing or empty price list ends with the price message after two effects; a storage failure ends with the storage message after three; success happens exactly when both replies carry their lists (prices non-empty) and storage succeeds, and success writes the report it links to |
| AnalyzeToken.Publish | server/routes/analyze-token.ts:57-64 | exactly one write of the CSV under the generated name; a storage failure becomes a 500 with its message; otherwise the response holds the results and the download URL of that name |
| AnalyzeToken.Analyze | server/routes/analyze-token.ts:32-54 | one valid record per price sample, in order, with the sample's date and price and the holder count as total |
| AnalyzeToken.AnalyzedInputs | server/routes/analyze-token.ts:24-57 | when the request and its world meet every success condition, the route answers 200 and its results are the analysis of exactly the holder list and price list the replies carried |
| AnalyzeToken.AnalyzedResults | server/routes/analyze-token.ts:37-54 | on success, one valid record per price item, in order, with the formatted item time and price, and every total equal to the number of holder entries (duplicates included) |
| AnalyzeToken.HolderFailureStopsEarly | server/routes/analyze-token.ts:25-29 | a failed holder call or a reply without the holder list ends the request with the holder failure message; the price query never happens |
| AnalyzeToken.PriceFailureStopsBeforeReport | server/routes/analyze-token.ts:121-122 | a failed, missing or empty price list ends the request with the price failure message after the window query, and nothing is written |
| AnalyzeToken.BoundedEstimatesExtremes | server/routes/analyze-token.ts:39-44 | with every holder's estimate in [lo, hi) and lo positive, a day priced at most lo has nobody in profit and a day priced at least hi has everybody in profit |
| AnalyzeToken.ProfitExtremes | server/routes/analyze-token.ts:134-142 | with the synthetic estimates, a day priced at most 42.5 has 0 wallets and 0 % in profit, and a day priced at least 230 has every wallet in profit |
| AnalyzeToken.ReportLinkDownloads | server/routes/analyze-token.ts:148-163 | the link returned names the file just written, and, while that file exists, the download route serves it exactly when the first eight characters of the mint contain no `..` and only characters a header value accepts |
| Holders.DecimalsOrDefault | server/routes/analyze-token.ts:90 | the scale is never 0: a given non-zero scale is kept, and a missing or zero one becomes 9 |
| Holders.Normalize | server/routes/analyze-token.ts:87-91 | one holder per raw entry, in order, with its address and converted amount, and a non-zero scale |
| Holders.FetchHolders | server/routes/analyze-token.ts:71-96 | an empty key fails with the key-required message; otherwise success happens exactly when the reply carries a holder list (possibly empty), and every failure has the generic holder message |
| Prices.Window | server/routes/analyze-token.ts:100-101 | the window ends at the current whole second (floor of milliseconds / 1000) and spans exactly 604800 seconds |
| Prices.FetchPrices | server/routes/analyze-token.ts:121-127 | success happens exactly when the reply carries a non-empty item list; then there is one sample per item, in order, with the formatted time and the value; otherwise the generic price message |
| BuyPrices.Estimate | server/routes/analyze-token.ts:137-139 | for draws in [0, 1), the estimate lies in [42.5, 230), so it is positive |
| BuyPrices.EstimateBuyPrices | server/routes/analyze-token.ts:134-142 | the map's keys are exactly the holder addresses, and every value lies in [42.5, 230) |
| BuyPrices.LastWriterWins | server/routes/analyze-token.ts:136-140 | an address repeated in the holder list keeps the estimate drawn for its last occurrence |
| BuyPrices.EveryHolderPriced | server/routes/analyze-token.ts:136-141 | every holder's address has a positive, and so truthy, estimate |
| Profit.CountInProfit | server/routes/analyze-token.ts:38-44 | the count is at most the number of holders; it is 0 exactly when no holder passes the test, and it is the holder count exactly when every holder passes |
| Profit.CountMatchesReference | server/routes/analyze-token.ts:38-44 | the counter equals the number of holder positions whose estimate is present, non-zero and strictly below the day's price |
| Profit.CountMonotone | server/routes/analyze-token.ts:40-44 | for a fixed holder list and estimate map, a higher day price never gives fewer wallets in profit |
| Profit.Percentage | server/routes/analyze-token.ts:46 | the percentage lies in [0, 100]; it is 0 without wallets, and otherwise it is in-profit × 100 / total |
| Profit.PercentageMonotone | server/routes/analyze-token.ts:46 | more wallets in profit out of the same total never give a lower percentage |
| Profit.DayResult | server/routes/analyze-token.ts:38-53 | the record keeps the sample's date and price, has the holder count as total, is valid, and reports 0 or all wallets exactly when no holder or every holder passes the test |
| Profit.Aggregate | server/routes/analyze-token.ts:37-54 | one valid record per sample, in sample order, with date and price copied and the same total in every record |
| Profit.AggregateCounts | server/routes/analyze-token.ts:37-45 | each record's in-profit count is the number of holder positions passing the test on that record's day |
| Profit.AggregateMonotone | server/routes/analyze-token.ts:37-54 | within one aggregation, a day priced at least as high has at least as many wallets in profit and at least as high a percentage |
| Report.HeaderIsJoinedFields | server/routes/analyze-token.ts:152 | joining the five column titles with commas gives exactly `Date,Price ($),Wallets in Profit,Total Wallets,% In Profit` |
| Report.HeaderRoundTrip | server/routes/analyze-token.ts:152 | the header line splits back into the five column titles |
| Report.Lines | server/routes/analyze-token.ts:151-160 | the report has one line more than there are results; line 0 is the header, and line i+1 is result i's row |
| Report.CsvShape | server/routes/analyze-token.ts:151-160 | the report starts with the header, is only the header without results, and otherwise ends with the last result's row, so there is no trailing newline |
| Report.RowRoundTrip | server/routes/analyze-token.ts:153-159 | a row splits back into its five cells: date, price to 4 places, the two counts, percentage to 2 places |
| Report.RowsRoundTrip | server/routes/analyze-token.ts:153-159 | every row line of a report splits back into the cells of its result |
| Report.CsvLines | server/routes/analyze-token.ts:160 | splitting a report at newlines gives back exactly its header and rows |
| Report.CsvRoundTrip | server/routes/analyze-token.ts:151-160 | parsing a report gives \|results\|+1 lines, the column titles first, then each result's five cells in result order |
| Report.CountsRoundTrip | server/routes/analyze-token.ts:156-157 | the two count cells are plain digits that read back as the counts |
| Report.FilenameShape | server/routes/analyze-token.ts:148 | the generated name starts with `token_profit_` and ends with `.csv`, and contains `..` exactly when the mint's 8-character prefix does |
| Report.FilenamesDistinctByTime | server/routes/analyze-token.ts:148 | for one mint, different clock readings give different file names |
| Report.DownloadUrl | server/routes/analyze-token.ts:163 | the URL is `/api/download/` followed by exactly the file name |
| Download.HandleDownload | server/routes/download.ts:5-36 | an empty name gets 400 "Filename is required"; a name that lacks `.csv` or has `..` gets 400 "Invalid filename"; an acceptable but absent name gets 404; an existing name with a character a header value refuses gets 500 with the header error's message; the file is served, with the CSV content type and an attachment header naming it, exactly when the name is non-empty, ends in `.csv`, has no `..`, exists and is accepted in a header value, and then every header value is accepted |
| AnalyzeToken.AfterHolders | server/routes/analyze-token.ts:29-64 | once holders are in hand: the price query for the seven-day window comes first; a missing or empty price list ends with the price message after it alone; a storage failure ends with the storage message; success happens exactly when prices arrived and storage succeeded, and then writes the report it links to |
| AnalyzeToken.FilenameHeaderSafe | server/routes/analyze-token.ts:148 | a generated report name is accepted in a header value exactly when the mint's 8-character prefix is |
| Download.HeaderSafeAppend | server/routes/download.ts:27 | a concatenation is accepted in a header value exactly when both halves are |
| Download.FirstRefused | server/routes/download.ts:27 | the scan stops at the first character a header value refuses, every character before it is accepted, and it reaches the end exactly for an accepted value |
| Download.RejectionIgnoresDirectory | server/routes/download.ts:9-16 | a name refused with 400 gets the same answer whatever the data directory holds |
| Download.TraversalRefused | server/routes/download.ts:14-16 | a name starting with `../` is refused with "Invalid filename" even when such a file exists |
| Text.ContainsDotDot | server/routes/download.ts:14 | the `includes("..")` scan is true exactly when the name has two adjacent dots |
| Text.Prefix | server/routes/analyze-token.ts:148 | `slice(0, 8)` gives the first min(8, length) characters of the mint |
| Text.NatToString | server/routes/analyze-token.ts:148 | an integer prints as a non-empty run of digits with no leading zero, and "0" for zero |
| Text.ParseNatToString | server/routes/analyze-token.ts:156-157 | reading a printed integer back gives the integer |
| Text.NatToStringInjective | server/routes/analyze-token.ts:148 | different integers print differently |
| Text.SplitJoin | server/routes/analyze-token.ts:151-160 | splitting a joined list of separator-free parts gives back the parts |

## Left out

- Network I/O: the axios calls, their request bodies and headers, and the static market-data key are not modelled. Each upstream reply is an input. The outside effects record only the mint, the key and the time window.
- Reply parsing beyond the shape checks: entries or items with missing or ill-typed fields, and a `null` entry (which the source turns into the generic holder failure through its catch), are not modelled. Raw entries and items are well-formed records.
- File system: creating the data directory and writing the report are one input outcome. Existence is membership of the name in a set, so `path.join` normalisation is not modelled. Streaming the file is left out. An error while reading it arrives after the handler has returned, outside its `try`, so no 500 answers it; the model does not describe that case.
- Clock, date formatting and number formatting: `Date.now()`, dayjs formatting, `Number(...)` and `toFixed` are inputs or function parameters. The CSV round trip assumes they never emit a comma or a newline.
- `Math.random()` itself: the draws are a stream of inputs in [0, 1).
- Express routing: a mint whose first eight characters contain `/` yields a link the download route would not match. URL decoding of the file name parameter is also not modelled.
- Logging, the UI pages, and the Express server wiring.
- Download.HandleDownload: the 500 message is the text Node gives its invalid-header-character error for this header. The exact wording belongs to the runtime, not to the route.
- Profit.Percentage: exact real arithmetic, without IEEE double rounding, so `percentageInProfit * total == 100 * walletsInProfit` holds exactly here and only approximately in the source.
- BuyPrices.Estimate: exact real arithmetic; the bounds [42.5, 230) are the exact-arithmetic bounds, and double rounding at the edges is not modelled.
- Holders.Normalize: `Number(...)` can produce NaN, which a `real` cannot represent.
- Text.Prefix: JavaScript slices UTF-16 code units; the model slices Dafny characters.
- AnalyzeToken.HandleTokenAnalysis: request fields are absent or strings. Other JSON types, and a thrown non-`Error` value (the "Unknown error" message), are not modelled.

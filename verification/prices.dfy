/** The price-history query (`getPriceHistory` in
    server/routes/analyze-token.ts): the clock reading and the market-data
    reply are inputs; what remains is the seven-day window, the shape check
    on the reply and the conversion of each item into a `PriceData`. */
module Prices {
  import opened Wrappers
  import opened Api

  /** One item of the market-data reply: a Unix time in seconds and a price. */
  datatype RawPriceItem = RawPriceItem(unixTime: int, value: real)

  /** What came back from the market-data service: the call failed, or it
      answered with a payload whose `data.items` list may be missing. */
  datatype PriceReply = PriceFailed | PriceAnswered(items: Option<seq<RawPriceItem>>)

  const FetchFailedMessage: string := "Failed to fetch price data"

  /** Seconds in the seven-day lookback. */
  const LookbackSeconds: int := 7 * 24 * 60 * 60

  /** The query window `(time_from, time_to)` for a clock reading in
      milliseconds: it ends at the current whole second and starts seven
      days earlier. */
  function Window(nowMs: int): (w: (int, int))
    ensures w.1 - w.0 == 604800
    ensures w.1 * 1000 <= nowMs < w.1 * 1000 + 1000
  {
    var endTime := nowMs / 1000;
    (endTime - LookbackSeconds, endTime)
  }

  /** The price step: a failed call, a missing list or an empty list is the
      one generic failure message; otherwise one sample per item, in order,
      with the date rendered by `formatDate` (the source's
      `YYYY-MM-DD HH:mm` formatting of the Unix time). */
  function FetchPrices(reply: PriceReply, formatDate: int -> string): (r: Result<seq<PriceData>>)
    ensures r.Ok? <==> reply.PriceAnswered? && reply.items.Some? && |reply.items.value| > 0
    ensures r.Err? ==> r.message == FetchFailedMessage
    ensures r.Ok? ==>
      && |r.value| == |reply.items.value| > 0
      && forall i :: 0 <= i < |r.value| ==>
           r.value[i] == PriceData(formatDate(reply.items.value[i].unixTime), reply.items.value[i].value)
  {
    match reply
    case PriceFailed => Err(FetchFailedMessage)
    case PriceAnswered(None) => Err(FetchFailedMessage)
    case PriceAnswered(Some(items)) =>
      if |items| == 0 then Err(FetchFailedMessage)
      else Ok(seq(|items|, i requires 0 <= i < |items| =>
        PriceData(formatDate(items[i].unixTime), items[i].value)))
  }
}

/** The holder query (`getTokenHoldersFromSolana` in
    server/routes/analyze-token.ts): the remote call's outcome is an input,
    and what remains is the credential check, the shape check on the reply
    and the conversion of each raw entry into a `TokenHolder`. */
module Holders {
  import opened Wrappers
  import opened Api

  /** One entry of the indexer's largest-accounts reply. `amount` is the raw
      text the indexer sends; `decimals` is absent when the reply omits it. */
  datatype RawHolder = RawHolder(address: string, amount: string, decimals: Option<int>)

  /** What came back from the indexer: the call failed outright, or it
      answered with a payload whose `result.value` list may be missing. */
  datatype RpcReply = RpcFailed | RpcAnswered(value: Option<seq<RawHolder>>)

  const KeyRequiredMessage: string := "Helius API key is required for Solana RPC requests."
  const FetchFailedMessage: string := "Failed to fetch holders from Solana RPC"

  /** `entry.decimals || 9`: a missing or zero scale becomes 9. */
  function DecimalsOrDefault(d: Option<int>): (r: int)
    ensures r != 0
    ensures d.Some? && d.value != 0 ==> r == d.value
    ensures r == 9 <==> d.None? || d.value == 0 || d.value == 9
  {
    match d
    case Some(v) => if v != 0 then v else 9
    case None => 9
  }

  /** Converts each raw entry, in order; `toNumber` stands for JavaScript's
      `Number(...)` applied to the amount text. */
  function Normalize(entries: seq<RawHolder>, toNumber: string -> real): (hs: seq<TokenHolder>)
    ensures |hs| == |entries|
    ensures forall i :: 0 <= i < |entries| ==>
      && hs[i].address == entries[i].address
      && hs[i].amount == toNumber(entries[i].amount)
      && hs[i].decimals == DecimalsOrDefault(entries[i].decimals)
    ensures forall i :: 0 <= i < |hs| ==> hs[i].decimals != 0
  {
    seq(|entries|, i requires 0 <= i < |entries| =>
      TokenHolder(entries[i].address, toNumber(entries[i].amount), DecimalsOrDefault(entries[i].decimals)))
  }

  /** The holder step: an empty key is refused before any call; a failed
      call or a reply without the holder list becomes the one generic
      failure message; otherwise the converted list, which may be empty. */
  function FetchHolders(heliusApiKey: string, reply: RpcReply, toNumber: string -> real): (r: Result<seq<TokenHolder>>)
    ensures heliusApiKey == "" ==> r == Err(KeyRequiredMessage)
    ensures heliusApiKey != "" ==>
      (r.Ok? <==> reply.RpcAnswered? && reply.value.Some?)
    ensures heliusApiKey != "" && r.Err? ==> r.message == FetchFailedMessage
    ensures r.Ok? ==> r.value == Normalize(reply.value.value, toNumber)
  {
    if heliusApiKey == "" then Err(KeyRequiredMessage)
    else match reply
      case RpcFailed => Err(FetchFailedMessage)
      case RpcAnswered(None) => Err(FetchFailedMessage)
      case RpcAnswered(Some(entries)) => Ok(Normalize(entries, toNumber))
  }
}

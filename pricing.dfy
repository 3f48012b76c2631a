/**
 * The price oracle `getCurrentPrice`, without its network call: the feed's answer
 * is an input, and what remains is which field of the answer is used and the
 * fallback when there is no usable answer.
 */
module Pricing {
  import opened Wrappers

  /** The price used when nothing better is known. */
  const DefaultPrice: real := 100.0

  /** Last-known prices used when the feed cannot be reached. */
  const MockPrices: map<string, real> := map[
    "AAPL" := 150.25,
    "GOOGL" := 2750.80,
    "TSLA" := 245.60,
    "MSFT" := 305.15,
    "AMZN" := 3400.25,
    "META" := 325.75,
    "NFLX" := 415.50,
    "NVDA" := 225.30]

  /** `mockPrices[symbol] || 100`: always a usable positive price. */
  function FallbackPrice(symbol: string): (p: real)
    ensures p > 0.0
    ensures symbol in MockPrices ==> p == MockPrices[symbol]
    ensures symbol !in MockPrices ==> p == DefaultPrice
  {
    if symbol in MockPrices && MockPrices[symbol] != 0.0 then MockPrices[symbol] else DefaultPrice
  }

  /**
   * What the HTTP request produced: it failed (network error, timeout, error status),
   * or it returned a body whose `price`, `currentPrice` and `data.price` fields may
   * be absent.
   */
  datatype FeedReply = Unreachable | Body(price: Option<real>, currentPrice: Option<real>, nestedPrice: Option<real>)

  /** A field is used only when it is present and truthy (a price of 0 is skipped). */
  predicate Usable(f: Option<real>) {
    f.Some? && f.value != 0.0
  }

  /** The usable prices of a reply, in the order the code tries them. */
  function Offered(reply: FeedReply): seq<real> {
    match reply
    case Unreachable => []
    case Body(a, b, c) =>
      (if Usable(a) then [a.value] else []) + (if Usable(b) then [b.value] else []) + (if Usable(c) then [c.value] else [])
  }

  /**
   * `getCurrentPrice`: the first usable field of a body; a body with none gives the
   * fixed 100 (not the table); only a failed request consults the table. The caller
   * always gets a price, and it is positive whenever every price the feed offers is.
   */
  function CurrentPrice(symbol: string, reply: FeedReply): (p: real)
    ensures Offered(reply) != [] ==> p == Offered(reply)[0]
    ensures reply.Body? && Offered(reply) == [] ==> p == DefaultPrice
    ensures reply.Unreachable? ==> p == FallbackPrice(symbol)
    ensures (forall i :: 0 <= i < |Offered(reply)| ==> Offered(reply)[i] > 0.0) ==> p > 0.0
  {
    match reply
    case Unreachable => FallbackPrice(symbol)
    case Body(a, b, c) =>
      if Usable(a) then a.value
      else if Usable(b) then b.value
      else if Usable(c) then c.value
      else DefaultPrice
  }

  /** With the feed down, the oracle answers the same table price every time. */
  lemma FallbackDeterministic()
    ensures CurrentPrice("AAPL", Unreachable) == 150.25
    ensures CurrentPrice("NVDA", Unreachable) == 225.30
    ensures CurrentPrice("IBM", Unreachable) == DefaultPrice
  {
    assert "IBM" !in MockPrices;
  }
}

/** The placeholder buy-price estimate (`estimateBuyPrices` in
    server/routes/analyze-token.ts). The source draws two uniform numbers in
    [0, 1) per holder from `Math.random()`; here the draws are a stream
    `random` handed in, holder `i` consuming `random(2 * i)` for the base and
    `random(2 * i + 1)` for the variation. */
module BuyPrices {
  import opened Api

  /** A draw `Math.random()` can return. */
  predicate IsDraw(u: real) {
    0.0 <= u < 1.0
  }

  /** A stream of draws, all in range. */
  ghost predicate ValidStream(random: nat -> real) {
    forall n: nat :: IsDraw(random(n))
  }

  const MinEstimate: real := 42.5
  const MaxEstimate: real := 230.0

  /** `base * (1 + variation)` with `base = 50 + u1 * 150` in [50, 200) and
      `variation = (u2 - 0.5) * 0.3` in [-0.15, 0.15). */
  function Estimate(u1: real, u2: real): (p: real)
    requires IsDraw(u1) && IsDraw(u2)
    ensures MinEstimate <= p < MaxEstimate
  {
    var base := 50.0 + u1 * 150.0;
    var variation := (u2 - 0.5) * 0.3;
    var factor := 1.0 + variation;
    ProductBounds(base, factor);
    base * factor
  }

  /** Multiplying two positive quantities in half-open ranges. */
  lemma ProductBounds(a: real, b: real)
    requires 50.0 <= a < 200.0
    requires 0.85 <= b < 1.15
    ensures 42.5 <= a * b < 230.0
  {
    assert a * b >= 50.0 * b;
    assert a * b < 200.0 * b;
  }

  /** The addresses of a holder list. */
  function Addresses(holders: seq<TokenHolder>): set<string> {
    set i | 0 <= i < |holders| :: holders[i].address
  }

  /** The map built by visiting the holders in order and setting each
      address to a fresh estimate, so a repeated address keeps the estimate
      of its last occurrence. */
  function EstimateBuyPrices(holders: seq<TokenHolder>, random: nat -> real): (m: map<string, real>)
    requires ValidStream(random)
    ensures m.Keys == Addresses(holders)
    ensures forall a :: a in m ==> MinEstimate <= m[a] < MaxEstimate
    decreases |holders|
  {
    if |holders| == 0 then map[]
    else
      var n := |holders| - 1;
      var earlier := EstimateBuyPrices(holders[..n], random);
      assert Addresses(holders) == Addresses(holders[..n]) + {holders[n].address} by {
        forall i | 0 <= i < n ensures holders[..n][i] == holders[i] {}
      }
      earlier[holders[n].address := Estimate(random(2 * n), random(2 * n + 1))]
  }

  /** Which estimate an address ends up with: the one drawn for the last
      holder carrying that address. */
  lemma {:induction false} LastWriterWins(holders: seq<TokenHolder>, random: nat -> real, i: nat)
    requires ValidStream(random)
    requires i < |holders|
    requires forall j :: i < j < |holders| ==> holders[j].address != holders[i].address
    ensures EstimateBuyPrices(holders, random)[holders[i].address] ==
      Estimate(random(2 * i), random(2 * i + 1))
    decreases |holders|
  {
    var n := |holders| - 1;
    if i < n {
      LastWriterWins(holders[..n], random, i);
    }
  }

  /** Every holder gets a positive estimate, so the source's truthiness test
      on the estimate never rejects one. */
  lemma EveryHolderPriced(holders: seq<TokenHolder>, random: nat -> real)
    requires ValidStream(random)
    ensures forall i :: 0 <= i < |holders| ==>
      holders[i].address in EstimateBuyPrices(holders, random) &&
      EstimateBuyPrices(holders, random)[holders[i].address] > 0.0
  {
    var m := EstimateBuyPrices(holders, random);
    forall i | 0 <= i < |holders|
      ensures holders[i].address in m && m[holders[i].address] > 0.0
    {
      assert holders[i].address in Addresses(holders);
    }
  }
}

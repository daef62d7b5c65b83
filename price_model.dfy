/**
 * The deterministic part of one price step of one asset: the random draws
 * come in as parameters, after which the step is straight-line arithmetic
 * (minimum movement, crypto noise, class clamp, multiplication, rounding,
 * floor at MinPrice, daily change).
 */
module PriceModel {
  import opened Catalog
  import opened Arith

  /**
   * The draws one asset consumes in one step: a standard-normal value `z`
   * (the Box-Muller output), the uniform [0,1) value used when the minimum
   * movement is forced, and the uniform [0,1) value of the crypto noise.
   */
  datatype Draw = Draw(z: real, minMoveU: real, noiseU: real)

  /** randomPriceChange, given its standard-normal draw `z`. */
  function RandomPriceChange(volatility: real, factor: real, z: real): real
  {
    z * (volatility * factor)
  }

  /** Base volatility of the class-wide sentiment draw. */
  function SentimentVolatility(c: AssetClass): real
  {
    match c
    case Stock => 0.01
    case Commodity => 0.005
    case Crypto => 0.02
  }

  /** The market sentiment shared by every asset of class `c` in one step. */
  function Sentiment(c: AssetClass, factor: real, z: real): real
  {
    RandomPriceChange(SentimentVolatility(c), factor, z)
  }

  /** The minimum movement `volatility * (0.3 * factor)` a step must show. */
  function MinMoveThreshold(volatility: real, factor: real): real
  {
    volatility * (0.3 * factor)
  }

  /**
   * Minimum-movement enforcement with threshold t: a candidate change of
   * magnitude below t is replaced by t * (0.5 + u); a positive candidate
   * stays positive, a zero or negative one becomes negative.
   */
  function EnforceMinMove(change: real, t: real, u: real): (r: real)
    ensures Abs(change) >= t ==> r == change
    ensures Abs(change) < t && 0.0 <= u ==>
      && (r > 0.0 <==> change > 0.0)
      && r != 0.0
      && Abs(r) == t * (0.5 + u)
  {
    if Abs(change) < t then
      assert 0.0 <= u ==> t * (0.5 + u) > 0.0 by {
        if 0.0 <= u {
          MulPositive(t, 0.5 + u);
        }
      }
      if change > 0.0 then t * (0.5 + u) else -(t * (0.5 + u))
    else
      change
  }

  /**
   * Whatever the candidate, the enforced change moves by at least half of
   * the threshold and, when replaced, by less than one and a half times it.
   */
  lemma MinMoveMagnitude(change: real, t: real, u: real)
    requires t >= 0.0 && 0.0 <= u < 1.0
    ensures Abs(EnforceMinMove(change, t, u)) >= 0.5 * t
    ensures Abs(change) < t ==> Abs(EnforceMinMove(change, t, u)) < 1.5 * t
  {
    if Abs(change) < t {
      ForcedBand(Abs(EnforceMinMove(change, t, u)), t, u);
    }
  }

  /** A value t * (0.5 + u) with u in [0, 1) lies in [t/2, 3t/2). */
  lemma ForcedBand(a: real, t: real, u: real)
    requires t > 0.0 && 0.0 <= u < 1.0 && a == t * (0.5 + u)
    ensures 0.5 * t <= a < 1.5 * t
  {
    MulNonNegative(t, u);
    MulBelow(t, u);
  }

  /** The class cap on one step's change: 5%, 3%, or twice the volatility, times the factor. */
  function MaxMove(c: AssetClass, volatility: real, factor: real): real
  {
    match c
    case Stock => 0.05 * factor
    case Commodity => 0.03 * factor
    case Crypto => volatility * 2.0 * factor
  }

  /** The cap is non-negative for the non-negative volatilities and factors of the tables. */
  lemma MaxMoveNonNegative(c: AssetClass, volatility: real, factor: real)
    requires volatility >= 0.0 && factor >= 0.0
    ensures MaxMove(c, volatility, factor) >= 0.0
  {
    if c == Crypto {
      assert volatility * 2.0 >= 0.0;
    }
  }

  /** Clamp the change into [-bound, bound]. */
  function Clamp(change: real, bound: real): (r: real)
    ensures bound >= 0.0 ==> -bound <= r <= bound
    ensures -bound <= change <= bound ==> r == change
    ensures change > bound ==> r == bound
    ensures bound >= 0.0 && change < -bound ==> r == -bound
  {
    if change > bound then bound
    else if change < -bound then -bound
    else change
  }

  /** The clamped value is the point of [-bound, bound] nearest to the change. */
  lemma ClampNearest(change: real, bound: real, y: real)
    requires -bound <= y <= bound
    ensures Abs(Clamp(change, bound) - change) <= Abs(y - change)
  {
  }

  /** Clamping twice is clamping once. */
  lemma ClampIdempotent(change: real, bound: real)
    requires bound >= 0.0
    ensures Clamp(Clamp(change, bound), bound) == Clamp(change, bound)
  {
  }

  /** The crypto noise term (u * 0.02 - 0.01) * factor, added before clamping. */
  function CryptoNoise(u: real, factor: real): real
  {
    (u * 0.02 - 0.01) * factor
  }

  /**
   * The fractional change one step applies to an asset of class `c`:
   * its scaled draw plus the class sentiment, minimum movement, the crypto
   * noise, and finally the class clamp.
   */
  function StepChange(c: AssetClass, volatility: real, factor: real, sentiment: real, d: Draw): (r: real)
    ensures volatility >= 0.0 && factor >= 0.0 ==> Abs(r) <= MaxMove(c, volatility, factor)
  {
    var candidate := RandomPriceChange(volatility, factor, d.z) + sentiment;
    var moved := EnforceMinMove(candidate, MinMoveThreshold(volatility, factor), d.minMoveU);
    var noisy := if c == Crypto then moved + CryptoNoise(d.noiseU, factor) else moved;
    assert volatility >= 0.0 && factor >= 0.0 ==> MaxMove(c, volatility, factor) >= 0.0 by {
      if volatility >= 0.0 && factor >= 0.0 {
        MaxMoveNonNegative(c, volatility, factor);
      }
    }
    Clamp(noisy, MaxMove(c, volatility, factor))
  }

  /** The class-specific bounds of one step's change, written out per class. */
  lemma StepChangeBounds(c: AssetClass, volatility: real, factor: real, sentiment: real, d: Draw)
    requires volatility >= 0.0 && factor >= 0.0
    ensures c == Stock ==> -0.05 * factor <= StepChange(c, volatility, factor, sentiment, d) <= 0.05 * factor
    ensures c == Commodity ==> -0.03 * factor <= StepChange(c, volatility, factor, sentiment, d) <= 0.03 * factor
    ensures c == Crypto ==>
      -(2.0 * volatility * factor) <= StepChange(c, volatility, factor, sentiment, d) <= 2.0 * volatility * factor
  {
    assert volatility * 2.0 * factor == 2.0 * volatility * factor;
  }

  /** math.Round: the nearest integer, halves rounded away from zero. */
  function RoundHalfAway(x: real): (n: int)
    ensures -0.5 <= n as real - x <= 0.5
    ensures x >= 0.0 ==> n >= 0
  {
    if x >= 0.0 then (x + 0.5).Floor else -((-x + 0.5).Floor)
  }

  /** Rounding never drops below an integer the value already reaches. */
  lemma RoundHalfAwayAtLeast(x: real, k: int)
    requires x >= k as real
    ensures RoundHalfAway(x) >= k
  {
    if x >= 0.0 {
      assert x + 0.5 >= k as real;
    } else {
      assert -x + 0.5 <= -k as real + 0.5;
      assert (-x + 0.5).Floor <= -k;
    }
  }

  /** math.Round(x*100)/100: x rounded to two decimals. */
  function RoundCents(x: real): (r: real)
    ensures -0.005 <= r - x <= 0.005
  {
    RoundHalfAway(x * 100.0) as real / 100.0
  }

  /** math.Round(x*10000)/10000: x rounded to four decimals. */
  function RoundBasisPoints(x: real): (r: real)
    ensures -0.00005 <= r - x <= 0.00005
  {
    RoundHalfAway(x * 10000.0) as real / 10000.0
  }

  /** Two decimals, or four for a cryptocurrency priced under 1. */
  function RoundPrice(c: AssetClass, p: real): real
  {
    if c == Crypto && p < 1.0 then RoundBasisPoints(p) else RoundCents(p)
  }

  /** Rounding a price that is at least MinPrice keeps it at least MinPrice and moves it by at most half a cent. */
  lemma RoundPriceClose(c: AssetClass, p: real)
    requires p >= MinPrice
    ensures RoundPrice(c, p) >= MinPrice
    ensures Abs(RoundPrice(c, p) - p) <= 0.005
  {
    if c == Crypto && p < 1.0 {
      RoundHalfAwayAtLeast(p * 10000.0, 100);
    } else {
      RoundHalfAwayAtLeast(p * 100.0, 1);
    }
  }

  /** The price an old price reaches under `change`: multiplied, rounded, and floored at MinPrice. */
  function NextPrice(c: AssetClass, oldPrice: real, change: real): (r: real)
    ensures r >= MinPrice
  {
    var rounded := RoundPrice(c, oldPrice * (1.0 + change));
    if rounded < MinPrice then MinPrice else rounded
  }

  /**
   * When the raw product oldPrice * (1 + change) is itself at least MinPrice,
   * the floor does not fire and the new price is within half a cent of it.
   */
  lemma NextPriceClose(c: AssetClass, oldPrice: real, change: real)
    requires oldPrice * (1.0 + change) >= MinPrice
    ensures Abs(NextPrice(c, oldPrice, change) - oldPrice * (1.0 + change)) <= 0.005
  {
    RoundPriceClose(c, oldPrice * (1.0 + change));
  }

  /** The entry after `change` is applied: new price NextPrice, daily change against the old price. */
  function ApplyChange(c: AssetClass, q: Quote, change: real): (r: Quote)
    requires q.price > 0.0
    ensures r.name == q.name && r.volatility == q.volatility
    ensures r.price == NextPrice(c, q.price, change)
    ensures DailyChangeFrom(q, r)
  {
    Repriced(q, NextPrice(c, q.price, change))
  }

  /** The daily change of `r` is its move from the old entry's price, relative to that price. */
  predicate DailyChangeFrom(q: Quote, r: Quote)
  {
    r.dailyChange * q.price == r.price - q.price
  }

  /** The entry at its new price, with the daily change measured against the old one. */
  function Repriced(q: Quote, newPrice: real): (r: Quote)
    requires q.price > 0.0
    ensures r.name == q.name && r.volatility == q.volatility && r.price == newPrice
    ensures r.dailyChange * q.price == newPrice - q.price
  {
    var dc := (newPrice - q.price) / q.price;
    DivMul(newPrice - q.price, q.price);
    q.(price := newPrice, dailyChange := dc)
  }

  /**
   * A change bounded by m moves the price by at most m times the old price,
   * plus half a cent of rounding, whenever the move cannot reach the floor.
   */
  lemma NextPriceBounded(c: AssetClass, oldPrice: real, change: real, m: real)
    requires oldPrice > 0.0 && -m <= change <= m
    requires oldPrice * (1.0 - m) >= MinPrice
    ensures Abs(NextPrice(c, oldPrice, change) - oldPrice) <= oldPrice * m + 0.005
  {
    ScaledBand(oldPrice, change, m);
    NextPriceClose(c, oldPrice, change);
    Triangle(NextPrice(c, oldPrice, change), oldPrice * (1.0 + change), oldPrice, 0.005, oldPrice * m);
  }

  /** p * (1 + x) with |x| <= m lies within p * m of p, and not below p * (1 - m). */
  lemma ScaledBand(p: real, x: real, m: real)
    requires p > 0.0 && -m <= x <= m
    ensures p * (1.0 + x) >= p * (1.0 - m)
    ensures p * (1.0 - m) >= MinPrice ==> p * (1.0 + x) >= MinPrice
    ensures Abs(p * (1.0 + x) - p) <= p * m
  {
    assert p * (1.0 + x) - p == p * x;
    assert p * (1.0 + x) - p * (1.0 - m) == p * (x + m);
    MulNonNegative(p, x + m);
    MulNonNegative(p, m - x);
    assert p * m - p * x == p * (m - x);
    assert p * m + p * x == p * (m + x);
  }

  /**
   * One step of one catalog entry. The old price must be nonzero for the
   * daily change, which a floored catalog guarantees.
   */
  function StepQuote(c: AssetClass, factor: real, sentiment: real, q: Quote, d: Draw): (r: Quote)
    requires q.price > 0.0
    ensures r.name == q.name && r.volatility == q.volatility
    ensures r.price == NextPrice(c, q.price, StepChange(c, q.volatility, factor, sentiment, d)) && r.price >= MinPrice
    ensures DailyChangeFrom(q, r)
  {
    ApplyChange(c, q, StepChange(c, q.volatility, factor, sentiment, d))
  }

  /**
   * One step moves a price by at most its class cap times the old price,
   * plus half a cent of rounding, whenever a move of the full cap could not
   * reach the floor.
   */
  lemma StepQuoteBounded(c: AssetClass, factor: real, sentiment: real, q: Quote, d: Draw)
    requires q.price > 0.0 && q.volatility >= 0.0 && factor >= 0.0
    requires q.price * (1.0 - MaxMove(c, q.volatility, factor)) >= MinPrice
    ensures Abs(StepQuote(c, factor, sentiment, q, d).price - q.price) <= q.price * MaxMove(c, q.volatility, factor) + 0.005
  {
    MovedWithin(c, q.price, StepChange(c, q.volatility, factor, sentiment, d), MaxMove(c, q.volatility, factor),
      StepQuote(c, factor, sentiment, q, d).price);
  }

  /**
   * NextPriceBounded with the bound on the change as `Abs` and the new price
   * passed in, so that a caller's facts match these requires as they stand.
   */
  lemma MovedWithin(c: AssetClass, p: real, change: real, m: real, next: real)
    requires p > 0.0 && Abs(change) <= m && p * (1.0 - m) >= MinPrice
    requires next == NextPrice(c, p, change)
    ensures Abs(next - p) <= p * m + 0.005
  {
    NextPriceBounded(c, p, change, m);
  }

  /** One step of a whole class list, each entry with its own draw. */
  function StepAll(c: AssetClass, factor: real, sentiment: real, qs: seq<Quote>, ds: seq<Draw>): (r: seq<Quote>)
    requires Floored(qs) && |ds| == |qs|
    ensures |r| == |qs| && Floored(r)
    ensures forall i :: 0 <= i < |r| ==> r[i].name == qs[i].name
  {
    if qs == [] then []
    else [StepQuote(c, factor, sentiment, qs[0], ds[0])] + StepAll(c, factor, sentiment, qs[1..], ds[1..])
  }

  /** Entry i of a stepped list is entry i stepped with draw i. */
  lemma {:induction false} StepAllAt(c: AssetClass, factor: real, sentiment: real, qs: seq<Quote>, ds: seq<Draw>, i: nat)
    requires Floored(qs) && |ds| == |qs| && i < |qs|
    ensures StepAll(c, factor, sentiment, qs, ds)[i] == StepQuote(c, factor, sentiment, qs[i], ds[i])
  {
    if i > 0 {
      StepAllAt(c, factor, sentiment, qs[1..], ds[1..], i - 1);
    }
  }
}

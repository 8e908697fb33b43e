/** Prices over the 96 quarters of a day: what energy costs, and when to use it. */
module LoadWindow {
  import opened Numbers
  import opened Wrappers
  import opened Averages
  import R = Resampling

  const BUCKETS := 96
  const WINDOW := 6

  // ---------------------------------------------------------------- the price of a bucket

  /** The index of the price that holds in a bucket. */
  function BucketIndex(b: nat, n: nat): (i: nat)
    requires b < BUCKETS && 0 < n
    ensures i < n
  {
    var i := b * n / BUCKETS;
    if i >= n then n - 1 else i
  }

  function SpotAt(prices: seq<real>, b: nat): real
    requires b < BUCKETS
  {
    if prices == [] then 0.0
    else if |prices| == 24 then prices[b / 4]
    else prices[BucketIndex(b, |prices|)]
  }

  /** The branch for hourly prices reads what the general rule would, and the cut-off is never needed. */
  lemma SpotAtIsQuotient(prices: seq<real>, b: nat)
    requires b < BUCKETS && prices != []
    ensures b * |prices| / BUCKETS < |prices|
    ensures SpotAt(prices, b) == prices[b * |prices| / BUCKETS]
  {
    R.MulLess(b, BUCKETS, |prices|);
    R.DivLess(b * |prices|, BUCKETS, |prices|);
  }

  function Curve(prices: seq<real>): (c: seq<real>)
    ensures |c| == BUCKETS && forall b :: 0 <= b < BUCKETS ==> c[b] == SpotAt(prices, b)
  {
    seq(BUCKETS, b requires 0 <= b < BUCKETS => SpotAt(prices, b))
  }

  /** When the number of prices divides 96, the curve has the average of the prices. */
  lemma CurveKeepsAverage(prices: seq<real>)
    requires prices != [] && BUCKETS % |prices| == 0
    ensures Average(Curve(prices)) == Average(prices)
  {
    var n := |prices|;
    assert n <= BUCKETS;
    forall b | 0 <= b < BUCKETS
      ensures Curve(prices)[b] == R.Picked(prices, BUCKETS)[b]
    {
      SpotAtIsQuotient(prices, b);
      R.IndexInRange(b, n, BUCKETS);
    }
    assert Curve(prices) == R.Picked(prices, BUCKETS);
    R.ResamplingKeepsMean(prices, BUCKETS);
    AverageIsMean(Curve(prices), Average(prices));
  }

  // ---------------------------------------------------------------- costs

  /** Energy times price, over the buckets. */
  function Cost(energy: seq<real>, curve: seq<real>): real
    requires |energy| == |curve|
  {
    if energy == [] then 0.0
    else Cost(energy[..|energy| - 1], curve[..|curve| - 1]) + energy[|energy| - 1] * curve[|curve| - 1]
  }

  lemma CostNext(energy: seq<real>, curve: seq<real>, b: nat)
    requires |energy| == |curve| && b < |energy|
    ensures Cost(energy[..b + 1], curve[..b + 1]) == Cost(energy[..b], curve[..b]) + energy[b] * curve[b]
  {
    assert energy[..b + 1][..b] == energy[..b] && curve[..b + 1][..b] == curve[..b];
  }

  lemma ProductBounds(e: real, p: real, lo: real, hi: real)
    requires e >= 0.0 && lo <= p <= hi
    ensures lo * e <= e * p <= hi * e
  {
  }

  /** The cost is the sum of the costs of the buckets. */
  lemma {:induction false} CostIsSum(energy: seq<real>, curve: seq<real>, costs: seq<real>)
    requires |energy| == |curve| == |costs| && forall b :: 0 <= b < |energy| ==> costs[b] == energy[b] * curve[b]
    ensures Cost(energy, curve) == Sum(costs)
  {
    if energy != [] {
      var n := |energy| - 1;
      CostIsSum(energy[..n], curve[..n], costs[..n]);
    }
  }

  function AllAt(energy: seq<real>, price: real): (s: seq<real>)
    ensures |s| == |energy| && forall b :: 0 <= b < |s| ==> s[b] == price * energy[b]
  {
    seq(|energy|, b requires 0 <= b < |energy| => price * energy[b])
  }

  /** With no negative energy the cost lies between the cheapest and the dearest price for all of it. */
  lemma {:induction false} CostBounds(energy: seq<real>, curve: seq<real>, lo: real, hi: real)
    requires |energy| == |curve|
    requires forall b :: 0 <= b < |energy| ==> energy[b] >= 0.0 && lo <= curve[b] <= hi
    ensures lo * Sum(energy) <= Cost(energy, curve) <= hi * Sum(energy)
  {
    var costs := seq(|energy|, b requires 0 <= b < |energy| => energy[b] * curve[b]);
    forall b | 0 <= b < |energy|
      ensures AllAt(energy, lo)[b] <= costs[b] <= AllAt(energy, hi)[b]
    {
      ProductBounds(energy[b], curve[b], lo, hi);
    }
    CostIsSum(energy, curve, costs);
    SumMonotone(AllAt(energy, lo), costs);
    SumMonotone(costs, AllAt(energy, hi));
    SumScale(energy, AllAt(energy, lo), lo);
    SumScale(energy, AllAt(energy, hi), hi);
  }

  /** Every price of the curve is one of the prices. */
  lemma CurveTakesPrices(prices: seq<real>, b: nat)
    requires prices != [] && b < BUCKETS
    ensures Curve(prices)[b] in prices
  {
    SpotAtIsQuotient(prices, b);
  }

  predicate Cheapest(prices: seq<real>, price: real) {
    price in prices && forall i :: 0 <= i < |prices| ==> price <= prices[i]
  }

  predicate Dearest(prices: seq<real>, price: real) {
    price in prices && forall i :: 0 <= i < |prices| ==> prices[i] <= price
  }

  /** What the day costs lies between all its energy at the cheapest price and all of it at the dearest. */
  lemma {:induction false} DayCostBounds(energy: seq<real>, prices: seq<real>, lo: real, hi: real)
    requires |energy| == BUCKETS && forall b :: 0 <= b < BUCKETS ==> energy[b] >= 0.0
    requires Cheapest(prices, lo) && Dearest(prices, hi)
    ensures lo * Sum(energy) <= Cost(energy, Curve(prices)) <= hi * Sum(energy)
  {
    forall b | 0 <= b < BUCKETS
      ensures lo <= Curve(prices)[b] <= hi
    {
      CurveTakesPrices(prices, b);
    }
    CostBounds(energy, Curve(prices), lo, hi);
  }

  /** The price that holds in quarter `b` of a day with any number of prices. */
  function PriceIn(prices: seq<real>, b: nat): real
    requires b < 96 && prices != []
  {
    R.MulLess(b, 96, |prices|);
    R.DivLess(b * |prices|, 96, |prices|);
    prices[b * |prices| / 96]
  }

  /** Energy used in one quarter only costs its price there. */
  lemma {:induction false} OneBucketCost(energy: seq<real>, prices: seq<real>, b: nat)
    requires |energy| == BUCKETS && b < BUCKETS && prices != []
    requires forall i :: 0 <= i < BUCKETS && i != b ==> energy[i] == 0.0
    ensures Cost(energy, Curve(prices)) == energy[b] * PriceIn(prices, b)
  {
    SpotAtIsQuotient(prices, b);
    OneCost(energy, Curve(prices), b);
  }

  /** Without prices nothing costs anything. */
  lemma {:induction false} NoPricesNoCost(energy: seq<real>)
    requires |energy| == BUCKETS
    ensures Cost(energy, Curve([])) == 0.0
  {
    FreeCost(energy, Curve([]));
  }

  lemma {:induction false} FreeCost(energy: seq<real>, curve: seq<real>)
    requires |energy| == |curve| && forall i :: 0 <= i < |curve| ==> curve[i] == 0.0
    ensures Cost(energy, curve) == 0.0
  {
    if energy != [] {
      FreeCost(energy[..|energy| - 1], curve[..|curve| - 1]);
    }
  }

  lemma {:induction false} OneCost(energy: seq<real>, curve: seq<real>, b: nat)
    requires |energy| == |curve| && b < |energy|
    requires forall i :: 0 <= i < |energy| && i != b ==> energy[i] == 0.0
    ensures Cost(energy, curve) == energy[b] * curve[b]
  {
    var n := |energy| - 1;
    if b < n {
      OneCost(energy[..n], curve[..n], b);
    } else {
      NoCost(energy[..n], curve[..n]);
    }
  }

  lemma {:induction false} NoCost(energy: seq<real>, curve: seq<real>)
    requires |energy| == |curve| && forall i :: 0 <= i < |energy| ==> energy[i] == 0.0
    ensures Cost(energy, curve) == 0.0
  {
    if energy != [] {
      NoCost(energy[..|energy| - 1], curve[..|curve| - 1]);
    }
  }

  /** Costs add up: what two uses cost together is what they cost one by one. */
  lemma {:induction false} CostsAdd(a: seq<real>, b: seq<real>, both: seq<real>, curve: seq<real>)
    requires |a| == |b| == |both| == |curve| && forall i :: 0 <= i < |both| ==> both[i] == a[i] + b[i]
    ensures Cost(both, curve) == Cost(a, curve) + Cost(b, curve)
  {
    if both != [] {
      var n := |both| - 1;
      CostsAdd(a[..n], b[..n], both[..n], curve[..n]);
      assert both[n] * curve[n] == a[n] * curve[n] + b[n] * curve[n];
    }
  }

  // ---------------------------------------------------------------- the recommended window

  /** Price and, at a hundredth, expected use of each bucket. */
  function Load(prices: seq<real>, trend: seq<real>): (v: seq<real>)
    requires |trend| == BUCKETS
    ensures |v| == BUCKETS && forall b :: 0 <= b < BUCKETS ==> v[b] == SpotAt(prices, b) + trend[b] * 0.01
  {
    seq(BUCKETS, b requires 0 <= b < BUCKETS => SpotAt(prices, b) + trend[b] * 0.01)
  }

  function Score(v: seq<real>, start: nat): real
    requires start + WINDOW <= |v|
  {
    Sum(v[start..start + WINDOW])
  }

  predicate BestWindow(v: seq<real>, start: nat)
    requires |v| == BUCKETS
  {
    && start <= BUCKETS - WINDOW
    && (forall s :: 0 <= s <= BUCKETS - WINDOW ==> Score(v, start) <= Score(v, s))
    && (forall s :: 0 <= s < start ==> Score(v, start) < Score(v, s))
  }

  /**
   A window one quarter later has the quarter an hour and a half on in place of its first one: its price, and a
   hundredth of its expected use.
   */
  lemma NextWindow(prices: seq<real>, trend: seq<real>, start: nat)
    requires |trend| == BUCKETS && start + 7 <= 96 && prices != []
    ensures var v := Load(prices, trend);
      Score(v, start + 1) + PriceIn(prices, start) + trend[start] / 100.0 ==
      Score(v, start) + PriceIn(prices, start + 6) + trend[start + 6] / 100.0
  {
    SpotAtIsQuotient(prices, start);
    SpotAtIsQuotient(prices, start + 6);
    var v := Load(prices, trend);
    ScoreSplits(v, start);
  }

  lemma ScoreSplits(v: seq<real>, start: nat)
    requires start + 7 <= |v|
    ensures Score(v, start + 1) + v[start] == Score(v, start) + v[start + 6]
  {
    var x, y, inner := [v[start]], [v[start + 6]], v[start + 1..start + 6];
    assert v[start..start + WINDOW] == x + inner && v[start + 1..start + 1 + WINDOW] == inner + y;
    SumConcat(x, inner);
    SumConcat(inner, y);
    assert x[..0] == [] && y[..0] == [];
  }

  lemma {:induction false} TilesCover(v: seq<real>, best: real, k: nat)
    requires k * WINDOW <= |v| && forall s :: 0 <= s && s + WINDOW <= |v| ==> best <= Score(v, s)
    ensures Times(k, best) <= Sum(v[..k * WINDOW])
  {
    if k > 0 {
      var s := (k - 1) * WINDOW;
      TilesCover(v, best, k - 1);
      assert v[..k * WINDOW] == v[..s] + v[s..s + WINDOW];
      SumConcat(v[..s], v[s..s + WINDOW]);
      assert best <= Score(v, s);
    }
  }

  /** The day is sixteen windows long, so sixteen times the best score is at most the whole day's. */
  lemma {:induction false} BestWindowTimesSixteen(v: seq<real>, start: nat)
    requires |v| == BUCKETS && BestWindow(v, start)
    ensures 16.0 * Score(v, start) <= Sum(v)
  {
    TilesCover(v, Score(v, start), 16);
    TimesIsProduct(16, Score(v, start));
    assert v[..BUCKETS] == v;
  }

  method ScoreWindow(prices: seq<real>, trend: seq<real>, start: nat) returns (score: real)
    requires |trend| == BUCKETS && start + WINDOW <= BUCKETS
    ensures score == Score(Load(prices, trend), start)
  {
    score := 0.0;
    ghost var v := Load(prices, trend);
    ghost var w := v[start..start + WINDOW];
    var i := 0;
    while i < WINDOW
      invariant 0 <= i <= WINDOW && score == Sum(w[..i])
    {
      var bucket := start + i;
      SumNext(w, i);
      score := score + (SpotAt(prices, bucket) + trend[bucket] * 0.01);
      i := i + 1;
    }
    assert w[..i] == w;
  }

  /** The leftmost window with the least score; before the first one the least score is infinite. */
  method BestPriceWindow(prices: seq<real>, trend: seq<real>) returns (best: nat)
    requires |trend| == BUCKETS
    ensures BestWindow(Load(prices, trend), best)
  {
    ghost var v := Load(prices, trend);
    var least: Option<real> := None;
    best := 0;
    var start := 0;
    while start <= BUCKETS - WINDOW
      invariant 0 <= start <= BUCKETS - WINDOW + 1
      invariant least.None? <==> start == 0
      invariant best <= BUCKETS - WINDOW && (least.Some? ==> best < start && least.value == Score(v, best))
      invariant forall s :: 0 <= s < start ==> Score(v, best) <= Score(v, s)
      invariant forall s :: 0 <= s < best ==> Score(v, best) < Score(v, s)
    {
      var score := ScoreWindow(prices, trend, start);
      if least.None? || score < least.value {
        least, best := Some(score), start;
      }
      start := start + 1;
    }
  }

  method ReadSpot(prices: seq<real>, b: nat, ghost curve: seq<real>) returns (price: real)
    requires b < BUCKETS && curve == Curve(prices)
    ensures price == curve[b]
  {
    price := SpotAt(prices, b);
  }

  /** What the energy of one bucket adds to a cost. */
  method Charge(energy: seq<real>, b: nat, price: real, cost: real, ghost curve: seq<real>) returns (more: real)
    requires |energy| == |curve| && b < |energy| && price == curve[b] && cost == Cost(energy[..b], curve[..b])
    ensures more == Cost(energy[..b + 1], curve[..b + 1])
  {
    CostNext(energy, curve, b);
    more := cost + energy[b] * price;
  }

  method SpotCosts(energy: seq<real>, trend: seq<real>, today: seq<real>, tomorrow: seq<real>)
    returns (cost: real, predicted: real, start: nat)
    requires |energy| == BUCKETS && |trend| == BUCKETS
    ensures cost == Cost(energy, Curve(today)) && predicted == Cost(trend, Curve(tomorrow))
    ensures BestWindow(Load(tomorrow, trend), start)
  {
    cost, predicted := 0.0, 0.0;
    ghost var c, d := Curve(today), Curve(tomorrow);
    var b := 0;
    while b < BUCKETS
      invariant 0 <= b <= BUCKETS
      invariant cost == Cost(energy[..b], c[..b]) && predicted == Cost(trend[..b], d[..b])
    {
      var todayPrice := ReadSpot(today, b, c);
      var tomorrowPrice := ReadSpot(tomorrow, b, d);
      cost := Charge(energy, b, todayPrice, cost, c);
      predicted := Charge(trend, b, tomorrowPrice, predicted, d);
      b := b + 1;
    }
    assert energy[..b] == energy && trend[..b] == trend && c[..b] == c && d[..b] == d;
    start := BestPriceWindow(tomorrow, trend);
  }

  // ---------------------------------------------------------------- dearest and cheapest stretch

  predicate Close(a: real, b: real) {
    Gap(a, b) < 0.0001
  }

  /** A stretch around `at` of prices close to the one there, and as long as it can be. */
  predicate Stretch(prices: seq<real>, at: nat, start: nat, end: nat) {
    && start <= at < end <= |prices|
    && (forall i :: start <= i < end ==> Close(prices[i], prices[at]))
    && (start > 0 ==> !Close(prices[start - 1], prices[at]))
    && (end < |prices| ==> !Close(prices[end], prices[at]))
  }

  predicate Leftmost(prices: seq<real>, at: nat, sign: real) {
    && at < |prices|
    && (forall i :: 0 <= i < |prices| ==> sign * prices[i] <= sign * prices[at])
    && (forall i :: 0 <= i < at ==> sign * prices[i] < sign * prices[at])
  }

  /** All prices of a stretch are within 0.0001 of the one it is about, and those beside it are not. */
  lemma StretchIs(prices: seq<real>, at: nat, start: nat, end: nat)
    requires Stretch(prices, at, start, end)
    ensures forall i :: start <= i < end ==> -0.0001 < prices[i] - prices[at] < 0.0001
    ensures forall i :: 0 <= i < |prices| && (i == start - 1 || i == end) ==>
              prices[i] - prices[at] <= -0.0001 || prices[i] - prices[at] >= 0.0001
  {
    forall i | start <= i < end
      ensures -0.0001 < prices[i] - prices[at] < 0.0001
    {
      assert Close(prices[i], prices[at]);
    }
  }

  method Widen(prices: seq<real>, at: nat) returns (start: nat, end: nat)
    requires at < |prices|
    ensures Stretch(prices, at, start, end)
  {
    start, end := at, at + 1;
    while start > 0 && Close(prices[start - 1], prices[at])
      invariant start <= at < end <= |prices|
      invariant forall i :: start <= i < end ==> Close(prices[i], prices[at])
    {
      start := start - 1;
    }
    while end < |prices| && Close(prices[end], prices[at])
      invariant start <= at < end <= |prices|
      invariant forall i :: start <= i < end ==> Close(prices[i], prices[at])
    {
      end := end + 1;
    }
  }

  /** The stretches of the dearest and of the cheapest price, or the first quarter without prices. */
  method MinMaxPriceWindows(prices: seq<real>) returns (maxStart: nat, maxEnd: nat, minStart: nat, minEnd: nat)
    ensures prices == [] ==> (maxStart, maxEnd, minStart, minEnd) == (0, 1, 0, 1)
    ensures prices != [] ==> exists i, j ::
      && Leftmost(prices, i, 1.0) && Stretch(prices, i, maxStart, maxEnd)
      && Leftmost(prices, j, -1.0) && Stretch(prices, j, minStart, minEnd)
  {
    if prices == [] {
      return 0, 1, 0, 1;
    }
    var maxIdx, minIdx, i := 0, 0, 1;
    while i < |prices|
      invariant 1 <= i <= |prices|
      invariant Leftmost(prices[..i], maxIdx, 1.0) && Leftmost(prices[..i], minIdx, -1.0)
    {
      if prices[i] > prices[maxIdx] {
        maxIdx := i;
      }
      if prices[i] < prices[minIdx] {
        minIdx := i;
      }
      i := i + 1;
    }
    assert prices[..i] == prices;
    maxStart, maxEnd := Widen(prices, maxIdx);
    minStart, minEnd := Widen(prices, minIdx);
  }
}

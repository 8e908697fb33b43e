/** The price report of a day: interval averages, their deviation from the day's, and a class for each. */
module Intervals {
  import opened Wrappers
  import opened Averages

  datatype Class = Cheap | Usual | Expensive

  /** Quarters of an hour to an interval. */
  datatype Interval = Daily | Hourly | Quarterly

  /** The weather given along: how many values, and when they start. */
  datatype Weather = Weather(count: nat, start: int)

  /** `deviations` has no value when the average is zero, where the server divides by it. */
  datatype Results = Results(average: real, spots: seq<real>, deviations: Option<seq<real>>, classes: seq<Class>)

  datatype Reporting = Invalid | ReadsPastEnd | Done(results: Results)

  // ---------------------------------------------------------------- the computation

  predicate Accepted(prices: seq<real>, start: int, w: Option<Weather>, count: nat, interval: nat, threshold: real) {
    && interval != 0 && 1 <= count <= |prices| && interval <= count
    && (w.Some? ==> w.value.count == |prices| && w.value.start == start)
    && 0.0 <= threshold <= 1.0
  }

  function Block(prices: seq<real>, interval: nat, i: nat): (b: seq<real>)
    requires (i + 1) * interval <= |prices|
    ensures |b| == interval
  {
    assert (i + 1) * interval == i * interval + interval;
    prices[i * interval..i * interval + interval]
  }

  lemma BlockFits(i: nat, count: nat, interval: nat)
    requires i < count
    ensures (i + 1) * interval <= count * interval
  {
  }

  function Spots(prices: seq<real>, count: nat, interval: nat): (s: seq<real>)
    requires count * interval <= |prices| && 0 < interval
    ensures |s| == count
  {
    if count == 0 then []
    else
      BlockFits(count - 1, count, interval);
      Spots(prices, count - 1, interval) + [Average(Block(prices, interval, count - 1))]
  }

  function ClassOf(spot: real, average: real, threshold: real): Class {
    if spot > average * (1.0 + threshold) then Expensive
    else if spot < average * (1.0 - threshold) then Cheap
    else Usual
  }

  function Classes(spots: seq<real>, average: real, threshold: real): (c: seq<Class>)
    ensures |c| == |spots| && forall i :: 0 <= i < |spots| ==> c[i] == ClassOf(spots[i], average, threshold)
  {
    seq(|spots|, i requires 0 <= i < |spots| => ClassOf(spots[i], average, threshold))
  }

  /** In percent. */
  function Deviation(spot: real, average: real): real
    requires average != 0.0
  {
    (spot - average) / average * 100.0
  }

  function Deviations(spots: seq<real>, average: real): (d: seq<real>)
    requires average != 0.0
    ensures |d| == |spots| && forall i :: 0 <= i < |spots| ==> d[i] == Deviation(spots[i], average)
  {
    seq(|spots|, i requires 0 <= i < |spots| => Deviation(spots[i], average))
  }

  function Outcome(prices: seq<real>, start: int, w: Option<Weather>, count: nat,
      interval: nat, threshold: real): Reporting {
    if !Accepted(prices, start, w, count, interval, threshold) then Invalid
    else if count * interval > |prices| then ReadsPastEnd
    else
      Positive(count, interval);
      var average := Average(prices[..count * interval]);
      var spots := Spots(prices, count, interval);
      var deviations := if average == 0.0 then None else Some(Deviations(spots, average));
      Done(Results(average, spots, deviations, Classes(spots, average, threshold)))
  }

  lemma Positive(a: nat, b: nat)
    requires 0 < a && 0 < b
    ensures 0 < a * b
  {
  }

  // ---------------------------------------------------------------- the three intervals

  function Quarters(i: Interval): nat {
    match i
    case Daily => 24
    case Hourly => 4
    case Quarterly => 1
  }

  function Entries(i: Interval): nat {
    match i
    case Daily => 1
    case Hourly => 24
    case Quarterly => 96
  }

  /**
   What becomes of each report, for any number of prices: the daily one is always refused, and the hourly
   one, which asks for 24 prices, reads 96. Weather that does not go with the prices has every report refused.
   */
  lemma ReportByInterval(i: Interval, prices: seq<real>, start: int, w: Option<Weather>)
    ensures var r := Outcome(prices, start, w, Entries(i), Quarters(i), 0.25);
      var fits := w.Some? ==> w.value.count == |prices| && w.value.start == start;
      && (r.Invalid? <==> !fits || i.Daily? || |prices| < Entries(i))
      && (r.ReadsPastEnd? <==> fits && i.Hourly? && 24 <= |prices| < 96)
      && (r.Done? <==> fits && !i.Daily? && |prices| >= 96)
  {
  }

  /** Otherwise a report is refused exactly without intervals or prices enough, or with a threshold beyond 0 to 1. */
  lemma RefusedIff(prices: seq<real>, start: int, w: Option<Weather>, count: nat, interval: nat, threshold: real)
    requires w.Some? ==> w.value.count == |prices| && w.value.start == start
    ensures var r := Outcome(prices, start, w, count, interval, threshold);
      && (r.Invalid? <==>
            interval == 0 || count < 1 || count > |prices| || interval > count || threshold < 0.0 || threshold > 1.0)
      && (r.Done? ==> count * interval <= |prices|)
      && (r.ReadsPastEnd? ==> count <= |prices| < count * interval)
  {
  }

  // ---------------------------------------------------------------- averages

  /** The block averages, each once for every price of its block, make up the prices. */
  lemma {:induction false} BlocksMakeUpPrices(prices: seq<real>, count: nat, interval: nat)
    requires count * interval <= |prices| && 0 < interval
    ensures Times(interval, Sum(Spots(prices, count, interval))) == Sum(prices[..count * interval])
  {
    if count == 0 {
      TimesZero(interval);
    } else {
      var k := count - 1;
      BlockFits(k, count, interval);
      BlocksMakeUpPrices(prices, k, interval);
      NextBlock(prices, k, interval, Spots(prices, k, interval));
      assert count * interval == (k + 1) * interval;
    }
  }

  lemma {:induction false} NextBlock(prices: seq<real>, k: nat, interval: nat, before: seq<real>)
    requires 0 < interval && (k + 1) * interval <= |prices|
    requires k * interval <= |prices| && Times(interval, Sum(before)) == Sum(prices[..k * interval])
    ensures Times(interval, Sum(before + [Average(Block(prices, interval, k))])) == Sum(prices[..(k + 1) * interval])
  {
    assert (k + 1) * interval == k * interval + interval;
    AppendBlock(prices, k * interval, interval, before);
  }

  lemma AppendBlock(prices: seq<real>, from: nat, interval: nat, before: seq<real>)
    requires 0 < interval && from + interval <= |prices| && Times(interval, Sum(before)) == Sum(prices[..from])
    ensures Times(interval, Sum(before + [Average(prices[from..from + interval])])) == Sum(prices[..from + interval])
  {
    var b := prices[from..from + interval];
    var x := Average(b);
    assert prices[..from + interval] == prices[..from] + b;
    SumConcat(prices[..from], b);
    MeanIsAverage(b);
    assert (before + [x])[..|before|] == before;
    TimesAdd(interval, Sum(before), x);
  }

  /** The mean of the interval prices is the average of all prices read. */
  lemma {:induction false} IntervalsKeepMean(prices: seq<real>, count: nat, interval: nat)
    requires 0 < count && 0 < interval && count * interval <= |prices|
    ensures 0 < count * interval && HasMean(Spots(prices, count, interval), Average(prices[..count * interval]))
  {
    Positive(count, interval);
    var all := prices[..count * interval];
    BlocksMakeUpPrices(prices, count, interval);
    MeanIsAverage(all);
    TimesTimes(interval, count, Average(all));
    assert interval * count == count * interval;
    TimesCancel(interval, Sum(Spots(prices, count, interval)), Times(count, Average(all)));
  }

  /** The deviations from a non-zero average cancel. */
  lemma DeviationsCancel(spots: seq<real>, average: real)
    requires average != 0.0 && HasMean(spots, average)
    ensures HasMean(Deviations(spots, average), 0.0) && Sum(Deviations(spots, average)) == 0.0
  {
    var k := 100.0 / average;
    var minus := seq(|spots|, i => -average);
    var centred := seq(|spots|, i requires 0 <= i < |spots| => spots[i] - average);
    ConstantMean(minus, -average);
    MeanAdd(spots, minus, centred, average, -average, 0.0);
    forall i | 0 <= i < |spots|
      ensures Deviations(spots, average)[i] == k * centred[i]
    {
      Percent(spots[i] - average, average, k);
    }
    MeanScale(centred, Deviations(spots, average), k, 0.0, 0.0);
    TimesZero(|spots|);
  }

  lemma Percent(x: real, average: real, k: real)
    requires average != 0.0 && k == 100.0 / average
    ensures x / average * 100.0 == k * x
  {
  }

  lemma {:induction false} ConstantMean(s: seq<real>, x: real)
    requires forall i :: 0 <= i < |s| ==> s[i] == x
    ensures HasMean(s, x)
  {
    if s != [] {
      ConstantMean(s[..|s| - 1], x);
    }
  }

  // ---------------------------------------------------------------- classes

  /** Not all of the numbers lie below their mean, nor all above it. */
  lemma {:induction false} SumBelow(s: seq<real>, x: real)
    requires s != [] && forall i :: 0 <= i < |s| ==> s[i] < x
    ensures Sum(s) < Times(|s|, x)
  {
    if |s| > 1 {
      SumBelow(s[..|s| - 1], x);
    }
  }

  lemma SomeReachMean(s: seq<real>, x: real)
    requires s != [] && HasMean(s, x)
    ensures exists i :: 0 <= i < |s| && s[i] >= x
  {
    if forall i :: 0 <= i < |s| ==> s[i] < x {
      SumBelow(s, x);
    }
  }

  lemma Margin(average: real, threshold: real)
    requires threshold >= 0.0
    ensures average >= 0.0 ==> average * (1.0 - threshold) <= average <= average * (1.0 + threshold)
    ensures average < 0.0 ==> average * (1.0 + threshold) <= average <= average * (1.0 - threshold)
    ensures average != 0.0 && threshold > 0.0 ==>
              average * (1.0 - threshold) != average && average * (1.0 + threshold) != average
  {
    assert average * (1.0 - threshold) == average - average * threshold;
    assert average * (1.0 + threshold) == average + average * threshold;
  }

  function Order(c: Class): int {
    match c
    case Cheap => -1
    case Usual => 0
    case Expensive => 1
  }

  /** The class never falls with the price, whatever the sign of the average. */
  lemma ClassIsMonotone(a: real, b: real, average: real, threshold: real)
    requires a <= b && threshold >= 0.0
    ensures Order(ClassOf(a, average, threshold)) <= Order(ClassOf(b, average, threshold))
  {
  }

  /** With a positive average not every interval is cheap. */
  lemma NotAllCheap(spots: seq<real>, average: real, threshold: real)
    requires spots != [] && HasMean(spots, average) && average >= 0.0 && threshold >= 0.0
    ensures exists i :: 0 <= i < |spots| && Classes(spots, average, threshold)[i] != Cheap
  {
    SomeReachMean(spots, average);
    var i :| 0 <= i < |spots| && spots[i] >= average;
    Margin(average, threshold);
    assert Classes(spots, average, threshold)[i] != Cheap;
  }

  /**
   The limits of the classes leave room between them, and a price at the average is usual, exactly if the average
   is not negative or the threshold is zero; otherwise no price whatever is usual.
   */
  lemma UsualIsPossibleIff(average: real, threshold: real)
    requires threshold >= 0.0
    ensures (exists price :: ClassOf(price, average, threshold) == Usual) <==> average >= 0.0 || threshold == 0.0
    ensures ClassOf(average, average, threshold) == Usual <==> average >= 0.0 || threshold == 0.0
    ensures average * (1.0 - threshold) <= average * (1.0 + threshold) <==> average >= 0.0 || threshold == 0.0
  {
    Margin(average, threshold);
    assert threshold == 0.0 ==> average * (1.0 - threshold) == average == average * (1.0 + threshold);
    if average < 0.0 && threshold > 0.0 {
      forall price
        ensures ClassOf(price, average, threshold) != Usual
      {
      }
    } else {
      assert ClassOf(average, average, threshold) == Usual;
    }
  }

  /** With a negative average the two limits change places: nothing is usual, and something is expensive. */
  lemma NegativeAverageSplits(spots: seq<real>, average: real, threshold: real)
    requires spots != [] && HasMean(spots, average) && average < 0.0 && threshold > 0.0
    ensures Usual !in Classes(spots, average, threshold) && Expensive in Classes(spots, average, threshold)
  {
    SomeReachMean(spots, average);
    var i :| 0 <= i < |spots| && spots[i] >= average;
    Margin(average, threshold);
    assert Classes(spots, average, threshold)[i] == Expensive;
  }

  predicate AllOf(classes: seq<Class>, c: Class) {
    forall i :: 0 <= i < |classes| ==> classes[i] == c
  }

  /**
   A day at one price is usual throughout exactly if that price is not negative or the threshold is zero; any
   other one is expensive throughout.
   */
  lemma FlatDayIsUsualIff(spots: seq<real>, average: real, threshold: real)
    requires spots != [] && threshold >= 0.0 && forall i :: 0 <= i < |spots| ==> spots[i] == average
    ensures AllOf(Classes(spots, average, threshold), Usual) <==> average >= 0.0 || threshold == 0.0
    ensures AllOf(Classes(spots, average, threshold), Expensive) <==> average < 0.0 && threshold > 0.0
  {
    Margin(average, threshold);
    UsualIsPossibleIff(average, threshold);
    assert Classes(spots, average, threshold)[0] == ClassOf(average, average, threshold);
  }

  /** The deviation says by how many percent of the average the price differs from it. */
  lemma DeviationIsPercent(spot: real, average: real)
    requires average != 0.0
    ensures spot == average * (1.0 + Deviation(spot, average) / 100.0)
  {
    var q := (spot - average) / average;
    assert q * average == spot - average;
    assert Deviation(spot, average) / 100.0 == q;
  }

  /**
   The class by the deviation, the threshold in percent too. With a positive average an interval is expensive above
   the threshold and cheap below its negative; with a negative average it is expensive below the threshold, and
   otherwise cheap; with none only the sign of the price counts.
   */
  lemma ClassByDeviation(spot: real, average: real, threshold: real)
    requires threshold >= 0.0
    ensures var rank, percent := ClassOf(spot, average, threshold), 100.0 * threshold;
      if average == 0.0 then (rank == Expensive <==> spot > 0.0) && (rank == Cheap <==> spot < 0.0)
      else
        var d := Deviation(spot, average);
        if average > 0.0 then (rank == Expensive <==> d > percent) && (rank == Cheap <==> d < -percent)
        else (rank == Expensive <==> d < percent) && (rank == Cheap <==> d >= percent && d > -percent)
  {
    if average != 0.0 {
      var x := Deviation(spot, average) / 100.0;
      DeviationIsPercent(spot, average);
      ScaledLess(average, 1.0 + x, 1.0 + threshold);
      ScaledLess(average, 1.0 + x, 1.0 - threshold);
    }
  }

  lemma ScaledLess(c: real, x: real, y: real)
    requires c != 0.0
    ensures c > 0.0 ==> (c * x < c * y <==> x < y) && (c * x > c * y <==> x > y)
    ensures c < 0.0 ==> (c * x < c * y <==> x > y) && (c * x > c * y <==> x < y)
  {
    var d := y - x;
    assert c * y - c * x == c * d;
    if d > 0.0 {
      assert c > 0.0 ==> c * d > 0.0;
      assert c < 0.0 ==> -c * d > 0.0;
    } else if d < 0.0 {
      assert c > 0.0 ==> c * -d > 0.0;
      assert c < 0.0 ==> c * d > 0.0;
    }
  }

  /** Each interval's price is the mean of its own stretch of the prices. */
  lemma {:induction false} SpotIsBlockMean(prices: seq<real>, count: nat, interval: nat, i: nat)
    requires count * interval <= |prices| && 0 < interval && i < count
    ensures i * interval <= (i + 1) * interval <= |prices|
    ensures HasMean(prices[i * interval..(i + 1) * interval], Spots(prices, count, interval)[i])
  {
    BlockFits(i, count, interval);
    assert (i + 1) * interval == i * interval + interval;
    var k := count - 1;
    BlockFits(k, count, interval);
    if i == k {
      MeanIsAverage(Block(prices, interval, i));
    } else {
      SpotIsBlockMean(prices, k, interval, i);
    }
  }

  function CountExpensive(c: seq<Class>): (n: nat)
    ensures n <= |c|
  {
    if c == [] then 0 else CountExpensive(c[..|c| - 1]) + (if c[|c| - 1] == Expensive then 1 else 0)
  }

  function CountAbove(spots: seq<real>, limit: real): nat {
    if spots == [] then 0 else CountAbove(spots[..|spots| - 1], limit) + (if spots[|spots| - 1] > limit then 1 else 0)
  }

  lemma {:induction false} ExpensiveAreAbove(spots: seq<real>, average: real, threshold: real, limit: real)
    requires limit == average * (1.0 + threshold)
    ensures CountExpensive(Classes(spots, average, threshold)) == CountAbove(spots, limit)
  {
    if spots != [] {
      var n := |spots| - 1;
      ExpensiveAreAbove(spots[..n], average, threshold, limit);
      assert Classes(spots, average, threshold)[..n] == Classes(spots[..n], average, threshold);
    }
  }

  /** What lies above a limit weighs less than everything. */
  lemma {:induction false} AboveWeigh(spots: seq<real>, limit: real)
    requires forall i :: 0 <= i < |spots| ==> spots[i] >= 0.0
    ensures Times(CountAbove(spots, limit), limit) <= Sum(spots)
    ensures CountAbove(spots, limit) > 0 ==> Times(CountAbove(spots, limit), limit) < Sum(spots)
  {
    if spots != [] {
      AboveWeigh(spots[..|spots| - 1], limit);
    }
  }

  /** With no negative interval price, fewer than `count / (1 + threshold)` of them are expensive. */
  lemma FewExpensive(spots: seq<real>, average: real, threshold: real)
    requires spots != [] && HasMean(spots, average) && average >= 0.0 && threshold >= 0.0
    requires forall i :: 0 <= i < |spots| ==> spots[i] >= 0.0
    ensures CountExpensive(Classes(spots, average, threshold)) as real * (1.0 + threshold) < |spots| as real
  {
    var limit := average * (1.0 + threshold);
    ExpensiveAreAbove(spots, average, threshold, limit);
    AboveWeigh(spots, limit);
    Weigh(CountAbove(spots, limit), |spots|, average, 1.0 + threshold, limit);
  }

  lemma {:induction false} Weigh(n: nat, m: nat, average: real, factor: real, limit: real)
    requires average >= 0.0 && 0 < m && limit == average * factor
    requires n > 0 ==> Times(n, limit) < Times(m, average)
    ensures n as real * factor < m as real
  {
    if n > 0 && average == 0.0 {
      TimesZero(n);
      TimesZero(m);
    } else if n > 0 {
      TimesIsProduct(n, limit);
      TimesIsProduct(m, average);
      WeighReal(n as real, m as real, average, factor, limit);
    }
  }

  lemma WeighReal(n: real, m: real, average: real, factor: real, limit: real)
    requires average > 0.0 && limit == average * factor && n * limit < m * average
    ensures n * factor < m
  {
    assert n * limit == average * (n * factor);
    assert n * factor >= m ==> average * (n * factor) >= average * m;
  }

  predicate NonNegative(s: seq<real>) {
    forall i :: 0 <= i < |s| ==> s[i] >= 0.0
  }

  lemma {:induction false} SumNonNegative(s: seq<real>)
    requires NonNegative(s)
    ensures Sum(s) >= 0.0
  {
    if s != [] {
      SumNonNegative(s[..|s| - 1]);
    }
  }

  /** None of the first `n` prices is negative. */
  predicate NonNegativeUpTo(prices: seq<real>, n: int) {
    forall i :: 0 <= i < |prices| && i < n ==> prices[i] >= 0.0
  }

  lemma SliceNonNegative(prices: seq<real>, from: nat, until: nat)
    requires from < until <= |prices| && NonNegativeUpTo(prices, until)
    ensures Average(prices[from..until]) >= 0.0
  {
    assert NonNegative(prices[from..until]);
    SumNonNegative(prices[from..until]);
  }

  /** Prices that are not negative give intervals that are not. */
  lemma {:induction false} SpotsNonNegative(prices: seq<real>, count: nat, interval: nat)
    requires count * interval <= |prices| && 0 < interval && NonNegativeUpTo(prices, count * interval)
    ensures NonNegative(Spots(prices, count, interval))
  {
    if count > 0 {
      var k := count - 1;
      BlockFits(k, count, interval);
      assert count * interval == k * interval + interval;
      SpotsNonNegative(prices, k, interval);
      SliceNonNegative(prices, k * interval, k * interval + interval);
    }
  }

  /** The intervals of a report average out to its average, and its deviations cancel. */
  predicate Balanced(r: Results) {
    && HasMean(r.spots, r.average)
    && (r.deviations.None? <==> r.average == 0.0)
    && (r.deviations.Some? ==> Sum(r.deviations.value) == 0.0)
  }

  /** Dearer intervals are in no lower class, and some interval is not cheap, or is even expensive. */
  predicate Ranked(r: Results, threshold: real) {
    && |r.classes| == |r.spots|
    && (forall i, j :: 0 <= i < |r.spots| && 0 <= j < |r.spots| && r.spots[i] <= r.spots[j] ==>
          Order(r.classes[i]) <= Order(r.classes[j]))
    && (r.average >= 0.0 ==> exists i :: 0 <= i < |r.classes| && r.classes[i] != Cheap)
    && (r.average < 0.0 && threshold > 0.0 ==> Usual !in r.classes && Expensive in r.classes)
  }

  lemma RankedByClass(r: Results, threshold: real)
    requires r.spots != [] && HasMean(r.spots, r.average) && threshold >= 0.0
    requires r.classes == Classes(r.spots, r.average, threshold)
    ensures Ranked(r, threshold)
  {
    forall i, j | 0 <= i < |r.spots| && 0 <= j < |r.spots| && r.spots[i] <= r.spots[j]
      ensures Order(r.classes[i]) <= Order(r.classes[j])
    {
      ClassIsMonotone(r.spots[i], r.spots[j], r.average, threshold);
    }
    if r.average >= 0.0 {
      NotAllCheap(r.spots, r.average, threshold);
    } else if threshold > 0.0 {
      NegativeAverageSplits(r.spots, r.average, threshold);
    }
  }

  /** No interval is negative, and fewer than `count / (1 + threshold)` are expensive. */
  predicate FewDear(r: Results, threshold: real) {
    && NonNegative(r.spots)
    && CountExpensive(r.classes) as real * (1.0 + threshold) < |r.spots| as real
  }

  /** What a report consists of. */
  lemma {:induction false} DoneIs(prices: seq<real>, start: int, w: Option<Weather>, count: nat,
      interval: nat, threshold: real)
    requires Outcome(prices, start, w, count, interval, threshold).Done?
    ensures 0 < count && 0 < interval && 0 < count * interval <= |prices| && threshold >= 0.0
    ensures var r := Outcome(prices, start, w, count, interval, threshold).results;
      && r.average == Average(prices[..count * interval]) && r.spots == Spots(prices, count, interval)
      && r.deviations == (if r.average == 0.0 then None else Some(Deviations(r.spots, r.average)))
      && r.classes == Classes(r.spots, r.average, threshold)
  {
    Positive(count, interval);
  }

  lemma BalancedByMean(r: Results)
    requires HasMean(r.spots, r.average)
    requires r.deviations == (if r.average == 0.0 then None else Some(Deviations(r.spots, r.average)))
    ensures Balanced(r)
  {
    if r.average != 0.0 {
      DeviationsCancel(r.spots, r.average);
    }
  }

  lemma {:induction false} NonNegativeReport(prices: seq<real>, count: nat, interval: nat)
    requires 0 < count && 0 < interval && 0 < count * interval <= |prices|
    requires NonNegativeUpTo(prices, count * interval)
    ensures NonNegative(Spots(prices, count, interval)) && Average(prices[..count * interval]) >= 0.0
  {
    SpotsNonNegative(prices, count, interval);
    SliceNonNegative(prices, 0, count * interval);
    assert prices[0..count * interval] == prices[..count * interval];
  }

  lemma FewDearByMean(r: Results, threshold: real)
    requires r.spots != [] && HasMean(r.spots, r.average) && r.average >= 0.0 && threshold >= 0.0
    requires NonNegative(r.spots) && r.classes == Classes(r.spots, r.average, threshold)
    ensures FewDear(r, threshold)
  {
    FewExpensive(r.spots, r.average, threshold);
  }

  /** All of it together, for every report that is made; the last of it for prices that are not negative. */
  lemma ReportIsSound(prices: seq<real>, start: int, w: Option<Weather>, count: nat, interval: nat, threshold: real)
    requires Outcome(prices, start, w, count, interval, threshold).Done?
    ensures var r := Outcome(prices, start, w, count, interval, threshold).results;
      && |r.spots| == count && Balanced(r) && Ranked(r, threshold)
      && (NonNegativeUpTo(prices, count * interval) ==> FewDear(r, threshold))
  {
    var r := Outcome(prices, start, w, count, interval, threshold).results;
    DoneIs(prices, start, w, count, interval, threshold);
    IntervalsKeepMean(prices, count, interval);
    BalancedByMean(r);
    RankedByClass(r, threshold);
    if NonNegativeUpTo(prices, count * interval) {
      NonNegativeReport(prices, count, interval);
      FewDearByMean(r, threshold);
    }
  }

  // ---------------------------------------------------------------- the loops

  class Report {
    var average: real
    var spots: array<real>
    var deviations: array<real>
    var classes: array<Class>

    constructor ()
      ensures fresh(spots) && fresh(deviations) && fresh(classes)
    {
      average := 0.0;
      spots, deviations, classes := new real[0], new real[0], new Class[0];
    }

    /** The average of one interval, as far as there are prices. */
    method AverageBlock(prices: seq<real>, interval: nat, i: nat) returns (spot: real)
      requires 0 < interval && (i + 1) * interval <= |prices|
      ensures spot == Average(Block(prices, interval, i))
    {
      ghost var b := Block(prices, interval, i);
      assert (i + 1) * interval == i * interval + interval;
      var base, sum, j := i * interval, 0.0, 0;
      while j < interval && base + j < |prices|
        invariant 0 <= j <= interval && sum == Sum(b[..j])
      {
        SumNext(b, j);
        sum := sum + prices[base + j];
        j := j + 1;
      }
      assert b[..j] == b;
      spot := sum / j as real;
    }

    /** Deviation and class of one interval; without an average there is no deviation. */
    method Judge(i: nat, spot: real, threshold: real)
      requires i < spots.Length == deviations.Length == classes.Length && spots != deviations
      modifies spots, deviations, classes
      ensures spots[..] == old(spots[..])[i := spot]
      ensures classes[..] == old(classes[..])[i := ClassOf(spot, average, threshold)]
      ensures average != 0.0 ==> deviations[..] == old(deviations[..])[i := Deviation(spot, average)]
    {
      spots[i] := spot;
      if average != 0.0 {
        deviations[i] := (spot - average) / average * 100.0;
      }
      if spot > average * (1.0 + threshold) {
        classes[i] := Expensive;
      } else if spot < average * (1.0 - threshold) {
        classes[i] := Cheap;
      } else {
        classes[i] := Usual;
      }
    }

    /** What holds of the first `i` intervals. */
    ghost predicate Judged(prices: seq<real>, interval: nat, threshold: real, i: nat)
      requires i * interval <= |prices| && 0 < interval
      requires i <= spots.Length == deviations.Length == classes.Length
      reads this, spots, deviations, classes
    {
      && spots[..i] == Spots(prices, i, interval)
      && classes[..i] == Classes(spots[..i], average, threshold)
      && (average != 0.0 ==> deviations[..i] == Deviations(spots[..i], average))
    }

    method JudgeAll(prices: seq<real>, count: nat, interval: nat, threshold: real)
      requires 0 < interval && count * interval <= |prices|
      requires spots.Length == deviations.Length == classes.Length == count && spots != deviations
      modifies spots, deviations, classes
      ensures Judged(prices, interval, threshold, count)
    {
      var i := 0;
      while i < count
        invariant 0 <= i <= count && i * interval <= |prices|
        invariant Judged(prices, interval, threshold, i)
      {
        BlockFits(i, count, interval);
        var spot := AverageBlock(prices, interval, i);
        Judge(i, spot, threshold);
        assert spots[..i + 1] == Spots(prices, i, interval) + [spot];
        i := i + 1;
      }
    }

    /** Makes the report, unless the arguments are refused or it would read past the end of the prices. */
    method Create(prices: seq<real>, start: int, w: Option<Weather>, count: nat, interval: nat, threshold: real)
      returns (ok: bool, pastEnd: bool)
      modifies this
      ensures var o := Outcome(prices, start, w, count, interval, threshold);
        && ok == o.Done? && pastEnd == o.ReadsPastEnd?
        && (ok ==> average == o.results.average && spots[..] == o.results.spots && classes[..] == o.results.classes)
        && (ok && o.results.deviations.Some? ==> deviations[..] == o.results.deviations.value)
    {
      if !Accepted(prices, start, w, count, interval, threshold) {
        return false, false;
      }
      Positive(count, interval);
      if count * interval > |prices| {
        return false, true;
      }
      spots, deviations, classes := new real[count], new real[count], new Class[count];
      var sum := ComputeSum(prices[..count * interval]);
      average := sum / (count * interval) as real;
      JudgeAll(prices, count, interval, threshold);
      assert spots[..count] == spots[..] && classes[..count] == classes[..] && deviations[..count] == deviations[..];
      return true, false;
    }
  }
}

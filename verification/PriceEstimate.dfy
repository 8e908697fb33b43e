/**
 Tomorrow's prices when the exchange has not published them: the same weekday of earlier weeks, weighted
 by how alike the weather is, scaled to today's level and mixed with today's own prices.
 */
module PriceEstimate {
  import opened Numbers
  import opened Wrappers
  import opened Averages
  import opened Resampling

  datatype Summary = Summary(temperature: real, wind: real, precipitation: real,
    radiation: real, sunshine: real, samples: nat)

  /** An earlier day: its prices, none if there are none, and its weather if known. */
  datatype Day = Day(prices: seq<real>, weather: Option<Summary>)

  datatype Spot = Spot(start: int, end: int, price: real)

  // ---------------------------------------------------------------- weights

  /** The distance of two days' weather, each figure on its own scale. */
  function Distance(a: Summary, b: Summary): (d: real)
    ensures d >= 0.0
  {
    Gap(a.temperature, b.temperature) / 10.0 + Gap(a.wind, b.wind) / 8.0
    + Gap(a.precipitation, b.precipitation) / 20.0 + Gap(a.radiation, b.radiation) / 500.0
    + Gap(a.sunshine, b.sunshine) / 21600.0
  }

  function Similarity(a: Summary, b: Summary): real {
    if a.samples == 0 || b.samples == 0 then 1.0 else 1.0 / (1.0 + Distance(a, b))
  }

  lemma Reciprocal(d: real)
    requires d >= 0.0
    ensures 0.0 < 1.0 / (1.0 + d) <= 1.0
    ensures 1.0 / (1.0 + d) == 1.0 <==> d == 0.0
  {
    var q := 1.0 / (1.0 + d);
    assert q * (1.0 + d) == 1.0;
    assert q > 0.0;
    assert q * d >= 0.0;
  }

  /** The weight is positive, at most one, symmetric, and one exactly for like weather or missing samples. */
  lemma SimilarityIsWeight(a: Summary, b: Summary)
    ensures 0.0 < Similarity(a, b) <= 1.0
    ensures Similarity(a, b) == Similarity(b, a)
    ensures Similarity(a, b) == 1.0 <==>
            a.samples == 0 || b.samples == 0 || a.(samples := 0) == b.(samples := 0)
  {
    Reciprocal(Distance(a, b));
  }

  /** Less alike weather never weighs more. */
  lemma SimilarityFalls(a: Summary, b: Summary, c: Summary)
    requires a.samples > 0 && b.samples > 0 && c.samples > 0 && Distance(a, b) <= Distance(a, c)
    ensures Similarity(a, b) >= Similarity(a, c)
  {
    var x, y := 1.0 + Distance(a, b), 1.0 + Distance(a, c);
    assert 1.0 / x >= 1.0 / y by {
      ReciprocalFalls(x, y);
    }
  }

  lemma ReciprocalFalls(x: real, y: real)
    requires 0.0 < x <= y
    ensures 1.0 / x >= 1.0 / y
  {
    var p, q := 1.0 / x, 1.0 / y;
    assert p * x == 1.0 && q * y == 1.0;
    assert p < q ==> p * x < q * x <= q * y;
  }

  function Weight(tomorrow: Option<Summary>, d: Day): (w: real)
    ensures 0.0 < w <= 1.0
  {
    if tomorrow.Some? && d.weather.Some? then
      SimilarityIsWeight(tomorrow.value, d.weather.value);
      Similarity(tomorrow.value, d.weather.value)
    else 1.0
  }

  // ---------------------------------------------------------------- the estimate

  /** An earlier day with the weight it was given. */
  datatype Past = Past(prices: seq<real>, weight: real)

  predicate Used(d: Past) {
    d.prices != []
  }

  predicate AnyUsed(days: seq<Past>) {
    exists i :: 0 <= i < |days| && Used(days[i])
  }

  predicate Weighed(days: seq<Past>) {
    forall i :: 0 <= i < |days| ==> 0.0 < days[i].weight <= 1.0
  }

  /** The history of the estimate: every day weighed by its weather. */
  function Weigh(tomorrow: Option<Summary>, days: seq<Day>): (r: seq<Past>)
    ensures |r| == |days| && Weighed(r)
    ensures forall i :: 0 <= i < |r| ==> r[i].prices == days[i].prices && r[i].weight == Weight(tomorrow, days[i])
  {
    seq(|days|, i requires 0 <= i < |days| => Past(days[i].prices, Weight(tomorrow, days[i])))
  }

  /** A day against a day with `m` slots: its weight, its average and the price each slot reads. */
  datatype Column = Column(weight: real, average: real, picks: seq<real>)

  /** An unused day counts for nothing. */
  function ColumnOf(d: Past, m: nat): Column
    requires 0 < m
  {
    if Used(d) then Column(d.weight, Average(d.prices), Picked(d.prices, m)) else Column(0.0, 0.0, Zeros(m))
  }

  function Columns(days: seq<Past>, m: nat): (cs: seq<Column>)
    requires 0 < m && Weighed(days)
    ensures |cs| == |days| && AllSampled(cs, m)
  {
    if days == [] then [] else Columns(days[..|days| - 1], m) + [ColumnOf(days[|days| - 1], m)]
  }

  predicate AllSampled(cs: seq<Column>, m: nat) {
    forall i :: 0 <= i < |cs| ==> 0.0 <= cs[i].weight <= 1.0 && |cs[i].picks| == m
  }

  function WeightSum(cs: seq<Column>): real {
    if cs == [] then 0.0 else WeightSum(cs[..|cs| - 1]) + cs[|cs| - 1].weight
  }

  function AverageSum(cs: seq<Column>): real {
    if cs == [] then 0.0 else AverageSum(cs[..|cs| - 1]) + cs[|cs| - 1].average * cs[|cs| - 1].weight
  }

  function PriceSum(cs: seq<Column>, m: nat, slot: nat): real
    requires AllSampled(cs, m) && slot < m
  {
    if cs == [] then 0.0
    else PriceSum(cs[..|cs| - 1], m, slot) + cs[|cs| - 1].picks[slot] * cs[|cs| - 1].weight
  }

  function HistoryAverage(cs: seq<Column>, today: seq<real>): real
    requires today != []
  {
    if WeightSum(cs) > 0.0 then AverageSum(cs) / WeightSum(cs) else Average(today)
  }

  /** The history's price for a slot, or today's `own` price without any weight. */
  function Same(prices: real, weights: real, own: real): real {
    if weights > 0.0 then prices / weights else own
  }

  /** Brings a price of the history to today's level. */
  function Scale(same: real, history: real, average: real): real {
    if history > 0.0 then same * (average / history) else same
  }

  function SameWeekday(cs: seq<Column>, today: seq<real>, slot: nat): real
    requires AllSampled(cs, |today|) && slot < |today|
  {
    Same(PriceSum(cs, |today|, slot), WeightSum(cs), today[slot])
  }

  function Normalized(cs: seq<Column>, today: seq<real>, slot: nat): real
    requires AllSampled(cs, |today|) && slot < |today|
  {
    Scale(SameWeekday(cs, today, slot), HistoryAverage(cs, today), Average(today))
  }

  function EstimateFrom(cs: seq<Column>, today: seq<real>): (e: seq<real>)
    requires AllSampled(cs, |today|)
    ensures |e| == |today|
  {
    seq(|today|, slot requires 0 <= slot < |today| => Normalized(cs, today, slot) * 0.65 + today[slot] * 0.35)
  }

  function Estimate(days: seq<Past>, today: seq<real>): (e: seq<real>)
    requires today != [] && Weighed(days)
    ensures |e| == |today|
  {
    EstimateFrom(Columns(days, |today|), today)
  }

  // ---------------------------------------------------------------- what the estimate does to the mean

  function PriceSums(cs: seq<Column>, m: nat): (s: seq<real>)
    requires AllSampled(cs, m)
    ensures |s| == m && forall k :: 0 <= k < m ==> s[k] == PriceSum(cs, m, k)
  {
    seq(m, slot requires 0 <= slot < m => PriceSum(cs, m, slot))
  }

  function Scaled(s: seq<real>, c: real): (t: seq<real>)
    ensures |t| == |s| && forall i :: 0 <= i < |s| ==> t[i] == c * s[i]
  {
    seq(|s|, i requires 0 <= i < |s| => c * s[i])
  }

  lemma {:induction false} ZeroMean(s: seq<real>)
    requires forall i :: 0 <= i < |s| ==> s[i] == 0.0
    ensures HasMean(s, 0.0)
  {
    TimesZero(|s|);
    if s != [] {
      ZeroMean(s[..|s| - 1]);
      TimesZero(|s| - 1);
    }
  }

  /** What the slots read of each column, on the average, each with its weight. */
  function PickSum(cs: seq<Column>, m: nat): real
    requires 0 < m && AllSampled(cs, m)
  {
    if cs == [] then 0.0
    else PickSum(cs[..|cs| - 1], m) + Average(cs[|cs| - 1].picks) * cs[|cs| - 1].weight
  }

  /** The weighted average of the prices as they are read. */
  function Resampled(cs: seq<Column>, today: seq<real>): real
    requires today != [] && AllSampled(cs, |today|)
  {
    if WeightSum(cs) > 0.0 then PickSum(cs, |today|) / WeightSum(cs) else Average(today)
  }

  lemma {:induction false} PriceSumsMean(cs: seq<Column>, m: nat)
    requires 0 < m && AllSampled(cs, m)
    ensures HasMean(PriceSums(cs, m), PickSum(cs, m))
  {
    if cs == [] {
      ZeroMean(PriceSums(cs, m));
    } else {
      var init, c := cs[..|cs| - 1], cs[|cs| - 1];
      PriceSumsMean(init, m);
      var y := Average(c.picks) * c.weight;
      MeanIsAverage(c.picks);
      MeanScale(c.picks, Scaled(c.picks, c.weight), c.weight, Average(c.picks), y);
      MeanAdd(PriceSums(init, m), Scaled(c.picks, c.weight), PriceSums(cs, m), PickSum(init, m), y, PickSum(cs, m));
    }
  }

  function SameWeekdays(cs: seq<Column>, today: seq<real>): (s: seq<real>)
    requires AllSampled(cs, |today|)
    ensures |s| == |today| && forall k :: 0 <= k < |s| ==> s[k] == SameWeekday(cs, today, k)
  {
    seq(|today|, slot requires 0 <= slot < |today| => SameWeekday(cs, today, slot))
  }

  lemma SameWeekdaysMean(cs: seq<Column>, today: seq<real>)
    requires today != [] && AllSampled(cs, |today|)
    ensures HasMean(SameWeekdays(cs, today), Resampled(cs, today))
  {
    var w, m := WeightSum(cs), |today|;
    var same, sums := SameWeekdays(cs, today), PriceSums(cs, m);
    if w > 0.0 {
      forall slot | 0 <= slot < m
        ensures same[slot] == (1.0 / w) * sums[slot]
      {
        DivideIsScale(sums[slot], w, 1.0 / w);
      }
      PriceSumsMean(cs, m);
      DivideIsScale(PickSum(cs, m), w, 1.0 / w);
      MeanScale(sums, same, 1.0 / w, PickSum(cs, m), Resampled(cs, today));
    } else {
      MeanIsAverage(today);
      assert same == today;
    }
  }

  /** The level the history is brought to. */
  function Level(cs: seq<Column>, today: seq<real>): real
    requires today != [] && AllSampled(cs, |today|)
  {
    Scale(Resampled(cs, today), HistoryAverage(cs, today), Average(today))
  }

  function NormalizedAll(cs: seq<Column>, today: seq<real>): (s: seq<real>)
    requires AllSampled(cs, |today|)
    ensures |s| == |today| && forall k :: 0 <= k < |s| ==> s[k] == Normalized(cs, today, k)
  {
    seq(|today|, slot requires 0 <= slot < |today| => Normalized(cs, today, slot))
  }

  lemma NormalizedMean(cs: seq<Column>, today: seq<real>)
    requires today != [] && AllSampled(cs, |today|)
    ensures HasMean(NormalizedAll(cs, today), Level(cs, today))
  {
    var history := HistoryAverage(cs, today);
    var same, all := SameWeekdays(cs, today), NormalizedAll(cs, today);
    SameWeekdaysMean(cs, today);
    if history > 0.0 {
      var c := Average(today) / history;
      assert Level(cs, today) == c * Resampled(cs, today);
      MeanScale(same, all, c, Resampled(cs, today), Level(cs, today));
    } else {
      assert all == same;
    }
  }

  lemma MixMean(s: seq<real>, t: seq<real>, u: seq<real>, x: real, y: real)
    requires HasMean(s, x) && HasMean(t, y)
    requires |s| == |t| == |u| && forall i :: 0 <= i < |s| ==> u[i] == s[i] * 0.65 + t[i] * 0.35
    ensures HasMean(u, 0.65 * x + 0.35 * y)
  {
    MeanScale(s, Scaled(s, 0.65), 0.65, x, 0.65 * x);
    MeanScale(t, Scaled(t, 0.35), 0.35, y, 0.35 * y);
    MeanAdd(Scaled(s, 0.65), Scaled(t, 0.35), u, 0.65 * x, 0.35 * y, 0.65 * x + 0.35 * y);
  }

  lemma EstimateMean(cs: seq<Column>, today: seq<real>)
    requires today != [] && AllSampled(cs, |today|)
    ensures HasMean(EstimateFrom(cs, today), 0.65 * Level(cs, today) + 0.35 * Average(today))
  {
    var all := NormalizedAll(cs, today);
    NormalizedMean(cs, today);
    MeanIsAverage(today);
    MixMean(all, today, EstimateFrom(cs, today), Level(cs, today), Average(today));
  }

  lemma LevelIsKept(resampled: real, history: real, average: real)
    requires history > 0.0
    ensures resampled * (average / history) == average <==> resampled == history || average == 0.0
  {
    var q := average / history;
    assert q * history == average;
    assert resampled * q - average == q * (resampled - history);
  }

  /**
   When the estimate has exactly today's average, for any prices: with a positive history average if and only
   if the prices as they are read average out to it, or today's average is 0; otherwise if and only if they
   average out to today's.
   */
  lemma {:induction false} EstimateKeepsMeanIff(days: seq<Past>, today: seq<real>)
    requires today != [] && Weighed(days)
    ensures var cs := Columns(days, |today|);
      var resampled, history := Resampled(cs, today), HistoryAverage(cs, today);
      Average(Estimate(days, today)) == Average(today) <==>
        if history > 0.0 then resampled == history || Average(today) == 0.0 else resampled == Average(today)
  {
    var cs := Columns(days, |today|);
    EstimateMean(cs, today);
    AverageIsMean(EstimateFrom(cs, today), 0.65 * Level(cs, today) + 0.35 * Average(today));
    if HistoryAverage(cs, today) > 0.0 {
      LevelIsKept(Resampled(cs, today), HistoryAverage(cs, today), Average(today));
    }
  }

  /** Every used day's prices divide the day into whole blocks of today's slots. */
  predicate Divides(days: seq<Past>, m: nat) {
    forall i :: 0 <= i < |days| && Used(days[i]) ==> m % |days[i].prices| == 0 && m * |days[i].prices| <= WORD
  }

  lemma ColumnIsFaithful(d: Past, m: nat)
    requires 0 < m && (Used(d) ==> m % |d.prices| == 0 && m * |d.prices| <= WORD)
    ensures Average(ColumnOf(d, m).picks) == ColumnOf(d, m).average
  {
    if Used(d) {
      ResamplingKeepsMean(d.prices, m);
      AverageIsMean(Picked(d.prices, m), Average(d.prices));
    } else {
      ZeroMean(Zeros(m));
      AverageIsMean(Zeros(m), 0.0);
    }
  }

  lemma {:induction false} ColumnsAt(days: seq<Past>, m: nat, h: nat)
    requires 0 < m && Weighed(days) && h < |days|
    ensures Columns(days, m)[h] == ColumnOf(days[h], m)
  {
    if h < |days| - 1 {
      ColumnsAt(days[..|days| - 1], m, h);
    }
  }

  /** The picks of every column have its average. */
  predicate Faithful(cs: seq<Column>, m: nat)
    requires 0 < m && AllSampled(cs, m)
  {
    forall i :: 0 <= i < |cs| ==> Average(cs[i].picks) == cs[i].average
  }

  lemma {:induction false} FaithfulSum(cs: seq<Column>, m: nat)
    requires 0 < m && AllSampled(cs, m) && Faithful(cs, m)
    ensures PickSum(cs, m) == AverageSum(cs)
  {
    if cs != [] {
      FaithfulSum(cs[..|cs| - 1], m);
    }
  }

  lemma {:induction false} WholeBlocksAreFaithful(days: seq<Past>, m: nat)
    requires 0 < m && Weighed(days) && Divides(days, m)
    ensures Faithful(Columns(days, m), m)
  {
    forall h | 0 <= h < |days|
      ensures Average(Columns(days, m)[h].picks) == Columns(days, m)[h].average
    {
      ColumnsAt(days, m, h);
      ColumnIsFaithful(days[h], m);
    }
  }

  /** With whole blocks the reading averages out, so that only the sign of the history's average matters. */
  lemma {:induction false} WholeBlocksKeepMeanIff(days: seq<Past>, today: seq<real>)
    requires today != [] && Weighed(days) && Divides(days, |today|)
    ensures var history := HistoryAverage(Columns(days, |today|), today);
      Average(Estimate(days, today)) == Average(today) <==> history > 0.0 || history == Average(today)
  {
    WholeBlocksAreFaithful(days, |today|);
    FaithfulSum(Columns(days, |today|), |today|);
    EstimateKeepsMeanIff(days, today);
  }

  /** A day with two prices, of weight one, read through three slots. */
  lemma {:induction false} TwoThroughThree(d: Past, cs: seq<Column>)
    requires d == Past([1.0, 3.0], 1.0) && cs == Columns([d], 3)
    ensures WeightSum(cs) == 1.0 && AverageSum(cs) == 2.0
    ensures PriceSum(cs, 3, 0) == 1.0 && PriceSum(cs, 3, 1) == 1.0 && PriceSum(cs, 3, 2) == 3.0
  {
    assert [d][..0] == [];
    assert Columns([], 3) == [];
    assert cs == [ColumnOf(d, 3)];
    assert cs[..0] == [];
    Sum2(1.0, 3.0);
    assert Picked(d.prices, 3) == [1.0, 1.0, 3.0];
    assert WeightSum([]) == 0.0 && AverageSum([]) == 0.0;
    assert PriceSum([], 3, 0) == PriceSum([], 3, 1) == PriceSum([], 3, 2) == 0.0;
  }

  lemma {:induction false} ThreeSlots(cs: seq<Column>, today: seq<real>)
    requires AllSampled(cs, 3) && today == [1.0, 1.0, 1.0] && WeightSum(cs) == 1.0 && AverageSum(cs) == 2.0
    requires PriceSum(cs, 3, 0) == 1.0 && PriceSum(cs, 3, 1) == 1.0 && PriceSum(cs, 3, 2) == 3.0
    ensures Average(today) == 1.0
    ensures EstimateFrom(cs, today) == [0.5 * 0.65 + 0.35, 0.5 * 0.65 + 0.35, 1.5 * 0.65 + 0.35]
  {
    Sum3(1.0, 1.0, 1.0);
    assert Average(today) == 1.0 && HistoryAverage(cs, today) == 2.0;
    assert Normalized(cs, today, 0) == 0.5 && Normalized(cs, today, 1) == 0.5 && Normalized(cs, today, 2) == 1.5;
  }

  /** Without whole blocks the mean moves: three slots today against two prices in the history. */
  lemma UnevenBlocksMoveTheMean()
    ensures var d, today := Past([1.0, 3.0], 1.0), [1.0, 1.0, 1.0];
      Average(Estimate([d], today)) != Average(today) && HistoryAverage(Columns([d], 3), today) > 0.0
  {
    var d, today := Past([1.0, 3.0], 1.0), [1.0, 1.0, 1.0];
    var cs := Columns([d], 3);
    TwoThroughThree(d, cs);
    ThreeSlots(cs, today);
    Sum3(0.5 * 0.65 + 0.35, 0.5 * 0.65 + 0.35, 1.5 * 0.65 + 0.35);
  }

  lemma Sum2(a: real, b: real)
    ensures Sum([a, b]) == a + b
  {
    assert [a, b][..1] == [a] && [a][..0] == [];
    assert Sum([a]) == a;
  }

  lemma Sum3(a: real, b: real, c: real)
    ensures Sum([a, b, c]) == a + b + c
  {
    assert [a, b, c][..2] == [a, b];
    Sum2(a, b);
  }

  // ---------------------------------------------------------------- what the weather does to the estimate

  /** Tomorrow's weather and the day's are both known, from at least one sample. */
  predicate Comparable(tomorrow: Option<Summary>, d: Day) {
    tomorrow.Some? && d.weather.Some? && tomorrow.value.samples > 0 && d.weather.value.samples > 0
  }

  predicate SameWeather(a: Summary, b: Summary) {
    && a.temperature == b.temperature && a.wind == b.wind && a.precipitation == b.precipitation
    && a.radiation == b.radiation && a.sunshine == b.sunshine
  }

  /** A day weighs less than one exactly if its weather can be compared and differs from tomorrow's. */
  lemma WeighsOneIff(tomorrow: Option<Summary>, days: seq<Day>, i: nat)
    requires i < |days|
    ensures Weigh(tomorrow, days)[i].weight == 1.0 <==>
            !Comparable(tomorrow, days[i]) || SameWeather(tomorrow.value, days[i].weather.value)
  {
    if tomorrow.Some? && days[i].weather.Some? {
      SimilarityIsWeight(tomorrow.value, days[i].weather.value);
    }
  }

  /**
   What a difference counts: 10 degrees, 8 of wind, 20 of rain, 500 of radiation or six hours of sunshine alone
   halve the weight, and differences in several figures add up.
   */
  lemma WeatherScales(a: Summary, b: Summary)
    ensures Distance(a, b) ==
      Distance(a, a.(temperature := b.temperature)) + Distance(a, a.(wind := b.wind))
      + Distance(a, a.(precipitation := b.precipitation)) + Distance(a, a.(radiation := b.radiation))
      + Distance(a, a.(sunshine := b.sunshine))
    ensures Distance(a, a.(temperature := b.temperature)) * 10.0 == Gap(a.temperature, b.temperature)
    ensures Distance(a, a.(wind := b.wind)) * 8.0 == Gap(a.wind, b.wind)
    ensures Distance(a, a.(precipitation := b.precipitation)) * 20.0 == Gap(a.precipitation, b.precipitation)
    ensures Distance(a, a.(radiation := b.radiation)) * 500.0 == Gap(a.radiation, b.radiation)
    ensures Distance(a, a.(sunshine := b.sunshine)) * 21600.0 == Gap(a.sunshine, b.sunshine)
    ensures a.samples > 0 && b.samples > 0 && Distance(a, b) == 1.0 ==> Similarity(a, b) == 0.5
  {
  }

  lemma ReciprocalFallsStrictly(x: real, y: real)
    requires 0.0 < x < y
    ensures 1.0 / x > 1.0 / y
  {
    var p, q := 1.0 / x, 1.0 / y;
    assert p * x == 1.0 && q * y == 1.0;
    assert q > 0.0;
    assert q * x < q * y;
    assert p <= q ==> p * x <= q * x;
  }

  lemma NearerWeighsMore(a: Summary, b: Summary, c: Summary)
    requires a.samples > 0 && b.samples > 0 && c.samples > 0 && Distance(a, b) < Distance(a, c)
    ensures Similarity(a, b) > Similarity(a, c)
  {
    ReciprocalFallsStrictly(1.0 + Distance(a, b), 1.0 + Distance(a, c));
  }

  lemma {:induction false} ReplaceWeight(cs: seq<Column>, i: nat, c: Column)
    requires i < |cs|
    ensures WeightSum(cs[i := c]) == WeightSum(cs) - cs[i].weight + c.weight
  {
    var n := |cs| - 1;
    if i == n {
      assert cs[i := c][..n] == cs[..n];
    } else {
      assert cs[i := c][..n] == cs[..n][i := c];
      ReplaceWeight(cs[..n], i, c);
    }
  }

  lemma {:induction false} ReplacePrice(cs: seq<Column>, m: nat, slot: nat, i: nat, c: Column)
    requires AllSampled(cs, m) && slot < m && i < |cs| && 0.0 <= c.weight <= 1.0 && |c.picks| == m
    ensures PriceSum(cs[i := c], m, slot) ==
            PriceSum(cs, m, slot) - cs[i].picks[slot] * cs[i].weight + c.picks[slot] * c.weight
  {
    var n := |cs| - 1;
    if i == n {
      assert cs[i := c][..n] == cs[..n];
    } else {
      assert cs[i := c][..n] == cs[..n][i := c];
      ReplacePrice(cs[..n], m, slot, i, c);
    }
  }

  predicate Positive(cs: seq<Column>, i: nat)
    requires i < |cs|
  {
    cs[i].weight > 0.0
  }

  lemma {:induction false} WeightsAreZero(cs: seq<Column>, m: nat)
    requires AllSampled(cs, m)
    ensures WeightSum(cs) >= 0.0
    ensures WeightSum(cs) > 0.0 <==> exists j :: 0 <= j < |cs| && Positive(cs, j)
  {
    if cs != [] {
      var n := |cs| - 1;
      WeightsAreZero(cs[..n], m);
      if j :| 0 <= j < |cs[..n]| && Positive(cs[..n], j) {
        assert Positive(cs, j);
      }
      if j :| 0 <= j < |cs| && Positive(cs, j) {
        if j < n {
          assert Positive(cs[..n], j);
        }
      }
      if cs[n].weight > 0.0 {
        assert Positive(cs, n);
      }
    }
  }

  /** The other columns weigh something exactly if one of them does. */
  lemma {:induction false} OthersWeigh(cs: seq<Column>, m: nat, i: nat)
    requires AllSampled(cs, m) && i < |cs|
    ensures WeightSum(cs) >= cs[i].weight
    ensures WeightSum(cs) > cs[i].weight <==> exists j :: 0 <= j < |cs| && j != i && Positive(cs, j)
  {
    var zero := cs[i].(weight := 0.0);
    var others := cs[i := zero];
    ReplaceWeight(cs, i, zero);
    WeightsAreZero(others, m);
    if j :| 0 <= j < |others| && Positive(others, j) {
      assert Positive(cs, j);
    }
    if j :| 0 <= j < |cs| && j != i && Positive(cs, j) {
      assert Positive(others, j);
    }
  }

  /** What slot `slot` of a day with `m` reads of an earlier day. */
  function Reading(d: Day, m: nat, slot: nat): real
    requires d.prices != [] && slot < m
  {
    d.prices[Index(slot, |d.prices|, m)]
  }

  /** The columns of the history against a day with `m` slots. */
  function History(tomorrow: Option<Summary>, days: seq<Day>, m: nat): (cs: seq<Column>)
    requires 0 < m
    ensures |cs| == |days| && AllSampled(cs, m)
  {
    Columns(Weigh(tomorrow, days), m)
  }

  lemma HistoryAt(tomorrow: Option<Summary>, days: seq<Day>, m: nat, i: nat)
    requires 0 < m && i < |days|
    ensures var c := History(tomorrow, days, m)[i];
      if days[i].prices == [] then c == Column(0.0, 0.0, Zeros(m))
      else c == Column(Weight(tomorrow, days[i]), Average(days[i].prices), Picked(days[i].prices, m))
  {
    ColumnsAt(Weigh(tomorrow, days), m, i);
  }

  lemma NewWeather(tomorrow: Option<Summary>, days: seq<Day>, m: nat, i: nat, d: Day)
    requires 0 < m && i < |days| && days[i].prices != [] && d.prices == days[i].prices
    ensures var cs := History(tomorrow, days, m);
      History(tomorrow, days[i := d], m) == cs[i := cs[i].(weight := Weight(tomorrow, d))]
  {
    var cs, ds := History(tomorrow, days, m), History(tomorrow, days[i := d], m);
    forall j | 0 <= j < |days|
      ensures ds[j] == cs[i := cs[i].(weight := Weight(tomorrow, d))][j]
    {
      HistoryAt(tomorrow, days, m, j);
      HistoryAt(tomorrow, days[i := d], m, j);
    }
  }

  /** The part a day has in the same weekday's price. */
  function Share(cs: seq<Column>, i: nat): real
    requires i < |cs| && WeightSum(cs) > 0.0
  {
    cs[i].weight / WeightSum(cs)
  }

  /** A heavier price draws the weighted mean towards itself, and never past itself. */
  lemma HeavierPulls(prices: real, weights: real, own: real, more: real, before: real, after: real)
    requires weights > 0.0 && more > 0.0
    requires before == prices / weights && after == (prices + own * more) / (weights + more)
    ensures before < own ==> before < after < own
    ensures before > own ==> before > after > own
    ensures before == own ==> after == own
  {
    var heavier := weights + more;
    assert before * weights == prices && after * heavier == prices + own * more;
    assert (after - own) * heavier == (before - own) * weights;
    assert (after - before) * heavier == (own - before) * more;
    SignOfProduct(after - own, heavier, before - own, weights);
    SignOfProduct(after - before, heavier, own - before, more);
  }

  lemma SignOfProduct(x: real, a: real, y: real, b: real)
    requires a > 0.0 && b > 0.0 && x * a == y * b
    ensures x > 0.0 <==> y > 0.0
    ensures x < 0.0 <==> y < 0.0
  {
    SameSign(x, a);
    SameSign(y, b);
  }

  lemma SameSign(x: real, a: real)
    requires a > 0.0
    ensures x * a > 0.0 <==> x > 0.0
    ensures x * a < 0.0 <==> x < 0.0
  {
    if x < 0.0 {
      assert -x * a > 0.0;
    }
  }

  lemma ShareGrows(w: real, v: real, weights: real)
    requires 0.0 < w < v && w <= weights
    ensures v / (weights - w + v) >= w / weights
    ensures v / (weights - w + v) > w / weights <==> weights > w
  {
    if weights > w {
      ShareGrowsStrictly(w, v, weights - w, w / weights, v / (weights - w + v));
    } else {
      assert w / weights == 1.0 && v / v == 1.0;
    }
  }

  lemma ShareGrowsStrictly(w: real, v: real, rest: real, p: real, q: real)
    requires 0.0 < w < v && 0.0 < rest && p == w / (rest + w) && q == v / (rest + v)
    ensures q > p
  {
    DivideLess(w, rest + w);
    assert p * (rest + w) == w && q * (rest + v) == v;
    Expand(p, q, w, v, rest);
    SameSign(q - p, rest + v);
    SameSign(1.0 - p, v - w);
  }

  lemma Expand(p: real, q: real, w: real, v: real, rest: real)
    requires p * (rest + w) == w && q * (rest + v) == v
    ensures (q - p) * (rest + v) == (1.0 - p) * (v - w)
  {
    assert p * (rest + v) == p * (rest + w) + p * (v - w);
    assert (q - p) * (rest + v) == q * (rest + v) - p * (rest + v);
    assert (1.0 - p) * (v - w) == (v - w) - p * (v - w);
  }

  lemma DivideLess(x: real, y: real)
    requires 0.0 < x < y
    ensures x / y < 1.0
  {
    var q := x / y;
    assert q * y == x;
    assert q >= 1.0 ==> q * y >= y;
  }

  /**
   When a day's weather is strictly nearer to tomorrow's, every slot's same-weekday price moves strictly towards the
   day's own price, without reaching it.
   */
  lemma NearerWeatherPulls(tomorrow: Option<Summary>, days: seq<Day>, i: nat, w: Summary,
      today: seq<real>, slot: nat)
    requires i < |days| && slot < |today| && days[i].prices != []
    requires Comparable(tomorrow, days[i]) && w.samples > 0
    requires Distance(tomorrow.value, w) < Distance(tomorrow.value, days[i].weather.value)
    ensures var cs := History(tomorrow, days, |today|);
      var nearer := History(tomorrow, days[i := days[i].(weather := Some(w))], |today|);
      var own, before, after :=
        Reading(days[i], |today|, slot), SameWeekday(cs, today, slot), SameWeekday(nearer, today, slot);
      && (before < own ==> before < after < own)
      && (before > own ==> before > after > own)
      && (before == own ==> after == own)
  {
    var m, d := |today|, days[i].(weather := Some(w));
    var cs := History(tomorrow, days, m);
    HistoryAt(tomorrow, days, m, i);
    NewWeather(tomorrow, days, m, i, d);
    NearerWeighsMore(tomorrow.value, w, days[i].weather.value);
    OthersWeigh(cs, m, i);
    PulledSlot(cs, i, Weight(tomorrow, d), today, slot);
  }

  /** And the day's share grows, strictly if another day has prices too. */
  lemma NearerWeatherGains(tomorrow: Option<Summary>, days: seq<Day>, i: nat, w: Summary, m: nat)
    requires i < |days| && 0 < m && days[i].prices != [] && Comparable(tomorrow, days[i]) && w.samples > 0
    requires Distance(tomorrow.value, w) < Distance(tomorrow.value, days[i].weather.value)
    ensures var cs := History(tomorrow, days, m);
      var nearer := History(tomorrow, days[i := days[i].(weather := Some(w))], m);
      && WeightSum(cs) > 0.0 && WeightSum(nearer) > 0.0 && Share(nearer, i) >= Share(cs, i)
      && (Share(nearer, i) > Share(cs, i) <==> exists j :: 0 <= j < |days| && j != i && days[j].prices != [])
  {
    var d := days[i].(weather := Some(w));
    var cs, v := History(tomorrow, days, m), Weight(tomorrow, d);
    HistoryAt(tomorrow, days, m, i);
    NewWeather(tomorrow, days, m, i, d);
    NearerWeighsMore(tomorrow.value, w, days[i].weather.value);
    ColumnGains(cs, m, i, v);
    OtherDaysWeigh(tomorrow, days, m, i);
  }

  lemma ColumnGains(cs: seq<Column>, m: nat, i: nat, v: real)
    requires AllSampled(cs, m) && i < |cs| && 0.0 < cs[i].weight < v
    ensures var heavier := cs[i := cs[i].(weight := v)];
      && WeightSum(cs) > 0.0 && WeightSum(heavier) > 0.0 && Share(heavier, i) >= Share(cs, i)
      && (Share(heavier, i) > Share(cs, i) <==> exists j :: 0 <= j < |cs| && j != i && Positive(cs, j))
  {
    ReplaceWeight(cs, i, cs[i].(weight := v));
    OthersWeigh(cs, m, i);
    ShareGrows(cs[i].weight, v, WeightSum(cs));
  }

  lemma OtherDaysWeigh(tomorrow: Option<Summary>, days: seq<Day>, m: nat, i: nat)
    requires 0 < m && i < |days|
    ensures var cs := History(tomorrow, days, m);
      (exists j :: 0 <= j < |cs| && j != i && Positive(cs, j)) <==>
      exists j :: 0 <= j < |days| && j != i && days[j].prices != []
  {
    var cs := History(tomorrow, days, m);
    forall j | 0 <= j < |days|
      ensures Positive(cs, j) <==> days[j].prices != []
    {
      HistoryAt(tomorrow, days, m, j);
    }
  }

  lemma ReplacedPulls(prices: real, weights: real, own: real, w: real, v: real, before: real, after: real)
    requires 0.0 < w < v && w <= weights
    requires before == prices / weights && after == (prices - own * w + own * v) / (weights - w + v)
    ensures before < own ==> before < after < own
    ensures before > own ==> before > after > own
    ensures before == own ==> after == own
  {
    assert own * v - own * w == own * (v - w);
    HeavierPulls(prices, weights, own, v - w, before, after);
  }

  lemma PulledSlot(cs: seq<Column>, i: nat, v: real, today: seq<real>, slot: nat)
    requires AllSampled(cs, |today|) && slot < |today| && i < |cs| && 0.0 < cs[i].weight < v <= 1.0
    requires WeightSum(cs) >= cs[i].weight
    ensures var c := cs[i].(weight := v);
      var own, before, after := c.picks[slot], SameWeekday(cs, today, slot), SameWeekday(cs[i := c], today, slot);
      && (before < own ==> before < after < own)
      && (before > own ==> before > after > own)
      && (before == own ==> after == own)
  {
    var c, w := cs[i].(weight := v), cs[i].weight;
    ReplaceWeight(cs, i, c);
    ReplacePrice(cs, |today|, slot, i, c);
    var own, prices, weights := c.picks[slot], PriceSum(cs, |today|, slot), WeightSum(cs);
    var before, after := SameWeekday(cs, today, slot), SameWeekday(cs[i := c], today, slot);
    var newPrices, newWeights := PriceSum(cs[i := c], |today|, slot), WeightSum(cs[i := c]);
    assert newPrices == prices - own * w + own * v && newWeights == weights - w + v;
    assert before == prices / weights && after == newPrices / newWeights;
    ReplacedPulls(prices, weights, own, w, v, before, after);
  }

  /** What a slot reads of the earlier days that have prices. */
  function Readings(days: seq<Day>, m: nat, slot: nat): seq<real>
    requires slot < m
  {
    if days == [] then []
    else
      var d := days[|days| - 1];
      Readings(days[..|days| - 1], m, slot) + (if d.prices == [] then [] else [Reading(d, m, slot)])
  }

  /** The averages of the earlier days that have prices. */
  function DayAverages(days: seq<Day>): seq<real> {
    if days == [] then []
    else
      var d := days[|days| - 1];
      DayAverages(days[..|days| - 1]) + (if d.prices == [] then [] else [Average(d.prices)])
  }

  /** All days with prices have the weight `w`. */
  predicate EvenlyWeighed(tomorrow: Option<Summary>, days: seq<Day>, w: real) {
    forall i :: 0 <= i < |days| && days[i].prices != [] ==> Weight(tomorrow, days[i]) == w
  }

  lemma HistoryLast(tomorrow: Option<Summary>, days: seq<Day>, m: nat)
    requires 0 < m && days != []
    ensures var n := |days| - 1;
      History(tomorrow, days, m) == History(tomorrow, days[..n], m) + [History(tomorrow, days, m)[n]]
  {
    var n := |days| - 1;
    assert Weigh(tomorrow, days)[..n] == Weigh(tomorrow, days[..n]);
  }

  lemma {:induction false} AveragesLast(cs: seq<Column>, c: Column)
    ensures WeightSum(cs + [c]) == WeightSum(cs) + c.weight
    ensures AverageSum(cs + [c]) == AverageSum(cs) + c.average * c.weight
  {
    assert (cs + [c])[..|cs|] == cs;
  }

  lemma {:induction false} PricesLast(cs: seq<Column>, all: seq<Column>, c: Column, m: nat, slot: nat)
    requires AllSampled(cs, m) && AllSampled(all, m) && all == cs + [c] && slot < m
    ensures |c.picks| == m && PriceSum(all, m, slot) == PriceSum(cs, m, slot) + c.picks[slot] * c.weight
  {
    assert all[|cs|] == c && all[..|cs|] == cs;
  }

  /** The sum of numbers that all have the weight `w`. */
  function Weighted(s: seq<real>, w: real): real {
    if s == [] then 0.0 else Weighted(s[..|s| - 1], w) + s[|s| - 1] * w
  }

  lemma {:induction false} WeightedLast(s: seq<real>, x: real, w: real)
    ensures Weighted(s + [x], w) == Weighted(s, w) + x * w
  {
    assert (s + [x])[..|s|] == s;
  }

  lemma {:induction false} WeightedIsScaled(s: seq<real>, w: real)
    ensures Weighted(s, w) == w * Sum(s)
  {
    if s != [] {
      var init, x := s[..|s| - 1], s[|s| - 1];
      WeightedIsScaled(init, w);
      assert w * (Sum(init) + x) == w * Sum(init) + x * w;
    }
  }

  lemma {:induction false} ReadingsLength(days: seq<Day>, m: nat, slot: nat)
    requires slot < m
    ensures |Readings(days, m, slot)| == |DayAverages(days)|
  {
    if days != [] {
      ReadingsLength(days[..|days| - 1], m, slot);
    }
  }

  lemma {:induction false} PricesStep(cs: seq<Column>, all: seq<Column>, c: Column, m: nat, slot: nat, d: Day,
      readings: seq<real>, w: real)
    requires AllSampled(cs, m) && AllSampled(all, m) && all == cs + [c] && slot < m
    requires PriceSum(cs, m, slot) == Weighted(readings, w)
    requires c == ColumnOf(Past(d.prices, w), m)
    ensures PriceSum(all, m, slot) ==
            Weighted(readings + (if d.prices == [] then [] else [Reading(d, m, slot)]), w)
  {
    PricesLast(cs, all, c, m, slot);
    if d.prices == [] {
      assert readings + [] == readings;
    } else {
      assert c.picks[slot] == Reading(d, m, slot);
      WeightedLast(readings, c.picks[slot], w);
    }
  }

  lemma AveragesStep(cs: seq<Column>, c: Column, m: nat, d: Day, averages: seq<real>, w: real)
    requires 0 < m && c == ColumnOf(Past(d.prices, w), m)
    requires WeightSum(cs) == Times(|averages|, w) && AverageSum(cs) == Weighted(averages, w)
    ensures var longer := averages + (if d.prices == [] then [] else [Average(d.prices)]);
      WeightSum(cs + [c]) == Times(|longer|, w) && AverageSum(cs + [c]) == Weighted(longer, w)
  {
    AveragesLast(cs, c);
    if d.prices == [] {
      assert averages + [] == averages;
    } else {
      WeightedLast(averages, c.average, w);
    }
  }

  /** The history with its last day taken off. */
  lemma EvenLast(tomorrow: Option<Summary>, days: seq<Day>, m: nat, w: real)
    returns (cs: seq<Column>, c: Column)
    requires 0 < m && days != [] && EvenlyWeighed(tomorrow, days, w)
    ensures EvenlyWeighed(tomorrow, days[..|days| - 1], w) && cs == History(tomorrow, days[..|days| - 1], m)
    ensures c == ColumnOf(Past(days[|days| - 1].prices, w), m) && History(tomorrow, days, m) == cs + [c]
  {
    var n := |days| - 1;
    cs, c := History(tomorrow, days[..n], m), History(tomorrow, days, m)[n];
    HistoryLast(tomorrow, days, m);
    HistoryAt(tomorrow, days, m, n);
  }

  lemma {:induction false} EvenPrices(tomorrow: Option<Summary>, days: seq<Day>, m: nat, slot: nat, w: real)
    requires slot < m && EvenlyWeighed(tomorrow, days, w)
    ensures PriceSum(History(tomorrow, days, m), m, slot) == Weighted(Readings(days, m, slot), w)
  {
    if days == [] {
    } else {
      var n := |days| - 1;
      var cs, c := EvenLast(tomorrow, days, m, w);
      EvenPrices(tomorrow, days[..n], m, slot, w);
      PricesStep(cs, History(tomorrow, days, m), c, m, slot, days[n], Readings(days[..n], m, slot), w);
    }
  }

  lemma {:induction false} EvenAverages(tomorrow: Option<Summary>, days: seq<Day>, m: nat, w: real)
    requires 0 < m && EvenlyWeighed(tomorrow, days, w)
    ensures WeightSum(History(tomorrow, days, m)) == Times(|DayAverages(days)|, w)
    ensures AverageSum(History(tomorrow, days, m)) == Weighted(DayAverages(days), w)
  {
    if days == [] {
    } else {
      var n := |days| - 1;
      var cs, c := EvenLast(tomorrow, days, m, w);
      EvenAverages(tomorrow, days[..n], m, w);
      AveragesStep(cs, c, m, days[n], DayAverages(days[..n]), w);
    }
  }

  /** Days with prices whose weather is equally far from tomorrow's, or can be compared on none of them. */
  predicate EquallyDistant(tomorrow: Option<Summary>, days: seq<Day>) {
    forall i, j :: 0 <= i < |days| && 0 <= j < |days| && days[i].prices != [] && days[j].prices != [] ==>
      && Comparable(tomorrow, days[i]) == Comparable(tomorrow, days[j])
      && (Comparable(tomorrow, days[i]) ==>
            Distance(tomorrow.value, days[i].weather.value) == Distance(tomorrow.value, days[j].weather.value))
  }

  lemma EquallyDistantIsEven(tomorrow: Option<Summary>, days: seq<Day>, i: nat)
    requires EquallyDistant(tomorrow, days) && i < |days| && days[i].prices != []
    ensures EvenlyWeighed(tomorrow, days, Weight(tomorrow, days[i]))
  {
    forall j | 0 <= j < |days| && days[j].prices != []
      ensures Weight(tomorrow, days[j]) == Weight(tomorrow, days[i])
    {
      assert Comparable(tomorrow, days[i]) == Comparable(tomorrow, days[j]);
    }
  }

  lemma {:induction false} Quotients(prices: real, weights: real, sum: real, n: nat, w: real)
    requires 0 < n && w > 0.0 && weights == Times(n, w) && prices == w * sum
    ensures weights > 0.0 && prices / weights == sum / n as real
  {
    TimesIsProduct(n, w);
    var c := n as real;
    assert weights == c * w && weights > 0.0;
    assert (prices / weights) * (c * w) == w * sum;
    assert (sum / c) * c == sum;
    assert (sum / c) * (c * w) == w * sum;
    CancelFactor(c * w, prices / weights, sum / c);
  }

  /**
   Equally distant days count equally: of such days a slot's estimate is 0.65 times the plain mean of what the
   slot reads of them, brought from their mean to today's if theirs is positive, and 0.35 times today's price.
   */
  lemma {:induction false} EquallyDistantEstimate(tomorrow: Option<Summary>, days: seq<Day>, today: seq<real>,
      slot: nat)
    requires slot < |today| && EquallyDistant(tomorrow, days) && DayAverages(days) != []
    ensures Readings(days, |today|, slot) != []
    ensures Estimate(Weigh(tomorrow, days), today)[slot] ==
            Mixed(Average(Readings(days, |today|, slot)), Average(DayAverages(days)), Average(today), today[slot])
  {
    var m := |today|;
    var i := SomeDay(days);
    var w := Weight(tomorrow, days[i]);
    EquallyDistantIsEven(tomorrow, days, i);
    EvenPrices(tomorrow, days, m, slot, w);
    EvenAverages(tomorrow, days, m, w);
    ReadingsLength(days, m, slot);
    EvenEstimate(History(tomorrow, days, m), today, slot, Readings(days, m, slot), DayAverages(days), w);
  }

  lemma {:induction false} EvenEstimate(cs: seq<Column>, today: seq<real>, slot: nat, readings: seq<real>,
      averages: seq<real>, w: real)
    requires AllSampled(cs, |today|) && slot < |today| && w > 0.0 && averages != [] && |readings| == |averages|
    requires PriceSum(cs, |today|, slot) == Weighted(readings, w)
    requires WeightSum(cs) == Times(|averages|, w) && AverageSum(cs) == Weighted(averages, w)
    ensures EstimateFrom(cs, today)[slot] ==
            Mixed(Average(readings), Average(averages), Average(today), today[slot])
  {
    EvenMean(PriceSum(cs, |today|, slot), WeightSum(cs), readings, w);
    EvenMean(AverageSum(cs), WeightSum(cs), averages, w);
    MixedIs(cs, today, slot, Average(readings), Average(averages));
  }

  lemma {:induction false} EvenMean(sum: real, weights: real, s: seq<real>, w: real)
    requires s != [] && w > 0.0 && sum == Weighted(s, w) && weights == Times(|s|, w)
    ensures weights > 0.0 && sum / weights == Average(s)
  {
    WeightedIsScaled(s, w);
    Quotients(sum, weights, Sum(s), |s|, w);
  }

  lemma {:induction false} MixedIs(cs: seq<Column>, today: seq<real>, slot: nat, same: real, level: real)
    requires AllSampled(cs, |today|) && slot < |today| && WeightSum(cs) > 0.0
    requires PriceSum(cs, |today|, slot) / WeightSum(cs) == same && AverageSum(cs) / WeightSum(cs) == level
    ensures EstimateFrom(cs, today)[slot] == Mixed(same, level, Average(today), today[slot])
  {
    assert SameWeekday(cs, today, slot) == same && HistoryAverage(cs, today) == level;
    assert EstimateFrom(cs, today)[slot] == Normalized(cs, today, slot) * 0.65 + today[slot] * 0.35;
  }

  /** 0.65 of a price that is brought from `level` to `average` if `level` is positive, and 0.35 of `own`. */
  function Mixed(same: real, level: real, average: real, own: real): real {
    0.65 * (if level > 0.0 then same * (average / level) else same) + 0.35 * own
  }

  lemma {:induction false} SomeDay(days: seq<Day>) returns (i: nat)
    requires DayAverages(days) != []
    ensures i < |days| && days[i].prices != []
  {
    i := |days| - 1;
    if days[i].prices == [] {
      i := SomeDay(days[..i]);
    }
  }

  // ---------------------------------------------------------------- the loops

  lemma SumsNext(cs: seq<Column>, h: nat)
    requires h < |cs|
    ensures WeightSum(cs[..h + 1]) == WeightSum(cs[..h]) + cs[h].weight
    ensures AverageSum(cs[..h + 1]) == AverageSum(cs[..h]) + cs[h].average * cs[h].weight
  {
    assert cs[..h + 1][..h] == cs[..h];
  }

  lemma {:induction false} PriceSumNext(cs: seq<Column>, m: nat, h: nat, slot: nat)
    requires AllSampled(cs, m) && h < |cs| && slot < m
    ensures PriceSum(cs[..h + 1], m, slot) == PriceSum(cs[..h], m, slot) + cs[h].picks[slot] * cs[h].weight
  {
    assert cs[..h + 1][..h] == cs[..h];
  }

  /** What day `h` adds to a slot: nothing if it is not used. */
  method Pick(days: seq<Past>, m: nat, h: nat, slot: nat, ghost cs: seq<Column>) returns (price: real)
    requires slot < m && Weighed(days) && h < |days| && cs == Columns(days, m)
    ensures price == cs[h].picks[slot] * cs[h].weight
  {
    ColumnsAt(days, m, h);
    var d := days[h];
    if !Used(d) {
      return 0.0;
    }
    price := d.prices[Index(slot, |d.prices|, m)] * d.weight;
  }

  /** What day `h` adds to the averages and to the weights. */
  method Measure(days: seq<Past>, m: nat, h: nat, ghost cs: seq<Column>) returns (average: real, weight: real)
    requires 0 < m && Weighed(days) && h < |days| && cs == Columns(days, m)
    ensures average == cs[h].average * cs[h].weight && weight == cs[h].weight
  {
    ColumnsAt(days, m, h);
    var d := days[h];
    if !Used(d) {
      return 0.0, 0.0;
    }
    var sum := ComputeSum(d.prices);
    return sum / |d.prices| as real * d.weight, d.weight;
  }

  /** Gives every day its weight. */
  method WeighDays(tomorrow: Option<Summary>, days: seq<Day>) returns (r: seq<Past>)
    ensures r == Weigh(tomorrow, days)
  {
    r := [];
    while |r| < |days|
      invariant |r| <= |days|
      invariant forall i :: 0 <= i < |r| ==> r[i].prices == days[i].prices && r[i].weight == Weight(tomorrow, days[i])
    {
      var d := days[|r|];
      var weight := 1.0;
      if tomorrow.Some? && d.weather.Some? {
        weight := Similarity(tomorrow.value, d.weather.value);
      }
      r := r + [Past(d.prices, weight)];
    }
    assert r == Weigh(tomorrow, days);
  }

  /** The weighted averages of the history. */
  method SumHistory(days: seq<Past>, m: nat) returns (averages: real, weights: real)
    requires 0 < m && Weighed(days)
    ensures averages == AverageSum(Columns(days, m)) && weights == WeightSum(Columns(days, m))
  {
    averages, weights := 0.0, 0.0;
    ghost var cs := Columns(days, m);
    var h := 0;
    while h < |days|
      invariant 0 <= h <= |days|
      invariant averages == AverageSum(cs[..h]) && weights == WeightSum(cs[..h])
    {
      SumsNext(cs, h);
      var average, weight := Measure(days, m, h, cs);
      averages, weights := averages + average, weights + weight;
      h := h + 1;
    }
    assert cs[..h] == cs;
  }

  /** The weighted prices of the history at one slot. */
  method SumSlot(days: seq<Past>, m: nat, slot: nat) returns (prices: real)
    requires slot < m && Weighed(days)
    ensures prices == PriceSum(Columns(days, m), m, slot)
  {
    prices := 0.0;
    ghost var cs := Columns(days, m);
    var h := 0;
    while h < |days|
      invariant 0 <= h <= |days|
      invariant prices == PriceSum(cs[..h], m, slot)
    {
      PriceSumNext(cs, m, h, slot);
      var price := Pick(days, m, h, slot, cs);
      prices := prices + price;
      h := h + 1;
    }
    assert cs[..h] == cs;
  }

  /** Where a slot begins, of a day with `m` slots. */
  function SlotStart(start: int, m: nat, slot: nat): int
    requires 0 < m
  {
    start + slot * (86400 / m)
  }

  /** The slots follow each other without a gap, end within the day, and fill it exactly if `m` divides it. */
  lemma SlotsTile(start: int, m: nat, slot: nat)
    requires slot < m
    ensures SlotStart(start, m, slot) + 86400 / m == SlotStart(start, m, slot + 1) <= start + 86400
    ensures SlotStart(start, m, 0) == start
    ensures SlotStart(start, m, m) == start + 86400 <==> 86400 % m == 0
  {
    var d := 86400 / m;
    assert (slot + 1) * d == slot * d + d;
    MulMono(slot + 1, m, d);
    assert 86400 == m * d + 86400 % m;
  }

  /** One slot: the same weekday's price, brought to today's level. */
  method NormalizeSlot(days: seq<Past>, today: seq<real>, slot: nat, average: real, history: real, weights: real,
                       ghost cs: seq<Column>)
    returns (price: real)
    requires slot < |today| && Weighed(days) && cs == Columns(days, |today|)
    requires average == Average(today) && weights == WeightSum(cs) && history == HistoryAverage(cs, today)
    ensures price == Normalized(cs, today, slot)
  {
    var prices := SumSlot(days, |today|, slot);
    var same := Same(prices, weights, today[slot]);
    price := Scale(same, history, average);
  }

  /** Today's average and the history's. */
  method Levels(days: seq<Past>, today: seq<real>, ghost cs: seq<Column>)
    returns (average: real, history: real, weights: real)
    requires today != [] && Weighed(days) && cs == Columns(days, |today|)
    ensures average == Average(today) && weights == WeightSum(cs) && history == HistoryAverage(cs, today)
  {
    var sum := ComputeSum(today);
    average := sum / |today| as real;
    var averages;
    averages, weights := SumHistory(days, |today|);
    history := if weights > 0.0 then averages / weights else average;
  }

  method MakeSpot(start: int, m: nat, slot: nat, price: real) returns (s: Spot)
    requires slot < m
    ensures s == Spot(SlotStart(start, m, slot), SlotStart(start, m, slot + 1), price)
  {
    SlotsTile(start, m, slot);
    var duration := 86400 / m;
    var from := start + slot * duration;
    s := Spot(from, from + duration, price);
  }

  /** The prices `e`, laid out over the day. */
  predicate LaidOut(spots: seq<Spot>, start: int, e: seq<real>, m: nat)
    requires 0 < m
  {
    |spots| <= |e| && forall i :: 0 <= i < |spots| ==>
      spots[i] == Spot(SlotStart(start, m, i), SlotStart(start, m, i + 1), e[i])
  }

  /** Fails exactly without prices for today or for any earlier day. */
  method EstimateTomorrow(tomorrow: Option<Summary>, days: seq<Day>, today: seq<real>, start: int)
    returns (r: Option<seq<Spot>>)
    ensures r.Some? <==> today != [] && AnyUsed(Weigh(tomorrow, days))
    ensures r.Some? ==>
      |r.value| == |today| && LaidOut(r.value, start, Estimate(Weigh(tomorrow, days), today), |today|)
  {
    var past := WeighDays(tomorrow, days);
    if today == [] || !AnyUsed(past) {
      return None;
    }
    ghost var cs := Columns(past, |today|);
    ghost var e := EstimateFrom(cs, today);
    var average, history, weights := Levels(past, today, cs);
    var spots: seq<Spot> := [];
    while |spots| < |today|
      invariant |spots| <= |today| && LaidOut(spots, start, e, |today|)
    {
      var slot := |spots|;
      var normalized := NormalizeSlot(past, today, slot, average, history, weights, cs);
      var spot := MakeSpot(start, |today|, slot, normalized * 0.65 + today[slot] * 0.35);
      assert spot.price == e[slot];
      spots := spots + [spot];
    }
    return Some(spots);
  }
}

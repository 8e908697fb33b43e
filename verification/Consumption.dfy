/**
 The consumption profile: meter readings become energy per quarter of an hour, today's and that of the
 days before it.
 */
module Consumption {
  import opened Numbers
  import opened Wrappers
  import opened Averages

  const BUCKETS := 96
  const MAX_DAYS := 30
  const DAY := 86400
  const MAX_GAP := 7200
  const PEAK := 1.35

  /** A stored reading: when it came, and the figures that its flags say are present. */
  datatype Row = Row(at: int, energy: Option<real>, average: Option<real>, power: Option<real>)

  /** `bucket` gives the quarter of the local day. */
  datatype Window = Window(today: int, tomorrow: int, days: nat, bucket: int -> int)

  datatype Place = Today(bucket: nat) | History(day: nat, bucket: nat) | Nowhere

  // ---------------------------------------------------------------- where a reading goes

  /** Division as the C language has it: towards zero. */
  function Truncate(x: int, y: int): int
    requires y > 0
  {
    if x >= 0 then x / y else -((-x) / y)
  }

  function WindowStart(w: Window): int {
    w.today - w.days * DAY
  }

  function DayIndex(w: Window, at: int): int {
    Truncate(at - WindowStart(w), DAY)
  }

  predicate InBuckets(b: int) {
    0 <= b < BUCKETS
  }

  function PlaceOf(w: Window, at: int): Place {
    var b := w.bucket(at);
    if !InBuckets(b) then Nowhere
    else if w.today <= at < w.tomorrow then Today(b)
    else if at < w.today && 0 <= DayIndex(w, at) < w.days then History(DayIndex(w, at), b)
    else Nowhere
  }

  /** The kilowatt hours of so many watts over so many seconds. */
  function KilowattHours(watts: real, seconds: int): real {
    (watts / 1000.0) * (seconds as real / 3600.0)
  }

  /** The energy between two readings; none if they are out of order, too far apart, or say nothing usable. */
  function Energy(prev: Row, cur: Row): Option<real> {
    var span := cur.at - prev.at;
    if span <= 0 || span > MAX_GAP then None
    else if prev.energy.Some? && cur.energy.Some? then
      var kwh := cur.energy.value - prev.energy.value;
      if kwh < 0.0 || kwh > 50.0 then None else Some(kwh)
    else if cur.average.Some? then Some(KilowattHours(cur.average.value, span))
    else if cur.power.Some? then Some(KilowattHours(cur.power.value, span))
    else None
  }

  // ---------------------------------------------------------------- the sums

  datatype Totals = Totals(today: seq<real>, total: real, history: seq<seq<real>>, seen: seq<bool>)

  function Nothing(): Totals {
    Totals(Zeros(BUCKETS), 0.0, seq(MAX_DAYS, _ => Zeros(BUCKETS)), seq(MAX_DAYS, _ => false))
  }

  predicate Shaped(t: Totals) {
    && |t.today| == BUCKETS && |t.history| == MAX_DAYS && |t.seen| == MAX_DAYS
    && forall d :: 0 <= d < MAX_DAYS ==> |t.history[d]| == BUCKETS
  }

  predicate Fits(p: Place) {
    match p
    case Today(b) => b < BUCKETS
    case History(d, b) => d < MAX_DAYS && b < BUCKETS
    case Nowhere => true
  }

  function AddAt(s: seq<real>, i: nat, x: real): (r: seq<real>)
    requires i < |s|
    ensures |r| == |s|
  {
    s[i := s[i] + x]
  }

  function Add(t: Totals, p: Place, kwh: real): (r: Totals)
    requires Shaped(t) && Fits(p)
    ensures Shaped(r)
  {
    match p
    case Today(b) => t.(today := AddAt(t.today, b, kwh), total := t.total + kwh)
    case History(d, b) => t.(history := t.history[d := AddAt(t.history[d], b, kwh)], seen := t.seen[d := true])
    case Nowhere => t
  }

  /** What the next of the rows adds. */
  function AddRow(w: Window, t: Totals, prev: Row, cur: Row): (r: Totals)
    requires w.days <= MAX_DAYS && Shaped(t)
    ensures Shaped(r)
  {
    var kwh := Energy(prev, cur);
    if kwh.None? then t else Add(t, PlaceOf(w, cur.at), kwh.value)
  }

  function Accumulated(w: Window, rows: seq<Row>): (t: Totals)
    requires w.days <= MAX_DAYS
    ensures Shaped(t)
  {
    if |rows| < 2 then Nothing()
    else AddRow(w, Accumulated(w, rows[..|rows| - 1]), rows[|rows| - 2], rows[|rows| - 1])
  }

  function SumAll(rows: seq<seq<real>>): real {
    if rows == [] then 0.0 else SumAll(rows[..|rows| - 1]) + Sum(rows[|rows| - 1])
  }

  /** The energy of all accepted intervals of the history. */
  function HistoryEnergy(w: Window, rows: seq<Row>): real {
    if |rows| < 2 then 0.0
    else
      var prev, cur := rows[|rows| - 2], rows[|rows| - 1];
      var kwh := Energy(prev, cur);
      HistoryEnergy(w, rows[..|rows| - 1]) + (if kwh.Some? && PlaceOf(w, cur.at).History? then kwh.value else 0.0)
  }

  lemma {:induction false} SumAddAt(s: seq<real>, i: nat, x: real)
    requires i < |s|
    ensures Sum(AddAt(s, i, x)) == Sum(s) + x
  {
    var t := AddAt(s, i, x);
    if i == |s| - 1 {
      assert t[..|t| - 1] == s[..|s| - 1];
    } else {
      SumAddAt(s[..|s| - 1], i, x);
      assert t[..|t| - 1] == AddAt(s[..|s| - 1], i, x);
    }
  }

  lemma {:induction false} SumAllAddAt(rows: seq<seq<real>>, d: nat, b: nat, x: real)
    requires d < |rows| && b < |rows[d]|
    ensures SumAll(rows[d := AddAt(rows[d], b, x)]) == SumAll(rows) + x
  {
    var t := rows[d := AddAt(rows[d], b, x)];
    if d == |rows| - 1 {
      SumAddAt(rows[d], b, x);
      assert t[..|t| - 1] == rows[..|rows| - 1];
    } else {
      SumAllAddAt(rows[..|rows| - 1], d, b, x);
      assert t[..|t| - 1] == rows[..|rows| - 1][d := AddAt(rows[d], b, x)];
    }
  }

  lemma {:induction false} SumZeros(s: seq<real>)
    requires forall i :: 0 <= i < |s| ==> s[i] == 0.0
    ensures Sum(s) == 0.0
  {
    if s != [] {
      SumZeros(s[..|s| - 1]);
    }
  }

  lemma {:induction false} SumAllZeros(rows: seq<seq<real>>)
    requires forall d :: 0 <= d < |rows| ==> Sum(rows[d]) == 0.0
    ensures SumAll(rows) == 0.0
  {
    if rows != [] {
      SumAllZeros(rows[..|rows| - 1]);
    }
  }

  /** Nothing is lost: today's buckets add up to today's total, the history's to its accepted intervals. */
  lemma {:induction false} EnergyIsConserved(w: Window, rows: seq<Row>)
    requires w.days <= MAX_DAYS
    ensures Sum(Accumulated(w, rows).today) == Accumulated(w, rows).total
    ensures SumAll(Accumulated(w, rows).history) == HistoryEnergy(w, rows)
  {
    if |rows| < 2 {
      SumZeros(Zeros(BUCKETS));
      SumAllZeros(Nothing().history);
    } else {
      var init, prev, cur := rows[..|rows| - 1], rows[|rows| - 2], rows[|rows| - 1];
      var t := Accumulated(w, init);
      EnergyIsConserved(w, init);
      if Energy(prev, cur).Some? {
        var kwh := Energy(prev, cur).value;
        match PlaceOf(w, cur.at)
        case Today(b) => SumAddAt(t.today, b, kwh);
        case History(d, b) => SumAllAddAt(t.history, d, b, kwh);
        case Nowhere =>
      }
    }
  }

  // ---------------------------------------------------------------- what each day holds

  /** History days follow each other, but division towards zero gives the first the day before it as well. */
  function DayFrom(w: Window, d: nat): int {
    if d == 0 then WindowStart(w) - DAY + 1 else WindowStart(w) + d * DAY
  }

  function DayUntil(w: Window, d: nat): int {
    WindowStart(w) + (d + 1) * DAY
  }

  lemma DayIndexIff(w: Window, at: int, d: nat)
    ensures DayIndex(w, at) == d <==> DayFrom(w, d) <= at < DayUntil(w, d)
  {
  }

  /** The energy of the accepted intervals that end in a span of time and in bucket `b` of their day. */
  function BucketEnergy(w: Window, rows: seq<Row>, from: int, until: int, b: nat): real {
    if |rows| < 2 then 0.0
    else
      var kwh, at := Energy(rows[|rows| - 2], rows[|rows| - 1]), rows[|rows| - 1].at;
      BucketEnergy(w, rows[..|rows| - 1], from, until, b)
      + (if kwh.Some? && from <= at < until && w.bucket(at) == b then kwh.value else 0.0)
  }

  /** The energy of the accepted intervals that end in a span of time, in any bucket. */
  function SpanEnergy(w: Window, rows: seq<Row>, from: int, until: int): real {
    if |rows| < 2 then 0.0
    else
      var kwh, at := Energy(rows[|rows| - 2], rows[|rows| - 1]), rows[|rows| - 1].at;
      SpanEnergy(w, rows[..|rows| - 1], from, until)
      + (if kwh.Some? && from <= at < until && InBuckets(w.bucket(at)) then kwh.value else 0.0)
  }

  lemma PlacedInDay(w: Window, at: int, d: nat, b: nat)
    requires d < w.days && b < BUCKETS
    ensures PlaceOf(w, at) == History(d, b) <==> DayFrom(w, d) <= at < DayUntil(w, d) && w.bucket(at) == b
  {
    DayIndexIff(w, at, d);
    assert (d + 1) * DAY <= w.days * DAY;
  }

  /**
   The days of the history end where today begins, and each has 86400 seconds; the first takes in the day before it
   as well, but for that day's first second.
   */
  lemma HistoryDays(w: Window, at: int, d: nat, b: nat)
    requires d < w.days && b < 96
    ensures var last := w.today - (w.days - d - 1) * 86400;
      PlaceOf(w, at) == History(d, b) <==>
      w.bucket(at) == b && last - (if d == 0 then 2 * 86400 - 1 else 86400) <= at < last
  {
    PlacedInDay(w, at, d, b);
    assert (w.days - d - 1) * 86400 == w.days * 86400 - (d + 1) * 86400;
  }

  /** Every cell of the table of the history, from the readings and the bounds of its day. */
  lemma {:induction false} HistoryHolds(w: Window, rows: seq<Row>, d: nat, b: nat)
    requires d < w.days <= MAX_DAYS && b < BUCKETS
    ensures Accumulated(w, rows).history[d][b] == BucketEnergy(w, rows, DayFrom(w, d), DayUntil(w, d), b)
  {
    if |rows| >= 2 {
      HistoryHolds(w, rows[..|rows| - 1], d, b);
      PlacedInDay(w, rows[|rows| - 1].at, d, b);
    }
  }

  /** And every bucket of today. */
  lemma {:induction false} TodayHolds(w: Window, rows: seq<Row>, b: nat)
    requires w.days <= MAX_DAYS && b < BUCKETS
    ensures Accumulated(w, rows).today[b] == BucketEnergy(w, rows, w.today, w.tomorrow, b)
  {
    if |rows| >= 2 {
      TodayHolds(w, rows[..|rows| - 1], b);
    }
  }

  lemma {:induction false} BucketsAddUp(w: Window, rows: seq<Row>, from: int, until: int, s: seq<real>)
    requires |s| == BUCKETS && forall b :: 0 <= b < BUCKETS ==> s[b] == BucketEnergy(w, rows, from, until, b)
    ensures Sum(s) == SpanEnergy(w, rows, from, until)
  {
    if |rows| < 2 {
      SumZeros(s);
    } else {
      var init, at := rows[..|rows| - 1], rows[|rows| - 1].at;
      var kwh := Energy(rows[|rows| - 2], rows[|rows| - 1]);
      var before := seq(BUCKETS, b requires 0 <= b < BUCKETS => BucketEnergy(w, init, from, until, b));
      BucketsAddUp(w, init, from, until, before);
      if kwh.Some? && from <= at < until && InBuckets(w.bucket(at)) {
        SumAddAt(before, w.bucket(at), kwh.value);
        assert s == AddAt(before, w.bucket(at), kwh.value);
      } else {
        assert s == before;
      }
    }
  }

  /**
   A history day holds exactly the accepted intervals of its 24 hours, the first one those of the 24 hours
   before them as well; today holds those of today.
   */
  lemma {:induction false} DaysHold(w: Window, rows: seq<Row>)
    requires w.days <= MAX_DAYS
    ensures var t := Accumulated(w, rows);
      && (forall d: nat :: d < w.days ==> Sum(t.history[d]) == SpanEnergy(w, rows, DayFrom(w, d), DayUntil(w, d)))
      && t.total == SpanEnergy(w, rows, w.today, w.tomorrow)
  {
    var t := Accumulated(w, rows);
    forall d: nat | d < w.days
      ensures Sum(t.history[d]) == SpanEnergy(w, rows, DayFrom(w, d), DayUntil(w, d))
    {
      forall b | 0 <= b < BUCKETS
        ensures t.history[d][b] == BucketEnergy(w, rows, DayFrom(w, d), DayUntil(w, d), b)
      {
        HistoryHolds(w, rows, d, b);
      }
      BucketsAddUp(w, rows, DayFrom(w, d), DayUntil(w, d), t.history[d]);
    }
    forall b | 0 <= b < BUCKETS
      ensures t.today[b] == BucketEnergy(w, rows, w.today, w.tomorrow, b)
    {
      TodayHolds(w, rows, b);
    }
    BucketsAddUp(w, rows, w.today, w.tomorrow, t.today);
    EnergyIsConserved(w, rows);
  }

  lemma PlacedInHistory(w: Window, at: int)
    requires w.days >= 1
    ensures PlaceOf(w, at).History? <==> DayFrom(w, 0) <= at < w.today && InBuckets(w.bucket(at))
  {
  }

  /** The days leave no gap: all together hold what ends between the start of the first and today. */
  lemma {:induction false} HistoryIsOneSpan(w: Window, rows: seq<Row>)
    requires 1 <= w.days <= MAX_DAYS
    ensures SumAll(Accumulated(w, rows).history) == SpanEnergy(w, rows, DayFrom(w, 0), w.today)
  {
    EnergyIsConserved(w, rows);
    if |rows| >= 2 {
      HistoryIsOneSpan(w, rows[..|rows| - 1]);
      EnergyIsConserved(w, rows[..|rows| - 1]);
      PlacedInHistory(w, rows[|rows| - 1].at);
    }
  }

  /** A day that was not seen holds nothing. */
  lemma {:induction false} UnseenIsEmpty(w: Window, rows: seq<Row>, d: nat)
    requires w.days <= MAX_DAYS && d < MAX_DAYS && !Accumulated(w, rows).seen[d]
    ensures Accumulated(w, rows).history[d] == Zeros(BUCKETS)
  {
    if |rows| >= 2 {
      UnseenIsEmpty(w, rows[..|rows| - 1], d);
    }
  }

  lemma {:induction false} OnlyWindowIsSeen(w: Window, rows: seq<Row>, d: nat)
    requires w.days <= MAX_DAYS && w.days <= d < MAX_DAYS
    ensures !Accumulated(w, rows).seen[d]
  {
    if |rows| >= 2 {
      OnlyWindowIsSeen(w, rows[..|rows| - 1], d);
    }
  }

  // ---------------------------------------------------------------- the meter bounds what is accepted

  predicate Metered(rows: seq<Row>) {
    && (forall i :: 0 <= i < |rows| ==> rows[i].energy.Some?)
    && (forall i :: 0 < i < |rows| ==> rows[i - 1].energy.value <= rows[i].energy.value)
  }

  /**
   When every reading carries the meter and the meter never falls, all accepted energy lies between its
   first and its last value.
   */
  lemma {:induction false} MeterBoundsEnergy(w: Window, rows: seq<Row>)
    requires w.days <= MAX_DAYS && rows != [] && Metered(rows)
    ensures 0.0 <= Accumulated(w, rows).total + HistoryEnergy(w, rows)
            <= rows[|rows| - 1].energy.value - rows[0].energy.value
  {
    if |rows| >= 2 {
      var init := rows[..|rows| - 1];
      assert Metered(init);
      MeterBoundsEnergy(w, init);
      assert rows[|rows| - 2].energy.value <= rows[|rows| - 1].energy.value;
    }
  }

  // ---------------------------------------------------------------- what the figures are worth

  /** An interval counts if it lasts up to two hours and either the meter rose by at most 50 or a power is there. */
  lemma AcceptedIff(prev: Row, cur: Row)
    ensures Energy(prev, cur).Some? <==>
      && 0 < cur.at - prev.at <= 7200
      && (if prev.energy.Some? && cur.energy.Some? then 0.0 <= cur.energy.value - prev.energy.value <= 50.0
          else cur.average.Some? || cur.power.Some?)
  {
  }

  /** Of the rows after the first, exactly those numbered `i + 1` to `j` came in the span. */
  predicate Covers(rows: seq<Row>, from: int, until: int, i: nat, j: nat) {
    i <= j < |rows| && forall k :: 1 <= k < |rows| ==> (from <= rows[k].at < until <==> i < k <= j)
  }

  lemma CoversInit(rows: seq<Row>, from: int, until: int, i: nat, j: nat)
    requires Covers(rows, from, until, i, j) && i < |rows| - 1
    ensures var n := |rows| - 1; Covers(rows[..n], from, until, i, if j == n then n - 1 else j)
  {
  }

  lemma {:induction false} NothingInSpan(w: Window, rows: seq<Row>, from: int, until: int, i: nat)
    requires Covers(rows, from, until, i, i)
    ensures SpanEnergy(w, rows, from, until) == 0.0
  {
    if |rows| >= 2 {
      var n := |rows| - 1;
      var init := rows[..n];
      assert Covers(init, from, until, if i == n then n - 1 else i, if i == n then n - 1 else i);
      NothingInSpan(w, init, from, until, if i == n then n - 1 else i);
    }
  }

  /** The intervals that end at the rows `i + 1` to `j` have the steps of `f` as their energy, in some bucket. */
  predicate StepsOf(w: Window, rows: seq<Row>, f: seq<real>, i: nat, j: nat) {
    && j < |rows| == |f|
    && forall k :: i < k <= j ==>
         Energy(rows[k - 1], rows[k]) == Some(f[k] - f[k - 1]) && InBuckets(w.bucket(rows[k].at))
  }

  lemma {:induction false} SpanStep(w: Window, rows: seq<Row>, from: int, until: int, i: nat, j: nat, f: seq<real>)
    requires Covers(rows, from, until, i, j) && StepsOf(w, rows, f, i, j) && i < j
    ensures var n := |rows| - 1;
      SpanEnergy(w, rows, from, until) ==
        SpanEnergy(w, rows[..n], from, until) + (if j == n then f[n] - f[n - 1] else 0.0)
  {
  }

  lemma {:induction false} SpanTelescopes(w: Window, rows: seq<Row>, from: int, until: int, i: nat, j: nat,
      f: seq<real>)
    requires Covers(rows, from, until, i, j) && StepsOf(w, rows, f, i, j)
    ensures SpanEnergy(w, rows, from, until) == f[j] - f[i]
  {
    if i == j {
      NothingInSpan(w, rows, from, until, i);
    } else {
      var n := |rows| - 1;
      SpanStep(w, rows, from, until, i, j, f);
      CoversInit(rows, from, until, i, j);
      if j == n {
        StepsInit(w, rows, f, i, j, n - 1);
        SpanTelescopes(w, rows[..n], from, until, i, n - 1, f[..n]);
      } else {
        StepsInit(w, rows, f, i, j, j);
        SpanTelescopes(w, rows[..n], from, until, i, j, f[..n]);
      }
    }
  }

  lemma StepsInit(w: Window, rows: seq<Row>, f: seq<real>, i: nat, j: nat, last: nat)
    requires StepsOf(w, rows, f, i, j) && last <= j && last < |rows| - 1
    ensures StepsOf(w, rows[..|rows| - 1], f[..|rows| - 1], i, last)
  {
  }

  /** Consecutive rows are at most two hours apart, and each of the rows falls into a bucket of its day. */
  predicate Regular(w: Window, rows: seq<Row>) {
    && (forall k :: 1 <= k < |rows| ==> 0 < rows[k].at - rows[k - 1].at <= 7200)
    && (forall k :: 0 <= k < |rows| ==> 0 <= w.bucket(rows[k].at) < 96)
  }

  function Meter(rows: seq<Row>): (f: seq<real>)
    requires forall k :: 0 <= k < |rows| ==> rows[k].energy.Some?
    ensures |f| == |rows| && forall k :: 0 <= k < |rows| ==> f[k] == rows[k].energy.value
  {
    seq(|rows|, k requires 0 <= k < |rows| => rows[k].energy.value)
  }

  /**
   With a meter that never falls and never rises by more than 50 between two readings, a span of time holds what
   the meter rose by: its last reading of the span less the last one before the span.
   */
  lemma {:induction false} SpanIsMeterStep(w: Window, rows: seq<Row>, from: int, until: int, i: nat, j: nat)
    requires Covers(rows, from, until, i, j) && Regular(w, rows) && Metered(rows)
    requires forall k :: 1 <= k < |rows| ==> rows[k].energy.value - rows[k - 1].energy.value <= 50.0
    ensures SpanEnergy(w, rows, from, until) == rows[j].energy.value - rows[i].energy.value
  {
    var f := Meter(rows);
    forall k | i < k <= j
      ensures Energy(rows[k - 1], rows[k]) == Some(f[k] - f[k - 1]) && InBuckets(w.bucket(rows[k].at))
    {
      assert rows[k - 1].energy.value <= rows[k].energy.value;
    }
    SpanTelescopes(w, rows, from, until, i, j, f);
  }

  /** A row without a meter whose average says `watts`, or, if there is none, whose power does. */
  predicate Draws(r: Row, watts: real) {
    r.energy.None? && (r.average == Some(watts) || (r.average.None? && r.power == Some(watts)))
  }

  /** What a constant draw has used at a time, in kilowatt hours. */
  function Drawn(watts: real, at: int): real {
    watts * at as real / 3600000.0
  }

  /** So many kilowatt hours are so many watts from one time to another: 3 600 000 watt seconds make one. */
  predicate IsDrawn(watts: real, a: int, b: int, kwh: real) {
    3600000.0 * kwh == watts * (b - a) as real
  }

  lemma DrawnIs(watts: real, at: int, x: real)
    requires x == Drawn(watts, at)
    ensures 3600000.0 * x == watts * at as real
  {
    TimesBack(x, watts * at as real);
  }

  lemma TimesBack(x: real, p: real)
    requires x == p / 3600000.0
    ensures 3600000.0 * x == p
  {
  }

  lemma Units(kilowatts: real, hours: real, watts: real, seconds: real, x: real)
    requires watts == 1000.0 * kilowatts && seconds == 3600.0 * hours && 3600000.0 * x == watts * seconds
    ensures kilowatts * hours == x
  {
    assert 3600000.0 * (kilowatts * hours) == watts * seconds;
  }

  lemma Distribute(w: real, x: real, y: real)
    ensures w * (y - x) == w * y - w * x
  {
  }

  lemma DrawnBetween(watts: real, a: int, b: int, f: real, g: real)
    requires f == Drawn(watts, a) && g == Drawn(watts, b)
    ensures IsDrawn(watts, a, b, g - f)
    ensures KilowattHours(watts, b - a) == g - f
  {
    DrawnIs(watts, a, f);
    DrawnIs(watts, b, g);
    var seconds := (b - a) as real;
    assert seconds == b as real - a as real;
    Distribute(watts, a as real, b as real);
    Units(watts / 1000.0, seconds / 3600.0, watts, seconds, g - f);
  }

  lemma DrawnStep(watts: real, prev: Row, cur: Row, f: real, g: real)
    requires Draws(cur, watts) && 0 < cur.at - prev.at <= 7200
    requires f == Drawn(watts, prev.at) && g == Drawn(watts, cur.at)
    ensures Energy(prev, cur) == Some(g - f)
  {
    DrawnBetween(watts, prev.at, cur.at, f, g);
  }

  lemma DrawnSteps(w: Window, rows: seq<Row>, watts: real, i: nat, j: nat) returns (f: seq<real>)
    requires i <= j < |rows| && Regular(w, rows) && forall k :: 0 <= k < |rows| ==> Draws(rows[k], watts)
    ensures StepsOf(w, rows, f, i, j) && IsDrawn(watts, rows[i].at, rows[j].at, f[j] - f[i])
  {
    f := seq(|rows|, k requires 0 <= k < |rows| => Drawn(watts, rows[k].at));
    forall k | i < k <= j
      ensures Energy(rows[k - 1], rows[k]) == Some(f[k] - f[k - 1]) && InBuckets(w.bucket(rows[k].at))
    {
      DrawnStep(watts, rows[k - 1], rows[k], f[k - 1], f[k]);
    }
    DrawnBetween(watts, rows[i].at, rows[j].at, f[i], f[j]);
  }

  /**
   Without a meter and at a constant draw, a span of time holds the watts times its seconds, in kilowatt hours. The
   average of the quarter goes before the momentary power.
   */
  lemma {:induction false} SpanIsWattSeconds(w: Window, rows: seq<Row>, from: int, until: int, i: nat, j: nat,
      watts: real)
    requires Covers(rows, from, until, i, j) && Regular(w, rows)
    requires forall k :: 0 <= k < |rows| ==> Draws(rows[k], watts)
    ensures IsDrawn(watts, rows[i].at, rows[j].at, SpanEnergy(w, rows, from, until))
  {
    var f := DrawnSteps(w, rows, watts, i, j);
    SpanTelescopes(w, rows, from, until, i, j, f);
  }

  // ---------------------------------------------------------------- the trend

  function SeenDays(seen: seq<bool>): nat {
    if seen == [] then 0 else SeenDays(seen[..|seen| - 1]) + (if seen[|seen| - 1] then 1 else 0)
  }

  /** Bucket by bucket over the days that were seen. */
  function DaySum(history: seq<seq<real>>, seen: seq<bool>, b: nat): real
    requires |history| == |seen| && forall d :: 0 <= d < |history| ==> b < |history[d]|
  {
    if seen == [] then 0.0
    else
      var n := |seen| - 1;
      DaySum(history[..n], seen[..n], b) + (if seen[n] then history[n][b] else 0.0)
  }

  predicate Rows(history: seq<seq<real>>) {
    forall d :: 0 <= d < |history| ==> |history[d]| == BUCKETS
  }

  function DaySums(history: seq<seq<real>>, seen: seq<bool>): (s: seq<real>)
    requires |history| == |seen| && Rows(history)
    ensures |s| == BUCKETS && forall b :: 0 <= b < BUCKETS ==> s[b] == DaySum(history, seen, b)
  {
    seq(BUCKETS, b requires 0 <= b < BUCKETS => DaySum(history, seen, b))
  }

  /** The mean day of the history. */
  function Trend(history: seq<seq<real>>, seen: seq<bool>): (s: seq<real>)
    requires |history| == |seen| && Rows(history)
    ensures |s| == BUCKETS
    ensures forall b :: 0 <= b < BUCKETS ==>
      s[b] == if SeenDays(seen) > 0 then DaySum(history, seen, b) / SeenDays(seen) as real else 0.0
  {
    seq(BUCKETS, b requires 0 <= b < BUCKETS =>
      if SeenDays(seen) > 0 then DaySum(history, seen, b) / SeenDays(seen) as real else 0.0)
  }

  predicate UnseenEmpty(history: seq<seq<real>>, seen: seq<bool>) {
    |history| == |seen| && forall d :: 0 <= d < |seen| && !seen[d] ==> Sum(history[d]) == 0.0
  }

  lemma {:induction false} DaySumsTotal(history: seq<seq<real>>, seen: seq<bool>)
    requires UnseenEmpty(history, seen) && Rows(history)
    ensures Sum(DaySums(history, seen)) == SumAll(history)
  {
    if seen == [] {
      SumZeros(DaySums(history, seen));
    } else {
      var n := |seen| - 1;
      DaySumsTotal(history[..n], seen[..n]);
      if seen[n] {
        SumAdd(DaySums(history[..n], seen[..n]), history[n], DaySums(history, seen));
      } else {
        assert DaySums(history, seen) == DaySums(history[..n], seen[..n]);
      }
    }
  }

  lemma ScaleBack(n: real, x: real, y: real, k: real)
    requires n > 0.0 && k == 1.0 / n && y == k * x
    ensures n * y == x
  {
  }

  lemma {:induction false} SumOfShares(sums: seq<real>, shares: seq<real>, n: real, k: real)
    requires n > 0.0 && k == 1.0 / n && |sums| == |shares| && forall b :: 0 <= b < |sums| ==> shares[b] == sums[b] / n
    ensures Sum(shares) == k * Sum(sums)
  {
    forall b | 0 <= b < |sums|
      ensures shares[b] == k * sums[b]
    {
      DivideIsScale(sums[b], n, k);
    }
    SumScale(sums, shares, k);
  }

  lemma {:induction false} Back(n: nat, x: real, y: real, k: real)
    requires n > 0 && k == 1.0 / n as real && y == k * x
    ensures Times(n, y) == x
  {
    ScaleBack(n as real, x, y, k);
    TimesIsProduct(n, y);
  }

  lemma {:induction false} SharesAddUp(sums: seq<real>, shares: seq<real>, n: nat, r: real, k: real)
    requires n > 0 && r == n as real && k == 1.0 / r
    requires |sums| == |shares| && forall b :: 0 <= b < |sums| ==> shares[b] == sums[b] / r
    ensures Times(n, Sum(shares)) == Sum(sums)
  {
    SumOfShares(sums, shares, r, k);
    Back(n, Sum(sums), Sum(shares), k);
  }

  lemma {:induction false} TrendTotal(history: seq<seq<real>>, seen: seq<bool>)
    requires UnseenEmpty(history, seen) && Rows(history) && SeenDays(seen) > 0
    ensures Times(SeenDays(seen), Sum(Trend(history, seen))) == SumAll(history)
  {
    DaySumsTotal(history, seen);
    var r := SeenDays(seen) as real;
    SharesAddUp(DaySums(history, seen), Trend(history, seen), SeenDays(seen), r, 1.0 / r);
  }

  lemma {:induction false} SumAllPrefix(rows: seq<seq<real>>, k: nat)
    requires k <= |rows| && forall d :: k <= d < |rows| ==> Sum(rows[d]) == 0.0
    ensures SumAll(rows[..k]) == SumAll(rows)
  {
    if k == |rows| {
      assert rows[..k] == rows;
    } else {
      SumAllPrefix(rows[..|rows| - 1], k);
      assert rows[..|rows| - 1][..k] == rows[..k];
    }
  }

  /** The trend of the last `days` days, as far as they were seen. */
  function TrendOf(w: Window, t: Totals): (s: seq<real>)
    requires Shaped(t) && w.days <= MAX_DAYS
    ensures |s| == BUCKETS
  {
    Trend(t.history[..w.days], t.seen[..w.days])
  }

  function DaysSeen(w: Window, t: Totals): nat
    requires Shaped(t) && w.days <= MAX_DAYS
  {
    SeenDays(t.seen[..w.days])
  }

  lemma {:induction false} OutsideIsEmpty(w: Window, rows: seq<Row>)
    requires w.days <= MAX_DAYS
    ensures UnseenEmpty(Accumulated(w, rows).history, Accumulated(w, rows).seen)
    ensures forall d :: w.days <= d < MAX_DAYS ==> Sum(Accumulated(w, rows).history[d]) == 0.0
  {
    var t := Accumulated(w, rows);
    forall d | 0 <= d < MAX_DAYS && !t.seen[d]
      ensures Sum(t.history[d]) == 0.0
    {
      UnseenIsEmpty(w, rows, d);
      SumZeros(Zeros(BUCKETS));
    }
    forall d | w.days <= d < MAX_DAYS
      ensures Sum(t.history[d]) == 0.0
    {
      OnlyWindowIsSeen(w, rows, d);
    }
  }

  lemma {:induction false} WindowTrend(history: seq<seq<real>>, seen: seq<bool>, k: nat)
    requires UnseenEmpty(history, seen) && Rows(history) && k <= |seen| && SeenDays(seen[..k]) > 0
    requires forall d :: k <= d < |history| ==> Sum(history[d]) == 0.0
    ensures Times(SeenDays(seen[..k]), Sum(Trend(history[..k], seen[..k]))) == SumAll(history)
  {
    TrendTotal(history[..k], seen[..k]);
    SumAllPrefix(history, k);
  }

  /** The trend's total, once for each day seen, is the energy of all accepted history intervals. */
  lemma {:induction false} TrendIsConserved(w: Window, rows: seq<Row>)
    requires w.days <= MAX_DAYS && DaysSeen(w, Accumulated(w, rows)) > 0
    ensures var t := Accumulated(w, rows); Times(DaysSeen(w, t), Sum(TrendOf(w, t))) == HistoryEnergy(w, rows)
  {
    var t := Accumulated(w, rows);
    OutsideIsEmpty(w, rows);
    WindowTrend(t.history, t.seen, w.days);
    EnergyIsConserved(w, rows);
  }

  lemma {:induction false} SeenIff(w: Window, rows: seq<Row>, d: nat)
    requires d < w.days <= MAX_DAYS
    ensures Accumulated(w, rows).seen[d] <==> SeenBy(w, rows, d)
  {
    if |rows| >= 2 {
      var n := |rows| - 1;
      SeenIff(w, rows[..n], d);
      SeenByLast(w, rows, d);
      DayIndexIff(w, rows[n].at, d);
    }
  }

  /** The interval that ends at row `k` is accepted and ends in the day `d` of the history, in a bucket of it. */
  predicate EndsIn(w: Window, rows: seq<Row>, d: nat, k: nat)
    requires 1 <= k < |rows|
  {
    && Energy(rows[k - 1], rows[k]).Some? && DayFrom(w, d) <= rows[k].at < DayUntil(w, d)
    && InBuckets(w.bucket(rows[k].at))
  }

  predicate SeenBy(w: Window, rows: seq<Row>, d: nat) {
    exists k :: 1 <= k < |rows| && EndsIn(w, rows, d, k)
  }

  lemma SeenByLast(w: Window, rows: seq<Row>, d: nat)
    requires |rows| >= 2
    ensures SeenBy(w, rows, d) <==> SeenBy(w, rows[..|rows| - 1], d) || EndsIn(w, rows, d, |rows| - 1)
  {
    var n := |rows| - 1;
    if k :| 1 <= k < |rows[..n]| && EndsIn(w, rows[..n], d, k) {
      assert EndsIn(w, rows, d, k);
    }
    if k :| 1 <= k < |rows| && EndsIn(w, rows, d, k) {
      assert k == n || EndsIn(w, rows[..n], d, k);
    }
  }

  lemma {:induction false} SeenDaysIsCardinality(seen: seq<bool>)
    ensures SeenDays(seen) == |set d | 0 <= d < |seen| && seen[d]|
  {
    var all := set d | 0 <= d < |seen| && seen[d];
    if seen == [] {
      assert all == {};
    } else {
      var n := |seen| - 1;
      var before := set d | 0 <= d < |seen[..n]| && seen[..n][d];
      SeenDaysIsCardinality(seen[..n]);
      assert all == if seen[n] then before + {n} else before;
    }
  }

  /** The days that count are those in which an accepted interval ends. */
  lemma {:induction false} DaysSeenAre(w: Window, rows: seq<Row>)
    requires w.days <= MAX_DAYS
    ensures DaysSeen(w, Accumulated(w, rows)) == |set d: nat | d < w.days && SeenBy(w, rows, d)|
  {
    var seen := Accumulated(w, rows).seen[..w.days];
    SeenDaysIsCardinality(seen);
    forall d: nat | d < w.days
      ensures seen[d] <==> SeenBy(w, rows, d)
    {
      SeenIff(w, rows, d);
    }
    assert (set d | 0 <= d < |seen| && seen[d]) == set d: nat | d < w.days && SeenBy(w, rows, d);
  }

  lemma {:induction false} DaySumIsSpan(w: Window, rows: seq<Row>, k: nat, b: nat)
    requires k <= w.days <= MAX_DAYS && b < BUCKETS
    ensures var t := Accumulated(w, rows);
      DaySum(t.history[..k], t.seen[..k], b) ==
        if k == 0 then 0.0 else BucketEnergy(w, rows, DayFrom(w, 0), DayUntil(w, k - 1), b)
  {
    var t := Accumulated(w, rows);
    if k > 0 {
      var n := k - 1;
      DaySumIsSpan(w, rows, n, b);
      HistoryHolds(w, rows, n, b);
      assert t.history[..k][..n] == t.history[..n] && t.seen[..k][..n] == t.seen[..n];
      if !t.seen[n] {
        UnseenIsEmpty(w, rows, n);
      }
      if n > 0 {
        BucketSpans(w, rows, DayFrom(w, 0), DayFrom(w, n), DayUntil(w, n), b);
      }
    }
  }

  lemma {:induction false} BucketSpans(w: Window, rows: seq<Row>, from: int, mid: int, until: int, b: nat)
    requires from <= mid <= until
    ensures BucketEnergy(w, rows, from, until, b) ==
            BucketEnergy(w, rows, from, mid, b) + BucketEnergy(w, rows, mid, until, b)
  {
    if |rows| >= 2 {
      BucketSpans(w, rows[..|rows| - 1], from, mid, until, b);
    }
  }

  /** A bucket of the trend, once for each day seen, is what the whole history holds in that quarter of the day. */
  lemma {:induction false} TrendBucketIsConserved(w: Window, rows: seq<Row>, b: nat)
    requires 1 <= w.days <= MAX_DAYS && b < BUCKETS && DaysSeen(w, Accumulated(w, rows)) > 0
    ensures var t := Accumulated(w, rows);
      Times(DaysSeen(w, t), TrendOf(w, t)[b]) == BucketEnergy(w, rows, DayFrom(w, 0), w.today, b)
  {
    var t := Accumulated(w, rows);
    var n := DaysSeen(w, t);
    DaySumIsSpan(w, rows, w.days, b);
    var sum, k := DaySum(t.history[..w.days], t.seen[..w.days], b), 1.0 / n as real;
    DivideIsScale(sum, n as real, k);
    Back(n, sum, TrendOf(w, t)[b], k);
  }

  lemma {:induction false} CopiesAreProduct(n: nat, x: real, y: real)
    requires Times(n, x) == y
    ensures n as real * x == y
  {
    TimesIsProduct(n, x);
  }

  // ---------------------------------------------------------------- peaks

  function CountAtLeast(s: seq<real>, limit: real): (n: nat)
    ensures n <= |s|
  {
    if s == [] then 0 else CountAtLeast(s[..|s| - 1], limit) + (if s[|s| - 1] >= limit then 1 else 0)
  }

  /** Buckets of at least 1.35 times the average bucket. */
  function Peaks(today: seq<real>, total: real): nat {
    var average := total / BUCKETS as real;
    if average > 0.0 then CountAtLeast(today, average * PEAK) else 0
  }

  lemma {:induction false} PeaksWeigh(s: seq<real>, limit: real)
    requires limit >= 0.0 && forall i :: 0 <= i < |s| ==> s[i] >= 0.0
    ensures Times(CountAtLeast(s, limit), limit) <= Sum(s)
  {
    if s != [] {
      PeaksWeigh(s[..|s| - 1], limit);
    }
  }

  /** With no negative bucket at most 71 of the 96 can be peaks. */
  lemma {:induction false} AtMost71Peaks(today: seq<real>)
    requires |today| == BUCKETS && forall i :: 0 <= i < |today| ==> today[i] >= 0.0
    ensures Peaks(today, Sum(today)) <= 71
  {
    var average := Sum(today) / BUCKETS as real;
    if average > 0.0 {
      var n := CountAtLeast(today, average * PEAK);
      PeaksWeigh(today, average * PEAK);
      CopiesAreProduct(n, average * PEAK, Times(n, average * PEAK));
      FewPeaks(average, n as real, Sum(today));
    }
  }

  /** No reading carries a negative power. */
  predicate NonNegativeFigures(rows: seq<Row>) {
    forall i :: 0 <= i < |rows| ==>
      && (rows[i].average.Some? ==> rows[i].average.value >= 0.0)
      && (rows[i].power.Some? ==> rows[i].power.value >= 0.0)
  }

  lemma EnergyNonNegative(prev: Row, cur: Row)
    requires (cur.average.Some? ==> cur.average.value >= 0.0) && (cur.power.Some? ==> cur.power.value >= 0.0)
    ensures Energy(prev, cur).Some? ==> Energy(prev, cur).value >= 0.0
  {
    var span := cur.at - prev.at;
    if span > 0 && cur.average.Some? {
      NonNegativeHours(cur.average.value, span);
    }
    if span > 0 && cur.power.Some? {
      NonNegativeHours(cur.power.value, span);
    }
  }

  lemma NonNegativeHours(watts: real, seconds: int)
    requires watts >= 0.0 && seconds > 0
    ensures KilowattHours(watts, seconds) >= 0.0
  {
    assert (watts / 1000.0) * (seconds as real / 3600.0) >= 0.0;
  }

  predicate NonNegativeTotals(t: Totals)
    requires Shaped(t)
  {
    && (forall b :: 0 <= b < BUCKETS ==> t.today[b] >= 0.0)
    && (forall d, b :: 0 <= d < MAX_DAYS && 0 <= b < BUCKETS ==> t.history[d][b] >= 0.0)
  }

  lemma {:induction false} AccumulatedNonNegative(w: Window, rows: seq<Row>)
    requires w.days <= MAX_DAYS && NonNegativeFigures(rows)
    ensures NonNegativeTotals(Accumulated(w, rows))
  {
    if |rows| >= 2 {
      AccumulatedNonNegative(w, rows[..|rows| - 1]);
      EnergyNonNegative(rows[|rows| - 2], rows[|rows| - 1]);
    }
  }

  /** Unless a reading carries a negative power, a profile never has more than 71 peaks. */
  lemma {:induction false} ProfileHasFewPeaks(w: Window, rows: seq<Row>)
    requires w.days <= MAX_DAYS && NonNegativeFigures(rows)
    ensures Peaks(Accumulated(w, rows).today, Accumulated(w, rows).total) <= 71
  {
    AccumulatedNonNegative(w, rows);
    EnergyIsConserved(w, rows);
    AtMost71Peaks(Accumulated(w, rows).today);
  }

  lemma FewPeaks(average: real, n: real, total: real)
    requires average > 0.0 && average == total / BUCKETS as real && n * (average * PEAK) <= total
    ensures n < 72.0
  {
    assert total == average * 96.0;
    assert n * (average * PEAK) == average * (n * PEAK);
    assert n >= 72.0 ==> average * (n * PEAK) >= average * 97.2;
  }

  lemma {:induction false} CountIsCardinality(s: seq<real>, limit: real)
    ensures CountAtLeast(s, limit) == |set i | 0 <= i < |s| && s[i] >= limit|
  {
    var all := set i | 0 <= i < |s| && s[i] >= limit;
    if s == [] {
      assert all == {};
    } else {
      var n := |s| - 1;
      var before := set i | 0 <= i < |s[..n]| && s[..n][i] >= limit;
      CountIsCardinality(s[..n], limit);
      assert all == if s[n] >= limit then before + {n} else before;
    }
  }

  /** The peaks are the quarters of the day that hold at least 1.35 times the 96th part of a positive total. */
  lemma PeaksAre(today: seq<real>, total: real)
    ensures Peaks(today, total) ==
      if total > 0.0 then |set b | 0 <= b < |today| && 96.0 * today[b] >= 1.35 * total| else 0
  {
    var average := total / BUCKETS as real;
    assert 96.0 * average == total;
    CountIsCardinality(today, average * PEAK);
    var a, b := set b | 0 <= b < |today| && today[b] >= average * PEAK,
      set b | 0 <= b < |today| && 96.0 * today[b] >= 1.35 * total;
    assert a == b;
  }

  predicate LeftmostMax(s: seq<real>, i: nat) {
    i < |s| && (forall j :: 0 <= j < |s| ==> s[j] <= s[i]) && (forall j :: 0 <= j < i ==> s[j] < s[i])
  }

  predicate LeftmostMin(s: seq<real>, i: nat) {
    i < |s| && (forall j :: 0 <= j < |s| ==> s[j] >= s[i]) && (forall j :: 0 <= j < i ==> s[j] > s[i])
  }

  // ---------------------------------------------------------------- the profile, as it is filled

  class Profile {
    const today: array<real>
    const trend: array<real>
    var todayTotal: real
    var trendTotal: real
    var historyDays: nat
    var todayPeak: nat
    var todayLow: nat
    var trendPeak: nat
    var trendLow: nat
    var peaks: nat

    ghost predicate Valid() {
      today.Length == BUCKETS && trend.Length == BUCKETS && today != trend
    }

    constructor ()
      ensures Valid() && fresh(today) && fresh(trend)
    {
      today := new real[BUCKETS];
      trend := new real[BUCKETS];
    }

    method Clear()
      requires Valid()
      modifies this, today, trend
      ensures today[..] == Zeros(BUCKETS) && trend[..] == Zeros(BUCKETS)
      ensures todayTotal == 0.0 && trendTotal == 0.0 && peaks == 0
    {
      todayTotal, trendTotal, peaks := 0.0, 0.0, 0;
      var b := 0;
      while b < BUCKETS
        invariant 0 <= b <= BUCKETS && todayTotal == 0.0 && trendTotal == 0.0 && peaks == 0
        invariant forall i :: 0 <= i < b ==> today[i] == 0.0 && trend[i] == 0.0
      {
        today[b], trend[b] := 0.0, 0.0;
        b := b + 1;
      }
    }

    /** The table of the history agrees with the sums. */
    ghost predicate Agrees(history: array2<real>, seen: array<bool>, t: Totals)
      reads history, seen
    {
      && Shaped(t) && history.Length0 == MAX_DAYS && history.Length1 == BUCKETS && seen.Length == MAX_DAYS
      && seen[..] == t.seen
      && forall d, b :: 0 <= d < MAX_DAYS && 0 <= b < BUCKETS ==> history[d, b] == t.history[d][b]
    }

    method AddInterval(w: Window, prev: Row, cur: Row, history: array2<real>, seen: array<bool>, ghost t: Totals)
      requires Valid() && w.days <= MAX_DAYS && Agrees(history, seen, t)
               && today[..] == t.today && todayTotal == t.total
      modifies this`todayTotal, today, history, seen
      ensures Agrees(history, seen, AddRow(w, t, prev, cur))
      ensures today[..] == AddRow(w, t, prev, cur).today && todayTotal == AddRow(w, t, prev, cur).total
    {
      var kwh := Energy(prev, cur);
      if kwh == None {
        return;
      }
      var bucket := w.bucket(cur.at);
      if !InBuckets(bucket) {
        return;
      }
      if w.today <= cur.at < w.tomorrow {
        today[bucket] := today[bucket] + kwh.value;
        todayTotal := todayTotal + kwh.value;
      } else if cur.at < w.today {
        var day := DayIndex(w, cur.at);
        if 0 <= day < w.days {
          seen[day] := true;
          history[day, bucket] := history[day, bucket] + kwh.value;
        }
      }
    }

    /** All intervals, one after the other. */
    method AddIntervals(w: Window, rows: seq<Row>, history: array2<real>, seen: array<bool>)
      requires Valid() && w.days <= MAX_DAYS && rows != [] && Agrees(history, seen, Nothing())
      requires today[..] == Zeros(BUCKETS) && todayTotal == 0.0
      modifies this`todayTotal, today, history, seen
      ensures Agrees(history, seen, Accumulated(w, rows))
      ensures today[..] == Accumulated(w, rows).today && todayTotal == Accumulated(w, rows).total
    {
      var i := 1;
      while i < |rows|
        invariant 1 <= i <= |rows| && Agrees(history, seen, Accumulated(w, rows[..i]))
        invariant today[..] == Accumulated(w, rows[..i]).today && todayTotal == Accumulated(w, rows[..i]).total
      {
        assert rows[..i + 1][..i] == rows[..i];
        AddInterval(w, rows[i - 1], rows[i], history, seen, Accumulated(w, rows[..i]));
        i := i + 1;
      }
      assert rows[..i] == rows;
    }

    method CountDays(w: Window, seen: array<bool>)
      requires w.days <= MAX_DAYS == seen.Length
      modifies this`historyDays
      ensures historyDays == SeenDays(seen[..w.days])
    {
      historyDays := 0;
      var d := 0;
      while d < w.days
        invariant 0 <= d <= w.days && historyDays == SeenDays(seen[..d])
      {
        assert seen[..d + 1][..d] == seen[..d];
        if seen[d] {
          historyDays := historyDays + 1;
        }
        d := d + 1;
      }
    }

    /** One bucket of the trend. */
    method SumDays(w: Window, history: array2<real>, seen: array<bool>, b: nat, ghost t: Totals) returns (sum: real)
      requires w.days <= MAX_DAYS && Agrees(history, seen, t) && b < BUCKETS
      ensures sum == DaySum(t.history[..w.days], t.seen[..w.days], b)
    {
      sum := 0.0;
      var d := 0;
      while d < w.days
        invariant 0 <= d <= w.days && sum == DaySum(t.history[..d], t.seen[..d], b)
      {
        assert t.history[..d + 1][..d] == t.history[..d] && t.seen[..d + 1][..d] == t.seen[..d];
        if seen[d] {
          sum := sum + history[d, b];
        }
        d := d + 1;
      }
    }

    method MakeTrend(w: Window, history: array2<real>, seen: array<bool>, ghost t: Totals)
      requires Valid() && w.days <= MAX_DAYS && Agrees(history, seen, t) && historyDays == DaysSeen(w, t)
      requires trend[..] == Zeros(BUCKETS) && trendTotal == 0.0
      modifies this`trendTotal, trend
      ensures trend[..] == TrendOf(w, t) && trendTotal == Sum(TrendOf(w, t))
    {
      ghost var target := TrendOf(w, t);
      if historyDays > 0 {
        var b := 0;
        while b < BUCKETS
          invariant 0 <= b <= BUCKETS && trendTotal == Sum(target[..b])
          invariant forall i :: 0 <= i < b ==> trend[i] == target[i]
        {
          var sum := SumDays(w, history, seen, b, t);
          trend[b] := sum / historyDays as real;
          SumNext(target, b);
          trendTotal := trendTotal + trend[b];
          b := b + 1;
        }
        assert target[..b] == target;
      } else {
        SumZeros(target);
      }
      assert trend[..] == target;
    }

    /** One more bucket of a curve. */
    method Extend(a: array<real>, i: nat, peak: nat, low: nat) returns (newPeak: nat, newLow: nat)
      requires i < a.Length && LeftmostMax(a[..i], peak) && LeftmostMin(a[..i], low)
      ensures LeftmostMax(a[..i + 1], newPeak) && LeftmostMin(a[..i + 1], newLow)
    {
      assert a[..i + 1] == a[..i] + [a[i]];
      newPeak := if a[i] > a[peak] then i else peak;
      newLow := if a[i] < a[low] then i else low;
    }

    /** Peak and low of both curves, in one pass. */
    method FindExtremes()
      requires Valid()
      modifies `todayPeak, `todayLow, `trendPeak, `trendLow
      ensures LeftmostMax(today[..], todayPeak) && LeftmostMin(today[..], todayLow)
      ensures LeftmostMax(trend[..], trendPeak) && LeftmostMin(trend[..], trendLow)
    {
      todayPeak, todayLow, trendPeak, trendLow := 0, 0, 0, 0;
      var i := 1;
      while i < BUCKETS
        invariant 1 <= i <= BUCKETS
        invariant LeftmostMax(today[..i], todayPeak) && LeftmostMin(today[..i], todayLow)
        invariant LeftmostMax(trend[..i], trendPeak) && LeftmostMin(trend[..i], trendLow)
      {
        todayPeak, todayLow := Extend(today, i, todayPeak, todayLow);
        trendPeak, trendLow := Extend(trend, i, trendPeak, trendLow);
        i := i + 1;
      }
      assert today[..i] == today[..] && trend[..i] == trend[..];
    }

    method CountPeaks()
      requires Valid() && peaks == 0
      modifies `peaks
      ensures peaks == Peaks(today[..], todayTotal)
    {
      var average := todayTotal / BUCKETS as real;
      var limit := average * PEAK;
      var i := 0;
      while i < BUCKETS
        invariant 0 <= i <= BUCKETS
        invariant peaks == if average > 0.0 then CountAtLeast(today[..i], limit) else 0
      {
        assert today[..i + 1][..i] == today[..i];
        if average > 0.0 && today[i] >= limit {
          peaks := peaks + 1;
        }
        i := i + 1;
      }
      assert today[..i] == today[..];
    }

    /** Sums, days and trend of a cleared profile. */
    method FillSums(w: Window, rows: seq<Row>)
      requires Valid() && w.days <= MAX_DAYS && rows != []
      requires today[..] == Zeros(BUCKETS) && trend[..] == Zeros(BUCKETS) && todayTotal == 0.0 && trendTotal == 0.0
      modifies `todayTotal, `trendTotal, `historyDays, today, trend
      ensures var t := Accumulated(w, rows);
        && today[..] == t.today && todayTotal == t.total && historyDays == DaysSeen(w, t)
        && trend[..] == TrendOf(w, t) && trendTotal == Sum(TrendOf(w, t))
    {
      var history := new real[MAX_DAYS, BUCKETS]((d, b) => 0.0);
      var seen := new bool[MAX_DAYS](_ => false);
      assert seen[..] == Nothing().seen;
      AddIntervals(w, rows, history, seen);
      CountDays(w, seen);
      ghost var t := Accumulated(w, rows);
      assert seen[..w.days] == t.seen[..w.days];
      MakeTrend(w, history, seen, t);
    }

    /** Fills the profile from the readings; fails for bad arguments and when there is no energy at all. */
    method Accumulate(w: Window, rows: seq<Row>) returns (ok: bool)
      requires Valid()
      modifies this, today, trend
      ensures |rows| < 2 || w.days < 1 || w.days > 30 ==> !ok
      ensures |rows| >= 2 && 1 <= w.days <= 30 ==>
        var t := Accumulated(w, rows);
        && today[..] == t.today && todayTotal == t.total && historyDays == DaysSeen(w, t)
        && trend[..] == TrendOf(w, t) && trendTotal == Sum(TrendOf(w, t))
        && LeftmostMax(today[..], todayPeak) && LeftmostMin(today[..], todayLow)
        && LeftmostMax(trend[..], trendPeak) && LeftmostMin(trend[..], trendLow)
        && peaks == Peaks(today[..], todayTotal)
        && ok == (todayTotal > 0.0 || trendTotal > 0.0)
        && (NonNegativeFigures(rows) ==> peaks <= 71)
    {
      if |rows| < 2 || w.days < 1 || w.days > MAX_DAYS {
        return false;
      }
      Clear();
      FillSums(w, rows);
      FindExtremes();
      CountPeaks();
      if NonNegativeFigures(rows) {
        ProfileHasFewPeaks(w, rows);
      }
      ok := todayTotal > 0.0 || trendTotal > 0.0;
    }
  }
}

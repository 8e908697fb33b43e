/**
 The cached spot prices: rows keyed by start time, price class and currency, written by upsert and
 pruned after every insert.
 */
module SpotTable {

  const DAY := 86400
  const RETENTION_DAYS := 30

  datatype Key = Key(start: int, zone: int, currency: int)

  datatype Row = Row(end: int, price: real)

  datatype Price = Price(start: int, end: int, price: real)

  datatype Batch = Batch(zone: int, currency: int, prices: seq<Price>)

  type Table = map<Key, Row>

  /** One successful insert at time `now`; a weather insert touches this table like an empty batch. */
  datatype Insertion = Insertion(batch: Batch, now: int)

  function KeyOf(b: Batch, p: Price): Key {
    Key(p.start, b.zone, b.currency)
  }

  function RowOf(p: Price): Row {
    Row(p.end, p.price)
  }

  function Init(b: Batch): Batch
    requires b.prices != []
  {
    b.(prices := b.prices[..|b.prices| - 1])
  }

  function Final(b: Batch): Price
    requires b.prices != []
  {
    b.prices[|b.prices| - 1]
  }

  function UpsertAll(t: Table, b: Batch): Table
    decreases |b.prices|
  {
    if b.prices == [] then t else UpsertAll(t, Init(b))[KeyOf(b, Final(b)) := RowOf(Final(b))]
  }

  function Prune(t: Table, cutoff: int): Table {
    map k | k in t && k.start >= cutoff :: t[k]
  }

  function Cutoff(now: int): int {
    now - RETENTION_DAYS * DAY
  }

  function Insert(t: Table, i: Insertion): Table {
    Prune(UpsertAll(t, i.batch), Cutoff(i.now))
  }

  /** The table after further inserts. */
  function Continue(t: Table, h: seq<Insertion>): Table {
    if h == [] then t else Insert(Continue(t, h[..|h| - 1]), h[|h| - 1])
  }

  /** The table after a history of inserts. */
  function After(h: seq<Insertion>): Table {
    if h == [] then map[] else Insert(After(h[..|h| - 1]), h[|h| - 1])
  }

  // ---------------------------------------------------------------- what the table holds, from the history alone

  predicate Writes(b: Batch, k: Key) {
    k.zone == b.zone && k.currency == b.currency && exists p :: p in b.prices && p.start == k.start
  }

  /** The row the batch writes last under `k`. */
  function Written(b: Batch, k: Key): Row
    requires Writes(b, k)
    decreases |b.prices|
  {
    if KeyOf(b, Final(b)) == k then RowOf(Final(b))
    else
      assert forall p :: p in b.prices ==> p in Init(b).prices || p == Final(b);
      Written(Init(b), k)
  }

  /** Insert `i` of the history wrote `k`, none after it did, and neither it nor a later one pruned it. */
  predicate Survives(h: seq<Insertion>, i: nat, k: Key)
    requires i < |h|
  {
    && Writes(h[i].batch, k)
    && (forall j :: i < j < |h| ==> !Writes(h[j].batch, k))
    && (forall j :: i <= j < |h| ==> k.start >= Cutoff(h[j].now))
  }

  lemma {:induction false} UpsertAllAt(t: Table, b: Batch, k: Key)
    ensures k in UpsertAll(t, b) <==> k in t || Writes(b, k)
    ensures Writes(b, k) ==> UpsertAll(t, b)[k] == Written(b, k)
    ensures !Writes(b, k) && k in t ==> UpsertAll(t, b)[k] == t[k]
    decreases |b.prices|
  {
    if b.prices != [] {
      UpsertAllAt(t, Init(b), k);
      assert forall p :: p in b.prices <==> p in Init(b).prices || p == Final(b);
    }
  }

  lemma {:induction false} InsertAt(t: Table, i: Insertion, k: Key)
    ensures k in Insert(t, i) <==> (k in t || Writes(i.batch, k)) && k.start >= Cutoff(i.now)
    ensures k in Insert(t, i) ==> Insert(t, i)[k] == if Writes(i.batch, k) then Written(i.batch, k) else t[k]
  {
    UpsertAllAt(t, i.batch, k);
  }

  lemma SurvivesSnoc(h: seq<Insertion>, i: nat, k: Key)
    requires i < |h| - 1
    ensures Survives(h, i, k) <==>
            Survives(h[..|h| - 1], i, k) && !Writes(h[|h| - 1].batch, k) && k.start >= Cutoff(h[|h| - 1].now)
  {
    var init := h[..|h| - 1];
    assert forall j :: 0 <= j < |init| ==> init[j] == h[j];
  }

  lemma SurvivesLast(h: seq<Insertion>, k: Key)
    requires h != []
    ensures Survives(h, |h| - 1, k) <==> Writes(h[|h| - 1].batch, k) && k.start >= Cutoff(h[|h| - 1].now)
  {
  }

  /** A row is there exactly if some insert's row survives. */
  lemma {:induction false} TableIsSurvivors(h: seq<Insertion>, k: Key)
    ensures k in After(h) <==> exists i :: 0 <= i < |h| && Survives(h, i, k)
  {
    if h != [] {
      var init, last := h[..|h| - 1], h[|h| - 1];
      InsertAt(After(init), last, k);
      SurvivesLast(h, k);
      TableIsSurvivors(init, k);
      forall i | 0 <= i < |init|
        ensures Survives(h, i, k) <==> Survives(init, i, k) && !Writes(last.batch, k) && k.start >= Cutoff(last.now)
      {
        SurvivesSnoc(h, i, k);
      }
    }
  }

  /** What survives is the row that the insert wrote last under the key. */
  lemma {:induction false} SurvivorIsLastWritten(h: seq<Insertion>, i: nat, k: Key)
    requires i < |h| && Survives(h, i, k)
    ensures k in After(h) && After(h)[k] == Written(h[i].batch, k)
  {
    var init, last := h[..|h| - 1], h[|h| - 1];
    InsertAt(After(init), last, k);
    if i < |h| - 1 {
      SurvivesSnoc(h, i, k);
      SurvivorIsLastWritten(init, i, k);
    }
  }

  /** Written last is the end and the price of the last price with that start. */
  lemma {:induction false} WrittenIsLast(b: Batch, k: Key, i: nat)
    requires i < |b.prices| && k == Key(b.prices[i].start, b.zone, b.currency)
    requires forall j :: i < j < |b.prices| ==> b.prices[j].start != b.prices[i].start
    ensures Writes(b, k) && Written(b, k) == Row(b.prices[i].end, b.prices[i].price)
    decreases |b.prices|
  {
    assert b.prices[i] in b.prices;
    if i < |b.prices| - 1 {
      WrittenIsLast(Init(b), k, i);
    }
  }

  // ---------------------------------------------------------------- range reads

  function PriceOf(start: int, row: Row): Price {
    Price(start, row.end, row.price)
  }

  /** The range query of the cache, `ORDER BY time_start`. */
  function Select(t: Table, zone: int, currency: int, from: int, until: int): seq<Price>
    decreases until - from
  {
    var k := Key(from, zone, currency);
    if from >= until then []
    else (if k in t then [PriceOf(from, t[k])] else []) + Select(t, zone, currency, from + 1, until)
  }

  predicate Increasing(rows: seq<Price>) {
    forall i, j :: 0 <= i < j < |rows| ==> rows[i].start < rows[j].start
  }

  /** `p` is a row of the range. */
  predicate InRange(t: Table, zone: int, currency: int, from: int, until: int, p: Price) {
    var k := Key(p.start, zone, currency);
    from <= p.start < until && k in t && t[k] == RowOf(p)
  }

  /** A range read is strictly increasing in time and holds a row exactly if the range of the table does. */
  lemma {:induction false} SelectIsExact(t: Table, zone: int, currency: int, from: int, until: int)
    ensures Increasing(Select(t, zone, currency, from, until))
    ensures forall p :: p in Select(t, zone, currency, from, until) <==> InRange(t, zone, currency, from, until, p)
    decreases until - from
  {
    if from < until {
      var rest := Select(t, zone, currency, from + 1, until);
      SelectIsExact(t, zone, currency, from + 1, until);
      forall j | 0 <= j < |rest|
        ensures from < rest[j].start
      {
        assert rest[j] in rest;
      }
    }
  }

  /** No other list of rows has both properties. */
  lemma {:induction false} SameElements(a: seq<Price>, b: seq<Price>)
    requires Increasing(a) && Increasing(b) && forall p :: p in a <==> p in b
    ensures a == b
  {
    if a == [] {
      assert forall j :: 0 <= j < |b| ==> b[j] in b;
    } else {
      assert a[0] in a && a[0] in b;
      assert b[0] in b && b[0] in a;
      assert a[0] == b[0];
      forall p
        ensures p in a[1..] <==> p in b[1..]
      {
        assert p in a[1..] <==> p in a && p != a[0];
        assert p in b[1..] <==> p in b && p != b[0];
      }
      SameElements(a[1..], b[1..]);
    }
  }

  /** A range read is the one list of rows, increasing in time, that holds exactly the rows of the range. */
  lemma {:induction false} SelectIff(t: Table, zone: int, currency: int, from: int, until: int, rows: seq<Price>)
    ensures rows == Select(t, zone, currency, from, until) <==>
            Increasing(rows) && forall p :: p in rows <==> InRange(t, zone, currency, from, until, p)
  {
    SelectIsExact(t, zone, currency, from, until);
    if Increasing(rows) && forall p :: p in rows <==> InRange(t, zone, currency, from, until, p) {
      SameElements(rows, Select(t, zone, currency, from, until));
    }
  }

  /**
   After any history a range read gives, in order of time, exactly the surviving last-written rows of
   the range.
   */
  lemma {:induction false} RangeReadIsHistory(h: seq<Insertion>, zone: int, currency: int, from: int,
      until: int, p: Price)
    ensures Increasing(Select(After(h), zone, currency, from, until))
    ensures p in Select(After(h), zone, currency, from, until) <==>
            && from <= p.start < until
            && exists i :: 0 <= i < |h| && Survives(h, i, Key(p.start, zone, currency))
                           && Written(h[i].batch, Key(p.start, zone, currency)) == RowOf(p)
  {
    SelectIsExact(After(h), zone, currency, from, until);
    var k := Key(p.start, zone, currency);
    TableIsSurvivors(h, k);
    forall i | 0 <= i < |h| && Survives(h, i, k)
      ensures k in After(h) && After(h)[k] == Written(h[i].batch, k)
    {
      SurvivorIsLastWritten(h, i, k);
    }
    assert p in Select(After(h), zone, currency, from, until) <==> InRange(After(h), zone, currency, from, until, p);
  }

  // ---------------------------------------------------------------- one fetch for a day

  const HOUR := 3600

  /** From 13 o'clock on the prices of tomorrow are wanted. */
  function Target(today: int, hour: int): int {
    if hour >= 13 then today + DAY else today
  }

  /** The 24 hours that are looked for start an hour before the target day. */
  function WindowStart(today: int, hour: int): int {
    Target(today, hour) - HOUR
  }

  predicate WritesInto(b: Batch, zone: int, currency: int, from: int, until: int) {
    b.zone == zone && b.currency == currency && exists p :: p in b.prices && from <= p.start < until
  }

  predicate NotAfter(h: seq<Insertion>, now: int) {
    forall j :: 0 <= j < |h| ==> h[j].now <= now
  }

  /** No insert of the history after insert `i` writes under `k`. */
  predicate WritesLast(h: seq<Insertion>, i: nat, k: Key)
    requires i < |h|
  {
    Writes(h[i].batch, k) && forall j :: i < j < |h| ==> !Writes(h[j].batch, k)
  }

  /** Whoever writes a key has a last writer. */
  lemma {:induction false} LastWriter(h: seq<Insertion>, k: Key, i: nat) returns (last: nat)
    requires i < |h| && Writes(h[i].batch, k)
    ensures i <= last < |h| && WritesLast(h, last, k)
    decreases |h| - i
  {
    last := i;
    if j :| i < j < |h| && Writes(h[j].batch, k) {
      last := LastWriter(h, k, j);
    }
  }

  /** A row of the window is too young for any insert of the day to prune. */
  lemma SurvivesToday(h: seq<Insertion>, i: nat, k: Key, today: int, hour: int, now: int)
    requires i < |h| && WritesLast(h, i, k) && NotAfter(h, now) && now < today + DAY
    requires WindowStart(today, hour) <= k.start
    ensures Survives(h, i, k)
  {
  }

  /** What an insert has written into the window is still there, as it or a later one wrote it last. */
  lemma WriterIsRead(h: seq<Insertion>, i: nat, k: Key, today: int, hour: int, now: int)
      returns (last: nat)
    requires NotAfter(h, now) && now < today + DAY && i < |h| && Writes(h[i].batch, k)
    requires WindowStart(today, hour) <= k.start < WindowStart(today, hour) + DAY
    ensures i <= last < |h| && WritesLast(h, last, k)
    ensures var from := WindowStart(today, hour);
      PriceOf(k.start, Written(h[last].batch, k)) in Select(After(h), k.zone, k.currency, from, from + DAY)
  {
    var from := WindowStart(today, hour);
    last := LastWriter(h, k, i);
    SurvivesToday(h, last, k, today, hour, now);
    SurvivorIsLastWritten(h, last, k);
    SelectIsExact(After(h), k.zone, k.currency, from, from + DAY);
    assert InRange(After(h), k.zone, k.currency, from, from + DAY, PriceOf(k.start, Written(h[last].batch, k)));
  }

  /**
   One fetch for a zone and day: an update finds its window empty, and goes to the API, exactly if no
   earlier insert has written a row of the zone into it. Pruning in between, by anyone, changes nothing.
   */
  lemma FetchesIff(h: seq<Insertion>, zone: int, currency: int, today: int, hour: int, now: int)
    requires NotAfter(h, now) && now < today + DAY
    ensures var from := WindowStart(today, hour);
      Select(After(h), zone, currency, from, from + DAY) == [] <==>
      !exists i :: 0 <= i < |h| && WritesInto(h[i].batch, zone, currency, from, from + DAY)
  {
    var from := WindowStart(today, hour);
    var rows := Select(After(h), zone, currency, from, from + DAY);
    if i :| 0 <= i < |h| && WritesInto(h[i].batch, zone, currency, from, from + DAY) {
      var p :| p in h[i].batch.prices && from <= p.start < from + DAY;
      var last := WriterIsRead(h, i, Key(p.start, zone, currency), today, hour, now);
    } else if rows != [] {
      RowHasWriter(h, zone, currency, from, from + DAY, rows[0]);
    }
  }

  lemma {:induction false} RowHasWriter(h: seq<Insertion>, zone: int, currency: int, from: int, until: int, p: Price)
    requires p in Select(After(h), zone, currency, from, until)
    ensures exists i :: 0 <= i < |h| && WritesInto(h[i].batch, zone, currency, from, until)
  {
    RangeReadIsHistory(h, zone, currency, from, until, p);
    var k := Key(p.start, zone, currency);
    var i :| 0 <= i < |h| && Survives(h, i, k);
    var q :| q in h[i].batch.prices && q.start == k.start;
    assert WritesInto(h[i].batch, zone, currency, from, until);
  }

  /** A row of the last 30 days stays whatever is inserted after it, until its key is written again. */
  lemma {:induction false} RecentRowsStay(h: seq<Insertion>, i: nat, k: Key, now: int)
    requires i < |h| && WritesLast(h, i, k) && NotAfter(h, now) && k.start >= now - 30 * 86400
    ensures k in After(h) && After(h)[k] == Written(h[i].batch, k)
  {
    assert Survives(h, i, k);
    SurvivorIsLastWritten(h, i, k);
  }

  /** No row is left that is more than 30 days older than the last insert. */
  lemma {:induction false} OldRowsAreGone(h: seq<Insertion>, k: Key)
    requires h != [] && k.start < h[|h| - 1].now - 30 * 86400
    ensures k !in After(h)
  {
    InsertAt(After(h[..|h| - 1]), h[|h| - 1], k);
  }

  /** What the estimate of tomorrow's prices reads, 7 and 14 days before tomorrow, no insert until then prunes. */
  lemma {:induction false} HistoryIsRead(h: seq<Insertion>, i: nat, k: Key, today: int, now: int, weeks: nat)
    requires 1 <= weeks <= 2 && i < |h| && WritesLast(h, i, k) && NotAfter(h, now) && now < today + 86400
    requires var from := today + 86400 - weeks * 7 * 86400; from <= k.start < from + 86400
    ensures var from := today + 86400 - weeks * 7 * 86400;
      PriceOf(k.start, Written(h[i].batch, k)) in Select(After(h), k.zone, k.currency, from, from + 86400)
  {
    var from := today + 86400 - weeks * 7 * 86400;
    RecentRowsStay(h, i, k, now);
    SelectIsExact(After(h), k.zone, k.currency, from, from + 86400);
    assert InRange(After(h), k.zone, k.currency, from, from + 86400, PriceOf(k.start, Written(h[i].batch, k)));
  }

  // ---------------------------------------------------------------- an update among others

  lemma {:induction false} ContinueAfter(h: seq<Insertion>, more: seq<Insertion>)
    ensures Continue(After(h), more) == After(h + more)
  {
    if more == [] {
      assert h + more == h;
    } else {
      var init := more[..|more| - 1];
      ContinueAfter(h, init);
      assert (h + more)[..|h + more| - 1] == h + init;
    }
  }

  /** What the others insert before and after an update inserts its own, between its first and last read. */
  function Amid(t: Table, between: seq<Insertion>, own: Insertion, later: seq<Insertion>): Table {
    Continue(Insert(Continue(t, between), own), later)
  }

  lemma {:induction false} AmidIsHistory(h: seq<Insertion>, between: seq<Insertion>, own: Insertion,
      later: seq<Insertion>)
    ensures Amid(After(h), between, own, later) == After(h + between + [own] + later)
  {
    var k := h + between;
    ContinueAfter(h, between);
    assert (k + [own])[..|k|] == k;
    ContinueAfter(k + [own], later);
  }

  /**
   Whatever other threads insert while an update runs, all within the day, the final read holds each row of
   the window that the update fetched, as it or a later insert wrote it last; nothing it fetched is missing.
   */
  lemma FetchedRowsAreRead(h: seq<Insertion>, between: seq<Insertion>, own: Insertion,
      later: seq<Insertion>, today: int, hour: int, now: int, start: int) returns (last: nat)
    requires NotAfter(h + between + [own] + later, now) && now < today + DAY
    requires WindowStart(today, hour) <= start < WindowStart(today, hour) + DAY
    requires Writes(own.batch, Key(start, own.batch.zone, own.batch.currency))
    ensures var all, from := h + between + [own] + later, WindowStart(today, hour);
      var zone, currency := own.batch.zone, own.batch.currency;
      && |h| + |between| <= last < |all| && WritesLast(all, last, Key(start, zone, currency))
      && PriceOf(start, Written(all[last].batch, Key(start, zone, currency)))
         in Select(Amid(After(h), between, own, later), zone, currency, from, from + DAY)
  {
    var all := h + between + [own] + later;
    assert all[|h| + |between|] == own;
    last := WriterIsRead(all, |h| + |between|, Key(start, own.batch.zone, own.batch.currency), today, hour, now);
    AmidIsHistory(h, between, own, later);
  }

  /**
   From 13 o'clock on, whatever else is inserted, a price that the update fetched for the 24 hours from an hour
   before tomorrow on is among those it ends with, with its end and amount, unless it was fetched or inserted anew.
   */
  lemma {:induction false} TomorrowIsRead(h: seq<Insertion>, between: seq<Insertion>, own: Insertion,
      later: seq<Insertion>, today: int, hour: int, now: int, i: nat)
    requires NotAfter(h + between + [own] + later, now) && now < today + 86400 && hour >= 13
    requires i < |own.batch.prices| && today + 82800 <= own.batch.prices[i].start < today + 169200
    requires forall j :: i < j < |own.batch.prices| ==> own.batch.prices[j].start != own.batch.prices[i].start
    requires var p := own.batch.prices[i];
      forall j :: 0 <= j < |later| ==> !Writes(later[j].batch, Key(p.start, own.batch.zone, own.batch.currency))
    ensures own.batch.prices[i] in Select(Amid(After(h), between, own, later), own.batch.zone, own.batch.currency,
                                          today + 82800, today + 169200)
    ensures WindowStart(today, hour) == today + 82800
  {
    var p := own.batch.prices[i];
    var k := Key(p.start, own.batch.zone, own.batch.currency);
    WrittenIsLast(own.batch, k, i);
    var all, n := h + between + [own] + later, |h| + |between|;
    assert all[n] == own;
    forall j | n < j < |all|
      ensures !Writes(all[j].batch, k)
    {
      assert all[j] == later[j - n - 1];
    }
    var last := FetchedRowsAreRead(h, between, own, later, today, hour, now, p.start);
  }
}

/** The handler of the electricity cache: one zone and currency, the spots it has loaded, the database. */
module ElectricityCache {
  import opened Doubling
  import opened Wrappers
  import opened SpotTable

  const ROWS := 96

  class Handler {
    const zone: int
    const currency: int
    var table: Table
    var prices: array<Price>
    var count: nat

    ghost predicate Valid()
      reads this
    {
      count <= prices.Length
    }

    ghost function Spots(): seq<Price>
      requires Valid()
      reads this, prices
    {
      prices[..count]
    }

    constructor (zone: int, currency: int, table: Table)
      ensures Valid() && Spots() == [] && fresh(prices)
      ensures this.zone == zone && this.currency == currency && this.table == table
    {
      this.zone, this.currency, this.table := zone, currency, table;
      prices, count := new Price[0], 0;
    }

    /** Doubles the room when it is full. */
    method Grow()
      requires Valid() && IsCapacity(ROWS, prices.Length)
      modifies `prices
      ensures Valid() && fresh(prices) && prices.Length == 2 * old(prices.Length) && IsCapacity(ROWS, prices.Length)
      ensures Spots() == old(Spots())
    {
      var more := new Price[2 * prices.Length];
      var i := 0;
      while i < count
        invariant 0 <= i <= count <= prices.Length && prices == old(prices) && more.Length == 2 * prices.Length
        invariant more[..i] == prices[..i]
      {
        more[i] := prices[i];
        i := i + 1;
      }
      prices := more;
    }

    /** The array is as small as doubling allows. */
    ghost predicate Tight()
      reads this
    {
      IsCapacity(96, prices.Length) && (prices.Length == 96 || prices.Length < 2 * count)
    }

    /** Puts one more row behind the others. */
    method Keep(row: Price)
      requires Valid() && Tight()
      modifies `prices, `count, prices
      ensures Valid() && Tight() && (prices == old(prices) || fresh(prices))
      ensures Spots() == old(Spots()) + [row]
    {
      if count >= prices.Length {
        Grow();
      }
      prices[count] := row;
      count := count + 1;
    }

    /** Steps through the rows of the range and keeps them. */
    method ReadSpots(from: int, until: int)
      requires Valid()
      modifies this, prices
      ensures Valid() && fresh(prices) && table == old(table)
      ensures Spots() == Select(table, zone, currency, from, until) && Tight()
    {
      var rows := Select(table, zone, currency, from, until);
      prices, count := new Price[ROWS], 0;
      var i := 0;
      while i < |rows|
        invariant 0 <= i <= |rows| && Valid() && fresh(prices) && table == old(table)
        invariant Spots() == rows[..i] && Tight()
      {
        Keep(rows[i]);
        i := i + 1;
      }
    }

    /** Writes all the loaded spots, then prunes. */
    method InsertSpots(now: int)
      requires Valid()
      modifies `table
      ensures table == Insert(old(table), Insertion(Batch(zone, currency, Spots()), now))
    {
      var i := 0;
      while i < count
        invariant 0 <= i <= count
        invariant table == UpsertAll(old(table), Batch(zone, currency, prices[..i]))
      {
        var b := Batch(zone, currency, prices[..i + 1]);
        assert Init(b).prices == prices[..i];
        table := table[Key(prices[i].start, zone, currency) := Row(prices[i].end, prices[i].price)];
        i := i + 1;
      }
      table := Prune(table, Cutoff(now));
    }

    method Load(spots: seq<Price>)
      modifies this
      ensures Valid() && fresh(prices) && Spots() == spots && table == old(table)
    {
      prices := new Price[|spots|](i requires 0 <= i < |spots| => spots[i]);
      count := |spots|;
    }

    /**
     `api` is what the price service answers, if it is asked. Reading, writing and reading again are three
     locked blocks; `between` and `later` are what other threads insert before and after the second one.
     */
    method Update(today: int, hour: int, now: int, api: Option<seq<Price>>,
        between: seq<Insertion>, later: seq<Insertion>) returns (ok: bool, asked: bool)
      requires Valid()
      modifies this, prices
      ensures Valid() && fresh(prices)
      ensures var from := WindowStart(today, hour);
        && asked == (Select(old(table), zone, currency, from, from + DAY) == [])
        && ok == (!asked || api.Some?)
        && table == (if asked && api.Some?
                    then Amid(old(table), between, Insertion(Batch(zone, currency, api.value), now), later)
                    else old(table))
        && (ok ==> Spots() == Select(table, zone, currency, from, from + DAY))
    {
      var from := WindowStart(today, hour);
      ReadSpots(from, from + DAY);
      if count > 0 {
        return true, false;
      }
      if api.None? {
        return false, true;
      }
      Load(api.value);
      table := Continue(table, between);
      InsertSpots(now);
      table := Continue(table, later);
      ReadSpots(from, from + DAY);
      return true, true;
    }
  }

  /**
   One update of a handler: when it is made, what the price service would answer, and what other threads insert
   before it and while it runs.
   */
  datatype Attempt = Attempt(now: int, api: Option<seq<Price>>, before: seq<Insertion>, between: seq<Insertion>,
    later: seq<Insertion>)

  /** The service answered with a price for the window. */
  predicate Brings(a: Attempt, zone: int, currency: int, from: int) {
    a.api.Some? && WritesInto(Batch(zone, currency, a.api.value), zone, currency, from, from + DAY)
  }

  predicate EndsBy(a: Attempt, end: int) {
    a.now <= end && NotAfter(a.before, end) && NotAfter(a.between, end) && NotAfter(a.later, end)
  }

  /** Some insert of the history has written into the window. */
  ghost predicate IsWritten(h: seq<Insertion>, zone: int, currency: int, from: int) {
    exists i :: 0 <= i < |h| && WritesInto(h[i].batch, zone, currency, from, from + DAY)
  }

  lemma StaysWritten(h: seq<Insertion>, more: seq<Insertion>, zone: int, currency: int, from: int)
    requires IsWritten(h, zone, currency, from)
    ensures IsWritten(h + more, zone, currency, from)
  {
    var i :| 0 <= i < |h| && WritesInto(h[i].batch, zone, currency, from, from + DAY);
    assert (h + more)[i] == h[i];
  }

  lemma {:induction false} OthersGrow(all: seq<Insertion>, more: seq<Insertion>, zone: int, currency: int,
      from: int, end: int)
    requires NotAfter(all, end) && NotAfter(more, end)
    ensures Continue(After(all), more) == After(all + more) && NotAfter(all + more, end)
    ensures IsWritten(all, zone, currency, from) ==> IsWritten(all + more, zone, currency, from)
  {
    ContinueAfter(all, more);
    if IsWritten(all, zone, currency, from) {
      StaysWritten(all, more, zone, currency, from);
    }
  }

  lemma {:induction false} OwnGrows(all: seq<Insertion>, a: Attempt, own: Insertion, zone: int, currency: int,
      from: int, end: int)
    requires NotAfter(all, end) && EndsBy(a, end) && own.now == a.now
    ensures var grown := all + a.between + [own] + a.later;
      && Amid(After(all), a.between, own, a.later) == After(grown) && NotAfter(grown, end)
      && (IsWritten(all, zone, currency, from) || WritesInto(own.batch, zone, currency, from, from + DAY) ==>
            IsWritten(grown, zone, currency, from))
  {
    var grown := all + a.between + [own] + a.later;
    AmidIsHistory(all, a.between, own, a.later);
    if IsWritten(all, zone, currency, from) {
      StaysWritten(all, a.between + [own] + a.later, zone, currency, from);
      assert grown == all + (a.between + [own] + a.later);
    }
    assert grown[|all| + |a.between|] == own;
  }

  /** One of them: what the others insert before it, and the update itself; `all` is the history. */
  method UpdateOnce(handler: Handler, ghost all: seq<Insertion>, today: int, hour: int, a: Attempt, ghost end: int)
      returns (brought: bool, ghost grown: seq<Insertion>)
    requires handler.Valid() && handler.table == After(all) && NotAfter(all, end) && EndsBy(a, end) && end < today + DAY
    modifies handler, handler.prices
    ensures handler.Valid() && fresh(handler.prices) && handler.table == After(grown) && NotAfter(grown, end)
    ensures var from := WindowStart(today, hour);
      && (brought || IsWritten(all, handler.zone, handler.currency, from) ==>
            IsWritten(grown, handler.zone, handler.currency, from))
      && (IsWritten(all, handler.zone, handler.currency, from) ==> !brought)
  {
    var zone, currency, from := handler.zone, handler.currency, WindowStart(today, hour);
    OthersGrow(all, a.before, zone, currency, from, end);
    grown := all + a.before;
    handler.table := Continue(handler.table, a.before);
    FetchesIff(grown, zone, currency, today, hour, end);
    var _, asked := handler.Update(today, hour, a.now, a.api, a.between, a.later);
    brought := asked && Brings(a, zone, currency, from);
    if asked && a.api.Some? {
      ghost var own := Insertion(Batch(zone, currency, a.api.value), a.now);
      OwnGrows(grown, a, own, zone, currency, from, end);
      grown := grown + a.between + [own] + a.later;
    }
  }

  /**
   The updates of one handler for one window, for as long as the day lasts: however many they are, and whatever
   the others insert, the service brings prices at most once.
   */
  method UpdateAll(zone: int, currency: int, h: seq<Insertion>, today: int, hour: int, attempts: seq<Attempt>,
      ghost end: int) returns (brought: nat)
    requires end < today + DAY && NotAfter(h, end)
    requires forall i :: 0 <= i < |attempts| ==> EndsBy(attempts[i], end)
    ensures brought <= 1
  {
    var handler := new Handler(zone, currency, After(h));
    ghost var all := h;
    brought := 0;
    var i := 0;
    while i < |attempts|
      invariant 0 <= i <= |attempts| && brought <= 1
      invariant handler.Valid() && fresh(handler) && fresh(handler.prices)
      invariant handler.table == After(all) && NotAfter(all, end)
      invariant brought == 1 ==> IsWritten(all, handler.zone, handler.currency, WindowStart(today, hour))
    {
      var more;
      more, all := UpdateOnce(handler, all, today, hour, attempts[i], end);
      if more {
        brought := brought + 1;
      }
      i := i + 1;
    }
  }
}

/**
 The weather cache that several threads share. Looking up a facility and inserting under the id that was
 found are two critical sections: between them any thread may insert, and so prune.
 */
module WeatherCache {
  import opened Numbers
  import opened Wrappers
  import S = SpotTable

  type Id = nat
  type Thread = nat

  datatype Place = Place(latitude: real, longitude: real, tilt: int, azimuth: int, forecast: bool)

  datatype Meta = Meta(interval: int, units: seq<string>)

  datatype Facility = Facility(place: Place, meta: Meta)

  datatype At = At(facility: Id, timestamp: int)

  datatype Reading = Reading(timestamp: int, values: seq<real>)

  type Weather = map<At, seq<real>>

  /** The database. Ids are never reused: a new one is at least `nextId`. */
  datatype Store = Store(facilities: map<Id, Facility>, nextId: nat, weather: Weather, spots: S.Table)

  /** What a thread holds between its two critical sections: the id, the place it asked for, the place found. */
  datatype Pending = Pending(id: Id, wanted: Place, found: Place)

  datatype World = World(store: Store, pending: map<Thread, Pending>)

  const EMPTY: Store := Store(map[], 1, map[], map[])
  const INITIAL: World := World(EMPTY, map[])

  // ---------------------------------------------------------------- the critical sections

  predicate Near(a: Place, b: Place) {
    && Gap(a.latitude, b.latitude) < 0.0001 && Gap(a.longitude, b.longitude) < 0.0001
    && a.tilt == b.tilt && a.azimuth == b.azimuth && a.forecast == b.forecast
  }

  predicate Known(facilities: map<Id, Facility>, place: Place) {
    exists id :: id in facilities && facilities[id].place == place
  }

  /** Inserts the facility, or updates what is not part of its key. */
  function UpsertFacility(s: Store, place: Place, meta: Meta, newId: Id): Store {
    if Known(s.facilities, place) then
      s.(facilities := map id | id in s.facilities ::
        if s.facilities[id].place == place then Facility(place, meta) else s.facilities[id])
    else s.(facilities := s.facilities[newId := Facility(place, meta)], nextId := newId + 1)
  }

  /** The select that follows may return any facility that is near enough. */
  predicate Picks(s: Store, place: Place, id: Id) {
    id in s.facilities && Near(s.facilities[id].place, place)
  }

  function UpsertRows(w: Weather, id: Id, rows: seq<Reading>): Weather {
    if rows == [] then w
    else
      var last := rows[|rows| - 1];
      UpsertRows(w, id, rows[..|rows| - 1])[At(id, last.timestamp) := last.values]
  }

  function Recent(w: Weather, cutoff: int): Weather {
    map k | k in w && k.timestamp >= cutoff :: w[k]
  }

  predicate Used(w: Weather, id: Id) {
    exists k :: k in w && k.facility == id
  }

  /** Old spots, old weather, and then the facilities that no weather refers to. */
  function Prune(s: Store, cutoff: int): Store {
    var weather := Recent(s.weather, cutoff);
    s.(spots := S.Prune(s.spots, cutoff),
       weather := weather,
       facilities := map id | id in s.facilities && Used(weather, id) :: s.facilities[id])
  }

  /** The second critical section. The foreign key refuses the first row of a facility that is gone. */
  function WithWeather(s: Store, id: Id, rows: seq<Reading>, now: int): Store {
    if id !in s.facilities then s
    else Prune(s.(weather := UpsertRows(s.weather, id, rows)), S.Cutoff(now))
  }

  function WithSpots(s: Store, batch: S.Batch, now: int): Store {
    Prune(s.(spots := S.UpsertAll(s.spots, batch)), S.Cutoff(now))
  }

  // ---------------------------------------------------------------- interleavings

  datatype Event =
    | Looks(t: Thread, place: Place, meta: Meta, newId: Id, pick: Id)
    | Inserts(t: Thread, rows: seq<Reading>, now: int)
    | InsertsSpots(t: Thread, batch: S.Batch, now: int)

  predicate Enabled(w: World, e: Event) {
    match e
    case Looks(t, place, meta, newId, pick) =>
      t !in w.pending && newId >= w.store.nextId && Picks(UpsertFacility(w.store, place, meta, newId), place, pick)
    case Inserts(t, rows, _) => t in w.pending && rows != []
    case InsertsSpots(t, _, _) => t !in w.pending
  }

  function Next(w: World, e: Event): World
    requires Enabled(w, e)
  {
    match e
    case Looks(t, place, meta, newId, pick) =>
      var s := UpsertFacility(w.store, place, meta, newId);
      World(s, w.pending[t := Pending(pick, place, s.facilities[pick].place)])
    case Inserts(t, rows, now) =>
      World(WithWeather(w.store, w.pending[t].id, rows, now), w.pending - {t})
    case InsertsSpots(_, batch, now) =>
      w.(store := WithSpots(w.store, batch, now))
  }

  function Run(w: World, events: seq<Event>): Option<World> {
    if events == [] then Some(w)
    else
      var before := Run(w, events[..|events| - 1]);
      var e := events[|events| - 1];
      if before.None? || !Enabled(before.value, e) then None else Some(Next(before.value, e))
  }

  ghost predicate Reachable(w: World) {
    exists events :: Run(INITIAL, events) == Some(w)
  }

  // ---------------------------------------------------------------- what every step keeps

  /** The schema: foreign keys refer, places are unique, ids were handed out. */
  predicate StoreInv(s: Store) {
    && (forall k :: k in s.weather ==> k.facility in s.facilities)
    && (forall a, b :: a in s.facilities && b in s.facilities && a != b ==>
         s.facilities[a].place != s.facilities[b].place)
    && (forall id :: id in s.facilities ==> id < s.nextId)
  }

  /** The id a thread holds denotes the facility it found, or nothing any more. */
  predicate PendingInv(s: Store, p: Pending) {
    && p.id < s.nextId
    && Near(p.found, p.wanted)
    && (p.id in s.facilities ==> s.facilities[p.id].place == p.found)
  }

  predicate WorldInv(w: World) {
    StoreInv(w.store) && forall t :: t in w.pending ==> PendingInv(w.store, w.pending[t])
  }

  /** From `s` to `n` ids are only handed out upwards, and no facility changes its place. */
  predicate Follows(s: Store, n: Store) {
    && s.nextId <= n.nextId
    && (forall id :: id in n.facilities && id < s.nextId ==>
          id in s.facilities && n.facilities[id].place == s.facilities[id].place)
  }

  lemma UpsertFacilityInv(s: Store, place: Place, meta: Meta, newId: Id)
    requires StoreInv(s) && newId >= s.nextId
    ensures StoreInv(UpsertFacility(s, place, meta, newId))
    ensures Follows(s, UpsertFacility(s, place, meta, newId))
    ensures exists id :: Picks(UpsertFacility(s, place, meta, newId), place, id)
  {
    var n := UpsertFacility(s, place, meta, newId);
    if Known(s.facilities, place) {
      var id :| id in s.facilities && s.facilities[id].place == place;
      assert Picks(n, place, id);
    } else {
      assert Picks(n, place, newId);
    }
  }

  lemma PruneInv(s: Store, cutoff: int)
    requires StoreInv(s)
    ensures StoreInv(Prune(s, cutoff)) && Follows(s, Prune(s, cutoff))
    ensures forall k :: k in Prune(s, cutoff).weather ==> k.timestamp >= cutoff
    ensures forall id :: id in Prune(s, cutoff).facilities ==> Used(Prune(s, cutoff).weather, id)
  {
    var n := Prune(s, cutoff);
    forall k | k in n.weather
      ensures k.facility in n.facilities
    {
      assert k in s.weather;
      assert Used(n.weather, k.facility);
    }
  }

  predicate Reads(rows: seq<Reading>, timestamp: int) {
    exists r :: r in rows && r.timestamp == timestamp
  }

  /** The last values the rows give for a time. */
  function Latest(rows: seq<Reading>, timestamp: int): seq<real>
    requires Reads(rows, timestamp)
  {
    var init, last := rows[..|rows| - 1], rows[|rows| - 1];
    if last.timestamp == timestamp then last.values
    else
      assert forall r :: r in rows <==> r in init || r == last;
      Latest(init, timestamp)
  }

  /** They are those of the last reading for that time. */
  lemma {:induction false} LatestIsLast(rows: seq<Reading>, i: nat)
    requires i < |rows| && forall j :: i < j < |rows| ==> rows[j].timestamp != rows[i].timestamp
    ensures Reads(rows, rows[i].timestamp) && Latest(rows, rows[i].timestamp) == rows[i].values
  {
    assert rows[i] in rows;
    if i < |rows| - 1 {
      LatestIsLast(rows[..|rows| - 1], i);
    }
  }

  lemma {:induction false} UpsertRowsAt(w: Weather, id: Id, rows: seq<Reading>, k: At)
    ensures k in UpsertRows(w, id, rows) <==> k in w || (k.facility == id && Reads(rows, k.timestamp))
    ensures k.facility == id && Reads(rows, k.timestamp) ==> UpsertRows(w, id, rows)[k] == Latest(rows, k.timestamp)
    ensures !(k.facility == id && Reads(rows, k.timestamp)) && k in w ==> UpsertRows(w, id, rows)[k] == w[k]
  {
    if rows != [] {
      var init, last := rows[..|rows| - 1], rows[|rows| - 1];
      UpsertRowsAt(w, id, init, k);
      assert forall r :: r in rows <==> r in init || r == last;
    }
  }

  lemma {:induction false} UpsertRowsInv(s: Store, id: Id, rows: seq<Reading>)
    requires StoreInv(s) && id in s.facilities
    ensures StoreInv(s.(weather := UpsertRows(s.weather, id, rows)))
  {
    forall k | k in UpsertRows(s.weather, id, rows)
      ensures k.facility in s.facilities
    {
      UpsertRowsAt(s.weather, id, rows, k);
    }
  }

  lemma WithWeatherInv(s: Store, id: Id, rows: seq<Reading>, now: int)
    requires StoreInv(s)
    ensures StoreInv(WithWeather(s, id, rows, now)) && Follows(s, WithWeather(s, id, rows, now))
  {
    if id in s.facilities {
      UpsertRowsInv(s, id, rows);
      PruneInv(s.(weather := UpsertRows(s.weather, id, rows)), S.Cutoff(now));
    }
  }

  lemma NextInv(w: World, e: Event)
    requires WorldInv(w) && Enabled(w, e)
    ensures WorldInv(Next(w, e)) && Follows(w.store, Next(w, e).store)
  {
    var n := Next(w, e);
    match e {
      case Looks(t, place, meta, newId, pick) => UpsertFacilityInv(w.store, place, meta, newId);
      case Inserts(t, rows, now) => WithWeatherInv(w.store, w.pending[t].id, rows, now);
      case InsertsSpots(_, batch, now) => PruneInv(w.store.(spots := S.UpsertAll(w.store.spots, batch)), S.Cutoff(now));
    }
    forall t | t in n.pending
      ensures PendingInv(n.store, n.pending[t])
    {
      if t in w.pending && n.pending[t] == w.pending[t] {
        FollowsPending(w.store, n.store, w.pending[t]);
      }
    }
  }

  lemma FollowsPending(s: Store, n: Store, p: Pending)
    requires PendingInv(s, p) && Follows(s, n)
    ensures PendingInv(n, p)
  {
  }

  lemma {:induction false} RunInv(w: World, events: seq<Event>)
    requires WorldInv(w) && Run(w, events).Some?
    ensures WorldInv(Run(w, events).value) && Follows(w.store, Run(w, events).value.store)
  {
    if events != [] {
      var before := events[..|events| - 1];
      RunInv(w, before);
      NextInv(Run(w, before).value, events[|events| - 1]);
    }
  }

  lemma ReachableInv(w: World)
    requires Reachable(w)
    ensures WorldInv(w)
  {
    var events :| Run(INITIAL, events) == Some(w);
    RunInv(INITIAL, events);
  }

  // ---------------------------------------------------------------- safety over all interleavings

  /**
   Whatever the other threads do, the id a thread holds between its sections denotes the facility it was
   looked up for, within 0.0001 of the place it asked for, or no facility at all; never another one.
   */
  lemma HeldIdNeverAliases(w: World, t: Thread)
    requires Reachable(w) && t in w.pending && w.pending[t].id in w.store.facilities
    ensures w.store.facilities[w.pending[t].id].place == w.pending[t].found
    ensures var found, wanted := w.pending[t].found, w.pending[t].wanted;
      && -0.0001 < found.latitude - wanted.latitude < 0.0001
      && -0.0001 < found.longitude - wanted.longitude < 0.0001
      && found.tilt == wanted.tilt && found.azimuth == wanted.azimuth && found.forecast == wanted.forecast
  {
    ReachableInv(w);
    assert PendingInv(w.store, w.pending[t]);
  }

  /**
   After a lookup exactly one facility stands at the place asked for, with the interval and the units that were
   given; every other one is as before, and none has gone.
   */
  lemma LookupLeavesFacility(w: World, t: Thread, place: Place, meta: Meta, newId: Id, pick: Id) returns (id: Id)
    requires Reachable(w) && Enabled(w, Looks(t, place, meta, newId, pick))
    ensures var s, n := w.store.facilities, Next(w, Looks(t, place, meta, newId, pick)).store.facilities;
      && id in n && n[id] == Facility(place, meta) && n.Keys == s.Keys + {id}
      && (forall other :: other in s && other != id ==> n[other] == s[other] && s[other].place != place)
      && (id in s ==> s[id].place == place)
      && (id !in s ==> id == newId && Next(w, Looks(t, place, meta, newId, pick)).store.nextId == newId + 1)
  {
    ReachableInv(w);
    var s := w.store.facilities;
    if Known(s, place) {
      id :| id in s && s[id].place == place;
    } else {
      id := newId;
    }
    assert Next(w, Looks(t, place, meta, newId, pick)).store.facilities.Keys == s.Keys + {id};
  }

  /** Every weather row refers to a facility. */
  lemma ForeignKeysHold(w: World, k: At)
    requires Reachable(w) && k in w.store.weather
    ensures k.facility in w.store.facilities
  {
    ReachableInv(w);
  }

  /** A facility that has been pruned stays gone; its id is not given to another. */
  lemma {:induction false} PrunedIdStaysGone(w: World, events: seq<Event>, id: Id)
    requires WorldInv(w) && Run(w, events).Some? && id < w.store.nextId && id !in w.store.facilities
    ensures id !in Run(w, events).value.store.facilities
  {
    RunInv(w, events);
  }

  /** A lookup may find any facility within 0.0001 of the place asked for that agrees in the rest, and no other. */
  lemma LookupMayFindIff(w: World, t: Thread, place: Place, meta: Meta, newId: Id, pick: Id)
    requires t !in w.pending && newId >= w.store.nextId
    ensures var facilities := UpsertFacility(w.store, place, meta, newId).facilities;
      Enabled(w, Looks(t, place, meta, newId, pick)) <==>
      pick in facilities &&
        var found := facilities[pick].place;
        && -0.0001 < found.latitude - place.latitude < 0.0001
        && -0.0001 < found.longitude - place.longitude < 0.0001
        && found.tilt == place.tilt && found.azimuth == place.azimuth && found.forecast == place.forecast
  {
  }

  /** The row under `k` that should be there after an insert of `rows` for `id`, if any. */
  function Expected(w: Weather, id: Id, rows: seq<Reading>, cutoff: int, k: At): Option<seq<real>> {
    if k.timestamp < cutoff then None
    else if k.facility == id && Reads(rows, k.timestamp) then Some(Latest(rows, k.timestamp))
    else if k in w then Some(w[k])
    else None
  }

  /**
   An insert either finds its facility gone and changes nothing, or leaves exactly the recent rows with its
   own written over them, and exactly the facilities that have one.
   */
  lemma InsertIsAllOrNothing(w: World, t: Thread, rows: seq<Reading>, now: int, k: At)
    requires Reachable(w) && Enabled(w, Inserts(t, rows, now))
    ensures var s, n, id := w.store, Next(w, Inserts(t, rows, now)).store, w.pending[t].id;
      if id !in s.facilities then n == s
      else
        && (if k in n.weather then Some(n.weather[k]) else None) == Expected(s.weather, id, rows, S.Cutoff(now), k)
        && (forall f :: f in n.facilities <==> f in s.facilities && Used(n.weather, f))
        && n.spots == S.Prune(s.spots, S.Cutoff(now))
  {
    UpsertRowsAt(w.store.weather, w.pending[t].id, rows, k);
  }

  // ---------------------------------------------------------------- what survives a history

  /** The event prunes: an insert that is not refused. */
  predicate Prunes(x: World, e: Event)
    requires Enabled(x, e)
  {
    e.InsertsSpots? || (e.Inserts? && x.pending[e.t].id in x.store.facilities)
  }

  /** What an event inserts into the table of the spots: a weather insert that succeeds only prunes it. */
  function SpotsOf(x: World, e: Event): seq<S.Insertion>
    requires Enabled(x, e)
  {
    if !Prunes(x, e) then []
    else if e.Inserts? then [S.Insertion(S.Batch(0, 0, []), e.now)]
    else [S.Insertion(e.batch, e.now)]
  }

  function SpotInserts(w: World, events: seq<Event>): seq<S.Insertion>
    requires Run(w, events).Some?
  {
    if events == [] then []
    else
      var init := events[..|events| - 1];
      SpotInserts(w, init) + SpotsOf(Run(w, init).value, events[|events| - 1])
  }

  lemma {:induction false} SpotsNext(x: World, e: Event, t: S.Table, h: seq<S.Insertion>)
    requires Enabled(x, e) && x.store.spots == S.Continue(t, h)
    ensures Next(x, e).store.spots == S.Continue(t, h + SpotsOf(x, e))
  {
    if Prunes(x, e) {
      var i := SpotsOf(x, e)[0];
      assert (h + [i])[..|h|] == h && SpotsOf(x, e) == [i];
      assert S.UpsertAll(x.store.spots, S.Batch(0, 0, [])) == x.store.spots;
    } else {
      assert h + [] == h;
    }
  }

  /** Over all interleavings the table of the spots is what its inserts, and the weather inserts that prune, make it. */
  lemma {:induction false} SpotsAreHistory(w: World, events: seq<Event>)
    requires Run(w, events).Some?
    ensures Run(w, events).value.store.spots == S.Continue(w.store.spots, SpotInserts(w, events))
  {
    if events != [] {
      var init := events[..|events| - 1];
      SpotsAreHistory(w, init);
      SpotsNext(Run(w, init).value, events[|events| - 1], w.store.spots, SpotInserts(w, init));
    }
  }

  predicate Succeeds(w: World, events: seq<Event>, i: nat)
    requires i < |events|
  {
    var before := Run(w, events[..i]);
    before.Some? && Enabled(before.value, events[i]) && Prunes(before.value, events[i])
  }

  /** The events since `start`, and what the inserts among them returned. */
  datatype Record = Record(start: World, events: seq<Event>, ok: seq<bool>)

  type History = h: Record | |h.ok| == |h.events| witness Record(INITIAL, [], [])

  function Recorded(w: World, events: seq<Event>): History {
    Record(w, events, seq(|events|, i requires 0 <= i < |events| => Succeeds(w, events, i)))
  }

  /** The id thread `t` holds after the first `k` events: what its last lookup picked. */
  function HeldId(h: History, k: nat, t: Thread): Id
    requires k <= |h.events|
  {
    if k == 0 then (if t in h.start.pending then h.start.pending[t].id else 0)
    else if h.events[k - 1].Looks? && h.events[k - 1].t == t then h.events[k - 1].pick
    else HeldId(h, k - 1, t)
  }

  predicate Pruned(h: History, i: nat)
    requires i < |h.events|
  {
    h.ok[i] && !h.events[i].Looks?
  }

  /** Event `i` writes a row of facility `id` for that time. */
  predicate Writes(h: History, i: nat, id: Id, timestamp: int)
    requires i < |h.events|
  {
    && h.events[i].Inserts? && Pruned(h, i)
    && HeldId(h, i, h.events[i].t) == id && Reads(h.events[i].rows, timestamp)
  }

  /** From event `j` to before event `k`, no insert that succeeded had a cutoff above `timestamp`. */
  predicate Outlives(h: History, j: nat, k: nat, timestamp: int)
    requires j <= k <= |h.events|
  {
    forall i: nat :: j <= i < k && Pruned(h, i) ==> S.Cutoff(h.events[i].now) <= timestamp
  }

  /** The row was there at first, or one of the first `k` events wrote it, and it has not been outdated since. */
  predicate HasRow(h: History, k: nat, id: Id, timestamp: int)
    requires k <= |h.events|
  {
    || (At(id, timestamp) in h.start.store.weather && Outlives(h, 0, k, timestamp))
    || (exists j: nat :: j < k && Writes(h, j, id, timestamp) && Outlives(h, j, k, timestamp))
  }

  ghost predicate HasRows(h: History, k: nat, id: Id)
    requires k <= |h.events|
  {
    exists timestamp :: HasRow(h, k, id, timestamp)
  }

  /** The facility was there at first, or the lookup before event `l` picked it. */
  predicate FoundAt(h: History, l: nat, id: Id)
    requires l <= |h.events|
  {
    if l == 0 then id in h.start.store.facilities else h.events[l - 1].Looks? && h.events[l - 1].pick == id
  }

  /** After some point where it was found, every insert that succeeded has left a row of it. */
  ghost predicate Present(h: History, k: nat, id: Id)
    requires k <= |h.events|
  {
    exists l: nat :: l <= k && FoundAt(h, l, id)
      && forall i: nat :: l <= i < k && Pruned(h, i) ==> HasRows(h, i + 1, id)
  }

  lemma OutlivesNext(h: History, j: nat, k: nat, timestamp: int)
    requires j <= k < |h.events|
    ensures Outlives(h, j, k + 1, timestamp) <==>
      Outlives(h, j, k, timestamp)
      && (Pruned(h, k) ==> S.Cutoff(h.events[k].now) <= timestamp)
  {
  }

  lemma HasRowNext(h: History, k: nat, id: Id, timestamp: int)
    requires k < |h.events|
    ensures HasRow(h, k + 1, id, timestamp) <==>
      && (HasRow(h, k, id, timestamp) || Writes(h, k, id, timestamp))
      && (Pruned(h, k) ==> S.Cutoff(h.events[k].now) <= timestamp)
  {
    OutlivesNext(h, 0, k, timestamp);
    assert Outlives(h, k, k, timestamp);
    forall j: nat | j <= k
      ensures Outlives(h, j, k + 1, timestamp) <==>
        Outlives(h, j, k, timestamp)
        && (Pruned(h, k) ==> S.Cutoff(h.events[k].now) <= timestamp)
    {
      OutlivesNext(h, j, k, timestamp);
    }
  }

  lemma PresentNext(h: History, k: nat, id: Id)
    requires k < |h.events|
    ensures Present(h, k + 1, id) <==>
      FoundAt(h, k + 1, id) || (Present(h, k, id) && (Pruned(h, k) ==> HasRows(h, k + 1, id)))
  {
  }

  /** The id was handed out before the history, or a lookup in it picked it. */
  predicate Tracked(h: History, k: nat, id: Id)
    requires k <= |h.events|
  {
    id < h.start.store.nextId || exists l: nat :: 0 < l <= k && FoundAt(h, l, id)
  }

  lemma TrackedNext(h: History, k: nat, id: Id)
    requires k < |h.events|
    ensures Tracked(h, k + 1, id) <==> Tracked(h, k, id) || FoundAt(h, k + 1, id)
  {
  }

  ghost predicate TellsFacility(h: History, k: nat, x: World, id: Id)
    requires k <= |h.events|
  {
    id < x.store.nextId && (id in x.store.facilities <==> Present(h, k, id))
  }

  ghost predicate TellsFacilities(h: History, k: nat, x: World)
    requires k <= |h.events|
  {
    forall id: Id :: Tracked(h, k, id) ==> TellsFacility(h, k, x, id)
  }

  ghost predicate TellsRows(h: History, k: nat, x: World)
    requires k <= |h.events|
  {
    forall id: Id, timestamp :: At(id, timestamp) in x.store.weather <==> HasRow(h, k, id, timestamp)
  }

  predicate TellsPending(h: History, k: nat, x: World)
    requires k <= |h.events|
  {
    forall t :: t in x.pending ==> x.pending[t].id == HeldId(h, k, t) && Tracked(h, k, x.pending[t].id)
  }

  /** The history tells which facilities and rows there are, and which ids are held. */
  ghost predicate Tells(h: History, k: nat, x: World)
    requires k <= |h.events|
  {
    TellsFacilities(h, k, x) && TellsRows(h, k, x) && TellsPending(h, k, x)
  }

  lemma RowAfter(x: World, e: Event, id: Id, timestamp: int)
    requires Enabled(x, e)
    ensures At(id, timestamp) in Next(x, e).store.weather <==>
      && (At(id, timestamp) in x.store.weather
          || (e.Inserts? && Prunes(x, e) && x.pending[e.t].id == id && Reads(e.rows, timestamp)))
      && (Prunes(x, e) ==> S.Cutoff(e.now) <= timestamp)
  {
    if e.Inserts? {
      UpsertRowsAt(x.store.weather, x.pending[e.t].id, e.rows, At(id, timestamp));
    }
  }

  lemma FacilityAfter(x: World, e: Event, id: Id)
    requires WorldInv(x) && Enabled(x, e) && id < x.store.nextId
    ensures id in Next(x, e).store.facilities <==>
      id in x.store.facilities && (Prunes(x, e) ==> Used(Next(x, e).store.weather, id))
  {
  }

  lemma TellsRowsNext(h: History, k: nat, x: World)
    requires k < |h.events| && Enabled(x, h.events[k]) && Tells(h, k, x) && (Pruned(h, k) <==> Prunes(x, h.events[k]))
    ensures TellsRows(h, k + 1, Next(x, h.events[k]))
  {
    forall id: Id, timestamp
      ensures At(id, timestamp) in Next(x, h.events[k]).store.weather <==> HasRow(h, k + 1, id, timestamp)
    {
      RowAfter(x, h.events[k], id, timestamp);
      HasRowNext(h, k, id, timestamp);
    }
  }

  lemma UsedIffHasRows(h: History, k: nat, x: World, id: Id)
    requires k <= |h.events| && TellsRows(h, k, x)
    ensures Used(x.store.weather, id) <==> HasRows(h, k, id)
  {
    if Used(x.store.weather, id) {
      var row :| row in x.store.weather && row.facility == id;
      assert row == At(id, row.timestamp);
    }
    if HasRows(h, k, id) {
      var timestamp :| HasRow(h, k, id, timestamp);
      assert At(id, timestamp) in x.store.weather;
    }
  }

  lemma PickIsThere(x: World, e: Event)
    requires Enabled(x, e) && e.Looks?
    ensures e.pick in Next(x, e).store.facilities
  {
  }

  lemma FacilityNext(h: History, k: nat, x: World, id: Id)
    requires k < |h.events| && Enabled(x, h.events[k]) && (Pruned(h, k) <==> Prunes(x, h.events[k]))
    requires TellsFacility(h, k, x, id)
    requires Used(Next(x, h.events[k]).store.weather, id) <==> HasRows(h, k + 1, id)
    requires WorldInv(x) && x.store.nextId <= Next(x, h.events[k]).store.nextId
    ensures TellsFacility(h, k + 1, Next(x, h.events[k]), id)
  {
    PresentNext(h, k, id);
    FacilityAfter(x, h.events[k], id);
    if FoundAt(h, k + 1, id) {
      PickIsThere(x, h.events[k]);
    }
  }

  lemma FoundNext(h: History, k: nat, n: World, id: Id)
    requires k < |h.events| && FoundAt(h, k + 1, id) && StoreInv(n.store) && id in n.store.facilities
    ensures TellsFacility(h, k + 1, n, id)
  {
    PresentNext(h, k, id);
  }

  lemma TellsFacilitiesNext(h: History, k: nat, m: nat, x: World)
    requires k + 1 == m <= |h.events| && Enabled(x, h.events[k]) && (Pruned(h, k) <==> Prunes(x, h.events[k]))
    requires TellsFacilities(h, k, x) && TellsRows(h, m, Next(x, h.events[k]))
    requires WorldInv(x) && WorldInv(Next(x, h.events[k])) && x.store.nextId <= Next(x, h.events[k]).store.nextId
    ensures TellsFacilities(h, m, Next(x, h.events[k]))
  {
    var n := Next(x, h.events[k]);
    forall id: Id | Tracked(h, m, id)
      ensures TellsFacility(h, m, n, id)
    {
      TrackedNext(h, k, id);
      if FoundAt(h, m, id) {
        PickIsThere(x, h.events[k]);
        FoundNext(h, k, n, id);
      } else {
        UsedIffHasRows(h, m, n, id);
        FacilityNext(h, k, x, id);
      }
    }
  }

  lemma TellsPendingNext(h: History, k: nat, x: World)
    requires k < |h.events| && Enabled(x, h.events[k]) && TellsPending(h, k, x)
    ensures TellsPending(h, k + 1, Next(x, h.events[k]))
  {
    var n := Next(x, h.events[k]);
    forall t | t in n.pending
      ensures n.pending[t].id == HeldId(h, k + 1, t) && Tracked(h, k + 1, n.pending[t].id)
    {
      TrackedNext(h, k, n.pending[t].id);
    }
  }

  lemma TellsNext(h: History, k: nat, x: World)
    requires k < |h.events| && Enabled(x, h.events[k]) && (Pruned(h, k) <==> Prunes(x, h.events[k]))
    requires Tells(h, k, x) && WorldInv(x)
    ensures Tells(h, k + 1, Next(x, h.events[k]))
  {
    var n := Next(x, h.events[k]);
    NextInv(x, h.events[k]);
    TellsRowsNext(h, k, x);
    TellsPendingNext(h, k, x);
    TellsFacilitiesNext(h, k, k + 1, x);
  }

  lemma TellsStart(h: History)
    requires WorldInv(h.start)
    ensures Tells(h, 0, h.start)
  {
    var w := h.start;
    forall t | t in w.pending
      ensures w.pending[t].id == HeldId(h, 0, t) && Tracked(h, 0, w.pending[t].id)
    {
      assert PendingInv(w.store, w.pending[t]);
    }
    forall id: Id | Tracked(h, 0, id)
      ensures TellsFacility(h, 0, w, id)
    {
      assert FoundAt(h, 0, id) <==> id in w.store.facilities;
    }
  }

  lemma {:induction false} RunPrefix(w: World, events: seq<Event>, k: nat)
    requires k <= |events| && Run(w, events).Some?
    ensures Run(w, events[..k]).Some?
    decreases |events| - k
  {
    if k == |events| {
      assert events[..k] == events;
    } else {
      RunPrefix(w, events, k + 1);
      assert events[..k + 1][..k] == events[..k];
    }
  }

  lemma {:induction false} RunNext(w: World, events: seq<Event>, k: nat)
    requires k < |events| && Run(w, events).Some?
    ensures Run(w, events[..k]).Some? && Enabled(Run(w, events[..k]).value, events[k])
    ensures Run(w, events[..k + 1]) == Some(Next(Run(w, events[..k]).value, events[k]))
  {
    RunPrefix(w, events, k);
    RunPrefix(w, events, k + 1);
    assert events[..k + 1][..k] == events[..k];
  }

  /** The world after the first `k` events. */
  function After(w: World, events: seq<Event>, k: nat): World
    requires k <= |events| && Run(w, events).Some?
  {
    RunPrefix(w, events, k);
    Run(w, events[..k]).value
  }

  lemma {:induction false} AfterNext(w: World, events: seq<Event>, k: nat)
    requires WorldInv(w) && k < |events| && Run(w, events).Some?
    ensures var x := After(w, events, k);
      && WorldInv(x) && Enabled(x, events[k]) && After(w, events, k + 1) == Next(x, events[k])
      && (Pruned(Recorded(w, events), k) <==> Prunes(x, events[k]))
  {
    RunNext(w, events, k);
    RunInv(w, events[..k]);
  }

  lemma {:induction false} HistoryTells(w: World, events: seq<Event>, k: nat)
    requires WorldInv(w) && Run(w, events).Some? && k <= |events|
    ensures Tells(Recorded(w, events), k, After(w, events, k))
  {
    if k == 0 {
      assert events[..0] == [];
      TellsStart(Recorded(w, events));
    } else {
      HistoryTells(w, events, k - 1);
      AfterNext(w, events, k - 1);
      TellsNext(Recorded(w, events), k - 1, After(w, events, k - 1));
    }
  }

  /**
   The weather after any history, told from the rows and the clocks of its inserts: a row is there exactly if
   it was there at first or was written by an insert that succeeded, and no insert that succeeded since then
   had a cutoff above it.
   */
  lemma {:induction false} RowsAreSurvivors(w: World, events: seq<Event>, id: Id, timestamp: int)
    requires WorldInv(w) && Run(w, events).Some?
    ensures At(id, timestamp) in Run(w, events).value.store.weather <==>
      HasRow(Recorded(w, events), |events|, id, timestamp)
  {
    HistoryTells(w, events, |events|);
    assert events[..|events|] == events;
  }

  /**
   And the facilities: one that was there at first, or was found, is there exactly if every insert that
   succeeded since has left a row of it.
   */
  lemma {:induction false} FacilitiesAreFed(w: World, events: seq<Event>, id: Id)
    requires WorldInv(w) && Run(w, events).Some? && Tracked(Recorded(w, events), |events|, id)
    ensures id in Run(w, events).value.store.facilities <==> Present(Recorded(w, events), |events|, id)
  {
    HistoryTells(w, events, |events|);
    assert events[..|events|] == events;
  }

  /** What an insert of weather returns is told by the events before it. */
  lemma {:induction false} SucceedsIffPresent(w: World, events: seq<Event>, i: nat)
    requires WorldInv(w) && Run(w, events).Some? && i < |events| && events[i].Inserts?
    ensures var h := Recorded(w, events); h.ok[i] <==> Present(h, i, HeldId(h, i, events[i].t))
  {
    HistoryTells(w, events, i);
    AfterNext(w, events, i);
  }

  // ---------------------------------------------------------------- when an insert is lost

  lemma {:induction false} StaysGone(w: World, events: seq<Event>, k: nat, id: Id)
    requires WorldInv(w) && Run(w, events).Some? && k <= |events|
    requires id < After(w, events, k).store.nextId && id !in After(w, events, k).store.facilities
    ensures id !in Run(w, events).value.store.facilities
    decreases |events| - k
  {
    if k == |events| {
      assert events[..k] == events;
    } else {
      AfterNext(w, events, k);
      NextInv(After(w, events, k), events[k]);
      StaysGone(w, events, k + 1, id);
    }
  }

  /** Where an insert that succeeds leaves no row of a facility, the facility goes for good. */
  lemma {:induction false} UnfedIsGone(w: World, events: seq<Event>, i: nat, id: Id)
    requires WorldInv(w) && Run(w, events).Some? && i < |events| && id < w.store.nextId
    requires var h := Recorded(w, events); Pruned(h, i) && !HasRows(h, i + 1, id)
    ensures id !in Run(w, events).value.store.facilities
  {
    var h := Recorded(w, events);
    HistoryTells(w, events, i);
    HistoryTells(w, events, i + 1);
    AfterNext(w, events, i);
    assert Tracked(h, i, id) && Tracked(h, i + 1, id);
    UsedIffHasRows(h, i + 1, After(w, events, i + 1), id);
    FacilityAfter(After(w, events, i), events[i], id);
    StaysGone(w, events, i + 1, id);
  }

  /** Every insert that succeeded has left a row of the facility. */
  ghost predicate Feeds(h: History, id: Id) {
    forall i: nat :: i < |h.events| && Pruned(h, i) ==> HasRows(h, i + 1, id)
  }

  /** A facility is gone exactly if some insert that succeeded since left no row of it. */
  lemma {:induction false} StaysIffFed(w: World, events: seq<Event>, id: Id)
    requires WorldInv(w) && Run(w, events).Some? && id in w.store.facilities
    ensures id in Run(w, events).value.store.facilities <==> Feeds(Recorded(w, events), id)
  {
    var h := Recorded(w, events);
    if Feeds(h, id) {
      assert FoundAt(h, 0, id);
      assert Present(h, |events|, id);
      FacilitiesAreFed(w, events, id);
    } else {
      var i: nat :| i < |events| && Pruned(h, i) && !HasRows(h, i + 1, id);
      UnfedIsGone(w, events, i, id);
    }
  }

  predicate OthersOnly(events: seq<Event>, t: Thread) {
    forall i :: 0 <= i < |events| ==> events[i].t != t
  }

  lemma {:induction false} PendingKept(w: World, events: seq<Event>, t: Thread)
    requires t in w.pending && Run(w, events).Some? && OthersOnly(events, t)
    ensures t in Run(w, events).value.pending && Run(w, events).value.pending[t] == w.pending[t]
  {
    if events != [] {
      PendingKept(w, events[..|events| - 1], t);
    }
  }

  /** The insert that thread `t` would make after the events is refused: its facility is gone. */
  predicate Lost(w: World, events: seq<Event>, t: Thread) {
    && Run(w, events).Some? && t in Run(w, events).value.pending
    && Run(w, events).value.pending[t].id !in Run(w, events).value.store.facilities
  }

  /** `w` is where thread `t` has just found a facility, and `events` are what the others do next. */
  ghost predicate Between(w: World, events: seq<Event>, t: Thread) {
    && Reachable(w) && t in w.pending && w.pending[t].id in w.store.facilities
    && Run(w, events).Some? && OthersOnly(events, t)
  }

  /**
   The insert of a thread is lost exactly if, since its lookup, an insert of another thread succeeded and left
   no row of its facility.
   */
  lemma InsertIsLostIff(w: World, events: seq<Event>, t: Thread)
    requires Between(w, events, t)
    ensures Lost(w, events, t) <==> !Feeds(Recorded(w, events), w.pending[t].id)
  {
    ReachableInv(w);
    PendingKept(w, events, t);
    StaysIffFed(w, events, w.pending[t].id);
  }

  /** None of the events inserts weather under that id. */
  predicate NoneWritesFor(h: History, id: Id) {
    forall i: nat :: i < |h.events| && h.events[i].Inserts? ==> HeldId(h, i, h.events[i].t) != id
  }

  /** Event `i` is an insert whose cutoff is above every row the facility had at first. */
  predicate Outdates(h: History, i: nat, id: Id)
    requires i < |h.events|
  {
    && Pruned(h, i)
    && forall row :: row in h.start.store.weather && row.facility == id ==>
         S.Cutoff(h.events[i].now) > row.timestamp
  }

  /** Of the inserts that succeeded among the first `k` events, one has the latest cutoff. */
  lemma {:induction false} LatestCutoff(h: History, i: nat, k: nat) returns (m: nat)
    requires i < k <= |h.events| && Pruned(h, i)
    ensures m < k && Pruned(h, m)
    ensures forall j: nat :: j < k && Pruned(h, j) ==> S.Cutoff(h.events[j].now) <= S.Cutoff(h.events[m].now)
    decreases k
  {
    m := i;
    if k > 1 {
      if j: nat :| j < k - 1 && Pruned(h, j) {
        m := LatestCutoff(h, j, k - 1);
        if Pruned(h, k - 1) && S.Cutoff(h.events[m].now) < S.Cutoff(h.events[k - 1].now) {
          m := k - 1;
        }
      }
    }
  }

  lemma OldRowsOnly(h: History, k: nat, id: Id, timestamp: int)
    requires k <= |h.events| && NoneWritesFor(h, id)
    ensures HasRow(h, k, id, timestamp) <==>
      At(id, timestamp) in h.start.store.weather && Outlives(h, 0, k, timestamp)
  {
  }

  lemma OutdatedIsUnfed(h: History, i: nat, k: nat, id: Id)
    requires i + 1 == k <= |h.events| && NoneWritesFor(h, id) && Outdates(h, i, id)
    ensures !HasRows(h, k, id)
  {
    forall timestamp
      ensures !HasRow(h, k, id, timestamp)
    {
      OldRowsOnly(h, k, id, timestamp);
      assert At(id, timestamp) in h.start.store.weather ==> S.Cutoff(h.events[i].now) > timestamp;
    }
  }

  lemma UnfedIsOutdated(h: History, i: nat, id: Id)
    requires i < |h.events| && Pruned(h, i) && NoneWritesFor(h, id) && !HasRows(h, i + 1, id)
    ensures exists m: nat :: m < |h.events| && Outdates(h, m, id)
  {
    var m := LatestCutoff(h, i, i + 1);
    forall row | row in h.start.store.weather && row.facility == id
      ensures S.Cutoff(h.events[m].now) > row.timestamp
    {
      assert row == At(id, row.timestamp);
      OldRowsOnly(h, i + 1, id, row.timestamp);
      assert !HasRow(h, i + 1, id, row.timestamp);
    }
    assert Outdates(h, m, id);
  }

  /**
   When nobody else writes for the facility, the insert is lost exactly if one insert that succeeds in between
   has a cutoff above every row the facility had at the lookup.
   */
  lemma LostIffOutdated(w: World, events: seq<Event>, t: Thread)
    requires Between(w, events, t) && NoneWritesFor(Recorded(w, events), w.pending[t].id)
    ensures Lost(w, events, t) <==>
      exists i: nat :: i < |events| && Outdates(Recorded(w, events), i, w.pending[t].id)
  {
    var h, id := Recorded(w, events), w.pending[t].id;
    InsertIsLostIff(w, events, t);
    if !Feeds(h, id) {
      var i: nat :| i < |events| && Pruned(h, i) && !HasRows(h, i + 1, id);
      UnfedIsOutdated(h, i, id);
    }
    if i: nat :| i < |events| && Outdates(h, i, id) {
      OutdatedIsUnfed(h, i, i + 1, id);
    }
  }

  /**
   So the first insert for a new facility, which has no row yet, is lost exactly if any insert of another
   thread, of spots or of weather for another facility, succeeds in between.
   */
  lemma FirstInsertIsLostIff(w: World, events: seq<Event>, t: Thread)
    requires Between(w, events, t) && NoneWritesFor(Recorded(w, events), w.pending[t].id)
    requires !Used(w.store.weather, w.pending[t].id)
    ensures Lost(w, events, t) <==> exists i: nat :: i < |events| && Recorded(w, events).ok[i]
  {
    var h, id := Recorded(w, events), w.pending[t].id;
    LostIffOutdated(w, events, t);
    if i: nat :| i < |events| && h.ok[i] {
      assert Outdates(h, i, id);
    }
  }

  /** It fails from the empty database on: one thread looks up, another inserts spots, and the first is refused. */
  lemma SpotsDropNewFacility(place: Place, meta: Meta, rows: seq<Reading>, batch: S.Batch, now: int)
    requires rows != []
    ensures var events := [Looks(0, place, meta, 1, 1), InsertsSpots(1, batch, now)];
      && Lost(INITIAL, events, 0)
      && Run(INITIAL, events + [Inserts(0, rows, now)]).Some?
      && Run(INITIAL, events + [Inserts(0, rows, now)]).value.store.weather == map[]
  {
    var look, spots, weather := Looks(0, place, meta, 1, 1), InsertsSpots(1, batch, now), Inserts(0, rows, now);
    var s := UpsertFacility(EMPTY, place, meta, 1);
    assert 1 in s.facilities && Picks(s, place, 1);
    assert [look][..0] == [] && [look, spots][..1] == [look];
    assert ([look, spots] + [weather])[..2] == [look, spots];
    assert Run(INITIAL, []) == Some(INITIAL);
    assert Run(INITIAL, [look]) == Some(Next(INITIAL, look));
    assert Run(INITIAL, [look, spots]) == Some(Next(Next(INITIAL, look), spots));
  }

  // ---------------------------------------------------------------- the sections as they run

  class Database {
    var facilities: map<Id, Facility>
    var nextId: nat
    var weather: Weather
    var spots: S.Table

    ghost function Abs(): Store
      reads this
    {
      Store(facilities, nextId, weather, spots)
    }

    /** First section: upsert, then select; `newId` is what the database would hand out. */
    method GetOrCreate(place: Place, meta: Meta, newId: Id) returns (id: Id)
      requires newId >= nextId
      modifies `facilities, `nextId
      ensures Abs() == UpsertFacility(old(Abs()), place, meta, newId)
      ensures Picks(Abs(), place, id)
    {
      if Known(facilities, place) {
        ghost var row :| row in facilities && facilities[row].place == place;
        facilities := map f | f in facilities ::
          if facilities[f].place == place then Facility(place, meta) else facilities[f];
        assert facilities[row].place == place;
      } else {
        facilities := facilities[newId := Facility(place, meta)];
        nextId := newId + 1;
        assert facilities[newId].place == place;
      }
      id :| id in facilities && Near(facilities[id].place, place);
    }

    /** Second section: all rows in one transaction, rolled back if one is refused; then prune. */
    method InsertWeather(id: Id, rows: seq<Reading>, now: int) returns (ok: bool)
      requires rows != []
      modifies `weather, `facilities, `spots
      ensures Abs() == WithWeather(old(Abs()), id, rows, now)
      ensures ok == (id in old(facilities))
    {
      var begun := weather;
      var i := 0;
      while i < |rows|
        invariant 0 <= i <= |rows|
        invariant weather == UpsertRows(old(weather), id, rows[..i])
        invariant i > 0 ==> id in facilities
        invariant facilities == old(facilities) && nextId == old(nextId) && spots == old(spots)
      {
        if id !in facilities {
          weather := begun;
          return false;
        }
        assert rows[..i + 1][..i] == rows[..i];
        weather := weather[At(id, rows[i].timestamp) := rows[i].values];
        i := i + 1;
      }
      assert rows[..i] == rows;
      PruneLocked(S.Cutoff(now));
      return true;
    }

    method PruneLocked(cutoff: int)
      modifies `weather, `facilities, `spots
      ensures Abs() == Prune(old(Abs()), cutoff)
    {
      spots := S.Prune(spots, cutoff);
      weather := map k | k in weather && k.timestamp >= cutoff :: weather[k];
      var used := set k | k in weather :: k.facility;
      facilities := map id | id in facilities && id in used :: facilities[id];
      assert forall id :: id in used <==> Used(weather, id);
    }
  }
}

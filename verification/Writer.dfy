/** The two tables and the writes to them: insert-or-ignore on flight_events, a
    staleness-guarded upsert on active_flights, both in one transaction. */
module Writer {
  import opened Flights

  /** The columns an update never touches. */
  datatype Schedule = Schedule(
    airline: string,
    number: string,
    origin: string,
    destination: string,
    dep: int,
    arr: int,
    passengers: Option<int>)

  /** The columns an update overwrites, `updated` being last_updated. */
  datatype Current = Current(
    flightId: string,
    aircraft: Option<string>,
    gate: Option<string>,
    delay: int,
    status: Status,
    updated: int,
    airport: Option<string>)

  datatype ActiveRow = ActiveRow(key: Key, schedule: Schedule, now: Current)

  /** The conflict target of flight_events. */
  datatype Pair = Pair(flightId: string, stamp: int)

  function PairOf(f: Flight): Pair {
    Pair(f.info.flightId, f.info.stamp)
  }

  function RowOf(f: Flight, airport: Option<string>): ActiveRow {
    var i := f.info;
    ActiveRow(i.key,
              Schedule(i.airline, i.number, i.origin, i.destination, i.dep, i.arr, i.passengers),
              Current(i.flightId, i.aircraft, f.gate, f.delay, i.status, i.stamp, airport))
  }

  // ---- one statement ----

  predicate Stored(table: seq<Flight>, p: Pair) {
    exists i :: 0 <= i < |table| && PairOf(table[i]) == p
  }

  function Insert(table: seq<Flight>, f: Flight): seq<Flight> {
    if Stored(table, PairOf(f)) then table else table + [f]
  }

  function Upsert(table: map<Key, ActiveRow>, r: ActiveRow): map<Key, ActiveRow> {
    if r.key !in table then table[r.key := r]
    else if table[r.key].now.updated < r.now.updated then table[r.key := table[r.key].(now := r.now)]
    else table
  }

  function InsertAll(table: seq<Flight>, fs: seq<Flight>): seq<Flight> {
    if fs == [] then table else Insert(InsertAll(table, fs[..|fs| - 1]), fs[|fs| - 1])
  }

  function UpsertAll(table: map<Key, ActiveRow>, rs: seq<ActiveRow>): map<Key, ActiveRow> {
    if rs == [] then table else Upsert(UpsertAll(table, rs[..|rs| - 1]), rs[|rs| - 1])
  }

  function RowsOf(fs: seq<Flight>, airport: Option<string>): (rs: seq<ActiveRow>)
    ensures |rs| == |fs| && forall i :: 0 <= i < |fs| ==> rs[i] == RowOf(fs[i], airport)
  {
    seq(|fs|, i requires 0 <= i < |fs| => RowOf(fs[i], airport))
  }

  datatype Tables = Tables(events: seq<Flight>, active: map<Key, ActiveRow>)

  const NO_TABLES: Tables := Tables([], map[])

  /** One call of write_events. */
  function Write(db: Tables, fs: seq<Flight>, airport: Option<string>): Tables {
    Tables(InsertAll(db.events, fs), UpsertAll(db.active, RowsOf(fs, airport)))
  }

  // ---- flight_events ----

  ghost predicate UniquePairs(table: seq<Flight>) {
    forall i, j :: 0 <= i < j < |table| ==> PairOf(table[i]) != PairOf(table[j])
  }

  lemma {:induction false} InsertAllIs(table: seq<Flight>, fs: seq<Flight>)
    ensures table <= InsertAll(table, fs)
    ensures UniquePairs(table) ==> UniquePairs(InsertAll(table, fs))
    ensures forall p :: Stored(InsertAll(table, fs), p) <==> Stored(table, p) || Stored(fs, p)
  {
    if fs != [] {
      var n := |fs| - 1;
      InsertAllIs(table, fs[..n]);
      InsertIs(InsertAll(table, fs[..n]), fs[n]);
      forall p ensures Stored(fs, p) <==> Stored(fs[..n], p) || p == PairOf(fs[n]) {
        StoredAppended(fs[..n], fs[n], p);
        assert fs == fs[..n] + [fs[n]];
      }
    }
  }

  lemma StoredAppended(table: seq<Flight>, f: Flight, p: Pair)
    ensures Stored(table + [f], p) <==> Stored(table, p) || p == PairOf(f)
  {
    var t := table + [f];
    assert t[|table|] == f;
    if Stored(table, p) {
      var i :| 0 <= i < |table| && PairOf(table[i]) == p;
      assert t[i] == table[i];
    }
  }

  lemma InsertIs(table: seq<Flight>, f: Flight)
    ensures table <= Insert(table, f)
    ensures UniquePairs(table) ==> UniquePairs(Insert(table, f))
    ensures forall p :: Stored(Insert(table, f), p) <==> Stored(table, p) || p == PairOf(f)
  {
    forall p ensures Stored(Insert(table, f), p) <==> Stored(table, p) || p == PairOf(f) {
      StoredAppended(table, f, p);
    }
  }

  /** Stored rows are never changed or removed, a pair is stored exactly when it
      was or the call brought it, and never twice. */
  lemma WriteEventsTable(db: Tables, fs: seq<Flight>, airport: Option<string>)
    requires UniquePairs(db.events)
    ensures db.events <= Write(db, fs, airport).events && UniquePairs(Write(db, fs, airport).events)
    ensures forall p :: Stored(Write(db, fs, airport).events, p) <==> Stored(db.events, p) || Stored(fs, p)
  {
    InsertAllIs(db.events, fs);
  }

  /** The two events agree on the columns of the conflict target. */
  predicate SamePair(f: Flight, g: Flight) {
    f.info.flightId == g.info.flightId && f.info.stamp == g.info.stamp
  }

  /** In terms of the columns: what a sequence of events written into empty tables
      leaves in flight_events is, for every flight_id and timestamp that occur together
      in it, the first event that has them, and nothing else. */
  lemma EventColumns(fs: seq<Flight>, airport: Option<string>)
    ensures var rows := Write(NO_TABLES, fs, airport).events;
      && (forall i, j :: 0 <= i < j < |rows| ==> !SamePair(rows[i], rows[j]))
      && (forall r :: r in rows ==> r in fs)
      && (forall i :: 0 <= i < |fs| && (forall j :: 0 <= j < i ==> !SamePair(fs[j], fs[i])) ==> fs[i] in rows)
  {
    hide UpsertAll, InsertAll, RowsOf;
    InsertAllIs([], fs);
    InsertedAre([], fs);
    forall i | 0 <= i < |fs| && (forall j :: 0 <= j < i ==> !SamePair(fs[j], fs[i])) ensures fs[i] in InsertAll([], fs) {
      FirstIsInserted(fs, i);
    }
  }

  lemma {:induction false} InsertedAre(table: seq<Flight>, fs: seq<Flight>)
    ensures forall f :: f in InsertAll(table, fs) ==> f in table || f in fs
  {
    if fs != [] {
      InsertedAre(table, fs[..|fs| - 1]);
    }
  }

  lemma {:induction false} FirstIsInserted(fs: seq<Flight>, i: nat)
    requires i < |fs| && forall j :: 0 <= j < i ==> !SamePair(fs[j], fs[i])
    ensures fs[i] in InsertAll([], fs)
  {
    var n := |fs| - 1;
    if i < n {
      FirstIsInserted(fs[..n], i);
    } else {
      var table := InsertAll([], fs[..n]);
      InsertedAre([], fs[..n]);
      forall j | 0 <= j < |table| ensures PairOf(table[j]) != PairOf(fs[n]) {
        assert table[j] in fs[..n];
      }
    }
  }

  /** Of two events written, the second is ignored exactly when it has both the
      flight_id and the timestamp of the first. */
  lemma SecondEvent(f: Flight, g: Flight, airport: Option<string>)
    ensures Write(NO_TABLES, [f, g], airport).events ==
            if f.info.flightId == g.info.flightId && f.info.stamp == g.info.stamp then [f] else [f, g]
  {
    hide UpsertAll;
    assert [f, g][..1] == [f] && [f][..0] == [];
    assert InsertAll([], [f]) == Insert(InsertAll([], []), f) == [f];
    assert [f][0] == f;
  }

  // ---- active_flights ----

  /** Row `i` is a first row for `k`. */
  ghost predicate First(rs: seq<ActiveRow>, k: Key, i: nat) {
    i < |rs| && rs[i].key == k && forall j :: 0 <= j < i ==> rs[j].key != k
  }

  /** Row `i` is the first of the latest rows for `k`. */
  ghost predicate Latest(rs: seq<ActiveRow>, k: Key, i: nat) {
    && i < |rs| && rs[i].key == k
    && (forall j :: 0 <= j < |rs| && rs[j].key == k ==>
          rs[j].now.updated <= rs[i].now.updated && (j < i ==> rs[j].now.updated < rs[i].now.updated))
  }

  ghost predicate Mentioned(rs: seq<ActiveRow>, k: Key) {
    exists i :: 0 <= i < |rs| && rs[i].key == k
  }

  /** What any sequence of upserts into an empty table leaves: the schedule of
      the first row written for a flight and the rest of its first latest row. */
  lemma {:induction false} UpsertsExact(rs: seq<ActiveRow>, k: Key) returns (first: nat, latest: nat)
    ensures k in UpsertAll(map[], rs) <==> Mentioned(rs, k)
    ensures Mentioned(rs, k) ==>
              && First(rs, k, first) && Latest(rs, k, latest)
              && UpsertAll(map[], rs)[k] == ActiveRow(k, rs[first].schedule, rs[latest].now)
  {
    first, latest := 0, 0;
    if rs != [] {
      var n := |rs| - 1;
      first, latest := UpsertsExact(rs[..n], k);
      if Mentioned(rs[..n], k) {
        var i :| 0 <= i < n && rs[..n][i].key == k;
        assert rs[i].key == k && rs[first].key == k && rs[latest].key == k;
        assert forall j :: 0 <= j < n ==> rs[..n][j] == rs[j];
        if rs[n].key == k && rs[latest].now.updated < rs[n].now.updated {
          latest := n;
        }
      } else {
        assert forall j :: 0 <= j < n ==> rs[..n][j].key != k && rs[j].key != k;
        if rs[n].key == k {
          first, latest := n, n;
        }
      }
    }
  }

  /** last_updated never decreases, and no row goes away. */
  lemma {:induction false} UpdatedNeverFalls(table: map<Key, ActiveRow>, rs: seq<ActiveRow>, k: Key)
    requires k in table
    ensures k in UpsertAll(table, rs) && table[k].now.updated <= UpsertAll(table, rs)[k].now.updated
    ensures UpsertAll(table, rs)[k].schedule == table[k].schedule
    ensures UpsertAll(table, rs)[k].now.updated == table[k].now.updated ==> UpsertAll(table, rs)[k] == table[k]
  {
    if rs != [] {
      UpdatedNeverFalls(table, rs[..|rs| - 1], k);
    }
  }

  /** Column by column, what any sequence of events written into empty tables leaves
      for a flight: the schedule of its first event, and everything else of the first
      of its latest events. */
  lemma WrittenColumns(fs: seq<Flight>, airport: Option<string>, k: Key) returns (first: nat, latest: nat)
    requires exists i :: 0 <= i < |fs| && fs[i].info.key == k
    ensures first < |fs| && fs[first].info.key == k && forall j :: 0 <= j < first ==> fs[j].info.key != k
    ensures latest < |fs| && fs[latest].info.key == k
    ensures forall j :: 0 <= j < |fs| && fs[j].info.key == k ==>
              fs[j].info.stamp <= fs[latest].info.stamp && (j < latest ==> fs[j].info.stamp < fs[latest].info.stamp)
    ensures k in Write(NO_TABLES, fs, airport).active
    ensures var r, i, f := Write(NO_TABLES, fs, airport).active[k], fs[first].info, fs[latest];
      && r.key == k && r.schedule.airline == i.airline && r.schedule.number == i.number
      && r.schedule.origin == i.origin && r.schedule.destination == i.destination
      && r.schedule.dep == i.dep && r.schedule.arr == i.arr && r.schedule.passengers == i.passengers
      && r.now.flightId == f.info.flightId && r.now.aircraft == f.info.aircraft && r.now.gate == f.gate
      && r.now.delay == f.delay && r.now.status == f.info.status && r.now.updated == f.info.stamp
      && r.now.airport == airport
  {
    var rows := RowsOf(fs, airport);
    var i :| 0 <= i < |fs| && fs[i].info.key == k;
    assert rows[i].key == k;
    first, latest := UpsertsExact(rows, k);
    forall j | 0 <= j < |fs| ensures rows[j].key == fs[j].info.key && rows[j].now.updated == fs[j].info.stamp {
    }
  }

  // ---- convergence ----

  ghost predicate SameRows(a: seq<ActiveRow>, b: seq<ActiveRow>) {
    forall r :: r in a <==> r in b
  }

  /** The latest rows for `k` agree on the overwritten columns. */
  ghost predicate LatestAgree(rs: seq<ActiveRow>, k: Key) {
    forall i, j :: 0 <= i < |rs| && 0 <= j < |rs| && IsLast(rs, k, i) && IsLast(rs, k, j) ==> rs[i].now == rs[j].now
  }

  ghost predicate IsLast(rs: seq<ActiveRow>, k: Key, i: int) {
    && 0 <= i < |rs| && rs[i].key == k
    && (forall j :: 0 <= j < |rs| && rs[j].key == k ==> rs[j].now.updated <= rs[i].now.updated)
  }

  /** Some order, with repeats, of the same rows ends in different columns. */
  ghost predicate NowDepends(rs: seq<ActiveRow>, k: Key) {
    exists bs: seq<ActiveRow> :: SameRows(rs, bs) && k in UpsertAll(map[], rs) && k in UpsertAll(map[], bs)
                                 && UpsertAll(map[], bs)[k].now != UpsertAll(map[], rs)[k].now
  }

  lemma SameMentioned(a: seq<ActiveRow>, b: seq<ActiveRow>, k: Key)
    requires SameRows(a, b) && Mentioned(a, k)
    ensures Mentioned(b, k)
  {
    var i :| 0 <= i < |a| && a[i].key == k;
    assert a[i] in b;
  }

  /** Any two orders, with any repeats, of the same rows leave the same flights
      and, where the latest rows agree, the same overwritten columns. */
  lemma {:induction false} Converges(a: seq<ActiveRow>, b: seq<ActiveRow>, k: Key)
    requires SameRows(a, b)
    ensures k in UpsertAll(map[], a) <==> k in UpsertAll(map[], b)
    ensures k in UpsertAll(map[], a) && LatestAgree(a, k) ==> UpsertAll(map[], a)[k].now == UpsertAll(map[], b)[k].now
  {
    var fa, la := UpsertsExact(a, k);
    var fb, lb := UpsertsExact(b, k);
    if Mentioned(a, k) {
      SameMentioned(a, b, k);
      var i :| 0 <= i < |a| && a[i] == b[lb] by { assert b[lb] in a; }
      assert IsLast(a, k, la);
      forall j | 0 <= j < |a| && a[j].key == k ensures a[j].now.updated <= a[i].now.updated {
        assert a[j] in b;
      }
      assert IsLast(a, k, i);
    } else if Mentioned(b, k) {
      SameMentioned(b, a, k);
    }
  }

  /** The overwritten columns of a flight are independent of order and repeats
      exactly when its latest rows agree. */
  lemma ConvergesExactly(rs: seq<ActiveRow>, k: Key)
    requires Mentioned(rs, k)
    ensures NowDepends(rs, k) <==> !LatestAgree(rs, k)
  {
    if LatestAgree(rs, k) {
      forall bs: seq<ActiveRow> | SameRows(rs, bs) && k in UpsertAll(map[], rs) && k in UpsertAll(map[], bs)
        ensures UpsertAll(map[], bs)[k].now == UpsertAll(map[], rs)[k].now
      {
        Converges(rs, bs, k);
      }
    } else {
      var first, latest := UpsertsExact(rs, k);
      var i, j :| 0 <= i < |rs| && 0 <= j < |rs| && IsLast(rs, k, i) && IsLast(rs, k, j) && rs[i].now != rs[j].now;
      var other := if rs[latest].now != rs[i].now then i else j;
      var bs := [rs[other]] + rs;
      FrontWins(rs, k, other);
      assert SameRows(rs, bs) by {
        assert forall r :: r in bs <==> r == rs[other] || r in rs;
      }
    }
  }

  /** A latest row delivered first decides the overwritten columns. */
  lemma {:induction false} FrontWins(rs: seq<ActiveRow>, k: Key, i: nat)
    requires IsLast(rs, k, i)
    ensures k in UpsertAll(map[], [rs[i]] + rs) && UpsertAll(map[], [rs[i]] + rs)[k].now == rs[i].now
  {
    var bs := [rs[i]] + rs;
    var first, latest := UpsertsExact(bs, k);
    assert bs[0].key == k && bs[1 + i] == rs[i];
    assert forall j :: 1 <= j < |bs| ==> bs[j] == rs[j - 1];
  }

  /** Where a flight's key and timestamp fix what is written, every order,
      duplication and interleaving leaves the same overwritten columns. */
  ghost predicate StampFixesRow(rs: seq<ActiveRow>) {
    forall i, j :: 0 <= i < |rs| && 0 <= j < |rs| && rs[i].key == rs[j].key && rs[i].now.updated == rs[j].now.updated ==>
      rs[i].now == rs[j].now
  }

  lemma {:induction false} StampsConverge(a: seq<ActiveRow>, b: seq<ActiveRow>, k: Key)
    requires SameRows(a, b) && StampFixesRow(a) && k in UpsertAll(map[], a)
    ensures k in UpsertAll(map[], b) && UpsertAll(map[], b)[k].now == UpsertAll(map[], a)[k].now
    ensures exists i :: 0 <= i < |a| && IsLast(a, k, i) && UpsertAll(map[], b)[k].now == a[i].now
  {
    Converges(a, b, k);
    var first, latest := UpsertsExact(a, k);
    assert IsLast(a, k, latest);
    assert LatestAgree(a, k);
  }

  /** Some order of the same rows ends in another schedule. */
  ghost predicate ScheduleDepends(rs: seq<ActiveRow>, k: Key) {
    exists bs: seq<ActiveRow> :: SameRows(rs, bs) && k in UpsertAll(map[], rs) && k in UpsertAll(map[], bs)
                                 && UpsertAll(map[], bs)[k].schedule != UpsertAll(map[], rs)[k].schedule
  }

  ghost predicate OneSchedule(rs: seq<ActiveRow>, k: Key) {
    forall i, j :: 0 <= i < |rs| && 0 <= j < |rs| && rs[i].key == k && rs[j].key == k ==> rs[i].schedule == rs[j].schedule
  }

  /** The schedule columns keep the first row ever written, so they are
      independent of order exactly when a flight's rows all agree on them. */
  lemma ScheduleConvergesExactly(rs: seq<ActiveRow>, k: Key)
    requires Mentioned(rs, k)
    ensures ScheduleDepends(rs, k) <==> !OneSchedule(rs, k)
  {
    var first, latest := UpsertsExact(rs, k);
    if OneSchedule(rs, k) {
      forall bs: seq<ActiveRow> | SameRows(rs, bs) && k in UpsertAll(map[], rs) && k in UpsertAll(map[], bs)
        ensures UpsertAll(map[], bs)[k].schedule == UpsertAll(map[], rs)[k].schedule
      {
        var fb, lb := UpsertsExact(bs, k);
        assert bs[fb] in rs;
      }
    } else {
      var i, j :| 0 <= i < |rs| && 0 <= j < |rs| && rs[i].key == k && rs[j].key == k && rs[i].schedule != rs[j].schedule;
      var other := if rs[first].schedule != rs[i].schedule then i else j;
      var bs := [rs[other]] + rs;
      var fb, lb := UpsertsExact(bs, k);
      assert bs[0].key == k;
      assert SameRows(rs, bs) by {
        assert forall r :: r in bs <==> r == rs[other] || r in rs;
      }
    }
  }

  // ---- batches ----

  lemma {:induction false} UpsertsJoin(table: map<Key, ActiveRow>, a: seq<ActiveRow>, b: seq<ActiveRow>)
    ensures UpsertAll(UpsertAll(table, a), b) == UpsertAll(table, a + b)
  {
    if b == [] {
      assert a + b == a;
    } else {
      assert (a + b)[..|a + b| - 1] == a + b[..|b| - 1];
      UpsertsJoin(table, a, b[..|b| - 1]);
    }
  }

  lemma {:induction false} InsertsJoin(table: seq<Flight>, a: seq<Flight>, b: seq<Flight>)
    ensures InsertAll(InsertAll(table, a), b) == InsertAll(table, a + b)
  {
    if b == [] {
      assert a + b == a;
    } else {
      assert (a + b)[..|a + b| - 1] == a + b[..|b| - 1];
      InsertsJoin(table, a, b[..|b| - 1]);
    }
  }

  /** How a stream of events is cut into calls makes no difference. */
  lemma WritesJoin(db: Tables, a: seq<Flight>, b: seq<Flight>, airport: Option<string>)
    ensures Write(Write(db, a, airport), b, airport) == Write(db, a + b, airport)
  {
    InsertsJoin(db.events, a, b);
    UpsertsJoin(db.active, RowsOf(a, airport), RowsOf(b, airport));
    assert RowsOf(a, airport) + RowsOf(b, airport) == RowsOf(a + b, airport);
  }

  /** A write that was applied and is retried changes nothing more. */
  lemma RetriedWrite(db: Tables, f: Flight, airport: Option<string>)
    ensures Write(Write(db, [f], airport), [f], airport) == Write(db, [f], airport)
  {
    var r := RowOf(f, airport);
    var once := Insert(db.events, f);
    assert RowsOf([f], airport) == [r];
    WriteOne(db.events, f, db.active, r);
    WriteOne(once, f, Upsert(db.active, r), r);
    InsertIs(db.events, f);
  }

  lemma {:induction false} WriteOne(table: seq<Flight>, f: Flight, active: map<Key, ActiveRow>, r: ActiveRow)
    ensures InsertAll(table, [f]) == Insert(table, f) && UpsertAll(active, [r]) == Upsert(active, r)
  {
  }

  // ---- the database ----

  class Database {
    var flightEvents: seq<Flight>
    var activeFlights: map<Key, ActiveRow>

    constructor ()
      ensures Contents() == NO_TABLES
    {
      flightEvents, activeFlights := [], map[];
    }

    function Contents(): Tables
      reads this
    {
      Tables(flightEvents, activeFlights)
    }

    /** INSERT ... ON CONFLICT (flight_id, captured_at) DO NOTHING */
    method InsertOrIgnore(f: Flight)
      modifies this`flightEvents
      ensures flightEvents == Insert(old(flightEvents), f)
    {
      var i := 0;
      while i < |flightEvents|
        invariant i <= |flightEvents|
        invariant forall j :: 0 <= j < i ==> PairOf(flightEvents[j]) != PairOf(f)
      {
        if flightEvents[i].info.flightId == f.info.flightId && flightEvents[i].info.stamp == f.info.stamp {
          return;
        }
        i := i + 1;
      }
      flightEvents := flightEvents + [f];
    }

    /** INSERT ... ON CONFLICT (flight_key) DO UPDATE ... WHERE older */
    method UpsertActive(r: ActiveRow)
      modifies this`activeFlights
      ensures activeFlights == Upsert(old(activeFlights), r)
    {
      if r.key !in activeFlights {
        activeFlights := activeFlights[r.key := r];
      } else {
        var row := activeFlights[r.key];
        if row.now.updated < r.now.updated {
          activeFlights := activeFlights[r.key := ActiveRow(row.key, row.schedule, r.now)];
        }
      }
    }

    method WriteEvents(events: seq<Flight>, airport: Option<string>) returns (written: nat)
      modifies this
      ensures Contents() == Write(old(Contents()), events, airport) && written == |events|
      ensures forall f :: events == [f] && f.info.key !in old(activeFlights) ==>
                && f.info.key in activeFlights
                && var r := activeFlights[f.info.key];
                   && r.key == f.info.key && r.schedule.airline == f.info.airline && r.schedule.number == f.info.number
                   && r.schedule.origin == f.info.origin && r.schedule.destination == f.info.destination
                   && r.schedule.dep == f.info.dep && r.schedule.arr == f.info.arr
                   && r.schedule.passengers == f.info.passengers
                   && r.now.flightId == f.info.flightId && r.now.aircraft == f.info.aircraft && r.now.gate == f.gate
                   && r.now.delay == f.delay && r.now.status == f.info.status && r.now.updated == f.info.stamp
                   && r.now.airport == airport
    {
      ghost var before := Contents();
      if events == [] {
        return 0;
      }
      var eventRows, activeRows := [], [];
      for i := 0 to |events|
        invariant eventRows == events[..i] && activeRows == RowsOf(events, airport)[..i]
      {
        eventRows := eventRows + [events[i]];
        activeRows := activeRows + [RowOf(events[i], airport)];
      }
      assert eventRows == events && activeRows == RowsOf(events, airport);
      for i := 0 to |eventRows|
        invariant activeFlights == before.active && flightEvents == InsertAll(before.events, eventRows[..i])
      {
        assert eventRows[..i + 1][..i] == eventRows[..i];
        InsertOrIgnore(eventRows[i]);
      }
      assert eventRows[..|eventRows|] == eventRows;
      for i := 0 to |activeRows|
        invariant flightEvents == InsertAll(before.events, eventRows)
        invariant activeFlights == UpsertAll(before.active, activeRows[..i])
      {
        assert activeRows[..i + 1][..i] == activeRows[..i];
        UpsertActive(activeRows[i]);
      }
      assert activeRows[..|activeRows|] == activeRows;
      if |events| == 1 {
        WriteOne(before.events, events[0], before.active, activeRows[0]);
      }
      return |events|;
    }
  }
}

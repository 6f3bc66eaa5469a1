/** What a restart restores: the graph is loaded from the rows that the written
    events left in active_flights. */
module Restart {
  import opened Flights
  import opened Graphs
  import opened Writer
  import opened Engine

  /** Rows read from the table, each flight at most once, in any order. */
  ghost predicate ReadFrom(rows: seq<ActiveRow>, active: map<Key, ActiveRow>) {
    && (forall i :: 0 <= i < |rows| ==> rows[i].key in active && active[rows[i].key] == rows[i])
    && (forall i, j :: 0 <= i < j < |rows| ==> rows[i].key != rows[j].key)
  }

  /** A loaded flight is the first of its latest events, with the schedule of its first
      event, no actual arrival, and the event type that its delay gives it. */
  lemma Restored(fs: seq<Flight>, airport: Option<string>, rows: seq<ActiveRow>, i: nat) returns (first: nat, latest: nat)
    requires i < |rows| && ReadFrom(rows, Write(NO_TABLES, fs, airport).active)
    ensures var k := rows[i].key;
      && first < |fs| && fs[first].info.key == k && (forall j :: 0 <= j < first ==> fs[j].info.key != k)
      && latest < |fs| && fs[latest].info.key == k
      && (forall j :: 0 <= j < |fs| && fs[j].info.key == k ==>
            fs[j].info.stamp <= fs[latest].info.stamp && (j < latest ==> fs[j].info.stamp < fs[latest].info.stamp))
    ensures rows[i].key in LoadAll(EMPTY, EventsOf(rows)).nodes.at
    ensures var was, f := fs[first].info, fs[latest];
      LoadAll(EMPTY, EventsOf(rows)).nodes.at[rows[i].key] ==
      Flight(f.info.(airline := was.airline, number := was.number, origin := was.origin, destination := was.destination,
                     dep := was.dep, arr := was.arr, passengers := was.passengers, actualArr := None),
             f.gate, f.delay, if f.delay > 0 then Delay else Departure)
  {
    hide Write, LoadAll;
    WrittenKeys(fs, airport, rows[i].key);
    first, latest := WrittenColumns(fs, airport, rows[i].key);
    LoadedColumns(EMPTY, rows, i);
  }

  lemma WrittenKeys(fs: seq<Flight>, airport: Option<string>, k: Key)
    requires k in Write(NO_TABLES, fs, airport).active
    ensures exists i :: 0 <= i < |fs| && fs[i].info.key == k
  {
    var rows := RowsOf(fs, airport);
    var first, latest := UpsertsExact(rows, k);
    var i :| 0 <= i < |rows| && rows[i].key == k;
    assert fs[i].info.key == k;
  }

  /** Write one event, restart, load: the flight is back, but for its actual arrival
      and its event type. */
  lemma WriteThenLoad(f: Flight, airport: Option<string>)
    ensures var active := Write(NO_TABLES, [f], airport).active;
      && f.info.key in active
      && var g := LoadAll(EMPTY, EventsOf([active[f.info.key]]));
         && f.info.key in g.nodes.at
         && g.nodes.at[f.info.key] == Flight(f.info.(actualArr := None), f.gate, f.delay, if f.delay > 0 then Delay else Departure)
  {
    hide Write, LoadAll, EventsOf;
    assert [f][0].info.key == f.info.key;
    var a, b := WrittenColumns([f], airport, f.info.key);
    var active := Write(NO_TABLES, [f], airport).active;
    var rows := [active[f.info.key]];
    var first, latest := Restored([f], airport, rows, 0);
    assert [f][first] == [f][latest] == f;
  }
}

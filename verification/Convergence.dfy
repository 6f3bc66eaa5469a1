/** The whole pool against one call: a drained pool leaves what a single write of
    the whole log would have left. */
module Convergence {
  import opened Flights
  import opened Writer
  import opened Protocol
  import opened Delivery

  function EventsIn(log: seq<Message>): seq<Flight> {
    if log == [] then []
    else EventsIn(log[..|log| - 1]) + (if log[|log| - 1].Parsed? then [log[|log| - 1].f] else [])
  }

  /** Every event of the logs, one partition after the other. */
  function AllEvents(parts: seq<Part>): seq<Flight> {
    if parts == [] then [] else AllEvents(parts[..|parts| - 1]) + EventsIn(parts[|parts| - 1].log)
  }

  lemma {:induction false} EventsInAre(log: seq<Message>)
    ensures forall f :: f in EventsIn(log) <==> Parsed(f) in log
  {
    if log != [] {
      var n := |log| - 1;
      EventsInAre(log[..n]);
      assert log == log[..n] + [log[n]];
    }
  }

  ghost predicate Logged(parts: seq<Part>, f: Flight) {
    exists p, o :: 0 <= p < |parts| && 0 <= o < |parts[p].log| && parts[p].log[o] == Parsed(f)
  }

  lemma {:induction false} AllEventsAre(parts: seq<Part>)
    ensures forall f :: f in AllEvents(parts) <==> Logged(parts, f)
  {
    if parts != [] {
      var n := |parts| - 1;
      AllEventsAre(parts[..n]);
      EventsInAre(parts[n].log);
      forall f ensures Logged(parts, f) <==> Logged(parts[..n], f) || Parsed(f) in parts[n].log {
        LoggedLast(parts, f);
      }
    }
  }

  lemma LoggedLast(parts: seq<Part>, f: Flight)
    requires parts != []
    ensures Logged(parts, f) <==> Logged(parts[..|parts| - 1], f) || Parsed(f) in parts[|parts| - 1].log
  {
  }

  /** Every message of every log is committed and none was given up. */
  ghost predicate Drained(s: State) {
    && (forall p :: 0 <= p < |s.parts| ==> s.parts[p].committed == |s.parts[p].log|)
    && s.dead == {} && s.dropped == {}
  }

  /** A flight_id and timestamp name one event. */
  ghost predicate PairsNameEvents(s: State) {
    forall f, g :: InLog(s, f) && InLog(s, g) && PairOf(f) == PairOf(g) ==> f == g
  }

  /** Exactly the events of the logs were written. */
  lemma WritesAreTheLogs(s: State, f: Flight)
    requires NothingLost(s) && TablesSound(s) && Drained(s) && PairsNameEvents(s)
    ensures f in s.writes <==> f in AllEvents(s.parts)
  {
    hide Write, PairOf;
    AllEventsAre(s.parts);
    if f in s.writes {
      assert InLog(s, f);
    }
    if Logged(s.parts, f) {
      var p, o :| 0 <= p < |s.parts| && 0 <= o < |s.parts[p].log| && s.parts[p].log[o] == Parsed(f);
      assert Accounted(s, Place(p, o));
      var i :| 0 <= i < |s.writes| && PairOf(s.writes[i]) == PairOf(f);
      assert InLog(s, s.writes[i]) && InLog(s, f);
    }
  }

  lemma RowsSame(a: seq<Flight>, b: seq<Flight>, airport: Option<string>)
    requires forall f :: f in a <==> f in b
    ensures SameRows(RowsOf(a, airport), RowsOf(b, airport))
  {
    RowsWithin(a, b, airport);
    RowsWithin(b, a, airport);
  }

  lemma RowsWithin(a: seq<Flight>, b: seq<Flight>, airport: Option<string>)
    requires forall f :: f in a ==> f in b
    ensures forall r :: r in RowsOf(a, airport) ==> r in RowsOf(b, airport)
  {
    forall r | r in RowsOf(a, airport) ensures r in RowsOf(b, airport) {
      var i :| 0 <= i < |a| && RowsOf(a, airport)[i] == r;
      assert a[i] in b;
      var j :| 0 <= j < |b| && b[j] == a[i];
      assert RowsOf(b, airport)[j] == r;
    }
  }

  /** Where pairs name events, flight_events holds exactly the written ones. */
  lemma {:induction false} EventsTableIs(fs: seq<Flight>, f: Flight)
    requires forall g, h :: g in fs && h in fs && PairOf(g) == PairOf(h) ==> g == h
    ensures f in InsertAll([], fs) <==> f in fs
  {
    InsertedAre([], fs);
    InsertAllIs([], fs);
    if f in fs {
      var i :| 0 <= i < |fs| && fs[i] == f;
      assert Stored(fs, PairOf(f));
      var j :| 0 <= j < |InsertAll([], fs)| && PairOf(InsertAll([], fs)[j]) == PairOf(f);
      assert InsertAll([], fs)[j] in fs;
    }
  }

  /** However many workers, in whatever interleaving, with whatever crashes, lost
      keys, redeliveries and repeated writes: once every log is committed and no
      message was given up, both tables hold what one write_events call with all
      the events would have left in empty tables.  Pairs must name events and a
      flight's key and timestamp fix its row; the schedule columns need a flight's
      rows to agree on them. */
  lemma {:induction false} PoolIsOneWrite(s: State, steps: seq<Step>, k: Key, f: Flight)
    requires Init(s) && Possible(s, steps)
    requires Drained(After(s, steps)) && PairsNameEvents(After(s, steps))
    requires StampFixesRow(RowsOf(AllEvents(After(s, steps).parts), After(s, steps).airport))
    ensures var t := After(s, steps);
      var rows := RowsOf(AllEvents(t.parts), t.airport);
      var one := Write(NO_TABLES, AllEvents(t.parts), t.airport);
      && (f in t.db.events <==> f in one.events) && UniquePairs(t.db.events)
      && (k in t.db.active <==> k in one.active)
      && (k in one.active ==> t.db.active[k].now == one.active[k].now)
      && (k in one.active && OneSchedule(rows, k) ==> t.db.active[k] == one.active[k])
  {
    hide Init, Possible, After, Placed, KeysSound, HandsSound, UpsertAll, InsertAll, StampFixesRow, OneSchedule, RowsOf,
         Drained, PairsNameEvents;
    RunSound(s, steps);
    RunTables(s, steps);
    PoolTables(After(s, steps), k, f);
  }

  lemma PoolTables(t: State, k: Key, f: Flight)
    requires NothingLost(t) && TablesSound(t) && Drained(t) && PairsNameEvents(t)
    requires StampFixesRow(RowsOf(AllEvents(t.parts), t.airport))
    ensures var rows := RowsOf(AllEvents(t.parts), t.airport);
      var one := Write(NO_TABLES, AllEvents(t.parts), t.airport);
      && (f in t.db.events <==> f in one.events) && UniquePairs(t.db.events)
      && (k in t.db.active <==> k in one.active)
      && (k in one.active ==> t.db.active[k].now == one.active[k].now)
      && (k in one.active && OneSchedule(rows, k) ==> t.db.active[k] == one.active[k])
  {
    hide NothingLost, Drained, PairsNameEvents, UpsertAll, InsertAll, StampFixesRow, OneSchedule, RowsOf, InLog;
    var all := AllEvents(t.parts);
    forall g ensures g in t.writes <==> g in all {
      WritesAreTheLogs(t, g);
    }
    AllNamed(t);
    EventsTableIs(t.writes, f);
    EventsTableIs(all, f);
    StoredAre(t, PairOf(f));
    RowsSame(t.writes, all, t.airport);
    ActiveTableIs(RowsOf(all, t.airport), RowsOf(t.writes, t.airport), k);
  }

  lemma AllNamed(t: State)
    requires TablesSound(t) && PairsNameEvents(t)
    ensures forall g, h :: g in AllEvents(t.parts) && h in AllEvents(t.parts) && PairOf(g) == PairOf(h) ==> g == h
    ensures forall g, h :: g in t.writes && h in t.writes && PairOf(g) == PairOf(h) ==> g == h
  {
    hide Write, PairOf;
    AllEventsAre(t.parts);
    forall f ensures f in AllEvents(t.parts) <==> InLog(t, f) {
      assert Logged(t.parts, f) <==> InLog(t, f);
    }
    forall f | f in t.writes ensures InLog(t, f) {
      var i :| 0 <= i < |t.writes| && t.writes[i] == f;
    }
  }

  lemma {:induction false} ActiveTableIs(a: seq<ActiveRow>, b: seq<ActiveRow>, k: Key)
    requires SameRows(a, b) && StampFixesRow(a)
    ensures k in UpsertAll(map[], b) <==> k in UpsertAll(map[], a)
    ensures k in UpsertAll(map[], a) ==> UpsertAll(map[], b)[k].now == UpsertAll(map[], a)[k].now
    ensures k in UpsertAll(map[], a) && OneSchedule(a, k) ==> UpsertAll(map[], b)[k] == UpsertAll(map[], a)[k]
  {
    hide StampFixesRow, UpsertAll;
    Converges(a, b, k);
    if k in UpsertAll(map[], a) {
      StampsConverge(a, b, k);
      var fa, la := UpsertsExact(a, k);
      var fb, lb := UpsertsExact(b, k);
      assert a[fa] in b && b[fb] in a;
    }
  }
}

/** A reachable graph on which delivering one message twice is not the same as
    delivering it once. */
module RedeliveryGap {
  import opened Flights
  import opened Dicts
  import opened Graphs
  import opened Gates
  import opened GateSupply
  import opened Decay
  import opened Propagation
  import opened Steps
  import opened Redelivery

  const S := Key("S")
  const B := Key("B")
  const X := Key("X")
  const Y := Key("Y")

  function InfoOf(k: Key, plane: Option<string>): Info {
    Info(k, k.name, "AA", "1", "ORD", "LAX", plane, 0, 1, None, Scheduled, None, 0)
  }

  function FlightOf(k: Key, plane: Option<string>, delay: nat): Flight {
    Flight(InfoOf(k, plane), None, delay, if delay > 0 then Delay else Departure)
  }

  const TURN: Dict<Kind> := Empty().Put(B, AircraftTurn).Put(X, AircraftTurn)

  /** S links to B and X, B to X. */
  function Trio(x: Flight): Graph {
    Graph(Dict([S, B, X], map[S := ROWS[0], B := ROWS[1], X := x]),
          map[S := TURN, B := Empty().Put(X, AircraftTurn), X := Empty()])
  }

  /** And X links to Y. */
  function Web(source: Flight, x: Flight, y: Flight): Graph {
    Graph(Dict([S, B, X, Y], map[S := source, B := ROWS[1], X := x, Y := y]),
          map[S := TURN, B := Empty().Put(X, AircraftTurn), X := Empty().Put(Y, AircraftTurn), Y := Empty()])
  }

  /** A flight without a gate arrives, nothing outstanding: no reassignment. */
  lemma PlainArrival(g: Graph, pool: seq<string>, f: Flight)
    requires g.Valid() && NoReuse(g) && f.gate == None
    ensures ProcessEvent(g, f).Valid() && Resolved(g, pool, f) == ProcessEvent(g, f)
    ensures NoReuse(ProcessEvent(g, f))
  {
    hide Graph.Valid, Graphs.ProcessEvent, Clashes;
    ArrivalReuse(g, f);
    ArrivalClashes(g, f);
    var h := ProcessEvent(g, f);
    ConflictsOf(h, f);
    assert Moves(h, pool) == [];
    forall u, v ensures h.KindOf(u, v) != Some(GateReuse) {
      ProcessEventEdge(g, f, u, v);
    }
  }

  lemma {:induction false} ConflictsOf(h: Graph, f: Flight)
    requires h.Valid() && f.gate == None
    ensures ConflictEdges(h.nodes.at, h.nodes.order, f) == []
  {
    OrderOf(h);
    ConflictEdgesAre(h.nodes.at, h.nodes.order, f);
    if ConflictEdges(h.nodes.at, h.nodes.order, f) != [] {
      var e := HasFirst(ConflictEdges(h.nodes.at, h.nodes.order, f));
    }
  }

  lemma HasFirst<T>(s: seq<T>) returns (x: T)
    requires s != []
    ensures x in s
  {
    x := s[0];
  }

  lemma Apart()
    ensures S != B && S != X && S != Y && B != X && B != Y && X != Y
  {
  }

  const ROWS: seq<Flight> := [FlightOf(S, Some("P1"), 0), FlightOf(B, Some("P1"), 1000), FlightOf(X, Some("P1"), 0)]

  lemma {:induction false} LoadNext(g: Graph, fs: seq<Flight>, f: Flight)
    ensures LoadAll(g, fs + [f]) == ProcessEvent(LoadAll(g, fs), f)
  {
  }

  /** The arrival's result from its parts. */
  lemma ArrivalIs(g: Graph, f: Flight, h: Graph)
    requires h.nodes == g.nodes.Put(f.info.key, f) && h.adj.Keys == h.nodes.at.Keys
    requires forall u :: u in h.adj ==> h.adj[u] == if u == f.info.key then g.Row(u) else LinkRow(g.Row(u), g.nodes.at[u], f)
    ensures ProcessEvent(g, f) == h
  {
  }

  const ONE := Graph(Dict([S], map[S := ROWS[0]]), map[S := Empty()])
  const TWO := Graph(Dict([S, B], map[S := ROWS[0], B := ROWS[1]]), map[S := Empty().Put(B, AircraftTurn), B := Empty()])

  /** A plain arrival whose result is known. */
  lemma PlainStep(g: Graph, f: Flight, h: Graph)
    requires g.Valid() && NoReuse(g) && f.gate == None && ProcessEvent(g, f) == h
    ensures h.Valid() && NoReuse(h)
  {
    PlainArrival(g, [], f);
  }

  lemma FirstRow()
    ensures ProcessEvent(EMPTY, ROWS[0]) == ONE && ONE.Valid() && NoReuse(ONE)
  {
    hide Graphs.ProcessEvent;
    EmptySafe();
    ArrivalIs(EMPTY, ROWS[0], ONE);
    PlainStep(EMPTY, ROWS[0], ONE);
  }

  lemma SecondRow()
    requires ONE.Valid() && NoReuse(ONE)
    ensures ProcessEvent(ONE, ROWS[1]) == TWO && TWO.Valid() && NoReuse(TWO)
  {
    hide Graphs.ProcessEvent, Graph.Valid, NoReuse;
    Apart();
    ArrivalIs(ONE, ROWS[1], TWO);
    PlainStep(ONE, ROWS[1], TWO);
  }

  lemma ThirdRow()
    requires TWO.Valid() && NoReuse(TWO)
    ensures ProcessEvent(TWO, ROWS[2]) == Trio(ROWS[2]) && Trio(ROWS[2]).Valid() && NoReuse(Trio(ROWS[2]))
  {
    hide Graphs.ProcessEvent, Graph.Valid, NoReuse;
    Apart();
    ArrivalIs(TWO, ROWS[2], Trio(ROWS[2]));
    PlainStep(TWO, ROWS[2], Trio(ROWS[2]));
  }

  lemma Loaded()
    ensures LoadAll(EMPTY, ROWS) == Trio(ROWS[2]) && Trio(ROWS[2]).Valid() && NoReuse(Trio(ROWS[2]))
  {
    hide LoadAll, Graphs.ProcessEvent, Trio, Graph.Valid, NoReuse, FlightOf;
    var a, b, x := ROWS[0], ROWS[1], ROWS[2];
    LoadNext(EMPTY, [], a);
    LoadNext(EMPTY, [a], b);
    LoadNext(EMPTY, [a, b], x);
    assert [] + [a] == [a] && [a] + [b] == [a, b] && [a, b] + [x] == ROWS;
    LoadNothing(EMPTY);
    FirstRow();
    SecondRow();
    ThirdRow();
  }

  lemma {:induction false} LoadNothing(g: Graph)
    ensures LoadAll(g, []) == g
  {
  }

  // ---- the run ----

  const X1: Flight := FlightOf(X, Some("P2"), 0)
  const Y0: Flight := FlightOf(Y, Some("P2"), 0)

  /** The message delivered twice: S again, on no known aircraft, 100 late. */
  const LATE: Flight := FlightOf(S, None, 100)

  const OPS: seq<Op> := [Load(ROWS), Message(X1), Message(Y0)]

  lemma XMoves(pool: seq<string>)
    requires Trio(ROWS[2]).Valid() && NoReuse(Trio(ROWS[2]))
    ensures Handle(Trio(ROWS[2]), pool, X1) == Trio(X1) && NoReuse(Trio(X1))
  {
    hide Graphs.ProcessEvent, Resolved, Graph.Valid;
    Apart();
    PlainArrival(Trio(ROWS[2]), pool, X1);
    ArrivalIs(Trio(ROWS[2]), X1, Trio(X1));
  }

  lemma YJoins(pool: seq<string>)
    requires Trio(X1).Valid() && NoReuse(Trio(X1))
    ensures Handle(Trio(X1), pool, Y0) == Web(ROWS[0], X1, Y0) && NoReuse(Web(ROWS[0], X1, Y0))
  {
    hide Graphs.ProcessEvent, Resolved, Graph.Valid, Trio, Web;
    PlainArrival(Trio(X1), pool, Y0);
    YArrives();
  }

  /** A flight without a gate is linked by aircraft only. */
  lemma LinkPlain(row: Dict<Kind>, u: Flight, f: Flight)
    requires f.gate == None
    ensures LinkRow(row, u, f) == if SameAircraft(u, f) then row.Put(f.info.key, AircraftTurn) else row
  {
  }

  lemma Planes()
    ensures !SameAircraft(ROWS[0], Y0) && !SameAircraft(ROWS[1], Y0) && SameAircraft(X1, Y0)
  {
    assert "P1"[1] != "P2"[1];
  }

  lemma YArrives()
    ensures ProcessEvent(Trio(X1), Y0) == Web(ROWS[0], X1, Y0)
  {
    hide Graphs.ProcessEvent, LinkRow, SameAircraft;
    Apart();
    Planes();
    LinkPlain(TURN, ROWS[0], Y0);
    LinkPlain(Empty().Put(X, AircraftTurn), ROWS[1], Y0);
    LinkPlain(Empty(), X1, Y0);
    ArrivalIs(Trio(X1), Y0, Web(ROWS[0], X1, Y0));
  }

  lemma {:induction false} Reached(pool: seq<string>)
    ensures EMPTY.Valid() && RunOps(EMPTY, pool, OPS) == Web(ROWS[0], X1, Y0) && NoReuse(Web(ROWS[0], X1, Y0))
  {
    hide Graph.Valid, Web, Trio, Handle, LoadAll, RunOps, NoReuse;
    EmptySafe();
    LastOp(pool, [], OPS[0]);
    LastOp(pool, [OPS[0]], OPS[1]);
    LastOp(pool, [OPS[0], OPS[1]], OPS[2]);
    assert [] + [OPS[0]] == [OPS[0]] && [OPS[0]] + [OPS[1]] == [OPS[0], OPS[1]] && [OPS[0], OPS[1]] + [OPS[2]] == OPS;
    RunNothing(pool);
    Loaded();
    XMoves(pool);
    YJoins(pool);
  }

  lemma {:induction false} RunNothing(pool: seq<string>)
    requires EMPTY.Valid()
    ensures RunOps(EMPTY, pool, []) == EMPTY
  {
  }

  // ---- the two deliveries ----

  function Late(x: nat, y: nat): Graph {
    Web(LATE, FlightOf(X, Some("P2"), x), FlightOf(Y, Some("P2"), y))
  }

  lemma Arrives(pool: seq<string>, source: Flight, x: nat, y: nat)
    requires source.info.key == S && source.gate == None
    requires var g := Web(source, FlightOf(X, Some("P2"), x), FlightOf(Y, Some("P2"), y)); g.Valid() && NoReuse(g)
    ensures Resolved(Web(source, FlightOf(X, Some("P2"), x), FlightOf(Y, Some("P2"), y)), pool, LATE) == Late(x, y)
    ensures Late(x, y).Valid() && NoReuse(Late(x, y))
  {
    hide Graphs.ProcessEvent, Resolved, Graph.Valid, NoReuse;
    Apart();
    var g := Web(source, FlightOf(X, Some("P2"), x), FlightOf(Y, Some("P2"), y));
    PlainArrival(g, pool, LATE);
    ArrivalIs(g, LATE, Late(x, y));
  }

  lemma ArrivesAgain(pool: seq<string>, x: nat, y: nat)
    requires Late(x, y).Valid() && NoReuse(Late(x, y))
    ensures Resolved(Late(x, y), pool, LATE) == Late(x, y)
  {
    hide Resolved, Graph.Valid, NoReuse;
    Arrives(pool, LATE, x, y);
  }

  ghost predicate At(s: Search, x: nat, y: nat, queue: seq<Item>, visited: set<Key>) {
    s.g == Late(x, y) && s.queue == queue && s.visited.Keys == visited
  }

  lemma RelaxX(s: Search, x: nat, y: nat, queue: seq<Item>, visited: set<Key>, it: Item, next: nat)
    requires At(s, x, y, queue, visited) && X !in visited && next == Max(x, Passed(it.delay))
    ensures X in s.g.nodes.at && At(Relax(s, X, it), next, y, queue + [Item(X, next, it.hops + 1)], visited)
  {
  }

  lemma RelaxY(s: Search, x: nat, y: nat, queue: seq<Item>, visited: set<Key>, it: Item, next: nat)
    requires At(s, x, y, queue, visited) && Y !in visited && next == Max(y, Passed(it.delay))
    ensures Y in s.g.nodes.at && At(Relax(s, Y, it), x, next, queue + [Item(Y, next, it.hops + 1)], visited)
  {
    Apart();
    assert next != y ==> Raise(s.g, Y, next) == Late(x, next);
  }

  lemma RelaxB(s: Search, x: nat, y: nat, queue: seq<Item>, visited: set<Key>, it: Item)
    requires At(s, x, y, queue, visited) && B !in visited && Passed(it.delay) <= 1000
    ensures B in s.g.nodes.at && At(Relax(s, B, it), x, y, queue + [Item(B, 1000, it.hops + 1)], visited)
  {
  }

  /** The neighbours of each flight, and that a pop visits them in turn. */
  lemma Rows(s: Search, x: nat, y: nat, queue: seq<Item>, visited: set<Key>)
    requires At(s, x, y, queue, visited)
    ensures s.g.Row(S).order == [B, X] && s.g.Row(B).order == [X] && s.g.Row(X).order == [Y] && s.g.Row(Y).order == []
    ensures s.g.nodes.at.Keys == {S, B, X, Y}
  {
  }

  lemma PopsNew(s: Search, x: nat, y: nat, queue: seq<Item>, visited: set<Key>)
    requires At(s, x, y, queue, visited) && queue != [] && Closed(s.g) && queue[0].key !in visited && queue[0].key in s.g.nodes.at
    ensures forall n :: n in s.g.Row(queue[0].key).order ==> n in s.g.nodes.at
    ensures At(Mark(s), x, y, queue[1..], visited + {queue[0].key})
    ensures Pop(s) == RelaxAll(Mark(s), s.g.Row(queue[0].key).order, queue[0])
  {
  }

  lemma PopsOld(s: Search, x: nat, y: nat, queue: seq<Item>, visited: set<Key>)
    requires At(s, x, y, queue, visited) && queue != [] && Closed(s.g) && queue[0].key in visited
    ensures At(Pop(s), x, y, queue[1..], visited)
  {
  }

  lemma {:induction false} RelaxOne(s: Search, n: Key, it: Item)
    requires n in s.g.nodes.at
    ensures RelaxAll(s, [n], it) == Relax(s, n, it)
  {
  }

  lemma {:induction false} RelaxTwo(s: Search, m: Key, n: Key, it: Item)
    requires m in s.g.nodes.at && n in s.g.nodes.at
    ensures RelaxAll(s, [m, n], it) == Relax(Relax(s, m, it), n, it)
  {
    hide Relax;
    assert [m, n][1..] == [n];
    RelaxOne(Relax(s, m, it), n, it);
  }

  lemma PopS(s: Search, x: nat, y: nat)
    requires Closed(s.g) && At(s, x, y, [Item(S, 100, 0)], {})
    ensures At(Pop(s), Max(x, 75), y, [Item(B, 1000, 1), Item(X, Max(x, 75), 1)], {S})
  {
    hide Late, Relax, RelaxAll, Pop;
    Apart();
    var q, it := [Item(S, 100, 0)], Item(S, 100, 0);
    Rows(s, x, y, q, {});
    PopsNew(s, x, y, q, {});
    RelaxTwo(Mark(s), B, X, it);
    RelaxB(Mark(s), x, y, [], {S}, it);
    RelaxX(Relax(Mark(s), B, it), x, y, [Item(B, 1000, 1)], {S}, it, Max(x, 75));
  }

  lemma PopB(s: Search, x: nat, y: nat, rest: seq<Item>)
    requires Closed(s.g) && At(s, x, y, [Item(B, 1000, 1)] + rest, {S})
    ensures At(Pop(s), Max(x, 750), y, rest + [Item(X, Max(x, 750), 2)], {S, B})
  {
    hide Late, Relax, RelaxAll, Pop;
    Apart();
    var q, it := [Item(B, 1000, 1)] + rest, Item(B, 1000, 1);
    Rows(s, x, y, q, {S});
    PopsNew(s, x, y, q, {S});
    assert q[1..] == rest && {S} + {B} == {S, B};
    RelaxOne(Mark(s), X, it);
    RelaxX(Mark(s), x, y, rest, {S, B}, it, Max(x, 750));
  }

  lemma PopX(s: Search, x: nat, y: nat, d: nat, rest: seq<Item>)
    requires Closed(s.g) && At(s, x, y, [Item(X, d, 1)] + rest, {S, B})
    ensures At(Pop(s), x, Max(y, Passed(d)), rest + [Item(Y, Max(y, Passed(d)), 2)], {S, B, X})
  {
    hide Late, Relax, RelaxAll, Pop;
    Apart();
    var q, it := [Item(X, d, 1)] + rest, Item(X, d, 1);
    Rows(s, x, y, q, {S, B});
    PopsNew(s, x, y, q, {S, B});
    assert q[1..] == rest && {S, B} + {X} == {S, B, X};
    RelaxOne(Mark(s), Y, it);
    RelaxY(Mark(s), x, y, rest, {S, B, X}, it, Max(y, Passed(d)));
  }

  lemma PopY(s: Search, x: nat, y: nat, d: nat)
    requires Closed(s.g) && At(s, x, y, [Item(Y, d, 2)], {S, B, X})
    ensures At(Pop(s), x, y, [], {S, B, X, Y})
  {
  }

  lemma {:induction false} RunPop(s: Search)
    requires Closed(s.g) && s.queue != []
    ensures Run(s) == Run(Pop(s))
  {
  }

  /** What one propagation does: X is popped with the delay of its first
      enqueue, so Y misses what B raises X to. */
  lemma Propagated(x: nat, y: nat)
    requires Closed(Late(x, y))
    ensures Propagate(Late(x, y), S, 100).0 == Late(Max(Max(x, 75), 750), Max(y, Passed(Max(x, 75))))
  {
    hide Late, Pop;
    var x1 := Max(x, 75);
    var x2, y1 := Max(x1, 750), Max(y, Passed(x1));
    var s0 := Start(Late(x, y), S, 100);
    assert s0.visited.Keys == {};
    var s1 := Pop(s0);
    PopS(s0, x, y);
    var s2 := Pop(s1);
    assert s1.queue == [Item(B, 1000, 1)] + [Item(X, x1, 1)];
    PopB(s1, x1, y, [Item(X, x1, 1)]);
    var s3 := Pop(s2);
    assert s2.queue == [Item(X, x1, 1)] + [Item(X, x2, 2)];
    PopX(s2, x2, y, x1, [Item(X, x2, 2)]);
    var s4 := Pop(s3);
    PopsOld(s3, x2, y1, [Item(X, x2, 2)] + [Item(Y, y1, 2)], {S, B, X});
    assert s4.queue == [Item(Y, y1, 2)];
    var s5 := Pop(s4);
    PopY(s4, x2, y1, y1);
    RunPop(s0);
    RunPop(s1);
    RunPop(s2);
    RunPop(s3);
    RunPop(s4);
  }

  /** A run of the worker after which one message, delivered once, leaves Y 56
      minutes late, and delivered again 562. */
  lemma {:induction false} TwiceIsNotOnce(pool: seq<string>)
    ensures EMPTY.Valid() && NoReuse(RunOps(EMPTY, pool, OPS))
    ensures var g := RunOps(EMPTY, pool, OPS);
      var once := Handle(g, pool, LATE);
      var twice := Handle(once, pool, LATE);
      Y in once.nodes.at && once.nodes.at[Y].delay == 56 && Y in twice.nodes.at && twice.nodes.at[Y].delay == 562
  {
    hide Late, Web, Propagate, Graph.Valid, NoReuse, Resolved, RunOps;
    Apart();
    Reached(pool);
    var g := RunOps(EMPTY, pool, OPS);
    FirstArrival(pool);
    ValidClosed(Late(0, 0));
    Propagated(0, 0);
    var once := Handle(g, pool, LATE);
    assert once == Late(750, 56);
    HandleReuse(g, pool);
    ArrivesAgain(pool, 750, 56);
    ValidClosed(Late(750, 56));
    Propagated(750, 56);
    YOf(750, 56);
    YOf(750, 562);
  }

  lemma FirstArrival(pool: seq<string>)
    requires Web(ROWS[0], X1, Y0).Valid() && NoReuse(Web(ROWS[0], X1, Y0))
    ensures Resolved(Web(ROWS[0], X1, Y0), pool, LATE) == Late(0, 0)
    ensures Late(0, 0).Valid() && NoReuse(Late(0, 0))
  {
    hide Resolved, Graph.Valid, NoReuse, Late, Web;
    Arrives(pool, ROWS[0], 0, 0);
  }

  lemma YOf(x: nat, y: nat)
    ensures Y in Late(x, y).nodes.at && Late(x, y).nodes.at[Y].delay == y
  {
  }

  lemma HandleReuse(g: Graph, pool: seq<string>)
    requires g.Valid() && NoReuse(g)
    ensures NoReuse(Handle(g, pool, LATE))
  {
    hide Graph.Valid, Propagate, Resolved;
    PlainArrival(g, pool, LATE);
    PropagateInfo(Resolved(g, pool, LATE), S, 100);
    SameGatesSafe(Resolved(g, pool, LATE), Handle(g, pool, LATE));
  }
}

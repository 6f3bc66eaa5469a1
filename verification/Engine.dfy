/** The engine itself: a mutable graph whose nodes hold both a copy of the
    flight's attributes and the shared, mutable event object. */
module Engine {
  import opened Flights
  import opened Dicts
  import opened Graphs
  import opened Gates
  import opened Decay
  import opened Propagation
  import opened Writer

  class FlightEvent {
    const info: Info
    var gate: Option<string>
    var delay: nat
    var etype: EventType

    /** The event's validator lifts a negative delay to zero. */
    constructor (info: Info, gate: Option<string>, delay: int, etype: EventType)
      ensures Value() == Flight(info, gate, if delay < 0 then 0 else delay, etype)
    {
      this.info := info;
      this.gate := gate;
      this.delay := if delay < 0 then 0 else delay;
      this.etype := etype;
    }

    method SetGate(g: string)
      modifies this
      ensures gate == Some(g) && delay == old(delay) && etype == old(etype)
    {
      gate := Some(g);
    }

    method SetDelay(d: nat)
      modifies this
      ensures delay == d && gate == old(gate) && etype == if d > 0 then Delay else old(etype)
    {
      delay := d;
      if d > 0 {
        etype := Delay;
      }
    }

    function Value(): Flight
      reads this
    {
      Flight(info, gate, delay, etype)
    }
  }

  /** The attributes networkx keeps for one node: the event object and copies of
      what the graph reads.  `info` stands for the copied fields nothing writes. */
  datatype Node = Node(event: FlightEvent, info: Info, gate: Option<string>, delay: nat)

  /** The attributes as `add_flight` copies them from an event. */
  function Copied(e: FlightEvent): Node
    reads e
  {
    Node(e, e.info, e.gate, e.delay)
  }

  /** Both copies, node attributes and event object, hold the flight `f`. */
  ghost predicate Holds(n: Node, f: Flight)
    reads n.event
  {
    n.event.Value() == f && n.info == f.info && n.gate == f.gate && n.delay == f.delay
  }

  /** The rows after linking `f` from every node in `done`. */
  ghost function Linked(rows: map<Key, Dict<Kind>>, flights: map<Key, Flight>, done: seq<Key>, f: Flight): map<Key, Dict<Kind>>
    requires rows.Keys == flights.Keys
  {
    map u | u in rows :: if u in done && u != f.info.key then LinkRow(rows[u], flights[u], f) else rows[u]
  }

  lemma LinkedNone(rows: map<Key, Dict<Kind>>, flights: map<Key, Flight>, order: seq<Key>, f: Flight)
    requires rows.Keys == flights.Keys
    ensures Linked(rows, flights, order[..0], f) == rows
  {
  }

  lemma {:induction false} MovesNext(g: Graph, ms: seq<Move>, n: nat)
    requires Applicable(g, ms) && n < |ms|
    ensures ms[n].src in g.adj && ms[n].dst in g.nodes.at
    ensures Applicable(g, ms[..n]) && Applicable(g, ms[..n + 1])
    ensures ApplyMoves(g, ms[..n + 1]) == ApplyMove(ApplyMoves(g, ms[..n]), ms[n])
  {
    assert ms[n] in ms && ms[..n + 1][..n] == ms[..n];
  }

  lemma RelaxCases(s: Search, n: Key, it: Item, delay: nat, next: nat)
    requires n in s.g.nodes.at && delay == s.g.nodes.at[n].delay && next == Max(delay, Passed(it.delay))
    ensures n in s.visited ==> Relax(s, n, it) == s
    ensures n !in s.visited && next == delay ==> Relax(s, n, it) == s.(queue := s.queue + [Item(n, next, it.hops + 1)])
    ensures n !in s.visited && next != delay ==>
              Relax(s, n, it) == Search(Raise(s.g, n, next), s.queue + [Item(n, next, it.hops + 1)],
                                        s.visited, s.updates + [Update(n, it.hops + 1)])
  {
  }

  /** Relaxing the neighbours from the `i`-th on. */
  ghost function RelaxRest(t: Search, ns: seq<Key>, i: nat, it: Item): Search
    requires i <= |ns| && forall n :: n in ns ==> n in t.g.nodes.at
  {
    RelaxAll(t, ns[i..], it)
  }

  lemma {:induction false} RelaxRestEnds(t: Search, ns: seq<Key>, it: Item)
    requires forall n :: n in ns ==> n in t.g.nodes.at
    ensures RelaxRest(t, ns, 0, it) == RelaxAll(t, ns, it) && RelaxRest(t, ns, |ns|, it) == t
  {
    assert ns[0..] == ns;
  }

  lemma RelaxRestNext(t: Search, ns: seq<Key>, i: nat, it: Item)
    requires i < |ns| && forall n :: n in ns ==> n in t.g.nodes.at
    ensures ns[i] in t.g.nodes.at && (forall n :: n in ns ==> n in Relax(t, ns[i], it).g.nodes.at)
    ensures RelaxRest(t, ns, i, it) == RelaxRest(Relax(t, ns[i], it), ns, i + 1, it)
  {
    assert ns[i..][0] == ns[i] && ns[i..][1..] == ns[i + 1..];
  }

  lemma PopIs(s: Search)
    requires s.queue != [] && Closed(s.g)
    ensures var k := s.queue[0].key;
      Pop(s) == if k in s.visited then s.(queue := s.queue[1..])
                else if k !in s.g.nodes.at then Mark(s)
                else RelaxAll(Mark(s), s.g.Row(k).order, s.queue[0])
  {
  }

  lemma MarkKeys(s: Search)
    requires s.queue != []
    ensures Mark(s).visited.Keys == s.visited.Keys + {s.queue[0].key}
  {
  }

  lemma RaiseValid(g: Graph, k: Key, d: nat)
    requires g.Valid() && k in g.nodes.at
    ensures Raise(g, k, d).Valid()
  {
  }

  /** Adding the node and linking it from every node is the whole-graph update. */
  lemma AddedRows(g: Graph, f: Flight)
    requires g.Valid()
    ensures var k := f.info.key;
      var n, rows := g.nodes.Put(k, f), g.adj[k := g.Row(k)];
      && NoDup(n.order) && (forall u :: u in n.order <==> u in n.at) && rows.Keys == n.at.Keys
      && Graphs.ProcessEvent(g, f) == Graph(n, Linked(rows, n.at, n.order, f))
  {
    hide LinkRow;
    var k := f.info.key;
    g.nodes.PutValid(k, f);
    AddedRowsAre(g, f, g.nodes.Put(k, f), g.adj[k := g.Row(k)]);
  }

  lemma AddedRowsAre(g: Graph, f: Flight, n: Dict<Flight>, rows: map<Key, Dict<Kind>>)
    requires n == g.nodes.Put(f.info.key, f) && rows == g.adj[f.info.key := g.Row(f.info.key)]
    requires g.adj.Keys == g.nodes.at.Keys && forall u :: u in n.order <==> u in n.at
    ensures rows.Keys == n.at.Keys && Graphs.ProcessEvent(g, f) == Graph(n, Linked(rows, n.at, n.order, f))
  {
    hide LinkRow;
    var after := Graphs.ProcessEvent(g, f).adj;
    assert rows.Keys == n.at.Keys == after.Keys;
    forall u | u in rows ensures Linked(rows, n.at, n.order, f)[u] == after[u] {
    }
  }

  lemma RowLinked(row: Dict<Kind>, u: Flight, attrs: Node, f: Flight)
    requires attrs.info == u.info && attrs.gate == u.gate
    ensures var k := f.info.key;
      var turn := Named(attrs.info.aircraft) && Named(f.info.aircraft) && attrs.info.aircraft == f.info.aircraft;
      var reuse := Named(attrs.gate) && Named(f.gate) && attrs.gate == f.gate
                   && !(attrs.info.arr < f.info.dep || f.info.arr < attrs.info.dep);
      LinkRow(row, u, f) ==
      var turned := if turn then row.Put(k, AircraftTurn) else row;
      if reuse then turned.Put(k, GateReuse) else turned
  {
  }

  lemma LinkedNext(rows: map<Key, Dict<Kind>>, flights: map<Key, Flight>, order: seq<Key>, i: nat, f: Flight)
    requires rows.Keys == flights.Keys && i < |order| && order[i] in rows && NoDup(order)
    ensures order[i] in Linked(rows, flights, order[..i], f)
    ensures Linked(rows, flights, order[..i], f)[order[i]] == rows[order[i]]
    ensures Linked(rows, flights, order[..i + 1], f) ==
            if order[i] == f.info.key then Linked(rows, flights, order[..i], f)
            else Linked(rows, flights, order[..i], f)[order[i] := LinkRow(rows[order[i]], flights[order[i]], f)]
  {
  }

  /** The event that a load builds from a row of active_flights; what the table has
      no column for stays None. */
  function EventOf(r: ActiveRow): Flight {
    Flight(Info(r.key, r.now.flightId, r.schedule.airline, r.schedule.number, r.schedule.origin, r.schedule.destination,
                r.now.aircraft, r.schedule.dep, r.schedule.arr, None, r.now.status, r.schedule.passengers, r.now.updated),
           r.now.gate, if r.now.delay < 0 then 0 else r.now.delay, if r.now.delay > 0 then Delay else Departure)
  }

  function EventsOf(rows: seq<ActiveRow>): (fs: seq<Flight>)
    ensures |fs| == |rows| && forall i :: 0 <= i < |rows| ==> fs[i] == EventOf(rows[i])
  {
    seq(|rows|, i requires 0 <= i < |rows| => EventOf(rows[i]))
  }

  /** Row `i` is the last one of its flight. */
  ghost predicate LastRow(rows: seq<ActiveRow>, i: nat) {
    i < |rows| && forall j :: i < j < |rows| ==> rows[j].key != rows[i].key
  }

  /** Column by column, what a load makes of the last row of a flight. */
  lemma {:induction false} LoadedColumns(g: Graph, rows: seq<ActiveRow>, i: nat)
    requires LastRow(rows, i)
    ensures rows[i].key in LoadAll(g, EventsOf(rows)).nodes.at
    ensures var r, f := rows[i], LoadAll(g, EventsOf(rows)).nodes.at[rows[i].key];
      && f.info.key == r.key && f.info.airline == r.schedule.airline && f.info.number == r.schedule.number
      && f.info.origin == r.schedule.origin && f.info.destination == r.schedule.destination
      && f.info.dep == r.schedule.dep && f.info.arr == r.schedule.arr && f.info.passengers == r.schedule.passengers
      && f.info.flightId == r.now.flightId && f.info.aircraft == r.now.aircraft && f.gate == r.now.gate
      && f.info.status == r.now.status && f.info.stamp == r.now.updated && f.info.actualArr == None
      && (if r.now.delay > 0 then f.delay == r.now.delay && f.etype == Delay else f.delay == 0 && f.etype == Departure)
  {
    hide LoadAll;
    LoadedLast(g, EventsOf(rows), i);
  }

  /** A flight whose delay a propagation raised, and the hop count reported. */
  datatype Touched = Touched(event: FlightEvent, hops: nat)

  datatype Reassignment = Reassignment(key: Key, oldGate: Option<string>, newGate: string, event: FlightEvent)

  lemma {:induction false} ExpiredNone(g: Graph, cutoff: int)
    ensures ExpiredKeys(g, [], cutoff) == []
  {
  }

  lemma {:induction false} ExpiredConcat(g: Graph, a: seq<Key>, b: seq<Key>, cutoff: int)
    requires (forall k :: k in a ==> k in g.nodes.at) && (forall k :: k in b ==> k in g.nodes.at)
    ensures forall k :: k in a + b ==> k in g.nodes.at
    ensures ExpiredKeys(g, a + b, cutoff) == ExpiredKeys(g, a, cutoff) + ExpiredKeys(g, b, cutoff)
  {
    hide Expired;
    if a == [] {
      assert a + b == b;
    } else {
      assert (a + b)[1..] == a[1..] + b && (a + b)[0] == a[0];
      ExpiredConcat(g, a[1..], b, cutoff);
    }
  }

  lemma {:induction false} ExpiredNext(g: Graph, order: seq<Key>, i: nat, cutoff: int)
    requires i < |order| && order[i] in g.nodes.at
    requires forall k :: k in order[..i] ==> k in g.nodes.at
    ensures forall k :: k in order[..i + 1] ==> k in g.nodes.at
    ensures ExpiredKeys(g, order[..i + 1], cutoff) ==
            ExpiredKeys(g, order[..i], cutoff) +
            (if g.nodes.at[order[i]].info.status == Landed && LandedAt(g.nodes.at[order[i]].info) < cutoff
             then [order[i]] else [])
  {
    assert order[..i + 1] == order[..i] + [order[i]];
    ExpiredConcat(g, order[..i], [order[i]], cutoff);
    assert [order[i]][1..] == [];
  }

  lemma {:induction false} ExpiredOrder(g: Graph, cutoff: int)
    requires g.Valid()
    ensures var r := ExpiredKeys(g, g.nodes.order, cutoff);
      forall i: nat, j: nat :: i < j < |r| ==> Before(g.nodes.order, r[i], r[j])
  {
    hide Before;
    var r := ExpiredKeys(g, g.nodes.order, cutoff);
    forall i: nat, j: nat | i < j < |r| ensures Before(g.nodes.order, r[i], r[j]) {
      ExpiredInOrder(g, g.nodes.order, cutoff, i, j);
    }
  }

  /** The records of the reassignments `ms` made on the graph `g`, whose nodes
      carry the event objects in `was`. */
  ghost predicate Records(rs: seq<Reassignment>, g: Graph, ms: seq<Move>, was: map<Key, Node>) {
    && |rs| == |ms|
    && (forall j :: 0 <= j < |ms| ==>
          && ms[j].dst in was && ms[j].dst in g.nodes.at
          && rs[j] == Reassignment(ms[j].dst, GateAfter(ms[..j], ms[j].dst, g.nodes.at[ms[j].dst].gate),
                                   ms[j].gate, was[ms[j].dst].event))
  }

  /** Of the first `n` records, the `i`-th is the last one of `k`. */
  ghost predicate LastRecord(rs: seq<Reassignment>, n: nat, k: Key, i: nat) {
    i < n <= |rs| && rs[i].key == k && forall j :: i < j < n ==> rs[j].key != k
  }

  /** The gates handed out by the first `n` records. */
  ghost function Given(rs: seq<Reassignment>, n: nat): (r: seq<string>)
    requires n <= |rs|
    ensures |r| == n && forall i :: 0 <= i < n ==> r[i] == rs[i].newGate
  {
    seq(n, i requires 0 <= i < n => rs[i].newGate)
  }

  /** Each new gate is the earliest pool gate that was nobody's before the call and
      that no earlier record took. */
  ghost predicate InPoolOrder(rs: seq<Reassignment>, g: Graph, pool: seq<string>) {
    forall j :: 0 <= j < |rs| ==> Earliest(g, pool, Given(rs, j), rs[j].newGate)
  }

  /** Each old gate is what the last earlier record gave the flight, or else what it
      had before the call. */
  ghost predicate OldGates(rs: seq<Reassignment>, g: Graph) {
    forall j: nat :: j < |rs| ==>
      && rs[j].key in g.nodes.at
      && (forall i: nat :: LastRecord(rs, j, rs[j].key, i) ==> rs[j].oldGate == Some(rs[i].newGate))
      && ((forall i :: 0 <= i < j ==> rs[i].key != rs[j].key) ==> rs[j].oldGate == g.nodes.at[rs[j].key].gate)
  }

  /** Every flight ends with the gate of its last record, or is as it was. */
  ghost predicate NewGates(rs: seq<Reassignment>, g: Graph, h: Graph) {
    forall k :: k in g.nodes.at ==>
      && k in h.nodes.at && h.nodes.at[k] == g.nodes.at[k].(gate := h.nodes.at[k].gate)
      && (forall i: nat :: LastRecord(rs, |rs|, k, i) ==> h.nodes.at[k].gate == Some(rs[i].newGate))
      && ((forall j :: 0 <= j < |rs| ==> rs[j].key != k) ==> h.nodes.at[k].gate == g.nodes.at[k].gate)
  }

  /** A gate_reuse edge between flights whose windows meet. */
  ghost predicate ReuseMeets(g: Graph, u: Key, v: Key) {
    u in g.nodes.at && v in g.nodes.at && g.KindOf(u, v) == Some(GateReuse) && Overlaps(g.nodes.at[u], g.nodes.at[v])
  }

  /** One such edge into `v` is gone. */
  ghost predicate LosesReuse(g: Graph, h: Graph, v: Key) {
    exists u :: ReuseMeets(g, u, v) && h.KindOf(u, v) == None
  }

  /** Each record stands for one such edge into its flight, which is gone; where one
      is left, every pool gate is taken. */
  ghost predicate Served(rs: seq<Reassignment>, g: Graph, h: Graph, pool: seq<string>) {
    && (forall j :: 0 <= j < |rs| ==> LosesReuse(g, h, rs[j].key))
    && (forall u, v, x :: ReuseMeets(h, u, v) && x in pool ==> !Open(g, Given(rs, |rs|), x))
  }

  lemma RecordsInPoolOrder(rs: seq<Reassignment>, g: Graph, pool: seq<string>, was: map<Key, Node>)
    requires g.Valid() && Records(rs, g, Moves(g, pool), was)
    ensures InPoolOrder(rs, g, pool)
  {
    hide Graph.Valid, Moves, Earliest;
    MovesTakeEarliest(g, pool);
    forall j | 0 <= j < |rs| ensures Earliest(g, pool, Given(rs, j), rs[j].newGate) {
      assert Given(rs, j) == GatesOf(Moves(g, pool), j);
    }
  }

  lemma RecordsKeepOldGates(rs: seq<Reassignment>, g: Graph, pool: seq<string>, was: map<Key, Node>)
    requires g.Valid() && Records(rs, g, Moves(g, pool), was)
    ensures OldGates(rs, g)
  {
    hide Graph.Valid, Moves;
    forall j: nat | j < |rs|
      ensures forall i: nat :: LastRecord(rs, j, rs[j].key, i) ==> rs[j].oldGate == Some(rs[i].newGate)
      ensures (forall i :: 0 <= i < j ==> rs[i].key != rs[j].key) ==> rs[j].oldGate == g.nodes.at[rs[j].key].gate
    {
      OldGateIs(rs, g, Moves(g, pool), was, j);
    }
  }

  lemma RecordsGiveNewGates(rs: seq<Reassignment>, g: Graph, pool: seq<string>, was: map<Key, Node>)
    requires g.Valid() && Records(rs, g, Moves(g, pool), was)
    ensures NewGates(rs, g, Resolve(g, pool))
  {
    hide Graph.Valid, Moves, Resolve;
    var ms, h := Moves(g, pool), Resolve(g, pool);
    forall k | k in g.nodes.at
      ensures k in h.nodes.at && h.nodes.at[k] == g.nodes.at[k].(gate := h.nodes.at[k].gate)
      ensures forall i: nat :: LastRecord(rs, |rs|, k, i) ==> h.nodes.at[k].gate == Some(rs[i].newGate)
      ensures (forall j :: 0 <= j < |rs| ==> rs[j].key != k) ==> h.nodes.at[k].gate == g.nodes.at[k].gate
    {
      ResolveNode(g, pool, k);
      forall i: nat | LastRecord(rs, |rs|, k, i) ensures h.nodes.at[k].gate == Some(rs[i].newGate) {
        LastGate(ms, k, g.nodes.at[k].gate, i);
      }
    }
  }

  lemma OldGateIs(rs: seq<Reassignment>, g: Graph, ms: seq<Move>, was: map<Key, Node>, j: nat)
    requires Records(rs, g, ms, was) && j < |rs|
    ensures forall i: nat :: LastRecord(rs, j, rs[j].key, i) ==> rs[j].oldGate == Some(rs[i].newGate)
    ensures (forall i :: 0 <= i < j ==> rs[i].key != rs[j].key) ==> rs[j].oldGate == g.nodes.at[rs[j].key].gate
  {
    var k, gate := rs[j].key, g.nodes.at[rs[j].key].gate;
    forall i: nat | LastRecord(rs, j, k, i) ensures rs[j].oldGate == Some(rs[i].newGate) {
      LastGate(ms[..j], k, gate, i);
    }
    if forall i :: 0 <= i < j ==> rs[i].key != k {
      Unmoved(ms[..j], k, gate);
    }
  }

  lemma RecordsServe(rs: seq<Reassignment>, g: Graph, pool: seq<string>, was: map<Key, Node>)
    requires g.Valid() && Records(rs, g, Moves(g, pool), was)
    ensures Served(rs, g, Resolve(g, pool), pool)
  {
    hide Graph.Valid, Resolve, Open, UsedGates, Supply;
    var ms, h, cs := Moves(g, pool), Resolve(g, pool), Clashes(g);
    MovesTakeEarliest(g, pool);
    assert Given(rs, |rs|) == GatesOf(ms, |ms|);
    forall j | 0 <= j < |rs| ensures LosesReuse(g, h, rs[j].key) {
      MoveServes(g, pool, j);
      assert ReuseMeets(g, ms[j].src, rs[j].key);
    }
    forall u, v, x | ReuseMeets(h, u, v) && x in pool ensures !Open(g, Given(rs, |rs|), x) {
      ResolveValid(g, pool);
      ResolveNode(g, pool, u);
      ResolveNode(g, pool, v);
      DroppedExactly(g, pool, u, v);
      ClashesMember(g, u, v);
      assert cs[..|cs|] == cs;
      assert |ms| != |cs|;
    }
  }

  /** The resolve loop on `g` has made its first `n` moves and stands at `h`. */
  ghost predicate Resolving(h: Graph, g: Graph, pool: seq<string>, n: nat, used: set<string>,
                            rs: seq<Reassignment>, was: map<Key, Node>)
    requires g.Valid()
  {
    var ms, supply := Moves(g, pool), Supply(pool, UsedGates(g));
    && n <= |ms| <= |supply| && Applicable(g, ms) && Applicable(g, ms[..n])
    && h == ApplyMoves(g, ms[..n])
    && used == UsedGates(g) + Elements(supply[..n])
    && Records(rs, g, ms[..n], was)
  }

  lemma ResolvingStart(g: Graph, pool: seq<string>, used: set<string>, was: map<Key, Node>)
    requires g.Valid() && used == UsedGates(g)
    ensures Resolving(g, g, pool, 0, used, [], was)
  {
    MovesApplicable(g, pool);
    assert Moves(g, pool)[..0] == [];
    assert used == UsedGates(g) + Elements(Supply(pool, UsedGates(g))[..0]);
  }

  lemma {:induction false} ResolvingNext(h: Graph, g: Graph, pool: seq<string>, n: nat, used: set<string>,
                      rs: seq<Reassignment>, was: map<Key, Node>, m: Move)
    requires g.Valid() && Resolving(h, g, pool, n, used, rs, was)
    requires n < |Moves(g, pool)| && Moves(g, pool)[n] == m
    requires Elements(Supply(pool, UsedGates(g))[..n + 1]) == Elements(Supply(pool, UsedGates(g))[..n]) + {m.gate}
    requires m.src in h.adj && m.dst in h.nodes.at && m.dst in was && m.dst in g.nodes.at
    ensures Resolving(ApplyMove(h, m), g, pool, n + 1, used + {m.gate},
                      rs + [Reassignment(m.dst, GateAfter(Moves(g, pool)[..n], m.dst, g.nodes.at[m.dst].gate),
                                         m.gate, was[m.dst].event)], was)
  {
    hide Graph.Valid, Moves, Supply, UsedGates, ApplyMove, GateAfter, Elements, ApplyMoves;
    var ms := Moves(g, pool);
    MovesNext(g, ms, n);
    assert ms[..n + 1] == ms[..n] + [m];
    forall j | 0 <= j < n ensures ms[..n + 1][..j] == ms[..n][..j] {
    }
  }

  lemma ResolvingEnd(h: Graph, g: Graph, pool: seq<string>, n: nat, used: set<string>, rs: seq<Reassignment>, was: map<Key, Node>)
    requires g.Valid() && Resolving(h, g, pool, n, used, rs, was) && n == |Moves(g, pool)|
    ensures h == Resolve(g, pool) && Records(rs, g, Moves(g, pool), was)
  {
    assert Moves(g, pool)[..n] == Moves(g, pool);
  }

  lemma EdgeEnds(g: Graph, e: Edge)
    requires g.Valid() && e in Edges(g)
    ensures e.src in g.adj && e.src in g.nodes.at && e.dst in g.nodes.at
    ensures Clashing(g, e) <==> e.kind == GateReuse && Overlaps(g.nodes.at[e.src], g.nodes.at[e.dst])
  {
    EdgesMember(g, e);
  }

  class GraphEngine {
    var nodes: Dict<Node>
    var adj: map<Key, Dict<Kind>>
    const pool: seq<string>
    /** The graph the two copies describe. */
    ghost var view: Graph

    ghost function Events(): set<FlightEvent>
      reads this
    {
      set k | k in nodes.at :: nodes.at[k].event
    }

    /** Node attributes and event objects both agree with the view. */
    ghost predicate Agree()
      reads this, Events()
    {
      && nodes.order == view.nodes.order && adj == view.adj && nodes.at.Keys == view.nodes.at.Keys
      && (forall k :: k in nodes.at ==> Holds(nodes.at[k], view.nodes.at[k]))
    }

    /** The copies agree and the graph is well formed; in particular two nodes
        never share an event object. */
    ghost predicate Valid()
      reads this, Events()
    {
      view.Valid() && Agree()
    }

    constructor (pool: seq<string>)
      ensures Valid() && view == EMPTY && this.pool == pool
    {
      nodes := Empty();
      adj := map[];
      view := EMPTY;
      this.pool := pool;
    }

    /** The same nodes with the same event objects. */
    ghost predicate SameEvents(was: map<Key, Node>)
      reads this
    {
      nodes.at.Keys == was.Keys && forall k :: k in was ==> nodes.at[k].event == was[k].event
    }

    lemma CopiesAgree(k: Key)
      requires Agree() && k in nodes.at
      ensures nodes.at[k].delay == view.nodes.at[k].delay && nodes.at[k].gate == view.nodes.at[k].gate
      ensures nodes.at[k].info == view.nodes.at[k].info && nodes.at[k].event.Value() == view.nodes.at[k]
    {
    }

    lemma Unshared(k: Key)
      requires Valid() && k in nodes.at
      ensures forall j :: j in nodes.at && j != k ==> nodes.at[j].event != nodes.at[k].event
    {
    }

    method AddFlight(f: FlightEvent)
      requires Agree()
      modifies this
      ensures Agree() && nodes.at == old(nodes.at)[f.info.key := Copied(f)]
      ensures view == Graph(old(view).nodes.Put(f.info.key, f.Value()), old(adj)[f.info.key := old(view).Row(f.info.key)])
    {
      if f.info.key !in adj {
        adj := adj[f.info.key := Empty()];
      }
      nodes := nodes.Put(f.info.key, Copied(f));
      view := Graph(view.nodes.Put(f.info.key, f.Value()), adj);
    }

    method AddEdgesForFlight(f: FlightEvent)
      requires Agree() && adj.Keys == nodes.at.Keys && NoDup(nodes.order)
      requires forall k :: k in nodes.order <==> k in nodes.at
      modifies this`adj, this`view
      ensures Agree()
      ensures view == old(view).(adj := Linked(old(adj), old(view).nodes.at, nodes.order, f.Value()))
    {
      hide Linked, LinkRow, Dict.Put;
      ghost var before, flights := adj, view.nodes.at;
      var b, gate := f.info, f.gate;
      LinkedNone(before, flights, nodes.order, f.Value());
      for i := 0 to |nodes.order|
        invariant adj == Linked(before, flights, nodes.order[..i], f.Value()) && view == old(view)
      {
        var u := nodes.order[i];
        var attrs := nodes.at[u];
        LinkedNext(before, flights, nodes.order, i, f.Value());
        RowLinked(before[u], flights[u], attrs, f.Value());
        if u != b.key {
          if Named(attrs.info.aircraft) && Named(b.aircraft) && attrs.info.aircraft == b.aircraft {
            adj := adj[u := adj[u].Put(b.key, AircraftTurn)];
          }
          if Named(attrs.gate) && Named(gate) && attrs.gate == gate {
            var overlaps := !(attrs.info.arr < b.dep || b.arr < attrs.info.dep);
            if overlaps {
              adj := adj[u := adj[u].Put(b.key, GateReuse)];
            }
          }
        }
      }
      assert nodes.order[..|nodes.order|] == nodes.order;
      view := view.(adj := adj);
    }

    method ProcessEvent(f: FlightEvent)
      requires Valid()
      modifies this
      ensures Valid() && view == Graphs.ProcessEvent(old(view), f.Value())
      ensures nodes.at == old(nodes.at)[f.info.key := Copied(f)]
      ensures forall u :: u in old(nodes.at) && u != f.info.key ==>
                var a, b := old(nodes.at[u]), f.info;
                view.KindOf(u, b.key) ==
                if a.gate != None && a.gate != Some("") && a.gate == f.gate && !(a.info.arr < b.dep || b.arr < a.info.dep)
                then Some(GateReuse)
                else if a.info.aircraft != None && a.info.aircraft != Some("") && a.info.aircraft == b.aircraft
                then Some(AircraftTurn)
                else old(view).KindOf(u, b.key)
    {
      hide Linked, Graphs.ProcessEvent;
      ghost var g := view;
      EventLinks(f.Value());
      AddFlight(f);
      AddedRows(g, f.Value());
      AddEdgesForFlight(f);
      ProcessEventValid(g, f.Value());
    }

    /** The kind of the edge from each node to an arriving flight, by the node's own
        attributes. */
    lemma EventLinks(f: Flight)
      requires Valid()
      ensures forall u :: u in nodes.at && u != f.info.key ==>
                var a, b := nodes.at[u], f.info;
                Graphs.ProcessEvent(view, f).KindOf(u, b.key) ==
                if a.gate != None && a.gate != Some("") && a.gate == f.gate && !(a.info.arr < b.dep || b.arr < a.info.dep)
                then Some(GateReuse)
                else if a.info.aircraft != None && a.info.aircraft != Some("") && a.info.aircraft == b.aircraft
                then Some(AircraftTurn)
                else view.KindOf(u, b.key)
    {
      hide Graphs.ProcessEvent, Graph.KindOf, Graph.Valid;
      forall u | u in nodes.at && u != f.info.key
        ensures Graphs.ProcessEvent(view, f).KindOf(u, f.info.key) ==
                if Conflict(view.nodes.at[u], f) then Some(GateReuse)
                else if SameAircraft(view.nodes.at[u], f) then Some(AircraftTurn)
                else view.KindOf(u, f.info.key)
      {
        ProcessEventEdge(view, f, u, f.info.key);
      }
    }

    /** Both copies of a flight's delay are overwritten. */
    method SetDelay(k: Key, d: nat)
      requires Agree() && k in nodes.at
      requires forall j :: j in nodes.at && j != k ==> nodes.at[j].event != nodes.at[k].event
      modifies this`nodes, this`view, nodes.at[k].event
      ensures Agree() && SameEvents(old(nodes.at)) && view == Raise(old(view), k, d)
    {
      var attrs := nodes.at[k];
      CopiesAgree(k);
      nodes := nodes.(at := nodes.at[k := attrs.(delay := d)]);
      attrs.event.SetDelay(d);
      view := Raise(view, k, d);
      assert Holds(nodes.at[k], view.nodes.at[k]);
    }

    /** The reported event objects are those of the reported flights. */
    ghost predicate Reports(updated: seq<Touched>, us: seq<Update>)
      reads this
    {
      && |updated| == |us|
      && (forall i :: 0 <= i < |us| ==> us[i].key in nodes.at && updated[i] == Touched(nodes.at[us[i].key].event, us[i].hops))
    }

    /** `s` is the search whose variables these are. */
    ghost predicate Mirrors(s: Search, queue: seq<Item>, visited: set<Key>, updated: seq<Touched>)
      reads this
    {
      s.g == view && s.queue == queue && s.visited.Keys == visited && Reports(updated, s.updates)
    }

    method RelaxNeighbor(n: Key, it: Item, visited: set<Key>, queue: seq<Item>, updated: seq<Touched>, ghost s: Search)
      returns (queue': seq<Item>, updated': seq<Touched>)
      requires Valid() && n in nodes.at && Mirrors(s, queue, visited, updated)
      modifies this`nodes, this`view, Events()
      ensures Valid() && SameEvents(old(nodes.at)) && n in s.g.nodes.at
      ensures Mirrors(Relax(s, n, it), queue', visited, updated')
    {
      hide Graph.Valid, Raise, Relax, Holds, Passed, Max;
      queue', updated' := queue, updated;
      var delay := nodes.at[n].delay;
      CopiesAgree(n);
      var propagated := Passed(it.delay);
      var newDelay := Max(delay, propagated);
      RelaxCases(s, n, it, delay, newDelay);
      if n !in visited {
        if newDelay != delay {
          Unshared(n);
          RaiseValid(view, n, newDelay);
          SetDelay(n, newDelay);
          updated' := updated' + [Touched(nodes.at[n].event, it.hops + 1)];
        }
        queue' := queue' + [Item(n, newDelay, it.hops + 1)];
      }
    }

    lemma EventsStay(was: map<Key, Node>)
      requires SameEvents(was)
      ensures Events() == set k | k in was :: was[k].event
    {
    }

    /** Relax every neighbour of a popped item; `s` is the search so far. */
    method RelaxNeighbors(it: Item, visited: set<Key>, queue: seq<Item>, updated: seq<Touched>, ghost s: Search)
      returns (queue': seq<Item>, updated': seq<Touched>, ghost t: Search)
      requires Valid() && it.key in nodes.at && Mirrors(s, queue, visited, updated)
      modifies this`nodes, this`view, Events()
      ensures Valid() && SameEvents(old(nodes.at)) && Closed(s.g)
      ensures t == RelaxAll(s, s.g.Row(it.key).order, it)
      ensures Mirrors(t, queue', visited, updated')
    {
      hide Graph.Valid, Relax, RelaxAll, RelaxRest, Holds, Closed;
      Neighbours(it.key);
      var ns := adj[it.key].order;
      queue', updated', t := queue, updated, s;
      ghost var was := nodes.at;
      EventsStay(was);
      RelaxRestEnds(s, ns, it);
      for i := 0 to |ns|
        invariant Valid() && SameEvents(was)
        invariant forall n :: n in ns ==> n in t.g.nodes.at
        invariant RelaxRest(t, ns, i, it) == RelaxRest(s, ns, 0, it)
        invariant Mirrors(t, queue', visited, updated')
      {
        RelaxRestNext(t, ns, i, it);
        EventsStay(was);
        ghost var next := Relax(t, ns[i], it);
        queue', updated' := RelaxNeighbor(ns[i], it, visited, queue', updated', t);
        t := next;
      }
      RelaxRestEnds(t, ns, it);
    }

    lemma Neighbours(k: Key)
      requires Valid() && k in nodes.at
      ensures Closed(view) && k in adj && adj[k].order == view.Row(k).order
      ensures forall n :: n in adj[k].order ==> n in view.nodes.at
    {
    }

    method PropagateDelay(src: Key, d0: nat) returns (updated: seq<Touched>)
      requires Valid()
      modifies this`nodes, this`view, Events()
      ensures Valid() && SameEvents(old(nodes.at)) && Closed(old(view))
      ensures view == Propagate(old(view), src, d0).0
      ensures Reports(updated, Propagate(old(view), src, d0).1)
    {
      hide Graph.Valid, Pop, RelaxAll, Holds, Left;
      ValidClosed(view);
      var queue, visited := [Item(src, d0, 0)], {};
      updated := [];
      ghost var s := Start(view, src, d0);
      ghost var was := nodes.at;
      EventsStay(was);
      while queue != []
        invariant Valid() && SameEvents(was) && Closed(s.g)
        invariant Run(s) == Run(Start(old(view), src, d0))
        invariant Mirrors(s, queue, visited, updated)
        decreases Left(s), |s.queue|
      {
        ghost var s0 := s;
        PopShrinks(s);
        PopIs(s);
        EventsStay(was);
        var it := queue[0];
        queue := queue[1..];
        if it.key in visited {
          s := s.(queue := s.queue[1..]);
        } else {
          visited := visited + {it.key};
          s := Mark(s);
          MarkKeys(s0);
          if it.key in nodes.at {
            queue, updated, s := RelaxNeighbors(it, visited, queue, updated, s);
          }
        }
        assert s == Pop(s0);
      }
    }

    // ---- gate conflicts ----

    /** The gates in use, collected from the node attributes. */
    function GatesInUse(): (r: set<string>)
      reads this
    {
      set k | k in nodes.at && Named(nodes.at[k].gate) :: nodes.at[k].gate.value
    }

    lemma GatesInUseAre()
      requires Agree()
      ensures GatesInUse() == UsedGates(view)
    {
    }

    /** Give `m.dst` the new gate, in both copies, and remove the edge. */
    method Reassign(m: Move)
      requires Agree() && m.src in adj && m.dst in nodes.at
      requires forall j :: j in nodes.at && j != m.dst ==> nodes.at[j].event != nodes.at[m.dst].event
      modifies this`nodes, this`adj, this`view, nodes.at[m.dst].event
      ensures Agree() && SameEvents(old(nodes.at)) && view == ApplyMove(old(view), m)
    {
      var attrs := nodes.at[m.dst];
      nodes := nodes.(at := nodes.at[m.dst := attrs.(gate := Some(m.gate))]);
      attrs.event.SetGate(m.gate);
      adj := adj[m.src := adj[m.src].Drop(m.dst)];
      view := ApplyMove(view, m);
    }

    /** Resolving keeps what the loop reads of an edge's two flights. */
    lemma Endpoints(g: Graph, n: nat, used: set<string>, rs: seq<Reassignment>, was: map<Key, Node>, e: Edge)
      requires Agree() && g.Valid() && Resolving(view, g, pool, n, used, rs, was) && e in Edges(g)
      ensures e.src in nodes.at && e.dst in nodes.at && e.src in adj && e.src in g.nodes.at && e.dst in g.nodes.at
      ensures nodes.at[e.src].info == g.nodes.at[e.src].info && nodes.at[e.dst].info == g.nodes.at[e.dst].info
      ensures nodes.at[e.dst].gate == GateAfter(Moves(g, pool)[..n], e.dst, g.nodes.at[e.dst].gate)
      ensures Clashing(g, e) <==> e.kind == GateReuse && Overlaps(g.nodes.at[e.src], g.nodes.at[e.dst])
      ensures used == UsedGates(g) + Elements(Supply(pool, UsedGates(g))[..n])
    {
      hide Moves, Supply, UsedGates, ApplyMoves, Graph.Valid, Holds;
      EdgeEnds(g, e);
      MovesNode(g, Moves(g, pool)[..n], e.src);
      MovesNode(g, Moves(g, pool)[..n], e.dst);
      CopiesAgree(e.src);
      CopiesAgree(e.dst);
    }

    /** One turn of the loop over the snapshot. */
    method ResolveEdge(e: Edge, used: set<string>, rs: seq<Reassignment>, ghost i: nat, ghost g: Graph, ghost n: nat,
                       ghost was: map<Key, Node>)
      returns (used': set<string>, rs': seq<Reassignment>, ghost n': nat)
      requires Valid() && SameEvents(was) && g.Valid() && i < |Edges(g)| && e == Edges(g)[i]
      requires n == Min(|ClashesIn(g, Edges(g)[..i])|, |Supply(pool, UsedGates(g))|)
      requires Resolving(view, g, pool, n, used, rs, was)
      modifies this`nodes, this`adj, this`view, Events()
      ensures Valid() && SameEvents(was)
      ensures n' == Min(|ClashesIn(g, Edges(g)[..i + 1])|, |Supply(pool, UsedGates(g))|)
      ensures Resolving(view, g, pool, n', used', rs', was)
    {
      hide Graph.Valid, Holds, ClashesIn, Clashing, Edges, Supply, UsedGates, Resolving, FreeGates, ApplyMoves, ApplyMove,
           Moves, Elements, GateAfter;
      used', rs', n' := used, rs, n;
      ResolveTurn(g, pool, i);
      Endpoints(g, n, used, rs, was, e);
      if e.kind == GateReuse {
        var a, b := nodes.at[e.src].info, nodes.at[e.dst].info;
        var overlaps := !(a.arr < b.dep || b.arr < a.dep);
        if overlaps {
          var freeGates := FreeGates(pool, used);
          if freeGates != [] {
            var newGate := freeGates[0];
            var oldGate := nodes.at[e.dst].gate;
            ghost var m := Move(e.src, e.dst, newGate);
            ResolvingNext(view, g, pool, n, used, rs, was, m);
            ApplyMoveValid(view, m);
            used' := used + {newGate};
            Unshared(e.dst);
            Reassign(Move(e.src, e.dst, newGate));
            rs' := rs + [Reassignment(e.dst, oldGate, newGate, nodes.at[e.dst].event)];
            n' := n + 1;
          }
        }
      }
    }

    method ResolveGateConflicts() returns (rs: seq<Reassignment>)
      requires Valid()
      modifies this`nodes, this`adj, this`view, Events()
      ensures Valid() && SameEvents(old(nodes.at))
      ensures view == Resolve(old(view), pool)
      ensures Records(rs, old(view), Moves(old(view), pool), old(nodes.at))
      ensures InPoolOrder(rs, old(view), pool) && OldGates(rs, old(view)) && NewGates(rs, old(view), view)
      ensures Served(rs, old(view), view, pool)
    {
      hide Graph.Valid, Holds, ClashesIn, Resolving, Clashing, ApplyMoves, Moves, Supply, UsedGates, EdgesFrom,
           InPoolOrder, OldGates, NewGates, Served, Records;
      ghost var g, was := view, nodes.at;
      GatesInUseAre();
      var used := GatesInUse();
      rs := [];
      RowsValid();
      var snapshot := EdgesFrom(adj, nodes.order);
      ghost var n := 0;
      ResolvingStart(g, pool, used, was);
      for i := 0 to |snapshot|
        invariant Valid() && SameEvents(was)
        invariant n == Min(|ClashesIn(g, snapshot[..i])|, |Supply(pool, UsedGates(g))|)
        invariant Resolving(view, g, pool, n, used, rs, was)
      {
        EventsStay(was);
        used, rs, n := ResolveEdge(snapshot[i], used, rs, i, g, n, was);
      }
      assert snapshot[..|snapshot|] == snapshot;
      ResolvingEnd(view, g, pool, n, used, rs, was);
      RecordsInPoolOrder(rs, g, pool, was);
      RecordsKeepOldGates(rs, g, pool, was);
      RecordsGiveNewGates(rs, g, pool, was);
      RecordsServe(rs, g, pool, was);
    }

    lemma RowsValid()
      requires Valid()
      ensures forall u :: u in nodes.order ==> RowIn(adj, u).Valid()
    {
    }

    // ---- pruning and loading ----

    method PruneExpiredFlights(cutoff: int) returns (expired: seq<Key>)
      requires Valid()
      modifies this`nodes, this`adj, this`view
      ensures Valid() && view == Prune(old(view), cutoff)
      ensures expired == ExpiredKeys(old(view), old(view).nodes.order, cutoff)
      ensures forall k :: k in expired <==>
                && k in old(view).nodes.at
                && var i := old(view).nodes.at[k].info;
                   i.status == Landed && (if i.actualArr == None then i.arr else i.actualArr.value) < cutoff
      ensures forall i: nat, j: nat :: i < j < |expired| ==> Before(old(view).nodes.order, expired[i], expired[j])
    {
      hide Graph.Valid, RemoveNode, RemoveNodes, ExpiredKeys, Expired;
      ghost var g := view;
      RowsValid();
      expired := [];
      ExpiredNone(g, cutoff);
      for i := 0 to |nodes.order|
        invariant nodes == old(nodes) && adj == old(adj) && view == g
        invariant forall k :: k in nodes.order[..i] ==> k in g.nodes.at
        invariant expired == ExpiredKeys(g, nodes.order[..i], cutoff)
      {
        var k := nodes.order[i];
        NodeListed(i);
        var attrs := nodes.at[k];
        CopiesAgree(k);
        ExpiredNext(g, nodes.order, i, cutoff);
        if attrs.info.status == Landed {
          var landedAt := LandedAt(attrs.event.info);
          if landedAt < cutoff {
            expired := expired + [k];
          }
        }
      }
      assert nodes.order[..|nodes.order|] == nodes.order;
      ExpiredAre(g, cutoff);
      ExpiredOrder(g, cutoff);
      RemoveAll(expired);
    }

    lemma NodeListed(i: nat)
      requires Valid() && i < |nodes.order|
      ensures nodes.order[i] in nodes.at
    {
    }

    method RemoveAll(ks: seq<Key>)
      requires Valid()
      modifies this`nodes, this`adj, this`view
      ensures Valid() && view == RemoveNodes(old(view), ks)
    {
      hide Graph.Valid, RemoveNode;
      ghost var g := view;
      for i := 0 to |ks|
        invariant Valid() && RemoveNodes(view, ks[i..]) == RemoveNodes(g, ks)
      {
        assert ks[i..][0] == ks[i] && ks[i..][1..] == ks[i + 1..];
        RemoveNodeValid(view, ks[i]);
        DropNode(ks[i]);
      }
    }

    method DropNode(k: Key)
      requires Agree()
      modifies this`nodes, this`adj, this`view
      ensures Agree() && view == RemoveNode(old(view), k)
    {
      nodes := nodes.Drop(k);
      adj := map u | u in adj && u != k :: adj[u].Drop(k);
      view := RemoveNode(view, k);
    }

    method LoadFromDb(rows: seq<ActiveRow>)
      requires Valid()
      modifies this
      ensures Valid() && view == LoadAll(old(view), EventsOf(rows))
      ensures forall i: nat :: LastRow(rows, i) ==>
                && rows[i].key in nodes.at
                && var r, e := rows[i], nodes.at[rows[i].key].event;
                   && e.info.key == r.key && e.info.airline == r.schedule.airline && e.info.number == r.schedule.number
                   && e.info.origin == r.schedule.origin && e.info.destination == r.schedule.destination
                   && e.info.dep == r.schedule.dep && e.info.arr == r.schedule.arr
                   && e.info.passengers == r.schedule.passengers && e.info.flightId == r.now.flightId
                   && e.info.aircraft == r.now.aircraft && e.info.status == r.now.status && e.info.stamp == r.now.updated
                   && e.info.actualArr == None && e.gate == r.now.gate
                   && e.delay == (if r.now.delay > 0 then r.now.delay else 0)
                   && e.etype == if r.now.delay > 0 then Delay else Departure
    {
      hide Graph.Valid, Graphs.ProcessEvent, LoadAll;
      ghost var g := view;
      LoadNone(g);
      for i := 0 to |rows|
        invariant Valid() && view == LoadAll(g, EventsOf(rows[..i]))
      {
        var r := rows[i];
        var info := Info(r.key, r.now.flightId, r.schedule.airline, r.schedule.number, r.schedule.origin,
                         r.schedule.destination, r.now.aircraft, r.schedule.dep, r.schedule.arr, None, r.now.status,
                         r.schedule.passengers, r.now.updated);
        var event := new FlightEvent(info, r.now.gate, r.now.delay, if r.now.delay > 0 then Delay else Departure);
        ProcessEvent(event);
        LoadNext(g, EventsOf(rows[..i]), event.Value());
        assert EventsOf(rows[..i + 1]) == EventsOf(rows[..i]) + [event.Value()];
      }
      assert rows[..|rows|] == rows;
      forall i: nat | LastRow(rows, i) ensures rows[i].key in view.nodes.at && view.nodes.at[rows[i].key] == EventOf(rows[i]) {
        LoadedLast(g, EventsOf(rows), i);
        CopiesAgree(rows[i].key);
      }
    }
  }
}

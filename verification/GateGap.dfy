/** Right after a load, delivering one message twice is not the same as delivering
    it once: the first delivery sends the flight away from its gate together with
    the flights it conflicts with, the second one finds the gate empty. */
module GateGap {
  import opened Flights
  import opened Dicts
  import opened Graphs
  import opened Gates
  import opened GateSupply
  import opened Steps
  import opened Redelivery
  import Propagation
  import Settling

  /** With enough gates, the flight a clashing edge leads to is moved. */
  lemma ClashMoves(g: Graph, pool: seq<string>, u: Key, v: Key)
    requires g.Valid() && Enough(g, pool) && u in g.nodes.at && v in g.nodes.at
    requires g.KindOf(u, v) == Some(GateReuse) && Overlaps(g.nodes.at[u], g.nodes.at[v])
    ensures Moved(Moves(g, pool), v)
  {
    hide Graph.Valid, UsedGates, Supply, Clashes, Overlaps;
    ClashesMember(g, u, v);
    var i :| 0 <= i < |Clashes(g)| && Clashes(g)[i] == Edge(u, v, GateReuse);
    assert Moves(g, pool)[i].dst == v;
  }

  /** The flight is linked to all it conflicts with, as the first of a group of
      conflicting rows is after a load. */
  ghost predicate LinkedToAll(g: Graph, f: Flight) {
    forall u :: u in g.nodes.at && u != f.info.key && Conflict(g.nodes.at[u], f) ==> g.KindOf(f.info.key, u) == Some(GateReuse)
  }

  /** The gate of a flight that conflicted with the event is not the message's
      gate any more. */
  lemma SentAway(g: Graph, pool: seq<string>, f: Flight, u: Key)
    requires g.Valid() && EnoughFor(g, pool, f) && LinkedToAll(g, f)
    requires u in g.nodes.at && u != f.info.key && Conflict(g.nodes.at[u], f)
    ensures u in Resolved(g, pool, f).nodes.at && Resolved(g, pool, f).nodes.at[u].gate != f.gate
  {
    hide Graph.Valid, Graphs.ProcessEvent, Enough, Moves, Resolve;
    var a, k := ProcessEvent(g, f), f.info.key;
    ProcessEventValid(g, f);
    MessageFlight(g, f);
    KeptNode(g, f, u);
    ProcessEventEdge(g, f, k, u);
    ClashMoves(a, pool, k, u);
    MovedToUnused(a, pool, u, k);
  }

  lemma KeptNode(g: Graph, f: Flight, u: Key)
    requires u in g.nodes.at && u != f.info.key
    ensures u in ProcessEvent(g, f).nodes.at && ProcessEvent(g, f).nodes.at[u] == g.nodes.at[u]
  {
  }

  /** So was the flight itself. */
  lemma SelfSentAway(g: Graph, pool: seq<string>, f: Flight, v: Key)
    requires g.Valid() && EnoughFor(g, pool, f) && v in g.nodes.at && v != f.info.key && Conflict(g.nodes.at[v], f)
    ensures f.info.key in Resolved(g, pool, f).nodes.at && Resolved(g, pool, f).nodes.at[f.info.key].gate != f.gate
  {
    hide Graph.Valid, Graphs.ProcessEvent, Enough, Moves, Resolve;
    var a, k := ProcessEvent(g, f), f.info.key;
    ProcessEventValid(g, f);
    MessageFlight(g, f);
    KeptNode(g, f, v);
    ProcessEventEdge(g, f, v, k);
    ClashMoves(a, pool, v, k);
    MovedToUnused(a, pool, k, k);
  }

  /** On no graph where the flight is already linked to all it conflicts with, and
      to someone, is a delivery that finds enough gates repeated without change. */
  lemma LinkedToAllFails(g: Graph, pool: seq<string>, f: Flight, v: Key)
    requires g.Valid() && EnoughFor(g, pool, f) && LinkedToAll(g, f)
    requires v in g.nodes.at && v != f.info.key && Conflict(g.nodes.at[v], f)
    ensures Handle(Handle(g, pool, f), pool, f) != Handle(g, pool, f)
  {
    hide Graph.Valid, EnoughFor, Resolved, Repeats, Propagation.Propagate, Supply, Settling.Settled;
    var r, h, k := Resolved(g, pool, f), Handle(g, pool, f), f.info.key;
    RedeliveryExact(g, pool, f);
    RepeatsAfterEnough(g, pool, f);
    PropagateInfo(r, k, f.delay);
    ResolvedKeys(g, pool, f);
    forall u | u in h.nodes.at && u != k ensures !Conflict(h.nodes.at[u], f) {
      if Conflict(g.nodes.at[u], f) {
        SentAway(g, pool, f, u);
      } else {
        NoNewConflict(g, pool, f, u);
      }
    }
    NoConflictEdges(h.nodes.at, h.nodes.order, f);
    SelfSentAway(g, pool, f, v);
  }

  lemma ResolvedKeys(g: Graph, pool: seq<string>, f: Flight)
    requires g.Valid()
    ensures Resolved(g, pool, f).nodes.at.Keys == g.nodes.at.Keys + {f.info.key}
  {
    hide Graph.Valid, Resolve;
    ProcessEventValid(g, f);
    ResolveValid(ProcessEvent(g, f), pool);
  }

  lemma NoNewConflict(g: Graph, pool: seq<string>, f: Flight, u: Key)
    requires g.Valid() && u in g.nodes.at && u != f.info.key && !Conflict(g.nodes.at[u], f)
    ensures u in Resolved(g, pool, f).nodes.at && !Conflict(Resolved(g, pool, f).nodes.at[u], f)
  {
    hide Graph.Valid, Graphs.ProcessEvent, Moves, Resolve;
    var a := ProcessEvent(g, f);
    ProcessEventValid(g, f);
    MessageFlight(g, f);
    KeptNode(g, f, u);
    ResolveNode(a, pool, u);
    if Moved(Moves(a, pool), u) && Named(f.gate) {
      MovedToUnused(a, pool, u, f.info.key);
    }
  }

  lemma {:induction false} NoConflictEdges(at: map<Key, Flight>, order: seq<Key>, f: Flight)
    requires forall u :: u in order ==> u in at && (u != f.info.key ==> !Conflict(at[u], f))
    ensures ConflictEdges(at, order, f) == []
  {
    if order != [] {
      NoConflictEdges(at, order[1..], f);
    }
  }

  /** After a load, the event of the first of a group of conflicting rows is such
      a message. */
  lemma {:induction false} LoadedFails(fs: seq<Flight>, i: nat, j: nat, pool: seq<string>)
    requires DistinctKeys(fs) && i < j < |fs| && Conflict(fs[j], fs[i])
    requires forall m :: 0 <= m < i ==> !Conflict(fs[m], fs[i])
    requires LoadAll(EMPTY, fs).Valid() && EnoughFor(LoadAll(EMPTY, fs), pool, fs[i])
    ensures var g := LoadAll(EMPTY, fs);
      Handle(Handle(g, pool, fs[i]), pool, fs[i]) != Handle(g, pool, fs[i])
  {
    hide Graph.Valid, LoadAll, Handle, EnoughFor;
    var g, f := LoadAll(EMPTY, fs), fs[i];
    LoadNodes(fs);
    forall u | u in g.nodes.at && u != f.info.key && Conflict(g.nodes.at[u], f) ensures g.KindOf(f.info.key, u) == Some(GateReuse) {
      var m :| 0 <= m < |fs| && Keys(fs)[m] == u;
      LoadNodeAt(fs, m);
      LoadExact(fs, i, m);
      ConflictSymmetric(fs[m], f);
    }
    LoadNodeAt(fs, j);
    LinkedToAllFails(g, pool, f, fs[j].info.key);
  }

  lemma ConflictSymmetric(a: Flight, b: Flight)
    ensures Conflict(a, b) <==> Conflict(b, a)
  {
  }

  // ---- the smallest such run ----

  function AtGate(name: string): Flight {
    Flight(Info(Key(name), name, "AA", "1", "ORD", "LAX", None, 0, 1, None, Scheduled, None, 0), Some("G"), 0, Departure)
  }

  const PAIR: seq<Flight> := [AtGate("A"), AtGate("V")]

  lemma PairLoads()
    ensures DistinctKeys(PAIR) && Conflict(PAIR[1], PAIR[0]) && Conflict(PAIR[0], PAIR[1])
  {
    assert "A"[0] != "V"[0];
  }

  /** A graph of two flights has at most two edges, so two gates are enough. */
  lemma PairEnough(g: Graph, pool: seq<string>, a: Key, v: Key)
    requires g.Valid() && g.nodes.order == [a, v] && |Elements(pool) - UsedGates(g)| >= 2
    ensures Enough(g, pool)
  {
    hide UsedGates, ClashesIn;
    SupplySize(pool, UsedGates(g));
    OneOther(g, a, v);
    OneOther(g, v, a);
    OrderOf(g);
    assert [a, v][1..] == [v] && [v][1..] == [];
    assert EdgesFrom(g.adj, [v]) == RowEdges(v, g.Row(v)) + EdgesFrom(g.adj, []);
    assert Edges(g) == RowEdges(a, g.Row(a)) + EdgesFrom(g.adj, [v]);
  }

  lemma OneOther(g: Graph, a: Key, v: Key)
    requires g.Valid() && a in g.nodes.at && forall k :: k in g.nodes.at ==> k == a || k == v
    ensures |g.Row(a).order| <= 1
  {
    var row := g.Row(a);
    RowValid(g, a);
    OrderOf(g);
    assert row == g.adj[a];
    if |row.order| > 1 {
      TwoDiffer(row.order);
    }
    forall i | 0 <= i < |row.order| ensures row.order[i] == v {
      assert row.order[i] in row.order && g.HasEdge(a, row.order[i]);
      EdgeNodes(g, a, row.order[i]);
      NoSelfLoop(g, a, row.order[i]);
    }
  }

  lemma TwoDiffer(s: seq<Key>)
    requires NoDup(s) && |s| > 1
    ensures s[0] != s[1]
  {
  }

  /** Two conflicting flights are loaded and the first one's own event arrives, not
      even delayed: a second delivery moves it back. */
  lemma TwiceIsNotOnceAfterLoad()
    ensures EMPTY.Valid()
    ensures var pool := ["X1", "X2"];
      var g := RunOps(EMPTY, pool, [Load(PAIR)]);
      Handle(Handle(g, pool, PAIR[0]), pool, PAIR[0]) != Handle(g, pool, PAIR[0])
  {
    hide Graph.Valid, LoadAll, Handle, RunOps, Resolved, Graphs.ProcessEvent, Conflict;
    var pool := ["X1", "X2"];
    EmptySafe();
    LastOp(pool, [], Load(PAIR));
    assert [] + [Load(PAIR)] == [Load(PAIR)];
    RunNothing(pool);
    PairLoads();
    LoadValid(EMPTY, PAIR);
    LoadNodes(PAIR);
    LoadNodeAt(PAIR, 0);
    LoadNodeAt(PAIR, 1);
    PairArrives(LoadAll(EMPTY, PAIR), pool);
    LoadedFails(PAIR, 0, 1, pool);
  }

  lemma {:induction false} RunNothing(pool: seq<string>)
    requires EMPTY.Valid()
    ensures RunOps(EMPTY, pool, []) == EMPTY
  {
  }

  lemma PairArrives(g: Graph, pool: seq<string>)
    requires g.Valid() && pool == ["X1", "X2"] && g.nodes.order == Keys(PAIR)
    requires Key("A") in g.nodes.at && Key("V") in g.nodes.at && g.nodes.at[Key("V")] == PAIR[1]
    ensures EnoughFor(g, pool, PAIR[0])
  {
    hide Enough, Graph.Valid, Graphs.ProcessEvent, UsedGates;
    var b := ProcessEvent(g, PAIR[0]);
    ProcessEventValid(g, PAIR[0]);
    PairNodes(g);
    OneGate(b);
    assert "X1"[0] != "G"[0] && "X2"[0] != "G"[0] && "X1"[1] != "X2"[1];
    assert pool[0] in Elements(pool) && pool[1] in Elements(pool);
    TwoElements(Elements(pool) - UsedGates(b), "X1", "X2");
    PairEnough(b, pool, Key("A"), Key("V"));
  }

  lemma PairNodes(g: Graph)
    requires g.Valid() && g.nodes.order == Keys(PAIR) && Key("A") in g.nodes.at && Key("V") in g.nodes.at && g.nodes.at[Key("V")] == PAIR[1]
    ensures ProcessEvent(g, PAIR[0]).nodes.order == [Key("A"), Key("V")]
    ensures forall k :: k in ProcessEvent(g, PAIR[0]).nodes.at ==> ProcessEvent(g, PAIR[0]).nodes.at[k].gate == Some("G")
  {
    hide Graphs.ProcessEvent, Conflict;
    OrderOf(g);
    MessageFlight(g, PAIR[0]);
    ArrivalNodes(g, PAIR[0]);
    forall k | k in ProcessEvent(g, PAIR[0]).nodes.at ensures ProcessEvent(g, PAIR[0]).nodes.at[k].gate == Some("G") {
      assert k in g.nodes.order;
    }
  }

  lemma ArrivalNodes(g: Graph, f: Flight)
    ensures ProcessEvent(g, f).nodes == g.nodes.Put(f.info.key, f)
  {
  }

  lemma OneGate(g: Graph)
    requires forall k :: k in g.nodes.at ==> g.nodes.at[k].gate == Some("G")
    ensures UsedGates(g) <= {"G"}
  {
  }

  lemma TwoElements(s: set<string>, x: string, y: string)
    requires x in s && y in s && x != y
    ensures |s| >= 2
  {
    assert |s - {x}| == |s| - 1 && |s - {x} - {y}| == |s| - 2;
  }
}

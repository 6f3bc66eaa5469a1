/** A message delivered twice: what the second handling changes. */
module Redelivery {
  import opened Flights
  import opened Dicts
  import opened Graphs
  import opened Gates
  import opened GateSupply
  import opened Propagation
  import opened Delays
  import opened ClosedForm
  import opened Settling
  import opened Steps

  // ---- rows ----

  /** Linking twice is linking once. */
  lemma LinkTwice(row: Dict<Kind>, a: Flight, b: Flight, f: Flight)
    requires a.info == b.info && a.gate == b.gate
    ensures LinkRow(LinkRow(row, a, f), b, f) == LinkRow(row, a, f)
  {
  }

  /** An edge taken away by resolving comes back on relinking and goes again. */
  lemma LinkDropped(row: Dict<Kind>, a: Flight, b: Flight, f: Flight)
    requires row.Valid()
    ensures LinkRow(LinkRow(row, a, f).Drop(f.info.key), b, f).Drop(f.info.key) == LinkRow(row, a, f).Drop(f.info.key)
  {
    hide LinkRow;
    LinkRowValid(row, a, f);
    LinkRow(row, a, f).DropValid(f.info.key);
    LinkThenDrop(LinkRow(row, a, f).Drop(f.info.key), b, f);
  }

  ghost predicate Sources(ms: seq<Move>, u: Key) {
    exists i :: 0 <= i < |ms| && ms[i].src == u
  }

  /** Moves to one flight from distinct neighbours each drop one edge. */
  lemma {:induction false} MovesRow(g: Graph, ms: seq<Move>, k: Key, u: Key)
    requires Applicable(g, ms) && u in g.adj
    requires forall i :: 0 <= i < |ms| ==> ms[i].dst == k
    requires forall i, j :: 0 <= i < j < |ms| ==> ms[i].src != ms[j].src
    ensures ApplyMoves(g, ms).adj[u] == if Sources(ms, u) then g.adj[u].Drop(k) else g.adj[u]
  {
    hide Dict.Drop;
    if ms != [] {
      var n := |ms| - 1;
      MovesRow(g, ms[..n], k, u);
      assert ms[n] in ms;
      assert Sources(ms, u) <==> Sources(ms[..n], u) || ms[n].src == u by {
        if Sources(ms[..n], u) {
          var i :| 0 <= i < n && ms[..n][i].src == u;
          assert ms[i].src == u;
        }
        if Sources(ms, u) && ms[n].src != u {
          var i :| 0 <= i < |ms| && ms[i].src == u;
          assert ms[..n][i].src == u;
        }
      }
    }
  }

  // ---- the conflicts of one arrival ----

  lemma {:induction false} ConflictEdgesAre(at: map<Key, Flight>, order: seq<Key>, f: Flight)
    requires NoDup(order) && forall u :: u in order ==> u in at
    ensures forall e :: e in ConflictEdges(at, order, f) <==>
              e.src in order && e.src != f.info.key && Conflict(at[e.src], f) && e == Edge(e.src, f.info.key, GateReuse)
    ensures forall i, j :: 0 <= i < j < |ConflictEdges(at, order, f)| ==>
              ConflictEdges(at, order, f)[i].src != ConflictEdges(at, order, f)[j].src
  {
    if order != [] {
      ConflictEdgesAre(at, order[1..], f);
      var rest := ConflictEdges(at, order[1..], f);
      assert forall e :: e in rest ==> e.src in order[1..];
    }
  }

  lemma {:induction false} SameConflictEdges(at: map<Key, Flight>, bt: map<Key, Flight>, order: seq<Key>, f: Flight)
    requires forall u :: u in order ==> u in at && u in bt
    requires forall u :: u in order && u != f.info.key ==> at[u].info == bt[u].info && at[u].gate == bt[u].gate
    ensures ConflictEdges(at, order, f) == ConflictEdges(bt, order, f)
  {
    if order != [] {
      SameConflictEdges(at, bt, order[1..], f);
    }
  }

  /** What the moves of one arrival look like when nothing was outstanding. */
  lemma ArrivalMoves(g: Graph, pool: seq<string>, f: Flight)
    requires g.Valid() && ReuseOnlyInto(g, f)
    ensures ProcessEvent(g, f).Valid()
    ensures var h, ms := ProcessEvent(g, f), Moves(ProcessEvent(g, f), pool);
      && (forall i :: 0 <= i < |ms| ==> ms[i].dst == f.info.key && ms[i].src != f.info.key
                                        && ms[i].src in g.nodes.at && Conflict(g.nodes.at[ms[i].src], f))
      && (forall i, j :: 0 <= i < j < |ms| ==> ms[i].src != ms[j].src)
  {
    hide UsedGates, Supply, Graph.Valid, Conflict, ReuseOnlyInto;
    ArrivalClashes(g, f);
    var h := ProcessEvent(g, f);
    OrderOf(h);
    ConflictEdgesAre(h.nodes.at, h.nodes.order, f);
    var cs := ConflictEdges(h.nodes.at, h.nodes.order, f);
    forall i | 0 <= i < |Moves(h, pool)|
      ensures var m := Moves(h, pool)[i];
        m.dst == f.info.key && m.src != f.info.key && m.src in g.nodes.at && Conflict(g.nodes.at[m.src], f)
    {
      assert cs[i] in cs;
    }
  }

  lemma OrderOf(g: Graph)
    requires g.Valid()
    ensures NoDup(g.nodes.order) && forall u :: u in g.nodes.order <==> u in g.nodes.at
    ensures g.adj.Keys == g.nodes.at.Keys
  {
  }

  /** `h` is `g` after the event was resolved, up to delays of other flights. */
  ghost predicate Settles(g: Graph, pool: seq<string>, f: Flight, h: Graph)
    requires g.Valid()
  {
    var r := Resolved(g, pool, f);
    && SameGates(r, h) && h.nodes.order == r.nodes.order
    && h.nodes.at[f.info.key] == r.nodes.at[f.info.key]
  }

  /** What handling does to the nodes and rows of a graph with nothing
      outstanding. */
  lemma {:induction false} ResolvedNode(g: Graph, pool: seq<string>, f: Flight, u: Key)
    requires g.Valid() && ReuseOnlyInto(g, f) && u in Resolved(g, pool, f).nodes.at
    ensures ProcessEvent(g, f).Valid()
    ensures var ms := Moves(ProcessEvent(g, f), pool);
      Resolved(g, pool, f).nodes.at[u] ==
      if u == f.info.key then f.(gate := GateAfter(ms, u, f.gate)) else ProcessEvent(g, f).nodes.at[u]
  {
    hide Resolve, Moves, Graph.Valid, GateAfter, ReuseOnlyInto;
    ArrivalMoves(g, pool, f);
    ResolveValid(ProcessEvent(g, f), pool);
    ResolveNode(ProcessEvent(g, f), pool, u);
  }

  lemma ResolvedRow(g: Graph, pool: seq<string>, f: Flight, u: Key)
    requires g.Valid() && ReuseOnlyInto(g, f) && u in ProcessEvent(g, f).adj
    ensures ProcessEvent(g, f).Valid() && u in Resolved(g, pool, f).adj
    ensures Resolved(g, pool, f).adj[u] ==
            if Sources(Moves(ProcessEvent(g, f), pool), u) then ProcessEvent(g, f).adj[u].Drop(f.info.key)
            else ProcessEvent(g, f).adj[u]
  {
    hide Moves, Graph.Valid, ReuseOnlyInto, Graphs.ProcessEvent, Dict.Drop;
    ArrivalMoves(g, pool, f);
    MovesApplicable(ProcessEvent(g, f), pool);
    MovesRow(ProcessEvent(g, f), Moves(ProcessEvent(g, f), pool), f.info.key, u);
  }

  // ---- the second delivery ----

  /** Other flights keep gate and window through the first delivery. */
  lemma OthersKept(g: Graph, pool: seq<string>, f: Flight, h: Graph, u: Key)
    requires g.Valid() && ReuseOnlyInto(g, f) && Settles(g, pool, f, h) && u != f.info.key
    ensures u in h.nodes.at <==> u in g.nodes.at
    ensures u in g.nodes.at ==> h.nodes.at[u].info == g.nodes.at[u].info && h.nodes.at[u].gate == g.nodes.at[u].gate
  {
    hide Resolve, Moves, Graph.Valid, GateAfter, ReuseOnlyInto;
    ProcessEventValid(g, f);
    ResolveValid(ProcessEvent(g, f), pool);
    if u in g.nodes.at {
      ResolvedNode(g, pool, f, u);
    }
  }

  lemma SameMeet(g: Graph, pool: seq<string>, f: Flight, h: Graph, u: Key, v: Key)
    requires g.Valid() && ReuseOnlyInto(g, f) && Settles(g, pool, f, h)
    ensures Meet(h, f, u, v) <==> Meet(g, f, u, v)
  {
    hide Graph.Valid, ReuseOnlyInto, Settles;
    if u != f.info.key {
      OthersKept(g, pool, f, h, u);
    }
    if v != f.info.key {
      OthersKept(g, pool, f, h, v);
    }
  }

  lemma StillOnlyInto(g: Graph, pool: seq<string>, f: Flight, h: Graph)
    requires g.Valid() && ReuseOnlyInto(g, f) && Settles(g, pool, f, h)
    ensures ReuseOnlyInto(h, f)
  {
    hide Resolve, Moves, Graph.Valid, Graphs.ProcessEvent, Clashes, Meet;
    ProcessEventValid(g, f);
    forall u, v | h.KindOf(u, v) == Some(GateReuse) && Meet(h, f, u, v)
      ensures v == f.info.key && u in h.nodes.at && Conflict(h.nodes.at[u], f)
    {
      assert Resolved(g, pool, f).KindOf(u, v) == Some(GateReuse);
      SameMeet(g, pool, f, h, u, v);
      DroppedExactly(ProcessEvent(g, f), pool, u, v);
      ProcessEventEdge(g, f, u, v);
      NoSelfLoop(ProcessEvent(g, f), u, v);
      OthersKept(g, pool, f, h, u);
    }
  }

  lemma NoSelfLoop(g: Graph, u: Key, v: Key)
    requires g.Valid() && g.HasEdge(u, v)
    ensures u != v
  {
  }

  lemma SameUsed(g: Graph, h: Graph)
    requires g.nodes.at.Keys == h.nodes.at.Keys
    requires forall k :: k in g.nodes.at ==> g.nodes.at[k].gate == h.nodes.at[k].gate
    ensures UsedGates(g) == UsedGates(h)
  {
  }

  /** After the second arrival the graph looks as after the first, seen by gates
      and windows. */
  lemma SameArrival(g: Graph, pool: seq<string>, f: Flight, h: Graph, u: Key)
    requires g.Valid() && ReuseOnlyInto(g, f) && Settles(g, pool, f, h)
    ensures var a, b := ProcessEvent(g, f).nodes, ProcessEvent(h, f).nodes;
      && (u in a.at <==> u in b.at)
      && (u in a.at ==> a.at[u].info == b.at[u].info && a.at[u].gate == b.at[u].gate)
  {
    hide Settles, Graph.Valid, ReuseOnlyInto, LinkRow;
    if u != f.info.key {
      OthersKept(g, pool, f, h, u);
    }
  }

  lemma SameOrder(g: Graph, pool: seq<string>, f: Flight, h: Graph)
    requires g.Valid() && Settles(g, pool, f, h)
    ensures ProcessEvent(g, f).Valid() && f.info.key in h.nodes.at
    ensures h.nodes.order == ProcessEvent(g, f).nodes.order == ProcessEvent(h, f).nodes.order
  {
    hide Resolve, Graph.Valid, LinkRow;
    ProcessEventValid(g, f);
    ResolveValid(ProcessEvent(g, f), pool);
  }

  lemma SameMoves(g: Graph, pool: seq<string>, f: Flight, h: Graph)
    requires g.Valid() && ReuseOnlyInto(g, f) && h.Valid() && Settles(g, pool, f, h)
    ensures ProcessEvent(g, f).Valid() && ProcessEvent(h, f).Valid()
    ensures Moves(ProcessEvent(h, f), pool) == Moves(ProcessEvent(g, f), pool)
  {
    hide Settles, Graph.Valid, ReuseOnlyInto, Graphs.ProcessEvent, Clashes, UsedGates, Supply;
    StillOnlyInto(g, pool, f, h);
    ArrivalClashes(g, f);
    ArrivalClashes(h, f);
    SameOrder(g, pool, f, h);
    var a, b := ProcessEvent(g, f), ProcessEvent(h, f);
    OrderOf(a);
    OrderOf(b);
    forall u | u in a.nodes.at ensures a.nodes.at[u].info == b.nodes.at[u].info && a.nodes.at[u].gate == b.nodes.at[u].gate {
      SameArrival(g, pool, f, h, u);
    }
    SameConflictEdges(a.nodes.at, b.nodes.at, a.nodes.order, f);
    SameUsed(a, b);
  }

  lemma SecondNode(g: Graph, pool: seq<string>, f: Flight, h: Graph, u: Key)
    requires g.Valid() && ReuseOnlyInto(g, f) && h.Valid() && Settles(g, pool, f, h) && u in h.nodes.at
    ensures u in Resolved(h, pool, f).nodes.at && Resolved(h, pool, f).nodes.at[u] == h.nodes.at[u]
  {
    hide Graph.Valid, ReuseOnlyInto, Moves, Resolve, LinkRow, GateAfter;
    StillOnlyInto(g, pool, f, h);
    SameMoves(g, pool, f, h);
    ResolveValid(ProcessEvent(h, f), pool);
    ResolvedNode(h, pool, f, u);
    if u == f.info.key {
      ResolvedNode(g, pool, f, u);
    }
  }

  lemma SecondRow(g: Graph, pool: seq<string>, f: Flight, h: Graph, u: Key)
    requires g.Valid() && ReuseOnlyInto(g, f) && h.Valid() && Settles(g, pool, f, h) && u in h.adj
    ensures u in Resolved(h, pool, f).adj && Resolved(h, pool, f).adj[u] == h.adj[u]
  {
    hide Graph.Valid, ReuseOnlyInto, Moves, Resolve, LinkRow, Dict.Drop, Conflict;
    StillOnlyInto(g, pool, f, h);
    SameMoves(g, pool, f, h);
    var k, ms := f.info.key, Moves(ProcessEvent(g, f), pool);
    OrderOf(h);
    OrderOf(g);
    ArrivalMoves(g, pool, f);
    RowSeen(g, pool, f, h, u);
    ResolvedRow(g, pool, f, u);
    ResolvedRow(h, pool, f, u);
    if u != k {
      OthersKept(g, pool, f, h, u);
      var a, b := g.nodes.at[u], h.nodes.at[u];
      if Sources(ms, u) {
        var i :| 0 <= i < |ms| && ms[i].src == u;
        RowValid(g, u);
        LinkDropped(g.Row(u), a, b, f);
      } else {
        LinkTwice(g.Row(u), a, b, f);
      }
    }
  }

  lemma RowValid(g: Graph, u: Key)
    requires g.Valid() && u in g.adj
    ensures g.Row(u).Valid()
  {
  }

  lemma RowSeen(g: Graph, pool: seq<string>, f: Flight, h: Graph, u: Key)
    requires g.Valid() && h.Valid() && Settles(g, pool, f, h) && u in h.adj
    ensures u in ProcessEvent(g, f).adj && u in ProcessEvent(h, f).adj && h.adj[u] == Resolved(g, pool, f).adj[u]
  {
    hide Graph.Valid, Resolve, LinkRow;
    ProcessEventValid(g, f);
    OrderOf(ProcessEvent(g, f));
    ResolveValid(ProcessEvent(g, f), pool);
    OrderOf(Resolved(g, pool, f));
    OrderOf(h);
  }

  /** Resolving the same event again changes nothing, not even an edge's place. */
  lemma ResolvedAgain(g: Graph, pool: seq<string>, f: Flight, h: Graph)
    requires g.Valid() && ReuseOnlyInto(g, f) && h.Valid() && Settles(g, pool, f, h)
    ensures Resolved(h, pool, f) == h
  {
    hide Settles, Graph.Valid, ReuseOnlyInto, Graphs.ProcessEvent, Resolve;
    var r := Resolved(h, pool, f);
    SameOrder(g, pool, f, h);
    ProcessEventValid(h, f);
    ResolveValid(ProcessEvent(h, f), pool);
    OrderOf(h);
    OrderOf(r);
    forall u | u in h.nodes.at ensures u in r.nodes.at && r.nodes.at[u] == h.nodes.at[u] {
      SecondNode(g, pool, f, h, u);
    }
    forall u | u in h.adj ensures u in r.adj && r.adj[u] == h.adj[u] {
      SecondRow(g, pool, f, h, u);
    }
    SameKeys(r, h);
    assert r.nodes.at == h.nodes.at;
    assert r.adj == h.adj;
  }

  lemma SameKeys(a: Graph, b: Graph)
    requires a.Valid() && b.Valid() && a.nodes.order == b.nodes.order
    ensures a.nodes.at.Keys == b.nodes.at.Keys && a.adj.Keys == b.adj.Keys
  {
  }

  /** Handling an event propagates only delays of other flights. */
  lemma HandleSettles(g: Graph, pool: seq<string>, f: Flight)
    requires g.Valid()
    ensures Settles(g, pool, f, Handle(g, pool, f))
  {
    hide Graph.Valid, Propagate, Resolve, LinkRow;
    var r, k := Resolved(g, pool, f), f.info.key;
    ProcessEventValid(g, f);
    ResolveValid(ProcessEvent(g, f), pool);
    PropagateInfo(r, k, f.delay);
    var bound := BoundExists(r, k, f.delay);
    PropagationBounds(r, k, f.delay, bound, k);
  }

  // ---- when resolving again changes nothing, on any graph ----

  /** The graph holds the event, but perhaps with another gate. */
  ghost predicate HoldsEvent(h: Graph, f: Flight) {
    f.info.key in h.nodes.at && h.nodes.at[f.info.key] == f.(gate := h.nodes.at[f.info.key].gate)
  }

  /** What must be true of a graph that already holds the event `f`, so that its
      arriving again and one more resolve call change nothing: the clashing edges
      that get a gate are all new edges into the flight, the last of those gates
      (or with none of them the gate of the message) is the one the flight has,
      and every other flight that conflicts with it at the gate of the message, or
      shares just its aircraft, is already linked to it that way. */
  ghost predicate Repeats(h: Graph, pool: seq<string>, f: Flight)
    requires h.Valid() && HoldsEvent(h, f)
  {
    ProcessEventValid(h, f);
    var k, b := f.info.key, ProcessEvent(h, f);
    var cs, free := Clashes(b), Supply(pool, UsedGates(b));
    var n := Min(|cs|, |free|);
    && (forall i :: 0 <= i < n ==> cs[i].dst == k && !h.HasEdge(cs[i].src, k))
    && h.nodes.at[k].gate == (if n == 0 then f.gate else Some(free[n - 1]))
    && (forall u :: u in h.nodes.at && u != k && Conflict(h.nodes.at[u], f) ==>
          h.KindOf(u, k) == Some(GateReuse) || Edge(u, k, GateReuse) in cs[..n])
    && (forall u :: u in h.nodes.at && u != k && SameAircraft(h.nodes.at[u], f) && !Conflict(h.nodes.at[u], f) ==>
          h.KindOf(u, k) == Some(AircraftTurn))
  }

  /** The gate the flight gets when all moves are its own. */
  lemma {:induction false} LastGate(ms: seq<Move>, k: Key, gate: Option<string>)
    requires forall i :: 0 <= i < |ms| ==> ms[i].dst == k
    ensures GateAfter(ms, k, gate) == if ms == [] then gate else Some(ms[|ms| - 1].gate)
  {
  }

  lemma RepeatNeeds(h: Graph, pool: seq<string>, f: Flight)
    requires h.Valid() && HoldsEvent(h, f) && Resolved(h, pool, f) == h
    ensures Repeats(h, pool, f)
  {
    hide Graph.Valid, Graphs.ProcessEvent, Resolve, UsedGates, Supply, Clashes, Conflict, SameAircraft;
    ProcessEventValid(h, f);
    var k, b := f.info.key, ProcessEvent(h, f);
    var cs, ms := Clashes(b), Moves(b, pool);
    forall i | 0 <= i < |ms| ensures cs[i].dst == k && !h.HasEdge(cs[i].src, k) && ms[i].dst == k {
      assert cs[..|ms|][i] == cs[i];
      ClashKind(b, i);
      DroppedExactly(b, pool, cs[i].src, cs[i].dst);
      ProcessEventEdge(h, f, cs[i].src, cs[i].dst);
    }
    MessageFlight(h, f);
    ResolveNode(b, pool, k);
    LastGate(ms, k, f.gate);
    forall u | u in h.nodes.at && u != k
      ensures Conflict(h.nodes.at[u], f) ==> h.KindOf(u, k) == Some(GateReuse) || Edge(u, k, GateReuse) in cs[..|ms|]
      ensures SameAircraft(h.nodes.at[u], f) && !Conflict(h.nodes.at[u], f) ==> h.KindOf(u, k) == Some(AircraftTurn)
    {
      ProcessEventEdge(h, f, u, k);
      DroppedExactly(b, pool, u, k);
      if SameAircraft(h.nodes.at[u], f) && !Conflict(h.nodes.at[u], f) {
        OnlyClashesDrop(b, pool, u, k);
      }
    }
  }

  lemma MessageFlight(h: Graph, f: Flight)
    ensures f.info.key in ProcessEvent(h, f).nodes.at && ProcessEvent(h, f).nodes.at[f.info.key] == f
  {
  }

  lemma ClashKind(g: Graph, i: nat)
    requires g.Valid() && i < |Clashes(g)|
    ensures Clashes(g)[i].kind == GateReuse && Edge(Clashes(g)[i].src, Clashes(g)[i].dst, GateReuse) == Clashes(g)[i]
    ensures g.KindOf(Clashes(g)[i].src, Clashes(g)[i].dst) == Some(GateReuse)
  {
    assert Clashes(g)[i] in Clashes(g);
    EdgesMember(g, Clashes(g)[i]);
  }

  lemma OnlyClashesDrop(g: Graph, pool: seq<string>, u: Key, v: Key)
    requires g.Valid() && g.KindOf(u, v) == Some(AircraftTurn)
    ensures Edge(u, v, GateReuse) !in Clashes(g)[..|Moves(g, pool)|]
  {
    hide Graph.Valid, Clashes, Graph.KindOf;
    if Edge(u, v, GateReuse) in Clashes(g)[..|Moves(g, pool)|] {
      var i :| 0 <= i < |Moves(g, pool)| && Clashes(g)[i] == Edge(u, v, GateReuse);
      ClashKind(g, i);
    }
  }

  // ---- and conversely ----

  /** A new edge that is linked and dropped leaves its row as it was. */
  lemma LinkThenDrop(row: Dict<Kind>, a: Flight, f: Flight)
    requires row.Valid() && f.info.key !in row.at
    ensures LinkRow(row, a, f).Drop(f.info.key) == row
  {
    hide LinkRow, Without;
    var k := f.info.key;
    LinkRowOrder(row, a, f);
    LinkRowAt(row, a, f);
    WithoutConcat(row.order, [k], k);
    WithoutNext([k], k);
    WithoutNext([], k);
  }

  lemma LinkRowAt(row: Dict<Kind>, a: Flight, f: Flight)
    requires row.Valid() && f.info.key !in row.at
    ensures LinkRow(row, a, f).at - {f.info.key} == row.at && f.info.key !in row.order
  {
  }

  /** An edge that is already there in the kind the link gives it stays as it is. */
  lemma LinkSame(row: Dict<Kind>, a: Flight, f: Flight)
    requires Conflict(a, f) ==> f.info.key in row.at && row.at[f.info.key] == GateReuse
    requires SameAircraft(a, f) && !Conflict(a, f) ==> f.info.key in row.at && row.at[f.info.key] == AircraftTurn
    ensures LinkRow(row, a, f) == row
  {
    hide Conflict, SameAircraft;
  }

  /** The moves into one flight come from distinct flights. */
  lemma DistinctSources(g: Graph, pool: seq<string>, k: Key)
    requires g.Valid() && forall i :: 0 <= i < |Moves(g, pool)| ==> Clashes(g)[i].dst == k
    ensures forall i, j :: 0 <= i < j < |Moves(g, pool)| ==> Moves(g, pool)[i].src != Moves(g, pool)[j].src
  {
    hide Graph.Valid, Clashes;
    ClashesNoDup(g);
    forall i, j | 0 <= i < j < |Moves(g, pool)| ensures Clashes(g)[i].src != Clashes(g)[j].src {
      ClashKind(g, i);
      ClashKind(g, j);
    }
  }

  lemma SourcesAre(g: Graph, pool: seq<string>, k: Key, u: Key)
    requires g.Valid() && forall i :: 0 <= i < |Moves(g, pool)| ==> Clashes(g)[i].dst == k
    ensures Sources(Moves(g, pool), u) <==> Edge(u, k, GateReuse) in Clashes(g)[..|Moves(g, pool)|]
  {
    hide Graph.Valid, Clashes;
    var cs, ms := Clashes(g), Moves(g, pool);
    if Sources(ms, u) {
      var i :| 0 <= i < |ms| && ms[i].src == u;
      ClashKind(g, i);
      assert cs[..|ms|][i] == Edge(u, k, GateReuse);
    }
    if Edge(u, k, GateReuse) in cs[..|ms|] {
      var i :| 0 <= i < |ms| && cs[..|ms|][i] == Edge(u, k, GateReuse);
      assert ms[i].src == u;
    }
  }

  lemma RepeatRow(h: Graph, pool: seq<string>, f: Flight, u: Key)
    requires h.Valid() && HoldsEvent(h, f) && Repeats(h, pool, f) && u in h.adj
    ensures u in Resolved(h, pool, f).adj && Resolved(h, pool, f).adj[u] == h.adj[u]
  {
    hide Graph.Valid, Resolve, UsedGates, Supply, Clashes, Conflict, SameAircraft, LinkRow, Dict.Drop;
    ProcessEventValid(h, f);
    var k, b := f.info.key, ProcessEvent(h, f);
    var ms := Moves(b, pool);
    MovesApplicable(b, pool);
    OrderOf(h);
    OrderOf(b);
    DistinctSources(b, pool, k);
    SourcesAre(b, pool, k, u);
    MovesRow(b, ms, k, u);
    RowValid(h, u);
    ResolveIs(b, pool);
    if u == k {
      NoSelfSource(b, pool, k);
    } else if Sources(ms, u) {
      var i :| 0 <= i < |ms| && ms[i].src == u;
      LinkThenDrop(h.Row(u), h.nodes.at[u], f);
    } else {
      LinkSame(h.Row(u), h.nodes.at[u], f);
    }
  }

  lemma {:induction false} ResolveIs(g: Graph, pool: seq<string>)
    requires g.Valid()
    ensures Applicable(g, Moves(g, pool)) && Resolve(g, pool) == ApplyMoves(g, Moves(g, pool))
  {
    MovesApplicable(g, pool);
  }

  lemma NoSelfSource(g: Graph, pool: seq<string>, k: Key)
    requires g.Valid() && forall i :: 0 <= i < |Moves(g, pool)| ==> Clashes(g)[i].dst == k
    ensures !Sources(Moves(g, pool), k)
  {
    hide Graph.Valid, Clashes;
    var ms := Moves(g, pool);
    if Sources(ms, k) {
      var i :| 0 <= i < |ms| && ms[i].src == k;
      ClashKind(g, i);
      NoSelfLoop(g, k, k);
    }
  }

  lemma RepeatNode(h: Graph, pool: seq<string>, f: Flight, u: Key)
    requires h.Valid() && HoldsEvent(h, f) && Repeats(h, pool, f) && u in h.nodes.at
    ensures u in Resolved(h, pool, f).nodes.at && Resolved(h, pool, f).nodes.at[u] == h.nodes.at[u]
  {
    hide Graph.Valid, Resolve, UsedGates, Supply, Clashes, Conflict, SameAircraft, Graphs.ProcessEvent;
    ProcessEventValid(h, f);
    ArrivedNode(h, f, u);
    ResolveNode(ProcessEvent(h, f), pool, u);
    LastGate(Moves(ProcessEvent(h, f), pool), f.info.key, f.gate);
  }

  lemma RepeatSuffices(h: Graph, pool: seq<string>, f: Flight)
    requires h.Valid() && HoldsEvent(h, f) && Repeats(h, pool, f)
    ensures Resolved(h, pool, f) == h
  {
    hide Graph.Valid, Resolved, Repeats;
    var r := Resolved(h, pool, f);
    ResolvedOrder(h, pool, f);
    OrderOf(h);
    forall u | u in h.nodes.at ensures u in r.nodes.at && r.nodes.at[u] == h.nodes.at[u] {
      RepeatNode(h, pool, f, u);
    }
    forall u | u in h.adj ensures u in r.adj && r.adj[u] == h.adj[u] {
      RepeatRow(h, pool, f, u);
    }
    SameKeys(r, h);
    assert r.nodes.at == h.nodes.at && r.adj == h.adj;
  }

  lemma ResolvedOrder(h: Graph, pool: seq<string>, f: Flight)
    requires h.Valid() && HoldsEvent(h, f)
    ensures Resolved(h, pool, f).nodes.order == h.nodes.order
  {
    hide Graph.Valid, Resolve;
    ProcessEventValid(h, f);
    ResolveValid(ProcessEvent(h, f), pool);
  }

  /** On any graph that holds the event, inserting and resolving it again changes
      nothing exactly when the graph repeats. */
  lemma RepeatExact(h: Graph, pool: seq<string>, f: Flight)
    requires h.Valid() && HoldsEvent(h, f)
    ensures Resolved(h, pool, f) == h <==> Repeats(h, pool, f)
  {
    hide Graph.Valid, Resolved, Repeats;
    if Resolved(h, pool, f) == h {
      RepeatNeeds(h, pool, f);
    }
    if Repeats(h, pool, f) {
      RepeatSuffices(h, pool, f);
    }
  }

  // ---- the second delivery, in full ----

  lemma HandleHolds(g: Graph, pool: seq<string>, f: Flight)
    requires g.Valid()
    ensures HoldsEvent(Handle(g, pool, f), f)
  {
    hide Graph.Valid, Handle, Resolve, Graphs.ProcessEvent;
    HandleSettles(g, pool, f);
    ProcessEventValid(g, f);
    MessageFlight(g, f);
    ResolveNode(ProcessEvent(g, f), pool, f.info.key);
  }

  /** A propagation cannot undo what resolving changed. */
  lemma HandledSame(h: Graph, pool: seq<string>, f: Flight)
    requires h.Valid() && HoldsEvent(h, f) && Handle(h, pool, f) == h
    ensures Resolved(h, pool, f) == h
  {
    hide Graph.Valid, Resolve, Propagate, Graphs.ProcessEvent;
    var b, r := ProcessEvent(h, f), Resolved(h, pool, f);
    ProcessEventValid(h, f);
    ResolveValid(b, pool);
    PropagateInfo(r, f.info.key, f.delay);
    forall u | u in h.nodes.at ensures u in r.nodes.at && r.nodes.at[u] == h.nodes.at[u] {
      ArrivedNode(h, f, u);
      ResolveNode(b, pool, u);
    }
    assert r.nodes.at == h.nodes.at;
  }

  lemma ArrivedNode(h: Graph, f: Flight, u: Key)
    requires HoldsEvent(h, f) && u in h.nodes.at
    ensures u in ProcessEvent(h, f).nodes.at
    ensures ProcessEvent(h, f).nodes.at[u] == if u == f.info.key then f else h.nodes.at[u]
    ensures h.nodes.at[u] == ProcessEvent(h, f).nodes.at[u].(gate := h.nodes.at[u].gate)
  {
  }

  /** On any graph whatever, a redelivered message leaves what one delivery left
      exactly when the graph it meets repeats, for the gates and edges, and is
      settled for it if it carries a delay. */
  lemma RedeliveryExact(g: Graph, pool: seq<string>, f: Flight)
    requires g.Valid()
    ensures HoldsEvent(Handle(g, pool, f), f) && Closed(Handle(g, pool, f))
    ensures Handle(Handle(g, pool, f), pool, f) == Handle(g, pool, f)
            <==> Repeats(Handle(g, pool, f), pool, f)
                 && (f.delay == 0 || Settled(Handle(g, pool, f), f.info.key, f.delay))
  {
    hide Graph.Valid, Resolved, Propagate, Settled, Repeats;
    var once := Handle(g, pool, f);
    HandleHolds(g, pool, f);
    RepeatExact(once, pool, f);
    QuietIffSettled(once, f.info.key, f.delay);
    if Handle(once, pool, f) == once {
      HandledSame(once, pool, f);
    }
  }

  /** When every outstanding gate_reuse edge was a live conflict with the event,
      in particular when there was none, the graph repeats. */
  lemma LinkedRepeats(g: Graph, pool: seq<string>, f: Flight)
    requires g.Valid() && ReuseOnlyInto(g, f)
    ensures HoldsEvent(Handle(g, pool, f), f) && Repeats(Handle(g, pool, f), pool, f)
  {
    hide Graph.Valid, Handle, Resolved, Repeats, ReuseOnlyInto, Settles;
    HandleSettles(g, pool, f);
    HandleHolds(g, pool, f);
    ResolvedAgain(g, pool, f, Handle(g, pool, f));
    RepeatExact(Handle(g, pool, f), pool, f);
  }

  /** If moreover no flight had more delay than its distance from the source would
      give it, the second delivery changes nothing. */
  lemma RedeliveryDominated(g: Graph, pool: seq<string>, f: Flight)
    requires g.Valid() && ReuseOnlyInto(g, f) && Dominated(Resolved(g, pool, f), f.info.key, f.delay)
    ensures Handle(Handle(g, pool, f), pool, f) == Handle(g, pool, f)
  {
    hide Graph.Valid, Resolved, Propagate, Settled, Dominated, Repeats, ReuseOnlyInto;
    RedeliveryExact(g, pool, f);
    LinkedRepeats(g, pool, f);
    DominatedSettles(Resolved(g, pool, f), f.info.key, f.delay);
  }

  // ---- after a first delivery that found enough gates ----

  /** Nothing clashes in the graph the second delivery meets. */
  lemma NothingOutstanding(g: Graph, pool: seq<string>, f: Flight)
    requires g.Valid() && EnoughFor(g, pool, f)
    ensures ReuseOnlyInto(Handle(g, pool, f), f) && NoClashLeft(Handle(g, pool, f))
  {
    hide Graph.Valid, Resolve, Propagate, Graphs.ProcessEvent, Enough, NoClashLeft;
    var r, h := Resolved(g, pool, f), Handle(g, pool, f);
    ProcessEventValid(g, f);
    EnoughLeavesNone(ProcessEvent(g, f), pool);
    PropagateInfo(r, f.info.key, f.delay);
    SameGatesSafe(r, h);
    HandleHolds(g, pool, f);
    NoClashNoReuse(h, f);
  }

  lemma NoClashNoReuse(h: Graph, f: Flight)
    requires NoClashLeft(h) && HoldsEvent(h, f)
    ensures ReuseOnlyInto(h, f)
  {
  }

  /** Who still conflicts with the event at the gate of the message was not moved,
      and its edge was resolved. */
  lemma ConflictUnlinked(g: Graph, pool: seq<string>, f: Flight, u: Key)
    requires g.Valid() && EnoughFor(g, pool, f)
    requires u in Handle(g, pool, f).nodes.at && u != f.info.key && Conflict(Handle(g, pool, f).nodes.at[u], f)
    ensures Handle(g, pool, f).KindOf(u, f.info.key) == None
  {
    hide Graph.Valid, Resolve, Propagate, Graphs.ProcessEvent, Enough, Moves;
    var a, r, h := ProcessEvent(g, f), Resolved(g, pool, f), Handle(g, pool, f);
    ProcessEventValid(g, f);
    ResolveValid(a, pool);
    PropagateInfo(r, f.info.key, f.delay);
    MessageFlight(g, f);
    ResolveNode(a, pool, u);
    if Moved(Moves(a, pool), u) {
      MovedToUnused(a, pool, u, f.info.key);
    }
    OldNode(g, f, u);
    ProcessEventEdge(g, f, u, f.info.key);
    EnoughDrops(a, pool, u, f.info.key);
    assert h.KindOf(u, f.info.key) == r.KindOf(u, f.info.key);
  }

  lemma OldNode(g: Graph, f: Flight, u: Key)
    requires u in ProcessEvent(g, f).nodes.at && u != f.info.key
    ensures u in g.nodes.at && ProcessEvent(g, f).nodes.at[u] == g.nodes.at[u]
  {
  }

  /** A moved flight does not end at a gate that was in use. */
  lemma MovedToUnused(g: Graph, pool: seq<string>, u: Key, v: Key)
    requires g.Valid() && u in g.nodes.at && v in g.nodes.at && Moved(Moves(g, pool), u) && Named(g.nodes.at[v].gate)
    ensures u in Resolve(g, pool).nodes.at && Resolve(g, pool).nodes.at[u].gate != g.nodes.at[v].gate
  {
    hide Graph.Valid, Resolve, Moves;
    ResolveNode(g, pool, u);
    var i := LastMove(Moves(g, pool), u, g.nodes.at[u].gate);
    assert Supply(pool, UsedGates(g))[i] in Supply(pool, UsedGates(g));
  }

  lemma {:induction false} ConflictsAgain(h: Graph, f: Flight)
    requires h.Valid() && HoldsEvent(h, f) && ReuseOnlyInto(h, f)
    ensures ProcessEvent(h, f).Valid() && forall u :: u in h.nodes.order ==> u in h.nodes.at
    ensures Clashes(ProcessEvent(h, f)) == ConflictEdges(h.nodes.at, h.nodes.order, f)
  {
    hide Graph.Valid, Clashes;
    ArrivalClashes(h, f);
    OrderOf(h);
    SameConflictEdges(ProcessEvent(h, f).nodes.at, h.nodes.at, h.nodes.order, f);
  }

  /** After a first delivery that found enough gates, the graph repeats exactly
      when there are free gates for all flights that still conflict with the event
      at the gate of the message, the last of those gates (or, with no such flight,
      the gate of the message) is the one it has, and whoever shares just its
      aircraft is linked to it. */
  lemma {:induction false} RepeatsAfterEnough(g: Graph, pool: seq<string>, f: Flight)
    requires g.Valid() && EnoughFor(g, pool, f)
    ensures HoldsEvent(Handle(g, pool, f), f) && forall u :: u in Handle(g, pool, f).nodes.order ==> u in Handle(g, pool, f).nodes.at
    ensures var h, k := Handle(g, pool, f), f.info.key;
      var cs, free := ConflictEdges(h.nodes.at, h.nodes.order, f), Supply(pool, UsedGates(ProcessEvent(h, f)));
      Repeats(h, pool, f) <==>
        && |cs| <= |free|
        && h.nodes.at[k].gate == (if cs == [] then f.gate else Some(free[|cs| - 1]))
        && (forall u :: u in h.nodes.at && u != k && SameAircraft(h.nodes.at[u], f) && !Conflict(h.nodes.at[u], f) ==>
              h.KindOf(u, k) == Some(AircraftTurn))
  {
    hide Graph.Valid, Handle, Graphs.ProcessEvent, Supply, UsedGates, Clashes, EnoughFor, Conflict, SameAircraft, ReuseOnlyInto;
    var h, k := Handle(g, pool, f), f.info.key;
    HandleHolds(g, pool, f);
    NothingOutstanding(g, pool, f);
    ConflictsAgain(h, f);
    OrderOf(h);
    ConflictEdgesAre(h.nodes.at, h.nodes.order, f);
    var cs, free := ConflictEdges(h.nodes.at, h.nodes.order, f), Supply(pool, UsedGates(ProcessEvent(h, f)));
    forall i | 0 <= i < |cs| ensures h.KindOf(cs[i].src, k) == None && cs[i].dst == k {
      assert cs[i] in cs;
      ConflictUnlinked(g, pool, f, cs[i].src);
    }
    ConflictsFirst(h, f, Min(|cs|, |free|));
  }

  /** All of the flights still in conflict are among the first `n` exactly when
      there are no more than `n` of them. */
  lemma {:induction false} ConflictsFirst(h: Graph, f: Flight, n: nat)
    requires NoDup(h.nodes.order) && forall u :: u in h.nodes.order <==> u in h.nodes.at
    requires n <= |ConflictEdges(h.nodes.at, h.nodes.order, f)|
    requires forall i :: 0 <= i < |ConflictEdges(h.nodes.at, h.nodes.order, f)| ==>
               h.KindOf(ConflictEdges(h.nodes.at, h.nodes.order, f)[i].src, f.info.key) == None
    ensures var k, cs := f.info.key, ConflictEdges(h.nodes.at, h.nodes.order, f);
      (forall u :: u in h.nodes.at && u != k && Conflict(h.nodes.at[u], f) ==>
         h.KindOf(u, k) == Some(GateReuse) || Edge(u, k, GateReuse) in cs[..n]) <==> n == |cs|
  {
    hide ConflictEdges, Conflict, Graph.KindOf;
    var k, cs := f.info.key, ConflictEdges(h.nodes.at, h.nodes.order, f);
    ConflictEdgesAre(h.nodes.at, h.nodes.order, f);
    if n == |cs| {
      assert cs[..n] == cs;
    } else {
      assert cs[n] in cs;
      assert forall i :: 0 <= i < n ==> cs[..n][i].src != cs[n].src;
    }
  }
}

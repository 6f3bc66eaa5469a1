/** How many gates one event can call for, and a pool that always has enough. */
module GateSupply {
  import opened Flights
  import opened Dicts
  import opened Graphs
  import opened Gates

  /** The edges along which the new flight `f` conflicts, in node order. */
  function ConflictEdges(at: map<Key, Flight>, order: seq<Key>, f: Flight): (es: seq<Edge>)
    requires forall u :: u in order ==> u in at
    ensures |es| <= |order|
  {
    if order == [] then []
    else (if order[0] != f.info.key && Conflict(at[order[0]], f)
          then [Edge(order[0], f.info.key, GateReuse)] else [])
         + ConflictEdges(at, order[1..], f)
  }

  /** The windows of the two flights meet once `f` has arrived. */
  ghost predicate Meet(g: Graph, f: Flight, u: Key, v: Key) {
    var at := g.nodes.at[f.info.key := f];
    u in at && v in at && Overlaps(at[u], at[v])
  }

  /** Once `f` has arrived, every outstanding gate_reuse edge between overlapping
      flights is a live conflict with it. */
  ghost predicate ReuseOnlyInto(g: Graph, f: Flight) {
    forall u, v :: g.KindOf(u, v) == Some(GateReuse) && Meet(g, f, u, v) ==>
      v == f.info.key && u in g.nodes.at && Conflict(g.nodes.at[u], f)
  }

  lemma {:induction false} NoClash(g: Graph, es: seq<Edge>)
    requires forall x :: x in es ==> !Clashing(g, x)
    ensures ClashesIn(g, es) == []
  {
    if es != [] {
      NoClash(g, es[..|es| - 1]);
    }
  }

  lemma {:induction false} OneClash(g: Graph, es: seq<Edge>, e: Edge)
    requires NoDup(es) && e in es
    requires forall x :: x in es ==> (Clashing(g, x) <==> x == e)
    ensures ClashesIn(g, es) == [e]
  {
    var n := |es| - 1;
    if es[n] == e {
      assert e !in es[..n];
      NoClash(g, es[..n]);
    } else {
      assert e in es[..n];
      OneClash(g, es[..n], e);
    }
  }

  /** After an arrival, the clashing edges of a row are its live conflict. */
  lemma ArrivalClashing(g: Graph, f: Flight, e: Edge)
    requires g.Valid() && ReuseOnlyInto(g, f) && e.src in ProcessEvent(g, f).nodes.at
    requires ProcessEvent(g, f).KindOf(e.src, e.dst) == Some(e.kind)
    ensures Clashing(ProcessEvent(g, f), e) <==>
            e.src != f.info.key && Conflict(ProcessEvent(g, f).nodes.at[e.src], f)
            && e == Edge(e.src, f.info.key, GateReuse)
  {
    ProcessEventEdge(g, f, e.src, e.dst);
  }

  /** The edges of a row are the graph's edges from its node, each once. */
  lemma RowEdgesAre(h: Graph, u: Key, x: Edge)
    requires h.Valid() && u in h.nodes.at
    ensures h.Row(u).Valid() && NoDup(RowEdges(u, h.Row(u)))
    ensures x in RowEdges(u, h.Row(u)) <==> x.src == u && h.KindOf(u, x.dst) == Some(x.kind)
  {
    var row := h.Row(u);
    if x.src == u && h.KindOf(u, x.dst) == Some(x.kind) {
      var i :| 0 <= i < |row.order| && row.order[i] == x.dst;
      assert RowEdges(u, row)[i] == x;
    }
  }

  lemma {:induction false} RowClash(g: Graph, f: Flight, h: Graph, u: Key)
    requires g.Valid() && ReuseOnlyInto(g, f) && h == ProcessEvent(g, f) && h.Valid()
    requires u in h.nodes.at
    ensures h.Row(u).Valid()
    ensures ClashesIn(h, RowEdges(u, h.Row(u))) ==
            if u != f.info.key && Conflict(h.nodes.at[u], f) then [Edge(u, f.info.key, GateReuse)] else []
  {
    hide Graph.Valid, Conflict, Clashing, ClashesIn, ReuseOnlyInto, Graph.KindOf, Graphs.ProcessEvent, RowEdges;
    var e := Edge(u, f.info.key, GateReuse);
    RowEdgesAre(h, u, e);
    var es := RowEdges(u, h.Row(u));
    forall x | x in es ensures Clashing(h, x) <==> u != f.info.key && Conflict(h.nodes.at[u], f) && x == e {
      RowEdgesAre(h, u, x);
      ArrivalClashing(g, f, x);
    }
    if u != f.info.key && Conflict(h.nodes.at[u], f) {
      ProcessEventEdge(g, f, u, f.info.key);
      KeptFlight(g, f, u);
      OneClash(h, es, e);
    } else {
      NoClash(h, es);
    }
  }

  lemma KeptFlight(g: Graph, f: Flight, u: Key)
    requires u in ProcessEvent(g, f).nodes.at && u != f.info.key
    ensures u in g.nodes.at && ProcessEvent(g, f).nodes.at[u] == g.nodes.at[u]
  {
  }

  lemma {:induction false} ClashesFrom(g: Graph, f: Flight, order: seq<Key>)
    requires g.Valid() && ReuseOnlyInto(g, f) && ProcessEvent(g, f).Valid()
    requires forall u :: u in order ==> u in ProcessEvent(g, f).nodes.at
    ensures ClashesIn(ProcessEvent(g, f), EdgesFrom(ProcessEvent(g, f).adj, order)) ==
            ConflictEdges(ProcessEvent(g, f).nodes.at, order, f)
  {
    if order != [] {
      var h := ProcessEvent(g, f);
      RowClash(g, f, h, order[0]);
      ClashesFrom(g, f, order[1..]);
      ClashesInConcat(h, RowEdges(order[0], h.Row(order[0])), EdgesFrom(h.adj, order[1..]));
    }
  }

  /** When nothing else is outstanding, an arriving event asks for one gate per
      flight it conflicts with, and every edge leads to the new flight. */
  lemma {:induction false} ArrivalClashes(g: Graph, f: Flight)
    requires g.Valid() && ReuseOnlyInto(g, f)
    ensures ProcessEvent(g, f).Valid()
    ensures Clashes(ProcessEvent(g, f)) ==
            ConflictEdges(ProcessEvent(g, f).nodes.at, ProcessEvent(g, f).nodes.order, f)
  {
    ProcessEventValid(g, f);
    ClashesFrom(g, f, ProcessEvent(g, f).nodes.order);
  }

  // ---- counting ----

  lemma {:induction false} GatesOfAtMost(at: map<Key, Flight>, order: seq<Key>, gates: set<string>)
    requires forall x :: x in gates ==> exists k :: k in order && k in at && at[k].gate == Some(x)
    ensures |gates| <= |order|
  {
    if order == [] {
      assert gates == {} by {
        if x :| x in gates {
          assert false;
        }
      }
    } else {
      var mine := if order[0] in at && at[order[0]].gate.Some? then {at[order[0]].gate.value} else {};
      forall x | x in gates - mine ensures exists k :: k in order[1..] && k in at && at[k].gate == Some(x) {
        var k :| k in order && k in at && at[k].gate == Some(x);
        assert k != order[0];
      }
      GatesOfAtMost(at, order[1..], gates - mine);
      assert |gates| <= |gates - mine| + |mine| by {
        assert gates == (gates - mine) + (gates * mine);
        assert |gates * mine| <= |mine| by {
          Subset(gates * mine, mine);
        }
      }
    }
  }

  lemma {:induction false} Subset(a: set<string>, b: set<string>)
    requires a <= b
    ensures |a| <= |b|
  {
    assert b == a + (b - a);
  }

  /** A pool of twice as many distinct gates as flights has enough for any
      arriving event. */
  lemma TwiceTheFlightsIsEnough(g: Graph, f: Flight, pool: seq<string>)
    requires g.Valid() && ReuseOnlyInto(g, f)
    requires |Elements(pool)| >= 2 * |ProcessEvent(g, f).nodes.order|
    ensures ProcessEvent(g, f).Valid() && Enough(ProcessEvent(g, f), pool)
  {
    var h := ProcessEvent(g, f);
    ArrivalClashes(g, f);
    var used := UsedGates(h);
    forall x | x in used ensures exists k :: k in h.nodes.order && k in h.nodes.at && h.nodes.at[k].gate == Some(x) {
      var k :| k in h.nodes.at && Named(h.nodes.at[k].gate) && h.nodes.at[k].gate.value == x;
      assert k in h.nodes.order && h.nodes.at[k].gate == Some(x);
    }
    GatesOfAtMost(h.nodes.at, h.nodes.order, used);
    SupplySize(pool, used);
    Subset(Elements(pool), (Elements(pool) - used) + used);
    assert |Elements(pool)| <= |Elements(pool) - used| + |used|;
  }
}

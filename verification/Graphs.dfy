/** The flight dependency graph as a value, and what inserting an event,
    pruning and loading do to it.  Node order and the order of each node's
    outgoing edges are insertion orders, as in a networkx DiGraph. */
module Graphs {
  import opened Flights
  import opened Dicts

  datatype Kind = AircraftTurn | GateReuse

  /** The outgoing edges of `u`, in insertion order. */
  function RowIn(adj: map<Key, Dict<Kind>>, u: Key): Dict<Kind> {
    if u in adj then adj[u] else Empty()
  }

  datatype Graph = Graph(nodes: Dict<Flight>, adj: map<Key, Dict<Kind>>) {
    /** No dangling edges, no self-loops, every node filed under its own key. */
    ghost predicate Valid() {
      && nodes.Valid()
      && adj.Keys == nodes.at.Keys
      && (forall u :: u in adj ==> adj[u].Valid())
      && (forall u, v :: u in adj && v in adj[u].at ==> v in nodes.at && v != u)
      && (forall k :: k in nodes.at ==> nodes.at[k].info.key == k)
    }

    function Row(u: Key): Dict<Kind> {
      RowIn(adj, u)
    }

    predicate HasEdge(u: Key, v: Key) {
      v in Row(u).at
    }

    function KindOf(u: Key, v: Key): Option<Kind> {
      if HasEdge(u, v) then Some(Row(u).at[v]) else None
    }
  }

  const EMPTY: Graph := Graph(Empty(), map[])

  /** What the scan of existing node `u` does to `u`'s outgoing edges when `f`
      arrives: a shared aircraft links it, a gate conflict links it and wins. */
  function LinkRow(row: Dict<Kind>, u: Flight, f: Flight): Dict<Kind> {
    var turned := if SameAircraft(u, f) then row.Put(f.info.key, AircraftTurn) else row;
    if Conflict(u, f) then turned.Put(f.info.key, GateReuse) else turned
  }

  /** The graph after an event arrives, all rows at once. */
  function ProcessEvent(g: Graph, f: Flight): Graph {
    var k := f.info.key;
    Graph(g.nodes.Put(k, f),
          map u | u in g.nodes.at.Keys + {k} ::
            if u == k then g.Row(k) else LinkRow(g.Row(u), g.nodes.at[u], f))
  }

  lemma LinkRowValid(row: Dict<Kind>, u: Flight, f: Flight)
    requires row.Valid()
    ensures LinkRow(row, u, f).Valid()
    ensures forall v :: v in LinkRow(row, u, f).at ==> v == f.info.key || v in row.at
  {
  }

  lemma ProcessEventValid(g: Graph, f: Flight)
    requires g.Valid()
    ensures ProcessEvent(g, f).Valid()
  {
    hide LinkRow;
    var k, h := f.info.key, ProcessEvent(g, f);
    g.nodes.PutValid(k, f);
    forall u | u in h.adj
      ensures h.adj[u].Valid()
      ensures forall v :: v in h.adj[u].at ==> v in h.nodes.at && v != u
    {
      if u != k {
        LinkRowValid(g.adj[u], g.nodes.at[u], f);
      }
    }
  }

  /** The edges of the graph after an event arrives: only edges into the new
      flight are written, and a conflict takes the edge over from an aircraft
      turn.  Edges left from the flight's earlier versions stay. */
  lemma ProcessEventEdge(g: Graph, f: Flight, u: Key, v: Key)
    requires g.Valid()
    ensures ProcessEvent(g, f).KindOf(u, v) ==
            if v != f.info.key || u == v || u !in g.nodes.at then g.KindOf(u, v)
            else if Conflict(g.nodes.at[u], f) then Some(GateReuse)
            else if SameAircraft(g.nodes.at[u], f) then Some(AircraftTurn)
            else g.KindOf(u, v)
  {
  }

  /** A flight already there keeps its place among the nodes, a new one goes to the
      end; and so does the edge to it among the edges of each other flight. */
  lemma ProcessEventOrder(g: Graph, f: Flight, u: Key)
    requires g.Valid()
    ensures ProcessEvent(g, f).nodes.order == if f.info.key in g.nodes.at then g.nodes.order else g.nodes.order + [f.info.key]
    ensures ProcessEvent(g, f).Row(u).order ==
            if ProcessEvent(g, f).HasEdge(u, f.info.key) && !g.HasEdge(u, f.info.key) then g.Row(u).order + [f.info.key]
            else g.Row(u).order
  {
    hide LinkRow;
    if u in g.nodes.at && u != f.info.key {
      LinkRowOrder(g.Row(u), g.nodes.at[u], f);
    }
  }

  lemma LinkRowOrder(row: Dict<Kind>, u: Flight, f: Flight)
    ensures LinkRow(row, u, f).order ==
            if f.info.key in LinkRow(row, u, f).at && f.info.key !in row.at then row.order + [f.info.key] else row.order
  {
  }

  // ---- coverage: no conflict escapes the next resolve call ----

  /** Every conflicting pair is joined by a `gate_reuse` edge. */
  ghost predicate Covered(g: Graph) {
    forall u, v ::
      u in g.nodes.at && v in g.nodes.at && u != v && Conflict(g.nodes.at[u], g.nodes.at[v])
      ==> g.KindOf(u, v) == Some(GateReuse) || g.KindOf(v, u) == Some(GateReuse)
  }

  lemma ProcessEventCovers(g: Graph, f: Flight)
    requires g.Valid() && Covered(g)
    ensures Covered(ProcessEvent(g, f))
  {
    var k, h := f.info.key, ProcessEvent(g, f);
    forall u, v | u in h.nodes.at && v in h.nodes.at && u != v && Conflict(h.nodes.at[u], h.nodes.at[v])
      ensures h.KindOf(u, v) == Some(GateReuse) || h.KindOf(v, u) == Some(GateReuse)
    {
      ProcessEventEdge(g, f, u, v);
      ProcessEventEdge(g, f, v, u);
    }
  }

  // ---- pruning ----

  predicate Expired(f: Flight, cutoff: int) {
    f.info.status == Landed && LandedAt(f.info) < cutoff
  }

  function RemoveNode(g: Graph, k: Key): Graph {
    Graph(g.nodes.Drop(k), map u | u in g.adj && u != k :: g.adj[u].Drop(k))
  }

  function RemoveNodes(g: Graph, ks: seq<Key>): Graph
    decreases |ks|
  {
    if ks == [] then g else RemoveNodes(RemoveNode(g, ks[0]), ks[1..])
  }

  function ExpiredKeys(g: Graph, order: seq<Key>, cutoff: int): (r: seq<Key>)
    requires forall k :: k in order ==> k in g.nodes.at
    ensures forall k :: k in r <==> k in order && Expired(g.nodes.at[k], cutoff)
  {
    if order == [] then []
    else (if Expired(g.nodes.at[order[0]], cutoff) then [order[0]] else [])
         + ExpiredKeys(g, order[1..], cutoff)
  }

  function Prune(g: Graph, cutoff: int): Graph
    requires g.Valid()
  {
    RemoveNodes(g, ExpiredKeys(g, g.nodes.order, cutoff))
  }

  /** The expired flights are listed in node order. */
  lemma {:induction false} ExpiredInOrder(g: Graph, order: seq<Key>, cutoff: int, i: nat, j: nat)
    requires NoDup(order) && forall k :: k in order ==> k in g.nodes.at
    requires i < j < |ExpiredKeys(g, order, cutoff)|
    ensures Before(order, ExpiredKeys(g, order, cutoff)[i], ExpiredKeys(g, order, cutoff)[j])
  {
    var r, rest := ExpiredKeys(g, order, cutoff), ExpiredKeys(g, order[1..], cutoff);
    if r == rest {
      ExpiredInOrder(g, order[1..], cutoff, i, j);
    } else if i > 0 {
      ExpiredInOrder(g, order[1..], cutoff, i - 1, j - 1);
    } else {
      assert r[j] == rest[j - 1];
    }
    BeforeRest(order, r[i], r[j]);
  }

  lemma RemoveNodeValid(g: Graph, k: Key)
    requires g.Valid()
    ensures RemoveNode(g, k).Valid()
  {
    g.nodes.DropValid(k);
    forall u | u in g.adj ensures g.adj[u].Drop(k).Valid() {
      g.adj[u].DropValid(k);
    }
  }

  lemma {:induction false} RemoveNodesValid(g: Graph, ks: seq<Key>)
    requires g.Valid()
    ensures RemoveNodes(g, ks).Valid()
    decreases |ks|
  {
    if ks != [] {
      RemoveNodeValid(g, ks[0]);
      RemoveNodesValid(RemoveNode(g, ks[0]), ks[1..]);
    }
  }

  lemma {:induction false} RemoveNodesAt(g: Graph, ks: seq<Key>, k: Key)
    ensures k in RemoveNodes(g, ks).nodes.at <==> k in g.nodes.at && k !in ks
    ensures k in RemoveNodes(g, ks).nodes.at ==> RemoveNodes(g, ks).nodes.at[k] == g.nodes.at[k]
    decreases |ks|
  {
    if ks != [] {
      RemoveNodesAt(RemoveNode(g, ks[0]), ks[1..], k);
    }
  }

  lemma {:induction false} RemoveNodesEdge(g: Graph, ks: seq<Key>, u: Key, v: Key)
    requires g.Valid()
    ensures RemoveNodes(g, ks).KindOf(u, v) == if u in ks || v in ks then None else g.KindOf(u, v)
    decreases |ks|
  {
    if ks != [] {
      RemoveNodeValid(g, ks[0]);
      RemoveNodesEdge(RemoveNode(g, ks[0]), ks[1..], u, v);
    }
  }

  lemma {:induction false} ExpiredAre(g: Graph, cutoff: int)
    requires g.Valid()
    ensures forall k :: k in ExpiredKeys(g, g.nodes.order, cutoff) <==>
              && k in g.nodes.at
              && var i := g.nodes.at[k].info;
                 i.status == Landed && (if i.actualArr == None then i.arr else i.actualArr.value) < cutoff
  {
  }

  /** Pruning keeps exactly the flights that have not landed, or landed at or after
      the cutoff by their actual arrival or for want of one by their scheduled one,
      with exactly the edges among them. */
  lemma PruneExact(g: Graph, cutoff: int)
    requires g.Valid()
    ensures Prune(g, cutoff).Valid()
    ensures forall k :: k in Prune(g, cutoff).nodes.at <==>
              && k in g.nodes.at
              && var i := g.nodes.at[k].info;
                 i.status == Landed ==> cutoff <= if i.actualArr == None then i.arr else i.actualArr.value
    ensures forall k :: k in Prune(g, cutoff).nodes.at ==> Prune(g, cutoff).nodes.at[k] == g.nodes.at[k]
    ensures forall u, v :: Prune(g, cutoff).KindOf(u, v) ==
              if u in Prune(g, cutoff).nodes.at && v in Prune(g, cutoff).nodes.at then g.KindOf(u, v) else None
  {
    hide RemoveNodes, Graph.KindOf, LandedAt;
    var ks := ExpiredKeys(g, g.nodes.order, cutoff);
    RemoveNodesValid(g, ks);
    ExpiredAre(g, cutoff);
    forall k
      ensures k in Prune(g, cutoff).nodes.at <==> k in g.nodes.at && k !in ks
      ensures k in Prune(g, cutoff).nodes.at ==> Prune(g, cutoff).nodes.at[k] == g.nodes.at[k]
    {
      RemoveNodesAt(g, ks, k);
    }
    forall u, v
      ensures Prune(g, cutoff).KindOf(u, v) ==
              if u in Prune(g, cutoff).nodes.at && v in Prune(g, cutoff).nodes.at then g.KindOf(u, v) else None
    {
      RemoveNodesEdge(g, ks, u, v);
      if g.KindOf(u, v) != None {
        KindJoinsNodes(g, u, v);
      }
    }
  }

  lemma KindJoinsNodes(g: Graph, u: Key, v: Key)
    requires g.Valid() && g.KindOf(u, v) != None
    ensures u in g.nodes.at && v in g.nodes.at
  {
  }

  lemma {:induction false} RemoveNodesInOrder(g: Graph, ks: seq<Key>, a: Key, b: Key)
    requires g.Valid()
    ensures Before(RemoveNodes(g, ks).nodes.order, a, b) <==> a !in ks && b !in ks && Before(g.nodes.order, a, b)
    decreases |ks|
  {
    hide Before, Graph.Valid;
    if ks != [] {
      RemoveNodeValid(g, ks[0]);
      WithoutInOrder(g.nodes.order, ks[0], a, b) by {
        NodesOnce(g);
      }
      RemoveNodesInOrder(RemoveNode(g, ks[0]), ks[1..], a, b);
    }
  }

  lemma NodesOnce(g: Graph)
    requires g.Valid()
    ensures NoDup(g.nodes.order)
  {
  }

  /** The flights that pruning keeps stay in order. */
  lemma PruneInOrder(g: Graph, cutoff: int, a: Key, b: Key)
    requires g.Valid()
    ensures Before(Prune(g, cutoff).nodes.order, a, b) <==>
            a in Prune(g, cutoff).nodes.at && b in Prune(g, cutoff).nodes.at && Before(g.nodes.order, a, b)
  {
    RemoveNodesInOrder(g, ExpiredKeys(g, g.nodes.order, cutoff), a, b);
    RemoveNodesAt(g, ExpiredKeys(g, g.nodes.order, cutoff), a);
    RemoveNodesAt(g, ExpiredKeys(g, g.nodes.order, cutoff), b);
  }

  lemma PruneCovers(g: Graph, cutoff: int)
    requires g.Valid() && Covered(g)
    ensures Covered(Prune(g, cutoff))
  {
    PruneExact(g, cutoff);
  }

  // ---- loading ----

  /** The graph after the given events arrived one by one. */
  function LoadAll(g: Graph, fs: seq<Flight>): Graph {
    if fs == [] then g else ProcessEvent(LoadAll(g, fs[..|fs| - 1]), fs[|fs| - 1])
  }

  lemma {:induction false} LoadNone(g: Graph)
    ensures LoadAll(g, []) == g
  {
  }

  lemma {:induction false} LoadNext(g: Graph, fs: seq<Flight>, f: Flight)
    ensures LoadAll(g, fs + [f]) == ProcessEvent(LoadAll(g, fs), f)
  {
    assert (fs + [f])[..|fs|] == fs;
  }

  /** The last event of a flight is what its node holds. */
  lemma {:induction false} LoadedLast(g: Graph, fs: seq<Flight>, i: nat)
    requires i < |fs| && forall j :: i < j < |fs| ==> fs[j].info.key != fs[i].info.key
    ensures fs[i].info.key in LoadAll(g, fs).nodes.at && LoadAll(g, fs).nodes.at[fs[i].info.key] == fs[i]
  {
    if i < |fs| - 1 {
      LoadedLast(g, fs[..|fs| - 1], i);
    }
  }

  ghost predicate DistinctKeys(fs: seq<Flight>) {
    forall i, j :: 0 <= i < j < |fs| ==> fs[i].info.key != fs[j].info.key
  }

  /** The declarative relation between two rows, the earlier one first. */
  function Relation(a: Flight, b: Flight): Option<Kind> {
    if Conflict(a, b) then Some(GateReuse)
    else if SameAircraft(a, b) then Some(AircraftTurn)
    else None
  }

  lemma {:induction false} LoadValid(g: Graph, fs: seq<Flight>)
    requires g.Valid()
    ensures LoadAll(g, fs).Valid()
  {
    if fs != [] {
      LoadValid(g, fs[..|fs| - 1]);
      ProcessEventValid(LoadAll(g, fs[..|fs| - 1]), fs[|fs| - 1]);
    }
  }

  /** The keys of the rows, in order. */
  function Keys(fs: seq<Flight>): (ks: seq<Key>)
    ensures |ks| == |fs|
  {
    seq(|fs|, i requires 0 <= i < |fs| => fs[i].info.key)
  }

  lemma {:induction false} LoadNodes(fs: seq<Flight>)
    requires DistinctKeys(fs)
    ensures LoadAll(EMPTY, fs).nodes.order == Keys(fs)
    ensures forall k :: k in LoadAll(EMPTY, fs).nodes.at <==> k in Keys(fs)
  {
    if fs != [] {
      var n := |fs| - 1;
      LoadNodes(fs[..n]);
      assert Keys(fs) == Keys(fs[..n]) + [fs[n].info.key];
    }
  }

  lemma {:induction false} LoadNodeAt(fs: seq<Flight>, i: nat)
    requires DistinctKeys(fs) && i < |fs|
    ensures fs[i].info.key in LoadAll(EMPTY, fs).nodes.at
    ensures LoadAll(EMPTY, fs).nodes.at[fs[i].info.key] == fs[i]
  {
    if i < |fs| - 1 {
      LoadNodeAt(fs[..|fs| - 1], i);
    }
  }

  /** A flight never seen before is linked by exactly the relation. */
  lemma NewFlightEdge(g: Graph, f: Flight, u: Key, v: Key)
    requires g.Valid() && f.info.key !in g.nodes.at
    ensures ProcessEvent(g, f).KindOf(u, v) ==
            if v == f.info.key && u in g.nodes.at then Relation(g.nodes.at[u], f) else g.KindOf(u, v)
    ensures u !in g.nodes.at || v !in g.nodes.at ==> g.KindOf(u, v) == None
  {
    ProcessEventEdge(g, f, u, v);
  }

  lemma NotLoadedYet(fs: seq<Flight>, n: nat)
    requires DistinctKeys(fs) && n == |fs| - 1
    ensures fs[n].info.key !in LoadAll(EMPTY, fs[..n]).nodes.at
  {
    LoadNodes(fs[..n]);
  }

  lemma {:induction false} LastRowEdge(fs: seq<Flight>, n: nat, u: Key, v: Key)
    requires DistinctKeys(fs) && n == |fs| - 1
    ensures var h := LoadAll(EMPTY, fs[..n]);
      && fs[n].info.key !in h.nodes.at
      && LoadAll(EMPTY, fs).KindOf(u, v) ==
         (if v == fs[n].info.key && u in h.nodes.at then Relation(h.nodes.at[u], fs[n]) else h.KindOf(u, v))
      && (u !in h.nodes.at || v !in h.nodes.at ==> h.KindOf(u, v) == None)
  {
    LoadValid(EMPTY, fs[..n]);
    NotLoadedYet(fs, n);
    NewFlightEdge(LoadAll(EMPTY, fs[..n]), fs[n], u, v);
  }

  /** Loading rows with distinct keys builds exactly the declarative relation,
      directed from earlier rows to later ones. */
  lemma {:induction false} LoadExact(fs: seq<Flight>, i: nat, j: nat)
    requires DistinctKeys(fs) && i < |fs| && j < |fs|
    ensures LoadAll(EMPTY, fs).KindOf(fs[i].info.key, fs[j].info.key) ==
            if i < j then Relation(fs[i], fs[j]) else None
  {
    hide ProcessEvent, Conflict, SameAircraft;
    var n := |fs| - 1;
    LastRowEdge(fs, n, fs[i].info.key, fs[j].info.key);
    if i < n {
      LoadNodeAt(fs[..n], i);
      if j < n {
        LoadExact(fs[..n], i, j);
      }
    }
  }

  lemma {:induction false} LoadCovers(g: Graph, fs: seq<Flight>)
    requires g.Valid() && Covered(g)
    ensures LoadAll(g, fs).Valid() && Covered(LoadAll(g, fs))
  {
    if fs != [] {
      var h := LoadAll(g, fs[..|fs| - 1]);
      LoadCovers(g, fs[..|fs| - 1]);
      ProcessEventValid(h, fs[|fs| - 1]);
      ProcessEventCovers(h, fs[|fs| - 1]);
    }
  }

  // ---- walks ----

  /** A walk of exactly n edges leads from u to v. */
  ghost predicate Walk(g: Graph, u: Key, v: Key, n: nat)
    decreases n
  {
    if n == 0 then u == v
    else exists w :: Walk(g, u, w, n - 1) && g.HasEdge(w, v)
  }

  lemma WalkOn(g: Graph, src: Key, u: Key, v: Key, n: nat)
    requires Walk(g, src, u, n) && g.HasEdge(u, v)
    ensures Walk(g, src, v, n + 1)
  {
  }

  lemma EdgeAscends(fs: seq<Flight>, i: nat, v: Key) returns (j: nat)
    requires DistinctKeys(fs) && i < |fs|
    requires LoadAll(EMPTY, fs).HasEdge(fs[i].info.key, v)
    ensures i < j < |fs| && v == fs[j].info.key
  {
    assert v in Keys(fs) by {
      LoadNodes(fs);
      LoadValid(EMPTY, fs);
    }
    j :| 0 <= j < |fs| && Keys(fs)[j] == v;
    LoadExact(fs, i, j);
  }

  lemma {:induction false} LoadedWalkAscends(fs: seq<Flight>, i: nat, v: Key, n: nat) returns (j: nat)
    requires DistinctKeys(fs) && i < |fs|
    requires Walk(LoadAll(EMPTY, fs), fs[i].info.key, v, n)
    ensures i + n <= j < |fs| && v == fs[j].info.key
    decreases n
  {
    if n == 0 {
      j := i;
    } else {
      var g := LoadAll(EMPTY, fs);
      var w :| Walk(g, fs[i].info.key, w, n - 1) && g.HasEdge(w, v);
      var m := LoadedWalkAscends(fs, i, w, n - 1);
      j := EdgeAscends(fs, m, v);
    }
  }

  /** The loaded graph has no cycle: no walk leads from a flight back to itself. */
  lemma {:induction false} LoadAcyclic(fs: seq<Flight>, i: nat, n: nat)
    requires DistinctKeys(fs) && i < |fs|
    requires Walk(LoadAll(EMPTY, fs), fs[i].info.key, fs[i].info.key, n)
    ensures n == 0
  {
    var j := LoadedWalkAscends(fs, i, fs[i].info.key, n);
  }
}

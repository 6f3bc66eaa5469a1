/** Gate allocation: which edges one resolve call acts on, which gates it hands
    out, and what that guarantees. */
module Gates {
  import opened Flights
  import opened Dicts
  import opened Graphs

  datatype Edge = Edge(src: Key, dst: Key, kind: Kind)

  /** One reassignment: `gate` goes to `dst` and the edge from `src` goes away. */
  datatype Move = Move(src: Key, dst: Key, gate: string)

  // ---- the snapshot of the edges ----

  function RowEdges(u: Key, row: Dict<Kind>): (es: seq<Edge>)
    requires row.Valid()
    ensures |es| == |row.order|
    ensures forall i :: 0 <= i < |es| ==> es[i] == Edge(u, row.order[i], row.at[row.order[i]])
  {
    seq(|row.order|, i requires 0 <= i < |row.order| => Edge(u, row.order[i], row.at[row.order[i]]))
  }

  function EdgesFrom(adj: map<Key, Dict<Kind>>, order: seq<Key>): seq<Edge>
    requires forall u :: u in order ==> RowIn(adj, u).Valid()
  {
    if order == [] then [] else RowEdges(order[0], RowIn(adj, order[0])) + EdgesFrom(adj, order[1..])
  }

  /** Every edge, node by node and then in insertion order. */
  function Edges(g: Graph): seq<Edge>
    requires g.Valid()
  {
    EdgesFrom(g.adj, g.nodes.order)
  }

  lemma {:induction false} EdgesFromMember(g: Graph, order: seq<Key>, e: Edge)
    requires forall u :: u in order ==> RowIn(g.adj, u).Valid()
    ensures e in EdgesFrom(g.adj, order) <==> e.src in order && g.KindOf(e.src, e.dst) == Some(e.kind)
  {
    if order != [] {
      EdgesFromMember(g, order[1..], e);
      var row := g.Row(order[0]);
      if e.src == order[0] && g.KindOf(e.src, e.dst) == Some(e.kind) {
        var i :| 0 <= i < |row.order| && row.order[i] == e.dst;
        assert RowEdges(order[0], row)[i] == e;
      }
      if e in RowEdges(order[0], row) {
        var i :| 0 <= i < |row.order| && RowEdges(order[0], row)[i] == e;
        assert row.order[i] in row.order;
      }
    }
  }

  lemma EdgesMember(g: Graph, e: Edge)
    requires g.Valid()
    ensures e in Edges(g) <==> g.KindOf(e.src, e.dst) == Some(e.kind)
  {
    EdgesFromMember(g, g.nodes.order, e);
  }

  // ---- the edges that call for a new gate ----

  predicate Clashing(g: Graph, e: Edge) {
    && e.kind == GateReuse
    && e.src in g.nodes.at && e.dst in g.nodes.at
    && Overlaps(g.nodes.at[e.src], g.nodes.at[e.dst])
  }

  function ClashesIn(g: Graph, es: seq<Edge>): (cs: seq<Edge>)
    ensures |cs| <= |es|
    ensures forall e :: e in cs <==> e in es && Clashing(g, e)
  {
    if es == [] then []
    else
      var rest := ClashesIn(g, es[..|es| - 1]);
      if Clashing(g, es[|es| - 1]) then rest + [es[|es| - 1]] else rest
  }

  function Clashes(g: Graph): seq<Edge>
    requires g.Valid()
  {
    ClashesIn(g, Edges(g))
  }

  lemma {:induction false} ClashesInConcat(g: Graph, a: seq<Edge>, b: seq<Edge>)
    ensures ClashesIn(g, a + b) == ClashesIn(g, a) + ClashesIn(g, b)
  {
    if b == [] {
      assert a + b == a;
    } else {
      assert (a + b)[..|a + b| - 1] == a + b[..|b| - 1];
      ClashesInConcat(g, a, b[..|b| - 1]);
    }
  }

  // ---- the gates on offer ----

  function UsedGates(g: Graph): set<string> {
    set k | k in g.nodes.at && Named(g.nodes.at[k].gate) :: g.nodes.at[k].gate.value
  }

  /** The pool gates not yet used, as the loop recomputes them each time round. */
  function FreeGates(pool: seq<string>, used: set<string>): (r: seq<string>)
    ensures forall x :: x in r <==> x in pool && x !in used
  {
    if pool == [] then []
    else (if pool[0] in used then [] else [pool[0]]) + FreeGates(pool[1..], used)
  }

  /** The distinct unused pool gates in pool order. */
  function Supply(pool: seq<string>, used: set<string>): (r: seq<string>)
    ensures NoDup(r)
    ensures forall x :: x in r <==> x in pool && x !in used
  {
    if pool == [] then []
    else if pool[0] in used then Supply(pool[1..], used)
    else [pool[0]] + Supply(pool[1..], used + {pool[0]})
  }

  /** Taking the first free gate after `n` gates were handed out hands out the
      next gate of the supply, and finds none exactly when the supply is empty. */
  lemma {:induction false} FirstFree(pool: seq<string>, used: set<string>, n: nat)
    requires n <= |Supply(pool, used)|
    ensures var left := FreeGates(pool, used + Elements(Supply(pool, used)[..n]));
            if n == |Supply(pool, used)| then left == [] else left != [] && left[0] == Supply(pool, used)[n]
  {
    var s := Supply(pool, used);
    var now := used + Elements(s[..n]);
    if pool == [] {
    } else if pool[0] in used {
      FirstFree(pool[1..], used, n);
    } else {
      var rest := Supply(pool[1..], used + {pool[0]});
      assert s == [pool[0]] + rest;
      if n == 0 {
        assert now == used;
      } else {
        assert s[..n] == [pool[0]] + rest[..n - 1];
        assert now == used + {pool[0]} + Elements(rest[..n - 1]);
        FirstFree(pool[1..], used + {pool[0]}, n - 1);
      }
    }
  }

  /** `x` can be handed out: no flight holds it, the empty name aside, which never
      counts as held, and it is not among the gates given out so far. */
  ghost predicate Open(g: Graph, given: seq<string>, x: string) {
    x !in given && (x == "" || forall k :: k in g.nodes.at ==> g.nodes.at[k].gate != Some(x))
  }

  /** `x` is the earliest gate of the pool that can be handed out. */
  ghost predicate Earliest(g: Graph, pool: seq<string>, given: seq<string>, x: string) {
    exists i :: 0 <= i < |pool| && pool[i] == x && Open(g, given, x) && forall h :: 0 <= h < i ==> !Open(g, given, pool[h])
  }

  lemma {:induction false} FirstFreeAt(pool: seq<string>, used: set<string>) returns (i: nat)
    requires FreeGates(pool, used) != []
    ensures i < |pool| && pool[i] == FreeGates(pool, used)[0] && pool[i] !in used && forall h :: 0 <= h < i ==> pool[h] in used
  {
    if pool[0] in used {
      i := FirstFreeAt(pool[1..], used);
      i := i + 1;
    } else {
      i := 0;
    }
  }

  lemma OpenMeans(g: Graph, given: seq<string>, x: string)
    ensures Open(g, given, x) <==> x !in UsedGates(g) + Elements(given)
  {
  }

  /** Each gate on offer is the earliest in the pool that no flight holds and that
      was not handed out before it. */
  lemma {:induction false} SupplyEarliest(g: Graph, pool: seq<string>, n: nat)
    requires n < |Supply(pool, UsedGates(g))|
    ensures Earliest(g, pool, Supply(pool, UsedGates(g))[..n], Supply(pool, UsedGates(g))[n])
  {
    hide Open, UsedGates, Elements, FreeGates, Supply;
    var s := Supply(pool, UsedGates(g));
    FirstFree(pool, UsedGates(g), n);
    var i := FirstFreeAt(pool, UsedGates(g) + Elements(s[..n]));
    forall x ensures Open(g, s[..n], x) <==> x !in UsedGates(g) + Elements(s[..n]) {
      OpenMeans(g, s[..n], x);
    }
  }

  /** As many gates are on offer as the pool has distinct unused ones. */
  lemma {:induction false} SupplySize(pool: seq<string>, used: set<string>)
    ensures |Supply(pool, used)| == |Elements(pool) - used|
  {
    if pool == [] {
      assert Elements(pool) - used == {};
    } else if pool[0] in used {
      SupplySize(pool[1..], used);
      assert Elements(pool) - used == Elements(pool[1..]) - used;
    } else {
      SupplySize(pool[1..], used + {pool[0]});
      assert Elements(pool) - used == (Elements(pool[1..]) - (used + {pool[0]})) + {pool[0]};
    }
  }

  function Elements(s: seq<string>): (r: set<string>)
    ensures forall x :: x in r <==> x in s
  {
    set x | x in s
  }

  // ---- one resolve call ----

  function Min(a: nat, b: nat): nat {
    if a <= b then a else b
  }

  /** The reassignments of one call: clashing edges in edge order, paired with
      free gates in pool order, until either runs out. */
  function Moves(g: Graph, pool: seq<string>): (ms: seq<Move>)
    requires g.Valid()
    ensures |ms| == Min(|Clashes(g)|, |Supply(pool, UsedGates(g))|)
    ensures forall i :: 0 <= i < |ms| ==>
              ms[i] == Move(Clashes(g)[i].src, Clashes(g)[i].dst, Supply(pool, UsedGates(g))[i])
  {
    var cs, fs := Clashes(g), Supply(pool, UsedGates(g));
    seq(Min(|cs|, |fs|), i requires 0 <= i < Min(|cs|, |fs|) => Move(cs[i].src, cs[i].dst, fs[i]))
  }

  /** One turn of the resolve loop: how many clashes it has passed, whether it
      finds a free gate, and that the move it makes is the next one. */
  lemma {:induction false} ResolveTurn(g: Graph, pool: seq<string>, i: nat)
    requires g.Valid() && i < |Edges(g)|
    ensures var es, supply := Edges(g), Supply(pool, UsedGates(g));
      var c, n := |ClashesIn(g, es[..i])|, Min(|ClashesIn(g, es[..i])|, |supply|);
      var free := FreeGates(pool, UsedGates(g) + Elements(supply[..n]));
      && |ClashesIn(g, es[..i + 1])| == (if Clashing(g, es[i]) then c + 1 else c)
      && (free == [] <==> n == |supply|)
      && (Clashing(g, es[i]) && free != [] ==>
            && n == c && n < |Moves(g, pool)|
            && Moves(g, pool)[n] == Move(es[i].src, es[i].dst, free[0])
            && Elements(supply[..n + 1]) == Elements(supply[..n]) + {free[0]})
  {
    hide ClashesIn, FreeGates, Supply, Clashing, Edges, UsedGates;
    var supply := Supply(pool, UsedGates(g));
    var c := |ClashesIn(g, Edges(g)[..i])|;
    FirstFree(pool, UsedGates(g), Min(c, |supply|));
    ClashesSoFar(g, Edges(g), i);
    if c < |supply| {
      assert supply[..c + 1] == supply[..c] + [supply[c]];
    }
  }

  /** The allocator one edge at a time: the first gate still free goes to the
      edge if it clashes. */
  function Greedy(g: Graph, es: seq<Edge>, pool: seq<string>, used: set<string>): seq<Move> {
    if es == [] then []
    else
      var free := FreeGates(pool, used);
      if Clashing(g, es[0]) && free != [] then
        [Move(es[0].src, es[0].dst, free[0])] + Greedy(g, es[1..], pool, used + {free[0]})
      else Greedy(g, es[1..], pool, used)
  }

  lemma {:induction false} GreedyNone(g: Graph, pool: seq<string>, used: set<string>)
    ensures Greedy(g, [], pool, used) == []
  {
  }

  lemma {:induction false} GreedyNext(g: Graph, es: seq<Edge>, i: nat, pool: seq<string>, used: set<string>)
    requires i < |es|
    ensures var free := FreeGates(pool, used);
      Greedy(g, es[i..], pool, used) ==
      if Clashing(g, es[i]) && free != []
      then [Move(es[i].src, es[i].dst, free[0])] + Greedy(g, es[i + 1..], pool, used + {free[0]})
      else Greedy(g, es[i + 1..], pool, used)
  {
    assert es[i..][0] == es[i] && es[i..][1..] == es[i + 1..];
  }

  lemma HeadAndRest(ms: seq<Move>, n: nat)
    requires n < |ms|
    ensures ms[n..] == [ms[n]] + ms[n + 1..]
  {
  }

  lemma {:induction false} GreedyFrom(g: Graph, pool: seq<string>, i: nat, n: nat)
    requires g.Valid() && i <= |Edges(g)|
    requires n == Min(|ClashesIn(g, Edges(g)[..i])|, |Supply(pool, UsedGates(g))|) && n <= |Moves(g, pool)|
    ensures Greedy(g, Edges(g)[i..], pool, UsedGates(g) + Elements(Supply(pool, UsedGates(g))[..n])) == Moves(g, pool)[n..]
    decreases |Edges(g)| - i
  {
    hide ClashesIn, FreeGates, Supply, Clashing, Edges, UsedGates, Graph.Valid, Moves, Elements, Greedy;
    var es, supply := Edges(g), Supply(pool, UsedGates(g));
    var used := UsedGates(g) + Elements(supply[..n]);
    if i == |es| {
      assert es[..i] == es && es[i..] == [];
      GreedyNone(g, pool, used);
    } else {
      ResolveTurn(g, pool, i);
      GreedyNext(g, es, i, pool, used);
      var free := FreeGates(pool, used);
      if Clashing(g, es[i]) && free != [] {
        HeadAndRest(Moves(g, pool), n);
        assert used + {free[0]} == UsedGates(g) + Elements(supply[..n + 1]);
        GreedyFrom(g, pool, i + 1, n + 1);
      } else {
        GreedyFrom(g, pool, i + 1, n);
      }
    }
  }

  /** The edge-by-edge allocator makes exactly the reassignments of the closed
      form: the first clashing edges get the first distinct free gates. */
  lemma {:induction false} GreedyIsMoves(g: Graph, pool: seq<string>)
    requires g.Valid()
    ensures Greedy(g, Edges(g), pool, UsedGates(g)) == Moves(g, pool)
    ensures |Moves(g, pool)| == Min(|Clashes(g)|, |Elements(pool) - UsedGates(g)|)
  {
    hide FreeGates, Clashing, Edges, UsedGates, Graph.Valid, Supply, Clashes;
    assert Edges(g)[..0] == [] && Edges(g)[0..] == Edges(g) && Moves(g, pool)[0..] == Moves(g, pool);
    assert UsedGates(g) + Elements(Supply(pool, UsedGates(g))[..0]) == UsedGates(g);
    GreedyFrom(g, pool, 0, 0);
    SupplySize(pool, UsedGates(g));
  }

  /** The gates handed out by the first `n` moves. */
  function GatesOf(ms: seq<Move>, n: nat): (r: seq<string>)
    requires n <= |ms|
    ensures |r| == n && forall i :: 0 <= i < n ==> r[i] == ms[i].gate
  {
    seq(n, i requires 0 <= i < n => ms[i].gate)
  }

  /** Every reassignment takes the earliest pool gate that no flight held before the
      call and none before it took, and when they are over either no clashing edge
      is left or no such gate. */
  lemma MovesTakeEarliest(g: Graph, pool: seq<string>)
    requires g.Valid()
    ensures forall j :: 0 <= j < |Moves(g, pool)| ==>
              Earliest(g, pool, GatesOf(Moves(g, pool), j), Moves(g, pool)[j].gate)
    ensures |Moves(g, pool)| == |Clashes(g)| || forall x :: x in pool ==> !Open(g, GatesOf(Moves(g, pool), |Moves(g, pool)|), x)
  {
    hide Open, Earliest, UsedGates, Elements, Clashes, Graph.Valid;
    var ms, s := Moves(g, pool), Supply(pool, UsedGates(g));
    forall j | 0 <= j < |ms| ensures Earliest(g, pool, GatesOf(ms, j), ms[j].gate) {
      SupplyEarliest(g, pool, j);
      assert s[..j] == GatesOf(ms, j);
    }
    if |ms| == |s| {
      assert GatesOf(ms, |ms|) == s;
      forall x | x in pool ensures !Open(g, s, x) {
        OpenMeans(g, s, x);
      }
    }
  }

  // ---- the order of the edges ----

  /** In the snapshot, edge u-v stands before edge x-y: by source in node order,
      then by target in the order the source's edges were inserted. */
  ghost predicate EdgeBefore(g: Graph, u: Key, v: Key, x: Key, y: Key) {
    Before(g.nodes.order, u, x) || (u == x && Before(g.Row(u).order, v, y))
  }

  /** The edges stand in the order of the snapshot. */
  ghost predicate InOrder(g: Graph, es: seq<Edge>) {
    forall i, j :: 0 <= i < j < |es| ==> EdgeBefore(g, es[i].src, es[i].dst, es[j].src, es[j].dst)
  }

  lemma RowInOrder(order: seq<Key>, u: Key, row: Dict<Kind>, i: nat, j: nat)
    requires row.Valid() && i < j < |row.order|
    ensures Before(row.order, RowEdges(u, row)[i].dst, RowEdges(u, row)[j].dst)
  {
  }

  lemma {:induction false} EdgesFromInOrder(g: Graph, order: seq<Key>, i: nat, j: nat)
    requires NoDup(order) && forall u :: u in order ==> RowIn(g.adj, u).Valid()
    requires i < j < |EdgesFrom(g.adj, order)|
    ensures var d, e := EdgesFrom(g.adj, order)[i], EdgesFrom(g.adj, order)[j];
      Before(order, d.src, e.src) || (d.src == e.src && Before(g.Row(d.src).order, d.dst, e.dst))
  {
    hide Before, NoDup, Dict.Valid;
    var a, b := RowEdges(order[0], g.Row(order[0])), EdgesFrom(g.adj, order[1..]);
    NoDupRest(order);
    if j < |a| {
      RowInOrder(order, order[0], g.Row(order[0]), i, j);
    } else {
      var e := b[j - |a|];
      EdgesFromMember(g, order[1..], e);
      if i < |a| {
        BeforeRest(order, order[0], e.src);
      } else {
        EdgesFromInOrder(g, order[1..], i - |a|, j - |a|);
        if b[i - |a|].src != e.src || Before(order[1..], b[i - |a|].src, e.src) {
          BeforeRest(order, b[i - |a|].src, e.src);
        }
      }
    }
  }

  lemma EdgesInOrder(g: Graph)
    requires g.Valid()
    ensures InOrder(g, Edges(g))
  {
    forall i, j | 0 <= i < j < |Edges(g)|
      ensures EdgeBefore(g, Edges(g)[i].src, Edges(g)[i].dst, Edges(g)[j].src, Edges(g)[j].dst)
    {
      EdgesFromInOrder(g, g.nodes.order, i, j);
    }
  }

  lemma {:induction false} ClashesInOrder(g: Graph, es: seq<Edge>)
    requires InOrder(g, es)
    ensures InOrder(g, ClashesIn(g, es))
  {
    hide EdgeBefore, Clashing;
    if es != [] {
      var n := |es| - 1;
      ClashesInOrder(g, es[..n]);
      forall i | 0 <= i < |ClashesIn(g, es[..n])|
        ensures EdgeBefore(g, ClashesIn(g, es[..n])[i].src, ClashesIn(g, es[..n])[i].dst, es[n].src, es[n].dst)
      {
        assert ClashesIn(g, es[..n])[i] in es[..n];
      }
    }
  }

  /** Clashing edges are served in the order of the snapshot: the reassignments
      follow it, and a clashing edge that is not among them comes after them all. */
  lemma ServedInOrder(g: Graph, pool: seq<string>)
    requires g.Valid()
    ensures forall i, j :: 0 <= i < j < |Moves(g, pool)| ==>
              EdgeBefore(g, Moves(g, pool)[i].src, Moves(g, pool)[i].dst, Moves(g, pool)[j].src, Moves(g, pool)[j].dst)
    ensures forall i, u, v :: 0 <= i < |Moves(g, pool)| && Waits(g, Moves(g, pool), u, v) ==>
              EdgeBefore(g, Moves(g, pool)[i].src, Moves(g, pool)[i].dst, u, v)
  {
    hide EdgeBefore, Supply, UsedGates, Waits, Edges;
    var cs := Clashes(g);
    EdgesInOrder(g);
    ClashesInOrder(g, Edges(g));
    forall i, j | 0 <= i < j < |Moves(g, pool)|
      ensures EdgeBefore(g, Moves(g, pool)[i].src, Moves(g, pool)[i].dst, Moves(g, pool)[j].src, Moves(g, pool)[j].dst)
    {
      assert EdgeBefore(g, cs[i].src, cs[i].dst, cs[j].src, cs[j].dst);
    }
    forall i, u, v | 0 <= i < |Moves(g, pool)| && Waits(g, Moves(g, pool), u, v)
      ensures EdgeBefore(g, Moves(g, pool)[i].src, Moves(g, pool)[i].dst, u, v)
    {
      var j := WaitsAt(g, pool, u, v);
      assert EdgeBefore(g, cs[i].src, cs[i].dst, cs[j].src, cs[j].dst);
    }
  }

  /** A gate_reuse edge between overlapping flights that no reassignment removes. */
  ghost predicate Waits(g: Graph, ms: seq<Move>, u: Key, v: Key) {
    && u in g.nodes.at && v in g.nodes.at && g.KindOf(u, v) == Some(GateReuse)
    && Overlaps(g.nodes.at[u], g.nodes.at[v]) && !Drops(ms, u, v)
  }

  lemma WaitsAt(g: Graph, pool: seq<string>, u: Key, v: Key) returns (j: nat)
    requires g.Valid() && Waits(g, Moves(g, pool), u, v)
    ensures |Moves(g, pool)| <= j < |Clashes(g)| && Clashes(g)[j] == Edge(u, v, GateReuse)
  {
    hide Supply, UsedGates, Overlaps;
    ClashesMember(g, u, v);
    DropsAreClashes(g, pool, u, v);
    var ms, cs := Moves(g, pool), Clashes(g);
    assert forall i :: 0 <= i < |ms| ==> cs[i] in cs[..|ms|];
    j :| 0 <= j < |cs| && cs[j] == Edge(u, v, GateReuse);
  }

  lemma {:induction false} ClashesSoFar(g: Graph, es: seq<Edge>, i: nat)
    requires i < |es|
    ensures var c := |ClashesIn(g, es[..i])|;
      && |ClashesIn(g, es[..i + 1])| == (if Clashing(g, es[i]) then c + 1 else c)
      && (Clashing(g, es[i]) ==> c < |ClashesIn(g, es)| && ClashesIn(g, es)[c] == es[i])
  {
    assert es[..i + 1] == es[..i] + [es[i]];
    ClashesInConcat(g, es[..i], [es[i]]);
    ClashesInOne(g, es[i]);
    assert es == es[..i + 1] + es[i + 1..];
    ClashesInConcat(g, es[..i + 1], es[i + 1..]);
  }

  lemma {:induction false} ClashesInOne(g: Graph, e: Edge)
    ensures ClashesIn(g, [e]) == if Clashing(g, e) then [e] else []
  {
  }

  ghost predicate Applicable(g: Graph, ms: seq<Move>) {
    forall m :: m in ms ==> m.src in g.adj && m.dst in g.nodes.at
  }

  function ApplyMove(g: Graph, m: Move): Graph
    requires m.src in g.adj && m.dst in g.nodes.at
  {
    Graph(g.nodes.(at := g.nodes.at[m.dst := g.nodes.at[m.dst].(gate := Some(m.gate))]),
          g.adj[m.src := g.adj[m.src].Drop(m.dst)])
  }

  function ApplyMoves(g: Graph, ms: seq<Move>): (h: Graph)
    requires Applicable(g, ms)
    ensures h.nodes.order == g.nodes.order && h.nodes.at.Keys == g.nodes.at.Keys && h.adj.Keys == g.adj.Keys
  {
    if ms == [] then g
    else
      assert ms[|ms| - 1] in ms;
      ApplyMove(ApplyMoves(g, ms[..|ms| - 1]), ms[|ms| - 1])
  }

  lemma MovesApplicable(g: Graph, pool: seq<string>)
    requires g.Valid()
    ensures Applicable(g, Moves(g, pool))
  {
    forall m | m in Moves(g, pool) ensures m.src in g.adj && m.dst in g.nodes.at {
      var i :| 0 <= i < |Moves(g, pool)| && Moves(g, pool)[i] == m;
      assert Clashing(g, Clashes(g)[i]);
    }
  }

  function Resolve(g: Graph, pool: seq<string>): Graph
    requires g.Valid()
  {
    MovesApplicable(g, pool);
    ApplyMoves(g, Moves(g, pool))
  }

  /** The gate of flight `k` after the reassignments: the last one it was given. */
  function GateAfter(ms: seq<Move>, k: Key, gate: Option<string>): Option<string> {
    if ms == [] then gate
    else if ms[|ms| - 1].dst == k then Some(ms[|ms| - 1].gate)
    else GateAfter(ms[..|ms| - 1], k, gate)
  }

  lemma {:induction false} MovesNode(g: Graph, ms: seq<Move>, k: Key)
    requires Applicable(g, ms) && k in g.nodes.at
    ensures ApplyMoves(g, ms).nodes.at[k] ==
            g.nodes.at[k].(gate := GateAfter(ms, k, g.nodes.at[k].gate))
  {
    if ms != [] {
      MovesNode(g, ms[..|ms| - 1], k);
    }
  }

  lemma ApplyMoveEdge(g: Graph, m: Move, u: Key, v: Key)
    requires m.src in g.adj && m.dst in g.nodes.at
    ensures ApplyMove(g, m).KindOf(u, v) == if u == m.src && v == m.dst then None else g.KindOf(u, v)
  {
  }

  ghost predicate Drops(ms: seq<Move>, u: Key, v: Key) {
    exists i :: 0 <= i < |ms| && ms[i].src == u && ms[i].dst == v
  }

  lemma {:induction false} MovesEdge(g: Graph, ms: seq<Move>, u: Key, v: Key)
    requires Applicable(g, ms)
    ensures ApplyMoves(g, ms).KindOf(u, v) == if Drops(ms, u, v) then None else g.KindOf(u, v)
  {
    hide ApplyMove, Graph.KindOf, Drops;
    if ms == [] {
      NoDrops(u, v);
    } else {
      var n := |ms| - 1;
      MovesEdge(g, ms[..n], u, v);
      assert ms[n] in ms;
      ApplyMoveEdge(ApplyMoves(g, ms[..n]), ms[n], u, v);
      DropsLast(ms, n, u, v);
    }
  }

  lemma NoDrops(u: Key, v: Key)
    ensures !Drops([], u, v)
  {
  }

  lemma DropsLast(ms: seq<Move>, n: nat, u: Key, v: Key)
    requires n + 1 == |ms|
    ensures Drops(ms, u, v) <==> Drops(ms[..n], u, v) || (ms[n].src == u && ms[n].dst == v)
  {
    if Drops(ms[..n], u, v) {
      var i :| 0 <= i < n && ms[..n][i].src == u && ms[..n][i].dst == v;
      assert ms[i].src == u;
    }
    if Drops(ms, u, v) && !(ms[n].src == u && ms[n].dst == v) {
      var i :| 0 <= i < |ms| && ms[i].src == u && ms[i].dst == v;
      assert ms[..n][i].src == u;
    }
  }

  lemma ApplyMoveValid(g: Graph, m: Move)
    requires g.Valid() && m.src in g.adj && m.dst in g.nodes.at
    ensures ApplyMove(g, m).Valid()
  {
    g.adj[m.src].DropValid(m.dst);
  }

  lemma {:induction false} MovesValid(g: Graph, ms: seq<Move>)
    requires g.Valid() && Applicable(g, ms)
    ensures ApplyMoves(g, ms).Valid()
  {
    if ms != [] {
      MovesValid(g, ms[..|ms| - 1]);
      assert ms[|ms| - 1] in ms;
      ApplyMoveValid(ApplyMoves(g, ms[..|ms| - 1]), ms[|ms| - 1]);
    }
  }

  /** The index of the last gate given to `k`. */
  lemma {:induction false} LastMove(ms: seq<Move>, k: Key, gate: Option<string>) returns (i: nat)
    requires exists j :: 0 <= j < |ms| && ms[j].dst == k
    ensures i < |ms| && ms[i].dst == k && GateAfter(ms, k, gate) == Some(ms[i].gate)
  {
    if ms[|ms| - 1].dst == k {
      i := |ms| - 1;
    } else {
      var j :| 0 <= j < |ms| && ms[j].dst == k;
      assert ms[..|ms| - 1][j].dst == k;
      i := LastMove(ms[..|ms| - 1], k, gate);
    }
  }

  /** Of the first `n` moves, the `i`-th is the last one of `k`. */
  ghost predicate LastOf(ms: seq<Move>, n: nat, k: Key, i: nat) {
    i < n <= |ms| && ms[i].dst == k && forall j :: i < j < n ==> ms[j].dst != k
  }

  lemma {:induction false} LastGate(ms: seq<Move>, k: Key, gate: Option<string>, i: nat)
    requires LastOf(ms, |ms|, k, i)
    ensures GateAfter(ms, k, gate) == Some(ms[i].gate)
  {
    if i < |ms| - 1 {
      LastGate(ms[..|ms| - 1], k, gate, i);
    }
  }

  lemma {:induction false} Unmoved(ms: seq<Move>, k: Key, gate: Option<string>)
    requires forall j :: 0 <= j < |ms| ==> ms[j].dst != k
    ensures GateAfter(ms, k, gate) == gate
  {
    if ms != [] {
      Unmoved(ms[..|ms| - 1], k, gate);
    }
  }

  ghost predicate Moved(ms: seq<Move>, k: Key) {
    exists j :: 0 <= j < |ms| && ms[j].dst == k
  }

  /** A reassigned flight ends at a gate no other flight holds, but for the empty
      name if a pool offers it: that never counts as a gate in use. */
  lemma NewGateIsOwn(g: Graph, pool: seq<string>, k: Key, u: Key)
    requires g.Valid() && k in g.nodes.at && u in g.nodes.at && u != k && Moved(Moves(g, pool), k)
    ensures k in Resolve(g, pool).nodes.at && u in Resolve(g, pool).nodes.at
    ensures Resolve(g, pool).nodes.at[u].gate == Resolve(g, pool).nodes.at[k].gate <==>
            !Moved(Moves(g, pool), u) && g.nodes.at[u].gate == Resolve(g, pool).nodes.at[k].gate == Some("")
  {
    hide Graph.Valid, Moves, UsedGates;
    NewGate(g, pool, k);
    if Moved(Moves(g, pool), u) {
      NewGatesDiffer(g, pool, k, u);
    } else {
      OldGate(g, pool, u);
    }
  }

  /** A reassigned flight ends at a gate that was not in use. */
  lemma NewGate(g: Graph, pool: seq<string>, k: Key)
    requires g.Valid() && k in g.nodes.at && Moved(Moves(g, pool), k)
    ensures k in Resolve(g, pool).nodes.at && Resolve(g, pool).nodes.at[k].gate.Some?
    ensures Resolve(g, pool).nodes.at[k].gate.value !in UsedGates(g)
  {
    hide Graph.Valid, Moves, UsedGates, Supply;
    MovesApplicable(g, pool);
    MovesNode(g, Moves(g, pool), k);
    var i := LastMove(Moves(g, pool), k, g.nodes.at[k].gate);
    assert Supply(pool, UsedGates(g))[i] in Supply(pool, UsedGates(g));
  }

  lemma OldGate(g: Graph, pool: seq<string>, u: Key)
    requires g.Valid() && u in g.nodes.at && !Moved(Moves(g, pool), u)
    ensures u in Resolve(g, pool).nodes.at && Resolve(g, pool).nodes.at[u].gate == g.nodes.at[u].gate
    ensures Named(g.nodes.at[u].gate) ==> g.nodes.at[u].gate.value in UsedGates(g)
  {
    hide Graph.Valid, Moves;
    MovesApplicable(g, pool);
    MovesNode(g, Moves(g, pool), u);
    Unmoved(Moves(g, pool), u, g.nodes.at[u].gate);
  }

  lemma NewGatesDiffer(g: Graph, pool: seq<string>, k: Key, u: Key)
    requires g.Valid() && k in g.nodes.at && u in g.nodes.at && u != k && Moved(Moves(g, pool), k) && Moved(Moves(g, pool), u)
    ensures k in Resolve(g, pool).nodes.at && u in Resolve(g, pool).nodes.at
    ensures Resolve(g, pool).nodes.at[u].gate != Resolve(g, pool).nodes.at[k].gate
  {
    hide Graph.Valid, Moves, UsedGates, Supply;
    var ms, s := Moves(g, pool), Supply(pool, UsedGates(g));
    MovesApplicable(g, pool);
    MovesNode(g, ms, k);
    MovesNode(g, ms, u);
    var i := LastMove(ms, k, g.nodes.at[k].gate);
    var j := LastMove(ms, u, g.nodes.at[u].gate);
    assert i != j && s[i] != s[j];
  }

  /** A conflict after the call was one before it, and neither flight moved. */
  lemma ConflictsNeverGrow(g: Graph, pool: seq<string>, u: Key, v: Key)
    requires g.Valid() && u in g.nodes.at && v in g.nodes.at && u != v
    requires Conflict(Resolve(g, pool).nodes.at[u], Resolve(g, pool).nodes.at[v])
    ensures Conflict(g.nodes.at[u], g.nodes.at[v])
    ensures !Moved(Moves(g, pool), u) && !Moved(Moves(g, pool), v)
  {
    var ms := Moves(g, pool);
    MovesApplicable(g, pool);
    if Moved(ms, u) {
      NewGateIsOwn(g, pool, u, v);
    }
    if Moved(ms, v) {
      NewGateIsOwn(g, pool, v, u);
    }
    MovesNode(g, ms, u);
    MovesNode(g, ms, v);
    Unmoved(ms, u, g.nodes.at[u].gate);
    Unmoved(ms, v, g.nodes.at[v].gate);
  }

  lemma ResolveValid(g: Graph, pool: seq<string>)
    requires g.Valid()
    ensures Resolve(g, pool).Valid()
    ensures Resolve(g, pool).nodes.order == g.nodes.order
    ensures Resolve(g, pool).nodes.at.Keys == g.nodes.at.Keys
  {
    MovesApplicable(g, pool);
    MovesValid(g, Moves(g, pool));
  }

  /** Resolving changes nothing in a node but its gate. */
  lemma {:induction false} ResolveNode(g: Graph, pool: seq<string>, k: Key)
    requires g.Valid() && k in g.nodes.at
    ensures k in Resolve(g, pool).nodes.at
    ensures Resolve(g, pool).nodes.at[k] ==
            g.nodes.at[k].(gate := GateAfter(Moves(g, pool), k, g.nodes.at[k].gate))
    ensures !Moved(Moves(g, pool), k) ==> Resolve(g, pool).nodes.at[k] == g.nodes.at[k]
  {
    MovesApplicable(g, pool);
    MovesNode(g, Moves(g, pool), k);
    if !Moved(Moves(g, pool), k) {
      Unmoved(Moves(g, pool), k, g.nodes.at[k].gate);
    }
  }

  // ---- which edges survive ----

  lemma {:induction false} EdgesFromNoDup(g: Graph, order: seq<Key>)
    requires NoDup(order)
    requires forall u :: u in order ==> RowIn(g.adj, u).Valid()
    ensures NoDup(EdgesFrom(g.adj, order))
  {
    if order != [] {
      EdgesFromNoDup(g, order[1..]);
      var a, b := RowEdges(order[0], g.Row(order[0])), EdgesFrom(g.adj, order[1..]);
      forall j | 0 <= j < |b| ensures b[j].src != order[0] {
        EdgesFromMember(g, order[1..], b[j]);
      }
    }
  }

  lemma {:induction false} ClashesInNoDup(g: Graph, es: seq<Edge>)
    requires NoDup(es)
    ensures NoDup(ClashesIn(g, es))
  {
    if es != [] {
      ClashesInNoDup(g, es[..|es| - 1]);
      assert es[|es| - 1] !in es[..|es| - 1];
    }
  }

  lemma ClashesNoDup(g: Graph)
    requires g.Valid()
    ensures NoDup(Clashes(g))
  {
    EdgesFromNoDup(g, g.nodes.order);
    ClashesInNoDup(g, Edges(g));
  }

  lemma ClashesMember(g: Graph, u: Key, v: Key)
    requires g.Valid() && g.KindOf(u, v) == Some(GateReuse)
    requires Overlaps(g.nodes.at[u], g.nodes.at[v])
    ensures Edge(u, v, GateReuse) in Clashes(g)
  {
    EdgesMember(g, Edge(u, v, GateReuse));
  }

  lemma DropsAreClashes(g: Graph, pool: seq<string>, u: Key, v: Key)
    requires g.Valid()
    ensures Drops(Moves(g, pool), u, v) <==> Edge(u, v, GateReuse) in Clashes(g)[..|Moves(g, pool)|]
  {
    var ms, cs := Moves(g, pool), Clashes(g);
    if Drops(ms, u, v) {
      var i :| 0 <= i < |ms| && ms[i].src == u && ms[i].dst == v;
      assert cs[i] in cs;
      assert cs[..|ms|][i] == Edge(u, v, GateReuse);
    }
    if Edge(u, v, GateReuse) in cs[..|ms|] {
      var i :| 0 <= i < |ms| && cs[..|ms|][i] == Edge(u, v, GateReuse);
      assert ms[i].src == u && ms[i].dst == v;
    }
  }

  /** The call removes exactly the first |moves| clashing edges and no other. */
  lemma DroppedExactly(g: Graph, pool: seq<string>, u: Key, v: Key)
    requires g.Valid()
    ensures Resolve(g, pool).KindOf(u, v) ==
            if Edge(u, v, GateReuse) in Clashes(g)[..|Moves(g, pool)|] then None else g.KindOf(u, v)
  {
    DropsAreClashes(g, pool, u, v);
    MovesApplicable(g, pool);
    MovesEdge(g, Moves(g, pool), u, v);
  }

  /** Each reassignment is for a gate_reuse edge between overlapping flights, which
      goes. */
  lemma MoveServes(g: Graph, pool: seq<string>, j: nat)
    requires g.Valid() && j < |Moves(g, pool)|
    ensures var m := Moves(g, pool)[j];
      && m.src in g.nodes.at && m.dst in g.nodes.at && Overlaps(g.nodes.at[m.src], g.nodes.at[m.dst])
      && g.KindOf(m.src, m.dst) == Some(GateReuse) && Resolve(g, pool).KindOf(m.src, m.dst) == None
  {
    hide Resolve, Overlaps, Graph.Valid, UsedGates, Supply;
    var cs, e := Clashes(g), Clashes(g)[j];
    assert e in cs && cs[..|Moves(g, pool)|][j] == e;
    EdgesMember(g, e);
    DroppedExactly(g, pool, e.src, e.dst);
  }

  /** A clashing edge that survives does so only because every pool gate was in
      use before the call or handed out during it. */
  lemma SurvivorMeansExhausted(g: Graph, pool: seq<string>, u: Key, v: Key, x: string)
    requires g.Valid() && g.KindOf(u, v) == Some(GateReuse) && Overlaps(g.nodes.at[u], g.nodes.at[v])
    requires Resolve(g, pool).KindOf(u, v) == Some(GateReuse) && x in pool
    ensures x in UsedGates(g) || exists i :: 0 <= i < |Moves(g, pool)| && Moves(g, pool)[i].gate == x
  {
    hide Resolve, Clashes, Graph.Valid, UsedGates;
    var ms, cs, s := Moves(g, pool), Clashes(g), Supply(pool, UsedGates(g));
    ClashesMember(g, u, v);
    DroppedExactly(g, pool, u, v);
    assert cs[..|cs|] == cs;
    assert |ms| == |s|;
    if x !in UsedGates(g) {
      var i :| 0 <= i < |s| && s[i] == x;
      assert ms[i].gate == x;
    }
  }

  // ---- enough gates ----

  /** At least as many distinct unused pool gates as clashing edges. */
  ghost predicate Enough(g: Graph, pool: seq<string>)
    requires g.Valid()
  {
    |Clashes(g)| <= |Supply(pool, UsedGates(g))|
  }

  ghost predicate NoConflict(g: Graph) {
    forall u, v :: u in g.nodes.at && v in g.nodes.at && u != v ==> !Conflict(g.nodes.at[u], g.nodes.at[v])
  }

  ghost predicate NoReuse(g: Graph) {
    forall u, v :: g.KindOf(u, v) != Some(GateReuse)
  }

  /** The overlapping edges are the only gate_reuse edges. */
  ghost predicate ReuseOverlaps(g: Graph) {
    forall u, v :: g.KindOf(u, v) == Some(GateReuse) ==>
      u in g.nodes.at && v in g.nodes.at && Overlaps(g.nodes.at[u], g.nodes.at[v])
  }

  /** Resolving keeps every remaining conflict visible to the next call, however
      few gates there are. */
  lemma ResolveCovers(g: Graph, pool: seq<string>)
    requires g.Valid() && Covered(g)
    ensures Covered(Resolve(g, pool))
  {
    ResolveValid(g, pool);
    var h := Resolve(g, pool);
    forall u, v | u in h.nodes.at && v in h.nodes.at && u != v && Conflict(h.nodes.at[u], h.nodes.at[v])
      ensures h.KindOf(u, v) == Some(GateReuse) || h.KindOf(v, u) == Some(GateReuse)
    {
      ConflictsNeverGrow(g, pool, u, v);
      KeptUnlessMoved(g, pool, u, v);
      KeptUnlessMoved(g, pool, v, u);
    }
  }

  lemma KeptUnlessMoved(g: Graph, pool: seq<string>, u: Key, v: Key)
    requires g.Valid() && !Moved(Moves(g, pool), v)
    ensures Resolve(g, pool).KindOf(u, v) == g.KindOf(u, v)
  {
    MovesApplicable(g, pool);
    MovesEdge(g, Moves(g, pool), u, v);
  }

  /** With enough gates every clashing edge goes. */
  lemma EnoughDrops(g: Graph, pool: seq<string>, u: Key, v: Key)
    requires g.Valid() && Enough(g, pool)
    requires g.KindOf(u, v) == Some(GateReuse) && u in g.nodes.at && v in g.nodes.at && Overlaps(g.nodes.at[u], g.nodes.at[v])
    ensures Resolve(g, pool).KindOf(u, v) == None
  {
    hide Resolve, Clashes, UsedGates, Overlaps, Graph.Valid;
    var cs := Clashes(g);
    assert cs[..|Moves(g, pool)|] == cs;
    ClashesMember(g, u, v);
    DroppedExactly(g, pool, u, v);
  }

  lemma EnoughNoConflict(g: Graph, pool: seq<string>, u: Key, v: Key)
    requires g.Valid() && Covered(g) && Enough(g, pool) && u in g.nodes.at && v in g.nodes.at && u != v
    ensures u in Resolve(g, pool).nodes.at && v in Resolve(g, pool).nodes.at
    ensures !Conflict(Resolve(g, pool).nodes.at[u], Resolve(g, pool).nodes.at[v])
  {
    hide Resolve, Enough, Graph.Valid;
    ResolveValid(g, pool);
    if Conflict(Resolve(g, pool).nodes.at[u], Resolve(g, pool).nodes.at[v]) {
      ConflictsNeverGrow(g, pool, u, v);
      var a, b := if g.KindOf(u, v) == Some(GateReuse) then u else v,
                  if g.KindOf(u, v) == Some(GateReuse) then v else u;
      EnoughDrops(g, pool, a, b);
      KeptUnlessMoved(g, pool, a, b);
    }
  }

  /** With enough gates, one call on a covered graph leaves no conflict at all. */
  lemma EnoughResolvesAll(g: Graph, pool: seq<string>)
    requires g.Valid() && Covered(g) && Enough(g, pool)
    ensures NoConflict(Resolve(g, pool))
    ensures ReuseOverlaps(g) ==> NoReuse(Resolve(g, pool))
  {
    hide Resolve, Enough, Graph.Valid, Covered, Conflict, Overlaps;
    ResolveValid(g, pool);
    var h := Resolve(g, pool);
    forall u, v | u in h.nodes.at && v in h.nodes.at && u != v ensures !Conflict(h.nodes.at[u], h.nodes.at[v]) {
      EnoughNoConflict(g, pool, u, v);
    }
    if ReuseOverlaps(g) {
      forall u, v ensures h.KindOf(u, v) != Some(GateReuse) {
        DroppedExactly(g, pool, u, v);
        if g.KindOf(u, v) == Some(GateReuse) {
          EnoughDrops(g, pool, u, v);
        }
      }
    }
  }

  /** No gate_reuse edge joins overlapping flights. */
  ghost predicate NoClashLeft(g: Graph) {
    forall u, v :: g.KindOf(u, v) == Some(GateReuse) && u in g.nodes.at && v in g.nodes.at ==>
      !Overlaps(g.nodes.at[u], g.nodes.at[v])
  }

  lemma EnoughLeavesNone(g: Graph, pool: seq<string>)
    requires g.Valid() && Enough(g, pool)
    ensures NoClashLeft(Resolve(g, pool))
  {
    hide Resolve, Enough, Graph.Valid;
    var h := Resolve(g, pool);
    ResolveValid(g, pool);
    forall u, v | h.KindOf(u, v) == Some(GateReuse) && u in h.nodes.at && v in h.nodes.at
      ensures !Overlaps(h.nodes.at[u], h.nodes.at[v])
    {
      DroppedExactly(g, pool, u, v);
      ResolveNode(g, pool, u);
      ResolveNode(g, pool, v);
      if Overlaps(g.nodes.at[u], g.nodes.at[v]) {
        EnoughDrops(g, pool, u, v);
      }
    }
  }
}

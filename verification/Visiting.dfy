/** The order in which a search visits flights, as a function of the edges and the
    source alone: no delay enters it. */
module Visiting {
  import opened Flights
  import opened Dicts
  import opened Graphs
  import opened Propagation

  /** The neighbours not yet visited. */
  function Ahead(ns: seq<Key>, order: seq<Key>): seq<Key> {
    if ns == [] then [] else (if ns[0] in order then [] else [ns[0]]) + Ahead(ns[1..], order)
  }

  function Unvisited(known: set<Key>, order: seq<Key>): set<Key> {
    set k | k in known && k !in order
  }

  function VisitFrom(adj: map<Key, Dict<Kind>>, known: set<Key>, queue: seq<Key>, order: seq<Key>): seq<Key>
    decreases Unvisited(known, order), |queue|
  {
    if queue == [] then order
    else if queue[0] in order then VisitFrom(adj, known, queue[1..], order)
    else
      var next := order + [queue[0]];
      assert Unvisited(known, next) == Unvisited(known, order) - {queue[0]};
      if queue[0] in known then VisitFrom(adj, known, queue[1..] + Ahead(RowIn(adj, queue[0]).order, next), next)
      else VisitFrom(adj, known, queue[1..], next)
  }

  /** Breadth first from `src` over the edges between the known flights. */
  function VisitOrder(adj: map<Key, Dict<Kind>>, known: set<Key>, src: Key): seq<Key> {
    VisitFrom(adj, known, [src], [])
  }

  // ---- it is the breadth-first order ----

  /** The `p`-th visited flight is known and has an edge to `v`. */
  ghost predicate Feeds(adj: map<Key, Dict<Kind>>, known: set<Key>, order: seq<Key>, p: nat, v: Key) {
    p < |order| && order[p] in known && v in RowIn(adj, order[p]).order
  }

  /** It is the first visited one that does. */
  ghost predicate FirstFeeds(adj: map<Key, Dict<Kind>>, known: set<Key>, order: seq<Key>, p: nat, v: Key) {
    Feeds(adj, known, order, p, v) && forall q: nat :: q < p ==> !Feeds(adj, known, order, q, v)
  }

  /** The flight at place `i` has a first member leading to it, before it. */
  ghost predicate FedBefore(adj: map<Key, Dict<Kind>>, known: set<Key>, order: seq<Key>, i: nat)
    requires i < |order|
  {
    exists p: nat :: p < i && FirstFeeds(adj, known, order, p, order[i])
  }

  /** `a`, come by through the `p`-th flight, comes before `b`, come by through the
      `q`-th. */
  ghost predicate Sooner(adj: map<Key, Dict<Kind>>, order: seq<Key>, a: Key, p: nat, b: Key, q: nat) {
    p < q || (p == q < |order| && Before(RowIn(adj, order[p]).order, a, b))
  }

  /** The visited and then the waiting flights, and through which place each was come
      by: in order of these places, and for one place in the order of its edges. */
  ghost predicate Lined(adj: map<Key, Dict<Kind>>, known: set<Key>, order: seq<Key>, all: seq<Key>, via: seq<nat>) {
    && |via| == |all|
    && (forall i :: 0 < i < |all| ==> Feeds(adj, known, order, via[i], all[i]))
    && (forall i, j :: 0 < i < j < |all| ==> Sooner(adj, order, all[i], via[i], all[j], via[j]))
  }

  /** What a visited flight has an edge to was visited or waits because of it. */
  ghost predicate AllFed(adj: map<Key, Dict<Kind>>, known: set<Key>, order: seq<Key>, all: seq<Key>, via: seq<nat>) {
    forall p: nat, v :: Feeds(adj, known, order, p, v) ==> v in order || WaitsVia(order, all, via, p, v)
  }

  ghost predicate WaitsVia(order: seq<Key>, all: seq<Key>, via: seq<nat>, p: nat, v: Key) {
    exists i :: |order| <= i < |all| && i < |via| && all[i] == v && via[i] == p
  }

  /** Every visited flight but the first was come by through the first that has an
      edge to it. */
  ghost predicate FirstVia(adj: map<Key, Dict<Kind>>, known: set<Key>, order: seq<Key>, via: seq<nat>) {
    |order| <= |via| && forall i :: 0 < i < |order| ==> via[i] < i && FirstFeeds(adj, known, order, via[i], order[i])
  }

  ghost predicate Searching(adj: map<Key, Dict<Kind>>, known: set<Key>, src: Key, queue: seq<Key>, order: seq<Key>, via: seq<nat>) {
    && NoDup(order) && order + queue != [] && (order + queue)[0] == src
    && Lined(adj, known, order, order + queue, via) && AllFed(adj, known, order, order + queue, via)
    && FirstVia(adj, known, order, via)
  }

  lemma SkipLined(adj: map<Key, Dict<Kind>>, known: set<Key>, order: seq<Key>, all: seq<Key>, via: seq<nat>, n: nat)
    requires 0 < n < |all| && Lined(adj, known, order, all, via)
    ensures Lined(adj, known, order, all[..n] + all[n + 1..], via[..n] + via[n + 1..])
  {
    hide Feeds, Sooner;
    var all', via' := all[..n] + all[n + 1..], via[..n] + via[n + 1..];
    forall i | 0 <= i < |all'|
      ensures all'[i] == all[if i < n then i else i + 1] && via'[i] == via[if i < n then i else i + 1]
    {
    }
  }

  lemma SkipFed(adj: map<Key, Dict<Kind>>, known: set<Key>, order: seq<Key>, all: seq<Key>, via: seq<nat>)
    requires |order| < |all| == |via| && all[|order|] in order && AllFed(adj, known, order, all, via)
    ensures var n := |order|; AllFed(adj, known, order, all[..n] + all[n + 1..], via[..n] + via[n + 1..])
  {
    hide Feeds;
    var n := |order|;
    var all', via' := all[..n] + all[n + 1..], via[..n] + via[n + 1..];
    forall p: nat, v | Feeds(adj, known, order, p, v) && v !in order ensures WaitsVia(order, all', via', p, v) {
      var i :| n <= i < |all| && i < |via| && all[i] == v && via[i] == p;
      assert all'[i - 1] == v && via'[i - 1] == p;
    }
  }

  lemma SkipSearching(adj: map<Key, Dict<Kind>>, known: set<Key>, src: Key, queue: seq<Key>, order: seq<Key>, via: seq<nat>)
    requires Searching(adj, known, src, queue, order, via) && queue != [] && queue[0] in order
    ensures |via| == |order + queue|
    ensures Searching(adj, known, src, queue[1..], order, via[..|order|] + via[|order| + 1..])
  {
    hide Lined, AllFed, FirstFeeds, NoDup;
    var all, n := order + queue, |order|;
    LinedLength(adj, known, order, all, via);
    assert all[..n] + all[n + 1..] == order + queue[1..];
    SkipLined(adj, known, order, all, via, n);
    SkipFed(adj, known, order, all, via);
  }

  lemma FeedsGrows(adj: map<Key, Dict<Kind>>, known: set<Key>, order: seq<Key>, k: Key, p: nat, v: Key)
    ensures p < |order| ==> (Feeds(adj, known, order, p, v) <==> Feeds(adj, known, order + [k], p, v))
    ensures Feeds(adj, known, order, p, v) ==> p < |order|
  {
  }

  lemma SoonerGrows(adj: map<Key, Dict<Kind>>, order: seq<Key>, k: Key, a: Key, p: nat, b: Key, q: nat)
    requires Sooner(adj, order, a, p, b, q)
    ensures Sooner(adj, order + [k], a, p, b, q)
  {
  }

  /** The flight at the head of the queue was come by through the first visited one
      that has an edge to it. */
  lemma HeadIsFirst(adj: map<Key, Dict<Kind>>, known: set<Key>, order: seq<Key>, all: seq<Key>, via: seq<nat>)
    requires Lined(adj, known, order, all, via) && AllFed(adj, known, order, all, via)
    requires 0 < |order| < |all| && all[|order|] !in order
    ensures |via| == |all| && FirstFeeds(adj, known, order, via[|order|], all[|order|]) && via[|order|] < |order|
  {
    hide Before;
    var n := |order|;
    forall i | n < i < |all| ensures via[n] <= via[i] {
      assert Sooner(adj, order, all[n], via[n], all[i], via[i]);
    }
    forall q: nat | q < via[n] ensures !Feeds(adj, known, order, q, all[n]) {
      assert !WaitsVia(order, all, via, q, all[n]);
    }
  }

  lemma FirstFeedsGrows(adj: map<Key, Dict<Kind>>, known: set<Key>, order: seq<Key>, k: Key, p: nat, v: Key)
    requires FirstFeeds(adj, known, order, p, v)
    ensures FirstFeeds(adj, known, order + [k], p, v)
  {
    forall q: nat | q <= p ensures Feeds(adj, known, order, q, v) <==> Feeds(adj, known, order + [k], q, v) {
      FeedsGrows(adj, known, order, k, q, v);
    }
  }

  lemma {:induction false} AheadIs(ns: seq<Key>, order: seq<Key>)
    requires NoDup(ns)
    ensures forall x :: x in Ahead(ns, order) <==> x in ns && x !in order
    ensures forall i, j :: 0 <= i < j < |Ahead(ns, order)| ==> Before(ns, Ahead(ns, order)[i], Ahead(ns, order)[j])
  {
    hide Before;
    if ns != [] {
      NoDupRest(ns);
      AheadIs(ns[1..], order);
      var a, rest := Ahead(ns, order), Ahead(ns[1..], order);
      forall i, j | 0 <= i < j < |a| ensures Before(ns, a[i], a[j]) {
        var d := |a| - |rest|;
        assert a[j] == rest[j - d] && (i >= d ==> a[i] == rest[i - d]);
        BeforeRest(ns, a[i], a[j]);
      }
    }
  }

  /** Visiting the head `k` puts what it leads to at the end of the queue. */
  lemma VisitLined(adj: map<Key, Dict<Kind>>, known: set<Key>, order: seq<Key>, all: seq<Key>, via: seq<nat>, k: Key, more: seq<Key>)
    requires Lined(adj, known, order, all, via)
    requires forall x :: x in more ==> k in known && x in RowIn(adj, k).order
    requires forall i, j :: 0 <= i < j < |more| ==> Before(RowIn(adj, k).order, more[i], more[j])
    ensures Lined(adj, known, order + [k], all + more, via + seq(|more|, _ => |order|))
  {
    hide Before;
    var next, all', via' := order + [k], all + more, via + seq(|more|, _ => |order|);
    forall i | 0 < i < |all'| ensures Feeds(adj, known, next, via'[i], all'[i]) {
      if i < |all| {
        FeedsGrows(adj, known, order, k, via[i], all[i]);
      } else {
        assert all'[i] == more[i - |all|] && via'[i] == |order| && next[|order|] == k;
        assert more[i - |all|] in more;
      }
    }
    forall i, j | 0 < i < j < |all'| ensures Sooner(adj, next, all'[i], via'[i], all'[j], via'[j]) {
      if j < |all| {
        SoonerGrows(adj, order, k, all[i], via[i], all[j], via[j]);
      }
    }
  }

  lemma VisitFed(adj: map<Key, Dict<Kind>>, known: set<Key>, order: seq<Key>, all: seq<Key>, via: seq<nat>, k: Key, more: seq<Key>)
    requires |via| == |all| > |order| && all[|order|] == k && AllFed(adj, known, order, all, via)
    requires forall x :: k in known && x in RowIn(adj, k).order ==> x in more || x in order + [k]
    ensures AllFed(adj, known, order + [k], all + more, via + seq(|more|, _ => |order|))
  {
    var next, all', via' := order + [k], all + more, via + seq(|more|, _ => |order|);
    forall p: nat, v | Feeds(adj, known, next, p, v) && v !in next ensures WaitsVia(next, all', via', p, v) {
      if p < |order| {
        FeedsGrows(adj, known, order, k, p, v);
        assert v !in order;
        var i :| |order| <= i < |all| && i < |via| && all[i] == v && via[i] == p;
        assert all'[i] == v && via'[i] == p;
      } else {
        var i :| 0 <= i < |more| && more[i] == v;
        assert all'[|all| + i] == v && via'[|all| + i] == p;
      }
    }
  }

  lemma LinedLength(adj: map<Key, Dict<Kind>>, known: set<Key>, order: seq<Key>, all: seq<Key>, via: seq<nat>)
    requires Lined(adj, known, order, all, via)
    ensures |via| == |all|
  {
  }

  lemma VisitFirst(adj: map<Key, Dict<Kind>>, known: set<Key>, src: Key, queue: seq<Key>, order: seq<Key>, via: seq<nat>, more: seq<nat>)
    requires Searching(adj, known, src, queue, order, via) && queue != [] && queue[0] !in order
    ensures FirstVia(adj, known, order + [queue[0]], via + more)
  {
    hide Lined, AllFed, Feeds, NoDup;
    LinedLength(adj, known, order, order + queue, via);
    var next := order + [queue[0]];
    forall i | 0 < i < |next| ensures (via + more)[i] < i && FirstFeeds(adj, known, next, (via + more)[i], next[i]) {
      if i < |order| {
        FirstFeedsGrows(adj, known, order, queue[0], via[i], order[i]);
      } else {
        HeadIsFirst(adj, known, order, order + queue, via);
        FirstFeedsGrows(adj, known, order, queue[0], via[i], queue[0]);
      }
    }
  }

  lemma VisitSearching(adj: map<Key, Dict<Kind>>, known: set<Key>, src: Key, queue: seq<Key>, order: seq<Key>, via: seq<nat>)
    requires Searching(adj, known, src, queue, order, via) && queue != [] && queue[0] !in order
    requires NoDup(RowIn(adj, queue[0]).order)
    ensures var next := order + [queue[0]];
      var more := if queue[0] in known then Ahead(RowIn(adj, queue[0]).order, next) else [];
      Searching(adj, known, src, queue[1..] + more, next, via + seq(|more|, _ => |order|))
  {
    hide Lined, AllFed, FirstVia;
    var k := queue[0];
    var next := order + [k];
    var more := if k in known then Ahead(RowIn(adj, k).order, next) else [];
    assert next + (queue[1..] + more) == (order + queue) + more;
    AheadIs(RowIn(adj, k).order, next);
    VisitLined(adj, known, order, order + queue, via, k, more);
    LinedLength(adj, known, order, order + queue, via);
    VisitFed(adj, known, order, order + queue, via, k, more);
    VisitFirst(adj, known, src, queue, order, via, seq(|more|, _ => |order|));
  }

  /** Every row lists each neighbour once. */
  ghost predicate RowsOnce(adj: map<Key, Dict<Kind>>) {
    forall u :: u in adj ==> NoDup(adj[u].order)
  }

  lemma {:induction false} SearchEnds(adj: map<Key, Dict<Kind>>, known: set<Key>, src: Key, queue: seq<Key>, order: seq<Key>, via: seq<nat>)
    returns (end: seq<nat>)
    requires RowsOnce(adj) && Searching(adj, known, src, queue, order, via)
    ensures Searching(adj, known, src, [], VisitFrom(adj, known, queue, order), end)
    decreases Unvisited(known, order), |queue|
  {
    hide Searching;
    if queue == [] {
      end := via;
    } else if queue[0] in order {
      SkipSearching(adj, known, src, queue, order, via);
      end := SearchEnds(adj, known, src, queue[1..], order, via[..|order|] + via[|order| + 1..]);
    } else {
      var next := order + [queue[0]];
      assert Unvisited(known, next) == Unvisited(known, order) - {queue[0]};
      VisitSearching(adj, known, src, queue, order, via);
      var more := if queue[0] in known then Ahead(RowIn(adj, queue[0]).order, next) else [];
      assert queue[0] !in known ==> queue[1..] + more == queue[1..];
      end := SearchEnds(adj, known, src, queue[1..] + more, next, via + seq(|more|, _ => |order|));
    }
  }

  /** The visiting order is the breadth-first one, and nothing else is: it begins at the
      source and holds without repeats what its known members lead to; every later
      flight has a first member leading to it, which stands before it; and two flights
      stand in the order of these members, or, where they share one, in the order in
      which its edges were inserted. */
  lemma BreadthFirst(adj: map<Key, Dict<Kind>>, known: set<Key>, src: Key)
    requires RowsOnce(adj)
    ensures var order := VisitOrder(adj, known, src);
      && order != [] && order[0] == src && NoDup(order)
      && (forall p: nat, v :: Feeds(adj, known, order, p, v) ==> v in order)
      && (forall i :: 0 < i < |order| ==> FedBefore(adj, known, order, i))
      && (forall i, j, p: nat, q: nat :: 0 < i < j < |order| && FirstFeeds(adj, known, order, p, order[i])
                                         && FirstFeeds(adj, known, order, q, order[j]) ==>
            Sooner(adj, order, order[i], p, order[j], q))
  {
    var order := VisitOrder(adj, known, src);
    assert Searching(adj, known, src, [src], [], [0]);
    var via := SearchEnds(adj, known, src, [src], [], [0]);
    assert order + [] == order;
    forall i | 0 < i < |order| ensures FedBefore(adj, known, order, i) {
      assert via[i] < i && FirstFeeds(adj, known, order, via[i], order[i]);
    }
    forall i, j, p: nat, q: nat | 0 < i < j < |order| && FirstFeeds(adj, known, order, p, order[i])
                                  && FirstFeeds(adj, known, order, q, order[j])
      ensures Sooner(adj, order, order[i], p, order[j], q)
    {
      SameFirst(adj, known, order, p, via[i], order[i]);
      SameFirst(adj, known, order, q, via[j], order[j]);
    }
  }

  lemma SameFirst(adj: map<Key, Dict<Kind>>, known: set<Key>, order: seq<Key>, p: nat, q: nat, v: Key)
    requires FirstFeeds(adj, known, order, p, v) && FirstFeeds(adj, known, order, q, v)
    ensures p == q
  {
  }

  // ---- every search visits in that order ----

  function Waiting(s: Search): (ks: seq<Key>)
    ensures |ks| == |s.queue|
  {
    seq(|s.queue|, i requires 0 <= i < |s.queue| => s.queue[i].key)
  }

  /** The search has visited exactly `order`, in this order. */
  ghost predicate Visited(s: Search, order: seq<Key>) {
    && |s.visited| == |order|
    && (forall k :: k in s.visited <==> k in order)
    && (forall i :: 0 <= i < |order| ==> order[i] in s.visited && s.visited[order[i]].rank == i)
  }

  lemma {:induction false} RelaxAllWaits(s: Search, ns: seq<Key>, it: Item, order: seq<Key>)
    requires Visited(s, order) && forall n :: n in ns ==> n in s.g.nodes.at
    ensures Waiting(RelaxAll(s, ns, it)) == Waiting(s) + Ahead(ns, order)
    decreases |ns|
  {
    hide Relax, Visited, Waiting, Ahead;
    AheadNext(ns, order);
    if ns == [] {
      assert Waiting(s) + [] == Waiting(s);
    } else {
      var r, w := Relax(s, ns[0], it), Waiting(s);
      RelaxWaits(s, ns[0], it, order);
      VisitedSame(s, r, order);
      RelaxAllWaits(r, ns[1..], it, order);
      Regroup(w, if ns[0] in order then [] else [ns[0]], Ahead(ns[1..], order));
    }
  }

  lemma {:induction false} AheadNext(ns: seq<Key>, order: seq<Key>)
    ensures Ahead(ns, order) == if ns == [] then [] else (if ns[0] in order then [] else [ns[0]]) + Ahead(ns[1..], order)
  {
  }

  lemma RelaxWaits(s: Search, n: Key, it: Item, order: seq<Key>)
    requires Visited(s, order) && n in s.g.nodes.at
    ensures Waiting(Relax(s, n, it)) == Waiting(s) + if n in order then [] else [n]
  {
  }

  lemma MarkVisits(s: Search, order: seq<Key>)
    requires Visited(s, order) && s.queue != [] && s.queue[0].key !in order
    ensures Visited(Mark(s), order + [s.queue[0].key]) && Waiting(Mark(s)) == Waiting(s)[1..]
  {
    var t := Mark(s);
    assert |t.visited| == |s.visited| + 1;
    assert forall k :: k in order + [s.queue[0].key] <==> k in order || k == s.queue[0].key;
  }

  lemma {:induction false} RunVisits(s: Search, order: seq<Key>)
    requires Closed(s.g) && Visited(s, order)
    ensures Visited(Run(s), VisitFrom(s.g.adj, s.g.nodes.at.Keys, Waiting(s), order))
    decreases Left(s), |s.queue|
  {
    hide Relax, Visited;
    if s.queue != [] {
      var k, r := s.queue[0].key, Pop(s);
      PopShrinks(s);
      SameVisited(s, order, k);
      if k in order {
        assert Waiting(r) == Waiting(s)[1..];
        VisitedSame(s, r, order);
        RunVisits(r, order);
      } else {
        MarkVisits(s, order);
        if k in s.g.nodes.at {
          RelaxAllWaits(Mark(s), s.g.Row(k).order, s.queue[0], order + [k]);
          VisitedSame(Mark(s), r, order + [k]);
        }
        RunVisits(r, order + [k]);
      }
    }
  }

  lemma SameVisited(s: Search, order: seq<Key>, k: Key)
    requires Visited(s, order)
    ensures k in s.visited <==> k in order
  {
  }

  lemma VisitedSame(s: Search, t: Search, order: seq<Key>)
    requires Visited(s, order) && t.visited == s.visited
    ensures Visited(t, order)
  {
  }

  /** Whatever the delays, a propagation visits exactly the flights of the visiting
      order, each at its place in it. */
  lemma SearchVisitsInOrder(g: Graph, src: Key, d0: nat)
    requires Closed(g)
    ensures Visited(Run(Start(g, src, d0)), VisitOrder(g.adj, g.nodes.at.Keys, src))
  {
    hide Run;
    assert Waiting(Start(g, src, d0)) == [src];
    RunVisits(Start(g, src, d0), []);
  }
}

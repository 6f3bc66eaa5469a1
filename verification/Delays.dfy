/** What one propagation does to the delays of any graph, whatever delays the
    flights had before. */
module Delays {
  import opened Flights
  import opened Graphs
  import opened Decay
  import opened Propagation
  import opened Distances

  ghost predicate Reachable(g: Graph, src: Key, v: Key) {
    exists n: nat :: Walk(g, src, v, n)
  }

  /** `bound` is at least the source delay and every reachable prior delay. */
  ghost predicate Bounds(g: Graph, src: Key, d0: nat, bound: nat) {
    && d0 <= bound
    && (forall k, n: nat :: k in g.nodes.at && k != src && Walk(g, src, k, n) ==> g.nodes.at[k].delay <= bound)
  }

  /** `now` is `was` with its delay kept, or raised to at most one hop of `bound`. */
  ghost predicate Grown(was: Flight, now: Flight, bound: nat) {
    || now == was
    || (was.delay < now.delay <= Passed(bound) && now == was.(delay := now.delay, etype := Delay))
  }

  ghost predicate ItemOk(g: Graph, s: Search, src: Key, d0: nat, bound: nat, key: Key, delay: nat, hops: nat) {
    && After(hops, d0) <= delay <= bound
    && (key == src ==> delay == d0)
    && (key != src ==> key in g.nodes.at && key in s.g.nodes.at
                       && g.nodes.at[key].delay <= delay <= s.g.nodes.at[key].delay)
  }

  /** Delays during a search; g is the graph before it. */
  ghost predicate Values(s: Search, g: Graph, src: Key, d0: nat, bound: nat) {
    && SameShape(g, s.g)
    && (forall k :: k in g.nodes.at ==> Grown(g.nodes.at[k], s.g.nodes.at[k], bound))
    && (src in g.nodes.at ==> s.g.nodes.at[src] == g.nodes.at[src])
    && (forall i :: 0 <= i < |s.queue| ==>
          ItemOk(g, s, src, d0, bound, s.queue[i].key, s.queue[i].delay, s.queue[i].hops))
    && (forall k :: k in s.visited ==> ItemOk(g, s, src, d0, bound, k, s.visited[k].delay, s.visited[k].hops))
    && (src in s.visited || (s.visited == map[] && s.queue == [Item(src, d0, 0)]))
  }

  /** Relaxing raises delays only. */
  lemma ItemsKept(s: Search, g: Graph, src: Key, d0: nat, bound: nat, n: Key, it: Item)
    requires n in s.g.nodes.at && Values(s, g, src, d0, bound) && n !in s.visited
    ensures forall k, d: nat, h: nat :: ItemOk(g, s, src, d0, bound, k, d, h) ==> ItemOk(g, Relax(s, n, it), src, d0, bound, k, d, h)
  {
    hide Grown, Passed, After;
  }

  /** The neighbour's new delay is within its bounds. */
  lemma {:induction false} NeighbourGrown(s: Search, g: Graph, src: Key, d0: nat, bound: nat, n: Key, it: Item)
    requires n in s.g.nodes.at && Values(s, g, src, d0, bound) && Bounds(g, src, d0, bound) && Walk(g, src, n, it.hops + 1)
    requires n !in s.visited && src in s.visited && After(it.hops, d0) <= it.delay <= bound
    ensures n in g.nodes.at && Grown(g.nodes.at[n], Relax(s, n, it).g.nodes.at[n], bound)
    ensures ItemOk(g, Relax(s, n, it), src, d0, bound, n, Max(s.g.nodes.at[n].delay, Passed(it.delay)), it.hops + 1)
  {
    PassedMonotone(it.delay, bound);
    PassedMonotone(After(it.hops, d0), it.delay);
    assert Grown(g.nodes.at[n], s.g.nodes.at[n], bound);
  }

  lemma {:induction false} RelaxValues(s: Search, g: Graph, src: Key, d0: nat, bound: nat, n: Key, it: Item)
    requires n in s.g.nodes.at && Values(s, g, src, d0, bound) && src in s.visited
    requires Bounds(g, src, d0, bound) && Walk(g, src, n, it.hops + 1)
    requires After(it.hops, d0) <= it.delay <= bound
    ensures Values(Relax(s, n, it), g, src, d0, bound)
  {
    hide Grown, ItemOk, Bounds, Walk, Passed, After;
    if n !in s.visited {
      var r := Relax(s, n, it);
      ItemsKept(s, g, src, d0, bound, n, it);
      NeighbourGrown(s, g, src, d0, bound, n, it);
      forall i | 0 <= i < |r.queue|
        ensures ItemOk(g, r, src, d0, bound, r.queue[i].key, r.queue[i].delay, r.queue[i].hops)
      {
        if i < |s.queue| {
          assert r.queue[i] == s.queue[i];
        }
      }
    }
  }

  lemma SkipValues(s: Search, g: Graph, src: Key, d0: nat, bound: nat)
    requires s.queue != [] && Values(s, g, src, d0, bound) && s.queue[0].key in s.visited
    ensures Values(s.(queue := s.queue[1..]), g, src, d0, bound)
  {
  }

  lemma MarkValues(s: Search, g: Graph, src: Key, d0: nat, bound: nat)
    requires s.queue != [] && Values(s, g, src, d0, bound) && s.queue[0].key !in s.visited
    ensures Values(Mark(s), g, src, d0, bound)
    ensures src in Mark(s).visited
  {
  }

  // ---- the reported updates ----

  ghost predicate Raised(s: Search, g: Graph, k: Key) {
    k in g.nodes.at && k in s.g.nodes.at && s.g.nodes.at[k].delay > g.nodes.at[k].delay
  }

  ghost predicate ReportOk(s: Search, g: Graph, cur: nat, u: Update) {
    && Raised(s, g, u.key)
    && u.hops <= cur + 1
    && (if u.key in s.visited then s.visited[u.key].hops <= u.hops <= s.visited[u.key].hops + 1
        else Known(s, u.key, u.hops))
  }

  ghost predicate Reported(s: Search, g: Graph, cur: nat) {
    && (forall i :: 0 <= i < |s.updates| ==> ReportOk(s, g, cur, s.updates[i]))
    && (forall i, j :: 0 <= i < j < |s.updates| ==> s.updates[i].hops <= s.updates[j].hops)
    && (forall k :: Raised(s, g, k) ==> exists i :: 0 <= i < |s.updates| && s.updates[i].key == k)
  }

  lemma RelaxReportOk(s: Search, g: Graph, n: Key, it: Item, u: Update)
    requires n in s.g.nodes.at && ReportOk(s, g, it.hops, u)
    ensures ReportOk(Relax(s, n, it), g, it.hops, u)
  {
    if u.key !in s.visited {
      KnownAfterRelax(s, n, it, u.key, u.hops);
    }
  }

  lemma RelaxNewReport(s: Search, g: Graph, n: Key, it: Item)
    requires n in s.g.nodes.at && n in g.nodes.at
    requires g.nodes.at[n].delay <= s.g.nodes.at[n].delay
    requires Relax(s, n, it).updates != s.updates
    ensures Relax(s, n, it).updates == s.updates + [Update(n, it.hops + 1)]
    ensures ReportOk(Relax(s, n, it), g, it.hops, Update(n, it.hops + 1))
  {
    assert Relax(s, n, it).queue[|s.queue|].key == n;
  }

  lemma RelaxReported(s: Search, g: Graph, n: Key, it: Item)
    requires n in s.g.nodes.at && n in g.nodes.at && Reported(s, g, it.hops)
    requires g.nodes.at[n].delay <= s.g.nodes.at[n].delay
    ensures Reported(Relax(s, n, it), g, it.hops)
  {
    var r := Relax(s, n, it);
    if r.updates != s.updates {
      RelaxNewReport(s, g, n, it);
    }
    forall i | 0 <= i < |r.updates| ensures ReportOk(r, g, it.hops, r.updates[i]) {
      if i < |s.updates| {
        RelaxReportOk(s, g, n, it, s.updates[i]);
      }
    }
    forall k | Raised(r, g, k) ensures exists i :: 0 <= i < |r.updates| && r.updates[i].key == k {
      if Raised(s, g, k) {
        var i :| 0 <= i < |s.updates| && s.updates[i].key == k;
        assert r.updates[i].key == k;
      } else {
        assert r.updates[|s.updates|].key == k;
      }
    }
  }

  /** Popping keeps the reports: a node is popped at its reported hop count or
      one below it. */
  lemma PopReported(s: Search, t: Search, g: Graph, cur: nat)
    requires s.queue != [] && Reported(s, g, cur) && LevelOrder(s, cur)
    requires t == if s.queue[0].key in s.visited then s.(queue := s.queue[1..]) else Mark(s)
    ensures Reported(t, g, s.queue[0].hops)
  {
    var h := s.queue[0].hops;
    forall u: Update | ReportOk(s, g, cur, u) ensures ReportOk(t, g, h, u) {
      if u.key !in s.visited {
        KnownStays(s, t, u.key, u.hops);
      }
    }
    forall k | Raised(t, g, k) ensures exists i :: 0 <= i < |t.updates| && t.updates[i].key == k {
      assert Raised(s, g, k);
    }
  }

  lemma KnownStays(s: Search, t: Search, v: Key, n: nat)
    requires s.queue != [] && v !in s.visited && Known(s, v, n)
    requires forall j :: 0 <= j < |s.queue| ==> s.queue[0].hops <= s.queue[j].hops
    requires t == if s.queue[0].key in s.visited then s.(queue := s.queue[1..]) else Mark(s)
    ensures s.queue[0].hops <= n && Known(t, v, n)
  {
  }

  // ---- the whole run ----

  /** Everything known while the successors `ns` of the popped item are relaxed. */
  ghost predicate Relaxing(s: Search, g: Graph, src: Key, d0: nat, bound: nat, it: Item, ns: seq<Key>) {
    && Levels(s, g, src, it.hops, it.key, ns) && Values(s, g, src, d0, bound) && Reported(s, g, it.hops)
    && src in s.visited
    && it.key in s.visited && s.visited[it.key].delay == it.delay && s.visited[it.key].hops == it.hops
    && (forall n :: n in ns ==> n in g.nodes.at && g.HasEdge(it.key, n))
  }

  lemma RelaxKeeps(s: Search, g: Graph, src: Key, d0: nat, bound: nat, it: Item, ns: seq<Key>)
    requires Relaxing(s, g, src, d0, bound, it, ns) && Bounds(g, src, d0, bound)
    requires ns != [] && ns[0] in s.g.nodes.at
    ensures Relaxing(Relax(s, ns[0], it), g, src, d0, bound, it, ns[1..])
  {
    RelaxLevels(s, g, src, it, ns);
    assert Walk(g, src, it.key, s.visited[it.key].hops);
    WalkOn(g, src, it.key, ns[0], it.hops);
    assert ItemOk(g, s, src, d0, bound, it.key, s.visited[it.key].delay, s.visited[it.key].hops);
    RelaxValues(s, g, src, d0, bound, ns[0], it);
    assert Grown(g.nodes.at[ns[0]], s.g.nodes.at[ns[0]], bound);
    RelaxReported(s, g, ns[0], it);
  }

  /** Everything known between two turns of the loop. */
  ghost predicate Turning(s: Search, g: Graph, src: Key, d0: nat, bound: nat, cur: nat, u: Key) {
    Levels(s, g, src, cur, u, []) && Values(s, g, src, d0, bound) && Reported(s, g, cur)
  }

  lemma MarkRelaxing(s: Search, g: Graph, src: Key, d0: nat, bound: nat, cur: nat, u: Key)
    requires g.Valid() && s.queue != [] && s.queue[0].key in g.nodes.at
    requires Turning(s, g, src, d0, bound, cur, u) && s.queue[0].key !in s.visited
    ensures Relaxing(Mark(s), g, src, d0, bound, s.queue[0], g.Row(s.queue[0].key).order)
  {
    MarkLevels(s, g, src, cur, u, g.Row(s.queue[0].key).order);
    MarkValues(s, g, src, d0, bound);
    PopReported(s, Mark(s), g, cur);
  }

  lemma PopUnvisited(s: Search, g: Graph, src: Key, d0: nat, bound: nat, cur: nat, u: Key)
    requires g.Valid() && Closed(s.g) && s.queue != [] && Bounds(g, src, d0, bound)
    requires Turning(s, g, src, d0, bound, cur, u) && s.queue[0].key !in s.visited
    ensures Turning(Pop(s), g, src, d0, bound, s.queue[0].hops, s.queue[0].key)
  {
    var it := s.queue[0];
    var ns := g.Row(it.key).order;
    if it.key in g.nodes.at {
      MarkRelaxing(s, g, src, d0, bound, cur, u);
      forall t: Search, ms: seq<Key> | Relaxing(t, g, src, d0, bound, it, ms) && ms != [] && ms[0] in t.g.nodes.at
        ensures Relaxing(Relax(t, ms[0], it), g, src, d0, bound, it, ms[1..])
      {
        RelaxKeeps(t, g, src, d0, bound, it, ms);
      }
      RelaxInduction(Mark(s), ns, it, (t, ms) => Relaxing(t, g, src, d0, bound, it, ms));
    } else {
      MarkLevels(s, g, src, cur, u, []);
      MarkValues(s, g, src, d0, bound);
      PopReported(s, Mark(s), g, cur);
    }
  }

  lemma PopVisited(s: Search, g: Graph, src: Key, d0: nat, bound: nat, cur: nat, u: Key)
    requires Closed(s.g) && s.queue != [] && Turning(s, g, src, d0, bound, cur, u) && s.queue[0].key in s.visited
    ensures Turning(Pop(s), g, src, d0, bound, s.queue[0].hops, u)
  {
    SkipLevels(s, g, src, cur, u);
    SkipValues(s, g, src, d0, bound);
    PopReported(s, Pop(s), g, cur);
  }

  ghost predicate Turns(s: Search, g: Graph, src: Key, d0: nat, bound: nat) {
    exists cur: nat, u: Key :: Turning(s, g, src, d0, bound, cur, u)
  }

  lemma RunKeeps(g: Graph, src: Key, d0: nat, bound: nat) returns (last: nat, w: Key)
    requires g.Valid() && Bounds(g, src, d0, bound)
    ensures Closed(g) && Turning(Run(Start(g, src, d0)), g, src, d0, bound, last, w)
  {
    ValidClosed(g);
    StartTurning(g, src, d0, bound);
    forall t: Search | Turns(t, g, src, d0, bound) && t.queue != [] && Closed(t.g)
      ensures Turns(Pop(t), g, src, d0, bound)
    {
      var cur: nat, u: Key :| Turning(t, g, src, d0, bound, cur, u);
      if t.queue[0].key in t.visited {
        PopVisited(t, g, src, d0, bound, cur, u);
      } else {
        PopUnvisited(t, g, src, d0, bound, cur, u);
      }
    }
    RunInduction(Start(g, src, d0), t => Turns(t, g, src, d0, bound));
    last, w :| Turning(Run(Start(g, src, d0)), g, src, d0, bound, last, w);
  }

  lemma StartTurning(g: Graph, src: Key, d0: nat, bound: nat)
    requires g.Valid() && Bounds(g, src, d0, bound)
    ensures Turning(Start(g, src, d0), g, src, d0, bound, 0, src)
  {
    var s := Start(g, src, d0);
    StartLevels(g, src, d0);
    assert ItemOk(g, s, src, d0, bound, src, d0, 0);
  }

  /** Propagation on any graph with any prior delays: shape and unreachable
      flights are untouched, the source keeps its record, no delay falls, every
      reachable flight ends with at least what its distance leaves of the source
      delay, and a raised one with at most one hop of the largest delay around. */
  lemma {:induction false} PropagationBounds(g: Graph, src: Key, d0: nat, bound: nat, v: Key)
    requires g.Valid() && Bounds(g, src, d0, bound) && v in g.nodes.at
    ensures Closed(g) && v in Propagate(g, src, d0).0.nodes.at
    ensures Grown(g.nodes.at[v], Propagate(g, src, d0).0.nodes.at[v], bound)
    ensures v == src || !Reachable(g, src, v) ==> Propagate(g, src, d0).0.nodes.at[v] == g.nodes.at[v]
    ensures forall n: nat :: v != src && IsDist(g, src, v, n) ==>
              Propagate(g, src, d0).0.nodes.at[v].delay >= After(n, d0)
  {
    var last, w := RunKeeps(g, src, d0, bound);
    var s := Run(Start(g, src, d0));
    FinalDistances(s, g, src, last, w, v);
    if Raised(s, g, v) {
      var i :| 0 <= i < |s.updates| && s.updates[i].key == v;
      assert ReportOk(s, g, last, s.updates[i]);
      assert Walk(g, src, v, s.visited[v].hops);
    }
    forall n: nat | v != src && IsDist(g, src, v, n)
      ensures s.g.nodes.at[v].delay >= After(n, d0)
    {
      assert ItemOk(g, s, src, d0, bound, v, s.visited[v].delay, s.visited[v].hops);
      DistUnique(g, src, v, n, s.visited[v].hops);
    }
  }

  lemma ReportedHops(s: Search, g: Graph, src: Key, last: nat, w: Key, i: nat) returns (n: nat)
    requires s.queue == [] && Levels(s, g, src, last, w, []) && Reported(s, g, last) && i < |s.updates|
    ensures IsDist(g, src, s.updates[i].key, n) && n <= s.updates[i].hops <= n + 1
  {
    var u := s.updates[i];
    assert ReportOk(s, g, last, u);
    FinalDistances(s, g, src, last, w, u.key);
    n := s.visited[u.key].hops;
  }

  ghost predicate NearDist(g: Graph, src: Key, v: Key, hops: nat) {
    exists n: nat :: IsDist(g, src, v, n) && n <= hops <= n + 1
  }

  ghost predicate Lists(us: seq<Update>, k: Key) {
    exists i :: 0 <= i < |us| && us[i].key == k
  }

  /** The returned list holds exactly the raised flights, in non-decreasing hop
      order, each with its distance or one more. */
  lemma PropagationReport(g: Graph, src: Key, d0: nat)
    requires g.Valid()
    ensures Closed(g)
    ensures forall k :: Lists(Propagate(g, src, d0).1, k) <==>
              k in g.nodes.at && Propagate(g, src, d0).0.nodes.at[k].delay > g.nodes.at[k].delay
    ensures forall i, j :: 0 <= i < j < |Propagate(g, src, d0).1| ==>
              Propagate(g, src, d0).1[i].hops <= Propagate(g, src, d0).1[j].hops
    ensures forall i :: 0 <= i < |Propagate(g, src, d0).1| ==>
              NearDist(g, src, Propagate(g, src, d0).1[i].key, Propagate(g, src, d0).1[i].hops)
  {
    var bound := BoundExists(g, src, d0);
    var last, w := RunKeeps(g, src, d0, bound);
    var s := Run(Start(g, src, d0));
    forall i | 0 <= i < |s.updates|
      ensures NearDist(g, src, s.updates[i].key, s.updates[i].hops)
    {
      var n := ReportedHops(s, g, src, last, w, i);
    }
    forall k ensures Lists(s.updates, k) <==> Raised(s, g, k) {
      if Lists(s.updates, k) {
        var i :| 0 <= i < |s.updates| && s.updates[i].key == k;
        assert ReportOk(s, g, last, s.updates[i]);
      }
    }
  }

  /** A bound always exists. */
  lemma BoundExists(g: Graph, src: Key, d0: nat) returns (bound: nat)
    requires g.Valid()
    ensures Bounds(g, src, d0, bound)
    ensures forall k :: k in g.nodes.at ==> g.nodes.at[k].delay <= bound
  {
    bound := BoundFrom(g, g.nodes.order, d0);
    assert forall k :: k in g.nodes.at ==> k in g.nodes.order;
  }

  lemma {:induction false} BoundFrom(g: Graph, order: seq<Key>, d0: nat) returns (bound: nat)
    requires forall k :: k in order ==> k in g.nodes.at
    ensures d0 <= bound && forall k :: k in order ==> g.nodes.at[k].delay <= bound
  {
    if order == [] {
      bound := d0;
    } else {
      var b := BoundFrom(g, order[1..], d0);
      bound := Max(b, g.nodes.at[order[0]].delay);
    }
  }
}

/** When no prior delay exceeds what its distance leaves of the source delay,
    propagation computes a closed form of the distances. */
module ClosedForm {
  import opened Flights
  import opened Graphs
  import opened Decay
  import opened Propagation
  import opened Distances
  import opened Delays

  /** No reachable flight starts with more than its distance would give it. */
  ghost predicate Dominated(g: Graph, src: Key, d0: nat) {
    forall v, n: nat :: v in g.nodes.at && v != src && IsDist(g, src, v, n) ==>
      g.nodes.at[v].delay <= After(n, d0)
  }

  ghost predicate Seen(s: Search, v: Key) {
    v in s.visited || Queued(s, v)
  }

  /** Whatever is within `h` hops has been seen. */
  ghost predicate Frontier(s: Search, g: Graph, src: Key, h: nat) {
    forall v, n: nat :: n <= h && Walk(g, src, v, n) ==> Seen(s, v)
  }

  /** Seen flights already hold their final delay; the others are untouched. */
  ghost predicate Exact(s: Search, g: Graph, src: Key, d0: nat) {
    && s.g.nodes.at.Keys == g.nodes.at.Keys
    && (forall v, n: nat :: v in g.nodes.at && v != src && Seen(s, v) && IsDist(g, src, v, n) ==>
          s.g.nodes.at[v].delay == After(n, d0))
    && (forall v :: v in g.nodes.at && !Seen(s, v) ==> s.g.nodes.at[v].delay == g.nodes.at[v].delay)
    && (forall i, n: nat :: 0 <= i < |s.queue| && IsDist(g, src, s.queue[i].key, n) ==>
          s.queue[i].delay == After(n, d0))
  }

  /** Each report is the first and only one for its flight, at its distance. */
  ghost predicate Once(s: Search, g: Graph, src: Key) {
    && (forall i :: 0 <= i < |s.updates| ==>
          IsDist(g, src, s.updates[i].key, s.updates[i].hops) && Seen(s, s.updates[i].key))
    && (forall i, j :: 0 <= i < j < |s.updates| ==> s.updates[i].key != s.updates[j].key)
  }

  lemma RelaxSeen(s: Search, n: Key, it: Item)
    requires n in s.g.nodes.at
    ensures forall v :: Seen(Relax(s, n, it), v) <==> Seen(s, v) || v == n
  {
    var r := Relax(s, n, it);
    forall v ensures Seen(r, v) <==> Seen(s, v) || v == n {
      if Queued(s, v) {
        var i :| 0 <= i < |s.queue| && s.queue[i].key == v;
        assert r.queue[i].key == v;
      }
      if v == n && n !in s.visited {
        assert r.queue[|s.queue|].key == n;
      }
      if Queued(r, v) && v != n {
        var i :| 0 <= i < |r.queue| && r.queue[i].key == v;
        assert s.queue[i].key == v;
      }
    }
  }

  /** The distance of a neighbour that nobody has seen yet is one hop on. */
  lemma {:induction false} UnseenDist(s: Search, g: Graph, src: Key, it: Item, n: Key)
    requires Frontier(s, g, src, it.hops) && !Seen(s, n)
    requires Walk(g, src, it.key, it.hops) && g.HasEdge(it.key, n)
    ensures IsDist(g, src, n, it.hops + 1)
  {
  }

  lemma DistStep(g: Graph, src: Key, u: Key, v: Key, n: nat, m: nat)
    requires IsDist(g, src, u, n) && IsDist(g, src, v, m) && g.HasEdge(u, v)
    ensures m <= n + 1
  {
    WalkOn(g, src, u, v, n);
  }

  /** Passing on one hop's decay to a neighbour that holds its final delay
      changes nothing; to a new one it gives its final delay. */
  lemma {:induction false} DelayStep(g: Graph, src: Key, d0: nat, u: Key, h: nat, n: Key, m: nat, have: nat, seen: bool)
    requires Dominated(g, src, d0) && n in g.nodes.at && n != src
    requires IsDist(g, src, u, h) && IsDist(g, src, n, m) && g.HasEdge(u, n)
    requires if seen then have == After(m, d0) else m == h + 1 && have == g.nodes.at[n].delay
    ensures Max(have, Passed(After(h, d0))) == After(m, d0)
  {
    assert Passed(After(h, d0)) == After(h + 1, d0);
    DistStep(g, src, u, n, h, m);
    AfterAntitone(m, h + 1, d0);
  }

  lemma {:induction false} RelaxedDelay(s: Search, g: Graph, src: Key, d0: nat, it: Item, n: Key, m: nat)
    requires Exact(s, g, src, d0) && Frontier(s, g, src, it.hops) && Dominated(g, src, d0)
    requires n in g.nodes.at && n != src && n in s.g.nodes.at
    requires IsDist(g, src, it.key, it.hops) && it.delay == After(it.hops, d0) && g.HasEdge(it.key, n)
    requires IsDist(g, src, n, m)
    ensures Max(s.g.nodes.at[n].delay, Passed(it.delay)) == After(m, d0)
    ensures Seen(s, n) ==> s.g.nodes.at[n].delay == After(m, d0)
    ensures !Seen(s, n) ==> m == it.hops + 1
  {
    if !Seen(s, n) {
      UnseenDist(s, g, src, it, n);
      DistUnique(g, src, n, m, it.hops + 1);
    }
    DelayStep(g, src, d0, it.key, it.hops, n, m, s.g.nodes.at[n].delay, Seen(s, n));
  }

  lemma {:induction false} RelaxExact(s: Search, g: Graph, src: Key, d0: nat, it: Item, n: Key)
    requires Exact(s, g, src, d0) && Frontier(s, g, src, it.hops) && Dominated(g, src, d0)
    requires n in g.nodes.at && n != src && n in s.g.nodes.at
    requires IsDist(g, src, it.key, it.hops) && it.delay == After(it.hops, d0) && g.HasEdge(it.key, n)
    ensures Exact(Relax(s, n, it), g, src, d0)
  {
    RelaxSeen(s, n, it);
    var r := Relax(s, n, it);
    if n !in s.visited {
      var next := Max(s.g.nodes.at[n].delay, Passed(it.delay));
      assert r.g.nodes.at[n].delay == next;
      forall m: nat | IsDist(g, src, n, m) ensures next == After(m, d0) {
        RelaxedDelay(s, g, src, d0, it, n, m);
      }
      forall i, m: nat | 0 <= i < |r.queue| && IsDist(g, src, r.queue[i].key, m)
        ensures r.queue[i].delay == After(m, d0)
      {
        if i < |s.queue| {
          assert r.queue[i] == s.queue[i];
        }
      }
    }
  }

  lemma RelaxUpdates(s: Search, n: Key, it: Item)
    requires n in s.g.nodes.at
    ensures Relax(s, n, it).updates == s.updates
            || (Relax(s, n, it).updates == s.updates + [Update(n, it.hops + 1)]
                && s.g.nodes.at[n].delay != Max(s.g.nodes.at[n].delay, Passed(it.delay)))
  {
  }

  /** Only a flight never seen before is reported. */
  lemma {:induction false} ReportIsFirst(s: Search, g: Graph, src: Key, d0: nat, it: Item, n: Key, m: nat)
    requires Exact(s, g, src, d0) && Frontier(s, g, src, it.hops) && Dominated(g, src, d0)
    requires n in g.nodes.at && n != src && n in s.g.nodes.at
    requires IsDist(g, src, it.key, it.hops) && it.delay == After(it.hops, d0) && g.HasEdge(it.key, n)
    requires IsDist(g, src, n, m)
    ensures var us := Relax(s, n, it).updates;
      us == s.updates || (!Seen(s, n) && m == it.hops + 1 && us == s.updates + [Update(n, m)])
  {
    RelaxUpdates(s, n, it);
    RelaxedDelay(s, g, src, d0, it, n, m);
  }

  lemma RelaxOnce(s: Search, g: Graph, src: Key, d0: nat, it: Item, n: Key, m: nat)
    requires Once(s, g, src) && n in s.g.nodes.at && IsDist(g, src, n, m)
    requires var us := Relax(s, n, it).updates;
      us == s.updates || (!Seen(s, n) && m == it.hops + 1 && us == s.updates + [Update(n, m)])
    ensures Once(Relax(s, n, it), g, src)
  {
    RelaxSeen(s, n, it);
  }

  lemma PopSeen(s: Search, t: Search)
    requires s.queue != []
    requires t == if s.queue[0].key in s.visited then s.(queue := s.queue[1..]) else Mark(s)
    ensures forall v :: Seen(t, v) <==> Seen(s, v)
  {
  }

  /** Once the queue starts at h hops, everything within h hops has been seen. */
  lemma FrontierReached(s: Search, g: Graph, src: Key, cur: nat, u: Key)
    requires s.queue != [] && Levels(s, g, src, cur, u, [])
    ensures Frontier(s, g, src, s.queue[0].hops)
  {
    forall v, n: nat | n <= s.queue[0].hops && Walk(g, src, v, n) ensures Seen(s, v) {
      WalkKnown(s, g, src, cur, u, v, n);
    }
  }

  lemma {:induction false} DistExists(g: Graph, src: Key, v: Key, n: nat) returns (m: nat)
    requires Walk(g, src, v, n)
    ensures m <= n && IsDist(g, src, v, m)
  {
    if IsDist(g, src, v, n) {
      m := n;
    } else {
      var k: nat :| k < n && Walk(g, src, v, k);
      m := DistExists(g, src, v, k);
    }
  }

  // ---- the run ----

  ghost predicate ExactRelaxing(s: Search, g: Graph, src: Key, d0: nat, bound: nat, it: Item, ns: seq<Key>) {
    && Relaxing(s, g, src, d0, bound, it, ns)
    && Exact(s, g, src, d0) && Once(s, g, src) && Frontier(s, g, src, it.hops)
  }

  lemma {:induction false} ExactStep(s: Search, g: Graph, src: Key, d0: nat, it: Item, n: Key)
    requires Exact(s, g, src, d0) && Once(s, g, src) && Frontier(s, g, src, it.hops) && Dominated(g, src, d0)
    requires n in g.nodes.at && (n == src ==> n in s.visited) && n in s.g.nodes.at
    requires IsDist(g, src, it.key, it.hops) && it.delay == After(it.hops, d0) && g.HasEdge(it.key, n)
    ensures Exact(Relax(s, n, it), g, src, d0) && Once(Relax(s, n, it), g, src)
    ensures Frontier(Relax(s, n, it), g, src, it.hops)
  {
    if n !in s.visited {
      WalkOn(g, src, it.key, n, it.hops);
      var m := DistExists(g, src, n, it.hops + 1);
      RelaxExact(s, g, src, d0, it, n);
      ReportIsFirst(s, g, src, d0, it, n, m);
      RelaxOnce(s, g, src, d0, it, n, m);
      RelaxSeen(s, n, it);
    }
  }

  lemma {:induction false} ExactRelaxKeeps(s: Search, g: Graph, src: Key, d0: nat, bound: nat, it: Item, ns: seq<Key>)
    requires ExactRelaxing(s, g, src, d0, bound, it, ns) && Bounds(g, src, d0, bound) && Dominated(g, src, d0)
    requires IsDist(g, src, it.key, it.hops) && it.delay == After(it.hops, d0)
    requires ns != [] && ns[0] in s.g.nodes.at
    ensures ExactRelaxing(Relax(s, ns[0], it), g, src, d0, bound, it, ns[1..])
  {
    RelaxKeeps(s, g, src, d0, bound, it, ns);
    ExactStep(s, g, src, d0, it, ns[0]);
  }

  ghost predicate ExactTurning(s: Search, g: Graph, src: Key, d0: nat, bound: nat, cur: nat, u: Key) {
    Turning(s, g, src, d0, bound, cur, u) && Exact(s, g, src, d0) && Once(s, g, src)
  }

  lemma DropExact(s: Search, t: Search, g: Graph, src: Key, d0: nat)
    requires s.queue != [] && Exact(s, g, src, d0) && Once(s, g, src)
    requires t == if s.queue[0].key in s.visited then s.(queue := s.queue[1..]) else Mark(s)
    ensures Exact(t, g, src, d0) && Once(t, g, src)
  {
    PopSeen(s, t);
    forall i, n: nat | 0 <= i < |t.queue| && IsDist(g, src, t.queue[i].key, n)
      ensures t.queue[i].delay == After(n, d0)
    {
      assert t.queue[i] == s.queue[i + 1];
    }
  }

  lemma {:induction false} ExactMark(s: Search, g: Graph, src: Key, d0: nat, bound: nat, cur: nat, u: Key)
    requires g.Valid() && s.queue != [] && s.queue[0].key in g.nodes.at
    requires ExactTurning(s, g, src, d0, bound, cur, u) && s.queue[0].key !in s.visited
    ensures ExactRelaxing(Mark(s), g, src, d0, bound, s.queue[0], g.Row(s.queue[0].key).order)
    ensures IsDist(g, src, s.queue[0].key, s.queue[0].hops)
    ensures s.queue[0].delay == After(s.queue[0].hops, d0)
  {
    DropExact(s, Mark(s), g, src, d0);
    MarkRelaxing(s, g, src, d0, bound, cur, u);
    PopsAtDistance(s, g, src, cur, u);
    FrontierReached(s, g, src, cur, u);
    PopSeen(s, Mark(s));
  }

  lemma {:induction false} ExactRelaxAll(t: Search, g: Graph, src: Key, d0: nat, bound: nat, it: Item, ns: seq<Key>)
    requires ExactRelaxing(t, g, src, d0, bound, it, ns) && Bounds(g, src, d0, bound) && Dominated(g, src, d0)
    requires IsDist(g, src, it.key, it.hops) && it.delay == After(it.hops, d0)
    requires forall n :: n in ns ==> n in t.g.nodes.at
    ensures Exact(RelaxAll(t, ns, it), g, src, d0) && Once(RelaxAll(t, ns, it), g, src)
  {
    forall r: Search, ms: seq<Key> | ExactRelaxing(r, g, src, d0, bound, it, ms) && ms != [] && ms[0] in r.g.nodes.at
      ensures ExactRelaxing(Relax(r, ms[0], it), g, src, d0, bound, it, ms[1..])
    {
      ExactRelaxKeeps(r, g, src, d0, bound, it, ms);
    }
    RelaxInduction(t, ns, it, (r, ms) => ExactRelaxing(r, g, src, d0, bound, it, ms));
  }

  lemma ExactPopUnvisited(s: Search, g: Graph, src: Key, d0: nat, bound: nat, cur: nat, u: Key)
    requires g.Valid() && Closed(s.g) && s.queue != [] && Bounds(g, src, d0, bound) && Dominated(g, src, d0)
    requires ExactTurning(s, g, src, d0, bound, cur, u) && s.queue[0].key !in s.visited
    ensures Exact(Pop(s), g, src, d0) && Once(Pop(s), g, src)
  {
    if s.queue[0].key in s.g.nodes.at {
      ExactMark(s, g, src, d0, bound, cur, u);
      ExactRelaxAll(Mark(s), g, src, d0, bound, s.queue[0], s.g.Row(s.queue[0].key).order);
    } else {
      DropExact(s, Mark(s), g, src, d0);
    }
  }

  ghost predicate ExactTurns(s: Search, g: Graph, src: Key, d0: nat, bound: nat) {
    exists cur: nat, u: Key :: ExactTurning(s, g, src, d0, bound, cur, u)
  }

  lemma ExactStart(g: Graph, src: Key, d0: nat, bound: nat)
    requires g.Valid() && Bounds(g, src, d0, bound)
    ensures ExactTurns(Start(g, src, d0), g, src, d0, bound)
  {
    var s := Start(g, src, d0);
    StartTurning(g, src, d0, bound);
    forall n: nat | IsDist(g, src, src, n) ensures n == 0 {
      DistUnique(g, src, src, n, 0);
    }
    forall v | Seen(s, v) ensures v == src {
    }
    assert ExactTurning(s, g, src, d0, bound, 0, src);
  }

  lemma ExactPop(s: Search, g: Graph, src: Key, d0: nat, bound: nat)
    requires g.Valid() && Closed(s.g) && s.queue != [] && Bounds(g, src, d0, bound) && Dominated(g, src, d0)
    requires ExactTurns(s, g, src, d0, bound)
    ensures ExactTurns(Pop(s), g, src, d0, bound)
  {
    var cur: nat, u: Key :| ExactTurning(s, g, src, d0, bound, cur, u);
    if s.queue[0].key in s.visited {
      PopVisited(s, g, src, d0, bound, cur, u);
      DropExact(s, Pop(s), g, src, d0);
      assert ExactTurning(Pop(s), g, src, d0, bound, s.queue[0].hops, u);
    } else {
      PopUnvisited(s, g, src, d0, bound, cur, u);
      ExactPopUnvisited(s, g, src, d0, bound, cur, u);
      assert ExactTurning(Pop(s), g, src, d0, bound, s.queue[0].hops, s.queue[0].key);
    }
  }

  lemma ExactRun(g: Graph, src: Key, d0: nat, bound: nat) returns (last: nat, w: Key)
    requires g.Valid() && Bounds(g, src, d0, bound) && Dominated(g, src, d0)
    ensures Closed(g) && ExactTurning(Run(Start(g, src, d0)), g, src, d0, bound, last, w)
  {
    ValidClosed(g);
    ExactStart(g, src, d0, bound);
    forall t: Search | ExactTurns(t, g, src, d0, bound) && t.queue != [] && Closed(t.g)
      ensures ExactTurns(Pop(t), g, src, d0, bound)
    {
      ExactPop(t, g, src, d0, bound);
    }
    RunInduction(Start(g, src, d0), t => ExactTurns(t, g, src, d0, bound));
    last, w :| ExactTurning(Run(Start(g, src, d0)), g, src, d0, bound, last, w);
  }

  /** On a dominated graph every reachable flight other than the source ends with
      exactly After(distance, source delay), and nothing else changes. */
  lemma {:induction false} PropagationExact(g: Graph, src: Key, d0: nat, v: Key)
    requires g.Valid() && Dominated(g, src, d0) && v in g.nodes.at
    ensures Closed(g) && v in Propagate(g, src, d0).0.nodes.at
    ensures forall n: nat :: v != src && IsDist(g, src, v, n) ==>
              Propagate(g, src, d0).0.nodes.at[v].delay == After(n, d0)
    ensures v == src || !Reachable(g, src, v) ==> Propagate(g, src, d0).0.nodes.at[v] == g.nodes.at[v]
  {
    var bound := BoundExists(g, src, d0);
    PropagationBounds(g, src, d0, bound, v);
    var last, w := ExactRun(g, src, d0, bound);
    FinalDistances(Run(Start(g, src, d0)), g, src, last, w, v);
  }

  /** On a dominated graph the returned list holds each changed flight exactly
      once, with its distance as hop count. */
  lemma {:induction false} ReportExact(g: Graph, src: Key, d0: nat)
    requires g.Valid() && Dominated(g, src, d0)
    ensures Closed(g)
    ensures forall i, j :: 0 <= i < j < |Propagate(g, src, d0).1| ==>
              Propagate(g, src, d0).1[i].key != Propagate(g, src, d0).1[j].key
    ensures forall i :: 0 <= i < |Propagate(g, src, d0).1| ==>
              IsDist(g, src, Propagate(g, src, d0).1[i].key, Propagate(g, src, d0).1[i].hops)
    ensures forall v, n: nat :: v in g.nodes.at && v != src && IsDist(g, src, v, n) ==>
              (Lists(Propagate(g, src, d0).1, v) <==> g.nodes.at[v].delay != After(n, d0))
  {
    var bound := BoundExists(g, src, d0);
    var last, w := ExactRun(g, src, d0, bound);
    PropagationReport(g, src, d0);
    forall v, n: nat | v in g.nodes.at && v != src && IsDist(g, src, v, n)
      ensures Lists(Propagate(g, src, d0).1, v) <==> g.nodes.at[v].delay != After(n, d0)
    {
      PropagationExact(g, src, d0, v);
    }
  }

  /** With no prior delays anywhere, no flight further than the point where the
      source delay has died out is ever reported. */
  lemma {:induction false} NothingBeyondRadius(g: Graph, src: Key, d0: nat, v: Key, n: nat)
    requires g.Valid() && IsDist(g, src, v, n) && Pow(4, n) > Pow(3, n) * d0
    requires forall k :: k in g.nodes.at ==> g.nodes.at[k].delay == 0
    ensures Closed(g) && !Lists(Propagate(g, src, d0).1, v)
  {
    ReportExact(g, src, d0);
    PropagationReport(g, src, d0);
    DiesOut(n, d0);
    if v == src && v in g.nodes.at {
      PropagationExact(g, src, d0, v);
    }
  }
}

/** The search visits nodes in order of distance: what it knows about hop counts
    at every turn of the loop, on any graph, cyclic ones included. */
module Distances {
  import opened Flights
  import opened Graphs
  import opened Propagation

  /** The length of a shortest walk from src to v. */
  ghost predicate IsDist(g: Graph, src: Key, v: Key, n: nat) {
    Walk(g, src, v, n) && forall m: nat :: m < n ==> !Walk(g, src, v, m)
  }

  ghost predicate Queued(s: Search, v: Key) {
    exists i :: 0 <= i < |s.queue| && s.queue[i].key == v
  }

  /** v was popped, or waits in the queue, with at most n hops. */
  ghost predicate Known(s: Search, v: Key, n: nat) {
    || (v in s.visited && s.visited[v].hops <= n)
    || (exists i :: 0 <= i < |s.queue| && s.queue[i].key == v && s.queue[i].hops <= n)
  }

  /** The queue holds entries of one hop count, then of the next. */
  ghost predicate LevelOrder(s: Search, cur: nat) {
    && (forall i :: 0 <= i < |s.queue| ==> cur <= s.queue[i].hops <= cur + 1)
    && (forall i, j :: 0 <= i < j < |s.queue| ==> s.queue[i].hops <= s.queue[j].hops)
    && (forall k :: k in s.visited ==> s.visited[k].hops <= cur)
  }

  /** Every hop count belongs to a walk; g is the graph before the call. */
  ghost predicate LevelWalks(s: Search, g: Graph, src: Key) {
    && (forall k :: k in s.visited ==> Walk(g, src, k, s.visited[k].hops))
    && (forall i :: 0 <= i < |s.queue| ==> Walk(g, src, s.queue[i].key, s.queue[i].hops))
  }

  /** Successors of visited nodes are known one hop on, except those of `u`
      that are still to be relaxed. */
  ghost predicate LevelEdges(s: Search, g: Graph, u: Key, ns: seq<Key>) {
    forall a, b :: a in s.visited && g.HasEdge(a, b) && !(a == u && b in ns) ==>
      Known(s, b, s.visited[a].hops + 1)
  }

  ghost predicate Levels(s: Search, g: Graph, src: Key, cur: nat, u: Key, ns: seq<Key>) {
    && s.g.adj == g.adj
    && LevelOrder(s, cur)
    && LevelWalks(s, g, src)
    && Known(s, src, 0)
    && LevelEdges(s, g, u, ns)
  }

  lemma KnownAfterRelax(s: Search, n: Key, it: Item, v: Key, m: nat)
    requires n in s.g.nodes.at && Known(s, v, m)
    ensures Known(Relax(s, n, it), v, m)
  {
    var r := Relax(s, n, it);
    if !(v in s.visited && s.visited[v].hops <= m) {
      var i :| 0 <= i < |s.queue| && s.queue[i].key == v && s.queue[i].hops <= m;
      assert r.queue[i] == s.queue[i];
    }
  }

  /** The relaxed neighbour is known one hop on; nothing else is forgotten. */
  lemma RelaxKnown(s: Search, n: Key, it: Item)
    requires n in s.g.nodes.at
    requires forall k :: k in s.visited ==> s.visited[k].hops <= it.hops
    ensures Known(Relax(s, n, it), n, it.hops + 1)
    ensures forall v, m: nat :: Known(s, v, m) ==> Known(Relax(s, n, it), v, m)
  {
    if n !in s.visited {
      assert Relax(s, n, it).queue[|s.queue|].key == n;
    }
    forall v, m: nat | Known(s, v, m) ensures Known(Relax(s, n, it), v, m) {
      KnownAfterRelax(s, n, it, v, m);
    }
  }

  lemma RelaxOrder(s: Search, n: Key, it: Item)
    requires n in s.g.nodes.at && LevelOrder(s, it.hops)
    ensures LevelOrder(Relax(s, n, it), it.hops)
  {
  }

  lemma {:induction false} RelaxWalks(s: Search, g: Graph, src: Key, n: Key, it: Item)
    requires n in s.g.nodes.at && LevelWalks(s, g, src)
    requires Walk(g, src, it.key, it.hops) && g.HasEdge(it.key, n)
    ensures LevelWalks(Relax(s, n, it), g, src)
  {
  }

  lemma RelaxLevels(s: Search, g: Graph, src: Key, it: Item, ns: seq<Key>)
    requires ns != [] && ns[0] in s.g.nodes.at
    requires Levels(s, g, src, it.hops, it.key, ns)
    requires it.key in s.visited && s.visited[it.key].hops == it.hops && g.HasEdge(it.key, ns[0])
    ensures Levels(Relax(s, ns[0], it), g, src, it.hops, it.key, ns[1..])
  {
    var r, n := Relax(s, ns[0], it), ns[0];
    RelaxOrder(s, n, it);
    RelaxKnown(s, n, it);
    RelaxWalks(s, g, src, n, it);
    forall a, b | a in r.visited && g.HasEdge(a, b) && !(a == it.key && b in ns[1..])
      ensures Known(r, b, r.visited[a].hops + 1)
    {
      if !(a == it.key && b == n) {
        assert Known(s, b, s.visited[a].hops + 1);
      }
    }
  }

  /** Removing the first queue entry of a node that counts as visited loses
      nothing that was known. */
  lemma KnownWithoutFirst(s: Search, t: Search, v: Key, n: nat)
    requires s.queue != [] && t.queue == s.queue[1..] && Known(s, v, n)
    requires s.queue[0].key in t.visited && t.visited[s.queue[0].key].hops <= s.queue[0].hops
    requires forall k :: k in s.visited ==> k in t.visited && t.visited[k] == s.visited[k]
    ensures Known(t, v, n)
  {
  }

  lemma SkipLevels(s: Search, g: Graph, src: Key, cur: nat, u: Key)
    requires s.queue != [] && Levels(s, g, src, cur, u, []) && s.queue[0].key in s.visited
    ensures Levels(s.(queue := s.queue[1..]), g, src, s.queue[0].hops, u, [])
  {
    var t := s.(queue := s.queue[1..]);
    KnownWithoutFirst(s, t, src, 0);
    forall a, b | a in t.visited && g.HasEdge(a, b) ensures Known(t, b, t.visited[a].hops + 1) {
      KnownWithoutFirst(s, t, b, s.visited[a].hops + 1);
    }
  }

  lemma MarkLevels(s: Search, g: Graph, src: Key, cur: nat, u: Key, ns: seq<Key>)
    requires s.queue != [] && Levels(s, g, src, cur, u, []) && s.queue[0].key !in s.visited
    requires forall b :: g.HasEdge(s.queue[0].key, b) ==> b in ns
    ensures Levels(Mark(s), g, src, s.queue[0].hops, s.queue[0].key, ns)
  {
  }

  /** Whatever a walk of n edges reaches is known with n hops, unless the queue
      still starts below n. */
  lemma {:induction false} WalkKnown(s: Search, g: Graph, src: Key, cur: nat, u: Key, v: Key, n: nat)
    requires Levels(s, g, src, cur, u, []) && Walk(g, src, v, n)
    ensures Known(s, v, n) || (s.queue != [] && s.queue[0].hops < n)
    decreases n
  {
    if n > 0 {
      var w :| Walk(g, src, w, n - 1) && g.HasEdge(w, v);
      WalkKnown(s, g, src, cur, u, w, n - 1);
      if Known(s, w, n - 1) {
        if w in s.visited && s.visited[w].hops <= n - 1 {
          assert Known(s, v, s.visited[w].hops + 1);
        } else {
          var i :| 0 <= i < |s.queue| && s.queue[i].key == w && s.queue[i].hops <= n - 1;
          assert s.queue[0].hops <= s.queue[i].hops;
        }
      }
    }
  }

  /** A node is first popped with its distance. */
  lemma PopsAtDistance(s: Search, g: Graph, src: Key, cur: nat, u: Key)
    requires s.queue != [] && Levels(s, g, src, cur, u, []) && s.queue[0].key !in s.visited
    ensures IsDist(g, src, s.queue[0].key, s.queue[0].hops)
  {
    forall m: nat | m < s.queue[0].hops ensures !Walk(g, src, s.queue[0].key, m) {
      if Walk(g, src, s.queue[0].key, m) {
        WalkKnown(s, g, src, cur, u, s.queue[0].key, m);
      }
    }
  }

  /** When the queue is empty, exactly the reachable nodes have been visited,
      each at its distance. */
  lemma {:induction false} FinalDistances(s: Search, g: Graph, src: Key, cur: nat, u: Key, v: Key)
    requires s.queue == [] && Levels(s, g, src, cur, u, [])
    ensures v in s.visited ==> IsDist(g, src, v, s.visited[v].hops)
    ensures forall n: nat :: Walk(g, src, v, n) ==> v in s.visited
  {
    forall n: nat | Walk(g, src, v, n)
      ensures v in s.visited && s.visited[v].hops <= n
    {
      WalkKnown(s, g, src, cur, u, v, n);
    }
  }

  lemma DistUnique(g: Graph, src: Key, v: Key, m: nat, n: nat)
    requires IsDist(g, src, v, m) && IsDist(g, src, v, n)
    ensures m == n
  {
  }

  lemma StartLevels(g: Graph, src: Key, d0: nat)
    ensures Levels(Start(g, src, d0), g, src, 0, src, [])
  {
    assert Start(g, src, d0).queue[0].key == src;
  }
}

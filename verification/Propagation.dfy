/** Delay propagation: the breadth-first search as the engine runs it. */
module Propagation {
  import opened Flights
  import opened Graphs
  import opened Decay

  /** A queue entry: the delay is the one the node had when it was enqueued. */
  datatype Item = Item(key: Key, delay: nat, hops: nat)

  /** What a node was first popped with, and how many nodes were before it. */
  datatype Popped = Popped(delay: nat, hops: nat, rank: nat)

  datatype Update = Update(key: Key, hops: nat)

  datatype Search = Search(g: Graph, queue: seq<Item>, visited: map<Key, Popped>, updates: seq<Update>)

  function Max(a: nat, b: nat): nat {
    if a >= b then a else b
  }

  /** Overwrite one flight's delay; a positive delay makes it a delay event. */
  function Raise(g: Graph, k: Key, d: nat): Graph
    requires k in g.nodes.at
  {
    var f := g.nodes.at[k];
    g.(nodes := g.nodes.(at := g.nodes.at[k := f.(delay := d, etype := if d > 0 then Delay else f.etype)]))
  }

  /** Every successor is a node. */
  ghost predicate Closed(g: Graph) {
    forall u, v :: u in g.nodes.at && v in g.Row(u).order ==> v in g.nodes.at
  }

  /** Same nodes in the same order, same edges. */
  ghost predicate SameShape(a: Graph, b: Graph) {
    a.adj == b.adj && a.nodes.order == b.nodes.order && a.nodes.at.Keys == b.nodes.at.Keys
  }

  /** One neighbour of the popped item. */
  function Relax(s: Search, n: Key, it: Item): (r: Search)
    requires n in s.g.nodes.at
    ensures SameShape(s.g, r.g) && r.visited == s.visited
  {
    if n in s.visited then s
    else
      var have := s.g.nodes.at[n].delay;
      var next := Max(have, Passed(it.delay));
      Search(if next != have then Raise(s.g, n, next) else s.g,
             s.queue + [Item(n, next, it.hops + 1)],
             s.visited,
             if next != have then s.updates + [Update(n, it.hops + 1)] else s.updates)
  }

  function RelaxAll(s: Search, ns: seq<Key>, it: Item): (r: Search)
    requires forall n :: n in ns ==> n in s.g.nodes.at
    ensures SameShape(s.g, r.g) && r.visited == s.visited
    decreases |ns|
  {
    if ns == [] then s else RelaxAll(Relax(s, ns[0], it), ns[1..], it)
  }

  function Mark(s: Search): Search
    requires s.queue != []
  {
    s.(queue := s.queue[1..],
       visited := s.visited[s.queue[0].key := Popped(s.queue[0].delay, s.queue[0].hops, |s.visited|)])
  }

  /** One turn of the loop. */
  function Pop(s: Search): (r: Search)
    requires s.queue != [] && Closed(s.g)
    ensures SameShape(s.g, r.g) && Closed(r.g)
  {
    var it := s.queue[0];
    if it.key in s.visited then s.(queue := s.queue[1..])
    else if it.key !in s.g.nodes.at then Mark(s)
    else RelaxAll(Mark(s), s.g.Row(it.key).order, it)
  }

  function Left(s: Search): set<Key> {
    s.g.nodes.at.Keys - s.visited.Keys
  }

  lemma PopShrinks(s: Search)
    requires s.queue != [] && Closed(s.g)
    ensures Left(Pop(s)) <= Left(s)
    ensures Left(Pop(s)) == Left(s) ==> |Pop(s).queue| < |s.queue|
  {
    var k := s.queue[0].key;
    if k !in s.visited && k in s.g.nodes.at {
      assert k in Left(s) && k !in Left(Pop(s));
    }
  }

  function Run(s: Search): (r: Search)
    requires Closed(s.g)
    ensures SameShape(s.g, r.g) && Closed(r.g) && r.queue == []
    decreases Left(s), |s.queue|
  {
    if s.queue == [] then s
    else
      PopShrinks(s);
      Run(Pop(s))
  }

  /** What every turn of the loop keeps holds when the queue has run empty. */
  lemma {:induction false} RunInduction(s: Search, keeps: Search -> bool)
    requires Closed(s.g) && keeps(s)
    requires forall t: Search :: keeps(t) && t.queue != [] && Closed(t.g) ==> keeps(Pop(t))
    ensures keeps(Run(s))
    decreases Left(s), |s.queue|
  {
    if s.queue != [] {
      PopShrinks(s);
      RunInduction(Pop(s), keeps);
    }
  }

  /** What relaxing one neighbour keeps holds after the last of them. */
  lemma {:induction false} RelaxInduction(s: Search, ns: seq<Key>, it: Item, keeps: (Search, seq<Key>) -> bool)
    requires keeps(s, ns)
    requires forall n :: n in ns ==> n in s.g.nodes.at
    requires forall t: Search, ms: seq<Key> :: keeps(t, ms) && ms != [] && ms[0] in t.g.nodes.at ==>
               keeps(Relax(t, ms[0], it), ms[1..])
    ensures keeps(RelaxAll(s, ns, it), [])
    decreases |ns|
  {
    if ns != [] {
      RelaxInduction(Relax(s, ns[0], it), ns[1..], it, keeps);
    }
  }

  function Start(g: Graph, src: Key, d0: nat): Search {
    Search(g, [Item(src, d0, 0)], map[], [])
  }

  function Propagate(g: Graph, src: Key, d0: nat): (r: (Graph, seq<Update>))
    requires Closed(g)
    ensures SameShape(g, r.0) && Closed(r.0)
  {
    var s := Run(Start(g, src, d0));
    (s.g, s.updates)
  }

  lemma ValidClosed(g: Graph)
    requires g.Valid()
    ensures Closed(g) && g.adj.Keys == g.nodes.at.Keys
  {
  }
}

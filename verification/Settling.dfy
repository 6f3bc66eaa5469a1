/** Repeating a propagation: exactly when a run changes nothing, how often runs
    can change something, and how long one run takes. */
module Settling {
  import opened Flights
  import opened Dicts
  import opened Graphs
  import opened Decay
  import opened Propagation
  import opened Distances
  import opened Delays
  import opened ClosedForm
  import opened Visiting

  /** The delay a node hands on if nothing raises it. */
  function Own(g: Graph, src: Key, d0: nat, k: Key): nat {
    if k != src && k in g.nodes.at then g.nodes.at[k].delay else d0
  }

  /** Along the visiting order, every edge to a later flight already holds: the
      later flight has what the earlier one would pass on. */
  ghost predicate Settled(g: Graph, src: Key, d0: nat) {
    var order := VisitOrder(g.adj, g.nodes.at.Keys, src);
    forall i, j :: 0 <= i < j < |order| && order[j] in g.nodes.at && g.HasEdge(order[i], order[j]) ==>
      Passed(Own(g, src, d0, order[i])) <= g.nodes.at[order[j]].delay
  }

  /** The same of the order in which a search visits them. */
  ghost predicate SettledInRun(g: Graph, src: Key, d0: nat)
    requires Closed(g)
  {
    var seen := Run(Start(g, src, d0)).visited;
    forall a, b :: a in seen && b in seen && b in g.nodes.at && g.HasEdge(a, b) && seen[a].rank < seen[b].rank ==>
      Passed(Own(g, src, d0, a)) <= g.nodes.at[b].delay
  }

  lemma SettledBoth(g: Graph, src: Key, d0: nat)
    requires Closed(g)
    ensures Settled(g, src, d0) <==> SettledInRun(g, src, d0)
  {
    hide Run, VisitOrder;
    SearchVisitsInOrder(g, src, d0);
    var order, seen := VisitOrder(g.adj, g.nodes.at.Keys, src), Run(Start(g, src, d0)).visited;
    if Settled(g, src, d0) {
      forall a, b | a in seen && b in seen && b in g.nodes.at && g.HasEdge(a, b) && seen[a].rank < seen[b].rank
        ensures Passed(Own(g, src, d0, a)) <= g.nodes.at[b].delay
      {
        var i :| 0 <= i < |order| && order[i] == a;
        var j :| 0 <= j < |order| && order[j] == b;
        assert i < j && g.HasEdge(order[i], order[j]);
      }
    }
    if SettledInRun(g, src, d0) {
      forall i, j | 0 <= i < j < |order| && order[j] in g.nodes.at && g.HasEdge(order[i], order[j])
        ensures Passed(Own(g, src, d0, order[i])) <= g.nodes.at[order[j]].delay
      {
        assert seen[order[i]].rank == i && seen[order[j]].rank == j;
      }
    }
  }

  // ---- forward edges hold after a run ----

  ghost predicate Ranked(s: Search) {
    forall k :: k in s.visited ==> s.visited[k].rank < |s.visited|
  }

  ghost predicate Forward(s: Search, g: Graph, u: Key, ns: seq<Key>) {
    forall a, b ::
      a in s.visited && g.HasEdge(a, b) && !(a == u && b in ns) && b in s.g.nodes.at
      && (b in s.visited ==> s.visited[a].rank < s.visited[b].rank)
      ==> s.g.nodes.at[b].delay >= Passed(s.visited[a].delay)
  }

  ghost predicate ForwardRelaxing(s: Search, g: Graph, it: Item, ns: seq<Key>) {
    && Forward(s, g, it.key, ns) && Ranked(s)
    && it.key in s.visited && s.visited[it.key].delay == it.delay
    && (forall k :: k in s.visited ==> s.visited[k].rank <= s.visited[it.key].rank)
  }

  lemma ForwardRelax(s: Search, g: Graph, it: Item, ns: seq<Key>)
    requires ForwardRelaxing(s, g, it, ns) && ns != [] && ns[0] in s.g.nodes.at
    ensures ForwardRelaxing(Relax(s, ns[0], it), g, it, ns[1..])
  {
  }

  lemma ForwardMark(s: Search, g: Graph)
    requires s.queue != [] && s.g.adj == g.adj && s.queue[0].key !in s.visited
    requires Forward(s, g, s.queue[0].key, []) && Ranked(s)
    ensures forall ns: seq<Key> :: (forall b :: g.HasEdge(s.queue[0].key, b) ==> b in ns) ==>
              ForwardRelaxing(Mark(s), g, s.queue[0], ns)
  {
  }

  lemma {:induction false} ForwardRelaxAll(s: Search, g: Graph, it: Item, ns: seq<Key>)
    requires ForwardRelaxing(s, g, it, ns)
    requires forall n :: n in ns ==> n in s.g.nodes.at
    ensures Forward(RelaxAll(s, ns, it), g, it.key, []) && Ranked(RelaxAll(s, ns, it))
  {
    forall t: Search, ms: seq<Key> | ForwardRelaxing(t, g, it, ms) && ms != [] && ms[0] in t.g.nodes.at
      ensures ForwardRelaxing(Relax(t, ms[0], it), g, it, ms[1..])
    {
      ForwardRelax(t, g, it, ms);
    }
    RelaxInduction(s, ns, it, (t, ms) => ForwardRelaxing(t, g, it, ms));
  }

  lemma ForwardPop(s: Search, g: Graph)
    requires Closed(s.g) && s.queue != [] && s.g.adj == g.adj && g.Valid()
    requires s.g.nodes.at.Keys == g.nodes.at.Keys
    requires Forward(s, g, s.queue[0].key, []) && Ranked(s)
    ensures Forward(Pop(s), g, s.queue[0].key, []) && Ranked(Pop(s))
  {
    var it := s.queue[0];
    if it.key !in s.visited {
      ForwardMark(s, g);
      if it.key in s.g.nodes.at {
        ForwardRelaxAll(Mark(s), g, it, s.g.Row(it.key).order);
      } else {
        assert ForwardRelaxing(Mark(s), g, it, []);
      }
    }
  }

  ghost predicate ForwardTurn(s: Search, g: Graph) {
    && s.g.adj == g.adj && s.g.nodes.at.Keys == g.nodes.at.Keys && Ranked(s)
    && exists u :: Forward(s, g, u, [])
  }

  /** After any run, on any graph, every forward edge holds for the delay its
      start was visited with. */
  lemma ForwardEdgesHold(g: Graph, src: Key, d0: nat, a: Key, b: Key)
    requires g.Valid()
    ensures Closed(g)
    ensures var s := Run(Start(g, src, d0));
      a in s.visited && b in s.visited && b in g.nodes.at && g.HasEdge(a, b) && s.visited[a].rank < s.visited[b].rank
      ==> s.g.nodes.at[b].delay >= Passed(s.visited[a].delay)
  {
    ValidClosed(g);
    var s0 := Start(g, src, d0);
    assert Forward(s0, g, src, []);
    forall t: Search | ForwardTurn(t, g) && t.queue != [] && Closed(t.g) ensures ForwardTurn(Pop(t), g) {
      ForwardPop(t, g);
      assert Forward(Pop(t), g, t.queue[0].key, []);
    }
    RunInduction(s0, t => ForwardTurn(t, g));
  }

  // ---- a settled graph stays as it is ----

  ghost predicate Extends(s: Search, t: Search) {
    && (forall k :: k in s.visited ==> k in t.visited && t.visited[k] == s.visited[k])
    && |s.visited| <= |t.visited|
    && (forall k :: k in t.visited && k !in s.visited ==> t.visited[k].rank >= |s.visited|)
    && (forall k :: Seen(s, k) ==> Seen(t, k))
  }

  lemma {:induction false} RelaxAllSeen(s: Search, ns: seq<Key>, it: Item)
    requires forall n :: n in ns ==> n in s.g.nodes.at
    ensures forall k :: Seen(s, k) || k in ns ==> Seen(RelaxAll(s, ns, it), k)
    decreases |ns|
  {
    if ns != [] {
      RelaxSeen(s, ns[0], it);
      RelaxAllSeen(Relax(s, ns[0], it), ns[1..], it);
    }
  }

  lemma PopExtends(s: Search)
    requires Closed(s.g) && s.queue != []
    ensures Extends(s, Pop(s))
    ensures s.queue[0].key in s.g.nodes.at && s.queue[0].key !in s.visited ==>
              forall k :: k in s.g.Row(s.queue[0].key).order ==> Seen(Pop(s), k)
  {
    var it := s.queue[0];
    if it.key in s.visited {
      PopSeen(s, Pop(s));
    } else {
      PopSeen(s, Mark(s));
      if it.key in s.g.nodes.at {
        RelaxAllSeen(Mark(s), s.g.Row(it.key).order, it);
      }
    }
  }

  lemma {:induction false} RunExtends(s: Search)
    requires Closed(s.g)
    ensures Extends(s, Run(s))
    ensures forall k :: Seen(s, k) ==> k in Run(s).visited
  {
    forall t: Search | Extends(s, t) && t.queue != [] && Closed(t.g) ensures Extends(s, Pop(t)) {
      PopExtends(t);
    }
    RunInduction(s, t => Extends(s, t));
    assert Run(s).queue == [];
  }

  /** Nothing has changed and every delay handed on is the node's own. */
  ghost predicate Quiet(s: Search, g: Graph, src: Key, d0: nat) {
    && s.g == g && s.updates == []
    && (forall i :: 0 <= i < |s.queue| ==> s.queue[i].delay == Own(g, src, d0, s.queue[i].key))
    && (src in s.visited || (s.visited == map[] && s.queue == [Item(src, d0, 0)]))
  }

  lemma {:induction false} QuietRelaxAll(s: Search, g: Graph, src: Key, d0: nat, ns: seq<Key>, it: Item)
    requires Quiet(s, g, src, d0) && src in s.visited
    requires forall n :: n in ns ==> n in g.nodes.at
    requires forall n :: n in ns && n !in s.visited ==> Passed(it.delay) <= g.nodes.at[n].delay
    ensures Quiet(RelaxAll(s, ns, it), g, src, d0)
    decreases |ns|
  {
    if ns != [] {
      var r := Relax(s, ns[0], it);
      assert Quiet(r, g, src, d0);
      QuietRelaxAll(r, g, src, d0, ns[1..], it);
    }
  }

  /** What the popped item would pass on is already there. */
  lemma {:induction false} QuietEdges(s: Search, g: Graph, src: Key, d0: nat, n: Key)
    requires g.Valid() && Closed(g) && SettledInRun(g, src, d0) && Closed(s.g)
    requires s.queue != [] && s.g == g && Run(s) == Run(Start(g, src, d0))
    requires s.queue[0].key !in s.visited && s.queue[0].key in g.nodes.at
    requires n in g.Row(s.queue[0].key).order && n !in Mark(s).visited
    ensures Passed(Own(g, src, d0, s.queue[0].key)) <= g.nodes.at[n].delay
  {
    var k, seen := s.queue[0].key, Run(s).visited;
    PopExtends(s);
    RunExtends(Pop(s));
    assert Pop(s).visited == Mark(s).visited && |Mark(s).visited| == |s.visited| + 1;
    assert g.HasEdge(k, n);
    assert Seen(Pop(s), n) && n in seen && n in g.nodes.at;
    assert seen[k].rank == |s.visited| < seen[n].rank;
  }

  lemma {:induction false} QuietAllEdges(s: Search, g: Graph, src: Key, d0: nat)
    requires g.Valid() && Closed(g) && SettledInRun(g, src, d0) && Closed(s.g)
    requires s.queue != [] && s.g == g && Run(s) == Run(Start(g, src, d0))
    requires s.queue[0].key !in s.visited && s.queue[0].key in g.nodes.at
    ensures forall n :: n in g.Row(s.queue[0].key).order && n !in Mark(s).visited ==>
              Passed(Own(g, src, d0, s.queue[0].key)) <= g.nodes.at[n].delay
  {
    forall n | n in g.Row(s.queue[0].key).order && n !in Mark(s).visited
      ensures Passed(Own(g, src, d0, s.queue[0].key)) <= g.nodes.at[n].delay
    {
      QuietEdges(s, g, src, d0, n);
    }
  }

  lemma QuietMark(s: Search, g: Graph, src: Key, d0: nat)
    requires s.queue != [] && Quiet(s, g, src, d0) && s.queue[0].key !in s.visited
    ensures Quiet(Mark(s), g, src, d0) && src in Mark(s).visited
  {
  }

  lemma {:induction false} QuietPop(s: Search, g: Graph, src: Key, d0: nat)
    requires g.Valid() && Closed(g) && Closed(s.g) && SettledInRun(g, src, d0)
    requires s.queue != [] && Quiet(s, g, src, d0) && Run(s) == Run(Start(g, src, d0))
    ensures Quiet(Pop(s), g, src, d0)
  {
    if s.queue[0].key !in s.visited {
      QuietMark(s, g, src, d0);
      if s.queue[0].key in g.nodes.at {
        QuietAllEdges(s, g, src, d0);
        QuietRelaxAll(Mark(s), g, src, d0, g.Row(s.queue[0].key).order, s.queue[0]);
      }
    }
  }

  ghost predicate QuietTurn(s: Search, g: Graph, src: Key, d0: nat)
    requires Closed(g)
  {
    Quiet(s, g, src, d0) && Closed(s.g) && Run(s) == Run(Start(g, src, d0))
  }

  lemma SettledIsQuiet(g: Graph, src: Key, d0: nat)
    requires g.Valid() && Closed(g) && SettledInRun(g, src, d0)
    ensures Quiet(Run(Start(g, src, d0)), g, src, d0)
  {
    hide Pop, SettledInRun, Graph.Valid;
    forall t: Search | QuietTurn(t, g, src, d0) && t.queue != [] && Closed(t.g)
      ensures QuietTurn(Pop(t), g, src, d0)
    {
      QuietPop(t, g, src, d0);
    }
    RunInduction(Start(g, src, d0), t => QuietTurn(t, g, src, d0));
  }

  /** A run that reports nothing changed nothing. */
  lemma NoReportNoChange(g: Graph, src: Key, d0: nat)
    requires g.Valid() && Closed(g) && Propagate(g, src, d0).1 == []
    ensures Propagate(g, src, d0).0 == g
  {
    var bound := BoundExists(g, src, d0);
    PropagationReport(g, src, d0);
    var h := Propagate(g, src, d0).0;
    forall k | k in g.nodes.at ensures h.nodes.at[k] == g.nodes.at[k] {
      PropagationBounds(g, src, d0, bound, k);
      assert !Lists(Propagate(g, src, d0).1, k);
    }
    assert h.nodes.at == g.nodes.at;
  }

  /** A run reports nothing, and changes nothing, exactly on a settled graph. */
  lemma QuietIffSettled(g: Graph, src: Key, d0: nat)
    requires g.Valid()
    ensures Closed(g)
    ensures Propagate(g, src, d0).1 == [] <==> Settled(g, src, d0)
    ensures Propagate(g, src, d0).0 == g <==> Settled(g, src, d0)
  {
    ValidClosed(g);
    SettledBoth(g, src, d0);
    if Settled(g, src, d0) {
      SettledIsQuiet(g, src, d0);
    }
    if Propagate(g, src, d0).1 == [] {
      NoReportNoChange(g, src, d0);
    }
    if Propagate(g, src, d0).0 == g {
      UnchangedIsSettled(g, src, d0);
    }
  }

  lemma UnchangedIsSettled(g: Graph, src: Key, d0: nat)
    requires g.Valid() && Closed(g) && Propagate(g, src, d0).0 == g
    ensures SettledInRun(g, src, d0)
  {
    hide Graph.Valid, Pop, Levels, Reported, Passed;
    var s := Run(Start(g, src, d0));
    var bound := BoundExists(g, src, d0);
    var last, w := RunKeeps(g, src, d0, bound);
    forall a, b | a in s.visited && b in s.visited && b in g.nodes.at && g.HasEdge(a, b)
                  && s.visited[a].rank < s.visited[b].rank
      ensures Passed(Own(g, src, d0, a)) <= g.nodes.at[b].delay
    {
      ForwardEdgesHold(g, src, d0, a, b);
      assert ItemOk(g, s, src, d0, bound, a, s.visited[a].delay, s.visited[a].hops);
      PassedMonotone(Own(g, src, d0, a), s.visited[a].delay);
    }
  }

  /** A propagation on a dominated graph leaves a settled one. */
  lemma DominatedSettles(g: Graph, src: Key, d0: nat)
    requires g.Valid() && Dominated(g, src, d0)
    ensures Closed(g)
    ensures Propagate(g, src, d0).0.Valid() && Settled(Propagate(g, src, d0).0, src, d0)
  {
    ValidClosed(g);
    var h := Propagate(g, src, d0).0;
    PropagateValid(g, src, d0);
    forall v, n: nat | v in h.nodes.at && v != src && IsDist(h, src, v, n)
      ensures h.nodes.at[v].delay <= After(n, d0)
    {
      SameDist(g, h, src, v, n);
      PropagationExact(g, src, d0, v);
    }
    ReportExact(h, src, d0);
    PropagationReport(h, src, d0);
    var us := Propagate(h, src, d0).1;
    if us != [] {
      var v, n := us[0].key, us[0].hops;
      assert Lists(us, v) && IsDist(h, src, v, n);
      SameDist(g, h, src, v, n);
      PropagationExact(g, src, d0, v);
      PropagationExact(h, src, d0, v);
    }
    QuietIffSettled(h, src, d0);
  }

  lemma {:induction false} SameWalk(g: Graph, h: Graph, u: Key, v: Key, n: nat)
    requires g.adj == h.adj && Walk(g, u, v, n)
    ensures Walk(h, u, v, n)
    decreases n
  {
    if n > 0 {
      var w :| Walk(g, u, w, n - 1) && g.HasEdge(w, v);
      SameWalk(g, h, u, w, n - 1);
      WalkOn(h, u, w, v, n - 1);
    }
  }

  lemma SameDist(g: Graph, h: Graph, u: Key, v: Key, n: nat)
    requires g.adj == h.adj
    ensures IsDist(g, u, v, n) <==> IsDist(h, u, v, n)
  {
    forall m: nat ensures Walk(g, u, v, m) <==> Walk(h, u, v, m) {
      if Walk(g, u, v, m) {
        SameWalk(g, h, u, v, m);
      }
      if Walk(h, u, v, m) {
        SameWalk(h, g, u, v, m);
      }
    }
  }

  lemma PropagateValid(g: Graph, src: Key, d0: nat)
    requires g.Valid()
    ensures Closed(g) && Propagate(g, src, d0).0.Valid()
  {
    hide Propagate;
    ValidClosed(g);
    var bound := BoundExists(g, src, d0);
    var h := Propagate(g, src, d0).0;
    forall k | k in h.nodes.at ensures h.nodes.at[k].info == g.nodes.at[k].info {
      PropagationBounds(g, src, d0, bound, k);
    }
    SameShapeValid(g, h);
  }

  lemma SameShapeValid(g: Graph, h: Graph)
    requires g.Valid() && SameShape(g, h)
    requires forall k :: k in g.nodes.at && k in h.nodes.at ==> h.nodes.at[k].info == g.nodes.at[k].info
    ensures h.Valid()
  {
  }

  // ---- how often replaying can change something ----

  function Iterate(step: Graph -> Graph, g: Graph, n: nat): Graph {
    if n == 0 then g else step(Iterate(step, g, n - 1))
  }

  lemma {:induction false} IterateKeeps(step: Graph -> Graph, keeps: Graph -> bool, g: Graph, n: nat)
    requires keeps(g) && forall h :: keeps(h) ==> keeps(step(h))
    ensures keeps(Iterate(step, g, n))
  {
    if n > 0 {
      IterateKeeps(step, keeps, g, n - 1);
    }
  }

  lemma {:induction false} IterateSame(step: Graph -> Graph, g: Graph, m: nat, n: nat)
    requires m <= n && Iterate(step, g, m + 1) == Iterate(step, g, m)
    ensures Iterate(step, g, n) == Iterate(step, g, m)
  {
    if m < n {
      IterateSame(step, g, m, n - 1);
    }
  }

  /** A bounded total that rises at every step that changes anything makes the
      iteration stop, after at most as many steps as the bound. */
  lemma {:induction false} IterateStops(step: Graph -> Graph, keeps: Graph -> bool, total: Graph -> nat, last: nat,
                                        g: Graph, n: nat) returns (m: nat)
    requires keeps(g) && forall h :: keeps(h) ==> keeps(step(h))
    requires forall h :: keeps(h) ==> total(h) <= last && (step(h) == h || total(h) < total(step(h)))
    requires n <= total(Iterate(step, g, n))
    ensures m <= last && Iterate(step, g, m + 1) == Iterate(step, g, m)
    decreases last - n
  {
    hide Iterate;
    IterateKeeps(step, keeps, g, n);
    IterateNext(step, g, n);
    if step(Iterate(step, g, n)) == Iterate(step, g, n) {
      m := n;
    } else {
      IterateKeeps(step, keeps, g, n + 1);
      m := IterateStops(step, keeps, total, last, g, n + 1);
    }
  }

  lemma IterateNext(step: Graph -> Graph, g: Graph, n: nat)
    ensures Iterate(step, g, n + 1) == step(Iterate(step, g, n))
  {
  }

  function TotalDelay(g: Graph, order: seq<Key>): nat {
    if order == [] then 0
    else (if order[0] in g.nodes.at then g.nodes.at[order[0]].delay else 0) + TotalDelay(g, order[1..])
  }

  ghost predicate AtMost(g: Graph, bound: nat) {
    forall k :: k in g.nodes.at ==> g.nodes.at[k].delay <= bound
  }

  lemma {:induction false} TotalAtMost(g: Graph, order: seq<Key>, bound: nat)
    requires AtMost(g, bound)
    ensures TotalDelay(g, order) <= |order| * bound
  {
    if order != [] {
      TotalAtMost(g, order[1..], bound);
      assert |order| * bound == |order[1..]| * bound + bound;
    }
  }

  lemma {:induction false} TotalGrows(g: Graph, h: Graph, order: seq<Key>)
    requires g.nodes.at.Keys == h.nodes.at.Keys
    requires forall k :: k in g.nodes.at ==> g.nodes.at[k].delay <= h.nodes.at[k].delay
    ensures TotalDelay(g, order) <= TotalDelay(h, order)
    ensures (exists k :: k in order && k in g.nodes.at && g.nodes.at[k].delay < h.nodes.at[k].delay) ==>
              TotalDelay(g, order) < TotalDelay(h, order)
  {
    if order != [] {
      TotalGrows(g, h, order[1..]);
    }
  }

  /** A run never lowers the total delay, raises it whenever it reports an
      update, and never lifts a delay above the largest one around. */
  lemma {:induction false} RunRaisesTotal(g: Graph, src: Key, d0: nat, bound: nat)
    requires g.Valid() && AtMost(g, bound) && d0 <= bound
    ensures Closed(g)
    ensures var (h, us) := Propagate(g, src, d0);
      && h.Valid() && AtMost(h, bound)
      && TotalDelay(g, g.nodes.order) <= TotalDelay(h, g.nodes.order)
      && (us != [] ==> TotalDelay(g, g.nodes.order) < TotalDelay(h, g.nodes.order))
  {
    hide Propagate, Graph.Valid, Passed;
    PropagateValid(g, src, d0);
    PropagationReport(g, src, d0);
    var h := Propagate(g, src, d0).0;
    forall k | k in g.nodes.at ensures g.nodes.at[k].delay <= h.nodes.at[k].delay <= bound {
      PropagationBounds(g, src, d0, bound, k);
      PassedMonotone(0, bound);
    }
    TotalGrows(g, h, g.nodes.order);
    if Propagate(g, src, d0).1 != [] {
      var k := Propagate(g, src, d0).1[0].key;
      assert Lists(Propagate(g, src, d0).1, k);
      assert k in g.nodes.order by { ListedInOrder(g, k); }
    }
  }

  lemma ListedInOrder(g: Graph, k: Key)
    requires g.Valid() && k in g.nodes.at
    ensures k in g.nodes.order
  {
  }

  /** One more run either changes nothing or raises the total, which is bounded. */
  lemma {:induction false} RunStopsOrRaises(h: Graph, src: Key, d0: nat, bound: nat)
    requires h.Valid() && AtMost(h, bound) && d0 <= bound
    ensures Closed(h) && TotalDelay(h, h.nodes.order) <= |h.nodes.order| * bound
    ensures Propagate(h, src, d0).0 == h
            || TotalDelay(h, h.nodes.order) < TotalDelay(Propagate(h, src, d0).0, h.nodes.order)
  {
    RunRaisesTotal(h, src, d0, bound);
    TotalAtMost(h, h.nodes.order, bound);
    if Propagate(h, src, d0).1 == [] {
      NoReportNoChange(h, src, d0);
    }
  }

  /** One more run of the same propagation. */
  ghost function Again(src: Key, d0: nat): Graph -> Graph {
    h => if Closed(h) then Propagate(h, src, d0).0 else h
  }

  lemma {:induction false} AgainStops(src: Key, d0: nat, bound: nat, order: seq<Key>, h: Graph)
    requires h.Valid() && AtMost(h, bound) && d0 <= bound && h.nodes.order == order
    ensures var h' := Again(src, d0)(h);
      && h'.Valid() && AtMost(h', bound) && h'.nodes.order == order
      && TotalDelay(h, order) <= |order| * bound
      && (h' == h || TotalDelay(h, order) < TotalDelay(h', order))
  {
    hide Propagate;
    RunRaisesTotal(h, src, d0, bound);
    RunStopsOrRaises(h, src, d0, bound);
  }

  /** Replaying converges: after at most flights * bound runs, nothing ever
      changes again. */
  lemma ReplayConverges(g: Graph, src: Key, d0: nat, bound: nat) returns (m: nat)
    requires g.Valid() && AtMost(g, bound) && d0 <= bound
    ensures m <= |g.nodes.order| * bound
    ensures forall n: nat :: m <= n ==> Iterate(Again(src, d0), g, n) == Iterate(Again(src, d0), g, m)
  {
    hide Propagate, Graph.Valid;
    var order := g.nodes.order;
    var keeps := (h: Graph) => h.Valid() && AtMost(h, bound) && h.nodes.order == order;
    var total := (h: Graph) => TotalDelay(h, order);
    var step := Again(src, d0);
    forall h | keeps(h)
      ensures keeps(step(h)) && total(h) <= |order| * bound && (step(h) == h || total(h) < total(step(h)))
    {
      AgainStops(src, d0, bound, order, h);
    }
    m := IterateStops(step, keeps, total, |order| * bound, g, 0);
    forall n: nat | m <= n ensures Iterate(step, g, n) == Iterate(step, g, m) {
      IterateSame(step, g, m, n);
    }
  }

  // ---- how long one run takes ----

  function Turns(s: Search): nat
    requires Closed(s.g)
    decreases Left(s), |s.queue|
  {
    if s.queue == [] then 0
    else
      PopShrinks(s);
      1 + Turns(Pop(s))
  }

  /** The outgoing edges of the nodes not yet visited. */
  function OpenEdges(g: Graph, order: seq<Key>, done: set<Key>): nat {
    if order == [] then 0
    else (if order[0] in done then 0 else |g.Row(order[0]).order|) + OpenEdges(g, order[1..], done)
  }

  lemma {:induction false} VisitCloses(g: Graph, order: seq<Key>, done: set<Key>, k: Key)
    requires NoDup(order) && k !in done
    ensures OpenEdges(g, order, done + {k}) + (if k in order then |g.Row(k).order| else 0) == OpenEdges(g, order, done)
  {
    if order != [] {
      VisitCloses(g, order[1..], done, k);
    }
  }

  lemma {:induction false} RelaxAllQueue(s: Search, ns: seq<Key>, it: Item)
    requires forall n :: n in ns ==> n in s.g.nodes.at
    ensures |RelaxAll(s, ns, it).queue| <= |s.queue| + |ns|
    decreases |ns|
  {
    if ns != [] {
      RelaxAllQueue(Relax(s, ns[0], it), ns[1..], it);
    }
  }

  lemma {:induction false} PopPays(s: Search, g: Graph)
    requires Closed(s.g) && s.queue != [] && s.g.adj == g.adj && NoDup(g.nodes.order)
    requires forall k :: k in s.g.nodes.at <==> k in g.nodes.order
    ensures |Pop(s).queue| + OpenEdges(g, g.nodes.order, Pop(s).visited.Keys) + 1
            <= |s.queue| + OpenEdges(g, g.nodes.order, s.visited.Keys)
  {
    var k := s.queue[0].key;
    if k !in s.visited {
      VisitCloses(g, g.nodes.order, s.visited.Keys, k);
      assert Mark(s).visited.Keys == s.visited.Keys + {k};
      if k in s.g.nodes.at {
        RelaxAllQueue(Mark(s), s.g.Row(k).order, s.queue[0]);
      }
    }
  }

  lemma {:induction false} TurnsBounded(s: Search, g: Graph)
    requires Closed(s.g) && s.g.adj == g.adj && NoDup(g.nodes.order)
    requires forall k :: k in s.g.nodes.at <==> k in g.nodes.order
    ensures Turns(s) <= |s.queue| + OpenEdges(g, g.nodes.order, s.visited.Keys)
    decreases Left(s), |s.queue|
  {
    if s.queue != [] {
      PopShrinks(s);
      PopPays(s, g);
      TurnsBounded(Pop(s), g);
    }
  }

  /** The loop turns at most once per edge and once for the source, on any
      graph. */
  lemma {:induction false} PropagationTurns(g: Graph, src: Key, d0: nat)
    requires g.Valid()
    ensures Closed(g) && Turns(Start(g, src, d0)) <= 1 + OpenEdges(g, g.nodes.order, {})
  {
    ValidClosed(g);
    TurnsBounded(Start(g, src, d0), g);
    assert Start(g, src, d0).visited.Keys == {};
  }
}

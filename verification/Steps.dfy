/** Whole runs of the graph: messages, prunes, loads and propagations in any
    order, and what every reachable graph keeps. */
module Steps {
  import opened Flights
  import opened Graphs
  import opened Gates
  import opened GateSupply
  import opened Propagation
  import opened Delays
  import opened Distances
  import Decay
  import opened Settling

  /** What can happen to the graph between two messages, and a message itself. */
  datatype Op =
    | Message(f: Flight)
    | Spread(src: Key, d0: nat)
    | Expire(cutoff: int)
    | Load(rows: seq<Flight>)

  /** The graph once the event's conflicts were looked at. */
  function Resolved(g: Graph, pool: seq<string>, f: Flight): (h: Graph)
    requires g.Valid()
    ensures h.Valid()
  {
    ProcessEventValid(g, f);
    ResolveValid(ProcessEvent(g, f), pool);
    Resolve(ProcessEvent(g, f), pool)
  }

  /** One message of the delay propagation worker. */
  function Handle(g: Graph, pool: seq<string>, f: Flight): (h: Graph)
    requires g.Valid()
    ensures h.Valid()
  {
    hide Resolved, Propagate;
    var r := Resolved(g, pool, f);
    PropagateValid(r, f.info.key, f.delay);
    if f.delay > 0 then Propagate(r, f.info.key, f.delay).0 else r
  }

  function Apply(g: Graph, pool: seq<string>, op: Op): (h: Graph)
    requires g.Valid()
    ensures h.Valid()
  {
    hide Handle, Propagate, Prune, LoadAll;
    match op
    case Message(f) => Handle(g, pool, f)
    case Spread(src, d0) => PropagateValid(g, src, d0); Propagate(g, src, d0).0
    case Expire(cutoff) => PruneExact(g, cutoff); Prune(g, cutoff)
    case Load(rows) => LoadValid(g, rows); LoadAll(g, rows)
  }

  function RunOps(g: Graph, pool: seq<string>, ops: seq<Op>): (h: Graph)
    requires g.Valid()
    ensures h.Valid()
  {
    if ops == [] then g else Apply(RunOps(g, pool, ops[..|ops| - 1]), pool, ops[|ops| - 1])
  }

  // ---- propagation moves neither gates nor edges ----

  lemma PropagateInfo(g: Graph, src: Key, d0: nat)
    requires g.Valid()
    ensures Closed(g) && Propagate(g, src, d0).0.adj == g.adj
    ensures Propagate(g, src, d0).0.nodes.at.Keys == g.nodes.at.Keys
    ensures forall k :: k in g.nodes.at ==>
              Propagate(g, src, d0).0.nodes.at[k].info == g.nodes.at[k].info
              && Propagate(g, src, d0).0.nodes.at[k].gate == g.nodes.at[k].gate
  {
    hide Propagate;
    ValidClosed(g);
    var bound := BoundExists(g, src, d0);
    forall k | k in g.nodes.at
      ensures Propagate(g, src, d0).0.nodes.at[k].info == g.nodes.at[k].info
      ensures Propagate(g, src, d0).0.nodes.at[k].gate == g.nodes.at[k].gate
    {
      PropagationBounds(g, src, d0, bound, k);
    }
  }

  /** Same edges, same gates, same windows. */
  ghost predicate SameGates(g: Graph, h: Graph) {
    && h.adj == g.adj && h.nodes.at.Keys == g.nodes.at.Keys
    && (forall k :: k in g.nodes.at ==> h.nodes.at[k].info == g.nodes.at[k].info && h.nodes.at[k].gate == g.nodes.at[k].gate)
  }

  lemma SameGatesSafe(g: Graph, h: Graph)
    requires SameGates(g, h)
    ensures Covered(g) ==> Covered(h)
    ensures NoConflict(g) ==> NoConflict(h)
    ensures NoReuse(g) ==> NoReuse(h)
    ensures NoClashLeft(g) ==> NoClashLeft(h)
  {
    forall u, v ensures h.KindOf(u, v) == g.KindOf(u, v) {
    }
  }

  // ---- one message, flight by flight ----

  /** The gate of `k` changes only when a gate_reuse edge leads to it, and then to a
      gate of the pool. */
  lemma ResolvedGate(g: Graph, pool: seq<string>, k: Key)
    requires g.Valid() && k in g.nodes.at
    ensures k in Resolve(g, pool).nodes.at
    ensures var was, now := g.nodes.at[k], Resolve(g, pool).nodes.at[k];
      && now == was.(gate := now.gate)
      && (now.gate != was.gate ==> now.gate.Some? && now.gate.value in pool
                                   && exists u :: u in g.nodes.at && g.KindOf(u, k) == Some(GateReuse))
  {
    hide Graph.Valid, Resolve, Moves, Supply, UsedGates, Clashes, GateAfter;
    ResolveNode(g, pool, k);
    var ms := Moves(g, pool);
    if Moved(ms, k) {
      var i := LastMove(ms, k, g.nodes.at[k].gate);
      MoveServes(g, pool, i);
      assert Supply(pool, UsedGates(g))[i] in pool;
    }
  }

  /** The flight that the event leaves in the graph before gates are looked at. */
  function Arrived(g: Graph, f: Flight, k: Key): Flight
    requires k in g.nodes.at || k == f.info.key
  {
    if k == f.info.key then f else g.nodes.at[k]
  }

  /** One message: the event's flight is in the graph with the event's own data and
      delay, every other flight is still there and no less delayed, only a positive
      delay changes any other flight's delay, and nothing but gate, delay and event
      type of any flight changes. */
  lemma HandledFlight(g: Graph, pool: seq<string>, f: Flight, k: Key)
    requires g.Valid()
    ensures k in Handle(g, pool, f).nodes.at <==> k in g.nodes.at || k == f.info.key
    ensures k in Handle(g, pool, f).nodes.at ==>
              var was, now := Arrived(g, f, k), Handle(g, pool, f).nodes.at[k];
              && now.info == was.info && was.delay <= now.delay
              && (k == f.info.key || f.delay == 0 ==> now.delay == was.delay)
              && now.etype == (if now.delay == was.delay then was.etype else Delay)
              && (now.gate != was.gate ==> now.gate.Some? && now.gate.value in pool)
    ensures k in Handle(g, pool, f).nodes.at && (forall u :: g.KindOf(u, k) != Some(GateReuse))
            && (k != f.info.key || forall u :: u in g.nodes.at && u != k ==> !Conflict(g.nodes.at[u], f)) ==>
              Handle(g, pool, f).nodes.at[k].gate == Arrived(g, f, k).gate
  {
    hide Graph.Valid, Graphs.ProcessEvent, Resolve, Propagate, Conflict;
    var a, r := ProcessEvent(g, f), Resolved(g, pool, f);
    ProcessEventValid(g, f);
    ArrivedNode(g, f, k);
    ResolveValid(a, pool);
    PropagateInfo(r, f.info.key, f.delay);
    if k in a.nodes.at {
      ResolvedGate(a, pool, k);
      forall u | u in a.nodes.at && a.KindOf(u, k) == Some(GateReuse)
        ensures g.KindOf(u, k) == Some(GateReuse) || (k == f.info.key && u in g.nodes.at && u != k && Conflict(g.nodes.at[u], f))
      {
        ProcessEventEdge(g, f, u, k);
      }
      var bound := BoundExists(r, f.info.key, f.delay);
      PropagationBounds(r, f.info.key, f.delay, bound, k);
    }
  }

  /** Propagating leaves the gates as resolving left them. */
  lemma HandledGate(g: Graph, pool: seq<string>, f: Flight, k: Key)
    requires g.Valid() && k in Handle(g, pool, f).nodes.at
    ensures k in Resolved(g, pool, f).nodes.at && Handle(g, pool, f).nodes.at[k].gate == Resolved(g, pool, f).nodes.at[k].gate
  {
    hide Graph.Valid, Resolved, Propagate;
    PropagateInfo(Resolved(g, pool, f), f.info.key, f.delay);
  }

  /** Every flight that the event's delay reaches ends with at least what its distance
      leaves of it. */
  lemma {:induction false} HandledSpread(g: Graph, pool: seq<string>, f: Flight, k: Key, n: nat)
    requires g.Valid() && f.delay > 0 && k != f.info.key && k in Handle(g, pool, f).nodes.at
    requires IsDist(Resolved(g, pool, f), f.info.key, k, n)
    ensures Handle(g, pool, f).nodes.at[k].delay >= Decay.After(n, f.delay)
  {
    hide Graph.Valid, Resolved, Propagate;
    var r := Resolved(g, pool, f);
    PropagateInfo(r, f.info.key, f.delay);
    var bound := BoundExists(r, f.info.key, f.delay);
    PropagationBounds(r, f.info.key, f.delay, bound, k);
  }

  lemma ArrivedNode(g: Graph, f: Flight, k: Key)
    requires g.Valid()
    ensures k in ProcessEvent(g, f).nodes.at <==> k in g.nodes.at || k == f.info.key
    ensures k in ProcessEvent(g, f).nodes.at ==> ProcessEvent(g, f).nodes.at[k] == Arrived(g, f, k)
  {
  }

  // ---- every run ----

  lemma HandleCovers(g: Graph, pool: seq<string>, f: Flight)
    requires g.Valid() && Covered(g)
    ensures Covered(Handle(g, pool, f))
  {
    hide Graph.Valid, Graphs.ProcessEvent, Resolve, Propagate, Covered;
    ProcessEventValid(g, f);
    ProcessEventCovers(g, f);
    ResolveCovers(ProcessEvent(g, f), pool);
    PropagateInfo(Resolved(g, pool, f), f.info.key, f.delay);
    if f.delay > 0 {
      SameGatesSafe(Resolved(g, pool, f), Handle(g, pool, f));
    }
  }

  lemma ApplyCovers(g: Graph, pool: seq<string>, op: Op)
    requires g.Valid() && Covered(g)
    ensures Covered(Apply(g, pool, op))
  {
    hide Graph.Valid, Covered, Handle, Propagate, Prune, LoadAll;
    match op
    case Message(f) => HandleCovers(g, pool, f);
    case Spread(src, d0) =>
      PropagateInfo(g, src, d0);
      SameGatesSafe(g, Propagate(g, src, d0).0);
    case Expire(cutoff) => PruneCovers(g, cutoff);
    case Load(rows) => LoadCovers(g, rows);
  }

  /** In every reachable graph, however few gates there were, every conflict is
      joined by a gate_reuse edge, so the next resolve call sees it. */
  lemma {:induction false} EveryRunCovers(pool: seq<string>, ops: seq<Op>)
    ensures EMPTY.Valid() && Covered(RunOps(EMPTY, pool, ops))
  {
    hide Apply, Covered;
    EmptySafe();
    if ops != [] {
      EveryRunCovers(pool, ops[..|ops| - 1]);
      ApplyCovers(RunOps(EMPTY, pool, ops[..|ops| - 1]), pool, ops[|ops| - 1]);
    }
  }

  lemma EmptySafe()
    ensures EMPTY.Valid() && Covered(EMPTY) && NoConflict(EMPTY) && NoReuse(EMPTY)
  {
  }

  /** Whatever happened before, a message that finds enough gates leaves no two
      flights in conflict and no gate_reuse edge between overlapping ones. */
  lemma {:induction false} EnoughMakesSafe(pool: seq<string>, ops: seq<Op>, f: Flight)
    requires EMPTY.Valid() && EnoughFor(RunOps(EMPTY, pool, ops), pool, f)
    ensures NoConflict(RunOps(EMPTY, pool, ops + [Message(f)]))
    ensures NoClashLeft(RunOps(EMPTY, pool, ops + [Message(f)]))
  {
    hide Graph.Valid, Graphs.ProcessEvent, Resolve, Propagate, Covered, NoConflict, NoClashLeft, RunOps, Enough;
    EveryRunCovers(pool, ops);
    var g := RunOps(EMPTY, pool, ops);
    ProcessEventValid(g, f);
    ProcessEventCovers(g, f);
    EnoughResolvesAll(ProcessEvent(g, f), pool);
    EnoughLeavesNone(ProcessEvent(g, f), pool);
    PropagateInfo(Resolved(g, pool, f), f.info.key, f.delay);
    if f.delay > 0 {
      SameGatesSafe(Resolved(g, pool, f), Handle(g, pool, f));
    }
    LastOp(pool, ops, Message(f));
  }

  lemma {:induction false} LastOp(pool: seq<string>, ops: seq<Op>, op: Op)
    requires EMPTY.Valid()
    ensures RunOps(EMPTY, pool, ops + [op]) == Apply(RunOps(EMPTY, pool, ops), pool, op)
  {
  }

  // ---- runs that always have enough ----

  ghost predicate Safe(g: Graph) {
    NoConflict(g) && NoReuse(g)
  }

  /** The resolve call of a message on `f` finds at least as many distinct unused
      pool gates as clashing edges. */
  ghost predicate EnoughFor(g: Graph, pool: seq<string>, f: Flight)
    requires g.Valid()
  {
    ProcessEventValid(g, f);
    Enough(ProcessEvent(g, f), pool)
  }

  /** Loads aside, every message of the run finds enough gates. */
  ghost predicate EnoughAlong(pool: seq<string>, ops: seq<Op>)
    requires EMPTY.Valid()
  {
    && (forall i :: 0 <= i < |ops| ==> !ops[i].Load?)
    && (forall i :: 0 <= i < |ops| && ops[i].Message? ==> EnoughFor(RunOps(EMPTY, pool, ops[..i]), pool, ops[i].f))
  }

  /** Loads aside, every message finds a pool of twice as many distinct gates as
      there are flights once it has arrived. */
  ghost predicate AmplePool(pool: seq<string>, ops: seq<Op>)
    requires EMPTY.Valid()
  {
    && (forall i :: 0 <= i < |ops| ==> !ops[i].Load?)
    && (forall i :: 0 <= i < |ops| && ops[i].Message? ==>
          |Elements(pool)| >= 2 * |ProcessEvent(RunOps(EMPTY, pool, ops[..i]), ops[i].f).nodes.order|)
  }

  lemma ArrivalReuse(g: Graph, f: Flight)
    requires g.Valid() && NoReuse(g)
    ensures ReuseOnlyInto(g, f)
    ensures ProcessEvent(g, f).Valid() && ReuseOverlaps(ProcessEvent(g, f))
  {
    ProcessEventValid(g, f);
    var h := ProcessEvent(g, f);
    forall u, v | h.KindOf(u, v) == Some(GateReuse)
      ensures u in h.nodes.at && v in h.nodes.at && Overlaps(h.nodes.at[u], h.nodes.at[v])
    {
      ProcessEventEdge(g, f, u, v);
    }
  }

  lemma NoConflictCovered(g: Graph)
    requires NoConflict(g)
    ensures Covered(g)
  {
  }

  lemma HandleSafe(g: Graph, pool: seq<string>, f: Flight)
    requires g.Valid() && Safe(g) && EnoughFor(g, pool, f)
    ensures Safe(Handle(g, pool, f))
  {
    hide Graph.Valid, Graphs.ProcessEvent, Resolve, Propagate, Covered, NoConflict, NoReuse, ReuseOverlaps, ReuseOnlyInto,
         Enough;
    var h := ProcessEvent(g, f);
    ArrivalReuse(g, f);
    NoConflictCovered(g);
    ProcessEventCovers(g, f);
    EnoughResolvesAll(h, pool);
    PropagateInfo(Resolved(g, pool, f), f.info.key, f.delay);
    if f.delay > 0 {
      SameGatesSafe(Resolved(g, pool, f), Handle(g, pool, f));
    }
  }

  lemma PruneSafe(g: Graph, cutoff: int)
    requires g.Valid() && Safe(g)
    ensures Safe(Prune(g, cutoff))
  {
    hide Prune;
    PruneExact(g, cutoff);
  }

  /** Gate safety over every run: when each resolve call has at least as many
      unused distinct gates as clashing edges, no graph of the run ever holds two
      conflicting flights or a gate_reuse edge. */
  lemma {:induction false} EnoughRunsAreSafe(pool: seq<string>, ops: seq<Op>)
    requires EMPTY.Valid() && EnoughAlong(pool, ops)
    ensures Safe(RunOps(EMPTY, pool, ops))
  {
    hide Safe, Handle, Propagate, Prune, Graph.Valid, EnoughFor;
    EmptyIsSafe();
    if ops != [] {
      var n := |ops| - 1;
      EnoughPrefix(pool, ops, n);
      EnoughRunsAreSafe(pool, ops[..n]);
      ApplySafe(RunOps(EMPTY, pool, ops[..n]), pool, ops[n]);
    }
  }

  lemma EmptyIsSafe()
    ensures Safe(EMPTY)
  {
  }

  lemma EnoughPrefix(pool: seq<string>, ops: seq<Op>, n: nat)
    requires EMPTY.Valid() && EnoughAlong(pool, ops) && n <= |ops|
    ensures EnoughAlong(pool, ops[..n])
  {
    hide RunOps, EnoughFor, Graph.Valid;
    forall i | 0 <= i < n ensures ops[..n][..i] == ops[..i] {
    }
  }

  lemma ApplySafe(g: Graph, pool: seq<string>, op: Op)
    requires g.Valid() && Safe(g) && !op.Load? && (op.Message? ==> EnoughFor(g, pool, op.f))
    ensures Safe(Apply(g, pool, op))
  {
    hide Graph.Valid, Handle, Propagate, Prune, EnoughFor;
    match op
    case Message(f) => HandleSafe(g, pool, f);
    case Spread(src, d0) =>
      PropagateInfo(g, src, d0);
      SameGatesSafe(g, Propagate(g, src, d0).0);
    case Expire(cutoff) => PruneSafe(g, cutoff);
  }

  lemma AmplePrefix(pool: seq<string>, ops: seq<Op>, n: nat)
    requires EMPTY.Valid() && AmplePool(pool, ops) && n <= |ops|
    ensures AmplePool(pool, ops[..n])
  {
    hide RunOps, Graphs.ProcessEvent, Elements, Graph.Valid;
    forall i | 0 <= i < n ensures ops[..n][..i] == ops[..i] {
    }
  }

  /** A pool of twice as many distinct gates as flights is always enough. */
  lemma {:induction false} AmpleIsEnough(pool: seq<string>, ops: seq<Op>)
    requires EMPTY.Valid() && AmplePool(pool, ops)
    ensures EnoughAlong(pool, ops)
    decreases |ops|
  {
    hide RunOps, Graphs.ProcessEvent, Elements, Graph.Valid, Enough;
    if ops != [] {
      var n := |ops| - 1;
      AmplePrefix(pool, ops, n);
      AmpleIsEnough(pool, ops[..n]);
      EnoughRunsAreSafe(pool, ops[..n]);
      forall i | 0 <= i < n ensures ops[..n][..i] == ops[..i] {
      }
      if ops[n].Message? {
        AmpleForOne(RunOps(EMPTY, pool, ops[..n]), pool, ops[n].f);
      }
    }
  }

  lemma AmpleForOne(g: Graph, pool: seq<string>, f: Flight)
    requires g.Valid() && Safe(g) && |Elements(pool)| >= 2 * |ProcessEvent(g, f).nodes.order|
    ensures EnoughFor(g, pool, f)
  {
    hide Graph.Valid, Graphs.ProcessEvent, Enough;
    ArrivalReuse(g, f);
    TwiceTheFlightsIsEnough(g, f, pool);
  }

  /** So with such a pool every run is safe. */
  lemma {:induction false} AmpleRunsAreSafe(pool: seq<string>, ops: seq<Op>)
    requires EMPTY.Valid() && AmplePool(pool, ops)
    ensures Safe(RunOps(EMPTY, pool, ops))
  {
    hide AmplePool, EnoughAlong, Safe, RunOps, Graph.Valid;
    AmpleIsEnough(pool, ops);
    EnoughRunsAreSafe(pool, ops);
  }

  // ---- a load and one resolve ----

  lemma {:induction false} LoadedReuse(fs: seq<Flight>)
    requires DistinctKeys(fs)
    ensures EMPTY.Valid() && LoadAll(EMPTY, fs).Valid() && ReuseOverlaps(LoadAll(EMPTY, fs))
  {
    hide Graph.Valid, LoadAll, Conflict;
    EmptySafe();
    LoadValid(EMPTY, fs);
    LoadNodes(fs);
    var g := LoadAll(EMPTY, fs);
    forall u, v | g.KindOf(u, v) == Some(GateReuse)
      ensures u in g.nodes.at && v in g.nodes.at && Overlaps(g.nodes.at[u], g.nodes.at[v])
    {
      EdgeNodes(g, u, v);
      var i :| 0 <= i < |fs| && Keys(fs)[i] == u;
      var j :| 0 <= j < |fs| && Keys(fs)[j] == v;
      LoadExact(fs, i, j);
      LoadNodeAt(fs, i);
      LoadNodeAt(fs, j);
      ConflictOverlaps(fs[i], fs[j]);
    }
  }

  lemma EdgeNodes(g: Graph, u: Key, v: Key)
    requires g.Valid() && g.HasEdge(u, v)
    ensures u in g.nodes.at && v in g.nodes.at
  {
  }

  lemma ConflictOverlaps(a: Flight, b: Flight)
    ensures Conflict(a, b) ==> Overlaps(a, b)
  {
  }

  /** A load of rows with distinct keys and one resolve call with enough gates
      leave no conflict and no gate_reuse edge. */
  lemma {:induction false} LoadThenResolve(fs: seq<Flight>, pool: seq<string>)
    requires DistinctKeys(fs)
    requires LoadAll(EMPTY, fs).Valid() && Enough(LoadAll(EMPTY, fs), pool)
    ensures NoConflict(Resolve(LoadAll(EMPTY, fs), pool)) && NoReuse(Resolve(LoadAll(EMPTY, fs), pool))
  {
    hide Graph.Valid, LoadAll, Resolve, Enough, Covered, ReuseOverlaps, NoConflict, NoReuse;
    EmptySafe();
    LoadedReuse(fs);
    LoadCovers(EMPTY, fs);
    EnoughResolvesAll(LoadAll(EMPTY, fs), pool);
  }
}

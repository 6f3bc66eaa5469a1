/** The counters of the pool and of the supervisor, in every run. */
module Counting {
  import opened Writer
  import opened Protocol

  /** While a worker is up: what it processed, skipped and failed since it last
      started are the offsets its partitions were committed forward since then,
      plus the message it has handled and not yet committed; its handler's errors
      are the failures its processor caught plus the messages that did not parse.
      Always: every failure the supervisor counted was followed by a restart, but
      for a present one. */
  ghost predicate Balanced(k: WorkerRecord, committed: nat) {
    && (Up(k.pc) ==>
          k.processed + k.skips + k.errors + k.committedBefore
          == k.doneBefore + committed + if k.pc == Handled then 1 else 0)
    && (Up(k.pc) ==> k.failedBefore + k.errors + (if k.pc == Failed then 1 else 0) == k.failed + k.garbled)
    && k.failures == k.restarts + if k.pc == Crashed then 1 else 0
  }

  ghost predicate AllBalanced(s: State) {
    forall w :: 0 <= w < |s.workers| ==> Balanced(s.workers[w], OwnCommitted(s.parts, w))
  }

  lemma {:induction false} OwnUpdate(parts: seq<Part>, w: nat, k: nat, p: Part)
    requires k < |parts| && p.owner == parts[k].owner
    ensures OwnCommitted(parts[k := p], w) + (if p.owner == w then parts[k].committed else 0)
            == OwnCommitted(parts, w) + if p.owner == w then p.committed else 0
  {
    var n := |parts| - 1;
    if k < n {
      OwnUpdate(parts[..n], w, k, p);
      assert parts[k := p][..n] == parts[..n][k := p];
    } else {
      assert parts[k := p][..n] == parts[..n];
    }
  }

  lemma {:induction false} OwnSame(parts: seq<Part>, other: seq<Part>, w: nat)
    requires |parts| == |other|
    requires forall p :: 0 <= p < |parts| ==> other[p].owner == parts[p].owner
    requires forall p :: 0 <= p < |parts| && parts[p].owner == w ==> other[p].committed == parts[p].committed
    ensures OwnCommitted(other, w) == OwnCommitted(parts, w)
  {
    if parts != [] {
      OwnSame(parts[..|parts| - 1], other[..|other| - 1], w);
    }
  }

  /** A step moves the committed offsets of `w` only if it is a commit of `w`
      that takes effect, and then by one in all. */
  lemma {:induction false} OwnMoves(s: State, step: Step, w: nat)
    requires Placed(s) && Enabled(s, step)
    ensures OwnCommitted(Next(s, step).parts, w) ==
            OwnCommitted(s.parts, w) + if step.Commit? && step.applied && step.w == w then 1 else 0
  {
    if Handling(step) {
      hide Next, OwnCommitted;
      HandlingMoves(s, step);
    } else if step.Commit? && step.applied {
      OwnCommits(s, step, w);
    } else {
      OwnStays(s, step);
      OwnSame(s.parts, Next(s, step).parts, w);
    }
  }

  lemma {:induction false} OwnCommits(s: State, step: Step, w: nat)
    requires Placed(s) && Enabled(s, step) && step.Commit? && step.applied
    ensures OwnCommitted(Next(s, step).parts, w) == OwnCommitted(s.parts, w) + if step.w == w then 1 else 0
  {
    hide OwnCommitted, Committed;
    CommitsOne(s, step.w);
    var k := s.workers[step.w].part;
    OwnUpdate(s.parts, w, k, s.parts[k].(committed := s.parts[k].committed + 1));
  }

  lemma OwnStays(s: State, step: Step)
    requires Enabled(s, step) && !Handling(step) && !(step.Commit? && step.applied)
    ensures |Next(s, step).parts| == |s.parts|
    ensures forall p :: 0 <= p < |s.parts| ==>
              Next(s, step).parts[p].owner == s.parts[p].owner && Next(s, step).parts[p].committed == s.parts[p].committed
  {
    hide OwnCommitted;
  }

  lemma BalancedKept(s: State, step: Step)
    requires Placed(s) && AllBalanced(s) && Enabled(s, step)
    ensures AllBalanced(Next(s, step))
  {
    hide Next, Balanced, Placed, OwnCommitted;
    forall w | 0 <= w < |Next(s, step).workers| ensures Balanced(Next(s, step).workers[w], OwnCommitted(Next(s, step).parts, w)) {
      OwnMoves(s, step, w);
      BalancedOne(s, step, w, OwnCommitted(s.parts, w), OwnCommitted(Next(s, step).parts, w));
    }
  }

  lemma {:induction false} BalancedOne(s: State, step: Step, w: nat, before: nat, after: nat)
    requires Enabled(s, step) && w < |Next(s, step).workers|
    requires before == OwnCommitted(s.parts, w)
    requires after == before + if step.Commit? && step.applied && step.w == w then 1 else 0
    ensures w < |s.workers| && (Balanced(s.workers[w], before) ==> Balanced(Next(s, step).workers[w], after))
  {
    if Handling(step) {
      BalancedHandling(s, step, w, before);
    } else {
      hide Write, PairOf, Rewound, Committed, Copies, MessageAt, At, OwnCommitted;
    }
  }

  lemma BalancedHandling(s: State, step: Step, w: nat, committed: nat)
    requires Enabled(s, step) && Handling(step) && w < |Next(s, step).workers|
    ensures w < |s.workers| && (Balanced(s.workers[w], committed) ==> Balanced(Next(s, step).workers[w], committed))
  {
    hide Write, PairOf, Rewound, Committed, Copies, MessageAt, At, OwnCommitted;
  }

  lemma {:induction false} EveryRunBalances(s: State, steps: seq<Step>, w: nat)
    requires Init(s) && Possible(s, steps) && w < |After(s, steps).workers|
    ensures Balanced(After(s, steps).workers[w], OwnCommitted(After(s, steps).parts, w))
  {
    hide Next, Enabled, AllBalanced, Placed;
    InitBalanced(s);
    forall t: State, step: Step | (Placed(t) && AllBalanced(t)) && Enabled(t, step)
      ensures Placed(Next(t, step)) && AllBalanced(Next(t, step))
    {
      PlacedKept(t, step);
      BalancedKept(t, step);
    }
    Always(s, steps, t => Placed(t) && AllBalanced(t));
    AllMeans(After(s, steps), w);
  }

  lemma {:induction false} AllMeans(s: State, w: nat)
    requires AllBalanced(s) && w < |s.workers|
    ensures Balanced(s.workers[w], OwnCommitted(s.parts, w))
  {
  }

  lemma InitBalanced(s: State)
    requires Init(s)
    ensures Placed(s) && AllBalanced(s)
  {
  }

  // ---- the pool's total ----

  /** total_events_failed: the errors of the present failure handlers. */
  function TotalErrors(workers: seq<WorkerRecord>): nat {
    if workers == [] then 0 else workers[0].errors + TotalErrors(workers[1..])
  }

  lemma {:induction false} TotalUpdate(workers: seq<WorkerRecord>, w: nat, k: WorkerRecord)
    requires w < |workers|
    ensures TotalErrors(workers[w := k]) + workers[w].errors == TotalErrors(workers) + k.errors
  {
    if w > 0 {
      TotalUpdate(workers[1..], w - 1, k);
      assert workers[w := k][1..] == workers[1..][w - 1 := k];
    } else {
      assert workers[w := k][1..] == workers[1..];
    }
  }

  /** The total is of the present handlers only: a crash and restart takes the
      worker's failures out of it, although their messages stay dead-lettered or
      dropped and are never handled again. */
  lemma RestartForgetsErrors(s: State, w: nat)
    requires Enabled(s, Crash(w))
    ensures Enabled(Next(s, Crash(w)), Start(w))
    ensures var t := Next(Next(s, Crash(w)), Start(w));
      && TotalErrors(t.workers) + s.workers[w].errors == TotalErrors(s.workers)
      && t.dead == s.dead && t.dropped == s.dropped
      && (forall p :: 0 <= p < |s.parts| ==> t.parts[p].committed == s.parts[p].committed)
  {
    var fallen := Next(s, Crash(w));
    TotalUpdate(s.workers, w, fallen.workers[w]);
    TotalUpdate(fallen.workers, w, Started(fallen.workers[w], OwnCommitted(fallen.parts, w)));
  }
}

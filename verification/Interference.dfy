/** What the rest of the system does while one worker waits: any steps of other
    workers, of the producers and of the store of keys. */
module Interference {
  import opened Writer
  import opened Protocol

  /** A step that is not `w`'s and can happen. */
  predicate Elsewhere(s: State, w: nat, step: Step) {
    !Acts(step, w) && Enabled(s, step)
  }

  function Beside(s: State, w: nat, step: Step): State {
    if Elsewhere(s, w, step) then Next(s, step) else s
  }

  /** The steps of `gap` that are not `w`'s, as far as they can happen. */
  function Meanwhile(s: State, w: nat, gap: seq<Step>): (t: State)
    ensures |t.workers| == |s.workers| && t.airport == s.airport
    ensures w < |s.workers| ==> t.workers[w] == s.workers[w]
    ensures Holding(s, w) ==> Holding(t, w) && At(t, w) == At(s, w) && InHand(t, w) == InHand(s, w)
    decreases |gap|
  {
    hide Next, Enabled, Acts;
    if gap == [] then s
    else
      BesideKeeps(s, w, gap[0]);
      Meanwhile(Beside(s, w, gap[0]), w, gap[1..])
  }

  /** Any run of others can happen meanwhile, step by step. */
  lemma {:induction false} MeanwhileIsAnyRun(s: State, w: nat, gap: seq<Step>)
    requires Possible(s, gap)
    requires forall i :: 0 <= i < |gap| ==> gap[i].Append? || gap[i].Expire? || gap[i].w != w
    ensures Meanwhile(s, w, gap) == After(s, gap)
    decreases |gap|
  {
    hide Next, Enabled;
    if gap != [] {
      MeanwhileIsAnyRun(s, w, gap[..|gap| - 1]);
      MeanwhileLast(s, w, gap);
    }
  }

  lemma {:induction false} MeanwhileLast(s: State, w: nat, gap: seq<Step>)
    requires gap != []
    ensures Meanwhile(s, w, gap) == Beside(Meanwhile(s, w, gap[..|gap| - 1]), w, gap[|gap| - 1])
    decreases |gap|
  {
    hide Beside;
    if |gap| > 1 {
      MeanwhileLast(Beside(s, w, gap[0]), w, gap[1..]);
      assert gap[1..][..|gap| - 2] == gap[..|gap| - 1][1..];
    }
  }

  /** A worker keeps its message through the steps of others. */
  lemma BesideKeeps(s: State, w: nat, step: Step)
    ensures var t := Beside(s, w, step);
      && |t.workers| == |s.workers| && t.airport == s.airport
      && (w < |s.workers| ==> t.workers[w] == s.workers[w])
      && (Holding(s, w) ==> Holding(t, w) && At(t, w) == At(s, w) && InHand(t, w) == InHand(s, w))
  {
    if Elsewhere(s, w, step) {
      if Handling(step) {
        hide Next;
        HandlingMoves(s, step);
        SameAirport(s, step);
      } else {
        hide Rewound, Committed, OwnCommitted;
      }
    }
  }

  lemma SameAirport(s: State, step: Step)
    requires Enabled(s, step)
    ensures Next(s, step).airport == s.airport
  {
    hide Write, PairOf, Copies;
  }

  /** The partitions of `w` are where they were, but for appended messages. */
  ghost predicate SameOwn(s: State, t: State, w: nat) {
    && |t.parts| == |s.parts|
    && (forall p :: 0 <= p < |s.parts| ==> t.parts[p].owner == s.parts[p].owner)
    && (forall p :: 0 <= p < |s.parts| && s.parts[p].owner == w ==>
          s.parts[p].log <= t.parts[p].log && t.parts[p].committed == s.parts[p].committed
          && t.parts[p].position == s.parts[p].position)
  }

  lemma BesideOwn(s: State, w: nat, step: Step)
    ensures SameOwn(s, Beside(s, w, step), w)
  {
    hide Write, PairOf;
  }

  lemma {:induction false} MeanwhileOwn(s: State, w: nat, gap: seq<Step>)
    ensures SameOwn(s, Meanwhile(s, w, gap), w)
    decreases |gap|
  {
    hide Beside;
    if gap != [] {
      BesideOwn(s, w, gap[0]);
      MeanwhileOwn(Beside(s, w, gap[0]), w, gap[1..]);
    }
  }

  // ---- the others do not see the worker ----

  /** The states differ at most in the record of `w` and in the history. */
  ghost predicate Alike(s: State, e: State, w: nat) {
    && e.airport == s.airport && e.parts == s.parts && e.keys == s.keys && e.db == s.db
    && e.forwarded == s.forwarded && e.dead == s.dead && |e.workers| == |s.workers|
    && (forall v :: 0 <= v < |s.workers| && v != w ==> e.workers[v] == s.workers[v])
  }

  lemma AlikeEnabled(s: State, e: State, w: nat, step: Step)
    requires Alike(s, e, w) && !Acts(step, w)
    ensures Enabled(s, step) <==> Enabled(e, step)
  {
    hide Write, PairOf;
  }

  lemma AlikeHands(s: State, e: State, w: nat, v: nat)
    requires Alike(s, e, w) && v != w
    ensures Holding(s, v) <==> Holding(e, v)
    ensures Holding(s, v) ==> At(s, v) == At(e, v) && InHand(s, v) == InHand(e, v)
  {
  }

  lemma AlikeHandling(s: State, e: State, w: nat, step: Step)
    requires Alike(s, e, w) && !Acts(step, w) && Enabled(s, step) && Enabled(e, step) && Handling(step)
    ensures Alike(Next(s, step), Next(e, step), w)
  {
    hide Write, PairOf, Copies, At, InHand;
    AlikeHands(s, e, w, step.w);
  }

  lemma AlikeOutside(s: State, e: State, w: nat, step: Step)
    requires Alike(s, e, w) && !Acts(step, w) && Enabled(s, step) && Enabled(e, step) && !Handling(step)
    ensures Alike(Next(s, step), Next(e, step), w)
  {
    hide Rewound, Committed, OwnCommitted;
  }

  lemma AlikeNext(s: State, e: State, w: nat, step: Step)
    requires Alike(s, e, w) && !Acts(step, w) && Enabled(s, step) && Enabled(e, step)
    ensures Alike(Next(s, step), Next(e, step), w)
  {
    hide Next, Enabled, Alike;
    if Handling(step) {
      AlikeHandling(s, e, w, step);
    } else {
      AlikeOutside(s, e, w, step);
    }
  }

  lemma AlikeBeside(s: State, e: State, w: nat, step: Step)
    requires Alike(s, e, w)
    ensures Alike(Beside(s, w, step), Beside(e, w, step), w)
  {
    hide Next, Enabled, Alike;
    if !Acts(step, w) {
      AlikeEnabled(s, e, w, step);
      if Enabled(s, step) {
        AlikeNext(s, e, w, step);
      }
    }
  }
}

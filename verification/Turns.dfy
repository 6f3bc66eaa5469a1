/** The protocol steps that the worker's code takes for one message, for one life
    of the worker and under the supervisor, with anything happening elsewhere
    between any two of them. */
module Turns {
  import opened Writer
  import opened Protocol
  import opened Interference

  /** What happens elsewhere before each await takes effect. */
  datatype Gaps = Gaps(
    check: seq<Step>, store: seq<Step>, forward: seq<Step>, mark: seq<Step>, bury: seq<Step>, commit: seq<Step>)

  /** How the awaits of one message end. */
  datatype Outcomes = Outcomes(
    gaps: Gaps,
    lag: bool,
    check: bool,
    store: bool, storeApplied: bool,
    forward: bool, copies: nat,
    mark: bool, markApplied: bool,
    delivery: Delivery, deliveryApplied: bool,
    commit: bool, commitApplied: bool)
  {
    /** What succeeds took effect. */
    predicate Fair() {
      && (store ==> storeApplied) && (forward ==> copies > 0) && (mark ==> markApplied)
      && (delivery.Delivered? ==> deliveryApplied) && (commit ==> commitApplied)
    }
  }

  // ---- the awaits of one message ----

  /** Handling keeps a worker that stays busy on its message. */
  lemma StillHolds(s: State, step: Step)
    requires Enabled(s, step) && Handling(step)
    ensures var t, w := Next(s, step), step.w;
      w < |t.workers| && (Busy(t.workers[w].pc) ==> Holding(s, w) && Holding(t, w) && At(t, w) == At(s, w) && InHand(t, w) == InHand(s, w))
  {
    hide Write, Next;
    HandlingMoves(s, step);
  }

  ghost function Checked(s: State, w: nat, o: Outcomes): (t: State)
    requires HoldsEvent(s, w, Got)
    ensures Holding(t, w) && At(t, w) == At(s, w) && InHand(t, w) == InHand(s, w) && t.workers[w].pc in {Failed, Handled, Missed}
  {
    hide Meanwhile, Write;
    var u := Meanwhile(s, w, o.gaps.check);
    StillHolds(u, Check(w, o.check));
    Next(u, Check(w, o.check))
  }

  ghost function Saved(s: State, w: nat, o: Outcomes): (t: State)
    requires HoldsEvent(s, w, Missed) && o.Fair()
    ensures Holding(t, w) && At(t, w) == At(s, w) && InHand(t, w) == InHand(s, w) && t.workers[w].pc in {Failed, Written}
  {
    hide Meanwhile, Write;
    var u := Meanwhile(s, w, o.gaps.store);
    StillHolds(u, Store(w, o.store, o.storeApplied));
    Next(u, Store(w, o.store, o.storeApplied))
  }

  ghost function Sent(s: State, w: nat, o: Outcomes): (t: State)
    requires HoldsEvent(s, w, Written) && o.Fair()
    ensures Holding(t, w) && At(t, w) == At(s, w) && InHand(t, w) == InHand(s, w) && t.workers[w].pc in {Failed, Forwarded}
  {
    hide Meanwhile, Write;
    var u := Meanwhile(s, w, o.gaps.forward);
    StillHolds(u, Step.Forward(w, o.forward, o.copies));
    Next(u, Step.Forward(w, o.forward, o.copies))
  }

  ghost function Marked(s: State, w: nat, o: Outcomes): (t: State)
    requires HoldsEvent(s, w, Forwarded) && o.Fair()
    ensures Holding(t, w) && At(t, w) == At(s, w) && InHand(t, w) == InHand(s, w) && t.workers[w].pc in {Failed, Handled}
  {
    hide Meanwhile, Write;
    var u := Meanwhile(s, w, o.gaps.mark);
    StillHolds(u, Mark(w, o.mark, o.markApplied));
    Next(u, Mark(w, o.mark, o.markApplied))
  }

  /** Write, forward, mark, up to the first failure. */
  ghost function Persisted(s: State, w: nat, o: Outcomes): (t: State)
    requires HoldsEvent(s, w, Missed) && o.Fair()
    ensures Holding(t, w) && At(t, w) == At(s, w) && t.workers[w].pc in {Failed, Handled}
  {
    hide Saved, Sent, Marked;
    var b := Saved(s, w, o);
    if b.workers[w].pc != Written then b else
    var c := Sent(b, w, o);
    if c.workers[w].pc != Forwarded then c else Marked(c, w, o)
  }

  /** process_flight_event: stop at a key that is present, or persist. */
  ghost function Processed(s: State, w: nat, o: Outcomes): (t: State)
    requires HoldsEvent(s, w, Got) && o.Fair()
    ensures Holding(t, w) && At(t, w) == At(s, w) && t.workers[w].pc in {Failed, Handled}
  {
    hide Checked, Persisted;
    var a := Checked(s, w, o);
    if a.workers[w].pc == Missed then Persisted(a, w, o) else a
  }

  lemma ProcessedAs(s: State, w: nat, o: Outcomes)
    requires HoldsEvent(s, w, Got) && o.Fair()
    ensures var a := Checked(s, w, o);
      Processed(s, w, o) == if a.workers[w].pc == Missed then Persisted(a, w, o) else a
  {
    hide Checked, Persisted;
  }

  ghost function ParsedOut(s: State, w: nat): (t: State)
    requires Holding(s, w) && s.workers[w].pc == Got && InHand(s, w).Garbage?
    ensures Holding(t, w) && At(t, w) == At(s, w) && t.workers[w].pc == Failed
  {
    StillHolds(s, Parse(w));
    Next(s, Parse(w))
  }

  ghost function Buried(s: State, w: nat, o: Outcomes): (t: State)
    requires Holding(s, w) && s.workers[w].pc == Failed && o.Fair()
    ensures w < |t.workers| && t.workers[w].pc in {Handled, Crashed}
    ensures t.workers[w].pc == Handled ==> Holding(t, w)
  {
    hide Meanwhile;
    var u := Meanwhile(s, w, o.gaps.bury);
    StillHolds(u, DeadLetter(w, o.delivery, o.deliveryApplied));
    Next(u, DeadLetter(w, o.delivery, o.deliveryApplied))
  }

  ghost function Sealed(s: State, w: nat, o: Outcomes): (t: State)
    requires Holding(s, w) && s.workers[w].pc == Handled && o.Fair()
    ensures w < |t.workers| && t.workers[w].pc in {Idle, Crashed}
  {
    hide Meanwhile;
    Next(Meanwhile(s, w, o.gaps.commit), Protocol.Commit(w, o.commit, o.commitApplied))
  }

  /** Parsed and processed, or found to be no event. */
  ghost function Tried(s: State, w: nat, o: Outcomes): (t: State)
    requires Holding(s, w) && s.workers[w].pc == Got && o.Fair()
    ensures Holding(t, w) && At(t, w) == At(s, w) && t.workers[w].pc in {Failed, Handled}
  {
    hide Processed, ParsedOut;
    if InHand(s, w).Garbage? then ParsedOut(s, w) else Processed(s, w, o)
  }

  /** One turn of the consume loop on a message in hand. */
  ghost function Finishing(s: State, w: nat, o: Outcomes): (t: State)
    requires Holding(s, w) && s.workers[w].pc == Got && o.Fair()
    ensures w < |t.workers| && t.workers[w].pc in {Idle, Crashed}
  {
    hide Tried, Buried, Sealed;
    if !o.lag then Next(s, Crash(w))
    else
      var a := Tried(s, w, o);
      var b := if a.workers[w].pc == Failed then Buried(a, w, o) else a;
      if b.workers[w].pc == Handled then Sealed(b, w, o) else b
  }

  // ---- turns, lives and restarts ----

  /** One turn of `async for`: after what happens elsewhere, the next message of
      some partition of the worker, if there is one, handled to the end. */
  datatype Turn = Turn(before: seq<Step>, part: nat, o: Outcomes)

  ghost function Fetched(s: State, w: nat, p: nat): (t: State)
    requires Enabled(s, Fetch(w, p))
    ensures Holding(t, w) && t.workers[w].pc == Got && At(t, w) == Place(p, s.parts[p].position)
    ensures InHand(t, w) == s.parts[p].log[s.parts[p].position]
  {
    Next(s, Fetch(w, p))
  }

  ghost function Turned(s: State, w: nat, turn: Turn): (t: State)
    requires w < |s.workers| && s.workers[w].pc == Idle && turn.o.Fair()
    ensures w < |t.workers| && t.workers[w].pc in {Idle, Crashed}
  {
    hide Meanwhile, Finishing, Fetched;
    var u := Meanwhile(s, w, turn.before);
    if Enabled(u, Fetch(w, turn.part)) then Finishing(Fetched(u, w, turn.part), w, turn.o) else u
  }

  ghost predicate AllFair(turns: seq<Turn>) {
    forall i :: 0 <= i < |turns| ==> turns[i].o.Fair()
  }

  /** The turns of one life of the worker, up to a crash. */
  ghost function Ran(s: State, w: nat, turns: seq<Turn>): (t: State)
    requires w < |s.workers| && s.workers[w].pc == Idle && AllFair(turns)
    ensures w < |t.workers| && t.workers[w].pc in {Idle, Crashed}
    decreases |turns|
  {
    hide Turned;
    if turns == [] then s
    else
      var t := Turned(s, w, turns[0]);
      if t.workers[w].pc == Crashed then t else Ran(t, w, turns[1..])
  }

  lemma {:induction false} RanNone(s: State, w: nat, turns: seq<Turn>)
    requires w < |s.workers| && s.workers[w].pc == Idle && turns == []
    ensures Ran(s, w, turns) == s
  {
  }

  lemma {:induction false} RanNext(s: State, w: nat, turns: seq<Turn>, i: nat)
    requires w < |s.workers| && s.workers[w].pc == Idle && AllFair(turns) && i < |turns|
    ensures var t := Turned(s, w, turns[i]);
      Ran(s, w, turns[i..]) == if t.workers[w].pc == Crashed then t else Ran(t, w, turns[i + 1..])
  {
    hide Turned;
    assert turns[i..][0] == turns[i] && turns[i..][1..] == turns[i + 1..];
  }

  /** One call of `run` under the supervisor: its turns, whether it then raises or
      returns, what happens elsewhere while the supervisor waits, and whether the
      restart succeeds. */
  datatype Span = Span(turns: seq<Turn>, raises: bool, asleep: seq<Step>, restarts: bool)

  ghost predicate SpansFair(spans: seq<Span>) {
    forall i :: 0 <= i < |spans| ==> AllFair(spans[i].turns)
  }

  ghost function Spanned(s: State, w: nat, span: Span): (t: State)
    requires w < |s.workers| && s.workers[w].pc == Idle && AllFair(span.turns)
    ensures w < |t.workers| && t.workers[w].pc in {Idle, Crashed}
  {
    hide Ran;
    var t := Ran(s, w, span.turns);
    if t.workers[w].pc == Idle && span.raises then Next(t, Crash(w)) else t
  }

  /** `run` ends in a crash exactly when it raises by itself or a turn crashes. */
  lemma {:induction false} SpanEnds(s: State, w: nat, span: Span)
    requires w < |s.workers| && s.workers[w].pc == Idle && AllFair(span.turns)
    ensures Spanned(s, w, span).workers[w].pc == Crashed <==>
            span.raises || Ran(s, w, span.turns).workers[w].pc == Crashed
  {
    hide Ran;
  }

  /** A restart after a crash, or what is left when it raises. */
  ghost function Restarted(s: State, w: nat, span: Span): (t: State)
    requires w < |s.workers| && s.workers[w].pc == Crashed
    ensures w < |t.workers| && t.workers[w].pc == if span.restarts then Idle else Gone
  {
    hide Meanwhile;
    var u := Meanwhile(s, w, span.asleep);
    if span.restarts then Next(u, Start(w)) else Next(u, Abandon(w))
  }

  /** The supervised loop: restart after every crash, until `run` returns, a
      restart raises, or the supervisor is stopping, which is after the last span. */
  ghost function Supervised(s: State, w: nat, spans: seq<Span>): (t: State)
    requires w < |s.workers| && s.workers[w].pc == Idle && SpansFair(spans)
    ensures w < |t.workers| && t.workers[w].pc in {Idle, Crashed, Gone}
    decreases |spans|
  {
    hide Spanned, Restarted;
    if spans == [] then s
    else
      var t := Spanned(s, w, spans[0]);
      if t.workers[w].pc == Idle || |spans| == 1 then t
      else
        var u := Restarted(t, w, spans[0]);
        if u.workers[w].pc == Gone then u else Supervised(u, w, spans[1..])
  }

  // ---- the same, as histories ----

  /** The states before the turns of one life: each but the last turn left the worker
      idle, and only a crash keeps a turn from being taken. */
  ghost predicate TurnedThrough(states: seq<State>, s: State, w: nat, turns: seq<Turn>, t: State)
    requires AllFair(turns)
  {
    && |states| <= |turns| && (forall i :: 0 <= i < |states| ==> w < |states[i].workers| && states[i].workers[w].pc == Idle)
    && (if states == [] then turns == [] && t == s
        else
          && states[0] == s && w < |t.workers|
          && (forall i :: 0 <= i < |states| - 1 ==> states[i + 1] == Turned(states[i], w, turns[i]))
          && t == Turned(states[|states| - 1], w, turns[|states| - 1])
          && (|states| < |turns| ==> t.workers[w].pc == Crashed))
  }

  lemma {:induction false} RanThrough(s: State, w: nat, turns: seq<Turn>) returns (states: seq<State>)
    requires w < |s.workers| && s.workers[w].pc == Idle && AllFair(turns)
    ensures TurnedThrough(states, s, w, turns, Ran(s, w, turns))
    decreases |turns|
  {
    hide Turned;
    states := [];
    if turns != [] {
      var t := Turned(s, w, turns[0]);
      if t.workers[w].pc != Crashed && turns[1..] != [] {
        states := RanThrough(t, w, turns[1..]);
      }
      states := [s] + states;
    }
  }

  /** The states in which the lives of the worker began: each but the last ended in a
      crash and a restart that succeeded; the last one returned, or crashed while the
      supervisor was stopping, which is in the last span, or its restart raised. */
  ghost predicate LivedThrough(lives: seq<State>, s: State, w: nat, spans: seq<Span>, t: State)
    requires SpansFair(spans)
  {
    && |lives| <= |spans| && (forall i :: 0 <= i < |lives| ==> w < |lives[i].workers| && lives[i].workers[w].pc == Idle)
    && (if lives == [] then spans == [] && t == s
        else
          var n := |lives| - 1;
          && lives[0] == s
          && (forall i :: 0 <= i < n ==> RestartedAs(lives[i], w, spans[i], lives[i + 1]) && spans[i].restarts)
          && var last := Spanned(lives[n], w, spans[n]);
             if last.workers[w].pc == Idle || |lives| == |spans| then t == last
             else !spans[n].restarts && RestartedAs(lives[n], w, spans[n], t))
  }

  /** A life that began in `s` ended in a crash and the restart left `u`. */
  ghost predicate RestartedAs(s: State, w: nat, span: Span, u: State)
    requires w < |s.workers| && s.workers[w].pc == Idle && AllFair(span.turns)
  {
    var t := Spanned(s, w, span);
    t.workers[w].pc == Crashed && u == Restarted(t, w, span)
  }

  lemma {:induction false} SupervisedThrough(s: State, w: nat, spans: seq<Span>) returns (lives: seq<State>)
    requires w < |s.workers| && s.workers[w].pc == Idle && SpansFair(spans)
    ensures LivedThrough(lives, s, w, spans, Supervised(s, w, spans))
    decreases |spans|
  {
    hide Spanned, Restarted;
    lives := [];
    if spans != [] {
      var t := Spanned(s, w, spans[0]);
      if t.workers[w].pc == Crashed && |spans| > 1 && spans[0].restarts {
        lives := SupervisedThrough(Restarted(t, w, spans[0]), w, spans[1..]);
      }
      lives := [s] + lives;
    }
  }

  // ---- what each await changes ----

  /** The counters of the processor: processed, failed, skipped. */
  function Counters(k: WorkerRecord): (nat, nat, nat) {
    (k.processed, k.failed, k.skips)
  }

  function Failing(c: (nat, nat, nat)): (nat, nat, nat) {
    (c.0, c.1 + 1, c.2)
  }

  /** The other counters: errors, failures, restarts. */
  function Life(k: WorkerRecord): (nat, nat, nat) {
    (k.errors, k.failures, k.restarts)
  }

  /** Nothing but the worker itself differs. */
  ghost predicate SameRest(s: State, t: State, w: nat) {
    && t == s.(workers := t.workers) && |t.workers| == |s.workers|
    && (forall v :: 0 <= v < |s.workers| && v != w ==> t.workers[v] == s.workers[v])
  }

  lemma CheckIs(u: State, w: nat, ok: bool)
    requires HoldsEvent(u, w, Got)
    ensures var t, c := Next(u, Check(w, ok)), Counters(u.workers[w]);
      var seen := PairOf(InHand(u, w).f) in u.keys;
      && SameRest(u, t, w) && Life(t.workers[w]) == Life(u.workers[w])
      && t.workers[w].pc == (if !ok then Failed else if seen then Handled else Missed)
      && Counters(t.workers[w]) == if !ok then Failing(c) else if seen then (c.0, c.1, c.2 + 1) else c
  {
  }

  lemma StoreIs(u: State, w: nat, ok: bool, applied: bool)
    requires HoldsEvent(u, w, Missed) && (ok ==> applied)
    ensures var t, c := Next(u, Store(w, ok, applied)), Counters(u.workers[w]);
      && SameRest(u.(db := t.db, writes := t.writes), t, w) && Life(t.workers[w]) == Life(u.workers[w])
      && t.db == (if applied then Write(u.db, [InHand(u, w).f], u.airport) else u.db)
      && t.workers[w].pc == (if ok then Written else Failed)
      && Counters(t.workers[w]) == if ok then c else Failing(c)
  {
    hide Write;
  }

  lemma ForwardIs(u: State, w: nat, ok: bool, copies: nat)
    requires HoldsEvent(u, w, Written) && (ok ==> copies > 0)
    ensures var t, c := Next(u, Step.Forward(w, ok, copies)), Counters(u.workers[w]);
      && SameRest(u.(forwarded := t.forwarded), t, w) && Life(t.workers[w]) == Life(u.workers[w])
      && t.forwarded == u.forwarded + Copies(Copy(At(u, w), PairOf(InHand(u, w).f)), copies)
      && t.workers[w].pc == (if ok then Forwarded else Failed)
      && Counters(t.workers[w]) == if ok then c else Failing(c)
  {
  }

  lemma MarkIs(u: State, w: nat, ok: bool, applied: bool)
    requires HoldsEvent(u, w, Forwarded) && (ok ==> applied)
    ensures var t, c := Next(u, Mark(w, ok, applied)), Counters(u.workers[w]);
      && SameRest(u.(keys := t.keys), t, w) && Life(t.workers[w]) == Life(u.workers[w])
      && t.keys == (if applied then u.keys + {PairOf(InHand(u, w).f)} else u.keys)
      && t.workers[w].pc == (if ok then Handled else Failed)
      && Counters(t.workers[w]) == if ok then (c.0 + 1, c.1, c.2) else Failing(c)
  {
  }

  lemma ParsedOutIs(u: State, w: nat)
    requires Holding(u, w) && u.workers[w].pc == Got && InHand(u, w).Garbage?
    ensures var t := ParsedOut(u, w);
      SameRest(u, t, w) && Counters(t.workers[w]) == Counters(u.workers[w]) && Life(t.workers[w]) == Life(u.workers[w])
  {
  }

  lemma DeadLetterIs(u: State, w: nat, delivery: Delivery, applied: bool)
    requires Holding(u, w) && u.workers[w].pc == Failed && (delivery.Delivered? ==> applied)
    ensures var t, at := Next(u, DeadLetter(w, delivery, applied)), At(u, w);
      && SameRest(u.(dead := t.dead, dropped := t.dropped), t, w)
      && t.dead == (if applied then u.dead + {at} else u.dead)
      && t.dropped == (if delivery.Swallowed? then u.dropped + {at} else u.dropped)
      && t.workers[w].pc == (if delivery.Raised? then Crashed else Handled)
      && Counters(t.workers[w]) == Counters(u.workers[w])
      && Life(t.workers[w]).0 == Life(u.workers[w]).0 + 1 && Life(t.workers[w]).2 == Life(u.workers[w]).2
  {
  }

  lemma CommitIs(u: State, w: nat, ok: bool, applied: bool)
    requires Holding(u, w) && u.workers[w].pc == Handled && (ok ==> applied)
    ensures var t := Next(u, Protocol.Commit(w, ok, applied));
      && SameRest(u.(parts := t.parts), t, w)
      && t.parts == (if applied then Committed(u.parts, w) else u.parts)
      && t.workers[w].pc == (if ok then Idle else Crashed)
      && Counters(t.workers[w]) == Counters(u.workers[w])
      && Life(t.workers[w]).0 == Life(u.workers[w]).0 && Life(t.workers[w]).2 == Life(u.workers[w]).2
  {
  }

  lemma FetchedIs(u: State, w: nat, p: nat)
    requires Enabled(u, Fetch(w, p))
    ensures var t := Fetched(u, w, p);
      && SameRest(u.(parts := t.parts), t, w)
      && t.parts == u.parts[p := u.parts[p].(position := u.parts[p].position + 1)]
      && Counters(t.workers[w]) == Counters(u.workers[w]) && Life(t.workers[w]) == Life(u.workers[w])
  {
  }

  lemma FallIs(u: State, w: nat)
    requires Enabled(u, Crash(w))
    ensures var t := Next(u, Crash(w));
      && SameRest(u, t, w) && t.workers[w].pc == Crashed && Counters(t.workers[w]) == Counters(u.workers[w])
      && Life(t.workers[w]).0 == Life(u.workers[w]).0 && Life(t.workers[w]).2 == Life(u.workers[w]).2
  {
  }

  lemma StartIs(u: State, w: nat)
    requires Enabled(u, Start(w)) && u.workers[w].pc == Crashed
    ensures var t := Next(u, Start(w));
      && SameRest(u.(parts := t.parts), t, w) && t.parts == Rewound(u.parts, w) && t.workers[w].pc == Idle
      && Counters(t.workers[w]) == Counters(u.workers[w])
      && Life(t.workers[w]).0 == 0 && Life(t.workers[w]).2 == Life(u.workers[w]).2 + 1
  {
  }

  lemma AbandonIs(u: State, w: nat)
    requires Enabled(u, Abandon(w))
    ensures var t := Next(u, Abandon(w));
      && SameRest(u, t, w) && t.workers[w].pc == Gone && Counters(t.workers[w]) == Counters(u.workers[w])
      && Life(t.workers[w]).0 == Life(u.workers[w]).0 && Life(t.workers[w]).2 == Life(u.workers[w]).2 + 1
  {
  }

  /** Processing an event leaves errors, failures and restarts alone. */
  lemma ProcessedIs(s: State, w: nat, o: Outcomes)
    requires HoldsEvent(s, w, Got) && o.Fair()
    ensures Life(Processed(s, w, o).workers[w]) == Life(s.workers[w])
  {
    hide Next, Life, Meanwhile, Counters;
    CheckIs(Meanwhile(s, w, o.gaps.check), w, o.check);
    var a := Checked(s, w, o);
    if a.workers[w].pc == Missed {
      StoreIs(Meanwhile(a, w, o.gaps.store), w, o.store, o.storeApplied);
      var b := Saved(a, w, o);
      if b.workers[w].pc == Written {
        ForwardIs(Meanwhile(b, w, o.gaps.forward), w, o.forward, o.copies);
        var c := Sent(b, w, o);
        if c.workers[w].pc == Forwarded {
          MarkIs(Meanwhile(c, w, o.gaps.mark), w, o.mark, o.markApplied);
        }
      }
    }
  }
}

/** The consume loop and the supervised loop, with everything else going on between
    their awaits, take protocol runs, so that all that is proved of every run holds
    of the code. */
module Loops {
  import opened Protocol
  import opened Delivery
  import opened Interference
  import opened Turns

  ghost predicate Reaches(s: State, t: State) {
    exists steps :: Possible(s, steps) && After(s, steps) == t
  }

  lemma ReachesItself(s: State)
    ensures Reaches(s, s)
  {
    assert Possible(s, []) && After(s, []) == s;
  }

  lemma {:induction false} OneMore(s: State, steps: seq<Step>, step: Step)
    requires Possible(s, steps) && Enabled(After(s, steps), step)
    ensures Possible(s, steps + [step]) && After(s, steps + [step]) == Next(After(s, steps), step)
  {
    hide Next, Enabled;
    assert (steps + [step])[..|steps|] == steps;
  }

  lemma ReachesNext(s: State, t: State, step: Step)
    requires Reaches(s, t) && Enabled(t, step)
    ensures Reaches(s, Next(t, step))
  {
    hide Next, Enabled, Possible, After;
    var steps :| Possible(s, steps) && After(s, steps) == t;
    OneMore(s, steps, step);
  }

  lemma {:induction false} MeanwhileReaches(r: State, s: State, w: nat, gap: seq<Step>)
    requires Reaches(r, s)
    ensures Reaches(r, Meanwhile(s, w, gap))
    decreases |gap|
  {
    hide Next, Enabled, Reaches, Acts;
    if gap != [] {
      if Elsewhere(s, w, gap[0]) {
        ReachesNext(r, s, gap[0]);
      }
      MeanwhileReaches(r, Beside(s, w, gap[0]), w, gap[1..]);
    }
  }

  lemma CheckedReaches(r: State, s: State, w: nat, o: Outcomes)
    requires HoldsEvent(s, w, Got) && Reaches(r, s)
    ensures Reaches(r, Checked(s, w, o))
  {
    hide Next, Reaches, Meanwhile;
    MeanwhileReaches(r, s, w, o.gaps.check);
    ReachesNext(r, Meanwhile(s, w, o.gaps.check), Check(w, o.check));
  }

  lemma SavedReaches(r: State, s: State, w: nat, o: Outcomes)
    requires HoldsEvent(s, w, Missed) && o.Fair() && Reaches(r, s)
    ensures Reaches(r, Saved(s, w, o))
  {
    hide Next, Reaches, Meanwhile;
    MeanwhileReaches(r, s, w, o.gaps.store);
    ReachesNext(r, Meanwhile(s, w, o.gaps.store), Store(w, o.store, o.storeApplied));
  }

  lemma SentReaches(r: State, s: State, w: nat, o: Outcomes)
    requires HoldsEvent(s, w, Written) && o.Fair() && Reaches(r, s)
    ensures Reaches(r, Sent(s, w, o))
  {
    hide Next, Reaches, Meanwhile;
    MeanwhileReaches(r, s, w, o.gaps.forward);
    ReachesNext(r, Meanwhile(s, w, o.gaps.forward), Step.Forward(w, o.forward, o.copies));
  }

  lemma MarkedReaches(r: State, s: State, w: nat, o: Outcomes)
    requires HoldsEvent(s, w, Forwarded) && o.Fair() && Reaches(r, s)
    ensures Reaches(r, Marked(s, w, o))
  {
    hide Next, Reaches, Meanwhile;
    MeanwhileReaches(r, s, w, o.gaps.mark);
    ReachesNext(r, Meanwhile(s, w, o.gaps.mark), Mark(w, o.mark, o.markApplied));
  }

  lemma PersistedReaches(r: State, s: State, w: nat, o: Outcomes)
    requires HoldsEvent(s, w, Missed) && o.Fair() && Reaches(r, s)
    ensures Reaches(r, Persisted(s, w, o))
  {
    hide Reaches, Saved, Sent, Marked;
    SavedReaches(r, s, w, o);
    var b := Saved(s, w, o);
    if b.workers[w].pc == Written {
      SentReaches(r, b, w, o);
      var c := Sent(b, w, o);
      if c.workers[w].pc == Forwarded {
        MarkedReaches(r, c, w, o);
      }
    }
  }

  lemma ProcessedReaches(r: State, s: State, w: nat, o: Outcomes)
    requires HoldsEvent(s, w, Got) && o.Fair() && Reaches(r, s)
    ensures Reaches(r, Processed(s, w, o))
  {
    hide Reaches, Checked, Persisted;
    CheckedReaches(r, s, w, o);
    var a := Checked(s, w, o);
    if a.workers[w].pc == Missed {
      PersistedReaches(r, a, w, o);
    }
  }

  lemma TriedReaches(r: State, s: State, w: nat, o: Outcomes)
    requires Holding(s, w) && s.workers[w].pc == Got && o.Fair() && Reaches(r, s)
    ensures Reaches(r, Tried(s, w, o))
  {
    hide Next, Reaches, Processed;
    if InHand(s, w).Garbage? {
      ReachesNext(r, s, Parse(w));
    } else {
      ProcessedReaches(r, s, w, o);
    }
  }

  lemma BuriedReaches(r: State, s: State, w: nat, o: Outcomes)
    requires Holding(s, w) && s.workers[w].pc == Failed && o.Fair() && Reaches(r, s)
    ensures Reaches(r, Buried(s, w, o))
  {
    hide Next, Reaches, Meanwhile;
    MeanwhileReaches(r, s, w, o.gaps.bury);
    ReachesNext(r, Meanwhile(s, w, o.gaps.bury), DeadLetter(w, o.delivery, o.deliveryApplied));
  }

  lemma SealedReaches(r: State, s: State, w: nat, o: Outcomes)
    requires Holding(s, w) && s.workers[w].pc == Handled && o.Fair() && Reaches(r, s)
    ensures Reaches(r, Sealed(s, w, o))
  {
    hide Next, Reaches, Meanwhile;
    MeanwhileReaches(r, s, w, o.gaps.commit);
    ReachesNext(r, Meanwhile(s, w, o.gaps.commit), Protocol.Commit(w, o.commit, o.commitApplied));
  }

  lemma FinishingReaches(r: State, s: State, w: nat, o: Outcomes)
    requires Holding(s, w) && s.workers[w].pc == Got && o.Fair() && Reaches(r, s)
    ensures Reaches(r, Finishing(s, w, o))
  {
    hide Next, Reaches, Tried, Buried, Sealed;
    if !o.lag {
      ReachesNext(r, s, Crash(w));
    } else {
      TriedReaches(r, s, w, o);
      var a := Tried(s, w, o);
      if a.workers[w].pc == Failed {
        BuriedReaches(r, a, w, o);
      }
      var b := if a.workers[w].pc == Failed then Buried(a, w, o) else a;
      if b.workers[w].pc == Handled {
        SealedReaches(r, b, w, o);
      }
    }
  }

  lemma TurnedReaches(r: State, s: State, w: nat, turn: Turn)
    requires w < |s.workers| && s.workers[w].pc == Idle && turn.o.Fair() && Reaches(r, s)
    ensures Reaches(r, Turned(s, w, turn))
  {
    hide Next, Reaches, Finishing, Meanwhile;
    var u := Meanwhile(s, w, turn.before);
    MeanwhileReaches(r, s, w, turn.before);
    if Enabled(u, Fetch(w, turn.part)) {
      ReachesNext(r, u, Fetch(w, turn.part));
      FinishingReaches(r, Fetched(u, w, turn.part), w, turn.o);
    }
  }

  lemma {:induction false} RanReaches(r: State, s: State, w: nat, turns: seq<Turn>)
    requires w < |s.workers| && s.workers[w].pc == Idle && AllFair(turns) && Reaches(r, s)
    ensures Reaches(r, Ran(s, w, turns))
    decreases |turns|
  {
    hide Reaches, Turned;
    if turns != [] {
      TurnedReaches(r, s, w, turns[0]);
      var t := Turned(s, w, turns[0]);
      if t.workers[w].pc != Crashed {
        RanReaches(r, t, w, turns[1..]);
      }
    }
  }

  lemma SpannedReaches(r: State, s: State, w: nat, span: Span)
    requires w < |s.workers| && s.workers[w].pc == Idle && AllFair(span.turns) && Reaches(r, s)
    ensures Reaches(r, Spanned(s, w, span))
  {
    hide Reaches, Ran, Next;
    RanReaches(r, s, w, span.turns);
    var t := Ran(s, w, span.turns);
    if t.workers[w].pc == Idle && span.raises {
      ReachesNext(r, t, Crash(w));
    }
  }

  lemma RestartedReaches(r: State, s: State, w: nat, span: Span)
    requires w < |s.workers| && s.workers[w].pc == Crashed && Reaches(r, s)
    ensures Reaches(r, Restarted(s, w, span))
  {
    hide Reaches, Meanwhile, Next;
    var u := Meanwhile(s, w, span.asleep);
    MeanwhileReaches(r, s, w, span.asleep);
    if span.restarts {
      ReachesNext(r, u, Start(w));
    } else {
      ReachesNext(r, u, Abandon(w));
    }
  }

  lemma {:induction false} SupervisedReaches(r: State, s: State, w: nat, spans: seq<Span>)
    requires w < |s.workers| && s.workers[w].pc == Idle && SpansFair(spans) && Reaches(r, s)
    ensures Reaches(r, Supervised(s, w, spans))
    decreases |spans|
  {
    hide Reaches, Spanned, Restarted;
    if spans != [] {
      SpannedReaches(r, s, w, spans[0]);
      var t := Spanned(s, w, spans[0]);
      if t.workers[w].pc != Idle && |spans| != 1 {
        RestartedReaches(r, t, w, spans[0]);
        var u := Restarted(t, w, spans[0]);
        if u.workers[w].pc != Gone {
          SupervisedReaches(r, u, w, spans[1..]);
        }
      }
    }
  }

  lemma ReachesSound(s: State, t: State)
    requires Sound(s) && Reaches(s, t)
    ensures Sound(t)
  {
    hide Next, Enabled, Sound;
    var steps :| Possible(s, steps) && After(s, steps) == t;
    forall u: State, step: Step | Sound(u) && Enabled(u, step) ensures Sound(Next(u, step)) {
      SoundKept(u, step);
    }
    Always(s, steps, u => Sound(u));
  }

  lemma ReachesPlaced(s: State, t: State)
    requires Placed(s) && Reaches(s, t)
    ensures Placed(t)
  {
    hide Next, Enabled, Placed;
    var steps :| Possible(s, steps) && After(s, steps) == t;
    forall u: State, step: Step | Placed(u) && Enabled(u, step) ensures Placed(Next(u, step)) {
      PlacedKept(u, step);
    }
    Always(s, steps, u => Placed(u));
  }

  /** However the awaits of the supervised loop end and whatever happens elsewhere
      between them, it leaves a state in which no committed message is lost and
      every key is sound. */
  lemma {:induction false} SupervisedIsSound(s: State, w: nat, spans: seq<Span>)
    requires Sound(s) && w < |s.workers| && s.workers[w].pc == Idle && SpansFair(spans)
    ensures Reaches(s, Supervised(s, w, spans)) && Sound(Supervised(s, w, spans))
  {
    hide Supervised, Reaches, Sound;
    ReachesItself(s);
    SupervisedReaches(s, s, w, spans);
    ReachesSound(s, Supervised(s, w, spans));
  }

  // ---- one turn, one offset ----

  lemma SameOwnJoins(s: State, t: State, u: State, w: nat)
    requires SameOwn(s, t, w) && SameOwn(t, u, w)
    ensures SameOwn(s, u, w)
  {
  }

  lemma SamePartsOwn(s: State, t: State, u: State, w: nat)
    requires SameOwn(s, t, w) && u.parts == t.parts
    ensures SameOwn(s, u, w)
  {
  }

  lemma CheckedOwn(r: State, s: State, w: nat, o: Outcomes)
    requires HoldsEvent(s, w, Got) && SameOwn(r, s, w)
    ensures SameOwn(r, Checked(s, w, o), w)
  {
    hide Next, Meanwhile, SameOwn, Counters, Life;
    var u := Meanwhile(s, w, o.gaps.check);
    MeanwhileOwn(s, w, o.gaps.check);
    SameOwnJoins(r, s, u, w);
    CheckIs(u, w, o.check);
    SamePartsOwn(r, u, Checked(s, w, o), w);
  }

  lemma SavedOwn(r: State, s: State, w: nat, o: Outcomes)
    requires HoldsEvent(s, w, Missed) && o.Fair() && SameOwn(r, s, w)
    ensures SameOwn(r, Saved(s, w, o), w)
  {
    hide Next, Meanwhile, SameOwn, Counters, Life;
    var u := Meanwhile(s, w, o.gaps.store);
    MeanwhileOwn(s, w, o.gaps.store);
    SameOwnJoins(r, s, u, w);
    StoreIs(u, w, o.store, o.storeApplied);
    SamePartsOwn(r, u, Saved(s, w, o), w);
  }

  lemma SentOwn(r: State, s: State, w: nat, o: Outcomes)
    requires HoldsEvent(s, w, Written) && o.Fair() && SameOwn(r, s, w)
    ensures SameOwn(r, Sent(s, w, o), w)
  {
    hide Next, Meanwhile, SameOwn, Counters, Life;
    var u := Meanwhile(s, w, o.gaps.forward);
    MeanwhileOwn(s, w, o.gaps.forward);
    SameOwnJoins(r, s, u, w);
    ForwardIs(u, w, o.forward, o.copies);
    SamePartsOwn(r, u, Sent(s, w, o), w);
  }

  lemma MarkedOwn(r: State, s: State, w: nat, o: Outcomes)
    requires HoldsEvent(s, w, Forwarded) && o.Fair() && SameOwn(r, s, w)
    ensures SameOwn(r, Marked(s, w, o), w)
  {
    hide Next, Meanwhile, SameOwn, Counters, Life;
    var u := Meanwhile(s, w, o.gaps.mark);
    MeanwhileOwn(s, w, o.gaps.mark);
    SameOwnJoins(r, s, u, w);
    MarkIs(u, w, o.mark, o.markApplied);
    SamePartsOwn(r, u, Marked(s, w, o), w);
  }

  lemma ProcessedOwn(s: State, w: nat, o: Outcomes)
    requires HoldsEvent(s, w, Got) && o.Fair()
    ensures SameOwn(s, Processed(s, w, o), w)
  {
    hide SameOwn, Checked, Saved, Sent, Marked;
    SameOwnItself(s, w);
    CheckedOwn(s, s, w, o);
    var a := Checked(s, w, o);
    if a.workers[w].pc == Missed {
      SavedOwn(s, a, w, o);
      var b := Saved(a, w, o);
      if b.workers[w].pc == Written {
        SentOwn(s, b, w, o);
        var c := Sent(b, w, o);
        if c.workers[w].pc == Forwarded {
          MarkedOwn(s, c, w, o);
        }
      }
    }
  }

  lemma SameOwnItself(s: State, w: nat)
    ensures SameOwn(s, s, w)
  {
  }

  lemma TriedOwn(s: State, w: nat, o: Outcomes)
    requires Holding(s, w) && s.workers[w].pc == Got && o.Fair()
    ensures SameOwn(s, Tried(s, w, o), w)
  {
    hide Processed, ParsedOut, Next;
    if InHand(s, w).Garbage? {
      ParsedOutIs(s, w);
    } else {
      ProcessedOwn(s, w, o);
    }
  }

  lemma BuriedOwn(s: State, a: State, w: nat, o: Outcomes)
    requires Holding(a, w) && a.workers[w].pc == Failed && o.Fair() && SameOwn(s, a, w)
    ensures SameOwn(s, Buried(a, w, o), w)
  {
    hide Next, Meanwhile, SameOwn, Counters, Life;
    var u := Meanwhile(a, w, o.gaps.bury);
    MeanwhileOwn(a, w, o.gaps.bury);
    SameOwnJoins(s, a, u, w);
    DeadLetterIs(u, w, o.delivery, o.deliveryApplied);
    SamePartsOwn(s, u, Buried(a, w, o), w);
  }

  /** In `t` the partitions of `w` stand as in `s`, but that of `p` one further. */
  ghost predicate Advanced(s: State, t: State, w: nat, p: nat) {
    && |t.parts| == |s.parts|
    && (forall q :: 0 <= q < |s.parts| && s.parts[q].owner == w ==>
          && t.parts[q].owner == w && s.parts[q].log <= t.parts[q].log
          && t.parts[q].committed == s.parts[q].committed + (if q == p then 1 else 0)
          && t.parts[q].position == s.parts[q].position + if q == p then 1 else 0)
  }

  lemma {:induction false} SealedAdvances(s: State, f: State, b: State, w: nat, p: nat, o: Outcomes)
    requires Enabled(s, Fetch(w, p)) && f == Fetched(s, w, p) && SameOwn(f, b, w)
    requires Placed(b) && Reaches(b, Meanwhile(b, w, o.gaps.commit))
    requires Holding(b, w) && b.workers[w].pc == Handled && b.workers[w].part == p && o.Fair()
    ensures Sealed(b, w, o).workers[w].pc == Idle ==> Advanced(s, Sealed(b, w, o), w, p)
  {
    hide Next, Meanwhile, Placed, Reaches, Counters, Life;
    var v := Meanwhile(b, w, o.gaps.commit);
    MeanwhileOwn(b, w, o.gaps.commit);
    SameOwnJoins(f, b, v, w);
    ReachesPlaced(b, v);
    CommitsOne(v, w);
    CommitIs(v, w, o.commit, o.commitApplied);
    FetchedIs(s, w, p);
  }

  /** Each turn that gets a message and does not crash moves the committed offset
      of its partition by exactly one and no other offset of the worker, whatever
      the bytes were, however the awaits ended, and whatever others did. */
  lemma {:induction false} TurnAdvances(s: State, w: nat, turn: Turn)
    requires Placed(s) && w < |s.workers| && s.workers[w].pc == Idle && turn.o.Fair()
    requires Enabled(Meanwhile(s, w, turn.before), Fetch(w, turn.part))
    ensures Turned(s, w, turn).workers[w].pc == Idle ==>
              Advanced(Meanwhile(s, w, turn.before), Turned(s, w, turn), w, turn.part)
    ensures SameOwn(s, Meanwhile(s, w, turn.before), w)
  {
    hide Next, Meanwhile, Placed, Reaches, Tried, Buried, Sealed, Fetched, SameOwn, Advanced;
    MeanwhileOwn(s, w, turn.before);
    var u := Meanwhile(s, w, turn.before);
    var f := Fetched(u, w, turn.part);
    ReachesItself(s);
    MeanwhileReaches(s, s, w, turn.before);
    FetchReaches(s, u, w, turn.part);
    if turn.o.lag {
      FinishingAdvances(s, u, f, w, turn.part, turn.o);
    } else {
      FallIs(f, w);
    }
  }

  lemma FetchReaches(r: State, u: State, w: nat, p: nat)
    requires Reaches(r, u) && Enabled(u, Fetch(w, p))
    ensures Reaches(r, Fetched(u, w, p))
  {
    hide Reaches, Next;
    ReachesNext(r, u, Fetch(w, p));
  }

  lemma FinishingAdvances(r: State, s: State, f: State, w: nat, p: nat, o: Outcomes)
    requires Placed(r) && Enabled(s, Fetch(w, p)) && f == Fetched(s, w, p) && Reaches(r, f) && o.Fair() && o.lag
    ensures Finishing(f, w, o).workers[w].pc == Idle ==> Advanced(s, Finishing(f, w, o), w, p)
  {
    hide Next, Meanwhile, Placed, Reaches, Tried, Buried, Sealed, Fetched, SameOwn, Advanced;
    var a := Tried(f, w, o);
    TriedReaches(r, f, w, o);
    TriedOwn(f, w, o);
    if a.workers[w].pc == Failed {
      BuriedReaches(r, a, w, o);
      BuriedOwn(f, a, w, o);
      BuriedPart(a, w, o);
    }
    var b := if a.workers[w].pc == Failed then Buried(a, w, o) else a;
    if b.workers[w].pc == Handled {
      ReachesPlaced(r, b);
      ReachesItself(b);
      MeanwhileReaches(b, b, w, o.gaps.commit);
      SealedAdvances(s, f, b, w, p, o);
    }
  }

  lemma BuriedPart(a: State, w: nat, o: Outcomes)
    requires Holding(a, w) && a.workers[w].pc == Failed && o.Fair()
    ensures Buried(a, w, o).workers[w].part == a.workers[w].part
  {
    hide Meanwhile;
  }
}

/** What becomes of one message, told by how the awaits of its turn end and not by
    the steps they stand for, with anything going on elsewhere. */
module Fates {
  import opened Writer
  import opened Protocol
  import opened Delivery
  import opened Interference
  import opened Turns
  import Loops

  // ---- the key ----

  /** Once an event was marked, the check skips another one exactly when it has the
      same flight_id and timestamp, or its key was there before. */
  lemma SkipsExactly(s: State, v: nat, u: State, w: nat)
    requires HoldsEvent(s, v, Forwarded) && HoldsEvent(u, w, Got)
    requires u.keys == Next(s, Mark(v, true, true)).keys
    ensures var f, g := InHand(s, v).f.info, InHand(u, w).f.info;
      Next(u, Check(w, true)).workers[w].pc == Handled <==>
      (g.flightId == f.flightId && g.stamp == f.stamp) || Pair(g.flightId, g.stamp) in s.keys
  {
  }

  // ---- what is there stays there ----

  /** Rows, forwarded messages and dead letters stay. */
  ghost predicate Kept(s: State, t: State) {
    s.db.events <= t.db.events && s.forwarded <= t.forwarded && s.dead <= t.dead && s.dropped <= t.dropped
  }

  lemma KeptJoins(s: State, t: State, u: State)
    requires Kept(s, t) && Kept(t, u)
    ensures Kept(s, u)
  {
  }

  lemma NextKeeps(s: State, step: Step)
    requires Enabled(s, step)
    ensures Kept(s, Next(s, step))
  {
    hide UpsertAll, PairOf, Copies, RowsOf, OwnCommitted, Rewound, Committed;
    if step.Store? {
      InsertAllIs(s.db.events, [InHand(s, step.w).f]);
    }
  }

  lemma {:induction false} MeanwhileKeeps(s: State, w: nat, gap: seq<Step>)
    ensures Kept(s, Meanwhile(s, w, gap))
    decreases |gap|
  {
    hide Next, Enabled, Acts, Kept;
    if gap == [] {
      KeptItself(s);
    } else {
      var t := Beside(s, w, gap[0]);
      if Elsewhere(s, w, gap[0]) {
        NextKeeps(s, gap[0]);
      } else {
        KeptItself(s);
      }
      MeanwhileKeeps(t, w, gap[1..]);
      KeptJoins(s, t, Meanwhile(t, w, gap[1..]));
    }
  }

  lemma KeptItself(s: State)
    ensures Kept(s, s)
  {
  }

  /** A step of the worker after a gap. */
  lemma {:induction false} GapThenStep(s: State, w: nat, gap: seq<Step>, step: Step)
    requires Enabled(Meanwhile(s, w, gap), step)
    ensures Kept(s, Next(Meanwhile(s, w, gap), step))
  {
    hide Next, Enabled, Meanwhile, Kept;
    MeanwhileKeeps(s, w, gap);
    NextKeeps(Meanwhile(s, w, gap), step);
    KeptJoins(s, Meanwhile(s, w, gap), Next(Meanwhile(s, w, gap), step));
  }

  // ---- the pipeline ----

  /** The key of the event in hand is present when the check looks. */
  ghost predicate Seen(s: State, w: nat, o: Outcomes)
    requires HoldsEvent(s, w, Got)
  {
    o.check && Pair(InHand(s, w).f.info.flightId, InHand(s, w).f.info.stamp) in Meanwhile(s, w, o.gaps.check).keys
  }

  /** The check misses and every await after it succeeds. */
  ghost predicate Through(s: State, w: nat, o: Outcomes)
    requires HoldsEvent(s, w, Got)
  {
    o.check && !Seen(s, w, o) && o.store && o.forward && o.mark
  }

  /** A record of the message at `at` was forwarded with this flight_id and timestamp. */
  ghost predicate SentFrom(t: State, at: Place, flightId: string, stamp: int) {
    exists i :: 0 <= i < |t.forwarded| && t.forwarded[i] == Copy(at, Pair(flightId, stamp))
  }

  lemma RowStays(s: State, t: State, flightId: string, stamp: int)
    requires Kept(s, t) && HasRow(s.db, flightId, stamp)
    ensures HasRow(t.db, flightId, stamp)
  {
    var i :| 0 <= i < |s.db.events| && s.db.events[i].info.flightId == flightId && s.db.events[i].info.stamp == stamp;
    assert t.db.events[i] == s.db.events[i];
  }

  lemma SentStays(s: State, t: State, at: Place, flightId: string, stamp: int)
    requires Kept(s, t) && SentFrom(s, at, flightId, stamp)
    ensures SentFrom(t, at, flightId, stamp)
  {
    var i :| 0 <= i < |s.forwarded| && s.forwarded[i] == Copy(at, Pair(flightId, stamp));
    assert t.forwarded[i] == s.forwarded[i];
  }

  lemma CheckFate(s: State, w: nat, o: Outcomes)
    requires HoldsEvent(s, w, Got)
    ensures var t, c := Checked(s, w, o), Counters(s.workers[w]);
      && t.workers[w].pc == (if !o.check then Failed else if Seen(s, w, o) then Handled else Missed)
      && Counters(t.workers[w]) == (if !o.check then Failing(c) else if Seen(s, w, o) then (c.0, c.1, c.2 + 1) else c)
      && Life(t.workers[w]) == Life(s.workers[w]) && (Seen(s, w, o) ==> o.check)
  {
    hide Next, Meanwhile, Counters, Life;
    CheckIs(Meanwhile(s, w, o.gaps.check), w, o.check);
  }

  lemma StoreFate(s: State, w: nat, o: Outcomes)
    requires HoldsEvent(s, w, Missed) && o.Fair()
    ensures var t, c, i := Saved(s, w, o), Counters(s.workers[w]), InHand(s, w).f.info;
      && t.workers[w].pc == (if o.store then Written else Failed)
      && Counters(t.workers[w]) == (if o.store then c else Failing(c)) && Life(t.workers[w]) == Life(s.workers[w])
      && Kept(s, t) && (o.storeApplied ==> HasRow(t.db, i.flightId, i.stamp))
  {
    hide Next, Meanwhile, Counters, Life, Kept, HasRow, UpsertAll;
    var u := Meanwhile(s, w, o.gaps.store);
    StoreIs(u, w, o.store, o.storeApplied);
    GapThenStep(s, w, o.gaps.store, Store(w, o.store, o.storeApplied));
    WriteHasRow(u.db, InHand(u, w).f, u.airport);
  }

  lemma WriteHasRow(db: Tables, f: Flights.Flight, airport: Flights.Option<string>)
    ensures HasRow(Write(db, [f], airport), f.info.flightId, f.info.stamp)
  {
    InsertAllIs(db.events, [f]);
    assert PairOf([f][0]) == PairOf(f);
    assert Stored([f], PairOf(f));
    var rows := Write(db, [f], airport).events;
    var i :| 0 <= i < |rows| && PairOf(rows[i]) == PairOf(f);
  }

  lemma ForwardFate(s: State, w: nat, o: Outcomes)
    requires HoldsEvent(s, w, Written) && o.Fair()
    ensures var t, c, i := Turns.Sent(s, w, o), Counters(s.workers[w]), InHand(s, w).f.info;
      && t.workers[w].pc == (if o.forward then Forwarded else Failed)
      && Counters(t.workers[w]) == (if o.forward then c else Failing(c)) && Life(t.workers[w]) == Life(s.workers[w])
      && Kept(s, t) && (o.copies > 0 ==> SentFrom(t, At(s, w), i.flightId, i.stamp))
  {
    hide Next, Meanwhile, Counters, Life, Kept;
    var u := Meanwhile(s, w, o.gaps.forward);
    var t := Turns.Sent(s, w, o);
    ForwardIs(u, w, o.forward, o.copies);
    GapThenStep(s, w, o.gaps.forward, Step.Forward(w, o.forward, o.copies));
    if o.copies > 0 {
      assert t.forwarded[|u.forwarded|] == Copy(At(u, w), PairOf(InHand(u, w).f));
    }
  }

  lemma MarkFate(s: State, w: nat, o: Outcomes)
    requires HoldsEvent(s, w, Forwarded) && o.Fair()
    ensures var t, c := Marked(s, w, o), Counters(s.workers[w]);
      && t.workers[w].pc == (if o.mark then Handled else Failed)
      && Counters(t.workers[w]) == (if o.mark then (c.0 + 1, c.1, c.2) else Failing(c))
      && Life(t.workers[w]) == Life(s.workers[w]) && Kept(s, t)
      && (o.markApplied ==> Pair(InHand(s, w).f.info.flightId, InHand(s, w).f.info.stamp) in t.keys)
  {
    hide Next, Meanwhile, Counters, Life, Kept;
    var u := Meanwhile(s, w, o.gaps.mark);
    MarkIs(u, w, o.mark, o.markApplied);
    GapThenStep(s, w, o.gaps.mark, Mark(w, o.mark, o.markApplied));
  }

  /** Process one event: it is handled exactly when its key is present or all four
      awaits succeed, and counted accordingly; once the write takes effect its row is
      there, once the forward does a record of it, and once the marking does its key,
      whatever fails afterwards. */
  lemma ProcessFate(s: State, w: nat, o: Outcomes)
    requires HoldsEvent(s, w, Got) && o.Fair()
    ensures var t, c, i := Processed(s, w, o), s.workers[w], InHand(s, w).f.info;
      var seen, through := Seen(s, w, o), Through(s, w, o);
      && (t.workers[w].pc == Handled <==> seen || through)
      && t.workers[w].processed == c.processed + (if through then 1 else 0)
      && t.workers[w].skips == c.skips + (if seen then 1 else 0)
      && t.workers[w].failed == c.failed + (if seen || through then 0 else 1)
      && (o.check && !seen && o.storeApplied ==> HasRow(t.db, i.flightId, i.stamp))
      && (o.check && !seen && o.store && o.copies > 0 ==> SentFrom(t, At(s, w), i.flightId, i.stamp))
      && (o.check && !seen && o.store && o.forward && o.markApplied ==> Pair(i.flightId, i.stamp) in t.keys)
  {
    hide Checked, Saved, Turns.Sent, Marked, Seen, HasRow, SentFrom, Kept, Life;
    CheckFate(s, w, o);
    var a, at, i := Checked(s, w, o), At(s, w), InHand(s, w).f.info;
    if a.workers[w].pc == Missed {
      StoreFate(a, w, o);
      var b := Saved(a, w, o);
      if b.workers[w].pc == Written {
        ForwardFate(b, w, o);
        var c := Turns.Sent(b, w, o);
        RowStays(b, c, i.flightId, i.stamp);
        if c.workers[w].pc == Forwarded {
          MarkFate(c, w, o);
          RowStays(c, Marked(c, w, o), i.flightId, i.stamp);
          SentStays(c, Marked(c, w, o), at, i.flightId, i.stamp);
        }
      }
    }
  }

  // ---- the whole turn ----

  /** The message in hand is processed or skipped without a failure. */
  ghost predicate Succeeds(s: State, w: nat, o: Outcomes)
    requires Holding(s, w) && s.workers[w].pc == Got
  {
    InHand(s, w).Parsed? && (Seen(s, w, o) || Through(s, w, o))
  }

  lemma TryFate(s: State, w: nat, o: Outcomes)
    requires Holding(s, w) && s.workers[w].pc == Got && o.Fair()
    ensures var t := Tried(s, w, o);
      && (t.workers[w].pc == Handled <==> Succeeds(s, w, o))
      && t.workers[w].errors == s.workers[w].errors && t.workers[w].failures == s.workers[w].failures
  {
    hide Processed, ParsedOut, Seen, Through, HasRow, SentFrom, Counters;
    if InHand(s, w).Garbage? {
      ParsedOutIs(s, w);
    } else {
      ProcessFate(s, w, o);
      ProcessedIs(s, w, o);
    }
  }

  lemma BuryFate(s: State, w: nat, o: Outcomes)
    requires Holding(s, w) && s.workers[w].pc == Failed && o.Fair()
    ensures var t, at := Buried(s, w, o), At(s, w);
      && t.workers[w].pc == (if o.delivery.Raised? then Crashed else Handled)
      && t.workers[w].errors == s.workers[w].errors + 1
      && t.workers[w].failures == s.workers[w].failures + (if o.delivery.Raised? then 1 else 0)
      && (o.deliveryApplied ==> at in t.dead) && (o.delivery.Swallowed? ==> at in t.dropped)
  {
    hide Meanwhile;
  }

  lemma SealFate(s: State, w: nat, o: Outcomes)
    requires Holding(s, w) && s.workers[w].pc == Handled && o.Fair()
    ensures var t := Sealed(s, w, o);
      && t.workers[w].pc == (if o.commit then Idle else Crashed)
      && t.workers[w].errors == s.workers[w].errors
      && t.workers[w].failures == s.workers[w].failures + (if o.commit then 0 else 1) && Kept(s, t)
      && At(s, w).part < |t.parts|
      && t.parts[At(s, w).part].committed ==
         if o.commitApplied then At(s, w).offset + 1 else s.parts[At(s, w).part].committed
  {
    hide Meanwhile, Kept;
    MeanwhileOwn(s, w, o.gaps.commit);
    GapThenStep(s, w, o.gaps.commit, Protocol.Commit(w, o.commit, o.commitApplied));
  }

  /** One turn on a message: the worker crashes exactly when the lag query raises, the
      dead-letter publish of a failed message raises, or the commit does; a failed
      message, and no other, is counted as an error, and is in the dead-letter topic if
      that publish took effect and reported if a Kafka error was swallowed; and the
      committed offset goes past the message exactly when the commit is tried and takes
      effect. */
  lemma TurnFate(s: State, w: nat, o: Outcomes)
    requires Holding(s, w) && s.workers[w].pc == Got && o.Fair()
    ensures var t, k, at := Finishing(s, w, o), s.workers[w], At(s, w);
      var fails := o.lag && !Succeeds(s, w, o);
      && (t.workers[w].pc == Crashed <==> !o.lag || (fails && o.delivery.Raised?) || !o.commit)
      && t.workers[w].errors == k.errors + (if fails then 1 else 0)
      && t.workers[w].failures == k.failures + (if t.workers[w].pc == Crashed then 1 else 0)
      && (fails && o.deliveryApplied ==> at in t.dead) && (fails && o.delivery.Swallowed? ==> at in t.dropped)
      && at.part < |t.parts|
      && t.parts[at.part].committed ==
         if o.lag && !(fails && o.delivery.Raised?) && o.commitApplied then at.offset + 1 else s.parts[at.part].committed
  {
    hide Tried, Buried, Sealed, Succeeds;
    if o.lag {
      TryFate(s, w, o);
      var a := Tried(s, w, o);
      Loops.TriedOwn(s, w, o);
      if a.workers[w].pc == Failed {
        BuryFate(a, w, o);
        Loops.BuriedOwn(s, a, w, o);
        Loops.BuriedPart(a, w, o);
      }
      var b := if a.workers[w].pc == Failed then Buried(a, w, o) else a;
      if b.workers[w].pc == Handled {
        SealFate(b, w, o);
      }
    } else {
      FallIs(s, w);
    }
  }
}

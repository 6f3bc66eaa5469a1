/** What the worker pool guarantees about every message, in every run. */
module Delivery {
  import opened Flights
  import opened Writer
  import opened Protocol

  // ---- what a state knows about a message ----

  ghost predicate Relayed(forwarded: seq<Copy>, pair: Pair) {
    exists i :: 0 <= i < |forwarded| && forwarded[i].pair == pair
  }

  /** An event with this pair was written and one was forwarded. */
  ghost predicate Done(s: State, pair: Pair) {
    Stored(s.writes, pair) && Relayed(s.forwarded, pair)
  }

  ghost predicate Exists(s: State, at: Place) {
    at.part < |s.parts| && at.offset < |s.parts[at.part].log|
  }

  /** The message was persisted and forwarded, or dead-lettered, or its
      dead-letter publish was reported failed. */
  ghost predicate Accounted(s: State, at: Place) {
    || at in s.dead
    || at in s.dropped
    || (Exists(s, at) && MessageAt(s, at).Parsed? && Done(s, PairOf(MessageAt(s, at).f)))
  }

  /** What is known of the message in a worker's hands at each point. */
  ghost predicate Knows(s: State, w: nat)
    requires Holding(s, w)
  {
    match s.workers[w].pc
    case Missed => InHand(s, w).Parsed?
    case Written => InHand(s, w).Parsed? && Stored(s.writes, PairOf(InHand(s, w).f))
    case Forwarded => InHand(s, w).Parsed? && Done(s, PairOf(InHand(s, w).f))
    case Handled => Accounted(s, At(s, w))
    case _ => true
  }

  ghost predicate KeysSound(s: State) {
    forall pair :: pair in s.keys ==> Done(s, pair)
  }

  ghost predicate HandsSound(s: State) {
    forall w :: Holding(s, w) ==> Knows(s, w)
  }

  ghost predicate NothingLost(s: State) {
    forall p, o :: 0 <= p < |s.parts| && 0 <= o < s.parts[p].committed ==> Accounted(s, Place(p, o))
  }

  ghost predicate Sound(s: State) {
    Placed(s) && KeysSound(s) && HandsSound(s) && NothingLost(s)
  }

  // ---- knowledge is never lost ----

  ghost predicate Grows(s: State, t: State) {
    && |t.parts| == |s.parts| && |t.workers| == |s.workers|
    && (forall p :: 0 <= p < |s.parts| ==> s.parts[p].log <= t.parts[p].log && t.parts[p].owner == s.parts[p].owner)
    && s.writes <= t.writes && s.forwarded <= t.forwarded && s.dead <= t.dead && s.dropped <= t.dropped
  }

  lemma NextGrows(s: State, step: Step)
    requires Enabled(s, step)
    ensures Grows(s, Next(s, step))
  {
    hide Write;
  }

  lemma DoneStays(s: State, t: State, pair: Pair)
    requires Grows(s, t)
    ensures Stored(s.writes, pair) ==> Stored(t.writes, pair)
    ensures Done(s, pair) ==> Done(t, pair)
  {
  }

  lemma AccountedStays(s: State, t: State, at: Place)
    requires Grows(s, t) && Accounted(s, at)
    ensures Accounted(t, at)
  {
  }

  /** A worker with the same message at the same point still knows it. */
  lemma KnowsStays(s: State, t: State, w: nat)
    requires Grows(s, t) && Holding(s, w) && Holding(t, w) && Knows(s, w)
    requires t.workers[w].pc == s.workers[w].pc && At(t, w) == At(s, w)
    ensures Knows(t, w)
  {
  }

  // ---- one step ----

  /** A step leaves every other worker where it is, with the same message. */
  lemma OthersStay(s: State, step: Step, v: nat)
    requires Placed(s) && Enabled(s, step) && !Acts(step, v) && Holding(Next(s, step), v)
    ensures Holding(s, v) && At(Next(s, step), v) == At(s, v) && Next(s, step).workers[v] == s.workers[v]
  {
    if Handling(step) {
      hide Next;
      HandlingMoves(s, step);
    } else {
      OthersStayOutside(s, step, v);
    }
  }

  lemma OthersStayOutside(s: State, step: Step, v: nat)
    requires Placed(s) && Enabled(s, step) && !Acts(step, v) && Holding(Next(s, step), v) && !Handling(step)
    ensures Holding(s, v) && At(Next(s, step), v) == At(s, v) && Next(s, step).workers[v] == s.workers[v]
  {
    hide OwnCommitted;
    if step.Commit? {
      CommitsOne(s, step.w);
    }
  }

  /** The acting worker knows what its new point asks for. */
  lemma ActorKnows(s: State, step: Step, w: nat)
    requires Sound(s) && Enabled(s, step) && Acts(step, w) && Holding(Next(s, step), w)
    ensures Knows(Next(s, step), w)
  {
    hide Write, Placed, NothingLost, Stored, Relayed, Accounted;
    var t := Next(s, step);
    NextGrows(s, step);
    if Holding(s, w) && Handling(step) {
      ActorHandles(s, step);
    }
  }

  lemma ActorHandles(s: State, step: Step)
    requires KeysSound(s) && HandsSound(s) && Enabled(s, step) && Handling(step) && Holding(s, step.w)
    ensures Holding(Next(s, step), step.w) ==> Knows(Next(s, step), step.w)
  {
    hide Write, Stored, Relayed;
    var t, w := Next(s, step), step.w;
    NextGrows(s, step);
    HandlingMoves(s, step);
    assert Knows(s, w);
    if InHand(s, w).Parsed? {
      var pair := PairOf(InHand(s, w).f);
      DoneStays(s, t, pair);
      if step.Store? {
        StoredAppended(s.writes, InHand(s, w).f, pair);
      }
      if step.Forward? {
        RelayedAppended(s.forwarded, At(s, w), pair, step.copies);
      }
    }
  }

  lemma RelayedAppended(forwarded: seq<Copy>, at: Place, pair: Pair, n: nat)
    ensures n > 0 ==> Relayed(forwarded + Copies(Copy(at, pair), n), pair)
  {
    if n > 0 {
      assert (forwarded + Copies(Copy(at, pair), n))[|forwarded|].pair == pair;
    }
  }

  lemma HandsKept(s: State, step: Step)
    requires Sound(s) && Enabled(s, step)
    ensures HandsSound(Next(s, step))
  {
    hide Next, Enabled, Knows, Placed, KeysSound, NothingLost, Holding, At;
    var t := Next(s, step);
    NextGrows(s, step);
    forall w | Holding(t, w) ensures Knows(t, w) {
      if Acts(step, w) {
        ActorKnows(s, step, w);
      } else {
        OthersStay(s, step, w);
        KnowsStays(s, t, w);
      }
    }
  }

  lemma KeysKept(s: State, step: Step)
    requires Sound(s) && Enabled(s, step)
    ensures KeysSound(Next(s, step))
  {
    hide Write, Stored, Relayed, Done, Placed, NothingLost;
    var t := Next(s, step);
    NextGrows(s, step);
    forall pair | pair in t.keys ensures Done(t, pair) {
      DoneStays(s, t, pair);
      if step.Mark? && pair !in s.keys {
        assert Knows(s, step.w);
      }
    }
  }

  /** A committed offset below which something new lies is that of the message
      just handled. */
  lemma NewlyCommitted(s: State, step: Step, p: nat, o: nat)
    requires Placed(s) && Enabled(s, step)
    requires p < |s.parts| && o < Next(s, step).parts[p].committed
    ensures o < s.parts[p].committed || (step.Commit? && Place(p, o) == At(s, step.w))
  {
    hide Write;
    if step.Commit? {
      CommitsOne(s, step.w);
    }
  }

  lemma LossKept(s: State, step: Step)
    requires Sound(s) && Enabled(s, step)
    ensures NothingLost(Next(s, step))
  {
    hide Next, Placed, KeysSound, Accounted;
    var t := Next(s, step);
    NextGrows(s, step);
    forall p, o | 0 <= p < |t.parts| && 0 <= o < t.parts[p].committed ensures Accounted(t, Place(p, o)) {
      NewlyCommitted(s, step, p, o);
      if o >= s.parts[p].committed {
        assert Knows(s, step.w);
      }
      AccountedStays(s, t, Place(p, o));
    }
  }

  lemma SoundKept(s: State, step: Step)
    requires Sound(s) && Enabled(s, step)
    ensures Sound(Next(s, step))
  {
    hide Next, Enabled, Placed, KeysSound, NothingLost, HandsSound;
    PlacedKept(s, step);
    KeysKept(s, step);
    HandsKept(s, step);
    LossKept(s, step);
  }

  lemma InitSound(s: State)
    requires Init(s)
    ensures Sound(s)
  {
  }

  lemma {:induction false} RunSound(s: State, steps: seq<Step>)
    requires Init(s) && Possible(s, steps)
    ensures Sound(After(s, steps))
  {
    hide Next, Enabled, Placed, KeysSound, NothingLost, HandsSound, Init;
    InitSound(s);
    forall t: State, step: Step | Sound(t) && Enabled(t, step) ensures Sound(Next(t, step)) {
      SoundKept(t, step);
    }
    Always(s, steps, t => Sound(t));
  }

  // ---- the tables are the writes ----

  ghost predicate InLog(s: State, f: Flight) {
    exists p, o :: 0 <= p < |s.parts| && 0 <= o < |s.parts[p].log| && s.parts[p].log[o] == Parsed(f)
  }

  /** The tables hold exactly what writing the history into empty ones gives,
      and only events of the logs were ever written. */
  ghost predicate TablesSound(s: State) {
    && s.db == Write(NO_TABLES, s.writes, s.airport)
    && (forall i :: 0 <= i < |s.writes| ==> InLog(s, s.writes[i]))
  }

  lemma InLogStays(s: State, t: State, f: Flight)
    requires Grows(s, t) && InLog(s, f)
    ensures InLog(t, f)
  {
  }

  lemma HeldIsInLog(s: State, w: nat)
    requires Holding(s, w) && InHand(s, w).Parsed?
    ensures InLog(s, InHand(s, w).f)
  {
  }

  lemma TablesKept(s: State, step: Step)
    requires TablesSound(s) && Enabled(s, step)
    ensures TablesSound(Next(s, step))
  {
    hide Write, InLog;
    var t := Next(s, step);
    NextGrows(s, step);
    if step.Store? {
      HeldIsInLog(s, step.w);
      WritesJoin(NO_TABLES, s.writes, [InHand(s, step.w).f], s.airport);
    }
    forall i | 0 <= i < |t.writes| ensures InLog(t, t.writes[i]) {
      InLogStays(s, t, t.writes[i]);
    }
  }

  lemma {:induction false} RunTables(s: State, steps: seq<Step>)
    requires Init(s) && Possible(s, steps)
    ensures TablesSound(After(s, steps))
  {
    hide Next, Enabled, TablesSound, Init;
    InitTables(s);
    forall t: State, step: Step | TablesSound(t) && Enabled(t, step) ensures TablesSound(Next(t, step)) {
      TablesKept(t, step);
    }
    Always(s, steps, t => TablesSound(t));
  }

  lemma InitTables(s: State)
    requires Init(s)
    ensures TablesSound(s)
  {
  }

  /** In every reachable state the stored pairs are those of the writes, each
      stored once. */
  lemma StoredAre(s: State, pair: Pair)
    requires TablesSound(s)
    ensures Stored(s.db.events, pair) <==> Stored(s.writes, pair)
    ensures UniquePairs(s.db.events)
  {
    WriteEventsTable(NO_TABLES, s.writes, s.airport);
  }

  // ---- the two headline guarantees ----

  /** flight_events has a row with this flight_id and timestamp. */
  ghost predicate HasRow(db: Tables, flightId: string, stamp: int) {
    exists i :: 0 <= i < |db.events| && db.events[i].info.flightId == flightId && db.events[i].info.stamp == stamp
  }

  /** A message with this flight_id and timestamp was forwarded. */
  ghost predicate WasSent(forwarded: seq<Copy>, flightId: string, stamp: int) {
    exists i :: 0 <= i < |forwarded| && forwarded[i].pair.flightId == flightId && forwarded[i].pair.stamp == stamp
  }

  lemma ColumnsOf(t: State, f: Flight)
    ensures Stored(t.db.events, PairOf(f)) ==> HasRow(t.db, f.info.flightId, f.info.stamp)
    ensures Relayed(t.forwarded, PairOf(f)) ==> WasSent(t.forwarded, f.info.flightId, f.info.stamp)
  {
  }

  /** No loss: whatever the interleaving, crashes, lost keys and failures, of every
      message below a committed offset flight_events has a row with its flight_id and
      timestamp and a message with both was forwarded, or it was dead-lettered, or its
      dead-letter publish was reported failed. */
  lemma {:induction false} NoLoss(s: State, steps: seq<Step>, p: nat, o: nat)
    requires Init(s) && Possible(s, steps)
    requires p < |After(s, steps).parts| && o < After(s, steps).parts[p].committed
    ensures var t, at := After(s, steps), Place(p, o);
      || at in t.dead
      || at in t.dropped
      || (o < |t.parts[p].log| && t.parts[p].log[o].Parsed?
          && var i := t.parts[p].log[o].f.info;
             HasRow(t.db, i.flightId, i.stamp) && WasSent(t.forwarded, i.flightId, i.stamp))
  {
    hide Init, Possible, After, Placed, KeysSound, HandsSound, TablesSound, Relayed, Stored, HasRow, WasSent;
    var t, at := After(s, steps), Place(p, o);
    RunSound(s, steps);
    RunTables(s, steps);
    assert Accounted(t, at);
    if Exists(t, at) && MessageAt(t, at).Parsed? {
      StoredAre(t, PairOf(MessageAt(t, at).f));
      ColumnsOf(t, MessageAt(t, at).f);
    }
  }

  /** A present idempotency key means that the row with its flight_id and timestamp
      exists and that an envelope with both was forwarded; and no two rows agree on
      both. */
  lemma {:induction false} KeySoundness(s: State, steps: seq<Step>, pair: Pair)
    requires Init(s) && Possible(s, steps)
    ensures pair in After(s, steps).keys ==>
              && HasRow(After(s, steps).db, pair.flightId, pair.stamp)
              && WasSent(After(s, steps).forwarded, pair.flightId, pair.stamp)
    ensures var rows := After(s, steps).db.events;
      forall i, j :: 0 <= i < j < |rows| ==>
        rows[i].info.flightId != rows[j].info.flightId || rows[i].info.stamp != rows[j].info.stamp
  {
    hide Init, Possible, After, Placed, HandsSound, NothingLost, TablesSound;
    RunSound(s, steps);
    RunTables(s, steps);
    var t := After(s, steps);
    StoredAre(t, pair);
    if pair in t.keys {
      var i :| 0 <= i < |t.writes| && PairOf(t.writes[i]) == pair;
      ColumnsOf(t, t.writes[i]);
    }
  }

  // ---- forwarding order ----

  ghost predicate CopyOk(s: State, c: Copy) {
    && Exists(s, c.at) && c.at.offset <= s.parts[c.at.part].committed
    && MessageAt(s, c.at).Parsed? && PairOf(MessageAt(s, c.at).f) == c.pair
  }

  /** Within a partition the forwarded offsets never go back, none is past the
      committed offset, and each copy is of its message. */
  ghost predicate InOrder(s: State) {
    && (forall i :: 0 <= i < |s.forwarded| ==> CopyOk(s, s.forwarded[i]))
    && (forall i, j :: 0 <= i < j < |s.forwarded| && s.forwarded[i].at.part == s.forwarded[j].at.part ==>
          s.forwarded[i].at.offset <= s.forwarded[j].at.offset)
  }

  lemma CommittedNeverFalls(s: State, step: Step, p: nat)
    requires Placed(s) && Enabled(s, step) && p < |s.parts|
    ensures s.parts[p].committed <= Next(s, step).parts[p].committed
  {
  }

  lemma CopyStays(s: State, step: Step, c: Copy)
    requires Placed(s) && Enabled(s, step) && CopyOk(s, c)
    ensures CopyOk(Next(s, step), c)
  {
    hide Next, Placed;
    NextGrows(s, step);
    CommittedNeverFalls(s, step, c.at.part);
  }

  lemma HeldIsNext(s: State, w: nat)
    requires Placed(s) && Holding(s, w)
    ensures At(s, w).offset == s.parts[At(s, w).part].committed
  {
  }

  lemma OrderKept(s: State, step: Step)
    requires Placed(s) && InOrder(s) && Enabled(s, step)
    ensures InOrder(Next(s, step))
  {
    hide Placed, CopyOk, Write;
    var t := Next(s, step);
    forall i | 0 <= i < |s.forwarded| ensures CopyOk(t, s.forwarded[i]) {
      CopyStays(s, step, s.forwarded[i]);
    }
    if step.Forward? {
      ForwardInOrder(s, step);
    }
  }

  /** What is forwarded now stands at the committed offset, past which nothing
      was forwarded. */
  lemma ForwardInOrder(s: State, step: Step)
    requires Placed(s) && InOrder(s) && Enabled(s, step) && step.Forward?
    ensures InOrder(Next(s, step))
  {
    hide Placed;
    var t, c := Next(s, step), Copy(At(s, step.w), PairOf(InHand(s, step.w).f));
    HeldIsNext(s, step.w);
    assert CopyOk(s, c);
    forall i | 0 <= i < |t.forwarded| ensures CopyOk(t, t.forwarded[i]) {
      assert t.forwarded[i] == if i < |s.forwarded| then s.forwarded[i] else c;
    }
  }

  lemma {:induction false} RunInOrder(s: State, steps: seq<Step>)
    requires Init(s) && Possible(s, steps)
    ensures Placed(After(s, steps)) && InOrder(After(s, steps))
  {
    hide Next, Enabled, Placed, InOrder, Init;
    InitOrder(s);
    forall t: State, step: Step | (Placed(t) && InOrder(t)) && Enabled(t, step)
      ensures Placed(Next(t, step)) && InOrder(Next(t, step))
    {
      PlacedKept(t, step);
      OrderKept(t, step);
    }
    Always(s, steps, t => Placed(t) && InOrder(t));
  }

  lemma InitOrder(s: State)
    requires Init(s)
    ensures Placed(s) && InOrder(s)
  {
  }

  /** Forwarding is a stutter of each partition: in every run, of two forwarded
      copies of messages of one partition the later one is of the same or a later
      message, and only the first uncommitted message can be forwarded again. */
  lemma {:induction false} ForwardingStutters(s: State, steps: seq<Step>, i: nat, j: nat)
    requires Init(s) && Possible(s, steps) && i < j < |After(s, steps).forwarded|
    requires After(s, steps).forwarded[i].at.part == After(s, steps).forwarded[j].at.part
    ensures var t := After(s, steps);
      var p := t.forwarded[j].at.part;
      t.forwarded[i].at.offset <= t.forwarded[j].at.offset && p < |t.parts| && t.forwarded[j].at.offset <= t.parts[p].committed
    ensures forall step: Step :: step.Forward? && Enabled(After(s, steps), step) ==>
              At(After(s, steps), step.w).offset == After(s, steps).parts[At(After(s, steps), step.w).part].committed
  {
    hide Init, Possible, After, Placed, Next;
    RunInOrder(s, steps);
    var t := After(s, steps);
    assert CopyOk(t, t.forwarded[j]);
    forall step: Step | step.Forward? && Enabled(t, step)
      ensures At(t, step.w).offset == t.parts[At(t, step.w).part].committed
    {
      HeldIsNext(t, step.w);
    }
  }
}

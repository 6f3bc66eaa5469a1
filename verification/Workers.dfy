/** The worker pool's code: the event processor, the failure handler, the consume
    loop and the supervisor, each proved to take the protocol's steps while the
    rest of the system does what it likes between any two awaits. */
module Workers {
  import opened Flights
  import opened Writer
  import opened Protocol
  import opened Interference
  import opened Turns
  import Fates

  class Redis {
    var keys: set<Pair>

    constructor ()
      ensures keys == {}
    {
      keys := {};
    }

    method Get(pair: Pair, ok: bool) returns (hit: Option<bool>)
      ensures hit == if ok then Some(pair in keys) else None
    {
      hit := if ok then Some(pair in keys) else None;
    }

    method Set(pair: Pair, ok: bool, applied: bool) returns (done: bool)
      modifies this
      ensures done == ok && keys == if applied then old(keys) + {pair} else old(keys)
    {
      if applied {
        keys := keys + {pair};
      }
      done := ok;
    }
  }

  /** The broker: the source topic with its committed offsets, processed-flights
      and dead-letter-events.  `dropped` is the history of failed reports. */
  class Broker {
    var parts: seq<Part>
    var processed: seq<Copy>
    var dead: set<Place>
    ghost var dropped: set<Place>

    constructor (parts: seq<Part>)
      ensures this.parts == parts && processed == [] && dead == {} && dropped == {}
    {
      this.parts := parts;
      processed, dead, dropped := [], {}, {};
    }

    method Publish(c: Copy, ok: bool, copies: nat) returns (done: bool)
      modifies this`processed
      ensures done == ok && processed == old(processed) + Copies(c, copies)
    {
      for i := 0 to copies
        invariant processed == old(processed) + Copies(c, i)
      {
        assert Copies(c, i + 1) == Copies(c, i) + [c];
        processed := processed + [c];
      }
      done := ok;
    }

    /** Every partition of the worker is committed at its position. */
    method Commit(w: nat, ok: bool, applied: bool) returns (done: bool)
      modifies this`parts
      ensures done == ok && parts == if applied then Committed(old(parts), w) else old(parts)
    {
      if applied {
        for p := 0 to |parts|
          invariant |parts| == |old(parts)|
          invariant forall i :: 0 <= i < |parts| ==> parts[i] == if i < p then Committed(old(parts), w)[i] else old(parts)[i]
        {
          if parts[p].owner == w {
            parts := parts[p := parts[p].(committed := parts[p].position)];
          }
        }
        assert parts == Committed(old(parts), w);
      }
      done := ok;
    }

    /** A new consumer of the worker starts at the committed offsets. */
    method Rewind(w: nat)
      modifies this`parts
      ensures parts == Rewound(old(parts), w)
    {
      for p := 0 to |parts|
        invariant |parts| == |old(parts)|
        invariant forall i :: 0 <= i < |parts| ==> parts[i] == if i < p then Rewound(old(parts), w)[i] else old(parts)[i]
      {
        if parts[p].owner == w {
          parts := parts[p := parts[p].(position := parts[p].committed)];
        }
      }
      assert parts == Rewound(old(parts), w);
    }
  }

  /** Everything but one worker: the services it shares and the other workers. */
  class Rest {
    const id: nat
    const airport: Option<string>
    const redis: Redis
    const db: Database
    const broker: Broker
    var workers: seq<WorkerRecord>

    constructor (id: nat, airport: Option<string>, redis: Redis, db: Database, broker: Broker, workers: seq<WorkerRecord>)
      ensures this.id == id && this.airport == airport && this.workers == workers
      ensures this.redis == redis && this.db == db && this.broker == broker
    {
      this.id, this.airport, this.redis, this.db, this.broker, this.workers := id, airport, redis, db, broker, workers;
    }

    /** The services and the other workers stand where the protocol's state says. */
    ghost predicate Mirrors(s: State)
      reads this, redis, db, broker
    {
      && id < |s.workers| == |workers| && airport == s.airport
      && (forall v :: 0 <= v < |workers| && v != id ==> workers[v] == s.workers[v])
      && redis.keys == s.keys && db.Contents() == s.db
      && broker.parts == s.parts && broker.processed == s.forwarded && broker.dead == s.dead && broker.dropped == s.dropped
    }

    /** Time passes for everyone else. */
    method Elapse(gap: seq<Step>, ghost s: State) returns (ghost t: State)
      requires Mirrors(s)
      modifies this, redis, db, broker
      ensures t == Meanwhile(s, id, gap) && Mirrors(t)
    {
      hide Beside, Write;
      t := s;
      for i := 0 to |gap|
        invariant Mirrors(t) && Meanwhile(t, id, gap[i..]) == Meanwhile(s, id, gap)
      {
        assert gap[i..][0] == gap[i] && gap[i..][1..] == gap[i + 1..];
        var e := State(airport, broker.parts, workers, redis.keys, db.Contents(), [], broker.processed, broker.dead, {});
        AlikeBeside(t, e, id, gap[i]);
        BesideKeeps(t, id, gap[i]);
        var f := Beside(e, id, gap[i]);
        t := Beside(t, id, gap[i]);
        broker.parts, broker.processed, broker.dead := f.parts, f.forwarded, f.dead;
        broker.dropped := t.dropped;
        redis.keys, workers := f.keys, f.workers;
        db.flightEvents, db.activeFlights := f.db.events, f.db.active;
      }
    }
  }

  class AsyncEventProcessor {
    const rest: Rest
    const redis: Redis
    const db: Database
    const broker: Broker
    var eventsProcessed: nat
    var eventsFailed: nat
    var idempotentSkips: nat

    constructor (rest: Rest)
      ensures this.rest == rest && redis == rest.redis && db == rest.db && broker == rest.broker
      ensures eventsProcessed == 0 && eventsFailed == 0 && idempotentSkips == 0
    {
      this.rest, redis, db, broker := rest, rest.redis, rest.db, rest.broker;
      eventsProcessed, eventsFailed, idempotentSkips := 0, 0, 0;
    }

    /** The processor uses the shared services, and they and its counters stand
        where the protocol's state says. */
    ghost predicate Mirrors(s: State)
      reads this, rest, redis, db, broker, rest.redis, rest.db, rest.broker
    {
      && redis == rest.redis && db == rest.db && broker == rest.broker && rest.Mirrors(s)
      && Counters(s.workers[rest.id]) == (eventsProcessed, eventsFailed, idempotentSkips)
    }

    /** redis.get of the idempotency key; None is an exception. */
    method CheckKey(key: Pair, o: Outcomes, ghost s: State) returns (hit: Option<bool>, ghost t: State)
      requires Mirrors(s) && HoldsEvent(s, rest.id, Got) && PairOf(InHand(s, rest.id).f) == key
      modifies rest, redis, db, broker
      ensures rest.Mirrors(t) && t == Checked(s, rest.id, o)
      ensures t.workers[rest.id].pc == (if hit == None then Failed else if hit.value then Handled else Missed)
      ensures Counters(t.workers[rest.id]) == var c := Counters(s.workers[rest.id]);
        if hit == None then Failing(c) else if hit.value then (c.0, c.1, c.2 + 1) else c
    {
      hide Next, PairOf, Meanwhile, Counters;
      ghost var u := rest.Elapse(o.gaps.check, s);
      CheckIs(u, rest.id, o.check);
      hit := redis.Get(key, o.check);
      t := Checked(s, rest.id, o);
    }

    method WriteToDb(f: Flight, o: Outcomes, ghost s: State) returns (done: bool, ghost t: State)
      requires Mirrors(s) && HoldsEvent(s, rest.id, Missed) && InHand(s, rest.id) == Parsed(f) && o.Fair()
      modifies rest, redis, db, broker
      ensures rest.Mirrors(t) && t == Saved(s, rest.id, o)
      ensures t.workers[rest.id].pc == if done then Written else Failed
      ensures Counters(t.workers[rest.id]) == var c := Counters(s.workers[rest.id]); if done then c else Failing(c)
    {
      hide Next, Write, Meanwhile, Counters;
      ghost var u := rest.Elapse(o.gaps.store, s);
      StoreIs(u, rest.id, o.store, o.storeApplied);
      if o.storeApplied {
        var n := db.WriteEvents([f], rest.airport);
      }
      done := o.store;
      t := Saved(s, rest.id, o);
    }

    method ForwardEvent(c: Copy, o: Outcomes, ghost s: State) returns (done: bool, ghost t: State)
      requires Mirrors(s) && HoldsEvent(s, rest.id, Written) && c == Copy(At(s, rest.id), PairOf(InHand(s, rest.id).f)) && o.Fair()
      modifies rest, redis, db, broker
      ensures rest.Mirrors(t) && t == Sent(s, rest.id, o)
      ensures t.workers[rest.id].pc == if done then Forwarded else Failed
      ensures Counters(t.workers[rest.id]) == var c := Counters(s.workers[rest.id]); if done then c else Failing(c)
    {
      hide Next, PairOf, Meanwhile, Counters;
      ghost var u := rest.Elapse(o.gaps.forward, s);
      ForwardIs(u, rest.id, o.forward, o.copies);
      done := broker.Publish(c, o.forward, o.copies);
      t := Sent(s, rest.id, o);
    }

    method MarkKey(key: Pair, o: Outcomes, ghost s: State) returns (done: bool, ghost t: State)
      requires Mirrors(s) && HoldsEvent(s, rest.id, Forwarded) && PairOf(InHand(s, rest.id).f) == key && o.Fair()
      modifies rest, redis, db, broker
      ensures rest.Mirrors(t) && t == Marked(s, rest.id, o)
      ensures t.workers[rest.id].pc == if done then Handled else Failed
      ensures Counters(t.workers[rest.id]) == var c := Counters(s.workers[rest.id]); if done then (c.0 + 1, c.1, c.2) else Failing(c)
    {
      hide Next, PairOf, Meanwhile, Counters;
      ghost var u := rest.Elapse(o.gaps.mark, s);
      MarkIs(u, rest.id, o.mark, o.markApplied);
      done := redis.Set(key, o.mark, o.markApplied);
      t := Marked(s, rest.id, o);
    }

    /** Write, forward, mark: the first exception ends it. */
    method Persist(f: Flight, at: Place, o: Outcomes, ghost s: State) returns (done: bool, ghost t: State)
      requires Mirrors(s) && HoldsEvent(s, rest.id, Missed) && InHand(s, rest.id) == Parsed(f) && At(s, rest.id) == at && o.Fair()
      modifies rest, redis, db, broker
      ensures rest.Mirrors(t) && t == Persisted(s, rest.id, o)
      ensures t.workers[rest.id].pc == if done then Handled else Failed
      ensures Counters(t.workers[rest.id]) == var c := Counters(s.workers[rest.id]); if done then (c.0 + 1, c.1, c.2) else Failing(c)
    {
      hide PairOf, Saved, Sent, Marked, Counters, Rest.Mirrors, At;
      done, t := WriteToDb(f, o, s);
      if done {
        done, t := ForwardEvent(Copy(at, PairOf(f)), o, t);
        if done {
          done, t := MarkKey(PairOf(f), o, t);
        }
      }
    }

    /** What the state after an event was processed says of the counters and of what
        is in the services. */
    lemma Ended(f: Flight, at: Place, o: Outcomes, s: State, t: State, success: bool, was: (nat, nat, nat))
      requires rest.id < |s.workers| && Counters(s.workers[rest.id]) == was
      requires HoldsEvent(s, rest.id, Got) && InHand(s, rest.id) == Parsed(f) && At(s, rest.id) == at && o.Fair()
      requires Mirrors(t) && t == Processed(s, rest.id, o) && success == (t.workers[rest.id].pc == Handled)
      ensures success <==> Fates.Seen(s, rest.id, o) || Fates.Through(s, rest.id, o)
      ensures eventsProcessed == was.0 + (if Fates.Through(s, rest.id, o) then 1 else 0)
      ensures idempotentSkips == was.2 + (if Fates.Seen(s, rest.id, o) then 1 else 0)
      ensures eventsFailed == was.1 + (if success then 0 else 1)
      ensures o.check && !Fates.Seen(s, rest.id, o) && o.storeApplied ==>
                exists i :: 0 <= i < |db.flightEvents| && db.flightEvents[i].info.flightId == f.info.flightId
                            && db.flightEvents[i].info.stamp == f.info.stamp
      ensures o.check && !Fates.Seen(s, rest.id, o) && o.store && o.copies > 0 ==>
                Copy(at, Pair(f.info.flightId, f.info.stamp)) in broker.processed
    {
      hide Processed, Fates.Seen, Fates.Through;
      Fates.ProcessFate(s, rest.id, o);
    }

    /** Never raises: it answers whether the event was processed or skipped. */
    method ProcessFlightEvent(f: Flight, at: Place, o: Outcomes, ghost s: State) returns (success: bool, ghost t: State)
      requires Mirrors(s) && HoldsEvent(s, rest.id, Got) && InHand(s, rest.id) == Parsed(f) && At(s, rest.id) == at && o.Fair()
      modifies this, rest, redis, db, broker
      ensures Mirrors(t) && t == Processed(s, rest.id, o)
      ensures success == (t.workers[rest.id].pc == Handled)
      ensures success <==> Fates.Seen(s, rest.id, o) || Fates.Through(s, rest.id, o)
      ensures eventsProcessed == old(eventsProcessed) + (if Fates.Through(s, rest.id, o) then 1 else 0)
      ensures idempotentSkips == old(idempotentSkips) + (if Fates.Seen(s, rest.id, o) then 1 else 0)
      ensures eventsFailed == old(eventsFailed) + (if success then 0 else 1)
      ensures o.check && !Fates.Seen(s, rest.id, o) && o.storeApplied ==>
                exists i :: 0 <= i < |db.flightEvents| && db.flightEvents[i].info.flightId == f.info.flightId
                            && db.flightEvents[i].info.stamp == f.info.stamp
      ensures o.check && !Fates.Seen(s, rest.id, o) && o.store && o.copies > 0 ==>
                Copy(at, Pair(f.info.flightId, f.info.stamp)) in broker.processed
    {
      hide Fates.Seen, Fates.Through, PairOf, Checked, Processed, Persisted, Counters, Rest.Mirrors, At;
      ghost var was := (eventsProcessed, eventsFailed, idempotentSkips);
      var alreadyProcessed;
      alreadyProcessed, t := CheckKey(PairOf(f), o, s);
      ProcessedAs(s, rest.id, o);
      if alreadyProcessed == Some(true) {
        idempotentSkips := idempotentSkips + 1;
        Ended(f, at, o, s, t, true, was);
        return true, t;
      }
      success := alreadyProcessed.Some?;
      if success {
        success, t := Persist(f, at, o, t);
      }
      if success {
        eventsProcessed := eventsProcessed + 1;
      } else {
        eventsFailed := eventsFailed + 1;
      }
      Ended(f, at, o, s, t, success, was);
    }
  }

  class FailureHandler {
    const broker: Broker
    var errorsProcessed: nat

    constructor (broker: Broker)
      ensures this.broker == broker && errorsProcessed == 0
    {
      this.broker := broker;
      errorsProcessed := 0;
    }

    /** A Kafka error while dead-lettering is reported and swallowed; any other
        exception is raised to the caller. */
    method HandleFailure(at: Place, delivery: Delivery, applied: bool) returns (raised: bool)
      requires delivery.Delivered? ==> applied
      modifies this, broker`dead, broker`dropped
      ensures raised == delivery.Raised? && errorsProcessed == old(errorsProcessed) + 1
      ensures broker.dead == if applied then old(broker.dead) + {at} else old(broker.dead)
      ensures broker.dropped == if delivery.Swallowed? then old(broker.dropped) + {at} else old(broker.dropped)
    {
      errorsProcessed := errorsProcessed + 1;
      if applied {
        broker.dead := broker.dead + {at};
      }
      if delivery.Swallowed? {
        broker.dropped := broker.dropped + {at};
      }
      raised := delivery.Raised?;
    }
  }

  class Worker {
    const processor: AsyncEventProcessor
    const rest: Rest
    const broker: Broker
    var failureHandler: FailureHandler
    var restarts: nat

    constructor (processor: AsyncEventProcessor, failureHandler: FailureHandler)
      ensures this.processor == processor && rest == processor.rest && broker == processor.broker
      ensures this.failureHandler == failureHandler && restarts == 0
    {
      this.processor, rest, broker, this.failureHandler, restarts := processor, processor.rest, processor.broker, failureHandler, 0;
    }

    /** The worker, the services and everyone else stand where the protocol's state
        says. */
    ghost predicate Mirrors(s: State)
      reads this, processor, rest, processor.rest, processor.redis, processor.db, broker, processor.broker, failureHandler,
            processor.rest.redis, processor.rest.db, processor.rest.broker
    {
      && processor.rest == rest && processor.broker == broker && failureHandler.broker == broker
      && processor.Mirrors(s)
      && failureHandler.errorsProcessed == Life(s.workers[rest.id]).0
      && restarts == Life(s.workers[rest.id]).2
    }

    /** Time passes for everyone else. */
    method Wait(gap: seq<Step>, ghost s: State) returns (ghost t: State)
      requires Mirrors(s)
      modifies rest, processor.redis, processor.db, broker
      ensures t == Meanwhile(s, rest.id, gap) && Mirrors(t)
    {
      hide Meanwhile;
      t := rest.Elapse(gap, s);
    }

    /** Hand a failed message to the failure handler, which may raise. */
    method DeadLetter(at: Place, o: Outcomes, ghost s: State) returns (raised: bool, ghost t: State)
      requires Mirrors(s) && Holding(s, rest.id) && s.workers[rest.id].pc == Failed && o.Fair()
      requires At(s, rest.id) == at
      modifies rest, processor.redis, processor.db, broker, failureHandler
      ensures t == Buried(s, rest.id, o) && Mirrors(t)
      ensures raised == (t.workers[rest.id].pc == Crashed)
    {
      hide Next, Counters, Life, Meanwhile, Holding, At;
      ghost var u := Wait(o.gaps.bury, s);
      DeadLetterIs(u, rest.id, o.delivery, o.deliveryApplied);
      raised := failureHandler.HandleFailure(at, o.delivery, o.deliveryApplied);
      t := Buried(s, rest.id, o);
    }

    /** Commit, which may raise. */
    method CommitOffsets(o: Outcomes, ghost s: State) returns (raised: bool, ghost t: State)
      requires Mirrors(s) && Holding(s, rest.id) && s.workers[rest.id].pc == Handled && o.Fair()
      modifies rest, processor.redis, processor.db, broker
      ensures t == Sealed(s, rest.id, o) && Mirrors(t)
      ensures raised == (t.workers[rest.id].pc == Crashed)
    {
      hide Next, Counters, Life, Meanwhile, Holding;
      ghost var u := Wait(o.gaps.commit, s);
      CommitIs(u, rest.id, o.commit, o.commitApplied);
      var committed := broker.Commit(rest.id, o.commit, o.commitApplied);
      t := Sealed(s, rest.id, o);
      raised := !committed;
    }

    /** Parse and process. */
    method Try(m: Message, at: Place, o: Outcomes, ghost s: State) returns (success: bool, ghost t: State)
      requires Mirrors(s) && Holding(s, rest.id) && s.workers[rest.id].pc == Got && o.Fair()
      requires InHand(s, rest.id) == m && At(s, rest.id) == at
      modifies processor, rest, processor.redis, processor.db, broker
      ensures t == Tried(s, rest.id, o) && Mirrors(t)
      ensures success == (t.workers[rest.id].pc == Handled)
    {
      hide Processed, ParsedOut, Counters, Life, PairOf, Rest.Mirrors;
      if m.Parsed? {
        ProcessedIs(s, rest.id, o);
        success, t := processor.ProcessFlightEvent(m.f, at, o, s);
      } else {
        ParsedOutIs(s, rest.id);
        t := ParsedOut(s, rest.id);
        success := false;
        StillMirrors(s, t);
      }
    }

    lemma InRange(s: State)
      requires Mirrors(s)
      ensures rest.id < |s.workers|
    {
    }

    /** The objects reflect a state that differs in what they do not show. */
    lemma StillMirrors(s: State, t: State)
      requires Mirrors(s) && SameRest(s, t, rest.id)
      requires Counters(t.workers[rest.id]) == Counters(s.workers[rest.id])
      requires Life(t.workers[rest.id]).0 == Life(s.workers[rest.id]).0 && Life(t.workers[rest.id]).2 == Life(s.workers[rest.id]).2
      ensures Mirrors(t)
    {
    }

    /** What the state after a turn says of the crash, the errors, the dead letters and
        the committed offset. */
    lemma TurnEnded(at: Place, o: Outcomes, s: State, t: State, errors: nat)
      requires Holding(s, rest.id) && s.workers[rest.id].pc == Got && o.Fair() && At(s, rest.id) == at
      requires Mirrors(t) && t == Finishing(s, rest.id, o) && errors == Life(s.workers[rest.id]).0
      ensures var fails := o.lag && !Fates.Succeeds(s, rest.id, o);
        && (t.workers[rest.id].pc == Crashed <==> !o.lag || (fails && o.delivery.Raised?) || !o.commit)
        && failureHandler.errorsProcessed == errors + (if fails then 1 else 0)
        && (fails && o.deliveryApplied ==> at in broker.dead) && (fails && o.delivery.Swallowed? ==> at in broker.dropped)
        && at.part < |broker.parts|
        && broker.parts[at.part].committed ==
           if o.lag && !(fails && o.delivery.Raised?) && o.commitApplied then at.offset + 1 else s.parts[at.part].committed
    {
      hide Finishing, Fates.Succeeds;
      Fates.TurnFate(s, rest.id, o);
    }

    /** One message: ask for the lag, process it, dead-letter it if that failed, and
        commit either way. */
    method HandleMessage(m: Message, at: Place, o: Outcomes, ghost s: State) returns (crashed: bool, ghost t: State)
      requires Mirrors(s) && Holding(s, rest.id) && s.workers[rest.id].pc == Got && o.Fair()
      requires InHand(s, rest.id) == m && At(s, rest.id) == at
      modifies processor, rest, processor.redis, processor.db, broker, failureHandler
      ensures t == Finishing(s, rest.id, o) && Mirrors(t)
      ensures var fails := o.lag && !Fates.Succeeds(s, rest.id, o);
        && (crashed <==> !o.lag || (fails && o.delivery.Raised?) || !o.commit)
        && failureHandler.errorsProcessed == old(failureHandler.errorsProcessed) + (if fails then 1 else 0)
        && (fails && o.deliveryApplied ==> at in broker.dead) && (fails && o.delivery.Swallowed? ==> at in broker.dropped)
        && at.part < |broker.parts|
        && broker.parts[at.part].committed ==
           if o.lag && !(fails && o.delivery.Raised?) && o.commitApplied then at.offset + 1 else s.parts[at.part].committed
      ensures crashed == (t.workers[rest.id].pc == Crashed)
    {
      ghost var errors := failureHandler.errorsProcessed;
      crashed, t := TakeTurn(m, at, o, s);
      TurnEnded(at, o, s, t, errors);
    }

    /** The turn itself. */
    method TakeTurn(m: Message, at: Place, o: Outcomes, ghost s: State) returns (crashed: bool, ghost t: State)
      requires Mirrors(s) && Holding(s, rest.id) && s.workers[rest.id].pc == Got && o.Fair()
      requires InHand(s, rest.id) == m && At(s, rest.id) == at
      modifies processor, rest, processor.redis, processor.db, broker, failureHandler
      ensures t == Finishing(s, rest.id, o) && Mirrors(t)
      ensures crashed == (t.workers[rest.id].pc == Crashed)
    {
      hide Tried, Buried, Sealed, Counters, Life, PairOf, Rest.Mirrors;
      if !o.lag {
        FallIs(s, rest.id);
        t := Next(s, Crash(rest.id));
        StillMirrors(s, t);
        return true, t;
      }
      var success;
      success, t := Try(m, at, o, s);
      if !success {
        crashed, t := DeadLetter(at, o, t);
        if crashed {
          return;
        }
      }
      crashed, t := CommitOffsets(o, t);
    }

    /** The next message of the partition, if the worker owns it and there is one. */
    method Take(p: nat, ghost u: State) returns (m: Option<Message>, position: nat, ghost t: State)
      requires Mirrors(u) && u.workers[rest.id].pc == Idle
      modifies broker`parts
      ensures Enabled(u, Fetch(rest.id, p)) <==> m.Some?
      ensures t == (if m.Some? then Fetched(u, rest.id, p) else u) && Mirrors(t)
      ensures m.Some? ==> m.value == InHand(t, rest.id) && Place(p, position) == At(t, rest.id)
    {
      hide Counters, Life, Fetched;
      m, position, t := None, 0, u;
      if p < |broker.parts| && broker.parts[p].owner == rest.id && broker.parts[p].position < |broker.parts[p].log| {
        position := broker.parts[p].position;
        m := Some(broker.parts[p].log[position]);
        broker.parts := broker.parts[p := broker.parts[p].(position := position + 1)];
        FetchedIs(u, rest.id, p);
        t := Fetched(u, rest.id, p);
      }
    }

    /** Consume, handle and commit until the turns are over or the worker crashes;
        `states` are the states before the turns. */
    method Run(turns: seq<Turn>, ghost s: State) returns (crashed: bool, ghost t: State, ghost states: seq<State>)
      requires Mirrors(s) && s.workers[rest.id].pc == Idle && AllFair(turns)
      modifies processor, rest, processor.redis, processor.db, broker, failureHandler
      ensures t == Ran(s, rest.id, turns) && Mirrors(t)
      ensures crashed == (t.workers[rest.id].pc == Crashed)
      ensures TurnedThrough(states, s, rest.id, turns, t)
    {
      hide Finishing, Fetched, Meanwhile, Ran, Counters, Life, TurnedThrough;
      t := s;
      states := RanThrough(s, rest.id, turns);
      for i := 0 to |turns|
        invariant Mirrors(t) && rest.id < |t.workers| && t.workers[rest.id].pc == Idle
        invariant Ran(t, rest.id, turns[i..]) == Ran(s, rest.id, turns)
      {
        RanNext(t, rest.id, turns, i);
        t := Wait(turns[i].before, t);
        var m, position;
        m, position, t := Take(turns[i].part, t);
        if m.Some? {
          crashed, t := HandleMessage(m.value, Place(turns[i].part, position), turns[i].o, t);
          if crashed {
            return true, t, states;
          }
        }
      }
      RanNone(t, rest.id, turns[|turns|..]);
      crashed := false;
    }

    /** All but the restart counter, which the supervisor has raised. */
    ghost predicate Ready(s: State)
      reads this, processor, rest, processor.rest, processor.redis, processor.db, broker, processor.broker, failureHandler,
            processor.rest.redis, processor.rest.db, processor.rest.broker
    {
      && processor.rest == rest && processor.broker == broker && failureHandler.broker == broker
      && processor.Mirrors(s)
      && failureHandler.errorsProcessed == Life(s.workers[rest.id]).0
      && restarts == Life(s.workers[rest.id]).2 + 1
    }

    /** A new consumer and a new failure handler, unless connecting raises. */
    method Start(ok: bool, ghost s: State) returns (ghost t: State)
      requires Ready(s) && s.workers[rest.id].pc == Crashed
      modifies this`failureHandler, broker`parts
      ensures t == (if ok then Next(s, Protocol.Start(rest.id)) else Next(s, Abandon(rest.id))) && Mirrors(t)
      ensures failureHandler == old(failureHandler) || fresh(failureHandler)
    {
      hide Next, Counters, Life;
      if ok {
        StartIs(s, rest.id);
        broker.Rewind(rest.id);
        failureHandler := new FailureHandler(broker);
        t := Next(s, Protocol.Start(rest.id));
      } else {
        AbandonIs(s, rest.id);
        t := Next(s, Abandon(rest.id));
      }
    }
  }

  class Supervisor {
    var failuresPerWorker: map<nat, nat>
    var restartsPerWorker: map<nat, nat>

    constructor (workers: set<nat>)
      ensures failuresPerWorker == map w | w in workers :: 0
      ensures restartsPerWorker == map w | w in workers :: 0
    {
      failuresPerWorker := map w | w in workers :: 0;
      restartsPerWorker := map w | w in workers :: 0;
    }

    /** The supervisor's counts of a worker. */
    ghost predicate Counts(w: nat, failures: int, restarts: int)
      reads this
    {
      && w in failuresPerWorker && w in restartsPerWorker
      && failuresPerWorker[w] == failures && restartsPerWorker[w] == restarts
    }

    /** Run the worker once and count a failure if it raises. */
    method RunOnce(worker: Worker, span: Span, ghost s: State) returns (crashed: bool, ghost t: State)
      requires worker.Mirrors(s) && s.workers[worker.rest.id].pc == Idle && AllFair(span.turns)
      requires worker.rest.id in failuresPerWorker
      modifies this`failuresPerWorker, worker.processor, worker.rest, worker.processor.redis, worker.processor.db, worker.broker,
               worker.failureHandler
      ensures t == Spanned(s, worker.rest.id, span) && worker.Mirrors(t)
      ensures crashed == (t.workers[worker.rest.id].pc == Crashed) && (span.raises ==> crashed)
      ensures failuresPerWorker == if crashed then old(failuresPerWorker)[worker.rest.id := old(failuresPerWorker[worker.rest.id]) + 1]
                                   else old(failuresPerWorker)
    {
      hide Next, Ran, Counters, Life;
      ghost var states;
      crashed, t, states := worker.Run(span.turns, s);
      if !crashed && span.raises {
        FallIs(t, worker.rest.id);
        worker.StillMirrors(t, Next(t, Crash(worker.rest.id)));
        t := Next(t, Crash(worker.rest.id));
        crashed := true;
      }
      if crashed {
        failuresPerWorker := failuresPerWorker[worker.rest.id := failuresPerWorker[worker.rest.id] + 1];
      }
    }

    /** Wait, count the restart, and start the worker, which may raise. */
    method Restart(worker: Worker, span: Span, ghost s: State) returns (ghost t: State)
      requires worker.Mirrors(s) && s.workers[worker.rest.id].pc == Crashed
      requires worker.rest.id in restartsPerWorker
      modifies this`restartsPerWorker, worker, worker.rest, worker.processor.redis, worker.processor.db, worker.broker
      ensures t == Restarted(s, worker.rest.id, span) && worker.Mirrors(t)
      ensures worker.failureHandler == old(worker.failureHandler) || fresh(worker.failureHandler)
      ensures worker.restarts == old(worker.restarts) + 1
      ensures restartsPerWorker == old(restartsPerWorker)[worker.rest.id := old(restartsPerWorker[worker.rest.id]) + 1]
    {
      hide Next, Counters, Meanwhile;
      ghost var u := worker.Wait(span.asleep, s);
      restartsPerWorker := restartsPerWorker[worker.rest.id := restartsPerWorker[worker.rest.id] + 1];
      worker.restarts := worker.restarts + 1;
      t := worker.Start(span.restarts, u);
    }

    /** Restart the worker after every crash.  The failures counted are the
        crashes, and each is followed by one counted restart except a last one that
        finds the supervisor stopping; a restart that raises ends the loop.  `lives`
        are the states in which the worker's lives began. */
    method SupervisedLoop(worker: Worker, spans: seq<Span>, ghost s: State)
      returns (ghost t: State, ghost crashes: nat, ghost lives: seq<State>)
      requires worker.Mirrors(s) && s.workers[worker.rest.id].pc == Idle && SpansFair(spans)
      requires worker.rest.id in failuresPerWorker && worker.rest.id in restartsPerWorker
      modifies this, worker, worker.processor, worker.rest, worker.processor.redis, worker.processor.db, worker.broker,
               worker.failureHandler
      ensures t == Supervised(s, worker.rest.id, spans) && worker.Mirrors(t)
      ensures Counts(worker.rest.id, old(failuresPerWorker[worker.rest.id]) + crashes,
                     old(restartsPerWorker[worker.rest.id]) + worker.restarts - old(worker.restarts))
      ensures crashes == worker.restarts - old(worker.restarts) + if t.workers[worker.rest.id].pc == Crashed then 1 else 0
      ensures LivedThrough(lives, s, worker.rest.id, spans, t)
      ensures crashes <= |spans| && forall i :: 0 <= i < crashes - 1 ==> spans[i].restarts
      ensures t.workers[worker.rest.id].pc == Crashed ==> crashes == |spans|
      ensures t.workers[worker.rest.id].pc == Gone ==> 0 < crashes < |spans| && !spans[crashes - 1].restarts
      ensures t.workers[worker.rest.id].pc == Idle && spans != [] ==>
                crashes < |spans| && (crashes > 0 ==> spans[crashes - 1].restarts)
    {
      hide Next, Spanned, Restarted, Worker.Mirrors, LivedThrough;
      ghost var w := worker.rest.id;
      worker.InRange(s);
      ghost var failures, restarts, since := failuresPerWorker[w], restartsPerWorker[w], worker.restarts;
      t, crashes := s, 0;
      lives := SupervisedThrough(s, w, spans);
      for i := 0 to |spans|
        invariant worker.Mirrors(t) && w < |t.workers| && t.workers[w].pc == Idle
        invariant worker.failureHandler == old(worker.failureHandler) || fresh(worker.failureHandler)
        invariant Supervised(t, w, spans[i..]) == Supervised(s, w, spans)
        invariant crashes == i && (spans == [] || i < |spans|) && forall j :: 0 <= j < i ==> spans[j].restarts
        invariant Counts(w, failures + crashes, restarts + crashes) && worker.restarts == since + crashes
      {
        assert spans[i..][0] == spans[i] && spans[i..][1..] == spans[i + 1..];
        var crashed;
        crashed, t := RunOnce(worker, spans[i], t);
        if !crashed {
          return;
        }
        crashes := crashes + 1;
        if i == |spans| - 1 {
          return;
        }
        t := Restart(worker, spans[i], t);
        if !spans[i].restarts {
          return;
        }
      }
    }
  }
}

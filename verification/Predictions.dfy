/** The delay propagation worker's handling of one message: graph first, then
    one published prediction per touched flight. */
module Predictions {
  import opened Flights
  import opened Graphs
  import opened Gates
  import opened Propagation
  import opened Delays
  import opened Steps
  import opened Engine
  import Protocol

  datatype GateReassignment = GateReassignment(oldGate: Option<string>, newGate: string)

  datatype Estimate = Estimate(delay: int, confidence: real)

  /** The model, as a function of the fixed fields and the delay. */
  type Predictor = (Info, nat) -> Estimate

  datatype PredictionEvent = PredictionEvent(
    flightId: string,
    flight: Flight,
    estimate: Estimate,
    source: Option<string>,
    hops: Option<nat>,
    reassignment: Option<GateReassignment>)

  // ---- what one message publishes ----

  function Updates(g: Graph, pool: seq<string>, f: Flight): seq<Update>
    requires g.Valid()
  {
    var r := Resolved(g, pool, f);
    ValidClosed(r);
    if f.delay > 0 then Propagate(r, f.info.key, f.delay).1 else []
  }

  function OwnMessage(h: Graph, f: Flight, predict: Predictor): PredictionEvent
    requires f.info.key in h.nodes.at
  {
    var now := h.nodes.at[f.info.key];
    PredictionEvent(f.info.flightId, now, if f.delay > 0 then predict(f.info, f.delay) else Estimate(f.delay, 1.0), None, None, None)
  }

  function SpreadMessage(h: Graph, f: Flight, predict: Predictor, u: Update): PredictionEvent
    requires u.key in h.nodes.at
  {
    var now := h.nodes.at[u.key];
    PredictionEvent(now.info.flightId, now, predict(now.info, now.delay), Some(f.info.flightId), Some(u.hops), None)
  }

  function GateMessage(g: Graph, h: Graph, ms: seq<Move>, j: nat): PredictionEvent
    requires j < |ms| && ms[j].dst in g.nodes.at && ms[j].dst in h.nodes.at
  {
    var now := h.nodes.at[ms[j].dst];
    PredictionEvent(now.info.flightId, now, Estimate(now.delay, 1.0), None, None,
      Some(GateReassignment(GateAfter(ms[..j], ms[j].dst, g.nodes.at[ms[j].dst].gate), ms[j].gate)))
  }

  /** `h` holds every flight the updates and the moves mention. */
  ghost predicate Mentions(g: Graph, h: Graph, f: Flight, us: seq<Update>, ms: seq<Move>) {
    && f.info.key in h.nodes.at
    && (forall i :: 0 <= i < |us| ==> us[i].key in h.nodes.at)
    && (forall j :: 0 <= j < |ms| ==> ms[j].dst in g.nodes.at && ms[j].dst in h.nodes.at)
  }

  /** All messages of one handling, in order; `g` is the graph when the gates
      were resolved, `h` the graph at the end. */
  function MessagesFor(g: Graph, h: Graph, f: Flight, us: seq<Update>, ms: seq<Move>, predict: Predictor): (r: seq<PredictionEvent>)
    requires Mentions(g, h, f, us, ms)
    ensures |r| == 1 + |us| + |ms|
  {
    [OwnMessage(h, f, predict)]
    + seq(|us|, i requires 0 <= i < |us| => SpreadMessage(h, f, predict, us[i]))
    + seq(|ms|, j requires 0 <= j < |ms| => GateMessage(g, h, ms, j))
  }

  lemma HandleMentions(g: Graph, pool: seq<string>, f: Flight)
    requires g.Valid()
    ensures ProcessEvent(g, f).Valid()
    ensures Mentions(ProcessEvent(g, f), Handle(g, pool, f), f, Updates(g, pool, f), Moves(ProcessEvent(g, f), pool))
    ensures Handle(g, pool, f).nodes.at.Keys == g.nodes.at.Keys + {f.info.key}
  {
    hide Graph.Valid, Resolve, Propagate, LinkRow, Moves;
    ProcessEventValid(g, f);
    var a, r, ms := ProcessEvent(g, f), Resolved(g, pool, f), Moves(ProcessEvent(g, f), pool);
    ResolveValid(a, pool);
    MovesApplicable(a, pool);
    forall j | 0 <= j < |ms| ensures ms[j].dst in a.nodes.at {
      assert ms[j] in ms;
    }
    PropagateInfo(r, f.info.key, f.delay);
    PropagationReport(r, f.info.key, f.delay);
    forall i | 0 <= i < |Updates(g, pool, f)| ensures Updates(g, pool, f)[i].key in r.nodes.at {
      assert Lists(Updates(g, pool, f), Updates(g, pool, f)[i].key);
    }
  }

  function Messages(g: Graph, pool: seq<string>, f: Flight, predict: Predictor): (r: seq<PredictionEvent>)
    requires g.Valid()
    ensures ProcessEvent(g, f).Valid()
    ensures |r| == 1 + |Updates(g, pool, f)| + |Moves(ProcessEvent(g, f), pool)|
  {
    HandleMentions(g, pool, f);
    MessagesFor(ProcessEvent(g, f), Handle(g, pool, f), f, Updates(g, pool, f), Moves(ProcessEvent(g, f), pool), predict)
  }

  function RaisedIn(h: Graph, us: seq<Update>): (r: seq<Flight>)
    requires forall i :: 0 <= i < |us| ==> us[i].key in h.nodes.at
    ensures |r| == |us| && forall i :: 0 <= i < |us| ==> r[i] == h.nodes.at[us[i].key]
  {
    seq(|us|, i requires 0 <= i < |us| => h.nodes.at[us[i].key])
  }

  function MovedIn(h: Graph, ms: seq<Move>): (r: seq<Flight>)
    requires forall j :: 0 <= j < |ms| ==> ms[j].dst in h.nodes.at
    ensures |r| == |ms| && forall j :: 0 <= j < |ms| ==> r[j] == h.nodes.at[ms[j].dst]
  {
    seq(|ms|, j requires 0 <= j < |ms| => h.nodes.at[ms[j].dst])
  }

  lemma MessagesAre(g: Graph, h: Graph, f: Flight, us: seq<Update>, ms: seq<Move>, predict: Predictor)
    requires Mentions(g, h, f, us, ms)
    ensures var r := MessagesFor(g, h, f, us, ms, predict);
      && r[0] == OwnMessage(h, f, predict)
      && (forall i :: 0 <= i < |us| ==> r[1 + i] == SpreadMessage(h, f, predict, us[i]))
      && (forall j :: 0 <= j < |ms| ==> r[1 + |us| + j] == GateMessage(g, h, ms, j))
  {
  }

  /** The first message is the event's own, with the model's answer for its delay and
      without any source, hops or reassignment. */
  lemma FirstMessage(g: Graph, pool: seq<string>, f: Flight, predict: Predictor)
    requires g.Valid()
    ensures f.info.key in Handle(g, pool, f).nodes.at
    ensures var m := Messages(g, pool, f, predict)[0];
      && m.flightId == f.info.flightId && m.flight == Handle(g, pool, f).nodes.at[f.info.key]
      && m.estimate == (if f.delay > 0 then predict(f.info, f.delay) else Estimate(0, 1.0))
      && m.source == None && m.hops == None && m.reassignment == None
  {
    hide Graph.Valid, Handle, Updates, Moves, Graphs.ProcessEvent, MessagesFor;
    HandleMentions(g, pool, f);
    MessagesAre(Graphs.ProcessEvent(g, f), Handle(g, pool, f), f, Updates(g, pool, f), Moves(Graphs.ProcessEvent(g, f), pool),
                predict);
  }

  /** Then comes one for each reported flight, in the order of the report, with the
      model's answer for the delay the flight ends the step with, the event's flight as
      its source and the reported hops. */
  lemma SpreadMessages(g: Graph, pool: seq<string>, f: Flight, predict: Predictor, i: nat)
    requires g.Valid() && i < |Updates(g, pool, f)|
    ensures Updates(g, pool, f)[i].key in Handle(g, pool, f).nodes.at
    ensures var m, u := Messages(g, pool, f, predict)[1 + i], Updates(g, pool, f)[i];
      var now := Handle(g, pool, f).nodes.at[u.key];
      && m.flightId == now.info.flightId && m.flight == now && m.estimate == predict(now.info, now.delay)
      && m.source == Some(f.info.flightId) && m.hops == Some(u.hops) && m.reassignment == None
  {
    hide Graph.Valid, Handle, Updates, Moves, Graphs.ProcessEvent, MessagesFor;
    HandleMentions(g, pool, f);
    MessagesAre(Graphs.ProcessEvent(g, f), Handle(g, pool, f), f, Updates(g, pool, f), Moves(Graphs.ProcessEvent(g, f), pool),
                predict);
  }

  /** Then comes one for each reassignment in its order, with the delay as it is, for
      certain, and the gates before and after: the one before is what the flight's last
      earlier reassignment gave it, or else the one it arrived with or had. */
  lemma GateMessages(g: Graph, pool: seq<string>, f: Flight, predict: Predictor, a: Graph, ms: seq<Move>, j: nat)
    requires g.Valid() && a == Graphs.ProcessEvent(g, f) && a.Valid() && ms == Moves(a, pool) && j < |ms|
    ensures ms[j].dst in a.nodes.at && ms[j].dst in Handle(g, pool, f).nodes.at
    ensures Reassigns(Messages(g, pool, f, predict)[1 + |Updates(g, pool, f)| + j], ms, j, a.nodes.at[ms[j].dst].gate,
                      Handle(g, pool, f).nodes.at[ms[j].dst])
  {
    hide Graph.Valid, Handle, Updates, Moves, Graphs.ProcessEvent, MessagesFor, Reassigns, Mentions;
    HandleMentions(g, pool, f);
    MentionsMove(a, Handle(g, pool, f), f, Updates(g, pool, f), ms, j);
    GateMessageTells(a, Handle(g, pool, f), f, Updates(g, pool, f), ms, predict, j);
  }

  /** The message tells of the `j`-th reassignment of a flight that had the gate `had`
      and is now as given. */
  ghost predicate Reassigns(m: PredictionEvent, ms: seq<Move>, j: nat, had: Option<string>, now: Flight)
    requires j < |ms|
  {
    && m.flightId == now.info.flightId && m.flight == now && m.estimate == Estimate(now.delay, 1.0)
    && m.source == None && m.hops == None && m.reassignment.Some? && m.reassignment.value.newGate == ms[j].gate
    && (forall i: nat :: LastOf(ms, j, ms[j].dst, i) ==> m.reassignment.value.oldGate == Some(ms[i].gate))
    && ((forall i :: 0 <= i < j ==> ms[i].dst != ms[j].dst) ==> m.reassignment.value.oldGate == had)
  }

  lemma MentionsMove(a: Graph, h: Graph, f: Flight, us: seq<Update>, ms: seq<Move>, j: nat)
    requires Mentions(a, h, f, us, ms) && j < |ms|
    ensures ms[j].dst in a.nodes.at && ms[j].dst in h.nodes.at
  {
  }

  lemma GateMessageTells(a: Graph, h: Graph, f: Flight, us: seq<Update>, ms: seq<Move>, predict: Predictor, j: nat)
    requires Mentions(a, h, f, us, ms) && j < |ms|
    ensures Reassigns(MessagesFor(a, h, f, us, ms, predict)[1 + |us| + j], ms, j, a.nodes.at[ms[j].dst].gate, h.nodes.at[ms[j].dst])
  {
    assert MessagesFor(a, h, f, us, ms, predict)[1 + |us| + j] == GateMessage(a, h, ms, j);
    var k, gate := ms[j].dst, a.nodes.at[ms[j].dst].gate;
    forall i: nat | LastOf(ms, j, k, i) ensures GateAfter(ms[..j], k, gate) == Some(ms[i].gate) {
      LastGate(ms[..j], k, gate, i);
    }
    if forall i :: 0 <= i < j ==> ms[i].dst != k {
      Unmoved(ms[..j], k, gate);
    }
  }

  // ---- the messages are a complete diff ----

  /** A consumer that overwrites its entry for each published flight. */
  function Consume(seen: map<Key, Flight>, msgs: seq<PredictionEvent>): map<Key, Flight> {
    if msgs == [] then seen
    else Consume(seen, msgs[..|msgs| - 1])[msgs[|msgs| - 1].flight.info.key := msgs[|msgs| - 1].flight]
  }

  ghost predicate Tells(msgs: seq<PredictionEvent>, k: Key) {
    exists i :: 0 <= i < |msgs| && msgs[i].flight.info.key == k
  }

  /** Every message carries the flight as it is at the end of the step. */
  ghost predicate Current(msgs: seq<PredictionEvent>, now: map<Key, Flight>) {
    forall i :: 0 <= i < |msgs| ==>
      msgs[i].flight.info.key in now && msgs[i].flight == now[msgs[i].flight.info.key]
  }

  lemma {:induction false} Consumed(seen: map<Key, Flight>, msgs: seq<PredictionEvent>, now: map<Key, Flight>, k: Key)
    requires Current(msgs, now)
    ensures if Tells(msgs, k) then k in now && k in Consume(seen, msgs) && Consume(seen, msgs)[k] == now[k]
            else k in Consume(seen, msgs) <==> k in seen
    ensures !Tells(msgs, k) && k in seen ==> Consume(seen, msgs)[k] == seen[k]
  {
    if msgs != [] {
      var n := |msgs| - 1;
      Consumed(seen, msgs[..n], now, k);
      if Tells(msgs[..n], k) {
        var i :| 0 <= i < n && msgs[..n][i].flight.info.key == k;
        assert msgs[i].flight.info.key == k;
      }
      if Tells(msgs, k) && msgs[n].flight.info.key != k {
        var i :| 0 <= i < |msgs| && msgs[i].flight.info.key == k;
        assert msgs[..n][i].flight.info.key == k;
      }
    }
  }

  lemma MessagesCurrent(g: Graph, h: Graph, f: Flight, us: seq<Update>, ms: seq<Move>, predict: Predictor)
    requires Mentions(g, h, f, us, ms) && h.Valid()
    ensures Current(MessagesFor(g, h, f, us, ms, predict), h.nodes.at)
  {
  }

  lemma MessagesTell(g: Graph, h: Graph, f: Flight, us: seq<Update>, ms: seq<Move>, predict: Predictor, k: Key)
    requires Mentions(g, h, f, us, ms) && h.Valid()
    requires k == f.info.key || Lists(us, k) || Moved(ms, k)
    ensures Tells(MessagesFor(g, h, f, us, ms, predict), k)
  {
    var r := MessagesFor(g, h, f, us, ms, predict);
    if k == f.info.key {
      assert r[0].flight == h.nodes.at[k];
    } else if Lists(us, k) {
      var i :| 0 <= i < |us| && us[i].key == k;
      assert r[1 + i] == SpreadMessage(h, f, predict, us[i]);
    } else {
      var j :| 0 <= j < |ms| && ms[j].dst == k;
      assert r[1 + |us| + j] == GateMessage(g, h, ms, j);
    }
  }

  /** A flight nobody reports is as it was. */
  lemma UntouchedKept(g: Graph, pool: seq<string>, f: Flight, k: Key)
    requires g.Valid() && k in g.nodes.at && k != f.info.key
    requires ProcessEvent(g, f).Valid() && !Lists(Updates(g, pool, f), k) && !Moved(Moves(ProcessEvent(g, f), pool), k)
    ensures k in Handle(g, pool, f).nodes.at && Handle(g, pool, f).nodes.at[k] == g.nodes.at[k]
  {
    hide Graph.Valid, Resolve, Propagate, LinkRow, Moves;
    var r := Resolved(g, pool, f);
    ResolveNode(ProcessEvent(g, f), pool, k);
    if f.delay > 0 {
      var bound := BoundExists(r, f.info.key, f.delay);
      PropagationBounds(r, f.info.key, f.delay, bound, k);
      PropagationReport(r, f.info.key, f.delay);
    }
  }

  /** After any number of the messages, a consumer that knew the graph's flights
      before the step agrees on a flight exactly when it was told about it or
      the step left it alone. */
  lemma PartialDiff(g: Graph, pool: seq<string>, f: Flight, predict: Predictor, n: nat, k: Key)
    requires g.Valid() && n <= |Messages(g, pool, f, predict)| && k in Handle(g, pool, f).nodes.at
    ensures var seen, now := Consume(g.nodes.at, Messages(g, pool, f, predict)[..n]), Handle(g, pool, f).nodes.at;
      k in seen && seen[k] == now[k] <==>
      Tells(Messages(g, pool, f, predict)[..n], k) || (k in g.nodes.at && g.nodes.at[k] == now[k])
  {
    hide Graph.Valid, Handle, Updates, Moves, MessagesFor, Graphs.ProcessEvent;
    HandleMentions(g, pool, f);
    MessagesCurrent(ProcessEvent(g, f), Handle(g, pool, f), f, Updates(g, pool, f), Moves(ProcessEvent(g, f), pool), predict);
    Consumed(g.nodes.at, Messages(g, pool, f, predict)[..n], Handle(g, pool, f).nodes.at, k);
  }

  /** When every publish succeeds, that consumer equals the graph's flights after
      the step. */
  lemma CompleteDiff(g: Graph, pool: seq<string>, f: Flight, predict: Predictor)
    requires g.Valid()
    ensures Consume(g.nodes.at, Messages(g, pool, f, predict)) == Handle(g, pool, f).nodes.at
  {
    hide Graph.Valid, Handle, Updates, Moves, MessagesFor, Graphs.ProcessEvent, Consume;
    var msgs, now := Messages(g, pool, f, predict), Handle(g, pool, f).nodes.at;
    HandleMentions(g, pool, f);
    var us, ms := Updates(g, pool, f), Moves(ProcessEvent(g, f), pool);
    MessagesCurrent(ProcessEvent(g, f), Handle(g, pool, f), f, us, ms, predict);
    forall k
      ensures k in Consume(g.nodes.at, msgs) <==> k in now
      ensures k in now ==> k in Consume(g.nodes.at, msgs) && Consume(g.nodes.at, msgs)[k] == now[k]
    {
      Consumed(g.nodes.at, msgs, now, k);
      if k == f.info.key || Lists(us, k) || Moved(ms, k) {
        MessagesTell(ProcessEvent(g, f), Handle(g, pool, f), f, us, ms, predict, k);
      } else if k in g.nodes.at {
        UntouchedKept(g, pool, f, k);
      }
    }
  }

  // ---- the diff over a run ----

  /** The consumer knows every flight of the graph as it is. */
  ghost predicate Follows(seen: map<Key, Flight>, g: Graph) {
    forall k :: k in g.nodes.at ==> k in seen && seen[k] == g.nodes.at[k]
  }

  lemma {:induction false} FollowsMessage(g: Graph, pool: seq<string>, f: Flight, predict: Predictor, seen: map<Key, Flight>)
    requires g.Valid() && Follows(seen, g)
    ensures Follows(Consume(seen, Messages(g, pool, f, predict)), Handle(g, pool, f))
  {
    hide Graph.Valid, Handle, Updates, Moves, MessagesFor, Graphs.ProcessEvent, Consume;
    var msgs, now := Messages(g, pool, f, predict), Handle(g, pool, f).nodes.at;
    HandleMentions(g, pool, f);
    var us, ms := Updates(g, pool, f), Moves(ProcessEvent(g, f), pool);
    MessagesCurrent(ProcessEvent(g, f), Handle(g, pool, f), f, us, ms, predict);
    forall k | k in now ensures k in Consume(seen, msgs) && Consume(seen, msgs)[k] == now[k] {
      Consumed(seen, msgs, now, k);
      if k == f.info.key || Lists(us, k) || Moved(ms, k) {
        MessagesTell(ProcessEvent(g, f), Handle(g, pool, f), f, us, ms, predict, k);
      } else {
        UntouchedKept(g, pool, f, k);
      }
    }
  }

  /** What the consumer knows after a run of messages, whose publishes all succeed,
      and of prunes, of which it hears nothing. */
  function Known(pool: seq<string>, ops: seq<Op>, predict: Predictor): map<Key, Flight>
    requires EMPTY.Valid()
  {
    if ops == [] then map[]
    else
      var n := |ops| - 1;
      if ops[n].Message? then Consume(Known(pool, ops[..n], predict), Messages(RunOps(EMPTY, pool, ops[..n]), pool, ops[n].f, predict))
      else Known(pool, ops[..n], predict)
  }

  /** Over any run of messages and prunes from the empty graph, the consumer agrees
      with the graph on every flight still in it. */
  lemma {:induction false} DiffOverRun(pool: seq<string>, ops: seq<Op>, predict: Predictor)
    requires EMPTY.Valid() && forall i :: 0 <= i < |ops| ==> ops[i].Message? || ops[i].Expire?
    ensures Follows(Known(pool, ops, predict), RunOps(EMPTY, pool, ops))
  {
    hide Graph.Valid, Handle, Messages, Consume, Prune;
    if ops != [] {
      var n := |ops| - 1;
      DiffOverRun(pool, ops[..n], predict);
      var g := RunOps(EMPTY, pool, ops[..n]);
      if ops[n].Message? {
        FollowsMessage(g, pool, ops[n].f, predict, Known(pool, ops[..n], predict));
      } else {
        PruneExact(g, ops[n].cutoff);
      }
    }
  }

  // ---- the processor ----

  /** How the publishes of one message go: the first `good` succeed, and the next
      raises, perhaps after it took effect. */
  datatype Publishing = Publishing(good: nat, applied: bool)

  /** How many of the first `n` messages reach the topic. */
  function Reached(p: Publishing, n: nat): (r: nat)
    ensures r <= n
  {
    if n <= p.good then n else if p.applied then p.good + 1 else p.good
  }

  /** The producer behind the predictions topic. */
  class PredictionProducer {
    var published: seq<PredictionEvent>

    constructor ()
      ensures published == []
    {
      published := [];
    }

    method Publish(e: PredictionEvent, ok: bool, applied: bool) returns (done: bool)
      requires ok ==> applied
      modifies this
      ensures done == ok && published == if applied then old(published) + [e] else old(published)
    {
      if applied {
        published := published + [e];
      }
      done := ok;
    }
  }

  class DelayPropagationProcessor {
    const engine: GraphEngine
    const producer: PredictionProducer
    const predict: Predictor
    var eventsProcessed: nat
    var eventsFailed: nat

    constructor (engine: GraphEngine, producer: PredictionProducer, predict: Predictor)
      ensures this.engine == engine && this.producer == producer && this.predict == predict
      ensures eventsProcessed == 0 && eventsFailed == 0
    {
      this.engine, this.producer, this.predict := engine, producer, predict;
      eventsProcessed, eventsFailed := 0, 0;
    }

    /** Of `msgs`, the first `n` were tried until one failed. */
    ghost predicate Sent(before: seq<PredictionEvent>, p: Publishing, msgs: seq<PredictionEvent>, n: nat, ok: bool)
      reads producer
    {
      && n <= |msgs|
      && producer.published == before + msgs[..Reached(p, n)]
      && (ok <==> p.good >= n)
    }

    /** Publish the `n`-th message unless one before it failed. */
    method Publish(e: PredictionEvent, ok: bool, p: Publishing, n: nat, ghost before: seq<PredictionEvent>,
                   ghost msgs: seq<PredictionEvent>) returns (ok': bool)
      requires n < |msgs| && msgs[n] == e && Sent(before, p, msgs, n, ok)
      modifies producer
      ensures Sent(before, p, msgs, n + 1, ok')
    {
      ok' := ok;
      if ok {
        ok' := producer.Publish(e, n < p.good, n < p.good || p.applied);
        assert msgs[..n + 1] == msgs[..n] + [msgs[n]];
      }
    }

    /** The reassignment records carry the event objects of the graph's nodes. */
    ghost predicate RecordsNow(rs: seq<Reassignment>, g: Graph, ms: seq<Move>)
      reads engine
    {
      Records(rs, g, ms, engine.nodes.at)
    }

    lemma RecordsStay(rs: seq<Reassignment>, g: Graph, ms: seq<Move>, was: map<Key, Node>)
      requires Records(rs, g, ms, was) && engine.SameEvents(was)
      ensures RecordsNow(rs, g, ms)
    {
    }

    /** The graph part of a message: insert, resolve, and propagate a delay. */
    method MutateGraph(event: FlightEvent, modelUp: bool)
      returns (ran: bool, own: Estimate, rs: seq<Reassignment>, propagated: seq<Touched>)
      requires engine.Valid()
      modifies engine, engine.Events(), event
      ensures engine.Valid()
      ensures ran <==> old(event.delay) == 0 || modelUp
      ensures engine.view == if ran then Handle(old(engine.view), engine.pool, old(event.Value()))
                             else Resolved(old(engine.view), engine.pool, old(event.Value()))
      ensures ran ==> own == if old(event.delay) > 0 then predict(event.info, old(event.delay))
                             else Estimate(old(event.delay), 1.0)
      ensures Graphs.ProcessEvent(old(engine.view), old(event.Value())).Valid()
      ensures var a := Graphs.ProcessEvent(old(engine.view), old(event.Value()));
        RecordsNow(rs, a, Moves(a, engine.pool))
      ensures ran ==> engine.Reports(propagated, Updates(old(engine.view), engine.pool, old(event.Value())))
      ensures event.info.key in engine.nodes.at && engine.nodes.at[event.info.key].event == event
      ensures engine.Events() <= old(engine.Events()) + {event}
    {
      hide Graph.Valid, Resolve, Propagate, LinkRow, Moves, Graphs.ProcessEvent;
      ghost var g, f := engine.view, event.Value();
      engine.ProcessEvent(event);
      ghost var a, was := engine.view, engine.nodes.at;
      assert was[f.info.key].event == event;
      ghost var events := engine.Events();
      assert events <= old(engine.Events()) + {event};
      engine.EventsStay(was);
      rs := engine.ResolveGateConflicts();
      assert engine.view == Resolved(g, engine.pool, f);
      DelayStays(g, engine.pool, f, event);
      propagated := [];
      own := Estimate(event.delay, 1.0);
      ran := event.delay == 0 || modelUp;
      if event.delay > 0 {
        if modelUp {
          own := predict(event.info, event.delay);
          propagated := engine.PropagateDelay(event.info.key, event.delay);
        }
      }
      RecordsStay(rs, a, Moves(a, engine.pool), was);
      engine.EventsStay(was);
    }

    /** Resolving does not touch the event's delay. */
    lemma DelayStays(g: Graph, pool: seq<string>, f: Flight, event: FlightEvent)
      requires engine.Valid() && g.Valid() && engine.view == Resolved(g, pool, f)
      requires f.info.key in engine.nodes.at && engine.nodes.at[f.info.key].event == event
      ensures event.delay == f.delay
    {
      hide Graph.Valid, Resolve, Moves;
      ProcessEventValid(g, f);
      engine.CopiesAgree(f.info.key);
      ResolveNode(ProcessEvent(g, f), pool, f.info.key);
    }

    /** The objects hold these flights. */
    ghost predicate Hold(es: seq<FlightEvent>, flights: seq<Flight>)
      reads es
    {
      |es| == |flights| && forall i :: 0 <= i < |es| ==> es[i].Value() == flights[i]
    }

    /** One message for every raised flight, as it is now. */
    method PublishRaised(source: string, propagated: seq<Touched>, ok: bool, p: Publishing, ghost before: seq<PredictionEvent>,
                         ghost msgs: seq<PredictionEvent>, ghost flights: seq<Flight>)
      returns (ok': bool)
      requires Hold(seq(|propagated|, i requires 0 <= i < |propagated| => propagated[i].event), flights)
      requires Sent(before, p, msgs, 1, ok) && 1 + |propagated| <= |msgs|
      requires forall i :: 0 <= i < |propagated| ==>
                 msgs[1 + i] == PredictionEvent(flights[i].info.flightId, flights[i], predict(flights[i].info, flights[i].delay),
                                                Some(source), Some(propagated[i].hops), None)
      modifies producer
      ensures Sent(before, p, msgs, 1 + |propagated|, ok')
    {
      ok' := ok;
      ghost var es := seq(|propagated|, i requires 0 <= i < |propagated| => propagated[i].event);
      for i := 0 to |propagated|
        invariant Hold(es, flights) && Sent(before, p, msgs, 1 + i, ok')
      {
        var e, hops := propagated[i].event, propagated[i].hops;
        assert es[i] == e && e.Value() == flights[i];
        ok' := Publish(PredictionEvent(e.info.flightId, e.Value(), predict(e.info, e.delay), Some(source), Some(hops), None),
                       ok', p, 1 + i, before, msgs);
      }
    }

    /** One message for every reassigned flight, as it is now. */
    method PublishReassigned(rs: seq<Reassignment>, ok: bool, p: Publishing, from: nat, ghost before: seq<PredictionEvent>,
                             ghost msgs: seq<PredictionEvent>, ghost flights: seq<Flight>)
      returns (ok': bool)
      requires Hold(seq(|rs|, j requires 0 <= j < |rs| => rs[j].event), flights)
      requires Sent(before, p, msgs, from, ok) && from + |rs| <= |msgs|
      requires forall j :: 0 <= j < |rs| ==>
                 msgs[from + j] == PredictionEvent(flights[j].info.flightId, flights[j], Estimate(flights[j].delay, 1.0),
                                                   None, None, Some(GateReassignment(rs[j].oldGate, rs[j].newGate)))
      modifies producer
      ensures Sent(before, p, msgs, from + |rs|, ok')
    {
      ok' := ok;
      ghost var es := seq(|rs|, j requires 0 <= j < |rs| => rs[j].event);
      for j := 0 to |rs|
        invariant Hold(es, flights) && Sent(before, p, msgs, from + j, ok')
      {
        var e := rs[j].event;
        assert es[j] == e && e.Value() == flights[j];
        ok' := Publish(PredictionEvent(e.info.flightId, e.Value(), Estimate(e.delay, 1.0), None, None,
                                       Some(GateReassignment(rs[j].oldGate, rs[j].newGate))),
                       ok', p, from + j, before, msgs);
      }
    }

    /** The reported objects hold the flights as the graph has them. */
    lemma ReportedHold(propagated: seq<Touched>, us: seq<Update>)
      requires engine.Agree() && engine.Reports(propagated, us)
      ensures forall i :: 0 <= i < |us| ==> us[i].key in engine.view.nodes.at
      ensures Hold(seq(|propagated|, i requires 0 <= i < |propagated| => propagated[i].event),
                   RaisedIn(engine.view, us))
    {
    }

    lemma ReassignedHold(rs: seq<Reassignment>, g: Graph, ms: seq<Move>)
      requires engine.Agree() && RecordsNow(rs, g, ms)
      ensures forall j :: 0 <= j < |ms| ==> ms[j].dst in engine.view.nodes.at && ms[j].dst in g.nodes.at
      ensures |rs| == |ms| && forall j :: 0 <= j < |ms| ==>
                GateMessage(g, engine.view, ms, j) ==
                PredictionEvent(engine.view.nodes.at[ms[j].dst].info.flightId, engine.view.nodes.at[ms[j].dst],
                                Estimate(engine.view.nodes.at[ms[j].dst].delay, 1.0), None, None,
                                Some(GateReassignment(rs[j].oldGate, rs[j].newGate)))
      ensures Hold(seq(|rs|, j requires 0 <= j < |rs| => rs[j].event),
                   MovedIn(engine.view, ms))
    {
    }

    /** Publish for the event, then for every raised flight, then for every
        reassigned one, with the flights as they are now. */
    method PublishTouched(event: FlightEvent, own: Estimate, rs: seq<Reassignment>, propagated: seq<Touched>, p: Publishing,
                          ghost a: Graph, ghost f: Flight, ghost us: seq<Update>, ghost ms: seq<Move>,
                          ghost msgs: seq<PredictionEvent>)
      returns (ok: bool)
      requires engine.Agree() && event.info == f.info
      requires Mentions(a, engine.view, f, us, ms) && msgs == MessagesFor(a, engine.view, f, us, ms, predict)
      requires own == if f.delay > 0 then predict(f.info, f.delay) else Estimate(f.delay, 1.0)
      requires RecordsNow(rs, a, ms) && engine.Reports(propagated, us)
      requires f.info.key in engine.nodes.at && engine.nodes.at[f.info.key].event == event
      modifies producer
      ensures Sent(old(producer.published), p, msgs, |msgs|, ok)
    {
      hide MessagesFor, Hold, GraphEngine.Agree, FlightEvent.Value, Sent, GateMessage, RecordsNow;
      ghost var before := producer.published;
      MessagesAre(a, engine.view, f, us, ms, predict);
      engine.CopiesAgree(f.info.key);
      ReportedHold(propagated, us);
      ReassignedHold(rs, a, ms);
      SentNone(before, p, msgs);
      ghost var raised, moved := RaisedIn(engine.view, us), MovedIn(engine.view, ms);
      var from := 1 + |propagated|;
      assert forall j :: 0 <= j < |ms| ==> msgs[from + j] == GateMessage(a, engine.view, ms, j);
      ok := Publish(PredictionEvent(event.info.flightId, event.Value(), own, None, None, None),
                    true, p, 0, before, msgs);
      ok := PublishRaised(event.info.flightId, propagated, ok, p, before, msgs, raised);
      ok := PublishReassigned(rs, ok, p, from, before, msgs, moved);
    }

    lemma SentNone(before: seq<PredictionEvent>, p: Publishing, msgs: seq<PredictionEvent>)
      requires producer.published == before
      ensures Sent(before, p, msgs, 0, true)
    {
    }

    /** What one message does: without the model a delayed event stops after its
        gates were resolved and publishes nothing; otherwise the graph is handled
        in full and the messages go out in order up to the first failure. */
    ghost predicate Outcome(g: Graph, f: Flight, modelUp: bool, before: seq<PredictionEvent>, p: Publishing, success: bool)
      reads engine, producer
      requires g.Valid()
    {
      if f.delay > 0 && !modelUp then
        !success && producer.published == before && engine.view == Resolved(g, engine.pool, f)
      else
        var msgs := Messages(g, engine.pool, f, predict);
        && engine.view == Handle(g, engine.pool, f)
        && (success <==> p.good >= |msgs|)
        && producer.published == before + msgs[..Reached(p, |msgs|)]
    }

    /** Handle one message: change the graph, then publish one prediction for the
        event, for every raised flight and for every reassigned one. */
    method Process(event: FlightEvent, modelUp: bool, p: Publishing) returns (success: bool)
      requires engine.Valid()
      modifies this`eventsProcessed, this`eventsFailed, engine, engine.Events(), event, producer
      ensures engine.Valid()
      ensures Outcome(old(engine.view), old(event.Value()), modelUp, old(producer.published), p, success)
      ensures eventsProcessed == old(eventsProcessed) + (if success then 1 else 0)
      ensures eventsFailed == old(eventsFailed) + (if success then 0 else 1)
      ensures old(event.delay) > 0 && !modelUp ==> !success && producer.published == old(producer.published)
      ensures engine.Events() <= old(engine.Events()) + {event}
    {
      hide Graph.Valid, Handle, Resolved, Updates, Moves, Graphs.ProcessEvent, MessagesFor, Reached, Mentions, RecordsNow,
           GraphEngine.Reports, GraphEngine.Agree;
      ghost var g, f, pool := engine.view, event.Value(), engine.pool;
      HandleMentions(g, pool, f);
      var ran, own, rs, propagated := MutateGraph(event, modelUp);
      success := ran;
      if ran {
        success := PublishTouched(event, own, rs, propagated, p, ProcessEvent(g, f), f,
                                  Updates(g, pool, f), Moves(ProcessEvent(g, f), pool), Messages(g, pool, f, predict));
      }
      if success {
        eventsProcessed := eventsProcessed + 1;
      } else {
        eventsFailed := eventsFailed + 1;
      }
    }

    /** What handling a message well means: the graph is handled in full and exactly
        its messages went out; and what it means to fail: without the model nothing
        goes out, and otherwise a beginning of the messages does. */
    lemma OutcomeMeans(g: Graph, f: Flight, modelUp: bool, before: seq<PredictionEvent>, p: Publishing, success: bool)
      requires g.Valid() && Outcome(g, f, modelUp, before, p, success)
      ensures success ==> engine.view == Handle(g, engine.pool, f)
      ensures success ==> producer.published == before + Messages(g, engine.pool, f, predict)
      ensures f.delay > 0 && !modelUp ==> !success && producer.published == before
      ensures exists n :: 0 <= n <= |Messages(g, engine.pool, f, predict)|
                          && producer.published == before + Messages(g, engine.pool, f, predict)[..n]
    {
      hide Graph.Valid, Handle, Resolved, Messages;
      var msgs := Messages(g, engine.pool, f, predict);
      var n := if f.delay > 0 && !modelUp then 0 else Reached(p, |msgs|);
      assert before + msgs[..0] == before && msgs[..|msgs|] == msgs;
      assert producer.published == before + msgs[..n];
    }
  }

  // ---- the worker ----

  /** The bytes of one processed-flights message. */
  datatype Incoming = Envelope(info: Info, gate: Option<string>, delay: int, etype: EventType) | Unparseable

  function FlightIn(m: Incoming): Flight
    requires m.Envelope?
  {
    Flight(m.info, m.gate, if m.delay < 0 then 0 else m.delay, m.etype)
  }

  /** The graph after one message; `modelUp` says whether the model answers. */
  function Absorb(g: Graph, pool: seq<string>, m: Incoming, modelUp: bool): (h: Graph)
    requires g.Valid()
    ensures h.Valid()
  {
    if m.Unparseable? then g
    else if FlightIn(m).delay > 0 && !modelUp then Resolved(g, pool, FlightIn(m))
    else Handle(g, pool, FlightIn(m))
  }

  /** In terms of the message's own fields: bytes that do not parse leave the graph
      alone; an envelope's flight is in the graph with its data and its delay, a
      negative one lifted to zero, also when the model is down, and at its gate unless
      someone was linked to it by gate_reuse or stood at that gate. */
  lemma AbsorbTakes(g: Graph, pool: seq<string>, m: Incoming, modelUp: bool)
    requires g.Valid()
    ensures m.Unparseable? ==> Absorb(g, pool, m, modelUp) == g
    ensures m.Envelope? ==>
              && m.info.key in Absorb(g, pool, m, modelUp).nodes.at
              && var now := Absorb(g, pool, m, modelUp).nodes.at[m.info.key];
                 && now.info == m.info && now.etype == m.etype && now.delay == (if m.delay < 0 then 0 else m.delay)
                 && ((forall u :: u in g.nodes.at && u != m.info.key ==>
                        g.nodes.at[u].gate != m.gate && g.KindOf(u, m.info.key) != Some(GateReuse)) ==>
                       now.gate == m.gate)
  {
    hide Graph.Valid, Handle, Resolve, Graphs.ProcessEvent;
    if m.Envelope? {
      var f := Flight(m.info, m.gate, if m.delay < 0 then 0 else m.delay, m.etype);
      HandledFlight(g, pool, f, m.info.key);
      HandledGate(g, pool, f, m.info.key);
      ProcessEventValid(g, f);
      ArrivedNode(g, f, m.info.key);
      ResolvedGate(Graphs.ProcessEvent(g, f), pool, m.info.key);
      forall u | u in Graphs.ProcessEvent(g, f).nodes.at && Graphs.ProcessEvent(g, f).KindOf(u, m.info.key) == Some(GateReuse)
        ensures u in g.nodes.at && u != m.info.key
        ensures g.KindOf(u, m.info.key) == Some(GateReuse) || g.nodes.at[u].gate == m.gate
      {
        ProcessEventEdge(g, f, u, m.info.key);
        NoLoop(Graphs.ProcessEvent(g, f), u, m.info.key);
        ArrivedNode(g, f, u);
      }
    }
  }

  lemma NoLoop(g: Graph, u: Key, v: Key)
    requires g.Valid() && g.KindOf(u, v) == Some(GateReuse)
    ensures u != v
  {
  }

  function AbsorbAll(g: Graph, pool: seq<string>, ms: seq<Incoming>, modelUp: seq<bool>): (h: Graph)
    requires g.Valid() && |modelUp| == |ms|
    ensures h.Valid()
  {
    if ms == [] then g
    else Absorb(AbsorbAll(g, pool, ms[..|ms| - 1], modelUp[..|ms| - 1]), pool, ms[|ms| - 1], modelUp[|ms| - 1])
  }

  /** How the awaits of one message end. */
  datatype Turn = Turn(
    modelUp: bool,
    publishing: Publishing,
    delivery: Protocol.Delivery, deliveryApplied: bool,
    commit: bool, commitApplied: bool)
  {
    predicate Fair() {
      (delivery.Delivered? ==> deliveryApplied) && (commit ==> commitApplied)
    }
  }

  /** The message is handled without a failure: it parses, the model answers if the
      event is delayed, and all its predictions go out. */
  ghost predicate Succeeds(g: Graph, pool: seq<string>, predict: Predictor, m: Incoming, turn: Turn)
    requires g.Valid()
  {
    && m.Envelope? && (FlightIn(m).delay > 0 ==> turn.modelUp)
    && turn.publishing.good >= |Messages(g, pool, FlightIn(m), predict)|
  }

  lemma MustFail(g: Graph, pool: seq<string>, predict: Predictor, m: Incoming, turn: Turn)
    requires g.Valid() && (m.Envelope? ==> m.delay > 0 && !turn.modelUp)
    ensures !Succeeds(g, pool, predict, m, turn)
  {
  }

  class DelayPropagationWorker {
    const processor: DelayPropagationProcessor
    var position: nat
    var committed: nat
    var errorsProcessed: nat
    var deadLetters: seq<nat>
    var dropped: seq<nat>
    ghost var done: set<nat>

    constructor (processor: DelayPropagationProcessor)
      ensures this.processor == processor && position == committed == errorsProcessed == 0
      ensures deadLetters == [] && dropped == [] && Valid()
    {
      this.processor, position, committed, errorsProcessed, deadLetters, dropped := processor, 0, 0, 0, [], [];
      done := {};
    }

    /** Every committed message was processed, or dead-lettered, or had its
        dead-letter publish reported failed; at most one more was taken. */
    ghost predicate Valid()
      reads this
    {
      && committed <= position <= committed + 1
      && (forall o :: 0 <= o < committed ==> o in done || o in deadLetters || o in dropped)
    }

    /** A new consumer and a new failure handler. */
    method Start()
      requires Valid()
      modifies this
      ensures Valid() && position == committed == old(committed) && errorsProcessed == 0
      ensures deadLetters == old(deadLetters) && dropped == old(dropped) && done == old(done)
    {
      position, errorsProcessed := committed, 0;
    }

    /** A failure is counted, and dead-lettered as the await goes. */
    method HandleFailure(offset: nat, turn: Turn) returns (raised: bool)
      requires turn.Fair()
      modifies this`errorsProcessed, this`deadLetters, this`dropped
      ensures raised == turn.delivery.Raised? && errorsProcessed == old(errorsProcessed) + 1
      ensures deadLetters == if turn.deliveryApplied then old(deadLetters) + [offset] else old(deadLetters)
      ensures dropped == if turn.delivery.Swallowed? then old(dropped) + [offset] else old(dropped)
    {
      errorsProcessed := errorsProcessed + 1;
      if turn.deliveryApplied {
        deadLetters := deadLetters + [offset];
      }
      if turn.delivery.Swallowed? {
        dropped := dropped + [offset];
      }
      raised := turn.delivery.Raised?;
    }

    /** Parse and process one message. */
    method Try(m: Incoming, turn: Turn) returns (success: bool)
      requires processor.engine.Valid()
      modifies processor`eventsProcessed, processor`eventsFailed, processor.engine, processor.engine.Events(), processor.producer
      ensures processor.engine.Valid()
      ensures processor.engine.view == Absorb(old(processor.engine.view), processor.engine.pool, m, turn.modelUp)
      ensures success <==> Succeeds(old(processor.engine.view), processor.engine.pool, processor.predict, m, turn)
      ensures processor.eventsProcessed == old(processor.eventsProcessed) + if success then 1 else 0
      ensures forall e :: e in processor.engine.Events() ==> e in old(processor.engine.Events()) || fresh(e)
    {
      hide Graph.Valid, Resolved, Handle, Messages;
      success := false;
      if m.Envelope? {
        var event := new FlightEvent(m.info, m.gate, m.delay, m.etype);
        success := processor.Process(event, turn.modelUp, turn.publishing);
      }
    }

    /** Dead-letter a failed message, and commit unless that raised. */
    method Finish(offset: nat, success: bool, turn: Turn) returns (crashed: bool)
      requires committed == offset && position == offset + 1 && turn.Fair()
      requires forall o :: 0 <= o < committed ==> o in done || o in deadLetters || o in dropped
      modifies this
      ensures Valid() && position == old(position)
      ensures errorsProcessed == old(errorsProcessed) + (if success then 0 else 1)
      ensures deadLetters == (if !success && turn.deliveryApplied then old(deadLetters) + [offset] else old(deadLetters))
      ensures dropped == (if !success && turn.delivery.Swallowed? then old(dropped) + [offset] else old(dropped))
      ensures crashed <==> (!success && turn.delivery.Raised?) || !turn.commit
      ensures committed == old(committed) + if (success || !turn.delivery.Raised?) && turn.commitApplied then 1 else 0
    {
      if success {
        done := done + {offset};
      } else {
        crashed := HandleFailure(offset, turn);
        if crashed {
          return;
        }
      }
      if turn.commitApplied {
        committed := position;
      }
      crashed := !turn.commit;
    }

    /** One message: process it, dead-letter it if that failed, and commit either
        way.  Which of the three happened to it is known exactly. */
    method HandleMessage(m: Incoming, turn: Turn) returns (crashed: bool)
      requires processor.engine.Valid() && Valid() && position == committed && turn.Fair()
      modifies this, processor`eventsProcessed, processor`eventsFailed, processor.engine, processor.engine.Events(),
               processor.producer
      ensures processor.engine.Valid() && Valid() && position == old(position) + 1
      ensures processor.engine.view == Absorb(old(processor.engine.view), processor.engine.pool, m, turn.modelUp)
      ensures var success := Succeeds(old(processor.engine.view), processor.engine.pool, processor.predict, m, turn);
        && processor.eventsProcessed == old(processor.eventsProcessed) + (if success then 1 else 0)
        && errorsProcessed == old(errorsProcessed) + (if success then 0 else 1)
        && deadLetters == (if !success && turn.deliveryApplied then old(deadLetters) + [old(position)] else old(deadLetters))
        && dropped == (if !success && turn.delivery.Swallowed? then old(dropped) + [old(position)] else old(dropped))
        && (crashed <==> (!success && turn.delivery.Raised?) || !turn.commit)
        && committed == old(committed) + if (success || !turn.delivery.Raised?) && turn.commitApplied then 1 else 0
      ensures (m.Unparseable? || (m.delay > 0 && !turn.modelUp)) && turn.deliveryApplied ==>
                deadLetters == old(deadLetters) + [old(position)]
      ensures forall e :: e in processor.engine.Events() ==> e in old(processor.engine.Events()) || fresh(e)
    {
      hide Graph.Valid, Absorb, Succeeds;
      if m.Unparseable? || (m.delay > 0 && !turn.modelUp) {
        MustFail(processor.engine.view, processor.engine.pool, processor.predict, m, turn);
      }
      var success := Try(m, turn);
      position := position + 1;
      crashed := Finish(position - 1, success, turn);
    }

    /** Consume from the position on, until the turns or the messages are over or
        the worker crashes.  The graph takes every message it took, whether or not
        its predictions went out. */
    method Run(log: seq<Incoming>, turns: seq<Turn>) returns (crashed: bool)
      requires processor.engine.Valid() && Valid() && position == committed <= |log|
      requires forall i :: 0 <= i < |turns| ==> turns[i].Fair()
      modifies this, processor`eventsProcessed, processor`eventsFailed, processor.engine, processor.engine.Events(),
               processor.producer
      ensures processor.engine.Valid() && Valid() && old(position) <= position <= |log|
      ensures position - old(position) <= |turns|
      ensures processor.engine.view ==
              AbsorbAll(old(processor.engine.view), processor.engine.pool, log[old(position)..position],
                        Models(turns[..position - old(position)]))
      ensures !crashed ==> position == committed && (position == |log| || position == old(position) + |turns|)
      ensures processor.eventsProcessed + errorsProcessed ==
              old(processor.eventsProcessed) + old(errorsProcessed) + position - old(position)
    {
      hide Graph.Valid, Absorb, AbsorbAll, Succeeds, GraphEngine.Agree, Models;
      ghost var g, pool := processor.engine.view, processor.engine.pool;
      var from := position;
      AbsorbNone(g, pool);
      assert log[from..from + 0] == [] && turns[..0] == [] && Models([]) == [];
      for i := 0 to |turns|
        invariant processor.engine.Valid() && g.Valid() && Valid() && position == committed == from + i <= |log|
        invariant processor.engine.view == AbsorbAll(g, pool, log[from..from + i], Models(turns[..i]))
        invariant processor.eventsProcessed + errorsProcessed == old(processor.eventsProcessed) + old(errorsProcessed) + i
        invariant forall e :: e in processor.engine.Events() ==> e in old(processor.engine.Events()) || fresh(e)
      {
        if position == |log| {
          return false;
        }
        AbsorbNext(g, pool, log, turns, from, i);
        crashed := HandleMessage(log[position], turns[i]);
        if crashed {
          return;
        }
      }
      crashed := false;
    }
  }

  /** When the model answers, turn by turn. */
  function Models(turns: seq<Turn>): (r: seq<bool>)
    ensures |r| == |turns| && forall i :: 0 <= i < |turns| ==> r[i] == turns[i].modelUp
  {
    seq(|turns|, i requires 0 <= i < |turns| => turns[i].modelUp)
  }

  lemma {:induction false} AbsorbNone(g: Graph, pool: seq<string>)
    requires g.Valid()
    ensures AbsorbAll(g, pool, [], []) == g
  {
  }

  lemma AbsorbNext(g: Graph, pool: seq<string>, log: seq<Incoming>, turns: seq<Turn>, from: nat, i: nat)
    requires g.Valid() && from + i < |log| && i < |turns|
    ensures AbsorbAll(g, pool, log[from..from + i + 1], Models(turns[..i + 1])) ==
            Absorb(AbsorbAll(g, pool, log[from..from + i], Models(turns[..i])), pool, log[from + i], turns[i].modelUp)
  {
    hide Absorb, Graph.Valid;
    assert log[from..from + i + 1][..i] == log[from..from + i];
    assert Models(turns[..i + 1])[..i] == Models(turns[..i]);
  }
}

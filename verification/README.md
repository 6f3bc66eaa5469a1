# A verified model of the flight delay pipeline

The system ingests flight events, persists them through a pool of workers, and
keeps one in-memory dependency graph of flights from which delays and gate
conflicts are worked out. This project models its four stateful cores in Dafny
and proves what they guarantee.

**The graph** (`Flights`, `Dicts`, `Graphs`, `Gates`, `GateSupply`, `Decay`,
`Propagation`, `Distances`, `Delays`, `ClosedForm`, `Visiting`, `Settling`,
`Engine`, `Steps`). A graph is a value whose nodes and edges remember their insertion
order, as a networkx DiGraph does. `Engine` holds the mutable engine: node
attributes, adjacency and shared event objects, written by the loops of the
original and tied by a ghost `view` to the value; every method's new view is a
function of the old one, and the properties are proved of those functions. The
order matters: the breadth-first search visits neighbours in it, and the
allocator meets edges in it.

**The graph worker** (`Predictions`, `Redelivery`, `RedeliveryGap`, `GateGap`). One message
inserts an event, resolves gate conflicts, propagates a delay, and publishes one
prediction per touched flight.

**The persistence pool** (`Writer`, `Protocol`, `Delivery`, `Counting`,
`Draining`, `Convergence`, `Interference`, `Turns`, `Fates`, `Workers`, `Loops`,
`Restart`). `Protocol` is a state machine with one step per await: any number of workers and
partitions, every await free to succeed, fail, or fail after taking effect, a
crash between any two steps, idempotency keys that vanish at any time. The
theorems about N workers are theorems about this machine. `Workers` is the code
of one worker, from the event processor up to the supervised loop; before each of
its awaits takes effect, arbitrary steps of all other workers, of the producers
and of the key store happen to the shared services (`Interference`). Each method
is proved to take, among those steps, the protocol's steps for its own worker
(`Turns`), `Fates` tells the outcome of a message by how its awaits end, and
`Loops` shows that the whole is a run of the machine, so every theorem about runs
holds of the code of each worker among the others. `Restart` follows a flight from
the write through active_flights to the load.

**The cache** (`Cache`, `Staleness`). The cache-aside code over an expiring
store, with anything other calls do between its awaits, and concurrent calls of it
as a timed state machine; a call of the code is shown to be a run of the machine.

## What the proofs found

- A redelivered message does not always re-derive the same graph, as the comment
  at `flight_tracker/workers/delay_propagation_worker.py:92-98` says it does. It
  fails in two ways. Delays: a flight is popped from the queue with the delay it
  was first enqueued with, so what a later flight raises it to does not travel
  further in that run; `RedeliveryGap.TwiceIsNotOnce` is a run of four flights in
  which a message leaves a flight 56 minutes late and its redelivery leaves it 562.
  Gates: the first delivery moves the flight away together with those it conflicts
  with, and the second finds its old gate empty; right after startup the event of
  the first of any group of conflicting flights that
  `flight_tracker/server.py:280` loads is such a message (`GateGap.LoadedFails`,
  `GateGap.TwiceIsNotOnceAfterLoad`). `Redelivery.RedeliveryExact` gives, for every
  graph, the exact condition on the graph the second delivery meets: for gates and
  edges `Repeats`, in closed form after a delivery that found enough gates
  (`Redelivery.RepeatsAfterEnough`), and for delays that every edge along the
  visiting order holds. Both halves hold where no gate_reuse edge was outstanding
  and prior delays were dominated (`Redelivery.RedeliveryDominated`).
- A cached value can be wrong for longer than its TTL, which
  `flight_tracker/cache/redis_cache.py:4-9` and
  `flight_tracker/db/DATABASE_DESIGN.md:51-53` give as the bound. The bound is the
  TTL plus the time the entry took from load to set, and it is tight even when
  the key is invalidated after the database changed
  (`Staleness.AnswersAreRecent`, `Staleness.BoundIsTight`); the TTL alone is the bound
  exactly for entries stored at the instant they were loaded
  (`Staleness.TtlAloneIffNoGap`).
- The pool's failure total is that of the present failure handlers only; a
  restart takes the worker's failures out of it (`Counting.RestartForgetsErrors`).
- The schedule columns of an active flight are those of the first event written
  for it, so they depend on arrival order exactly when events disagree on them
  (`Writer.ScheduleConvergesExactly`).

## Model

| member | source | states |
|---|---|---|
| Graphs.ProcessEventEdge | flight_tracker/graph/engine.py:32-51 | After an event arrives, the type of every edge: only edges into the new flight from other existing flights are written, a gate conflict wins over an aircraft turn, and all other edges, including those of earlier versions of the flight, stay. |
| Graphs.ProcessEventOrder | flight_tracker/graph/engine.py:18-51 | A known flight keeps its place among the nodes and a new one goes to the end, and so does the edge to it among the edges of every other flight. |
| Flights.OverlapsIsShared | flight_tracker/graph/engine.py:49 | Two windows meet exactly when some instant lies in both, the end points of each included. |
| Graphs.ProcessEventCovers | flight_tracker/graph/engine.py:32-51 | Inserting keeps every conflicting pair joined by a gate_reuse edge, so no conflict escapes the resolver. |
| Graphs.PruneExact | flight_tracker/graph/engine.py:138-164 | Pruning keeps exactly the flights that are not landed, or whose actual arrival, or for want of one scheduled arrival, is at or after the cutoff; they are unchanged, with exactly the edges among them. |
| Graphs.PruneInOrder | flight_tracker/graph/engine.py:161-162 | The flights that pruning keeps stay in their order. |
| Graphs.LoadExact | flight_tracker/graph/engine.py:69-87 | For rows with distinct keys the loaded edge from row i to row j is gate_reuse if i precedes j and they conflict, else aircraft_turn if i precedes j and they share an aircraft, else absent. |
| Engine.LoadedColumns | flight_tracker/graph/engine.py:69-87 | Column by column, what a load makes of the last row of a flight: each field of the event, None for the actual arrival, and the event type that the delay gives. |
| Graphs.LoadAcyclic | flight_tracker/graph/engine.py:69-87 | No walk of positive length in a loaded graph returns to its start. |
| Graphs.LoadCovers | flight_tracker/graph/engine.py:69-87 | A load into any covered graph leaves every conflict joined by a gate_reuse edge. |
| Gates.FirstFree | flight_tracker/graph/engine.py:207-211 | Recomputing the free gates after n were handed out and taking the first yields the n-th distinct free gate in pool order, and there is none exactly when n gates exhausted them. |
| Gates.GreedyIsMoves | flight_tracker/graph/engine.py:191-234 | Handing out the first gate still free edge by edge gives min(clashing edges, distinct free gates) reassignments, the i-th clashing edge in edge order getting the i-th distinct free gate in pool order. |
| Gates.MovesTakeEarliest | flight_tracker/graph/engine.py:207-221 | Every reassignment takes the earliest gate of the pool that no flight held before the call and no earlier reassignment took, and when they are over no clashing edge or no such gate is left. |
| Gates.ServedInOrder | flight_tracker/graph/engine.py:191-211 | Clashing edges are served by source in node order and then by target in the order the source's edges were inserted: the reassignments follow it, and a clashing edge that got no gate comes after all that did. |
| Gates.ResolveTurn | flight_tracker/graph/engine.py:191-234 | Each turn of the loop over the edge snapshot, seen from the edges and gates passed so far, makes precisely the next of those reassignments or none. |
| Gates.NewGateIsOwn | flight_tracker/graph/engine.py:211-223 | Another flight ends at the gate of a reassigned one only if that gate is the empty name, which never counts as used, and the other flight had it all along. |
| Gates.ConflictsNeverGrow | flight_tracker/graph/engine.py:183-236 | A pair in conflict after the call was in conflict before it and neither flight was moved. |
| Gates.DroppedExactly | flight_tracker/graph/engine.py:227 | The call removes exactly the first clashing edges, as many as there are reassignments, and no other edge. |
| Gates.SurvivorMeansExhausted | flight_tracker/graph/engine.py:207-209 | An overlapping gate_reuse edge survives only if every pool gate was in use before the call or handed out during it. |
| Gates.ResolveCovers | flight_tracker/graph/engine.py:183-236 | However few gates there are, every remaining conflict stays joined by a gate_reuse edge. |
| Gates.EnoughResolvesAll | flight_tracker/graph/engine.py:183-236 | With at least as many distinct free gates as clashing edges, one call on a covered graph leaves no conflict, and no gate_reuse edge if those all overlapped. |
| Gates.EnoughLeavesNone | flight_tracker/graph/engine.py:183-236 | With enough gates, one call on any graph leaves no gate_reuse edge between overlapping flights. |
| GateSupply.ArrivalClashes | flight_tracker/graph/engine.py:32-51 | When every overlapping gate_reuse edge is a live conflict with the arriving flight, the clashing edges after its arrival are those from the flights that conflict with it, in node order. |
| GateSupply.TwiceTheFlightsIsEnough | flight_tracker/graph/engine.py:183-209 | A pool of twice as many distinct gates as flights always suffices for the call that follows an arrival. |
| Steps.EveryRunCovers | flight_tracker/workers/delay_propagation_worker.py:139-169 | In every graph reachable from the empty one by messages, propagations, prunes and loads, every conflict is joined by a gate_reuse edge. |
| Steps.HandledFlight | flight_tracker/workers/delay_propagation_worker.py:139-170 | What one message does to any flight: the event's flight has the event's data and delay, every other is still there and no less delayed, only a positive delay changes other delays, a gate changes only to one of the pool and only where a gate_reuse edge leads, and nothing else changes. |
| Steps.HandledSpread | flight_tracker/workers/delay_propagation_worker.py:163-170 | Every flight that a message's delay reaches ends with at least what its distance leaves of it. |
| Steps.EnoughMakesSafe | flight_tracker/workers/delay_propagation_worker.py:139-149 | After any run, loads and shortages included, a message that finds enough gates leaves no two flights at one gate in overlapping windows and no gate_reuse edge between overlapping flights. |
| Steps.EnoughRunsAreSafe | flight_tracker/workers/delay_propagation_worker.py:139-149 | If each message's resolve call finds at least as many unused distinct gates as clashing edges, no state of any run of messages, propagations and prunes holds a conflict or a gate_reuse edge. |
| Steps.AmpleRunsAreSafe | flight_tracker/workers/delay_propagation_worker.py:139-149 | A pool of twice as many distinct gates as flights at each message is such a run, so it is safe throughout. |
| Steps.LoadThenResolve | flight_tracker/graph/engine.py:69-87 | Loading rows with distinct keys and resolving once with enough gates leaves no conflict and no gate_reuse edge. |
| Decay.RoundingLoss | flight_tracker/graph/engine.py:122 | k hops of truncating three-quarters lose less than three minutes against the exact d0*(3/4)^k and never gain. |
| Decay.DiesOut | flight_tracker/graph/engine.py:122 | The delay is zero once 4^k exceeds d0*3^k. |
| Distances.PopsAtDistance | flight_tracker/graph/engine.py:109-113 | A node popped for the first time carries its true hop distance from the source, on any graph. |
| Distances.FinalDistances | flight_tracker/graph/engine.py:109-136 | The visited nodes are exactly the reachable ones, each with its distance. |
| Delays.PropagationBounds | flight_tracker/graph/engine.py:109-136 | For any prior delays: no delay falls, a changed flight changes in delay and event type only, the source and unreachable flights never change, each reachable flight ends with at least its distance's share of the source delay, and a raised delay is at most three quarters of the largest delay around. |
| Delays.PropagationReport | flight_tracker/graph/engine.py:124-136 | The returned list names exactly the raised flights, in non-decreasing hop order, each with its distance or one more. |
| ClosedForm.PropagationExact | flight_tracker/graph/engine.py:109-136 | When no reachable prior delay exceeds its distance's share, every reachable flight ends with exactly that share and everything else is unchanged, on any graph including cyclic ones. |
| ClosedForm.ReportExact | flight_tracker/graph/engine.py:124-136 | In that case the list holds each changed flight exactly once, with its distance. |
| ClosedForm.NothingBeyondRadius | flight_tracker/graph/engine.py:122-133 | With no prior delays, no flight beyond the hop radius at which the delay dies out is reported. |
| Settling.ForwardEdgesHold | flight_tracker/graph/engine.py:109-135 | After any run, along every edge to a node visited later the later flight has at least what the earlier one was popped with and passes on. |
| Settling.QuietIffSettled | flight_tracker/graph/engine.py:109-136 | A run reports nothing, and changes nothing, if and only if along the visiting order every edge to a later flight already holds for the present delays. |
| Visiting.SearchVisitsInOrder | flight_tracker/graph/engine.py:104-118 | Whatever the delays, a run visits exactly the flights of the visiting order, a function of the edges and the source alone, each at its place in it. |
| Visiting.BreadthFirst | flight_tracker/graph/engine.py:104-118 | The visiting order is the breadth-first one and no other: it begins at the source, each later flight stands after the first one that leads to it, and flights stand in the order of these, or for the same one in the order in which its edges were inserted. |
| Settling.DominatedSettles | flight_tracker/graph/engine.py:109-136 | A run on a graph of dominated delays leaves one that a further run does not change. |
| Settling.ReplayConverges | flight_tracker/graph/engine.py:109-136 | Repeating a propagation reaches a fixed graph within number of flights times largest delay runs. |
| Settling.RunRaisesTotal | flight_tracker/graph/engine.py:124-133 | A run that reports an update strictly raises the total delay, which stays bounded. |
| Settling.PropagationTurns | flight_tracker/graph/engine.py:104-136 | The loop runs at most one plus the number of edges times. |
| Engine.FlightEvent.constructor | flight_tracker/models/events.py:52-55 | A negative delay is lifted to zero. |
| Engine.GraphEngine.Unshared | flight_tracker/graph/engine.py:18-31 | In every valid engine two nodes never share one event object. |
| Engine.GraphEngine.CopiesAgree | flight_tracker/graph/engine.py:126-133 | Node attributes and event object of a node agree on delay, gate and the fixed fields. |
| Engine.GraphEngine.AddFlight | flight_tracker/graph/engine.py:18-31 | The node is overwritten in place or appended, with a copy of the event's attributes, and its edges are kept. |
| Engine.GraphEngine.AddEdgesForFlight | flight_tracker/graph/engine.py:32-51 | The scan over all nodes links each of them as the whole-graph relation says. |
| Engine.GraphEngine.ProcessEvent | flight_tracker/graph/engine.py:89-91 | The new graph is that of the value-level arrival, with both copies in agreement, and the kind of the edge from every node is told by that node's own attributes. |
| Engine.GraphEngine.RelaxNeighbor | flight_tracker/graph/engine.py:116-135 | One neighbour is relaxed as in the value-level search, in the node, the event object, the queue and the report. |
| Engine.GraphEngine.PropagateDelay | flight_tracker/graph/engine.py:94-136 | The queue loop computes the propagated graph and the reported flights, keeping both copies in agreement. |
| Engine.GraphEngine.ResolveEdge | flight_tracker/graph/engine.py:191-234 | One edge of the snapshot is handled, the graph mutated under it, without losing track of the original snapshot. |
| Engine.GraphEngine.ResolveGateConflicts | flight_tracker/graph/engine.py:183-236 | The loop makes exactly the reassignments of the whole call; by its records, each new gate is the earliest free one of the pool, each old gate is the one before, every flight ends with the gate of its last record, each record stands for one overlapping gate_reuse edge that is gone, and where one is left every pool gate is taken. |
| Engine.GraphEngine.PruneExpiredFlights | flight_tracker/graph/engine.py:138-164 | The returned flights are exactly the landed ones whose actual or else scheduled arrival is before the cutoff, in node order, and they are removed. |
| Engine.GraphEngine.LoadFromDb | flight_tracker/graph/engine.py:69-87 | The loop over rows builds the graph of its events arriving one by one, and the event object of each flight holds the columns of its last row. |
| Redelivery.RedeliveryExact | flight_tracker/workers/delay_propagation_worker.py:92-98 | For every graph: a second delivery changes nothing if and only if the graph it meets repeats, and is settled for the event if that carries a delay. |
| Redelivery.RepeatExact | flight_tracker/workers/delay_propagation_worker.py:139-149 | On any graph that holds the event, inserting and resolving it again changes nothing exactly when the clashing edges that get a gate are new ones into the flight, the last such gate (or the message's) is the one it has, and whoever else conflicts with it at the message's gate or just shares its aircraft is linked to it that way. |
| Redelivery.RepeatsAfterEnough | flight_tracker/workers/delay_propagation_worker.py:139-149 | After a first delivery that found enough gates that is so exactly when there are free gates for all flights still in conflict at the message's gate, the last of them (or with none the message's gate) is the one the flight has, and whoever just shares its aircraft is linked to it. |
| Redelivery.LinkedRepeats | flight_tracker/workers/delay_propagation_worker.py:139-149 | It is so whenever every overlapping gate_reuse edge outstanding at the first delivery was a live conflict with the event, in particular when there was none, also when gates ran out. |
| Redelivery.RedeliveryDominated | flight_tracker/workers/delay_propagation_worker.py:92-98 | When moreover prior delays were dominated, processing one message twice in a row is processing it once. |
| GateGap.LinkedToAllFails | flight_tracker/workers/delay_propagation_worker.py:92-98 | On no graph where the flight is already linked to all it conflicts with, and conflicts with someone, is a delivery that finds enough gates repeated without change. |
| GateGap.LoadedFails | flight_tracker/graph/engine.py:69-87 | After a load, the event of the first of a group of conflicting rows is such a message. |
| GateGap.TwiceIsNotOnceAfterLoad | flight_tracker/workers/delay_propagation_worker.py:92-98 | Two conflicting flights are loaded and the first one's own event, not even delayed, is delivered twice: the graph changes the second time. |
| RedeliveryGap.TwiceIsNotOnce | flight_tracker/workers/delay_propagation_worker.py:92-98 | A run from the empty graph after which one delivery of a message leaves a flight 56 minutes late and a second one 562. |
| Predictions.Messages | flight_tracker/workers/delay_propagation_worker.py:177-232 | Exactly one message for the event, one per reported propagation and one per reassignment. |
| Predictions.FirstMessage | flight_tracker/workers/delay_propagation_worker.py:150-181 | The first message is the event's own, with the flight as it ends the step and the model's answer for its delay, or zero for certain, and without source, hops or reassignment. |
| Predictions.SpreadMessages | flight_tracker/workers/delay_propagation_worker.py:183-208 | The next messages are those of the reported flights in order, each with the model's answer for the delay the flight ends with, the event's flight_id as source and the reported hops. |
| Predictions.GateMessages | flight_tracker/workers/delay_propagation_worker.py:210-232 | The last messages are those of the reassignments in order, each with the delay as it is, for certain, the gate given and the gate before it. |
| Predictions.CompleteDiff | flight_tracker/workers/delay_propagation_worker.py:177-232 | A consumer that overwrites its entry per published flight and knew the graph's flights before the step equals the graph's flights after it. |
| Predictions.DiffOverRun | flight_tracker/workers/delay_propagation_worker.py:177-232 | Over any run of messages and prunes whose publishes succeed, that consumer agrees with the graph on every flight still in it. |
| Predictions.PartialDiff | flight_tracker/workers/delay_propagation_worker.py:250-262 | When publishing stops part of the way, that consumer is right about a flight exactly if it was told of it or the step left the flight alone. |
| Predictions.DelayPropagationProcessor.PublishTouched | flight_tracker/workers/delay_propagation_worker.py:177-232 | The three publishing stages send the messages in order, with the flights as they are at the end of the step, up to the first failure, whose message goes out or not. |
| Predictions.DelayPropagationProcessor.Process | flight_tracker/workers/delay_propagation_worker.py:125-262 | The graph, the published messages, the answer and the two counters after one message, also when the model or a publish fails, before or after it took effect. |
| Predictions.DelayPropagationProcessor.OutcomeMeans | flight_tracker/workers/delay_propagation_worker.py:125-262 | Success means the graph was handled in full and exactly its messages went out; without the model a delayed event fails and publishes nothing; otherwise a beginning of the messages goes out. |
| Predictions.AbsorbTakes | flight_tracker/workers/delay_propagation_worker.py:369-385 | By the message's own fields: unparseable bytes leave the graph alone; an envelope's flight is in it with its data and its delay lifted to zero, also when the model is down, and at its gate unless someone was linked to it or stood there. |
| Predictions.DelayPropagationWorker.HandleMessage | flight_tracker/workers/delay_propagation_worker.py:369-396 | A message fails exactly when it does not parse, is delayed while the model is down, or has a publish that fails; then it is dead-lettered, reported, or crashes the worker; offsets, counters and graph after every outcome of every await. |
| Predictions.DelayPropagationWorker.Run | flight_tracker/workers/delay_propagation_worker.py:369-396 | The graph takes every message consumed whether or not its predictions went out, each committed one was processed, dead-lettered or reported, at most one is taken uncommitted, and processed plus errors counts them all. |
| Writer.WriteEventsTable | flight_tracker/db/writer.py:152-162 | Stored rows are never changed, a (flight_id, timestamp) pair is stored exactly if it was or the call brought it, and never twice. |
| Writer.EventColumns | flight_tracker/db/writer.py:152-162 | Of the events written into empty tables, flight_events holds for every flight_id and timestamp that occur together the first event that has them, and nothing else. |
| Writer.SecondEvent | flight_tracker/db/writer.py:161 | The second of two events is ignored exactly when it has both the flight_id and the timestamp of the first. |
| Writer.UpsertsExact | flight_tracker/db/writer.py:163-183 | After any sequence of upserts a flight's row has the schedule of the first row written for it and the other columns of its first latest row. |
| Writer.WrittenColumns | flight_tracker/db/writer.py:139-183 | Column by column, what events written into empty tables leave for a flight: the schedule of its first event and everything else of the first of its latest events. |
| Restart.Restored | flight_tracker/graph/engine.py:69-87 | A graph loaded from the table holds, for each row read, the first of the flight's latest events, with the schedule of its first one, no actual arrival, and the event type its delay gives. |
| Restart.WriteThenLoad | flight_tracker/db/writer.py:117-184 | Writing an event and loading its row gives the flight back, but for its actual arrival and event type. |
| Writer.UpdatedNeverFalls | flight_tracker/db/writer.py:172-181 | last_updated never decreases, the schedule columns never change, and a row whose last_updated stayed is unchanged. |
| Writer.ConvergesExactly | flight_tracker/db/writer.py:172-181 | The overwritten columns are independent of order and repeats if and only if the latest rows of the flight agree. |
| Writer.StampsConverge | flight_tracker/db/writer.py:172-181 | Where key and timestamp fix the row, any order and duplication leaves the columns of a maximum-timestamp event. |
| Writer.ScheduleConvergesExactly | flight_tracker/db/writer.py:172-181 | The schedule columns are independent of order if and only if all rows of the flight agree on them. |
| Writer.WritesJoin | flight_tracker/db/writer.py:117-184 | How a stream of events is cut into calls makes no difference to either table. |
| Writer.RetriedWrite | flight_tracker/workers/event_processor.py:73-75 | A write that was applied and is retried changes nothing more. |
| Writer.Database.WriteEvents | flight_tracker/db/writer.py:117-184 | The row-building loop and the two batched statements leave the tables the folds of the statements give, and a single event of a new flight leaves a row whose every column is the event's field or the airport. |
| Protocol.CommitsOne | flight_tracker/workers/worker_pool.py:169 | A commit of all positions moves the committed offset of the handled message's partition by one and no other. |
| Delivery.NoLoss | flight_tracker/workers/worker_pool.py:116-169 | In every reachable state each message below a committed offset has a row with its flight_id and timestamp in flight_events and a forwarded message with both, or is dead-lettered, or had its dead-letter publish reported failed. |
| Delivery.KeySoundness | flight_tracker/workers/event_processor.py:107-124 | In every reachable state a present idempotency key means the row with its flight_id and timestamp exists and an envelope with both was forwarded, and no two rows agree on both. |
| Fates.SkipsExactly | flight_tracker/workers/event_processor.py:78-119 | Once an event was marked, the check skips another exactly when it has the same flight_id and timestamp or its key was there before. |
| Delivery.ForwardingStutters | flight_tracker/workers/event_processor.py:121-122 | The forwarded offsets of a partition never go back in any run, none is past the committed offset, and only the first uncommitted message can be forwarded again. |
| Convergence.PoolIsOneWrite | flight_tracker/workers/worker_pool.py:105-172 | Whatever the workers, interleaving, crashes, lost keys, redeliveries and retries, a drained pool that gave no message up leaves the tables that one write of the whole log would have left. |
| Counting.EveryRunBalances | flight_tracker/workers/worker_pool.py:187-202 | While a worker is up, processed plus skipped plus failed since its last start equals the committed offsets its partitions gained since then, plus one while a handled message awaits its commit; the handler's errors are the processor's failures plus the unparseable messages; failures counted are restarts plus a present crash. |
| Counting.RestartForgetsErrors | flight_tracker/workers/worker_pool.py:191-202 | A crash and restart lowers the pool's failure total by that worker's errors while the dead letters and committed offsets stay. |
| Draining.WorkingUses | flight_tracker/workers/worker_pool.py:116-169 | Every step of the consume loop that does not crash uses up a bounded amount of work, and exactly the commits take one message each off the backlog. |
| Draining.PoisonCannotWedge | flight_tracker/workers/worker_pool.py:135-169 | Without crashes and appends a worker takes at most seven steps per message, and when it has nothing left to do its backlog is empty and it committed once per message, whatever the messages were. |
| Workers.AsyncEventProcessor.ProcessFlightEvent | flight_tracker/workers/event_processor.py:84-154 | With anything going on elsewhere between its awaits, the pipeline takes the protocol's steps check, write, forward, mark, in this order and up to the first failure or present key, and its answer, its counters and the two topics and tables show what those outcomes say. |
| Fates.ProcessFate | flight_tracker/workers/event_processor.py:84-154 | Told by the outcomes of the awaits: an event is handled exactly when its key is present or all four awaits succeed; each of the three counters moves accordingly; and what took effect, row, forwarded record or key, is there whatever fails afterwards. |
| Fates.TurnFate | flight_tracker/workers/worker_pool.py:116-169 | Told by the outcomes of the awaits: the worker crashes exactly when the lag query, the dead-letter publish of a failed message or the commit raises; a failed message and no other is an error, dead-lettered if that took effect; the committed offset goes past the message exactly when the commit is tried and takes effect. |
| Workers.Rest.Elapse | flight_tracker/workers/worker_pool.py:1-14 | What elapses between two awaits is any sequence of steps of the other workers, the producers and the key store on the shared services. |
| Interference.MeanwhileIsAnyRun | flight_tracker/workers/worker_pool.py:1-14 | Every possible run of the others can happen between two awaits, step by step. |
| Workers.FailureHandler.HandleFailure | flight_tracker/workers/failure_handler.py:27-67 | The error is counted before the publish; a Kafka error is reported and swallowed, anything else raises. |
| Workers.Broker.Commit | flight_tracker/workers/worker_pool.py:169 | The commit stores the position of every partition of the worker. |
| Workers.Worker.HandleMessage | flight_tracker/workers/worker_pool.py:116-169 | Ask for the lag, parse, process, dead-letter on failure, commit either way: the protocol's steps for one message under any outcome of every await, among any steps of others. |
| Workers.Worker.Start | flight_tracker/workers/worker_pool.py:60-78 | A restarted worker has a new failure handler and reads every partition from its committed offset; one whose restart raises stays down. |
| Workers.Worker.Run | flight_tracker/workers/worker_pool.py:105-172 | The consume loop takes turn after turn from the state the last one left, among any steps of others, and only a crash keeps a turn from being taken. |
| Turns.RanThrough | flight_tracker/workers/worker_pool.py:105-172 | The states before the turns of one life: each turn begins where the one before left the worker idle, and the life ends with the last turn or with a crash. |
| Turns.SpanEnds | flight_tracker/workers/supervisor.py:43-47 | A life ends in a crash exactly when `run` raises by itself or one of its turns crashes. |
| Workers.Supervisor.SupervisedLoop | flight_tracker/workers/supervisor.py:35-67 | Every crash is counted and, with its restart counted too, followed by the next life of the worker, unless the supervisor is stopping or the restart raises: a worker is left crashed only after the last span, and left without a consumer only by a restart that raised; the two counters and the worker's own agree with that. |
| Turns.SupervisedThrough | flight_tracker/workers/supervisor.py:35-67 | The states in which the lives of the worker began: each but the last ended in a crash and a restart that succeeded and led to the next; the last one returned, crashed while the supervisor was stopping, or had a restart that raised. |
| Loops.SupervisedIsSound | flight_tracker/workers/supervisor.py:35-67 | However its awaits end and whatever others do, the supervised loop is part of a run of the protocol and keeps all that protects messages and keys. |
| Loops.TurnAdvances | flight_tracker/workers/worker_pool.py:116-169 | A turn that gets a message and does not crash moves the committed offset of its partition by exactly one, on any bytes, and no other offset of the worker, whatever others do. |
| Cache.CacheLayer.GetCached | flight_tracker/cache/redis_cache.py:28-38 | Each answered lookup counts as one hit or one miss, and a raising one as neither. |
| Cache.CacheLayer.GetOrSet | flight_tracker/cache/redis_cache.py:54-65 | What is answered, stored and counted, with only non-None loaded values stored, for every outcome of get, load and set and whatever other calls do in between. |
| Cache.SecondCall | flight_tracker/cache/redis_cache.py:54-65 | A value loaded and stored is answered by later calls without loading for exactly as long as the TTL lasts. |
| Cache.OnlyLoadedIsStored | flight_tracker/cache/redis_cache.py:54-65 | None is answered but not stored, a raising load or set raises, and no key but the call's own is touched. |
| Staleness.AnswersAreRecent | flight_tracker/cache/redis_cache.py:54-65 | In every interleaving an answer is what the database held less than the TTL plus its entry's load-to-set gap earlier, and hits plus misses equals lookups. |
| Staleness.CallIsRun | flight_tracker/cache/redis_cache.py:54-65 | One get_or_set, with the answer, store and counters that the code is proved to produce, is a run of the timed machine, whatever the outcomes of its awaits and whatever happens in the two gaps between them. |
| Staleness.MeanwhileIsAnyRun | flight_tracker/cache/redis_cache.py:54-65 | Every possible run of the other calls, the database, the clock and the store can happen in a gap, step by step. |
| Staleness.BoundIsTight | flight_tracker/cache/redis_cache.py:4-9 | For any TTL and gap some run answers a value the database dropped exactly that long less one before and never held since, the key having been invalidated too. |
| Staleness.TtlAloneIffNoGap | flight_tracker/cache/redis_cache.py:4-9 | All answers of all runs from entries with a given load-to-set gap are younger than their TTL if and only if the gap is zero. |

## Left out

- The three-quarters factor: `int(x * 0.75)` is taken as `(3 * x) / 4`, which floating point computes exactly below 2^51 minutes.
- Times are integers; time zones, date formatting and the derivation of flight_key from other fields are not modelled, the key is a field of the event.
- The copied node attributes that nothing ever writes are one `info` record, shared by node and event, rather than separate entries.
- The gate pool is any list of gate names, with repeats allowed; how settings generate it is not modelled.
- Gate pools are fixed for the life of an engine.
- The airport filter and the ordering of the load's query: its rows are any sequence of rows, and in `Restart` any rows of the table, each flight at most once.
- The delay model is a function of the flight's fixed fields and delay; a model that fails for a raised flight only stands for a publish that failed there without effect.
- Predictions.DelayPropagationProcessor.Process: a publish that takes effect more than once is not told apart from one that takes effect once.
- Predicted arrival time, air time and distance are not part of a prediction.
- Each partition has one owner for the whole run; rebalancing and fencing are assumed away.
- A forwarded or dead-lettered record that takes effect does so by the time its await ends; brokers that apply a timed-out send later are not modelled.
- Retries and the producer wrapper are folded into the outcome of one await, which may take effect any number of times where the call is not idempotent.
- An orderly stop of a worker is modelled as the replacement of its process.
- Backpressure delays, latencies, metrics, logs and request identifiers do not change what is modelled and are assumed not to raise.
- Writer.Database.WriteEvents: estimated and actual departure times are not among the stored columns, and a transaction either happens or does not.
- `cleanup_stale_active_flights` deletes rows and is outside the convergence results.
- JSON encoding, schema migration, validation other than the lifted delay, the ingestion client, endpoints, WebSockets and the frontend are not modelled.
- Delivery.NoLoss: a key hit vouches for the pair (flight_id, timestamp), as the code's key does; that two different events could share a pair is excluded only where `Convergence.PoolIsOneWrite` says so.
- Steps.EnoughRunsAreSafe: loads are not among its operations, because a load leaves gate_reuse edges for the next resolve call; `Steps.LoadThenResolve` and `Steps.EnoughMakesSafe` cover them.

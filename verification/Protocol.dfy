/** The worker pool as a state machine: one step per await, any outcome of each
    await, any interleaving, and a crash possible between any two steps. */
module Protocol {
  import opened Flights
  import opened Writer

  /** The bytes of one message: an envelope that parses, or anything else. */
  datatype Message = Parsed(f: Flight) | Garbage

  /** Where a worker stands.  Without a consumer are those that never started, those
      that crashed, and those whose restart failed, which nobody restarts. */
  datatype Pc = Fresh | Crashed | Gone | Idle | Got | Missed | Written | Forwarded | Failed | Handled

  /** One partition of the source topic; `position` is the next offset its
      owner's consumer delivers. */
  datatype Part = Part(log: seq<Message>, committed: nat, position: nat, owner: nat)

  /** A worker, the counters of its processor and of its failure handler, and the
      supervisor's two counters for it.  The last four fields are history: the
      counters and the sum of the committed offsets of its partitions when the
      worker last started, and the unparseable messages it met since. */
  datatype WorkerRecord = WorkerRecord(
    pc: Pc,
    part: nat,
    processed: nat,
    skips: nat,
    failed: nat,
    errors: nat,
    failures: nat,
    restarts: nat,
    doneBefore: nat,
    failedBefore: nat,
    committedBefore: nat,
    garbled: nat)

  const NEW_WORKER: WorkerRecord := WorkerRecord(Fresh, 0, 0, 0, 0, 0, 0, 0, 0, 0, 0, 0)

  datatype Place = Place(part: nat, offset: nat)

  /** One record of processed-flights: the message forwarded and its pair. */
  datatype Copy = Copy(at: Place, pair: Pair)

  /** `writes` is the history of the events whose write took effect, `dropped`
      the messages whose dead-letter publish was reported failed. */
  datatype State = State(
    airport: Option<string>,
    parts: seq<Part>,
    workers: seq<WorkerRecord>,
    keys: set<Pair>,
    db: Tables,
    writes: seq<Flight>,
    forwarded: seq<Copy>,
    dead: set<Place>,
    dropped: set<Place>)

  /** How the dead-letter publish ends: it succeeds, it fails with a Kafka error
      that the handler swallows, or it raises out of the worker. */
  datatype Delivery = Delivered | Swallowed | Raised

  datatype Step =
    | Append(p: nat, m: Message)
    | Expire(pair: Pair)
    | Reboot(w: nat)
    | Start(w: nat)
    | Abandon(w: nat)
    | Crash(w: nat)
    | Fetch(w: nat, p: nat)
    | Parse(w: nat)
    | Check(w: nat, ok: bool)
    | Store(w: nat, ok: bool, applied: bool)
    | Forward(w: nat, ok: bool, copies: nat)
    | Mark(w: nat, ok: bool, applied: bool)
    | DeadLetter(w: nat, delivery: Delivery, applied: bool)
    | Commit(w: nat, ok: bool, applied: bool)

  predicate Up(pc: Pc) {
    pc != Fresh && pc != Crashed && pc != Gone
  }

  predicate Busy(pc: Pc) {
    Up(pc) && pc != Idle
  }

  /** Worker `w` holds a message of a partition it owns. */
  predicate Holding(s: State, w: nat) {
    && w < |s.workers| && Busy(s.workers[w].pc)
    && s.workers[w].part < |s.parts|
    && s.parts[s.workers[w].part].owner == w
    && 0 < s.parts[s.workers[w].part].position <= |s.parts[s.workers[w].part].log|
  }

  function At(s: State, w: nat): Place
    requires Holding(s, w)
  {
    Place(s.workers[w].part, s.parts[s.workers[w].part].position - 1)
  }

  function MessageAt(s: State, at: Place): Message
    requires at.part < |s.parts| && at.offset < |s.parts[at.part].log|
  {
    s.parts[at.part].log[at.offset]
  }

  function InHand(s: State, w: nat): Message
    requires Holding(s, w)
  {
    MessageAt(s, At(s, w))
  }

  predicate HoldsEvent(s: State, w: nat, pc: Pc) {
    Holding(s, w) && s.workers[w].pc == pc && InHand(s, w).Parsed?
  }

  predicate Enabled(s: State, step: Step) {
    match step
    case Append(p, m) => p < |s.parts|
    case Expire(pair) => true
    case Reboot(w) => w < |s.workers|
    case Start(w) => w < |s.workers| && (s.workers[w].pc == Fresh || s.workers[w].pc == Crashed)
    case Abandon(w) => w < |s.workers| && s.workers[w].pc == Crashed
    case Crash(w) => w < |s.workers| && Up(s.workers[w].pc)
    case Fetch(w, p) =>
      && w < |s.workers| && s.workers[w].pc == Idle
      && p < |s.parts| && s.parts[p].owner == w && s.parts[p].position < |s.parts[p].log|
    case Parse(w) => Holding(s, w) && s.workers[w].pc == Got && InHand(s, w).Garbage?
    case Check(w, ok) => HoldsEvent(s, w, Got)
    case Store(w, ok, applied) => HoldsEvent(s, w, Missed) && (ok ==> applied)
    case Forward(w, ok, copies) => HoldsEvent(s, w, Written) && (ok ==> copies > 0)
    case Mark(w, ok, applied) => HoldsEvent(s, w, Forwarded) && (ok ==> applied)
    case DeadLetter(w, delivery, applied) => Holding(s, w) && s.workers[w].pc == Failed && (delivery.Delivered? ==> applied)
    case Commit(w, ok, applied) => Holding(s, w) && s.workers[w].pc == Handled && (ok ==> applied)
  }

  /** The step is one of worker `w`. */
  predicate Acts(step: Step, w: nat) {
    match step
    case Append(_, _) => false
    case Expire(_) => false
    case _ => step.w == w
  }

  // ---- what each step does ----

  function SetWorker(s: State, w: nat, k: WorkerRecord): State
    requires w < |s.workers|
  {
    s.(workers := s.workers[w := k])
  }

  /** The worker leaves for the supervisor, which counts the failure. */
  function Fallen(k: WorkerRecord): WorkerRecord {
    k.(pc := Crashed, failures := k.failures + 1)
  }

  /** The processor caught an exception and counts the failure. */
  function Refused(k: WorkerRecord): WorkerRecord {
    k.(pc := Failed, failed := k.failed + 1)
  }

  function Finished(k: WorkerRecord): WorkerRecord {
    k.(pc := Handled)
  }

  /** The sum of the committed offsets of the partitions of `w`. */
  function OwnCommitted(parts: seq<Part>, w: nat): nat {
    if parts == [] then 0
    else OwnCommitted(parts[..|parts| - 1], w) + (if parts[|parts| - 1].owner == w then parts[|parts| - 1].committed else 0)
  }

  /** A started worker has a new failure handler; a restart is counted. */
  function Started(k: WorkerRecord, committed: nat): WorkerRecord {
    k.(pc := Idle, errors := 0,
       restarts := if k.pc == Crashed then k.restarts + 1 else k.restarts,
       doneBefore := k.processed + k.skips, failedBefore := k.failed, committedBefore := committed, garbled := 0)
  }

  /** A new consumer starts every partition of `w` at its committed offset. */
  function Rewound(parts: seq<Part>, w: nat): (r: seq<Part>)
    ensures |r| == |parts|
    ensures forall p :: 0 <= p < |parts| ==>
              r[p] == if parts[p].owner == w then parts[p].(position := parts[p].committed) else parts[p]
  {
    seq(|parts|, p requires 0 <= p < |parts| =>
      if parts[p].owner == w then parts[p].(position := parts[p].committed) else parts[p])
  }

  /** A commit stores the positions of all partitions of `w`. */
  function Committed(parts: seq<Part>, w: nat): (r: seq<Part>)
    ensures |r| == |parts|
    ensures forall p :: 0 <= p < |parts| ==>
              r[p] == if parts[p].owner == w then parts[p].(committed := parts[p].position) else parts[p]
  {
    seq(|parts|, p requires 0 <= p < |parts| =>
      if parts[p].owner == w then parts[p].(committed := parts[p].position) else parts[p])
  }

  function Copies(c: Copy, n: nat): (r: seq<Copy>)
    ensures |r| == n && forall i :: 0 <= i < n ==> r[i] == c
  {
    seq(n, i requires 0 <= i < n => c)
  }

  function Next(s: State, step: Step): State
    requires Enabled(s, step)
  {
    match step
    case Append(p, m) => s.(parts := s.parts[p := s.parts[p].(log := s.parts[p].log + [m])])
    case Expire(pair) => s.(keys := s.keys - {pair})
    case Reboot(w) => SetWorker(s, w, NEW_WORKER)
    case Start(w) => SetWorker(s, w, Started(s.workers[w], OwnCommitted(s.parts, w))).(parts := Rewound(s.parts, w))
    case Abandon(w) => SetWorker(s, w, s.workers[w].(pc := Gone, restarts := s.workers[w].restarts + 1))
    case Crash(w) => SetWorker(s, w, Fallen(s.workers[w]))
    case Fetch(w, p) =>
      SetWorker(s, w, s.workers[w].(pc := Got, part := p))
        .(parts := s.parts[p := s.parts[p].(position := s.parts[p].position + 1)])
    case Parse(w) => SetWorker(s, w, s.workers[w].(pc := Failed, garbled := s.workers[w].garbled + 1))
    case Check(w, ok) =>
      var k := s.workers[w];
      SetWorker(s, w, if !ok then Refused(k)
                      else if PairOf(InHand(s, w).f) in s.keys then Finished(k.(skips := k.skips + 1))
                      else k.(pc := Missed))
    case Store(w, ok, applied) =>
      var f := InHand(s, w).f;
      var t := if applied then s.(db := Write(s.db, [f], s.airport), writes := s.writes + [f]) else s;
      SetWorker(t, w, if ok then s.workers[w].(pc := Written) else Refused(s.workers[w]))
    case Forward(w, ok, copies) =>
      var t := s.(forwarded := s.forwarded + Copies(Copy(At(s, w), PairOf(InHand(s, w).f)), copies));
      SetWorker(t, w, if ok then s.workers[w].(pc := Forwarded) else Refused(s.workers[w]))
    case Mark(w, ok, applied) =>
      var k := s.workers[w];
      var t := if applied then s.(keys := s.keys + {PairOf(InHand(s, w).f)}) else s;
      SetWorker(t, w, if ok then Finished(k.(processed := k.processed + 1)) else Refused(k))
    case DeadLetter(w, delivery, applied) =>
      var k := s.workers[w].(errors := s.workers[w].errors + 1);
      var t := if applied then s.(dead := s.dead + {At(s, w)}) else s;
      var u := if delivery.Swallowed? then t.(dropped := t.dropped + {At(s, w)}) else t;
      SetWorker(u, w, if delivery.Raised? then Fallen(k) else Finished(k))
    case Commit(w, ok, applied) =>
      var t := if applied then s.(parts := Committed(s.parts, w)) else s;
      SetWorker(t, w, if ok then s.workers[w].(pc := Idle) else Fallen(s.workers[w]))
  }

  // ---- runs ----

  ghost predicate Init(s: State) {
    && (forall p :: 0 <= p < |s.parts| ==> s.parts[p].committed == 0 && s.parts[p].owner < |s.workers|)
    && (forall w :: 0 <= w < |s.workers| ==> s.workers[w] == NEW_WORKER)
    && s.keys == {} && s.db == NO_TABLES && s.writes == [] && s.forwarded == [] && s.dead == {} && s.dropped == {}
  }

  ghost predicate Possible(s: State, steps: seq<Step>)
    decreases |steps|, 0
  {
    steps == [] || (Possible(s, steps[..|steps| - 1]) && Enabled(After(s, steps[..|steps| - 1]), steps[|steps| - 1]))
  }

  ghost function After(s: State, steps: seq<Step>): State
    requires Possible(s, steps)
    decreases |steps|, 1
  {
    if steps == [] then s else Next(After(s, steps[..|steps| - 1]), steps[|steps| - 1])
  }

  /** What every possible step keeps holds after every possible run. */
  lemma {:induction false} Always(s: State, steps: seq<Step>, keeps: State -> bool)
    requires Possible(s, steps) && keeps(s)
    requires forall t: State, step: Step :: keeps(t) && Enabled(t, step) ==> keeps(Next(t, step))
    ensures keeps(After(s, steps))
    decreases |steps|
  {
    hide Next, Enabled;
    if steps != [] {
      Always(s, steps[..|steps| - 1], keeps);
    }
  }

  // ---- positions ----

  ghost predicate Owned(s: State) {
    forall p :: 0 <= p < |s.parts| ==> s.parts[p].owner < |s.workers| && s.parts[p].committed <= |s.parts[p].log|
  }

  /** A busy worker holds a message of its own, and a consumer stands one past
      the committed offset in the partition of that message and exactly at the
      committed offset everywhere else. */
  ghost predicate Positioned(s: State) {
    && (forall w :: 0 <= w < |s.workers| && Busy(s.workers[w].pc) ==> Holding(s, w))
    && (forall p :: 0 <= p < |s.parts| && s.parts[p].owner < |s.workers| && Up(s.workers[s.parts[p].owner].pc) ==>
          var k := s.workers[s.parts[p].owner];
          s.parts[p].position == if Busy(k.pc) && k.part == p then s.parts[p].committed + 1 else s.parts[p].committed)
  }

  ghost predicate Placed(s: State) {
    Owned(s) && Positioned(s)
  }

  predicate Handling(step: Step) {
    step.Parse? || step.Check? || step.Store? || step.Forward? || step.Mark? || step.DeadLetter?
  }

  /** While a message is handled no offset moves, and its worker stays with it or
      falls. */
  lemma HandlingMoves(s: State, step: Step)
    requires Enabled(s, step) && Handling(step)
    ensures var t := Next(s, step);
      && t.parts == s.parts && Holding(s, step.w) && |t.workers| == |s.workers|
      && t.workers == s.workers[step.w := t.workers[step.w]]
      && t.workers[step.w].part == s.workers[step.w].part
      && (Busy(t.workers[step.w].pc) || t.workers[step.w].pc == Crashed)
  {
  }

  lemma PlacedHandling(s: State, t: State, w: nat)
    requires Placed(s) && Holding(s, w) && t.parts == s.parts && |t.workers| == |s.workers|
    requires t.workers == s.workers[w := t.workers[w]] && t.workers[w].part == s.workers[w].part
    requires Busy(t.workers[w].pc) || !Up(t.workers[w].pc)
    ensures Placed(t)
  {
  }

  lemma PlacedAppend(s: State, step: Step)
    requires Placed(s) && Enabled(s, step) && step.Append?
    ensures Placed(Next(s, step))
  {
  }

  lemma PlacedDown(s: State, t: State, w: nat)
    requires Placed(s) && w < |s.workers| == |t.workers| && t.parts == s.parts
    requires t.workers == s.workers[w := t.workers[w]] && !Up(t.workers[w].pc)
    ensures Placed(t)
  {
  }

  lemma PlacedStart(s: State, step: Step)
    requires Placed(s) && Enabled(s, step) && step.Start?
    ensures Placed(Next(s, step))
  {
    var t := Next(s, step);
    forall v | 0 <= v < |t.workers| && Busy(t.workers[v].pc) ensures Holding(t, v) {
      assert Holding(s, v);
    }
  }

  lemma PlacedFetch(s: State, step: Step)
    requires Placed(s) && Enabled(s, step) && step.Fetch?
    ensures Placed(Next(s, step))
  {
    var t := Next(s, step);
    forall v | 0 <= v < |t.workers| && Busy(t.workers[v].pc) ensures Holding(t, v) {
      if v != step.w {
        assert Holding(s, v);
      }
    }
  }

  /** A commit moves the committed offset of the message's partition by one and
      no other, although it commits them all. */
  lemma CommitsOne(s: State, w: nat)
    requires Placed(s) && Holding(s, w)
    ensures var k := s.workers[w].part;
      && s.parts[k].position == s.parts[k].committed + 1
      && Committed(s.parts, w) == s.parts[k := s.parts[k].(committed := s.parts[k].committed + 1)]
  {
  }

  lemma PlacedCommit(s: State, step: Step)
    requires Placed(s) && Enabled(s, step) && step.Commit?
    ensures Placed(Next(s, step))
  {
    CommitsOne(s, step.w);
    var t := Next(s, step);
    forall v | 0 <= v < |t.workers| && Busy(t.workers[v].pc) ensures Holding(t, v) {
      assert Holding(s, v);
    }
  }

  lemma PlacedKept(s: State, step: Step)
    requires Placed(s) && Enabled(s, step)
    ensures Placed(Next(s, step))
  {
    hide Placed, Holding;
    match step
    case Append(p, m) => PlacedAppend(s, step);
    case Expire(pair) => PlacedSame(s, Next(s, step));
    case Reboot(w) => PlacedDown(s, Next(s, step), w);
    case Start(w) => PlacedStart(s, step);
    case Abandon(w) => PlacedDown(s, Next(s, step), w);
    case Crash(w) => PlacedDown(s, Next(s, step), w);
    case Fetch(w, p) => PlacedFetch(s, step);
    case Commit(w, ok, applied) => PlacedCommit(s, step);
    case _ =>
      HandlingMoves(s, step);
      PlacedHandling(s, Next(s, step), step.w);
  }

  lemma PlacedSame(s: State, t: State)
    requires Placed(s) && t.parts == s.parts && t.workers == s.workers
    ensures Placed(t)
  {
  }
}

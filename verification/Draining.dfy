/** Poison messages cannot wedge a worker: a finite backlog drains. */
module Draining {
  import opened Writer
  import opened Protocol
  import opened Delivery

  /** The uncommitted messages of the partitions `w` owns. */
  function Backlog(parts: seq<Part>, w: nat): nat {
    if parts == [] then 0
    else Backlog(parts[..|parts| - 1], w) + Share(parts[|parts| - 1], w)
  }

  function Share(p: Part, w: nat): nat {
    if p.owner == w && p.committed < |p.log| then |p.log| - p.committed else 0
  }

  lemma {:induction false} BacklogUpdate(parts: seq<Part>, w: nat, k: nat, p: Part)
    requires k < |parts|
    ensures Backlog(parts[k := p], w) + Share(parts[k], w) == Backlog(parts, w) + Share(p, w)
    ensures Share(parts[k], w) <= Backlog(parts, w)
  {
    var n := |parts| - 1;
    if k < n {
      BacklogUpdate(parts[..n], w, k, p);
      assert parts[k := p][..n] == parts[..n][k := p];
    } else {
      assert parts[k := p][..n] == parts[..n];
    }
  }

  lemma {:induction false} BacklogSame(parts: seq<Part>, other: seq<Part>, w: nat)
    requires |parts| == |other|
    requires forall p :: 0 <= p < |parts| ==> Share(parts[p], w) == Share(other[p], w)
    ensures Backlog(parts, w) == Backlog(other, w)
  {
    if parts != [] {
      BacklogSame(parts[..|parts| - 1], other[..|other| - 1], w);
    }
  }

  /** How far a message has come, of the seven steps it can take at most. */
  function Progress(pc: Pc): nat {
    match pc
    case Got => 1
    case Missed => 2
    case Written => 3
    case Forwarded => 4
    case Failed => 5
    case Handled => 6
    case _ => 0
  }

  function Work(s: State, w: nat): int
    requires w < |s.workers|
  {
    7 * Backlog(s.parts, w) - Progress(s.workers[w].pc)
  }

  /** A step of the consume loop of `w` that does not end in a crash. */
  predicate Working(s: State, step: Step, w: nat)
    requires Enabled(s, step) && w < |s.workers|
  {
    && (Handling(step) || step.Fetch? || step.Commit?) && step.w == w
    && Up(Next(s, step).workers[w].pc)
  }

  lemma WorkIsNatural(s: State, w: nat)
    requires Placed(s) && w < |s.workers|
    ensures Work(s, w) >= 0
  {
    if Busy(s.workers[w].pc) {
      var k := s.workers[w].part;
      assert Holding(s, w);
      BacklogUpdate(s.parts, w, k, s.parts[k]);
    }
  }

  lemma {:induction false} CommitTakesOne(s: State, w: nat)
    requires Placed(s) && Holding(s, w)
    ensures Backlog(Committed(s.parts, w), w) + 1 == Backlog(s.parts, w)
  {
    CommitsOne(s, w);
    var k := s.workers[w].part;
    BacklogUpdate(s.parts, w, k, s.parts[k].(committed := s.parts[k].committed + 1));
  }

  lemma {:induction false} FetchTakesNone(s: State, p: nat, w: nat)
    requires p < |s.parts|
    ensures Backlog(s.parts[p := s.parts[p].(position := s.parts[p].position + 1)], w) == Backlog(s.parts, w)
  {
    BacklogUpdate(s.parts, w, p, s.parts[p].(position := s.parts[p].position + 1));
  }

  /** Every step of the loop, whatever its outcome and whatever the message, uses
      up work; a commit takes exactly one message off the backlog and no other
      step takes any. */
  lemma {:induction false} WorkingUses(s: State, step: Step, w: nat)
    requires Placed(s) && Enabled(s, step) && w < |s.workers| && Working(s, step, w)
    ensures Work(Next(s, step), w) < Work(s, w)
    ensures Backlog(Next(s, step).parts, w) + (if step.Commit? then 1 else 0) == Backlog(s.parts, w)
  {
    hide Write, Backlog, Placed, PairOf;
    if step.Commit? {
      CommitTakesOne(s, w);
    } else if step.Fetch? {
      FetchTakesNone(s, step.p, w);
    }
  }

  /** Appends aside, what other workers and the rest of the system do leaves the
      work of `w` alone. */
  lemma {:induction false} OthersUseNone(s: State, step: Step, w: nat)
    requires Placed(s) && Enabled(s, step) && w < |s.workers| && !Acts(step, w) && !step.Append?
    ensures w < |Next(s, step).workers| && Next(s, step).workers[w] == s.workers[w]
    ensures Work(Next(s, step), w) == Work(s, w) && Backlog(Next(s, step).parts, w) == Backlog(s.parts, w)
  {
    hide Backlog;
    if Handling(step) {
      hide Next;
      HandlingMoves(s, step);
    } else {
      OutsideUsesNone(s, step, w);
      BacklogSame(s.parts, Next(s, step).parts, w);
    }
  }

  lemma OutsideUsesNone(s: State, step: Step, w: nat)
    requires Placed(s) && Enabled(s, step) && w < |s.workers| && !Acts(step, w) && !step.Append? && !Handling(step)
    ensures w < |Next(s, step).workers| && Next(s, step).workers[w] == s.workers[w]
    ensures |Next(s, step).parts| == |s.parts|
    ensures forall p :: 0 <= p < |s.parts| ==> Share(Next(s, step).parts[p], w) == Share(s.parts[p], w)
  {
    hide OwnCommitted;
    if step.Commit? {
      CommitsOne(s, step.w);
    }
  }

  // ---- runs ----

  /** Nothing is appended and `w` neither stops nor crashes. */
  ghost predicate Steady(s: State, steps: seq<Step>, w: nat)
    requires Possible(s, steps)
  {
    steps == [] ||
    var n := |steps| - 1;
    var t := After(s, steps[..n]);
    && Steady(s, steps[..n], w) && !steps[n].Append?
    && (Acts(steps[n], w) ==> w < |t.workers| && Working(t, steps[n], w))
  }

  ghost function StepsOf(steps: seq<Step>, w: nat): nat {
    if steps == [] then 0 else StepsOf(steps[..|steps| - 1], w) + if Acts(steps[|steps| - 1], w) then 1 else 0
  }

  ghost function CommitsOf(steps: seq<Step>, w: nat): nat {
    if steps == [] then 0
    else CommitsOf(steps[..|steps| - 1], w) + if Acts(steps[|steps| - 1], w) && steps[|steps| - 1].Commit? then 1 else 0
  }

  /** In a steady run the steps of `w` are paid for by its work, and its commits
      are exactly the messages its backlog lost. */
  lemma {:induction false} SteadyRun(s: State, steps: seq<Step>, w: nat)
    requires Sound(s) && w < |s.workers| && Up(s.workers[w].pc) && Possible(s, steps) && Steady(s, steps, w)
    ensures Sound(After(s, steps)) && w < |After(s, steps).workers| && Up(After(s, steps).workers[w].pc)
    ensures StepsOf(steps, w) + Work(After(s, steps), w) <= Work(s, w)
    ensures CommitsOf(steps, w) + Backlog(After(s, steps).parts, w) == Backlog(s.parts, w)
  {
    hide Next, Enabled, Placed, KeysSound, HandsSound, NothingLost, Acts, Backlog, Work;
    if steps != [] {
      var n := |steps| - 1;
      var t := After(s, steps[..n]);
      SteadyRun(s, steps[..n], w);
      SoundKept(t, steps[n]);
      NextGrows(t, steps[n]);
      if Acts(steps[n], w) {
        WorkingUses(t, steps[n], w);
      } else {
        OthersUseNone(t, steps[n], w);
      }
    }
  }

  ghost predicate Stuck(s: State, w: nat)
    requires w < |s.workers|
  {
    !exists step: Step :: Enabled(s, step) && Working(s, step, w)
  }

  /** The step a worker takes next if its awaits fail. */
  function Onward(s: State, w: nat): Step
    requires Holding(s, w)
  {
    match s.workers[w].pc
    case Got => if InHand(s, w).Garbage? then Parse(w) else Check(w, false)
    case Missed => Store(w, false, false)
    case Written => Step.Forward(w, false, 0)
    case Forwarded => Mark(w, false, false)
    case Failed => DeadLetter(w, Swallowed, false)
    case _ => Commit(w, true, true)
  }

  lemma OnwardWorks(s: State, w: nat)
    requires Holding(s, w) && Knows(s, w)
    ensures Enabled(s, Onward(s, w)) && Working(s, Onward(s, w), w)
  {
  }

  /** The loop can always go on: an up worker with a backlog has a next step,
      whatever the message in its hands. */
  lemma {:induction false} CanWork(s: State, w: nat)
    requires Sound(s) && w < |s.workers| && Up(s.workers[w].pc) && Backlog(s.parts, w) > 0
    ensures !Stuck(s, w)
  {
    hide KeysSound, NothingLost, Backlog, Next, Knows;
    if s.workers[w].pc == Idle {
      var p := OwnedWithBacklog(s.parts, w);
      FetchWorks(s, w, p);
    } else {
      assert Holding(s, w) && Knows(s, w);
      OnwardWorks(s, w);
    }
  }

  lemma FetchWorks(s: State, w: nat, p: nat)
    requires Placed(s) && w < |s.workers| && s.workers[w].pc == Idle
    requires p < |s.parts| && s.parts[p].owner == w && s.parts[p].committed < |s.parts[p].log|
    ensures Enabled(s, Fetch(w, p)) && Working(s, Fetch(w, p), w)
  {
  }

  /** A steady run that leaves the loop of `w` nothing to do has emptied its
      backlog, with one commit per message of it and at most seven steps each,
      whatever the messages were and whatever became of them. */
  lemma {:induction false} PoisonCannotWedge(s: State, steps: seq<Step>, w: nat)
    requires Sound(s) && w < |s.workers| && Up(s.workers[w].pc) && Possible(s, steps) && Steady(s, steps, w)
    ensures StepsOf(steps, w) <= 7 * Backlog(s.parts, w)
    ensures w < |After(s, steps).workers|
    ensures Stuck(After(s, steps), w) ==> CommitsOf(steps, w) == Backlog(s.parts, w)
    ensures Stuck(After(s, steps), w) ==> Backlog(After(s, steps).parts, w) == 0
  {
    hide Stuck, Next, Enabled, Placed, KeysSound, HandsSound, NothingLost, Backlog;
    SteadyRun(s, steps, w);
    var t := After(s, steps);
    WorkIsNatural(t, w);
    if Backlog(t.parts, w) > 0 {
      CanWork(t, w);
    }
  }

  lemma {:induction false} OwnedWithBacklog(parts: seq<Part>, w: nat) returns (p: nat)
    requires Backlog(parts, w) > 0
    ensures p < |parts| && parts[p].owner == w && parts[p].committed < |parts[p].log|
  {
    var n := |parts| - 1;
    if Share(parts[n], w) > 0 {
      p := n;
    } else {
      p := OwnedWithBacklog(parts[..n], w);
    }
  }
}

/**
 The activity queue and its pool of self-restarting workers, as a step machine over the channel, the
 goroutines, the wait group and the queue gauge.
 */
module WorkerPool {

  const NUMBER_OF_WORKERS: nat := 50
  const QUEUE_SIZE: nat := 5000

  datatype Activity = Activity(id: nat, changeType: string)

  /** One worker slot: the goroutine that runs it, or the deferred function between two goroutines. */
  datatype Slot =
    | Selecting                      // in the select over queue and quit
    | Taken(activity: Activity)      // has received, gauge not yet decremented
    | Handling(activity: Activity)   // in handleActivity
    | Recovering(panicking: bool)    // doStart has ended, doRecover is about to ask isQuitting
    | Restarting                     // the fresh goroutine has not started yet
    | Quit                           // Done has been called

  datatype State = State(
    queue: seq<Activity>,
    pendingIncrements: multiset<string>,
    gauge: map<string, int>,
    slots: seq<Slot>,
    waitGroup: int,
    quitting: bool,
    crashed: bool,
    accepted: seq<Activity>,
    rejected: nat,
    taken: seq<Activity>,
    ended: seq<Activity>,    // whose handling is over
    doneCalls: seq<nat>,
    failures: nat)

  /** What one worker can do next. */
  datatype Step =
    | Take        // the select receives from the queue
    | Decrement   // the gauge call after that
    | Return      // handleActivity returns
    | Panic       // handleActivity panics
    | Exit        // the goroutine ends without a panic and without a signal
    | SeeQuit     // the select receives from the closed quit channel
    | Recover     // doRecover
    | Launch      // the fresh goroutine starts

  datatype Event =
    | AddWorker                       // one round of the loop in Start
    | Handle(activity: Activity)      // the select in Handle
    | Increment(changeType: string)   // the gauge call after an accepted activity
    | Stop
    | Worker(slot: nat, step: Step)

  const INITIAL := State([], multiset{}, map[], [], 0, false, false, [], 0, [], [], [], 0)

  function Gauge(s: State, changeType: string): int {
    if changeType in s.gauge then s.gauge[changeType] else 0
  }

  predicate Possible(slot: Slot, step: Step, queue: seq<Activity>, quitting: bool) {
    match step
    case Take => slot.Selecting? && queue != []
    case Decrement => slot.Taken?
    case Return => slot.Handling?
    case Panic => slot.Handling?
    case Exit => slot.Handling?
    case SeeQuit => slot.Selecting? && quitting
    case Recover => slot.Recovering?
    case Launch => slot.Restarting?
  }

  function NextSlot(slot: Slot, step: Step, queue: seq<Activity>, quitting: bool): Slot
    requires Possible(slot, step, queue, quitting)
  {
    match step
    case Take => Taken(queue[0])
    case Decrement => Handling(slot.activity)
    case Return => Selecting
    case Panic => Recovering(true)
    case Exit => Recovering(false)
    case SeeQuit => Recovering(false)
    case Recover => if quitting then Quit else Restarting
    case Launch => Selecting
  }

  /** doRecover of a quitting slot calls Done; a panic that is still in flight there is never recovered
      and ends the process. Otherwise it counts a failure and launches a fresh goroutine. */
  function WorkerStep(s: State, i: nat, step: Step): State
    requires i < |s.slots| == |s.doneCalls| && Possible(s.slots[i], step, s.queue, s.quitting)
  {
    var slot := s.slots[i];
    var done := step.Recover? && s.quitting;
    s.(slots := s.slots[i := NextSlot(slot, step, s.queue, s.quitting)],
       queue := if step.Take? then s.queue[1..] else s.queue,
       taken := if step.Take? then s.taken + [s.queue[0]] else s.taken,
       ended := if slot.Handling? then s.ended + [slot.activity] else s.ended,
       gauge := if step.Decrement? then
                  s.gauge[slot.activity.changeType := Gauge(s, slot.activity.changeType) - 1]
                else s.gauge,
       waitGroup := if done then s.waitGroup - 1 else s.waitGroup,
       doneCalls := if done then s.doneCalls[i := s.doneCalls[i] + 1] else s.doneCalls,
       crashed := done && slot.panicking,
       failures := if step.Recover? && !s.quitting then s.failures + 1 else s.failures)
  }

  /** An event that is not possible where the machine stands changes nothing. */
  function Apply(s: State, e: Event): State
    requires |s.doneCalls| == |s.slots|
    ensures |Apply(s, e).doneCalls| == |Apply(s, e).slots|
  {
    if s.crashed then s
    else
      match e
      case AddWorker =>
        if |s.slots| < NUMBER_OF_WORKERS
        then s.(waitGroup := s.waitGroup + 1, slots := s.slots + [Restarting], doneCalls := s.doneCalls + [0])
        else s
      case Handle(a) =>
        if |s.queue| < QUEUE_SIZE
        then s.(queue := s.queue + [a], accepted := s.accepted + [a],
                pendingIncrements := s.pendingIncrements + multiset{a.changeType})
        else s.(rejected := s.rejected + 1)
      case Increment(ct) =>
        if ct in s.pendingIncrements
        then s.(pendingIncrements := s.pendingIncrements - multiset{ct}, gauge := s.gauge[ct := Gauge(s, ct) + 1])
        else s
      case Stop => s.(quitting := true)
      case Worker(i, step) =>
        if i < |s.slots| && Possible(s.slots[i], step, s.queue, s.quitting) then WorkerStep(s, i, step) else s
  }

  function Run(s: State, es: seq<Event>): State
    requires |s.doneCalls| == |s.slots|
    decreases |es|
  {
    if es == [] then s else Run(Apply(s, es[0]), es[1..])
  }

  // ----- counting -----

  function Live(slots: seq<Slot>): nat {
    if slots == [] then 0 else Live(slots[..|slots| - 1]) + (if slots[|slots| - 1].Quit? then 0 else 1)
  }

  /** Activities of a type that were taken while their decrement is still to come. */
  function PendingDecrements(slots: seq<Slot>, ct: string): nat {
    if slots == [] then 0
    else
      PendingDecrements(slots[..|slots| - 1], ct)
      + (if IsTaken(slots[|slots| - 1], ct) then 1 else 0)
  }

  predicate IsTaken(slot: Slot, ct: string) {
    slot.Taken? && slot.activity.changeType == ct
  }

  function OfType(queue: seq<Activity>, ct: string): nat {
    if queue == [] then 0 else OfType(queue[..|queue| - 1], ct) + (if queue[|queue| - 1].changeType == ct then 1 else 0)
  }

  lemma {:induction false} LiveAfterSet(slots: seq<Slot>, i: nat, slot: Slot)
    requires i < |slots|
    ensures Live(slots[i := slot])
            == Live(slots) + (if slots[i].Quit? then 1 else 0) - (if slot.Quit? then 1 else 0)
  {
    var slots' := slots[i := slot];
    if i < |slots| - 1 {
      assert slots'[..|slots| - 1] == slots[..|slots| - 1][i := slot];
      LiveAfterSet(slots[..|slots| - 1], i, slot);
    } else {
      assert slots'[..|slots| - 1] == slots[..|slots| - 1];
    }
  }

  lemma {:induction false} DecrementsAfterSet(slots: seq<Slot>, i: nat, slot: Slot, ct: string)
    requires i < |slots|
    ensures PendingDecrements(slots[i := slot], ct)
            == PendingDecrements(slots, ct)
               - (if IsTaken(slots[i], ct) then 1 else 0) + (if IsTaken(slot, ct) then 1 else 0)
  {
    var slots' := slots[i := slot];
    if i < |slots| - 1 {
      assert slots'[..|slots| - 1] == slots[..|slots| - 1][i := slot];
      DecrementsAfterSet(slots[..|slots| - 1], i, slot, ct);
    } else {
      assert slots'[..|slots| - 1] == slots[..|slots| - 1];
    }
  }

  lemma {:induction false} OfTypeTail(queue: seq<Activity>, ct: string)
    requires queue != []
    ensures OfType(queue[1..], ct) == OfType(queue, ct) - (if queue[0].changeType == ct then 1 else 0)
  {
    if |queue| > 1 {
      var front := queue[..|queue| - 1];
      assert queue[1..][..|queue[1..]| - 1] == front[1..];
      OfTypeTail(front, ct);
    } else {
      assert queue[1..] == [] && queue[..0] == [];
    }
  }

  lemma OfTypeSnoc(queue: seq<Activity>, a: Activity, ct: string)
    ensures OfType(queue + [a], ct) == OfType(queue, ct) + (if a.changeType == ct then 1 else 0)
  {
    assert (queue + [a])[..|queue|] == queue;
  }

  // ----- what every step keeps -----

  /** The wait group counts the slots that have not quit; a slot has called Done once or not at all. */
  ghost predicate PoolInv(s: State) {
    && |s.doneCalls| == |s.slots| <= NUMBER_OF_WORKERS
    && s.waitGroup == Live(s.slots)
    && (forall i :: 0 <= i < |s.slots| ==> s.doneCalls[i] == if s.slots[i].Quit? then 1 else 0)
    && (forall i :: 0 <= i < |s.slots| && s.slots[i].Quit? ==> s.quitting)
  }

  /** What was accepted was taken, in that order, or is still queued. */
  ghost predicate QueueInv(s: State) {
    |s.queue| <= QUEUE_SIZE && s.accepted == s.taken + s.queue
  }

  /** The gauge of a type is its share of the queue, corrected by the calls still to come. */
  predicate Balanced(s: State, ct: string) {
    Gauge(s, ct) == OfType(s.queue, ct) - s.pendingIncrements[ct] + PendingDecrements(s.slots, ct)
  }

  ghost predicate GaugeInv(s: State) {
    forall ct: string :: Balanced(s, ct)
  }

  ghost predicate Inv(s: State) {
    PoolInv(s) && QueueInv(s) && GaugeInv(s)
  }

  lemma WorkerStepKeepsPool(s: State, i: nat, step: Step)
    requires PoolInv(s) && i < |s.slots| && Possible(s.slots[i], step, s.queue, s.quitting)
    ensures PoolInv(WorkerStep(s, i, step))
  {
    LiveAfterSet(s.slots, i, NextSlot(s.slots[i], step, s.queue, s.quitting));
  }

  lemma ApplyKeepsPool(s: State, e: Event)
    requires PoolInv(s)
    ensures PoolInv(Apply(s, e))
  {
    match e {
      case AddWorker => assert (s.slots + [Restarting])[..|s.slots|] == s.slots;
      case Worker(i, step) =>
        if i < |s.slots| && Possible(s.slots[i], step, s.queue, s.quitting) { WorkerStepKeepsPool(s, i, step); }
      case _ =>
    }
  }

  lemma ApplyKeepsQueue(s: State, e: Event)
    requires PoolInv(s) && QueueInv(s)
    ensures QueueInv(Apply(s, e))
  {
    if e.Worker? && e.step.Take? && s.queue != [] {
      assert s.queue == [s.queue[0]] + s.queue[1..];
    }
  }

  lemma WorkerStepBalanced(s: State, i: nat, step: Step, ct: string)
    requires PoolInv(s) && Balanced(s, ct) && i < |s.slots| && Possible(s.slots[i], step, s.queue, s.quitting)
    ensures Balanced(WorkerStep(s, i, step), ct)
  {
    DecrementsAfterSet(s.slots, i, NextSlot(s.slots[i], step, s.queue, s.quitting), ct);
    if step.Take? { OfTypeTail(s.queue, ct); }
  }

  lemma HandleBalanced(s: State, a: Activity, ct: string)
    requires Balanced(s, ct) && |s.doneCalls| == |s.slots|
    ensures Balanced(Apply(s, Handle(a)), ct)
  {
    OfTypeSnoc(s.queue, a, ct);
    hide OfType;
    hide Live, PendingDecrements;
  }

  lemma IncrementBalanced(s: State, c: string, ct: string)
    requires Balanced(s, ct) && |s.doneCalls| == |s.slots|
    ensures Balanced(Apply(s, Increment(c)), ct)
  {
  }

  lemma AddWorkerBalanced(s: State, ct: string)
    requires Balanced(s, ct) && |s.doneCalls| == |s.slots|
    ensures Balanced(Apply(s, AddWorker), ct)
  {
    assert (s.slots + [Restarting])[..|s.slots|] == s.slots;
  }

  lemma WorkerBalanced(s: State, i: nat, step: Step, ct: string)
    requires PoolInv(s) && Balanced(s, ct)
    ensures Balanced(Apply(s, Worker(i, step)), ct)
  {
    if !s.crashed && i < |s.slots| && Possible(s.slots[i], step, s.queue, s.quitting) {
      WorkerStepBalanced(s, i, step, ct);
      assert Apply(s, Worker(i, step)) == WorkerStep(s, i, step);
    } else {
      assert Apply(s, Worker(i, step)) == s;
    }
  }

  lemma ApplyKeepsGauge(s: State, e: Event)
    requires PoolInv(s) && GaugeInv(s)
    ensures GaugeInv(Apply(s, e))
  {
    forall ct: string
      ensures Balanced(Apply(s, e), ct)
    {
      assert Balanced(s, ct);
      match e {
        case AddWorker => AddWorkerBalanced(s, ct);
        case Handle(a) => HandleBalanced(s, a, ct);
        case Increment(c) => IncrementBalanced(s, c, ct);
        case Stop => assert Apply(s, Stop) == s || Apply(s, Stop) == s.(quitting := true);
        case Worker(i, step) => WorkerBalanced(s, i, step, ct);
      }
    }
  }

  /** POOL AND QUEUE. Over every interleaving: the wait group is the number of slots that have not quit,
      no slot calls Done twice, the queue is bounded, accepted activities are taken at most once and in
      order, and the gauge is the queue length corrected by pending calls. */
  lemma {:induction false} RunKeepsInv(s: State, es: seq<Event>)
    requires Inv(s)
    ensures Inv(Run(s, es))
    decreases |es|
  {
    if es != [] {
      ApplyKeepsPool(s, es[0]);
      ApplyKeepsQueue(s, es[0]);
      ApplyKeepsGauge(s, es[0]);
      RunKeepsInv(Apply(s, es[0]), es[1..]);
    }
  }

  lemma InitialInv()
    ensures Inv(INITIAL)
  {
    assert forall ct: string :: PendingDecrements([], ct) == 0 && OfType([], ct) == 0;
  }

  lemma {:induction false} LiveIsAll(slots: seq<Slot>)
    ensures Live(slots) <= |slots|
    ensures Live(slots) == |slots| <==> forall i :: 0 <= i < |slots| ==> !slots[i].Quit?
    ensures Live(slots) == 0 <==> forall i :: 0 <= i < |slots| ==> slots[i].Quit?
  {
    if slots != [] {
      var front := slots[..|slots| - 1];
      LiveIsAll(front);
      assert forall i :: 0 <= i < |front| ==> front[i] == slots[i];
    }
  }

  /** NO WORKER IS LOST. Until Stop, every slot that Start has added is alive, whatever has panicked or
      exited; and the wait in Stop ends exactly when all of them have quit. */
  lemma NoWorkerLost(es: seq<Event>)
    ensures var s := Run(INITIAL, es);
            && (!s.quitting ==> s.waitGroup == |s.slots| && forall i :: 0 <= i < |s.slots| ==> !s.slots[i].Quit?)
            && (s.waitGroup == 0 <==> forall i :: 0 <= i < |s.slots| ==> s.slots[i].Quit?)
            && 0 <= s.waitGroup <= |s.slots|
  {
    InitialInv();
    RunKeepsInv(INITIAL, es);
    LiveIsAll(Run(INITIAL, es).slots);
  }

  // ----- stopping -----

  lemma {:induction false} RunAppend(s: State, es: seq<Event>, fs: seq<Event>)
    requires |s.doneCalls| == |s.slots|
    ensures |Run(s, es).doneCalls| == |Run(s, es).slots|
    ensures Run(s, es + fs) == Run(Run(s, es), fs)
    decreases |es|
  {
    if es == [] {
      assert es + fs == fs;
    } else {
      assert (es + fs)[1..] == es[1..] + fs;
      RunAppend(Apply(s, es[0]), es[1..], fs);
    }
  }

  /** How far a slot is from quitting. */
  function Distance(slot: Slot): nat {
    match slot
    case Quit => 0
    case Recovering(_) => 1
    case Selecting => 2
    case Restarting => 3
    case Handling(_) => 3
    case Taken(_) => 4
  }

  /** The step that brings a slot closer to quitting. */
  function StepOut(slot: Slot): Step {
    match slot
    case Quit => Recover
    case Recovering(_) => Recover
    case Selecting => SeeQuit
    case Restarting => Launch
    case Handling(_) => Return
    case Taken(_) => Decrement
  }

  /** Lets slot i run until it quits. */
  function WayOut(i: nat, slot: Slot): seq<Event>
    decreases Distance(slot)
  {
    if slot.Quit? then []
    else [Worker(i, StepOut(slot))] + WayOut(i, NextSlot(slot, StepOut(slot), [], true))
  }

  predicate NoPanicInFlight(s: State) {
    forall i :: 0 <= i < |s.slots| ==> s.slots[i] != Recovering(true)
  }

  lemma {:induction false} SlotCanQuit(s: State, i: nat)
    requires PoolInv(s) && s.quitting && !s.crashed && NoPanicInFlight(s) && i < |s.slots|
    ensures var t := Run(s, WayOut(i, s.slots[i]));
            && PoolInv(t) && t.quitting && !t.crashed && NoPanicInFlight(t)
            && t.slots == s.slots[i := Quit]
    decreases Distance(s.slots[i])
  {
    var slot := s.slots[i];
    if !slot.Quit? {
      var e := Worker(i, StepOut(slot));
      var t := Apply(s, e);
      ApplyKeepsPool(s, e);
      assert t == WorkerStep(s, i, StepOut(slot));
      assert t.slots[i] == NextSlot(slot, StepOut(slot), [], true);
      assert WayOut(i, slot)[1..] == WayOut(i, t.slots[i]);
      SlotCanQuit(t, i);
      assert t.slots[i := Quit] == s.slots[i := Quit];
    } else {
      assert s.slots[i := Quit] == s.slots;
    }
  }

  /** A slot that quits with a panic in flight takes the process down. */
  lemma {:induction false} PanicBlocksQuitting(s: State, es: seq<Event>, i: nat)
    requires PoolInv(s) && s.quitting && i < |s.slots| && (s.crashed || s.slots[i] == Recovering(true))
    ensures Run(s, es).crashed || Run(s, es).waitGroup > 0
    decreases |es|
  {
    if es == [] {
      LiveIsAll(s.slots);
    } else {
      ApplyKeepsPool(s, es[0]);
      PanicBlocksQuitting(Apply(s, es[0]), es[1..], i);
    }
  }

  // ----- the way to the end -----

  predicate Panics(e: Event) {
    e.Worker? && e.step.Panic?
  }

  predicate NoPanics(es: seq<Event>) {
    forall i :: 0 <= i < |es| ==> !Panics(es[i])
  }

  lemma StepWithoutPanic(s: State, e: Event)
    requires PoolInv(s) && !s.crashed && NoPanicInFlight(s) && !Panics(e)
    ensures !Apply(s, e).crashed && NoPanicInFlight(Apply(s, e))
  {
  }

  /** A crash needs a panic: without one in flight, a run without further panics does not crash. */
  lemma {:induction false} NoPanicNoCrash(s: State, es: seq<Event>)
    requires PoolInv(s) && !s.crashed && NoPanicInFlight(s) && NoPanics(es)
    ensures !Run(s, es).crashed && NoPanicInFlight(Run(s, es)) && PoolInv(Run(s, es))
    decreases |es|
  {
    if es != [] {
      StepWithoutPanic(s, es[0]);
      ApplyKeepsPool(s, es[0]);
      NoPanicNoCrash(Apply(s, es[0]), es[1..]);
    }
  }

  function Distances(slots: seq<Slot>): nat {
    if slots == [] then 0 else Distances(slots[..|slots| - 1]) + Distance(slots[|slots| - 1])
  }

  /** How many steps the workers can still make: a queued activity is good for three. */
  function Remaining(s: State): nat {
    3 * |s.queue| + Distances(s.slots)
  }

  lemma {:induction false} DistancesAfterSet(slots: seq<Slot>, i: nat, slot: Slot)
    requires i < |slots|
    ensures Distances(slots[i := slot]) == Distances(slots) - Distance(slots[i]) + Distance(slot)
  {
    var slots' := slots[i := slot];
    if i < |slots| - 1 {
      assert slots'[..|slots| - 1] == slots[..|slots| - 1][i := slot];
      DistancesAfterSet(slots[..|slots| - 1], i, slot);
    } else {
      assert slots'[..|slots| - 1] == slots[..|slots| - 1];
    }
  }

  /** Once the quit channel is closed, every step of a worker brings the pool closer to its end: receiving
      as well, because it shortens the queue. */
  lemma WorkerStepGetsCloser(s: State, i: nat, step: Step)
    requires PoolInv(s) && s.quitting && i < |s.slots| && Possible(s.slots[i], step, s.queue, s.quitting)
    ensures Remaining(WorkerStep(s, i, step)) < Remaining(s)
  {
    DistancesAfterSet(s.slots, i, NextSlot(s.slots[i], step, s.queue, s.quitting));
  }

  /** The step is one that a worker can make there. */
  predicate Moves(s: State, e: Event) {
    !s.crashed && e.Worker? && e.slot < |s.slots| && Possible(s.slots[e.slot], e.step, s.queue, s.quitting)
  }

  function Moved(s: State, es: seq<Event>): nat
    requires |s.doneCalls| == |s.slots|
    decreases |es|
  {
    if es == [] then 0 else (if Moves(s, es[0]) then 1 else 0) + Moved(Apply(s, es[0]), es[1..])
  }

  lemma EventCosts(s: State, e: Event)
    requires PoolInv(s) && s.quitting && !e.AddWorker?
    ensures Apply(s, e).quitting
    ensures (if Moves(s, e) then 1 else 0) + Remaining(Apply(s, e)) - 3 * |Apply(s, e).accepted|
            <= Remaining(s) - 3 * |s.accepted|
  {
    if Moves(s, e) { WorkerStepGetsCloser(s, e.slot, e.step); }
  }

  /** THE STOP IS BOUNDED. After Stop the workers make at most as many steps as remained then, and three
      for every activity that is still accepted. */
  lemma {:induction false} StopIsBounded(s: State, es: seq<Event>)
    requires PoolInv(s) && s.quitting && forall i :: 0 <= i < |es| ==> !es[i].AddWorker?
    ensures PoolInv(Run(s, es))
    ensures Moved(s, es) + Remaining(Run(s, es)) <= Remaining(s) + 3 * (|Run(s, es).accepted| - |s.accepted|)
    decreases |es|
  {
    if es != [] {
      EventCosts(s, es[0]);
      ApplyKeepsPool(s, es[0]);
      StopIsBounded(Apply(s, es[0]), es[1..]);
    }
  }

  /** As long as a slot has not quit, a worker can make a step, and need not panic. */
  lemma SomeWorkerMoves(s: State)
    requires PoolInv(s) && s.quitting && !s.crashed && s.waitGroup > 0
    ensures exists i: nat, step :: !Panics(Worker(i, step)) && Moves(s, Worker(i, step))
  {
    LiveIsAll(s.slots);
    var i: nat :| i < |s.slots| && !s.slots[i].Quit?;
    var step := StepOut(s.slots[i]);
    assert Moves(s, Worker(i, step));
  }

  /** NO WAY AROUND THE END. From a stop without a panic in flight, and without a further panic, workers
      that have come to a standstill have all quit, and the process has not crashed. */
  lemma StandstillIsTheEnd(s: State, es: seq<Event>)
    requires PoolInv(s) && s.quitting && !s.crashed && NoPanicInFlight(s) && NoPanics(es)
    requires forall i :: 0 <= i < |es| ==> !es[i].AddWorker?
    requires forall i: nat, step :: !Panics(Worker(i, step)) ==> !Moves(Run(s, es), Worker(i, step))
    ensures !Run(s, es).crashed && Run(s, es).waitGroup == 0
  {
    var t := Run(s, es);
    NoPanicNoCrash(s, es);
    QuittingStays(s, es);
    LiveIsAll(t.slots);
    if t.waitGroup > 0 { SomeWorkerMoves(t); }
  }

  lemma {:induction false} QuittingStays(s: State, es: seq<Event>)
    requires |s.doneCalls| == |s.slots| && s.quitting
    ensures Run(s, es).quitting
    decreases |es|
  {
    if es != [] { QuittingStays(Apply(s, es[0]), es[1..]); }
  }

  /** The workers, one step after the other, until all have quit. */
  lemma {:induction false} CanFinish(s: State) returns (es: seq<Event>)
    requires PoolInv(s) && s.quitting && !s.crashed && NoPanicInFlight(s)
    ensures !Run(s, es).crashed && Run(s, es).waitGroup == 0
    decreases Remaining(s)
  {
    es := [];
    LiveIsAll(s.slots);
    if s.waitGroup > 0 {
      SomeWorkerMoves(s);
      var i: nat, step :| !Panics(Worker(i, step)) && Moves(s, Worker(i, step));
      var e := Worker(i, step);
      StepWithoutPanic(s, e);
      ApplyKeepsPool(s, e);
      WorkerStepGetsCloser(s, i, step);
      hide NoPanicInFlight, Remaining;
      var rest := CanFinish(Apply(s, e));
      es := [e] + rest;
      assert es[1..] == rest;
    }
  }

  /** GRACEFUL STOP. Once the quit channel is closed, the wait can still end without a crash exactly when
      no slot is on its way out of a panic. */
  lemma StopCanFinish(s: State)
    requires PoolInv(s) && s.quitting && !s.crashed
    ensures (exists es :: !Run(s, es).crashed && Run(s, es).waitGroup == 0) <==> NoPanicInFlight(s)
  {
    if NoPanicInFlight(s) {
      var es := CanFinish(s);
    } else {
      var i :| 0 <= i < |s.slots| && s.slots[i] == Recovering(true);
      forall es ensures Run(s, es).crashed || Run(s, es).waitGroup != 0 {
        PanicBlocksQuitting(s, es, i);
      }
    }
  }
}

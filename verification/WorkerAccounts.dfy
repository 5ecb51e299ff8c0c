/**
 What the pool of workers accounts for over every run: each activity is handled once, and each counted
 failure belongs to a panic or an unexpected exit.
 */
module WorkerAccounts {
  import opened WorkerPool

  // ----- activities -----

  /** How many workers have received this activity and not yet finished it. */
  function Holding(slots: seq<Slot>, a: Activity): nat {
    if slots == [] then 0 else Holding(slots[..|slots| - 1], a) + Holds(slots[|slots| - 1], a)
  }

  function Holds(slot: Slot, a: Activity): nat {
    if slot == Taken(a) || slot == Handling(a) then 1 else 0
  }

  lemma {:induction false} HoldingAfterSet(slots: seq<Slot>, i: nat, slot: Slot, a: Activity)
    requires i < |slots|
    ensures Holding(slots[i := slot], a) == Holding(slots, a) - Holds(slots[i], a) + Holds(slot, a)
  {
    var slots' := slots[i := slot];
    if i < |slots| - 1 {
      assert slots'[..|slots| - 1] == slots[..|slots| - 1][i := slot];
      HoldingAfterSet(slots[..|slots| - 1], i, slot, a);
    } else {
      assert slots'[..|slots| - 1] == slots[..|slots| - 1];
    }
  }

  /** As often as it was received, an activity is in the hands of a worker, or its handling is over. */
  ghost predicate HandledOnce(s: State, a: Activity) {
    multiset(s.taken)[a] == multiset(s.ended)[a] + Holding(s.slots, a)
  }

  lemma WorkerStepHandlesOnce(s: State, i: nat, step: Step, a: Activity)
    requires i < |s.slots| == |s.doneCalls| && Possible(s.slots[i], step, s.queue, s.quitting)
    requires HandledOnce(s, a)
    ensures HandledOnce(WorkerStep(s, i, step), a)
  {
    HoldingAfterSet(s.slots, i, NextSlot(s.slots[i], step, s.queue, s.quitting), a);
  }

  lemma ApplyHandlesOnce(s: State, e: Event, a: Activity)
    requires |s.doneCalls| == |s.slots| && HandledOnce(s, a)
    ensures HandledOnce(Apply(s, e), a)
  {
    if Moves(s, e) {
      WorkerStepHandlesOnce(s, e.slot, e.step, a);
    } else if e.AddWorker? {
      assert (s.slots + [Restarting])[..|s.slots|] == s.slots;
    }
  }

  lemma {:induction false} RunHandlesOnce(s: State, es: seq<Event>, a: Activity)
    requires |s.doneCalls| == |s.slots| && HandledOnce(s, a)
    ensures HandledOnce(Run(s, es), a)
    decreases |es|
  {
    if es != [] {
      ApplyHandlesOnce(s, es[0], a);
      RunHandlesOnce(Apply(s, es[0]), es[1..], a);
    }
  }

  /** EVERY ACTIVITY ONCE. In every interleaving, whatever panics and restarts, as often as an activity was
      accepted it is in the queue, or in the hands of one worker, or its handling has ended: it is never
      lost and never handled twice. */
  lemma EveryActivityOnce(es: seq<Event>, a: Activity)
    ensures var s := Run(INITIAL, es);
            multiset(s.accepted)[a] == multiset(s.queue)[a] + Holding(s.slots, a) + multiset(s.ended)[a]
  {
    InitialInv();
    RunKeepsInv(INITIAL, es);
    RunHandlesOnce(INITIAL, es, a);
  }

  // ----- failures -----

  /** The slots whose goroutine has left its loop, and those that have quit after that. */
  function Left(slots: seq<Slot>): nat {
    if slots == [] then 0
    else
      var last := slots[|slots| - 1];
      Left(slots[..|slots| - 1]) + (if last.Recovering? || last.Quit? then 1 else 0)
  }

  lemma {:induction false} LeftAfterSet(slots: seq<Slot>, i: nat, slot: Slot)
    requires i < |slots|
    ensures Left(slots[i := slot])
            == Left(slots) - (if slots[i].Recovering? || slots[i].Quit? then 1 else 0)
               + (if slot.Recovering? || slot.Quit? then 1 else 0)
  {
    var slots' := slots[i := slot];
    if i < |slots| - 1 {
      assert slots'[..|slots| - 1] == slots[..|slots| - 1][i := slot];
      LeftAfterSet(slots[..|slots| - 1], i, slot);
    } else {
      assert slots'[..|slots| - 1] == slots[..|slots| - 1];
    }
  }

  /** The goroutine of a worker leaves its loop: by a panic, by an exit, or because it has seen the closed
      quit channel. */
  predicate Leaves(s: State, e: Event) {
    Moves(s, e) && (e.step.Panic? || e.step.Exit? || e.step.SeeQuit?)
  }

  function Departures(s: State, es: seq<Event>): nat
    requires |s.doneCalls| == |s.slots|
    decreases |es|
  {
    if es == [] then 0 else (if Leaves(s, es[0]) then 1 else 0) + Departures(Apply(s, es[0]), es[1..])
  }

  lemma StepAccountsForFailures(s: State, e: Event)
    requires |s.doneCalls| == |s.slots|
    ensures Apply(s, e).failures + Left(Apply(s, e).slots)
            == s.failures + Left(s.slots) + (if Leaves(s, e) then 1 else 0)
  {
    if Moves(s, e) {
      LeftAfterSet(s.slots, e.slot, NextSlot(s.slots[e.slot], e.step, s.queue, s.quitting));
    } else if e.AddWorker? {
      assert (s.slots + [Restarting])[..|s.slots|] == s.slots;
    }
  }

  /** FAILURES ACCOUNTED FOR. Over every run, every goroutine that leaves its loop is counted as a failure, is
      still to be asked whether it is quitting, or has quit; and nothing else is counted. */
  lemma {:induction false} FailuresAccountedFor(s: State, es: seq<Event>)
    requires |s.doneCalls| == |s.slots|
    ensures |Run(s, es).doneCalls| == |Run(s, es).slots|
    ensures Run(s, es).failures + Left(Run(s, es).slots) == s.failures + Left(s.slots) + Departures(s, es)
    decreases |es|
  {
    if es != [] {
      StepAccountsForFailures(s, es[0]);
      FailuresAccountedFor(Apply(s, es[0]), es[1..]);
    }
  }

  /** Before Stop, only a goroutine on its way out of a panic or an exit is recovering. */
  ghost predicate Steady(s: State) {
    s.quitting || forall i :: 0 <= i < |s.slots| ==> !s.slots[i].Recovering?
  }

  lemma QuietStep(s: State, e: Event)
    requires PoolInv(s) && Steady(s)
    requires e.Worker? ==> !e.step.Panic? && !e.step.Exit?
    ensures Steady(Apply(s, e)) && Apply(s, e).failures == s.failures
  {
  }

  /** NO FAILURE WITHOUT A CAUSE. In a run without panics and unexpected exits no failure is counted, however
      many activities are handled, and not when the workers quit either. */
  lemma {:induction false} NoFailureWithoutCause(s: State, es: seq<Event>)
    requires PoolInv(s) && Steady(s)
    requires forall i :: 0 <= i < |es| && es[i].Worker? ==> !es[i].step.Panic? && !es[i].step.Exit?
    ensures Run(s, es).failures == s.failures
    decreases |es|
  {
    if es != [] {
      QuietStep(s, es[0]);
      ApplyKeepsPool(s, es[0]);
      NoFailureWithoutCause(Apply(s, es[0]), es[1..]);
    }
  }
}

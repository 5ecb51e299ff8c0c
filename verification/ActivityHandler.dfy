/**
 The activity handler as the program writes it: one object, whose methods add workers, queue
 activities, run a worker's loop and its deferred recovery. Every method, run without interruption, is
 a run of the step machine of `WorkerPool`, so what holds of all runs holds of it.
 */
module ActivityHandlers {
  import opened WorkerPool

  /** How handleActivity ends. */
  datatype Ending = Returns | Panics | Exits

  function StepOf(ending: Ending): Step {
    match ending
    case Returns => Return
    case Panics => Panic
    case Exits => Exit
  }

  /** The first rounds of the loop in Start. */
  function AddWorkers(n: nat): seq<Event> {
    seq(n, _ => AddWorker)
  }

  lemma RunOne(s: State, e: Event)
    requires |s.doneCalls| == |s.slots|
    ensures Run(s, [e]) == Apply(s, e)
  {
    assert Run(Apply(s, e), [e][1..]) == Apply(s, e);
  }

  lemma RunMore(s: State, es: seq<Event>, e: Event)
    requires |s.doneCalls| == |s.slots|
    ensures |Run(s, es).doneCalls| == |Run(s, es).slots|
    ensures Run(s, es + [e]) == Apply(Run(s, es), e)
  {
    RunAppend(s, es, [e]);
    RunOne(Run(s, es), e);
  }

  /** An accepted activity, with its gauge call. */
  lemma AcceptRuns(s: State, a: Activity)
    requires Inv(s) && !s.crashed && |s.queue| < QUEUE_SIZE
    ensures var s' := Run(s, [Handle(a), Increment(a.changeType)]);
            && Inv(s')
            && s' == s.(queue := s.queue + [a], accepted := s.accepted + [a],
                        gauge := s.gauge[a.changeType := Gauge(s, a.changeType) + 1])
  {
    var queued := Apply(s, Handle(a));
    RunOne(s, Handle(a));
    RunMore(s, [Handle(a)], Increment(a.changeType));
    RunKeepsInv(s, [Handle(a)] + [Increment(a.changeType)]);
    assert queued.pendingIncrements - multiset{a.changeType} == s.pendingIncrements;
  }

  lemma TakeIs(s: State, i: nat)
    requires |s.doneCalls| == |s.slots| && !s.crashed && i < |s.slots| && s.slots[i].Selecting? && s.queue != []
    ensures Apply(s, Worker(i, Take))
            == s.(slots := s.slots[i := Taken(s.queue[0])], queue := s.queue[1..], taken := s.taken + [s.queue[0]])
  {
  }

  lemma DecrementIs(s: State, i: nat, a: Activity)
    requires |s.doneCalls| == |s.slots| && !s.crashed && i < |s.slots| && s.slots[i] == Taken(a)
    ensures Apply(s, Worker(i, Decrement))
            == s.(slots := s.slots[i := Handling(a)], gauge := s.gauge[a.changeType := Gauge(s, a.changeType) - 1])
  {
  }

  lemma EndingIs(s: State, i: nat, ending: Ending)
    requires |s.doneCalls| == |s.slots| && !s.crashed && i < |s.slots| && s.slots[i].Handling?
    ensures Apply(s, Worker(i, StepOf(ending)))
            == s.(slots := s.slots[i := match ending
                                         case Returns => Selecting
                                         case Panics => Recovering(true)
                                         case Exits => Recovering(false)],
                  ended := s.ended + [s.slots[i].activity])
  {
  }

  lemma RunThree(s: State, a: Event, b: Event, c: Event)
    requires Inv(s)
    ensures Run(s, [a, b, c]) == Apply(Apply(Apply(s, a), b), c) && Inv(Run(s, [a, b, c]))
  {
    RunOne(s, a);
    RunMore(s, [a], b);
    RunMore(s, [a] + [b], c);
    assert [a] + [b] + [c] == [a, b, c];
    RunKeepsInv(s, [a, b, c]);
  }

  /** A round of the worker in slot i that receives an activity: the gauge call, then the handling. */
  lemma RoundRuns(s: State, i: nat, ending: Ending)
    requires Inv(s) && !s.crashed && i < |s.slots| && s.slots[i].Selecting? && s.queue != []
    ensures var a := s.queue[0];
            var s' := Run(s, [Worker(i, Take), Worker(i, Decrement), Worker(i, StepOf(ending))]);
            && Inv(s')
            && s' == s.(queue := s.queue[1..], taken := s.taken + [a], ended := s.ended + [a],
                        gauge := s.gauge[a.changeType := Gauge(s, a.changeType) - 1],
                        slots := if ending.Returns? then s.slots else s.slots[i := Recovering(ending.Panics?)])
  {
    var took := Apply(s, Worker(i, Take));
    var counted := Apply(took, Worker(i, Decrement));
    RunThree(s, Worker(i, Take), Worker(i, Decrement), Worker(i, StepOf(ending)));
    TakeIs(s, i);
    DecrementIs(took, i, s.queue[0]);
    EndingIs(counted, i, ending);
    hide Inv, Run, Apply;
    assert s.slots[i := Selecting] == s.slots;
  }

  /** No worker is in the middle of a round. */
  predicate BetweenRounds(slots: seq<Slot>) {
    forall i :: 0 <= i < |slots| ==> !slots[i].Taken? && !slots[i].Handling?
  }

  lemma QuitRuns(s: State, i: nat)
    requires Inv(s) && !s.crashed && i < |s.slots| && s.slots[i].Selecting? && s.quitting
    ensures Inv(Run(s, [Worker(i, SeeQuit)]))
    ensures Run(s, [Worker(i, SeeQuit)]) == s.(slots := s.slots[i := Recovering(false)])
  {
    RunOne(s, Worker(i, SeeQuit));
    RunKeepsInv(s, [Worker(i, SeeQuit)]);
  }

  class ActivityHandler {
    var queue: seq<Activity>
    var gauge: map<string, int>
    var slots: seq<Slot>
    var waitGroup: int
    var quitting: bool
    var crashed: bool
    var rejected: nat
    var failures: nat
    ghost var accepted: seq<Activity>
    ghost var taken: seq<Activity>
    ghost var ended: seq<Activity>
    ghost var doneCalls: seq<nat>

    ghost function View(): State
      reads this
    {
      State(queue, multiset{}, gauge, slots, waitGroup, quitting, crashed,
            accepted, rejected, taken, ended, doneCalls, failures)
    }

    ghost predicate Valid()
      reads this
    {
      Inv(View()) && BetweenRounds(slots)
    }

    constructor ()
      ensures Valid() && View() == INITIAL
    {
      queue, gauge, slots, waitGroup := [], map[], [], 0;
      quitting, crashed, rejected, failures := false, false, 0, 0;
      accepted, taken, ended, doneCalls := [], [], [], [];
      InitialInv();
    }

    /** One worker per slot, all of them counted in the wait group before they run. */
    method Start()
      requires Valid() && slots == [] && !quitting && !crashed
      modifies this
      ensures Valid() && View() == Run(old(View()), AddWorkers(NUMBER_OF_WORKERS))
      ensures slots == seq(NUMBER_OF_WORKERS, _ => Restarting) && waitGroup == NUMBER_OF_WORKERS
      ensures queue == old(queue) && gauge == old(gauge)
    {
      ghost var start := View();
      for n := 0 to NUMBER_OF_WORKERS
        invariant View() == Run(start, AddWorkers(n))
        invariant View() == start.(slots := slots, waitGroup := waitGroup, doneCalls := doneCalls)
        invariant slots == seq(n, _ => Restarting) && |doneCalls| == n && waitGroup == n
      {
        RunMore(start, AddWorkers(n), AddWorker);
        assert AddWorkers(n + 1) == AddWorkers(n) + [AddWorker];
        waitGroup := waitGroup + 1;
        slots, doneCalls := slots + [Restarting], doneCalls + [0];
      }
      RunKeepsInv(start, AddWorkers(NUMBER_OF_WORKERS));
    }

    /** Queues an activity, or rejects it when the queue is full. */
    method Handle(activity: Activity) returns (ok: bool)
      requires Valid() && !crashed
      modifies this
      ensures Valid() && ok == (|old(queue)| < QUEUE_SIZE)
      ensures View() == Run(old(View()), if ok then [WorkerPool.Handle(activity), Increment(activity.changeType)]
                                         else [WorkerPool.Handle(activity)])
      ensures queue == if ok then old(queue) + [activity] else old(queue)
      ensures rejected == if ok then old(rejected) else old(rejected) + 1
    {
      if |queue| < QUEUE_SIZE {
        AcceptRuns(View(), activity);
        queue, accepted := queue + [activity], accepted + [activity];
        var ct := activity.changeType;
        gauge := gauge[ct := (if ct in gauge then gauge[ct] else 0) + 1];
        return true;
      }
      RunOne(View(), WorkerPool.Handle(activity));
      RunKeepsInv(View(), [WorkerPool.Handle(activity)]);
      rejected := rejected + 1;
      return false;
    }

    /** Closes the quit channel, which is closed once only. */
    method CloseQuit()
      requires Valid() && !quitting && !crashed
      modifies this
      ensures Valid() && View() == Apply(old(View()), WorkerPool.Stop)
    {
      RunOne(View(), WorkerPool.Stop);
      RunKeepsInv(View(), [WorkerPool.Stop]);
      quitting := true;
    }

    /** Stop: closes the quit channel and waits for the workers, which run on in any order, their selects
        picking either channel and their handlers ending in any way. The wait ends, and then all have quit,
        unless a panic has taken the process down. */
    method Stop() returns (ghost run: seq<Event>)
      requires Valid() && !quitting && !crashed
      modifies this
      ensures Valid() && quitting
      ensures View() == Run(Apply(old(View()), WorkerPool.Stop), run)
      ensures !crashed ==> waitGroup == 0 && forall i :: 0 <= i < |slots| ==> slots[i].Quit?
      ensures |slots| == |old(slots)| && |queue| <= |old(queue)| && queue == old(queue)[|old(queue)| - |queue|..]
    {
      CloseQuit();
      ghost var start := View();
      run := [];
      assert Run(start, run) == start;
      while waitGroup > 0 && !crashed
        invariant Valid() && quitting && |slots| == |start.slots|
        invariant View() == Run(start, run)
        invariant |queue| <= |start.queue| && queue == start.queue[|start.queue| - |queue|..]
        decreases Remaining(View()), if crashed then 0 else 1
      {
        LiveIsAll(slots);
        var i :| 0 <= i < |slots| && !slots[i].Quit?;
        ghost var calls := RunWorker(i);
        RunAppend(start, run, calls);
        run := run + calls;
      }
      LiveIsAll(slots);
    }

    /** A worker that has not quit runs on while the pool is stopping. */
    method RunWorker(i: nat) returns (ghost calls: seq<Event>)
      requires Valid() && quitting && !crashed && i < |slots| && !slots[i].Quit?
      modifies this
      ensures Valid() && quitting && |slots| == |old(slots)|
      ensures View() == Run(old(View()), calls) && Remaining(View()) < Remaining(old(View()))
      ensures queue == old(queue) || (old(queue) != [] && queue == old(queue)[1..])
    {
      ghost var before := View();
      if slots[i].Recovering? {
        calls := [Worker(i, Recover)];
        WorkerStepGetsCloser(before, i, Recover);
        RunOne(before, Worker(i, Recover));
        DoRecover(i);
      } else if slots[i].Restarting? {
        calls := [Worker(i, Launch)];
        WorkerStepGetsCloser(before, i, Launch);
        RunOne(before, Worker(i, Launch));
        DoLaunch(i);
      } else {
        var picksQuit: bool, ending: Ending := *, *;
        calls := if picksQuit || queue == [] then [Worker(i, SeeQuit)]
                 else [Worker(i, Take), Worker(i, Decrement), Worker(i, StepOf(ending))];
        DoStartRound(i, picksQuit, ending);
        DistancesAfterSet(before.slots, i, slots[i]);
      }
    }

    /** The fresh goroutine of slot i enters its select loop. */
    method DoLaunch(i: nat)
      requires Valid() && !crashed && i < |slots| && slots[i].Restarting?
      modifies this
      ensures Valid() && View() == Apply(old(View()), Worker(i, Launch))
      ensures slots == old(slots)[i := Selecting] && queue == old(queue) && quitting == old(quitting)
    {
      RunOne(View(), Worker(i, Launch));
      RunKeepsInv(View(), [Worker(i, Launch)]);
      slots := slots[i := Selecting];
    }

    /** One round of the select loop of the worker in slot i. When both channels are ready the select may
        pick either. */
    method DoStartRound(i: nat, picksQuit: bool, ending: Ending)
      requires Valid() && !crashed && i < |slots| && slots[i].Selecting?
      requires queue != [] || quitting
      modifies this
      ensures Valid()
      ensures var quits := old(quitting) && (picksQuit || old(queue) == []);
              && View() == Run(old(View()), if quits then [Worker(i, SeeQuit)]
                                            else [Worker(i, Take), Worker(i, Decrement), Worker(i, StepOf(ending))])
              && queue == (if quits then old(queue) else old(queue)[1..]) && quitting == old(quitting)
              && slots == (if quits || ending.Exits? then old(slots)[i := Recovering(false)]
                           else if ending.Panics? then old(slots)[i := Recovering(true)]
                           else old(slots))
              && failures == old(failures) && waitGroup == old(waitGroup) && crashed == old(crashed)
    {
      hide Inv, Run, Apply;
      if quitting && (picksQuit || queue == []) {
        QuitRuns(View(), i);
        slots := slots[i := Recovering(false)];
        return;
      }
      RoundRuns(View(), i, ending);
      var activity := queue[0];
      queue, taken, ended := queue[1..], taken + [activity], ended + [activity];
      var ct := activity.changeType;
      gauge := gauge[ct := (if ct in gauge then gauge[ct] else 0) - 1];
      if !ending.Returns? { slots := slots[i := Recovering(ending.Panics?)]; }
    }

    /** The deferred function of the worker in slot i: quits, or counts a failure and starts again. */
    method DoRecover(i: nat)
      requires Valid() && !crashed && i < |slots| && slots[i].Recovering?
      modifies this
      ensures Valid() && View() == Apply(old(View()), Worker(i, Recover))
      ensures slots == old(slots)[i := if quitting then Slot.Quit else Restarting] && quitting == old(quitting)
      ensures queue == old(queue)
      ensures waitGroup == old(waitGroup) - (if quitting then 1 else 0)
      ensures crashed <==> quitting && old(slots[i]) == Recovering(true)
      ensures failures == old(failures) + (if quitting then 0 else 1)
    {
      RunOne(View(), Worker(i, Recover));
      RunKeepsInv(View(), [Worker(i, Recover)]);
      if quitting {
        waitGroup := waitGroup - 1;
        crashed := slots[i].panicking;
        slots, doneCalls := slots[i := Slot.Quit], doneCalls[i := doneCalls[i] + 1];
        return;
      }
      failures := failures + 1;
      slots := slots[i := Restarting];
    }
  }
}

/** How the threads of the scheduler leave once it is stopped (sylar/scheduler.cpp):
    at which step each does, and that one with nothing to do gets there within a
    fixed number of its own steps, whatever the others do. `stop` joins them. */
module ProtocolLeaving {
  import opened Prelude
  import opened Fibers
  import opened SleepQueues
  import opened Protocol
  import opened ProtocolRuns

  // ---------- Where a thread leaves ----------

  /** At the head of its loop a worker sees the switch, and after that it leaves iff
      its counter is 0, which is when it has no task but one just handed over and not
      counted yet; else it goes on. */
  lemma WorkerLeavesExact(n: nat, steps: seq<Step>, i: nat, c: Choice)
    requires i < n
    ensures var s, s' := Run(Started(n), steps), Next(Run(Started(n), steps), Work(i, c));
            && |s.workers| == |s'.workers| == n
            && (s.workers[i].at == Head ==> s'.workers[i].at == if s.stop then Counting else Body)
            && (s.workers[i].at == Counting ==>
                  && (s'.workers[i].at == Exited <==> s.workers[i].count == 0)
                  && (s'.workers[i].at == Body <==> s.workers[i].count > 0)
                  && (s.workers[i].count == 0 <==> Size(s.workers[i]) == One(Uncounted(s.allocator) == Some(i))))
  {
    ReachedSafe(n, steps, 0);
    LeavesExact(Run(Started(n), steps), i, c);
  }

  lemma LeavesExact(s: System, i: nat, c: Choice)
    requires Counters(s) && i < |s.workers|
    ensures var s' := Next(s, Work(i, c));
            && |s'.workers| == |s.workers|
            && (s.workers[i].at == Head ==> s'.workers[i].at == if s.stop then Counting else Body)
            && (s.workers[i].at == Counting ==>
                  && (s'.workers[i].at == Exited <==> s.workers[i].count == 0)
                  && (s'.workers[i].at == Body <==> s.workers[i].count > 0)
                  && (s.workers[i].count == 0 <==> Size(s.workers[i]) == One(Uncounted(s.allocator) == Some(i))))
  {
    assert WorkerCounts(Uncounted(s.allocator), s.workers[i], i);
  }

  /** The allocator likewise, by the global counter, which is 0 when the queue is
      empty but for a task that a submitter has not counted yet. */
  lemma AllocatorLeavesExact(n: nat, steps: seq<Step>)
    ensures var s, s' := Run(Started(n), steps), Next(Run(Started(n), steps), Allocate);
            && (s.allocator == ReadStop ==> s'.allocator == if s.stop then ReadCount else WantQueue)
            && (s.allocator == ReadCount ==>
                  && (s'.allocator == Done <==> s.count == 0)
                  && (s'.allocator == WantQueue <==> s.count > 0)
                  && (s.count == 0 <==> |s.tasks| == One(SubmitterPushed(s))))
  {
    ReachedSafe(n, steps, 0);
    assert GlobalCounter(Run(Started(n), steps));
  }

  // ---------- An idle worker leaves ----------

  /** A bound on the worker's own steps up to its leaving. */
  function Distance(at: WorkerAt): nat {
    match at
    case Exited => 0
    case Counting => 1
    case Head => 2
    case Body => 3
    case Picking => 3
    case Notifying(_, _) => 4
    case Waking(_) => 5
    case Clock => 6
    case Draining => 7
    case Trying => 8
    case Running(_) => 9
    case Ending(_) => 9
  }

  predicate Idle(w: WorkerState) {
    w.count == 0 && Size(w) == 0
  }

  lemma NothingThere(w: WorkerState)
    requires Size(w) == 0
    ensures w.init == [] && w.ready == multiset{} && w.sleep == multiset{} && w.hold == [] && Popped(w.at).None?
  {
  }

  lemma IdleStep(fibers: FiberMap, slept: Slept, w: WorkerState, c: Choice)
    requires Idle(w)
    ensures var w' := WorkerEffect(true, fibers, slept, w, c).worker;
            && Idle(w') && w'.given == w.given
            && (w.at == Exited ==> w'.at == Exited) && (w.at != Exited ==> Distance(w'.at) < Distance(w.at))
  {
    NothingThere(w);
    EffectKeeps(true, fibers, slept, w, c, 0);
  }

  lemma SizeZeroIsIdle(s: System, i: nat)
    requires Counters(s) && i < |s.workers| && Size(s.workers[i]) == 0
    ensures Idle(s.workers[i]) && Uncounted(s.allocator) != Some(i)
  {
    NothingThere(s.workers[i]);
    assert WorkerCounts(Uncounted(s.allocator), s.workers[i], i);
  }

  /** The others leave an idle worker as it is, apart from its lock, unless it is
      handed a task. */
  lemma OthersLeaveIdle(s: System, step: Step, i: nat)
    requires Locks(s) && Counters(s) && i < |s.workers| && Size(s.workers[i]) == 0
    requires !(step.Work? && step.w == i)
    ensures var w, s' := s.workers[i], Next(s, step);
            && |s'.workers| == |s.workers| && w.given <= s'.workers[i].given
            && (s'.workers[i].given == w.given ==> s'.workers[i] == w.(lock := s'.workers[i].lock))
  {
    SizeZeroIsIdle(s, i);
    match step
    case Stop =>
    case Submit(_, _) =>
    case Submitter(j) => if j in s.submitters { SubmitterTouches(s, j); }
    case Allocate => AllocatorLeavesIdle(s, i);
    case Work(_, _) =>
  }

  lemma AllocatorLeavesIdle(s: System, i: nat)
    requires Locks(s) && i < |s.workers| && Uncounted(s.allocator) != Some(i)
    ensures var w, s' := s.workers[i], AllocatorStep(s);
            && |s'.workers| == |s.workers| && w.given <= s'.workers[i].given
            && (s'.workers[i].given == w.given ==> s'.workers[i] == w.(lock := s'.workers[i].lock))
  {
    if Target(s.allocator).None? {
      CycleTouches(s);
    } else {
      var w := Target(s.allocator).value;
      if s.allocator.Moving? && s.tasks != [] && s.allocator.l > 0 {
        assert AllocatorStep(s) == MoveTask(s, w, s.allocator.l);
        assert |s.workers[w].given + [s.tasks[0]]| > |s.workers[w].given|;
      } else {
        ServeTouches(s, w);
        ServeMovesNothing(s, w);
        if !s.allocator.Moved? { ServeCountsNothing(s, w); }
      }
    }
  }

  /** How many steps worker `i` takes in the run. */
  function OwnSteps(steps: seq<Step>, i: nat): nat {
    if steps == [] then 0 else One(steps[0].Work? && steps[0].w == i) + OwnSteps(steps[1..], i)
  }

  lemma EffectGives(stop: bool, fibers: FiberMap, slept: Slept, w: WorkerState, c: Choice)
    ensures WorkerEffect(stop, fibers, slept, w, c).worker.given == w.given
  {
    EffectKeeps(stop, fibers, slept, w, c, 0);
  }

  lemma {:induction false} GivenGrows(s: System, steps: seq<Step>, i: nat)
    requires Safe(s, 0) && i < |s.workers|
    ensures |Run(s, steps).workers| == |s.workers| && s.workers[i].given <= Run(s, steps).workers[i].given
    decreases |steps|
  {
    if steps != [] {
      NextKeepsSafe(s, steps[0], 0);
      NextGives(s, steps[0], i);
      GivenGrows(Next(s, steps[0]), steps[1..], i);
    }
  }

  lemma NextGives(s: System, step: Step, i: nat)
    requires Locks(s) && i < |s.workers|
    ensures |Next(s, step).workers| == |s.workers| && s.workers[i].given <= Next(s, step).workers[i].given
  {
    match step
    case Stop =>
    case Submit(_, _) =>
    case Submitter(j) => if j in s.submitters { SubmitterTouches(s, j); }
    case Allocate => AllocatorGives(s, i);
    case Work(j, c) => if j < |s.workers| { EffectGives(s.stop, s.fibers, s.slept, s.workers[j], c); }
  }

  lemma AllocatorGives(s: System, i: nat)
    requires Locks(s) && i < |s.workers|
    ensures |AllocatorStep(s).workers| == |s.workers| && s.workers[i].given <= AllocatorStep(s).workers[i].given
  {
    if Target(s.allocator).None? {
      CycleTouches(s);
    } else {
      var w := Target(s.allocator).value;
      if s.allocator.Moving? && s.tasks != [] && s.allocator.l > 0 {
        assert AllocatorStep(s) == MoveTask(s, w, s.allocator.l);
      } else {
        ServeTouches(s, w);
        ServeMovesNothing(s, w);
      }
    }
  }

  /** One step of anybody brings an idle worker that has seen no task nearer to its
      leaving, or leaves it where it is. */
  lemma NextNearer(s: System, step: Step, i: nat)
    requires Safe(s, 0) && s.stop && i < |s.workers| && Size(s.workers[i]) == 0
    requires |Next(s, step).workers| == |s.workers| && Next(s, step).workers[i].given == s.workers[i].given
    ensures var w, w' := s.workers[i], Next(s, step).workers[i];
            && Next(s, step).stop && Size(w') == 0
            && (Distance(w'.at) + One(step.Work? && step.w == i) <= Distance(w.at) || w'.at == Exited)
  {
    SizeZeroIsIdle(s, i);
    if step.Work? && step.w == i {
      IdleStep(s.fibers, s.slept, s.workers[i], step.c);
    } else {
      OthersLeaveIdle(s, step, i);
      StopStays(s, step);
    }
  }

  lemma StopStays(s: System, step: Step)
    requires s.stop
    ensures Next(s, step).stop
  {
    if step.Submitter? && step.i in s.submitters { SubmitterTouches(s, step.i); }
    if step.Allocate? { AllocatorKeepsStop(s); }
  }

  lemma AllocatorKeepsStop(s: System)
    ensures AllocatorStep(s).stop == s.stop
  {
    var target := Target(s.allocator);
    if target.None? || target.value >= |s.workers| { CycleTouches(s); }
    else if !(s.allocator.Moving? && s.tasks != [] && s.allocator.l > 0) { ServeMovesNothing(s, target.value); }
  }

  /** What was handed over by the end was handed over at no step. */
  lemma NotHanded(s: System, step: Step, rest: seq<Step>, i: nat)
    requires Safe(s, 0) && i < |s.workers|
    ensures var (s', s'') := (Next(s, step), Run(Next(s, step), rest));
            && Safe(s', 0) && |s'.workers| == |s''.workers| == |s.workers|
            && (s''.workers[i].given == s.workers[i].given ==>
                  s'.workers[i].given == s.workers[i].given == s''.workers[i].given)
  {
    NextGives(s, step, i);
    NextKeepsSafe(s, step, 0);
    GivenGrows(Next(s, step), rest, i);
  }

  /** The worker has nothing to do, and `k` own steps are enough for it to leave. */
  ghost predicate LeavesWithin(s: System, i: nat, k: nat) {
    && Safe(s, 0) && s.stop && i < |s.workers| && Size(s.workers[i]) == 0
    && (k >= Distance(s.workers[i].at) || s.workers[i].at == Exited)
  }

  lemma LeavesSooner(s: System, step: Step, rest: seq<Step>, i: nat, k: nat)
    requires LeavesWithin(s, i, k + One(step.Work? && step.w == i))
    requires |Run(Next(s, step), rest).workers| == |s.workers|
    requires Run(Next(s, step), rest).workers[i].given == s.workers[i].given
    ensures var s' := Next(s, step);
            LeavesWithin(s', i, k) && |s'.workers| == |s.workers| && s'.workers[i].given == s.workers[i].given
  {
    NotHanded(s, step, rest, i);
    NextNearer(s, step, i);
  }

  lemma {:induction false} IdleLeaves(s: System, steps: seq<Step>, i: nat)
    requires LeavesWithin(s, i, OwnSteps(steps, i))
    requires |Run(s, steps).workers| == |s.workers| && Run(s, steps).workers[i].given == s.workers[i].given
    ensures Run(s, steps).workers[i].at == Exited
    decreases |steps|
  {
    if steps != [] {
      LeavesSooner(s, steps[0], steps[1..], i, OwnSteps(steps[1..], i));
      IdleLeaves(Next(s, steps[0]), steps[1..], i);
    }
  }

  /** In every run: once the scheduler is stopped, a worker that has no task, and is
      handed none, has left after eight of its own steps, and after two if it was at
      the head of its loop, whatever the other threads do in between. */
  lemma IdleWorkerLeaves(n: nat, before: seq<Step>, steps: seq<Step>, i: nat)
    requires i < n
    requires var s := Run(Started(n), before);
             && |s.workers| == n && s.stop && Size(s.workers[i]) == 0
             && OwnSteps(steps, i) >= (if s.workers[i].at == Head then 2 else 8)
    ensures var s, s' := Run(Started(n), before), Run(Run(Started(n), before), steps);
            && |s'.workers| == n
            && (s'.workers[i].given == s.workers[i].given ==> s'.workers[i].at == Exited)
  {
    ReachedSafe(n, before, 0);
    var s := Run(Started(n), before);
    GivenGrows(s, steps, i);
    NothingThere(s.workers[i]);
    if Run(s, steps).workers[i].given == s.workers[i].given { IdleLeaves(s, steps, i); }
  }

  /** So `stop` need not wait for an idle worker: at the head of its loop without a
      task when the switch is set, it is gone after two of its own steps. */
  lemma StoppedWorkerLeaves(n: nat, before: seq<Step>, steps: seq<Step>, i: nat)
    requires i < n
    requires var s := Run(Started(n), before);
             |s.workers| == n && s.workers[i].at == Head && Size(s.workers[i]) == 0 && OwnSteps(steps, i) >= 2
    ensures var (s, s') := (Run(Started(n), before), Run(Next(Run(Started(n), before), Step.Stop), steps));
            && Next(s, Step.Stop) == s.(stop := true) && |s'.workers| == n
            && (s'.workers[i].given == s.workers[i].given ==> s'.workers[i].at == Exited)
  {
    ReachedSafe(n, before, 0);
    var s := Run(Started(n), before);
    NextKeepsSafe(s, Step.Stop, 0);
    GivenGrows(Next(s, Step.Stop), steps, i);
    if Run(Next(s, Step.Stop), steps).workers[i].given == s.workers[i].given {
      IdleLeaves(Next(s, Step.Stop), steps, i);
    }
  }

  // ---------- An idle allocator leaves ----------

  /** A bound on the allocator's own steps up to its leaving. */
  function Remaining(a: AllocatorAt): nat {
    match a
    case Done => 0
    case ReadCount => 1
    case ReadStop => 2
    case FreeQueue => 3
    case FreeWorker(_) => 4
    case Moving(_, _) => 5
    case Testing(_) => 6
    case Raised(_, _) => 6
    case Moved(_, _) => 7
    case WantWorker(_) => 7
    case WantQueue => 8
  }

  /** Nothing is in the queue and nothing will get there. */
  predicate Dry(s: System) {
    s.stop && s.tasks == [] && s.submitters == map[]
  }

  /** The allocator's next step only finds a worker's lock taken. */
  predicate Waits(s: System) {
    s.allocator.WantWorker? && s.allocator.w < |s.workers| && s.workers[s.allocator.w].lock != Nobody
  }

  /** How many steps the allocator takes in the run without waiting. */
  ghost function FreeSteps(s: System, steps: seq<Step>): nat
    decreases |steps|
  {
    if steps == [] then 0 else One(steps[0].Allocate? && !Waits(s)) + FreeSteps(Next(s, steps[0]), steps[1..])
  }

  lemma DryStep(s: System)
    requires Locks(s) && Counters(s) && Dry(s)
    ensures var s' := AllocatorStep(s);
            && Dry(s') && (s.allocator == Done ==> s'.allocator == Done)
            && (s.allocator != Done ==> Remaining(s'.allocator) + One(!Waits(s)) <= Remaining(s.allocator))
  {
    AllocatorKeepsStop(s);
    AllocatorKeepsSubmissions(s);
    if Target(s.allocator).None? {
      DryCycle(s);
    } else {
      ServeMovesNothing(s, Target(s.allocator).value);
    }
  }

  lemma DryCycle(s: System)
    requires Locks(s) && Counters(s) && Dry(s) && Target(s.allocator).None?
    ensures var s' := Cycle(s);
            && s'.tasks == [] && (s.allocator == Done ==> s'.allocator == Done)
            && (s.allocator != Done ==> Remaining(s'.allocator) < Remaining(s.allocator))
  {
  }

  lemma StaysDry(s: System, step: Step)
    requires Dry(s) && !step.Allocate?
    ensures Dry(Next(s, step)) && Next(s, step).allocator == s.allocator
  {
  }

  lemma DryNext(s: System, step: Step)
    requires Safe(s, 0) && Dry(s)
    ensures var s' := Next(s, step);
            && Safe(s', 0) && Dry(s') && (s.allocator == Done ==> s'.allocator == Done)
            && (s.allocator != Done ==>
                  Remaining(s'.allocator) + One(step.Allocate? && !Waits(s)) <= Remaining(s.allocator))
  {
    NextKeepsSafe(s, step, 0);
    if step.Allocate? { DryStep(s); } else { StaysDry(s, step); }
  }

  lemma {:induction false} DryLeaves(s: System, steps: seq<Step>)
    requires Safe(s, 0) && Dry(s) && FreeSteps(s, steps) >= Remaining(s.allocator)
    ensures Run(s, steps).allocator == Done
    decreases |steps|
  {
    if steps != [] {
      DryNext(s, steps[0]);
      DryLeaves(Next(s, steps[0]), steps[1..]);
    }
  }

  /** In every run: once the scheduler is stopped, the queue is empty and no `submit`
      is under way, the allocator has left after eight of its own steps, and after
      two from between two rounds, whatever the workers do in between; steps that
      only find a worker's lock taken do not count. */
  lemma IdleAllocatorLeaves(n: nat, before: seq<Step>, steps: seq<Step>)
    requires var s := Run(Started(n), before);
             && s.stop && s.tasks == [] && s.submitters == map[]
             && FreeSteps(s, steps) >= (if s.allocator == ReadStop then 2 else 8)
    ensures Run(Run(Started(n), before), steps).allocator == Done
  {
    ReachedSafe(n, before, 0);
    DryLeaves(Run(Started(n), before), steps);
  }
}

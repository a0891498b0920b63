/** Progress of the allocator under every interleaving (sylar/scheduler.cpp): how
    many of its rounds it takes at most until a queue that is not empty gets
    shorter, whatever the other threads do in between. */
module AllocatorRuns {
  import opened Prelude
  import opened Fibers
  import opened SleepQueues
  import opened Protocol
  import opened ProtocolRuns
  import opened Allocators

  /** The step puts a task into the queue. */
  predicate Accepts(s: System, step: Step) {
    step.Submitter? && step.i in s.submitters && s.submitters[step.i].Holding? && |s.tasks| < QUEUE_LIMIT
  }

  /** The step ends a round: it gives the queue lock back. */
  predicate EndsRound(s: System, step: Step) {
    step.Allocate? && s.allocator == FreeQueue
  }

  ghost predicate NothingAccepted(s: System, steps: seq<Step>)
    decreases |steps|
  {
    steps == [] || (!Accepts(s, steps[0]) && NothingAccepted(Next(s, steps[0]), steps[1..]))
  }

  /** How many rounds the allocator ends in the run. */
  ghost function RoundsEnded(s: System, steps: seq<Step>): nat
    decreases |steps|
  {
    if steps == [] then 0 else One(EndsRound(s, steps[0])) + RoundsEnded(Next(s, steps[0]), steps[1..])
  }

  /** Worker `w` is below its limit, a task just pushed included. */
  predicate HasRoom(s: System, w: nat)
    requires w < |s.workers|
  {
    s.workers[w].count + One(Uncounted(s.allocator) == Some(w)) < WORKER_LIMIT
  }

  /** The next thing the allocator does to the queue is to take a task, for whichever
      worker it serves, or because it serves `w`. */
  predicate AboutToMove(a: AllocatorAt, w: nat) {
    (a.Moving? && a.l > 0) || a == WantWorker(w) || a == Testing(w)
  }

  /** Before the allocator has ended that many rounds, it has moved a task, if `w`
      has room. */
  function Rank(s: System, w: nat): nat
    requires w < |s.workers|
  {
    if AboutToMove(s.allocator, w) then 1
    else Wait(s.k, |s.workers|, w) + 1 + One(HoldsQueue(s.allocator))
  }

  /** No other thread touches what the allocator works on, apart from workers that
      lower their counters. */
  lemma OthersLeaveAlone(s: System, step: Step, w: nat)
    requires w < |s.workers| && HasRoom(s, w) && !step.Allocate? && !Accepts(s, step)
    ensures var s' := Next(s, step);
            && |s'.workers| == |s.workers| && s'.tasks == s.tasks && s'.allocator == s.allocator && s'.k == s.k
            && HasRoom(s', w)
  {
    if step.Submitter? && step.i in s.submitters { SubmitterTouches(s, step.i); }
    if step.Work? && step.w < |s.workers| { EffectKeeps(s.stop, s.fibers, s.slept, s.workers[step.w], step.c, 0); }
  }

  /** The allocator takes a task, or comes no further from taking one. */
  predicate Approaches(s: System, s': System, w: nat, ended: bool)
    requires w < |s.workers|
  {
    && |s'.workers| == |s.workers|
    && (|s'.tasks| < |s.tasks| || (s'.tasks == s.tasks && HasRoom(s', w) && Rank(s', w) + One(ended) <= Rank(s, w)))
  }

  predicate Takes(s: System) {
    s.allocator.Moving? && s.tasks != [] && s.allocator.l > 0
  }

  lemma RaiseApproaches(s: System, c: nat, w: nat)
    requires w < |s.workers| && c < |s.workers| && s.allocator.Moved? && s.allocator.w == c && HasRoom(s, w)
    ensures Approaches(s, RaiseCount(s, c, s.allocator.l), w, false)
  {
  }

  lemma StepsApproach(s: System, c: nat, w: nat)
    requires w < |s.workers| && c < |s.workers| && Target(s.allocator) == Some(c) && !Takes(s) && !s.allocator.Moved?
    requires s.tasks != [] && HasRoom(s, w)
    ensures Approaches(s, Serve(s, c), w, false)
  {
    ServeMovesNothing(s, c);
    ServeTouches(s, c);
    ServeCountsNothing(s, c);
  }

  lemma ServeApproaches(s: System, c: nat, w: nat)
    requires w < |s.workers| && c < |s.workers| && Target(s.allocator) == Some(c)
    requires s.tasks != [] && HasRoom(s, w)
    ensures Approaches(s, Serve(s, c), w, false)
  {
    if Takes(s) { assert Serve(s, c) == MoveTask(s, c, s.allocator.l); }
    else if s.allocator.Moved? { RaiseApproaches(s, c, w); }
    else { StepsApproach(s, c, w); }
  }

  lemma CycleApproaches(s: System, w: nat)
    requires w < |s.workers| && Target(s.allocator).None? && s.tasks != [] && HasRoom(s, w)
    ensures Approaches(s, Cycle(s), w, s.allocator == FreeQueue)
  {
  }

  lemma NextApproaches(s: System, step: Step, w: nat)
    requires Locks(s) && w < |s.workers| && s.tasks != [] && HasRoom(s, w) && !Accepts(s, step)
    ensures Approaches(s, Next(s, step), w, EndsRound(s, step))
  {
    if !step.Allocate? {
      OthersLeaveAlone(s, step, w);
    } else if Target(s.allocator).Some? {
      ServeApproaches(s, Target(s.allocator).value, w);
    } else {
      CycleApproaches(s, w);
    }
  }

  lemma AllocatorTakes(s: System)
    ensures |AllocatorStep(s).tasks| <= |s.tasks|
  {
    var target := Target(s.allocator);
    if target.None? || target.value >= |s.workers| { CycleTouches(s); }
    else if Takes(s) { assert AllocatorStep(s) == MoveTask(s, target.value, s.allocator.l); }
    else { ServeMovesNothing(s, target.value); }
  }

  lemma {:induction false} NeverLonger(s: System, steps: seq<Step>)
    requires NothingAccepted(s, steps)
    ensures |Run(s, steps).tasks| <= |s.tasks|
    decreases |steps|
  {
    if steps != [] {
      if steps[0].Submitter? && steps[0].i in s.submitters { SubmitterTouches(s, steps[0].i); }
      AllocatorTakes(s);
      NeverLonger(Next(s, steps[0]), steps[1..]);
    }
  }

  lemma {:induction false} ShrinksByTheRank(s: System, steps: seq<Step>, w: nat)
    requires Locks(s) && w < |s.workers| && s.tasks != [] && HasRoom(s, w)
    requires NothingAccepted(s, steps) && RoundsEnded(s, steps) >= Rank(s, w)
    ensures |Run(s, steps).tasks| < |s.tasks|
    decreases |steps|
  {
    var s' := Next(s, steps[0]);
    NextApproaches(s, steps[0], w);
    NextKeepsLocks(s, steps[0]);
    if |s'.tasks| < |s.tasks| { NeverLonger(s', steps[1..]); } else { ShrinksByTheRank(s', steps[1..], w); }
  }

  /** In every run: from any state between two rounds in which the queue is not
      empty and some worker is below its limit, by the time the allocator has ended
      as many rounds as there are workers, the queue is shorter, provided nothing is
      accepted meanwhile; one round more is needed from within a round. All threads
      may take any steps in between. */
  lemma QueueShrinks(n: nat, before: seq<Step>, steps: seq<Step>, w: nat)
    requires w < n
    requires var s := Run(Started(n), before);
             && |s.workers| == n && s.tasks != [] && HasRoom(s, w) && NothingAccepted(s, steps)
             && RoundsEnded(s, steps) >= n + One(HoldsQueue(s.allocator))
    ensures |Run(Run(Started(n), before), steps).tasks| < |Run(Started(n), before).tasks|
  {
    ReachedSafe(n, before, 0);
    ShrinksByTheRank(Run(Started(n), before), steps, w);
  }
}

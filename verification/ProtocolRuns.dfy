/** What holds in every state the scheduler can reach, under every interleaving
    of its submitters, its allocator and its workers: tasks are neither lost nor
    doubled, they are dispatched and started in submission order, the queues stay
    within their bounds, and nobody is woken too early. */
module ProtocolRuns {
  import opened Prelude
  import opened Fibers
  import opened SleepQueues
  import opened Protocol

  // ---------- Every accepted task is in exactly one place ----------

  ghost function Total(ws: seq<WorkerState>, t: nat): nat {
    if ws == [] then 0 else Copies(ws[0], t) + Total(ws[1..], t)
  }

  lemma {:induction false} TotalMoves(ws: seq<WorkerState>, i: nat, w: WorkerState, t: nat)
    requires i < |ws|
    ensures Total(ws[i := w], t) + Copies(ws[i], t) == Total(ws, t) + Copies(w, t)
  {
    if i == 0 {
      assert ws[i := w][1..] == ws[1..];
    } else {
      assert ws[i := w][1..] == ws[1..][i - 1 := w];
      TotalMoves(ws[1..], i - 1, w, t);
    }
  }

  lemma {:induction false} PartOfTotal(ws: seq<WorkerState>, i: nat, t: nat)
    requires i < |ws|
    ensures Copies(ws[i], t) <= Total(ws, t)
  {
    if i > 0 { PartOfTotal(ws[1..], i - 1, t); }
  }

  lemma {:induction false} TwoPartsOfTotal(ws: seq<WorkerState>, i: nat, j: nat, t: nat)
    requires i < j < |ws|
    ensures Copies(ws[i], t) + Copies(ws[j], t) <= Total(ws, t)
  {
    if i == 0 { PartOfTotal(ws[1..], j - 1, t); } else { TwoPartsOfTotal(ws[1..], i - 1, j - 1, t); }
  }

  lemma {:induction false} NothingAtFirst(n: nat, t: nat)
    ensures Total(seq(n, _ => FreshWorker()), t) == 0
  {
    if n > 0 {
      assert seq(n, _ => FreshWorker())[1..] == seq(n - 1, _ => FreshWorker());
      NothingAtFirst(n - 1, t);
    }
  }

  /** How often `t` is in the system: in the global queue, with a worker, or
      finished. */
  ghost function Places(s: System, t: nat): nat {
    multiset(s.tasks)[t] + Total(s.workers, t) + multiset(s.finished)[t]
  }

  ghost predicate Conserved(s: System, t: nat) {
    multiset(s.accepted)[t] == Places(s, t)
  }

  lemma WorkConserves(s: System, i: nat, c: Choice, t: nat)
    requires Conserved(s, t) && i < |s.workers|
    ensures Conserved(WorkerStep(s, i, c), t)
  {
    EffectKeeps(s.stop, s.fibers, s.slept, s.workers[i], c, t);
    TotalMoves(s.workers, i, EffectOf(s, i, c).worker, t);
  }

  lemma MoveConserves(s: System, w: nat, l: int, t: nat)
    requires Conserved(s, t) && w < |s.workers| && s.tasks != []
    ensures Conserved(MoveTask(s, w, l), t)
  {
    assert s.tasks == [s.tasks[0]] + s.tasks[1..];
    TotalMoves(s.workers, w, MoveTask(s, w, l).workers[w], t);
  }

  lemma ServeConserves(s: System, w: nat, t: nat)
    requires Conserved(s, t) && Target(s.allocator) == Some(w) && w < |s.workers|
    ensures Conserved(Serve(s, w), t)
  {
    if s.allocator.Moving? && s.tasks != [] && s.allocator.l > 0 {
      MoveConserves(s, w, s.allocator.l, t);
    } else {
      ServeTouches(s, w);
      ServeMovesNothing(s, w);
      TotalMoves(s.workers, w, Serve(s, w).workers[w], t);
    }
  }

  lemma CycleConserves(s: System, t: nat)
    requires Conserved(s, t)
    ensures Conserved(Cycle(s), t)
  {
    CycleTouches(s);
  }

  lemma HoldingConserves(s: System, i: nat, t: nat)
    requires Conserved(s, t) && i in s.submitters && s.submitters[i].Holding?
    ensures Conserved(SubmitterStep(s, i), t)
  {
    var u := s.submitters[i].t;
    assert multiset(s.tasks + [u])[t] == multiset(s.tasks)[t] + One(u == t);
    assert multiset(s.accepted + [u])[t] == multiset(s.accepted)[t] + One(u == t);
  }

  lemma SubmitterConserves(s: System, i: nat, t: nat)
    requires Conserved(s, t) && i in s.submitters
    ensures Conserved(SubmitterStep(s, i), t)
  {
    SubmitterTouches(s, i);
    if s.submitters[i].Holding? { HoldingConserves(s, i, t); }
  }

  lemma NextConserves(s: System, step: Step, t: nat)
    requires Locks(s) && Conserved(s, t)
    ensures Conserved(Next(s, step), t)
  {
    match step
    case Stop =>
    case Submit(_, _) =>
    case Submitter(i) => if i in s.submitters { SubmitterConserves(s, i, t); }
    case Allocate =>
      if Target(s.allocator).Some? { ServeConserves(s, Target(s.allocator).value, t); } else { CycleConserves(s, t); }
    case Work(i, c) => if i < |s.workers| { WorkConserves(s, i, c, t); }
  }

  /** Submitter `i` has `t` in hand. */
  predicate Carries(submitters: map<nat, SubmitterAt>, i: nat, t: nat) {
    i in submitters && (submitters[i] == Wanting(t) || submitters[i] == Holding(t))
  }

  /** `t` has been submitted at most once. */
  ghost predicate Fresh(s: System, t: nat) {
    && multiset(s.accepted)[t] <= 1
    && (t in s.accepted ==> t in s.used)
    && (forall i :: Carries(s.submitters, i, t) ==> t in s.used && t !in s.accepted)
    && (forall i, j :: Carries(s.submitters, i, t) && Carries(s.submitters, j, t) ==> i == j)
  }

  lemma SubmitterKeepsFresh(s: System, i: nat, t: nat)
    requires Fresh(s, t) && i in s.submitters
    ensures Fresh(SubmitterStep(s, i), t)
  {
    var s' := SubmitterStep(s, i);
    forall j | Carries(s'.submitters, j, t) ensures Carries(s.submitters, j, t) {
    }
    if s.submitters[i] == Holding(t) { assert Carries(s.submitters, i, t); }
  }

  lemma NewSubmitKeepsFresh(s: System, i: nat, u: nat, t: nat)
    requires Fresh(s, t)
    ensures Fresh(Next(s, Submit(i, u)), t)
  {
    var s' := Next(s, Submit(i, u));
    forall j | Carries(s'.submitters, j, t) ensures Carries(s.submitters, j, t) || (j == i && t == u && t !in s.used) {
    }
  }

  lemma AllocatorKeepsSubmissions(s: System)
    ensures var s' := AllocatorStep(s);
            s'.accepted == s.accepted && s'.used == s.used && s'.submitters == s.submitters && s'.fibers == s.fibers
  {
    var target := Target(s.allocator);
    if target.Some? && target.value < |s.workers| {
      if !(s.allocator.Moving? && s.tasks != [] && s.allocator.l > 0) { ServeMovesNothing(s, target.value); }
    } else {
      CycleTouches(s);
    }
  }

  lemma NextKeepsFresh(s: System, step: Step, t: nat)
    requires Fresh(s, t)
    ensures Fresh(Next(s, step), t)
  {
    match step
    case Stop =>
    case Submit(i, u) => NewSubmitKeepsFresh(s, i, u, t);
    case Submitter(i) => if i in s.submitters { SubmitterKeepsFresh(s, i, t); }
    case Allocate => AllocatorKeepsSubmissions(s);
    case Work(i, c) =>
  }

  // ---------- First in, first out ----------

  /** The tasks of a list of dispatches, and those that went to worker `w`. */
  ghost function TasksOf(dispatched: seq<(nat, nat)>): seq<nat> {
    if dispatched == [] then [] else TasksOf(dispatched[..|dispatched| - 1]) + [dispatched[|dispatched| - 1].0]
  }

  ghost function Route(dispatched: seq<(nat, nat)>, w: nat): seq<nat> {
    if dispatched == [] then []
    else
      var (t, to) := dispatched[|dispatched| - 1];
      Route(dispatched[..|dispatched| - 1], w) + if to == w then [t] else []
  }

  ghost predicate OnRoute(dispatched: seq<(nat, nat)>, w: WorkerState, i: nat) {
    w.given == Route(dispatched, i) && w.started + w.init == w.given
  }

  ghost predicate Queued(s: System) {
    && s.accepted == TasksOf(s.dispatched) + s.tasks
    && (forall i {:trigger s.workers[i]} :: 0 <= i < |s.workers| ==> OnRoute(s.dispatched, s.workers[i], i))
    && (forall i :: 0 <= i < |s.dispatched| ==> s.dispatched[i].1 < |s.workers|)
  }

  lemma WorkKeepsQueued(s: System, i: nat, c: Choice)
    requires Queued(s) && i < |s.workers|
    ensures Queued(WorkerStep(s, i, c))
  {
    EffectKeeps(s.stop, s.fibers, s.slept, s.workers[i], c, 0);
    assert OnRoute(s.dispatched, s.workers[i], i);
  }

  /** One more dispatch takes the front of the queue along. */
  lemma TasksMove(d: seq<(nat, nat)>, tasks: seq<nat>, w: nat)
    requires tasks != []
    ensures TasksOf(d + [(tasks[0], w)]) + tasks[1..] == TasksOf(d) + tasks
  {
    assert (d + [(tasks[0], w)])[..|d|] == d;
    assert tasks == [tasks[0]] + tasks[1..];
  }

  lemma RouteGrows(d: seq<(nat, nat)>, x: (nat, nat), w: nat)
    ensures Route(d + [x], w) == Route(d, w) + if x.1 == w then [x.0] else []
  {
    assert (d + [x])[..|d|] == d;
  }

  lemma MoveOnRoute(s: System, w: nat, l: int, i: nat)
    requires w < |s.workers| && s.tasks != [] && i < |s.workers| && OnRoute(s.dispatched, s.workers[i], i)
    ensures var s' := MoveTask(s, w, l); OnRoute(s'.dispatched, s'.workers[i], i)
  {
    RouteGrows(s.dispatched, (s.tasks[0], w), i);
    if i == w {
      Appends(s.workers[w].started, s.workers[w].init, s.tasks[0]);
    } else {
      assert Route(s.dispatched, i) + [] == Route(s.dispatched, i);
    }
  }

  lemma Appends(a: seq<nat>, b: seq<nat>, t: nat)
    ensures a + (b + [t]) == (a + b) + [t]
  {
  }

  lemma MoveKeepsQueued(s: System, w: nat, l: int)
    requires Queued(s) && w < |s.workers| && s.tasks != []
    ensures Queued(MoveTask(s, w, l))
  {
    var s' := MoveTask(s, w, l);
    TasksMove(s.dispatched, s.tasks, w);
    forall i {:trigger s'.workers[i]} | 0 <= i < |s.workers| ensures OnRoute(s'.dispatched, s'.workers[i], i) {
      assert OnRoute(s.dispatched, s.workers[i], i);
      MoveOnRoute(s, w, l, i);
    }
  }

  lemma ServeKeepsQueued(s: System, w: nat)
    requires Queued(s) && Target(s.allocator) == Some(w) && w < |s.workers|
    ensures Queued(Serve(s, w))
  {
    if s.allocator.Moving? && s.tasks != [] && s.allocator.l > 0 {
      MoveKeepsQueued(s, w, s.allocator.l);
    } else {
      ServeTouches(s, w);
      ServeMovesNothing(s, w);
      assert OnRoute(s.dispatched, s.workers[w], w);
    }
  }

  lemma CycleKeepsQueued(s: System)
    requires Queued(s)
    ensures Queued(Cycle(s))
  {
    CycleTouches(s);
  }

  lemma SubmitterKeepsQueued(s: System, i: nat)
    requires Queued(s) && i in s.submitters
    ensures Queued(SubmitterStep(s, i))
  {
    if s.submitters[i].Holding? {
      var t := s.submitters[i].t;
      assert TasksOf(s.dispatched) + (s.tasks + [t]) == (TasksOf(s.dispatched) + s.tasks) + [t];
    }
  }

  lemma NextKeepsQueued(s: System, step: Step)
    requires Locks(s) && Queued(s)
    ensures Queued(Next(s, step))
  {
    match step
    case Stop =>
    case Submit(_, _) =>
    case Submitter(i) => if i in s.submitters { SubmitterKeepsQueued(s, i); }
    case Allocate =>
      if Target(s.allocator).Some? { ServeKeepsQueued(s, Target(s.allocator).value); } else { CycleKeepsQueued(s); }
    case Work(i, c) => if i < |s.workers| { WorkKeepsQueued(s, i, c); }
  }

  // ---------- Bounds ----------

  const MOST_TASKS := WORKER_LIMIT + BATCH - 1

  /** How many more tasks the allocator may still count for worker `i` in this
      round. */
  function Room(a: AllocatorAt, i: nat): int {
    if a.Moving? && a.w == i then a.l
    else if a.Moved? && a.w == i then a.l
    else if a.Raised? && a.w == i then a.l - 1
    else 0
  }

  predicate RoundFits(a: AllocatorAt) {
    && (a.Moving? ==> 0 <= a.l <= BATCH)
    && (a.Moved? || a.Raised? ==> 1 <= a.l <= BATCH)
  }

  ghost predicate Bounded(s: System) {
    && |s.tasks| <= QUEUE_LIMIT && RoundFits(s.allocator)
    && (forall i {:trigger s.workers[i]} :: 0 <= i < |s.workers| ==>
          s.workers[i].count + Room(s.allocator, i) <= MOST_TASKS)
  }

  lemma ServeFits(s: System, w: nat)
    requires RoundFits(s.allocator) && Target(s.allocator) == Some(w) && w < |s.workers|
    requires s.workers[w].count + Room(s.allocator, w) <= MOST_TASKS
    ensures RoundFits(Serve(s, w).allocator) && |Serve(s, w).tasks| <= |s.tasks|
    ensures Serve(s, w).workers[w].count + Room(Serve(s, w).allocator, w) <= MOST_TASKS
  {
    if s.allocator.Moving? && s.tasks != [] && s.allocator.l > 0 {
      assert Serve(s, w) == MoveTask(s, w, s.allocator.l);
    } else {
      ServeMovesNothing(s, w);
    }
  }

  lemma ServeKeepsBounded(s: System, w: nat)
    requires Bounded(s) && Target(s.allocator) == Some(w) && w < |s.workers|
    ensures Bounded(Serve(s, w))
  {
    ServeTouches(s, w);
    ServeFits(s, w);
  }

  lemma WorkKeepsBounded(s: System, i: nat, c: Choice)
    requires Bounded(s) && i < |s.workers|
    ensures Bounded(WorkerStep(s, i, c))
  {
    EffectKeeps(s.stop, s.fibers, s.slept, s.workers[i], c, 0);
    assert s.workers[i].count + Room(s.allocator, i) <= MOST_TASKS;
  }

  lemma CycleKeepsBounded(s: System)
    requires Bounded(s) && Target(s.allocator).None?
    ensures Bounded(Cycle(s))
  {
    CycleTouches(s);
    assert RoundFits(Cycle(s).allocator);
    forall i | 0 <= i < |s.workers| ensures Room(Cycle(s).allocator, i) == 0 {
    }
  }

  lemma NextKeepsBounded(s: System, step: Step)
    requires Locks(s) && Bounded(s)
    ensures Bounded(Next(s, step))
  {
    match step
    case Stop =>
    case Submit(_, _) =>
    case Submitter(i) =>
    case Allocate =>
      if Target(s.allocator).Some? { ServeKeepsBounded(s, Target(s.allocator).value); } else { CycleKeepsBounded(s); }
    case Work(i, c) => if i < |s.workers| { WorkKeepsBounded(s, i, c); }
  }

  // ---------- Leaving ----------

  /** A thread that reads its counter to leave has seen the switch. */
  ghost predicate StopSeen(s: System) {
    && (s.allocator.ReadCount? || s.allocator.Done? ==> s.stop)
    && (forall i {:trigger s.workers[i]} :: 0 <= i < |s.workers| ==>
          (s.workers[i].at.Counting? || s.workers[i].at.Exited? ==> s.stop))
  }

  lemma EffectSeesStop(stop: bool, fibers: FiberMap, slept: Slept, w: WorkerState, c: Choice)
    requires w.at.Counting? || w.at.Exited? ==> stop
    ensures var at := WorkerEffect(stop, fibers, slept, w, c).worker.at; at.Counting? || at.Exited? ==> stop
  {
  }

  lemma ServeSeesStop(s: System, w: nat)
    requires StopSeen(s) && Target(s.allocator) == Some(w) && w < |s.workers|
    ensures StopSeen(Serve(s, w))
  {
    if s.allocator.Moving? && s.tasks != [] && s.allocator.l > 0 {
      assert Serve(s, w) == MoveTask(s, w, s.allocator.l);
    } else {
      ServeTouches(s, w);
      ServeMovesNothing(s, w);
    }
  }

  lemma NextSeesStop(s: System, step: Step)
    requires Locks(s) && StopSeen(s)
    ensures StopSeen(Next(s, step))
  {
    match step
    case Stop =>
    case Submit(_, _) =>
    case Submitter(i) => if i in s.submitters { SubmitterTouches(s, i); }
    case Allocate =>
      if Target(s.allocator).Some? { ServeSeesStop(s, Target(s.allocator).value); } else { CycleTouches(s); }
    case Work(i, c) => if i < |s.workers| { EffectSeesStop(s.stop, s.fibers, s.slept, s.workers[i], c); }
  }

  // ---------- Every run ----------

  /** All of the above. */
  ghost predicate Safe(s: System, t: nat) {
    Locks(s) && Counters(s) && Conserved(s, t) && Fresh(s, t) && Queued(s) && Bounded(s) && StopSeen(s)
  }

  lemma LocksAtFirst(n: nat)
    ensures Locks(Started(n)) && Counters(Started(n)) && StopSeen(Started(n))
  {
  }

  lemma QueuesAtFirst(n: nat, t: nat)
    ensures Queued(Started(n)) && Bounded(Started(n)) && Fresh(Started(n), t)
  {
  }

  lemma SafeAtFirst(n: nat, t: nat)
    ensures Safe(Started(n), t)
  {
    LocksAtFirst(n);
    QueuesAtFirst(n, t);
    NothingAtFirst(n, t);
    assert Conserved(Started(n), t);
  }

  lemma NextKeepsSafe(s: System, step: Step, t: nat)
    requires Safe(s, t)
    ensures Safe(Next(s, step), t)
  {
    NextKeepsLocks(s, step);
    NextKeepsCounters(s, step);
    NextConserves(s, step, t);
    NextKeepsFresh(s, step, t);
    NextKeepsQueued(s, step);
    NextKeepsBounded(s, step);
    NextSeesStop(s, step);
  }

  lemma NextKeepsWorkers(s: System, step: Step)
    ensures |Next(s, step).workers| == |s.workers|
  {
    if step.Allocate? { CycleTouches(s); }
  }

  lemma {:induction false} RunKeepsSafe(s: System, steps: seq<Step>, t: nat)
    requires Safe(s, t)
    ensures Safe(Run(s, steps), t) && |Run(s, steps).workers| == |s.workers|
    decreases |steps|
  {
    if steps != [] {
      NextKeepsSafe(s, steps[0], t);
      NextKeepsWorkers(s, steps[0]);
      RunKeepsSafe(Next(s, steps[0]), steps[1..], t);
    }
  }

  lemma ReachedSafe(n: nat, steps: seq<Step>, t: nat)
    ensures Safe(Run(Started(n), steps), t) && |Run(Started(n), steps).workers| == n
  {
    SafeAtFirst(n, t);
    RunKeepsSafe(Started(n), steps, t);
  }

  /** Conservation, for any number of workers and every interleaving: a task is
      in the global queue, in one queue of one worker, popped by one worker, or
      finished, once and in one of these places only, iff it has been accepted. */
  lemma TaskConservation(n: nat, steps: seq<Step>, t: nat)
    ensures var s := Run(Started(n), steps);
            Places(s, t) == if t in s.accepted then 1 else 0
  {
    ReachedSafe(n, steps, t);
  }

  /** The counters, whenever the locks that guard them are free; none is ever
      negative, and a worker that has left holds nothing in its own queues. */
  lemma CounterExact(n: nat, steps: seq<Step>)
    ensures var s := Run(Started(n), steps);
            && 0 <= s.count && (s.lock == Unlocked ==> s.count == |s.tasks|)
            && forall i {:trigger s.workers[i]} :: 0 <= i < |s.workers| ==>
                 var w := s.workers[i];
                 && 0 <= w.count && (w.lock == Nobody || w.lock == Self ==> w.count == Size(w))
                 && (w.at == Exited ==> w.ready == multiset{} && w.sleep == multiset{} && w.hold == [])
  {
    ReachedSafe(n, steps, 0);
    var s := Run(Started(n), steps);
    forall i | 0 <= i < |s.workers|
      ensures WorkerCounts(Uncounted(s.allocator), s.workers[i], i) && WorkerLock(Locked(s.allocator), s.workers[i], i)
    {
    }
  }

  lemma AllocatorLeaves(s: System)
    requires Locks(s) && GlobalCounter(s) && StopSeen(s)
    ensures AllocatorStep(s).allocator.Done? && !s.allocator.Done? ==> s.stop && |s.tasks| <= One(SubmitterPushed(s))
  {
    if Target(s.allocator).Some? { ServeTouches(s, Target(s.allocator).value); }
  }

  lemma ServeKeepsPlaces(s: System, w: nat, i: nat)
    requires w < |s.workers| && i < |s.workers| && Target(s.allocator) == Some(w)
    ensures Serve(s, w).workers[i].at == s.workers[i].at
  {
    ServeTouches(s, w);
    if s.allocator.Moving? && s.tasks != [] && s.allocator.l > 0 {
      assert Serve(s, w) == MoveTask(s, w, s.allocator.l);
    } else {
      ServeMovesNothing(s, w);
    }
  }

  lemma WorkerLeaves(stop: bool, fibers: FiberMap, slept: Slept, w: WorkerState, c: Choice)
    requires w.at.Counting? ==> stop
    ensures WorkerEffect(stop, fibers, slept, w, c).worker.at.Exited? && !w.at.Exited? ==> stop && w.count <= 0
  {
    if Advance(stop, fibers, w, c).Some? { AdvanceMoves(stop, fibers, w, c); }
  }

  lemma StepLeaves(s: System, step: Step, i: nat)
    requires Locks(s) && GlobalCounter(s) && StopSeen(s) && i < |s.workers| && |Next(s, step).workers| == |s.workers|
    ensures var s' := Next(s, step);
            && (s'.allocator.Done? && !s.allocator.Done? ==> s.stop && |s.tasks| <= One(SubmitterPushed(s)))
            && (s'.workers[i].at.Exited? && !s.workers[i].at.Exited? ==> s.stop && s.workers[i].count <= 0)
  {
    match step
    case Stop =>
    case Submit(_, _) =>
    case Submitter(j) => if j in s.submitters { SubmitterTouches(s, j); }
    case Allocate =>
      AllocatorLeaves(s);
      if Target(s.allocator).Some? { ServeKeepsPlaces(s, Target(s.allocator).value, i); } else { CycleTouches(s); }
    case Work(j, c) => if j < |s.workers| { WorkerLeaves(s.stop, s.fibers, s.slept, s.workers[j], c); }
  }

  /** No thread leaves before `stop`. When the allocator leaves, the global queue is
      empty or holds one task, pushed by a submitter that has not counted it yet;
      when a worker leaves, it has nothing to do beyond one task just handed over. */
  lemma LeavesWhenDone(n: nat, steps: seq<Step>, step: Step, i: nat)
    requires i < n
    ensures var s, s' := Run(Started(n), steps), Next(Run(Started(n), steps), step);
            && |s.workers| == |s'.workers| == n
            && (s'.allocator.Done? && !s.allocator.Done? ==> s.stop && |s.tasks| <= One(SubmitterPushed(s)))
            && (s'.workers[i].at.Exited? && !s.workers[i].at.Exited? ==>
                  s.stop && Size(s.workers[i]) <= One(Uncounted(s.allocator) == Some(i)))
  {
    ReachedSafe(n, steps, 0);
    var s := Run(Started(n), steps);
    NextKeepsWorkers(s, step);
    assert WorkerCounts(Uncounted(s.allocator), s.workers[i], i);
    StepLeaves(s, step, i);
  }

  /** `submit` in numbers: with the queue lock in hand a task is accepted, at the end of
      the queue, iff fewer than 10000 are waiting, and else its fiber is destroyed; once
      the scheduler is stopped a new call comes to nothing. */
  lemma SubmitExact(s: System, i: nat, t: nat)
    ensures i in s.submitters && s.submitters[i] == Holding(t) ==>
              var s' := Next(s, Submitter(i));
              if |s.tasks| < 10000 then
                s'.tasks == s.tasks + [t] && s'.accepted == s.accepted + [t] && s'.fibers == s.fibers
              else
                s'.tasks == s.tasks && s'.accepted == s.accepted && t in s'.fibers && s'.fibers[t].state == DESTROY
    ensures i !in s.submitters && t !in s.used ==>
              var s' := Next(s, Submit(i, t));
              && s'.tasks == s.tasks && s'.accepted == s.accepted
              && if s.stop then s'.submitters == s.submitters && s'.fibers == s.fibers
                 else i in s'.submitters && s'.submitters[i] == Wanting(t)
                      && t in s'.fibers && s'.fibers[t].state == INIT
  {
  }

  /** The allocator in numbers: a worker below 100000 tasks is given up to ten. */
  lemma TestExact(s: System, w: nat)
    requires w < |s.workers| && s.allocator == Testing(w)
    ensures Next(s, Allocate) ==
            s.(allocator := if s.workers[w].count < 100000 then Moving(w, 10) else FreeWorker(w))
  {
  }

  /** No queue outgrows its bound: the tests are made before the batch. */
  lemma Backpressure(n: nat, steps: seq<Step>)
    ensures var s := Run(Started(n), steps);
            && |s.tasks| <= 10000
            && forall i {:trigger s.workers[i]} :: 0 <= i < |s.workers| ==> s.workers[i].count <= 100009
  {
    ReachedSafe(n, steps, 0);
    var s := Run(Started(n), steps);
    forall i {:trigger s.workers[i]} | 0 <= i < |s.workers| ensures s.workers[i].count <= 100009 {
      assert s.workers[i].count + Room(s.allocator, i) <= MOST_TASKS;
    }
  }

  /** `a` is what is left of `b` after striking out elements. */
  ghost predicate Subsequence(a: seq<nat>, b: seq<nat>) {
    if a == [] then true
    else if b == [] then false
    else
      var b' := b[..|b| - 1];
      Subsequence(a, b') || (a[|a| - 1] == b[|b| - 1] && Subsequence(a[..|a| - 1], b'))
  }

  lemma {:induction false} RouteIsSubsequence(d: seq<(nat, nat)>, w: nat)
    ensures Subsequence(Route(d, w), TasksOf(d))
    decreases |d|
  {
    if d != [] {
      var d', last := d[..|d| - 1], d[|d| - 1];
      RouteIsSubsequence(d', w);
      var a, b := Route(d, w), TasksOf(d);
      assert b[..|b| - 1] == TasksOf(d');
      if last.1 == w { assert a[..|a| - 1] == Route(d', w); } else { assert a == Route(d', w); }
    }
  }

  ghost function Sum(f: nat -> nat, n: nat): nat {
    if n == 0 then 0 else Sum(f, n - 1) + f(n - 1)
  }

  lemma {:induction false} SumOneMore(f: nat -> nat, g: nat -> nat, n: nat, at: nat, more: bool)
    requires forall w: nat :: f(w) == g(w) + One(more && w == at)
    ensures Sum(f, n) == Sum(g, n) + One(more && at < n)
  {
    if n > 0 { SumOneMore(f, g, n - 1, at, more); }
  }

  lemma {:induction false} SumNothing(f: nat -> nat, n: nat)
    requires forall w: nat :: f(w) == 0
    ensures Sum(f, n) == 0
  {
    if n > 0 { SumNothing(f, n - 1); }
  }

  /** How often `t` went to each worker. */
  ghost function Given(d: seq<(nat, nat)>, t: nat): nat -> nat {
    w => multiset(Route(d, w))[t]
  }

  lemma GivenOneMore(d: seq<(nat, nat)>, x: (nat, nat), w: nat, t: nat)
    ensures Given(d + [x], t)(w) == Given(d, t)(w) + One(x.0 == t && w == x.1)
  {
    assert (d + [x])[..|d|] == d;
  }

  lemma {:induction false} RoutesPartition(d: seq<(nat, nat)>, n: nat, t: nat)
    requires forall i :: 0 <= i < |d| ==> d[i].1 < n
    ensures Sum(Given(d, t), n) == multiset(TasksOf(d))[t]
    decreases |d|
  {
    if d == [] {
      SumNothing(Given(d, t), n);
    } else {
      var d', x := d[..|d| - 1], d[|d| - 1];
      assert d == d' + [x];
      RoutesPartition(d', n, t);
      forall w: nat ensures Given(d, t)(w) == Given(d', t)(w) + One(x.0 == t && w == x.1) {
        GivenOneMore(d', x, w, t);
      }
      SumOneMore(Given(d, t), Given(d', t), n, x.1, x.0 == t);
    }
  }

  /** FIFO dispatch: what has been accepted is what has been dispatched followed
      by the queue. Each worker was given a subsequence of that and has started a
      prefix of it, in order; together the workers were given all that was
      dispatched and nothing twice. */
  lemma FifoDispatch(n: nat, steps: seq<Step>, t: nat)
    ensures var s := Run(Started(n), steps);
            && s.accepted == TasksOf(s.dispatched) + s.tasks
            && (forall i {:trigger s.workers[i]} :: 0 <= i < |s.workers| ==>
                  && s.workers[i].given == Route(s.dispatched, i)
                  && Subsequence(s.workers[i].given, TasksOf(s.dispatched))
                  && s.workers[i].started + s.workers[i].init == s.workers[i].given)
            && |s.workers| == n && Sum(Given(s.dispatched, t), n) == (if t in TasksOf(s.dispatched) then 1 else 0)
  {
    ReachedSafe(n, steps, t);
    var s := Run(Started(n), steps);
    RoutesPartition(s.dispatched, n, t);
    forall i {:trigger s.workers[i]} | 0 <= i < |s.workers|
      ensures OnRoute(s.dispatched, s.workers[i], i) && Subsequence(s.workers[i].given, TasksOf(s.dispatched))
    {
      RouteIsSubsequence(s.dispatched, i);
      assert OnRoute(s.dispatched, s.workers[i], i);
    }
    assert multiset(s.accepted)[t] == multiset(TasksOf(s.dispatched))[t] + multiset(s.tasks)[t];
  }
}

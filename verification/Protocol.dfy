/** The scheduler as a protocol (sylar/scheduler.cpp): any number of submitters,
    the allocator and any number of workers take atomic steps in any order. A
    step is one access to something other threads see (a lock, a counter, a
    shared queue) or one pass of a local loop.

    The state covers one start/stop cycle. A step that is not possible, such as
    taking a lock that is held, leaves the state as it is. */
module Protocol {
  import opened Prelude
  import opened Fibers
  import opened SleepQueues
  import opened Workers

  // ---------- Threads and shared state ----------

  datatype WorkerAt =
    | Head                              // reads m_stop
    | Counting                          // stop seen: reads m_count
    | Body                              // reads m_count for the idle test
    | Trying                            // try-lock of the own mutex
    | Draining                          // holds it, empties t_init
    | Clock                             // reads the clock
    | Waking(now: u64)                  // wakes sleepers
    | Notifying(at: nat, left: nat)     // goes through t_hold
    | Picking                           // takes a ready task
    | Running(task: nat)                // the fiber has control
    | Ending(task: nat)                 // about to decrement m_count
    | Exited

  datatype Holder = Nobody | Self | Allocator

  /** `given` and `started` are histories: all tasks ever pushed to `t_init`, and
      all tasks started from it. */
  datatype WorkerState = WorkerState(
    at: WorkerAt, count: int, init: seq<nat>, ready: multiset<nat>, sleep: multiset<nat>, hold: seq<nat>,
    lock: Holder, given: seq<nat>, started: seq<nat>)

  datatype AllocatorAt =
    | ReadStop
    | ReadCount                         // stop seen: reads the global m_count
    | WantQueue
    | WantWorker(w: nat)
    | Testing(w: nat)
    | Moving(w: nat, l: int)            // the inner loop's head
    | Moved(w: nat, l: int)             // pushed, worker count not yet raised
    | Raised(w: nat, l: int)            // raised, global count not yet lowered
    | FreeWorker(w: nat)
    | FreeQueue
    | Done

  datatype SubmitterAt = Wanting(t: nat) | Holding(t: nat) | Pushed | Leaving

  datatype QueueHolder = Unlocked | ByAllocator | BySubmitter(i: nat)

  /** `accepted`, `dispatched` (task and worker) and `finished` are histories,
      `slept` tells when each task last went to sleep and for how long; `used`
      are the fibers ever submitted. */
  datatype System = System(
    workers: seq<WorkerState>, tasks: seq<nat>, count: int, stop: bool, lock: QueueHolder,
    k: nat, allocator: AllocatorAt, submitters: map<nat, SubmitterAt>, fibers: FiberMap,
    used: set<nat>, accepted: seq<nat>, dispatched: seq<(nat, nat)>, finished: seq<nat>,
    slept: Slept)

  type Slept = map<nat, (u64, u64)>

  function FreshWorker(): WorkerState {
    WorkerState(Head, 0, [], multiset{}, multiset{}, [], Nobody, [], [])
  }

  function Started(n: nat): System {
    System(seq(n, _ => FreshWorker()), [], 0, false, Unlocked, 0, ReadStop, map[], map[],
          {}, [], [], [], map[])
  }

  /** What a worker's step may choose: the clock reading, the task a priority
      queue has on top, and by which operation the user code of a fiber gives
      control back, for a sleep of `d` from `s` on. */
  datatype Choice = Choice(now: u64, task: nat, back: GiveBack, s: u64, d: u64) {
    function Left(): Fibers.State {
      LeftIn(back)
    }
  }

  datatype Step =
    | Stop
    | Submit(i: nat, t: nat)            // calls submit with a fresh fiber
    | Submitter(i: nat)                 // goes on with it
    | Allocate
    | Work(w: nat, c: Choice)

  const QUEUE_LIMIT := 10000
  const WORKER_LIMIT := 100000
  const BATCH := 10

  // ---------- The steps ----------

  function SubmitterStep(s: System, i: nat): System
    requires i in s.submitters
  {
    match s.submitters[i]
    case Wanting(t) =>
      if s.lock == Unlocked then s.(lock := BySubmitter(i), submitters := s.submitters[i := Holding(t)]) else s
    case Holding(t) =>
      if |s.tasks| < QUEUE_LIMIT then
        s.(tasks := s.tasks + [t], accepted := s.accepted + [t], submitters := s.submitters[i := Pushed])
      else
        s.(fibers := s.fibers[t := Fields(DESTROY, 0)], submitters := s.submitters[i := Leaving])
    case Pushed => s.(count := s.count + 1, submitters := s.submitters[i := Leaving])
    case Leaving => s.(lock := Unlocked, submitters := s.submitters - {i})
  }

  /** The next worker of `n`, round robin. */
  function Chosen(k: nat, n: nat): (w: nat)
    requires n > 0
    ensures w < n
  {
    if k >= n then 0 else k
  }

  /** Takes the queue lock and chooses the next worker. */
  function TakeQueue(s: System): System
    requires |s.workers| > 0
  {
    var w := Chosen(s.k, |s.workers|);
    s.(lock := ByAllocator, k := w + 1, allocator := WantWorker(w))
  }

  function TakeWorker(s: System, w: nat): System
    requires w < |s.workers|
  {
    s.(workers := s.workers[w := s.workers[w].(lock := Allocator)], allocator := Testing(w))
  }

  /** Moves the front task to the worker. */
  function MoveTask(s: System, w: nat, l: int): System
    requires w < |s.workers| && s.tasks != []
  {
    var t := s.tasks[0];
    var worker := s.workers[w];
    s.(tasks := s.tasks[1..], dispatched := s.dispatched + [(t, w)],
       workers := s.workers[w := worker.(init := worker.init + [t], given := worker.given + [t])],
       allocator := Moved(w, l))
  }

  function RaiseCount(s: System, w: nat, l: int): System
    requires w < |s.workers|
  {
    s.(workers := s.workers[w := s.workers[w].(count := s.workers[w].count + 1)], allocator := Raised(w, l))
  }

  function LowerCount(s: System, w: nat, l: int): System {
    s.(count := s.count - 1, allocator := Moving(w, l - 1))
  }

  function ReleaseWorker(s: System, w: nat): System
    requires w < |s.workers|
  {
    s.(workers := s.workers[w := s.workers[w].(lock := Nobody)], allocator := FreeQueue)
  }

  function ReleaseQueue(s: System): System {
    s.(lock := Unlocked, allocator := ReadStop)
  }

  /** The worker whose mutex the allocator holds. */
  function Locked(a: AllocatorAt): Option<nat> {
    if a.Testing? || a.Moving? || a.Moved? || a.Raised? || a.FreeWorker? then Some(a.w) else None
  }

  /** The worker it has chosen. */
  function Target(a: AllocatorAt): Option<nat> {
    if a.WantWorker? then Some(a.w) else Locked(a)
  }

  /** The allocator's steps while it has chosen worker `w`. */
  function Serve(s: System, w: nat): System
    requires w < |s.workers|
  {
    match s.allocator
    case WantWorker(_) => if s.workers[w].lock == Nobody then TakeWorker(s, w) else s
    case Testing(_) =>
      s.(allocator := if s.workers[w].count < WORKER_LIMIT then Moving(w, BATCH) else FreeWorker(w))
    case Moving(_, l) => if s.tasks != [] && l > 0 then MoveTask(s, w, l) else s.(allocator := FreeWorker(w))
    case Moved(_, l) => RaiseCount(s, w, l)
    case Raised(_, l) => LowerCount(s, w, l)
    case FreeWorker(_) => ReleaseWorker(s, w)
    case _ => s
  }

  /** Its steps before and after. */
  function Cycle(s: System): System {
    match s.allocator
    case ReadStop => s.(allocator := if s.stop then ReadCount else WantQueue)
    case ReadCount => s.(allocator := if s.count > 0 then WantQueue else Done)
    case WantQueue =>
      if |s.workers| == 0 then s.(allocator := ReadStop)
      else if s.lock == Unlocked then TakeQueue(s) else s
    case FreeQueue => ReleaseQueue(s)
    case _ => s
  }

  function AllocatorStep(s: System): System {
    var target := Target(s.allocator);
    if target.Some? && target.value < |s.workers| then Serve(s, target.value) else Cycle(s)
  }

  /** What a worker's step changes: the worker, the fibers, and the histories. */
  datatype Effect = Effect(worker: WorkerState, fibers: FiberMap, finished: Option<nat>, slept: Slept)

  function WaketimeOf(fibers: FiberMap, t: nat): u64 {
    if t in fibers then fibers[t].waketime else 0
  }

  /** `t` is on top of the sleep queue. */
  predicate OnTop(fibers: FiberMap, sleep: multiset<nat>, t: nat) {
    t in sleep && forall u :: u in sleep ==> WaketimeOf(fibers, t) <= WaketimeOf(fibers, u)
  }

  function SetState(fibers: FiberMap, t: nat, s: Fibers.State): FiberMap {
    fibers[t := Fields(s, WaketimeOf(fibers, t))]
  }

  /** The fibers after `t` has given control back. */
  function GaveBack(fibers: FiberMap, t: nat, c: Choice): FiberMap {
    if c.Left() == SLEEP then fibers[t := Fields(SLEEP, Add64(c.s, c.d))] else SetState(fibers, t, c.Left())
  }

  /** Starts the first task handed over. */
  function StartTask(fibers: FiberMap, slept: Slept, w: WorkerState): Effect
    requires w.init != []
  {
    var t := w.init[0];
    Effect(w.(init := w.init[1..], started := w.started + [t], ready := w.ready + multiset{t}),
           SetState(fibers, t, READY), None, slept)
  }

  /** Wakes the sleeper `t`. */
  function WakeTask(fibers: FiberMap, slept: Slept, w: WorkerState, t: nat): Effect {
    Effect(w.(sleep := w.sleep - multiset{t}, ready := w.ready + multiset{t}),
           SetState(fibers, t, READY), None, slept)
  }

  /** Notifies the held task at `at`, which runs until it gives control back. */
  function NotifyTask(fibers: FiberMap, slept: Slept, w: WorkerState, at: nat, left: nat, c: Choice): Effect
    requires at < |w.hold| && left > 0
  {
    var t := w.hold[at];
    Effect(if c.Left() == READY then
             w.(at := Notifying(at, left - 1), ready := w.ready + multiset{t},
                hold := w.hold[..at] + w.hold[at + 1..])
           else w.(at := Notifying(at + 1, left - 1)),
           GaveBack(fibers, t, c), None, slept)
  }

  /** Pops the ready task `t` and resumes it. */
  function ResumeTask(fibers: FiberMap, slept: Slept, w: WorkerState, t: nat): Effect {
    Effect(w.(at := Running(t), ready := w.ready - multiset{t}), SetState(fibers, t, EXEC), None, slept)
  }

  /** Where the worker puts the task that gave control back. */
  function Requeue(w: WorkerState, t: nat, back: Fibers.State): WorkerState {
    if back == HOLD then w.(at := Head, hold := w.hold + [t])
    else if back == SLEEP then w.(at := Head, sleep := w.sleep + multiset{t})
    else if back == READY then w.(at := Head, ready := w.ready + multiset{t})
    else w.(at := Ending(t))
  }

  /** The running task `t` gives control back. */
  function ReturnTask(fibers: FiberMap, slept: Slept, w: WorkerState, t: nat, c: Choice): Effect {
    Effect(Requeue(w, t, c.Left()), GaveBack(fibers, t, c), None,
           if c.Left() == SLEEP then slept[t := (c.s, c.d)] else slept)
  }

  /** Where a step that moves no task leads; `None` for the steps that do. */
  function Advance(stop: bool, fibers: FiberMap, w: WorkerState, c: Choice): Option<WorkerState> {
    match w.at
    case Head => Some(w.(at := if stop then Counting else Body))
    case Counting => Some(w.(at := if w.count > 0 then Body else Exited))
    case Body => Some(w.(at := if w.count == 0 then Head else Trying))
    case Trying => Some(if w.lock == Nobody then w.(at := Draining, lock := Self) else w.(at := Clock))
    case Draining => if w.init == [] then Some(w.(at := Clock, lock := Nobody)) else None
    case Clock => Some(w.(at := Waking(c.now)))
    case Waking(now) =>
      if w.sleep == multiset{} then Some(w.(at := Notifying(0, |w.hold|)))
      else if !OnTop(fibers, w.sleep, c.task) then Some(w)
      else if WaketimeOf(fibers, c.task) < now then None
      else Some(w.(at := Notifying(0, |w.hold|)))
    case Notifying(at, left) => if left == 0 || at >= |w.hold| then Some(w.(at := Picking)) else None
    case Picking =>
      if w.ready == multiset{} then Some(w.(at := Head)) else if c.task in w.ready then None else Some(w)
    case Running(_) => None
    case Ending(_) => None
    case Exited => Some(w)
  }

  function WorkerEffect(stop: bool, fibers: FiberMap, slept: Slept, w: WorkerState, c: Choice): Effect {
    match Advance(stop, fibers, w, c)
    case Some(w') => Effect(w', fibers, None, slept)
    case None =>
      match w.at
      case Draining => StartTask(fibers, slept, w)
      case Waking(_) => WakeTask(fibers, slept, w, c.task)
      case Notifying(at, left) => NotifyTask(fibers, slept, w, at, left, c)
      case Picking => ResumeTask(fibers, slept, w, c.task)
      case Running(t) => ReturnTask(fibers, slept, w, t, c)
      case Ending(t) => Effect(w.(at := Head, count := w.count - 1), fibers, Some(t), slept)
  }

  function EffectOf(s: System, i: nat, c: Choice): Effect
    requires i < |s.workers|
  {
    WorkerEffect(s.stop, s.fibers, s.slept, s.workers[i], c)
  }

  function WorkerStep(s: System, i: nat, c: Choice): System
    requires i < |s.workers|
  {
    var e := EffectOf(s, i, c);
    s.(workers := s.workers[i := e.worker], fibers := e.fibers,
       finished := if e.finished.Some? then s.finished + [e.finished.value] else s.finished,
       slept := e.slept)
  }

  function Next(s: System, step: Step): System {
    match step
    case Stop => s.(stop := true)
    case Submit(i, t) =>
      if i in s.submitters || t in s.used then s
      else if s.stop then s.(used := s.used + {t})
      else
        s.(used := s.used + {t}, fibers := s.fibers[t := Fields(INIT, 0)], submitters := s.submitters[i := Wanting(t)])
    case Submitter(i) => if i in s.submitters then SubmitterStep(s, i) else s
    case Allocate => AllocatorStep(s)
    case Work(i, c) => if i < |s.workers| then WorkerStep(s, i, c) else s
  }

  function Run(s: System, steps: seq<Step>): System
    decreases |steps|
  {
    if steps == [] then s else Run(Next(s, steps[0]), steps[1..])
  }

  // ---------- Invariants: locks ----------

  predicate HoldsQueue(a: AllocatorAt) {
    !(a.ReadStop? || a.ReadCount? || a.WantQueue? || a.Done?)
  }

  /** The queue lock is held by exactly the thread whose position says so. */
  ghost predicate QueueLock(s: System) {
    && (s.lock == ByAllocator <==> HoldsQueue(s.allocator))
    && (forall i :: i in s.submitters ==> (s.lock == BySubmitter(i) <==> !s.submitters[i].Wanting?))
    && (s.lock.BySubmitter? ==> s.lock.i in s.submitters)
  }

  predicate WorkerLock(locked: Option<nat>, w: WorkerState, i: nat) {
    && (w.lock == Allocator <==> locked == Some(i))
    && (w.lock == Self <==> w.at == Draining)
  }

  /** So is each worker's lock. */
  ghost predicate WorkerLocks(ws: seq<WorkerState>, a: AllocatorAt) {
    && (forall i {:trigger ws[i]} :: 0 <= i < |ws| ==> WorkerLock(Locked(a), ws[i], i))
    && (Target(a).Some? ==> Target(a).value < |ws|)
  }

  ghost predicate Locks(s: System) {
    QueueLock(s) && WorkerLocks(s.workers, s.allocator)
  }

  /** A submitter's step leaves the workers and the allocator alone, and changes a
      fiber only when it refuses a task. */
  lemma SubmitterTouches(s: System, i: nat)
    requires i in s.submitters
    ensures var s' := SubmitterStep(s, i);
            && s' == s.(tasks := s'.tasks, accepted := s'.accepted, count := s'.count, lock := s'.lock,
                        submitters := s'.submitters, fibers := s'.fibers)
            && (!s.submitters[i].Holding? ==> s'.tasks == s.tasks && s'.accepted == s.accepted && s'.fibers == s.fibers)
  {
  }

  lemma SubmitterKeepsLocks(s: System, i: nat)
    requires Locks(s) && i in s.submitters
    ensures Locks(SubmitterStep(s, i))
  {
  }

  /** Locking or releasing one worker leaves the locks of the others in step. */
  lemma LockMoves(ws: seq<WorkerState>, a: AllocatorAt, i: nat, w': WorkerState, a': AllocatorAt)
    requires WorkerLocks(ws, a) && i < |ws|
    requires (Locked(a) == None || Locked(a) == Some(i)) && (Target(a') == None || Target(a') == Some(i))
    requires WorkerLock(Locked(a'), w', i)
    ensures WorkerLocks(ws[i := w'], a')
  {
  }

  /** While it serves a worker the allocator changes no other. */
  lemma ServeTouches(s: System, w: nat)
    requires Target(s.allocator) == Some(w) && w < |s.workers|
    ensures Serve(s, w).workers == s.workers[w := Serve(s, w).workers[w]]
    ensures Target(Serve(s, w).allocator) == None || Target(Serve(s, w).allocator) == Some(w)
  {
    assert s.workers[w := s.workers[w]] == s.workers;
  }

  /** Unless it moves a task, only the worker's counter and lock. */
  lemma ServeMovesNothing(s: System, w: nat)
    requires Target(s.allocator) == Some(w) && w < |s.workers|
    requires !(s.allocator.Moving? && s.tasks != [] && s.allocator.l > 0)
    ensures var s' := Serve(s, w);
            && s' == s.(workers := s'.workers, count := s'.count, allocator := s'.allocator)
            && s'.workers[w] == s.workers[w].(count := s'.workers[w].count, lock := s'.workers[w].lock)
  {
  }

  lemma ServeKeepsWorkerLocks(s: System, w: nat)
    requires WorkerLocks(s.workers, s.allocator) && Target(s.allocator) == Some(w) && w < |s.workers|
    ensures WorkerLocks(Serve(s, w).workers, Serve(s, w).allocator)
  {
    var s' := Serve(s, w);
    assert WorkerLock(Locked(s.allocator), s.workers[w], w);
    ServeTouches(s, w);
    LockMoves(s.workers, s.allocator, w, s'.workers[w], s'.allocator);
  }

  /** Between two workers it changes none. */
  lemma CycleTouches(s: System)
    ensures var s' := Cycle(s);
            s' == s.(lock := s'.lock, k := s'.k, allocator := s'.allocator)
    ensures Locked(s.allocator).None? ==> Locked(Cycle(s).allocator).None?
  {
  }

  lemma CycleKeepsWorkerLocks(s: System)
    requires WorkerLocks(s.workers, s.allocator) && Target(s.allocator).None?
    ensures WorkerLocks(Cycle(s).workers, Cycle(s).allocator)
  {
    CycleTouches(s);
  }

  lemma ServeKeepsQueueLock(s: System, w: nat)
    requires QueueLock(s) && Target(s.allocator) == Some(w) && w < |s.workers|
    ensures QueueLock(Serve(s, w))
  {
  }

  lemma CycleKeepsQueueLock(s: System)
    requires QueueLock(s)
    ensures QueueLock(Cycle(s))
  {
  }

  lemma AllocatorKeepsLocks(s: System)
    requires Locks(s)
    ensures Locks(AllocatorStep(s))
  {
    if Target(s.allocator).Some? {
      ServeKeepsWorkerLocks(s, Target(s.allocator).value);
      ServeKeepsQueueLock(s, Target(s.allocator).value);
    } else {
      CycleKeepsWorkerLocks(s);
      CycleKeepsQueueLock(s);
    }
  }

  lemma WorkerKeepsOwnLock(stop: bool, fibers: FiberMap, slept: Slept, w: WorkerState, c: Choice)
    requires w.lock == Self <==> w.at == Draining
    ensures var w' := WorkerEffect(stop, fibers, slept, w, c).worker;
            (w'.lock == Self <==> w'.at == Draining) && (w'.lock == Allocator <==> w.lock == Allocator)
  {
  }

  lemma WorkKeepsLocks(s: System, i: nat, c: Choice)
    requires Locks(s) && i < |s.workers|
    ensures Locks(WorkerStep(s, i, c))
  {
    assert WorkerLock(Locked(s.allocator), s.workers[i], i);
    WorkerKeepsOwnLock(s.stop, s.fibers, s.slept, s.workers[i], c);
  }

  lemma NextKeepsLocks(s: System, step: Step)
    requires Locks(s)
    ensures Locks(Next(s, step))
  {
    match step
    case Stop =>
    case Submit(_, _) =>
    case Submitter(i) => if i in s.submitters { SubmitterKeepsLocks(s, i); }
    case Allocate => AllocatorKeepsLocks(s);
    case Work(i, c) => if i < |s.workers| { WorkKeepsLocks(s, i, c); }
  }

  // ---------- Invariants: where the tasks are ----------

  /** The task a worker has popped and not yet finished with. */
  function Popped(at: WorkerAt): Option<nat> {
    if at.Running? then Some(at.task) else if at.Ending? then Some(at.task) else None
  }

  function One(b: bool): nat {
    if b then 1 else 0
  }

  /** How often the worker has task `t`: in its four queues, or popped. */
  function Copies(w: WorkerState, t: nat): nat {
    multiset(w.init)[t] + w.ready[t] + w.sleep[t] + multiset(w.hold)[t] + One(Popped(w.at) == Some(t))
  }

  function Size(w: WorkerState): nat {
    |w.init| + |w.ready| + |w.sleep| + |w.hold| + One(Popped(w.at).Some?)
  }

  /** What an effect on a worker keeps: a task stays with the worker or is
      finished, and the counter falls with it; tasks are started in the order in
      which they are handed over; only the drain section touches `t_init`; a
      worker leaves only after reading a counter that is not positive. */
  predicate Keeps(w: WorkerState, e: Effect, t: nat) {
    var w' := e.worker;
    && Copies(w', t) + One(e.finished == Some(t)) == Copies(w, t)
    && Size(w') + One(e.finished.Some?) == Size(w)
    && w'.count == w.count - One(e.finished.Some?)
    && w'.given == w.given && w'.started + w'.init == w.started + w.init
    && (w.at != Draining ==> w'.init == w.init)
    && (w'.at == Exited ==> w'.(at := w.at) == w && (w.at == Exited || w.count <= 0))
  }

  /** A step without a task changes the position and perhaps the own lock. */
  lemma AdvanceMoves(stop: bool, fibers: FiberMap, w: WorkerState, c: Choice)
    requires Advance(stop, fibers, w, c).Some?
    ensures var w' := Advance(stop, fibers, w, c).value;
            && w' == w.(at := w'.at, lock := w'.lock) && Popped(w.at) == None && Popped(w'.at) == None
            && (w'.at == Exited ==> w'.lock == w.lock && (w.at == Exited || w.count <= 0))
  {
  }

  lemma AdvanceKeeps(stop: bool, fibers: FiberMap, slept: Slept, w: WorkerState, c: Choice, t: nat)
    requires Advance(stop, fibers, w, c).Some?
    ensures Keeps(w, Effect(Advance(stop, fibers, w, c).value, fibers, None, slept), t)
  {
    AdvanceMoves(stop, fibers, w, c);
    var w' := Advance(stop, fibers, w, c).value;
    assert w'.at == Exited ==> w'.(at := w.at) == w;
  }

  lemma StartKeeps(fibers: FiberMap, slept: Slept, w: WorkerState, t: nat)
    requires w.init != [] && w.at == Draining
    ensures Keeps(w, StartTask(fibers, slept, w), t)
  {
    assert w.init == [w.init[0]] + w.init[1..];
    assert w.started + w.init == (w.started + [w.init[0]]) + w.init[1..];
  }

  lemma WakeKeeps(fibers: FiberMap, slept: Slept, w: WorkerState, top: nat, t: nat)
    requires top in w.sleep && w.at.Waking?
    ensures Keeps(w, WakeTask(fibers, slept, w, top), t)
  {
  }

  lemma NotifyKeeps(fibers: FiberMap, slept: Slept, w: WorkerState, at: nat, left: nat, c: Choice, t: nat)
    requires at < |w.hold| && left > 0 && w.at == Notifying(at, left)
    ensures Keeps(w, NotifyTask(fibers, slept, w, at, left, c), t)
  {
    assert w.hold == w.hold[..at] + [w.hold[at]] + w.hold[at + 1..];
  }

  lemma ResumeKeeps(fibers: FiberMap, slept: Slept, w: WorkerState, top: nat, t: nat)
    requires top in w.ready && w.at == Picking
    ensures Keeps(w, ResumeTask(fibers, slept, w, top), t)
  {
  }

  lemma ReturnKeeps(fibers: FiberMap, slept: Slept, w: WorkerState, ran: nat, c: Choice, t: nat)
    requires w.at == Running(ran)
    ensures Keeps(w, ReturnTask(fibers, slept, w, ran, c), t)
  {
  }

  lemma EffectKeeps(stop: bool, fibers: FiberMap, slept: Slept, w: WorkerState, c: Choice, t: nat)
    ensures Keeps(w, WorkerEffect(stop, fibers, slept, w, c), t)
  {
    if Advance(stop, fibers, w, c).Some? { AdvanceKeeps(stop, fibers, slept, w, c, t); }
    else {
      match w.at
      case Draining => StartKeeps(fibers, slept, w, t);
      case Waking(_) => WakeKeeps(fibers, slept, w, c.task, t);
      case Notifying(at, left) => NotifyKeeps(fibers, slept, w, at, left, c, t);
      case Picking => ResumeKeeps(fibers, slept, w, c.task, t);
      case Running(ran) => ReturnKeeps(fibers, slept, w, ran, c, t);
      case Ending(_) =>
    }
  }

  // ---------- Invariants: counters ----------

  /** The worker whose counter lags by the task just pushed. */
  function Uncounted(a: AllocatorAt): Option<nat> {
    if a.Moved? then Some(a.w) else None
  }

  predicate SubmitterPushed(s: System) {
    s.lock.BySubmitter? && s.lock.i in s.submitters && s.submitters[s.lock.i].Pushed?
  }

  /** A worker's counter is the number of its tasks, less the one the allocator
      has pushed and not yet counted; a worker that has left has empty local
      queues. */
  predicate WorkerCounts(uncounted: Option<nat>, w: WorkerState, i: nat) {
    && w.count == Size(w) - One(uncounted == Some(i))
    && (uncounted == Some(i) ==> w.init != [])
    && (w.at == Exited ==> w.ready == multiset{} && w.sleep == multiset{} && w.hold == [])
  }

  ghost predicate WorkerCounters(ws: seq<WorkerState>, a: AllocatorAt) {
    forall i {:trigger ws[i]} :: 0 <= i < |ws| ==> WorkerCounts(Uncounted(a), ws[i], i)
  }

  /** The global counter differs from the queue by the task a submitter has
      pushed and not yet counted, or the allocator has moved and not yet
      discounted. */
  predicate GlobalCounter(s: System) {
    && s.count == |s.tasks| + One(s.allocator.Moved? || s.allocator.Raised?) - One(SubmitterPushed(s))
    && (SubmitterPushed(s) ==> s.tasks != [])
  }

  ghost predicate Counters(s: System) {
    GlobalCounter(s) && WorkerCounters(s.workers, s.allocator)
  }

  lemma SubmitterKeepsCounters(s: System, i: nat)
    requires QueueLock(s) && Counters(s) && i in s.submitters
    ensures Counters(SubmitterStep(s, i))
  {
  }

  lemma CycleKeepsCounters(s: System)
    requires QueueLock(s) && Counters(s) && Target(s.allocator).None?
    ensures Counters(Cycle(s))
  {
  }

  lemma ServeKeepsGlobalCounter(s: System, w: nat)
    requires QueueLock(s) && GlobalCounter(s) && Target(s.allocator) == Some(w) && w < |s.workers|
    ensures GlobalCounter(Serve(s, w))
  {
  }

  lemma CountMoves(ws: seq<WorkerState>, a: AllocatorAt, i: nat, w': WorkerState, a': AllocatorAt)
    requires WorkerCounters(ws, a) && i < |ws|
    requires forall j | j != i :: Uncounted(a) == Some(j) <==> Uncounted(a') == Some(j)
    requires WorkerCounts(Uncounted(a'), w', i)
    ensures WorkerCounters(ws[i := w'], a')
  {
  }

  lemma MoveKeepsCount(s: System, w: nat, l: int)
    requires w < |s.workers| && s.tasks != [] && WorkerCounts(None, s.workers[w], w)
    ensures WorkerCounts(Some(w), MoveTask(s, w, l).workers[w], w)
  {
  }

  lemma RaiseKeepsCount(s: System, w: nat, l: int)
    requires w < |s.workers| && WorkerCounts(Some(w), s.workers[w], w)
    ensures WorkerCounts(None, RaiseCount(s, w, l).workers[w], w)
  {
  }

  lemma ServeCountsNothing(s: System, w: nat)
    requires Target(s.allocator) == Some(w) && w < |s.workers| && !s.allocator.Moved?
    requires !(s.allocator.Moving? && s.tasks != [] && s.allocator.l > 0)
    ensures var s' := Serve(s, w);
            && !s'.allocator.Moved?
            && s'.workers[w] == s.workers[w].(lock := s'.workers[w].lock)
  {
  }

  lemma ServeKeepsCount(s: System, w: nat)
    requires Target(s.allocator) == Some(w) && w < |s.workers|
    requires WorkerCounts(Uncounted(s.allocator), s.workers[w], w)
    ensures WorkerCounts(Uncounted(Serve(s, w).allocator), Serve(s, w).workers[w], w)
  {
    if s.allocator.Moving? && s.tasks != [] && s.allocator.l > 0 {
      MoveKeepsCount(s, w, s.allocator.l);
    } else if s.allocator.Moved? {
      RaiseKeepsCount(s, w, s.allocator.l);
    } else {
      ServeCountsNothing(s, w);
    }
  }

  lemma ServeKeepsWorkerCounters(s: System, w: nat)
    requires WorkerCounters(s.workers, s.allocator) && Target(s.allocator) == Some(w) && w < |s.workers|
    ensures WorkerCounters(Serve(s, w).workers, Serve(s, w).allocator)
  {
    var s' := Serve(s, w);
    assert WorkerCounts(Uncounted(s.allocator), s.workers[w], w);
    ServeKeepsCount(s, w);
    ServeTouches(s, w);
    CountMoves(s.workers, s.allocator, w, s'.workers[w], s'.allocator);
  }

  lemma WorkerKeepsCount(uncounted: Option<nat>, w: WorkerState, e: Effect, i: nat)
    requires WorkerCounts(uncounted, w, i) && Keeps(w, e, 0) && (uncounted == Some(i) ==> w.at != Draining)
    ensures WorkerCounts(uncounted, e.worker, i)
  {
  }

  lemma WorkKeepsCounters(s: System, i: nat, c: Choice)
    requires Locks(s) && Counters(s) && i < |s.workers|
    ensures Counters(WorkerStep(s, i, c))
  {
    var w := s.workers[i];
    EffectKeeps(s.stop, s.fibers, s.slept, w, c, 0);
    assert WorkerLock(Locked(s.allocator), w, i) && WorkerCounts(Uncounted(s.allocator), w, i);
    WorkerKeepsCount(Uncounted(s.allocator), w, EffectOf(s, i, c), i);
    CountMoves(s.workers, s.allocator, i, EffectOf(s, i, c).worker, s.allocator);
  }

  lemma NextKeepsCounters(s: System, step: Step)
    requires Locks(s) && Counters(s)
    ensures Counters(Next(s, step))
  {
    match step
    case Stop =>
    case Submit(_, _) =>
    case Submitter(i) => if i in s.submitters { SubmitterKeepsCounters(s, i); }
    case Allocate =>
      if Target(s.allocator).Some? {
        ServeKeepsGlobalCounter(s, Target(s.allocator).value);
        ServeKeepsWorkerCounters(s, Target(s.allocator).value);
      } else {
        CycleKeepsCounters(s);
      }
    case Work(i, c) => if i < |s.workers| { WorkKeepsCounters(s, i, c); }
  }
}

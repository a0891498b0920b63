/** The queues of the scheduler and the states of the fibers in them, over whole
    runs: which fiber operations are called on which states, and when sleepers
    are woken. */
module ProtocolAgreement {
  import opened Prelude
  import opened Fibers
  import opened SleepQueues
  import opened Protocol
  import opened ProtocolRuns

  // ---------- Queues agree with states ----------

  predicate InState(fibers: FiberMap, t: nat, state: Fibers.State) {
    t in fibers && fibers[t].state == state
  }

  /** Wherever the worker has `t`, the fiber is in the state of that place. */
  predicate Agrees(fibers: FiberMap, w: WorkerState, t: nat) {
    && (multiset(w.init)[t] > 0 ==> InState(fibers, t, INIT))
    && (w.ready[t] > 0 ==> InState(fibers, t, READY))
    && (w.sleep[t] > 0 ==> InState(fibers, t, SLEEP))
    && (multiset(w.hold)[t] > 0 ==> InState(fibers, t, HOLD))
    && (w.at == Running(t) ==> InState(fibers, t, EXEC))
    && (w.at == Ending(t) ==> t in fibers && Destructible(true, fibers[t].state))
  }

  predicate SameFiber(fibers: FiberMap, fibers': FiberMap, t: nat) {
    (t in fibers <==> t in fibers') && (t in fibers ==> fibers[t] == fibers'[t])
  }

  /** An effect keeps the agreement on the tasks of its worker and leaves other
      fibers alone. */
  predicate AgreesAfter(fibers: FiberMap, w: WorkerState, e: Effect, t: nat) {
    Agrees(e.fibers, e.worker, t) && (Copies(w, t) == 0 ==> SameFiber(fibers, e.fibers, t))
  }

  lemma StartAgrees(fibers: FiberMap, slept: Slept, w: WorkerState, t: nat)
    requires w.init != [] && w.at == Draining && Copies(w, t) <= 1 && Agrees(fibers, w, t)
    ensures AgreesAfter(fibers, w, StartTask(fibers, slept, w), t)
  {
    assert w.init == [w.init[0]] + w.init[1..];
  }

  lemma WakeAgrees(fibers: FiberMap, slept: Slept, w: WorkerState, top: nat, t: nat)
    requires top in w.sleep && w.at.Waking? && Copies(w, t) <= 1 && Agrees(fibers, w, t)
    ensures AgreesAfter(fibers, w, WakeTask(fibers, slept, w, top), t)
  {
  }

  lemma NotifyAgrees(fibers: FiberMap, slept: Slept, w: WorkerState, at: nat, left: nat, c: Choice, t: nat)
    requires at < |w.hold| && left > 0 && w.at == Notifying(at, left) && (c.back == Yield || c.back == Hold)
    requires Copies(w, t) <= 1 && Agrees(fibers, w, t)
    ensures AgreesAfter(fibers, w, NotifyTask(fibers, slept, w, at, left, c), t)
  {
    assert w.hold == w.hold[..at] + [w.hold[at]] + w.hold[at + 1..];
  }

  /** For the notified task itself the discipline is exactly what is needed. */
  lemma NotifiedAgreesExact(fibers: FiberMap, slept: Slept, w: WorkerState, at: nat, left: nat, c: Choice)
    requires at < |w.hold| && left > 0 && w.at == Notifying(at, left)
    requires Copies(w, w.hold[at]) == 1 && Agrees(fibers, w, w.hold[at])
    ensures var e := NotifyTask(fibers, slept, w, at, left, c);
            Agrees(e.fibers, e.worker, w.hold[at]) <==> c.back == Yield || c.back == Hold
  {
    assert w.hold == w.hold[..at] + [w.hold[at]] + w.hold[at + 1..];
  }

  lemma ResumeAgrees(fibers: FiberMap, slept: Slept, w: WorkerState, top: nat, t: nat)
    requires top in w.ready && w.at == Picking && Copies(w, t) <= 1 && Agrees(fibers, w, t)
    ensures AgreesAfter(fibers, w, ResumeTask(fibers, slept, w, top), t)
  {
  }

  lemma ReturnAgrees(fibers: FiberMap, slept: Slept, w: WorkerState, ran: nat, c: Choice, t: nat)
    requires w.at == Running(ran) && Copies(w, t) <= 1 && Agrees(fibers, w, t)
    ensures AgreesAfter(fibers, w, ReturnTask(fibers, slept, w, ran, c), t)
  {
  }

  /** A notified fiber next yields or holds again. */
  predicate Disciplined(w: WorkerState, c: Choice) {
    w.at.Notifying? ==> c.back == Yield || c.back == Hold
  }

  lemma EffectAgrees(stop: bool, fibers: FiberMap, slept: Slept, w: WorkerState, c: Choice, t: nat)
    requires Disciplined(w, c) && Copies(w, t) <= 1 && Agrees(fibers, w, t)
    ensures AgreesAfter(fibers, w, WorkerEffect(stop, fibers, slept, w, c), t)
  {
    if Advance(stop, fibers, w, c).Some? { AdvanceMoves(stop, fibers, w, c); }
    else {
      match w.at
      case Draining => StartAgrees(fibers, slept, w, t);
      case Waking(_) => WakeAgrees(fibers, slept, w, c.task, t);
      case Notifying(at, left) => NotifyAgrees(fibers, slept, w, at, left, c, t);
      case Picking => ResumeAgrees(fibers, slept, w, c.task, t);
      case Running(ran) => ReturnAgrees(fibers, slept, w, ran, c, t);
      case Ending(_) =>
    }
  }

  /** The same over all places a task can be in. */
  ghost predicate Fits(s: System, t: nat) {
    && (multiset(s.tasks)[t] > 0 ==> InState(s.fibers, t, INIT))
    && (forall i {:trigger Carries(s.submitters, i, t)} :: Carries(s.submitters, i, t) ==> InState(s.fibers, t, INIT))
    && (forall i {:trigger s.workers[i]} :: 0 <= i < |s.workers| ==> Agrees(s.fibers, s.workers[i], t))
  }

  /** A task some worker has is nowhere else. */
  lemma NowhereElse(s: System, i: nat, t: nat)
    requires Conserved(s, t) && Fresh(s, t) && i < |s.workers| && Copies(s.workers[i], t) > 0
    ensures Copies(s.workers[i], t) == 1 && multiset(s.tasks)[t] == 0 && forall j :: !Carries(s.submitters, j, t)
    ensures forall j {:trigger s.workers[j]} :: 0 <= j < |s.workers| && j != i ==> Copies(s.workers[j], t) == 0
  {
    PartOfTotal(s.workers, i, t);
    forall j {:trigger s.workers[j]} | 0 <= j < |s.workers| && j != i ensures Copies(s.workers[j], t) == 0 {
      if i < j { TwoPartsOfTotal(s.workers, i, j, t); } else { TwoPartsOfTotal(s.workers, j, i, t); }
    }
  }

  /** A task that is in hand, or was never submitted, is with no worker. */
  lemma NotYetAnywhere(s: System, t: nat)
    requires Conserved(s, t) && t !in s.accepted
    ensures multiset(s.tasks)[t] == 0
    ensures forall i {:trigger s.workers[i]} :: 0 <= i < |s.workers| ==> Copies(s.workers[i], t) == 0
  {
    assert multiset(s.accepted)[t] == 0;
    forall i {:trigger s.workers[i]} | 0 <= i < |s.workers| ensures Copies(s.workers[i], t) == 0 {
      PartOfTotal(s.workers, i, t);
    }
  }

  /** What a worker does to its own tasks is no concern of the others. */
  lemma EffectFits(s: System, i: nat, e: Effect, t: nat)
    requires Fits(s, t) && i < |s.workers| && AgreesAfter(s.fibers, s.workers[i], e, t)
    requires Copies(s.workers[i], t) > 0 ==> multiset(s.tasks)[t] == 0 && forall j :: !Carries(s.submitters, j, t)
    requires Copies(s.workers[i], t) > 0 ==>
               forall j {:trigger s.workers[j]} :: 0 <= j < |s.workers| && j != i ==> Copies(s.workers[j], t) == 0
    ensures Fits(s.(workers := s.workers[i := e.worker], fibers := e.fibers), t)
  {
  }

  lemma WorkFits(s: System, i: nat, c: Choice, t: nat)
    requires Conserved(s, t) && Fresh(s, t) && Fits(s, t) && i < |s.workers| && Disciplined(s.workers[i], c)
    ensures Fits(WorkerStep(s, i, c), t)
  {
    if Copies(s.workers[i], t) > 0 { NowhereElse(s, i, t); }
    EffectAgrees(s.stop, s.fibers, s.slept, s.workers[i], c, t);
    EffectFits(s, i, EffectOf(s, i, c), t);
  }

  lemma NewSubmitFits(s: System, i: nat, u: nat, t: nat)
    requires Conserved(s, t) && Fresh(s, t) && Fits(s, t)
    ensures Fits(Next(s, Submit(i, u)), t)
  {
    if t !in s.used { NotYetAnywhere(s, t); }
    var s' := Next(s, Submit(i, u));
    if s' != s { NewInHand(s, i, u, t); }
  }

  lemma NewInHand(s: System, i: nat, u: nat, t: nat)
    requires Fits(s, t) && Next(s, Submit(i, u)) != s
    ensures var s' := Next(s, Submit(i, u)); forall j | Carries(s'.submitters, j, t) :: InState(s'.fibers, t, INIT)
  {
    var s' := Next(s, Submit(i, u));
    forall j | Carries(s'.submitters, j, t) ensures InState(s'.fibers, t, INIT) {
      if j != i { assert Carries(s.submitters, j, t); }
    }
  }

  /** Accepted or refused, the task in hand is in hand no more. */
  lemma HoldingFits(s: System, i: nat, t: nat)
    requires Conserved(s, t) && Fresh(s, t) && Fits(s, t) && i in s.submitters && s.submitters[i] == Holding(t)
    ensures Fits(SubmitterStep(s, i), t)
  {
    var s' := SubmitterStep(s, i);
    assert Carries(s.submitters, i, t);
    NotYetAnywhere(s, t);
    forall j ensures !Carries(s'.submitters, j, t) {
      assert Carries(s'.submitters, j, t) ==> Carries(s.submitters, j, t);
    }
  }

  lemma OtherHoldingFits(s: System, i: nat, t: nat)
    requires Fits(s, t) && i in s.submitters && s.submitters[i] != Holding(t)
    ensures Fits(SubmitterStep(s, i), t)
  {
    var s' := SubmitterStep(s, i);
    SubmitterTouches(s, i);
    assert SameFiber(s.fibers, s'.fibers, t) && multiset(s'.tasks)[t] == multiset(s.tasks)[t];
    forall j | Carries(s'.submitters, j, t) ensures Carries(s.submitters, j, t) {
    }
  }

  lemma SubmitterFits(s: System, i: nat, t: nat)
    requires Conserved(s, t) && Fresh(s, t) && Fits(s, t) && i in s.submitters
    ensures Fits(SubmitterStep(s, i), t)
  {
    if s.submitters[i] == Holding(t) { HoldingFits(s, i, t); } else { OtherHoldingFits(s, i, t); }
  }

  lemma MoveFits(s: System, w: nat, l: int, t: nat)
    requires Fits(s, t) && w < |s.workers| && s.tasks != []
    ensures Fits(MoveTask(s, w, l), t)
  {
  }

  lemma RestFits(s: System, w: nat, t: nat)
    requires Fits(s, t) && Target(s.allocator) == Some(w) && w < |s.workers|
    requires !(s.allocator.Moving? && s.tasks != [] && s.allocator.l > 0)
    ensures Fits(Serve(s, w), t)
  {
    ServeTouches(s, w);
    ServeMovesNothing(s, w);
    assert Agrees(s.fibers, s.workers[w], t);
  }

  lemma AllocatorFits(s: System, t: nat)
    requires Locks(s) && Fits(s, t)
    ensures Fits(AllocatorStep(s), t)
  {
    if Target(s.allocator).None? { CycleTouches(s); }
    else {
      var w := Target(s.allocator).value;
      if s.allocator.Moving? && s.tasks != [] && s.allocator.l > 0 {
        MoveFits(s, w, s.allocator.l, t);
      } else {
        RestFits(s, w, t);
      }
    }
  }

  predicate DisciplinedStep(s: System, step: Step) {
    step.Work? && step.w < |s.workers| ==> Disciplined(s.workers[step.w], step.c)
  }

  lemma NextFits(s: System, step: Step, t: nat)
    requires Safe(s, t) && Fits(s, t) && DisciplinedStep(s, step)
    ensures Fits(Next(s, step), t)
  {
    match step
    case Stop =>
    case Submit(i, u) => NewSubmitFits(s, i, u, t);
    case Submitter(i) => if i in s.submitters { SubmitterFits(s, i, t); }
    case Allocate => AllocatorFits(s, t);
    case Work(i, c) => if i < |s.workers| { WorkFits(s, i, c, t); }
  }

  /** A run in which every notified fiber next yields or holds. */
  ghost predicate DisciplinedRun(s: System, steps: seq<Step>)
    decreases |steps|
  {
    steps == [] || (DisciplinedStep(s, steps[0]) && DisciplinedRun(Next(s, steps[0]), steps[1..]))
  }

  lemma {:induction false} RunFits(s: System, steps: seq<Step>, t: nat)
    requires Safe(s, t) && Fits(s, t) && DisciplinedRun(s, steps)
    ensures Safe(Run(s, steps), t) && Fits(Run(s, steps), t)
    decreases |steps|
  {
    if steps != [] {
      NextKeepsSafe(s, steps[0], t);
      NextFits(s, steps[0], t);
      RunFits(Next(s, steps[0]), steps[1..], t);
    }
  }

  /** The fiber operation a step of the worker calls from the main fiber, and on
      which task. */
  function Called(s: System, i: nat, c: Choice): Option<(Op, nat)>
    requires i < |s.workers|
  {
    var w := s.workers[i];
    if Advance(s.stop, s.fibers, w, c).Some? then None
    else
      match w.at
      case Draining => Some((Start, w.init[0]))
      case Waking(_) => Some((Awake, c.task))
      case Notifying(at, _) => Some((Notify, w.hold[at]))
      case Picking => Some((Resume, c.task))
      case _ => None
  }

  /** The called operation finds the state it asserts, and leaves its fiber in the
      state it promises; a notified fiber runs on until it gives control back. */
  predicate CallFitsFiber(s: System, i: nat, c: Choice)
    requires i < |s.workers| && Called(s, i, c).Some?
  {
    var (op, t) := Called(s, i, c).value;
    && t in s.fibers && Transition(op, true, s.fibers[t].state).Some?
    && InState(EffectOf(s, i, c).fibers, t,
               if op == Notify then c.Left() else Transition(op, true, s.fibers[t].state).value)
  }

  lemma CalledAgrees(s: System, i: nat, c: Choice)
    requires i < |s.workers| && Called(s, i, c).Some?
    requires Agrees(s.fibers, s.workers[i], Called(s, i, c).value.1)
    ensures CallFitsFiber(s, i, c)
  {
  }

  lemma ReachedFits(n: nat, steps: seq<Step>, t: nat)
    requires DisciplinedRun(Started(n), steps)
    ensures Fits(Run(Started(n), steps), t) && |Run(Started(n), steps).workers| == n
  {
    ReachedSafe(n, steps, t);
    SafeAtFirst(n, t);
    RunFits(Started(n), steps, t);
  }

  lemma FitsMeans(s: System, i: nat, t: nat)
    requires Fits(s, t) && i < |s.workers|
    ensures Agrees(s.fibers, s.workers[i], t) && (t in s.tasks ==> InState(s.fibers, t, INIT))
  {
    assert t in s.tasks ==> multiset(s.tasks)[t] > 0;
  }

  /** In every state of such a run, each queue of each worker holds only fibers in
      the state it is for, and everything in the global queue is INIT. */
  lemma QueuesAgree(n: nat, steps: seq<Step>, i: nat, t: nat)
    requires DisciplinedRun(Started(n), steps) && i < n
    ensures var s := Run(Started(n), steps);
            && |s.workers| == n && Agrees(s.fibers, s.workers[i], t)
            && (t in s.tasks ==> InState(s.fibers, t, INIT))
  {
    ReachedFits(n, steps, t);
    FitsMeans(Run(Started(n), steps), i, t);
  }

  /** No state assertion of `start`, `awake`, `notify` or `resume` can fail in
      any run of any number of workers, given that fibers are submitted once and
      notified ones next yield or hold. */
  lemma NoAssertionFails(n: nat, steps: seq<Step>, i: nat, c: Choice)
    requires DisciplinedRun(Started(n), steps) && i < n
    ensures var s := Run(Started(n), steps);
            |s.workers| == n && (Called(s, i, c).Some? ==> CallFitsFiber(s, i, c))
  {
    var s := Run(Started(n), steps);
    ReachedFits(n, steps, 0);
    if Called(s, i, c).Some? {
      QueuesAgree(n, steps, i, Called(s, i, c).value.1);
      CalledAgrees(s, i, c);
    }
  }

  /** Where a worker drops the task it is done with, it may drop the last reference
      to the fiber: in every such run the assertions of the destructor hold there. */
  lemma DroppedIsOver(n: nat, steps: seq<Step>, i: nat, t: nat)
    requires DisciplinedRun(Started(n), steps) && i < n
    ensures var s := Run(Started(n), steps);
            |s.workers| == n &&
            (s.workers[i].at == Ending(t) ==> t in s.fibers && Destructible(true, s.fibers[t].state))
  {
    QueuesAgree(n, steps, i, t);
  }

  /** Each way of giving control back leads the task of the running fiber to its own
      place, in the state of that place, and changes nothing else. */
  lemma GivesBackTo(s: System, i: nat, c: Choice, t: nat)
    requires i < |s.workers| && s.workers[i].at == Running(t)
    ensures var w, s' := s.workers[i], Next(s, Work(i, c));
            && |s'.workers| == |s.workers| && t in s'.fibers
            && (c.back == Yield ==> s'.workers[i] == w.(at := Head, ready := w.ready + multiset{t})
                                    && s'.fibers[t].state == READY)
            && (c.back == Hold ==> s'.workers[i] == w.(at := Head, hold := w.hold + [t])
                                   && s'.fibers[t].state == HOLD)
            && (c.back == Sleep ==> s'.workers[i] == w.(at := Head, sleep := w.sleep + multiset{t})
                                    && s'.fibers[t] == Fields(SLEEP, Add64(c.s, c.d)))
            && (c.back == Op.Stop ==> s'.workers[i] == w.(at := Ending(t)) && s'.fibers[t].state == DESTROY)
            && (c.back == Raise ==> s'.workers[i] == w.(at := Ending(t)) && s'.fibers[t].state == EXCEPT)
            && (forall u :: u != t ==> SameFiber(s.fibers, s'.fibers, u))
  {
  }

  /** The state of a fiber changes in a step of a worker only by an operation called
      on it, or by what it does itself while it runs. */
  lemma OnlyCallsChange(s: System, i: nat, c: Choice, t: nat)
    requires i < |s.workers| && !SameFiber(s.fibers, EffectOf(s, i, c).fibers, t)
    ensures s.workers[i].at == Running(t) || (Called(s, i, c).Some? && Called(s, i, c).value.1 == t)
  {
    if Advance(s.stop, s.fibers, s.workers[i], c).Some? {
      AdvanceMoves(s.stop, s.fibers, s.workers[i], c);
    }
  }

  // ---------- Nobody is woken too early ----------

  /** The wake time of a sleeper is what its last `sleep` computed. */
  predicate Timed(fibers: FiberMap, slept: Slept, w: WorkerState, t: nat) {
    w.sleep[t] > 0 ==> t in slept && t in fibers && fibers[t].waketime == Add64(slept[t].0, slept[t].1)
  }

  predicate TimedAfter(fibers: FiberMap, slept: Slept, w: WorkerState, e: Effect, t: nat) {
    && Timed(e.fibers, e.slept, e.worker, t)
    && (Copies(w, t) == 0 ==> SameFiber(fibers, e.fibers, t) && (t in slept <==> t in e.slept) &&
                              (t in slept ==> slept[t] == e.slept[t]))
  }

  lemma NotifyTimed(fibers: FiberMap, slept: Slept, w: WorkerState, at: nat, left: nat, c: Choice, t: nat)
    requires at < |w.hold| && left > 0 && w.at == Notifying(at, left)
    requires Copies(w, t) <= 1 && Timed(fibers, slept, w, t)
    ensures TimedAfter(fibers, slept, w, NotifyTask(fibers, slept, w, at, left, c), t)
  {
  }

  lemma ReturnTimed(fibers: FiberMap, slept: Slept, w: WorkerState, ran: nat, c: Choice, t: nat)
    requires w.at == Running(ran) && Copies(w, t) <= 1 && Timed(fibers, slept, w, t)
    ensures TimedAfter(fibers, slept, w, ReturnTask(fibers, slept, w, ran, c), t)
  {
  }

  lemma StartTimed(fibers: FiberMap, slept: Slept, w: WorkerState, t: nat)
    requires w.init != [] && w.at == Draining && Copies(w, t) <= 1 && Timed(fibers, slept, w, t)
    ensures TimedAfter(fibers, slept, w, StartTask(fibers, slept, w), t)
  {
  }

  lemma WakeTimed(fibers: FiberMap, slept: Slept, w: WorkerState, top: nat, t: nat)
    requires top in w.sleep && Copies(w, t) <= 1 && Timed(fibers, slept, w, t)
    ensures TimedAfter(fibers, slept, w, WakeTask(fibers, slept, w, top), t)
  {
  }

  lemma ResumeTimed(fibers: FiberMap, slept: Slept, w: WorkerState, top: nat, t: nat)
    requires top in w.ready && Copies(w, t) <= 1 && Timed(fibers, slept, w, t)
    ensures TimedAfter(fibers, slept, w, ResumeTask(fibers, slept, w, top), t)
  {
  }

  lemma EffectTimed(stop: bool, fibers: FiberMap, slept: Slept, w: WorkerState, c: Choice, t: nat)
    requires Copies(w, t) <= 1 && Timed(fibers, slept, w, t)
    ensures TimedAfter(fibers, slept, w, WorkerEffect(stop, fibers, slept, w, c), t)
  {
    if Advance(stop, fibers, w, c).Some? { AdvanceMoves(stop, fibers, w, c); }
    else {
      match w.at
      case Draining => StartTimed(fibers, slept, w, t);
      case Waking(_) => WakeTimed(fibers, slept, w, c.task, t);
      case Notifying(at, left) => NotifyTimed(fibers, slept, w, at, left, c, t);
      case Picking => ResumeTimed(fibers, slept, w, c.task, t);
      case Running(ran) => ReturnTimed(fibers, slept, w, ran, c, t);
      case Ending(_) =>
    }
  }

  ghost predicate AllTimed(s: System, t: nat) {
    forall i {:trigger s.workers[i]} :: 0 <= i < |s.workers| ==> Timed(s.fibers, s.slept, s.workers[i], t)
  }

  lemma WorkTimed(s: System, i: nat, c: Choice, t: nat)
    requires Conserved(s, t) && Fresh(s, t) && AllTimed(s, t) && i < |s.workers|
    ensures AllTimed(WorkerStep(s, i, c), t)
  {
    if Copies(s.workers[i], t) > 0 { NowhereElse(s, i, t); }
    EffectTimed(s.stop, s.fibers, s.slept, s.workers[i], c, t);
  }

  lemma SubmissionTimed(s: System, fibers: FiberMap, t: nat)
    requires Conserved(s, t) && AllTimed(s, t) && (t in s.accepted ==> SameFiber(s.fibers, fibers, t))
    ensures AllTimed(s.(fibers := fibers), t)
  {
    if t !in s.accepted { NotYetAnywhere(s, t); }
  }

  lemma SubmitterTimed(s: System, i: nat, t: nat)
    requires Conserved(s, t) && Fresh(s, t) && AllTimed(s, t) && i in s.submitters
    ensures AllTimed(SubmitterStep(s, i), t)
  {
    assert s.submitters[i] == Holding(t) ==> Carries(s.submitters, i, t);
    SubmitterTouches(s, i);
    SubmissionTimed(s, SubmitterStep(s, i).fibers, t);
  }

  lemma AllocatorTimed(s: System, t: nat)
    requires Locks(s) && AllTimed(s, t)
    ensures AllTimed(AllocatorStep(s), t)
  {
    if Target(s.allocator).None? { CycleTouches(s); }
    else {
      var w := Target(s.allocator).value;
      if !(s.allocator.Moving? && s.tasks != [] && s.allocator.l > 0) {
        ServeTouches(s, w);
        ServeMovesNothing(s, w);
      }
      assert Timed(s.fibers, s.slept, s.workers[w], t);
    }
  }

  lemma NextTimed(s: System, step: Step, t: nat)
    requires Safe(s, t) && AllTimed(s, t)
    ensures AllTimed(Next(s, step), t)
  {
    match step
    case Stop =>
    case Submit(i, u) => SubmissionTimed(s, Next(s, step).fibers, t);
    case Submitter(i) => if i in s.submitters { SubmitterTimed(s, i, t); }
    case Allocate => AllocatorTimed(s, t);
    case Work(i, c) => if i < |s.workers| { WorkTimed(s, i, c, t); }
  }

  lemma {:induction false} RunTimed(s: System, steps: seq<Step>, t: nat)
    requires Safe(s, t) && AllTimed(s, t)
    ensures AllTimed(Run(s, steps), t)
    decreases |steps|
  {
    if steps != [] {
      NextKeepsSafe(s, steps[0], t);
      NextTimed(s, steps[0], t);
      RunTimed(Next(s, steps[0]), steps[1..], t);
    }
  }

  /** Worker `i` has read a clock beyond the wake time of `t`, the earliest of its
      sleepers, and makes it ready. */
  predicate WakesLate(s: System, s': System, i: nat, t: nat)
    requires i < |s.workers| && i < |s'.workers|
  {
    && s.workers[i].at.Waking? && t in s.slept && OnTop(s.fibers, s.workers[i].sleep, t)
    && Add64(s.slept[t].0, s.slept[t].1) < s.workers[i].at.now
    && s'.workers[i].ready[t] == s.workers[i].ready[t] + 1
  }

  lemma EffectWakes(stop: bool, fibers: FiberMap, slept: Slept, w: WorkerState, c: Choice, t: nat)
    requires WorkerEffect(stop, fibers, slept, w, c).worker.sleep[t] < w.sleep[t]
    ensures w.at.Waking? && OnTop(fibers, w.sleep, t) && WaketimeOf(fibers, t) < w.at.now
    ensures WorkerEffect(stop, fibers, slept, w, c).worker.ready[t] == w.ready[t] + 1
  {
    if Advance(stop, fibers, w, c).Some? { AdvanceMoves(stop, fibers, w, c); }
    else if w.at.Waking? { assert WorkerEffect(stop, fibers, slept, w, c) == WakeTask(fibers, slept, w, c.task); }
    else { OthersLetSleep(stop, fibers, slept, w, c); }
  }

  lemma OthersLetSleep(stop: bool, fibers: FiberMap, slept: Slept, w: WorkerState, c: Choice)
    requires Advance(stop, fibers, w, c).None? && !w.at.Waking?
    ensures w.sleep <= WorkerEffect(stop, fibers, slept, w, c).worker.sleep
  {
  }

  lemma OnlyWakingWakes(s: System, step: Step, i: nat, t: nat)
    requires Locks(s) && AllTimed(s, t) && i < |s.workers|
    ensures |Next(s, step).workers| == |s.workers|
    ensures Next(s, step).workers[i].sleep[t] < s.workers[i].sleep[t] ==> WakesLate(s, Next(s, step), i, t)
  {
    NextKeepsWorkers(s, step);
    match step
    case Stop =>
    case Submit(_, _) =>
    case Submitter(_) =>
    case Allocate => AllocatorLetsSleep(s, i);
    case Work(j, c) =>
      if j == i {
        assert Timed(s.fibers, s.slept, s.workers[i], t);
        if EffectOf(s, i, c).worker.sleep[t] < s.workers[i].sleep[t] {
          EffectWakes(s.stop, s.fibers, s.slept, s.workers[i], c, t);
        }
      }
  }

  lemma AllocatorLetsSleep(s: System, i: nat)
    requires Locks(s) && i < |s.workers|
    ensures |AllocatorStep(s).workers| == |s.workers| && AllocatorStep(s).workers[i].sleep == s.workers[i].sleep
  {
    if Target(s.allocator).None? { CycleTouches(s); }
    else {
      ServeTouches(s, Target(s.allocator).value);
      if !(s.allocator.Moving? && s.tasks != [] && s.allocator.l > 0) {
        ServeMovesNothing(s, Target(s.allocator).value);
      }
    }
  }

  /** In every run, whatever its fibers do: a step that takes a task out of a
      sleep queue takes the earliest and makes it ready, in a pass that read a clock beyond `s + d` for a
      task that slept at `s` for `d`, or beyond what is left of that sum when it
      exceeds 64 bits. */
  lemma SleepsLongEnough(n: nat, steps: seq<Step>, step: Step, i: nat, t: nat)
    requires i < n
    ensures var s, s' := Run(Started(n), steps), Next(Run(Started(n), steps), step);
            |s.workers| == |s'.workers| == n &&
            (s'.workers[i].sleep[t] < s.workers[i].sleep[t] ==> WakesLate(s, s', i, t))
  {
    SafeAtFirst(n, t);
    ReachedSafe(n, steps, t);
    RunTimed(Started(n), steps, t);
    OnlyWakingWakes(Run(Started(n), steps), step, i, t);
  }

  // ---------- What becomes of a submission ----------

  ghost predicate InHand(s: System, t: nat) {
    exists i :: Carries(s.submitters, i, t)
  }

  /** A fiber that was neither accepted nor is on its way was refused. */
  ghost predicate Settled(s: System, t: nat) {
    && (t in s.fibers ==> t in s.used)
    && (t in s.fibers && t !in s.accepted && !InHand(s, t) ==> s.fibers[t].state == DESTROY)
  }

  lemma NewSubmitSettled(s: System, i: nat, u: nat, t: nat)
    requires Settled(s, t)
    ensures Settled(Next(s, Submit(i, u)), t)
  {
    var s' := Next(s, Submit(i, u));
    if InHand(s, t) {
      var j :| Carries(s.submitters, j, t);
      assert Carries(s'.submitters, j, t);
    }
    if s' != s && !s.stop && u == t { assert Carries(s'.submitters, i, t); }
  }

  lemma SubmitterSettled(s: System, i: nat, t: nat)
    requires Settled(s, t) && Fresh(s, t) && i in s.submitters
    ensures Settled(SubmitterStep(s, i), t)
  {
    var s' := SubmitterStep(s, i);
    SubmitterTouches(s, i);
    if InHand(s, t) && s.submitters[i] != Holding(t) {
      var j :| Carries(s.submitters, j, t);
      assert Carries(s'.submitters, j, t);
    }
    if s.submitters[i] == Holding(t) { assert Carries(s.submitters, i, t); }
  }

  lemma WorkSettled(s: System, i: nat, c: Choice, t: nat)
    requires Settled(s, t) && Conserved(s, t) && AllTimed(s, t) && Fresh(s, t) && i < |s.workers|
    ensures Settled(WorkerStep(s, i, c), t)
  {
    if t in s.accepted {
    } else {
      NotYetAnywhere(s, t);
      EffectTimed(s.stop, s.fibers, s.slept, s.workers[i], c, t);
    }
  }

  lemma NextSettled(s: System, step: Step, t: nat)
    requires Safe(s, t) && AllTimed(s, t) && Settled(s, t)
    ensures Settled(Next(s, step), t)
  {
    match step
    case Stop =>
    case Submit(i, u) => NewSubmitSettled(s, i, u, t);
    case Submitter(i) => if i in s.submitters { SubmitterSettled(s, i, t); }
    case Allocate => AllocatorKeepsSubmissions(s);
    case Work(i, c) => if i < |s.workers| { WorkSettled(s, i, c, t); }
  }

  lemma {:induction false} RunSettled(s: System, steps: seq<Step>, t: nat)
    requires Safe(s, t) && AllTimed(s, t) && Settled(s, t)
    ensures Settled(Run(s, steps), t)
    decreases |steps|
  {
    if steps != [] {
      NextKeepsSafe(s, steps[0], t);
      NextTimed(s, steps[0], t);
      NextSettled(s, steps[0], t);
      RunSettled(Next(s, steps[0]), steps[1..], t);
    }
  }

  /** In every run a fiber submitted while the scheduler runs is exactly one of: in
      the hands of one `submit` call, accepted (and then in one place), or refused
      and destroyed. */
  lemma SubmissionFate(n: nat, steps: seq<Step>, t: nat)
    ensures var s := Run(Started(n), steps);
            && !(InHand(s, t) && t in s.accepted)
            && (forall i, j :: Carries(s.submitters, i, t) && Carries(s.submitters, j, t) ==> i == j)
            && (t in s.fibers && !InHand(s, t) && t !in s.accepted ==>
                  s.fibers[t].state == DESTROY && Places(s, t) == 0)
  {
    SafeAtFirst(n, t);
    ReachedSafe(n, steps, t);
    RunSettled(Started(n), steps, t);
    TaskConservation(n, steps, t);
  }
}

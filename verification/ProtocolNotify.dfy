/** What becomes of the scheduler when a notified fiber gives control back in some
    other way than by yielding or holding (sylar/scheduler.cpp): its task stays in
    `t_hold`, and the next `notify` of it fails its assertion. */
module ProtocolNotify {
  import opened Prelude
  import opened Fibers
  import opened SleepQueues
  import opened Protocol
  import opened ProtocolRuns
  import opened ProtocolAgreement
  import opened ProtocolPass

  /** The worker has the task in `t_hold`, and its fiber is not held. */
  predicate Stranded(fibers: FiberMap, w: WorkerState, t: nat) {
    t in w.hold && t in fibers && fibers[t].state != HOLD
  }

  /** One notify strands its task iff the fiber neither yields nor holds. */
  lemma StrandsExact(fibers: FiberMap, slept: Slept, w: WorkerState, at: nat, left: nat, c: Choice)
    requires at < |w.hold| && left > 0 && w.at == Notifying(at, left) && Copies(w, w.hold[at]) == 1
    ensures var e := NotifyTask(fibers, slept, w, at, left, c);
            Stranded(e.fibers, e.worker, w.hold[at]) <==> c.back != Yield && c.back != Hold
  {
    assert w.hold == w.hold[..at] + [w.hold[at]] + w.hold[at + 1..];
  }

  // ---------- It stays stranded ----------

  predicate Notifies(s: System, step: Step, t: nat) {
    step.Work? && step.w < |s.workers| && Called(s, step.w, step.c) == Some((Notify, t))
  }

  lemma OtherNotifyKeeps(fibers: FiberMap, slept: Slept, w: WorkerState, at: nat, left: nat, c: Choice, t: nat)
    requires at < |w.hold| && left > 0 && w.hold[at] != t && Stranded(fibers, w, t)
    ensures var e := NotifyTask(fibers, slept, w, at, left, c); Stranded(e.fibers, e.worker, t)
  {
    var i :| 0 <= i < |w.hold| && w.hold[i] == t;
    assert w.hold == w.hold[..at] + [w.hold[at]] + w.hold[at + 1..];
  }

  lemma ReturnKeepsStranded(fibers: FiberMap, slept: Slept, w: WorkerState, ran: nat, c: Choice, t: nat)
    requires w.at == Running(ran) && Copies(w, t) == 1 && Stranded(fibers, w, t)
    ensures var e := ReturnTask(fibers, slept, w, ran, c); Stranded(e.fibers, e.worker, t)
  {
  }

  lemma EffectKeepsStranded(s: System, i: nat, c: Choice, t: nat)
    requires i < |s.workers| && Copies(s.workers[i], t) == 1 && Stranded(s.fibers, s.workers[i], t)
    requires Called(s, i, c) != Some((Notify, t))
    ensures Stranded(EffectOf(s, i, c).fibers, EffectOf(s, i, c).worker, t)
  {
    var w := s.workers[i];
    assert multiset(w.hold)[t] >= 1;
    if Advance(s.stop, s.fibers, w, c).Some? { AdvanceMoves(s.stop, s.fibers, w, c); }
    else {
      match w.at
      case Draining => assert multiset(w.init)[w.init[0]] >= 1;
      case Waking(_) =>
      case Notifying(at, left) => OtherNotifyKeeps(s.fibers, s.slept, w, at, left, c, t);
      case Picking =>
      case Running(ran) => ReturnKeepsStranded(s.fibers, s.slept, w, ran, c, t);
      case Ending(_) =>
    }
  }

  lemma WorkKeepsStranded(s: System, j: nat, c: Choice, i: nat, t: nat)
    requires Conserved(s, t) && Fresh(s, t) && i < |s.workers| && j < |s.workers|
    requires Stranded(s.fibers, s.workers[i], t) && Called(s, j, c) != Some((Notify, t))
    ensures Stranded(WorkerStep(s, j, c).fibers, WorkerStep(s, j, c).workers[i], t)
  {
    assert multiset(s.workers[i].hold)[t] >= 1;
    NowhereElse(s, i, t);
    if j == i {
      EffectKeepsStranded(s, i, c, t);
    } else {
      EffectTimed(s.stop, s.fibers, s.slept, s.workers[j], c, t);
    }
  }

  lemma SubmitterKeepsStranded(s: System, j: nat, i: nat, t: nat)
    requires Conserved(s, t) && Fresh(s, t) && i < |s.workers| && j in s.submitters
    requires Stranded(s.fibers, s.workers[i], t)
    ensures Stranded(SubmitterStep(s, j).fibers, SubmitterStep(s, j).workers[i], t)
  {
    assert multiset(s.workers[i].hold)[t] >= 1;
    NowhereElse(s, i, t);
    SubmitterTouches(s, j);
    assert s.submitters[j] == Holding(t) ==> Carries(s.submitters, j, t);
  }

  lemma AllocatorKeepsStranded(s: System, i: nat, t: nat)
    requires Locks(s) && i < |s.workers| && Stranded(s.fibers, s.workers[i], t)
    ensures var s' := AllocatorStep(s); |s'.workers| == |s.workers| && Stranded(s'.fibers, s'.workers[i], t)
  {
    AllocatorKeepsSubmissions(s);
    if Target(s.allocator).None? { CycleTouches(s); }
    else {
      ServeTouches(s, Target(s.allocator).value);
      if !(s.allocator.Moving? && s.tasks != [] && s.allocator.l > 0) {
        ServeMovesNothing(s, Target(s.allocator).value);
      }
    }
  }

  lemma NewSubmitKeepsStranded(s: System, j: nat, u: nat, i: nat, t: nat)
    requires Conserved(s, t) && Fresh(s, t) && i < |s.workers| && Stranded(s.fibers, s.workers[i], t)
    ensures var s' := Next(s, Submit(j, u)); s'.workers == s.workers && Stranded(s'.fibers, s'.workers[i], t)
  {
    assert multiset(s.workers[i].hold)[t] >= 1;
    PartOfTotal(s.workers, i, t);
  }

  /** The worker at `i` has the task, and still has it afterwards. */
  ghost predicate StaysStranded(s': System, n: nat, i: nat, t: nat) {
    |s'.workers| == n && i < n && Stranded(s'.fibers, s'.workers[i], t)
  }

  lemma NextKeepsStranded(s: System, step: Step, i: nat, t: nat)
    requires Safe(s, t) && i < |s.workers| && Stranded(s.fibers, s.workers[i], t) && !Notifies(s, step, t)
    ensures StaysStranded(Next(s, step), |s.workers|, i, t)
  {
    match step
    case Stop =>
    case Submit(j, u) => NewSubmitKeepsStranded(s, j, u, i, t);
    case Submitter(j) => if j in s.submitters { SubmitterKeepsStranded(s, j, i, t); SubmitterTouches(s, j); }
    case Allocate => AllocatorKeepsStranded(s, i, t);
    case Work(j, c) => if j < |s.workers| { WorkKeepsStranded(s, j, c, i, t); }
  }

  ghost predicate NeverNotified(s: System, steps: seq<Step>, t: nat)
    decreases |steps|
  {
    steps == [] || (!Notifies(s, steps[0], t) && NeverNotified(Next(s, steps[0]), steps[1..], t))
  }

  lemma {:induction false} RunKeepsStranded(s: System, steps: seq<Step>, i: nat, t: nat)
    requires Safe(s, t) && i < |s.workers| && Stranded(s.fibers, s.workers[i], t) && NeverNotified(s, steps, t)
    ensures var s' := Run(s, steps); |s'.workers| == |s.workers| && Stranded(s'.fibers, s'.workers[i], t)
    decreases |steps|
  {
    if steps != [] {
      NextKeepsSafe(s, steps[0], t);
      NextKeepsStranded(s, steps[0], i, t);
      RunKeepsStranded(Next(s, steps[0]), steps[1..], i, t);
    }
  }

  lemma NotifyStrands(s: System, i: nat, c: Choice, t: nat)
    requires Safe(s, t) && i < |s.workers| && Called(s, i, c) == Some((Notify, t))
    requires c.back != Yield && c.back != Hold
    ensures StaysStranded(Next(s, Work(i, c)), |s.workers|, i, t)
  {
    var w := s.workers[i];
    assert multiset(w.hold)[t] >= 1;
    NowhereElse(s, i, t);
    StrandsExact(s.fibers, s.slept, w, w.at.at, w.at.left, c);
    assert EffectOf(s, i, c) == NotifyTask(s.fibers, s.slept, w, w.at.at, w.at.left, c);
  }

  lemma StrandedFails(s: System, after: seq<Step>, i: nat, c: Choice, t: nat)
    requires Safe(s, t) && StaysStranded(s, |s.workers|, i, t) && NeverNotified(s, after, t)
    ensures var s' := Run(s, after);
            && |s'.workers| == |s.workers| && t in s'.fibers
            && (Called(s', i, c) == Some((Notify, t)) ==> Transition(Notify, true, s'.fibers[t].state) == None)
  {
    RunKeepsStranded(s, after, i, t);
  }

  /** In every run: when a notified fiber gives control back otherwise than by
      yielding or holding, the next `notify` of its task, whenever it comes, finds a
      state in which its assertion fails. */
  lemma NextNotifyFails(n: nat, before: seq<Step>, i: nat, c: Choice, after: seq<Step>, c': Choice, t: nat)
    requires i < n
    requires var s := Run(Started(n), before);
             && |s.workers| == n && Called(s, i, c) == Some((Notify, t)) && c.back != Yield && c.back != Hold
             && NeverNotified(Next(s, Work(i, c)), after, t)
    ensures var s' := Run(Next(Run(Started(n), before), Work(i, c)), after);
            && |s'.workers| == n && t in s'.fibers
            && (Called(s', i, c') == Some((Notify, t)) ==> Transition(Notify, true, s'.fibers[t].state) == None)
  {
    ReachedSafe(n, before, t);
    var s := Run(Started(n), before);
    NotifyStrands(s, i, c, t);
    NextKeepsSafe(s, Work(i, c), t);
    StrandedFails(Next(s, Work(i, c)), after, i, c', t);
  }

  // ---------- A run that gets there ----------

  lemma {:induction false} RunSplit(s: System, a: seq<Step>, b: seq<Step>)
    ensures Run(s, a + b) == Run(Run(s, a), b)
    decreases |a|
  {
    if a == [] {
      assert a + b == b;
    } else {
      assert (a + b)[1..] == a[1..] + b;
      RunSplit(Next(s, a[0]), a[1..], b);
    }
  }

  /** Worker 0 takes steps with these choices. */
  function Works(cs: seq<Choice>): seq<Step> {
    seq(|cs|, i requires 0 <= i < |cs| => Work(0, cs[i]))
  }

  function Repeat(c: Choice, k: nat): seq<Choice> {
    seq(k, _ => c)
  }

  ghost predicate Alone(s: System, e: Effect) {
    s.workers == [e.worker] && s.fibers == e.fibers && s.slept == e.slept && !s.stop
  }

  lemma {:induction false} RunWorks(s: System, e: Effect, cs: seq<Choice>)
    requires Alone(s, e)
    ensures Alone(Run(s, Works(cs)), Worked(false, e, cs))
    decreases |cs|
  {
    if cs != [] {
      var s', e' := Next(s, Work(0, cs[0])), OwnStep(false, e, cs[0]);
      assert s'.workers == [e'.worker];
      assert Works(cs)[1..] == Works(cs[1..]);
      RunWorks(s', e', cs[1..]);
    }
  }

  lemma OneStep(e: Effect, c: Choice, k: nat)
    ensures Worked(false, e, Repeat(c, k + 1)) == Worked(false, OwnStep(false, e, c), Repeat(c, k))
  {
    assert Repeat(c, k + 1)[1..] == Repeat(c, k);
  }

  /** From the head of the loop into the locked section. */
  lemma PassToDrain(w: WorkerState, fibers: FiberMap, slept: Slept, c: Choice, k: nat)
    requires w.at == Head && w.count > 0 && w.lock == Nobody
    ensures Worked(false, At(w, fibers, slept), Repeat(c, k + 3)) ==
            Worked(false, At(w.(at := Draining, lock := Self), fibers, slept), Repeat(c, k))
  {
    OneStep(At(w, fibers, slept), c, k + 2);
    OneStep(At(w.(at := Body), fibers, slept), c, k + 1);
    OneStep(At(w.(at := Trying), fibers, slept), c, k);
  }

  /** On to the held tasks, when nothing is left to drain and nobody sleeps. */
  lemma PassToHeld(w: WorkerState, fibers: FiberMap, slept: Slept, c: Choice, k: nat)
    requires w.at == Draining && w.init == [] && w.sleep == multiset{}
    ensures Worked(false, At(w, fibers, slept), Repeat(c, k + 3)) ==
            Worked(false, At(w.(at := Notifying(0, |w.hold|), lock := Nobody), fibers, slept), Repeat(c, k))
  {
    OneStep(At(w, fibers, slept), c, k + 2);
    OneStep(At(w.(at := Clock, lock := Nobody), fibers, slept), c, k + 1);
    OneStep(At(w.(at := Waking(c.now), lock := Nobody), fibers, slept), c, k);
  }

  /** A worker whose only task is in `t_hold`. */
  predicate Holds(w: WorkerState, t: nat) {
    && w.at == Head && w.count == 1 && w.lock == Nobody
    && w.init == [] && w.ready == multiset{} && w.sleep == multiset{} && w.hold == [t]
  }

  lemma Resumes(w: WorkerState, fibers: FiberMap, slept: Slept, c: Choice, t: nat, k: nat)
    requires w.at == Picking && w.ready == multiset{t} && c.task == t
    ensures Worked(false, At(w, fibers, slept), Repeat(c, k + 1)) ==
            Worked(false, At(w.(at := Running(t), ready := multiset{}), SetState(fibers, t, EXEC), slept), Repeat(c, k))
  {
    OneStep(At(w, fibers, slept), c, k);
    assert multiset{t} - multiset{t} == multiset{};
  }

  lemma ReturnsHeld(w: WorkerState, fibers: FiberMap, slept: Slept, c: Choice, t: nat, k: nat)
    requires w.at == Running(t) && w.hold == [] && c.back == Hold
    ensures Worked(false, At(w, fibers, slept), Repeat(c, k + 1)) ==
            Worked(false, At(w.(at := Head, hold := [t]), GaveBack(fibers, t, c), slept), Repeat(c, k))
  {
    OneStep(At(w, fibers, slept), c, k);
    assert [] + [t] == [t];
  }

  /** The task is popped and resumed, and holds. */
  lemma RunsAndHolds(w: WorkerState, fibers: FiberMap, slept: Slept, c: Choice, t: nat, k: nat)
    requires w.at == Notifying(0, 0) && w.ready == multiset{t} && w.hold == [] && c.task == t && c.back == Hold
    ensures var w' := w.(at := Head, ready := multiset{}, hold := [t]);
            Worked(false, At(w, fibers, slept), Repeat(c, k + 3)) ==
            Worked(false, At(w', GaveBack(SetState(fibers, t, EXEC), t, c), slept), Repeat(c, k))
  {
    OneStep(At(w, fibers, slept), c, k + 2);
    Resumes(w.(at := Picking), fibers, slept, c, t, k + 1);
    ReturnsHeld(w.(at := Running(t), ready := multiset{}), SetState(fibers, t, EXEC), slept, c, t, k);
  }

  /** The task handed over is started. */
  lemma Starts(w: WorkerState, fibers: FiberMap, slept: Slept, c: Choice, t: nat, k: nat)
    requires w == FreshWorker().(count := 1, init := [t], given := [t])
    ensures var w' := w.(at := Draining, lock := Self, init := [], started := [t], ready := multiset{t});
            Worked(false, At(w, fibers, slept), Repeat(c, k + 4)) ==
            Worked(false, At(w', SetState(fibers, t, READY), slept), Repeat(c, k))
  {
    PassToDrain(w, fibers, slept, c, k + 1);
    OneStep(At(w.(at := Draining, lock := Self), fibers, slept), c, k);
    assert [t][1..] == [] && [] + [t] == [t] && multiset{} + multiset{t} == multiset{t};
  }

  /** The rest of a pass behind a single start: the task is resumed, and holds. */
  lemma StartedHolds(w: WorkerState, fibers: FiberMap, slept: Slept, c: Choice, t: nat)
    requires w == FreshWorker().(count := 1, given := [t], at := Draining, lock := Self, started := [t],
                                 ready := multiset{t})
    requires c.task == t && c.back == Hold
    ensures var e := Worked(false, At(w, fibers, slept), Repeat(c, 6));
            Holds(e.worker, t) && InState(e.fibers, t, HOLD)
  {
    PassToHeld(w, fibers, slept, c, 3);
    RunsAndHolds(w.(at := Notifying(0, 0), lock := Nobody), fibers, slept, c, t, 0);
  }

  /** The first pass: the task is started and resumed, and holds. */
  lemma FirstPass(w: WorkerState, fibers: FiberMap, slept: Slept, c: Choice, t: nat)
    requires w == FreshWorker().(count := 1, init := [t], given := [t]) && c.task == t && c.back == Hold
    ensures var e := Worked(false, At(w, fibers, slept), Repeat(c, 10));
            Holds(e.worker, t) && InState(e.fibers, t, HOLD)
  {
    Starts(w, fibers, slept, c, t, 6);
    var w1 := w.(at := Draining, lock := Self, init := [], started := [t], ready := multiset{t});
    StartedHolds(w1, SetState(fibers, t, READY), slept, c, t);
  }

  lemma NotifiedOnce(w: WorkerState, fibers: FiberMap, slept: Slept, c: Choice, t: nat, k: nat)
    requires w.at == Notifying(0, 1) && w.hold == [t] && c.back == Sleep
    ensures Worked(false, At(w, fibers, slept), Repeat(c, k + 1)) ==
            Worked(false, At(w.(at := Notifying(1, 0)), GaveBack(fibers, t, c), slept), Repeat(c, k))
  {
    OneStep(At(w, fibers, slept), c, k);
  }

  lemma NothingReady(w: WorkerState, fibers: FiberMap, slept: Slept, c: Choice, k: nat)
    requires w.at == Notifying(1, 0) && w.ready == multiset{}
    ensures Worked(false, At(w, fibers, slept), Repeat(c, k + 2)) ==
            Worked(false, At(w.(at := Head), fibers, slept), Repeat(c, k))
  {
    OneStep(At(w, fibers, slept), c, k + 1);
    OneStep(At(w.(at := Picking), fibers, slept), c, k);
  }

  /** A pass of a worker that only holds, up to its notifying. */
  lemma PassToNotify(w: WorkerState, fibers: FiberMap, slept: Slept, c: Choice, t: nat, k: nat)
    requires Holds(w, t)
    ensures Worked(false, At(w, fibers, slept), Repeat(c, k + 6)) ==
            Worked(false, At(w.(at := Notifying(0, 1)), fibers, slept), Repeat(c, k))
  {
    PassToDrain(w, fibers, slept, c, k + 3);
    PassToHeld(w.(at := Draining, lock := Self), fibers, slept, c, k);
  }

  /** One pass: the task is notified and sleeps. */
  lemma PassSleeps(w: WorkerState, fibers: FiberMap, slept: Slept, c: Choice, t: nat, k: nat)
    requires Holds(w, t) && c.back == Sleep
    ensures Worked(false, At(w, fibers, slept), Repeat(c, k + 9)) ==
            Worked(false, At(w, GaveBack(fibers, t, c), slept), Repeat(c, k))
  {
    PassToNotify(w, fibers, slept, c, t, k + 3);
    NotifiedOnce(w.(at := Notifying(0, 1)), fibers, slept, c, t, k + 2);
    NothingReady(w.(at := Notifying(1, 0)), GaveBack(fibers, t, c), slept, c, k);
    assert w.(at := Head) == w;
  }

  /** The next two passes: the task is notified and sleeps, and is about to be
      notified again. */
  lemma NextPasses(w: WorkerState, fibers: FiberMap, slept: Slept, c: Choice, t: nat)
    requires Holds(w, t) && c.back == Sleep
    ensures var e := Worked(false, At(w, fibers, slept), Repeat(c, 15));
            e.worker == w.(at := Notifying(0, 1)) && InState(e.fibers, t, SLEEP)
  {
    PassSleeps(w, fibers, slept, c, t, 6);
    PassToNotify(w, GaveBack(fibers, t, c), slept, c, t, 0);
  }

  // ---------- Getting the task to the worker ----------

  function Submission(): seq<Step> {
    [Submit(0, 7), Submitter(0), Submitter(0), Submitter(0), Submitter(0)]
  }

  lemma SubmissionSteps(s: System)
    requires s == Started(1)
    ensures var s' := Run(s, Submission());
            && s'.workers == [FreshWorker()] && s'.tasks == [7] && s'.lock == Unlocked && !s'.stop
            && s'.allocator == ReadStop && s'.k == 0
  {
    var s1 := Next(s, Submit(0, 7));
    assert s1 == s.(used := {7}, fibers := s1.fibers, submitters := map[0 := Wanting(7)]);
    var s2 := s1.(lock := BySubmitter(0), submitters := map[0 := Holding(7)]);
    var s3 := s2.(tasks := [7], accepted := [7], submitters := map[0 := Pushed]);
    var s4 := s3.(count := 1, submitters := map[0 := Leaving]);
    var s5 := s4.(lock := Unlocked, submitters := map[]);
    assert Next(s1, Submitter(0)) == s2 && Next(s2, Submitter(0)) == s3;
    assert Next(s3, Submitter(0)) == s4 && Next(s4, Submitter(0)) == s5;
    assert Run(s, Submission()) == Run(s1, Submission()[1..]);
    assert Run(s1, Submission()[1..]) == Run(s2, Submission()[2..]);
    assert Run(s2, Submission()[2..]) == Run(s3, Submission()[3..]);
    assert Run(s3, Submission()[3..]) == Run(s4, Submission()[4..]);
    assert Run(s4, Submission()[4..]) == Run(s5, Submission()[5..]);
  }

  lemma RoundBegins(s: System)
    requires |s.workers| == 1 && s.workers[0] == FreshWorker() && s.tasks == [7] && s.lock == Unlocked && !s.stop
    requires s.allocator == ReadStop && s.k == 0
    ensures var s4 := AllocatorStep(AllocatorStep(AllocatorStep(AllocatorStep(s))));
            && s4 == s.(lock := ByAllocator, k := 1, allocator := Moving(0, BATCH), workers := s4.workers)
            && s4.workers == [FreshWorker().(lock := Allocator)]
  {
    var s1 := s.(allocator := WantQueue);
    assert AllocatorStep(s) == s1 && AllocatorStep(s1) == TakeQueue(s1);
    assert AllocatorStep(TakeQueue(s1)) == TakeWorker(TakeQueue(s1), 0);
  }

  lemma TaskHanded(s: System)
    requires s.workers == [FreshWorker().(lock := Allocator)] && s.tasks == [7] && s.allocator == Moving(0, BATCH)
    ensures var s3 := AllocatorStep(AllocatorStep(AllocatorStep(s)));
            && s3.workers == [FreshWorker().(lock := Allocator, count := 1, init := [7], given := [7])]
            && s3.tasks == [] && s3.allocator == Moving(0, BATCH - 1)
            && s3.stop == s.stop && s3.fibers == s.fibers && s3.slept == s.slept
  {
    var s1 := MoveTask(s, 0, BATCH);
    var w := FreshWorker().(lock := Allocator, init := [7], given := [7]);
    assert [] + [7] == [7] && s1.workers == [w] && s1.tasks == [];
    var s2 := RaiseCount(s1, 0, BATCH);
    assert AllocatorStep(s) == s1 && AllocatorStep(s1) == s2;
    assert s2.workers == [w.(count := 1)] && AllocatorStep(s2) == LowerCount(s2, 0, BATCH);
  }

  lemma RoundEnds(s: System, w: WorkerState)
    requires s.workers == [w] && s.tasks == [] && s.allocator == Moving(0, BATCH - 1)
    ensures var s3 := AllocatorStep(AllocatorStep(AllocatorStep(s)));
            s3.workers == [w.(lock := Nobody)] && s3.stop == s.stop && s3.fibers == s.fibers && s3.slept == s.slept
  {
    var s1 := s.(allocator := FreeWorker(0));
    assert AllocatorStep(s) == s1 && AllocatorStep(s1) == ReleaseWorker(s1, 0);
    assert ReleaseWorker(s1, 0).workers == [w.(lock := Nobody)];
  }

  function Allocates(k: nat): seq<Step> {
    seq(k, _ => Allocate)
  }

  lemma OneAllocates(s: System, k: nat)
    ensures Run(s, Allocates(k + 1)) == Run(AllocatorStep(s), Allocates(k))
  {
    assert Allocates(k + 1)[1..] == Allocates(k);
  }

  lemma ThreeAllocate(s: System, k: nat)
    ensures Run(s, Allocates(k + 3)) == Run(AllocatorStep(AllocatorStep(AllocatorStep(s))), Allocates(k))
  {
    OneAllocates(s, k + 2);
    OneAllocates(AllocatorStep(s), k + 1);
    OneAllocates(AllocatorStep(AllocatorStep(s)), k);
  }

  /** The allocator is about to move task 7 to the only worker. */
  predicate Handing(s: System) {
    s.workers == [FreshWorker().(lock := Allocator)] && s.tasks == [7] && s.allocator == Moving(0, BATCH)
  }

  lemma FirstHalf(s: System, k: nat)
    requires s.workers == [FreshWorker()] && s.tasks == [7] && s.lock == Unlocked && !s.stop
    requires s.allocator == ReadStop && s.k == 0
    ensures var s4 := AllocatorStep(AllocatorStep(AllocatorStep(AllocatorStep(s))));
            && Handing(s4) && s4.stop == s.stop && s4.fibers == s.fibers && s4.slept == s.slept
            && Run(s, Allocates(k + 4)) == Run(s4, Allocates(k))
  {
    RoundBegins(s);
    OneAllocates(s, k + 3);
    ThreeAllocate(AllocatorStep(s), k);
  }

  lemma SecondHalf(s: System)
    requires Handing(s) && !s.stop
    ensures Alone(Run(s, Allocates(6)), At(FreshWorker().(count := 1, init := [7], given := [7]), s.fibers, s.slept))
  {
    ThreeAllocate(s, 3);
    TaskHanded(s);
    var s3 := AllocatorStep(AllocatorStep(AllocatorStep(s)));
    ThreeAllocate(s3, 0);
    RoundEnds(s3, s3.workers[0]);
  }

  lemma WholeRound(s: System)
    requires s.workers == [FreshWorker()] && s.tasks == [7] && s.lock == Unlocked && !s.stop
    requires s.allocator == ReadStop && s.k == 0
    ensures Alone(Run(s, Allocates(10)),
                  At(FreshWorker().(count := 1, init := [7], given := [7]), s.fibers, s.slept))
  {
    FirstHalf(s, 6);
    SecondHalf(AllocatorStep(AllocatorStep(AllocatorStep(AllocatorStep(s)))));
  }

  const HOLDS := Choice(0, 7, Hold, 0, 0)
  const SLEEPS := Choice(0, 7, Sleep, 0, 0)

  /** One worker and one fiber: it is submitted, handed over, started and run; it
      holds; when notified it sleeps; and it is about to be notified again. */
  function BadRun(): seq<Step> {
    Submission() + Allocates(10) + Works(Repeat(HOLDS, 10)) + Works(Repeat(SLEEPS, 15))
  }

  lemma HandedOver()
    ensures var s := Run(Started(1), Submission() + Allocates(10));
            Alone(s, At(FreshWorker().(count := 1, init := [7], given := [7]), s.fibers, s.slept))
  {
    var s := Started(1);
    SubmissionSteps(s);
    RunSplit(s, Submission(), Allocates(10));
    WholeRound(Run(s, Submission()));
  }

  lemma ThenHolds(s: System, w: WorkerState, t: nat, hold: Choice)
    requires Alone(s, At(w, s.fibers, s.slept)) && w == FreshWorker().(count := 1, init := [t], given := [t])
    requires hold.task == t && hold.back == Hold
    ensures var s' := Run(s, Works(Repeat(hold, 10)));
            |s'.workers| == 1 && Alone(s', At(s'.workers[0], s'.fibers, s'.slept)) && Holds(s'.workers[0], t)
  {
    FirstPass(w, s.fibers, s.slept, hold, t);
    RunWorks(s, At(w, s.fibers, s.slept), Repeat(hold, 10));
  }

  lemma ThenSleeps(s: System, w: WorkerState, t: nat, sleep: Choice)
    requires Alone(s, At(w, s.fibers, s.slept)) && Holds(w, t) && sleep.back == Sleep
    ensures var s' := Run(s, Works(Repeat(sleep, 15)));
            |s'.workers| == 1 && Called(s', 0, sleep) == Some((Notify, t)) && InState(s'.fibers, t, SLEEP)
  {
    NextPasses(w, s.fibers, s.slept, sleep, t);
    RunWorks(s, At(w, s.fibers, s.slept), Repeat(sleep, 15));
  }

  /** That `notify` finds the fiber asleep: its assertion fails. */
  lemma BadRunFails()
    ensures var s := Run(Started(1), BadRun());
            && |s.workers| == 1 && Called(s, 0, SLEEPS) == Some((Notify, 7))
            && InState(s.fibers, 7, SLEEP) && Transition(Notify, true, SLEEP) == None
  {
    var handed := Submission() + Allocates(10);
    HandedOver();
    RunSplit(Started(1), handed, Works(Repeat(HOLDS, 10)));
    RunSplit(Started(1), handed + Works(Repeat(HOLDS, 10)), Works(Repeat(SLEEPS, 15)));
    var s := Run(Started(1), handed);
    ThenHolds(s, s.workers[0], 7, HOLDS);
    var held := Run(s, Works(Repeat(HOLDS, 10)));
    ThenSleeps(held, held.workers[0], 7, SLEEPS);
  }
}

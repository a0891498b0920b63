/** What holds in every run of the event table (sylar/iomanager.cpp), under any
    interleaving of calls: agreement and fates, which slots growth may lose, what
    is left when the wait of `stop` ends, and what a triggered event can no longer
    do. */
module EventRuns {
  import opened Prelude
  import opened EventTables
  import opened EventSteps
  import Fibers

  predicate Fitting(heap: seq<Slot>, sections: seq<Section>) {
    |heap| == |sections| && forall c :: 0 <= c < |heap| ==> SectionFits(heap[c], sections[c])
  }

  lemma SoundFits(s: Io)
    requires Sound(s)
    ensures Fitting(s.t.heap, s.sections)
  {
    forall c | 0 <= c < |s.t.heap| ensures SectionFits(s.t.heap[c], s.sections[c]) {
      assert CellSound(s.t.kernel, s.t.heap[c], s.sections[c], c);
    }
  }

  lemma {:induction false} ExpectedAtLeast(heap: seq<Slot>, sections: seq<Section>, c: nat)
    requires Fitting(heap, sections)
    ensures 0 <= Expected(heap, sections)
    ensures c < |heap| ==> 0 <= Due(heap[c], sections[c]) <= Expected(heap, sections)
  {
    if heap != [] {
      assert SectionFits(heap[0], sections[0]);
      ExpectedAtLeast(heap[1..], sections[1..], if c == 0 then 0 else c - 1);
    }
  }

  lemma ReachedSound(steps: seq<Step>)
    ensures Sound(Run(Start(), steps))
  {
    StartSound();
    RunSound(Start(), steps);
  }

  /** Agreement in every run, growth that loses slots included. An event is
      registered iff its context has a scheduler, and then has a fiber. The kernel
      watches for a slot what its mask says, corrected by what the holder of its
      mutex is about to do. The counter, which never goes below zero, is the number
      of registered events with the same correction; so with nobody under a mutex
      there is none. And every registration is pending or submitted, and that
      once. */
  lemma EventsAgree(steps: seq<Step>)
    ensures var s := Run(Start(), steps);
            Sound(s) && 0 <= s.t.pending && (AllFree(s.sections) ==> Agree(s.t))
  {
    var s := Run(Start(), steps);
    ReachedSound(steps);
    SoundFits(s);
    ExpectedAtLeast(s.t.heap, s.sections, 0);
    if AllFree(s.sections) { FreeAgreesExact(s); }
  }

  /** No `delEvent` call that `epoll_ctl` has served returns: whoever goes on from
      there, in any state of any run, fails an assertion. */
  lemma DeleteNeverReturns(steps: seq<Step>, c: nat, full: bool, other: Fibers.State)
    ensures var s := Run(Start(), steps);
            !s.crashed && c < |s.sections| && s.sections[c].Deleting? && s.sections[c].counted ==>
              Next(s, Proceed(c, full, other)).crashed
  {
    ReachedSound(steps);
    StuckDeleting(Run(Start(), steps), c, full, other);
  }

  lemma StuckDeleting(s: Io, c: nat, full: bool, other: Fibers.State)
    requires Sound(s)
    ensures !s.crashed && c < |s.sections| && s.sections[c].Deleting? && s.sections[c].counted ==>
              Next(s, Proceed(c, full, other)).crashed
  {
    if c < |s.sections| && s.sections[c].Deleting? && s.sections[c].counted { DeleteCrashes(s, c, other); }
  }

  // ---------- What growing may lose ----------

  /** The slot has an event, or a call is about to register one on it. */
  ghost predicate Live(s: Io, c: nat) {
    c < |s.t.heap| && c < |s.sections| &&
    (|| s.t.heap[c].events != NONE || s.sections[c].Adding?
     || exists i :: i in s.adds && s.adds[i].at == Waiting(c))
  }

  ghost predicate LiveInTable(s: Io) {
    forall c {:trigger Live(s, c)} :: Live(s, c) ==> InTable(s.t, c)
  }

  ghost predicate CutsNothingLive(s: Io, step: Step) {
    step.Grow? && !s.crashed && At(s, step.i, Growing) ==>
      forall fd :: Grown(s.adds[step.i].fd) <= fd < |s.t.table| ==> !Live(s, s.t.table[fd])
  }

  lemma GrownLives(s: Io, i: nat, c: nat)
    requires Sound(s) && !s.crashed && At(s, i, Growing)
    ensures var s', fd := Next(s, Grow(i)), s.adds[i].fd;
            && fd < |s'.t.table| && InTable(s'.t, s'.t.table[fd])
            && (Live(s', c) <==> Live(s, c) || c == s'.t.table[fd])
  {
    var s' := Next(s, Grow(i));
    GrowSound(s, i);
    assert CallFits(s.t, s.adds[i]);
    var size := Grown(s.adds[i].fd);
    if c < |s.t.heap| {
      assert s'.t.heap[c] == s.t.heap[c] && s'.sections[c] == s.sections[c];
    } else if c < |s'.t.heap| {
      assert s'.t.heap[c] == Made(s.t, size)[c - |s.t.heap|] && s'.sections[c] == Free;
    }
    if Live(s, c) {
      forall j | j in s.adds && s.adds[j].at == Waiting(c) ensures j in s'.adds && s'.adds[j].at == Waiting(c) {
      }
    }
    if c == s'.t.table[s.adds[i].fd] { assert s'.adds[i].at == Waiting(c); }
  }

  /** Growing loses track of nothing that lives iff no slot it cuts off has an event
      or a call about to register one. */
  lemma GrowExact(s: Io, i: nat)
    requires Sound(s) && LiveInTable(s) && !s.crashed && At(s, i, Growing)
    ensures LiveInTable(Next(s, Grow(i))) <==>
            forall fd :: Grown(s.adds[i].fd) <= fd < |s.t.table| ==> !Live(s, s.t.table[fd])
  {
    var s', size := Next(s, Grow(i)), Grown(s.adds[i].fd);
    GrowSound(s, i);
    forall c: nat ensures Live(s', c) <==> Live(s, c) || c == s'.t.table[s.adds[i].fd] { GrownLives(s, i, c); }
    forall c: nat | Live(s, c) ensures InTable(s'.t, c) <==> s.t.heap[c].fd < size { ResizeReaches(s.t, size, c); }
    GrownLives(s, i, 0);
    forall fd | size <= fd < |s.t.table| && Live(s, s.t.table[fd])
      ensures Live(s', s.t.table[fd]) && !InTable(s'.t, s.t.table[fd])
    {
    }
    if !LiveInTable(s') {
      var c: nat :| Live(s', c) && !InTable(s'.t, c);
      assert Live(s, c) && s.t.table[s.t.heap[c].fd] == c;
    }
  }

  /** What lives after the step did so before, or is in the table; and the table is
      the same. */
  ghost predicate LivesOn(s: Io, s': Io) {
    && s'.t.table == s.t.table && |s'.t.heap| == |s.t.heap|
    && (forall c {:trigger s'.t.heap[c]} :: 0 <= c < |s.t.heap| ==> s'.t.heap[c].fd == s.t.heap[c].fd)
    && (forall c {:trigger Live(s', c)} :: Live(s', c) ==> Live(s, c) || InTable(s'.t, c))
  }

  predicate Busy(slot: Slot, section: Section) {
    slot.events != NONE || section.Adding?
  }

  /** Only the slot `c` and its holder have changed, and no call has moved. */
  ghost predicate OnlyAt(s: Io, s': Io, c: nat) {
    && s'.t.table == s.t.table && |s'.t.heap| == |s.t.heap| && |s'.sections| == |s.sections| == |s.t.heap|
    && c < |s.t.heap| && s'.t.heap[c].fd == s.t.heap[c].fd
    && (forall d {:trigger s'.t.heap[d]} :: 0 <= d < |s.t.heap| && d != c ==> s'.t.heap[d] == s.t.heap[d])
    && (forall d {:trigger s'.sections[d]} :: 0 <= d < |s.sections| && d != c ==> s'.sections[d] == s.sections[d])
    && CallsKept(s, s')
  }

  lemma CellLives(s: Io, s': Io, c: nat)
    requires OnlyAt(s, s', c) && (Busy(s'.t.heap[c], s'.sections[c]) ==> Live(s, c))
    ensures LivesOn(s, s')
  {
    forall d: nat | Live(s', d) ensures Live(s, d) {
      if d != c { assert s'.t.heap[d] == s.t.heap[d] && s'.sections[d] == s.sections[d]; }
      assert Busy(s'.t.heap[d], s'.sections[d]) || exists i :: i in s'.adds && s'.adds[i].at == Waiting(d);
    }
  }

  lemma NothingLives(s: Io)
    requires Sound(s)
    ensures LivesOn(s, s) && LivesOn(s, Crash(s))
  {
    forall c: nat | Live(Crash(s), c) ensures Live(s, c) {
      assert Crash(s).adds == s.adds;
    }
  }

  lemma RegisterLives(s: Io, i: nat, ok: bool)
    requires Sound(s)
    ensures LivesOn(s, Register(s, i, ok))
  {
    var s' := Register(s, i, ok);
    NothingLives(s);
    if IsWaiting(s, i) && Enters(s, s.adds[i].at.c) && s' != Crash(s) {
      assert Live(s, s.adds[i].at.c);
      CellLives(s, s', s.adds[i].at.c);
    }
  }

  lemma RemoveLives(s: Io, step: Step)
    requires Sound(s) && Removes(step)
    ensures LivesOn(s, Remove(s, step))
  {
    var s' := Remove(s, step);
    NothingLives(s);
    if s' != s { CellLives(s, s', step.c); }
  }

  ghost predicate StaysAt(s: Io, s': Io, c: nat) {
    OnlyAt(s, s', c) && (Busy(s'.t.heap[c], s'.sections[c]) ==> Busy(s.t.heap[c], s.sections[c]))
  }

  lemma AddingAt(s: Io, c: nat)
    requires |s.sections| == |s.t.heap| && c < |s.t.heap| && s.sections[c].Adding? && GoOnAdding(s, c) != Crash(s)
    ensures StaysAt(s, GoOnAdding(s, c), c)
  {
  }

  lemma DeletingAt(s: Io, c: nat, other: Fibers.State)
    requires |s.sections| == |s.t.heap| && c < |s.t.heap| && s.sections[c].Deleting?
    requires GoOnDeleting(s, c, other) != Crash(s)
    ensures StaysAt(s, GoOnDeleting(s, c, other), c)
  {
  }

  lemma TriggeringAt(s: Io, c: nat, full: bool)
    requires |s.sections| == |s.t.heap| && c < |s.t.heap| && s.sections[c].Triggering?
    requires GoOnTriggering(s, c, full) != Crash(s)
    ensures StaysAt(s, GoOnTriggering(s, c, full), c)
  {
  }

  lemma GoOnAt(s: Io, c: nat, full: bool, other: Fibers.State)
    requires Sound(s) && c < |s.t.heap| && s.sections[c] != Free && GoOn(s, c, full, other) != Crash(s)
    ensures StaysAt(s, GoOn(s, c, full, other), c)
  {
    match s.sections[c]
    case Adding(_, _) => AddingAt(s, c);
    case Deleting(_, _, _) => DeletingAt(s, c, other);
    case Triggering(_, _, _) => TriggeringAt(s, c, full);
  }

  lemma GoOnLives(s: Io, c: nat, full: bool, other: Fibers.State)
    requires Sound(s) && !s.crashed
    ensures LivesOn(s, GoOn(s, c, full, other))
  {
    var s' := GoOn(s, c, full, other);
    NothingLives(s);
    if s' != s && s' != Crash(s) {
      GoOnAt(s, c, full, other);
      CellLives(s, s', c);
    }
  }

  lemma LookUpLives(s: Io, i: nat)
    requires Sound(s)
    ensures LivesOn(s, LookUp(s, i))
  {
    var s' := LookUp(s, i);
    forall c | Live(s', c) ensures Live(s, c) || InTable(s'.t, c) {
    }
  }

  lemma NextLives(s: Io, step: Step)
    requires Sound(s) && !step.Grow?
    ensures LivesOn(s, Next(s, step))
  {
    NothingLives(s);
    if !s.crashed {
      match step
      case BeginAdd(i, fd, e) =>
        forall c: nat | Live(Next(s, step), c) ensures Live(s, c) {
        }
      case ReadSize(i) => LookUpLives(s, i);
      case Grow(_) =>
      case EnterAdd(i, ok) => RegisterLives(s, i, ok);
      case Proceed(c, full, other) => GoOnLives(s, c, full, other);
      case BeginStop =>
        forall c: nat | Live(Next(s, step), c) ensures Live(s, c) {
        }
      case SeeNothingPending =>
        forall c: nat | Live(Next(s, step), c) ensures Live(s, c) {
        }
      case _ => RemoveLives(s, step);
    }
  }

  lemma NextLiveInTable(s: Io, step: Step)
    requires Sound(s) && LiveInTable(s) && CutsNothingLive(s, step)
    ensures LiveInTable(Next(s, step))
  {
    if step.Grow? && !s.crashed && At(s, step.i, Growing) {
      GrowExact(s, step.i);
    } else {
      NextLivesOrSame(s, step);
      var s' := Next(s, step);
      forall c: nat | Live(s', c) ensures InTable(s'.t, c) {
      }
    }
  }

  lemma NextLivesOrSame(s: Io, step: Step)
    requires Sound(s) && (step.Grow? ==> s.crashed || !At(s, step.i, Growing))
    ensures LivesOn(s, Next(s, step))
  {
    if step.Grow? { NothingLives(s); } else { NextLives(s, step); }
  }

  ghost predicate RunCutsNothingLive(s: Io, steps: seq<Step>)
    decreases |steps|
  {
    steps == [] || (CutsNothingLive(s, steps[0]) && RunCutsNothingLive(Next(s, steps[0]), steps[1..]))
  }

  lemma {:induction false} RunLiveInTable(s: Io, steps: seq<Step>)
    requires Sound(s) && LiveInTable(s) && RunCutsNothingLive(s, steps)
    ensures LiveInTable(Run(s, steps))
    decreases |steps|
  {
    if steps != [] {
      NextSound(s, steps[0]);
      NextLiveInTable(s, steps[0]);
      RunLiveInTable(Next(s, steps[0]), steps[1..]);
    }
  }

  lemma NothingLivesAtStart()
    ensures LiveInTable(Start())
  {
    forall c: nat ensures !Live(Start(), c) {
    }
  }

  /** As long as growth cuts off nothing that lives, every slot with an event or with
      a call about to register one is found in the table under its descriptor, and
      it is that slot the kernel reports. */
  lemma TableComplete(steps: seq<Step>)
    requires RunCutsNothingLive(Start(), steps)
    ensures var s := Run(Start(), steps);
            && LiveInTable(s)
            && forall fd :: fd in s.t.kernel ==> fd < |s.t.table| && s.t.kernel[fd].c == s.t.table[fd]
  {
    StartSound();
    ReachedSound(steps);
    NothingLivesAtStart();
    RunLiveInTable(Start(), steps);
    WatchedInTable(Run(Start(), steps));
  }

  lemma WatchedInTable(s: Io)
    requires Sound(s) && LiveInTable(s)
    ensures forall fd :: fd in s.t.kernel ==> fd < |s.t.table| && s.t.kernel[fd].c == s.t.table[fd]
  {
    forall fd | fd in s.t.kernel ensures fd < |s.t.table| && s.t.kernel[fd].c == s.t.table[fd] {
      WatchedLives(s, fd);
    }
  }

  /** The kernel watches on behalf of slots that live. */
  lemma WatchedLives(s: Io, fd: nat)
    requires Sound(s) && fd in s.t.kernel
    ensures Live(s, s.t.kernel[fd].c) && s.t.heap[s.t.kernel[fd].c].fd == fd
  {
    assert WatchFits(s.t, fd);
    var c := s.t.kernel[fd].c;
    assert CellSound(s.t.kernel, s.t.heap[c], s.sections[c], c);
  }

  /** Growing does not find a table that has outgrown it in the meantime. */
  predicate InTurn(s: Io, step: Step) {
    step.Grow? && At(s, step.i, Growing) ==> |s.t.table| <= Grown(s.adds[step.i].fd)
  }

  /** Growth in turn is enough for that, and keeps every slot of the table. */
  lemma InTurnCutsNothing(s: Io, step: Step)
    requires InTurn(s, step)
    ensures CutsNothingLive(s, step)
    ensures s.t.table <= Next(s, step).t.table
  {
  }

  // ---------- Growth out of turn ----------

  /** A call whose slot was cut off before it got the mutex goes on all the same:
      afterwards the kernel and the counter know an event of which there is no slot
      in the table. */
  lemma OrphanRegisters(s: Io, i: nat, full: bool, other: Fibers.State)
    requires Sound(s) && !s.crashed && IsWaiting(s, i)
    requires var c := s.adds[i].at.c;
             Enters(s, c) && s.t.heap[c] == FreshSlot(s.adds[i].fd) && s.adds[i].fd !in s.t.kernel && !InTable(s.t, c)
    ensures var (c, fd) := (s.adds[i].at.c, s.adds[i].fd);
            var s1 := Next(s, EnterAdd(i, true));
            var s' := Twice(s1, c, full, other);
            && !s'.crashed && s'.t.pending == s.t.pending + 1 && s'.t.table == s.t.table
            && fd in s'.t.kernel && s'.t.kernel[fd] == Watch(NONE.With(s.adds[i].e), c)
            && c < |s'.t.heap| && s'.t.heap[c].events == NONE.With(s.adds[i].e) && !InTable(s'.t, c)
  {
  }

  /** Two calls, for descriptors 100 and 40, look at the table. */
  function BothSized(s: Io): Io {
    var begun := Next(Next(s, BeginAdd(0, 100, READ)), BeginAdd(1, 40, WRITE));
    Next(Next(begun, ReadSize(0)), ReadSize(1))
  }

  /** The holder of the slot's mutex counts and registers its event. */
  function Added(s: Io, c: nat): Io {
    Twice(s, c, false, Fibers.DESTROY)
  }

  /** The event of descriptor 100 is known to the kernel and to the counter, and the
      table has only 60 slots. */
  predicate Lost(s: Io) {
    && !s.crashed && |s.t.table| == 60 && s.t.pending == 1
    && 100 in s.t.kernel && s.t.kernel[100] == Watch(NONE.With(READ), 100)
    && 100 < |s.t.heap| && s.t.heap[100].events == NONE.With(READ)
  }

  ghost predicate Fresh(s: Io) {
    && Sound(s) && !s.crashed && !s.stopping && |s.t.table| == 32 && |s.t.heap| == 32
    && s.t.kernel == map[] && s.t.pending == 0
  }

  lemma BothFindItSmall(s: Io)
    requires Fresh(s) && s.adds == map[]
    ensures var s' := BothSized(s);
            Fresh(s') && s'.adds == map[0 := AddCall(100, READ, Growing), 1 := AddCall(40, WRITE, Growing)]
  {
    var s' := BothSized(s);
    assert s' == s.(adds := map[0 := AddCall(100, READ, Growing), 1 := AddCall(40, WRITE, Growing)]);
  }

  /** The first call has grown the table to 150 slots. */
  ghost predicate FirstGrown(s: Io) {
    && Sound(s) && !s.crashed && |s.t.table| == 150 && |s.t.heap| == 150 && s.t.table[100] == 100
    && Enters(s, 100) && s.t.heap[100] == FreshSlot(100) && s.t.kernel == map[] && s.t.pending == 0
    && s.adds == map[0 := AddCall(100, READ, Waiting(100)), 1 := AddCall(40, WRITE, Growing)]
  }

  lemma FirstGrows(s: Io)
    requires Fresh(s) && s.adds == map[0 := AddCall(100, READ, Growing), 1 := AddCall(40, WRITE, Growing)]
    ensures FirstGrown(Next(s, Grow(0)))
  {
    GrowSound(s, 0);
    assert Enlarged(s, 150).t.heap[100] == Made(s.t, 150)[68];
    assert AddressOf(s.t, 100) == 100;
  }

  lemma SecondShrinks(s: Io)
    requires FirstGrown(s)
    ensures var s' := Next(s, Grow(1));
            && Sound(s') && !s'.crashed && |s'.t.table| == 60 && s'.t.heap == s.t.heap && s'.sections == s.sections
            && s'.t.kernel == map[] && s'.t.pending == 0 && 0 in s'.adds && s'.adds[0] == s.adds[0]
  {
    GrowSound(s, 1);
    assert Made(s.t, 60) == [];
  }

  lemma RegisteredThenCut(s: Io)
    requires FirstGrown(s)
    ensures Lost(Next(Added(Next(s, EnterAdd(0, true)), 100), Grow(1)))
  {
    var s' := Added(Next(s, EnterAdd(0, true)), 100);
    assert At(s', 1, Growing) && s'.adds[1].fd == 40;
    assert Made(s'.t, 60) == [];
  }

  lemma CutThenRegistered(s: Io)
    requires FirstGrown(s)
    ensures Lost(Added(Next(Next(s, Grow(1)), EnterAdd(0, true)), 100))
  {
    SecondShrinks(s);
    OrphanRegisters(Next(s, Grow(1)), 0, false, Fibers.DESTROY);
  }

  /** Out of turn, the second call to grow makes the table smaller than the first
      has. In the first run the first call has registered its event by then; in the
      second it has not even got the mutex of its slot, and registers later. */
  lemma GrowthRaces()
    ensures var s := Next(BothSized(Start()), Grow(0));
            && Lost(Next(Added(Next(s, EnterAdd(0, true)), 100), Grow(1)))
            && Lost(Added(Next(Next(s, Grow(1)), EnterAdd(0, true)), 100))
  {
    StartSound();
    BothFindItSmall(Start());
    FirstGrows(BothSized(Start()));
    RegisteredThenCut(Next(BothSized(Start()), Grow(0)));
    CutThenRegistered(Next(BothSized(Start()), Grow(0)));
  }

  // ---------- Draining ----------

  /** How many calls hold a mutex and have yet to count the event they add. */
  ghost function Uncounted(sections: seq<Section>): nat {
    if sections == [] then 0
    else One(sections[0].Adding? && !sections[0].counted) + Uncounted(sections[1..])
  }

  lemma {:induction false} UncountedMoves(sections: seq<Section>, i: nat, section: Section)
    requires i < |sections|
    ensures Uncounted(sections[i := section]) + One(sections[i].Adding? && !sections[i].counted) ==
            Uncounted(sections) + One(section.Adding? && !section.counted)
  {
    if i == 0 {
      assert sections[i := section][1..] == sections[1..];
    } else {
      assert sections[i := section][1..] == sections[1..][i - 1 := section];
      UncountedMoves(sections[1..], i - 1, section);
    }
  }

  lemma {:induction false} UncountedSplit(a: seq<Section>, b: seq<Section>)
    requires AllFree(b)
    ensures Uncounted(a + b) == Uncounted(a)
  {
    if a == [] {
      assert a + b == b;
      if b != [] {
        assert b == [] + b && b[1..] == [] + b[1..];
        UncountedSplit([], b[1..]);
      }
    } else {
      assert (a + b)[1..] == a[1..] + b;
      UncountedSplit(a[1..], b);
    }
  }

  /** The `addEvent` calls that may still raise the counter. */
  ghost function OnTheirWay(s: Io): nat {
    |s.adds| + Uncounted(s.sections)
  }

  /** Nothing new is on its way, and the counter rises only by what was. */
  ghost predicate Drains(s: Io, s': Io) {
    s'.stopping && OnTheirWay(s') <= OnTheirWay(s) && s'.t.pending + OnTheirWay(s') <= s.t.pending + OnTheirWay(s)
  }

  lemma FoundDrains(s: Io, i: nat)
    requires s.stopping && i in s.adds && s.adds[i].fd < |s.t.table|
    ensures Drains(s, Found(s, i))
  {
    assert Found(s, i).adds.Keys == s.adds.Keys;
  }

  lemma LookUpDrains(s: Io, i: nat)
    requires s.stopping
    ensures Drains(s, LookUp(s, i))
  {
    if At(s, i, Sizing) {
      if s.adds[i].fd < |s.t.table| { FoundDrains(s, i); } else { assert LookUp(s, i).adds.Keys == s.adds.Keys; }
    }
  }

  lemma GrowDrains(s: Io, i: nat)
    requires Sound(s) && s.stopping
    ensures Drains(s, GrowTable(s, i))
  {
    GrowSound(s, i);
    if At(s, i, Growing) {
      var size := Grown(s.adds[i].fd);
      UncountedSplit(s.sections, seq(Missing(s.t, size), _ => Free));
      FoundDrains(Enlarged(s, size), i);
    }
  }

  lemma RegisterDrains(s: Io, i: nat, ok: bool)
    requires s.stopping
    ensures Drains(s, Register(s, i, ok))
  {
    if IsWaiting(s, i) && Enters(s, s.adds[i].at.c) {
      UncountedMoves(s.sections, s.adds[i].at.c, Adding(s.adds[i].e, false));
    }
  }

  lemma RemoveDrains(s: Io, step: Step)
    requires s.stopping && Removes(step)
    ensures Drains(s, Remove(s, step))
  {
    if Enters(s, step.c) {
      var section := Removal(s.t.heap[step.c], step);
      if section.Some? { UncountedMoves(s.sections, step.c, section.value); }
    }
  }

  lemma AddingDrains(s: Io, c: nat)
    requires s.stopping && c < |s.t.heap| && c < |s.sections| && s.sections[c].Adding?
    ensures Drains(s, GoOnAdding(s, c))
  {
    UncountedMoves(s.sections, c, GoOnAdding(s, c).sections[c]);
  }

  lemma DeletingDrains(s: Io, c: nat, other: Fibers.State)
    requires s.stopping && c < |s.t.heap| && c < |s.sections| && s.sections[c].Deleting?
    ensures Drains(s, GoOnDeleting(s, c, other))
  {
    UncountedMoves(s.sections, c, GoOnDeleting(s, c, other).sections[c]);
  }

  lemma TriggeringDrains(s: Io, c: nat, full: bool)
    requires s.stopping && c < |s.t.heap| && c < |s.sections| && s.sections[c].Triggering?
    ensures Drains(s, GoOnTriggering(s, c, full))
  {
    UncountedMoves(s.sections, c, GoOnTriggering(s, c, full).sections[c]);
  }

  lemma GoOnDrains(s: Io, c: nat, full: bool, other: Fibers.State)
    requires s.stopping
    ensures Drains(s, GoOn(s, c, full, other))
  {
    if c < |s.t.heap| && c < |s.sections| {
      match s.sections[c]
      case Free =>
      case Adding(_, _) => AddingDrains(s, c);
      case Deleting(_, _, _) => DeletingDrains(s, c, other);
      case Triggering(_, _, _) => TriggeringDrains(s, c, full);
    }
  }

  lemma NextDrains(s: Io, step: Step)
    requires Sound(s) && s.stopping
    ensures Drains(s, Next(s, step))
  {
    match step
    case BeginAdd(_, _, _) =>
    case ReadSize(i) => LookUpDrains(s, i);
    case Grow(i) => GrowDrains(s, i);
    case EnterAdd(i, ok) => RegisterDrains(s, i, ok);
    case Proceed(c, full, other) => GoOnDrains(s, c, full, other);
    case BeginStop =>
    case SeeNothingPending =>
    case _ => RemoveDrains(s, step);
  }

  /** Once `stop` has been called only the `addEvent` calls that got past their test
      before can raise the counter, each by one; without any, it never rises
      again. */
  lemma {:induction false} NothingNewAfterStop(s: Io, steps: seq<Step>)
    requires Sound(s) && s.stopping
    ensures var s' := Run(s, steps);
            && s'.t.pending <= s.t.pending + OnTheirWay(s)
            && (OnTheirWay(s) == 0 ==> s'.t.pending <= s.t.pending && OnTheirWay(s') == 0)
    decreases |steps|
  {
    if steps != [] {
      NextDrains(s, steps[0]);
      NextSound(s, steps[0]);
      NothingNewAfterStop(Next(s, steps[0]), steps[1..]);
    }
  }

  /** A slot that counts for nothing. */
  predicate Drained(slot: Slot, section: Section) {
    slot.events == NONE || (section.Deleting? && section.counted && slot.events == NONE.With(section.e))
  }

  lemma NothingDue(s: Io, c: nat)
    requires Sound(s) && s.t.pending == 0 && c < |s.t.heap|
    ensures Drained(s.t.heap[c], s.sections[c])
    ensures Wanted(s.t.heap[c], s.sections[c]) != NONE ==>
              s.sections[c].Adding? && !s.sections[c].counted &&
              Wanted(s.t.heap[c], s.sections[c]) == NONE.With(s.sections[c].e)
  {
    SoundFits(s);
    ExpectedAtLeast(s.t.heap, s.sections, c);
  }

  lemma NothingWatched(s: Io, fd: nat)
    requires Sound(s) && s.t.pending == 0 && fd in s.t.kernel
    ensures s.t.kernel[fd].c < |s.sections|
    ensures var section := s.sections[s.t.kernel[fd].c];
            section.Adding? && !section.counted && s.t.kernel[fd].events == NONE.With(section.e)
  {
    assert WatchFits(s.t, fd);
    var c := s.t.kernel[fd].c;
    assert CellSound(s.t.kernel, s.t.heap[c], s.sections[c], c);
    NothingDue(s, c);
  }

  /** A slot has no event, unless a `delEvent` call is under its mutex that has
      discounted its only one; and the kernel watches a descriptor only for an
      `addEvent` call that has yet to count. So if nobody is under a mutex, no
      descriptor has an event and the kernel watches none. */
  ghost predicate NothingLeft(s: Io)
    requires |s.sections| == |s.t.heap|
  {
    && (forall c {:trigger s.t.heap[c]} :: 0 <= c < |s.t.heap| ==> Drained(s.t.heap[c], s.sections[c]))
    && (forall fd :: fd in s.t.kernel ==>
          && s.t.kernel[fd].c < |s.sections|
          && var section := s.sections[s.t.kernel[fd].c];
          section.Adding? && !section.counted && s.t.kernel[fd].events == NONE.With(section.e))
    && (AllFree(s.sections) ==>
          && s.t.kernel == map[]
          && forall c {:trigger s.t.heap[c]} :: 0 <= c < |s.t.heap| ==> s.t.heap[c].events == NONE)
  }

  lemma DrainedIsEmpty(s: Io)
    requires Sound(s) && s.t.pending == 0
    ensures NothingLeft(s)
  {
    forall c {:trigger s.t.heap[c]} | 0 <= c < |s.t.heap| ensures Drained(s.t.heap[c], s.sections[c]) {
      NothingDue(s, c);
    }
    forall fd | fd in s.t.kernel
      ensures s.t.kernel[fd].c < |s.sections|
      ensures var section := s.sections[s.t.kernel[fd].c];
              section.Adding? && !section.counted && s.t.kernel[fd].events == NONE.With(section.e)
    {
      NothingWatched(s, fd);
    }
    if AllFree(s.sections) {
      forall fd: nat ensures fd !in s.t.kernel { FreeWatchesNothing(s, fd); }
    }
  }

  lemma FreeWatchesNothing(s: Io, fd: nat)
    requires Sound(s) && s.t.pending == 0 && AllFree(s.sections)
    ensures fd !in s.t.kernel
  {
    if fd in s.t.kernel { NothingWatched(s, fd); }
  }

  /** When the wait in `stop` ends, nothing is left but what calls in flight are
      about to add or take away. */
  lemma DrainedMeansEmpty(steps: seq<Step>)
    ensures var s := Run(Start(), steps);
            |s.sections| == |s.t.heap| && (!s.ended && Next(s, SeeNothingPending).ended ==> NothingLeft(s))
  {
    ReachedSound(steps);
    EndedIsEmpty(Run(Start(), steps));
  }

  lemma EndedIsEmpty(s: Io)
    requires Sound(s)
    ensures !s.ended && Next(s, SeeNothingPending).ended ==> NothingLeft(s)
  {
    if s.t.pending == 0 { DrainedIsEmpty(s); }
  }

  lemma {:induction false} EndedStays(s: Io, steps: seq<Step>)
    requires s.ended ==> s.stopping
    ensures var s' := Run(s, steps);
            (s'.ended ==> s'.stopping) && (s.ended ==> s'.ended) && (s.stopping ==> s'.stopping)
    decreases |steps|
  {
    if steps != [] {
      OnlyStopEnds(s, steps[0]);
      EndedStays(Next(s, steps[0]), steps[1..]);
    }
  }

  lemma OnlyStopEnds(s: Io, step: Step)
    ensures var s' := Next(s, step);
            && (s'.stopping <==> s.stopping || (!s.crashed && step == BeginStop))
            && (s'.ended <==> s.ended || (!s.crashed && step == SeeNothingPending && s.stopping && s.t.pending == 0))
  {
  }

  /** The wait ends only in `stop`, at a look at the counter that finds it 0, and every
      such look ends it. */
  lemma WaitEndsExact(steps: seq<Step>)
    ensures var s := Run(Start(), steps);
            && (s.ended ==> s.stopping)
            && (!s.crashed && !s.ended ==>
                  (Next(s, SeeNothingPending).ended <==> s.stopping && s.t.pending == 0))
  {
    EndedStays(Start(), steps);
  }

  /** Both ways in which the wait ends too early for a call in flight: one has told
      the kernel and not the counter yet, one has not even looked at the table. Each
      registers its event after the wait has ended. */
  lemma LateRegistrations()
    ensures var entered := Next(Next(Next(Start(), BeginAdd(0, 5, READ)), ReadSize(0)), EnterAdd(0, true));
            var stopped := Next(Next(entered, BeginStop), SeeNothingPending);
            && stopped.ended && stopped.t.kernel == map[5 := Watch(NONE.With(READ), 5)]
            && var s := Added(stopped, 5); !s.crashed && s.t.pending == 1
    ensures var stopped := Next(Next(Next(Start(), BeginAdd(0, 5, READ)), BeginStop), SeeNothingPending);
            && stopped.ended
            && var s := Added(Next(Next(stopped, ReadSize(0)), EnterAdd(0, true)), 5);
            !s.crashed && s.t.pending == 1
  {
  }

  // ---------- A triggered event is spent ----------

  /** The event is not registered, and the fiber of its last registration is still
      in its context. */
  predicate Spent(t: Table, c: nat, e: Event) {
    c < |t.heap| && !t.heap[c].events.Has(e) && t.heap[c].Context(e).fiber.Some?
  }

  /** `e` keeps a fiber, and is not registered anew. */
  predicate KeepsFiber(s: Io, s': Io, c: nat, e: Event)
    requires c < |s.t.heap|
  {
    c < |s'.t.heap| && s'.t.heap[c].Context(e).fiber.Some? &&
    (s'.t.heap[c].events.Has(e) ==> s.t.heap[c].events.Has(e))
  }

  lemma AddingKeepsFiber(s: Io, d: nat, c: nat, e: Event)
    requires Sound(s) && c < |s.t.heap| && s.t.heap[c].Context(e).fiber.Some?
    requires d < |s.t.heap| && s.sections[d].Adding?
    ensures KeepsFiber(s, GoOnAdding(s, d), c, e)
  {
  }

  lemma DeletingKeepsFiber(s: Io, d: nat, other: Fibers.State, c: nat, e: Event)
    requires Sound(s) && c < |s.t.heap| && s.t.heap[c].Context(e).fiber.Some?
    requires d < |s.t.heap| && s.sections[d].Deleting?
    ensures KeepsFiber(s, GoOnDeleting(s, d, other), c, e)
  {
    if s.sections[d].counted { DeleteCrashes(s, d, other); }
  }

  lemma TriggeringKeepsFiber(s: Io, d: nat, full: bool, c: nat, e: Event)
    requires Sound(s) && c < |s.t.heap| && s.t.heap[c].Context(e).fiber.Some?
    requires d < |s.t.heap| && s.sections[d].Triggering?
    ensures KeepsFiber(s, GoOnTriggering(s, d, full), c, e)
  {
  }

  lemma GoOnKeepsFiber(s: Io, d: nat, full: bool, other: Fibers.State, c: nat, e: Event)
    requires Sound(s) && c < |s.t.heap| && s.t.heap[c].Context(e).fiber.Some?
    ensures KeepsFiber(s, GoOn(s, d, full, other), c, e)
  {
    if d < |s.t.heap| {
      match s.sections[d]
      case Free =>
      case Adding(_, _) => AddingKeepsFiber(s, d, c, e);
      case Deleting(_, _, _) => DeletingKeepsFiber(s, d, other, c, e);
      case Triggering(_, _, _) => TriggeringKeepsFiber(s, d, full, c, e);
    }
  }

  lemma GrowKeepsFiber(s: Io, i: nat, c: nat, e: Event)
    requires c < |s.t.heap| && s.t.heap[c].Context(e).fiber.Some?
    ensures KeepsFiber(s, GrowTable(s, i), c, e)
  {
  }

  lemma EnteringKeepsHeap(s: Io, i: nat, ok: bool, step: Step)
    requires Removes(step)
    ensures Register(s, i, ok).t.heap == s.t.heap && Remove(s, step).t.heap == s.t.heap
  {
  }

  lemma StepKeepsFiber(s: Io, step: Step, c: nat, e: Event)
    requires Sound(s) && c < |s.t.heap| && s.t.heap[c].Context(e).fiber.Some?
    ensures KeepsFiber(s, Next(s, step), c, e)
  {
    match step
    case BeginAdd(_, _, _) =>
    case ReadSize(_) =>
    case Grow(i) => GrowKeepsFiber(s, i, c, e);
    case EnterAdd(i, ok) => EnteringKeepsHeap(s, i, ok, EnterCancelAll(c, ok, true));
    case Proceed(d, full, other) => GoOnKeepsFiber(s, d, full, other, c, e);
    case BeginStop =>
    case SeeNothingPending =>
    case _ => EnteringKeepsHeap(s, 0, true, step);
  }

  /** An event of a slot that has been triggered once is never registered there
      again: from then on, in every run, an attempt either fails at the kernel or
      aborts. */
  lemma {:induction false} TriggeredIsSpent(s: Io, steps: seq<Step>, c: nat, e: Event)
    requires Sound(s) && Spent(s.t, c, e)
    ensures var t := Run(s, steps).t;
            Spent(t, c, e) && forall ok :: Add(t, c, e, ok).1 != Success
    decreases |steps|
  {
    if steps != [] {
      StepKeepsFiber(s, steps[0], c, e);
      NextSound(s, steps[0]);
      TriggeredIsSpent(Next(s, steps[0]), steps[1..], c, e);
    }
  }

  /** Whatever takes a registered event away spends it. */
  lemma TakenIsSpent(s: Io, step: Step, c: nat, e: Event)
    requires Sound(s) && c < |s.t.heap| && s.t.heap[c].events.Has(e)
    ensures var s' := Next(s, step);
            c < |s'.t.heap| && (s'.t.heap[c].events.Has(e) || Spent(s'.t, c, e))
  {
    assert CellSound(s.t.kernel, s.t.heap[c], s.sections[c], c);
    StepKeepsFiber(s, step, c, e);
  }

  ghost predicate RunInTurn(s: Io, steps: seq<Step>)
    decreases |steps|
  {
    steps == [] || (InTurn(s, steps[0]) && RunInTurn(Next(s, steps[0]), steps[1..]))
  }

  lemma {:induction false} TableGrows(s: Io, steps: seq<Step>)
    requires RunInTurn(s, steps)
    ensures s.t.table <= Run(s, steps).t.table
    decreases |steps|
  {
    if steps != [] {
      InTurnCutsNothing(s, steps[0]);
      TableGrows(Next(s, steps[0]), steps[1..]);
    }
  }

  /** So as long as growth is in turn, that holds of the event of the descriptor. */
  lemma SpentForGood(s: Io, steps: seq<Step>, fd: nat, e: Event)
    requires Sound(s) && RunInTurn(s, steps) && fd < |s.t.table| && Spent(s.t, s.t.table[fd], e)
    ensures var t := Run(s, steps).t;
            && fd < |t.table| && Spent(t, t.table[fd], e)
            && forall ok :: Add(t, t.table[fd], e, ok).1 != Success
  {
    TableGrows(s, steps);
    TriggeredIsSpent(s, steps, s.t.table[fd], e);
  }
}

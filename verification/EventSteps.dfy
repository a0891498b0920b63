/** The event table (sylar/iomanager.cpp) under any interleaving of calls.
    `addEvent` looks at the size of the table and grows it if need be in critical
    sections of their own, and goes on with the address it found there. Under the
    mutex of a slot every call takes several steps, since the kernel's interest
    list and the atomic counter are seen by threads that do not hold it: `stop`
    reads the counter under no lock at all. */
module EventSteps {
  import opened Prelude
  import opened EventTables
  import Fibers

  /** The mutex of a slot, and how far its holder is after `epoll_ctl` succeeded.
      `counted` and `owed` say whether the counter has been, or is yet to be,
      changed for the event at hand; `m` are the events yet to be triggered. */
  datatype Section =
    | Free
    | Adding(e: Event, counted: bool)
    | Deleting(e: Event, counted: bool, onMain: bool)
    | Triggering(m: Mask, owed: bool, onMain: bool)

  datatype AddAt = Sizing | Growing | Waiting(c: nat)

  /** An `addEvent` call on its way to the mutex of its slot. */
  datatype AddCall = AddCall(fd: nat, e: Event, at: AddAt)

  /** `sections` are the mutexes of the slots in the heap. `ended` says that the wait
      in `stop` is over, `crashed` that an assertion has failed. */
  datatype Io = Io(t: Table, sections: seq<Section>, adds: map<nat, AddCall>,
                   stopping: bool, ended: bool, crashed: bool)

  /** All operations but `addEvent` name the slot by the address they found, or that
      the kernel reports; it may have left the table since. `Proceed` is the next
      step of the holder of the slot's mutex; `full` tells whether its `submit`
      finds the queue full, `other` is the state of a fiber that was submitted. */
  datatype Step =
    | BeginAdd(i: nat, fd: nat, e: Event)
    | ReadSize(i: nat)
    | Grow(i: nat)
    | EnterAdd(i: nat, ok: bool)
    | EnterDelete(c: nat, e: Event, ok: bool, onMain: bool)
    | EnterCancel(c: nat, e: Event, ok: bool, onMain: bool)
    | EnterCancelAll(c: nat, ok: bool, onMain: bool)
    | EnterReport(c: nat, reported: Mask, error: bool, ok: bool)
    | Proceed(c: nat, full: bool, other: Fibers.State)
    | BeginStop
    | SeeNothingPending

  function Start(): Io {
    Io(Created(), seq(FIRST_SIZE, _ => Free), map[], false, false, false)
  }

  function Crash(s: Io): Io {
    s.(crashed := true)
  }

  // ---------- Steps towards a slot ----------

  predicate At(s: Io, i: nat, at: AddAt) {
    i in s.adds && s.adds[i].at == at
  }

  predicate IsWaiting(s: Io, i: nat) {
    i in s.adds && s.adds[i].at.Waiting?
  }

  function Found(s: Io, i: nat): Io
    requires i in s.adds && s.adds[i].fd < |s.t.table|
  {
    s.(adds := s.adds[i := s.adds[i].(at := Waiting(s.t.table[s.adds[i].fd]))])
  }

  function LookUp(s: Io, i: nat): Io {
    if !At(s, i, Sizing) then s
    else if s.adds[i].fd < |s.t.table| then Found(s, i)
    else s.(adds := s.adds[i := s.adds[i].(at := Growing)])
  }

  function Enlarged(s: Io, size: nat): Io {
    s.(t := Resized(s.t, size), sections := s.sections + seq(Missing(s.t, size), _ => Free))
  }

  /** The grown table has the descriptor: only 0 and 1 do not grow it enough, and they
      are never beyond it (`GrowSound`). */
  function GrowTable(s: Io, i: nat): Io {
    if !At(s, i, Growing) || Grown(s.adds[i].fd) <= s.adds[i].fd then s
    else Found(Enlarged(s, Grown(s.adds[i].fd)), i)
  }

  // ---------- Steps under the mutex of a slot ----------

  predicate Enters(s: Io, c: nat) {
    c < |s.t.heap| && c < |s.sections| && s.sections[c] == Free
  }

  /** What the kernel is to watch for, given mask and holder of the slot. */
  function Wanted(slot: Slot, section: Section): Mask {
    match section
    case Free => slot.events
    case Adding(e, _) => slot.events.With(e)
    case Deleting(e, _, _) => slot.events.Without(e)
    case Triggering(m, _, _) => slot.events.Minus(m)
  }

  /** `epoll_ctl`, and on into the section if it succeeds. */
  function Enter(s: Io, c: nat, op: CtlOp, section: Section, ok: bool): Io
    requires c < |s.t.heap| && c < |s.sections|
  {
    if Accepts(s.t, c, op, ok) then
      s.(t := Told(s.t, c, op, Wanted(s.t.heap[c], section)), sections := s.sections[c := section])
    else s
  }

  function Register(s: Io, i: nat, ok: bool): Io {
    if !IsWaiting(s, i) || !Enters(s, s.adds[i].at.c) then s
    else
      var (c, e) := (s.adds[i].at.c, s.adds[i].e);
      var slot := s.t.heap[c];
      if slot.events.Has(e) then Crash(s)
      else Enter(s.(adds := s.adds - {i}), c, AddOp(slot.events), Adding(e, false), ok)
  }

  predicate Removes(step: Step) {
    step.EnterDelete? || step.EnterCancel? || step.EnterCancelAll? || step.EnterReport?
  }

  /** The section that the step leads to, if it finds anything to remove. */
  function Removal(slot: Slot, step: Step): Option<Section>
    requires Removes(step)
  {
    match step
    case EnterDelete(_, e, _, onMain) =>
      if slot.events.Has(e) then Some(Deleting(e, false, onMain)) else None
    case EnterCancel(_, e, _, onMain) =>
      if slot.events.Has(e) then Some(Triggering(NONE.With(e), false, onMain)) else None
    case EnterCancelAll(_, _, onMain) =>
      if slot.events != NONE then Some(Triggering(slot.events, false, onMain)) else None
    case EnterReport(_, reported, error, _) =>
      var actual := RealEvents(reported, error, slot.events);
      if slot.events.Meets(actual) then Some(Triggering(actual, false, true)) else None
  }

  function Remove(s: Io, step: Step): Io
    requires Removes(step)
  {
    if !Enters(s, step.c) then s
    else
      var slot := s.t.heap[step.c];
      var section := Removal(slot, step);
      if section.None? then s
      else Enter(s, step.c, RemoveOp(Wanted(slot, section.value)), section.value, step.ok)
  }

  /** The holder leaves the slot for `t` and `section`. */
  function Went(s: Io, c: nat, t: Table, section: Section): Io
    requires c < |s.sections|
  {
    s.(t := t, sections := s.sections[c := section])
  }

  function GoOnAdding(s: Io, c: nat): Io
    requires c < |s.t.heap| && c < |s.sections| && s.sections[c].Adding?
  {
    var e := s.sections[c].e;
    if !s.sections[c].counted then Went(s, c, Count(s.t, 1), Adding(e, true))
    else if s.t.heap[c].Context(e) != EMPTY then Crash(s)
    else Went(s, c, Enlist(s.t, c, e), Free)
  }

  function GoOnDeleting(s: Io, c: nat, other: Fibers.State): Io
    requires c < |s.t.heap| && c < |s.sections| && s.sections[c].Deleting?
  {
    var (e, onMain) := (s.sections[c].e, s.sections[c].onMain);
    if !s.sections[c].counted then Went(s, c, Count(s.t, -1), Deleting(e, true, onMain))
    else if !Discardable(s.t, c, e, onMain, other) then Crash(s)
    else Went(s, c, Discard(s.t, c, e), Free)
  }

  function First(m: Mask): Event {
    if m.read then READ else WRITE
  }

  function GoOnTriggering(s: Io, c: nat, full: bool): Io
    requires c < |s.t.heap| && c < |s.sections| && s.sections[c].Triggering?
  {
    var (m, onMain) := (s.sections[c].m, s.sections[c].onMain);
    if s.sections[c].owed then
      Went(s, c, Count(s.t, -1), if m == NONE then Free else Triggering(m, false, onMain))
    else if !s.t.heap[c].events.Has(First(m)) || (full && !onMain) then Crash(s)
    else Went(s, c, Fire(s.t, c, First(m)), Triggering(m.Without(First(m)), true, onMain))
  }

  function GoOn(s: Io, c: nat, full: bool, other: Fibers.State): Io {
    if c >= |s.t.heap| || c >= |s.sections| then s
    else if s.sections[c].Adding? then GoOnAdding(s, c)
    else if s.sections[c].Deleting? then GoOnDeleting(s, c, other)
    else if s.sections[c].Triggering? then GoOnTriggering(s, c, full)
    else s
  }

  function Next(s: Io, step: Step): Io {
    if s.crashed then s
    else
      match step
      case BeginAdd(i, fd, e) =>
        if s.stopping || i in s.adds then s else s.(adds := s.adds[i := AddCall(fd, e, Sizing)])
      case ReadSize(i) => LookUp(s, i)
      case Grow(i) => GrowTable(s, i)
      case EnterAdd(i, ok) => Register(s, i, ok)
      case Proceed(c, full, other) => GoOn(s, c, full, other)
      case BeginStop => s.(stopping := true)
      case SeeNothingPending => if s.stopping && s.t.pending == 0 then s.(ended := true) else s
      case _ => Remove(s, step)
  }

  function Run(s: Io, steps: seq<Step>): Io
    decreases |steps|
  {
    if steps == [] then s else Run(Next(s, steps[0]), steps[1..])
  }

  /** Twice a step of the holder of a slot's mutex, if there is one. */
  function Twice(s: Io, c: nat, full: bool, other: Fibers.State): Io {
    Next(Next(s, Proceed(c, full, other)), Proceed(c, full, other))
  }

  // ---------- Soundness ----------

  /** What a slot with this mask and this holder counts for. */
  function Due(slot: Slot, section: Section): int {
    slot.events.Size() +
    match section
    case Free => 0
    case Adding(_, counted) => One(counted)
    case Deleting(_, counted, _) => if counted then -1 else 0
    case Triggering(_, owed, _) => One(owed)
  }

  ghost function Expected(heap: seq<Slot>, sections: seq<Section>): int
    requires |heap| == |sections|
  {
    if heap == [] then 0 else Due(heap[0], sections[0]) + Expected(heap[1..], sections[1..])
  }

  predicate SectionFits(slot: Slot, section: Section) {
    match section
    case Free => true
    case Adding(e, _) => !slot.events.Has(e)
    case Deleting(e, _, _) => slot.events.Has(e)
    case Triggering(m, owed, _) => m != NONE || owed
  }

  predicate CellSound(kernel: map<nat, Watch>, slot: Slot, section: Section, c: nat) {
    ContextsAgree(slot) && SectionFits(slot, section) && Watches(kernel, slot.fd, c, Wanted(slot, section))
  }

  predicate CallFits(t: Table, call: AddCall) {
    && (call.at == Growing ==> call.fd >= FIRST_SIZE)
    && (call.at.Waiting? ==> call.at.c < |t.heap| && t.heap[call.at.c].fd == call.fd)
  }

  ghost predicate CellsSound(s: Io) {
    && |s.sections| == |s.t.heap|
    && forall c {:trigger s.t.heap[c]} :: 0 <= c < |s.t.heap| ==> CellSound(s.t.kernel, s.t.heap[c], s.sections[c], c)
  }

  /** Masks, contexts, holders, counter and kernel tell the same story. */
  ghost predicate Sound(s: Io) {
    && |s.t.table| >= FIRST_SIZE && TableFits(s.t) && KernelFits(s.t)
    && CellsSound(s) && s.t.pending == Expected(s.t.heap, s.sections)
    && AllAccounted(s.t)
    && forall i :: i in s.adds ==> CallFits(s.t, s.adds[i])
  }

  lemma {:induction false} ExpectedMoves(heap: seq<Slot>, sections: seq<Section>, i: nat, slot: Slot, section: Section)
    requires |heap| == |sections| && i < |heap|
    ensures Expected(heap[i := slot], sections[i := section]) + Due(heap[i], sections[i]) ==
            Expected(heap, sections) + Due(slot, section)
  {
    if i == 0 {
      assert heap[i := slot][1..] == heap[1..] && sections[i := section][1..] == sections[1..];
    } else {
      assert heap[i := slot][1..] == heap[1..][i - 1 := slot];
      assert sections[i := section][1..] == sections[1..][i - 1 := section];
      ExpectedMoves(heap[1..], sections[1..], i - 1, slot, section);
    }
  }

  predicate CallsKept(s: Io, s': Io) {
    forall i :: i in s'.adds ==> i in s.adds && s'.adds[i] == s.adds[i]
  }

  lemma CellsMove(s: Io, c: nat, slot: Slot, section: Section, s': Io)
    requires CellsSound(s) && c < |s.t.heap|
    requires s'.t.heap == s.t.heap[c := slot] && slot.fd == s.t.heap[c].fd && s'.sections == s.sections[c := section]
    requires CellSound(s'.t.kernel, slot, section, c) && KernelMoves(s.t.kernel, s'.t.kernel, slot.fd, c)
    ensures CellsSound(s')
  {
    forall d {:trigger s'.t.heap[d]} | 0 <= d < |s'.t.heap|
      ensures CellSound(s'.t.kernel, s'.t.heap[d], s'.sections[d], d)
    {
      if d != c {
        assert CellSound(s.t.kernel, s.t.heap[d], s.sections[d], d);
        WatchesKept(s.t.kernel, s'.t.kernel, slot.fd, c, s.t.heap[d].fd, d, Wanted(s.t.heap[d], s.sections[d]));
      }
    }
  }

  /** What a step at one slot has to get right. */
  lemma CellMoves(s: Io, c: nat, slot: Slot, section: Section, s': Io)
    requires Sound(s) && c < |s.t.heap|
    requires s'.t.heap == s.t.heap[c := slot] && slot.fd == s.t.heap[c].fd && s'.sections == s.sections[c := section]
    requires CellSound(s'.t.kernel, slot, section, c) && KernelMoves(s.t.kernel, s'.t.kernel, slot.fd, c)
    requires s'.t.pending - s.t.pending == Due(slot, section) - Due(s.t.heap[c], s.sections[c])
    requires s'.t.table == s.t.table && AllAccounted(s'.t) && CallsKept(s, s')
    ensures Sound(s')
  {
    CellsMove(s, c, slot, section, s');
    ExpectedMoves(s.t.heap, s.sections, c, slot, section);
    forall fd {:trigger WatchFits(s'.t, fd)} ensures WatchFits(s'.t, fd) { assert WatchFits(s.t, fd); }
    forall i | i in s'.adds ensures CallFits(s'.t, s'.adds[i]) { assert CallFits(s.t, s.adds[i]); }
  }

  /** The same when the slot itself stays as it is. */
  lemma SectionMoves(s: Io, c: nat, section: Section, s': Io)
    requires Sound(s) && c < |s.t.heap| && s'.t.heap == s.t.heap && s'.sections == s.sections[c := section]
    requires CellSound(s'.t.kernel, s.t.heap[c], section, c) && KernelMoves(s.t.kernel, s'.t.kernel, s.t.heap[c].fd, c)
    requires s'.t.pending - s.t.pending == Due(s.t.heap[c], section) - Due(s.t.heap[c], s.sections[c])
    requires s'.t.table == s.t.table && s'.t.submitted == s.t.submitted && s'.t.next == s.t.next && CallsKept(s, s')
    ensures Sound(s')
  {
    assert s.t.heap[c := s.t.heap[c]] == s.t.heap;
    AccountedKept(s.t, s'.t);
    CellMoves(s, c, s.t.heap[c], section, s');
  }

  lemma EnterSound(s: Io, c: nat, op: CtlOp, section: Section, ok: bool)
    requires Sound(s) && Enters(s, c) && SectionFits(s.t.heap[c], section)
    requires Due(s.t.heap[c], section) == s.t.heap[c].events.Size()
    requires op == ADD <==> s.t.heap[c].events == NONE
    requires op == DEL <==> Wanted(s.t.heap[c], section) == NONE
    ensures Sound(Enter(s, c, op, section, ok))
  {
    assert CellSound(s.t.kernel, s.t.heap[c], s.sections[c], c);
    if Accepts(s.t, c, op, ok) { SectionMoves(s, c, section, Enter(s, c, op, section, ok)); }
  }

  lemma RegisterSound(s: Io, i: nat, ok: bool)
    requires Sound(s)
    ensures Sound(Register(s, i, ok))
  {
    if IsWaiting(s, i) && Enters(s, s.adds[i].at.c) {
      var (c, e) := (s.adds[i].at.c, s.adds[i].e);
      if !s.t.heap[c].events.Has(e) {
        EnterSound(s.(adds := s.adds - {i}), c, AddOp(s.t.heap[c].events), Adding(e, false), ok);
      }
    }
  }

  lemma RemoveSound(s: Io, step: Step)
    requires Sound(s) && Removes(step)
    ensures Sound(Remove(s, step))
  {
    if Enters(s, step.c) {
      var slot := s.t.heap[step.c];
      var section := Removal(slot, step);
      if section.Some? { EnterSound(s, step.c, RemoveOp(Wanted(slot, section.value)), section.value, step.ok); }
    }
  }

  lemma AddingSound(s: Io, c: nat)
    requires Sound(s) && c < |s.t.heap| && s.sections[c].Adding?
    ensures Sound(GoOnAdding(s, c))
  {
    var e, s' := s.sections[c].e, GoOnAdding(s, c);
    assert CellSound(s.t.kernel, s.t.heap[c], s.sections[c], c);
    if !s.sections[c].counted {
      SectionMoves(s, c, Adding(e, true), s');
    } else if s.t.heap[c].Context(e) == EMPTY {
      EnlistAccounts(s.t, c, e);
      CellMoves(s, c, s'.t.heap[c], Free, s');
    }
  }

  /** A call of `delEvent` that `epoll_ctl` has served cannot end otherwise. */
  lemma DeleteCrashes(s: Io, c: nat, other: Fibers.State)
    requires Sound(s) && c < |s.t.heap| && s.sections[c].Deleting? && s.sections[c].counted
    ensures GoOnDeleting(s, c, other) == Crash(s)
  {
    assert CellSound(s.t.kernel, s.t.heap[c], s.sections[c], c);
    RegisteredIsInit(s.t, c, s.sections[c].e, s.sections[c].onMain, other);
  }

  lemma DeletingSound(s: Io, c: nat, other: Fibers.State)
    requires Sound(s) && c < |s.t.heap| && s.sections[c].Deleting?
    ensures Sound(GoOnDeleting(s, c, other))
  {
    assert CellSound(s.t.kernel, s.t.heap[c], s.sections[c], c);
    if s.sections[c].counted {
      DeleteCrashes(s, c, other);
    } else {
      SectionMoves(s, c, Deleting(s.sections[c].e, true, s.sections[c].onMain), GoOnDeleting(s, c, other));
    }
  }

  lemma FiredFits(t: Table, c: nat, m: Mask, onMain: bool)
    requires c < |t.heap| && m != NONE && t.heap[c].events.Has(First(m))
    requires CellSound(t.kernel, t.heap[c], Triggering(m, false, onMain), c)
    ensures var slot, section := Fire(t, c, First(m)).heap[c], Triggering(m.Without(First(m)), true, onMain);
            && slot.fd == t.heap[c].fd && CellSound(t.kernel, slot, section, c)
            && Due(slot, section) == Due(t.heap[c], Triggering(m, false, onMain))
  {
  }

  lemma TriggeringSound(s: Io, c: nat, full: bool)
    requires Sound(s) && c < |s.t.heap| && s.sections[c].Triggering?
    ensures Sound(GoOnTriggering(s, c, full))
  {
    var m, s' := s.sections[c].m, GoOnTriggering(s, c, full);
    assert CellSound(s.t.kernel, s.t.heap[c], s.sections[c], c);
    if s.sections[c].owed {
      SectionMoves(s, c, s'.sections[c], s');
    } else if s' != Crash(s) {
      FireAccounts(s.t, c, First(m));
      FiredFits(s.t, c, m, s.sections[c].onMain);
      CellMoves(s, c, s'.t.heap[c], s'.sections[c], s');
    }
  }

  lemma {:induction false} ExpectedSplit(a: seq<Slot>, as': seq<Section>, b: seq<Slot>, bs: seq<Section>)
    requires |a| == |as'| && |b| == |bs|
    ensures Expected(a + b, as' + bs) == Expected(a, as') + Expected(b, bs)
  {
    if a == [] {
      assert a + b == b && as' + bs == bs;
    } else {
      assert (a + b)[1..] == a[1..] + b && (as' + bs)[1..] == as'[1..] + bs;
      ExpectedSplit(a[1..], as'[1..], b, bs);
    }
  }

  predicate AllFree(sections: seq<Section>) {
    forall c :: 0 <= c < |sections| ==> sections[c] == Free
  }

  lemma {:induction false} ExpectedWhenFree(heap: seq<Slot>, sections: seq<Section>)
    requires |heap| == |sections| && AllFree(sections)
    ensures Expected(heap, sections) == Registered(heap)
  {
    if heap != [] { ExpectedWhenFree(heap[1..], sections[1..]); }
  }

  lemma EnlargedCells(s: Io, size: nat)
    requires Sound(s)
    ensures CellsSound(Enlarged(s, size)) && KernelFits(Enlarged(s, size).t)
  {
    var s' := Enlarged(s, size);
    forall c {:trigger s'.t.heap[c]} | 0 <= c < |s'.t.heap|
      ensures CellSound(s'.t.kernel, s'.t.heap[c], s'.sections[c], c)
    {
      if c < |s.t.heap| {
        assert CellSound(s.t.kernel, s.t.heap[c], s.sections[c], c);
      } else {
        assert s'.t.heap[c] == Made(s.t, size)[c - |s.t.heap|] && s'.sections[c] == Free;
        assert WatchFits(s.t, s'.t.heap[c].fd);
      }
    }
    forall fd {:trigger WatchFits(s'.t, fd)} ensures WatchFits(s'.t, fd) { assert WatchFits(s.t, fd); }
  }

  lemma EnlargedCounts(s: Io, size: nat)
    requires Sound(s)
    ensures s.t.pending == Expected(Enlarged(s, size).t.heap, Enlarged(s, size).sections)
  {
    var more: seq<Section> := seq(Missing(s.t, size), _ => Free);
    ExpectedSplit(s.t.heap, s.sections, Made(s.t, size), more);
    ExpectedWhenFree(Made(s.t, size), more);
    NothingRegistered(Made(s.t, size), 0);
  }

  lemma EnlargedSound(s: Io, size: nat)
    requires Sound(s) && size >= FIRST_SIZE
    ensures Sound(Enlarged(s, size))
  {
    var s' := Enlarged(s, size);
    EnlargedCells(s, size);
    EnlargedCounts(s, size);
    ResizeFits(s.t, size);
    ResizeAccounts(s.t, size);
    forall i | i in s'.adds ensures CallFits(s'.t, s'.adds[i]) { assert CallFits(s.t, s.adds[i]); }
  }

  lemma FoundSound(s: Io, i: nat)
    requires Sound(s) && i in s.adds && s.adds[i].fd < |s.t.table|
    ensures Sound(Found(s, i))
  {
  }

  lemma GrowSound(s: Io, i: nat)
    requires Sound(s)
    ensures Sound(GrowTable(s, i))
    ensures At(s, i, Growing) ==> GrowTable(s, i) == Found(Enlarged(s, Grown(s.adds[i].fd)), i)
  {
    if At(s, i, Growing) {
      assert CallFits(s.t, s.adds[i]);
      EnlargedSound(s, Grown(s.adds[i].fd));
      FoundSound(Enlarged(s, Grown(s.adds[i].fd)), i);
    }
  }

  lemma GoOnSound(s: Io, c: nat, full: bool, other: Fibers.State)
    requires Sound(s)
    ensures Sound(GoOn(s, c, full, other))
  {
    if c < |s.t.heap| {
      match s.sections[c]
      case Free =>
      case Adding(_, _) => AddingSound(s, c);
      case Deleting(_, _, _) => DeletingSound(s, c, other);
      case Triggering(_, _, _) => TriggeringSound(s, c, full);
    }
  }

  lemma NextSound(s: Io, step: Step)
    requires Sound(s)
    ensures Sound(Next(s, step))
  {
    match step
    case BeginAdd(_, _, _) =>
    case ReadSize(i) => if At(s, i, Sizing) && s.adds[i].fd < |s.t.table| { FoundSound(s, i); }
    case Grow(i) => GrowSound(s, i);
    case EnterAdd(i, ok) => RegisterSound(s, i, ok);
    case Proceed(c, full, other) => GoOnSound(s, c, full, other);
    case BeginStop =>
    case SeeNothingPending =>
    case _ => RemoveSound(s, step);
  }

  lemma {:induction false} RunSound(s: Io, steps: seq<Step>)
    requires Sound(s)
    ensures Sound(Run(s, steps))
    decreases |steps|
  {
    if steps != [] {
      NextSound(s, steps[0]);
      RunSound(Next(s, steps[0]), steps[1..]);
    }
  }

  /** With nobody under a mutex, soundness is the agreement of the table. */
  lemma FreeAgreesExact(s: Io)
    requires |s.sections| == |s.t.heap| && AllFree(s.sections)
    requires |s.t.table| >= FIRST_SIZE && TableFits(s.t) && AllAccounted(s.t)
    requires forall i :: i in s.adds ==> CallFits(s.t, s.adds[i])
    ensures Sound(s) <==> Agree(s.t)
  {
    ExpectedWhenFree(s.t.heap, s.sections);
    forall c {:trigger s.t.heap[c]} | 0 <= c < |s.t.heap|
      ensures CellSound(s.t.kernel, s.t.heap[c], s.sections[c], c) <==> SlotAgrees(s.t.kernel, s.t.heap[c], c)
    {
    }
  }

  lemma StartSound()
    ensures Sound(Start())
  {
    var none := Table([], [], map[], 0, 0, []);
    assert Agree(none);
    forall id ensures Accounted(none, id) {
    }
    ResizeExact(none, FIRST_SIZE);
    FreeAgreesExact(Start());
  }
}

/** The calls of the event table when nothing comes in between: their steps in a row
    are the operations of the value model. */
module EventCalls {
  import opened Prelude
  import opened EventTables
  import opened EventSteps
  import Fibers

  /** A slot without holder stays as it is, and so does a crash. */
  lemma TwiceNothing(s: Io, c: nat, full: bool, other: Fibers.State)
    requires s.crashed || (c < |s.sections| && s.sections[c] == Free)
    ensures Twice(s, c, full, other) == s
  {
  }

  // ---------- addEvent ----------

  function Searched(s: Io, i: nat, fd: nat, e: Event): Io {
    Next(Next(Next(s, BeginAdd(i, fd, e)), ReadSize(i)), Grow(i))
  }

  lemma SearchFinds(s: Io, i: nat, fd: nat, e: Event)
    requires Sound(s) && !s.crashed && !s.stopping && i !in s.adds && fd < |s.t.table| && Enters(s, s.t.table[fd])
    ensures Searched(s, i, fd, e) == s.(adds := s.adds[i := AddCall(fd, e, Waiting(s.t.table[fd]))])
  {
  }

  lemma SearchGrows(s: Io, i: nat, fd: nat, e: Event)
    requires Sound(s) && !s.crashed && !s.stopping && i !in s.adds && |s.t.table| <= fd
    ensures var s' := Searched(s, i, fd, e);
            && s' == Enlarged(s, Grown(fd)).(adds := s.adds[i := AddCall(fd, e, Waiting(AddressOf(s.t, fd)))])
            && Enters(s', AddressOf(s.t, fd)) && Resized(s.t, Grown(fd)).table[fd] == AddressOf(s.t, fd)
  {
  }

  /** A call that `epoll_ctl` has served counts and registers its event. */
  lemma AddingAlone(s: Io, c: nat, e: Event, full: bool, other: Fibers.State)
    requires !s.crashed && c < |s.t.heap| && c < |s.sections| && s.sections[c] == Adding(e, false)
    ensures var s' := Twice(s, c, full, other);
            && (s'.crashed <==> s.t.heap[c].Context(e) != EMPTY)
            && (!s'.crashed ==> s' == s.(t := Enlist(Count(s.t, 1), c, e), sections := s.sections[c := Free]))
  {
    var s1 := Next(s, Proceed(c, full, other));
    assert s1 == s.(t := Count(s.t, 1), sections := s.sections[c := Adding(e, true)]);
    assert s1.sections[c := Free] == s.sections[c := Free];
  }

  lemma RegisterAlone(s: Io, i: nat, ok: bool, full: bool, other: Fibers.State)
    requires !s.crashed && IsWaiting(s, i) && Enters(s, s.adds[i].at.c)
    ensures var c := s.adds[i].at.c;
            var s' := Twice(Next(s, EnterAdd(i, ok)), c, full, other);
            var (t, r) := Add(s.t, c, s.adds[i].e, ok);
            && (s'.crashed <==> r == Abort)
            && (r != Abort ==> s'.t == t && s'.sections == s.sections && s'.adds == s.adds - {i})
  {
    var (c, e) := (s.adds[i].at.c, s.adds[i].e);
    var s1 := Next(s, EnterAdd(i, ok));
    if s1.crashed || s1.sections == s.sections {
      TwiceNothing(s1, c, full, other);
    } else {
      AddingAlone(s1, c, e, full, other);
      assert s1.sections[c := Free] == s.sections;
    }
  }

  lemma NothingBegins(s: Io, i: nat, fd: nat, e: Event, ok: bool, full: bool, other: Fibers.State)
    requires Sound(s) && s.stopping && i !in s.adds && (fd < |s.t.table| ==> Enters(s, s.t.table[fd]))
    ensures Twice(Next(Searched(s, i, fd, e), EnterAdd(i, ok)), AddressOf(s.t, fd), full, other) == s
  {
  }

  /** An undisturbed `addEvent`: the lookup, growth if need be, and three steps under
      the mutex of the slot. */
  lemma AddAlone(s: Io, i: nat, fd: nat, e: Event, ok: bool, full: bool, other: Fibers.State)
    requires Sound(s) && !s.crashed && i !in s.adds && (fd < |s.t.table| ==> Enters(s, s.t.table[fd]))
    ensures var c := AddressOf(s.t, fd);
            var s' := Twice(Next(Searched(s, i, fd, e), EnterAdd(i, ok)), c, full, other);
            var (t, r) := AddEvent(s.t, s.stopping, fd, e, ok);
            && (s'.crashed <==> r == Abort) && (r != Abort ==> s'.t == t && s'.adds == s.adds)
            && (r != Abort ==> s.sections <= s'.sections && AllFree(s'.sections[|s.sections|..]))
  {
    var s1 := Searched(s, i, fd, e);
    if s.stopping {
      NothingBegins(s, i, fd, e, ok, full, other);
    } else {
      if fd < |s.t.table| { SearchFinds(s, i, fd, e); } else { SearchGrows(s, i, fd, e); }
      RegisterAlone(s1, i, ok, full, other);
      assert s1.adds - {i} == s.adds;
    }
  }

  // ---------- delEvent ----------

  lemma DeleteAlone(s: Io, c: nat, e: Event, ok: bool, onMain: bool, full: bool, other: Fibers.State)
    requires Sound(s) && !s.crashed && Enters(s, c)
    ensures var s' := Twice(Next(s, EnterDelete(c, e, ok, onMain)), c, full, other);
            var (t, r) := Delete(s.t, c, e, ok, onMain, other);
            && (s'.crashed <==> r == Abort)
            && (r != Abort ==> s'.t == t && s'.sections == s.sections && s'.adds == s.adds)
  {
    var s1 := Next(s, EnterDelete(c, e, ok, onMain));
    if s1 == s {
      TwiceNothing(s, c, full, other);
    } else {
      var left := s.t.heap[c].events.Without(e);
      assert s1.t == Told(s.t, c, RemoveOp(left), left) && s1.sections[c] == Deleting(e, false, onMain);
      var s2 := Next(s1, Proceed(c, full, other));
      assert s2.t == Count(s1.t, -1) && s2.sections[c] == Deleting(e, true, onMain);
      assert s2.sections[c := Free] == s.sections;
    }
  }

  // ---------- The calls that trigger ----------

  /** The events of `m` whose `submit` is refused, when the queue is full at the
      first, or the second, submit on a child fiber. */
  function Refused(m: Mask, onMain: bool, full1: bool, full2: bool): Mask {
    Mask(m.read && full1 && !onMain, m.write && (if m.read then full2 else full1) && !onMain)
  }

  ghost predicate AtTriggering(s: Io, c: nat, m: Mask, owed: bool, onMain: bool) {
    !s.crashed && c < |s.t.heap| && c < |s.sections| && s.sections[c] == Triggering(m, owed, onMain)
  }

  /** The first event of `m` is triggered and counted. */
  lemma TriggerFirst(s: Io, c: nat, m: Mask, onMain: bool, full: bool, other: Fibers.State)
    requires AtTriggering(s, c, m, false, onMain)
    ensures var (e, s') := (First(m), Twice(s, c, full, other));
            var left := m.Without(e);
            && (s'.crashed <==> !s.t.heap[c].events.Has(e) || (full && !onMain))
            && (!s'.crashed ==>
                  s' == s.(t := Count(Fire(s.t, c, e), -1),
                           sections := s.sections[c := if left == NONE then Free else Triggering(left, false, onMain)]))
  {
    var e, s1 := First(m), Next(s, Proceed(c, full, other));
    if !s1.crashed {
      var left := m.Without(e);
      assert AtTriggering(s1, c, left, true, onMain) && s1.t == Fire(s.t, c, e);
      assert s1.sections[c := Free] == s.sections[c := Free];
      assert s1.sections[c := Triggering(left, false, onMain)] == s.sections[c := Triggering(left, false, onMain)];
    }
  }

  lemma TriggerAlone(s: Io, c: nat, m: Mask, onMain: bool, full1: bool, full2: bool, other: Fibers.State)
    requires AtTriggering(s, c, m, false, onMain) && m != NONE
    ensures var s' := Twice(Twice(s, c, full1, other), c, full2, other);
            var (t, r) := TriggerAll(s.t, c, m, Refused(m, onMain, full1, full2));
            (s'.crashed <==> r == Abort) && (r == Success ==> s' == s.(t := t, sections := s.sections[c := Free]))
  {
    var s1 := Twice(s, c, full1, other);
    TriggerFirst(s, c, m, onMain, full1, other);
    if !s1.crashed && m == Mask(true, true) {
      assert AtTriggering(s1, c, NONE.With(WRITE), false, onMain);
      TriggerFirst(s1, c, NONE.With(WRITE), onMain, full2, other);
      assert s1.sections[c := Free] == s.sections[c := Free];
    } else {
      TwiceNothing(s1, c, full2, other);
    }
  }

  predicate Triggers(step: Step) {
    step.EnterCancel? || step.EnterCancelAll? || step.EnterReport?
  }

  /** The events that the call goes on to trigger, and where it runs. */
  function Asked(slot: Slot, step: Step): (Mask, bool)
    requires Triggers(step)
  {
    match step
    case EnterCancel(_, e, _, onMain) => (NONE.With(e), onMain)
    case EnterCancelAll(_, _, onMain) => (slot.events, onMain)
    case EnterReport(_, reported, error, _) => (RealEvents(reported, error, slot.events), true)
  }

  function Operation(t: Table, step: Step, refused: Mask): (Table, Outcome)
    requires Triggers(step) && step.c < |t.heap|
  {
    match step
    case EnterCancel(c, e, ok, _) => Cancel(t, c, e, ok, refused)
    case EnterCancelAll(c, ok, _) => CancelAll(t, c, ok, refused)
    case EnterReport(c, reported, error, ok) => Dispatch(t, c, reported, error, ok)
  }

  lemma EntersTriggering(s: Io, step: Step)
    requires Triggers(step) && !s.crashed && Enters(s, step.c)
    ensures var c := step.c;
            var (s1, (m, onMain)) := (Next(s, step), Asked(s.t.heap[c], step));
            || (s1 == s && forall refused :: Operation(s.t, step, refused) == (s.t, Failure))
            || (&& m != NONE && s1 == s.(t := s1.t, sections := s.sections[c := Triggering(m, false, onMain)])
                && s1.t.heap == s.t.heap
                && forall refused :: (step.EnterReport? ==> refused == NONE) ==>
                     Operation(s.t, step, refused) == TriggerAll(s1.t, c, m, refused))
  {
  }

  /** An undisturbed `cancelEvent`, `cancelAll`, or turn of the dispatch loop: up to
      five steps under the mutex of the slot. */
  lemma TriggeringCallAlone(s: Io, step: Step, full1: bool, full2: bool, other: Fibers.State)
    requires Triggers(step) && !s.crashed && Enters(s, step.c)
    ensures var c := step.c;
            var (m, onMain) := Asked(s.t.heap[c], step);
            var s' := Twice(Twice(Next(s, step), c, full1, other), c, full2, other);
            var (t, r) := Operation(s.t, step, Refused(m, onMain, full1, full2));
            && (s'.crashed <==> r == Abort)
            && (r != Abort ==> s'.t == t && s'.sections == s.sections && s'.adds == s.adds)
  {
    var c, s1 := step.c, Next(s, step);
    EntersTriggering(s, step);
    if s1 == s {
      TwiceNothing(s, c, full1, other);
      TwiceNothing(s, c, full2, other);
    } else {
      var (m, onMain) := Asked(s.t.heap[c], step);
      TriggerAlone(s1, c, m, onMain, full1, full2, other);
      assert s1.sections[c := Free] == s.sections;
    }
  }
}

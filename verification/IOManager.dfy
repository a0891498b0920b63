/** `IOManager` and its `FdContext` (sylar/iomanager.cpp) with the fields they
    have: masks are bits, slots are objects that a table refers to. Each method is
    proved against the operation of the value model it carries out. What
    `epoll_ctl` answers beyond the kernel's own rules comes in as `ok`; what the
    destructor of a fiber and `submit` look at comes in as parameters too. */
module IOManagers {
  import opened Prelude
  import opened EventTables
  import Fibers

  // ---------- Masks as bits ----------

  function Bit(e: Event): bv8 {
    if e == READ then 0x1 else 0x4
  }

  function Decode(events: bv8): Mask {
    Mask(events & 0x1 != 0, events & 0x4 != 0)
  }

  function Encode(m: Mask): bv8 {
    (if m.read then 0x1 else 0) | (if m.write then 0x4 else 0)
  }

  /** No other bit is set. */
  predicate Clean(events: bv8) {
    events & 0xFA == 0
  }

  lemma BitsAreMasks(events: bv8, e: Event)
    requires Clean(events)
    ensures events & Bit(e) != 0 <==> Decode(events).Has(e)
    ensures Clean(events | Bit(e)) && Decode(events | Bit(e)) == Decode(events).With(e)
    ensures Clean(events & !Bit(e)) && Decode(events & !Bit(e)) == Decode(events).Without(e)
    ensures events == 0 <==> Decode(events) == NONE
    ensures Encode(Decode(events)) == events
  {
  }

  lemma BitsMinus(events: bv8, others: bv8)
    requires Clean(events) && Clean(others)
    ensures Clean(events & !others) && Decode(events & !others) == Decode(events).Minus(Decode(others))
    ensures events & others != 0 <==> Decode(events).Meets(Decode(others))
    ensures Clean(events | others) && Decode(events | others) == Decode(events).Plus(Decode(others))
  {
  }

  /** The events the code acts on: an error or a hang-up (`EPOLLERR`, `EPOLLHUP`)
      stands for everything registered. */
  function RealBits(reported: bv8, events: bv8): bv8 {
    (if reported & 0x18 != 0 then reported | (0x5 & events) else reported) & 0x5
  }

  lemma RealBitsAre(reported: bv8, events: bv8)
    requires Clean(events)
    ensures Clean(RealBits(reported, events))
    ensures Decode(RealBits(reported, events)) == RealEvents(Decode(reported), reported & 0x18 != 0, Decode(events))
  {
  }

  // ---------- The objects ----------

  /** `address` is what `new` has returned. */
  class FdContext {
    const fd: nat
    const address: nat
    var events: bv8
    var read: EventContext
    var write: EventContext

    constructor (fd: nat, address: nat)
      ensures View() == FreshSlot(fd) && Clean(events) && this.address == address
    {
      this.fd, this.address := fd, address;
      events, read, write := 0, EMPTY, EMPTY;
    }

    function View(): Slot
      reads this
    {
      Slot(fd, Decode(events), read, write)
    }

    method SetContext(e: Event, c: EventContext)
      modifies this`read, this`write
      ensures View() == old(View()).SetContext(e, c)
    {
      if e == READ { read := c; } else { write := c; }
    }

    /** `triggerEvent`: `ok` is false where its assertion fails, and `fiber` is what
        it submits. */
    method TriggerEvent(e: Event) returns (ok: bool, fiber: Option<nat>)
      requires Clean(events)
      modifies this
      ensures Clean(events) && ok == old(View()).events.Has(e)
      ensures ok ==> fiber == old(View()).Context(e).fiber
      ensures ok ==>
              View() == old(View()).(events := old(View()).events.Without(e)).SetContext(e, EventContext(false, fiber))
    {
      BitsAreMasks(events, e);
      fiber := None;
      ok := events & Bit(e) != 0;
      if ok {
        events := events & !Bit(e);
        fiber := View().Context(e).fiber;
        SetContext(e, EventContext(false, fiber));
      }
    }

    /** The event leaves the mask, and its context is empty: `fiber` is what it
        referred to. */
    method ResetContext(e: Event) returns (fiber: Option<nat>)
      requires Clean(events)
      modifies this
      ensures Clean(events) && fiber == old(View()).Context(e).fiber
      ensures View() == old(View()).(events := old(View()).events.Without(e)).SetContext(e, EMPTY)
    {
      BitsAreMasks(events, e);
      fiber := View().Context(e).fiber;
      events := events & !Bit(e);
      SetContext(e, EMPTY);
    }
  }

  /** What `epoll_wait` reports: `data.ptr` and the bits; `ok` is what `epoll_ctl`
      will answer. */
  datatype Report = Report(context: FdContext, events: bv8, ok: bool)

  /** The same with the address of the context. */
  datatype Notice = Notice(c: nat, events: bv8, ok: bool)

  function NoticeOf(r: Report): Notice {
    Notice(r.context.address, r.events, r.ok)
  }

  /** A batch of reported events, one after the other. */
  function DispatchAll(t: Table, notices: seq<Notice>): (Table, Outcome)
    decreases |notices|
  {
    if notices == [] then (t, Success)
    else
      var (t', r) := DispatchAll(t, notices[..|notices| - 1]);
      var last := notices[|notices| - 1];
      if r == Abort || last.c >= |t'.heap| then (t', Abort)
      else
        var (t'', r'') := Dispatch(t', last.c, Decode(last.events), last.events & 0x18 != 0, last.ok);
        (t'', if r'' == Abort then Abort else Success)
  }

  class IOManager {
    /** The table of contexts (`m_fdContexts`), and the interest list of the
        kernel, which refers to contexts by their addresses. */
    var contexts: seq<FdContext>
    var kernel: map<nat, Watch>
    var pending: int
    var stopping: bool
    /** All contexts there ever were, the number of registrations so far, and the
        fibers that were submitted. */
    var heap: seq<FdContext>
    var next: nat
    var submitted: seq<nat>

    /** Contexts are told apart by their addresses, and the table holds contexts of
        the heap. */
    ghost predicate Linked()
      reads this, heap
    {
      && (forall c :: 0 <= c < |heap| ==> heap[c].address == c && Clean(heap[c].events))
      && (forall i :: 0 <= i < |contexts| ==>
            contexts[i].address < |heap| && heap[contexts[i].address] == contexts[i] && contexts[i].fd == i)
    }

    ghost function Slots(): seq<Slot>
      reads this, heap
    {
      seq(|heap|, c requires 0 <= c < |heap| reads this, heap => heap[c].View())
    }

    function Addresses(): seq<nat>
      reads this
    {
      seq(|contexts|, i requires 0 <= i < |contexts| reads this => contexts[i].address)
    }

    ghost function View(): Table
      reads this, heap
    {
      Table(Slots(), Addresses(), kernel, pending, next, submitted)
    }

    constructor ()
      ensures Linked() && View() == Created() && fresh(heap) && !stopping
    {
      contexts, kernel, pending, stopping, heap, next, submitted := [], map[], 0, false, [], 0, [];
      new;
      ContextResize(FIRST_SIZE);
      assert View() == Created();
    }

    /** Contexts beyond `size` are forgotten by the table, missing ones are
        created. */
    method ContextResize(size: nat)
      requires Linked()
      modifies this`contexts, this`heap
      ensures Linked() && old(heap) <= heap && (forall k :: |old(heap)| <= k < |heap| ==> fresh(heap[k]))
      ensures View() == Resized(old(View()), size)
    {
      contexts := if size < |contexts| then contexts[..size] else contexts;
      var i := |contexts|;
      assert View() == Resized(old(View()), i);
      while i < size
        invariant Linked() && |contexts| == i <= size && (i < size ==> |old(contexts)| <= i)
        invariant old(heap) <= heap && (forall k :: |old(heap)| <= k < |heap| ==> fresh(heap[k]))
        invariant View() == Resized(old(View()), i)
      {
        NewContext(i);
        ResizedByOne(old(View()), i);
        i := i + 1;
      }
    }

    /** One context more at the end of the table. */
    method NewContext(fd: nat)
      requires Linked() && fd == |contexts|
      modifies this`contexts, this`heap
      ensures Linked() && |contexts| == fd + 1 && |heap| == |old(heap)| + 1
      ensures old(heap) <= heap && fresh(heap[|old(heap)|])
      ensures View() == old(View()).(heap := old(View()).heap + [FreshSlot(fd)],
                                     table := old(View()).table + [|old(heap)|])
    {
      var context := new FdContext(fd, |heap|);
      contexts := contexts + [context];
      heap := heap + [context];
      assert Slots() == old(Slots()) + [FreshSlot(fd)];
      assert Addresses() == old(Addresses()) + [|old(heap)|];
    }

    /** `epoll_ctl`; it changes the interest list if it succeeds. */
    method EpollCtl(op: CtlOp, context: FdContext, events: bv8, ok: bool) returns (done: bool)
      requires Linked() && OfHeap(context)
      modifies this`kernel
      ensures done == Accepts(old(View()), context.address, op, ok)
      ensures View() == if done then Told(old(View()), context.address, op, Decode(events)) else old(View())
    {
      var fd := context.fd;
      done := ok && (op == ADD <==> fd !in kernel);
      if done {
        kernel := if op == DEL then kernel - {fd} else kernel[fd := Watch(Decode(events), context.address)];
      }
    }

    ghost predicate OfHeap(context: FdContext)
      reads this
    {
      context.address < |heap| && heap[context.address] == context
    }

    /** The counter, mask and context of an event that the kernel watches; `ok` is
        false where the assertion of an empty context fails. */
    method Enroll(context: FdContext, e: Event) returns (ok: bool)
      requires Linked() && OfHeap(context)
      modifies this`pending, this`next, context
      ensures Linked() && ok == (old(View()).heap[context.address].Context(e) == EMPTY)
      ensures ok ==> View() == Enlist(Count(old(View()), 1), context.address, e)
    {
      ghost var slots := Slots();
      BitsAreMasks(context.events, e);
      pending := pending + 1;
      context.events := context.events | Bit(e);
      ok := context.View().Context(e) == EMPTY;
      if ok {
        context.SetContext(e, EventContext(true, Some(next)));
        next := next + 1;
        assert Slots() == slots[context.address := context.View()];
      }
    }

    /** What follows behind the lookup in `addEvent`. */
    method Register(context: FdContext, e: Event, ok: bool) returns (r: Outcome)
      requires Linked() && OfHeap(context)
      modifies this`kernel, this`pending, this`next, context
      ensures Linked() && r == Add(old(View()), context.address, e, ok).1
      ensures r != Abort ==> View() == Add(old(View()), context.address, e, ok).0
    {
      BitsAreMasks(context.events, e);
      if context.events & Bit(e) != 0 {
        return Abort;
      }
      var op := if context.events != 0 then MOD else ADD;
      var done := EpollCtl(op, context, context.events | Bit(e), ok);
      if !done {
        return Failure;
      }
      var enrolled := Enroll(context, e);
      return if enrolled then Success else Abort;
    }

    method AddEvent(fd: nat, e: Event, ok: bool) returns (r: Outcome)
      requires Linked() && FIRST_SIZE <= |contexts|
      modifies this`contexts, this`heap, this`kernel, this`pending, this`next, contexts
      ensures Linked() && r == EventTables.AddEvent(old(View()), old(stopping), fd, e, ok).1
      ensures r != Abort ==> View() == EventTables.AddEvent(old(View()), old(stopping), fd, e, ok).0
    {
      if stopping {
        return Failure;
      }
      if |contexts| <= fd {
        ContextResize(3 * fd / 2);
        assert Addresses()[fd] == AddressOf(old(View()), fd);
      }
      r := Register(contexts[fd], e, ok);
    }

    /** The common part of the calls that take events away: the kernel is told. */
    method Withdraw(context: FdContext, left: bv8, ok: bool) returns (done: bool)
      requires Linked() && OfHeap(context) && Clean(left)
      modifies this`kernel
      ensures var op := RemoveOp(Decode(left));
              && done == Accepts(old(View()), context.address, op, ok)
              && View() == if done then Told(old(View()), context.address, op, Decode(left)) else old(View())
    {
      BitsAreMasks(left, READ);
      var op := if left != 0 then MOD else DEL;
      done := EpollCtl(op, context, left, ok);
    }

    /** The counter, mask and context of an event that the kernel has forgotten.
        Resetting the context drops its reference to the fiber, the only one if it
        was never submitted; `other` is the state of a fiber that was, and `ok` is
        false where `~Fiber` aborts. */
    method Forget(context: FdContext, e: Event, onMain: bool, other: Fibers.State) returns (ok: bool)
      requires Linked() && OfHeap(context)
      modifies this`pending, context
      ensures Linked() && ok == Discardable(old(View()), context.address, e, onMain, other)
      ensures ok ==> View() == Discard(Count(old(View()), -1), context.address, e)
    {
      ghost var slots := Slots();
      pending := pending - 1;
      var fiber := context.ResetContext(e);
      ok := true;
      if fiber.Some? {
        ok := Fibers.Destructible(onMain, if fiber.value in submitted then other else Fibers.INIT);
      }
      assert Slots() == slots[context.address := context.View()];
    }

    method Remove(context: FdContext, e: Event, ok: bool, onMain: bool, other: Fibers.State) returns (r: Outcome)
      requires Linked() && OfHeap(context)
      modifies this`kernel, this`pending, context
      ensures Linked() && r == Delete(old(View()), context.address, e, ok, onMain, other).1
      ensures r != Abort ==> View() == Delete(old(View()), context.address, e, ok, onMain, other).0
    {
      BitsAreMasks(context.events, e);
      if context.events & Bit(e) == 0 {
        return Failure;
      }
      var done := Withdraw(context, context.events & !Bit(e), ok);
      if !done {
        return Failure;
      }
      var forgotten := Forget(context, e, onMain, other);
      return if forgotten then Success else Abort;
    }

    method DelEvent(fd: nat, e: Event, ok: bool, onMain: bool, other: Fibers.State) returns (r: Outcome)
      requires Linked()
      modifies this`kernel, this`pending, contexts
      ensures Linked() && r == DeleteEvent(old(View()), fd, e, ok, onMain, other).1
      ensures r != Abort ==> View() == DeleteEvent(old(View()), fd, e, ok, onMain, other).0
    {
      if |contexts| <= fd {
        return Failure;
      }
      r := Remove(contexts[fd], e, ok, onMain, other);
    }

    /** `triggerEvent` on a context of the heap, and the counter; `refused` tells
        whether `submit` aborts. */
    method TriggerOn(context: FdContext, e: Event, refused: bool) returns (ok: bool)
      requires Linked() && OfHeap(context)
      modifies this`pending, this`submitted, context
      ensures Linked() && ok == (old(View()).heap[context.address].events.Has(e) && !refused)
      ensures ok ==> View() == Count(Fire(old(View()), context.address, e), -1)
    {
      ghost var slots := Slots();
      var fiber;
      ok, fiber := context.TriggerEvent(e);
      if ok {
        if refused {
          return false;
        }
        submitted := if fiber.Some? then submitted + [fiber.value] else submitted;
        pending := pending - 1;
        assert Slots() == slots[context.address := context.View()];
      }
    }

    /** Triggers the events in `m` one after the other. */
    method TriggerBits(context: FdContext, m: bv8, refused: Mask) returns (r: Outcome)
      requires Linked() && OfHeap(context) && Clean(m)
      modifies this`pending, this`submitted, context
      ensures Linked() && r == TriggerAll(old(View()), context.address, Decode(m), refused).1
      ensures r != Abort ==> View() == TriggerAll(old(View()), context.address, Decode(m), refused).0
    {
      if m & Bit(READ) != 0 {
        var ok := TriggerOn(context, READ, refused.read);
        if !ok {
          return Abort;
        }
      }
      if m & Bit(WRITE) != 0 {
        var ok := TriggerOn(context, WRITE, refused.write);
        if !ok {
          return Abort;
        }
      }
      return Success;
    }

    method CancelOne(context: FdContext, e: Event, ok: bool, refused: Mask) returns (r: Outcome)
      requires Linked() && OfHeap(context)
      modifies this`kernel, this`pending, this`submitted, context
      ensures Linked() && r == Cancel(old(View()), context.address, e, ok, refused).1
      ensures r != Abort ==> View() == Cancel(old(View()), context.address, e, ok, refused).0
    {
      BitsAreMasks(context.events, e);
      if context.events & Bit(e) == 0 {
        return Failure;
      }
      var done := Withdraw(context, context.events & !Bit(e), ok);
      if !done {
        return Failure;
      }
      var triggered := TriggerOn(context, e, refused.Has(e));
      return if triggered then Success else Abort;
    }

    method CancelEvent(fd: nat, e: Event, ok: bool, refused: Mask) returns (r: Outcome)
      requires Linked()
      modifies this`kernel, this`pending, this`submitted, contexts
      ensures Linked() && r == EventTables.CancelEvent(old(View()), fd, e, ok, refused).1
      ensures r != Abort ==> View() == EventTables.CancelEvent(old(View()), fd, e, ok, refused).0
    {
      if |contexts| <= fd {
        return Failure;
      }
      r := CancelOne(contexts[fd], e, ok, refused);
    }

    method CancelAllOf(context: FdContext, ok: bool, refused: Mask) returns (r: Outcome)
      requires Linked() && OfHeap(context)
      modifies this`kernel, this`pending, this`submitted, context
      ensures Linked() && r == CancelAll(old(View()), context.address, ok, refused).1
      ensures r != Abort ==> View() == CancelAll(old(View()), context.address, ok, refused).0
    {
      BitsAreMasks(context.events, READ);
      if context.events == 0 {
        return Failure;
      }
      var done := Withdraw(context, 0, ok);
      if !done {
        return Failure;
      }
      r := TriggerBits(context, context.events, refused);
    }

    method CancelAllEvents(fd: nat, ok: bool, refused: Mask) returns (r: Outcome)
      requires Linked()
      modifies this`kernel, this`pending, this`submitted, contexts
      ensures Linked() && r == CancelEvents(old(View()), fd, ok, refused).1
      ensures r != Abort ==> View() == CancelEvents(old(View()), fd, ok, refused).0
    {
      if |contexts| <= fd {
        return Failure;
      }
      r := CancelAllOf(contexts[fd], ok, refused);
    }

    /** One turn of the dispatch loop. */
    method HandleReport(report: Report) returns (r: Outcome)
      requires Linked() && OfHeap(report.context)
      modifies this`kernel, this`pending, this`submitted, report.context
      ensures Linked()
      ensures var (t, o) := Dispatch(old(View()), report.context.address, Decode(report.events),
                                     report.events & 0x18 != 0, report.ok);
              r == o && (r != Abort ==> View() == t)
    {
      var context := report.context;
      var actual := RealBits(report.events, context.events);
      RealBitsAre(report.events, context.events);
      BitsMinus(context.events, actual);
      if context.events & actual == 0 {
        return Failure;
      }
      var done := Withdraw(context, context.events & !actual, report.ok);
      if !done {
        return Failure;
      }
      r := TriggerBits(context, actual, NONE);
    }

    /** The dispatch loop of `idle` over what one `epoll_wait` has reported. */
    method HandleReports(reports: seq<Report>) returns (r: Outcome)
      requires Linked() && forall i :: 0 <= i < |reports| ==> OfHeap(reports[i].context)
      modifies this`kernel, this`pending, this`submitted, heap
      ensures Linked() && r == DispatchAll(old(View()), Notices(reports)).1
      ensures r != Abort ==> View() == DispatchAll(old(View()), Notices(reports)).0
    {
      ghost var t, notices := View(), Notices(reports);
      var i := 0;
      while i < |reports|
        invariant 0 <= i <= |reports| && Linked()
        invariant DispatchAll(t, notices[..i]) == (View(), Success)
      {
        DispatchOneMore(t, notices, i);
        var o := HandleReport(reports[i]);
        if o == Abort {
          DispatchAborts(t, notices, i + 1);
          return Abort;
        }
        i := i + 1;
      }
      assert notices[..i] == notices;
      return Success;
    }

    /** The first half of `stop`; what it then waits for is `pending` being 0. */
    method BeginStop()
      modifies this`stopping
      ensures stopping && View() == old(View())
    {
      stopping := true;
    }
  }

  function Notices(reports: seq<Report>): (notices: seq<Notice>)
    ensures |notices| == |reports| && forall i :: 0 <= i < |reports| ==> notices[i] == NoticeOf(reports[i])
  {
    seq(|reports|, i requires 0 <= i < |reports| => NoticeOf(reports[i]))
  }

  /** The events a notice is about; an error or a hang-up is about all that are
      registered. */
  function About(n: Notice, events: Mask): Mask {
    if n.events & 0x18 != 0 then Mask(n.events & 0x1 != 0 || events.read, n.events & 0x4 != 0 || events.write)
    else Decode(n.events)
  }

  /** One notice: the registered events it is about are submitted, all of them or, if
      there is none or the kernel refuses, nothing happens. */
  ghost predicate HandledOne(t: Table, n: Notice, t': Table) {
    && n.c < |t.heap|
    && var events := t.heap[n.c].events;
    if n.ok && events.Meets(About(n, events)) then
      Decode(n.events).Minus(events) == NONE && Handed(t, t', n.c, About(n, events))
    else t' == t
  }

  /** The notice is about an event that is not registered, next to one that is. */
  predicate AbortsOn(t: Table, n: Notice) {
    && n.c < |t.heap| && n.ok
    && var events := t.heap[n.c].events; events.Meets(About(n, events)) && Decode(n.events).Minus(events) != NONE
  }

  ghost predicate HandledAll(t: Table, notices: seq<Notice>, t': Table)
    decreases |notices|
  {
    if notices == [] then t' == t
    else
      var front, last := notices[..|notices| - 1], notices[|notices| - 1];
      exists u :: HandledAll(t, front, u) && HandledOne(u, last, t')
  }

  lemma DispatchIsHandled(t: Table, n: Notice)
    requires Agree(t) && AllAccounted(t) && n.c < |t.heap|
    ensures var (t', r) := Dispatch(t, n.c, Decode(n.events), n.events & 0x18 != 0, n.ok);
            && (r == Abort <==> AbortsOn(t, n))
            && (r != Abort ==> HandledOne(t, n, t') && Agree(t') && AllAccounted(t') && |t'.heap| == |t.heap| &&
                               |t'.submitted| + t'.pending == |t.submitted| + t.pending)
  {
    DispatchExact(t, n.c, Decode(n.events), n.events & 0x18 != 0, n.ok);
  }

  /** A batch: its notices are handled one after the other, the fibers they submit are
      as many as the counter falls by, and the batch aborts only at a notice about an
      event that is not registered next to one that is. */
  lemma {:induction false} BatchExact(t: Table, notices: seq<Notice>)
    requires Agree(t) && AllAccounted(t) && forall i :: 0 <= i < |notices| ==> notices[i].c < |t.heap|
    ensures var (t', r) := DispatchAll(t, notices);
            && r != Failure
            && (r == Success ==>
                  && HandledAll(t, notices, t') && Agree(t') && AllAccounted(t') && |t'.heap| == |t.heap|
                  && |t'.submitted| + t'.pending == |t.submitted| + t.pending)
            && (r == Abort ==>
                  exists k, u :: 0 <= k < |notices| && HandledAll(t, notices[..k], u) && AbortsOn(u, notices[k]))
    decreases |notices|
  {
    if notices != [] {
      var last := |notices| - 1;
      BatchExact(t, notices[..last]);
      var (u, r) := DispatchAll(t, notices[..last]);
      if r == Abort {
        var k, v :| 0 <= k < last && HandledAll(t, notices[..last][..k], v) && AbortsOn(v, notices[..last][k]);
        assert notices[..last][..k] == notices[..k];
      } else {
        DispatchIsHandled(u, notices[last]);
      }
    }
  }

  lemma DispatchOneMore(t: Table, notices: seq<Notice>, i: nat)
    requires i < |notices| && DispatchAll(t, notices[..i]).1 != Abort
    requires notices[i].c < |DispatchAll(t, notices[..i]).0.heap|
    ensures var r := Dispatch(DispatchAll(t, notices[..i]).0, notices[i].c, Decode(notices[i].events),
                              notices[i].events & 0x18 != 0, notices[i].ok);
            DispatchAll(t, notices[..i + 1]) == (r.0, if r.1 == Abort then Abort else Success)
  {
    assert notices[..i + 1][..i] == notices[..i];
  }

  lemma {:induction false} DispatchAborts(t: Table, notices: seq<Notice>, k: nat)
    requires k <= |notices| && DispatchAll(t, notices[..k]).1 == Abort
    ensures DispatchAll(t, notices).1 == Abort
    decreases |notices|
  {
    if k == |notices| {
      assert notices[..k] == notices;
    } else {
      var last := |notices| - 1;
      assert notices[..last][..k] == notices[..k];
      DispatchAborts(t, notices[..last], k);
    }
  }
}

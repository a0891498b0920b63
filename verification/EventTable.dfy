/** The table of I/O events (sylar/iomanager.cpp): per descriptor a slot with a
    mask of registered events and one context per event, a counter over all of
    them, and the kernel's interest list. Each operation below is what happens
    under the mutex of one slot, with `epoll_ctl` free to fail. */
module EventTables {
  import opened Prelude
  import Fibers

  datatype Event = READ | WRITE

  datatype Mask = Mask(read: bool, write: bool) {
    predicate Has(e: Event) {
      if e == READ then read else write
    }

    function With(e: Event): Mask {
      if e == READ then Mask(true, write) else Mask(read, true)
    }

    function Without(e: Event): Mask {
      if e == READ then Mask(false, write) else Mask(read, false)
    }

    function Minus(m: Mask): Mask {
      Mask(read && !m.read, write && !m.write)
    }

    function Plus(m: Mask): Mask {
      Mask(read || m.read, write || m.write)
    }

    predicate Meets(m: Mask) {
      (read && m.read) || (write && m.write)
    }

    function Size(): nat {
      (if read then 1 else 0) + (if write then 1 else 0)
    }
  }

  const NONE := Mask(false, false)

  /** `scheduler` tells whether the pointer is set; a fiber is named by the number
      of the registration that created it. */
  datatype EventContext = EventContext(scheduler: bool, fiber: Option<nat>)

  const EMPTY := EventContext(false, None)

  datatype Slot = Slot(fd: nat, events: Mask, read: EventContext, write: EventContext) {
    function Context(e: Event): EventContext {
      if e == READ then read else write
    }

    function SetContext(e: Event, c: EventContext): Slot {
      if e == READ then this.(read := c) else this.(write := c)
    }
  }

  function FreshSlot(fd: nat): Slot {
    Slot(fd, NONE, EMPTY, EMPTY)
  }

  /** What the kernel knows of a descriptor: the events it watches for, and the
      address (`data.ptr`) it reports them with. */
  datatype Watch = Watch(events: Mask, c: nat)

  /** `heap` are all slots there ever were, by address: a slot that the table loses
      is not freed. `table` is the vector of addresses that descriptors are looked
      up in, `next` numbers the registrations, and `submitted` is the history of
      the fibers handed to `submit`. */
  datatype Table = Table(heap: seq<Slot>, table: seq<nat>, kernel: map<nat, Watch>, pending: int, next: nat,
                         submitted: seq<nat>)

  datatype Outcome = Success | Failure | Abort

  // ---------- The kernel ----------

  datatype CtlOp = ADD | MOD | DEL

  /** The kernel refuses to add what it has, and to change what it has not. */
  predicate Legal(kernel: map<nat, Watch>, op: CtlOp, fd: nat) {
    op == ADD <==> fd !in kernel
  }

  function Ctl(kernel: map<nat, Watch>, op: CtlOp, fd: nat, watch: Watch): map<nat, Watch> {
    if op == DEL then kernel - {fd} else kernel[fd := watch]
  }

  function AddOp(events: Mask): CtlOp {
    if events == NONE then ADD else MOD
  }

  function RemoveOp(left: Mask): CtlOp {
    if left == NONE then DEL else MOD
  }

  /** Whether `epoll_ctl` on the descriptor of slot `c` succeeds, given that the
      kernel has no other reason (`ok`) to fail. */
  predicate Accepts(t: Table, c: nat, op: CtlOp, ok: bool)
    requires c < |t.heap|
  {
    ok && Legal(t.kernel, op, t.heap[c].fd)
  }

  function Told(t: Table, c: nat, op: CtlOp, events: Mask): Table
    requires c < |t.heap|
  {
    t.(kernel := Ctl(t.kernel, op, t.heap[c].fd, Watch(events, c)))
  }

  // ---------- What happens to a slot ----------

  /** The event gets its context, and a fiber of its own. */
  function Enlist(t: Table, c: nat, e: Event): Table
    requires c < |t.heap|
  {
    var slot := t.heap[c];
    t.(heap := t.heap[c := slot.(events := slot.events.With(e)).SetContext(e, EventContext(true, Some(t.next)))],
       next := t.next + 1)
  }

  /** `triggerEvent`: the fiber is submitted, and stays in its context. */
  function Fire(t: Table, c: nat, e: Event): Table
    requires c < |t.heap|
  {
    var slot := t.heap[c];
    var fiber := slot.Context(e).fiber;
    t.(heap := t.heap[c := slot.(events := slot.events.Without(e)).SetContext(e, EventContext(false, fiber))],
       submitted := if fiber.Some? then t.submitted + [fiber.value] else t.submitted)
  }

  /** `resetContext`: the context is empty, and its reference to the fiber gone. */
  function Discard(t: Table, c: nat, e: Event): Table
    requires c < |t.heap|
  {
    var slot := t.heap[c];
    t.(heap := t.heap[c := slot.(events := slot.events.Without(e)).SetContext(e, EMPTY)])
  }

  function Count(t: Table, d: int): Table {
    t.(pending := t.pending + d)
  }

  /** The state of a fiber. Nobody but its context has one that was never
      submitted, so nobody has started it; `other` is what the scheduler and the
      callback made of one that was. */
  function FiberState(t: Table, id: nat, other: Fibers.State): Fibers.State {
    if id in t.submitted then other else Fibers.INIT
  }

  /** Whether the fiber of the context, if it has one, can be destroyed: the
      assertions of `~Fiber`. */
  predicate Discardable(t: Table, c: nat, e: Event, onMain: bool, other: Fibers.State)
    requires c < |t.heap|
  {
    var fiber := t.heap[c].Context(e).fiber;
    fiber.Some? ==> Fibers.Destructible(onMain, FiberState(t, fiber.value, other))
  }

  // ---------- The operations behind the lookup of the slot ----------

  function Add(t: Table, c: nat, e: Event, ok: bool): (Table, Outcome)
    requires c < |t.heap|
  {
    var slot := t.heap[c];
    if slot.events.Has(e) then (t, Abort)
    else if !Accepts(t, c, AddOp(slot.events), ok) then (t, Failure)
    else if slot.Context(e) != EMPTY then (t, Abort)
    else (Enlist(Count(Told(t, c, AddOp(slot.events), slot.events.With(e)), 1), c, e), Success)
  }

  /** `onMain` and `other` are what the destructor of the fiber looks at. */
  function Delete(t: Table, c: nat, e: Event, ok: bool, onMain: bool, other: Fibers.State): (Table, Outcome)
    requires c < |t.heap|
  {
    var left := t.heap[c].events.Without(e);
    if !t.heap[c].events.Has(e) || !Accepts(t, c, RemoveOp(left), ok) then (t, Failure)
    else if !Discardable(t, c, e, onMain, other) then (t, Abort)
    else (Discard(Count(Told(t, c, RemoveOp(left), left), -1), c, e), Success)
  }

  /** Triggers the events of `m` in order. The assertion of `triggerEvent` fails for
      one that is not registered; `refused` are the events whose `submit` aborts,
      because it is called on a child fiber while the queue is full. */
  function TriggerAll(t: Table, c: nat, m: Mask, refused: Mask): (Table, Outcome)
    requires c < |t.heap|
  {
    if m.Minus(t.heap[c].events) != NONE || m.Meets(refused) then (t, Abort)
    else
      var t1 := if m.read then Count(Fire(t, c, READ), -1) else t;
      (if m.write then Count(Fire(t1, c, WRITE), -1) else t1, Success)
  }

  function Cancel(t: Table, c: nat, e: Event, ok: bool, refused: Mask): (Table, Outcome)
    requires c < |t.heap|
  {
    var left := t.heap[c].events.Without(e);
    if !t.heap[c].events.Has(e) || !Accepts(t, c, RemoveOp(left), ok) then (t, Failure)
    else TriggerAll(Told(t, c, RemoveOp(left), left), c, NONE.With(e), refused)
  }

  function CancelAll(t: Table, c: nat, ok: bool, refused: Mask): (Table, Outcome)
    requires c < |t.heap|
  {
    if t.heap[c].events == NONE || !Accepts(t, c, DEL, ok) then (t, Failure)
    else TriggerAll(Told(t, c, DEL, NONE), c, t.heap[c].events, refused)
  }

  /** What an event reported by the kernel stands for; an error or a hang-up stands
      for all that is registered. */
  function RealEvents(reported: Mask, error: bool, events: Mask): Mask {
    if error then reported.Plus(events) else reported
  }

  /** One reported event in `idle`, which runs on a main fiber. */
  function Dispatch(t: Table, c: nat, reported: Mask, error: bool, ok: bool): (Table, Outcome)
    requires c < |t.heap|
  {
    var events := t.heap[c].events;
    var actual := RealEvents(reported, error, events);
    var left := events.Minus(actual);
    if !events.Meets(actual) || !Accepts(t, c, RemoveOp(left), ok) then (t, Failure)
    else TriggerAll(Told(t, c, RemoveOp(left), left), c, actual, NONE)
  }

  // ---------- Looking a descriptor up ----------

  const FIRST_SIZE := 32

  function Grown(fd: nat): nat {
    3 * fd / 2
  }

  function Missing(t: Table, size: nat): nat {
    if size > |t.table| then size - |t.table| else 0
  }

  predicate AllFresh(heap: seq<Slot>) {
    forall i :: 0 <= i < |heap| ==> heap[i] == FreshSlot(heap[i].fd)
  }

  /** The slots that `contextResize` creates. */
  function Made(t: Table, size: nat): (more: seq<Slot>)
    ensures |more| == Missing(t, size)
    ensures forall i :: 0 <= i < |more| ==> more[i] == FreshSlot(|t.table| + i)
  {
    seq(Missing(t, size), i requires 0 <= i < Missing(t, size) => FreshSlot(|t.table| + i))
  }

  function AddressOf(t: Table, fd: nat): nat {
    if fd < |t.table| then t.table[fd] else |t.heap| + fd - |t.table|
  }

  /** `contextResize`: what is cut off stays in the heap. */
  function Resized(t: Table, size: nat): (t': Table)
    ensures |t'.table| == size && |t'.heap| == |t.heap| + Missing(t, size)
  {
    t.(heap := t.heap + Made(t, size),
       table := seq(size, i requires 0 <= i < size => AddressOf(t, i)))
  }

  lemma ResizedByOne(t: Table, size: nat)
    requires |t.table| <= size
    ensures var r := Resized(t, size);
            Resized(t, size + 1) == r.(heap := r.heap + [FreshSlot(size)], table := r.table + [|r.heap|])
  {
    assert Made(t, size + 1) == Made(t, size) + [FreshSlot(size)];
    assert t.heap + Made(t, size + 1) == t.heap + Made(t, size) + [FreshSlot(size)];
  }

  function Created(): Table {
    Resized(Table([], [], map[], 0, 0, []), FIRST_SIZE)
  }

  /** `addEvent` when no other call comes in between. */
  function AddEvent(t: Table, stopping: bool, fd: nat, e: Event, ok: bool): (Table, Outcome)
    requires TableFits(t) && FIRST_SIZE <= |t.table|
  {
    if stopping then (t, Failure)
    else if fd < |t.table| then Add(t, t.table[fd], e, ok)
    else
      ResizeFits(t, Grown(fd));
      Add(Resized(t, Grown(fd)), Resized(t, Grown(fd)).table[fd], e, ok)
  }

  /** `delEvent`, `cancelEvent` and `cancelAll` fail on a descriptor beyond the
      table. */
  function DeleteEvent(t: Table, fd: nat, e: Event, ok: bool, onMain: bool, other: Fibers.State): (Table, Outcome)
    requires TableFits(t)
  {
    if fd < |t.table| then Delete(t, t.table[fd], e, ok, onMain, other) else (t, Failure)
  }

  function CancelEvent(t: Table, fd: nat, e: Event, ok: bool, refused: Mask): (Table, Outcome)
    requires TableFits(t)
  {
    if fd < |t.table| then Cancel(t, t.table[fd], e, ok, refused) else (t, Failure)
  }

  function CancelEvents(t: Table, fd: nat, ok: bool, refused: Mask): (Table, Outcome)
    requires TableFits(t)
  {
    if fd < |t.table| then CancelAll(t, t.table[fd], ok, refused) else (t, Failure)
  }

  // ---------- Agreement ----------

  predicate ContextAgrees(slot: Slot, e: Event) {
    && (slot.events.Has(e) <==> slot.Context(e).scheduler)
    && (slot.events.Has(e) ==> slot.Context(e).fiber.Some?)
  }

  predicate ContextsAgree(slot: Slot) {
    ContextAgrees(slot, READ) && ContextAgrees(slot, WRITE)
  }

  /** The kernel watches the descriptor on behalf of slot `c`, for `wanted`; or on
      behalf of some other slot, or not at all, if nothing is wanted. */
  predicate Watches(kernel: map<nat, Watch>, fd: nat, c: nat, wanted: Mask) {
    if wanted == NONE then fd in kernel ==> kernel[fd].c != c else fd in kernel && kernel[fd] == Watch(wanted, c)
  }

  predicate SlotAgrees(kernel: map<nat, Watch>, slot: Slot, c: nat) {
    ContextsAgree(slot) && Watches(kernel, slot.fd, c, slot.events)
  }

  ghost function Registered(heap: seq<Slot>): nat {
    if heap == [] then 0 else heap[0].events.Size() + Registered(heap[1..])
  }

  /** What the kernel reports is the address of a slot of that descriptor. */
  predicate WatchFits(t: Table, fd: nat) {
    fd in t.kernel ==> t.kernel[fd].c < |t.heap| && t.heap[t.kernel[fd].c].fd == fd
  }

  ghost predicate KernelFits(t: Table) {
    forall fd {:trigger WatchFits(t, fd)} :: WatchFits(t, fd)
  }

  predicate TableFits(t: Table) {
    forall i :: 0 <= i < |t.table| ==> t.table[i] < |t.heap| && t.heap[t.table[i]].fd == i
  }

  /** The masks, the contexts, the counter and the kernel tell the same story. */
  ghost predicate Agree(t: Table) {
    && (forall c {:trigger t.heap[c]} :: 0 <= c < |t.heap| ==> SlotAgrees(t.kernel, t.heap[c], c))
    && KernelFits(t)
    && t.pending == Registered(t.heap)
  }

  /** Another slot has events of the same descriptor. */
  ghost predicate Occupied(t: Table, c: nat)
    requires c < |t.heap|
  {
    exists d :: 0 <= d < |t.heap| && d != c && t.heap[d].fd == t.heap[c].fd && t.heap[d].events != NONE
  }

  /** No slot that has events is out of the table's reach. */
  ghost predicate Reachable(t: Table) {
    forall c {:trigger t.heap[c]} :: 0 <= c < |t.heap| && t.heap[c].events != NONE ==> InTable(t, c)
  }

  predicate InTable(t: Table, c: nat)
    requires c < |t.heap|
  {
    t.heap[c].fd < |t.table| && t.table[t.heap[c].fd] == c
  }

  lemma {:induction false} RegisteredMoves(heap: seq<Slot>, i: nat, slot: Slot)
    requires i < |heap|
    ensures Registered(heap[i := slot]) + heap[i].events.Size() == Registered(heap) + slot.events.Size()
  {
    if i == 0 {
      assert heap[i := slot][1..] == heap[1..];
    } else {
      assert heap[i := slot][1..] == heap[1..][i - 1 := slot];
      RegisteredMoves(heap[1..], i - 1, slot);
    }
  }

  /** The rest of the interest list is as it was, and this entry changed hands only
      between slot `c` and nobody. */
  ghost predicate KernelMoves(kernel: map<nat, Watch>, kernel': map<nat, Watch>, fd: nat, c: nat) {
    && (forall i :: i != fd ==> (i in kernel' <==> i in kernel) && (i in kernel ==> kernel'[i] == kernel[i]))
    && (kernel' == kernel || ((fd in kernel ==> kernel[fd].c == c) && (fd in kernel' ==> kernel'[fd].c == c)))
  }

  /** The watches of other slots do not notice. */
  lemma WatchesKept(kernel: map<nat, Watch>, kernel': map<nat, Watch>, fd: nat, c: nat, i: nat, d: nat, wanted: Mask)
    requires KernelMoves(kernel, kernel', fd, c) && d != c && Watches(kernel, i, d, wanted)
    ensures Watches(kernel', i, d, wanted)
  {
  }

  /** What an operation on one slot has to get right. */
  lemma SlotMoves(t: Table, c: nat, slot: Slot, t': Table)
    requires Agree(t) && c < |t.heap| && t'.heap == t.heap[c := slot] && slot.fd == t.heap[c].fd
    requires SlotAgrees(t'.kernel, slot, c) && KernelMoves(t.kernel, t'.kernel, slot.fd, c)
    requires t'.pending == t.pending - t.heap[c].events.Size() + slot.events.Size()
    ensures Agree(t')
  {
    RegisteredMoves(t.heap, c, slot);
    forall d {:trigger t'.heap[d]} | 0 <= d < |t'.heap| ensures SlotAgrees(t'.kernel, t'.heap[d], d) {
      if d != c {
        assert SlotAgrees(t.kernel, t.heap[d], d);
        WatchesKept(t.kernel, t'.kernel, slot.fd, c, t.heap[d].fd, d, t.heap[d].events);
      }
    }
    forall fd {:trigger WatchFits(t', fd)} ensures WatchFits(t', fd) { assert WatchFits(t, fd); }
  }

  // ---------- The fate of a registration ----------

  function One(b: bool): nat {
    if b then 1 else 0
  }

  /** How often the slot has registration `id` pending. */
  function PendingIn(slot: Slot, id: nat): nat {
    One(slot.events.read && slot.read.fiber == Some(id)) + One(slot.events.write && slot.write.fiber == Some(id))
  }

  ghost function PendingOf(heap: seq<Slot>, id: nat): nat {
    if heap == [] then 0 else PendingIn(heap[0], id) + PendingOf(heap[1..], id)
  }

  /** A registration that was made is pending or submitted, and that once; one
      that was not is neither. */
  ghost predicate Accounted(t: Table, id: nat) {
    PendingOf(t.heap, id) + multiset(t.submitted)[id] == One(id < t.next)
  }

  ghost predicate AllAccounted(t: Table) {
    forall id {:trigger Accounted(t, id)} :: Accounted(t, id)
  }

  lemma {:induction false} PendingMoves(heap: seq<Slot>, i: nat, slot: Slot, id: nat)
    requires i < |heap|
    ensures PendingOf(heap[i := slot], id) + PendingIn(heap[i], id) == PendingOf(heap, id) + PendingIn(slot, id)
  {
    if i == 0 {
      assert heap[i := slot][1..] == heap[1..];
    } else {
      assert heap[i := slot][1..] == heap[1..][i - 1 := slot];
      PendingMoves(heap[1..], i - 1, slot, id);
    }
  }

  lemma {:induction false} PendingSomewhere(heap: seq<Slot>, i: nat, id: nat)
    requires i < |heap|
    ensures PendingOf(heap, id) >= PendingIn(heap[i], id)
  {
    if i > 0 { PendingSomewhere(heap[1..], i - 1, id); }
  }

  /** Only the kernel and the counter have changed. */
  lemma AccountedKept(t: Table, t': Table)
    requires AllAccounted(t) && t'.heap == t.heap && t'.submitted == t.submitted && t'.next == t.next
    ensures AllAccounted(t')
  {
    forall id ensures Accounted(t', id) { assert Accounted(t, id); }
  }

  /** A free context takes a registration in. */
  lemma EnlistAccounts(t: Table, c: nat, e: Event)
    requires AllAccounted(t) && c < |t.heap| && !t.heap[c].events.Has(e)
    ensures AllAccounted(Enlist(t, c, e)) && PendingOf(Enlist(t, c, e).heap, t.next) == 1
  {
    assert Accounted(t, t.next);
    forall id ensures Accounted(Enlist(t, c, e), id) {
      assert Accounted(t, id);
      PendingMoves(t.heap, c, Enlist(t, c, e).heap[c], id);
    }
    PendingMoves(t.heap, c, Enlist(t, c, e).heap[c], t.next);
  }

  /** The fiber registered for `e`. */
  function FiberOf(t: Table, c: nat, e: Event): nat
    requires c < |t.heap|
  {
    var fiber := t.heap[c].Context(e).fiber;
    if fiber.Some? then fiber.value else 0
  }

  lemma FireAccounts(t: Table, c: nat, e: Event)
    requires AllAccounted(t) && c < |t.heap| && t.heap[c].events.Has(e) && t.heap[c].Context(e).fiber.Some?
    ensures AllAccounted(Fire(t, c, e)) && Fire(t, c, e).submitted == t.submitted + [FiberOf(t, c, e)]
  {
    forall id ensures Accounted(Fire(t, c, e), id) {
      assert Accounted(t, id);
      PendingMoves(t.heap, c, Fire(t, c, e).heap[c], id);
    }
  }

  /** The fiber of a registered event was never submitted, so nobody has started
      it, and nobody can destroy it. */
  lemma RegisteredIsInit(t: Table, c: nat, e: Event, onMain: bool, other: Fibers.State)
    requires AllAccounted(t) && c < |t.heap| && t.heap[c].events.Has(e) && t.heap[c].Context(e).fiber.Some?
    ensures FiberOf(t, c, e) !in t.submitted && FiberState(t, FiberOf(t, c, e), other) == Fibers.INIT
    ensures !Discardable(t, c, e, onMain, other)
  {
    PendingSomewhere(t.heap, c, FiberOf(t, c, e));
    assert Accounted(t, FiberOf(t, c, e));
  }

  // ---------- Every operation keeps both ----------

  /** In a table that agrees the call `addEvent` makes is the right one, unless
      another slot has events of the descriptor. */
  lemma AddLegal(t: Table, c: nat)
    requires Agree(t) && c < |t.heap|
    ensures Legal(t.kernel, AddOp(t.heap[c].events), t.heap[c].fd) <==> !Occupied(t, c)
  {
    var fd := t.heap[c].fd;
    assert SlotAgrees(t.kernel, t.heap[c], c);
    assert WatchFits(t, fd);
    forall d | 0 <= d < |t.heap| && d != c && t.heap[d].fd == fd && t.heap[d].events != NONE
      ensures fd in t.kernel && t.kernel[fd].c == d
    {
      assert SlotAgrees(t.kernel, t.heap[d], d);
    }
    if fd in t.kernel {
      var d := t.kernel[fd].c;
      assert SlotAgrees(t.kernel, t.heap[d], d);
    }
  }

  lemma AddAgrees(t: Table, c: nat, e: Event)
    requires Agree(t) && c < |t.heap| && !t.heap[c].events.Has(e)
    requires Legal(t.kernel, AddOp(t.heap[c].events), t.heap[c].fd)
    ensures Agree(Enlist(Count(Told(t, c, AddOp(t.heap[c].events), t.heap[c].events.With(e)), 1), c, e))
  {
    var t' := Enlist(Count(Told(t, c, AddOp(t.heap[c].events), t.heap[c].events.With(e)), 1), c, e);
    assert SlotAgrees(t.kernel, t.heap[c], c);
    SlotMoves(t, c, t'.heap[c], t');
  }

  /** Adding: the call aborts iff the event is registered already, or the kernel
      accepts it and a fiber is left over from an event that was triggered. */
  lemma AddExact(t: Table, c: nat, e: Event, ok: bool)
    requires Agree(t) && AllAccounted(t) && c < |t.heap|
    ensures var (t', r) := Add(t, c, e, ok);
            var taken := t.heap[c].Context(e).fiber.Some?;
            && Agree(t') && AllAccounted(t') && (r != Success ==> t' == t)
            && (r == Abort <==> t.heap[c].events.Has(e) || (ok && !Occupied(t, c) && taken))
            && (r == Success <==> !t.heap[c].events.Has(e) && ok && !Occupied(t, c) && !taken)
            && (r == Success ==>
                  && t'.pending == t.pending + 1 && t'.next == t.next + 1 && PendingOf(t'.heap, t.next) == 1
                  && t'.heap[c].events == t.heap[c].events.With(e))
  {
    assert SlotAgrees(t.kernel, t.heap[c], c);
    AddLegal(t, c);
    if Add(t, c, e, ok).1 == Success {
      AddAgrees(t, c, e);
      var t1 := Count(Told(t, c, AddOp(t.heap[c].events), t.heap[c].events.With(e)), 1);
      AccountedKept(t, t1);
      EnlistAccounts(t1, c, e);
    }
  }

  /** In a table that agrees, every smaller mask can be given to the kernel. */
  lemma RemoveLegal(t: Table, c: nat, left: Mask)
    requires Agree(t) && c < |t.heap| && t.heap[c].events != NONE
    ensures Legal(t.kernel, RemoveOp(left), t.heap[c].fd)
    ensures KernelMoves(t.kernel, Told(t, c, RemoveOp(left), left).kernel, t.heap[c].fd, c)
    ensures Watches(Told(t, c, RemoveOp(left), left).kernel, t.heap[c].fd, c, left)
  {
  }

  /** Deleting aborts whenever it gets to the fiber, and it gets there iff the event
      is registered and the kernel agrees: the context had the only reference to a
      fiber that nobody has run. So a call that returns has done nothing. */
  lemma DeleteExact(t: Table, c: nat, e: Event, ok: bool, onMain: bool, other: Fibers.State)
    requires Agree(t) && AllAccounted(t) && c < |t.heap|
    ensures var (t', r) := Delete(t, c, e, ok, onMain, other);
            && (r == Abort <==> t.heap[c].events.Has(e) && ok)
            && (r == Failure <==> !(t.heap[c].events.Has(e) && ok)) && t' == t
  {
    if t.heap[c].events.Has(e) {
      assert SlotAgrees(t.kernel, t.heap[c], c);
      RemoveLegal(t, c, t.heap[c].events.Without(e));
      RegisteredIsInit(t, c, e, onMain, other);
    }
  }

  /** The fibers registered for the events of `m`, in the order of triggering. */
  function FibersOf(t: Table, c: nat, m: Mask): seq<nat>
    requires c < |t.heap|
  {
    (if m.read then [FiberOf(t, c, READ)] else []) + (if m.write then [FiberOf(t, c, WRITE)] else [])
  }

  /** What triggering the events of `m` does to a table. */
  ghost predicate Triggered(t: Table, t': Table, c: nat, m: Mask)
    requires c < |t.heap|
  {
    && |t'.heap| == |t.heap| && t'.submitted == t.submitted + FibersOf(t, c, m)
    && ContextsAgree(t'.heap[c]) && t'.heap[c].fd == t.heap[c].fd
    && t'.heap[c].events == t.heap[c].events.Minus(m)
    && (forall e :: m.Has(e) ==> t'.heap[c].Context(e).fiber.Some?)
    && t' == t.(heap := t.heap[c := t'.heap[c]], pending := t.pending - m.Size(), submitted := t'.submitted)
  }

  lemma TriggersOne(t: Table, c: nat, e: Event)
    requires AllAccounted(t) && c < |t.heap| && t.heap[c].events.Has(e) && ContextsAgree(t.heap[c])
    ensures var t' := Count(Fire(t, c, e), -1); Triggered(t, t', c, NONE.With(e)) && AllAccounted(t')
  {
    FireAccounts(t, c, e);
    AccountedKept(Fire(t, c, e), Count(Fire(t, c, e), -1));
  }

  lemma TriggersBoth(t: Table, c: nat)
    requires AllAccounted(t) && c < |t.heap| && t.heap[c].events == Mask(true, true) && ContextsAgree(t.heap[c])
    ensures var t' := Count(Fire(Count(Fire(t, c, READ), -1), c, WRITE), -1);
            Triggered(t, t', c, Mask(true, true)) && AllAccounted(t')
  {
    TriggersOne(t, c, READ);
    TriggersOne(Count(Fire(t, c, READ), -1), c, WRITE);
  }

  lemma TriggerAllIs(t: Table, c: nat, m: Mask, refused: Mask)
    requires AllAccounted(t) && c < |t.heap| && m.Minus(t.heap[c].events) == NONE && m != NONE && !m.Meets(refused)
    requires ContextsAgree(t.heap[c])
    ensures var (t', r) := TriggerAll(t, c, m, refused); r == Success && Triggered(t, t', c, m) && AllAccounted(t')
  {
    if m == Mask(true, true) { TriggersBoth(t, c); } else { TriggersOne(t, c, if m.read then READ else WRITE); }
  }

  /** Triggering registered events after the kernel was told: each fiber is
      submitted, and stays behind in its context. */
  lemma TriggerAllExact(t: Table, c: nat, m: Mask, refused: Mask)
    requires Agree(t) && AllAccounted(t) && c < |t.heap| && m.Minus(t.heap[c].events) == NONE && m != NONE
    ensures var left := t.heap[c].events.Minus(m);
            var t0 := Told(t, c, RemoveOp(left), left);
            var (t', r) := TriggerAll(t0, c, m, refused);
            && (r == Abort <==> m.Meets(refused)) && (r == Success <==> !m.Meets(refused))
            && (r == Success ==> Agree(t') && AllAccounted(t') && Triggered(t0, t', c, m))
  {
    var left := t.heap[c].events.Minus(m);
    assert SlotAgrees(t.kernel, t.heap[c], c);
    RemoveLegal(t, c, left);
    var t0 := Told(t, c, RemoveOp(left), left);
    AccountedKept(t, t0);
    if !m.Meets(refused) {
      TriggerAllIs(t0, c, m, refused);
      var t' := TriggerAll(t0, c, m, refused).0;
      SlotMoves(t, c, t'.heap[c], t');
    }
  }

  /** What a call has done that submits the fibers of the events of `m`. */
  ghost predicate Handed(t: Table, t': Table, c: nat, m: Mask)
    requires c < |t.heap|
  {
    && Agree(t') && AllAccounted(t') && |t'.heap| == |t.heap| && t'.table == t.table && t'.next == t.next
    && t'.submitted == t.submitted + FibersOf(t, c, m)
    && t'.heap == t.heap[c := t'.heap[c]] && t'.heap[c].events == t.heap[c].events.Minus(m)
    && t'.pending == t.pending - m.Size()
    && (forall e :: m.Has(e) ==> t'.heap[c].Context(e).fiber.Some?)
  }

  /** Cancelling: if the event is registered and the kernel agrees, its fiber is
      submitted, which aborts iff that is refused. */
  lemma CancelExact(t: Table, c: nat, e: Event, ok: bool, refused: Mask)
    requires Agree(t) && AllAccounted(t) && c < |t.heap|
    ensures var (t', r) := Cancel(t, c, e, ok, refused);
            && (r == Abort <==> t.heap[c].events.Has(e) && ok && refused.Has(e))
            && (r == Success <==> t.heap[c].events.Has(e) && ok && !refused.Has(e))
            && (r == Failure ==> t' == t) && (r == Success ==> Handed(t, t', c, NONE.With(e)))
  {
    if t.heap[c].events.Has(e) {
      assert t.heap[c].events.Without(e) == t.heap[c].events.Minus(NONE.With(e));
      RemoveLegal(t, c, t.heap[c].events.Without(e));
      TriggerAllExact(t, c, NONE.With(e), refused);
    }
  }

  /** Cancelling all: likewise, with every registered event. */
  lemma CancelAllExact(t: Table, c: nat, ok: bool, refused: Mask)
    requires Agree(t) && AllAccounted(t) && c < |t.heap|
    ensures var (t', r) := CancelAll(t, c, ok, refused);
            var events := t.heap[c].events;
            && (r == Abort <==> events != NONE && ok && events.Meets(refused))
            && (r == Success <==> events != NONE && ok && !events.Meets(refused))
            && (r == Failure ==> t' == t)
            && (r == Success ==> Handed(t, t', c, events) && t'.heap[c].events == NONE)
            && (r == Success && events == Mask(true, true) ==>
                  t'.submitted == t.submitted + [FiberOf(t, c, READ), FiberOf(t, c, WRITE)])
  {
    var events := t.heap[c].events;
    if events != NONE {
      assert events.Minus(events) == NONE;
      RemoveLegal(t, c, NONE);
      TriggerAllExact(t, c, events, refused);
    }
  }

  /** Dispatching: the events that were reported and are still registered are
      submitted; it aborts iff the kernel accepts the change and, besides one that
      is registered, one is reported that is not. */
  lemma DispatchExact(t: Table, c: nat, reported: Mask, error: bool, ok: bool)
    requires Agree(t) && AllAccounted(t) && c < |t.heap|
    ensures var (t', r) := Dispatch(t, c, reported, error, ok);
            var events := t.heap[c].events;
            var actual :=
              if error then Mask(reported.read || events.read, reported.write || events.write) else reported;
            && (r == Abort <==> ok && events.Meets(actual) && reported.Minus(events) != NONE)
            && (r == Success <==> ok && events.Meets(actual) && reported.Minus(events) == NONE)
            && (r == Failure ==> t' == t) && (r == Success ==> Handed(t, t', c, actual))
  {
    var events := t.heap[c].events;
    var actual := RealEvents(reported, error, events);
    if events.Meets(actual) {
      RemoveLegal(t, c, events.Minus(actual));
      if reported.Minus(events) == NONE { TriggerAllExact(t, c, actual, NONE); }
    }
  }

  // ---------- By descriptor ----------

  /** Cancelling by descriptor: beyond the table it fails; in the table it is about the
      slot found there, the event named, and that event's fiber. */
  lemma CancelEventExact(t: Table, fd: nat, e: Event, ok: bool, refused: Mask)
    requires Agree(t) && AllAccounted(t) && TableFits(t)
    ensures var (t', r) := CancelEvent(t, fd, e, ok, refused);
            && (r == Failure ==> t' == t) && (fd >= |t.table| ==> r == Failure)
            && (fd < |t.table| ==>
                  var c := t.table[fd];
                  && t.heap[c].fd == fd
                  && (r == Success <==> t.heap[c].events.Has(e) && ok && !refused.Has(e))
                  && (r == Abort <==> t.heap[c].events.Has(e) && ok && refused.Has(e))
                  && (r == Success ==>
                        && Handed(t, t', c, NONE.With(e))
                        && t'.submitted == t.submitted + [FiberOf(t, c, e)]))
  {
    if fd < |t.table| { CancelExact(t, t.table[fd], e, ok, refused); }
  }

  lemma CancelEventsExact(t: Table, fd: nat, ok: bool, refused: Mask)
    requires Agree(t) && AllAccounted(t) && TableFits(t)
    ensures var (t', r) := CancelEvents(t, fd, ok, refused);
            && (r == Failure ==> t' == t) && (fd >= |t.table| ==> r == Failure)
            && (fd < |t.table| ==>
                  var c := t.table[fd];
                  var events := t.heap[c].events;
                  && t.heap[c].fd == fd
                  && (r == Success <==> events != NONE && ok && !events.Meets(refused))
                  && (r == Abort <==> events != NONE && ok && events.Meets(refused))
                  && (r == Success ==> Handed(t, t', c, events) && t'.heap[c].events == NONE))
  {
    if fd < |t.table| { CancelAllExact(t, t.table[fd], ok, refused); }
  }

  lemma DeleteEventExact(t: Table, fd: nat, e: Event, ok: bool, onMain: bool, other: Fibers.State)
    requires Agree(t) && AllAccounted(t) && TableFits(t)
    ensures var (t', r) := DeleteEvent(t, fd, e, ok, onMain, other);
            && t' == t && r != Success && (fd >= |t.table| ==> r == Failure)
            && (fd < |t.table| ==>
                  t.heap[t.table[fd]].fd == fd && (r == Abort <==> t.heap[t.table[fd]].events.Has(e) && ok))
  {
    if fd < |t.table| { DeleteExact(t, t.table[fd], e, ok, onMain, other); }
  }

  // ---------- Growing ----------

  lemma {:induction false} RegisteredSplit(a: seq<Slot>, b: seq<Slot>)
    ensures Registered(a + b) == Registered(a) + Registered(b)
  {
    if a == [] {
      assert a + b == b;
    } else {
      assert (a + b)[1..] == a[1..] + b;
      RegisteredSplit(a[1..], b);
    }
  }

  lemma {:induction false} PendingSplit(a: seq<Slot>, b: seq<Slot>, id: nat)
    ensures PendingOf(a + b, id) == PendingOf(a, id) + PendingOf(b, id)
  {
    if a == [] {
      assert a + b == b;
    } else {
      assert (a + b)[1..] == a[1..] + b;
      PendingSplit(a[1..], b, id);
    }
  }

  lemma {:induction false} NothingRegistered(heap: seq<Slot>, id: nat)
    requires AllFresh(heap)
    ensures Registered(heap) == 0 && PendingOf(heap, id) == 0
  {
    if heap != [] { NothingRegistered(heap[1..], id); }
  }

  lemma ResizeFits(t: Table, size: nat)
    requires TableFits(t)
    ensures TableFits(Resized(t, size))
  {
  }

  lemma ResizeAgrees(t: Table, size: nat)
    requires Agree(t)
    ensures Agree(Resized(t, size))
  {
    var t' := Resized(t, size);
    RegisteredSplit(t.heap, Made(t, size));
    NothingRegistered(Made(t, size), 0);
    forall c {:trigger t'.heap[c]} | 0 <= c < |t'.heap| ensures SlotAgrees(t'.kernel, t'.heap[c], c) {
      if c < |t.heap| {
        assert SlotAgrees(t.kernel, t.heap[c], c);
      } else {
        assert t'.heap[c] == Made(t, size)[c - |t.heap|];
        assert WatchFits(t, t'.heap[c].fd);
      }
    }
    forall fd {:trigger WatchFits(t', fd)} ensures WatchFits(t', fd) { assert WatchFits(t, fd); }
  }

  lemma ResizeAccounts(t: Table, size: nat)
    requires AllAccounted(t)
    ensures AllAccounted(Resized(t, size))
  {
    forall id ensures Accounted(Resized(t, size), id) {
      assert Accounted(t, id);
      PendingSplit(t.heap, Made(t, size), id);
      NothingRegistered(Made(t, size), id);
    }
  }

  lemma ResizeReaches(t: Table, size: nat, c: nat)
    requires TableFits(t) && c < |t.heap|
    ensures InTable(Resized(t, size), c) <==> InTable(t, c) && t.heap[c].fd < size
  {
  }

  /** Resizing keeps masks, contexts, counter and kernel in agreement. What it cuts
      off they still know, though nobody finds it in the table any more: that does
      not happen iff no slot is cut off that has events. */
  lemma ResizeExact(t: Table, size: nat)
    requires Agree(t) && AllAccounted(t) && TableFits(t)
    ensures var t' := Resized(t, size);
            && Agree(t') && AllAccounted(t') && TableFits(t')
            && (Reachable(t') <==>
                Reachable(t) && forall fd :: size <= fd < |t.table| ==> t.heap[t.table[fd]].events == NONE)
  {
    ResizeFits(t, size);
    ResizeAgrees(t, size);
    ResizeAccounts(t, size);
    var t' := Resized(t, size);
    forall c {:trigger t.heap[c]} | 0 <= c < |t.heap|
      ensures t'.heap[c] == t.heap[c] && (InTable(t', c) <==> InTable(t, c) && t.heap[c].fd < size)
    {
      ResizeReaches(t, size, c);
    }
    if Reachable(t') {
      forall c {:trigger t.heap[c]} | 0 <= c < |t.heap| && t.heap[c].events != NONE ensures InTable(t, c) {
        assert t'.heap[c].events != NONE;
      }
      forall fd | size <= fd < |t.table| ensures t.heap[t.table[fd]].events == NONE {
        assert t'.heap[t.table[fd]] == t.heap[t.table[fd]];
      }
    }
    if Reachable(t) && forall fd :: size <= fd < |t.table| ==> t.heap[t.table[fd]].events == NONE {
      forall c {:trigger t'.heap[c]} | 0 <= c < |t'.heap| && t'.heap[c].events != NONE ensures InTable(t', c) {
        assert t'.heap[c] == (t.heap + Made(t, size))[c];
      }
    }
  }

  // ---------- Adding by descriptor ----------

  /** What `addEvent` looks up: the slot in the table, or the fresh one behind it. */
  lemma FoundSlot(t: Table, fd: nat)
    requires Agree(t) && AllAccounted(t) && TableFits(t) && FIRST_SIZE <= |t.table|
    ensures var t1 := if fd < |t.table| then t else Resized(t, 3 * fd / 2);
            && Agree(t1) && AllAccounted(t1) && TableFits(t1) && fd < |t1.table| && t1.heap[t1.table[fd]].fd == fd
            && (fd < |t.table| ==> t1.table[fd] == t.table[fd])
            && (fd >= |t.table| ==> t1.heap[t1.table[fd]] == FreshSlot(fd))
  {
    if fd >= |t.table| {
      ResizeExact(t, 3 * fd / 2);
      assert Resized(t, 3 * fd / 2).heap[AddressOf(t, fd)] == Made(t, 3 * fd / 2)[fd - |t.table|];
    }
  }

  /** Adding by descriptor, undisturbed: it fails when the manager is stopping; else
      the table is grown to half as much again as the descriptor if it does not reach
      it; and the event is registered on the slot found there. */
  lemma AddEventExact(t: Table, stopping: bool, fd: nat, e: Event, ok: bool)
    requires Agree(t) && AllAccounted(t) && TableFits(t) && FIRST_SIZE <= |t.table|
    ensures var (t', r) := AddEvent(t, stopping, fd, e, ok);
            var t1 := if fd < |t.table| then t else Resized(t, 3 * fd / 2);
            && (stopping ==> r == Failure && t' == t)
            && (!stopping ==>
                  && fd < |t1.table|
                  && var c := t1.table[fd];
                  var taken := t1.heap[c].Context(e).fiber.Some?;
                  && Agree(t') && AllAccounted(t') && (r != Success ==> t' == t1)
                  && (r == Abort <==> t1.heap[c].events.Has(e) || (ok && !Occupied(t1, c) && taken))
                  && (r == Success <==> !t1.heap[c].events.Has(e) && ok && !Occupied(t1, c) && !taken)
                  && (r == Success ==>
                        && t'.heap[c].events == t1.heap[c].events.With(e) && t'.heap[c].fd == fd
                        && t'.pending == t.pending + 1 && PendingOf(t'.heap, t.next) == 1))
  {
    var t1 := if fd < |t.table| then t else Resized(t, 3 * fd / 2);
    FoundSlot(t, fd);
    if !stopping { AddExact(t1, t1.table[fd], e, ok); }
  }
}

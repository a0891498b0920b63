/** Which locks each code path takes, in which order, and why no number of
    threads on any of these paths can deadlock.

    A path is the list of its lock operations; what it does between them is
    left out. Reader locks are shared, all others exclusive. */
module LockOrder {

  /** The mutex of the timer manager, of the event table, of one slot of that
      table, of the scheduler's queue, of one worker, of one named logger, of the
      root logger, and of one appender. */
  datatype Lock = Timers | Table | Slot(fd: nat) | Tasks | Own(w: nat) | Logger(l: nat) | Root | Appender(a: nat)

  datatype Grant = Grant(lock: Lock, exclusive: bool)

  /** `Attempt` is a try-lock: when it fails, the section it guards is skipped. */
  datatype LockOp = Acquire(g: Grant) | Attempt(g: Grant) | Release(g: Grant)

  function Rank(l: Lock): nat {
    match l
    case Timers => 0
    case Table => 0
    case Slot(_) => 1
    case Tasks => 2
    case Own(_) => 3
    case Logger(_) => 4
    case Root => 5
    case Appender(_) => 6
  }

  /** A lock that is never held together with another one. */
  predicate Single(l: Lock) {
    l == Timers || l == Table
  }

  // ---------- The code paths ----------

  function Write(l: Lock): Grant {
    Grant(l, true)
  }

  function Read(l: Lock): Grant {
    Grant(l, false)
  }

  function Section(g: Grant): seq<LockOp> {
    [Acquire(g), Release(g)]
  }

  function Appended(appenders: seq<nat>): seq<LockOp> {
    if appenders == [] then [] else Section(Write(Appender(appenders[0]))) + Appended(appenders[1..])
  }

  /** `Logger::log`: a logger without appenders passes on to the root logger, and
      some messages go there at once. */
  datatype Logging =
    | Silent
    | Named(l: nat, appenders: seq<nat>)
    | ViaRoot(l: nat, appenders: seq<nat>)
    | OnRoot(appenders: seq<nat>)

  function Logged(log: Logging): seq<LockOp> {
    match log
    case Silent => []
    case Named(l, appenders) => [Acquire(Write(Logger(l)))] + Appended(appenders) + [Release(Write(Logger(l)))]
    case ViaRoot(l, appenders) =>
      [Acquire(Write(Logger(l))), Acquire(Write(Root))] + Appended(appenders) +
      [Release(Write(Root)), Release(Write(Logger(l)))]
    case OnRoot(appenders) => [Acquire(Write(Root))] + Appended(appenders) + [Release(Write(Root))]
  }

  /** `submit`, `n` times; a stopped scheduler takes no lock. */
  function Submits(n: nat): seq<LockOp> {
    if n == 0 then [] else Section(Write(Tasks)) + Submits(n - 1)
  }

  datatype Path =
    | Submitting
    | Allocating(w: nat)
    | Draining(w: nat)
    | Logs(log: Logging)
    | Adding(fd: nat, grows: bool, log: Logging)
    | Unknown                                          // an event call on an fd beyond the table
    | Deleting(fd: nat, log: Logging)
    | Triggering(fd: nat, events: nat, log: Logging)   // cancelEvent, cancelAll
    | Dispatching(fd: nat, events: nat, log: Logging)  // one reported event in idle
    | ReadingTimers
    | WritingTimers
    | Expiring

  /** The lock operations of a path. Logging happens under the mutex of the slot,
      when `epoll_ctl` fails or the event is there already. */
  function Ops(p: Path): seq<LockOp> {
    match p
    case Submitting => Section(Write(Tasks))
    case Allocating(w) => [Acquire(Write(Tasks))] + Section(Write(Own(w))) + [Release(Write(Tasks))]
    case Draining(w) => [Attempt(Write(Own(w))), Release(Write(Own(w)))]
    case Logs(log) => Logged(log)
    case Adding(fd, grows, log) =>
      Section(Read(Table)) + (if grows then Section(Write(Table)) else []) + InSlot(fd, Logged(log))
    case Unknown => Section(Read(Table))
    case Deleting(fd, log) => Section(Read(Table)) + InSlot(fd, Logged(log))
    case Triggering(fd, events, log) => Section(Read(Table)) + InSlot(fd, Logged(log) + Submits(events))
    case Dispatching(fd, events, log) => InSlot(fd, Logged(log) + Submits(events))
    case ReadingTimers => Section(Read(Timers))
    case WritingTimers => Section(Write(Timers))
    case Expiring => Section(Read(Timers)) + Section(Write(Timers))
  }

  function InSlot(fd: nat, inner: seq<LockOp>): seq<LockOp> {
    [Acquire(Write(Slot(fd)))] + inner + [Release(Write(Slot(fd)))]
  }

  // ---------- Every path climbs ----------

  /** `g` ranks above everything held, and no single lock is involved unless
      nothing is held. */
  predicate Above(held: set<Grant>, g: Grant) {
    forall h :: h in held ==> Rank(h.lock) < Rank(g.lock) && !Single(h.lock)
  }

  /** From `held` on, the operations wait only for locks above the held ones,
      release only what is held, and leave nothing held. A failed try-lock skips
      the release behind it. */
  predicate Climbs(held: set<Grant>, ops: seq<LockOp>)
    decreases |ops|
  {
    if ops == [] then held == {}
    else
      match ops[0]
      case Acquire(g) => Above(held, g) && Climbs(held + {g}, ops[1..])
      case Attempt(g) =>
        && Above(held, g) && Climbs(held + {g}, ops[1..])
        && |ops| >= 2 && ops[1] == Release(g) && Climbs(held, ops[2..])
      case Release(g) => g in held && Climbs(held - {g}, ops[1..])
  }

  /** A balanced part can be put in front. */
  lemma SectionClimbs(held: set<Grant>, g: Grant, rest: seq<LockOp>)
    requires Above(held, g) && Climbs(held, rest)
    ensures Climbs(held, Section(g) + rest)
  {
    Unused(held, g);
    assert held + {g} - {g} == held;
    assert (Section(g) + rest)[1..] == [Release(g)] + rest && ([Release(g)] + rest)[1..] == rest;
  }

  lemma Unused(held: set<Grant>, g: Grant)
    requires Above(held, g)
    ensures g !in held
  {
  }

  lemma {:induction false} AppendedClimbs(held: set<Grant>, appenders: seq<nat>, rest: seq<LockOp>)
    requires Climbs(held, rest) && forall h :: h in held ==> Rank(h.lock) < 6 && !Single(h.lock)
    ensures Climbs(held, Appended(appenders) + rest)
  {
    if appenders == [] {
      assert Appended(appenders) + rest == rest;
    } else {
      AppendedClimbs(held, appenders[1..], rest);
      SectionClimbs(held, Write(Appender(appenders[0])), Appended(appenders[1..]) + rest);
      assert Appended(appenders) + rest == Section(Write(Appender(appenders[0]))) + (Appended(appenders[1..]) + rest);
    }
  }

  lemma {:induction false} SubmitsClimb(held: set<Grant>, n: nat, rest: seq<LockOp>)
    requires Climbs(held, rest) && forall h :: h in held ==> Rank(h.lock) < 2 && !Single(h.lock)
    ensures Climbs(held, Submits(n) + rest)
  {
    if n == 0 {
      assert Submits(n) + rest == rest;
    } else {
      SubmitsClimb(held, n - 1, rest);
      SectionClimbs(held, Write(Tasks), Submits(n - 1) + rest);
      assert Submits(n) + rest == Section(Write(Tasks)) + (Submits(n - 1) + rest);
    }
  }

  /** Operations between taking and releasing `g`. */
  lemma AroundClimbs(held: set<Grant>, g: Grant, inner: seq<LockOp>, rest: seq<LockOp>)
    requires Above(held, g) && Climbs(held + {g}, inner + ([Release(g)] + rest))
    ensures Climbs(held, [Acquire(g)] + inner + [Release(g)] + rest)
  {
    var ops := [Acquire(g)] + inner + [Release(g)] + rest;
    assert ops[1..] == inner + ([Release(g)] + rest);
  }

  lemma ReleaseClimbs(held: set<Grant>, g: Grant, rest: seq<LockOp>)
    requires g !in held && Climbs(held, rest)
    ensures Climbs(held + {g}, [Release(g)] + rest)
  {
    assert held + {g} - {g} == held;
    assert ([Release(g)] + rest)[1..] == rest;
  }

  lemma RootClimbs(held: set<Grant>, appenders: seq<nat>, rest: seq<LockOp>)
    requires Climbs(held, rest) && forall h :: h in held ==> Rank(h.lock) < 5 && !Single(h.lock)
    ensures Climbs(held, [Acquire(Write(Root))] + Appended(appenders) + [Release(Write(Root))] + rest)
  {
    var root := Write(Root);
    Unused(held, root);
    ReleaseClimbs(held, root, rest);
    AppendedClimbs(held + {root}, appenders, [Release(root)] + rest);
    AroundClimbs(held, root, Appended(appenders), rest);
  }

  lemma ViaRootClimbs(held: set<Grant>, l: nat, appenders: seq<nat>, rest: seq<LockOp>)
    requires Climbs(held, rest) && forall h :: h in held ==> Rank(h.lock) < 4 && !Single(h.lock)
    ensures Climbs(held, Logged(ViaRoot(l, appenders)) + rest)
  {
    var g := Write(Logger(l));
    var inner := [Acquire(Write(Root))] + Appended(appenders) + [Release(Write(Root))];
    Unused(held, g);
    ReleaseClimbs(held, g, rest);
    RootClimbs(held + {g}, appenders, [Release(g)] + rest);
    AroundClimbs(held, g, inner, rest);
    assert Logged(ViaRoot(l, appenders)) + rest == [Acquire(g)] + inner + [Release(g)] + rest;
  }

  lemma LoggedClimbs(held: set<Grant>, log: Logging, rest: seq<LockOp>)
    requires Climbs(held, rest) && forall h :: h in held ==> Rank(h.lock) < 4 && !Single(h.lock)
    ensures Climbs(held, Logged(log) + rest)
  {
    match log
    case Silent => assert Logged(log) + rest == rest;
    case Named(l, appenders) =>
      var g := Write(Logger(l));
      Unused(held, g);
      ReleaseClimbs(held, g, rest);
      AppendedClimbs(held + {g}, appenders, [Release(g)] + rest);
      AroundClimbs(held, g, Appended(appenders), rest);
    case ViaRoot(l, appenders) => ViaRootClimbs(held, l, appenders, rest);
    case OnRoot(appenders) => RootClimbs(held, appenders, rest);
  }

  lemma InSlotClimbs(fd: nat, log: Logging, events: nat)
    ensures Climbs({}, InSlot(fd, Logged(log) + Submits(events)))
  {
    var g := Write(Slot(fd));
    ReleaseClimbs({}, g, []);
    assert {} + {g} == {g};
    assert [Release(g)] + [] == [Release(g)];
    SubmitsClimb({g}, events, [Release(g)]);
    LoggedClimbs({g}, log, Submits(events) + [Release(g)]);
    assert Logged(log) + (Submits(events) + [Release(g)]) == Logged(log) + Submits(events) + ([Release(g)] + []);
    AroundClimbs({}, g, Logged(log) + Submits(events), []);
    assert InSlot(fd, Logged(log) + Submits(events)) ==
           [Acquire(g)] + (Logged(log) + Submits(events)) + [Release(g)] + [];
  }

  lemma SlotOnlyClimbs(fd: nat, log: Logging)
    ensures Climbs({}, InSlot(fd, Logged(log)))
  {
    InSlotClimbs(fd, log, 0);
    assert Logged(log) + Submits(0) == Logged(log);
  }

  lemma AddingIs(fd: nat, grows: bool, log: Logging)
    ensures var slot := InSlot(fd, Logged(log));
            Ops(Adding(fd, grows, log)) == Section(Read(Table)) + if grows then Section(Write(Table)) + slot else slot
  {
    var slot := InSlot(fd, Logged(log));
    assert Section(Read(Table)) + [] + slot == Section(Read(Table)) + slot;
    assert Section(Read(Table)) + Section(Write(Table)) + slot == Section(Read(Table)) + (Section(Write(Table)) + slot);
  }

  lemma AddingClimbs(fd: nat, grows: bool, log: Logging)
    ensures Climbs({}, Ops(Adding(fd, grows, log)))
  {
    var slot := InSlot(fd, Logged(log));
    SlotOnlyClimbs(fd, log);
    SectionClimbs({}, Write(Table), slot);
    SectionClimbs({}, Read(Table), if grows then Section(Write(Table)) + slot else slot);
    AddingIs(fd, grows, log);
  }

  lemma AllocatingClimbs(w: nat)
    ensures Climbs({}, Ops(Allocating(w)))
  {
    var g := Write(Tasks);
    ReleaseClimbs({}, g, []);
    assert {} + {g} == {g} && [Release(g)] + [] == [Release(g)];
    SectionClimbs({g}, Write(Own(w)), [Release(g)]);
    AroundClimbs({}, g, Section(Write(Own(w))), []);
    assert Ops(Allocating(w)) == [Acquire(g)] + Section(Write(Own(w))) + [Release(g)] + [];
  }

  lemma ExpiringClimbs()
    ensures Climbs({}, Ops(Expiring))
  {
    SectionClimbs({}, Write(Timers), []);
    assert Section(Write(Timers)) + [] == Section(Write(Timers));
    SectionClimbs({}, Read(Timers), Section(Write(Timers)));
  }

  lemma PathClimbs(p: Path)
    ensures Climbs({}, Ops(p))
  {
    match p
    case Submitting => SectionClimbs({}, Write(Tasks), []);
    case Allocating(w) => AllocatingClimbs(w);
    case Draining(w) => SectionClimbs({}, Write(Own(w)), []);
    case Logs(log) =>
      LoggedClimbs({}, log, []);
      assert Logged(log) + [] == Logged(log);
    case Adding(fd, grows, log) => AddingClimbs(fd, grows, log);
    case Unknown => SectionClimbs({}, Read(Table), []);
    case Deleting(fd, log) =>
      SlotOnlyClimbs(fd, log);
      SectionClimbs({}, Read(Table), InSlot(fd, Logged(log)));
    case Triggering(fd, events, log) =>
      InSlotClimbs(fd, log, events);
      SectionClimbs({}, Read(Table), InSlot(fd, Logged(log) + Submits(events)));
    case Dispatching(fd, events, log) => InSlotClimbs(fd, log, events);
    case ReadingTimers => SectionClimbs({}, Read(Timers), []);
    case WritingTimers => SectionClimbs({}, Write(Timers), []);
    case Expiring => ExpiringClimbs();
  }

  // ---------- Any number of threads ----------

  datatype Thread = Thread(ops: seq<LockOp>, held: set<Grant>)

  predicate Conflict(g: Grant, h: Grant) {
    g.lock == h.lock && (g.exclusive || h.exclusive)
  }

  predicate Compatible(t: Thread, g: Grant) {
    forall h :: h in t.held ==> !Conflict(g, h)
  }

  predicate Free(ts: seq<Thread>, g: Grant) {
    forall i {:trigger ts[i]} :: 0 <= i < |ts| ==> Compatible(ts[i], g)
  }

  /** A thread enters a path, or takes the next operation of the one it is on. */
  datatype Move = Enter(i: nat, p: Path) | Go(i: nat)

  predicate Enabled(ts: seq<Thread>, i: nat) {
    i < |ts| && ts[i].ops != [] && (ts[i].ops[0].Acquire? ==> Free(ts, ts[i].ops[0].g))
  }

  /** What is left behind a try-lock that fails. */
  function Skip(ops: seq<LockOp>): seq<LockOp> {
    if |ops| < 2 then [] else ops[2..]
  }

  function Advanced(ts: seq<Thread>, t: Thread): Thread
    requires t.ops != []
  {
    match t.ops[0]
    case Acquire(g) => Thread(t.ops[1..], t.held + {g})
    case Attempt(g) => if Free(ts, g) then Thread(t.ops[1..], t.held + {g}) else Thread(Skip(t.ops), t.held)
    case Release(g) => Thread(t.ops[1..], t.held - {g})
  }

  function Next(ts: seq<Thread>, m: Move): seq<Thread> {
    match m
    case Enter(i, p) => if i < |ts| && ts[i].ops == [] then ts[i := ts[i].(ops := Ops(p))] else ts
    case Go(i) => if Enabled(ts, i) then ts[i := Advanced(ts, ts[i])] else ts
  }

  function Run(ts: seq<Thread>, moves: seq<Move>): seq<Thread>
    decreases |moves|
  {
    if moves == [] then ts else Run(Next(ts, moves[0]), moves[1..])
  }

  function Idle(n: nat): seq<Thread> {
    seq(n, _ => Thread([], {}))
  }

  ghost predicate AllClimb(ts: seq<Thread>) {
    forall i {:trigger ts[i]} :: 0 <= i < |ts| ==> Climbs(ts[i].held, ts[i].ops)
  }

  predicate Apart(t: Thread, u: Thread) {
    forall g :: g in t.held ==> Compatible(u, g)
  }

  /** No two threads hold conflicting grants. */
  ghost predicate Exclusive(ts: seq<Thread>) {
    forall i, j {:trigger ts[i], ts[j]} :: 0 <= i < |ts| && 0 <= j < |ts| && i != j ==> Apart(ts[i], ts[j])
  }

  predicate HoldsSingleAlone(t: Thread) {
    forall g, h :: g in t.held && h in t.held && Single(g.lock) ==> h == g
  }

  ghost predicate Orderly(ts: seq<Thread>) {
    AllClimb(ts) && Exclusive(ts) && forall i {:trigger ts[i]} :: 0 <= i < |ts| ==> HoldsSingleAlone(ts[i])
  }

  lemma AdvancedClimbs(ts: seq<Thread>, t: Thread)
    requires t.ops != [] && Climbs(t.held, t.ops) && HoldsSingleAlone(t)
    ensures Climbs(Advanced(ts, t).held, Advanced(ts, t).ops) && HoldsSingleAlone(Advanced(ts, t))
  {
  }

  lemma AdvancedApart(ts: seq<Thread>, i: nat, j: nat)
    requires Exclusive(ts) && Enabled(ts, i) && j < |ts| && j != i
    ensures Apart(Advanced(ts, ts[i]), ts[j]) && Apart(ts[j], Advanced(ts, ts[i]))
  {
    assert Apart(ts[i], ts[j]) && Apart(ts[j], ts[i]);
    assert Free(ts, ts[i].ops[0].g) ==> Compatible(ts[j], ts[i].ops[0].g);
  }

  lemma NextOrderly(ts: seq<Thread>, m: Move)
    requires Orderly(ts)
    ensures Orderly(Next(ts, m)) && |Next(ts, m)| == |ts|
  {
    match m
    case Enter(i, p) =>
      if i < |ts| && ts[i].ops == [] {
        PathClimbs(p);
        forall j, k {:trigger Next(ts, m)[j], Next(ts, m)[k]} | 0 <= j < |ts| && 0 <= k < |ts| && j != k
          ensures Apart(Next(ts, m)[j], Next(ts, m)[k])
        {
          assert Apart(ts[j], ts[k]);
        }
      }
    case Go(i) =>
      if Enabled(ts, i) {
        AdvancedClimbs(ts, ts[i]);
        var ts' := Next(ts, m);
        forall j, k {:trigger ts'[j], ts'[k]} | 0 <= j < |ts| && 0 <= k < |ts| && j != k ensures Apart(ts'[j], ts'[k]) {
          if j == i { AdvancedApart(ts, i, k); }
          else if k == i { AdvancedApart(ts, i, j); }
          else { assert Apart(ts[j], ts[k]); }
        }
      }
  }

  lemma {:induction false} RunOrderly(ts: seq<Thread>, moves: seq<Move>)
    requires Orderly(ts)
    ensures Orderly(Run(ts, moves)) && |Run(ts, moves)| == |ts|
    decreases |moves|
  {
    if moves != [] {
      NextOrderly(ts, moves[0]);
      RunOrderly(Next(ts, moves[0]), moves[1..]);
    }
  }

  // ---------- No deadlock ----------

  /** Follow the waiting thread to the holder of what it waits for: each holder
      waits, if at all, for a lock of a higher rank. */
  lemma {:induction false} SomeHolderCanGo(ts: seq<Thread>, i: nat) returns (j: nat)
    requires AllClimb(ts) && i < |ts| && ts[i].ops != [] && !Enabled(ts, i)
    ensures Enabled(ts, j) && ts[j].held != {}
    decreases 6 - Rank(ts[i].ops[0].g.lock)
  {
    var g := ts[i].ops[0].g;
    var k :| 0 <= k < |ts| && !Compatible(ts[k], g);
    var h :| h in ts[k].held && Conflict(g, h);
    assert Climbs(ts[i].held, ts[i].ops) && Climbs(ts[k].held, ts[k].ops);
    if Enabled(ts, k) {
      j := k;
    } else {
      assert Above(ts[k].held, ts[k].ops[0].g);
      j := SomeHolderCanGo(ts, k);
    }
  }

  /** In every state that any number of threads can reach on any of the paths: no
      two threads hold the same lock, unless both read; the table and the timer
      lock are held alone; and while some thread waits, one that holds a lock can
      go on. */
  lemma NoDeadlock(n: nat, moves: seq<Move>, i: nat)
    ensures var ts := Run(Idle(n), moves);
            && |ts| == n && Exclusive(ts)
            && (forall k {:trigger ts[k]} :: 0 <= k < n ==> HoldsSingleAlone(ts[k]))
            && (i < n && ts[i].ops != [] && !Enabled(ts, i) ==> exists j: nat :: Enabled(ts, j) && ts[j].held != {})
  {
    RunOrderly(Idle(n), moves);
    var ts := Run(Idle(n), moves);
    if i < n && ts[i].ops != [] && !Enabled(ts, i) {
      var j := SomeHolderCanGo(ts, i);
    }
  }

  /** How many operations are ahead of all threads. */
  function Ahead(ts: seq<Thread>): nat {
    if ts == [] then 0 else |ts[0].ops| + Ahead(ts[1..])
  }

  lemma {:induction false} AheadFalls(ts: seq<Thread>, i: nat, t: Thread)
    requires i < |ts| && |t.ops| < |ts[i].ops|
    ensures Ahead(ts[i := t]) < Ahead(ts)
  {
    if i == 0 {
      assert ts[i := t][1..] == ts[1..];
    } else {
      assert ts[i := t][1..] == ts[1..][i - 1 := t];
      AheadFalls(ts[1..], i - 1, t);
    }
  }

  lemma {:induction false} NothingAhead(ts: seq<Thread>, i: nat)
    requires Ahead(ts) == 0 && i < |ts|
    ensures ts[i].ops == []
  {
    if i > 0 { NothingAhead(ts[1..], i - 1); }
  }

  lemma {:induction false} SomethingAhead(ts: seq<Thread>) returns (i: nat)
    requires Ahead(ts) > 0
    ensures i < |ts| && ts[i].ops != []
  {
    if ts[0].ops != [] {
      i := 0;
    } else {
      i := SomethingAhead(ts[1..]);
      i := i + 1;
    }
  }

  /** A scheduler that always lets some thread that can go on do so. */
  ghost predicate Busy(ts: seq<Thread>, order: seq<nat>)
    decreases |order|
  {
    order == [] || (Enabled(ts, order[0]) && Busy(Next(ts, Go(order[0])), order[1..]))
  }

  ghost function Going(ts: seq<Thread>, order: seq<nat>): seq<Thread>
    decreases |order|
  {
    if order == [] then ts else Going(Next(ts, Go(order[0])), order[1..])
  }

  /** Whatever the schedule, calls that have begun return: a schedule that runs
      enabled threads only is no longer than the operations ahead, and where it
      cannot be continued all of them are done. */
  lemma {:induction false} EveryCallReturns(ts: seq<Thread>, order: seq<nat>)
    requires Orderly(ts) && Busy(ts, order)
    ensures |order| <= Ahead(ts)
    ensures var ts' := Going(ts, order);
            |ts'| == |ts| &&
            ((forall j: nat :: !Enabled(ts', j)) ==> forall i {:trigger ts'[i]} :: 0 <= i < |ts'| ==> ts'[i].ops == [])
    decreases |order|
  {
    if order == [] {
      if Ahead(ts) > 0 {
        var i := SomethingAhead(ts);
        if !Enabled(ts, i) { var j := SomeHolderCanGo(ts, i); }
      } else {
        forall i {:trigger ts[i]} | 0 <= i < |ts| ensures ts[i].ops == [] { NothingAhead(ts, i); }
      }
    } else {
      NextOrderly(ts, Go(order[0]));
      AheadFalls(ts, order[0], Advanced(ts, ts[order[0]]));
      EveryCallReturns(Next(ts, Go(order[0])), order[1..]);
    }
  }
}

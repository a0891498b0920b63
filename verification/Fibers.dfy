/** Control transfer between a thread's main fiber and the children it runs
    (sylar/fiber.cpp). Each thread has its own `main_fiber`, `this_fiber` and
    `fiberIds`; a fiber may be created on one thread and run on others.

    A context switch shows as what it does to these variables: control is with
    the fiber that `this_fiber` names afterwards. */
module Fibers {
  import opened Prelude

  datatype State = INIT | READY | EXEC | HOLD | SLEEP | DESTROY | EXCEPT

  /** The operations of a fiber. `Raise` is the path of `MainFunc` behind an
      exception in the callback. */
  datatype Op = Start | Resume | Notify | Awake | Destroy | Yield | Hold | Sleep | Stop | Raise

  /** The state an operation leaves its fiber in, and `None` where one of its
      assertions fails. `onMain` is the guard "the current fiber has the id of
      the thread's main fiber". */
  function Transition(op: Op, onMain: bool, s: State): Option<State> {
    match op
    case Start => if onMain && s == INIT then Some(READY) else None
    case Resume => if onMain && s == READY then Some(EXEC) else None
    case Notify => if onMain && s == HOLD then Some(EXEC) else None
    case Awake => if onMain && s == SLEEP then Some(READY) else None
    case Destroy => if onMain then Some(DESTROY) else None
    case Yield => if !onMain && s == EXEC then Some(READY) else None
    case Hold => if !onMain && s == EXEC then Some(HOLD) else None
    case Sleep => if !onMain && s == EXEC then Some(SLEEP) else None
    case Stop => if !onMain then Some(DESTROY) else None
    case Raise => Some(EXCEPT)
  }

  /** The assertions of a child's destructor, which runs where the last reference to
      it is dropped. */
  predicate Destructible(onMain: bool, s: State) {
    onMain && (s == DESTROY || s == EXCEPT)
  }

  /** Operations that switch to the fiber they are called on. */
  predicate EntersChild(op: Op) {
    op == Resume || op == Notify
  }

  /** Operations that switch back to the main fiber. */
  predicate LeavesChild(op: Op) {
    op == Yield || op == Hold || op == Sleep || op == Stop || op == Raise
  }

  /** The ways in which a child gives control back. */
  type GiveBack = op: Op | LeavesChild(op) witness Yield

  /** The state it is left in. */
  function LeftIn(op: GiveBack): State {
    Transition(op, false, EXEC).value
  }

  // ---------- The objects ----------

  class Fiber {
    const id: nat
    var state: State
    var waketime: u64

    /** A child: its id is the thread's counter. */
    constructor (id: nat)
      ensures this.id == id && state == INIT
    {
      this.id, state, waketime := id, INIT, 0;
    }

    /** A thread's main fiber has the id 0 and is executing from the start. */
    constructor Main()
      ensures id == 0 && state == EXEC
    {
      id, state, waketime := 0, EXEC, 0;
    }

    method Start(th: Locals) returns (ok: bool)
      requires th.Ready()
      modifies this`state
      ensures ok <==> old(th.OnMain()) && old(state) == INIT
      ensures state == if ok then READY else old(state)
      ensures ok <==> Transition(Op.Start, old(th.OnMain()), old(state)).Some?
      ensures ok ==> Transition(Op.Start, old(th.OnMain()), old(state)) == Some(state)
    {
      ok := th.thisFiber.id == th.mainFiber.id && state == INIT;
      if ok {
        state := READY;
      }
    }

    method Resume(th: Locals) returns (ok: bool)
      requires th.Ready()
      modifies this`state, th`thisFiber
      ensures ok <==> old(th.OnMain()) && old(state) == READY
      ensures state == if ok then EXEC else old(state)
      ensures th.thisFiber == if ok then this else old(th.thisFiber)
      ensures ok <==> Transition(Op.Resume, old(th.OnMain()), old(state)).Some?
      ensures ok ==> Transition(Op.Resume, old(th.OnMain()), old(state)) == Some(state)
    {
      ok := th.thisFiber.id == th.mainFiber.id && state == READY;
      if ok {
        th.thisFiber := this;
        state := EXEC;
      }
    }

    method Notify(th: Locals) returns (ok: bool)
      requires th.Ready()
      modifies this`state, th`thisFiber
      ensures ok <==> old(th.OnMain()) && old(state) == HOLD
      ensures state == if ok then EXEC else old(state)
      ensures th.thisFiber == if ok then this else old(th.thisFiber)
      ensures ok <==> Transition(Op.Notify, old(th.OnMain()), old(state)).Some?
      ensures ok ==> Transition(Op.Notify, old(th.OnMain()), old(state)) == Some(state)
    {
      ok := th.thisFiber.id == th.mainFiber.id && state == HOLD;
      if ok {
        th.thisFiber := this;
        state := EXEC;
      }
    }

    method Awake(th: Locals) returns (ok: bool)
      requires th.Ready()
      modifies this`state
      ensures ok <==> old(th.OnMain()) && old(state) == SLEEP
      ensures state == if ok then READY else old(state)
      ensures ok <==> Transition(Op.Awake, old(th.OnMain()), old(state)).Some?
      ensures ok ==> Transition(Op.Awake, old(th.OnMain()), old(state)) == Some(state)
    {
      ok := th.thisFiber.id == th.mainFiber.id && state == SLEEP;
      if ok {
        state := READY;
      }
    }

    method Destroy(th: Locals) returns (ok: bool)
      requires th.Ready()
      modifies this`state
      ensures ok <==> old(th.OnMain())
      ensures state == if ok then DESTROY else old(state)
      ensures ok <==> Transition(Op.Destroy, old(th.OnMain()), old(state)).Some?
      ensures ok ==> Transition(Op.Destroy, old(th.OnMain()), old(state)) == Some(state)
    {
      ok := th.thisFiber.id == th.mainFiber.id;
      if ok {
        state := DESTROY;
      }
    }

    method Yield(th: Locals) returns (ok: bool)
      requires th.Ready()
      modifies this`state, th`thisFiber
      ensures ok <==> !old(th.OnMain()) && old(state) == EXEC
      ensures state == if ok then READY else old(state)
      ensures th.thisFiber == if ok then th.mainFiber else old(th.thisFiber)
      ensures ok <==> Transition(Op.Yield, old(th.OnMain()), old(state)).Some?
      ensures ok ==> Transition(Op.Yield, old(th.OnMain()), old(state)) == Some(state)
    {
      ok := th.thisFiber.id != th.mainFiber.id && state == EXEC;
      if ok {
        th.thisFiber := th.mainFiber;
        state := READY;
      }
    }

    method Hold(th: Locals) returns (ok: bool)
      requires th.Ready()
      modifies this`state, th`thisFiber
      ensures ok <==> !old(th.OnMain()) && old(state) == EXEC
      ensures state == if ok then HOLD else old(state)
      ensures th.thisFiber == if ok then th.mainFiber else old(th.thisFiber)
      ensures ok <==> Transition(Op.Hold, old(th.OnMain()), old(state)).Some?
      ensures ok ==> Transition(Op.Hold, old(th.OnMain()), old(state)) == Some(state)
    {
      ok := th.thisFiber.id != th.mainFiber.id && state == EXEC;
      if ok {
        th.thisFiber := th.mainFiber;
        state := HOLD;
      }
    }

    method Sleep(th: Locals, now: u64, t: u64) returns (ok: bool)
      requires th.Ready()
      modifies this`state, this`waketime, th`thisFiber
      ensures ok <==> !old(th.OnMain()) && old(state) == EXEC
      ensures state == if ok then SLEEP else old(state)
      ensures th.thisFiber == if ok then th.mainFiber else old(th.thisFiber)
      ensures waketime == if ok then Add64(now, t) else old(waketime)
      ensures ok <==> Transition(Op.Sleep, old(th.OnMain()), old(state)).Some?
      ensures ok ==> Transition(Op.Sleep, old(th.OnMain()), old(state)) == Some(state)
    {
      ok := th.thisFiber.id != th.mainFiber.id && state == EXEC;
      if ok {
        th.thisFiber := th.mainFiber;
        state := SLEEP;
        waketime := Add64(now, t);
      }
    }

    method Stop(th: Locals) returns (ok: bool)
      requires th.Ready()
      modifies this`state, th`thisFiber
      ensures ok <==> !old(th.OnMain())
      ensures state == if ok then DESTROY else old(state)
      ensures th.thisFiber == if ok then th.mainFiber else old(th.thisFiber)
      ensures ok <==> Transition(Op.Stop, old(th.OnMain()), old(state)).Some?
      ensures ok ==> Transition(Op.Stop, old(th.OnMain()), old(state)) == Some(state)
    {
      ok := th.thisFiber.id != th.mainFiber.id;
      if ok {
        th.thisFiber := th.mainFiber;
        state := DESTROY;
      }
    }
  }

  /** The thread-local variables of one thread. */
  class Locals {
    var mainFiber: Fiber?
    var thisFiber: Fiber?
    var fiberIds: nat

    constructor ()
      ensures mainFiber == null && thisFiber == null && fiberIds == 0
    {
      mainFiber, thisFiber, fiberIds := null, null, 0;
    }

    /** The thread has its main fiber, as every operation of a fiber needs. */
    predicate Ready()
      reads this
    {
      mainFiber != null && thisFiber != null
    }

    predicate OnMain()
      requires Ready()
      reads this
    {
      thisFiber.id == mainFiber.id
    }

    /** `GetThis`: creates the thread's main fiber on first use. */
    method GetThis() returns (f: Fiber)
      requires thisFiber == null <==> mainFiber == null
      modifies this
      ensures Ready() && thisFiber == f
      ensures old(thisFiber) != null ==> f == old(thisFiber) && mainFiber == old(mainFiber) && fiberIds == old(fiberIds)
      ensures old(thisFiber) == null ==>
                fresh(f) && f.id == 0 && f.state == EXEC && mainFiber == f && fiberIds == old(fiberIds) + 1
    {
      if thisFiber == null {
        var cur := new Fiber.Main();
        thisFiber := cur;
        fiberIds := fiberIds + 1;
        mainFiber := cur;
      }
      f := thisFiber;
    }

    /** `CreatFiber`: no child is ever numbered before the main fiber exists. */
    method CreatFiber() returns (f: Fiber)
      requires thisFiber == null <==> mainFiber == null
      modifies this
      ensures Ready() && fresh(f) && f.state == INIT && f.id == fiberIds - 1
      ensures old(thisFiber) != null ==>
                thisFiber == old(thisFiber) && mainFiber == old(mainFiber) && fiberIds == old(fiberIds) + 1
      ensures old(thisFiber) == null ==>
                fresh(mainFiber) && mainFiber != f && thisFiber == mainFiber
                && mainFiber.id == 0 && mainFiber.state == EXEC && fiberIds == old(fiberIds) + 2
    {
      var cur := GetThis();
      f := new Fiber(fiberIds);
      fiberIds := fiberIds + 1;
    }
  }

  // ---------- Any number of threads ----------

  /** The variables of a thread and the fields of a fiber as values; fibers are
      named by handles. */
  datatype Thread = Thread(main: nat, cur: nat, ids: nat)
  datatype Record = Record(id: nat, state: State, waketime: u64)

  /** All threads that have a main fiber, and all fibers. */
  datatype Machine = Machine(threads: map<nat, Thread>, fibers: map<nat, Record>)

  /** What a thread can do: enter the fiber world, create a child, or call an
      operation on a fiber. The handles of new fibers are fresh, and only
      `MainFunc` raises, for the child it runs on. */
  datatype Call =
    | Enter(t: nat, main: nat)
    | Create(t: nat, child: nat)
    | On(t: nat, op: Op, f: nat, waketime: u64)

  predicate IsMain(m: Machine, f: nat) {
    exists t :: t in m.threads && m.threads[t].main == f
  }

  predicate Running(m: Machine, f: nat) {
    exists t :: t in m.threads && m.threads[t].cur == f
  }

  predicate Possible(m: Machine, c: Call) {
    match c
    case Enter(t, main) => t !in m.threads && main !in m.fibers
    case Create(t, child) => t in m.threads && child !in m.fibers
    case On(t, op, f, _) =>
      && t in m.threads && f in m.fibers && m.threads[t].cur in m.fibers && m.threads[t].main in m.fibers
      && (op == Raise ==> f == m.threads[t].cur && f != m.threads[t].main)
  }

  /** The guard every operation tests. */
  predicate OnMain(m: Machine, t: nat)
    requires t in m.threads && m.threads[t].cur in m.fibers && m.threads[t].main in m.fibers
  {
    m.fibers[m.threads[t].cur].id == m.fibers[m.threads[t].main].id
  }

  /** The machine after a call; `None` when an assertion stops the program. */
  function Perform(m: Machine, c: Call): Option<Machine>
    requires Possible(m, c)
  {
    match c
    case Enter(t, main) =>
      Some(Machine(m.threads[t := Thread(main, main, 1)], m.fibers[main := Record(0, EXEC, 0)]))
    case Create(t, child) =>
      var th := m.threads[t];
      Some(Machine(m.threads[t := th.(ids := th.ids + 1)], m.fibers[child := Record(th.ids, INIT, 0)]))
    case On(t, op, f, waketime) =>
      var th := m.threads[t];
      match Transition(op, OnMain(m, t), m.fibers[f].state)
      case None => None
      case Some(s) =>
        var cur := if EntersChild(op) then f else if LeavesChild(op) then th.main else th.cur;
        Some(Machine(m.threads[t := th.(cur := cur)],
                     m.fibers[f := m.fibers[f].(state := s,
                                                 waketime := if op == Sleep then waketime else m.fibers[f].waketime)]))
  }

  /** On each thread `this_fiber` is the main fiber or a child, and no two threads
      share either. */
  ghost predicate ThreadsValid(m: Machine) {
    && (forall t :: t in m.threads ==>
          && m.threads[t].main in m.fibers && m.threads[t].cur in m.fibers && m.threads[t].ids >= 1
          && (m.threads[t].cur == m.threads[t].main || m.fibers[m.threads[t].cur].id >= 1))
    && (forall t, u :: t in m.threads && u in m.threads && t != u ==>
          m.threads[t].main != m.threads[u].main && m.threads[t].cur != m.threads[u].cur)
  }

  /** Main fibers have the id 0 and children ids from 1 on; a child is executing
      iff it is the current fiber of a thread. */
  ghost predicate FibersValid(m: Machine) {
    && (forall f {:trigger IsMain(m, f)} :: f in m.fibers ==> (m.fibers[f].id == 0 <==> IsMain(m, f)))
    && (forall f :: f in m.fibers && m.fibers[f].id == 0 ==> m.fibers[f].state == EXEC)
    && (forall f {:trigger Running(m, f)} :: f in m.fibers && m.fibers[f].id >= 1 ==>
          (m.fibers[f].state == EXEC <==> Running(m, f)))
  }

  ghost predicate Valid(m: Machine) {
    ThreadsValid(m) && FibersValid(m)
  }

  /** How the operations are meant to be called: those that leave a child on the
      fiber that is running, and `destroy` on a child that is not. */
  predicate Proper(m: Machine, c: Call)
    requires Possible(m, c)
  {
    c.On? ==>
      && (LeavesChild(c.op) ==> c.f == m.threads[c.t].cur)
      && (c.op == Destroy ==> !IsMain(m, c.f) && !Running(m, c.f))
  }

  /** The comparison of ids answers the question it stands for: whether the main
      fiber is running, wherever the other fiber was created. */
  lemma GuardExact(m: Machine, t: nat)
    requires Valid(m) && t in m.threads
    ensures OnMain(m, t) <==> m.threads[t].cur == m.threads[t].main
  {
    assert IsMain(m, m.threads[t].main);
  }

  lemma RunningIs(m: Machine, t: nat)
    requires Valid(m) && t in m.threads
    ensures Running(m, m.threads[t].cur) && IsMain(m, m.threads[t].main)
    ensures || m.threads[t].cur == m.threads[t].main
            || (m.fibers[m.threads[t].cur].id >= 1 && m.fibers[m.threads[t].cur].state == EXEC)
  {
    assert Running(m, m.threads[t].cur);
  }

  lemma OldFiberSame(m: Machine, c: Call, f: nat)
    requires Valid(m) && Possible(m, c) && !c.On? && f in m.fibers
    ensures var m' := Perform(m, c).value; (IsMain(m', f) <==> IsMain(m, f)) && (Running(m', f) <==> Running(m, f))
  {
    var m' := Perform(m, c).value;
    if IsMain(m, f) { var t :| t in m.threads && m.threads[t].main == f; assert m'.threads[t].main == f; }
    if Running(m, f) { var t :| t in m.threads && m.threads[t].cur == f; assert m'.threads[t].cur == f; }
  }

  lemma NewFiberIs(m: Machine, c: Call, f: nat)
    requires Valid(m) && Possible(m, c) && !c.On? && f !in m.fibers
    ensures var m' := Perform(m, c).value;
            (IsMain(m', f) <==> c.Enter? && f == c.main) && (Running(m', f) <==> c.Enter? && f == c.main)
  {
    var m' := Perform(m, c).value;
    if c.Enter? { assert m'.threads[c.t] == Thread(c.main, c.main, 1); }
  }

  lemma NewFiberKeepsThreads(m: Machine, c: Call)
    requires Valid(m) && Possible(m, c) && !c.On?
    ensures ThreadsValid(Perform(m, c).value)
  {
  }

  lemma NewFiberKeepsFibers(m: Machine, c: Call)
    requires Valid(m) && Possible(m, c) && !c.On?
    ensures FibersValid(Perform(m, c).value)
  {
    var m' := Perform(m, c).value;
    forall f | f in m'.fibers
      ensures m'.fibers[f].id == 0 <==> IsMain(m', f)
      ensures m'.fibers[f].id == 0 ==> m'.fibers[f].state == EXEC
      ensures m'.fibers[f].id >= 1 ==> (m'.fibers[f].state == EXEC <==> Running(m', f))
    {
      if f in m.fibers { OldFiberSame(m, c, f); } else { NewFiberIs(m, c, f); }
    }
  }

  /** Who is main never changes, and who is running changes on one thread. */
  lemma OnChanges(m: Machine, c: Call, f: nat)
    requires Valid(m) && Possible(m, c) && c.On? && Perform(m, c).Some?
    ensures var m' := Perform(m, c).value;
            && (IsMain(m', f) <==> IsMain(m, f))
            && (Running(m', f) <==> f == m'.threads[c.t].cur || (Running(m, f) && f != m.threads[c.t].cur))
  {
    var m' := Perform(m, c).value;
    if IsMain(m, f) { var t :| t in m.threads && m.threads[t].main == f; assert m'.threads[t].main == f; }
    if Running(m, f) { var t :| t in m.threads && m.threads[t].cur == f; assert t != c.t ==> m'.threads[t].cur == f; }
    assert m'.threads[c.t].cur == m'.threads[c.t].cur;
  }

  lemma CurrentStaysSingle(m: Machine, c: Call)
    requires Valid(m) && Possible(m, c) && c.On? && Perform(m, c).Some?
    ensures var m' := Perform(m, c).value;
            forall t, u :: t in m'.threads && u in m'.threads && t != u ==> m'.threads[t].cur != m'.threads[u].cur
  {
    var m' := Perform(m, c).value;
    var cur' := m'.threads[c.t].cur;
    forall t | t in m'.threads && t != c.t ensures m'.threads[t].cur != cur' {
      RunningIs(m, t);
      RunningIs(m, c.t);
    }
  }

  lemma ProperKeepsFiber(m: Machine, c: Call, f: nat)
    requires Valid(m) && Possible(m, c) && c.On? && Perform(m, c).Some? && Proper(m, c) && f in m.fibers
    ensures var m' := Perform(m, c).value;
            && f in m'.fibers && m'.fibers[f].id == m.fibers[f].id
            && (m'.fibers[f].id == 0 <==> IsMain(m', f))
            && (m'.fibers[f].id == 0 ==> m'.fibers[f].state == EXEC)
            && (m'.fibers[f].id >= 1 ==> (m'.fibers[f].state == EXEC <==> Running(m', f)))
  {
    GuardExact(m, c.t);
    RunningIs(m, c.t);
    OnChanges(m, c, f);
  }

  lemma ProperKeepsThreads(m: Machine, c: Call)
    requires Valid(m) && Possible(m, c) && c.On? && Perform(m, c).Some?
    ensures ThreadsValid(Perform(m, c).value)
  {
    GuardExact(m, c.t);
    RunningIs(m, c.t);
    CurrentStaysSingle(m, c);
  }

  lemma ProperKeepsValid(m: Machine, c: Call)
    requires Valid(m) && Possible(m, c) && c.On? && Perform(m, c).Some? && Proper(m, c)
    ensures Valid(Perform(m, c).value)
  {
    var m' := Perform(m, c).value;
    ProperKeepsThreads(m, c);
    forall f | f in m'.fibers
      ensures m'.fibers[f].id == 0 <==> IsMain(m', f)
      ensures m'.fibers[f].id == 0 ==> m'.fibers[f].state == EXEC
      ensures m'.fibers[f].id >= 1 ==> (m'.fibers[f].state == EXEC <==> Running(m', f))
    {
      ProperKeepsFiber(m, c, f);
    }
  }

  lemma ImproperBreaksValid(m: Machine, c: Call)
    requires Valid(m) && Possible(m, c) && c.On? && Perform(m, c).Some? && !Proper(m, c)
    ensures !Valid(Perform(m, c).value)
  {
    GuardExact(m, c.t);
    RunningIs(m, c.t);
    OnChanges(m, c, m.threads[c.t].cur);
    OnChanges(m, c, c.f);
  }

  /** A call that passes its assertions keeps control well accounted for iff it
      is a proper one: the assertions alone would let a child suspend a fiber
      that runs on another thread. */
  lemma CallExact(m: Machine, c: Call)
    requires Valid(m) && Possible(m, c) && Perform(m, c).Some?
    ensures Valid(Perform(m, c).value) <==> Proper(m, c)
  {
    if !c.On? { NewFiberKeepsThreads(m, c); NewFiberKeepsFibers(m, c); }
    else if Proper(m, c) { ProperKeepsValid(m, c); }
    else { ImproperBreaksValid(m, c); }
  }

  /** Two threads, each running one child. */
  function TwoBusyThreads(): Machine {
    Machine(map[1 := Thread(10, 11, 2), 2 := Thread(20, 21, 2)],
            map[10 := Record(0, EXEC, 0), 11 := Record(1, EXEC, 0), 20 := Record(0, EXEC, 0), 21 := Record(1, EXEC, 0)])
  }

  /** Such a call exists: the child on thread 2 yields in the name of the child
      on thread 1, and every assertion passes. */
  lemma AssertionsAreNotEnough()
    ensures var m, c := TwoBusyThreads(), On(2, Yield, 11, 0);
            Valid(m) && Possible(m, c) && Perform(m, c).Some? && !Valid(Perform(m, c).value)
  {
    var m, c := TwoBusyThreads(), On(2, Yield, 11, 0);
    assert m.threads[1].main == 10 && m.threads[2].main == 20 && m.threads[1].cur == 11 && m.threads[2].cur == 21;
    ImproperBreaksValid(m, c);
  }

  /** Runs: the calls of all threads in the order they take effect. A run ends
      at the first failing assertion. */
  ghost predicate Reaches(m: Machine, calls: seq<Call>, m': Machine)
    decreases |calls|
  {
    if calls == [] then m' == m
    else
      && Possible(m, calls[0]) && Proper(m, calls[0]) && Perform(m, calls[0]).Some?
      && Reaches(Perform(m, calls[0]).value, calls[1..], m')
  }

  lemma {:induction false} ReachesValid(m: Machine, calls: seq<Call>, m': Machine)
    requires Valid(m) && Reaches(m, calls, m')
    ensures Valid(m')
    decreases |calls|
  {
    if calls != [] {
      CallExact(m, calls[0]);
      ReachesValid(Perform(m, calls[0]).value, calls[1..], m');
    }
  }

  /** In every run of proper calls, on any number of threads: `this_fiber` of a
      thread is its main fiber exactly when no child executes on it and is the
      one executing child otherwise; every child that executes does so on
      exactly one thread; and the id guard tells the two cases apart. */
  lemma ControlTransfer(calls: seq<Call>, m: Machine)
    requires Reaches(Machine(map[], map[]), calls, m)
    ensures forall t :: t in m.threads ==>
              && m.threads[t].main in m.fibers && m.threads[t].cur in m.fibers
              && m.fibers[m.threads[t].main].id == 0
              && (OnMain(m, t) <==> m.threads[t].cur == m.threads[t].main)
              && (!OnMain(m, t) ==> m.fibers[m.threads[t].cur].id >= 1 && m.fibers[m.threads[t].cur].state == EXEC)
    ensures forall f :: f in m.fibers && m.fibers[f].id >= 1 && m.fibers[f].state == EXEC ==> Running(m, f)
    ensures forall t, u :: t in m.threads && u in m.threads && m.threads[t].cur == m.threads[u].cur ==> t == u
  {
    ReachesValid(Machine(map[], map[]), calls, m);
    forall t | t in m.threads
      ensures m.threads[t].main in m.fibers && m.threads[t].cur in m.fibers && m.fibers[m.threads[t].main].id == 0
      ensures OnMain(m, t) <==> m.threads[t].cur == m.threads[t].main
      ensures !OnMain(m, t) ==> m.fibers[m.threads[t].cur].id >= 1 && m.fibers[m.threads[t].cur].state == EXEC
    {
      GuardExact(m, t);
      RunningIs(m, t);
    }
    forall f | f in m.fibers && m.fibers[f].id >= 1 && m.fibers[f].state == EXEC ensures Running(m, f) {
      assert Running(m, f) || !Running(m, f);
    }
  }

  // ---------- How a fiber comes back ----------

  /** The operation on a main fiber that `op` asks for next: what yields is resumed,
      what holds is notified, what sleeps is awoken, what was started or awoken is
      resumed; what ended is not taken up again. */
  function TakenUpBy(op: Op): Option<Op> {
    match op
    case Yield => Some(Resume)
    case Hold => Some(Notify)
    case Sleep => Some(Awake)
    case Start => Some(Resume)
    case Awake => Some(Resume)
    case _ => None
  }

  /** The operations that go on with a fiber from the main fiber. */
  predicate TakesUp(op: Op) {
    op == Start || op == Resume || op == Notify || op == Awake
  }

  /** No call in the list is made on `f`. */
  predicate LeavesAlone(calls: seq<Call>, f: nat) {
    forall i :: 0 <= i < |calls| && calls[i].On? ==> calls[i].f != f
  }

  lemma {:induction false} RecordStays(m: Machine, calls: seq<Call>, m': Machine, f: nat)
    requires f in m.fibers && Reaches(m, calls, m') && LeavesAlone(calls, f)
    ensures f in m'.fibers && m'.fibers[f] == m.fibers[f]
    decreases |calls|
  {
    if calls != [] {
      assert !calls[0].On? || calls[0].f != f;
      RecordStays(Perform(m, calls[0]).value, calls[1..], m', f);
    }
  }

  lemma OneWayBack(op: Op, onMain: bool, s: State, next: Op, onMain': bool)
    requires Transition(op, onMain, s).Some? && TakesUp(next)
    ensures Transition(next, onMain', Transition(op, onMain, s).value).Some? <==> onMain' && TakenUpBy(op) == Some(next)
  {
  }

  /** Whatever all threads do to other fibers after an operation on one, that fiber is
      taken up by the operation stated and no other, from a main fiber; and only
      falling asleep sets its wake time. */
  lemma TakenUpExact(m: Machine, c: Call, calls: seq<Call>, m': Machine, next: Call)
    requires Possible(m, c) && c.On? && Perform(m, c).Some?
    requires Reaches(Perform(m, c).value, calls, m') && LeavesAlone(calls, c.f)
    requires Possible(m', next) && next.On? && next.f == c.f && TakesUp(next.op)
    ensures Perform(m', next).Some? <==> OnMain(m', next.t) && TakenUpBy(c.op) == Some(next.op)
    ensures m'.fibers[c.f].waketime == if c.op == Sleep then c.waketime else m.fibers[c.f].waketime
  {
    RecordStays(Perform(m, c).value, calls, m', c.f);
    OneWayBack(c.op, OnMain(m, c.t), m.fibers[c.f].state, next.op, OnMain(m', next.t));
  }

  // ---------- Numbers ----------

  /** How many children thread `t` creates. */
  function Creations(calls: seq<Call>, t: nat): nat {
    if calls == [] then 0 else (if calls[0].Create? && calls[0].t == t then 1 else 0) + Creations(calls[1..], t)
  }

  lemma {:induction false} IdsCount(m: Machine, calls: seq<Call>, m': Machine, t: nat)
    requires t in m.threads && Reaches(m, calls, m')
    ensures t in m'.threads && m'.threads[t].ids == m.threads[t].ids + Creations(calls, t)
    decreases |calls|
  {
    if calls != [] { IdsCount(Perform(m, calls[0]).value, calls[1..], m', t); }
  }

  /** From the moment a thread enters the fiber world its children are numbered
      through, from 1 on, whatever other threads create. */
  lemma ChildrenNumbered(m: Machine, t: nat, main: nat, calls: seq<Call>, m': Machine, child: nat)
    requires Possible(m, Enter(t, main)) && Reaches(Perform(m, Enter(t, main)).value, calls, m')
    requires child !in m'.fibers
    ensures t in m'.threads
    ensures Perform(m', Create(t, child)).value.fibers[child] == Record(1 + Creations(calls, t), INIT, 0)
  {
    IdsCount(Perform(m, Enter(t, main)).value, calls, m', t);
  }
}

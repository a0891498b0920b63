/** The paths of the lock order are those that the threads of the protocol take: in
    every state of every run each thread holds the locks that its path has taken and
    not yet given back, and each of its steps is at most one operation of the path. */
module LockPaths {
  import opened Prelude
  import opened Protocol
  import opened ProtocolRuns
  import L = LockOrder

  /** The grants held after the first `k` operations. */
  function HeldAfter(ops: seq<L.LockOp>, k: nat): set<L.Grant>
    requires k <= |ops|
  {
    if k == 0 then {}
    else
      match ops[k - 1]
      case Acquire(g) => HeldAfter(ops, k - 1) + {g}
      case Attempt(g) => HeldAfter(ops, k - 1) + {g}
      case Release(g) => HeldAfter(ops, k - 1) - {g}
  }

  lemma AllocatingHolds(w: nat)
    ensures var ops := L.Ops(L.Allocating(w));
            && |ops| == 4 && HeldAfter(ops, 1) == {L.Write(L.Tasks)}
            && HeldAfter(ops, 2) == {L.Write(L.Tasks), L.Write(L.Own(w))}
            && HeldAfter(ops, 3) == {L.Write(L.Tasks)} && HeldAfter(ops, 4) == {}
  {
    var ops := L.Ops(L.Allocating(w));
    assert ops[0] == L.Acquire(L.Write(L.Tasks)) && ops[1] == L.Acquire(L.Write(L.Own(w)));
    assert ops[2] == L.Release(L.Write(L.Own(w))) && ops[3] == L.Release(L.Write(L.Tasks));
    assert HeldAfter(ops, 1) == HeldAfter(ops, 0) + {L.Write(L.Tasks)};
    assert HeldAfter(ops, 2) == HeldAfter(ops, 1) + {L.Write(L.Own(w))};
    assert HeldAfter(ops, 3) == HeldAfter(ops, 2) - {L.Write(L.Own(w))};
    assert HeldAfter(ops, 4) == HeldAfter(ops, 3) - {L.Write(L.Tasks)};
  }

  lemma SectionHolds(g: L.Grant)
    ensures HeldAfter(L.Section(g), 1) == {g} && HeldAfter(L.Section(g), 2) == {}
  {
    assert HeldAfter(L.Section(g), 1) == HeldAfter(L.Section(g), 0) + {g};
    assert HeldAfter(L.Section(g), 2) == HeldAfter(L.Section(g), 1) - {g};
  }

  lemma DrainingHolds(w: nat)
    ensures var ops := L.Ops(L.Draining(w));
            |ops| == 2 && HeldAfter(ops, 1) == {L.Write(L.Own(w))} && HeldAfter(ops, 2) == {}
  {
    var ops := L.Ops(L.Draining(w));
    assert HeldAfter(ops, 1) == HeldAfter(ops, 0) + {L.Write(L.Own(w))};
    assert HeldAfter(ops, 2) == HeldAfter(ops, 1) - {L.Write(L.Own(w))};
  }

  // ---------- The allocator ----------

  /** How many operations of its path the allocator has behind it. */
  function Taken(a: AllocatorAt): nat {
    match a
    case WantWorker(_) => 1
    case Testing(_) => 2
    case Moving(_, _) => 2
    case Moved(_, _) => 2
    case Raised(_, _) => 2
    case FreeWorker(_) => 2
    case FreeQueue => 3
    case _ => 0
  }

  /** The worker its path is about; any, when it holds no worker's lock. */
  function Served(a: AllocatorAt): nat {
    if Target(a).Some? then Target(a).value else 0
  }

  lemma AllocatorFollows(n: nat, steps: seq<Step>, i: nat)
    requires i < n
    ensures var s := Run(Started(n), steps);
            var ops := L.Ops(L.Allocating(Served(s.allocator)));
            && |s.workers| == n && Taken(s.allocator) <= |ops|
            && var held := HeldAfter(ops, Taken(s.allocator));
            && (s.lock == ByAllocator <==> L.Write(L.Tasks) in held)
            && (s.workers[i].lock == Allocator <==> L.Write(L.Own(i)) in held)
  {
    var s := Run(Started(n), steps);
    ReachedSafe(n, steps, 0);
    AllocatingHolds(Served(s.allocator));
    assert WorkerLock(Locked(s.allocator), s.workers[i], i);
  }

  /** A step is no lock operation, or the next one of the path; the last one ends it. */
  lemma AllocatorOneByOne(s: System)
    requires Locks(s)
    ensures var (a, a') := (s.allocator, AllocatorStep(s).allocator);
            || Taken(a') == Taken(a) || Taken(a') == Taken(a) + 1 || (Taken(a) == 3 && Taken(a') == 0)
    ensures var (a, a') := (s.allocator, AllocatorStep(s).allocator);
            Taken(a) > 0 && Taken(a') > 0 && Target(a').Some? ==> Served(a') == Served(a)
  {
    if Target(s.allocator).Some? { ServeTouches(s, Target(s.allocator).value); }
  }

  // ---------- Submitters and workers ----------

  lemma SubmitterFollows(n: nat, steps: seq<Step>, j: nat)
    requires j in Run(Started(n), steps).submitters
    ensures var s := Run(Started(n), steps);
            var taken := if s.submitters[j].Wanting? then 0 else 1;
            s.lock == BySubmitter(j) <==> L.Write(L.Tasks) in HeldAfter(L.Ops(L.Submitting), taken)
  {
    ReachedSafe(n, steps, 0);
    SectionHolds(L.Write(L.Tasks));
  }

  lemma WorkerFollows(n: nat, steps: seq<Step>, i: nat)
    requires i < n
    ensures var s := Run(Started(n), steps);
            && |s.workers| == n && |L.Ops(L.Draining(i))| == 2
            && var taken := if s.workers[i].at == Draining then 1 else 0;
            s.workers[i].lock == Self <==> L.Write(L.Own(i)) in HeldAfter(L.Ops(L.Draining(i)), taken)
  {
    var s := Run(Started(n), steps);
    ReachedSafe(n, steps, 0);
    DrainingHolds(i);
    assert WorkerLock(Locked(s.allocator), s.workers[i], i);
  }
}

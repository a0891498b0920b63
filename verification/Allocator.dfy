/** The scheduler's own queue as `submit` and `AllocThread::run` work on it
    (sylar/scheduler.cpp), each under the queue lock: accepting a task, and one
    round of the allocator, which hands a batch to the next worker. */
module Allocators {
  import opened Prelude
  import opened Protocol
  import Fibers

  // ---------- Rounds as values ----------

  /** What the allocator sees of a worker. */
  datatype Load = Load(init: seq<nat>, count: int)

  datatype Queue = Queue(tasks: seq<nat>, count: int, k: nat, loads: seq<Load>)

  function Least(a: nat, b: nat): nat {
    if a < b then a else b
  }

  /** How many tasks one round moves. */
  function Batch(waiting: nat, count: int): nat {
    if count >= WORKER_LIMIT then 0 else Least(waiting, BATCH)
  }

  function Give(load: Load, tasks: seq<nat>): Load {
    Load(load.init + tasks, load.count + |tasks|)
  }

  /** The first `b` tasks go to worker `w`. */
  function Handed(q: Queue, w: nat, b: nat): Queue
    requires w < |q.loads| && b <= |q.tasks|
  {
    Queue(q.tasks[b..], q.count - b, q.k, q.loads[w := Give(q.loads[w], q.tasks[..b])])
  }

  /** One round. */
  function Round(q: Queue): Queue
    requires |q.loads| > 0
  {
    var w := Chosen(q.k, |q.loads|);
    Handed(q.(k := w + 1), w, Batch(|q.tasks|, q.loads[w].count))
  }

  /** A round in numbers: below 100000 tasks the next worker, round robin, gets the
      first ten waiting tasks or all there are, in order; from there on it gets none. */
  lemma RoundExact(q: Queue)
    requires |q.loads| > 0
    ensures var w := if q.k >= |q.loads| then 0 else q.k;
            var b := if q.loads[w].count >= 100000 then 0 else if |q.tasks| < 10 then |q.tasks| else 10;
            var given := Load(q.loads[w].init + q.tasks[..b], q.loads[w].count + b);
            Round(q) == Queue(q.tasks[b..], q.count - b, w + 1, q.loads[w := given])
  {
  }

  // ---------- Every worker gets its turn ----------

  /** The workers that `m` rounds serve. */
  ghost function Visits(k: nat, n: nat, m: nat): seq<nat>
    requires n > 0
    decreases m
  {
    if m == 0 then [] else [Chosen(k, n)] + Visits(Chosen(k, n) + 1, n, m - 1)
  }

  /** How many rounds come before the one that serves `w`. */
  function Wait(k: nat, n: nat, w: nat): nat
    requires w < n
  {
    var c := Chosen(k, n);
    if c <= w then w - c else n - c + w
  }

  lemma {:induction false} VisitedWithin(k: nat, n: nat, m: nat, w: nat)
    requires w < n && m <= n
    ensures multiset(Visits(k, n, m))[w] == if Wait(k, n, w) < m then 1 else 0
    decreases m
  {
    if m > 0 { VisitedWithin(Chosen(k, n) + 1, n, m - 1, w); }
  }

  /** Wherever the allocator stands, `n` consecutive rounds serve each of the `n`
      workers exactly once. */
  lemma EachExactlyOnce(k: nat, n: nat, w: nat)
    requires w < n
    ensures |Visits(k, n, n)| == n && multiset(Visits(k, n, n))[w] == 1
  {
    VisitsCount(k, n, n);
    VisitedWithin(k, n, n, w);
  }

  lemma {:induction false} VisitsCount(k: nat, n: nat, m: nat)
    requires n > 0
    ensures |Visits(k, n, m)| == m
    decreases m
  {
    if m > 0 { VisitsCount(Chosen(k, n) + 1, n, m - 1); }
  }

  // ---------- The queue shrinks ----------

  /** Before a round the workers may have finished tasks, `drops[i]` at worker
      `i`. */
  function Drop(q: Queue, drops: seq<nat>): Queue
    requires |drops| == |q.loads|
  {
    q.(loads := seq(|q.loads|, i requires 0 <= i < |q.loads| => q.loads[i].(count := q.loads[i].count - drops[i])))
  }

  ghost predicate DropsFit(drops: seq<seq<nat>>, n: nat) {
    forall j :: 0 <= j < |drops| ==> |drops[j]| == n
  }

  /** Rounds with workers finishing tasks in between, and no submit. */
  ghost function Rounds(q: Queue, drops: seq<seq<nat>>): (r: Queue)
    requires |q.loads| > 0 && DropsFit(drops, |q.loads|)
    ensures |r.tasks| <= |q.tasks|
    decreases |drops|
  {
    if drops == [] then q else Rounds(Round(Drop(q, drops[0])), drops[1..])
  }

  lemma {:induction false} ShrinksByTheVisit(q: Queue, drops: seq<seq<nat>>, w: nat)
    requires w < |q.loads| && DropsFit(drops, |q.loads|)
    requires q.tasks != [] && q.loads[w].count < WORKER_LIMIT && Wait(q.k, |q.loads|, w) < |drops|
    ensures |Rounds(q, drops).tasks| < |q.tasks|
    decreases |drops|
  {
    var q' := Round(Drop(q, drops[0]));
    if |q'.tasks| == |q.tasks| {
      assert Chosen(q.k, |q.loads|) != w;
      ShrinksByTheVisit(q', drops[1..], w);
    }
  }

  /** A queue that is not empty shrinks within as many rounds as there are
      workers, if one of them is below its limit to begin with. */
  lemma QueueShrinks(q: Queue, drops: seq<seq<nat>>, w: nat)
    requires w < |q.loads| && |drops| == |q.loads| && DropsFit(drops, |q.loads|)
    requires q.tasks != [] && q.loads[w].count < WORKER_LIMIT
    ensures |Rounds(q, drops).tasks| < |q.tasks|
  {
    ShrinksByTheVisit(q, drops, w);
  }

  /** With every worker at its limit, and none finishing a task, nothing moves:
      the condition is needed. */
  lemma {:induction false} StuckWhenFull(q: Queue, drops: seq<seq<nat>>)
    requires |q.loads| > 0 && DropsFit(drops, |q.loads|)
    requires forall i :: 0 <= i < |q.loads| ==> q.loads[i].count >= WORKER_LIMIT
    requires forall j, i :: 0 <= j < |drops| && 0 <= i < |drops[j]| ==> drops[j][i] == 0
    ensures Rounds(q, drops).tasks == q.tasks && Rounds(q, drops).loads == q.loads
    decreases |drops|
  {
    if drops != [] {
      assert Drop(q, drops[0]).loads == q.loads;
      var q' := Round(q);
      assert q'.loads == q.loads by {
        var w := Chosen(q.k, |q.loads|);
        assert q.loads[w].init + [] == q.loads[w].init;
      }
      StuckWhenFull(q', drops[1..]);
    }
  }

  // ---------- A round of the protocol ----------

  function LoadOf(w: WorkerState): Load {
    Load(w.init, w.count)
  }

  /** What the allocator sees of the whole system. */
  function QueueOf(s: System): Queue {
    Queue(s.tasks, s.count, s.k, seq(|s.workers|, i requires 0 <= i < |s.workers| => LoadOf(s.workers[i])))
  }

  /** The allocator takes `m` steps and nobody else any. */
  function Alone(s: System, m: nat): System
    decreases m
  {
    if m == 0 then s else Alone(AllocatorStep(s), m - 1)
  }

  lemma {:induction false} AloneOn(s: System, m: nat, m': nat)
    ensures Alone(s, m + m') == Alone(Alone(s, m), m')
    decreases m
  {
    if m > 0 {
      AloneOn(AllocatorStep(s), m - 1, m');
      assert m + m' - 1 == (m - 1) + m';
    }
  }

  lemma HandedOneMore(q: Queue, w: nat, b: nat)
    requires w < |q.loads| && 1 <= b <= |q.tasks|
    ensures Handed(Handed(q, w, 1), w, b - 1) == Handed(q, w, b)
  {
    assert q.tasks[..1] + q.tasks[1..][..b - 1] == q.tasks[..b] && q.tasks[1..][b - 1..] == q.tasks[b..];
    assert Give(Give(q.loads[w], q.tasks[..1]), q.tasks[1..][..b - 1]) == Give(q.loads[w], q.tasks[..b]);
  }

  lemma HandedNothing(q: Queue, w: nat)
    requires w < |q.loads|
    ensures Handed(q, w, 0) == q
  {
    assert q.loads[w].init + q.tasks[..0] == q.loads[w].init;
  }

  lemma AloneThree(s: System, s1: System, s2: System)
    requires AllocatorStep(s) == s1 && AllocatorStep(s1) == s2
    ensures Alone(s, 3) == AllocatorStep(s2)
  {
  }

  lemma TurnHands(s: System, w: nat, l: int)
    requires s.tasks != [] && w < |s.workers|
    ensures QueueOf(LowerCount(RaiseCount(MoveTask(s, w, l), w, l), w, l)) == Handed(QueueOf(s), w, 1)
  {
    assert s.tasks[..1] == [s.tasks[0]];
    assert QueueOf(RaiseCount(MoveTask(s, w, l), w, l)).loads == Handed(QueueOf(s), w, 1).loads;
  }

  /** One turn of the inner loop takes three steps. */
  lemma TurnSteps(s: System, w: nat, l: int)
    requires s.allocator == Moving(w, l) && l > 0 && s.tasks != [] && w < |s.workers|
    ensures Alone(s, 3).allocator == Moving(w, l - 1) && QueueOf(Alone(s, 3)) == Handed(QueueOf(s), w, 1)
  {
    var s1 := MoveTask(s, w, l);
    var s2 := RaiseCount(s1, w, l);
    AloneThree(s, s1, s2);
    TurnHands(s, w, l);
  }

  lemma AfterThree(s: System, m: nat)
    requires m >= 3
    ensures Alone(s, m) == Alone(Alone(s, 3), m - 3)
  {
    AloneOn(s, 3, m - 3);
  }

  lemma QueueHas(s: System)
    ensures s.tasks == QueueOf(s).tasks && |s.workers| == |QueueOf(s).loads|
  {
  }

  lemma LoopEnds(s: System, w: nat, l: nat)
    requires s.allocator == Moving(w, l) && w < |s.workers| && (s.tasks == [] || l == 0)
    ensures Alone(s, 1).allocator == FreeWorker(w) && QueueOf(Alone(s, 1)) == QueueOf(s)
  {
    assert Alone(s, 1) == AllocatorStep(s);
  }

  lemma {:induction false} LoopSteps(s: System, w: nat, l: nat)
    requires s.allocator == Moving(w, l) && w < |s.workers|
    ensures var b := Least(|s.tasks|, l);
            var s' := Alone(s, 3 * b + 1);
            s'.allocator == FreeWorker(w) && QueueOf(s') == Handed(QueueOf(s), w, b)
    decreases l
  {
    var b := Least(|s.tasks|, l);
    if b == 0 {
      LoopEnds(s, w, l);
      HandedNothing(QueueOf(s), w);
    } else {
      TurnSteps(s, w, l);
      var s1 := Alone(s, 3);
      AfterThree(s, 3 * b + 1);
      QueueHas(s1);
      LoopSteps(s1, w, l - 1);
      assert Alone(s, 3 * b + 1) == Alone(s1, 3 * (b - 1) + 1);
      HandedOneMore(QueueOf(s), w, b);
    }
  }

  lemma FirstSteps(s: System)
    requires |s.workers| > 0 && s.allocator == WantQueue && s.lock == Unlocked
    requires s.workers[Chosen(s.k, |s.workers|)].lock == Nobody
    ensures var w := Chosen(s.k, |s.workers|);
            AllocatorStep(s) == TakeQueue(s) && AllocatorStep(TakeQueue(s)) == TakeWorker(TakeQueue(s), w)
  {
  }

  lemma TestStep(s: System, w: nat)
    requires s.allocator == Testing(w) && w < |s.workers|
    ensures AllocatorStep(s) == s.(allocator := AllocatorStep(s).allocator)
    ensures AllocatorStep(s).allocator == if s.workers[w].count < WORKER_LIMIT then Moving(w, BATCH) else FreeWorker(w)
  {
  }

  lemma EnterSteps(s: System)
    requires |s.workers| > 0 && s.allocator == WantQueue && s.lock == Unlocked
    requires s.workers[Chosen(s.k, |s.workers|)].lock == Nobody
    ensures var w := Chosen(s.k, |s.workers|);
            && QueueOf(Alone(s, 3)) == QueueOf(s).(k := w + 1)
            && Alone(s, 3).allocator == if s.workers[w].count < WORKER_LIMIT then Moving(w, BATCH) else FreeWorker(w)
  {
    var w := Chosen(s.k, |s.workers|);
    var s2 := TakeWorker(TakeQueue(s), w);
    FirstSteps(s);
    AloneThree(s, TakeQueue(s), s2);
    TestStep(s2, w);
    assert QueueOf(s2).loads == QueueOf(s).loads;
  }

  lemma AloneTwo(s: System, s1: System)
    requires AllocatorStep(s) == s1
    ensures Alone(s, 2) == AllocatorStep(s1)
  {
  }

  lemma ReleaseKeepsQueue(s: System, w: nat)
    requires w < |s.workers|
    ensures QueueOf(ReleaseQueue(ReleaseWorker(s, w))) == QueueOf(s)
  {
    assert QueueOf(ReleaseWorker(s, w)).loads == QueueOf(s).loads;
  }

  lemma LeaveSteps(s: System, w: nat)
    requires s.allocator == FreeWorker(w) && w < |s.workers|
    ensures var s' := Alone(s, 2);
            QueueOf(s') == QueueOf(s) && s'.allocator == ReadStop && s'.lock == Unlocked
  {
    AloneTwo(s, ReleaseWorker(s, w));
    ReleaseKeepsQueue(s, w);
  }

  /** How many steps one round takes. */
  function RoundLength(q: Queue): nat
    requires |q.loads| > 0
  {
    if q.loads[Chosen(q.k, |q.loads|)].count < WORKER_LIMIT then 3 * Least(|q.tasks|, BATCH) + 6 else 5
  }

  lemma LeaveAfter(s: System, m: nat, w: nat)
    requires Alone(s, m).allocator == FreeWorker(w) && w < |Alone(s, m).workers|
    ensures var s' := Alone(s, m + 2);
            QueueOf(s') == QueueOf(Alone(s, m)) && s'.allocator == ReadStop && s'.lock == Unlocked
  {
    AloneOn(s, m, 2);
    LeaveSteps(Alone(s, m), w);
  }

  lemma BusyRound(s: System, w: nat)
    requires s.allocator == Moving(w, BATCH) && w < |s.workers|
    ensures var b := Least(|QueueOf(s).tasks|, BATCH);
            var s' := Alone(s, 3 * b + 1 + 2);
            QueueOf(s') == Handed(QueueOf(s), w, b) && s'.allocator == ReadStop && s'.lock == Unlocked
  {
    var m := 3 * Least(|s.tasks|, BATCH) + 1;
    LoopSteps(s, w, BATCH);
    assert |Alone(s, m).workers| == |QueueOf(Alone(s, m)).loads|;
    LeaveAfter(s, m, w);
  }

  lemma FullRound(s: System, w: nat)
    requires s.allocator == FreeWorker(w) && w < |s.workers|
    ensures var s' := Alone(s, 2);
            QueueOf(s') == Handed(QueueOf(s), w, 0) && s'.allocator == ReadStop && s'.lock == Unlocked
  {
    LeaveSteps(s, w);
    HandedNothing(QueueOf(s), w);
  }

  lemma RestOfRound(s: System, q: Queue, w: nat, m: nat)
    requires |q.loads| > 0 && w == Chosen(q.k, |q.loads|) && m == RoundLength(q) - 3
    requires QueueOf(s) == q.(k := w + 1)
    requires s.allocator == if q.loads[w].count < WORKER_LIMIT then Moving(w, BATCH) else FreeWorker(w)
    ensures QueueOf(Alone(s, m)) == Round(q) && Alone(s, m).allocator == ReadStop && Alone(s, m).lock == Unlocked
  {
    assert w < |QueueOf(s).loads|;
    if s.allocator.Moving? { BusyRound(s, w); } else { FullRound(s, w); }
  }

  /** Undisturbed, the steps of the protocol between taking and releasing the
      queue lock are the round of the value model. */
  lemma RoundOfTheProtocol(s: System)
    requires |s.workers| > 0 && s.allocator == WantQueue && s.lock == Unlocked
    requires s.workers[Chosen(s.k, |s.workers|)].lock == Nobody
    ensures var s' := Alone(s, RoundLength(QueueOf(s)));
            QueueOf(s') == Round(QueueOf(s)) && s'.allocator == ReadStop && s'.lock == Unlocked
  {
    var w := Chosen(s.k, |s.workers|);
    var m := RoundLength(QueueOf(s));
    EnterSteps(s);
    AfterThree(s, m);
    RestOfRound(Alone(s, 3), QueueOf(s), w, m - 3);
  }

  // ---------- The objects ----------

  datatype Submission = Ignored | Accepted | Refused | Aborted

  /** The fields of a worker that the allocator writes. */
  class Inbox {
    var init: seq<nat>
    var count: int

    constructor ()
      ensures init == [] && count == 0
    {
      init, count := [], 0;
    }
  }

  class Scheduler {
    var tasks: seq<nat>
    var count: int
    var stop: bool
    var k: nat
    const workers: seq<Inbox>

    constructor (workers: seq<Inbox>)
      requires forall i, j :: 0 <= i < j < |workers| ==> workers[i] != workers[j]
      ensures this.workers == workers && Valid() && tasks == [] && count == 0 && k == 0 && !stop
    {
      this.workers := workers;
      tasks, count, k, stop := [], 0, 0, false;
    }

    ghost predicate Valid() {
      forall i, j :: 0 <= i < j < |workers| ==> workers[i] != workers[j]
    }

    ghost function View(): Queue
      reads this, workers
    {
      Queue(tasks, count, k, seq(|workers|, i requires 0 <= i < |workers| reads workers =>
                                              Load(workers[i].init, workers[i].count)))
    }

    /** `t` is dropped when the scheduler has stopped: if that is the last reference
        to its fiber (`last`), the destructor looks at the fiber's state. When the
        queue is full the fiber is destroyed, which only a main fiber may do, and
        may then be dropped. What only a main fiber may do aborts on a child. */
    method Submit(t: nat, onMain: bool, last: bool, state: Fibers.State) returns (r: Submission)
      modifies this`tasks, this`count
      ensures r == if stop then
                     (var over := state == Fibers.DESTROY || state == Fibers.EXCEPT;
                      if last && !(onMain && over) then Aborted else Ignored)
                   else if |old(tasks)| < 10000 then Accepted
                   else if onMain then Refused else Aborted
      ensures r == Accepted ==> tasks == old(tasks) + [t] && count == old(count) + 1
      ensures r != Accepted ==> tasks == old(tasks) && count == old(count)
      ensures old(|tasks| <= 10000 && count == |tasks|) ==> |tasks| <= 10000 && count == |tasks|
    {
      if stop {
        return if last && !Fibers.Destructible(onMain, state) then Aborted else Ignored;
      }
      if |tasks| < QUEUE_LIMIT {
        tasks := tasks + [t];
        count := count + 1;
        r := Accepted;
      } else {
        r := if onMain then Refused else Aborted;
      }
    }

    /** The batch, task by task. */
    method HandOver(woker: Inbox)
      modifies this`tasks, this`count, woker
      ensures var b := if old(woker.count) >= 100000 then 0 else if |old(tasks)| < 10 then |old(tasks)| else 10;
              && b == Batch(|old(tasks)|, old(woker.count)) && tasks == old(tasks)[b..] && count == old(count) - b
              && woker.init == old(woker.init) + old(tasks)[..b] && woker.count == old(woker.count) + b
    {
      if woker.count < WORKER_LIMIT {
        var l := BATCH;
        ghost var moved := 0;
        while tasks != [] && l > 0
          invariant 0 <= l <= BATCH && moved == BATCH - l <= |old(tasks)|
          invariant tasks == old(tasks)[moved..] && count == old(count) - moved
          invariant woker.init == old(woker.init) + old(tasks)[..moved] && woker.count == old(woker.count) + moved
        {
          var task := tasks[0];
          assert old(tasks)[..moved + 1] == old(tasks)[..moved] + [task];
          tasks := tasks[1..];
          woker.init := woker.init + [task];
          woker.count := woker.count + 1;
          count := count - 1;
          l := l - 1;
          moved := moved + 1;
        }
      }
    }

    /** One round of the allocator's loop. */
    method Allocate()
      requires Valid()
      modifies this`tasks, this`count, this`k, workers
      ensures |workers| > 0 ==> View() == Round(old(View()))
      ensures |workers| == 0 ==> View() == old(View())
    {
      if |workers| == 0 {
        return;
      }
      if k >= |workers| {
        k := 0;
      }
      var i := k;
      var woker := workers[i];
      k := k + 1;
      HandOver(woker);
      forall j | 0 <= j < |workers| && j != i ensures workers[j] != woker {
      }
      assert View().loads == Round(old(View())).loads;
    }
  }
}

/** One pass of `WokerThread::run` (sylar/scheduler.cpp) over the four queues of
    a worker, with the loops as they are written. What the user code of a fiber
    does until it gives control back is an outcome handed in from outside. */
module Workers {
  import opened Prelude
  import opened Fibers
  import opened SleepQueues

  /** The state a fiber comes back in, and its wake time if it went to sleep. */
  datatype Outcome = Outcome(state: State, waketime: u64) {
    predicate Possible() {
      state == READY || state == HOLD || state == SLEEP || state == DESTROY || state == EXCEPT
    }

    function Apply(f: Fields): Fields {
      Fields(state, if state == SLEEP then waketime else f.waketime)
    }
  }

  /** The held tasks that come back ready, and those that stay. */
  function Released(hold: seq<nat>, outcome: nat -> Outcome): seq<nat> {
    if hold == [] then []
    else
      var last := |hold| - 1;
      Released(hold[..last], outcome) + if outcome(hold[last]).state == READY then [hold[last]] else []
  }

  function Kept(hold: seq<nat>, outcome: nat -> Outcome): seq<nat> {
    if hold == [] then []
    else
      var last := |hold| - 1;
      Kept(hold[..last], outcome) + if outcome(hold[last]).state == READY then [] else [hold[last]]
  }

  lemma CountLast(s: seq<nat>, x: nat, t: nat)
    ensures multiset(s + [x])[t] == multiset(s)[t] + if x == t then 1 else 0
  {
  }

  lemma {:induction false} ReleasedOrKept(hold: seq<nat>, outcome: nat -> Outcome, t: nat)
    ensures multiset(Released(hold, outcome))[t] == if outcome(t).state == READY then multiset(hold)[t] else 0
    ensures multiset(Kept(hold, outcome))[t] == if outcome(t).state == READY then 0 else multiset(hold)[t]
    decreases |hold|
  {
    if hold != [] {
      var front, u := hold[..|hold| - 1], hold[|hold| - 1];
      ReleasedOrKept(front, outcome, t);
      assert hold == front + [u];
      CountLast(front, u, t);
      if outcome(u).state == READY {
        CountLast(Released(front, outcome), u, t);
        assert Kept(hold, outcome) == Kept(front, outcome);
      } else {
        CountLast(Kept(front, outcome), u, t);
        assert Released(hold, outcome) == Released(front, outcome);
      }
    }
  }

  /** The four queues and the fibers as values. */
  datatype Queues = Queues(init: seq<nat>, ready: multiset<nat>, sleep: seq<nat>, hold: seq<nat>, fibers: FiberMap)

  function Held(q: Queues): multiset<nat> {
    multiset(q.init) + q.ready + multiset(q.sleep) + multiset(q.hold)
  }

  /** A task is in at most one queue, and its fiber is in that queue's state. */
  predicate TaskAgrees(q: Queues, t: nat) {
    && multiset(q.init)[t] + q.ready[t] + multiset(q.sleep)[t] + multiset(q.hold)[t] <= 1
    && (multiset(q.init)[t] > 0 ==> t in q.fibers && q.fibers[t].state == INIT)
    && (q.ready[t] > 0 ==> t in q.fibers && q.fibers[t].state == READY)
    && (multiset(q.sleep)[t] > 0 ==> t in q.fibers && q.fibers[t].state == SLEEP)
    && (multiset(q.hold)[t] > 0 ==> t in q.fibers && q.fibers[t].state == HOLD)
  }

  /** Every queue holds fibers in its own state, no task is in two places, and
      the sleeping tasks form a heap. */
  ghost predicate Agree(q: Queues) {
    && (forall t {:trigger TaskAgrees(q, t)} :: TaskAgrees(q, t))
    && IsHeap(q.fibers, q.sleep)
  }

  /** Changing the fiber of a task that does not sleep keeps the heap. */
  lemma HeapKept(q: Queues, t: nat, f: Fields)
    requires Agree(q) && t in q.fibers && (t in multiset(q.sleep) ==> f.waketime == q.fibers[t].waketime)
    ensures IsHeap(q.fibers[t := f], q.sleep)
  {
    forall i | 0 <= i < |q.sleep| ensures q.fibers[t := f][q.sleep[i]].waketime == q.fibers[q.sleep[i]].waketime {
      assert q.sleep[i] in multiset(q.sleep);
    }
    HeapSurvives(q.fibers, q.fibers[t := f], q.sleep);
  }

  /** The first initial task, started. */
  function StartFirst(q: Queues): Queues
    requires q.init != [] && q.init[0] in q.fibers
  {
    var t := q.init[0];
    q.(init := q.init[1..], ready := q.ready + multiset{t}, fibers := q.fibers[t := q.fibers[t].(state := READY)])
  }

  lemma StartKeepsAgreement(q: Queues)
    requires Agree(q) && q.init != []
    ensures q.init[0] in q.fibers && q.fibers[q.init[0]].state == INIT
    ensures Agree(StartFirst(q)) && Held(StartFirst(q)) == Held(q)
    ensures StartFirst(q).ready + multiset(StartFirst(q).init) == q.ready + multiset(q.init)
  {
    var t := q.init[0];
    assert q.init == [t] + q.init[1..];
    assert TaskAgrees(q, t);
    var q' := StartFirst(q);
    HeapKept(q, t, q'.fibers[t]);
    forall u ensures TaskAgrees(q', u) { assert TaskAgrees(q, u); }
  }

  /** The sleeper on top, woken; `sleep` is the heap without it. */
  function WakeFirst(q: Queues, sleep: seq<nat>): Queues
    requires q.sleep != [] && q.sleep[0] in q.fibers
  {
    var t := q.sleep[0];
    q.(sleep := sleep, ready := q.ready + multiset{t}, fibers := q.fibers[t := q.fibers[t].(state := READY)])
  }

  lemma WakeKeepsHeap(q: Queues)
    requires Agree(q) && q.sleep != []
    ensures q.sleep[0] in q.fibers && q.fibers[q.sleep[0]].state == SLEEP
    ensures IsHeap(WakeFirst(q, q.sleep).fibers, q.sleep)
  {
    var t := q.sleep[0];
    assert t in multiset(q.sleep) && TaskAgrees(q, t);
    HeapKept(q, t, q.fibers[t].(state := READY));
  }

  lemma WakeKeepsAgreement(q: Queues, sleep: seq<nat>)
    requires Agree(q) && q.sleep != [] && q.sleep[0] in q.fibers
    requires IsHeap(WakeFirst(q, sleep).fibers, sleep) && multiset(sleep) == multiset(q.sleep) - multiset{q.sleep[0]}
    ensures Agree(WakeFirst(q, sleep)) && Held(WakeFirst(q, sleep)) == Held(q)
  {
    var t := q.sleep[0];
    var q' := WakeFirst(q, sleep);
    assert t in multiset(q.sleep) && TaskAgrees(q, t);
    forall u ensures TaskAgrees(q', u) { assert TaskAgrees(q, u); }
  }

  /** The held task at `at`, notified and back with outcome `o`. */
  function NotifyAt(q: Queues, at: nat, o: Outcome): Queues
    requires at < |q.hold| && q.hold[at] in q.fibers
  {
    var t := q.hold[at];
    var fibers := q.fibers[t := o.Apply(q.fibers[t])];
    if o.state == READY then
      q.(ready := q.ready + multiset{t}, hold := q.hold[..at] + q.hold[at + 1..], fibers := fibers)
    else q.(fibers := fibers)
  }

  /** All held tasks, each notified once. */
  ghost function Notified(q: Queues, outcome: nat -> Outcome): Queues {
    q.(ready := q.ready + multiset(Released(q.hold, outcome)),
       hold := Kept(q.hold, outcome),
       fibers := map t | t in q.fibers :: if t in q.hold then outcome(t).Apply(q.fibers[t]) else q.fibers[t])
  }

  /** The fiber of `t` when the first `i` held tasks have been notified. */
  predicate FiberNotified(q0: Queues, q: Queues, outcome: nat -> Outcome, i: nat, t: nat)
    requires i <= |q0.hold|
  {
    && t in q0.fibers && t in q.fibers
    && q.fibers[t] == if t in q0.hold[..i] then outcome(t).Apply(q0.fibers[t]) else q0.fibers[t]
  }

  /** The loop over the held tasks has notified the first `i` of `q0`, and `at`
      of them have stayed. */
  ghost predicate NotifiedUpTo(q0: Queues, q: Queues, outcome: nat -> Outcome, at: nat, i: nat) {
    && i <= |q0.hold| && q.init == q0.init && q.sleep == q0.sleep
    && |Kept(q0.hold[..i], outcome)| == at && q.hold == Kept(q0.hold[..i], outcome) + q0.hold[i..]
    && q.ready == q0.ready + multiset(Released(q0.hold[..i], outcome))
    && q.fibers.Keys == q0.fibers.Keys
    && (forall t {:trigger FiberNotified(q0, q, outcome, i, t)} ::
          t in q0.fibers ==> FiberNotified(q0, q, outcome, i, t))
  }

  lemma NotYetNotified(q: Queues, i: nat)
    requires Agree(q) && i < |q.hold|
    ensures q.hold[i] !in q.hold[..i] && q.hold[i] in q.fibers && q.fibers[q.hold[i]].state == HOLD
  {
    var t := q.hold[i];
    assert q.hold == q.hold[..i] + [t] + q.hold[i + 1..];
    assert TaskAgrees(q, t);
    assert multiset(q.hold)[t] == multiset(q.hold[..i])[t] + 1 + multiset(q.hold[i + 1..])[t];
  }

  /** The list arithmetic of one step: the task behind the kept ones is taken
      out or stays. */
  lemma HoldStep(kept: seq<nat>, t: nat, rest: seq<nat>)
    ensures var hold := kept + ([t] + rest);
            && hold[|kept|] == t
            && hold[..|kept|] + hold[|kept| + 1..] == kept + rest
            && hold == (kept + [t]) + rest
  {
  }

  lemma FirstAndOne(hold: seq<nat>, i: nat)
    requires i < |hold|
    ensures hold[..i + 1][..i] == hold[..i] && hold[..i + 1][i] == hold[i] && hold[i..] == [hold[i]] + hold[i + 1..]
    ensures forall u :: u in hold[..i + 1] <==> u in hold[..i] || u == hold[i]
  {
    assert hold[..i + 1] == hold[..i] + [hold[i]];
  }

  /** The task to be notified next. */
  lemma NotifyNext(q0: Queues, q: Queues, outcome: nat -> Outcome, at: nat, i: nat)
    requires Agree(q0) && NotifiedUpTo(q0, q, outcome, at, i) && i < |q0.hold|
    ensures at < |q.hold| && q.hold[at] == q0.hold[i] && q.hold[at] in q.fibers && q.hold[at] in q0.fibers
    ensures q.fibers[q.hold[at]] == q0.fibers[q.hold[at]] && q.fibers[q.hold[at]].state == HOLD
  {
    NotYetNotified(q0, i);
    FirstAndOne(q0.hold, i);
    assert FiberNotified(q0, q, outcome, i, q0.hold[i]);
  }

  lemma NotifyFibers(q0: Queues, q: Queues, outcome: nat -> Outcome, at: nat, i: nat)
    requires Agree(q0) && NotifiedUpTo(q0, q, outcome, at, i) && i < |q0.hold|
    requires at < |q.hold| && q.hold[at] == q0.hold[i] && q.hold[at] in q.fibers
    ensures var q' := NotifyAt(q, at, outcome(q.hold[at]));
            q'.fibers.Keys == q0.fibers.Keys &&
            forall t {:trigger FiberNotified(q0, q', outcome, i + 1, t)} ::
              t in q0.fibers ==> FiberNotified(q0, q', outcome, i + 1, t)
  {
    var q' := NotifyAt(q, at, outcome(q.hold[at]));
    NotifyNext(q0, q, outcome, at, i);
    FirstAndOne(q0.hold, i);
    forall t {:trigger FiberNotified(q0, q', outcome, i + 1, t)} | t in q0.fibers
      ensures FiberNotified(q0, q', outcome, i + 1, t)
    {
      assert FiberNotified(q0, q, outcome, i, t);
    }
  }

  lemma OneMoreNotified(hold: seq<nat>, outcome: nat -> Outcome, i: nat)
    requires i < |hold|
    ensures var back := outcome(hold[i]).state == READY;
            && Kept(hold[..i + 1], outcome) == Kept(hold[..i], outcome) + (if back then [] else [hold[i]])
            && Released(hold[..i + 1], outcome) == Released(hold[..i], outcome) + (if back then [hold[i]] else [])
  {
    FirstAndOne(hold, i);
  }

  lemma NotifyLists(q0: Queues, q: Queues, outcome: nat -> Outcome, at: nat, i: nat)
    requires NotifiedUpTo(q0, q, outcome, at, i) && i < |q0.hold|
    requires at < |q.hold| && q.hold[at] == q0.hold[i] && q.hold[at] in q.fibers
    ensures var o := outcome(q.hold[at]);
            var q' := NotifyAt(q, at, o);
            var kept := Kept(q0.hold[..i + 1], outcome);
            && |kept| == (if o.state == READY then at else at + 1) && q'.hold == kept + q0.hold[i + 1..]
            && q'.ready == q0.ready + multiset(Released(q0.hold[..i + 1], outcome))
            && q'.init == q0.init && q'.sleep == q0.sleep
  {
    FirstAndOne(q0.hold, i);
    OneMoreNotified(q0.hold, outcome, i);
    var kept, t := Kept(q0.hold[..i], outcome), q0.hold[i];
    HoldStep(kept, t, q0.hold[i + 1..]);
    var released := Released(q0.hold[..i], outcome);
    assert kept + [] == kept && multiset(released + [t]) == multiset(released) + multiset{t};
  }

  lemma NotifyStep(q0: Queues, q: Queues, outcome: nat -> Outcome, at: nat, i: nat)
    requires Agree(q0) && NotifiedUpTo(q0, q, outcome, at, i) && i < |q0.hold|
    requires at < |q.hold| && q.hold[at] == q0.hold[i] && q.hold[at] in q.fibers
    ensures var o := outcome(q.hold[at]);
            NotifiedUpTo(q0, NotifyAt(q, at, o), outcome, if o.state == READY then at else at + 1, i + 1)
  {
    NotifyLists(q0, q, outcome, at, i);
    NotifyFibers(q0, q, outcome, at, i);
  }

  lemma NotifiedThrough(q0: Queues, q: Queues, outcome: nat -> Outcome, at: nat)
    requires NotifiedUpTo(q0, q, outcome, at, |q0.hold|)
    ensures q == Notified(q0, outcome)
  {
    assert q0.hold[..|q0.hold|] == q0.hold;
    forall t | t in q0.fibers ensures q.fibers[t] == Notified(q0, outcome).fibers[t] {
      assert FiberNotified(q0, q, outcome, |q0.hold|, t);
    }
    assert q.fibers == Notified(q0, outcome).fibers;
  }

  lemma NotifiedNone(q: Queues, outcome: nat -> Outcome)
    ensures NotifiedUpTo(q, q, outcome, 0, 0)
  {
    assert q.hold[0..] == q.hold && q.hold[..0] == [];
  }

  /** The counts and the fiber behind `t` once all held tasks are notified. */
  lemma NotifiedCounts(q: Queues, outcome: nat -> Outcome, t: nat)
    ensures var q' := Notified(q, outcome);
            var back := outcome(t).state == READY;
            && multiset(q'.init)[t] == multiset(q.init)[t] && multiset(q'.sleep)[t] == multiset(q.sleep)[t]
            && q'.ready[t] == q.ready[t] + (if back then multiset(q.hold)[t] else 0)
            && multiset(q'.hold)[t] == (if back then 0 else multiset(q.hold)[t])
            && (t in q'.fibers <==> t in q.fibers)
            && (t in q.fibers ==>
                  q'.fibers[t].state == if multiset(q.hold)[t] > 0 then outcome(t).state else q.fibers[t].state)
  {
    ReleasedOrKept(q.hold, outcome, t);
    assert t in q.hold <==> multiset(q.hold)[t] > 0;
  }

  lemma NotifiedTask(q: Queues, outcome: nat -> Outcome, t: nat)
    requires TaskAgrees(q, t)
    ensures var q' := Notified(q, outcome);
            && Held(q')[t] == Held(q)[t]
            && (TaskAgrees(q', t) <==>
                (multiset(q.hold)[t] > 0 ==> outcome(t).state == READY || outcome(t).state == HOLD))
  {
    NotifiedCounts(q, outcome, t);
  }

  lemma NotifiedKeepsHeap(q: Queues, outcome: nat -> Outcome)
    requires Agree(q)
    ensures IsHeap(Notified(q, outcome).fibers, q.sleep)
  {
    var q' := Notified(q, outcome);
    forall i | 0 <= i < |q.sleep|
      ensures q.sleep[i] in q'.fibers && q'.fibers[q.sleep[i]].waketime == q.fibers[q.sleep[i]].waketime
    {
      assert q.sleep[i] in multiset(q.sleep) && TaskAgrees(q, q.sleep[i]);
      assert q.sleep[i] !in multiset(q.hold);
    }
    HeapSurvives(q.fibers, q'.fibers, q.sleep);
  }

  /** Notifying keeps every task, and keeps the agreement iff every notified
      fiber comes back ready or holding again: any other stays in the hold queue
      in a state the next notify asserts against. */
  lemma NotifiedExact(q: Queues, outcome: nat -> Outcome)
    requires Agree(q)
    ensures Held(Notified(q, outcome)) == Held(q)
    ensures Agree(Notified(q, outcome)) <==>
            forall t :: t in q.hold ==> outcome(t).state == READY || outcome(t).state == HOLD
  {
    var q' := Notified(q, outcome);
    forall t
      ensures Held(q')[t] == Held(q)[t]
      ensures TaskAgrees(q', t) <==> (t in q.hold ==> outcome(t).state == READY || outcome(t).state == HOLD)
    {
      assert TaskAgrees(q, t);
      assert t in q.hold <==> multiset(q.hold)[t] > 0;
      NotifiedTask(q, outcome, t);
    }
    NotifiedKeepsHeap(q, outcome);
  }

  /** A ready task that has run and is back with outcome `o`; `sleep` is the heap
      afterwards. A fiber that ended, either way, is in no queue any more. */
  function Ran(q: Queues, t: nat, o: Outcome, sleep: seq<nat>): Queues
    requires t in q.fibers
  {
    var ready := q.ready - multiset{t};
    Queues(q.init, if o.state == READY then ready + multiset{t} else ready,
           sleep, if o.state == HOLD then q.hold + [t] else q.hold,
           q.fibers[t := o.Apply(q.fibers[t])])
  }

  lemma RanKeepsHeap(q: Queues, t: nat, o: Outcome)
    requires Agree(q) && t in q.ready
    ensures t in q.fibers && q.fibers[t].state == READY && IsHeap(Ran(q, t, o, q.sleep).fibers, q.sleep)
  {
    assert TaskAgrees(q, t);
    HeapKept(q, t, o.Apply(q.fibers[t]));
  }

  lemma RanTask(q: Queues, t: nat, o: Outcome, sleep: seq<nat>, u: nat)
    requires TaskAgrees(q, t) && TaskAgrees(q, u) && q.ready[t] > 0 && t in q.fibers && o.Possible()
    requires multiset(sleep)[u] == multiset(q.sleep)[u] + if o.state == SLEEP && u == t then 1 else 0
    ensures TaskAgrees(Ran(q, t, o, sleep), u)
    ensures Held(Ran(q, t, o, sleep))[u] ==
            Held(q)[u] - if u == t && (o.state == DESTROY || o.state == EXCEPT) then 1 else 0
  {
    assert multiset(q.hold + [t])[u] == multiset(q.hold)[u] + if u == t then 1 else 0;
  }

  lemma SameCounts(a: multiset<nat>, b: multiset<nat>)
    requires forall u :: a[u] == b[u]
    ensures a == b
  {
  }

  lemma RanHeld(q: Queues, t: nat, o: Outcome, sleep: seq<nat>, u: nat)
    requires TaskAgrees(q, t) && TaskAgrees(q, u) && q.ready[t] > 0 && t in q.fibers && o.Possible()
    requires multiset(sleep)[u] == multiset(q.sleep)[u] + if o.state == SLEEP && u == t then 1 else 0
    ensures Held(Ran(q, t, o, sleep))[u] ==
            (Held(q) - if o.state == DESTROY || o.state == EXCEPT then multiset{t} else multiset{})[u]
  {
    RanTask(q, t, o, sleep, u);
  }

  lemma RanKeepsTasks(q: Queues, t: nat, o: Outcome, sleep: seq<nat>)
    requires Agree(q) && t in q.ready && t in q.fibers && o.Possible()
    requires multiset(sleep) == multiset(q.sleep) + if o.state == SLEEP then multiset{t} else multiset{}
    ensures Held(Ran(q, t, o, sleep)) ==
            Held(q) - if o.state == DESTROY || o.state == EXCEPT then multiset{t} else multiset{}
  {
    var held := Held(q) - if o.state == DESTROY || o.state == EXCEPT then multiset{t} else multiset{};
    forall u ensures Held(Ran(q, t, o, sleep))[u] == held[u] {
      assert TaskAgrees(q, t) && TaskAgrees(q, u);
      RanHeld(q, t, o, sleep, u);
    }
    SameCounts(Held(Ran(q, t, o, sleep)), held);
  }

  lemma RanKeepsAgreement(q: Queues, t: nat, o: Outcome, sleep: seq<nat>)
    requires Agree(q) && t in q.ready && t in q.fibers && o.Possible()
    requires IsHeap(Ran(q, t, o, sleep).fibers, sleep)
    requires multiset(sleep) == multiset(q.sleep) + if o.state == SLEEP then multiset{t} else multiset{}
    ensures Agree(Ran(q, t, o, sleep))
  {
    forall u ensures TaskAgrees(Ran(q, t, o, sleep), u) {
      assert TaskAgrees(q, t) && TaskAgrees(q, u);
      RanTask(q, t, o, sleep, u);
    }
  }

  lemma TopIsEarliest(q: Queues)
    requires Agree(q) && q.sleep != []
    ensures forall u :: u in q.sleep ==>
              u in q.fibers && q.sleep[0] in q.fibers && q.fibers[q.sleep[0]].waketime <= q.fibers[u].waketime
  {
    forall u | u in q.sleep ensures u in q.fibers && q.fibers[q.sleep[0]].waketime <= q.fibers[u].waketime {
      var k :| 0 <= k < |q.sleep| && q.sleep[k] == u;
      RootIsEarliest(q.fibers, q.sleep, k);
    }
  }

  lemma NothingAppended(hold: seq<nat>)
    ensures hold + [] == hold
  {
  }

  lemma SizeAfter(tasks: multiset<nat>, t: nat, ended: bool)
    requires t in tasks
    ensures |tasks - if ended then multiset{t} else multiset{}| == |tasks| - if ended then 1 else 0
  {
  }

  class Worker {
    var count: int
    var init: seq<nat>
    /** A priority queue with a randomised comparator: any element may be on
        top. */
    var ready: multiset<nat>
    const sleep: SleepQueue
    var hold: seq<nat>
    /** The fields of the fibers behind the tasks. */
    var fibers: FiberMap

    constructor ()
      ensures fresh(sleep) && Agree(View()) && Held(View()) == multiset{} && count == 0
    {
      count, init, ready, hold, fibers := 0, [], multiset{}, [], map[];
      sleep := new SleepQueue();
    }

    ghost function View(): Queues
      reads this, sleep
    {
      Queues(init, ready, sleep.items, hold, fibers)
    }

    /** The tasks handed over by the allocator are started. */
    method DrainInit()
      requires Agree(View())
      modifies this`init, this`ready, this`fibers
      ensures Agree(View()) && Held(View()) == old(Held(View()))
      ensures init == [] && ready == old(ready + multiset(init))
    {
      while init != []
        invariant Agree(View()) && Held(View()) == old(Held(View()))
        invariant ready + multiset(init) == old(ready + multiset(init))
      {
        ghost var q := View();
        StartKeepsAgreement(q);
        StartNext();
      }
    }

    /** `Fiber::start` asserts the state it finds. */
    method StartNext()
      requires init != [] && init[0] in fibers && fibers[init[0]].state == INIT
      modifies this`init, this`ready, this`fibers
      ensures View() == StartFirst(old(View()))
    {
      var task := init[0];
      init := init[1..];
      fibers := fibers[task := fibers[task].(state := READY)];
      ready := ready + multiset{task};
    }

    /** `Fiber::awake` asserts the state it finds; the task leaves the heap after
        it has been made ready. */
    method WakeTop() returns (task: nat)
      requires sleep.items != [] && sleep.items[0] in fibers && fibers[sleep.items[0]].state == SLEEP
      requires IsHeap(WakeFirst(View(), sleep.items).fibers, sleep.items)
      modifies this`ready, this`fibers, sleep
      ensures task == old(sleep.items[0]) && View() == WakeFirst(old(View()), sleep.items)
      ensures IsHeap(fibers, sleep.items) && multiset(sleep.items) == old(multiset(sleep.items)) - multiset{task}
    {
      task := sleep.items[0];
      fibers := fibers[task := fibers[task].(state := READY)];
      ready := ready + multiset{task};
      var top := sleep.Pop(fibers);
    }

    /** The sleepers whose wake time has passed are woken, earliest first, and
        no others. */
    method WakeSleepers(now: u64) returns (woken: seq<nat>)
      requires Agree(View())
      modifies this`ready, this`fibers, sleep
      ensures Agree(View()) && Held(View()) == old(Held(View()))
      ensures WokenUpTo(old(View()), View(), woken)
      ensures forall t :: t in woken ==> t in fibers && fibers[t].waketime < now
      ensures forall t :: t in sleep.items ==> t in fibers && now <= fibers[t].waketime
    {
      woken := [];
      while sleep.items != []
        invariant Agree(View()) && Held(View()) == old(Held(View()))
        invariant WokenUpTo(old(View()), View(), woken)
        invariant forall t :: t in woken ==> t in fibers && fibers[t].waketime < now
        decreases |multiset(sleep.items)|
      {
        ghost var q := View();
        TopIsEarliest(q);
        WakeKeepsHeap(q);
        if fibers[sleep.items[0]].waketime < now {
          var task := WakeTop();
          WakeKeepsAgreement(q, sleep.items);
          WokenOneMore(old(View()), q, sleep.items, woken);
          woken := woken + [task];
        } else {
          break;
        }
      }
    }

    method NotifyOne(at: nat, o: Outcome)
      requires at < |hold| && hold[at] in fibers && fibers[hold[at]].state == HOLD
      modifies this`ready, this`hold, this`fibers
      ensures View() == NotifyAt(old(View()), at, o)
    {
      var task := hold[at];
      fibers := fibers[task := o.Apply(fibers[task])];
      if fibers[task].state == READY {
        ready := ready + multiset{task};
        hold := hold[..at] + hold[at + 1..];
      }
    }

    /** Every held fiber is notified once; those that come back ready move on. */
    method NotifyHeld(outcome: nat -> Outcome)
      requires Agree(View())
      modifies this`ready, this`hold, this`fibers
      ensures View() == Notified(old(View()), outcome)
      ensures Held(View()) == old(Held(View()))
      ensures Agree(View()) <==> forall t :: t in old(hold) ==> outcome(t).state == READY || outcome(t).state == HOLD
    {
      ghost var q0 := View();
      var n := |hold|;
      var i, at := 0, 0;
      NotifiedNone(q0, outcome);
      while i < n
        invariant 0 <= i <= n == |q0.hold| && NotifiedUpTo(q0, View(), outcome, at, i)
      {
        at := NotifyTurn(q0, outcome, at, i);
        i := i + 1;
      }
      NotifiedThrough(q0, View(), outcome, at);
      NotifiedExact(q0, outcome);
    }

    /** One turn of the loop over the held tasks; the iterator steps on unless its
        task has been erased. */
    method NotifyTurn(ghost q0: Queues, outcome: nat -> Outcome, at: nat, ghost i: nat) returns (next: nat)
      requires Agree(q0) && NotifiedUpTo(q0, View(), outcome, at, i) && i < |q0.hold|
      modifies this`ready, this`hold, this`fibers
      ensures NotifiedUpTo(q0, View(), outcome, next, i + 1)
    {
      NotifyNext(q0, View(), outcome, at, i);
      NotifyStep(q0, View(), outcome, at, i);
      var o := outcome(hold[at]);
      NotifyOne(at, o);
      next := if o.state == READY then at else at + 1;
    }

    /** Runs one ready task, if there is any, until it gives control back. */
    method RunOne(o: Outcome) returns (ran: Option<nat>)
      requires Agree(View()) && o.Possible()
      modifies this`ready, this`hold, this`fibers, this`count, sleep
      ensures Agree(View())
      ensures ran.None? <==> old(ready) == multiset{}
      ensures ran.None? ==> View() == old(View()) && count == old(count)
      ensures ran.Some? ==>
                && ran.value in old(ready) && ran.value in old(fibers)
                && View() == Ran(old(View()), ran.value, o, sleep.items)
                && multiset(sleep.items) ==
                   old(multiset(sleep.items)) + (if o.state == SLEEP then multiset{ran.value} else multiset{})
                && (var ended := o.state == DESTROY || o.state == EXCEPT;
                    && Held(View()) == old(Held(View())) - (if ended then multiset{ran.value} else multiset{})
                    && count == old(count) - (if ended then 1 else 0))
    {
      if ready == multiset{} {
        return None;
      }
      ghost var q := View();
      var task :| task in ready;
      RanKeepsHeap(q, task, o);
      Switch(task, o);
      RanKeepsTasks(q, task, o, sleep.items);
      RanKeepsAgreement(q, task, o, sleep.items);
      ran := Some(task);
    }

    /** `Fiber::resume` asserts the state it finds; what follows goes by the state
        the fiber is in when it is back. */
    method Switch(task: nat, o: Outcome)
      requires task in ready && task in fibers && fibers[task].state == READY && o.Possible()
      requires IsHeap(Ran(View(), task, o, sleep.items).fibers, sleep.items)
      modifies this`ready, this`hold, this`fibers, this`count, sleep
      ensures View() == Ran(old(View()), task, o, sleep.items) && IsHeap(fibers, sleep.items)
      ensures multiset(sleep.items) ==
              old(multiset(sleep.items)) + if o.state == SLEEP then multiset{task} else multiset{}
      ensures count == old(count) - if o.state == DESTROY || o.state == EXCEPT then 1 else 0
    {
      ready := ready - multiset{task};
      fibers := fibers[task := o.Apply(fibers[task])];
      if o.state == HOLD {
        hold := hold + [task];
      } else if o.state == SLEEP {
        sleep.Push(task, fibers);
      } else if o.state == READY {
        ready := ready + multiset{task};
      } else {
        count := count - 1;
      }
    }

    /** The part of a pass that only moves tasks between the queues: the tasks
        handed over are started if the lock was free, the sleepers that are due
        are woken and no others, and each held task is released or kept. */
    method Sort(locked: bool, now: u64, outcome: nat -> Outcome) returns (woken: seq<nat>)
      requires Agree(View()) && forall t :: outcome(t).state == READY || outcome(t).state == HOLD
      modifies this`init, this`ready, this`hold, this`fibers, sleep
      ensures Agree(View()) && Held(View()) == old(Held(View()))
      ensures init == if locked then [] else old(init)
      ensures multiset(woken) + multiset(sleep.items) == old(multiset(sleep.items))
      ensures forall t :: t in sleep.items ==> t in fibers && now <= fibers[t].waketime
      ensures hold == Kept(old(hold), outcome)
      ensures ready == old(ready) + (if locked then multiset(old(init)) else multiset{}) + multiset(woken) +
                       multiset(Released(old(hold), outcome))
    {
      if locked {
        DrainInit();
      }
      woken := WakeSleepers(now);
      ghost var q := View();
      NotifyHeld(outcome);
      SleepersStay(q, outcome, now);
    }

    /** The end of a pass: one ready task runs, if there is any. */
    method RunReady(now: u64, o: Outcome) returns (ran: Option<nat>)
      requires Agree(View()) && o.Possible()
      requires forall t :: t in sleep.items ==> t in fibers && now <= fibers[t].waketime
      modifies this`ready, this`hold, this`fibers, this`count, sleep
      ensures Agree(View())
      ensures |Held(View())| - count == old(|Held(View())| - count)
      ensures hold == old(hold) + if ran.Some? && o.state == HOLD then [ran.value] else []
      ensures forall t :: t in sleep.items && ran != Some(t) ==> t in fibers && now <= fibers[t].waketime
      ensures ran.None? ==> ready == multiset{} && Held(View()) == old(Held(View()))
      ensures ran.Some? ==>
                && ran.value in old(Held(View())) && ran.value in fibers && fibers[ran.value].state == o.state
                && Held(View()) == old(Held(View())) -
                   if o.state == DESTROY || o.state == EXCEPT then multiset{ran.value} else multiset{}
    {
      ghost var q := View();
      ran := RunOne(o);
      if ran.None? {
        NothingAppended(hold);
      } else {
        RanChanges(q, ran.value, o, sleep.items);
        SizeAfter(Held(q), ran.value, o.state == DESTROY || o.state == EXCEPT);
        SleepersRan(q, ran.value, o, sleep.items, now);
      }
    }

    /** One pass of the loop, `locked` telling whether the try-lock succeeded. As
        long as notified fibers yield or hold again, no state assertion fails,
        the queues agree with their fibers afterwards, and the counter goes on
        following the number of tasks. Whoever sleeps on is not due, unless it has
        just gone to sleep; nobody is left ready only if nobody could run. */
    method Pass(locked: bool, now: u64, outcome: nat -> Outcome, o: Outcome) returns (ran: Option<nat>)
      requires Agree(View()) && o.Possible()
      requires forall t :: outcome(t).state == READY || outcome(t).state == HOLD
      modifies this, sleep
      ensures Agree(View())
      ensures |Held(View())| - count == old(|Held(View())| - count)
      ensures init == if locked then [] else old(init)
      ensures hold == Kept(old(hold), outcome) + if ran.Some? && o.state == HOLD then [ran.value] else []
      ensures forall t :: t in sleep.items && ran != Some(t) ==> t in fibers && now <= fibers[t].waketime
      ensures ran.None? ==> ready == multiset{} && Held(View()) == old(Held(View()))
      ensures ran.Some? ==>
                && ran.value in old(Held(View())) && ran.value in fibers && fibers[ran.value].state == o.state
                && Held(View()) == old(Held(View())) -
                   if o.state == DESTROY || o.state == EXCEPT then multiset{ran.value} else multiset{}
    {
      var woken := Sort(locked, now, outcome);
      ran := RunReady(now, o);
    }
  }

  /** What running the ready task `t` shows in the other queues. */
  lemma RanChanges(q: Queues, t: nat, o: Outcome, sleep: seq<nat>)
    requires t in q.ready && t in q.fibers
    ensures var q' := Ran(q, t, o, sleep);
            && q'.init == q.init && q'.hold == q.hold + (if o.state == HOLD then [t] else [])
            && t in q'.fibers && q'.fibers[t].state == o.state && t in Held(q)
  {
    assert q.ready[t] > 0 && Held(q)[t] > 0;
    NothingAppended(q.hold);
  }

  /** Notifying held tasks does not concern the sleepers. */
  lemma SleepersStay(q: Queues, outcome: nat -> Outcome, now: u64)
    requires Agree(q) && forall t :: t in q.sleep ==> t in q.fibers && now <= q.fibers[t].waketime
    ensures var q' := Notified(q, outcome); forall t :: t in q'.sleep ==> t in q'.fibers && now <= q'.fibers[t].waketime
  {
    forall t | t in q.sleep ensures t !in q.hold {
      assert t in multiset(q.sleep) && TaskAgrees(q, t);
      assert t in q.hold ==> t in multiset(q.hold);
    }
  }

  /** Nor does running a ready task, apart from itself. */
  lemma SleepersRan(q: Queues, t: nat, o: Outcome, sleep: seq<nat>, now: u64)
    requires t in q.fibers && forall u :: u in q.sleep ==> u in q.fibers && now <= q.fibers[u].waketime
    requires multiset(sleep) == multiset(q.sleep) + if o.state == SLEEP then multiset{t} else multiset{}
    ensures var q' := Ran(q, t, o, sleep);
            forall u :: u in sleep && u != t ==> u in q'.fibers && now <= q'.fibers[u].waketime
  {
    forall u | u in sleep && u != t ensures u in q.sleep {
      assert u in multiset(sleep);
      assert u in multiset(q.sleep);
    }
  }

  /** Between `q` and `q'` the sleepers `woken` have moved to the ready queue, in
      the order of their wake times and none of them after one that stays. */
  ghost predicate WokenUpTo(q: Queues, q': Queues, woken: seq<nat>) {
    && q'.init == q.init && q'.hold == q.hold
    && multiset(woken) + multiset(q'.sleep) == multiset(q.sleep)
    && q'.ready == q.ready + multiset(woken)
    && q'.fibers.Keys == q.fibers.Keys
    && (forall t :: t in q.fibers ==> q'.fibers[t].waketime == q.fibers[t].waketime)
    && (forall t :: t in woken || t in q'.sleep ==> t in q.fibers)
    && (forall i, j :: 0 <= i < j < |woken| ==> q.fibers[woken[i]].waketime <= q.fibers[woken[j]].waketime)
    && (forall i, u :: 0 <= i < |woken| && u in q'.sleep ==> q.fibers[woken[i]].waketime <= q.fibers[u].waketime)
  }

  lemma WokenOneMore(q0: Queues, q: Queues, sleep: seq<nat>, woken: seq<nat>)
    requires WokenUpTo(q0, q, woken) && Agree(q) && q.sleep != [] && q.sleep[0] in q.fibers
    requires multiset(sleep) == multiset(q.sleep) - multiset{q.sleep[0]}
    ensures WokenUpTo(q0, WakeFirst(q, sleep), woken + [q.sleep[0]])
  {
    TopIsEarliest(q);
    forall u | u in sleep ensures u in q.sleep {
      assert u in multiset(sleep);
    }
    assert q.sleep[0] in q.sleep;
  }
}

/** The worker of the protocol and the worker's loop are the same: each step of the
    one that moves a task does what the loop does to its queues. */
module ProtocolLoops {
  import opened Prelude
  import opened Fibers
  import opened SleepQueues
  import opened Workers
  import opened Protocol

  /** The protocol's worker has the queues of `q`, the heap in any order. */
  predicate Shows(w: WorkerState, fibers: FiberMap, q: Queues) {
    && w.init == q.init && w.ready == q.ready && w.sleep == multiset(q.sleep) && w.hold == q.hold
    && fibers == q.fibers
  }

  function OutcomeOf(c: Choice): Outcome {
    Outcome(c.Left(), Add64(c.s, c.d))
  }

  /** The outcomes that the loop reckons with are those in which a fiber can give
      control back. */
  lemma PossibleExact(o: Outcome)
    ensures o.Possible() <==> exists op: GiveBack :: LeftIn(op) == o.state
  {
    var op: GiveBack :=
      match o.state
      case READY => Yield
      case HOLD => Hold
      case SLEEP => Sleep
      case DESTROY => Op.Stop
      case _ => Raise;
    assert o.Possible() ==> LeftIn(op) == o.state;
  }

  lemma StartIsStartFirst(w: WorkerState, slept: Slept, q: Queues)
    requires Shows(w, q.fibers, q) && q.init != [] && q.init[0] in q.fibers
    ensures var e := StartTask(q.fibers, slept, w); Shows(e.worker, e.fibers, StartFirst(q))
  {
  }

  /** What the heap has on top may be on top in the protocol, and waking it is the
      step of the loop. */
  lemma WakeIsWakeFirst(w: WorkerState, slept: Slept, q: Queues, sleep: seq<nat>)
    requires Agree(q) && Shows(w, q.fibers, q) && q.sleep != [] && q.sleep[0] in q.fibers
    requires multiset(sleep) == multiset(q.sleep) - multiset{q.sleep[0]}
    ensures OnTop(q.fibers, w.sleep, q.sleep[0])
    ensures var e := WakeTask(q.fibers, slept, w, q.sleep[0]); Shows(e.worker, e.fibers, WakeFirst(q, sleep))
  {
    TopIsEarliest(q);
    assert q.sleep[0] in multiset(q.sleep);
    forall u | u in w.sleep ensures WaketimeOf(q.fibers, q.sleep[0]) <= WaketimeOf(q.fibers, u) {
      assert u in q.sleep;
    }
  }

  lemma NotifyIsNotifyAt(w: WorkerState, slept: Slept, q: Queues, at: nat, left: nat, c: Choice)
    requires Shows(w, q.fibers, q) && at < |q.hold| && left > 0 && q.hold[at] in q.fibers
    ensures var e := NotifyTask(q.fibers, slept, w, at, left, c);
            Shows(e.worker, e.fibers, NotifyAt(q, at, OutcomeOf(c)))
  {
  }

  /** Resuming a task and its return, one after the other. */
  lemma ResumeAndReturnAreRan(w: WorkerState, slept: Slept, q: Queues, t: nat, c: Choice, sleep: seq<nat>)
    requires Shows(w, q.fibers, q) && t in q.fibers && t in q.ready
    requires multiset(sleep) == multiset(q.sleep) + if c.back == Sleep then multiset{t} else multiset{}
    ensures var run := ResumeTask(q.fibers, slept, w, t);
            var back := ReturnTask(run.fibers, run.slept, run.worker, t, c);
            && Shows(back.worker, back.fibers, Ran(q, t, OutcomeOf(c), sleep))
            && (back.worker.at == Ending(t) <==> c.back == Op.Stop || c.back == Raise)
  {
    var run := ResumeTask(q.fibers, slept, w, t);
    assert GaveBack(run.fibers, t, c) == q.fibers[t := OutcomeOf(c).Apply(q.fibers[t])];
  }

  /** A pass of the protocol goes on from waking only when the loop would: no
      sleeper is due any more. */
  lemma WakingEndsLikeTheLoop(stop: bool, w: WorkerState, q: Queues, c: Choice, now: u64)
    requires Shows(w, q.fibers, q) && w.at == Waking(now)
    requires forall u :: u in q.sleep ==> u in q.fibers
    requires var next := Advance(stop, q.fibers, w, c); next.Some? && next.value.at.Notifying?
    ensures forall u :: u in q.sleep ==> now <= q.fibers[u].waketime
    ensures Advance(stop, q.fibers, w, c).value.at == Notifying(0, |q.hold|)
  {
    forall u | u in q.sleep ensures now <= q.fibers[u].waketime {
      assert u in multiset(q.sleep);
    }
  }
}

/** One whole pass of a worker in the protocol (sylar/scheduler.cpp), when it takes
    its steps in a row: what is handed over is started, who is due is awoken, whoever
    is held is notified, and one ready task is resumed. */
module ProtocolPass {
  import opened Prelude
  import opened Fibers
  import opened SleepQueues
  import opened Protocol

  function At(w: WorkerState, fibers: FiberMap, slept: Slept): Effect {
    Effect(w, fibers, None, slept)
  }

  function OwnStep(stop: bool, e: Effect, c: Choice): Effect {
    WorkerEffect(stop, e.fibers, e.slept, e.worker, c)
  }

  /** What steps with these choices do. */
  function Worked(stop: bool, e: Effect, cs: seq<Choice>): Effect
    decreases |cs|
  {
    if cs == [] then e else Worked(stop, OwnStep(stop, e, cs[0]), cs[1..])
  }

  lemma {:induction false} WorkedSplit(stop: bool, e: Effect, a: seq<Choice>, b: seq<Choice>)
    ensures Worked(stop, e, a + b) == Worked(stop, Worked(stop, e, a), b)
    decreases |a|
  {
    if a == [] {
      assert a + b == b;
    } else {
      assert (a + b)[1..] == a[1..] + b;
      WorkedSplit(stop, OwnStep(stop, e, a[0]), a[1..], b);
    }
  }

  /** The fiber of `t`, if there is one. */
  function FiberOf(fibers: FiberMap, t: nat): Option<Fields> {
    if t in fibers then Some(fibers[t]) else None
  }

  // ---------- What is handed over ----------

  /** The tasks in `ts` are ready, with the wake times they had; all other fibers are
      as they were. */
  ghost predicate MadeReady(fibers: FiberMap, fibers': FiberMap, ts: multiset<nat>) {
    forall t {:trigger FiberOf(fibers', t)} ::
      FiberOf(fibers', t) == if t in ts then Some(Fields(READY, WaketimeOf(fibers, t))) else FiberOf(fibers, t)
  }

  lemma MadeReadyOne(fibers: FiberMap, t: nat)
    ensures MadeReady(fibers, SetState(fibers, t, READY), multiset{t})
  {
  }

  lemma MadeReadyMore(fibers: FiberMap, fibers1: FiberMap, fibers2: FiberMap, a: multiset<nat>, b: multiset<nat>)
    requires MadeReady(fibers, fibers1, a) && MadeReady(fibers1, fibers2, b)
    ensures MadeReady(fibers, fibers2, a + b)
  {
    forall t {:trigger FiberOf(fibers2, t)}
      ensures FiberOf(fibers2, t) ==
              if t in a + b then Some(Fields(READY, WaketimeOf(fibers, t))) else FiberOf(fibers, t)
    {
      assert FiberOf(fibers1, t) == if t in a then Some(Fields(READY, WaketimeOf(fibers, t))) else FiberOf(fibers, t);
    }
  }

  lemma {:induction false} DrainsAll(stop: bool, e: Effect, cs: seq<Choice>)
    requires e.worker.at == Draining && |cs| == |e.worker.init| && e.finished.None?
    ensures var (w, e') := (e.worker, Worked(stop, e, cs));
            && e'.worker == w.(init := [], started := w.started + w.init, ready := w.ready + multiset(w.init))
            && e'.finished.None? && e'.slept == e.slept && MadeReady(e.fibers, e'.fibers, multiset(w.init))
    decreases |cs|
  {
    var w := e.worker;
    if cs == [] {
      assert w.started + w.init == w.started && w.ready + multiset(w.init) == w.ready;
    } else {
      var e1 := OwnStep(stop, e, cs[0]);
      DrainsOne(stop, e, cs[0]);
      DrainsAll(stop, e1, cs[1..]);
      Counted(w.init);
      MadeReadyMore(e.fibers, e1.fibers, Worked(stop, e, cs).fibers, multiset{w.init[0]}, multiset(w.init[1..]));
      assert w.started + [w.init[0]] + w.init[1..] == w.started + w.init;
    }
  }

  lemma Counted(ts: seq<nat>)
    requires ts != []
    ensures multiset(ts) == multiset{ts[0]} + multiset(ts[1..])
  {
    assert ts == [ts[0]] + ts[1..];
  }

  lemma DrainsOne(stop: bool, e: Effect, c: Choice)
    requires e.worker.at == Draining && e.worker.init != []
    ensures var (w, e', t) := (e.worker, OwnStep(stop, e, c), e.worker.init[0]);
            && e'.worker == w.(init := w.init[1..], started := w.started + [t], ready := w.ready + multiset{t})
            && e'.finished.None? && e'.slept == e.slept && MadeReady(e.fibers, e'.fibers, multiset{t})
  {
    MadeReadyOne(e.fibers, e.worker.init[0]);
  }

  // ---------- Who is due ----------

  /** These steps wake sleepers, the last of them finds that no other is due. */
  ghost predicate LeavesWaking(stop: bool, e: Effect, cs: seq<Choice>)
    decreases |cs|
  {
    && cs != []
    && if |cs| == 1 then OwnStep(stop, e, cs[0]).worker.at.Notifying?
       else OwnStep(stop, e, cs[0]).worker.at.Waking? && LeavesWaking(stop, OwnStep(stop, e, cs[0]), cs[1..])
  }

  /** Between `e` and `e'` the sleepers `woken` have been made ready, all of them with
      a wake time before `now`. */
  ghost predicate Woke(e: Effect, e': Effect, woken: multiset<nat>, now: u64) {
    var (w, w') := (e.worker, e'.worker);
    && w' == w.(at := w'.at, sleep := w'.sleep, ready := w'.ready)
    && w'.sleep + woken == w.sleep && w'.ready == w.ready + woken
    && (forall t :: t in woken ==> WaketimeOf(e.fibers, t) < now)
    && e'.finished.None? && e'.slept == e.slept && MadeReady(e.fibers, e'.fibers, woken)
  }

  lemma MadeReadyKeepsTimes(fibers: FiberMap, fibers': FiberMap, ts: multiset<nat>, t: nat)
    requires MadeReady(fibers, fibers', ts)
    ensures WaketimeOf(fibers', t) == WaketimeOf(fibers, t)
  {
    assert FiberOf(fibers', t) == if t in ts then Some(Fields(READY, WaketimeOf(fibers, t))) else FiberOf(fibers, t);
  }

  lemma WakesNobody(stop: bool, e: Effect, c: Choice, now: u64)
    requires e.worker.at == Waking(now) && e.finished.None?
    requires !(OnTop(e.fibers, e.worker.sleep, c.task) && WaketimeOf(e.fibers, c.task) < now)
    ensures var e' := OwnStep(stop, e, c);
            && (e'.worker.at == Waking(now) || e'.worker.at == Notifying(0, |e.worker.hold|))
            && Woke(e, e', multiset{}, now)
            && (e'.worker.at.Notifying? ==> forall t :: t in e.worker.sleep ==> now <= WaketimeOf(e.fibers, t))
  {
    var e' := OwnStep(stop, e, c);
    assert e'.worker == e.worker.(at := e'.worker.at) && e'.fibers == e.fibers;
    assert MadeReady(e.fibers, e'.fibers, multiset{});
  }

  lemma WakesTask(stop: bool, e: Effect, c: Choice, now: u64)
    requires e.worker.at == Waking(now) && e.finished.None?
    requires OnTop(e.fibers, e.worker.sleep, c.task) && WaketimeOf(e.fibers, c.task) < now
    ensures OwnStep(stop, e, c).worker.at == Waking(now) && Woke(e, OwnStep(stop, e, c), multiset{c.task}, now)
  {
    assert OwnStep(stop, e, c) == WakeTask(e.fibers, e.slept, e.worker, c.task);
    MadeReadyOne(e.fibers, c.task);
    assert e.worker.sleep - multiset{c.task} + multiset{c.task} == e.worker.sleep;
  }

  lemma WokeMore(e: Effect, e1: Effect, e2: Effect, a: multiset<nat>, b: multiset<nat>, now: u64)
    requires Woke(e, e1, a, now) && Woke(e1, e2, b, now)
    ensures Woke(e, e2, a + b, now)
  {
    MadeReadyMore(e.fibers, e1.fibers, e2.fibers, a, b);
    forall t | t in a + b ensures WaketimeOf(e.fibers, t) < now { MadeReadyKeepsTimes(e.fibers, e1.fibers, a, t); }
  }

  /** However many steps it takes, those who are due are made ready and no others. */
  lemma {:induction false} WakesDue(stop: bool, e: Effect, cs: seq<Choice>, now: u64) returns (woken: multiset<nat>)
    requires e.worker.at == Waking(now) && e.finished.None? && LeavesWaking(stop, e, cs)
    ensures var e' := Worked(stop, e, cs);
            && e'.worker.at == Notifying(0, |e.worker.hold|) && Woke(e, e', woken, now)
            && (forall t :: t in e'.worker.sleep ==> now <= WaketimeOf(e.fibers, t))
    decreases |cs|
  {
    var e1 := OwnStep(stop, e, cs[0]);
    var wakes := OnTop(e.fibers, e.worker.sleep, cs[0].task) && WaketimeOf(e.fibers, cs[0].task) < now;
    if wakes { WakesTask(stop, e, cs[0], now); } else { WakesNobody(stop, e, cs[0], now); }
    if |cs| == 1 {
      woken := multiset{};
    } else {
      var first := if wakes then multiset{cs[0].task} else multiset{};
      var more := WakesDue(stop, e1, cs[1..], now);
      woken := first + more;
      WokeMore(e, e1, Worked(stop, e, cs), first, more, now);
      forall t | t in Worked(stop, e, cs).worker.sleep ensures now <= WaketimeOf(e.fibers, t) {
        MadeReadyKeepsTimes(e.fibers, e1.fibers, first, t);
      }
    }
  }

  lemma {:induction false} SomebodyOnTop(fibers: FiberMap, sleep: multiset<nat>) returns (t: nat)
    requires sleep != multiset{}
    ensures OnTop(fibers, sleep, t)
    decreases |sleep|
  {
    var u :| u in sleep;
    var rest := sleep - multiset{u};
    if rest == multiset{} {
      t := u;
      assert sleep == multiset{u};
    } else {
      var v := SomebodyOnTop(fibers, rest);
      t := if WaketimeOf(fibers, u) <= WaketimeOf(fibers, v) then u else v;
      forall x | x in sleep ensures WaketimeOf(fibers, t) <= WaketimeOf(fibers, x) { assert x == u || x in rest; }
    }
  }

  /** Waking comes to an end: with the top of the heap chosen each time, after at most
      one step more than there are sleepers. */
  lemma {:induction false} WakingEnds(stop: bool, e: Effect, now: u64) returns (cs: seq<Choice>)
    requires e.worker.at == Waking(now) && e.finished.None?
    ensures LeavesWaking(stop, e, cs) && |cs| <= |e.worker.sleep| + 1
    decreases |e.worker.sleep|
  {
    if e.worker.sleep == multiset{} {
      cs := [Choice(0, 0, Yield, 0, 0)];
    } else {
      var t := SomebodyOnTop(e.fibers, e.worker.sleep);
      var c := Choice(0, t, Yield, 0, 0);
      if WaketimeOf(e.fibers, t) < now {
        assert OwnStep(stop, e, c) == WakeTask(e.fibers, e.slept, e.worker, t);
        var more := WakingEnds(stop, OwnStep(stop, e, c), now);
        cs := [c] + more;
        assert cs[1..] == more;
      } else {
        cs := [c];
      }
    }
  }

  // ---------- Who is held ----------

  /** The held tasks that yield when notified, and the others, which stay. */
  function Leaving(hold: seq<nat>, cs: seq<Choice>): seq<nat>
    requires |cs| == |hold|
  {
    if hold == [] then [] else (if cs[0].back == Yield then [hold[0]] else []) + Leaving(hold[1..], cs[1..])
  }

  function Staying(hold: seq<nat>, cs: seq<Choice>): seq<nat>
    requires |cs| == |hold|
  {
    if hold == [] then [] else (if cs[0].back == Yield then [] else [hold[0]]) + Staying(hold[1..], cs[1..])
  }

  lemma NotifiesOne(stop: bool, e: Effect, c: Choice, at: nat, left: nat)
    requires e.worker.at == Notifying(at, left) && left > 0 && at + left == |e.worker.hold|
    ensures var (w, e', t) := (e.worker, OwnStep(stop, e, c), e.worker.hold[at]);
            && e'.finished.None? && e'.slept == e.slept && e'.fibers == GaveBack(e.fibers, t, c)
            && (c.back == Yield ==>
                  e'.worker == w.(at := Notifying(at, left - 1), ready := w.ready + multiset{t},
                                  hold := w.hold[..at] + w.hold[at + 1..]))
            && (c.back != Yield ==> e'.worker == w.(at := Notifying(at + 1, left - 1)))
  {
  }

  lemma Removed(hold: seq<nat>, at: nat)
    requires at < |hold|
    ensures var h := hold[..at] + hold[at + 1..];
            |h| == |hold| - 1 && h[..at] == hold[..at] && h[at..] == hold[at + 1..]
  {
  }

  lemma HoldMoves(hold: seq<nat>, at: nat)
    requires at < |hold|
    ensures var h := hold[..at] + hold[at + 1..];
            && |h| == |hold| - 1
            && (forall j {:trigger h[j]} :: at <= j < |h| ==> h[j] == hold[j + 1])
            && (forall j {:trigger hold[j]} :: at < j < |hold| ==> h[j - 1] == hold[j])
  {
  }

  lemma NothingHeld(w: WorkerState, at: nat)
    requires at == |w.hold|
    ensures w.hold[..at] + [] == w.hold && w.ready + multiset([]) == w.ready && w.hold[at..] == []
  {
  }

  /** The worker after one task has left the held ones and the rest was gone through
      too, or after it has stayed. */
  lemma OneLeft(w: WorkerState, w1: WorkerState, w': WorkerState, at: nat, leaving: seq<nat>, staying: seq<nat>)
    requires at < |w.hold|
    requires w1 == w.(at := w1.at, ready := w.ready + multiset{w.hold[at]}, hold := w.hold[..at] + w.hold[at + 1..])
    requires w' == w1.(at := w'.at, ready := w1.ready + multiset(leaving), hold := w1.hold[..at] + staying)
    ensures w' == w.(at := w'.at, ready := w.ready + multiset([w.hold[at]] + leaving), hold := w.hold[..at] + staying)
  {
    Removed(w.hold, at);
    assert w.ready + multiset([w.hold[at]] + leaving) == w.ready + multiset{w.hold[at]} + multiset(leaving);
  }

  lemma OneStayed(w: WorkerState, w1: WorkerState, w': WorkerState, at: nat, leaving: seq<nat>, staying: seq<nat>)
    requires at < |w.hold| && w1 == w.(at := w1.at)
    requires w' == w1.(at := w'.at, ready := w1.ready + multiset(leaving), hold := w1.hold[..at + 1] + staying)
    ensures w' == w.(at := w'.at, ready := w.ready + multiset(leaving), hold := w.hold[..at] + ([w.hold[at]] + staying))
  {
    assert w.hold[..at + 1] + staying == w.hold[..at] + ([w.hold[at]] + staying);
  }

  lemma ListsMove(hold: seq<nat>, cs: seq<Choice>, at: nat)
    requires cs != [] && at + |cs| == |hold|
    ensures |hold[at..]| == |cs| && |hold[at + 1..]| == |cs[1..]|
    ensures Leaving(hold[at..], cs) ==
            if cs[0].back == Yield then [hold[at]] + Leaving(hold[at + 1..], cs[1..])
            else Leaving(hold[at + 1..], cs[1..])
    ensures Staying(hold[at..], cs) ==
            if cs[0].back == Yield then Staying(hold[at + 1..], cs[1..])
            else [hold[at]] + Staying(hold[at + 1..], cs[1..])
  {
    assert hold[at..][1..] == hold[at + 1..];
    var leaving, staying := Leaving(hold[at + 1..], cs[1..]), Staying(hold[at + 1..], cs[1..]);
    assert [] + leaving == leaving && [] + staying == staying;
  }

  /** What going through the held tasks from `at` on leads to. */
  ghost predicate WentThrough(e: Effect, e': Effect, cs: seq<Choice>, at: nat)
    requires at + |cs| == |e.worker.hold|
  {
    var w := e.worker;
    var leaving, staying := Leaving(w.hold[at..], cs), Staying(w.hold[at..], cs);
    && e'.worker == w.(at := Notifying(at + |staying|, 0), ready := w.ready + multiset(leaving),
                       hold := w.hold[..at] + staying)
    && e'.finished.None? && e'.slept == e.slept
  }

  lemma LeftOneFurther(e: Effect, e1: Effect, e': Effect, cs: seq<Choice>, at: nat)
    requires cs != [] && at + |cs| == |e.worker.hold| && cs[0].back == Yield && e1.slept == e.slept
    requires var w := e.worker;
             e1.worker == w.(at := e1.worker.at, ready := w.ready + multiset{w.hold[at]},
                             hold := w.hold[..at] + w.hold[at + 1..])
    requires WentThrough(e1, e', cs[1..], at)
    ensures WentThrough(e, e', cs, at)
  {
    var w := e.worker;
    Removed(w.hold, at);
    ListsMove(w.hold, cs, at);
    OneLeft(w, e1.worker, e'.worker, at, Leaving(w.hold[at + 1..], cs[1..]), Staying(w.hold[at + 1..], cs[1..]));
  }

  lemma StayedOneFurther(e: Effect, e1: Effect, e': Effect, cs: seq<Choice>, at: nat)
    requires cs != [] && at + |cs| == |e.worker.hold| && cs[0].back != Yield && e1.slept == e.slept
    requires e1.worker == e.worker.(at := e1.worker.at)
    requires WentThrough(e1, e', cs[1..], at + 1)
    ensures WentThrough(e, e', cs, at)
  {
    var w := e.worker;
    ListsMove(w.hold, cs, at);
    OneStayed(w, e1.worker, e'.worker, at, Leaving(w.hold[at + 1..], cs[1..]), Staying(w.hold[at + 1..], cs[1..]));
  }

  /** Every held task is notified, once and in order; those that yield are ready and
      the others go on being held. */
  lemma {:induction false} NotifiesAll(stop: bool, e: Effect, cs: seq<Choice>, at: nat)
    requires e.worker.at == Notifying(at, |cs|) && at + |cs| == |e.worker.hold| && e.finished.None?
    ensures WentThrough(e, Worked(stop, e, cs), cs, at)
    decreases |cs|
  {
    if cs == [] {
      NothingHeld(e.worker, at);
    } else {
      var e1 := OwnStep(stop, e, cs[0]);
      NotifiesOne(stop, e, cs[0], at, |cs|);
      if cs[0].back == Yield {
        NotifiesAll(stop, e1, cs[1..], at);
        LeftOneFurther(e, e1, Worked(stop, e, cs), cs, at);
      } else {
        NotifiesAll(stop, e1, cs[1..], at + 1);
        StayedOneFurther(e, e1, Worked(stop, e, cs), cs, at);
      }
    }
  }

  /** From `at` on, the task at `i` is held only there. */
  predicate HeldOnce(hold: seq<nat>, at: nat, i: nat) {
    at <= i < |hold| && forall j :: at <= j < |hold| && j != i ==> hold[j] != hold[i]
  }

  lemma HeldOnceMoves(hold: seq<nat>, at: nat, i: nat)
    requires HeldOnce(hold, at, i) && i > at
    ensures HeldOnce(hold, at + 1, i)
    ensures var h := hold[..at] + hold[at + 1..]; HeldOnce(h, at, i - 1) && h[i - 1] == hold[i]
  {
    HoldMoves(hold, at);
  }

  lemma BackInState(fibers: FiberMap, t: nat, c: Choice)
    ensures t in GaveBack(fibers, t, c) && GaveBack(fibers, t, c)[t].state == c.Left()
  {
  }

  lemma FirstState(stop: bool, e: Effect, cs: seq<Choice>, at: nat)
    requires e.worker.at == Notifying(at, |cs|) && at + |cs| == |e.worker.hold| && HeldOnce(e.worker.hold, at, at)
    ensures var (t, e') := (e.worker.hold[at], Worked(stop, e, cs));
            t in e'.fibers && e'.fibers[t].state == cs[0].Left()
  {
    var hold, e1 := e.worker.hold, OwnStep(stop, e, cs[0]);
    NotifiesOne(stop, e, cs[0], at, |cs|);
    HoldMoves(hold, at);
    NotifiedKeeps(stop, e1, cs[1..], if cs[0].back == Yield then at else at + 1, hold[at]);
    BackInState(e.fibers, hold[at], cs[0]);
  }

  /** The choices go through the held tasks from `at` on, and `i` is the place of a
      task that is held once. */
  predicate GoesThrough(w: WorkerState, cs: seq<Choice>, at: nat, i: nat) {
    w.at == Notifying(at, |cs|) && at + |cs| == |w.hold| && HeldOnce(w.hold, at, i)
  }

  /** One step further, with `at'` and `i'` for `at` and `i`. */
  lemma NextHeld(stop: bool, e: Effect, cs: seq<Choice>, at: nat, i: nat) returns (at': nat, i': nat)
    requires GoesThrough(e.worker, cs, at, i) && i > at
    ensures var w' := OwnStep(stop, e, cs[0]).worker;
            GoesThrough(w', cs[1..], at', i') && w'.hold[i'] == e.worker.hold[i] && i' - at' == i - at - 1
  {
    NotifiesOne(stop, e, cs[0], at, |cs|);
    HeldOnceMoves(e.worker.hold, at, i);
    at', i' := if cs[0].back == Yield then at else at + 1, if cs[0].back == Yield then i - 1 else i;
  }

  /** And each comes back in the state of its way of giving back, if it is not held
      twice. */
  lemma {:induction false} NotifiedStates(stop: bool, e: Effect, cs: seq<Choice>, at: nat, i: nat)
    requires GoesThrough(e.worker, cs, at, i)
    ensures var (t, e') := (e.worker.hold[i], Worked(stop, e, cs));
            t in e'.fibers && e'.fibers[t].state == cs[i - at].Left()
    decreases |cs|
  {
    if i > at {
      var at', i' := NextHeld(stop, e, cs, at, i);
      NotifiedStates(stop, OwnStep(stop, e, cs[0]), cs[1..], at', i');
      assert cs[1..][i' - at'] == cs[i - at];
    } else {
      FirstState(stop, e, cs, at);
    }
  }

  lemma {:induction false} NotifiedKeeps(stop: bool, e: Effect, cs: seq<Choice>, at: nat, t: nat)
    requires e.worker.at == Notifying(at, |cs|) && at + |cs| == |e.worker.hold|
    requires forall j :: at <= j < |e.worker.hold| ==> e.worker.hold[j] != t
    ensures FiberOf(Worked(stop, e, cs).fibers, t) == FiberOf(e.fibers, t)
    decreases |cs|
  {
    if cs != [] {
      var e1 := OwnStep(stop, e, cs[0]);
      NotifiesOne(stop, e, cs[0], at, |cs|);
      HoldMoves(e.worker.hold, at);
      NotifiedKeeps(stop, e1, cs[1..], if cs[0].back == Yield then at else at + 1, t);
    }
  }

  // ---------- The whole pass ----------

  /** The worker with all that was handed over started, and about to wake sleepers. */
  predicate Drained(e: Effect, e': Effect, now: u64) {
    var w := e.worker;
    && e'.worker == w.(at := Waking(now), lock := Nobody, init := [], started := w.started + w.init,
                       ready := w.ready + multiset(w.init))
    && e'.finished.None? && e'.slept == e.slept
  }

  lemma Enters(stop: bool, e: Effect, cs: seq<Choice>)
    requires e.worker.at == Body && e.worker.count != 0 && e.worker.lock == Nobody && e.finished.None? && |cs| == 2
    ensures Worked(stop, e, cs) == At(e.worker.(at := Draining, lock := Self), e.fibers, e.slept)
  {
    assert cs == [cs[0]] + [cs[1]];
    var e1 := OwnStep(stop, e, cs[0]);
    assert e1 == At(e.worker.(at := Trying), e.fibers, e.slept);
    assert cs[1..] == [cs[1]] && Worked(stop, e1, [cs[1]]) == OwnStep(stop, e1, cs[1]);
  }

  lemma ReadsClock(stop: bool, e: Effect, cs: seq<Choice>)
    requires e.worker.at == Draining && e.worker.init == [] && |cs| == 2
    ensures Worked(stop, e, cs) == At(e.worker.(at := Waking(cs[1].now), lock := Nobody), e.fibers, e.slept)
  {
    var e1 := OwnStep(stop, e, cs[0]);
    assert e1 == At(e.worker.(at := Clock, lock := Nobody), e.fibers, e.slept);
    assert cs[1..] == [cs[1]] && Worked(stop, e1, [cs[1]]) == OwnStep(stop, e1, cs[1]);
  }

  /** When the allocator has the worker's lock, what was handed over waits for the next
      pass. */
  lemma SkipsDrain(stop: bool, e: Effect, cs: seq<Choice>)
    requires e.worker.at == Body && e.worker.count != 0 && e.worker.lock != Nobody && |cs| == 3
    ensures Worked(stop, e, cs) == At(e.worker.(at := Waking(cs[2].now)), e.fibers, e.slept)
  {
    var e1, e2 := At(e.worker.(at := Trying), e.fibers, e.slept), At(e.worker.(at := Clock), e.fibers, e.slept);
    assert OwnStep(stop, e, cs[0]) == e1 && OwnStep(stop, e1, cs[1]) == e2;
    assert cs[1..][1..] == [cs[2]] && Worked(stop, e2, [cs[2]]) == OwnStep(stop, e2, cs[2]);
  }

  /** From the test of the counter to the sleepers, when the worker's lock is free. */
  lemma FirstPart(stop: bool, e: Effect, enter: seq<Choice>, drain: seq<Choice>, clock: seq<Choice>)
    requires e.worker.at == Body && e.worker.count != 0 && e.worker.lock == Nobody && e.finished.None?
    requires |enter| == 2 && |drain| == |e.worker.init| && |clock| == 2
    ensures var e' := Worked(stop, e, enter + drain + clock);
            Drained(e, e', clock[1].now) && MadeReady(e.fibers, e'.fibers, multiset(e.worker.init))
  {
    var e1 := Worked(stop, e, enter);
    Enters(stop, e, enter);
    DrainsAll(stop, e1, drain);
    WorkedSplit(stop, e, enter, drain);
    ReadsClock(stop, Worked(stop, e1, drain), clock);
    WorkedSplit(stop, e, enter + drain, clock);
  }

  /** The queues after a pass that has not resumed anybody yet. */
  ghost predicate Sorted(e: Effect, e': Effect, woken: multiset<nat>, now: u64, notify: seq<Choice>)
    requires |notify| == |e.worker.hold|
  {
    var (w, w') := (e.worker, e'.worker);
    && w' == w.(at := Picking, init := [], started := w.started + w.init, sleep := w'.sleep,
                hold := Staying(w.hold, notify),
                ready := w.ready + multiset(w.init) + woken + multiset(Leaving(w.hold, notify)))
    && w'.sleep + woken == w.sleep
    && (forall t :: t in woken ==> WaketimeOf(e.fibers, t) < now)
    && (forall t :: t in w'.sleep ==> now <= WaketimeOf(e.fibers, t))
  }

  lemma SecondPart(stop: bool, e: Effect, wake: seq<Choice>, notify: seq<Choice>, last: Choice, now: u64)
    returns (woken: multiset<nat>)
    requires e.worker.at == Waking(now) && e.finished.None?
    requires LeavesWaking(stop, e, wake) && |notify| == |e.worker.hold|
    ensures var (w, e') := (e.worker, Worked(stop, e, wake + notify + [last]));
            && e'.worker == w.(at := Picking, sleep := e'.worker.sleep, hold := Staying(w.hold, notify),
                               ready := w.ready + woken + multiset(Leaving(w.hold, notify)))
            && e'.worker.sleep + woken == w.sleep
            && (forall t :: t in woken ==> WaketimeOf(e.fibers, t) < now)
            && (forall t :: t in e'.worker.sleep ==> now <= WaketimeOf(e.fibers, t))
  {
    woken := WakesDue(stop, e, wake, now);
    var e1 := Worked(stop, e, wake);
    NotifiesAll(stop, e1, notify, 0);
    assert e.worker.hold[0..] == e.worker.hold && e.worker.hold[..0] + Staying(e.worker.hold, notify) ==
           Staying(e.worker.hold, notify);
    WorkedSplit(stop, e, wake, notify);
    var e2 := Worked(stop, e1, notify);
    WorkedSplit(stop, e, wake + notify, [last]);
    assert Worked(stop, e2, [last]) == OwnStep(stop, e2, last);
  }

  /** One pass with the worker's lock free: everything handed over is started, in
      order; of the sleepers those with a wake time before the clock reading are ready
      and no others; every held task was notified once and is ready iff it yielded;
      and nothing else has moved. */
  lemma WholePass(stop: bool, e: Effect, enter: seq<Choice>, drain: seq<Choice>, clock: seq<Choice>,
                  wake: seq<Choice>, notify: seq<Choice>, last: Choice)
    returns (woken: multiset<nat>)
    requires e.worker.at == Body && e.worker.count != 0 && e.worker.lock == Nobody && e.finished.None?
    requires |enter| == 2 && |drain| == |e.worker.init| && |clock| == 2 && |notify| == |e.worker.hold|
    requires LeavesWaking(stop, Worked(stop, e, enter + drain + clock), wake)
    ensures var e' := Worked(stop, e, enter + drain + clock + (wake + notify + [last]));
            Sorted(e, e', woken, clock[1].now, notify)
  {
    var e1 := Worked(stop, e, enter + drain + clock);
    FirstPart(stop, e, enter, drain, clock);
    woken := SecondPart(stop, e1, wake, notify, last, clock[1].now);
    WorkedSplit(stop, e, enter + drain + clock, wake + notify + [last]);
    forall t ensures WaketimeOf(e1.fibers, t) == WaketimeOf(e.fibers, t) {
      MadeReadyKeepsTimes(e.fibers, e1.fibers, multiset(e.worker.init), t);
    }
  }

  /** And then a ready task runs, if there is one; else the pass is over. */
  lemma PassPicks(stop: bool, e: Effect, c: Choice)
    requires e.worker.at == Picking
    ensures var (w, e') := (e.worker, OwnStep(stop, e, c));
            && (w.ready == multiset{} ==> e'.worker == w.(at := Head) && e'.fibers == e.fibers)
            && (c.task in w.ready ==>
                  && e'.worker == w.(at := Running(c.task), ready := w.ready - multiset{c.task})
                  && FiberOf(e'.fibers, c.task) == Some(Fields(EXEC, WaketimeOf(e.fibers, c.task))))
  {
  }
}

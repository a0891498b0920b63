/** Whole runs of the timer queue: any sequence of the steps that threads take on
    it, with the history that the promises of sylar/timer.h are about.

    A step is a critical section under the manager's lock, or a call of the
    front hook, which its caller makes after giving the lock back; between the
    two any other thread may take any number of steps. The clock readings of
    `addTimer` and `listExpiredCb` are taken before the lock, so a step may carry
    a reading older than those of the steps before it. */
module TimerRuns {
  import opened Prelude
  import opened TimerQueue

  datatype Op =
    | AddOp(addr: nat, now: u64, ms: u64, cb: Option<nat>, recurring: bool)
    | CancelOp(addr: nat)
    | RefreshOp(addr: nat, now: u64)
    | ResetOp(addr: nat, ms: u64, fromNow: bool, now: u64)
    | NextOp(now: u64)
    | ExpireOp(now: u64, probe: nat)
    | HookOp

  /** The queue together with its history.
      `armedAt`    the clock reading each deadline counts from
      `seen`       the front deadline the last `getNextTimer` saw, none if none
      `owed`       callers past their unlock that have yet to call the hook
      `owedAtNext` the same at the last `getNextTimer`
      `raised`     how often the flag went up since then
      `hooks`      how often the hook was called since then
      `delivered`  how often each timer was handed out
      `cancelled`  how often a cancel of each timer returned true
      `lastFired`  the last hand-out of each recurring timer not reset since
      `clock`      the latest clock reading of all */
  datatype World = World(
    q: Queue, armedAt: map<nat, u64>, seen: Option<u64>,
    owed: nat, owedAtNext: nat, raised: nat, hooks: nat,
    delivered: multiset<nat>, cancelled: multiset<nat>, lastFired: map<nat, u64>, clock: u64)

  function Start(clock: u64): World {
    World(Queue(map[], [], false, clock), map[], None, 0, 0, 0, 0, multiset{}, multiset{}, map[], clock)
  }

  /** A new timer has a fresh address; any other operation is called on a timer
      that was created; the hook is called by somebody who found the front
      free. */
  predicate Enabled(w: World, op: Op) {
    match op
    case AddOp(addr, _, _, _, _) => addr !in w.q.timers
    case CancelOp(addr) => addr in w.q.timers
    case RefreshOp(addr, _) => addr in w.q.timers
    case ResetOp(addr, _, _, _) => addr in w.q.timers
    case NextOp(_) => true
    case ExpireOp(_, _) => true
    case HookOp => w.owed > 0
  }

  function Once(b: bool): nat {
    if b then 1 else 0
  }

  function Later(clock: u64, now: u64): u64 {
    if clock <= now then now else clock
  }

  /** The critical section found a new front under a lowered flag iff `hook`. */
  function Owing(w: World, hook: bool): World {
    w.(owed := w.owed + Once(hook), raised := w.raised + Once(hook))
  }

  /** `reset` takes a step only behind its unlocked test of the old period; what
      that test read may be out of date by then, so any period can get here. */
  function Step(w: World, op: Op): World
    requires Valid(w.q) && Enabled(w, op)
  {
    match op
    case AddOp(a, now, ms, cb, recurring) =>
      var (q, hook) := Add(w.q, a, now, ms, cb, recurring);
      Owing(w, hook).(q := q, armedAt := w.armedAt[a := now], clock := Later(w.clock, now))
    case CancelOp(a) =>
      var (q, ok) := Cancel(w.q, a);
      w.(q := q, cancelled := if ok then w.cancelled + multiset{a} else w.cancelled)
    case RefreshOp(a, now) =>
      var (q, ok) := Refresh(w.q, a, now);
      w.(q := q, armedAt := if ok then w.armedAt[a := now] else w.armedAt, clock := Later(w.clock, now))
    case ResetOp(a, ms, fromNow, now) =>
      var (q, ok, hook) := ResetLocked(w.q, a, ms, fromNow, now);
      Owing(w, hook).(
         q := q,
         armedAt := if ok && fromNow then w.armedAt[a := now] else w.armedAt,
         lastFired := if ok then w.lastFired - {a} else w.lastFired,
         clock := if fromNow then Later(w.clock, now) else w.clock)
    case NextOp(now) =>
      w.(q := NextTimer(w.q, now).0,
         seen := if w.q.order == [] then None else Some(w.q.timers[w.q.order[0]].next),
         owedAtNext := w.owed, raised := 0, hooks := 0, clock := Later(w.clock, now))
    case ExpireOp(now, probe) =>
      var (q, expired) := ListExpired(w.q, now, probe);
      ExpiredKnown(w.q, now, probe);
      w.(q := q,
         armedAt := map a | a in w.armedAt :: if a in expired && w.q.timers[a].recurring then now else w.armedAt[a],
         delivered := w.delivered + multiset(expired),
         lastFired := map a | a in w.lastFired.Keys + Recurring(w.q.timers, expired) ::
                        if a in expired then now else w.lastFired[a],
         clock := Later(w.clock, now))
    case HookOp =>
      w.(owed := w.owed - 1, hooks := w.hooks + 1)
  }

  lemma ExpiredKnown(q: Queue, now: u64, probe: nat)
    requires Valid(q)
    ensures forall a :: a in ListExpired(q, now, probe).1 ==> a in q.timers
  {
  }

  function Recurring(ts: Timers, expired: seq<nat>): set<nat>
    requires forall a :: a in expired ==> a in ts
  {
    set a | a in expired && ts[a].recurring
  }

  /** The world at the end of a run; a call nobody can make is skipped. */
  function After(w: World, ops: seq<Op>): (w': World)
    requires Valid(w.q)
    ensures Valid(w'.q)
    decreases |ops|
  {
    if ops == [] then w
    else if Enabled(w, ops[0]) then
      StepKeepsValid(w, ops[0]);
      After(Step(w, ops[0]), ops[1..])
    else After(w, ops[1..])
  }

  /** The world after a run of a manager created at clock reading `start`. */
  function Run(start: u64, ops: seq<Op>): World {
    After(Start(start), ops)
  }

  lemma StepKeepsValid(w: World, op: Op)
    requires Valid(w.q) && Enabled(w, op)
    ensures Valid(Step(w, op).q)
    ensures Exact(w.q) && (op.AddOp? ==> op.cb.Some?) ==> Exact(Step(w, op).q)
  {
    match op
    case AddOp(a, now, ms, cb, recurring) => AddExact(w.q, a, now, ms, cb, recurring);
    case CancelOp(a) => CancelExact(w.q, a);
    case RefreshOp(a, now) => RefreshExact(w.q, a, now);
    case ResetOp(a, ms, fromNow, now) => ResetLockedExact(w.q, a, ms, fromNow, now);
    case NextOp(now) =>
    case ExpireOp(now, probe) => ListExpiredExact(w.q, now, probe);
    case HookOp =>
  }

  lemma AfterFirst(w: World, op: Op, rest: seq<Op>)
    requires Valid(w.q) && Enabled(w, op)
    ensures Valid(Step(w, op).q)
    ensures After(w, [op] + rest) == After(Step(w, op), rest)
  {
    StepKeepsValid(w, op);
    assert ([op] + rest)[1..] == rest;
  }

  lemma {:induction false} AfterExact(w: World, ops: seq<Op>)
    requires Exact(w.q)
    requires forall op :: op in ops && op.AddOp? ==> op.cb.Some?
    ensures Exact(After(w, ops).q)
    decreases |ops|
  {
    if ops != [] {
      assert ops[0] in ops && forall op :: op in ops[1..] ==> op in ops;
      if Enabled(w, ops[0]) {
        StepKeepsValid(w, ops[0]);
        AfterExact(Step(w, ops[0]), ops[1..]);
      } else {
        AfterExact(w, ops[1..]);
      }
    }
  }

  /** In every run the set is strictly sorted by (deadline, address) and contains
      every armed timer; as long as no empty callback is added, it holds nothing
      else. */
  lemma SetIsExact(start: u64, ops: seq<Op>)
    ensures Sorted(Run(start, ops).q.timers, Run(start, ops).q.order)
    ensures var q := Run(start, ops).q; forall a :: a in q.timers && q.timers[a].cb.Some? ==> a in q.order
    ensures (forall op :: op in ops && op.AddOp? ==> op.cb.Some?) ==>
              var q := Run(start, ops).q; forall a :: a in q.order ==> a in q.timers && q.timers[a].cb.Some?
  {
    if forall op :: op in ops && op.AddOp? ==> op.cb.Some? {
      AfterExact(Start(start), ops);
    }
  }

  /** With an empty callback the promise fails: the timer is pending, and yet
      cancelling it reports that there is nothing to cancel. */
  lemma EmptyCallbackStaysPending(start: u64, now: u64, ms: u64)
    ensures var w := Run(start, [AddOp(1, now, ms, None, false)]);
            !Exact(w.q) && 1 in w.q.order && Cancel(w.q, 1) == (w.q, false)
  {
    var add := AddOp(1, now, ms, None, false);
    AddExact(Start(start).q, 1, now, ms, None, false);
    AfterFirst(Start(start), add, []);
    assert [add] + [] == [add];
  }

  // ---------- Histories ----------

  /** What holds of a single timer in every run: its deadline counts from the
      reading it was armed at, it is pending or used up, and only a recurring
      timer that was handed out has a last hand-out. */
  predicate Fate(t: Timer, armedAt: u64, pending: bool, delivered: nat, cancelled: nat, fired: bool) {
    && t.next == Add64(armedAt, t.ms)
    && (cancelled > 0 ==> t.cb.None?)
    && Once(pending) + (if t.recurring then 0 else delivered) + cancelled == 1
    && (fired ==> t.recurring && delivered > 0)
  }

  ghost predicate FateOf(w: World, a: nat)
    requires a in w.q.timers && a in w.armedAt
  {
    Fate(w.q.timers[a], w.armedAt[a], a in w.q.order, w.delivered[a], w.cancelled[a], a in w.lastFired)
  }

  /** Who raised the flag owes one call of the hook, or has made it. */
  predicate HooksAccounted(w: World) {
    w.raised == Once(w.q.tickled) && w.hooks + w.owed == w.owedAtNext + w.raised
  }

  /** What holds of every run, whatever the clock does. */
  ghost predicate History(w: World) {
    && w.armedAt.Keys == w.q.timers.Keys
    && HooksAccounted(w)
    && (forall a :: a in w.q.timers ==> FateOf(w, a))
    && (forall a :: a !in w.q.timers ==> a !in w.delivered && a !in w.cancelled && a !in w.lastFired)
  }

  lemma SortedOnce(ts: Timers, order: seq<nat>, a: nat)
    requires Sorted(ts, order)
    ensures multiset(order)[a] == Once(a in order)
  {
    if a in order {
      var i :| 0 <= i < |order| && order[i] == a;
      assert order == order[..i] + [a] + order[i + 1..];
      forall j | 0 <= j < |order| && j != i ensures order[j] != a { SortedAt(ts, order, i, j); }
      assert a !in order[..i] && a !in order[i + 1..];
    }
  }

  /** The history of every timer but `a` is the same in both worlds. */
  ghost predicate SameElse(w: World, w': World, a: nat) {
    && SameOthers(w.q, w'.q, a)
    && (forall b :: b != a ==> (b in w'.armedAt <==> b in w.armedAt))
    && (forall b :: b != a && b in w.armedAt && b in w'.armedAt ==> w'.armedAt[b] == w.armedAt[b])
    && (forall b :: b != a ==> w'.delivered[b] == w.delivered[b] && w'.cancelled[b] == w.cancelled[b])
    && (forall b :: b != a ==> (b in w'.lastFired <==> b in w.lastFired))
    && (forall b :: b != a && b in w.lastFired && b in w'.lastFired ==> w'.lastFired[b] == w.lastFired[b])
  }

  lemma HistoryKept(w: World, w': World, a: nat)
    requires History(w) && SameElse(w, w', a)
    requires a in w'.q.timers && a in w'.armedAt && FateOf(w', a)
    requires HooksAccounted(w')
    ensures History(w')
  {
    forall b | b in w'.q.timers ensures b in w'.armedAt && FateOf(w', b) {
      if b != a { assert FateOf(w, b); }
    }
  }

  lemma AddElse(w: World, op: Op)
    requires Valid(w.q) && History(w) && op.AddOp? && Enabled(w, op)
    ensures SameElse(w, Step(w, op), op.addr)
  {
    AddExact(w.q, op.addr, op.now, op.ms, op.cb, op.recurring);
  }

  lemma AddFate(w: World, op: Op)
    requires Valid(w.q) && History(w) && op.AddOp? && Enabled(w, op)
    ensures var w' := Step(w, op);
            op.addr in w'.q.timers && op.addr in w'.armedAt && FateOf(w', op.addr) && HooksAccounted(w')
  {
  }

  lemma AddHistory(w: World, op: Op)
    requires Valid(w.q) && History(w) && op.AddOp? && Enabled(w, op)
    ensures History(Step(w, op)) && SameElse(w, Step(w, op), op.addr)
  {
    AddElse(w, op);
    AddFate(w, op);
    HistoryKept(w, Step(w, op), op.addr);
  }

  lemma CancelHistory(w: World, a: nat)
    requires Valid(w.q) && History(w) && Enabled(w, CancelOp(a))
    ensures History(Step(w, CancelOp(a)))
  {
    CancelExact(w.q, a);
    assert FateOf(w, a);
    if Cancel(w.q, a).1 { HistoryKept(w, Step(w, CancelOp(a)), a); }
  }

  lemma RefreshHistory(w: World, a: nat, now: u64)
    requires Valid(w.q) && History(w) && Enabled(w, RefreshOp(a, now))
    ensures History(Step(w, RefreshOp(a, now)))
  {
    RefreshExact(w.q, a, now);
    assert FateOf(w, a);
    HistoryKept(w, Step(w, RefreshOp(a, now)), a);
  }

  lemma ResetCountsFrom(t: Timer, armedAt: u64, ms: u64, fromNow: bool, now: u64)
    requires t.next == Add64(armedAt, t.ms)
    ensures ResetTimer(t, ms, fromNow, now).next == Add64(if fromNow then now else armedAt, ms)
  {
  }

  lemma ResetElse(w: World, op: Op)
    requires Valid(w.q) && op.ResetOp? && Enabled(w, op)
    ensures SameElse(w, Step(w, op), op.addr)
  {
    ResetLockedExact(w.q, op.addr, op.ms, op.fromNow, op.now);
  }

  lemma ResetFate(w: World, op: Op)
    requires Valid(w.q) && History(w) && op.ResetOp? && Enabled(w, op)
    ensures var w' := Step(w, op);
            op.addr in w'.q.timers && op.addr in w'.armedAt && FateOf(w', op.addr) && HooksAccounted(w')
  {
    var a := op.addr;
    ResetLockedExact(w.q, a, op.ms, op.fromNow, op.now);
    assert FateOf(w, a);
    ResetCountsFrom(w.q.timers[a], w.armedAt[a], op.ms, op.fromNow, op.now);
  }

  lemma ResetHistory(w: World, op: Op)
    requires Valid(w.q) && History(w) && op.ResetOp? && Enabled(w, op)
    ensures History(Step(w, op))
  {
    ResetElse(w, op);
    ResetFate(w, op);
    HistoryKept(w, Step(w, op), op.addr);
  }

  lemma FiredFate(t: Timer, armedAt: u64, pending: bool, delivered: nat, cancelled: nat, fired: bool,
                  out: bool, now: u64)
    requires Fate(t, armedAt, pending, delivered, cancelled, fired) && (out ==> pending)
    ensures Fate(if out then Fired(t, now) else t, if out && t.recurring then now else armedAt,
                 pending && (out ==> t.recurring), delivered + Once(out), cancelled, fired || (out && t.recurring))
  {
  }

  lemma ExpireFacts(q: Queue, now: u64, probe: nat, a: nat)
    requires Valid(q) && a in q.timers
    ensures var (q', expired) := ListExpired(q, now, probe);
            && a in q'.timers && q'.timers[a] == (if a in expired then Fired(q.timers[a], now) else q.timers[a])
            && (a in expired ==> a in q.order)
            && (a in q'.order <==> a in q.order && (a in expired ==> q.timers[a].recurring))
            && multiset(expired)[a] == Once(a in expired)
  {
    ListExpiredExact(q, now, probe);
    SortedOnce(q.timers, ListExpired(q, now, probe).1, a);
  }

  lemma ExpireFate(w: World, now: u64, probe: nat, a: nat)
    requires Valid(w.q) && History(w) && a in w.q.timers
    ensures var w' := Step(w, ExpireOp(now, probe));
            a in w'.q.timers && a in w'.armedAt && FateOf(w', a)
  {
    ExpireFacts(w.q, now, probe, a);
    assert FateOf(w, a);
    FiredFate(w.q.timers[a], w.armedAt[a], a in w.q.order, w.delivered[a], w.cancelled[a], a in w.lastFired,
              a in ListExpired(w.q, now, probe).1, now);
  }

  lemma ExpireHistory(w: World, now: u64, probe: nat)
    requires Valid(w.q) && History(w)
    ensures History(Step(w, ExpireOp(now, probe)))
  {
    ExpireElsewhere(w, now, probe);
    forall a | a in w.q.timers
      ensures var w' := Step(w, ExpireOp(now, probe));
              a in w'.q.timers && a in w'.armedAt && FateOf(w', a)
    {
      ExpireFate(w, now, probe, a);
    }
  }

  lemma ExpireQueue(q: Queue, now: u64, probe: nat)
    requires Valid(q)
    ensures var (q', expired) := ListExpired(q, now, probe);
            q'.timers.Keys == q.timers.Keys && q'.tickled == q.tickled && forall a :: a in expired ==> a in q.timers
  {
    ListExpiredExact(q, now, probe);
  }

  /** The rest of the history: no timer is invented, and the hook stays silent. */
  lemma ExpireElsewhere(w: World, now: u64, probe: nat)
    requires Valid(w.q) && History(w)
    ensures var w' := Step(w, ExpireOp(now, probe));
            && w'.q.timers.Keys == w.q.timers.Keys && w'.armedAt.Keys == w.armedAt.Keys && HooksAccounted(w')
            && forall a :: a !in w.q.timers ==> a !in w'.delivered && a !in w'.cancelled && a !in w'.lastFired
  {
    ExpireQueue(w.q, now, probe);
  }

  lemma StepHistory(w: World, op: Op)
    requires Valid(w.q) && History(w) && Enabled(w, op)
    ensures History(Step(w, op))
  {
    match op
    case AddOp(_, _, _, _, _) => AddHistory(w, op);
    case CancelOp(a) => CancelHistory(w, a);
    case RefreshOp(a, now) => RefreshHistory(w, a, now);
    case ResetOp(_, _, _, _) => ResetHistory(w, op);
    case NextOp(now) =>
      forall a | a in w.q.timers ensures FateOf(Step(w, op), a) { assert FateOf(w, a); }
    case ExpireOp(now, probe) => ExpireHistory(w, now, probe);
    case HookOp =>
      forall a | a in w.q.timers ensures FateOf(Step(w, op), a) { assert FateOf(w, a); }
  }

  lemma {:induction false} AfterHistory(w: World, ops: seq<Op>)
    requires Valid(w.q) && History(w)
    ensures History(After(w, ops))
    decreases |ops|
  {
    if ops != [] {
      if Enabled(w, ops[0]) {
        StepHistory(w, ops[0]);
        StepKeepsValid(w, ops[0]);
        AfterHistory(Step(w, ops[0]), ops[1..]);
      } else {
        AfterHistory(w, ops[1..]);
      }
    }
  }

  /** In every run each one-shot timer ever added is exactly one of pending,
      delivered once, or cancelled once. */
  lemma OneShotFate(start: u64, ops: seq<Op>, a: nat)
    requires a in Run(start, ops).q.timers && !Run(start, ops).q.timers[a].recurring
    ensures var w := Run(start, ops);
            var pending, done, gone := a in w.q.order, w.delivered[a], w.cancelled[a];
            || (pending && done == 0 && gone == 0)
            || (!pending && done == 1 && gone == 0)
            || (!pending && done == 0 && gone == 1)
  {
    AfterHistory(Start(start), ops);
    assert FateOf(Run(start, ops), a);
  }

  lemma CancelledStep(w: World, op: Op, a: nat)
    requires Valid(w.q) && History(w) && Enabled(w, op) && a in w.cancelled
    ensures var w' := Step(w, op);
            a in w'.cancelled && w'.delivered[a] == w.delivered[a] && w'.cancelled[a] == w.cancelled[a]
  {
    match op
    case CancelOp(b) => CancelExact(w.q, b);
    case ExpireOp(now, probe) =>
      ListExpiredExact(w.q, now, probe);
      var expired := ListExpired(w.q, now, probe).1;
      SortedOnce(w.q.timers, expired, a);
    case _ =>
  }

  lemma {:induction false} CancelIsFinalFrom(w: World, more: seq<Op>, a: nat)
    requires Valid(w.q) && History(w) && a in w.cancelled
    ensures var w' := After(w, more);
            a in w'.cancelled && w'.delivered[a] == w.delivered[a] && w'.cancelled[a] == w.cancelled[a]
    decreases |more|
  {
    if more != [] {
      if Enabled(w, more[0]) {
        CancelledStep(w, more[0], a);
        StepHistory(w, more[0]);
        StepKeepsValid(w, more[0]);
        CancelIsFinalFrom(Step(w, more[0]), more[1..], a);
      } else {
        CancelIsFinalFrom(w, more[1..], a);
      }
    }
  }

  /** Once a cancel has returned true, no continuation of the run delivers the
      timer again, makes it pending, or cancels it a second time. */
  lemma CancelIsFinal(start: u64, ops: seq<Op>, more: seq<Op>, a: nat)
    requires a in Run(start, ops).cancelled
    ensures var w := Run(start, ops); var w' := After(w, more);
            w'.delivered[a] == w.delivered[a] && w'.cancelled[a] == 1 && a !in w'.q.order
  {
    var w := Run(start, ops);
    AfterHistory(Start(start), ops);
    CancelIsFinalFrom(w, more, a);
    AfterHistory(w, more);
    assert FateOf(After(w, more), a);
  }

  /** The deadline of every timer is the reading it was last armed from plus its
      period, so the subtraction in `reset` gives that reading back, and it is
      what `reset(ms, false)` counts the new period from. */
  lemma ArmingTime(start: u64, ops: seq<Op>, a: nat, ms: u64, now: u64)
    requires a in Run(start, ops).q.timers
    ensures var w := Run(start, ops); var t := w.q.timers[a];
            && a in w.armedAt && Sub64(t.next, t.ms) == w.armedAt[a]
            && (w.armedAt[a] + t.ms < TWO_TO_THE_64 ==> t.ms <= t.next && t.next - t.ms == w.armedAt[a])
            && ResetTimer(t, ms, false, now).next == Add64(w.armedAt[a], ms)
            && Step(w, ResetOp(a, ms, false, now)).armedAt[a] == w.armedAt[a]
  {
    AfterHistory(Start(start), ops);
    assert FateOf(Run(start, ops), a);
  }

  /** Between two `getNextTimer` calls the flag goes up at most once, and has
      gone up iff it is up. Whoever raises it owes one call of the hook, so at any
      moment the calls made since the last `getNextTimer` are that one and those
      owed from before, less those still to come. */
  lemma HookCallsExact(start: u64, ops: seq<Op>)
    ensures var w := Run(start, ops);
            && w.raised <= 1 && (w.raised == 1 <==> w.q.tickled)
            && w.hooks + w.owed == w.owedAtNext + w.raised
            && w.hooks <= w.owedAtNext + 1
  {
    AfterHistory(Start(start), ops);
  }

  /** The bound is reached: when everybody who owes a call makes it, the calls
      since the last `getNextTimer` are those owed from before and the one of the
      flag. */
  lemma {:induction false} HookCallsReached(w: World)
    requires Valid(w.q) && History(w)
    ensures var w' := After(w, seq(w.owed, _ => HookOp));
            w'.owed == 0 && w'.hooks == w.owedAtNext + Once(w.q.tickled)
    decreases w.owed
  {
    if w.owed > 0 {
      var w1 := Step(w, HookOp);
      StepHistory(w, HookOp);
      HookCallsReached(w1);
      AfterFirst(w, HookOp, seq(w1.owed, _ => HookOp));
      assert seq(w.owed, _ => HookOp) == [HookOp] + seq(w1.owed, _ => HookOp);
    }
  }

  /** So the promise of one call fails for two callers: the first raises the flag
      and is held up behind its unlock while the flag is taken down and raised by
      the second; then both call the hook. */
  lemma HookCalledTwice()
    ensures var w := Run(100, [AddOp(1, 100, 50, Some(7), false), NextOp(100), AddOp(2, 100, 40, Some(8), false),
                               HookOp, HookOp]);
            w.hooks == 2 && w.raised == 1
  {
  }

  // ---------- Runs under a clock that never goes back ----------

  /** What a clock that never goes back ensures of a step, as long as no deadline
      that is computed leaves the 64-bit range. A reading taken under the lock is
      not before any other. One taken ahead of the lock may be late; it must not
      be so late that expiry takes it for a clock that was set back. */
  predicate Regular(w: World, op: Op)
    requires Valid(w.q) && Enabled(w, op)
  {
    match op
    case AddOp(_, now, ms, _, _) => now + ms < TWO_TO_THE_64
    case CancelOp(_) => true
    case RefreshOp(a, now) => w.clock <= now && now + w.q.timers[a].ms < TWO_TO_THE_64
    case ResetOp(a, ms, fromNow, now) =>
      if fromNow then w.clock <= now && now + ms < TWO_TO_THE_64
      else a in w.armedAt && w.armedAt[a] + ms < TWO_TO_THE_64
    case NextOp(_) => true
    case ExpireOp(now, _) =>
      && !RolledOver(w.q.previous, now)
      && forall a :: a in w.q.order ==> a in w.q.timers && now + w.q.timers[a].ms < TWO_TO_THE_64
    case HookOp => true
  }

  predicate RegularRun(w: World, ops: seq<Op>)
    requires Valid(w.q)
    decreases |ops|
  {
    ops == [] ||
    (if Enabled(w, ops[0]) then
       StepKeepsValid(w, ops[0]);
       Regular(w, ops[0]) && RegularRun(Step(w, ops[0]), ops[1..])
     else RegularRun(w, ops[1..]))
  }

  /** No pending deadline lies before `limit`; an absent limit is infinity. */
  predicate NoneBefore(q: Queue, limit: Option<u64>) {
    forall a :: a in q.order ==> a in q.timers && limit.Some? && limit.value <= q.timers[a].next
  }

  /** A pending timer was armed in the past and is due a full period later, and
      a full period after it last fired. */
  predicate Paced(w: World, a: nat) {
    && a in w.q.timers && a in w.armedAt && w.armedAt[a] <= w.clock
    && w.q.timers[a].next == w.armedAt[a] + w.q.timers[a].ms
    && (a in w.lastFired ==> w.lastFired[a] + w.q.timers[a].ms <= w.q.timers[a].next)
  }

  predicate Steady(w: World) {
    && (forall a :: a in w.q.order ==> Paced(w, a))
    && (forall a :: a in w.lastFired ==> w.lastFired[a] <= w.clock)
    && (!w.q.tickled ==> NoneBefore(w.q, w.seen))
  }

  lemma FrontIsLeast(q: Queue)
    requires Valid(q)
    ensures NoneBefore(q, if q.order == [] then None else Some(q.timers[q.order[0]].next))
  {
  }

  /** A bound survives an operation on `a` that leaves `a` out of the set, does
      not lower its deadline, or leaves somebody else in front of it. */
  lemma BoundKept(q: Queue, q': Queue, a: nat, limit: Option<u64>)
    requires Valid(q) && Valid(q') && SameOthers(q, q', a) && NoneBefore(q, limit)
    requires a in q'.order ==>
               || (exists b :: b in q.order && b != a && !Less(q'.timers, a, b))
               || (a in q.order && q.timers[a].next <= q'.timers[a].next)
    ensures NoneBefore(q', limit)
  {
  }

  lemma SteadyKept(w: World, w': World, a: nat)
    requires Steady(w) && SameElse(w, w', a)
    requires w.clock <= w'.clock
    requires a in w'.q.order ==> Paced(w', a)
    requires a in w'.lastFired ==> a in w.lastFired && w'.lastFired[a] == w.lastFired[a]
    requires !w'.q.tickled ==> NoneBefore(w'.q, w'.seen)
    ensures Steady(w')
  {
  }

  lemma AddSteady(w: World, op: Op)
    requires Valid(w.q) && History(w) && Steady(w) && op.AddOp? && Enabled(w, op) && Regular(w, op)
    ensures Steady(Step(w, op))
  {
    var w' := Step(w, op);
    AddExact(w.q, op.addr, op.now, op.ms, op.cb, op.recurring);
    AddHistory(w, op);
    if !w'.q.tickled {
      var b :| b in w.q.order && !Less(w'.q.timers, op.addr, b);
      BoundKept(w.q, w'.q, op.addr, w.seen);
    }
    SteadyKept(w, w', op.addr);
  }

  lemma CancelSteady(w: World, a: nat)
    requires Valid(w.q) && Steady(w) && Enabled(w, CancelOp(a))
    ensures Steady(Step(w, CancelOp(a)))
  {
    var w' := Step(w, CancelOp(a));
    CancelExact(w.q, a);
    if Cancel(w.q, a).1 {
      if !w'.q.tickled { BoundKept(w.q, w'.q, a, w.seen); }
      SteadyKept(w, w', a);
    }
  }

  /** Refreshing goes around the hook, but cannot lower the front deadline. */
  lemma RefreshSteady(w: World, a: nat, now: u64)
    requires Valid(w.q) && Steady(w) && Enabled(w, RefreshOp(a, now)) && Regular(w, RefreshOp(a, now))
    ensures Steady(Step(w, RefreshOp(a, now)))
  {
    var w' := Step(w, RefreshOp(a, now));
    RefreshExact(w.q, a, now);
    if Refresh(w.q, a, now).1 {
      assert Paced(w, a);
      if !w'.q.tickled { BoundKept(w.q, w'.q, a, w.seen); }
    }
    SteadyKept(w, w', a);
  }

  lemma ResetPaced(w: World, op: Op)
    requires Valid(w.q) && History(w) && Steady(w) && op.ResetOp? && Enabled(w, op) && Regular(w, op)
    ensures var w' := Step(w, op);
            && (op.addr in w'.q.order ==> Paced(w', op.addr))
            && (op.addr in w'.lastFired ==> op.addr in w.lastFired && w'.lastFired[op.addr] == w.lastFired[op.addr])
            && w.clock <= w'.clock && w'.seen == w.seen
  {
    var a := op.addr;
    ResetLockedExact(w.q, a, op.ms, op.fromNow, op.now);
    assert FateOf(w, a);
    ResetCountsFrom(w.q.timers[a], w.armedAt[a], op.ms, op.fromNow, op.now);
    if a in w.q.order { assert Paced(w, a); }
  }

  lemma ResetBound(w: World, op: Op)
    requires Valid(w.q) && Steady(w) && op.ResetOp? && Enabled(w, op)
    ensures !Step(w, op).q.tickled ==> NoneBefore(Step(w, op).q, w.seen)
  {
    var q', a := Step(w, op).q, op.addr;
    ResetLockedExact(w.q, a, op.ms, op.fromNow, op.now);
    if q' != w.q && !q'.tickled {
      var b :| b in w.q.order && b != a && !Less(q'.timers, a, b);
      BoundKept(w.q, q', a, w.seen);
    }
  }

  lemma ResetSteady(w: World, op: Op)
    requires Valid(w.q) && History(w) && Steady(w) && op.ResetOp? && Enabled(w, op) && Regular(w, op)
    ensures Steady(Step(w, op))
  {
    ResetElse(w, op);
    ResetPaced(w, op);
    ResetBound(w, op);
    SteadyKept(w, Step(w, op), op.addr);
  }

  lemma ExpireKeepsKeys(q: Queue, now: u64, probe: nat)
    requires Valid(q)
    ensures Known(ListExpired(q, now, probe).0.timers, ListExpired(q, now, probe).0.order)
    ensures ListExpired(q, now, probe).0.timers.Keys == q.timers.Keys
  {
  }

  lemma ExpirePaced(w: World, now: u64, probe: nat, a: nat)
    requires Valid(w.q) && History(w) && Steady(w) && Regular(w, ExpireOp(now, probe))
    requires a in Step(w, ExpireOp(now, probe)).q.order
    ensures var w' := Step(w, ExpireOp(now, probe));
            Paced(w', a) && a in w.q.order && a in w.q.timers && w.q.timers[a].next <= w'.q.timers[a].next
  {
    StepKeepsValid(w, ExpireOp(now, probe));
    ExpireKeepsKeys(w.q, now, probe);
    ExpireFacts(w.q, now, probe, a);
    assert Paced(w, a);
  }

  /** Firing re-arms around the hook as well, and only ever moves deadlines
      away. */
  lemma ExpireSteady(w: World, now: u64, probe: nat)
    requires Valid(w.q) && History(w) && Steady(w) && Regular(w, ExpireOp(now, probe))
    ensures Steady(Step(w, ExpireOp(now, probe)))
  {
    var w' := Step(w, ExpireOp(now, probe));
    forall a | a in w'.q.order
      ensures Paced(w', a) && a in w.q.order && a in w.q.timers && w.q.timers[a].next <= w'.q.timers[a].next
    {
      ExpirePaced(w, now, probe, a);
    }
    ListExpiredExact(w.q, now, probe);
  }

  /** Without assumptions on the clock: a refresh keeps the bound iff the new
      deadline respects it, and an expiry iff every recurring timer it fires is
      armed again behind it. */
  lemma RefreshBoundExact(q: Queue, a: nat, now: u64, limit: Option<u64>)
    requires Valid(q) && NoneBefore(q, limit) && a in q.timers && q.timers[a].cb.Some?
    ensures limit.Some?
    ensures NoneBefore(Refresh(q, a, now).0, limit) <==> limit.value <= Add64(now, q.timers[a].ms)
  {
    RefreshExact(q, a, now);
    assert a in q.order;
    var q' := Refresh(q, a, now).0;
    if limit.value <= Add64(now, q.timers[a].ms) {
      forall b | b in q'.order ensures b in q'.timers && limit.value <= q'.timers[b].next {
        if b != a { assert b in q.order; }
      }
    }
  }

  lemma ExpireBoundExact(q: Queue, now: u64, probe: nat, limit: Option<u64>)
    requires Valid(q) && NoneBefore(q, limit)
    ensures NoneBefore(ListExpired(q, now, probe).0, limit) <==>
            forall a :: a in q.order && a in q.timers && Due(q, now, a) && q.timers[a].recurring ==>
              limit.Some? && limit.value <= Add64(now, q.timers[a].ms)
  {
    ListExpiredExact(q, now, probe);
    var (q', expired) := ListExpired(q, now, probe);
    assert forall a :: a in q'.order ==> a in q.order;
  }

  lemma StepSteady(w: World, op: Op)
    requires Valid(w.q) && History(w) && Steady(w) && Enabled(w, op) && Regular(w, op)
    ensures Steady(Step(w, op))
  {
    match op
    case AddOp(_, _, _, _, _) => AddSteady(w, op);
    case CancelOp(a) => CancelSteady(w, a);
    case RefreshOp(a, now) => RefreshSteady(w, a, now);
    case ResetOp(_, _, _, _) => ResetSteady(w, op);
    case NextOp(now) =>
      FrontIsLeast(w.q);
      forall a | a in w.q.order ensures Paced(Step(w, op), a) { assert Paced(w, a); }
    case ExpireOp(now, probe) => ExpireSteady(w, now, probe);
    case HookOp =>
      forall a | a in w.q.order ensures Paced(Step(w, op), a) { assert Paced(w, a); }
  }

  lemma {:induction false} AfterSteady(w: World, ops: seq<Op>)
    requires Valid(w.q) && History(w) && Steady(w) && RegularRun(w, ops)
    ensures Steady(After(w, ops))
    decreases |ops|
  {
    if ops != [] {
      if Enabled(w, ops[0]) {
        StepSteady(w, ops[0]);
        StepHistory(w, ops[0]);
        StepKeepsValid(w, ops[0]);
        AfterSteady(Step(w, ops[0]), ops[1..]);
      } else {
        AfterSteady(w, ops[1..]);
      }
    }
  }

  /** No wake-up is lost: while the flag is down, no pending deadline is earlier
      than the front deadline the last `getNextTimer` saw; if it saw none, none
      is pending. */
  lemma NoLostWakeUp(start: u64, ops: seq<Op>)
    requires RegularRun(Start(start), ops)
    ensures var w := Run(start, ops);
            && (!w.q.tickled && w.seen.None? ==> w.q.order == [])
            && (!w.q.tickled && w.seen.Some? ==>
                  forall a :: a in w.q.order ==> a in w.q.timers && w.seen.value <= w.q.timers[a].next)
  {
    AfterSteady(Start(start), ops);
    var w := Run(start, ops);
    if w.q.order != [] { assert w.q.order[0] in w.q.order; }
  }

  /** Two hand-outs of a recurring timer that is not reset in between are at
      least its period apart, and nothing is handed out before its deadline. */
  lemma RecurringGap(start: u64, ops: seq<Op>, now: u64, probe: nat, a: nat)
    requires RegularRun(Start(start), ops) && Regular(Run(start, ops), ExpireOp(now, probe))
    requires a in ListExpired(Run(start, ops).q, now, probe).1
    ensures var w := Run(start, ops);
            && a in w.q.timers && w.q.timers[a].next <= now
            && (a in w.lastFired ==> w.lastFired[a] + w.q.timers[a].ms <= now)
            && (w.q.timers[a].recurring ==>
                  var w' := Step(w, ExpireOp(now, probe)); a in w'.lastFired && w'.lastFired[a] == now)
  {
    AfterSteady(Start(start), ops);
    var w := Run(start, ops);
    StepKeepsValid(w, ExpireOp(now, probe));
    ExpireKeepsKeys(w.q, now, probe);
    ExpireFacts(w.q, now, probe, a);
    assert Paced(w, a);
  }

  /** How late a reading of expiry may be: as long as deadlines stay in range, the
      bound fails iff the reading counts as set back (`RolloverExact`: more than an
      hour behind the reading of the last expiry) and arms some pending recurring
      timer ahead of the bound. */
  lemma StaleReadingExact(q: Queue, now: u64, probe: nat, limit: Option<u64>)
    requires Valid(q) && NoneBefore(q, limit)
    requires forall a :: a in q.order && a in q.timers ==> now + q.timers[a].ms < TWO_TO_THE_64
    ensures !NoneBefore(ListExpired(q, now, probe).0, limit) <==>
            && RolledOver(q.previous, now)
            && exists a :: a in q.order && a in q.timers && q.timers[a].recurring && limit.Some? &&
                           now + q.timers[a].ms < limit.value
  {
    ExpireBoundExact(q, now, probe, limit);
  }

  /** A timer that is alone in the queue, with the flag down. */
  predicate Alone(q: Queue, a: nat, t: Timer) {
    Valid(q) && q.order == [a] && a in q.timers && q.timers[a] == t && !q.tickled
  }

  lemma AddedAndSeen(start: u64, a: nat, now: u64, ms: u64, cb: nat)
    requires now + ms < TWO_TO_THE_64
    ensures var add := AddOp(a, now, ms, Some(cb), true);
            Valid(Step(Start(start), add).q) &&
            var w := Step(Step(Start(start), add), NextOp(now));
            Alone(w.q, a, Timer(true, ms, now + ms, Some(cb))) && w.seen == Some(now + ms) && w.q.previous == start
  {
    AddExact(Start(start).q, a, now, ms, Some(cb), true);
  }

  lemma NotYetDue(q: Queue, a: nat, t: Timer, now: u64, probe: nat)
    requires Alone(q, a, t) && !RolledOver(q.previous, now) && now < t.next
    ensures Alone(ListExpired(q, now, probe).0, a, t) && ListExpired(q, now, probe).0.previous == now
  {
  }

  lemma FiredAhead(q: Queue, a: nat, t: Timer, now: u64, probe: nat)
    requires Alone(q, a, t) && RolledOver(q.previous, now) && t.recurring && now + t.ms < TWO_TO_THE_64
    ensures var q' := ListExpired(q, now, probe).0;
            a in q'.order && a in q'.timers && q'.timers[a].next == now + t.ms && !q'.tickled
  {
    ListExpiredExact(q, now, probe);
    assert a in q.order;
  }

  lemma TwoSteps(w: World, op1: Op, op2: Op, rest: seq<Op>)
    requires Valid(w.q) && Enabled(w, op1) && Valid(Step(w, op1).q) && Enabled(Step(w, op1), op2)
    ensures Valid(Step(Step(w, op1), op2).q)
    ensures After(w, [op1, op2] + rest) == After(Step(Step(w, op1), op2), rest)
  {
    AfterFirst(w, op1, [op2] + rest);
    AfterFirst(Step(w, op1), op2, rest);
    assert [op1] + ([op2] + rest) == [op1, op2] + rest;
  }

  lemma FiredLate(w: World, a: nat, t: Timer, first: u64, stale: u64, probe: nat)
    requires Alone(w.q, a, t) && !RolledOver(w.q.previous, first) && first < t.next
    requires RolledOver(first, stale) && t.recurring && stale + t.ms < TWO_TO_THE_64
    ensures var w' := After(w, [ExpireOp(first, probe), ExpireOp(stale, probe)]);
            && !w'.q.tickled && w'.seen == w.seen
            && a in w'.q.order && a in w'.q.timers && w'.q.timers[a].next == stale + t.ms
  {
    NotYetDue(w.q, a, t, first, probe);
    FiredAhead(ListExpired(w.q, first, probe).0, a, t, stale, probe);
    TwoSteps(w, ExpireOp(first, probe), ExpireOp(stale, probe), []);
    assert [ExpireOp(first, probe), ExpireOp(stale, probe)] + [] == [ExpireOp(first, probe), ExpireOp(stale, probe)];
  }

  /** It happens without the clock ever going back. A thread reads `stale` in
      `listExpiredCb` and is held up; a timer is added at `now` and seen; another
      thread expires nothing at `first`; then the first one gets the lock, and its
      reading counts as set back, as 10000000 does behind 14000000. */
  lemma StaleReadingLosesWakeUp(start: u64, stale: u64, now: u64, first: u64, ms: u64, cb: nat, probe: nat)
    requires start <= stale < now <= first < now + ms < TWO_TO_THE_64 && RolledOver(first, stale)
    ensures var w := Run(start, [AddOp(1, now, ms, Some(cb), true), NextOp(now)] +
                                [ExpireOp(first, probe), ExpireOp(stale, probe)]);
            && !w.q.tickled && w.seen == Some(now + ms)
            && 1 in w.q.order && 1 in w.q.timers && w.q.timers[1].next == stale + ms < now + ms
  {
    var add, t := AddOp(1, now, ms, Some(cb), true), Timer(true, ms, now + ms, Some(cb));
    AddedAndSeen(start, 1, now, ms, cb);
    TwoSteps(Start(start), add, NextOp(now), [ExpireOp(first, probe), ExpireOp(stale, probe)]);
    FiredLate(Step(Step(Start(start), add), NextOp(now)), 1, t, first, stale, probe);
  }

  /** When the clock is set back, a wake-up can be lost: refreshing moves the
      front deadline ahead of the one that was seen, and nobody is told. */
  lemma SetBackClockLosesWakeUp()
    ensures var w := Run(100, [AddOp(1, 100, 50, Some(7), false), NextOp(100), RefreshOp(1, 10)]);
            !w.q.tickled && w.seen == Some(150) && w.q.order == [1] && 1 in w.q.timers && w.q.timers[1].next == 60
  {
  }
}

/** The timer queue of sylar/timer.cpp on values: the records of all timers that
    were ever created, keyed by their address, and the ordered set `m_timers` as
    the sequence of addresses its iteration yields.

    The order of the set depends on the records, which change while the set
    exists; every function below therefore looks keys up at the moment the
    source does. */
module TimerQueue {
  import opened Prelude

  /** A timer's fields. The callback is an id; `None` is an empty
      `std::function`. */
  datatype Timer = Timer(recurring: bool, ms: u64, next: u64, cb: Option<nat>)

  type Timers = map<nat, Timer>

  datatype Queue = Queue(timers: Timers, order: seq<nat>, tickled: bool, previous: u64)

  // ---------- The ordered set ----------

  /** `Timer::Comparator`: by deadline, then by address. */
  predicate KeyLess(next1: u64, addr1: nat, next2: u64, addr2: nat) {
    if next1 < next2 then true
    else if next2 < next1 then false
    else addr1 < addr2
  }

  predicate Less(ts: Timers, a: nat, b: nat)
    requires a in ts && b in ts
  {
    KeyLess(ts[a].next, a, ts[b].next, b)
  }

  predicate Known(ts: Timers, order: seq<nat>) {
    forall i :: 0 <= i < |order| ==> order[i] in ts
  }

  predicate Sorted(ts: Timers, order: seq<nat>) {
    Known(ts, order) && forall i, j :: 0 <= i < j < |order| ==> Less(ts, order[i], order[j])
  }

  /** `std::set::lower_bound`: the first position whose key is not below. */
  function LowerBound(ts: Timers, order: seq<nat>, next: u64, addr: nat): (i: nat)
    requires Known(ts, order)
    ensures i <= |order|
    ensures forall j :: 0 <= j < i ==> KeyLess(ts[order[j]].next, order[j], next, addr)
    ensures i < |order| ==> !KeyLess(ts[order[i]].next, order[i], next, addr)
  {
    if order == [] || !KeyLess(ts[order[0]].next, order[0], next, addr) then 0
    else 1 + LowerBound(ts, order[1..], next, addr)
  }

  /** `std::set::find`, with `|order|` for `end()`. */
  function Find(ts: Timers, order: seq<nat>, a: nat): (i: nat)
    requires Known(ts, order) && a in ts
    ensures i == |order| || (i < |order| && order[i] == a)
  {
    var i := LowerBound(ts, order, ts[a].next, a);
    if i < |order| && order[i] == a then i else |order|
  }

  /** `std::set::insert`: nothing happens when an equal key is present. */
  function Insert(ts: Timers, order: seq<nat>, a: nat): seq<nat>
    requires Known(ts, order) && a in ts
  {
    var i := LowerBound(ts, order, ts[a].next, a);
    if i < |order| && order[i] == a then order else order[..i] + [a] + order[i..]
  }

  function Erase(order: seq<nat>, i: nat): seq<nat>
    requires i < |order|
  {
    order[..i] + order[i + 1..]
  }

  /** The queue's invariant: the set is strictly sorted, and every armed timer
      is found in it. */
  predicate Valid(q: Queue) {
    && Sorted(q.timers, q.order)
    && forall a {:trigger q.timers[a].cb} :: a in q.timers && q.timers[a].cb.Some? ==> a in q.order
  }

  /** The set holds exactly the armed timers. */
  predicate Exact(q: Queue) {
    Valid(q) && forall a :: a in q.order ==> a in q.timers && q.timers[a].cb.Some?
  }

  /** The order spelled out: by deadline, and by address among equal deadlines. */
  lemma SortedExact(ts: Timers, order: seq<nat>)
    ensures Sorted(ts, order) <==>
            && (forall a :: a in order ==> a in ts)
            && (forall i, j :: 0 <= i < j < |order| && order[i] in ts && order[j] in ts ==>
                  var (a, b) := (order[i], order[j]);
                  ts[a].next < ts[b].next || (ts[a].next == ts[b].next && a < b))
  {
  }

  lemma SortedAt(ts: Timers, order: seq<nat>, i: nat, j: nat)
    requires Sorted(ts, order) && i < |order| && j < |order|
    ensures i < j ==> Less(ts, order[i], order[j])
    ensures order[i] == order[j] ==> i == j
  {
  }

  /** A timer in the sorted set is where its own key says. */
  lemma FindSucceeds(ts: Timers, order: seq<nat>, a: nat)
    requires Sorted(ts, order) && a in order
    ensures Find(ts, order, a) < |order| && order[Find(ts, order, a)] == a
  {
  }

  lemma InsertedAt(order: seq<nat>, i: nat, a: nat)
    requires i <= |order|
    ensures var after := order[..i] + [a] + order[i..];
            && |after| == |order| + 1
            && (forall j :: 0 <= j < |after| ==>
                  after[j] == if j < i then order[j] else if j == i then a else order[j - 1])
            && (forall b :: b in after <==> b in order || b == a)
  {
    var after := order[..i] + [a] + order[i..];
    assert order == order[..i] + order[i..];
    assert forall b :: b in after <==> b in order[..i] || b == a || b in order[i..];
  }

  lemma InsertSorts(ts: Timers, order: seq<nat>, a: nat)
    requires Sorted(ts, order) && a in ts && a !in order
    ensures Sorted(ts, Insert(ts, order, a))
    ensures forall b :: b in Insert(ts, order, a) <==> b in order || b == a
  {
    var i := LowerBound(ts, order, ts[a].next, a);
    InsertedAt(order, i, a);
    var after := Insert(ts, order, a);
    assert Known(ts, after);
    forall j, k | 0 <= j < k < |after| ensures Less(ts, after[j], after[k]) {
      if i < k { SortedAt(ts, order, i, k - 1); }
    }
  }

  lemma EraseKeepsSorted(ts: Timers, order: seq<nat>, i: nat)
    requires Sorted(ts, order) && i < |order|
    ensures Sorted(ts, Erase(order, i))
    ensures forall b :: b in Erase(order, i) <==> b in order && b != order[i]
  {
  }

  /** A record may change while its timer is out of the set. */
  lemma UpdateOutside(ts: Timers, order: seq<nat>, a: nat, t: Timer)
    requires Sorted(ts, order) && a !in order
    ensures Sorted(ts[a := t], order)
  {
  }

  // ---------- The operations ----------

  /** The private `TimerManager::addTimer`: insert, and report whether the hook
      for a new front element is called. */
  function Place(q: Queue, a: nat): (Queue, bool)
    requires Known(q.timers, q.order) && a in q.timers
  {
    var order := Insert(q.timers, q.order, a);
    var atFront := order != [] && order[0] == a && !q.tickled;
    (q.(order := order, tickled := q.tickled || atFront), atFront)
  }

  function Add(q: Queue, a: nat, now: u64, ms: u64, cb: Option<nat>, recurring: bool): (Queue, bool)
    requires Known(q.timers, q.order) && a !in q.timers
  {
    Place(q.(timers := q.timers[a := Timer(recurring, ms, Add64(now, ms), cb)]), a)
  }

  /** `Timer::cancel`. Erasing `end()` is undefined; `CancelFinds` shows that it
      is never asked for. */
  function Cancel(q: Queue, a: nat): (Queue, bool)
    requires Known(q.timers, q.order) && a in q.timers
  {
    if q.timers[a].cb.Some? then
      var i := Find(q.timers, q.order, a);
      (q.(timers := q.timers[a := q.timers[a].(cb := None)],
          order := if i < |q.order| then Erase(q.order, i) else q.order), true)
    else (q, false)
  }

  function Refresh(q: Queue, a: nat, now: u64): (Queue, bool)
    requires Known(q.timers, q.order) && a in q.timers
  {
    if q.timers[a].cb.None? then (q, false)
    else
      var i := Find(q.timers, q.order, a);
      if i == |q.order| then (q, false)
      else
        var timers := q.timers[a := q.timers[a].(next := Add64(now, q.timers[a].ms))];
        (q.(timers := timers, order := Insert(timers, Erase(q.order, i), a)), true)
  }

  /** A timer's fields after a reset: the period counts from now, or from the
      moment the timer was armed last. */
  function ResetTimer(t: Timer, ms: u64, fromNow: bool, now: u64): Timer {
    var start := if fromNow then now else Sub64(t.next, t.ms);
    t.(ms := ms, next := Add64(start, ms))
  }

  /** `Timer::reset` once it holds the lock: queue, result, and whether the hook
      is called. */
  function ResetLocked(q: Queue, a: nat, ms: u64, fromNow: bool, now: u64): (Queue, bool, bool)
    requires Known(q.timers, q.order) && a in q.timers
  {
    var t := q.timers[a];
    if t.cb.None? then (q, false, false)
    else
      var i := Find(q.timers, q.order, a);
      if i == |q.order| then (q, false, false)
      else
        var timers := q.timers[a := ResetTimer(t, ms, fromNow, now)];
        var (q', hook) := Place(q.(timers := timers, order := Erase(q.order, i)), a);
        (q', true, hook)
  }

  /** `Timer::reset`, behind its test for a period that stays the same. */
  function Reset(q: Queue, a: nat, ms: u64, fromNow: bool, now: u64): (Queue, bool, bool)
    requires Known(q.timers, q.order) && a in q.timers
  {
    if ms == q.timers[a].ms && !fromNow then (q, true, false) else ResetLocked(q, a, ms, fromNow, now)
  }

  function NextTimer(q: Queue, now: u64): (Queue, u64)
    requires Known(q.timers, q.order)
  {
    var wait :=
      if q.order == [] then TWO_TO_THE_64 - 1
      else if q.timers[q.order[0]].next <= now then 0
      else q.timers[q.order[0]].next - now;
    (q.(tickled := false), wait)
  }

  const ONE_HOUR: u64 := 60 * 60 * 1000

  /** `detectClockRollover`, with the subtraction as the machine does it. */
  predicate RolledOver(previous: u64, now: u64) {
    now < previous && now < Sub64(previous, ONE_HOUR)
  }

  /** The end of the expired range: `lower_bound` of a probe with deadline `now`
      and some address, then on over the timers due at `now` itself. */
  function SkipEqual(ts: Timers, order: seq<nat>, i: nat, now: u64): (k: nat)
    requires Known(ts, order) && i <= |order|
    ensures i <= k <= |order|
    ensures forall j :: i <= j < k ==> ts[order[j]].next == now
    ensures k < |order| ==> ts[order[k]].next != now
    decreases |order| - i
  {
    if i < |order| && ts[order[i]].next == now then SkipEqual(ts, order, i + 1, now) else i
  }

  function ExpiredCount(q: Queue, now: u64, probe: nat): (k: nat)
    requires Known(q.timers, q.order)
    ensures k <= |q.order|
  {
    if RolledOver(q.previous, now) then |q.order|
    else SkipEqual(q.timers, q.order, LowerBound(q.timers, q.order, now, probe), now)
  }

  /** What happens to a timer when it fires: a recurring one is armed again at
      once, a one-shot loses its callback. */
  function Fired(t: Timer, now: u64): Timer {
    if t.recurring then t.(next := Add64(now, t.ms)) else t.(cb := None)
  }

  function FireOne(q: Queue, a: nat, now: u64): (q': Queue)
    requires Known(q.timers, q.order) && a in q.timers
    ensures Known(q'.timers, q'.order) && q'.timers.Keys == q.timers.Keys
  {
    var timers := q.timers[a := Fired(q.timers[a], now)];
    q.(timers := timers, order := if q.timers[a].recurring then Insert(timers, q.order, a) else q.order)
  }

  /** The loop over the expired timers. */
  function FireAll(q: Queue, expired: seq<nat>, now: u64): (q': Queue)
    requires Known(q.timers, q.order) && Known(q.timers, expired)
    ensures Known(q'.timers, q'.order) && q'.timers.Keys == q.timers.Keys
  {
    if expired == [] then q
    else
      var last := |expired| - 1;
      FireOne(FireAll(q, expired[..last], now), expired[last], now)
  }

  /** The callbacks of a list of timers, in order. */
  function Callbacks(ts: Timers, expired: seq<nat>): (cbs: seq<Option<nat>>)
    requires Known(ts, expired)
    ensures |cbs| == |expired| && forall i :: 0 <= i < |expired| ==> cbs[i] == ts[expired[i]].cb
  {
    seq(|expired|, i requires 0 <= i < |expired| => ts[expired[i]].cb)
  }

  /** `listExpiredCb`: the queue and the timers whose callbacks are handed out. */
  function ListExpired(q: Queue, now: u64, probe: nat): (Queue, seq<nat>)
    requires Known(q.timers, q.order)
  {
    if q.order == [] then (q, [])
    else if !RolledOver(q.previous, now) && q.timers[q.order[0]].next > now then (q.(previous := now), [])
    else
      var k := ExpiredCount(q, now, probe);
      (FireAll(q.(order := q.order[k..], previous := now), q.order[..k], now), q.order[..k])
  }

  // ---------- What each operation does to the set ----------

  /** `b` is pending in `q'` iff it was in `q`, the timer `a` aside. */
  ghost predicate SameOthers(q: Queue, q': Queue, a: nat) {
    && (forall b :: b != a ==> (b in q'.order <==> b in q.order))
    && (forall b :: b != a ==> (b in q'.timers <==> b in q.timers))
    && (forall b :: b != a && b in q.timers && b in q'.timers ==> q'.timers[b] == q.timers[b])
  }

  lemma PlaceInserts(q: Queue, a: nat)
    requires Sorted(q.timers, q.order) && a in q.timers && a !in q.order
    ensures var (q', hook) := Place(q, a);
            && Sorted(q'.timers, q'.order) && q'.timers == q.timers && a in q'.order
            && (forall b :: b in q'.order <==> b in q.order || b == a)
            && (hook <==> !q.tickled && forall b :: b in q.order ==> Less(q.timers, a, b))
            && (q'.tickled <==> q.tickled || hook)
  {
    InsertSorts(q.timers, q.order, a);
    var order := Insert(q.timers, q.order, a);
    if order[0] == a {
      forall b | b in q.order ensures Less(q.timers, a, b) {
        var k :| 0 <= k < |order| && order[k] == b;
      }
    } else {
      assert order[0] in q.order;
      var k :| 0 <= k < |order| && order[k] == a;
      assert Less(q.timers, order[0], order[k]);
    }
  }

  /** Adding a timer: it is pending with its deadline, everything else stays,
      and the set goes on holding exactly the armed timers iff the callback is
      not empty. */
  lemma AddExact(q: Queue, a: nat, now: u64, ms: u64, cb: Option<nat>, recurring: bool)
    requires Valid(q) && a !in q.timers
    ensures var (q', hook) := Add(q, a, now, ms, cb, recurring);
            && Valid(q') && SameOthers(q, q', a) && a in q'.order
            && q'.timers[a] == Timer(recurring, ms, Add64(now, ms), cb)
            && (Exact(q) ==> (Exact(q') <==> cb.Some?))
            && (hook <==> !q.tickled && forall b :: b in q.order ==> Less(q'.timers, a, b))
            && (q'.tickled <==> q.tickled || hook)
            && q'.previous == q.previous
  {
    var t := Timer(recurring, ms, Add64(now, ms), cb);
    assert forall b :: b in q.order ==> b in q.timers;
    UpdateOutside(q.timers, q.order, a, t);
    PlaceInserts(q.(timers := q.timers[a := t]), a);
  }

  /** `find` succeeds whenever `cancel`, `refresh` or `reset` get to call it. */
  lemma CancelFinds(q: Queue, a: nat)
    requires Valid(q) && a in q.timers && q.timers[a].cb.Some?
    ensures Find(q.timers, q.order, a) < |q.order|
  {
  }

  /** Clearing the callback first does not move the timer's place in the set. */
  lemma FindAfterClearing(ts: Timers, order: seq<nat>, a: nat)
    requires Known(ts, order) && a in ts
    ensures Find(ts[a := ts[a].(cb := None)], order, a) == Find(ts, order, a)
  {
  }

  /** Cancelling an armed timer takes it out of the set for good; cancelling any
      other does nothing. */
  lemma CancelExact(q: Queue, a: nat)
    requires Valid(q) && a in q.timers
    ensures var (q', ok) := Cancel(q, a);
            && Valid(q') && (Exact(q) ==> Exact(q'))
            && (ok <==> q.timers[a].cb.Some?)
            && (!ok ==> q' == q)
            && (ok ==> SameOthers(q, q', a) && a !in q'.order && q'.timers[a] == q.timers[a].(cb := None))
            && q'.tickled == q.tickled && q'.previous == q.previous
  {
    if q.timers[a].cb.Some? {
      FindSucceeds(q.timers, q.order, a);
      var i := Find(q.timers, q.order, a);
      EraseKeepsSorted(q.timers, q.order, i);
      UpdateOutside(q.timers, Erase(q.order, i), a, q.timers[a].(cb := None));
    }
  }

  /** The step shared by `refresh` and `reset`: out of the set, a new key, in
      again. */
  lemma Rekeyed(q: Queue, a: nat, t: Timer)
    requires Valid(q) && a in q.timers && a in q.order
    ensures var i := Find(q.timers, q.order, a);
            && i < |q.order|
            && var out := Erase(q.order, i);
            && Sorted(q.timers[a := t], out) && a !in out
            && (forall b :: b in out <==> b in q.order && b != a)
  {
  }

  /** Refreshing an armed timer moves its deadline to now + period and never
      calls the hook. */
  lemma RefreshExact(q: Queue, a: nat, now: u64)
    requires Valid(q) && a in q.timers
    ensures var (q', ok) := Refresh(q, a, now);
            && Valid(q') && (Exact(q) ==> Exact(q'))
            && (ok <==> q.timers[a].cb.Some?)
            && (!ok ==> q' == q)
            && (ok ==> SameOthers(q, q', a) && a in q.order && a in q'.order
                       && q'.timers[a] == q.timers[a].(next := Add64(now, q.timers[a].ms)))
            && q'.tickled == q.tickled && q'.previous == q.previous
  {
    if q.timers[a].cb.Some? {
      var t := q.timers[a].(next := Add64(now, q.timers[a].ms));
      Rekeyed(q, a, t);
      InsertSorts(q.timers[a := t], Erase(q.order, Find(q.timers, q.order, a)), a);
    }
  }

  lemma ReplacedExact(q: Queue, a: nat, t: Timer)
    requires Valid(q) && a in q.timers && q.timers[a].cb.Some? && t.cb == q.timers[a].cb
    ensures var i := Find(q.timers, q.order, a);
            && a in q.order && i < |q.order|
            && var (q', hook) := Place(q.(timers := q.timers[a := t], order := Erase(q.order, i)), a);
            && Valid(q') && (Exact(q) ==> Exact(q'))
            && SameOthers(q, q', a) && a in q'.order && q'.timers[a] == t
            && (hook <==> !q.tickled && forall b :: b in q.order && b != a ==> Less(q'.timers, a, b))
            && (q'.tickled <==> q.tickled || hook)
            && q'.previous == q.previous
  {
    Rekeyed(q, a, t);
    PlaceInserts(q.(timers := q.timers[a := t], order := Erase(q.order, Find(q.timers, q.order, a))), a);
  }

  /** The locked part of a reset: an armed timer gets the period, counted from
      now or from the time it was armed; any other is left alone. */
  lemma ResetLockedExact(q: Queue, a: nat, ms: u64, fromNow: bool, now: u64)
    requires Valid(q) && a in q.timers
    ensures var (q', ok, hook) := ResetLocked(q, a, ms, fromNow, now);
            var t := q.timers[a];
            && Valid(q') && (Exact(q) ==> Exact(q'))
            && (ok <==> t.cb.Some?)
            && (!ok ==> q' == q && !hook)
            && (ok ==>
                  && SameOthers(q, q', a) && a in q.order && a in q'.order
                  && (var start := if fromNow then now else Sub64(t.next, t.ms);
                      q'.timers[a] == Timer(t.recurring, ms, Add64(start, ms), t.cb))
                  && (hook <==> !q.tickled && forall b :: b in q.order && b != a ==> Less(q'.timers, a, b))
                  && (q'.tickled <==> q.tickled || hook))
            && q'.previous == q.previous
  {
    var t := q.timers[a];
    if t.cb.Some? {
      var t' := ResetTimer(t, ms, fromNow, now);
      ReplacedExact(q, a, t');
    }
  }

  /** Resetting: the early return reports success without looking at the timer;
      otherwise an armed timer gets the new period, counted from now or from the
      time it was armed. */
  lemma ResetExact(q: Queue, a: nat, ms: u64, fromNow: bool, now: u64)
    requires Valid(q) && a in q.timers
    ensures var (q', ok, hook) := Reset(q, a, ms, fromNow, now);
            var t := q.timers[a];
            var early := ms == t.ms && !fromNow;
            && Valid(q') && (Exact(q) ==> Exact(q'))
            && (ok <==> early || t.cb.Some?)
            && (early || !ok ==> q' == q && !hook)
            && (!early && ok ==>
                  && SameOthers(q, q', a) && a in q.order && a in q'.order
                  && (var start := if fromNow then now else Sub64(t.next, t.ms);
                      q'.timers[a] == Timer(t.recurring, ms, Add64(start, ms), t.cb))
                  && (hook <==> !q.tickled && forall b :: b in q.order && b != a ==> Less(q'.timers, a, b))
                  && (q'.tickled <==> q.tickled || hook))
            && q'.previous == q.previous
  {
    if !(ms == q.timers[a].ms && !fromNow) { ResetLockedExact(q, a, ms, fromNow, now); }
  }

  /** How long to wait for the first deadline of the set: for ever, not at all, or up
      to the earliest deadline of all. */
  ghost predicate WaitsFor(q: Queue, now: u64, wait: u64) {
    && (q.order == [] ==> wait == 18446744073709551615)
    && (q.order != [] ==>
          && (wait == 0 <==> exists a :: a in q.order && a in q.timers && q.timers[a].next <= now)
          && (wait != 0 ==>
                && (exists a :: a in q.order && a in q.timers && q.timers[a].next == now + wait)
                && (forall a :: a in q.order && a in q.timers ==> now + wait <= q.timers[a].next)))
  }

  /** What `getNextTimer` answers, and that it only takes the flag down. */
  lemma NextTimerExact(q: Queue, now: u64)
    requires Valid(q)
    ensures WaitsFor(q, now, NextTimer(q, now).1)
    ensures NextTimer(q, now).0 == Queue(q.timers, q.order, false, q.previous)
  {
    if q.order != [] {
      var first := q.order[0];
      assert first in q.order && first in q.timers;
      forall a | a in q.order ensures a in q.timers && q.timers[first].next <= q.timers[a].next {
        var i :| 0 <= i < |q.order| && q.order[i] == a;
        SortedAt(q.timers, q.order, 0, i);
      }
    }
  }

  /** A clock reading counts as set back iff it lies more than an hour before
      the previous one; within the first hour of the epoch any step back
      does. */
  lemma RolloverExact(previous: u64, now: u64)
    ensures RolledOver(previous, now) <==> now < previous && (previous < 3600000 || previous - now > 3600000)
  {
  }

  // ---------- Expiry ----------

  /** Pending timers this call hands out: those due at or before `now`, or all
      of them after the clock was set back. */
  predicate Due(q: Queue, now: u64, a: nat)
    requires a in q.timers
  {
    RolledOver(q.previous, now) || q.timers[a].next <= now
  }

  /** The expired range is the due part of the set, whatever the probe's
      address compares to. */
  lemma ExpiredCountExact(q: Queue, now: u64, probe: nat)
    requires Valid(q)
    ensures var k := ExpiredCount(q, now, probe);
            forall i :: 0 <= i < |q.order| ==> (Due(q, now, q.order[i]) <==> i < k)
  {
  }

  /** `expired` have been fired between `q` and `q'`, and nothing else. */
  ghost predicate AllFired(q: Queue, q': Queue, expired: seq<nat>, now: u64)
    requires Known(q.timers, expired)
  {
    && Sorted(q'.timers, q'.order) && q'.timers.Keys == q.timers.Keys
    && (forall a :: a in q'.order <==> a in q.order || (a in expired && q.timers[a].recurring))
    && (forall a :: a in q.timers && a !in expired ==> q'.timers[a] == q.timers[a])
    && (forall a :: a in expired ==> q'.timers[a] == Fired(q.timers[a], now))
    && q'.tickled == q.tickled && q'.previous == q.previous
  }

  lemma OneMoreFired(q: Queue, q': Queue, front: seq<nat>, a: nat, now: u64)
    requires Known(q.timers, front) && a in q.timers && a !in front && a !in q.order
    requires AllFired(q, q', front, now)
    ensures AllFired(q, FireOne(q', a, now), front + [a], now)
  {
    UpdateOutside(q'.timers, q'.order, a, Fired(q.timers[a], now));
    if q.timers[a].recurring { InsertSorts(q'.timers[a := Fired(q.timers[a], now)], q'.order, a); }
  }

  /** What the loop over the expired timers does to records and set. */
  lemma {:induction false} FireAllExact(q: Queue, expired: seq<nat>, now: u64)
    requires Sorted(q.timers, q.order) && Sorted(q.timers, expired)
    requires forall a :: a in expired ==> a !in q.order
    ensures AllFired(q, FireAll(q, expired, now), expired, now)
    decreases |expired|
  {
    if expired != [] {
      var last := |expired| - 1;
      var front, a := expired[..last], expired[last];
      assert expired == front + [a];
      assert forall k :: 0 <= k < last ==> Less(q.timers, expired[k], expired[last]);
      FireAllExact(q, front, now);
      OneMoreFired(q, FireAll(q, front, now), front, a, now);
    }
  }

  lemma FireAllStep(q: Queue, expired: seq<nat>, k: nat, now: u64)
    requires Known(q.timers, q.order) && Known(q.timers, expired) && k < |expired|
    ensures FireAll(q, expired[..k + 1], now) == FireOne(FireAll(q, expired[..k], now), expired[k], now)
    ensures Callbacks(q.timers, expired[..k + 1]) == Callbacks(q.timers, expired[..k]) + [q.timers[expired[k]].cb]
  {
    assert expired[..k + 1][..k] == expired[..k];
  }

  /** The expired range and the rest of the set. */
  lemma ExpiredSplit(q: Queue, now: u64, probe: nat)
    requires Valid(q)
    ensures var k := ExpiredCount(q, now, probe);
            && Sorted(q.timers, q.order[..k]) && Sorted(q.timers, q.order[k..])
            && (forall a :: a in q.order[..k] <==> a in q.order && Due(q, now, a))
            && (forall a :: a in q.order[k..] <==> a in q.order && !Due(q, now, a))
  {
  }

  /** What a call that hands out `expired` does: these are precisely the due
      timers, each once and in (deadline, address) order; one-shots end disarmed
      and recurring ones are armed again at now + period; all else stays. */
  ghost predicate Expires(q: Queue, now: u64, q': Queue, expired: seq<nat>)
    requires Known(q.timers, q.order)
  {
    && Sorted(q.timers, expired)
    && (forall a :: a in expired <==> a in q.order && a in q.timers && Due(q, now, a))
    && q'.timers.Keys == q.timers.Keys
    && (forall a :: a in q'.order <==> a in q.order && (a in expired ==> a in q.timers && q.timers[a].recurring))
    && (forall a :: a in q.timers ==>
          q'.timers[a] == if a in expired then Fired(q.timers[a], now) else q.timers[a])
    && q'.tickled == q.tickled
    && q'.previous == if q.order == [] then q.previous else now
  }

  lemma RangeExpires(q: Queue, now: u64, probe: nat)
    requires Valid(q) && q.order != []
    ensures var k := ExpiredCount(q, now, probe);
            var q' := FireAll(q.(order := q.order[k..], previous := now), q.order[..k], now);
            Sorted(q'.timers, q'.order) && Expires(q, now, q', q.order[..k])
  {
    ExpiredSplit(q, now, probe);
    var k := ExpiredCount(q, now, probe);
    FireAllExact(q.(order := q.order[k..], previous := now), q.order[..k], now);
  }

  lemma FrontNotDue(q: Queue, now: u64)
    requires Valid(q) && q.order != [] && !RolledOver(q.previous, now) && q.timers[q.order[0]].next > now
    ensures Expires(q, now, q.(previous := now), [])
  {
  }

  lemma ExpiresKeepsValid(q: Queue, now: u64, q': Queue, expired: seq<nat>)
    requires Valid(q) && Sorted(q'.timers, q'.order) && Expires(q, now, q', expired)
    ensures Valid(q') && (Exact(q) ==> Exact(q'))
  {
  }

  /** Exact expiry, for every branch of `listExpiredCb`. */
  lemma ListExpiredExact(q: Queue, now: u64, probe: nat)
    requires Valid(q)
    ensures var (q', expired) := ListExpired(q, now, probe);
            Valid(q') && (Exact(q) ==> Exact(q')) && Expires(q, now, q', expired)
  {
    var (q', expired) := ListExpired(q, now, probe);
    if q.order != [] {
      if !RolledOver(q.previous, now) && q.timers[q.order[0]].next > now {
        FrontNotDue(q, now);
      } else {
        RangeExpires(q, now, probe);
      }
    }
    ExpiresKeepsValid(q, now, q', expired);
  }

  /** The result does not depend on where the allocator puts the probe. */
  lemma ProbeIrrelevant(q: Queue, now: u64, probe1: nat, probe2: nat)
    requires Valid(q)
    ensures ListExpired(q, now, probe1) == ListExpired(q, now, probe2)
  {
    ExpiredCountExact(q, now, probe1);
    ExpiredCountExact(q, now, probe2);
    var k1, k2 := ExpiredCount(q, now, probe1), ExpiredCount(q, now, probe2);
    assert k1 < |q.order| ==> !Due(q, now, q.order[k1]);
    assert k2 < |q.order| ==> !Due(q, now, q.order[k2]);
  }

  /** After the call a pending timer is due at or before `now` iff it was just
      armed again without moving past `now`: a period of 0, or a sum that wraps
      around. */
  lemma NothingLeftDue(q: Queue, now: u64, probe: nat, a: nat)
    requires Valid(q)
    requires a in ListExpired(q, now, probe).0.order
    ensures var (q', expired) := ListExpired(q, now, probe);
            a in q'.timers &&
            (q'.timers[a].next <= now <==>
             a in expired && (q.timers[a].ms == 0 || now + q.timers[a].ms >= TWO_TO_THE_64))
  {
    ListExpiredExact(q, now, probe);
  }

  // ---------- The operations step by step, as the objects perform them ----------

  lemma CancelSteps(q: Queue, a: nat)
    requires Valid(q) && a in q.timers && q.timers[a].cb.Some?
    ensures var timers := q.timers[a := q.timers[a].(cb := None)];
            var i := Find(q.timers, q.order, a);
            && i < |q.order|
            && Cancel(q, a) == (q.(timers := timers, order := Erase(q.order, i)), true)
            && Valid(Cancel(q, a).0)
  {
    CancelFinds(q, a);
    CancelExact(q, a);
  }

  lemma RefreshSteps(q: Queue, a: nat, now: u64)
    requires Valid(q) && a in q.timers && q.timers[a].cb.Some?
    ensures var i := Find(q.timers, q.order, a);
            && i < |q.order| && Valid(Refresh(q, a, now).0)
            && var timers := q.timers[a := q.timers[a].(next := Add64(now, q.timers[a].ms))];
            Refresh(q, a, now) == (q.(timers := timers, order := Insert(timers, Erase(q.order, i), a)), true)
  {
    CancelFinds(q, a);
    RefreshExact(q, a, now);
  }

  lemma ResetSteps(q: Queue, a: nat, ms: u64, fromNow: bool, now: u64)
    requires Valid(q) && a in q.timers && q.timers[a].cb.Some? && !(ms == q.timers[a].ms && !fromNow)
    ensures var i := Find(q.timers, q.order, a);
            && i < |q.order| && Valid(Reset(q, a, ms, fromNow, now).0)
            && var timers := q.timers[a := ResetTimer(q.timers[a], ms, fromNow, now)];
            var (q', hook) := Place(q.(timers := timers, order := Erase(q.order, i)), a);
            Reset(q, a, ms, fromNow, now) == (q', true, hook)
  {
    CancelFinds(q, a);
    ResetExact(q, a, ms, fromNow, now);
  }

  lemma AddSteps(q: Queue, a: nat, now: u64, ms: u64, cb: Option<nat>, recurring: bool)
    requires Valid(q) && a !in q.timers
    ensures Valid(Add(q, a, now, ms, cb, recurring).0)
  {
  }

  /** The two ways to return early, and the rest, each on its own. */
  lemma ListExpiredCases(q: Queue, now: u64, probe: nat)
    requires Known(q.timers, q.order)
    ensures q.order == [] ==> ListExpired(q, now, probe) == (q, [])
    ensures q.order != [] && !RolledOver(q.previous, now) && q.timers[q.order[0]].next > now ==>
              ListExpired(q, now, probe) == (q.(previous := now), [])
    ensures q.order != [] && (RolledOver(q.previous, now) || q.timers[q.order[0]].next <= now) ==>
              var k := ExpiredCount(q, now, probe);
              var rest := q.(previous := now).(order := q.order[k..]);
              ListExpired(q, now, probe) == (FireAll(rest, q.order[..k], now), q.order[..k])
  {
  }

  lemma ListExpiredSteps(q: Queue, now: u64, probe: nat)
    requires Valid(q)
    ensures Valid(ListExpired(q, now, probe).0)
  {
    ListExpiredExact(q, now, probe);
  }
}

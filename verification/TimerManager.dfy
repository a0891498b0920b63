/** The objects of sylar/timer.cpp: timers that are changed in place, and the
    manager whose ordered set holds references to them. Every method is proved
    against the corresponding function of `TimerQueue`; one call is one critical
    section of the manager's lock. */
module TimerManagers {
  import opened Prelude
  import Q = TimerQueue

  /** Changing a timer's fields changes its record, and nothing else; `before`
      are the records up to then. */
  lemma RecordChanged(m: TimerManager, t: Timer, before: Q.Timers)
    requires m.Registered() && t.addr in m.all && m.all[t.addr] == t
    requires before.Keys == m.all.Keys
    requires forall a :: a in m.all && m.all[a] != t ==> before[a] == m.all[a].Fields()
    ensures m.Records() == before[t.addr := t.Fields()]
  {
  }

  ghost function Addresses(ts: seq<Timer>): (addrs: seq<nat>)
    ensures |addrs| == |ts| && forall i :: 0 <= i < |ts| ==> addrs[i] == ts[i].addr
  {
    seq(|ts|, i requires 0 <= i < |ts| => ts[i].addr)
  }

  lemma AddressesSpliced(ts: seq<Timer>, i: nat, t: Timer)
    requires i <= |ts|
    ensures Addresses(ts[..i] + [t] + ts[i..]) == Addresses(ts)[..i] + [t.addr] + Addresses(ts)[i..]
    ensures i < |ts| ==> Addresses(ts[..i] + ts[i + 1..]) == Addresses(ts)[..i] + Addresses(ts)[i + 1..]
  {
  }

  lemma AddressesTaken(ts: seq<Timer>, i: nat)
    requires i <= |ts|
    ensures Addresses(ts[..i]) == Addresses(ts)[..i] && Addresses(ts[i..]) == Addresses(ts)[i..]
  {
  }

  ghost predicate Distinct(ts: seq<Timer>) {
    forall i, j :: 0 <= i < j < |ts| ==> ts[i] != ts[j]
  }

  lemma SetIsDistinct(q: Q.Queue, timers: seq<Timer>)
    requires Q.Valid(q) && Addresses(timers) == q.order
    ensures Distinct(timers)
  {
  }

  lemma StillValid(m: TimerManager, q: Q.Queue)
    requires m.Linked() && m.View() == q && Q.Valid(q)
    ensures m.Valid()
  {
  }

  class Timer {
    const addr: nat
    const recurring: bool
    const manager: TimerManager
    var ms: u64
    var next: u64
    var cb: Option<nat>

    constructor (addr: nat, now: u64, ms: u64, cb: Option<nat>, recurring: bool, manager: TimerManager)
      ensures this.addr == addr && this.manager == manager
      ensures Fields() == Q.Timer(recurring, ms, Add64(now, ms), cb)
    {
      this.addr, this.recurring, this.manager := addr, recurring, manager;
      this.ms, this.cb := ms, cb;
      this.next := Add64(now, ms);
    }

    ghost function Fields(): Q.Timer
      reads this
    {
      Q.Timer(recurring, ms, next, cb)
    }

    /** The timer is one its manager has created. */
    ghost predicate Owned()
      reads this, manager
    {
      addr in manager.all && manager.all[addr] == this
    }

    method Cancel() returns (ok: bool)
      requires Owned() && manager.Valid()
      modifies this, manager
      ensures manager.Valid() && manager.SameTimers(old(manager.all), old(manager.objects))
      ensures (manager.View(), ok) == Q.Cancel(old(manager.View()), addr)
      ensures manager.hookCalls == old(manager.hookCalls)
    {
      if cb == None {
        return false;
      }
      ghost var view := manager.View();
      Q.CancelSteps(view, addr);
      CancelArmed();
      StillValid(manager, Q.Cancel(view, addr).0);
      return true;
    }

    /** The body of `cancel` behind its test: erasing needs the timer found. */
    method CancelArmed()
      requires Owned() && manager.Linked()
      requires Q.Find(manager.View().timers, manager.View().order, addr) < |manager.View().order|
      modifies this, manager
      ensures manager.Linked() && manager.SameTimers(old(manager.all), old(manager.objects))
      ensures var q := old(manager.View());
              manager.View() == q.(timers := q.timers[addr := q.timers[addr].(cb := None)],
                                   order := Q.Erase(q.order, Q.Find(q.timers, q.order, addr)))
      ensures manager.hookCalls == old(manager.hookCalls)
    {
      ghost var view := manager.View();
      Q.FindAfterClearing(view.timers, view.order, addr);
      ClearCallback();
      var it := manager.Find(this);
      manager.EraseAt(it);
    }

    method ClearCallback()
      requires Owned() && manager.Linked()
      modifies this`cb
      ensures manager.Linked()
      ensures var q := old(manager.View());
              manager.View() == q.(timers := q.timers[addr := q.timers[addr].(cb := None)])
    {
      ghost var view := manager.View();
      cb := None;
      RecordChanged(manager, this, view.timers);
    }

    /** Period and deadline change while the timer is out of the set. */
    method SetTime(ms: u64, next: u64)
      requires Owned() && manager.Linked()
      modifies this
      ensures manager.Linked()
      ensures var q := old(manager.View());
              manager.View() == q.(timers := q.timers[addr := q.timers[addr].(ms := ms, next := next)])
    {
      ghost var view := manager.View();
      this.ms := ms;
      this.next := next;
      RecordChanged(manager, this, view.timers);
    }

    method Refresh(now: u64) returns (ok: bool)
      requires Owned() && manager.Linked()
      modifies this, manager
      ensures manager.Linked() && manager.SameTimers(old(manager.all), old(manager.objects))
      ensures old(manager.Valid()) ==> manager.Valid()
      ensures (manager.View(), ok) == Q.Refresh(old(manager.View()), addr, now)
      ensures manager.hookCalls == old(manager.hookCalls)
    {
      if cb == None {
        return false;
      }
      ghost var view := manager.View();
      var it := manager.Find(this);
      if it == |manager.timers| {
        return false;
      }
      Move(it, now);
      if Q.Valid(view) { Q.RefreshSteps(view, addr, now); }
      return true;
    }

    /** The deadline counts from `now` on; the set is told by erasing and
        inserting. */
    method Move(it: nat, now: u64)
      requires Owned() && manager.Linked() && it < |manager.timers|
      modifies this, manager
      ensures manager.Linked() && manager.SameTimers(old(manager.all), old(manager.objects))
      ensures manager.View().timers == old(manager.View()).timers[addr := old(Fields()).(next := Add64(now, old(ms)))]
      ensures manager.View() == old(manager.View()).(
                          timers := manager.View().timers,
                          order := Q.Insert(manager.View().timers, Q.Erase(old(manager.View()).order, it), addr))
      ensures manager.hookCalls == old(manager.hookCalls)
    {
      manager.EraseAt(it);
      SetTime(ms, Add64(now, ms));
      manager.Insert(this);
    }

    method Reset(ms: u64, fromNow: bool, now: u64) returns (ok: bool)
      requires Owned() && manager.Linked()
      modifies this, manager
      ensures manager.Linked() && manager.SameTimers(old(manager.all), old(manager.objects))
      ensures old(manager.Valid()) ==> manager.Valid()
      ensures var (view, done, hook) := Q.Reset(old(manager.View()), addr, ms, fromNow, now);
              manager.View() == view && ok == done
              && manager.hookCalls == old(manager.hookCalls) + if hook then 1 else 0
    {
      if ms == this.ms && !fromNow {
        return true;
      }
      if cb == None {
        return false;
      }
      ghost var view := manager.View();
      var it := manager.Find(this);
      if it == |manager.timers| {
        return false;
      }
      ResetAt(it, ms, fromNow, now);
      if Q.Valid(view) { Q.ResetSteps(view, addr, ms, fromNow, now); }
      return true;
    }

    /** The body of `reset` behind its tests: the new period counts from `now`, or
        from the moment the timer was armed last. */
    method ResetAt(it: nat, ms: u64, fromNow: bool, now: u64)
      requires Owned() && manager.Linked() && it < |manager.timers|
      modifies this, manager
      ensures manager.Linked() && manager.SameTimers(old(manager.all), old(manager.objects))
      ensures var q := old(manager.View());
              var timers := q.timers[addr := Q.ResetTimer(q.timers[addr], ms, fromNow, now)];
              var moved := q.(timers := timers, order := Q.Erase(q.order, it));
              && Q.Known(moved.timers, moved.order)
              && manager.View() == Q.Place(moved, addr).0
              && manager.hookCalls == old(manager.hookCalls) + if Q.Place(moved, addr).1 then 1 else 0
    {
      manager.EraseAt(it);
      var start: u64 := 0;
      if fromNow {
        start := now;
      } else {
        start := Sub64(next, this.ms);
      }
      SetTime(ms, Add64(start, ms));
      manager.Place(this);
    }
  }

  class TimerManager {
    /** `m_timers` in iteration order. */
    var timers: seq<Timer>
    var tickled: bool
    var previousTime: u64
    /** Calls of `onTimerInsertedAtFront` so far. */
    var hookCalls: nat
    /** Every timer this manager has created, by address. */
    ghost var all: map<nat, Timer>
    ghost var objects: set<Timer>

    ghost predicate Registered()
      reads this`all, this`objects
    {
      forall a :: a in all ==> all[a] in objects && all[a].addr == a && all[a].manager == this
    }

    ghost function Records(): Q.Timers
      requires Registered()
      reads this`all, this`objects, objects
    {
      map a | a in all :: all[a].Fields()
    }

    /** The manager and its timers refer to each other, and the set refers to
        timers of this manager only. */
    ghost predicate Linked()
      reads this`all, this`objects, this`timers
    {
      && Registered()
      && (forall i :: 0 <= i < |timers| ==> timers[i].addr in all && all[timers[i].addr] == timers[i])
    }

    ghost function Order(): seq<nat>
      reads this`timers
    {
      Addresses(timers)
    }

    ghost function View(): Q.Queue
      requires Linked()
      reads this, objects
    {
      Q.Queue(Records(), Order(), tickled, previousTime)
    }

    /** Where the expired range ends, once it is known whether the clock was set
        back. */
    ghost function ExpiredEnd(now: u64, probe: nat, rollover: bool): (it: nat)
      requires Linked()
      reads this, objects
      ensures it <= |timers|
    {
      var q := View();
      if rollover then |q.order|
      else Q.SkipEqual(q.timers, q.order, Q.LowerBound(q.timers, q.order, now, probe), now)
    }

    ghost predicate SameTimers(all: map<nat, Timer>, objects: set<Timer>)
      reads this`all, this`objects
    {
      this.all == all && this.objects == objects
    }

    ghost predicate Valid()
      reads this, objects
    {
      Linked() && Q.Valid(View())
    }

    constructor (now: u64)
      ensures Valid() && all == map[] && hookCalls == 0
      ensures View() == Q.Queue(map[], [], false, now)
    {
      timers, tickled, previousTime, hookCalls := [], false, now, 0;
      all, objects := map[], {};
    }

    method LowerBound(next: u64, addr: nat) returns (i: nat)
      requires Linked()
      ensures Q.Known(View().timers, View().order)
      ensures i == Q.LowerBound(View().timers, View().order, next, addr)
    {
      i := 0;
      while i < |timers| && Q.KeyLess(timers[i].next, timers[i].addr, next, addr)
        invariant 0 <= i <= |timers|
        invariant forall j :: 0 <= j < i ==> Q.KeyLess(timers[j].next, timers[j].addr, next, addr)
      {
        i := i + 1;
      }
      ghost var view := View();
      assert forall j :: 0 <= j < |timers| ==>
               view.order[j] == timers[j].addr && view.timers[view.order[j]] == timers[j].Fields();
    }

    method Find(t: Timer) returns (i: nat)
      requires Linked() && t.addr in all && all[t.addr] == t
      ensures Q.Known(View().timers, View().order) && t.addr in View().timers
      ensures i == Q.Find(View().timers, View().order, t.addr)
    {
      i := LowerBound(t.next, t.addr);
      if !(i < |timers| && timers[i] == t) {
        assert i < |timers| ==> timers[i].addr != t.addr;
        i := |timers|;
      }
    }

    method EraseAt(i: nat)
      requires Linked() && i < |timers|
      modifies this`timers
      ensures Linked() && View() == old(View()).(order := Q.Erase(old(View()).order, i))
    {
      AddressesSpliced(timers, i, timers[i]);
      timers := timers[..i] + timers[i + 1..];
    }

    method Insert(t: Timer)
      requires Linked() && t.addr in all && all[t.addr] == t
      modifies this`timers
      ensures Linked()
      ensures Q.Known(old(View()).timers, old(View()).order) && t.addr in old(View()).timers
      ensures View() == old(View()).(order := Q.Insert(old(View()).timers, old(View()).order, t.addr))
    {
      var i := LowerBound(t.next, t.addr);
      AddressesSpliced(timers, i, t);
      if i < |timers| && timers[i] == t {
        return;
      }
      timers := timers[..i] + [t] + timers[i..];
    }

    /** The private `addTimer`: insert, and call the hook for a new front element
        unless it was called already. */
    method Place(t: Timer)
      requires Linked() && t.addr in all && all[t.addr] == t
      modifies this
      ensures Linked() && all == old(all) && objects == old(objects)
      ensures Q.Known(old(View()).timers, old(View()).order) && t.addr in old(View()).timers
      ensures var (view, hook) := Q.Place(old(View()), t.addr);
              View() == view && hookCalls == old(hookCalls) + if hook then 1 else 0
    {
      Insert(t);
      var atFront := |timers| > 0 && timers[0] == t && !tickled;
      if atFront {
        tickled := true;
      }
      if atFront {
        hookCalls := hookCalls + 1;
      }
    }

    /** `addTimer`; the allocator provides an address no other timer has. */
    method AddTimer(addr: nat, now: u64, ms: u64, cb: Option<nat>, recurring: bool) returns (t: Timer)
      requires Valid() && addr !in all
      modifies this
      ensures Valid() && fresh(t) && t.addr == addr && t.manager == this
      ensures all == old(all)[addr := t] && objects == old(objects) + {t}
      ensures var (view, hook) := Q.Add(old(View()), addr, now, ms, cb, recurring);
              View() == view && hookCalls == old(hookCalls) + if hook then 1 else 0
    {
      Q.AddSteps(View(), addr, now, ms, cb, recurring);
      ghost var view := View();
      t := Create(addr, now, ms, cb, recurring);
      Place(t);
      StillValid(this, Q.Add(view, addr, now, ms, cb, recurring).0);
    }

    /** A new timer of this manager, not yet in the set. */
    method Create(addr: nat, now: u64, ms: u64, cb: Option<nat>, recurring: bool) returns (t: Timer)
      requires Linked() && addr !in all
      modifies this`all, this`objects
      ensures Linked() && fresh(t) && t.addr == addr && t.manager == this
      ensures all == old(all)[addr := t] && objects == old(objects) + {t}
      ensures View() == old(View()).(timers := old(View()).timers[addr := Q.Timer(recurring, ms, Add64(now, ms), cb)])
    {
      t := new Timer(addr, now, ms, cb, recurring, this);
      ghost var view := View();
      all, objects := all[addr := t], objects + {t};
      assert View() == view.(timers := view.timers[addr := t.Fields()]);
    }

    method GetNextTimer(now: u64) returns (wait: u64)
      requires Valid()
      modifies this`tickled
      ensures Valid() && (View(), wait) == Q.NextTimer(old(View()), now)
      ensures Q.WaitsFor(View(), now, wait) && View() == old(View()).(tickled := false)
    {
      Q.NextTimerExact(View(), now);
      tickled := false;
      assert View() == old(View()).(tickled := false);
      assert |timers| > 0 ==> View().order[0] == timers[0].addr && View().timers[timers[0].addr] == timers[0].Fields();
      if |timers| == 0 {
        return TWO_TO_THE_64 - 1;
      }
      if now >= timers[0].next {
        return 0;
      } else {
        return timers[0].next - now;
      }
    }

    method DetectClockRollover(now: u64) returns (rollover: bool)
      modifies this`previousTime
      ensures previousTime == now
      ensures rollover <==>
              now < old(previousTime) && (old(previousTime) < 3600000 || old(previousTime) - now > 3600000)
    {
      rollover := false;
      if now < previousTime && now < Sub64(previousTime, 60 * 60 * 1000) {
        rollover := true;
      }
      previousTime := now;
    }

    /** One timer of the expired list: armed again if it recurs, else disarmed. */
    method FireOne(timer: Timer, now: u64)
      requires Linked() && timer.addr in all && all[timer.addr] == timer
      modifies this`timers, timer
      ensures Linked() && View() == Q.FireOne(old(View()), timer.addr, now)
    {
      ghost var view := View();
      if timer.recurring {
        timer.next := Add64(now, timer.ms);
        RecordChanged(this, timer, view.timers);
        Insert(timer);
      } else {
        timer.cb := None;
        RecordChanged(this, timer, view.timers);
      }
    }

    /** The loop over the expired timers. */
    method Fire(expired: seq<Timer>, now: u64, cbs: seq<Option<nat>>) returns (cbs': seq<Option<nat>>)
      requires Linked() && Distinct(expired)
      requires forall i :: 0 <= i < |expired| ==> expired[i].addr in all && all[expired[i].addr] == expired[i]
      modifies this`timers, objects
      ensures Linked()
      ensures var q, addrs := old(View()), Addresses(expired);
              && Q.Known(q.timers, addrs)
              && cbs' == cbs + Q.Callbacks(q.timers, addrs)
              && View() == Q.FireAll(q, addrs, now)
    {
      cbs' := cbs;
      ghost var q, addrs := View(), Addresses(expired);
      var k := 0;
      while k < |expired|
        invariant 0 <= k <= |expired| && Linked()
        invariant Q.Known(q.timers, addrs)
        invariant View() == Q.FireAll(q, addrs[..k], now)
        invariant forall j :: k <= j < |expired| ==> q.timers[addrs[j]] == expired[j].Fields()
        invariant cbs' == cbs + Q.Callbacks(q.timers, addrs[..k])
      {
        cbs' := cbs' + [expired[k].cb];
        Q.FireAllStep(q, addrs, k, now);
        FireOne(expired[k], now);
        k := k + 1;
      }
      assert addrs[..k] == addrs;
    }

    /** Takes the first `it` timers out of the set and fires them. */
    method FireRange(it: nat, now: u64, cbs: seq<Option<nat>>) returns (cbs': seq<Option<nat>>)
      requires Linked() && it <= |timers| && Distinct(timers[..it])
      modifies this`timers, objects
      ensures Linked()
      ensures var q := old(View()); var due := q.order[..it];
              && Q.Known(q.timers, due)
              && cbs' == cbs + Q.Callbacks(q.timers, due)
              && View() == Q.FireAll(q.(order := q.order[it..]), due, now)
    {
      ghost var view := View();
      AddressesTaken(timers, it);
      var expired := timers[..it];
      timers := timers[it..];
      assert View() == view.(order := view.order[it..]);
      cbs' := Fire(expired, now, cbs);
    }

    method FindExpired(now: u64, probe: nat, rollover: bool) returns (it: nat)
      requires Linked()
      ensures it == ExpiredEnd(now, probe, rollover)
    {
      it := |timers|;
      if !rollover {
        it := LowerBound(now, probe);
        it := SkipEqual(it, now);
      }
    }

    method FireExpired(now: u64, probe: nat, rollover: bool, cbs: seq<Option<nat>>) returns (cbs': seq<Option<nat>>)
      requires Linked() && Distinct(timers)
      modifies this`timers, objects
      ensures Linked()
      ensures var q, it := old(View()), old(ExpiredEnd(now, probe, rollover)); var due := q.order[..it];
              && Q.Known(q.timers, due)
              && cbs' == cbs + Q.Callbacks(q.timers, due)
              && View() == Q.FireAll(q.(order := q.order[it..]), due, now)
    {
      var it := FindExpired(now, probe, rollover);
      cbs' := FireRange(it, now, cbs);
    }

    /** `listExpiredCb`: appends the callbacks of the expired timers. `probe` is
        the address of the temporary timer used for the search. */
    method ListExpiredCb(now: u64, probe: nat, cbs: seq<Option<nat>>) returns (cbs': seq<Option<nat>>)
      requires Valid()
      modifies this, objects
      ensures Valid() && SameTimers(old(all), old(objects)) && hookCalls == old(hookCalls)
      ensures var (view, expired) := Q.ListExpired(old(View()), now, probe);
              && Q.Known(old(View()).timers, expired)
              && View() == view
              && cbs' == cbs + Q.Callbacks(old(View()).timers, expired)
    {
      ghost var view := View();
      SetIsDistinct(view, timers);
      cbs' := ExpireAll(now, probe, cbs);
      Q.ListExpiredSteps(view, now, probe);
      StillValid(this, Q.ListExpired(view, now, probe).0);
    }

    /** The body of `listExpiredCb`: no timer is listed twice. */
    method ExpireAll(now: u64, probe: nat, cbs: seq<Option<nat>>) returns (cbs': seq<Option<nat>>)
      requires Linked() && Distinct(timers)
      modifies this, objects
      ensures Linked() && SameTimers(old(all), old(objects)) && hookCalls == old(hookCalls)
      ensures var (view, expired) := Q.ListExpired(old(View()), now, probe);
              && Q.Known(old(View()).timers, expired)
              && View() == view
              && cbs' == cbs + Q.Callbacks(old(View()).timers, expired)
    {
      cbs' := cbs;
      ghost var view := View();
      assert cbs + Q.Callbacks(view.timers, []) == cbs;
      if |timers| == 0 {
        return;
      }
      var rollover, due := AnythingDue(now);
      if !due {
        Q.ListExpiredCases(view, now, probe);
        return;
      }
      cbs' := ExpireDue(view, now, probe, rollover, cbs);
    }

    /** The two tests on the clock; the reading is stored. */
    method AnythingDue(now: u64) returns (rollover: bool, due: bool)
      requires Linked() && |timers| > 0
      modifies this`previousTime
      ensures Linked() && View() == old(View()).(previous := now)
      ensures Q.Known(old(View()).timers, old(View()).order) && old(View()).order != []
      ensures rollover == Q.RolledOver(old(View()).previous, now)
      ensures due <==> rollover || old(View()).timers[old(View()).order[0]].next <= now
    {
      ghost var view := View();
      assert view.order[0] == timers[0].addr && view.timers[view.order[0]] == timers[0].Fields();
      rollover := DetectClockRollover(now);
      due := rollover || timers[0].next <= now;
    }

    /** What `listExpiredCb` does when something is due; `q` is the queue before the
        clock reading was stored. */
    method ExpireDue(ghost q: Q.Queue, now: u64, probe: nat, rollover: bool, cbs: seq<Option<nat>>)
      returns (cbs': seq<Option<nat>>)
      requires Linked() && Distinct(timers) && View() == q.(previous := now) && q.order != []
      requires Q.Known(q.timers, q.order) && rollover == Q.RolledOver(q.previous, now)
      requires rollover || q.timers[q.order[0]].next <= now
      modifies this`timers, objects
      ensures Linked()
      ensures var (view, expired) := Q.ListExpired(q, now, probe);
              Q.Known(q.timers, expired) && View() == view && cbs' == cbs + Q.Callbacks(q.timers, expired)
    {
      Q.ListExpiredCases(q, now, probe);
      assert ExpiredEnd(now, probe, rollover) == Q.ExpiredCount(q, now, probe);
      cbs' := FireExpired(now, probe, rollover, cbs);
    }

    method SkipEqual(i: nat, now: u64) returns (k: nat)
      requires Linked() && i <= |timers|
      ensures Q.Known(View().timers, View().order)
      ensures k == Q.SkipEqual(View().timers, View().order, i, now)
    {
      k := i;
      ghost var view := View();
      assert forall j :: 0 <= j < |timers| ==>
               view.order[j] == timers[j].addr && view.timers[view.order[j]] == timers[j].Fields();
      while k < |timers| && timers[k].next == now
        invariant i <= k <= |timers|
        invariant Q.SkipEqual(view.timers, view.order, i, now) == Q.SkipEqual(view.timers, view.order, k, now)
      {
        k := k + 1;
      }
    }

    method HasTimer() returns (some: bool)
      ensures some <==> Order() != []
    {
      some := |timers| != 0;
    }
  }
}

/** The queue of sleeping tasks (`t_sleep`, sylar/scheduler.h): a binary heap
    whose comparator reads the wake time of a task's fiber at every comparison.
    The heap stores tasks only, so its order is a statement about the fibers as
    well. */
module SleepQueues {
  import opened Prelude
  import opened Fibers

  /** The fields of a fiber the scheduler looks at. */
  datatype Fields = Fields(state: State, waketime: u64)

  type FiberMap = map<nat, Fields>

  predicate Known(fibers: FiberMap, items: seq<nat>) {
    forall i :: 0 <= i < |items| ==> items[i] in fibers
  }

  /** `sleep_cmp`: the later one goes below. */
  predicate Later(fibers: FiberMap, a: nat, b: nat)
    requires a in fibers && b in fibers
  {
    fibers[a].waketime > fibers[b].waketime
  }

  function Up(i: nat): nat
    requires i >= 1
  {
    (i - 1) / 2
  }

  /** The element at `i` wakes no earlier than the one at `up`. */
  predicate Edge(fibers: FiberMap, items: seq<nat>, up: nat, i: nat)
    requires Known(fibers, items) && up < |items| && i < |items|
  {
    !Later(fibers, items[up], items[i])
  }

  ghost predicate IsHeap(fibers: FiberMap, items: seq<nat>) {
    Known(fibers, items) &&
    forall i {:trigger Edge(fibers, items, Up(i), i)} :: 1 <= i < |items| ==> Edge(fibers, items, Up(i), i)
  }

  /** While an element rises: only the edge above `gap` may be wrong, and the
      children of `gap` respect its parent. */
  ghost predicate Rising(fibers: FiberMap, items: seq<nat>, gap: nat) {
    && Known(fibers, items)
    && (forall i {:trigger Edge(fibers, items, Up(i), i)} ::
          1 <= i < |items| && i != gap ==> Edge(fibers, items, Up(i), i))
    && (forall i {:trigger Edge(fibers, items, Up(gap), i)} :: 1 <= i < |items| && Up(i) == gap && gap >= 1 ==>
          Edge(fibers, items, Up(gap), i))
  }

  /** While an element sinks: only the edges below `gap` may be wrong, and the
      children of `gap` respect its parent. */
  ghost predicate Sinking(fibers: FiberMap, items: seq<nat>, gap: nat) {
    && Known(fibers, items)
    && (forall i {:trigger Edge(fibers, items, Up(i), i)} ::
          1 <= i < |items| && Up(i) != gap ==> Edge(fibers, items, Up(i), i))
    && (forall i {:trigger Edge(fibers, items, Up(gap), i)} :: 1 <= i < |items| && Up(i) == gap && gap >= 1 ==>
          Edge(fibers, items, Up(gap), i))
  }

  /** The root of a heap wakes no later than any other element. */
  lemma {:induction false} RootIsEarliest(fibers: FiberMap, items: seq<nat>, i: nat)
    requires IsHeap(fibers, items) && i < |items|
    ensures fibers[items[0]].waketime <= fibers[items[i]].waketime
    decreases i
  {
    if i > 0 {
      RootIsEarliest(fibers, items, Up(i));
      assert Edge(fibers, items, Up(i), i);
    }
  }

  /** The order survives any change to the fibers that keeps the wake times of
      the queued ones. */
  lemma HeapSurvives(fibers: FiberMap, fibers': FiberMap, items: seq<nat>)
    requires IsHeap(fibers, items) && Known(fibers', items)
    requires forall i :: 0 <= i < |items| ==> fibers'[items[i]].waketime == fibers[items[i]].waketime
    ensures IsHeap(fibers', items)
  {
    forall i {:trigger Edge(fibers', items, Up(i), i)} | 1 <= i < |items| ensures Edge(fibers', items, Up(i), i) {
      assert Edge(fibers, items, Up(i), i);
    }
  }

  function Swap(items: seq<nat>, i: nat, j: nat): (r: seq<nat>)
    requires i < |items| && j < |items|
    ensures |r| == |items|
    ensures multiset(r) == multiset(items)
  {
    items[i := items[j]][j := items[i]]
  }

  lemma SwapUp(fibers: FiberMap, items: seq<nat>, gap: nat)
    requires 1 <= gap < |items| && Rising(fibers, items, gap) && !Edge(fibers, items, Up(gap), gap)
    ensures Rising(fibers, Swap(items, Up(gap), gap), Up(gap))
  {
    var up := Up(gap);
    var items' := Swap(items, up, gap);
    forall i {:trigger Edge(fibers, items', Up(i), i)} | 1 <= i < |items| && i != up
      ensures Edge(fibers, items', Up(i), i)
    {
      if i != gap { assert Edge(fibers, items, Up(i), i); }
      if Up(i) == gap { assert Edge(fibers, items, Up(gap), i); }
    }
    forall i {:trigger Edge(fibers, items', Up(up), i)} | 1 <= i < |items| && Up(i) == up && up >= 1
      ensures Edge(fibers, items', Up(up), i)
    {
      assert Edge(fibers, items, Up(up), up);
      if i != gap { assert Edge(fibers, items, Up(i), i); }
    }
  }

  lemma SwapDown(fibers: FiberMap, items: seq<nat>, gap: nat, child: nat)
    requires 1 <= child < |items| && Up(child) == gap && Sinking(fibers, items, gap)
    requires !Edge(fibers, items, gap, child)
    requires forall i {:trigger Edge(fibers, items, child, i)} ::
               1 <= i < |items| && Up(i) == gap ==> Edge(fibers, items, child, i)
    ensures Sinking(fibers, Swap(items, gap, child), child)
  {
    var items' := Swap(items, gap, child);
    forall i {:trigger Edge(fibers, items', Up(i), i)} | 1 <= i < |items| && Up(i) != child
      ensures Edge(fibers, items', Up(i), i)
    {
      if Up(i) != gap { assert Edge(fibers, items, Up(i), i); } else { assert Edge(fibers, items, child, i); }
      if i == gap { assert Edge(fibers, items, Up(gap), child); }
    }
    forall i {:trigger Edge(fibers, items', Up(child), i)} | 1 <= i < |items| && Up(i) == child
      ensures Edge(fibers, items', Up(child), i)
    {
      assert Edge(fibers, items, Up(i), i);
    }
  }

  class SleepQueue {
    var items: seq<nat>

    constructor ()
      ensures items == []
    {
      items := [];
    }

    method Push(t: nat, fibers: FiberMap)
      requires IsHeap(fibers, items) && t in fibers
      modifies this
      ensures IsHeap(fibers, items)
      ensures multiset(items) == old(multiset(items)) + multiset{t}
    {
      Appended(fibers, items, t);
      items := items + [t];
      var i := |items| - 1;
      while i > 0 && Later(fibers, items[(i - 1) / 2], items[i])
        invariant 0 <= i < |items| && Rising(fibers, items, i)
        invariant multiset(items) == old(multiset(items)) + multiset{t}
      {
        var up := (i - 1) / 2;
        SwapUp(fibers, items, i);
        items := Swap(items, up, i);
        i := up;
      }
      assert i > 0 ==> Edge(fibers, items, Up(i), i);
    }

    method Pop(fibers: FiberMap) returns (t: nat)
      requires IsHeap(fibers, items) && items != []
      modifies this
      ensures IsHeap(fibers, items)
      ensures t == old(items[0]) && multiset(items) == old(multiset(items)) - multiset{t}
    {
      t := items[0];
      WithoutLast(items);
      var last := items[|items| - 1];
      if |items| == 1 {
        items := [];
        return;
      }
      LastToRoot(fibers, items);
      items := items[..|items| - 1][0 := last];
      var i := 0;
      while 2 * i + 1 < |items|
        invariant 0 <= i && Sinking(fibers, items, i)
        invariant multiset(items) == old(multiset(items)) - multiset{t}
        decreases |items| - i
      {
        var child := 2 * i + 1;
        if child + 1 < |items| && Later(fibers, items[child], items[child + 1]) {
          child := child + 1;
        }
        SmallerChild(fibers, items, i, child);
        if !Later(fibers, items[i], items[child]) {
          return;
        }
        SwapDown(fibers, items, i, child);
        items := Swap(items, i, child);
        i := child;
      }
      Sunk(fibers, items, i);
    }
  }

  lemma Appended(fibers: FiberMap, items: seq<nat>, t: nat)
    requires IsHeap(fibers, items) && t in fibers
    ensures Rising(fibers, items + [t], |items|)
  {
    var items' := items + [t];
    forall i {:trigger Edge(fibers, items', Up(i), i)} | 1 <= i < |items| ensures Edge(fibers, items', Up(i), i) {
      assert Edge(fibers, items, Up(i), i);
    }
  }

  lemma LastToRoot(fibers: FiberMap, items: seq<nat>)
    requires IsHeap(fibers, items) && |items| > 1
    ensures var n := |items| - 1;
            Sinking(fibers, items[..n][0 := items[n]], 0)
  {
    var n := |items| - 1;
    var items' := items[..n][0 := items[n]];
    forall i {:trigger Edge(fibers, items', Up(i), i)} | 1 <= i < n && Up(i) != 0
      ensures Edge(fibers, items', Up(i), i)
    {
      assert Edge(fibers, items, Up(i), i);
    }
  }

  lemma WithoutLast(items: seq<nat>)
    requires items != []
    ensures var n := |items| - 1;
            && multiset(items[..n]) == multiset(items) - multiset{items[n]}
            && (n > 0 ==> multiset(items[..n][0 := items[n]]) == multiset(items) - multiset{items[0]})
  {
    var n := |items| - 1;
    assert items == items[..n] + [items[n]];
  }

  lemma Sunk(fibers: FiberMap, items: seq<nat>, i: nat)
    requires Sinking(fibers, items, i) && 2 * i + 1 >= |items|
    ensures IsHeap(fibers, items)
  {
  }

  lemma SmallerChild(fibers: FiberMap, items: seq<nat>, i: nat, child: nat)
    requires Sinking(fibers, items, i) && i < child < |items| && (child == 2 * i + 1 || child == 2 * i + 2)
    requires child == 2 * i + 1 ==> child + 1 < |items| ==> !Later(fibers, items[child], items[child + 1])
    requires child == 2 * i + 2 ==> Later(fibers, items[child - 1], items[child])
    ensures Up(child) == i
    ensures forall c {:trigger Edge(fibers, items, child, c)} ::
              1 <= c < |items| && Up(c) == i ==> Edge(fibers, items, child, c)
    ensures !Later(fibers, items[i], items[child]) ==> IsHeap(fibers, items)
  {
  }
}

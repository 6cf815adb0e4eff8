/** The array heap of Python's heapq: a list ordered so that no entry is below its parent.
    Entries compare by priority alone. */
module Heap {
  datatype Item = Item(priority: int, taskId: nat, intent: string)

  predicate Less(a: Item, b: Item) {
    a.priority < b.priority
  }

  function Parent(i: nat): nat
    requires i > 0
  {
    (i - 1) / 2
  }

  predicate InOrder(h: seq<Item>, i: nat)
    requires 0 < i < |h|
  {
    h[Parent(i)].priority <= h[i].priority
  }

  ghost predicate IsHeap(h: seq<Item>) {
    forall i | 0 < i < |h| :: InOrder(h, i)
  }

  /** A heap but for the hole at pos, into which x is to sink or rise: the entries around the hole
      are in order without it. */
  ghost predicate HeapButFor(h: seq<Item>, pos: nat) {
    && pos < |h|
    && (forall i | 0 < i < |h| && i != pos && Parent(i) != pos :: InOrder(h, i))
    && (forall i | 0 < i < |h| && pos > 0 && Parent(i) == pos :: h[Parent(pos)].priority <= h[i].priority)
  }

  /** heapq's _siftdown from position 0: the hole moves up while its parent is greater than x. */
  function SiftDown(h: seq<Item>, pos: nat, x: Item): (r: seq<Item>)
    requires pos < |h|
    ensures |r| == |h|
    decreases pos
  {
    if pos > 0 && Less(x, h[Parent(pos)]) then SiftDown(h[pos := h[Parent(pos)]], Parent(pos), x)
    else h[pos := x]
  }

  /** The child moved up: the right one unless the left one is strictly less. */
  function SmallerChild(h: seq<Item>, pos: nat): nat
    requires 2 * pos + 1 < |h|
  {
    var left := 2 * pos + 1;
    if left + 1 < |h| && !Less(h[left], h[left + 1]) then left + 1 else left
  }

  /** Neither child is smaller than the one that moves up, and of equals it is the right one. */
  lemma EqualChildrenGoRight(h: seq<Item>, pos: nat)
    requires 2 * pos + 1 < |h|
    ensures var c, left, right := SmallerChild(h, pos), 2 * pos + 1, 2 * pos + 2;
            && (c == left || c == right) && c < |h|
            && (right < |h| ==> h[c].priority <= h[left].priority && h[c].priority <= h[right].priority)
            && (right < |h| && h[left].priority == h[right].priority ==> c == right)
  {
  }

  /** heapq's _siftup: the hole goes down to a leaf along smaller children, then x rises from there. */
  function SiftUp(h: seq<Item>, pos: nat, x: Item): (r: seq<Item>)
    requires pos < |h|
    ensures |r| == |h|
    decreases |h| - pos
  {
    if 2 * pos + 1 < |h| then
      var c := SmallerChild(h, pos);
      SiftUp(h[pos := h[c]], c, x)
    else SiftDown(h, pos, x)
  }

  function Push(h: seq<Item>, x: Item): seq<Item> {
    SiftDown(h + [x], |h|, x)
  }

  function Pop(h: seq<Item>): (Item, seq<Item>)
    requires h != []
  {
    var last, rest := h[|h| - 1], h[..|h| - 1];
    if rest == [] then (last, []) else (rest[0], SiftUp(rest, 0, last))
  }

  lemma {:induction false} SiftDownIsHeap(h: seq<Item>, pos: nat, x: Item)
    requires HeapButFor(h, pos)
    requires forall i | 0 < i < |h| && Parent(i) == pos :: x.priority <= h[i].priority
    ensures IsHeap(SiftDown(h, pos, x))
    decreases pos
  {
    if pos > 0 && Less(x, h[Parent(pos)]) {
      var p := Parent(pos);
      var h' := h[pos := h[p]];
      assert HeapButFor(h', p) by {
        forall i | 0 < i < |h'| && i != p && Parent(i) != p ensures InOrder(h', i) {
          if Parent(i) == pos { assert h[p].priority <= h[i].priority; } else { assert InOrder(h, i); }
        }
        forall i | 0 < i < |h'| && p > 0 && Parent(i) == p ensures h'[Parent(p)].priority <= h'[i].priority {
          assert InOrder(h, p);
          if i != pos { assert InOrder(h, i); }
        }
      }
      forall i | 0 < i < |h'| && Parent(i) == p ensures x.priority <= h'[i].priority {
        if i != pos { assert InOrder(h, i); }
      }
      SiftDownIsHeap(h', p, x);
    } else {
      var r := h[pos := x];
      forall i | 0 < i < |r| ensures InOrder(r, i) {
        if i != pos && Parent(i) != pos { assert InOrder(h, i); }
      }
    }
  }

  lemma MoveHole(h: seq<Item>, pos: nat, p: nat, x: Item)
    requires pos < |h| && p < |h| && pos != p
    ensures multiset(h[pos := h[p]][p := x]) == multiset(h[pos := x])
  {
    var m := multiset(h);
    assert multiset(h[pos := h[p]]) == m - multiset{h[pos]} + multiset{h[p]};
    assert multiset(h[pos := x]) == m - multiset{h[pos]} + multiset{x};
  }

  lemma {:induction false} SiftDownKeepsItems(h: seq<Item>, pos: nat, x: Item)
    requires pos < |h|
    ensures multiset(SiftDown(h, pos, x)) == multiset(h[pos := x])
    decreases pos
  {
    if pos > 0 && Less(x, h[Parent(pos)]) {
      var p := Parent(pos);
      SiftDownKeepsItems(h[pos := h[p]], p, x);
      MoveHole(h, pos, p, x);
    }
  }

  lemma {:induction false} SiftUpIsHeap(h: seq<Item>, pos: nat, x: Item)
    requires HeapButFor(h, pos)
    ensures IsHeap(SiftUp(h, pos, x))
    decreases |h| - pos
  {
    if 2 * pos + 1 < |h| {
      var c := SmallerChild(h, pos);
      var h' := h[pos := h[c]];
      assert HeapButFor(h', c) by {
        forall i | 0 < i < |h'| && i != c && Parent(i) != c ensures InOrder(h', i) {
          if Parent(i) == pos {
            assert h[c].priority <= h[i].priority;
          } else if i == pos {
            assert h[Parent(pos)].priority <= h[c].priority;
          } else {
            assert InOrder(h, i);
          }
        }
        forall i | 0 < i < |h'| && Parent(i) == c ensures h'[Parent(c)].priority <= h'[i].priority {
          assert InOrder(h, i);
        }
      }
      SiftUpIsHeap(h', c, x);
    } else {
      SiftDownIsHeap(h, pos, x);
    }
  }

  lemma {:induction false} SiftUpKeepsItems(h: seq<Item>, pos: nat, x: Item)
    requires pos < |h|
    ensures multiset(SiftUp(h, pos, x)) == multiset(h[pos := x])
    decreases |h| - pos
  {
    if 2 * pos + 1 < |h| {
      var c := SmallerChild(h, pos);
      SiftUpKeepsItems(h[pos := h[c]], c, x);
      MoveHole(h, pos, c, x);
    } else {
      SiftDownKeepsItems(h, pos, x);
    }
  }

  lemma PushIsHeap(h: seq<Item>, x: Item)
    requires IsHeap(h)
    ensures IsHeap(Push(h, x))
    ensures multiset(Push(h, x)) == multiset(h) + multiset{x}
  {
    forall i | 0 < i < |h| ensures InOrder(h + [x], i) { assert InOrder(h, i); }
    SiftDownIsHeap(h + [x], |h|, x);
    SiftDownKeepsItems(h + [x], |h|, x);
    assert (h + [x])[|h| := x] == h + [x];
  }

  lemma {:induction false} RootIsLeast(h: seq<Item>, i: nat)
    requires IsHeap(h) && i < |h|
    ensures h[0].priority <= h[i].priority
  {
    if i > 0 {
      RootIsLeast(h, Parent(i));
      assert InOrder(h, i);
    }
  }

  /** Pop takes out one entry, of least priority value, and leaves a heap of the others. */
  lemma PopTakesLeast(h: seq<Item>)
    requires IsHeap(h) && h != []
    ensures IsHeap(Pop(h).1)
    ensures multiset(h) == multiset(Pop(h).1) + multiset{Pop(h).0}
    ensures forall y | y in h :: Pop(h).0.priority <= y.priority
  {
    var last, rest := h[|h| - 1], h[..|h| - 1];
    assert h == rest + [last];
    forall i | 0 <= i < |h| ensures h[0].priority <= h[i].priority { RootIsLeast(h, i); }
    if rest != [] {
      assert rest[0] == h[0];
      forall i | 0 < i < |rest| ensures InOrder(rest, i) { assert InOrder(h, i); }
      SiftUpIsHeap(rest, 0, last);
      SiftUpKeepsItems(rest, 0, last);
    }
  }

  // ---------- the list operations ----------

  method SiftDownLoop(heap: seq<Item>, start: nat) returns (r: seq<Item>)
    requires start < |heap|
    ensures r == SiftDown(heap, start, heap[start])
  {
    r := heap;
    var item, pos := heap[start], start;
    while pos > 0
      invariant 0 <= pos < |r|
      invariant SiftDown(r, pos, item) == SiftDown(heap, start, heap[start])
    {
      var parent := r[(pos - 1) / 2];
      if !Less(item, parent) {
        break;
      }
      r := r[pos := parent];
      pos := (pos - 1) / 2;
    }
    r := r[pos := item];
  }

  method HeapPush(heap: seq<Item>, item: Item) returns (r: seq<Item>)
    ensures r == Push(heap, item)
  {
    r := SiftDownLoop(heap + [item], |heap|);
  }

  /** What lies in the hole does not matter. */
  lemma {:induction false} SiftDownIgnoresHole(h: seq<Item>, pos: nat, y: Item, x: Item)
    requires pos < |h|
    ensures SiftDown(h[pos := y], pos, x) == SiftDown(h, pos, x)
  {
    assert h[pos := y][pos := x] == h[pos := x];
    if pos > 0 { assert h[pos := y][pos := h[Parent(pos)]] == h[pos := h[Parent(pos)]]; }
  }

  method SiftUpLoop(heap: seq<Item>, start: nat) returns (r: seq<Item>)
    requires start < |heap|
    ensures r == SiftUp(heap, start, heap[start])
  {
    r := heap;
    var item, pos, child := heap[start], start, 2 * start + 1;
    while child < |r|
      invariant 0 <= pos < |r| && child == 2 * pos + 1
      invariant SiftUp(r, pos, item) == SiftUp(heap, start, heap[start])
      decreases |r| - pos
    {
      if child + 1 < |r| && !Less(r[child], r[child + 1]) {
        child := child + 1;
      }
      r := r[pos := r[child]];
      pos := child;
      child := 2 * pos + 1;
    }
    SiftDownIgnoresHole(r, pos, item, item);
    r := SiftDownLoop(r[pos := item], pos);
  }

  lemma {:induction false} SiftUpIgnoresHole(h: seq<Item>, pos: nat, y: Item, x: Item)
    requires pos < |h|
    ensures SiftUp(h[pos := y], pos, x) == SiftUp(h, pos, x)
  {
    if 2 * pos + 1 < |h| {
      var c := SmallerChild(h, pos);
      assert SmallerChild(h[pos := y], pos) == c;
      assert h[pos := y][pos := h[c]] == h[pos := h[c]];
    } else {
      SiftDownIgnoresHole(h, pos, y, x);
    }
  }

  method HeapPop(heap: seq<Item>) returns (item: Item, r: seq<Item>)
    requires heap != []
    ensures (item, r) == Pop(heap)
  {
    var last := heap[|heap| - 1];
    r := heap[..|heap| - 1];
    if r == [] {
      return last, r;
    }
    item := r[0];
    r := SiftUpLoop(r[0 := last], 0);
    SiftUpIgnoresHole(heap[..|heap| - 1], 0, last, last);
  }
}

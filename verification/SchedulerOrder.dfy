/** In what order the scheduler gives back tasks of equal priority. The queue item is documented as
    ordered by priority and then by age, but compares by priority alone. */
module SchedulerOrder {
  import opened Options
  import opened Heap
  import opened Scheduler

  lemma {:induction false} DequeueShrinks(e: Engine)
    ensures |Dequeue(e).0.heap| <= |e.heap|
    ensures Dequeue(e).1.Some? ==> |Dequeue(e).0.heap| < |e.heap|
    decreases |e.heap|
  {
    if e.heap != [] {
      var (item, rest) := Pop(e.heap);
      if item.taskId !in e.index { DequeueShrinks(e.(heap := rest)); }
    }
  }

  /** The ids that dequeuing gives until nothing is live. */
  function Drain(e: Engine): seq<nat>
    decreases |e.heap|
  {
    DequeueShrinks(e);
    var (e', r) := Dequeue(e);
    if r.None? then [] else [r.value.taskId] + Drain(e')
  }

  function HeapDrain(h: seq<Item>): seq<nat>
    decreases |h|
  {
    if h == [] then [] else [Pop(h).0.taskId] + HeapDrain(Pop(h).1)
  }

  /** Where nothing was cancelled, draining the engine is popping the heap. */
  lemma {:induction false} DrainIsPopping(e: Engine)
    requires IsHeap(e.heap) && Unique(multiset(e.heap))
    requires forall x | x in multiset(e.heap) :: x.taskId in e.index
    ensures Drain(e) == HeapDrain(e.heap)
    decreases |e.heap|
  {
    hide IsHeap, SiftUp, SiftDown;
    if e.heap != [] {
      var (item, rest) := Pop(e.heap);
      PopTakesLeast(e.heap);
      UniqueWithout(multiset(rest), item);
      assert item in multiset(e.heap);
      DrainIsPopping(e.(heap := rest, index := e.index - {item.taskId}));
    }
  }

  // ---------- submissions that are all queued ----------

  predicate Queues(enableDefer: bool, ev: Event) {
    ev.Submitted? && !(enableDefer && ev.overloaded && ev.priority < NORMAL)
  }

  ghost predicate AllQueue(enableDefer: bool, evs: seq<Event>) {
    forall k | 0 <= k < |evs| :: Queues(enableDefer, evs[k])
  }

  function ItemOf(ev: Event, id: nat): Item
    requires ev.Submitted?
  {
    Item(-ev.priority, id, ev.intent)
  }

  function PushAll(evs: seq<Event>): seq<Item>
    requires forall k | 0 <= k < |evs| :: evs[k].Submitted?
  {
    if evs == [] then [] else Push(PushAll(evs[..|evs| - 1]), ItemOf(evs[|evs| - 1], |evs|))
  }

  lemma {:induction false} QueuedEngine(enableDefer: bool, evs: seq<Event>)
    requires AllQueue(enableDefer, evs)
    ensures var w := After(enableDefer, evs);
            && w.engine.heap == PushAll(evs) && w.engine.counter == |evs| && w.engine.enableDefer == enableDefer
            && forall id | id in w.fate :: w.fate[id] == Live
  {
    hide Push;
    if evs != [] { QueuedEngine(enableDefer, evs[..|evs| - 1]); }
  }

  lemma QueuedDrain(enableDefer: bool, evs: seq<Event>)
    requires AllQueue(enableDefer, evs)
    ensures Drain(After(enableDefer, evs).engine) == HeapDrain(PushAll(evs))
  {
    hide After, Drain, HeapDrain, PushAll, IsHeap;
    QueuedEngine(enableDefer, evs);
    RunKeepsInv(enableDefer, evs);
    DrainIsPopping(After(enableDefer, evs).engine);
  }

  // ---------- one priority ----------

  ghost predicate AllAt(h: seq<Item>, p: int) {
    forall i | 0 <= i < |h| :: h[i].priority == p
  }

  /** Among equals nothing rises: a push appends. */
  lemma PushAmongEquals(h: seq<Item>, x: Item)
    requires AllAt(h, x.priority)
    ensures Push(h, x) == h + [x]
  {
    assert (h + [x])[|h| := x] == h + [x];
  }

  lemma {:induction false} EqualsStayInPushOrder(evs: seq<Event>, p: int)
    requires forall k | 0 <= k < |evs| :: evs[k].Submitted? && evs[k].priority == p
    ensures |PushAll(evs)| == |evs|
    ensures forall k | 0 <= k < |evs| :: PushAll(evs)[k] == ItemOf(evs[k], k + 1)
  {
    hide Push;
    if evs != [] {
      var before := evs[..|evs| - 1];
      EqualsStayInPushOrder(before, p);
      PushAmongEquals(PushAll(before), ItemOf(evs[|evs| - 1], |evs|));
    }
  }

  lemma {:induction false} RootStays(h: seq<Item>, pos: nat, x: Item)
    requires 0 < pos < |h| && AllAt(h, x.priority)
    ensures SiftUp(h, pos, x)[0] == h[0]
    decreases |h| - pos
  {
    if 2 * pos + 1 < |h| {
      var c := SmallerChild(h, pos);
      RootStays(h[pos := h[c]], c, x);
    }
  }

  /** With a right child at hand it is the right child that moves up among equals: after the first
      item of four or more comes the third. */
  lemma ThirdMovesUp(h: seq<Item>, p: int)
    requires |h| >= 4 && AllAt(h, p)
    ensures Pop(h).0 == h[0] && Pop(h).1 != [] && Pop(h).1[0] == h[2]
  {
    var last, rest := h[|h| - 1], h[..|h| - 1];
    assert SmallerChild(rest, 0) == 2;
    RootStays(rest[0 := rest[2]], 2, last);
  }

  lemma SecondOutIsThird(h: seq<Item>, p: int)
    requires |h| >= 4 && AllAt(h, p)
    ensures |HeapDrain(h)| >= 2 && HeapDrain(h)[0] == h[0].taskId && HeapDrain(h)[1] == h[2].taskId
  {
    ThirdMovesUp(h, p);
    var rest := Pop(h).1;
    assert Pop(rest).0 == rest[0];
  }

  lemma DrainOfNone()
    ensures HeapDrain([]) == []
  {
  }

  lemma PopOfOne(a: Item)
    ensures Pop([a]) == (a, [])
    ensures HeapDrain([a]) == [a.taskId]
  {
  }

  lemma PopOfTwo(a: Item, b: Item)
    ensures Pop([a, b]) == (a, [b])
    ensures HeapDrain([a, b]) == [a.taskId, b.taskId]
  {
    assert [a, b][..1] == [a];
    assert SiftUp([a], 0, b) == [b];
    PopOfOne(b);
  }

  lemma PopOfThree(a: Item, b: Item, c: Item)
    requires b.priority == c.priority
    ensures Pop([a, b, c]) == (a, [b, c])
  {
    assert [a, b, c][..2] == [a, b];
    assert [a, b][0 := b] == [b, b];
    assert SiftDown([b, b], 1, c) == [b, b][1 := c] == [b, c];
    assert SiftUp([b, b], 1, c) == [b, c];
  }

  lemma DrainOfThree(a: Item, b: Item, c: Item)
    requires b.priority == c.priority
    ensures HeapDrain([a, b, c]) == [a.taskId, b.taskId, c.taskId]
  {
    hide Pop;
    PopOfThree(a, b, c);
    PopOfTwo(b, c);
  }

  lemma FewComeInOrder(h: seq<Item>, p: int)
    requires |h| <= 3 && AllAt(h, p)
    ensures HeapDrain(h) == seq(|h|, i requires 0 <= i < |h| => h[i].taskId)
  {
    hide Pop, HeapDrain;
    if |h| == 3 {
      DrainOfThree(h[0], h[1], h[2]);
      assert h == [h[0], h[1], h[2]];
    } else if |h| == 2 {
      assert h == [h[0], h[1]];
      PopOfTwo(h[0], h[1]);
    } else if |h| == 1 {
      assert h == [h[0]];
      PopOfOne(h[0]);
    } else {
      DrainOfNone();
    }
  }

  /** The ids of n submissions in the order they were made. */
  function InOrder(n: nat): seq<nat> {
    seq(n, i => i + 1)
  }

  /** Submissions of one priority come out in the order they were made exactly when they are at
      most three. */
  lemma EqualPrioritiesInOrderIff(enableDefer: bool, evs: seq<Event>, p: int)
    requires AllQueue(enableDefer, evs)
    requires forall k | 0 <= k < |evs| :: evs[k].priority == p
    ensures Drain(After(enableDefer, evs).engine) == InOrder(|evs|) <==> |evs| <= 3
    ensures |evs| >= 4 ==>
              var out := Drain(After(enableDefer, evs).engine); |out| >= 2 && out[0] == 1 && out[1] == 3
  {
    hide After, Drain, HeapDrain, PushAll;
    QueuedDrain(enableDefer, evs);
    EqualsStayInPushOrder(evs, p);
    var h := PushAll(evs);
    assert AllAt(h, -p);
    if |evs| <= 3 {
      FewComeInOrder(h, -p);
    } else {
      SecondOutIsThird(h, -p);
    }
  }

  // ---------- any priorities ----------

  /** When a submission comes out, every older one of its priority has come out. */
  ghost predicate OldestFirst(evs: seq<Event>, out: seq<nat>)
    requires forall k | 0 <= k < |evs| :: evs[k].Submitted?
  {
    forall y, i | 0 <= y < |out| && 1 <= i < out[y] <= |evs| && evs[i - 1].priority == evs[out[y] - 1].priority ::
      i in out[..y]
  }

  ghost predicate AlwaysOldestFirst(enableDefer: bool, n: nat) {
    forall evs | |evs| == n && AllQueue(enableDefer, evs) :: OldestFirst(evs, Drain(After(enableDefer, evs).engine))
  }

  lemma TwoAreOldestFirst(enableDefer: bool, evs: seq<Event>)
    requires AllQueue(enableDefer, evs) && |evs| <= 2
    ensures OldestFirst(evs, Drain(After(enableDefer, evs).engine))
  {
    hide After, Drain;
    if |evs| == 2 && evs[0].priority == evs[1].priority {
      EqualPrioritiesInOrderIff(enableDefer, evs, evs[0].priority);
      var out := InOrder(2);
      assert out[..1] == [1];
    }
  }

  lemma OlderIsMissing(evs: seq<Event>, out: seq<nat>, y: nat, i: nat)
    requires forall k | 0 <= k < |evs| :: evs[k].Submitted?
    requires y < |out| && 1 <= i < out[y] <= |evs| && evs[i - 1].priority == evs[out[y] - 1].priority
    requires i !in out[..y]
    ensures !OldestFirst(evs, out)
  {
  }

  function SameAgain(n: nat): seq<Event> {
    seq(n, _ => Submitted("", NORMAL, false))
  }

  /** Two normal submissions and an urgent one. */
  function UrgentLast(): seq<Event> {
    [Submitted("", NORMAL, false), Submitted("", NORMAL, false), Submitted("", 75, false)]
  }

  /** Popping the urgent one puts the younger of the other two in front. */
  lemma UrgentLastReverses(enableDefer: bool)
    ensures Drain(After(enableDefer, UrgentLast()).engine) == [3, 2, 1]
  {
    hide After, Drain, Pop;
    var evs := UrgentLast();
    QueuedDrain(enableDefer, evs);
    var a, b, c := Item(-50, 1, ""), Item(-50, 2, ""), Item(-75, 3, "");
    assert evs[..2][..1] == evs[..1] && evs[..1][..0] == [];
    assert PushAll(evs[..1]) == [a];
    PushAmongEquals([a], b);
    assert PushAll(evs[..2]) == [a, b];
    assert [a, b, c][2 := a] == [a, b, a];
    assert SiftDown([a, b, a], 0, c) == [a, b, a][0 := c] == [c, b, a];
    assert PushAll(evs) == [c, b, a];
    DrainOfThree(c, b, a);
  }

  /** That n submissions come out oldest first among equals, whatever their priorities, is certain
      exactly for n up to two. */
  lemma OldestFirstIsCertainIff(enableDefer: bool, n: nat)
    ensures AlwaysOldestFirst(enableDefer, n) <==> n <= 2
  {
    hide After, Drain, OldestFirst;
    if n <= 2 {
      forall evs: seq<Event> | |evs| == n && AllQueue(enableDefer, evs)
        ensures OldestFirst(evs, Drain(After(enableDefer, evs).engine))
      {
        TwoAreOldestFirst(enableDefer, evs);
      }
    } else {
      var evs := if n == 3 then UrgentLast() else SameAgain(n);
      assert |evs| == n && AllQueue(enableDefer, evs);
      var out := Drain(After(enableDefer, evs).engine);
      if n == 3 {
        UrgentLastReverses(enableDefer);
        OlderIsMissing(evs, out, 1, 1);
      } else {
        EqualPrioritiesInOrderIff(enableDefer, evs, NORMAL);
        OlderIsMissing(evs, out, 1, 2);
      }
    }
  }

  /** In events: of four normal submissions the first is dequeued, and then the third while the
      second is still live. */
  lemma NotFifo(enableDefer: bool)
    ensures var w := After(enableDefer, SameAgain(4) + [Dequeued]);
            && 1 in w.fate && w.fate[1] == Dispatched
            && 2 in w.fate && w.fate[2] == Live
            && Dequeue(w.engine).1.Some? && Dequeue(w.engine).1.value.taskId == 3
  {
    hide Dequeue, Push;
    var evs := SameAgain(4);
    EqualPrioritiesInOrderIff(enableDefer, evs, NORMAL);
    QueuedEngine(enableDefer, evs);
    RunKeepsInv(enableDefer, evs);
    assert (evs + [Dequeued])[..4] == evs;
    var e := After(enableDefer, evs).engine;
    DequeueShrinks(e);
    var (e', r) := Dequeue(e);
    assert Drain(e) == [r.value.taskId] + Drain(e');
    assert Drain(e') == Drain(e)[1..];
  }
}

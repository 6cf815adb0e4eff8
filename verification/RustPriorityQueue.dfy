/** The Rust priority queue: a BinaryHeap of entries ordered by priority, then by older timestamp.
    The standard heap promises no more than that pop takes a greatest entry. */
module RustPriorityQueue {
  import opened Options

  datatype Entry = Entry(priority: int, timestamp: nat, intentId: string)

  /** cmp(a, b) is not Greater. */
  predicate AtMost(a: Entry, b: Entry) {
    a.priority < b.priority || (a.priority == b.priority && a.timestamp >= b.timestamp)
  }

  ghost predicate Greatest(m: multiset<Entry>, g: Entry) {
    g in m && forall e | e in m :: AtMost(e, g)
  }

  /** out is an order in which popping can empty the heap. */
  ghost predicate Drains(out: seq<Entry>, m: multiset<Entry>) {
    if out == [] then m == multiset{}
    else Greatest(m, out[0]) && Drains(out[1..], m - multiset{out[0]})
  }

  lemma {:induction false} DrainIsSorted(out: seq<Entry>, m: multiset<Entry>)
    requires Drains(out, m)
    ensures multiset(out) == m
    ensures forall x, y | 0 <= x < y < |out| :: AtMost(out[y], out[x])
    ensures forall x, y | 0 <= x < y < |out| ::
              || out[x].priority > out[y].priority
              || (out[x].priority == out[y].priority && out[x].timestamp <= out[y].timestamp)
  {
    if out != [] {
      DrainIsSorted(out[1..], m - multiset{out[0]});
      assert out == [out[0]] + out[1..];
      forall x, y | 0 <= x < y < |out| ensures AtMost(out[y], out[x]) {
        assert out[y] == out[1..][y - 1];
        if x == 0 {
          assert out[1..][y - 1] in multiset(out[1..]);
        } else {
          assert out[x] == out[1..][x - 1];
        }
      }
    }
  }

  lemma {:induction false} HasGreatest(m: multiset<Entry>) returns (g: Entry)
    requires m != multiset{}
    ensures Greatest(m, g)
    decreases |m|
  {
    var e :| e in m;
    g := e;
    var rest := m - multiset{e};
    assert m == rest + multiset{e};
    if rest != multiset{} {
      var h := HasGreatest(rest);
      if AtMost(e, h) { g := h; }
    }
    forall f | f in m ensures AtMost(f, g) {
      assert f in rest || f == e;
    }
  }

  /** Some drain lets a chosen entry come before everything it ties with. */
  lemma {:induction false} DrainFavouring(m: multiset<Entry>, chosen: Entry) returns (out: seq<Entry>)
    ensures Drains(out, m)
    ensures forall x, y | 0 <= x < y < |out| && out[y] == chosen && out[x] != chosen :: !AtMost(out[x], chosen)
    decreases |m|
  {
    if m == multiset{} {
      return [];
    }
    var g := HasGreatest(m);
    if chosen in m && AtMost(g, chosen) { g := chosen; }
    var rest := DrainFavouring(m - multiset{g}, chosen);
    out := [g] + rest;
    assert out[1..] == rest;
    forall x, y | 0 <= x < y < |out| && out[y] == chosen && out[x] != chosen ensures !AtMost(out[x], chosen) {
      DrainIsSorted(rest, m - multiset{g});
      assert out[y] == rest[y - 1] && rest[y - 1] in multiset(rest);
      if x > 0 { assert out[x] == rest[x - 1]; }
    }
  }

  ghost predicate DistinctEntries(pushed: seq<Entry>) {
    forall i, j | 0 <= i < j < |pushed| :: pushed[i] != pushed[j]
  }

  // ---------- histories ----------

  /** A push, or a pop with the entry it takes; pops of an empty queue leave no trace. */
  datatype Op = Push(entry: Entry) | Pop(entry: Entry)

  ghost function HeapAfter(ops: seq<Op>): multiset<Entry> {
    if ops == [] then multiset{}
    else
      var front, last := HeapAfter(ops[..|ops| - 1]), ops[|ops| - 1];
      if last.Push? then front + multiset{last.entry} else front - multiset{last.entry}
  }

  /** Pushes and pops in any order; each pop takes some greatest entry. */
  ghost predicate History(ops: seq<Op>) {
    ops == [] || (
      var front, last := ops[..|ops| - 1], ops[|ops| - 1];
      History(front) && (last.Pop? ==> Greatest(HeapAfter(front), last.entry)))
  }

  function Pushed(ops: seq<Op>): seq<Entry> {
    if ops == [] then []
    else
      var front, last := Pushed(ops[..|ops| - 1]), ops[|ops| - 1];
      if last.Push? then front + [last.entry] else front
  }

  function Popped(ops: seq<Op>): seq<Entry> {
    if ops == [] then []
    else
      var front, last := Popped(ops[..|ops| - 1]), ops[|ops| - 1];
      if last.Pop? then front + [last.entry] else front
  }

  lemma InHeap(m: multiset<Entry>, g: Entry)
    requires Greatest(m, g)
    ensures g in m
  {
  }

  /** Nothing is lost: what was pushed has been popped or is in the heap. */
  lemma {:induction false} PushedIsPoppedOrHeld(ops: seq<Op>)
    requires History(ops)
    ensures multiset(Pushed(ops)) == multiset(Popped(ops)) + HeapAfter(ops)
  {
    hide Greatest;
    if ops != [] {
      var front, last := ops[..|ops| - 1], ops[|ops| - 1];
      PushedIsPoppedOrHeld(front);
      if last.Pop? {
        assert last.entry in HeapAfter(front) by { InHeap(HeapAfter(front), last.entry); }
      }
    }
  }

  lemma {:induction false} HistoryPrefix(ops: seq<Op>, n: nat)
    requires History(ops) && n <= |ops|
    ensures History(ops[..n])
    decreases |ops|
  {
    hide HeapAfter, Greatest;
    if n == |ops| {
      assert ops[..n] == ops;
    } else {
      HistoryPrefix(ops[..|ops| - 1], n);
      assert ops[..|ops| - 1][..n] == ops[..n];
    }
  }

  /** At every pop of every history the entry taken has a priority at least that of every entry still
      held, and is no younger than those of equal priority. */
  lemma MostUrgentIsPopped(ops: seq<Op>, k: nat, held: Entry)
    requires History(ops) && k < |ops| && ops[k].Pop?
    requires held in HeapAfter(ops[..k + 1])
    ensures ops[k].entry.priority >= held.priority
    ensures ops[k].entry.priority == held.priority ==> ops[k].entry.timestamp <= held.timestamp
  {
    HistoryPrefix(ops, k + 1);
    assert ops[..k + 1][..k] == ops[..k];
    assert held in HeapAfter(ops[..k]);
  }

  /** A popped entry finds all earlier pushes of its priority popped before it. */
  ghost predicate InPushOrder(popped: seq<Entry>, pushed: seq<Entry>) {
    forall i, j, y | 0 <= i < j < |pushed| && pushed[i].priority == pushed[j].priority
                     && 0 <= y < |popped| && popped[y] == pushed[j] :: pushed[i] in popped[..y]
  }

  /** However pushes and pops are interleaved, and however the heap breaks ties, entries of one
      priority come out in the order they were pushed. */
  ghost predicate AlwaysFifo(pushed: seq<Entry>) {
    forall ops: seq<Op> | History(ops) && Pushed(ops) == pushed :: InPushOrder(Popped(ops), pushed)
  }

  ghost predicate ClockAdvances(pushed: seq<Entry>) {
    forall i, j | 0 <= i < j < |pushed| && pushed[i].priority == pushed[j].priority ::
      pushed[i].timestamp < pushed[j].timestamp
  }

  lemma NeverPoppedYet(ops: seq<Op>, e: Entry)
    requires History(ops) && e !in Pushed(ops)
    ensures e !in Popped(ops)
  {
    PushedIsPoppedOrHeld(ops);
    assert e !in multiset(Pushed(ops));
    assert multiset(Popped(ops))[e] == 0;
  }

  /** What is popped is among the pushes already, so a new push leaves the order as it is. */
  lemma PushKeepsOrder(popped: seq<Entry>, pushed: seq<Entry>, e: Entry)
    requires InPushOrder(popped, pushed) && e !in popped
    ensures InPushOrder(popped, pushed + [e])
  {
  }

  lemma PopKeepsOrder(popped: seq<Entry>, pushed: seq<Entry>, e: Entry)
    requires InPushOrder(popped, pushed)
    requires forall i, j | 0 <= i < j < |pushed| && pushed[i].priority == pushed[j].priority && e == pushed[j] ::
               pushed[i] in popped
    ensures InPushOrder(popped + [e], pushed)
  {
    var longer := popped + [e];
    forall i, j, y | 0 <= i < j < |pushed| && pushed[i].priority == pushed[j].priority
                     && 0 <= y < |longer| && longer[y] == pushed[j]
      ensures pushed[i] in longer[..y]
    {
      assert longer[..y] == popped[..y];
      assert popped[..|popped|] == popped;
    }
  }

  /** When an entry is on top of the heap, the earlier pushes of its priority have left it. */
  lemma EarlierAreGone(ops: seq<Op>, e: Entry)
    requires History(ops) && Greatest(HeapAfter(ops), e) && ClockAdvances(Pushed(ops))
    ensures forall i, j | 0 <= i < j < |Pushed(ops)| && Pushed(ops)[i].priority == Pushed(ops)[j].priority
                          && e == Pushed(ops)[j] :: Pushed(ops)[i] in Popped(ops)
  {
    hide HeapAfter, History, Pushed, Popped;
    var pushed := Pushed(ops);
    PushedIsPoppedOrHeld(ops);
    forall i, j | 0 <= i < j < |pushed| && pushed[i].priority == pushed[j].priority && e == pushed[j]
      ensures pushed[i] in Popped(ops)
    {
      assert pushed[i] in multiset(pushed);
    }
  }

  lemma NothingPopped()
    ensures InPushOrder([], [])
  {
  }

  lemma {:induction false} AdvancingClockIsFifo(ops: seq<Op>)
    requires History(ops) && DistinctEntries(Pushed(ops)) && ClockAdvances(Pushed(ops))
    ensures InPushOrder(Popped(ops), Pushed(ops))
  {
    hide HeapAfter, InPushOrder;
    if ops == [] {
      assert InPushOrder([], []) by { NothingPopped(); }
    } else {
      var front, last := ops[..|ops| - 1], ops[|ops| - 1];
      var before, now := Pushed(front), Pushed(ops);
      assert forall k | 0 <= k < |before| :: now[k] == before[k];
      AdvancingClockIsFifo(front);
      if last.Push? {
        assert now[|before|] == last.entry;
        NeverPoppedYet(front, last.entry);
        PushKeepsOrder(Popped(front), before, last.entry);
      } else {
        EarlierAreGone(front, last.entry);
        PopKeepsOrder(Popped(front), now, last.entry);
      }
    }
  }

  function Pushes(entries: seq<Entry>): seq<Op> {
    seq(|entries|, i requires 0 <= i < |entries| => Push(entries[i]))
  }

  function Pops(entries: seq<Entry>): seq<Op> {
    seq(|entries|, i requires 0 <= i < |entries| => Pop(entries[i]))
  }

  lemma {:induction false} PushAll(entries: seq<Entry>)
    ensures History(Pushes(entries)) && Pushed(Pushes(entries)) == entries && Popped(Pushes(entries)) == []
    ensures HeapAfter(Pushes(entries)) == multiset(entries)
  {
    if entries != [] {
      var front := entries[..|entries| - 1];
      PushAll(front);
      assert Pushes(entries)[..|entries| - 1] == Pushes(front);
      assert entries == front + [entries[|entries| - 1]];
    }
  }

  lemma PopOne(ops: seq<Op>, e: Entry)
    requires History(ops) && Greatest(HeapAfter(ops), e)
    ensures History(ops + [Pop(e)]) && HeapAfter(ops + [Pop(e)]) == HeapAfter(ops) - multiset{e}
    ensures Pushed(ops + [Pop(e)]) == Pushed(ops) && Popped(ops + [Pop(e)]) == Popped(ops) + [e]
  {
    hide Greatest;
    assert (ops + [Pop(e)])[..|ops|] == ops;
  }

  lemma Joined(front: seq<Entry>, out: seq<Entry>)
    requires out != []
    ensures front + [out[0]] + out[1..] == front + out
  {
  }

  lemma PopsOneByOne(ops: seq<Op>, out: seq<Entry>)
    ensures ops + Pops(out) == if out == [] then ops else ops + [Pop(out[0])] + Pops(out[1..])
  {
  }

  /** A history can go on with any drain of its heap. */
  lemma {:induction false} DrainAll(ops: seq<Op>, out: seq<Entry>)
    requires History(ops) && Drains(out, HeapAfter(ops))
    ensures History(ops + Pops(out)) && Pushed(ops + Pops(out)) == Pushed(ops)
    ensures Popped(ops + Pops(out)) == Popped(ops) + out
    decreases |out|
  {
    hide History, HeapAfter, Pushed, Popped, Greatest, Pops;
    PopsOneByOne(ops, out);
    if out != [] {
      PopOne(ops, out[0]);
      Joined(Popped(ops), out);
      DrainAll(ops + [Pop(out[0])], out[1..]);
    }
  }

  /** Unless the clock advanced, a drain may give the later push first. */
  lemma DrainOutOfOrder(pushed: seq<Entry>, i: nat, j: nat) returns (out: seq<Entry>)
    requires DistinctEntries(pushed) && i < j < |pushed|
    requires pushed[i].priority == pushed[j].priority && pushed[i].timestamp >= pushed[j].timestamp
    ensures Drains(out, multiset(pushed)) && !InPushOrder(out, pushed)
  {
    hide Drains;
    out := DrainFavouring(multiset(pushed), pushed[j]);
    DrainIsSorted(out, multiset(pushed));
    assert pushed[j] in multiset(out);
    var y :| 0 <= y < |out| && out[y] == pushed[j];
    forall x | 0 <= x < y ensures out[x] != pushed[i] {
      if out[x] != pushed[j] { assert !AtMost(out[x], pushed[j]); }
    }
  }

  lemma TieBroken(pushed: seq<Entry>, i: nat, j: nat) returns (ops: seq<Op>)
    requires DistinctEntries(pushed) && i < j < |pushed|
    requires pushed[i].priority == pushed[j].priority && pushed[i].timestamp >= pushed[j].timestamp
    ensures History(ops) && Pushed(ops) == pushed && !InPushOrder(Popped(ops), pushed)
  {
    hide History, HeapAfter, Pushed, Popped, Drains, InPushOrder;
    var out := DrainOutOfOrder(pushed, i, j);
    PushAll(pushed);
    DrainAll(Pushes(pushed), out);
    ops := Pushes(pushed) + Pops(out);
    assert Popped(ops) == out;
  }

  /** The documented FIFO among equal priorities holds exactly when the wall clock read a strictly
      later nanosecond at each later push of the same priority. */
  lemma FifoNeedsClock(pushed: seq<Entry>)
    requires DistinctEntries(pushed)
    ensures AlwaysFifo(pushed) <==> ClockAdvances(pushed)
  {
    hide History, Pushed, Popped, InPushOrder;
    if ClockAdvances(pushed) {
      forall ops: seq<Op> | History(ops) && Pushed(ops) == pushed ensures InPushOrder(Popped(ops), pushed) {
        AdvancingClockIsFifo(ops);
      }
    }
    if AlwaysFifo(pushed) {
      forall i, j | 0 <= i < j < |pushed| && pushed[i].priority == pushed[j].priority
        ensures pushed[i].timestamp < pushed[j].timestamp
      {
        if pushed[i].timestamp >= pushed[j].timestamp {
          var ops := TieBroken(pushed, i, j);
        }
      }
    }
  }

  class PriorityQueue {
    var heap: multiset<Entry>

    constructor ()
      ensures heap == multiset{}
    {
      heap := multiset{};
    }

    method Push(intentId: string, priority: int, now: nat)
      modifies this
      ensures heap == old(heap) + multiset{Entry(priority, now, intentId)}
    {
      heap := heap + multiset{Entry(priority, now, intentId)};
    }

    /** The entry the heap would give up next. */
    method Top() returns (e: Entry)
      requires heap != multiset{}
      ensures Greatest(heap, e)
    {
      ghost var g := HasGreatest(heap);
      e :| e in heap && forall f | f in heap :: AtMost(f, e);
    }

    method Pop() returns (intentId: Option<string>)
      modifies this
      ensures intentId.None? <==> old(heap) == multiset{}
      ensures intentId.None? ==> heap == old(heap)
      ensures intentId.Some? ==>
                exists e | e in old(heap) ::
                  && e.intentId == intentId.value && heap == old(heap) - multiset{e}
                  && (forall f | f in heap :: e.priority > f.priority
                                              || (e.priority == f.priority && e.timestamp <= f.timestamp))
    {
      if heap == multiset{} {
        return None;
      }
      var e := Top();
      intentId := Some(e.intentId);
      heap := heap - multiset{e};
    }

    method Peek() returns (r: Option<(string, int)>)
      ensures r.None? <==> heap == multiset{}
      ensures r.Some? ==>
                exists e | e in heap ::
                  && r.value == (e.intentId, e.priority)
                  && (forall f | f in heap :: e.priority > f.priority
                                              || (e.priority == f.priority && e.timestamp <= f.timestamp))
    {
      if heap == multiset{} {
        return None;
      }
      var e := Top();
      r := Some((e.intentId, e.priority));
    }

    method Clear()
      modifies this
      ensures heap == multiset{}
    {
      heap := multiset{};
    }
  }
}

/** The scheduler engine: a heap whose cancelled entries are dropped only when they surface, an
    index of the live tasks, and a bounded deferral queue. Task id "task-k" is the number k. */
module Scheduler {
  import opened Options
  import opened Heap

  const NORMAL := 50

  const MAX_DEFERRED := 1000

  /** heap holds negated priorities, index the live tasks; deferred is a FIFO. */
  datatype Engine = Engine(
    enableDefer: bool, heap: seq<Item>, index: map<nat, Item>, deferred: seq<Item>, counter: nat)

  function Ids(s: seq<Item>): set<nat> {
    set i | 0 <= i < |s| :: s[i].taskId
  }

  function Enqueue(e: Engine, intent: string, priority: int, id: nat): Engine {
    var item := Item(-priority, id, intent);
    e.(heap := Push(e.heap, item), index := e.index[id := item])
  }

  /** Pops entries until one is still in the index. */
  function Dequeue(e: Engine): (Engine, Option<Item>)
    decreases |e.heap|
  {
    if e.heap == [] then (e, None)
    else
      var (item, rest) := Pop(e.heap);
      assert |rest| < |e.heap|;
      if item.taskId in e.index then (e.(heap := rest, index := e.index - {item.taskId}), Some(item))
      else Dequeue(e.(heap := rest))
  }

  predicate Defers(e: Engine, priority: int, overloaded: bool) {
    e.enableDefer && overloaded && priority < NORMAL
  }

  /** The id submitted is the new value of the counter; a deferral beyond the bound is dropped. */
  function Submit(e: Engine, intent: string, priority: int, overloaded: bool): Engine {
    var id := e.counter + 1;
    var e' := e.(counter := id);
    if !Defers(e, priority, overloaded) then Enqueue(e', intent, priority, id)
    else if |e.deferred| < MAX_DEFERRED then e'.(deferred := e.deferred + [Item(-priority, id, intent)])
    else e'
  }

  function FirstWithId(s: seq<Item>, id: nat): Option<nat> {
    if s == [] then None
    else if s[0].taskId == id then Some(0)
    else match FirstWithId(s[1..], id)
         case None => None
         case Some(i) => Some(i + 1)
  }

  /** Where deque.remove finds an item equal to one of this priority: items compare by priority only. */
  function FirstWithPriority(s: seq<Item>, priority: int): Option<nat> {
    if s == [] then None
    else if s[0].priority == priority then Some(0)
    else match FirstWithPriority(s[1..], priority)
         case None => None
         case Some(i) => Some(i + 1)
  }

  lemma {:induction false} FirstWithIdAt(s: seq<Item>, id: nat)
    ensures FirstWithId(s, id).None? <==> id !in Ids(s)
    ensures FirstWithId(s, id).Some? ==>
              var i := FirstWithId(s, id).value;
              i < |s| && s[i].taskId == id && forall k | 0 <= k < i :: s[k].taskId != id
  {
    if s != [] {
      FirstWithIdAt(s[1..], id);
      assert Ids(s) == {s[0].taskId} + Ids(s[1..]) by {
        assert forall i | 0 < i < |s| :: s[i] == s[1..][i - 1];
        assert forall i | 0 <= i < |s| - 1 :: s[1..][i] == s[i + 1];
      }
    }
  }

  lemma {:induction false} FirstWithPriorityAt(s: seq<Item>, priority: int)
    ensures FirstWithPriority(s, priority).None? <==> forall i | 0 <= i < |s| :: s[i].priority != priority
    ensures FirstWithPriority(s, priority).Some? ==>
              var i := FirstWithPriority(s, priority).value;
              i < |s| && s[i].priority == priority && forall k | 0 <= k < i :: s[k].priority != priority
  {
    if s != [] {
      FirstWithPriorityAt(s[1..], priority);
      assert forall i | 0 < i < |s| :: s[i] == s[1..][i - 1];
    }
  }

  /** The position that cancelling a deferred id removes; None when the id is not deferred. */
  function CancelledAt(deferred: seq<Item>, id: nat): Option<nat> {
    match FirstWithId(deferred, id)
    case None => None
    case Some(i) => if i < |deferred| then FirstWithPriority(deferred, deferred[i].priority) else None
  }

  /** The first item as urgent as the one named goes: that is the one named exactly when no
      earlier deferred item has its priority. */
  lemma DeferredCancelRemoves(deferred: seq<Item>, id: nat)
    ensures CancelledAt(deferred, id).None? <==> id !in Ids(deferred)
    ensures CancelledAt(deferred, id).Some? ==>
              && FirstWithId(deferred, id).Some?
              && var i, j := FirstWithId(deferred, id).value, CancelledAt(deferred, id).value;
              && j <= i < |deferred|
              && deferred[j].priority == deferred[i].priority
              && (forall k | 0 <= k < j :: deferred[k].priority != deferred[i].priority)
              && (deferred[j].taskId == id <==> forall k | 0 <= k < i :: deferred[k].priority != deferred[i].priority)
  {
    FirstWithIdAt(deferred, id);
    var found := FirstWithId(deferred, id);
    if found.Some? { FirstWithPriorityAt(deferred, deferred[found.value].priority); }
  }

  function RemoveAt(s: seq<Item>, j: nat): seq<Item>
    requires j < |s|
  {
    s[..j] + s[j + 1..]
  }

  function Cancel(e: Engine, id: nat): (Engine, bool) {
    if id in e.index then (e.(index := e.index - {id}), true)
    else
      DeferredCancelRemoves(e.deferred, id);
      match CancelledAt(e.deferred, id)
      case None => (e, false)
      case Some(j) => (e.(deferred := RemoveAt(e.deferred, j)), true)
  }

  function EnqueueAll(e: Engine, items: seq<Item>): Engine
    decreases |items|
  {
    if items == [] then e
    else EnqueueAll(Enqueue(e, items[0].intent, -items[0].priority, items[0].taskId), items[1..])
  }

  function ProcessDeferred(e: Engine, overloaded: bool): (Engine, seq<nat>) {
    if e.deferred == [] || overloaded then (e, [])
    else
      (EnqueueAll(e.(deferred := []), e.deferred),
       seq(|e.deferred|, i requires 0 <= i < |e.deferred| => e.deferred[i].taskId))
  }

  // ---------- runs, with the fate of every id ----------

  datatype Event =
    | Submitted(intent: string, priority: int, overloaded: bool)
    | Cancelled(id: nat)
    | Dequeued
    | Processed(overloaded: bool)

  /** What became of an issued id: it is in the heap's index, in deferral, or gone in one of four ways. */
  datatype Fate = Live | Waiting | Dispatched | CancelledInHeap | RemovedFromDeferral | Dropped

  datatype World = World(engine: Engine, fate: map<nat, Fate>)

  function Initial(enableDefer: bool): World {
    World(Engine(enableDefer, [], map[], [], 0), map[])
  }

  function SubmitFate(e: Engine, priority: int, overloaded: bool): Fate {
    if !Defers(e, priority, overloaded) then Live
    else if |e.deferred| < MAX_DEFERRED then Waiting
    else Dropped
  }

  /** The id that cancel(id) actually takes away, and how. */
  function CancelFate(e: Engine, id: nat): map<nat, Fate> {
    if id in e.index then map[id := CancelledInHeap]
    else
      DeferredCancelRemoves(e.deferred, id);
      match CancelledAt(e.deferred, id)
      case None => map[]
      case Some(j) => map[e.deferred[j].taskId := RemovedFromDeferral]
  }

  function AfterSubmit(w: World, intent: string, p: int, overloaded: bool): World {
    World(Submit(w.engine, intent, p, overloaded),
          w.fate[w.engine.counter + 1 := SubmitFate(w.engine, p, overloaded)])
  }

  function AfterCancel(w: World, id: nat): World {
    World(Cancel(w.engine, id).0, w.fate + CancelFate(w.engine, id))
  }

  function AfterDequeue(w: World): World {
    var (e', r) := Dequeue(w.engine);
    World(e', if r.Some? then w.fate[r.value.taskId := Dispatched] else w.fate)
  }

  function AfterProcess(w: World, overloaded: bool): World {
    if w.engine.deferred == [] || overloaded then w
    else World(ProcessDeferred(w.engine, overloaded).0,
               map id | id in w.fate :: if w.fate[id] == Waiting then Live else w.fate[id])
  }

  function Step(w: World, ev: Event): World {
    match ev
    case Submitted(intent, p, overloaded) => AfterSubmit(w, intent, p, overloaded)
    case Cancelled(id) => AfterCancel(w, id)
    case Dequeued => AfterDequeue(w)
    case Processed(overloaded) => AfterProcess(w, overloaded)
  }

  function After(enableDefer: bool, evs: seq<Event>): World {
    if evs == [] then Initial(enableDefer) else Step(After(enableDefer, evs[..|evs| - 1]), evs[|evs| - 1])
  }

  predicate NoClash(x: Item, y: Item) {
    x.taskId == y.taskId ==> x == y
  }

  /** No id occurs twice. */
  ghost predicate Unique(m: multiset<Item>) {
    && (forall x | x in m :: m[x] == 1)
    && (forall x, y {:trigger NoClash(x, y)} | x in m && y in m :: NoClash(x, y))
  }

  ghost predicate Distinct(s: seq<Item>) {
    forall i, j | 0 <= i < j < |s| :: s[i].taskId != s[j].taskId
  }

  predicate WasCancelled(fate: map<nat, Fate>, id: nat) {
    id in fate && fate[id] == CancelledInHeap
  }

  /** The entries have no repeated ids, among them is every live task, and the others were cancelled. */
  ghost predicate BagInv(bag: multiset<Item>, index: map<nat, Item>, fate: map<nat, Fate>) {
    && Unique(bag)
    && (forall id | id in index :: index[id] in bag && index[id].taskId == id)
    && (forall x | x in bag :: x.taskId in index || WasCancelled(fate, x.taskId))
  }

  ghost predicate HeapInv(heap: seq<Item>, index: map<nat, Item>, fate: map<nat, Fate>) {
    IsHeap(heap) && BagInv(multiset(heap), index, fate)
  }

  /** The fates are of exactly the issued ids, and right about the live and the deferred ones. */
  ghost predicate FateInv(e: Engine, fate: map<nat, Fate>) {
    && (forall id :: id in fate <==> 1 <= id <= e.counter)
    && (forall id :: id in e.index <==> id in fate && fate[id] == Live)
    && (forall id :: id in Ids(e.deferred) <==> id in fate && fate[id] == Waiting)
  }

  ghost predicate LedgerInv(w: World) {
    && FateInv(w.engine, w.fate)
    && |w.engine.deferred| <= MAX_DEFERRED
    && Distinct(w.engine.deferred)
  }

  ghost predicate Inv(w: World) {
    HeapInv(w.engine.heap, w.engine.index, w.fate) && LedgerInv(w)
  }

  // ---------- each operation ----------

  lemma UniqueWithout(m: multiset<Item>, x: Item)
    requires Unique(m + multiset{x})
    ensures Unique(m) && x !in m && forall y | y in m :: y.taskId != x.taskId
  {
    var n := m + multiset{x};
    assert x in n && n[x] == 1;
    forall y | y in m ensures m[y] == 1 && y.taskId != x.taskId {
      assert y in n && n[y] == 1;
      assert NoClash(x, y);
    }
    forall y, z | y in m && z in m ensures NoClash(y, z) {
      assert y in n && z in n;
    }
  }

  lemma BagAdd(bag: multiset<Item>, index: map<nat, Item>, fate: map<nat, Fate>, item: Item)
    requires BagInv(bag, index, fate) && item.taskId !in index && !WasCancelled(fate, item.taskId)
    ensures BagInv(bag + multiset{item}, index[item.taskId := item], fate)
  {
    assert item !in bag;
    assert forall x :: x in bag + multiset{item} <==> x in bag || x == item;
  }

  lemma BagTake(bag: multiset<Item>, index: map<nat, Item>, fate: map<nat, Fate>, item: Item)
    requires BagInv(bag + multiset{item}, index, fate)
    ensures item !in bag
    ensures BagInv(bag, index - {item.taskId}, fate)
    ensures item.taskId !in index ==> BagInv(bag, index, fate)
    ensures item.taskId in index ==> index[item.taskId] == item
  {
    UniqueWithout(bag, item);
    var all := bag + multiset{item};
    assert forall x :: x in all <==> x in bag || x == item;
  }

  lemma BagFate(bag: multiset<Item>, index: map<nat, Item>, fate: map<nat, Fate>, fate': map<nat, Fate>)
    requires BagInv(bag, index, fate)
    requires forall x | x in bag && WasCancelled(fate, x.taskId) :: WasCancelled(fate', x.taskId)
    ensures BagInv(bag, index, fate')
  {
  }

  lemma BagCancel(bag: multiset<Item>, index: map<nat, Item>, fate: map<nat, Fate>, id: nat)
    requires BagInv(bag, index, fate)
    ensures BagInv(bag, index - {id}, fate[id := CancelledInHeap])
  {
  }

  lemma EnqueueKeepsHeap(e: Engine, fate: map<nat, Fate>, intent: string, priority: int, id: nat)
    requires HeapInv(e.heap, e.index, fate) && id !in e.index && !WasCancelled(fate, id)
    ensures HeapInv(Enqueue(e, intent, priority, id).heap, Enqueue(e, intent, priority, id).index, fate)
  {
    PushIsHeap(e.heap, Item(-priority, id, intent));
    BagAdd(multiset(e.heap), e.index, fate, Item(-priority, id, intent));
  }

  /** The outcome of _dequeue: a live task of maximal priority, or None exactly when no task is
      live; the entries thrown away are cancelled ones, each at least as urgent. */
  ghost predicate Dequeues(e: Engine, e': Engine, r: Option<Item>) {
    && multiset(e'.heap) <= multiset(e.heap)
    && e' == e.(heap := e'.heap, index := e'.index)
    && (r.None? <==> e.index == map[])
    && (r.None? ==> e'.heap == [] && e'.index == e.index)
    && (r.Some? ==>
          && r.value.taskId in e.index && e.index[r.value.taskId] == r.value
          && e'.index == e.index - {r.value.taskId}
          && (forall id | id in e.index :: r.value.priority <= e.index[id].priority)
          && (forall x | x in multiset(e.heap) && x !in multiset(e'.heap) :: x.priority <= r.value.priority)
          && (forall x | x in multiset(e'.heap) :: r.value.priority <= x.priority)
          && r.value !in multiset(e'.heap))
    && (forall x | x in multiset(e.heap) && x !in multiset(e'.heap) && r != Some(x) :: x.taskId !in e.index)
  }

  lemma TakeFirst(e: Engine, item: Item, rest: seq<Item>)
    requires multiset(e.heap) == multiset(rest) + multiset{item}
    requires item !in multiset(rest) && item.taskId in e.index && e.index[item.taskId] == item
    requires forall y | y in e.heap :: item.priority <= y.priority
    requires forall id | id in e.index :: e.index[id] in multiset(e.heap)
    ensures Dequeues(e, e.(heap := rest, index := e.index - {item.taskId}), Some(item))
  {
    assert forall y :: y in multiset(e.heap) <==> y in multiset(rest) || y == item;
    assert forall id | id in e.index :: e.index[id] in e.heap;
  }

  lemma DropFirst(e: Engine, item: Item, rest: seq<Item>, e': Engine, r: Option<Item>)
    requires multiset(e.heap) == multiset(rest) + multiset{item}
    requires item !in multiset(rest) && item.taskId !in e.index
    requires forall y | y in e.heap :: item.priority <= y.priority
    requires forall id | id in e.index :: e.index[id] in multiset(e.heap)
    requires Dequeues(e.(heap := rest), e', r)
    ensures Dequeues(e, e', r)
  {
    assert forall y :: y in multiset(e.heap) <==> y in multiset(rest) || y == item;
    if r.Some? {
      assert r.value in multiset(e.heap);
      assert r.value in e.heap;
    }
  }

  lemma {:induction false} DequeueSpec(e: Engine, fate: map<nat, Fate>)
    requires HeapInv(e.heap, e.index, fate)
    ensures Dequeues(e, Dequeue(e).0, Dequeue(e).1)
    ensures HeapInv(Dequeue(e).0.heap, Dequeue(e).0.index, fate)
    decreases |e.heap|
  {
    if e.heap == [] {
      assert multiset(e.heap) == multiset{};
    } else {
      PopTakesLeast(e.heap);
      var (item, rest) := Pop(e.heap);
      BagTake(multiset(rest), e.index, fate, item);
      if item.taskId in e.index {
        TakeFirst(e, item, rest);
      } else {
        DequeueSpec(e.(heap := rest), fate);
        DropFirst(e, item, rest, Dequeue(e).0, Dequeue(e).1);
      }
    }
  }

  lemma RemoveAtIds(s: seq<Item>, j: nat)
    requires j < |s| && Distinct(s)
    ensures forall id :: id in Ids(RemoveAt(s, j)) <==> id in Ids(s) && id != s[j].taskId
    ensures s[j].taskId in Ids(s) && Distinct(RemoveAt(s, j)) && |RemoveAt(s, j)| == |s| - 1
  {
    var r := RemoveAt(s, j);
    assert forall i | 0 <= i < |r| :: r[i] == s[if i < j then i else i + 1];
    forall id | id in Ids(s) && id != s[j].taskId ensures id in Ids(r) {
      var i :| 0 <= i < |s| && s[i].taskId == id;
      assert r[if i < j then i else i - 1] == s[i];
    }
  }

  lemma CancelSparesHeap(w: World, id: nat)
    requires LedgerInv(w) && id !in w.engine.index
    ensures forall x :: WasCancelled(w.fate, x) ==> WasCancelled(AfterCancel(w, id).fate, x)
  {
    hide CancelledAt;
    DeferredCancelRemoves(w.engine.deferred, id);
    if CancelledAt(w.engine.deferred, id).Some? {
      RemoveAtIds(w.engine.deferred, CancelledAt(w.engine.deferred, id).value);
    }
  }

  lemma CancelLedger(w: World, id: nat)
    requires LedgerInv(w)
    ensures LedgerInv(AfterCancel(w, id))
  {
    hide CancelledAt, RemoveAt;
    var e, w' := w.engine, AfterCancel(w, id);
    DeferredCancelRemoves(e.deferred, id);
    if id in e.index {
      assert w'.fate == w.fate[id := CancelledInHeap];
    } else if CancelledAt(e.deferred, id).Some? {
      var j := CancelledAt(e.deferred, id).value;
      RemoveAtIds(e.deferred, j);
      assert w'.fate == w.fate[e.deferred[j].taskId := RemovedFromDeferral];
    } else {
      assert w'.fate == w.fate;
    }
  }

  lemma CancelKeeps(w: World, id: nat)
    requires Inv(w)
    ensures Inv(AfterCancel(w, id))
  {
    hide IsHeap, BagInv, LedgerInv, CancelledAt, RemoveAt;
    var e, w' := w.engine, AfterCancel(w, id);
    DeferredCancelRemoves(e.deferred, id);
    CancelLedger(w, id);
    if id in e.index {
      assert w'.fate == w.fate[id := CancelledInHeap];
      BagCancel(multiset(e.heap), e.index, w.fate, id);
    } else {
      CancelSparesHeap(w, id);
      BagFate(multiset(e.heap), e.index, w.fate, w'.fate);
    }
  }

  lemma IdsAppend(s: seq<Item>, item: Item)
    ensures forall id :: id in Ids(s + [item]) <==> id in Ids(s) || id == item.taskId
  {
    var t := s + [item];
    assert t[|s|] == item;
    forall id | id in Ids(s) ensures id in Ids(t) {
      var i :| 0 <= i < |s| && s[i].taskId == id;
      assert t[i] == s[i];
    }
  }

  lemma NextIdIsNew(w: World)
    requires LedgerInv(w)
    ensures w.engine.counter + 1 !in w.fate && w.engine.counter + 1 !in w.engine.index
  {
  }

  lemma SubmitLedger(w: World, intent: string, p: int, overloaded: bool)
    requires LedgerInv(w)
    ensures LedgerInv(AfterSubmit(w, intent, p, overloaded))
  {
    hide Push, IsHeap;
    var e := w.engine;
    assert e.counter + 1 !in w.fate;
    assert forall i | 0 <= i < |e.deferred| :: e.deferred[i].taskId in Ids(e.deferred);
    IdsAppend(e.deferred, Item(-p, e.counter + 1, intent));
  }

  lemma SubmitKeeps(w: World, intent: string, p: int, overloaded: bool)
    requires Inv(w)
    ensures Inv(AfterSubmit(w, intent, p, overloaded))
  {
    hide IsHeap, BagInv, Push, LedgerInv;
    var e, w' := w.engine, AfterSubmit(w, intent, p, overloaded);
    SubmitLedger(w, intent, p, overloaded);
    NextIdIsNew(w);
    if !Defers(e, p, overloaded) {
      EnqueueKeepsHeap(e, w.fate, intent, p, e.counter + 1);
    }
    BagFate(multiset(w'.engine.heap), w'.engine.index, w.fate, w'.fate);
  }

  lemma IdsHead(s: seq<Item>)
    requires s != []
    ensures forall id :: id in Ids(s) <==> id == s[0].taskId || id in Ids(s[1..])
    ensures Distinct(s) ==> s[0].taskId !in Ids(s[1..]) && Distinct(s[1..])
  {
    forall id | id in Ids(s) && id != s[0].taskId ensures id in Ids(s[1..]) {
      var i :| 0 <= i < |s| && s[i].taskId == id;
      assert s[1..][i - 1] == s[i];
    }
  }

  lemma {:induction false} EnqueueAllKeepsHeap(e: Engine, fate: map<nat, Fate>, items: seq<Item>)
    requires HeapInv(e.heap, e.index, fate) && Distinct(items)
    requires forall id | id in Ids(items) :: id !in e.index && !WasCancelled(fate, id)
    ensures HeapInv(EnqueueAll(e, items).heap, EnqueueAll(e, items).index, fate)
    decreases |items|
  {
    hide Push;
    if items != [] {
      var x := items[0];
      IdsHead(items);
      EnqueueKeepsHeap(e, fate, x.intent, -x.priority, x.taskId);
      EnqueueAllKeepsHeap(Enqueue(e, x.intent, -x.priority, x.taskId), fate, items[1..]);
    }
  }

  /** Every item ends up in the index as it was deferred, nothing else changes there. */
  lemma {:induction false} EnqueueAllIndexes(e: Engine, items: seq<Item>)
    requires Distinct(items)
    ensures var e' := EnqueueAll(e, items);
            && e' == e.(heap := e'.heap, index := e'.index)
            && (forall id :: id in e'.index <==> id in e.index || id in Ids(items))
            && (forall id | id in e.index && id !in Ids(items) :: e'.index[id] == e.index[id])
            && (forall i | 0 <= i < |items| :: items[i].taskId in e'.index && e'.index[items[i].taskId] == items[i])
    decreases |items|
  {
    if items != [] {
      var x := items[0];
      IdsHead(items);
      EnqueueAllIndexes(Enqueue(e, x.intent, -x.priority, x.taskId), items[1..]);
      forall i | 0 < i < |items|
        ensures items[i].taskId in EnqueueAll(e, items).index && EnqueueAll(e, items).index[items[i].taskId] == items[i]
      {
        assert items[1..][i - 1] == items[i];
      }
    }
  }

  lemma ProcessLedger(w: World, overloaded: bool)
    requires LedgerInv(w)
    ensures LedgerInv(AfterProcess(w, overloaded))
  {
    hide EnqueueAll;
    EnqueueAllIndexes(w.engine.(deferred := []), w.engine.deferred);
  }

  lemma ProcessKeeps(w: World, overloaded: bool)
    requires Inv(w)
    ensures Inv(AfterProcess(w, overloaded))
  {
    hide IsHeap, BagInv, EnqueueAll;
    var e, w' := w.engine, AfterProcess(w, overloaded);
    if e.deferred != [] && !overloaded {
      ProcessLedger(w, overloaded);
      EnqueueAllKeepsHeap(e.(deferred := []), w.fate, e.deferred);
      BagFate(multiset(w'.engine.heap), w'.engine.index, w.fate, w'.fate);
    }
  }

  lemma DequeueLedger(w: World, e': Engine, r: Option<Item>)
    requires LedgerInv(w) && Dequeues(w.engine, e', r)
    ensures LedgerInv(World(e', if r.Some? then w.fate[r.value.taskId := Dispatched] else w.fate))
    ensures r.Some? ==> r.value.taskId in w.fate && w.fate[r.value.taskId] == Live
  {
  }

  lemma DequeueKeeps(w: World)
    requires Inv(w)
    ensures Inv(AfterDequeue(w))
  {
    hide IsHeap, BagInv, LedgerInv, Dequeue;
    DequeueSpec(w.engine, w.fate);
    DequeueLedger(w, Dequeue(w.engine).0, Dequeue(w.engine).1);
    var (e', r) := Dequeue(w.engine);
    var w' := AfterDequeue(w);
    BagFate(multiset(e'.heap), e'.index, w.fate, w'.fate);
  }

  lemma StepKeeps(w: World, ev: Event)
    requires Inv(w)
    ensures Inv(Step(w, ev))
  {
    hide AfterSubmit, AfterCancel, AfterDequeue, AfterProcess;
    match ev
    case Submitted(intent, p, overloaded) => SubmitKeeps(w, intent, p, overloaded);
    case Cancelled(id) => CancelKeeps(w, id);
    case Dequeued => DequeueKeeps(w);
    case Processed(overloaded) => ProcessKeeps(w, overloaded);
  }

  // ---------- main results ----------

  /** Conservation: after every run each issued id has one fate, the live and the waiting ones are
      exactly those in the index and in deferral, and deferral stays within its bound. */
  lemma {:induction false} RunKeepsInv(enableDefer: bool, evs: seq<Event>)
    ensures Inv(After(enableDefer, evs))
  {
    hide Step;
    if evs != [] {
      RunKeepsInv(enableDefer, evs[..|evs| - 1]);
      StepKeeps(After(enableDefer, evs[..|evs| - 1]), evs[|evs| - 1]);
    }
  }

  predicate Final(f: Fate) {
    f != Live && f != Waiting
  }

  /** Only live tasks run or get cancelled in the heap, only waiting ones are removed from deferral
      or become live, and what is gone stays gone. */
  ghost predicate FateStep(f: Fate, f': Fate) {
    || f == f'
    || (f == Live && (f' == Dispatched || f' == CancelledInHeap))
    || (f == Waiting && (f' == Live || f' == RemovedFromDeferral))
  }

  lemma StepMovesFates(w: World, ev: Event, id: nat)
    requires Inv(w) && id in w.fate
    ensures id in Step(w, ev).fate && FateStep(w.fate[id], Step(w, ev).fate[id])
  {
    hide Dequeue, EnqueueAll, Push, HeapInv, CancelledAt;
    match ev
    case Submitted(intent, p, overloaded) =>
    case Cancelled(c) =>
      DeferredCancelRemoves(w.engine.deferred, c);
      if CancelledAt(w.engine.deferred, c).Some? {
        RemoveAtIds(w.engine.deferred, CancelledAt(w.engine.deferred, c).value);
      }
    case Dequeued => DequeueSpec(w.engine, w.fate);
    case Processed(overloaded) =>
  }

  /** A new id is dropped only below NORMAL, under overload, with deferral on and full. */
  lemma DropsOnlyWhenFull(w: World, intent: string, p: int, overloaded: bool)
    requires Inv(w)
    ensures Step(w, Submitted(intent, p, overloaded)).fate[w.engine.counter + 1] == Dropped <==>
              p < 50 && overloaded && w.engine.enableDefer && |w.engine.deferred| == 1000
  {
  }

  lemma {:induction false} FinalFatesStay(enableDefer: bool, evs: seq<Event>, more: seq<Event>, id: nat)
    requires id in After(enableDefer, evs).fate && Final(After(enableDefer, evs).fate[id])
    ensures id in After(enableDefer, evs + more).fate
    ensures After(enableDefer, evs + more).fate[id] == After(enableDefer, evs).fate[id]
    decreases |more|
  {
    hide Step, Inv;
    if more == [] {
      assert evs + more == evs;
    } else {
      var front := more[..|more| - 1];
      FinalFatesStay(enableDefer, evs, front, id);
      assert (evs + more)[..|evs + more| - 1] == evs + front;
      RunKeepsInv(enableDefer, evs + front);
      StepMovesFates(After(enableDefer, evs + front), more[|more| - 1], id);
    }
  }

  /** A task cancelled in the heap, removed from deferral or dropped is never dequeued afterwards,
      and no task is dequeued twice. */
  lemma GoneForGood(enableDefer: bool, evs: seq<Event>, more: seq<Event>, id: nat)
    requires id in After(enableDefer, evs).fate && Final(After(enableDefer, evs).fate[id])
    ensures var r := Dequeue(After(enableDefer, evs + more).engine).1; r.Some? ==> r.value.taskId != id
  {
    FinalFatesStay(enableDefer, evs, more, id);
    RunKeepsInv(enableDefer, evs + more);
    var w := After(enableDefer, evs + more);
    DequeueSpec(w.engine, w.fate);
  }

  // ---------- what a cancel that reports success has ended ----------

  /** The first deferred item with this id exists, and none before it has its priority. */
  predicate FirstOfItsPriority(deferred: seq<Item>, id: nat) {
    var i := FirstWithId(deferred, id);
    i.Some? && i.value < |deferred| && forall k | 0 <= k < i.value :: deferred[k].priority != deferred[i.value].priority
  }

  lemma CancelStepEndsIff(w: World, id: nat)
    requires LedgerInv(w) && Cancel(w.engine, id).1
    ensures var w' := Step(w, Cancelled(id));
            && id in w'.fate
            && (Final(w'.fate[id]) <==> id in w.engine.index || FirstOfItsPriority(w.engine.deferred, id))
            && (!Final(w'.fate[id]) ==> w'.fate[id] == Waiting)
  {
    hide CancelledAt, RemoveAt, FirstWithPriority;
    var d := w.engine.deferred;
    DeferredCancelRemoves(d, id);
    FirstWithIdAt(d, id);
  }

  /** In every reachable state a cancel that returns true ends the task it names exactly when that
      task is live, or is the first deferred one of its priority; otherwise the task goes on waiting. */
  lemma CancelEndsIff(enableDefer: bool, evs: seq<Event>, id: nat)
    requires Cancel(After(enableDefer, evs).engine, id).1
    ensures var e, w := After(enableDefer, evs).engine, After(enableDefer, evs + [Cancelled(id)]);
            && id in w.fate
            && (Final(w.fate[id]) <==> id in e.index || FirstOfItsPriority(e.deferred, id))
            && (!Final(w.fate[id]) ==> w.fate[id] == Waiting && id in Ids(w.engine.deferred))
  {
    hide Step, HeapInv;
    RunKeepsInv(enableDefer, evs);
    RunKeepsInv(enableDefer, evs + [Cancelled(id)]);
    assert (evs + [Cancelled(id)])[..|evs|] == evs;
    CancelStepEndsIff(After(enableDefer, evs), id);
  }

  lemma AfterOne(enableDefer: bool, evs: seq<Event>, ev: Event)
    ensures After(enableDefer, evs + [ev]) == Step(After(enableDefer, evs), ev)
  {
    hide Step;
    assert (evs + [ev])[..|evs|] == evs;
  }

  lemma TwoDeferred(a: string, b: string, p: int)
    requires p < NORMAL
    ensures After(true, [Submitted(a, p, true), Submitted(b, p, true)])
         == World(Engine(true, [], map[], [Item(-p, 1, a), Item(-p, 2, b)], 2), map[1 := Waiting, 2 := Waiting])
  {
    hide Push;
    var evs := [Submitted(a, p, true), Submitted(b, p, true)];
    assert evs == [] + [evs[0]] + [evs[1]];
    AfterOne(true, [], evs[0]);
    AfterOne(true, [] + [evs[0]], evs[1]);
  }

  lemma FirstIsRemoved(x: Item, y: Item, fate: map<nat, Fate>)
    requires x.taskId == 1 && y.taskId == 2 && x.priority == y.priority
    requires fate == map[1 := Waiting, 2 := Waiting]
    ensures var e := Engine(true, [], map[], [x, y], 2);
            && Cancel(e, 2).1
            && Step(World(e, fate), Cancelled(2))
               == World(e.(deferred := [y]), map[1 := RemovedFromDeferral, 2 := Waiting])
  {
    var d := [x, y];
    assert d[1..] == [y];
    assert FirstWithId(d, 2) == Some(1);
    assert CancelledAt(d, 2) == Some(0);
    assert RemoveAt(d, 0) == [y];
  }

  lemma WaitingOneRuns(y: Item, fate: map<nat, Fate>)
    requires y.taskId == 2 && 2 in fate && fate[2] == Waiting
    ensures var w := World(Engine(true, [], map[], [y], 2), fate);
            var v := Step(Step(w, Processed(false)), Dequeued);
            2 in v.fate && v.fate[2] == Dispatched
  {
    var w := World(Engine(true, [], map[], [y], 2), fate);
    var e := Engine(true, [], map[], [], 2);
    assert [] + [y] == [y] && [y][0 := y] == [y] && [y][1..] == [];
    var e1 := Enqueue(e, y.intent, -y.priority, 2);
    assert e1 == e.(heap := [y], index := map[2 := y]);
    assert EnqueueAll(e1, []) == e1;
    assert EnqueueAll(e, [y]) == e1;
    var w1 := Step(w, Processed(false));
    assert w1.engine == e1 && 2 in w1.fate;
    assert Pop([y]) == (y, []);
    assert Dequeue(e1).1 == Some(y);
  }

  /** An input: the second of two deferred tasks of one priority is cancelled with success, the first
      is removed in its place, and the second runs once the load has dropped. */
  lemma CancelledTaskRuns(a: string, b: string, p: int)
    requires p < NORMAL
    ensures var evs := [Submitted(a, p, true), Submitted(b, p, true)];
            && Cancel(After(true, evs).engine, 2).1
            && var w := After(true, evs + [Cancelled(2)]);
            && 1 in w.fate && w.fate[1] == RemovedFromDeferral
            && 2 in w.fate && w.fate[2] == Waiting
            && var v := After(true, evs + [Cancelled(2), Processed(false), Dequeued]);
            && 2 in v.fate && v.fate[2] == Dispatched
  {
    hide After, Step, AfterSubmit, AfterCancel, AfterProcess, AfterDequeue;
    var evs := [Submitted(a, p, true), Submitted(b, p, true)];
    var x, y := Item(-p, 1, a), Item(-p, 2, b);
    var e := Engine(true, [], map[], [x, y], 2);
    TwoDeferred(a, b, p);
    AfterOne(true, evs, Cancelled(2));
    AfterOne(true, evs + [Cancelled(2)], Processed(false));
    AfterOne(true, evs + [Cancelled(2)] + [Processed(false)], Dequeued);
    assert evs + [Cancelled(2)] + [Processed(false)] + [Dequeued] == evs + [Cancelled(2), Processed(false), Dequeued];
    FirstIsRemoved(x, y, map[1 := Waiting, 2 := Waiting]);
    WaitingOneRuns(y, map[1 := RemovedFromDeferral, 2 := Waiting]);
  }

  // ---------- refinement of a plain map of live tasks ----------

  datatype Plain = Plain(live: map<nat, Item>, deferred: seq<Item>, counter: nat)

  function Abstract(e: Engine): Plain {
    Plain(e.index, e.deferred, e.counter)
  }

  /** Taking a live task of maximal priority (priorities are stored negated), or None when none is live. */
  ghost predicate PlainDequeue(p: Plain, r: Option<Item>, p': Plain) {
    match r
    case None => p.live == map[] && p' == p
    case Some(item) =>
      && item.taskId in p.live && p.live[item.taskId] == item
      && (forall id | id in p.live :: item.priority <= p.live[id].priority)
      && p' == p.(live := p.live - {item.taskId})
  }

  ghost predicate PlainSubmit(enableDefer: bool, p: Plain, intent: string, priority: int, overloaded: bool, p': Plain) {
    var item := Item(-priority, p.counter + 1, intent);
    var q := p.(counter := p.counter + 1);
    if !(enableDefer && overloaded && priority < 50) then p' == q.(live := p.live[item.taskId := item])
    else if |p.deferred| < 1000 then p' == q.(deferred := p.deferred + [item])
    else p' == q
  }

  /** Position j is the first with the priority that task id has. */
  ghost predicate CancelsAt(deferred: seq<Item>, id: nat, j: nat)
    requires j < |deferred|
  {
    && (exists i | 0 <= i < |deferred| :: deferred[i].taskId == id && deferred[i].priority == deferred[j].priority)
    && forall k | 0 <= k < j :: deferred[k].priority != deferred[j].priority
  }

  ghost predicate PlainCancel(p: Plain, id: nat, found: bool, p': Plain) {
    if id in p.live then found && p' == p.(live := p.live - {id})
    else if id !in Ids(p.deferred) then !found && p' == p
    else
      && found
      && exists j: nat | j < |p.deferred| ::
           CancelsAt(p.deferred, id, j) && p' == p.(deferred := RemoveAt(p.deferred, j))
  }

  /** All of deferral becomes live, and its ids are reported in order. */
  ghost predicate PlainProcess(p: Plain, overloaded: bool, ids: seq<nat>, p': Plain) {
    if overloaded then p' == p && ids == []
    else
      && |ids| == |p.deferred|
      && (forall i | 0 <= i < |ids| :: ids[i] == p.deferred[i].taskId)
      && p' == p.(live := p'.live, deferred := [])
      && p'.live.Keys == p.live.Keys + Ids(p.deferred)
      && (forall id | id in p.live :: p'.live[id] == p.live[id])
      && (forall i | 0 <= i < |p.deferred| :: p.deferred[i].taskId in p'.live
                                              && p'.live[p.deferred[i].taskId] == p.deferred[i])
  }

  lemma DequeueRefines(w: World)
    requires Inv(w)
    ensures PlainDequeue(Abstract(w.engine), Dequeue(w.engine).1, Abstract(Dequeue(w.engine).0))
  {
    hide Dequeue;
    DequeueSpec(w.engine, w.fate);
  }

  lemma StepKeepsEnableDefer(w: World, ev: Event)
    requires Inv(w)
    ensures Step(w, ev).engine.enableDefer == w.engine.enableDefer
  {
    hide Dequeue, EnqueueAll;
    if ev.Dequeued? { DequeueSpec(w.engine, w.fate); }
    if ev.Processed? { EnqueueAllIndexes(w.engine.(deferred := []), w.engine.deferred); }
  }

  lemma {:induction false} EnableDeferIsFixed(enableDefer: bool, evs: seq<Event>)
    ensures After(enableDefer, evs).engine.enableDefer == enableDefer
  {
    hide Dequeue, EnqueueAll, Enqueue, Inv;
    if evs != [] {
      var w := After(enableDefer, evs[..|evs| - 1]);
      EnableDeferIsFixed(enableDefer, evs[..|evs| - 1]);
      RunKeepsInv(enableDefer, evs[..|evs| - 1]);
      StepKeepsEnableDefer(w, evs[|evs| - 1]);
    }
  }

  lemma CancelRefines(w: World, id: nat)
    requires Inv(w)
    ensures PlainCancel(Abstract(w.engine), id, Cancel(w.engine, id).1, Abstract(Cancel(w.engine, id).0))
  {
    var d := w.engine.deferred;
    DeferredCancelRemoves(d, id);
    FirstWithIdAt(d, id);
    if id !in w.engine.index && id in Ids(d) {
      var i, j := FirstWithId(d, id).value, CancelledAt(d, id).value;
      assert d[i].taskId == id && d[i].priority == d[j].priority;
      assert CancelsAt(d, id, j);
    }
  }

  lemma ProcessRefines(w: World, overloaded: bool)
    requires Inv(w)
    ensures PlainProcess(Abstract(w.engine), overloaded, ProcessDeferred(w.engine, overloaded).1,
                         Abstract(ProcessDeferred(w.engine, overloaded).0))
  {
    hide EnqueueAll;
    var e := w.engine;
    EnqueueAllIndexes(e.(deferred := []), e.deferred);
    assert forall id | id in e.index :: w.fate[id] == Live;
    assert forall id | id in Ids(e.deferred) :: w.fate[id] == Waiting;
  }

  /** In every reachable state each operation acts on the index and the deferral queue as the plain
      scheduler does on its map of live tasks; heap order shows only in which task of maximal priority comes out. */
  lemma Refines(enableDefer: bool, evs: seq<Event>, intent: string, priority: int, overloaded: bool, id: nat)
    ensures var e := After(enableDefer, evs).engine;
            && PlainSubmit(enableDefer, Abstract(e), intent, priority, overloaded,
                           Abstract(Submit(e, intent, priority, overloaded)))
            && PlainCancel(Abstract(e), id, Cancel(e, id).1, Abstract(Cancel(e, id).0))
            && PlainDequeue(Abstract(e), Dequeue(e).1, Abstract(Dequeue(e).0))
            && PlainProcess(Abstract(e), overloaded, ProcessDeferred(e, overloaded).1,
                            Abstract(ProcessDeferred(e, overloaded).0))
  {
    hide Dequeue, EnqueueAll, Push, Cancel, ProcessDeferred, PlainDequeue, PlainCancel, PlainProcess, Inv;
    RunKeepsInv(enableDefer, evs);
    EnableDeferIsFixed(enableDefer, evs);
    var w := After(enableDefer, evs);
    CancelRefines(w, id);
    DequeueRefines(w);
    ProcessRefines(w, overloaded);
  }

  lemma {:induction false} UniqueCount(s: seq<Item>)
    requires Unique(multiset(s))
    ensures |Ids(s)| == |s|
  {
    if s != [] {
      var t, x := s[..|s| - 1], s[|s| - 1];
      assert s == t + [x];
      UniqueWithout(multiset(t), x);
      UniqueCount(t);
      IdsAppend(t, x);
      assert forall i | 0 <= i < |t| :: t[i] in multiset(t);
      assert Ids(s) == Ids(t) + {x.taskId};
    }
  }

  /** The heap with items pushed one after the other. */
  function PushedInTurn(h: seq<Item>, items: seq<Item>): seq<Item>
    decreases |items|
  {
    if items == [] then h else PushedInTurn(Push(h, items[0]), items[1..])
  }

  lemma {:induction false} EnqueueAllPushes(e: Engine, items: seq<Item>)
    ensures EnqueueAll(e, items).heap == PushedInTurn(e.heap, items)
    decreases |items|
  {
    hide Push;
    if items != [] {
      var item := items[0];
      EnqueueAllPushes(Enqueue(e, item.intent, -item.priority, item.taskId), items[1..]);
    }
  }

  /** What the heap sees of the operations: a task is pushed when it is submitted or, in deferral order,
      when deferral is processed; cancelling leaves its entry where it is. */
  lemma HeapSeesPushesOnly(e: Engine, intent: string, priority: int, overloaded: bool, id: nat)
    ensures Submit(e, intent, priority, overloaded).heap
         == if e.enableDefer && overloaded && priority < 50 then e.heap
            else Push(e.heap, Item(-priority, e.counter + 1, intent))
    ensures Cancel(e, id).0.heap == e.heap
    ensures ProcessDeferred(e, overloaded).0.heap == if overloaded then e.heap else PushedInTurn(e.heap, e.deferred)
  {
    hide Push;
    EnqueueAllPushes(e.(deferred := []), e.deferred);
  }

  /** queue_size counts the live tasks and the cancelled ones not popped yet. */
  lemma QueueSize(enableDefer: bool, evs: seq<Event>)
    ensures var w := After(enableDefer, evs);
            var stale := Ids(w.engine.heap) - w.engine.index.Keys;
            && (forall id | id in stale :: WasCancelled(w.fate, id))
            && |w.engine.heap| == |w.engine.index| + |stale|
  {
    hide Step, IsHeap, LedgerInv;
    RunKeepsInv(enableDefer, evs);
    var w := After(enableDefer, evs);
    var e := w.engine;
    UniqueCount(e.heap);
    assert forall i | 0 <= i < |e.heap| :: e.heap[i] in multiset(e.heap);
    forall id | id in e.index ensures id in Ids(e.heap) {
      assert e.index[id] in e.heap;
    }
    var stale := Ids(e.heap) - e.index.Keys;
    assert Ids(e.heap) == e.index.Keys + stale;
  }

  // ---------- the object ----------

  class SchedulerEngine {
    const enableDefer: bool
    var heap: seq<Item>
    var taskIndex: map<nat, Item>
    var deferred: seq<Item>
    var taskCounter: nat

    function View(): Engine
      reads this
    {
      Engine(enableDefer, heap, taskIndex, deferred, taskCounter)
    }

    constructor (enableDefer: bool)
      ensures View() == Initial(enableDefer).engine
    {
      this.enableDefer := enableDefer;
      heap, taskIndex, deferred, taskCounter := [], map[], [], 0;
    }

    method EnqueueItem(intent: string, priority: int, taskId: nat)
      modifies this
      ensures View() == Enqueue(old(View()), intent, priority, taskId)
    {
      var item := Item(-priority, taskId, intent);
      heap := HeapPush(heap, item);
      taskIndex := taskIndex[taskId := item];
    }

    method DequeueItem() returns (r: Option<Item>)
      modifies this
      ensures (View(), r) == Dequeue(old(View()))
    {
      while heap != []
        invariant Dequeue(View()) == Dequeue(old(View()))
        decreases |heap|
      {
        var item, rest := HeapPop(heap);
        heap := rest;
        if item.taskId in taskIndex {
          taskIndex := taskIndex - {item.taskId};
          return Some(item);
        }
      }
      return None;
    }

    method SubmitTask(intent: string, priority: int, overloaded: bool) returns (taskId: nat)
      modifies this
      ensures taskId == old(taskCounter) + 1
      ensures View() == Submit(old(View()), intent, priority, overloaded)
    {
      taskCounter := taskCounter + 1;
      taskId := taskCounter;
      if enableDefer && overloaded && priority < NORMAL {
        if |deferred| < MAX_DEFERRED {
          deferred := deferred + [Item(-priority, taskId, intent)];
        }
        return;
      }
      EnqueueItem(intent, priority, taskId);
    }

    /** deque.remove: drops the first item equal to the given one, that is of the same priority. */
    method RemoveEqual(item: Item)
      requires item in deferred
      modifies this`deferred
      ensures FirstWithPriority(old(deferred), item.priority).Some?
      ensures var j := FirstWithPriority(old(deferred), item.priority).value;
              j < |old(deferred)| && deferred == RemoveAt(old(deferred), j)
    {
      FirstWithPriorityAt(deferred, item.priority);
      var j := 0;
      while deferred[j].priority != item.priority
        invariant 0 <= j < |deferred|
        invariant forall k | 0 <= k < j :: deferred[k].priority != item.priority
        decreases |deferred| - j
      {
        j := j + 1;
      }
      deferred := deferred[..j] + deferred[j + 1..];
    }

    method CancelTask(taskId: nat) returns (found: bool)
      modifies this
      ensures (View(), found) == Cancel(old(View()), taskId)
    {
      if taskId in taskIndex {
        taskIndex := taskIndex - {taskId};
        return true;
      }
      DeferredCancelRemoves(deferred, taskId);
      FirstWithIdAt(deferred, taskId);
      var i := 0;
      while i < |deferred|
        invariant 0 <= i <= |deferred|
        invariant forall k | 0 <= k < i :: deferred[k].taskId != taskId
      {
        if deferred[i].taskId == taskId {
          RemoveEqual(deferred[i]);
          return true;
        }
        i := i + 1;
      }
      return false;
    }

    method ProcessDeferredTasks(overloaded: bool) returns (reEnqueued: seq<nat>)
      modifies this
      ensures (View(), reEnqueued) == ProcessDeferred(old(View()), overloaded)
    {
      reEnqueued := [];
      if deferred == [] || overloaded {
        return;
      }
      ghost var all := deferred;
      while deferred != []
        invariant |reEnqueued| + |deferred| == |all|
        invariant deferred == all[|reEnqueued|..]
        invariant forall k | 0 <= k < |reEnqueued| :: reEnqueued[k] == all[k].taskId
        invariant EnqueueAll(View().(deferred := []), deferred) == EnqueueAll(old(View()).(deferred := []), all)
        decreases |deferred|
      {
        var item := deferred[0];
        deferred := deferred[1..];
        EnqueueItem(item.intent, -item.priority, item.taskId);
        reEnqueued := reEnqueued + [item.taskId];
      }
      assert reEnqueued == ProcessDeferred(old(View()), overloaded).1;
      assert View().(deferred := []) == View();
    }
  }
}

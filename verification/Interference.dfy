/** What other tasks do to the registry while one call is suspended, seen from a single node. */
module Interference {
  import opened Options
  import opened Registry

  function Later(r: Registry, events: seq<Event>): Registry
    decreases |events|
  {
    if events == [] then r else Later(Step(r, events[0]), events[1..])
  }

  // ---------- what happens turn by turn ----------

  function First<T>(turns: seq<seq<T>>): seq<T> {
    if turns == [] then [] else turns[0]
  }

  /** The turns from the i-th on; beyond the last nothing happens. */
  function Rest<T>(turns: seq<seq<T>>, i: nat): seq<seq<T>> {
    if i < |turns| then turns[i..] else []
  }

  /** What happens in the first n turns. */
  function Flat<T>(turns: seq<seq<T>>, n: nat): seq<T>
    decreases n
  {
    if n == 0 then [] else First(turns) + Flat(Rest(turns, 1), n - 1)
  }

  lemma RestOfRest<T>(turns: seq<seq<T>>, i: nat)
    ensures Rest(Rest(turns, 1), i) == Rest(turns, i + 1) == Rest(Rest(turns, i), 1)
    ensures First(Rest(turns, i)) == if i < |turns| then turns[i] else []
  {
  }

  lemma RestOfAll<T>(turns: seq<seq<T>>)
    ensures Rest(turns, 0) == turns
  {
  }

  lemma {:induction false} FlatSplit<T>(turns: seq<seq<T>>, k: nat, n: nat)
    requires k <= n
    ensures Flat(turns, n) == Flat(turns, k) + Flat(Rest(turns, k), n - k)
    decreases k
  {
    hide Rest, First;
    if k == 0 {
      RestOfAll(turns);
    } else {
      FlatSplit(Rest(turns, 1), k - 1, n - 1);
      RestOfRest(turns, k - 1);
    }
  }

  // ---------- one node at a time ----------

  /** What becomes of a node depends on the rest of the registry for none of the operations. */
  lemma StepAt(r: Registry, r': Registry, e: Event, id: string)
    requires NodeAt(r, id) == NodeAt(r', id)
    ensures NodeAt(Step(r, e), id) == NodeAt(Step(r', e), id)
  {
    hide Step, OwnStep, NodeAt;
    StepIsOwnStep(r, e, id);
    StepIsOwnStep(r', e, id);
  }

  lemma {:induction false} LaterAt(r: Registry, r': Registry, events: seq<Event>, id: string)
    requires NodeAt(r, id) == NodeAt(r', id)
    ensures NodeAt(Later(r, events), id) == NodeAt(Later(r', events), id)
    decreases |events|
  {
    hide Step, NodeAt;
    if events != [] {
      StepAt(r, r', events[0], id);
      LaterAt(Step(r, events[0]), Step(r', events[0]), events[1..], id);
    }
  }

  lemma {:induction false} LaterAppend(r: Registry, a: seq<Event>, b: seq<Event>)
    ensures Later(r, a + b) == Later(Later(r, a), b)
    decreases |a|
  {
    hide Step;
    if a != [] {
      assert (a + b)[1..] == a[1..] + b;
      LaterAppend(Step(r, a[0]), a[1..], b);
    } else {
      assert a + b == b;
    }
  }

  lemma HealthyAt(r: Registry, r': Registry, id: string)
    ensures NodeAt(r, id) == NodeAt(r', id) ==> Healthy(r, id) == Healthy(r', id)
  {
  }

  // ---------- statuses do not reach the index ----------

  ghost predicate SameButStatus(r: Registry, r': Registry) {
    && r.index == r'.index && r.nodes.Keys == r'.nodes.Keys
    && forall id | id in r.nodes :: r.nodes[id].services == r'.nodes[id].services
  }

  lemma SameAsItself(r: Registry)
    ensures SameButStatus(r, r)
  {
  }

  lemma SameThrough(a: Registry, b: Registry, c: Registry)
    requires SameButStatus(a, b) && SameButStatus(b, c)
    ensures SameButStatus(a, c)
  {
  }

  lemma StepSameButStatus(r: Registry, r': Registry, e: Event)
    requires SameButStatus(r, r')
    ensures SameButStatus(Step(r, e), Step(r', e))
  {
    hide IndexAdd, IndexRemove, AllHealthy, Names;
  }

  lemma {:induction false} LaterSameButStatus(r: Registry, r': Registry, events: seq<Event>)
    requires SameButStatus(r, r')
    ensures SameButStatus(Later(r, events), Later(r', events))
    decreases |events|
  {
    hide Step, SameButStatus;
    if events != [] {
      StepSameButStatus(r, r', events[0]);
      LaterSameButStatus(Step(r, events[0]), Step(r', events[0]), events[1..]);
    }
  }

  // ---------- what brings a node online ----------

  /** Registers, hears from or marks online some other node at most. */
  predicate QuietFor(e: Event, id: string) {
    match e
    case RegisterNode(i, _) => i != id
    case Beat(i, _) => i != id
    case SetStatus(i, status) => i != id || status != Online
    case _ => true
  }

  lemma QuietRaisesNobody(r: Registry, e: Event, id: string)
    requires QuietFor(e, id) && Healthy(Step(r, e), id)
    ensures Healthy(r, id)
  {
    hide IndexAdd, IndexRemove, AllHealthy;
  }

  lemma {:induction false} StaysDown(r: Registry, events: seq<Event>, id: string)
    requires !Healthy(r, id) && forall e | e in events :: QuietFor(e, id)
    ensures !Healthy(Later(r, events), id)
    decreases |events|
  {
    hide Step;
    if events != [] {
      assert events[0] in events;
      if Healthy(Step(r, events[0]), id) { QuietRaisesNobody(r, events[0], id); }
      StaysDown(Step(r, events[0]), events[1..], id);
    }
  }

  /** Says something about whether the node is online. */
  predicate AboutStatus(e: Event, id: string) {
    match e
    case RegisterNode(i, _) => i == id
    case UnregisterNode(i) => i == id
    case SetStatus(i, _) => i == id
    case Beat(i, _) => i == id
    case _ => false
  }

  lemma NotAboutStatus(r: Registry, e: Event, id: string)
    requires !AboutStatus(e, id)
    ensures Healthy(Step(r, e), id) == Healthy(r, id)
    ensures id in Step(r, e).nodes <==> id in r.nodes
  {
    hide IndexAdd, IndexRemove, AllHealthy;
  }
}

/** The service registry of evoid-cluster: nodes, an inverted index from service pattern to node
    ids, and a round-robin cursor for every intent name. */
module Registry {
  import opened Options

  datatype Status = Online | Offline | Degraded

  datatype Node = Node(services: seq<string>, status: Status, lastHeartbeat: real)

  type Index = map<string, seq<string>>

  datatype Registry = Registry(nodes: map<string, Node>, index: Index, rr: map<string, nat>)

  const EMPTY := Registry(map[], map[], map[])

  // ---------- the index ----------

  function Listed(m: Index, svc: string): seq<string> {
    if svc in m then m[svc] else []
  }

  function Without(ids: seq<string>, id: string): seq<string> {
    if ids == [] then []
    else if ids[0] == id then Without(ids[1..], id)
    else [ids[0]] + Without(ids[1..], id)
  }

  ghost predicate NoDuplicates(ids: seq<string>) {
    forall i, j | 0 <= i < j < |ids| :: ids[i] != ids[j]
  }

  lemma {:induction false} WithoutSpec(ids: seq<string>, id: string)
    ensures forall x :: x in Without(ids, id) <==> x in ids && x != id
    ensures NoDuplicates(ids) ==> NoDuplicates(Without(ids, id))
    ensures id !in ids ==> Without(ids, id) == ids
  {
    if ids != [] {
      WithoutSpec(ids[1..], id);
      var rest := Without(ids[1..], id);
      assert ids == [ids[0]] + ids[1..];
      if NoDuplicates(ids) {
        assert NoDuplicates(ids[1..]);
        assert ids[0] !in ids[1..];
        assert ids[0] !in rest;
        assert NoDuplicates([ids[0]] + rest);
      }
    }
  }

  /** What remains is in its old order. */
  lemma {:induction false} WithoutInOrder(a: seq<string>, b: seq<string>, id: string)
    ensures Without(a + b, id) == Without(a, id) + Without(b, id)
  {
    if a == [] {
      assert a + b == b;
    } else {
      assert (a + b)[1..] == a[1..] + b;
      WithoutInOrder(a[1..], b, id);
    }
  }

  /** Each pattern of services lists the id, at the end if it is new there. */
  function IndexAdd(m: Index, services: set<string>, id: string): Index {
    map k | k in m.Keys + services ::
      if k in services && id !in Listed(m, k) then Listed(m, k) + [id] else Listed(m, k)
  }

  /** No pattern of services lists the id; patterns left with nobody are deleted. */
  function IndexRemove(m: Index, services: set<string>, id: string): Index {
    map k | k in m && !(k in services && Without(m[k], id) == []) ::
      if k in services then Without(m[k], id) else m[k]
  }

  // ---------- the operations ----------

  function Names(services: seq<string>): set<string> {
    set s | s in services
  }

  function Register(r: Registry, id: string, node: Node): Registry {
    r.(nodes := r.nodes[id := node], index := IndexAdd(r.index, Names(node.services), id))
  }

  function Unregister(r: Registry, id: string): Registry {
    if id !in r.nodes then r
    else r.(nodes := r.nodes - {id}, index := IndexRemove(r.index, Names(r.nodes[id].services), id))
  }

  function UpdateServices(r: Registry, id: string, services: seq<string>): Registry {
    if id !in r.nodes then r
    else
      var before, after := Names(r.nodes[id].services), Names(services);
      r.(nodes := r.nodes[id := r.nodes[id].(services := services)],
         index := IndexAdd(IndexRemove(r.index, before - after, id), after - before, id))
  }

  function Mark(r: Registry, id: string, status: Status): Registry {
    if id in r.nodes then r.(nodes := r.nodes[id := r.nodes[id].(status := status)]) else r
  }

  function Heartbeat(r: Registry, id: string, now: real): Registry {
    if id in r.nodes then r.(nodes := r.nodes[id := r.nodes[id].(status := Online, lastHeartbeat := now)]) else r
  }

  // ---------- resolution ----------

  predicate Healthy(r: Registry, id: string) {
    id in r.nodes && r.nodes[id].status == Online
  }

  /** The part of an intent name before its first colon, with ":*" behind it. */
  function Wildcard(name: string): string {
    if name == [] || name[0] == ':' then ":*" else [name[0]] + Wildcard(name[1..])
  }

  function FirstHealthy(r: Registry, ids: seq<string>): Option<string> {
    if ids == [] then None
    else if Healthy(r, ids[0]) then Some(ids[0])
    else FirstHealthy(r, ids[1..])
  }

  function AllHealthy(r: Registry, ids: seq<string>): seq<string> {
    if ids == [] then []
    else if Healthy(r, ids[0]) then [ids[0]] + AllHealthy(r, ids[1..])
    else AllHealthy(r, ids[1..])
  }

  function Resolve(r: Registry, name: string): Option<string> {
    var exact := FirstHealthy(r, Listed(r.index, name));
    if exact.Some? then exact else FirstHealthy(r, Listed(r.index, Wildcard(name)))
  }

  /** The exact list, or the wildcard's when there is no exact one. */
  function Candidates(r: Registry, name: string): seq<string> {
    if Listed(r.index, name) == [] then Listed(r.index, Wildcard(name)) else Listed(r.index, name)
  }

  function ResolveAll(r: Registry, name: string): seq<string> {
    AllHealthy(r, Candidates(r, name))
  }

  function Balance(r: Registry, name: string): (Registry, Option<string>) {
    var healthy := ResolveAll(r, name);
    if healthy == [] then (r, None)
    else
      var i := (if name in r.rr then r.rr[name] else 0) % |healthy|;
      (r.(rr := r.rr[name := i + 1]), Some(healthy[i]))
  }

  /** Everything up to the first colon is kept, whether or not there is one. */
  lemma {:induction false} WildcardSpec(service: string, rest: string)
    requires ':' !in service
    ensures Wildcard(service) == service + ":*"
    ensures Wildcard(service + ":" + rest) == service + ":*"
  {
    if service != [] {
      WildcardSpec(service[1..], rest);
      assert (service + ":" + rest)[1..] == service[1..] + ":" + rest;
    } else {
      assert (service + ":" + rest)[0] == ':';
    }
  }

  lemma {:induction false} FirstHealthySpec(r: Registry, ids: seq<string>)
    ensures FirstHealthy(r, ids).None? <==> forall i | 0 <= i < |ids| :: !Healthy(r, ids[i])
    ensures FirstHealthy(r, ids).Some? ==>
              exists i | 0 <= i < |ids| ::
                && ids[i] == FirstHealthy(r, ids).value && Healthy(r, ids[i])
                && forall k | 0 <= k < i :: !Healthy(r, ids[k])
  {
    if ids != [] {
      var rest := ids[1..];
      FirstHealthySpec(r, rest);
      assert forall i | 0 < i < |ids| :: ids[i] == rest[i - 1];
      if !Healthy(r, ids[0]) && FirstHealthy(r, rest).Some? {
        var j :| 0 <= j < |rest| && rest[j] == FirstHealthy(r, rest).value && Healthy(r, rest[j])
                 && forall k | 0 <= k < j :: !Healthy(r, rest[k]);
        assert ids[j + 1] == FirstHealthy(r, ids).value;
      }
    }
  }

  /** Keeps exactly the healthy ids, in list order and without new repetitions. */
  lemma {:induction false} AllHealthySpec(r: Registry, ids: seq<string>)
    ensures forall x :: x in AllHealthy(r, ids) <==> x in ids && Healthy(r, x)
    ensures NoDuplicates(ids) ==> NoDuplicates(AllHealthy(r, ids))
    ensures AllHealthy(r, ids) == [] <==> FirstHealthy(r, ids).None?
    ensures FirstHealthy(r, ids).Some? ==> AllHealthy(r, ids)[0] == FirstHealthy(r, ids).value
  {
    if ids != [] {
      AllHealthySpec(r, ids[1..]);
      var rest := AllHealthy(r, ids[1..]);
      assert ids == [ids[0]] + ids[1..];
      if NoDuplicates(ids) {
        assert NoDuplicates(ids[1..]);
        assert ids[0] !in ids[1..];
        assert NoDuplicates([ids[0]] + rest);
      }
    }
  }

  /** The healthy ids of a list are in its order. */
  lemma {:induction false} AllHealthyInOrder(r: Registry, a: seq<string>, b: seq<string>)
    ensures AllHealthy(r, a + b) == AllHealthy(r, a) + AllHealthy(r, b)
  {
    if a == [] {
      assert a + b == b;
    } else {
      assert (a + b)[1..] == a[1..] + b;
      AllHealthyInOrder(r, a[1..], b);
    }
  }

  /** resolve_all gives the online nodes listed for the name, or for its wildcard when the name has no
      list at all. */
  lemma ResolveAllSpec(r: Registry, name: string, id: string)
    ensures id in ResolveAll(r, name) <==>
              && id in r.nodes && r.nodes[id].status == Online
              && id in Listed(r.index, if Listed(r.index, name) == [] then Wildcard(name) else name)
  {
    AllHealthySpec(r, Candidates(r, name));
  }

  ghost predicate IsFirstOnline(r: Registry, ids: seq<string>, id: string) {
    exists i | 0 <= i < |ids| ::
      && ids[i] == id && id in r.nodes && r.nodes[id].status == Online
      && forall k | 0 <= k < i :: !(ids[k] in r.nodes && r.nodes[ids[k]].status == Online)
  }

  /** resolve gives the first online node listed for the name, else the first listed for its wildcard. */
  lemma ResolveSpec(r: Registry, name: string)
    ensures var exact, wild := Listed(r.index, name), Listed(r.index, Wildcard(name));
            match Resolve(r, name)
            case None => forall id | id in exact || id in wild :: !(id in r.nodes && r.nodes[id].status == Online)
            case Some(id) =>
              || IsFirstOnline(r, exact, id)
              || (IsFirstOnline(r, wild, id) && forall x | x in exact :: !(x in r.nodes && r.nodes[x].status == Online))
  {
    FirstHealthySpec(r, Listed(r.index, name));
    FirstHealthySpec(r, Listed(r.index, Wildcard(name)));
  }

  /** resolve, resolve_all and the balanced form only ever return nodes that are online. */
  lemma OnlyOnlineNodes(r: Registry, name: string)
    ensures Resolve(r, name).Some? ==> Healthy(r, Resolve(r, name).value)
    ensures forall id | id in ResolveAll(r, name) :: Healthy(r, id)
    ensures Balance(r, name).1.Some? ==> Healthy(r, Balance(r, name).1.value)
  {
    FirstHealthySpec(r, Listed(r.index, name));
    FirstHealthySpec(r, Listed(r.index, Wildcard(name)));
    AllHealthySpec(r, Candidates(r, name));
  }

  /** Where they differ: resolve falls through to the wildcard when all exact nodes are down, the
      other two only when there is no exact entry. Otherwise resolve gives the head of resolve_all. */
  lemma ResolveVersusResolveAll(r: Registry, name: string)
    ensures ResolveAll(r, name) != [] ==> Resolve(r, name) == Some(ResolveAll(r, name)[0])
    ensures ResolveAll(r, name) == [] && Resolve(r, name).Some? <==>
              && Listed(r.index, name) != []
              && (forall id | id in Listed(r.index, name) :: !Healthy(r, id))
              && (exists id | id in Listed(r.index, Wildcard(name)) :: Healthy(r, id))
    ensures Balance(r, name).1.Some? <==> ResolveAll(r, name) != []
  {
    var exact, wild := Listed(r.index, name), Listed(r.index, Wildcard(name));
    AllHealthySpec(r, exact);
    AllHealthySpec(r, wild);
    FirstHealthySpec(r, exact);
    FirstHealthySpec(r, wild);
  }

  // ---------- runs ----------

  datatype Event =
    | RegisterNode(id: string, node: Node)
    | UnregisterNode(id: string)
    | Update(id: string, services: seq<string>)
    | SetStatus(id: string, status: Status)
    | Beat(id: string, now: real)
    | Balanced(name: string)

  function Step(r: Registry, e: Event): Registry {
    match e
    case RegisterNode(id, node) => Register(r, id, node)
    case UnregisterNode(id) => Unregister(r, id)
    case Update(id, services) => UpdateServices(r, id, services)
    case SetStatus(id, status) => Mark(r, id, status)
    case Beat(id, now) => Heartbeat(r, id, now)
    case Balanced(name) => Balance(r, name).0
  }

  function Run(es: seq<Event>): Registry {
    if es == [] then EMPTY else Step(Run(es[..|es| - 1]), es[|es| - 1])
  }

  /** A node as the registry holds it. */
  function NodeAt(r: Registry, id: string): Option<Node> {
    if id in r.nodes then Some(r.nodes[id]) else None
  }

  /** What an event makes of one node. */
  function OwnStep(n: Option<Node>, e: Event, id: string): Option<Node> {
    match e
    case RegisterNode(i, node) => if i == id then Some(node) else n
    case UnregisterNode(i) => if i == id then None else n
    case Update(i, services) =>
      if i == id && n.Some? then Some(Node(services, n.value.status, n.value.lastHeartbeat)) else n
    case SetStatus(i, status) =>
      if i == id && n.Some? then Some(Node(n.value.services, status, n.value.lastHeartbeat)) else n
    case Beat(i, now) =>
      if i == id && n.Some? then Some(Node(n.value.services, Online, now)) else n
    case Balanced(_) => n
  }

  /** What the events make of one node, whatever happens to the others: its last registration, since then
      its last list of services, the last status it was given and the last time it was heard. */
  function OwnNode(es: seq<Event>, id: string): Option<Node> {
    if es == [] then None else OwnStep(OwnNode(es[..|es| - 1], id), es[|es| - 1], id)
  }

  lemma StepIsOwnStep(r: Registry, e: Event, id: string)
    ensures NodeAt(Step(r, e), id) == OwnStep(NodeAt(r, id), e, id)
  {
    hide IndexAdd, IndexRemove, AllHealthy, Names;
  }

  lemma {:induction false} NodesAreTheirHistories(es: seq<Event>, id: string)
    ensures NodeAt(Run(es), id) == OwnNode(es, id)
  {
    hide Step, OwnStep;
    if es != [] {
      NodesAreTheirHistories(es[..|es| - 1], id);
      StepIsOwnStep(Run(es[..|es| - 1]), es[|es| - 1], id);
    }
  }

  /** Every service of every node indexes that node. */
  ghost predicate Complete(r: Registry) {
    forall id, svc | id in r.nodes && svc in r.nodes[id].services :: id in Listed(r.index, svc)
  }

  ghost predicate WellFormed(m: Index) {
    forall svc | svc in m :: m[svc] != [] && NoDuplicates(m[svc])
  }

  /** Every index entry names an existing node that offers the service. */
  ghost predicate Sound(r: Registry) {
    forall svc, id | id in Listed(r.index, svc) :: id in r.nodes && svc in r.nodes[id].services
  }

  lemma AddListed(m: Index, services: set<string>, id: string)
    ensures forall k, x ::
              x in Listed(IndexAdd(m, services, id), k) <==> x in Listed(m, k) || (x == id && k in services)
    ensures WellFormed(m) ==> WellFormed(IndexAdd(m, services, id))
  {
  }

  lemma WithoutItself(id: string)
    ensures Without([id], id) == []
  {
  }

  lemma WithoutMiddle(a: seq<string>, id: string, b: seq<string>)
    requires id !in a && id !in b
    ensures Without(a + [id] + b, id) == a + b
  {
    hide Without, NoDuplicates;
    WithoutInOrder(a + [id], b, id);
    WithoutInOrder(a, [id], id);
    WithoutSpec(a, id);
    WithoutSpec(b, id);
    WithoutItself(id);
  }

  lemma OnlyOccurrence(a: seq<string>, id: string, b: seq<string>)
    requires NoDuplicates(a + [id] + b)
    ensures id !in a && id !in b
  {
    var l := a + [id] + b;
    assert l[|a|] == id;
    assert forall i | 0 <= i < |a| :: l[i] == a[i];
    assert forall i | 0 <= i < |b| :: l[|a| + 1 + i] == b[i];
  }

  /** Removing an entry moves no other. */
  lemma RemovedInOrder(m: Index, services: set<string>, id: string, svc: string, a: seq<string>, b: seq<string>)
    requires WellFormed(m) && Listed(m, svc) == a + [id] + b && svc in services
    ensures Listed(IndexRemove(m, services, id), svc) == a + b
  {
    hide NoDuplicates, Without;
    OnlyOccurrence(a, id, b);
    WithoutMiddle(a, id, b);
  }

  lemma RemoveListed(m: Index, services: set<string>, id: string)
    ensures forall k, x ::
              x in Listed(IndexRemove(m, services, id), k) <==> x in Listed(m, k) && !(x == id && k in services)
    ensures WellFormed(m) ==> WellFormed(IndexRemove(m, services, id))
  {
    forall k | k in m
      ensures forall x :: x in Without(m[k], id) <==> x in m[k] && x != id
      ensures NoDuplicates(m[k]) ==> NoDuplicates(Without(m[k], id))
    {
      WithoutSpec(m[k], id);
    }
  }

  /** How each operation moves the entries of one pattern: a new one goes to the end, one that is dropped
      leaves the others in order, and all else stays as it is. */
  lemma EntriesMove(r: Registry, e: Event, svc: string)
    requires Complete(r)
    ensures var before, after := Listed(r.index, svc), Listed(Step(r, e).index, svc);
            match e
            case RegisterNode(id, node) =>
              after == before + if svc in node.services && id !in before then [id] else []
            case UnregisterNode(id) =>
              after == if id in r.nodes && svc in r.nodes[id].services then Without(before, id) else before
            case Update(id, services) =>
              if id !in r.nodes || (svc in r.nodes[id].services && svc in services) then after == before
              else if svc in r.nodes[id].services then after == Without(before, id)
              else after == before + if svc in services && id !in before then [id] else []
            case _ => after == before
  {
    hide AllHealthy, Without;
  }

  lemma StepKeepsComplete(r: Registry, e: Event)
    requires Complete(r) && WellFormed(r.index)
    ensures Complete(Step(r, e)) && WellFormed(Step(r, e).index)
  {
    hide IndexAdd, IndexRemove, WellFormed, Listed;
    match e
    case RegisterNode(id, node) =>
      AddListed(r.index, Names(node.services), id);
    case UnregisterNode(id) =>
      if id in r.nodes { RemoveListed(r.index, Names(r.nodes[id].services), id); }
    case Update(id, services) =>
      if id in r.nodes {
        var before, after := Names(r.nodes[id].services), Names(services);
        RemoveListed(r.index, before - after, id);
        AddListed(IndexRemove(r.index, before - after, id), after - before, id);
      }
    case SetStatus(_, _) =>
    case Beat(_, _) =>
    case Balanced(_) =>
  }

  /** Over every run whatsoever. */
  lemma {:induction false} RunKeepsComplete(es: seq<Event>)
    ensures Complete(Run(es)) && WellFormed(Run(es).index)
  {
    if es != [] {
      RunKeepsComplete(es[..|es| - 1]);
      StepKeepsComplete(Run(es[..|es| - 1]), es[|es| - 1]);
    }
  }

  /** A registration that forgets nothing: the id is new, or every old service is still offered. */
  predicate Forgetless(r: Registry, e: Event) {
    e.RegisterNode? && e.id in r.nodes ==> Names(r.nodes[e.id].services) <= Names(e.node.services)
  }

  lemma RegisterKeepsSoundIff(r: Registry, id: string, node: Node)
    requires Complete(r) && Sound(r)
    ensures Sound(Register(r, id, node)) <==> Forgetless(r, RegisterNode(id, node))
  {
    hide IndexAdd, Listed;
    var r' := Register(r, id, node);
    AddListed(r.index, Names(node.services), id);
    if Forgetless(r, RegisterNode(id, node)) {
      forall svc, x | x in Listed(r'.index, svc) ensures x in r'.nodes && svc in r'.nodes[x].services {
        if x in Listed(r.index, svc) && x == id {
          assert svc in Names(r.nodes[id].services);
          assert svc in Names(node.services);
        }
      }
    } else {
      var svc :| svc in Names(r.nodes[id].services) && svc !in Names(node.services);
      assert id in Listed(r.index, svc);
      assert id in Listed(r'.index, svc) && svc !in r'.nodes[id].services;
    }
  }

  /** Exactly the forgetless steps keep the index sound. */
  lemma StepKeepsSoundIff(r: Registry, e: Event)
    requires Complete(r) && WellFormed(r.index) && Sound(r)
    ensures Sound(Step(r, e)) <==> Forgetless(r, e)
  {
    hide IndexAdd, IndexRemove, WellFormed, Listed, Register;
    match e
    case RegisterNode(id, node) => RegisterKeepsSoundIff(r, id, node);
    case UnregisterNode(id) =>
      if id in r.nodes { RemoveListed(r.index, Names(r.nodes[id].services), id); }
    case Update(id, services) =>
      if id in r.nodes {
        var before, after := Names(r.nodes[id].services), Names(services);
        RemoveListed(r.index, before - after, id);
        AddListed(IndexRemove(r.index, before - after, id), after - before, id);
      }
    case SetStatus(_, _) =>
    case Beat(_, _) =>
    case Balanced(_) =>
  }

  lemma {:induction false} RunIsSound(es: seq<Event>)
    requires forall k | 0 <= k < |es| :: Forgetless(Run(es[..k]), es[k])
    ensures Sound(Run(es))
  {
    if es != [] {
      var before := es[..|es| - 1];
      forall k | 0 <= k < |before| ensures Forgetless(Run(before[..k]), before[k]) {
        assert before[..k] == es[..k];
      }
      RunIsSound(before);
      RunKeepsComplete(before);
      StepKeepsSoundIff(Run(before), es[|es| - 1]);
    }
  }

  /** With fresh or growing registrations the index is the exact inverse of the nodes' own lists. */
  lemma IndexIsInverse(es: seq<Event>)
    requires forall k | 0 <= k < |es| :: Forgetless(Run(es[..k]), es[k])
    ensures var r := Run(es);
            forall svc, id :: id in Listed(r.index, svc) <==> id in r.nodes && svc in r.nodes[id].services
  {
    hide Run, WellFormed, Forgetless;
    RunIsSound(es);
    RunKeepsComplete(es);
  }

  /** An announcement from a known node makes the index list it under exactly the announced
      services, and one from a stranger is ignored. */
  lemma AnnouncementIsIndexed(r: Registry, id: string, services: seq<string>, svc: string)
    requires Complete(r) && Sound(r)
    ensures id in r.nodes ==> (id in Listed(UpdateServices(r, id, services).index, svc) <==> svc in services)
    ensures id !in r.nodes ==> UpdateServices(r, id, services) == r
    ensures forall other | other != id ::
              other in Listed(UpdateServices(r, id, services).index, svc) <==> other in Listed(r.index, svc)
  {
    if id in r.nodes {
      var before, after := Names(r.nodes[id].services), Names(services);
      RemoveListed(r.index, before - after, id);
      AddListed(IndexRemove(r.index, before - after, id), after - before, id);
    }
  }

  /** A withdrawal takes a node out of the whole index exactly when the index had no stale entry for it. */
  lemma WithdrawalClearsIff(r: Registry, id: string)
    requires id in r.nodes
    ensures (forall svc :: id !in Listed(Unregister(r, id).index, svc))
            <==> (forall svc | id in Listed(r.index, svc) :: svc in r.nodes[id].services)
  {
    hide IndexRemove, Listed;
    RemoveListed(r.index, Names(r.nodes[id].services), id);
    forall svc ensures id in Listed(Unregister(r, id).index, svc) <==>
                       id in Listed(r.index, svc) && svc !in r.nodes[id].services {}
  }

  /** A known node registered anew without services, as the bridge registers its peers when it is started
      again, leaves its entries behind: they go on pointing at it even once it has been unregistered. */
  lemma BareRegistrationLeavesStaleEntries(r: Registry, id: string, svc: string, node: Node)
    requires Complete(r) && WellFormed(r.index)
    requires id in r.nodes && svc in r.nodes[id].services && node.services == []
    ensures !Sound(Register(r, id, node))
    ensures var gone := Unregister(Register(r, id, node), id);
            id !in gone.nodes && id in Listed(gone.index, svc)
  {
    AddListed(r.index, Names(node.services), id);
    assert id in Listed(r.index, svc);
    var again := Register(r, id, node);
    assert svc !in again.nodes[id].services;
    RemoveListed(again.index, Names(again.nodes[id].services), id);
  }
}

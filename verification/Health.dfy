/** Heartbeats and the sweep that takes silent nodes offline. */
module Health {
  import opened Options
  import opened Registry
  import opened Interference
  import Objects = ServiceRegistry

  datatype State = State(registry: Registry, lastSeen: map<string, real>)

  /** A heartbeat reads the clock once for the checker and once for the node. */
  function Record(h: State, id: string, now: real, stamp: real): State {
    State(Heartbeat(h.registry, id, stamp), h.lastSeen[id := now])
  }

  /** What other tasks do while the sweep is suspended: heartbeats arrive, the registry changes. */
  datatype Happening = Heard(id: string, now: real, stamp: real) | Changed(event: Event)

  function Happen(h: State, x: Happening): State {
    match x
    case Heard(id, now, stamp) => Record(h, id, now, stamp)
    case Changed(e) => h.(registry := Step(h.registry, e))
  }

  function HappenAll(h: State, xs: seq<Happening>): State
    decreases |xs|
  {
    if xs == [] then h else HappenAll(Happen(h, xs[0]), xs[1..])
  }

  predicate Silent(last: real, now: real, timeout: real) {
    now - last > timeout
  }

  function HandleOffline(h: State, id: string): State {
    if Healthy(h.registry, id) then h.(registry := Mark(h.registry, id, Offline)) else h
  }

  /** One turn of the sweep's loop. */
  function Visit(h: State, entry: (string, real), now: real, timeout: real): State {
    if Silent(entry.1, now, timeout) then HandleOffline(h, entry.0) else h
  }

  /** The sweep over a snapshot of last_seen; between[k] happens after the k-th entry is handled. */
  function Sweep(h: State, snapshot: seq<(string, real)>, now: real, timeout: real, between: seq<seq<Happening>>): State
    decreases |snapshot|
  {
    if snapshot == [] then h
    else
      var h' := HappenAll(Visit(h, snapshot[0], now, timeout), First(between));
      Sweep(h', snapshot[1..], now, timeout, Rest(between, 1))
  }

  lemma SweepOne(
    h: State, snapshot: seq<(string, real)>, i: nat, now: real, timeout: real, between: seq<seq<Happening>>)
    requires i < |snapshot|
    ensures var meanwhile := HappenAll(Visit(h, snapshot[i], now, timeout), if i < |between| then between[i] else []);
            Sweep(h, snapshot[i..], now, timeout, Rest(between, i))
            == Sweep(meanwhile, snapshot[i + 1..], now, timeout, Rest(between, i + 1))
  {
    assert snapshot[i..][1..] == snapshot[i + 1..];
    RestOfRest(between, i);
  }

  lemma SweepEnd(h: State, now: real, timeout: real, between: seq<seq<Happening>>)
    ensures Sweep(h, [], now, timeout, between) == h
  {
  }

  ghost predicate DistinctIds(snapshot: seq<(string, real)>) {
    forall i, j | 0 <= i < j < |snapshot| :: snapshot[i].0 != snapshot[j].0
  }

  /** The items of the map, each once, in some order. */
  ghost predicate Lists(snapshot: seq<(string, real)>, m: map<string, real>) {
    && DistinctIds(snapshot)
    && (forall p | p in snapshot :: p.0 in m && m[p.0] == p.1)
    && (forall id | id in m :: (id, m[id]) in snapshot)
  }

  // ---------- what a sweep leaves behind ----------

  /** A heartbeat of the node that arrives meanwhile is recent, and nothing else brings it online. */
  predicate HarmlessFor(x: Happening, id: string, now: real, timeout: real) {
    match x
    case Heard(i, t, _) => i != id || now - t <= timeout
    case Changed(e) => QuietFor(e, id)
  }

  /** If the node is silent and not still to be visited, it is not online. */
  predicate DownIfSilent(h: State, id: string, now: real, timeout: real, unvisited: seq<(string, real)>) {
    id in h.lastSeen && Silent(h.lastSeen[id], now, timeout) && (id, h.lastSeen[id]) !in unvisited ==>
      !Healthy(h.registry, id)
  }

  lemma {:induction false} HappeningsKeepDown(
    h: State, xs: seq<Happening>, id: string, now: real, timeout: real, unvisited: seq<(string, real)>)
    requires DownIfSilent(h, id, now, timeout, unvisited)
    requires forall x | x in xs :: HarmlessFor(x, id, now, timeout)
    ensures DownIfSilent(HappenAll(h, xs), id, now, timeout, unvisited)
    decreases |xs|
  {
    if xs != [] {
      var x := xs[0];
      assert HarmlessFor(x, id, now, timeout);
      if x.Changed? && Healthy(Happen(h, x).registry, id) { QuietRaisesNobody(h.registry, x.event, id); }
      HappeningsKeepDown(Happen(h, x), xs[1..], id, now, timeout, unvisited);
    }
  }

  lemma {:induction false} SweepTakesDown(
    h: State, snapshot: seq<(string, real)>, id: string, now: real, timeout: real, between: seq<seq<Happening>>)
    requires DownIfSilent(h, id, now, timeout, snapshot)
    requires forall k, x | 0 <= k < |between| && x in between[k] :: HarmlessFor(x, id, now, timeout)
    ensures DownIfSilent(Sweep(h, snapshot, now, timeout, between), id, now, timeout, [])
    decreases |snapshot|
  {
    hide HarmlessFor;
    if snapshot != [] {
      var first, rest := snapshot[0], snapshot[1..];
      assert snapshot == [first] + rest;
      var visited := Visit(h, first, now, timeout);
      if id in h.lastSeen && (id, h.lastSeen[id]) in snapshot && (id, h.lastSeen[id]) !in rest {
        assert (id, h.lastSeen[id]) == first;
      }
      HappeningsKeepDown(visited, First(between), id, now, timeout, rest);
      SweepTakesDown(HappenAll(visited, First(between)), rest, id, now, timeout, Rest(between, 1));
    }
  }

  /** After a sweep at time now, whatever arrived during it, a node whose last recorded heartbeat is
      older than the timeout is not online; so until something brings it online none of the three
      resolutions returns it. */
  lemma SilentNodesAreNotRouted(
    h: State, snapshot: seq<(string, real)>, now: real, timeout: real, between: seq<seq<Happening>>,
    later: seq<Event>, id: string, name: string)
    requires Lists(snapshot, h.lastSeen)
    requires forall k, x | 0 <= k < |between| && x in between[k] :: HarmlessFor(x, id, now, timeout)
    requires forall e | e in later :: QuietFor(e, id)
    requires var swept := Sweep(h, snapshot, now, timeout, between);
             id in swept.lastSeen && now - swept.lastSeen[id] > timeout
    ensures var r := Later(Sweep(h, snapshot, now, timeout, between).registry, later);
            && !Healthy(r, id)
            && Resolve(r, name) != Some(id)
            && id !in ResolveAll(r, name)
            && Balance(r, name).1 != Some(id)
  {
    hide Sweep, AllHealthy, FirstHealthy, Resolve, Balance, ResolveAll;
    SweepTakesDown(h, snapshot, id, now, timeout, between);
    var swept := Sweep(h, snapshot, now, timeout, between);
    StaysDown(swept.registry, later, id);
    OnlyOnlineNodes(Later(swept.registry, later), name);
  }

  // ---------- exactly which nodes a sweep takes down ----------

  /** When the sweep comes to a node; the length of the snapshot if it never does. */
  function Turn(snapshot: seq<(string, real)>, id: string): (k: nat)
    ensures k <= |snapshot| && (k < |snapshot| ==> snapshot[k].0 == id)
    ensures forall j | 0 <= j < k :: snapshot[j].0 != id
  {
    if snapshot == [] || snapshot[0].0 == id then 0 else 1 + Turn(snapshot[1..], id)
  }

  lemma HappenAt(h: State, h': State, x: Happening, id: string)
    requires NodeAt(h.registry, id) == NodeAt(h'.registry, id)
    ensures NodeAt(Happen(h, x).registry, id) == NodeAt(Happen(h', x).registry, id)
  {
    hide Step;
    if x.Changed? { StepAt(h.registry, h'.registry, x.event, id); }
  }

  lemma {:induction false} HappenAllAt(h: State, h': State, xs: seq<Happening>, id: string)
    requires NodeAt(h.registry, id) == NodeAt(h'.registry, id)
    ensures NodeAt(HappenAll(h, xs).registry, id) == NodeAt(HappenAll(h', xs).registry, id)
    decreases |xs|
  {
    hide Happen, NodeAt;
    if xs != [] {
      HappenAt(h, h', xs[0], id);
      HappenAllAt(Happen(h, xs[0]), Happen(h', xs[0]), xs[1..], id);
    }
  }

  lemma {:induction false} HappenAllSeen(h: State, h': State, xs: seq<Happening>)
    requires h.lastSeen == h'.lastSeen
    ensures HappenAll(h, xs).lastSeen == HappenAll(h', xs).lastSeen
    decreases |xs|
  {
    if xs != [] { HappenAllSeen(Happen(h, xs[0]), Happen(h', xs[0]), xs[1..]); }
  }

  lemma {:induction false} HappenAllAppend(h: State, a: seq<Happening>, b: seq<Happening>)
    ensures HappenAll(h, a + b) == HappenAll(HappenAll(h, a), b)
    decreases |a|
  {
    hide Happen;
    if a != [] {
      assert (a + b)[1..] == a[1..] + b;
      HappenAllAppend(Happen(h, a[0]), a[1..], b);
    } else {
      assert a + b == b;
    }
  }

  /** What happens in a sweep of n turns, to a node that is marked offline in turn k if it is online then. */
  function HandledAt(h: State, id: string, k: nat, between: seq<seq<Happening>>, n: nat): State
    requires k <= n
  {
    var r := HappenAll(h, Flat(between, k)).registry;
    var r' := if id in r.nodes && r.nodes[id].status == Online
              then r.(nodes := r.nodes[id := Node(r.nodes[id].services, Offline, r.nodes[id].lastHeartbeat)]) else r;
    HappenAll(State(r', HappenAll(h, Flat(between, k)).lastSeen), Flat(Rest(between, k), n - k))
  }

  lemma HandledIsHandled(h: State, id: string, k: nat, between: seq<seq<Happening>>, n: nat)
    requires k <= n
    ensures HandledAt(h, id, k, between, n)
         == HappenAll(HandleOffline(HappenAll(h, Flat(between, k)), id), Flat(Rest(between, k), n - k))
  {
    hide HappenAll;
  }

  /** The same with one more turn in front, of another node. */
  lemma HandledOneLater(h: State, h': State, id: string, k: nat, between: seq<seq<Happening>>, n: nat)
    requires k <= n && NodeAt(h'.registry, id) == NodeAt(HappenAll(h, First(between)).registry, id)
    ensures NodeAt(HandledAt(h', id, k, Rest(between, 1), n).registry, id)
         == NodeAt(HandledAt(h, id, k + 1, between, n + 1).registry, id)
  {
    hide HappenAll;
    var h1, rest := HappenAll(h, First(between)), Rest(between, 1);
    HappenAllAppend(h, First(between), Flat(rest, k));
    HappenAllAt(h', h1, Flat(rest, k), id);
    var a, b := HandleOffline(HappenAll(h', Flat(rest, k)), id), HandleOffline(HappenAll(h1, Flat(rest, k)), id);
    assert NodeAt(a.registry, id) == NodeAt(b.registry, id);
    RestOfRest(between, k);
    HappenAllAt(a, b, Flat(Rest(rest, k), n - k), id);
    HandledIsHandled(h', id, k, rest, n);
    HandledIsHandled(h, id, k + 1, between, n + 1);
  }

  lemma NothingHappens(h: State)
    ensures HappenAll(h, []) == h
  {
  }

  lemma VisitSpec(h: State, entry: (string, real), now: real, timeout: real, id: string)
    ensures Visit(h, entry, now, timeout).lastSeen == h.lastSeen
    ensures entry.0 != id || !Silent(entry.1, now, timeout) ==>
              NodeAt(Visit(h, entry, now, timeout).registry, id) == NodeAt(h.registry, id)
  {
  }

  lemma HandledAtOnce(h: State, id: string, between: seq<seq<Happening>>, n: nat)
    ensures HandledAt(h, id, 0, between, n) == HappenAll(HandleOffline(h, id), Flat(between, n))
  {
    hide HandleOffline;
    HandledIsHandled(h, id, 0, between, n);
    assert Rest(between, 0) == between;
  }

  /** Seen from one node the sweep is what happens during it, and at the node's own turn, if the
      snapshot has it silent, its being taken offline: visits to other nodes make no difference. */
  lemma {:induction false} SweepIsNodeByNode(
    h: State, snapshot: seq<(string, real)>, now: real, timeout: real, between: seq<seq<Happening>>, id: string)
    requires DistinctIds(snapshot)
    ensures var swept := Sweep(h, snapshot, now, timeout, between);
            var k, n := Turn(snapshot, id), |snapshot|;
            && swept.lastSeen == HappenAll(h, Flat(between, n)).lastSeen
            && NodeAt(swept.registry, id)
               == NodeAt((if k < n && now - snapshot[k].1 > timeout then HandledAt(h, id, k, between, n)
                          else HappenAll(h, Flat(between, n))).registry, id)
    decreases |snapshot|
  {
    hide HappenAll, NodeAt, HandledAt;
    var n := |snapshot|;
    if n == 0 {
      NothingHappens(h);
    } else {
      var visited := Visit(h, snapshot[0], now, timeout);
      var h', rest := HappenAll(visited, First(between)), Rest(between, 1);
      SweepIsNodeByNode(h', snapshot[1..], now, timeout, rest, id);
      HappenAllAppend(visited, First(between), Flat(rest, n - 1));
      HappenAllAppend(h, First(between), Flat(rest, n - 1));
      VisitSpec(h, snapshot[0], now, timeout, id);
      HappenAllSeen(visited, h, Flat(between, n));
      if snapshot[0].0 == id {
        assert Turn(snapshot[1..], id) == n - 1;
        HandledAtOnce(h, id, between, n);
        if !Silent(snapshot[0].1, now, timeout) { HappenAllAt(visited, h, Flat(between, n), id); }
      } else {
        HappenAllAt(visited, h, First(between), id);
        HappenAllAt(visited, h, Flat(between, n), id);
        var k := Turn(snapshot[1..], id);
        HandledOneLater(h, h', id, k, between, n - 1);
        HappenAllAt(h', HappenAll(h, First(between)), Flat(rest, n - 1), id);
      }
    }
  }

  lemma VisitLeavesIndex(h: State, entry: (string, real), now: real, timeout: real)
    ensures SameButStatus(Visit(h, entry, now, timeout).registry, h.registry)
    ensures Visit(h, entry, now, timeout).registry.rr == h.registry.rr
  {
  }

  /** What happens to the registry, a heartbeat being the event that stamps the node. */
  function Events(xs: seq<Happening>): seq<Event> {
    if xs == [] then []
    else
      [match xs[0] case Heard(id, _, stamp) => Beat(id, stamp) case Changed(e) => e] + Events(xs[1..])
  }

  lemma {:induction false} HappeningsAreEvents(h: State, xs: seq<Happening>)
    ensures HappenAll(h, xs).registry == Later(h.registry, Events(xs))
    decreases |xs|
  {
    if xs != [] {
      HappeningsAreEvents(Happen(h, xs[0]), xs[1..]);
      assert Events(xs)[1..] == Events(xs[1..]);
    }
  }

  lemma HappenSameButStatus(h: State, h': State, xs: seq<Happening>)
    requires SameButStatus(h.registry, h'.registry)
    ensures SameButStatus(HappenAll(h, xs).registry, HappenAll(h', xs).registry)
  {
    HappeningsAreEvents(h, xs);
    HappeningsAreEvents(h', xs);
    LaterSameButStatus(h.registry, h'.registry, Events(xs));
  }

  /** A sweep touches statuses only: index and services are as its interruptions alone would leave them;
      uninterrupted, it leaves the cursors too. */
  lemma {:induction false} SweepLeavesIndex(
    h: State, snapshot: seq<(string, real)>, now: real, timeout: real, between: seq<seq<Happening>>)
    ensures SameButStatus(Sweep(h, snapshot, now, timeout, between).registry,
                          HappenAll(h, Flat(between, |snapshot|)).registry)
    ensures between == [] ==> Sweep(h, snapshot, now, timeout, between).registry.rr == h.registry.rr
    decreases |snapshot|
  {
    hide HappenAll, SameButStatus, Visit;
    if snapshot == [] {
      NothingHappens(h);
      assert SameButStatus(h.registry, h.registry) by { SameAsItself(h.registry); }
    } else {
      var n, rest := |snapshot|, Rest(between, 1);
      var visited := Visit(h, snapshot[0], now, timeout);
      var h' := HappenAll(visited, First(between));
      SweepLeavesIndex(h', snapshot[1..], now, timeout, rest);
      HappenAllAppend(visited, First(between), Flat(rest, n - 1));
      VisitLeavesIndex(h, snapshot[0], now, timeout);
      HappenSameButStatus(visited, h, Flat(between, n));
      SameThrough(Sweep(h, snapshot, now, timeout, between).registry,
                  HappenAll(visited, Flat(between, n)).registry, HappenAll(h, Flat(between, n)).registry);
      if between == [] { NothingHappens(visited); }
    }
  }

  /** last_seen has the time at which each node was last heard from. */
  function LastHeard(xs: seq<Happening>, id: string): Option<real> {
    if xs == [] then None
    else
      var last := xs[|xs| - 1];
      if last.Heard? && last.id == id then Some(last.now) else LastHeard(xs[..|xs| - 1], id)
  }

  lemma OneHappens(h: State, x: Happening)
    ensures HappenAll(h, [x]) == Happen(h, x)
  {
    assert [x][1..] == [];
  }

  lemma {:induction false} LastSeenIsLastHeard(h: State, xs: seq<Happening>, id: string)
    ensures var seen := HappenAll(h, xs).lastSeen;
            match LastHeard(xs, id)
            case Some(t) => id in seen && seen[id] == t
            case None => (id in seen <==> id in h.lastSeen) && (id in seen ==> seen[id] == h.lastSeen[id])
    decreases |xs|
  {
    hide HappenAll, Step, Heartbeat;
    if xs == [] {
      NothingHappens(h);
    } else {
      var front, last := xs[..|xs| - 1], xs[|xs| - 1];
      LastSeenIsLastHeard(h, front, id);
      HappenAllAppend(h, front, [last]);
      assert xs == front + [last];
      OneHappens(HappenAll(h, front), last);
    }
  }

  predicate Hears(xs: seq<Happening>, id: string) {
    exists i | 0 <= i < |xs| :: xs[i].Heard? && xs[i].id == id
  }

  lemma HearsSplit(xs: seq<Happening>, id: string)
    ensures Hears(xs, id) <==> xs != [] && ((xs[0].Heard? && xs[0].id == id) || Hears(xs[1..], id))
  {
    if i :| 0 <= i < |xs| && xs[i].Heard? && xs[i].id == id { assert i == 0 || xs[1..][i - 1] == xs[i]; }
    if xs != [] && Hears(xs[1..], id) {
      var i :| 0 <= i < |xs[1..]| && xs[1..][i].Heard? && xs[1..][i].id == id;
      assert xs[i + 1] == xs[1..][i];
    }
  }

  lemma {:induction false} OnlineIfHeard(h: State, xs: seq<Happening>, id: string)
    requires forall x | x in xs && x.Changed? :: !AboutStatus(x.event, id)
    ensures Healthy(HappenAll(h, xs).registry, id)
            <==> id in h.registry.nodes && (Healthy(h.registry, id) || Hears(xs, id))
    ensures id in HappenAll(h, xs).registry.nodes <==> id in h.registry.nodes
    decreases |xs|
  {
    hide Step, Hears;
    if xs == [] {
      HearsSplit(xs, id);
    } else {
      var x := xs[0];
      assert x in xs;
      if x.Changed? { NotAboutStatus(h.registry, x.event, id); }
      OnlineIfHeard(Happen(h, x), xs[1..], id);
      HearsSplit(xs, id);
    }
  }

  lemma ItsTurn(snapshot: seq<(string, real)>, lastSeen: map<string, real>, id: string)
    requires Lists(snapshot, lastSeen)
    ensures DistinctIds(snapshot)
    ensures var k := Turn(snapshot, id);
            && (k < |snapshot| <==> id in lastSeen)
            && (id in lastSeen ==> snapshot[k] == (id, lastSeen[id]))
  {
    var k := Turn(snapshot, id);
    assert k < |snapshot| ==> snapshot[k] in snapshot;
    if id in lastSeen { assert (id, lastSeen[id]) in snapshot; }
  }

  /** A node that is marked offline in turn k is online in the end if it is heard from after that. */
  lemma OnlineIfHeardLate(h: State, id: string, k: nat, between: seq<seq<Happening>>, n: nat)
    requires k <= n
    requires forall x | x in Flat(between, n) && x.Changed? :: !AboutStatus(x.event, id)
    ensures Healthy(HandledAt(h, id, k, between, n).registry, id)
            <==> id in h.registry.nodes && Hears(Flat(Rest(between, k), n - k), id)
  {
    hide HappenAll, Hears, Flat, Rest, HandledAt, AboutStatus;
    FlatSplit(between, k, n);
    var early, late := Flat(between, k), Flat(Rest(between, k), n - k);
    assert forall x | x in early || x in late :: x in Flat(between, n);
    OnlineIfHeard(h, early, id);
    OnlineIfHeard(HandleOffline(HappenAll(h, early), id), late, id);
    HandledIsHandled(h, id, k, between, n);
  }

  /** Which nodes are online after a sweep whose interruptions touch no status but by heartbeats: the
      known ones that were silent at its start and are heard from after their own turn, and those not
      silent that were online before or are heard from at all. */
  lemma OnlineAfterSweepIff(
    h: State, snapshot: seq<(string, real)>, now: real, timeout: real, between: seq<seq<Happening>>, id: string)
    requires Lists(snapshot, h.lastSeen)
    requires forall x | x in Flat(between, |snapshot|) && x.Changed? :: !AboutStatus(x.event, id)
    ensures var k, n := Turn(snapshot, id), |snapshot|;
            var wasSilent := id in h.lastSeen && now - h.lastSeen[id] > timeout;
            Healthy(Sweep(h, snapshot, now, timeout, between).registry, id) <==>
              && id in h.registry.nodes
              && if wasSilent then Hears(Flat(Rest(between, k), n - k), id)
                 else Healthy(h.registry, id) || Hears(Flat(between, n), id)
  {
    hide Sweep, HappenAll, Hears, Flat, Rest, HandledAt, DistinctIds, Lists, NodeAt, Healthy, AboutStatus;
    var k, n := Turn(snapshot, id), |snapshot|;
    ItsTurn(snapshot, h.lastSeen, id);
    SweepIsNodeByNode(h, snapshot, now, timeout, between, id);
    OnlineIfHeard(h, Flat(between, n), id);
    OnlineIfHeardLate(h, id, k, between, n);
    var swept := Sweep(h, snapshot, now, timeout, between).registry;
    HealthyAt(swept, HandledAt(h, id, k, between, n).registry, id);
    HealthyAt(swept, HappenAll(h, Flat(between, n)).registry, id);
  }

  /** The sweep judges by its snapshot: a node from which a heartbeat arrives during the sweep, but
      before its own turn, is taken offline all the same. */
  lemma HeardTooEarly(h: State, other: (string, real), id: string, now: real, timeout: real, t: real, stamp: real)
    requires id in h.lastSeen && now - h.lastSeen[id] > timeout && id in h.registry.nodes
    requires h.lastSeen == map[other.0 := other.1, id := h.lastSeen[id]] && other.0 != id
    ensures var swept := Sweep(h, [other, (id, h.lastSeen[id])], now, timeout, [[Heard(id, t, stamp)]]);
            id in swept.lastSeen && swept.lastSeen[id] == t && !Healthy(swept.registry, id)
  {
    var snapshot, between := [other, (id, h.lastSeen[id])], [[Heard(id, t, stamp)]];
    assert Lists(snapshot, h.lastSeen);
    assert Turn(snapshot, id) == 1 by { assert snapshot[1..][0].0 == id; }
    assert Rest(between, 1) == [];
    assert Flat(between, 2) == [Heard(id, t, stamp)] by {
      assert Flat(Rest(between, 1), 1) == First(Rest(between, 1)) + Flat(Rest(Rest(between, 1), 1), 0);
    }
    assert Flat(Rest(between, 1), 1) == [];
    OnlineAfterSweepIff(h, snapshot, now, timeout, between, id);
    SweepIsNodeByNode(h, snapshot, now, timeout, between, id);
    assert HappenAll(h, [Heard(id, t, stamp)]) == Record(h, id, t, stamp) by {
      assert [Heard(id, t, stamp)][1..] == [];
    }
  }

  // ---------- the object ----------

  class HealthChecker {
    const registry: Objects.ServiceRegistry
    const timeout: real
    var lastSeen: map<string, real>

    constructor (registry: Objects.ServiceRegistry, timeout: real)
      ensures this.registry == registry && this.timeout == timeout && lastSeen == map[]
    {
      this.registry, this.timeout, lastSeen := registry, timeout, map[];
    }

    ghost function View(): State
      reads this, registry
    {
      State(registry.registry, lastSeen)
    }

    method RecordHeartbeat(nodeId: string, now: real, stamp: real)
      requires registry.Valid()
      modifies this`lastSeen, registry`registry, registry.repr
      ensures registry.Valid()
      ensures View() == Record(old(View()), nodeId, now, stamp)
    {
      lastSeen := lastSeen[nodeId := now];
      registry.NodeHeardFrom(nodeId, stamp);
    }

    method HandleNodeOffline(nodeId: string)
      requires registry.Valid()
      modifies registry`registry, registry.repr
      ensures registry.Valid()
      ensures View() == HandleOffline(old(View()), nodeId)
    {
      if registry.IsHealthy(nodeId) {
        registry.MarkNode(nodeId, Offline);
      }
    }

    /** The items of last_seen, as list() copies them. */
    method Snapshot() returns (items: seq<(string, real)>)
      ensures Lists(items, lastSeen)
    {
      items := [];
      var todo := lastSeen.Keys;
      ghost var done: set<string> := {};
      while todo != {}
        invariant todo !! done && todo + done == lastSeen.Keys
        invariant DistinctIds(items)
        invariant forall p | p in items :: p.0 in done && p.1 == lastSeen[p.0]
        invariant forall id | id in done :: (id, lastSeen[id]) in items
        decreases todo
      {
        var id :| id in todo;
        items := items + [(id, lastSeen[id])];
        todo, done := todo - {id}, done + {id};
      }
      assert done == lastSeen.Keys;
    }

    method Undergo(xs: seq<Happening>)
      requires registry.Valid()
      modifies this`lastSeen, registry, registry.repr
      ensures registry.Valid() && fresh(registry.repr - old(registry.repr))
      ensures View() == HappenAll(old(View()), xs)
    {
      hide Step;
      var i := 0;
      assert xs[0..] == xs;
      while i < |xs|
        invariant 0 <= i <= |xs|
        invariant registry.Valid() && fresh(registry.repr - old(registry.repr))
        invariant HappenAll(View(), xs[i..]) == HappenAll(old(View()), xs)
      {
        assert xs[i..][1..] == xs[i + 1..];
        match xs[i] {
          case Heard(id, now, stamp) => RecordHeartbeat(id, now, stamp);
          case Changed(e) => registry.Perform(e);
        }
        i := i + 1;
      }
    }

    /** One turn of the loop, and what happens before the next. */
    method VisitEntry(entry: (string, real), now: real, meanwhile: seq<Happening>)
      requires registry.Valid()
      modifies this`lastSeen, registry, registry.repr
      ensures registry.Valid() && fresh(registry.repr - old(registry.repr))
      ensures View() == HappenAll(Visit(old(View()), entry, now, timeout), meanwhile)
    {
      if now - entry.1 > timeout {
        HandleNodeOffline(entry.0);
      }
      Undergo(meanwhile);
    }

    /** The dead-node sweep of one heartbeat round; between[k] happens after its k-th turn. */
    method SweepDeadNodes(now: real, between: seq<seq<Happening>>) returns (snapshot: seq<(string, real)>)
      requires registry.Valid()
      modifies this`lastSeen, registry, registry.repr
      ensures registry.Valid() && fresh(registry.repr - old(registry.repr))
      ensures Lists(snapshot, old(lastSeen))
      ensures View() == Sweep(old(View()), snapshot, now, timeout, between)
    {
      hide Sweep, Visit, HappenAll, Lists, Rest;
      snapshot := Snapshot();
      var i := 0;
      assert snapshot[0..] == snapshot;
      RestOfAll(between);
      while i < |snapshot|
        invariant 0 <= i <= |snapshot|
        invariant registry.Valid() && fresh(registry.repr - old(registry.repr))
        invariant Sweep(View(), snapshot[i..], now, timeout, Rest(between, i))
               == Sweep(old(View()), snapshot, now, timeout, between)
      {
        SweepOne(View(), snapshot, i, now, timeout, between);
        VisitEntry(snapshot[i], now, if i < |between| then between[i] else []);
        i := i + 1;
      }
      assert snapshot[i..] == [];
      SweepEnd(View(), now, timeout, Rest(between, i));
    }
  }
}

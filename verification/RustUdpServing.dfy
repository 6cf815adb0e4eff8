/** The client table of the Rust UDP server: one map from address to state, one from address to id. */
module RustUdpServing {
  import opened Options
  import opened Bytes

  type Addr = string

  datatype ClientState = ClientState(
    clientId: nat, playerName: string, sequence: nat, lastAck: nat, ackBitfield: nat, lastPacketTime: nat)

  /** built records, for every id ever issued, the sequence numbers its packets were given. */
  datatype Table = Table(
    clients: map<Addr, ClientState>, addrToId: map<Addr, nat>, nextId: nat, built: map<nat, seq<nat>>)

  datatype Event =
    | Register(addr: Addr, name: string, now: nat)
    | Remove(addr: Addr)
    | Build(clientId: nat)
    | Incoming(addr: Addr, ack: nat, ackBitfield: nat, now: nat)
    | Cleanup(timeout: nat, now: nat)

  const EMPTY := Table(map[], map[], 2, map[])

  /** The counter is a u64: the release build wraps it. */
  function Registered(t: Table, addr: Addr, name: string, now: nat): Table {
    Table(t.clients[addr := ClientState(t.nextId, name, 0, 0, 0, now)], t.addrToId[addr := t.nextId],
          (t.nextId + 1) % U64, t.built[t.nextId := []])
  }

  function Removed(t: Table, addr: Addr): Table {
    t.(clients := t.clients - {addr}, addrToId := t.addrToId - {addr})
  }

  ghost predicate Holds(clients: map<Addr, ClientState>, clientId: nat, a: Addr) {
    a in clients && clients[a].clientId == clientId
  }

  ghost predicate Known(clients: map<Addr, ClientState>, clientId: nat) {
    exists a :: Holds(clients, clientId, a)
  }

  ghost function AddrOf(clients: map<Addr, ClientState>, clientId: nat): (a: Addr)
    requires Known(clients, clientId)
    ensures Holds(clients, clientId, a)
  {
    var a :| Holds(clients, clientId, a); a
  }

  /** A packet for an id takes the next number of its client; an unknown id gets 0. */
  ghost function Drawn(t: Table, clientId: nat): nat {
    if Known(t.clients, clientId) then t.clients[AddrOf(t.clients, clientId)].sequence else 0
  }

  ghost function AfterDraw(t: Table, clientId: nat): Table {
    if !Known(t.clients, clientId) then t
    else
      var a := AddrOf(t.clients, clientId);
      var c := t.clients[a];
      t.(clients := t.clients[a := c.(sequence := (c.sequence + 1) % U32)],
         built := if clientId in t.built then t.built[clientId := t.built[clientId] + [c.sequence]] else t.built)
  }

  ghost function AckUpdated(t: Table, clientId: nat, ack: nat, bits: nat, now: nat): Table {
    if !Known(t.clients, clientId) then t
    else
      var a := AddrOf(t.clients, clientId);
      t.(clients := t.clients[a := t.clients[a].(lastAck := ack, ackBitfield := bits, lastPacketTime := now)])
  }

  predicate Stale(c: ClientState, timeout: nat, now: nat) {
    (if now >= c.lastPacketTime then now - c.lastPacketTime else 0) > timeout
  }

  function StaleAddrs(clients: map<Addr, ClientState>, timeout: nat, now: nat): set<Addr> {
    set a | a in clients && Stale(clients[a], timeout, now)
  }

  function Cleaned(t: Table, timeout: nat, now: nat): Table {
    var stale := StaleAddrs(t.clients, timeout, now);
    t.(clients := t.clients - stale, addrToId := t.addrToId - stale)
  }

  ghost function Step(t: Table, e: Event): Table {
    match e
    case Register(addr, name, now) => Registered(t, addr, name, now)
    case Remove(addr) => Removed(t, addr)
    case Build(clientId) => AfterDraw(t, clientId)
    case Incoming(addr, ack, bits, now) =>
      if addr in t.addrToId then AckUpdated(t, t.addrToId[addr], ack, bits, now) else t
    case Cleanup(timeout, now) => Cleaned(t, timeout, now)
  }

  ghost function Run(es: seq<Event>): Table {
    if es == [] then EMPTY else Step(Run(es[..|es| - 1]), es[|es| - 1])
  }

  function Registrations(es: seq<Event>): nat {
    if es == [] then 0
    else Registrations(es[..|es| - 1]) + if es[|es| - 1].Register? then 1 else 0
  }

  // ---------- what every run keeps ----------

  predicate NoClash(clients: map<Addr, ClientState>, a: Addr, b: Addr) {
    a in clients && b in clients && clients[a].clientId == clients[b].clientId ==> a == b
  }

  /** The two maps have one domain and agree; live ids are distinct and below the next one. */
  ghost predicate Agree(t: Table) {
    && t.clients.Keys == t.addrToId.Keys
    && (forall a | a in t.clients :: t.addrToId[a] == t.clients[a].clientId && 2 <= t.clients[a].clientId < t.nextId)
    && (forall a, b {:trigger NoClash(t.clients, a, b)} :: NoClash(t.clients, a, b))
  }

  /** The packets of an id were numbered 0, 1, 2, ... modulo 2^32, and its next number follows. */
  ghost predicate Numbered(t: Table) {
    && (forall id | id in t.built :: id < t.nextId)
    && (forall id, k | id in t.built && 0 <= k < |t.built[id]| :: t.built[id][k] == k % U32)
    && (forall a | a in t.clients ::
          && t.clients[a].clientId in t.built
          && t.clients[a].sequence == |t.built[t.clients[a].clientId]| % U32)
  }

  lemma OneAddr(t: Table, clientId: nat, a: Addr)
    requires Agree(t) && Holds(t.clients, clientId, a)
    ensures Known(t.clients, clientId) && AddrOf(t.clients, clientId) == a
  {
    assert NoClash(t.clients, a, AddrOf(t.clients, clientId));
  }

  lemma CountUp(n: nat)
    ensures (n % U32 + 1) % U32 == (n + 1) % U32
  {
    assert n == 0x1_0000_0000 * (n / 0x1_0000_0000) + n % 0x1_0000_0000;
  }

  lemma RegisterAgrees(t: Table, addr: Addr, name: string, now: nat)
    requires Agree(t) && 2 <= t.nextId && t.nextId + 1 < U64
    ensures Agree(Registered(t, addr, name, now)) && Registered(t, addr, name, now).nextId == t.nextId + 1
  {
    var t' := Registered(t, addr, name, now);
    assert t'.nextId == t.nextId + 1;
    forall a, b ensures NoClash(t'.clients, a, b) { assert NoClash(t.clients, a, b); }
  }

  lemma FewerAgree(t: Table, gone: set<Addr>)
    requires Agree(t)
    ensures Agree(t.(clients := t.clients - gone, addrToId := t.addrToId - gone))
  {
    forall a, b ensures NoClash(t.clients - gone, a, b) { assert NoClash(t.clients, a, b); }
  }

  /** Changing a client's other fields does no harm. */
  lemma UpdateAgrees(t: Table, a: Addr, c: ClientState, built: map<nat, seq<nat>>)
    requires Agree(t) && a in t.clients && c.clientId == t.clients[a].clientId
    ensures Agree(t.(clients := t.clients[a := c], built := built))
  {
    var clients := t.clients[a := c];
    forall x, y ensures NoClash(clients, x, y) { assert NoClash(t.clients, x, y); }
  }

  lemma DrawAgrees(t: Table, clientId: nat)
    requires Agree(t)
    ensures Agree(AfterDraw(t, clientId))
  {
    hide Agree;
    if Known(t.clients, clientId) {
      var a := AddrOf(t.clients, clientId);
      UpdateAgrees(t, a, AfterDraw(t, clientId).clients[a], AfterDraw(t, clientId).built);
    }
  }

  lemma AckAgrees(t: Table, clientId: nat, ack: nat, bits: nat, now: nat)
    requires Agree(t)
    ensures Agree(AckUpdated(t, clientId, ack, bits, now))
  {
    hide Agree;
    if Known(t.clients, clientId) {
      var a := AddrOf(t.clients, clientId);
      UpdateAgrees(t, a, AckUpdated(t, clientId, ack, bits, now).clients[a], t.built);
    }
  }

  lemma DrawNumbers(t: Table, clientId: nat)
    requires Agree(t) && Numbered(t)
    ensures Numbered(AfterDraw(t, clientId))
  {
    if Known(t.clients, clientId) {
      var a := AddrOf(t.clients, clientId);
      CountUp(|t.built[clientId]|);
      var t' := AfterDraw(t, clientId);
      forall b | b in t'.clients
        ensures && t'.clients[b].clientId in t'.built
                && t'.clients[b].sequence == |t'.built[t'.clients[b].clientId]| % U32
      {
        if t'.clients[b].clientId == clientId { assert NoClash(t.clients, a, b); }
      }
    }
  }

  lemma RegisterNumbers(t: Table, addr: Addr, name: string, now: nat)
    requires Agree(t) && Numbered(t) && t.nextId + 1 < U64
    ensures Numbered(Registered(t, addr, name, now))
  {
    var t' := Registered(t, addr, name, now);
    assert t'.nextId == t.nextId + 1;
    forall id, k | id in t'.built && 0 <= k < |t'.built[id]| ensures t'.built[id][k] == k % U32 {
      assert id in t.built && t'.built[id] == t.built[id];
    }
  }

  lemma AckNumbers(t: Table, clientId: nat, ack: nat, bits: nat, now: nat)
    requires Numbered(t)
    ensures Numbered(AckUpdated(t, clientId, ack, bits, now))
  {
  }

  lemma OthersKeepNext(t: Table, clientId: nat, ack: nat, bits: nat, now: nat)
    ensures AfterDraw(t, clientId).nextId == t.nextId
    ensures AckUpdated(t, clientId, ack, bits, now).nextId == t.nextId
  {
  }

  lemma StepKeeps(t: Table, e: Event)
    requires Agree(t) && Numbered(t) && 2 <= t.nextId
    requires e.Register? ==> t.nextId + 1 < U64
    ensures Agree(Step(t, e)) && Numbered(Step(t, e))
    ensures Step(t, e).nextId == t.nextId + if e.Register? then 1 else 0
  {
    hide Agree, AckUpdated, AfterDraw, Registered;
    match e
    case Register(addr, name, now) =>
      RegisterAgrees(t, addr, name, now);
      RegisterNumbers(t, addr, name, now);
    case Remove(addr) =>
      FewerAgree(t, {addr});
    case Build(clientId) =>
      DrawAgrees(t, clientId);
      DrawNumbers(t, clientId);
      OthersKeepNext(t, clientId, 0, 0, 0);
    case Incoming(addr, ack, bits, now) =>
      if addr in t.addrToId {
        AckAgrees(t, t.addrToId[addr], ack, bits, now);
        AckNumbers(t, t.addrToId[addr], ack, bits, now);
        OthersKeepNext(t, t.addrToId[addr], ack, bits, now);
      }
    case Cleanup(timeout, now) =>
      FewerAgree(t, StaleAddrs(t.clients, timeout, now));
  }

  /** Over every run short of 2^64 registrations the maps agree and packets are numbered in order,
      whatever other clients do in between. */
  lemma {:induction false} RunsAgree(es: seq<Event>)
    requires Registrations(es) < U64 - 2
    ensures Agree(Run(es)) && Numbered(Run(es))
    ensures Run(es).nextId == 2 + Registrations(es)
  {
    if es != [] {
      RunsAgree(es[..|es| - 1]);
      StepKeeps(Run(es[..|es| - 1]), es[|es| - 1]);
    }
  }

  /** The packet built next for a live client carries the number of packets built for it so far. */
  lemma NextPacketNumber(es: seq<Event>, a: Addr)
    requires Registrations(es) < U64 - 2
    requires a in Run(es).clients
    ensures var id := Run(es).clients[a].clientId;
            && id in Run(es).built && id in Run(es + [Build(id)]).built
            && Drawn(Run(es), id) == |Run(es).built[id]| % U32
            && Run(es + [Build(id)]).built[id] == Run(es).built[id] + [Drawn(Run(es), id)]
            && Run(es + [Build(id)]).clients - {a} == Run(es).clients - {a}
  {
    RunsAgree(es);
    var t := Run(es);
    OneAddr(t, t.clients[a].clientId, a);
    assert (es + [Build(t.clients[a].clientId)])[..|es|] == es;
  }

  // ---------- each client by itself ----------

  function ClientAt(t: Table, a: Addr): Option<ClientState> {
    if a in t.clients then Some(t.clients[a]) else None
  }

  /** What an event makes of the client at one address; nextId is the id a registration gets. */
  function OwnStep(c: Option<ClientState>, e: Event, a: Addr, nextId: nat): Option<ClientState> {
    match e
    case Register(b, name, now) => if a == b then Some(ClientState(nextId, name, 0, 0, 0, now)) else c
    case Remove(b) => if a == b then None else c
    case Build(id) =>
      if c.Some? && c.value.clientId == id
      then Some(c.value.(sequence := (c.value.sequence + 1) % 0x1_0000_0000)) else c
    case Incoming(b, ack, bits, now) =>
      if c.Some? && a == b
      then Some(ClientState(c.value.clientId, c.value.playerName, c.value.sequence, ack, bits, now)) else c
    case Cleanup(timeout, now) => if c.Some? && now - c.value.lastPacketTime > timeout then None else c
  }

  /** What the events about one address, and the packets built for its id, make of its client. */
  function OwnClient(es: seq<Event>, a: Addr): Option<ClientState> {
    if es == [] then None
    else
      var front := es[..|es| - 1];
      OwnStep(OwnClient(front, a), es[|es| - 1], a, 2 + Registrations(front))
  }

  lemma DrawIsOwn(t: Table, clientId: nat, a: Addr)
    requires Agree(t)
    ensures ClientAt(AfterDraw(t, clientId), a) == OwnStep(ClientAt(t, a), Build(clientId), a, t.nextId)
  {
    if a in t.clients && t.clients[a].clientId == clientId { OneAddr(t, clientId, a); }
  }

  lemma AckIsOwn(t: Table, b: Addr, ack: nat, bits: nat, now: nat, a: Addr)
    requires Agree(t) && b in t.addrToId
    ensures ClientAt(AckUpdated(t, t.addrToId[b], ack, bits, now), a)
         == OwnStep(ClientAt(t, a), Incoming(b, ack, bits, now), a, t.nextId)
  {
    OneAddr(t, t.addrToId[b], b);
  }

  lemma StepIsOwnStep(t: Table, e: Event, a: Addr)
    requires Agree(t)
    ensures ClientAt(Step(t, e), a) == OwnStep(ClientAt(t, a), e, a, t.nextId)
  {
    hide AfterDraw, AckUpdated, Known, AddrOf;
    match e
    case Build(id) => DrawIsOwn(t, id, a);
    case Incoming(b, ack, bits, now) => if b in t.addrToId { AckIsOwn(t, b, ack, bits, now, a); }
    case _ =>
  }

  /** Over every run the client at an address is what its own datagrams, packets and registration make
      of it: finding it by its id never reaches another. */
  lemma {:induction false} ClientsAreTheirHistories(es: seq<Event>, a: Addr)
    requires Registrations(es) < U64 - 2
    ensures ClientAt(Run(es), a) == OwnClient(es, a)
  {
    hide Step, OwnStep, Agree, Numbered;
    if es != [] {
      var front := es[..|es| - 1];
      ClientsAreTheirHistories(front, a);
      RunsAgree(front);
      StepIsOwnStep(Run(front), es[|es| - 1], a);
    }
  }

  // ---------- the object ----------

  class UdpServer {
    var clients: map<Addr, ClientState>
    var addrToId: map<Addr, nat>
    var nextClientId: nat
    ghost var built: map<nat, seq<nat>>

    ghost function View(): Table
      reads this
    {
      Table(clients, addrToId, nextClientId, built)
    }

    ghost predicate Valid()
      reads this
    {
      Agree(View()) && 2 <= nextClientId < U64
    }

    constructor ()
      ensures Valid() && View() == EMPTY
    {
      clients, addrToId, nextClientId, built := map[], map[], 2, map[];
    }

    /** Incrementing the last u64 panics where overflow is checked, and wraps in the release build: then
        the next ids are no longer new. */
    method RegisterClient(addr: Addr, playerName: string, now: nat, checked: bool) returns (clientId: Option<nat>)
      requires Valid()
      modifies this
      ensures clientId.None? <==> checked && old(nextClientId) == U64 - 1
      ensures clientId.None? ==> View() == old(View())
      ensures clientId.Some? ==>
                clientId.value == old(nextClientId) && View() == Registered(old(View()), addr, playerName, now)
      ensures Valid() <==> clientId.None? || old(nextClientId) < U64 - 1
    {
      if nextClientId == U64 - 1 {
        if checked {
          return None;
        }
      } else {
        RegisterAgrees(View(), addr, playerName, now);
      }
      hide Agree;
      clientId := Some(nextClientId);
      clients := clients[addr := ClientState(nextClientId, playerName, 0, 0, 0, now)];
      addrToId := addrToId[addr := nextClientId];
      built := built[nextClientId := []];
      nextClientId := (nextClientId + 1) % U64;
    }

    method RemoveClient(addr: Addr) returns (removed: Option<(nat, string)>)
      requires Valid()
      modifies this
      ensures Valid()
      ensures removed == if addr in old(clients) then Some((old(clients)[addr].clientId, old(clients)[addr].playerName))
                         else None
      ensures View() == Removed(old(View()), addr)
    {
      if addr !in clients {
        assert clients - {addr} == clients && addrToId - {addr} == addrToId;
        return None;
      }
      FewerAgree(View(), {addr});
      hide Agree;
      removed := Some((clients[addr].clientId, clients[addr].playerName));
      clients := clients - {addr};
      addrToId := addrToId - {addr};
    }

    method GetClientId(addr: Addr) returns (id: Option<nat>)
      requires Valid()
      ensures id == if addr in clients then Some(clients[addr].clientId) else None
    {
      id := if addr in addrToId then Some(addrToId[addr]) else None;
    }

    /** The scan over the client states, in whatever order the hash map gives them. */
    method Find(clientId: nat) returns (found: Option<Addr>)
      requires Valid()
      ensures found.None? <==> !Known(clients, clientId)
      ensures found.Some? ==> Holds(clients, clientId, found.value) && AddrOf(clients, clientId) == found.value
    {
      var rest := clients.Keys;
      while rest != {}
        invariant rest <= clients.Keys
        invariant forall a | a in clients && a !in rest :: clients[a].clientId != clientId
        decreases rest
      {
        var a :| a in rest;
        if clients[a].clientId == clientId {
          OneAddr(View(), clientId, a);
          return Some(a);
        }
        rest := rest - {a};
      }
      return None;
    }

    method NextSequence(clientId: nat) returns (sequence: nat)
      requires Valid()
      modifies this
      ensures Valid()
      ensures sequence == Drawn(old(View()), clientId)
      ensures View() == AfterDraw(old(View()), clientId)
    {
      var found := Find(clientId);
      if found.None? {
        return 0;
      }
      DrawAgrees(View(), clientId);
      hide Known, Holds, Agree;
      var state := clients[found.value];
      sequence := state.sequence;
      clients := clients[found.value := state.(sequence := (sequence + 1) % U32)];
      if clientId in built {
        built := built[clientId := built[clientId] + [sequence]];
      }
    }

    method GetAckState(clientId: nat) returns (ack: nat, ackBitfield: nat)
      requires Valid()
      ensures if Known(clients, clientId)
              then ack == clients[AddrOf(clients, clientId)].lastAck
                   && ackBitfield == clients[AddrOf(clients, clientId)].ackBitfield
              else ack == 0 && ackBitfield == 0
    {
      var found := Find(clientId);
      if found.None? {
        return 0, 0;
      }
      ack, ackBitfield := clients[found.value].lastAck, clients[found.value].ackBitfield;
    }

    /** What every build_*_packet puts in its header. */
    method BuildHeader(clientId: nat) returns (sequence: nat, ack: nat, ackBitfield: nat)
      requires Valid()
      modifies this
      ensures Valid()
      ensures sequence == Drawn(old(View()), clientId)
      ensures View() == AfterDraw(old(View()), clientId)
      ensures if Known(clients, clientId)
              then ack == clients[AddrOf(clients, clientId)].lastAck
                   && ackBitfield == clients[AddrOf(clients, clientId)].ackBitfield
              else ack == 0 && ackBitfield == 0
    {
      sequence := NextSequence(clientId);
      ack, ackBitfield := GetAckState(clientId);
    }

    /** The table's part of process_incoming, for a datagram whose header is valid. */
    method ProcessIncoming(addr: Addr, ack: nat, ackBitfield: nat, now: nat)
      requires Valid()
      modifies this
      ensures Valid()
      ensures View() == Step(old(View()), Incoming(addr, ack, ackBitfield, now))
    {
      var id := GetClientId(addr);
      if id.Some? {
        AckAgrees(View(), id.value, ack, ackBitfield, now);
        var found := Find(id.value);
        assert Holds(clients, id.value, addr);
        var a := found.value;
        clients := clients[a := clients[a].(lastAck := ack, ackBitfield := ackBitfield, lastPacketTime := now)];
      }
    }

    method CollectStale(timeout: nat, now: nat) returns (stale: seq<(nat, string)>, toRemove: seq<Addr>)
      ensures (set a | a in toRemove) == StaleAddrs(clients, timeout, now)
      ensures |stale| == |StaleAddrs(clients, timeout, now)|
      ensures forall a | a in StaleAddrs(clients, timeout, now) ::
                (clients[a].clientId, clients[a].playerName) in stale
    {
      hide Stale;
      stale, toRemove := [], [];
      var rest := clients.Keys;
      ghost var seen: set<Addr> := {};
      while rest != {}
        invariant rest <= clients.Keys
        invariant forall a :: a in seen <==> a in toRemove
        invariant forall a :: a in seen <==> a in clients && a !in rest && Stale(clients[a], timeout, now)
        invariant |stale| == |seen|
        invariant forall a | a in seen :: (clients[a].clientId, clients[a].playerName) in stale
        decreases rest
      {
        var a :| a in rest;
        if Stale(clients[a], timeout, now) {
          stale := stale + [(clients[a].clientId, clients[a].playerName)];
          toRemove := toRemove + [a];
          seen := seen + {a};
        }
        rest := rest - {a};
      }
      assert seen == StaleAddrs(clients, timeout, now);
    }

    /** Removes exactly the stale clients from both maps and reports each of them once. */
    method CleanupStale(timeout: nat, now: nat) returns (stale: seq<(nat, string)>)
      requires Valid()
      modifies this
      ensures Valid()
      ensures View() == Cleaned(old(View()), timeout, now)
      ensures |stale| == |StaleAddrs(old(clients), timeout, now)|
      ensures forall a | a in StaleAddrs(old(clients), timeout, now) ::
                (old(clients)[a].clientId, old(clients)[a].playerName) in stale
    {
      FewerAgree(View(), StaleAddrs(clients, timeout, now));
      hide StaleAddrs, Agree;
      var toRemove;
      stale, toRemove := CollectStale(timeout, now);
      ghost var gone: set<Addr> := {};
      for i := 0 to |toRemove|
        invariant gone == set a | a in toRemove[..i]
        invariant clients == old(clients) - gone && addrToId == old(addrToId) - gone
        invariant nextClientId == old(nextClientId) && built == old(built)
      {
        assert toRemove[..i + 1] == toRemove[..i] + [toRemove[i]];
        clients := clients - {toRemove[i]};
        addrToId := addrToId - {toRemove[i]};
        gone := gone + {toRemove[i]};
      }
      assert toRemove[..|toRemove|] == toRemove;
    }
  }
}

/** The Python UDP server and the port that stamps packets for its clients. */
module UdpServing {
  import opened Options
  import opened Bits
  import opened Bytes
  import opened Packets
  import opened AckTracking

  /** addressed says whether it registered with an address tuple; stamped is the history of headers drawn
      for it since. */
  datatype Client = Client(id: nat, name: string, addressed: bool, tracker: Tracker, stamped: seq<Header>)

  datatype Server = Server(clients: map<string, Client>, nextId: nat)

  datatype Event =
    | Register(addr: string, name: string, addressed: bool)
    | Remove(addr: string)
    | Receive(addr: string, data: seq<byte>)
    | Broadcast(drawn: set<string>)
    | SendIntent(addr: string)
    | Measure(addr: string)

  const NO_CLIENTS := Server(map[], 2)

  function HeaderFor(ptype: int, t: Tracker): Header {
    Header(ptype, t.local, t.remote, t.bits)
  }

  function Stamp(c: Client, ptype: int): Client {
    c.(tracker := Next(c.tracker), stamped := c.stamped + [HeaderFor(ptype, c.tracker)])
  }

  function Stamped(s: Server, addr: string, ptype: int): Server {
    if addr in s.clients then s.(clients := s.clients[addr := Stamp(s.clients[addr], ptype)]) else s
  }

  function StampSome(clients: map<string, Client>, chosen: set<string>): map<string, Client> {
    map a | a in clients :: if a in chosen then Stamp(clients[a], PKT_STATE_SYNC) else clients[a]
  }

  function StampedSome(s: Server, chosen: set<string>): Server {
    s.(clients := StampSome(s.clients, chosen))
  }

  function Acked(s: Server, addr: string, sequence: int): Server {
    if addr in s.clients then
      s.(clients := s.clients[addr := s.clients[addr].(tracker := Update(s.clients[addr].tracker, sequence))])
    else s
  }

  predicate IsPing(data: seq<byte>) {
    && ParseHeader(data).Some?
    && ParseHeader(data).value.ptype == PKT_PING
    && TimeOf(data).Some?
  }

  function Registered(s: Server, addr: string, name: string, addressed: bool): Server {
    Server(s.clients[addr := Client(s.nextId, name, addressed, INITIAL, [])], s.nextId + 1)
  }

  function Removed(s: Server, addr: string): Server {
    s.(clients := s.clients - {addr})
  }

  function Received(s: Server, addr: string, data: seq<byte>): Server {
    var h := ParseHeader(data);
    if h.None? then s
    else
      var acked := Acked(s, addr, h.value.sequence);
      if IsPing(data) then Stamped(acked, addr, PKT_PONG) else acked
  }

  // ---------- whom a broadcast reaches ----------

  function UpToColon(s: string): string {
    if s == [] || s[0] == ':' then [] else [s[0]] + UpToColon(s[1..])
  }

  /** The second of the parts between colons, if there are two. */
  function SecondPart(s: string): Option<string> {
    if s == [] then None else if s[0] == ':' then Some(UpToColon(s[1..])) else SecondPart(s[1..])
  }

  lemma {:induction false} UpToColonSpec(b: string, c: string)
    requires ':' !in b
    ensures UpToColon(b) == b && UpToColon(b + ":" + c) == b
  {
    if b != [] {
      UpToColonSpec(b[1..], c);
      assert (b + ":" + c)[1..] == b[1..] + ":" + c;
    }
  }

  /** Without a colon there is no second part; with one it is what follows, up to the next colon. */
  lemma {:induction false} SecondPartSpec(a: string, b: string, c: string)
    requires ':' !in a && ':' !in b
    ensures SecondPart(a) == None
    ensures SecondPart(a + ":" + b) == Some(b)
    ensures SecondPart(a + ":" + b + ":" + c) == Some(b)
  {
    if a == [] {
      UpToColonSpec(b, c);
      assert (a + ":" + b)[1..] == b;
      assert (a + ":" + b + ":" + c)[1..] == b + ":" + c;
    } else {
      SecondPartSpec(a[1..], b, c);
      assert (a + ":" + b)[1..] == a[1..] + ":" + b;
      assert (a + ":" + b + ":" + c)[1..] == a[1..] + ":" + b + ":" + c;
    }
  }

  /** A client registered without an address tuple is sent to at the host and port its string splits
      into; isInt is what int() accepts. */
  predicate Addressable(s: Server, addr: string, isInt: string -> bool)
    requires addr in s.clients
  {
    s.clients[addr].addressed || (SecondPart(addr).Some? && isInt(SecondPart(addr).value))
  }

  /** Of a client, registered here as host:port, the tuple or an integer for a port is needed. */
  lemma AddressableIff(
    s: Server, c: Client, host: string, port: string, rest: string, colon: bool, isInt: string -> bool)
    requires ':' !in host && ':' !in port
    ensures var addr := if colon then host + ":" + port + ":" + rest else host + ":" + port;
            && Addressable(s.(clients := s.clients[addr := c]), addr, isInt) == (c.addressed || isInt(port))
            && Addressable(s.(clients := s.clients[host := c]), host, isInt) == c.addressed
  {
    SecondPartSpec(host, port, rest);
  }

  predicate AllAddressable(s: Server, isInt: string -> bool) {
    forall a | a in s.clients :: Addressable(s, a, isInt)
  }

  /** Whose numbers a broadcast draws: everybody's, or some up to the first it cannot address, where it
      raises. */
  ghost predicate Draws(s: Server, isInt: string -> bool, drawn: set<string>) {
    && drawn <= s.clients.Keys
    && if AllAddressable(s, isInt) then drawn == s.clients.Keys
       else exists last | last in drawn ::
              !Addressable(s, last, isInt) && forall a | a in drawn - {last} :: Addressable(s, a, isInt)
  }

  function Step(s: Server, e: Event): Server {
    match e
    case Register(addr, name, addressed) => Registered(s, addr, name, addressed)
    case Remove(addr) => Removed(s, addr)
    case Receive(addr, data) => Received(s, addr, data)
    case Broadcast(drawn) => StampedSome(s, drawn)
    case SendIntent(addr) => Stamped(s, addr, PKT_INTENT)
    case Measure(addr) => Stamped(s, addr, PKT_PING)
  }

  /** Every packet carries the header its own client was due, and the one payload. */
  ghost predicate AllStamped(s: Server, payload: seq<byte>, packets: map<string, seq<byte>>) {
    forall a | a in packets ::
      a in s.clients && Frame(HeaderFor(PKT_STATE_SYNC, s.clients[a].tracker), payload) == Some(packets[a])
  }

  /** A broadcast under way from before to now: the clients outside rest have their packets. */
  ghost predicate Partway(before: Server, now: Server, payload: seq<byte>, isInt: string -> bool, rest: set<string>,
                          packets: map<string, seq<byte>>)
  {
    && rest !! packets.Keys
    && rest + packets.Keys == before.clients.Keys
    && now == StampedSome(before, packets.Keys)
    && AllStamped(before, payload, packets)
    && forall a | a in packets :: Addressable(before, a, isInt)
  }

  lemma OneFurther(before: Server, now: Server, payload: seq<byte>, isInt: string -> bool, rest: set<string>,
                   packets: map<string, seq<byte>>, a: string, packet: seq<byte>)
    requires Partway(before, now, payload, isInt, rest, packets) && a in rest && a in now.clients
    requires Frame(HeaderFor(PKT_STATE_SYNC, now.clients[a].tracker), payload) == Some(packet)
    ensures Addressable(before, a, isInt) ==>
              Partway(before, Stamped(now, a, PKT_STATE_SYNC), payload, isInt, rest - {a}, packets[a := packet])
    ensures Addressable(now, a, isInt) == Addressable(before, a, isInt)
    ensures !Addressable(before, a, isInt) ==>
              && Stamped(now, a, PKT_STATE_SYNC) == StampedSome(before, packets.Keys + {a})
              && Draws(before, isInt, packets.Keys + {a})
  {
    hide SecondPart;
    assert packets[a := packet].Keys == packets.Keys + {a};
    assert Stamped(now, a, PKT_STATE_SYNC) == StampedSome(before, packets.Keys + {a});
  }

  lemma NothingDrawn(s: Server, payload: seq<byte>, isInt: string -> bool)
    ensures StampedSome(s, {}) == s
    ensures Partway(s, s, payload, isInt, s.clients.Keys, map[])
  {
    assert StampedSome(s, {}) == s;
  }

  lemma CannotSendTo(s: Server, addr: string, isInt: string -> bool)
    requires addr in s.clients && !Addressable(s, addr, isInt)
    ensures !AllAddressable(s, isInt)
  {
  }

  lemma EverythingDrawn(before: Server, now: Server, payload: seq<byte>, isInt: string -> bool,
                        packets: map<string, seq<byte>>)
    requires Partway(before, now, payload, isInt, {}, packets)
    ensures AllAddressable(before, isInt) && Draws(before, isInt, packets.Keys)
    ensures now == StampedSome(before, packets.Keys) && AllStamped(before, payload, packets)
  {
    hide Addressable;
  }

  /** The pong sent back for a datagram, if any. */
  function Reply(s: Server, addr: string, data: seq<byte>): Option<seq<byte>> {
    if IsPing(data) && addr in s.clients then
      var t := Update(s.clients[addr].tracker, ParseHeader(data).value.sequence);
      BuildTimed(HeaderFor(PKT_PONG, t), TimeOf(data).value)
    else None
  }

  function Run(es: seq<Event>): Server {
    if es == [] then NO_CLIENTS else Step(Run(es[..|es| - 1]), es[|es| - 1])
  }

  // ---------- consecutive stamps ----------

  ghost predicate Consecutive(c: Client) {
    && c.tracker.local == |c.stamped| % U32
    && forall k | 0 <= k < |c.stamped| :: c.stamped[k].sequence == k % U32
  }

  ghost predicate Inv(s: Server) {
    && 2 <= s.nextId
    && (forall a | a in s.clients :: Consecutive(s.clients[a]) && 2 <= s.clients[a].id < s.nextId)
    && (forall a, b | a in s.clients && b in s.clients && s.clients[a].id == s.clients[b].id :: a == b)
  }

  lemma StampKeepsConsecutive(c: Client, ptype: int)
    requires Consecutive(c)
    ensures Consecutive(Stamp(c, ptype))
  {
    var n := |c.stamped|;
    assert n == 0x1_0000_0000 * (n / 0x1_0000_0000) + n % 0x1_0000_0000;
  }

  lemma StampedKeepsInv(s: Server, addr: string, ptype: int)
    requires Inv(s)
    ensures Inv(Stamped(s, addr, ptype))
  {
    if addr in s.clients { StampKeepsConsecutive(s.clients[addr], ptype); }
  }

  lemma ReceivedKeepsInv(s: Server, addr: string, data: seq<byte>)
    requires Inv(s)
    ensures Inv(Received(s, addr, data))
  {
    if ParseHeader(data).Some? {
      var acked := Acked(s, addr, ParseHeader(data).value.sequence);
      assert Inv(acked);
      if IsPing(data) { StampedKeepsInv(acked, addr, PKT_PONG); }
    }
  }

  lemma BroadcastKeepsInv(s: Server, drawn: set<string>)
    requires Inv(s)
    ensures Inv(StampedSome(s, drawn))
  {
    forall a | a in s.clients ensures Consecutive(Stamp(s.clients[a], PKT_STATE_SYNC)) {
      StampKeepsConsecutive(s.clients[a], PKT_STATE_SYNC);
    }
  }

  lemma StepKeepsInv(s: Server, e: Event)
    requires Inv(s)
    ensures Inv(Step(s, e))
  {
    match e
    case Register(_, _, _) =>
    case Remove(addr) =>
    case Receive(addr, data) => ReceivedKeepsInv(s, addr, data);
    case Broadcast(drawn) => BroadcastKeepsInv(s, drawn);
    case SendIntent(addr) => StampedKeepsInv(s, addr, PKT_INTENT);
    case Measure(addr) => StampedKeepsInv(s, addr, PKT_PING);
  }

  /** Whatever is interleaved, the k-th header drawn for a client since it registered carries
      sequence number k modulo 2^32 (k from 0); ids of the clients are distinct. */
  lemma {:induction false} StampsAreConsecutive(es: seq<Event>)
    ensures Inv(Run(es))
  {
    if es != [] {
      StampsAreConsecutive(es[..|es| - 1]);
      StepKeepsInv(Run(es[..|es| - 1]), es[|es| - 1]);
    }
  }

  /** The sequence numbers of the valid datagrams from an address since it last registered there. */
  function Heard(es: seq<Event>, addr: string): seq<int> {
    if es == [] then []
    else
      var before, last := Heard(es[..|es| - 1], addr), es[|es| - 1];
      match last
      case Register(a, _, _) => if a == addr then [] else before
      case Receive(a, data) =>
        if a == addr && ParseHeader(data).Some? then before + [ParseHeader(data).value.sequence] else before
      case _ => before
  }

  lemma {:induction false} TrackerIsRun(es: seq<Event>, addr: string)
    requires addr in Run(es).clients
    ensures Run(es).clients[addr].tracker.(local := 0) == AckTracking.Run(Heard(es, addr))
  {
    hide ParseHeader, IsPing, ShiftLeft;
    var before, last := es[..|es| - 1], es[|es| - 1];
    if last.Register? && last.addr == addr {
    } else {
      TrackerIsRun(before, addr);
      if last.Receive? && last.addr == addr && ParseHeader(last.data).Some? {
        assert Heard(es, addr)[..|Heard(before, addr)|] == Heard(before, addr);
      }
    }
  }

  /** What a client's packets acknowledge is the tracker's verdict on exactly the datagrams heard from
      it: pings, intents and all others with a valid header. */
  lemma StampsAcknowledgeWhatWasHeard(es: seq<Event>, addr: string, ptype: int)
    requires addr in Run(es).clients
    ensures var t := AckTracking.Run(Heard(es, addr));
            HeaderFor(ptype, Run(es).clients[addr].tracker)
            == Header(ptype, |Run(es).clients[addr].stamped| % U32, t.remote, t.bits)
  {
    StampsAreConsecutive(es);
    TrackerIsRun(es, addr);
  }

  /** After one more event the headers drawn for a client are these. */
  predicate Drew(es: seq<Event>, e: Event, addr: string, stamped: seq<Header>) {
    addr in Run(es + [e]).clients && Run(es + [e]).clients[addr].stamped == stamped
  }

  lemma OneMoreEvent(es: seq<Event>, e: Event)
    ensures Run(es + [e]) == Step(Run(es), e)
  {
    hide Step;
    assert (es + [e])[..|es|] == es;
  }

  /** Intents, pings and state syncs draw one header each: of their type, with the client's next number
      and the tracker's verdict on what was heard from it. */
  lemma HeadersDrawn(es: seq<Event>, addr: string, drawn: set<string>)
    requires addr in Run(es).clients
    ensures var before, t := Run(es).clients[addr].stamped, AckTracking.Run(Heard(es, addr));
            var next := |before| % U32;
            && Drew(es, SendIntent(addr), addr, before + [Header(1, next, t.remote, t.bits)])
            && Drew(es, Measure(addr), addr, before + [Header(5, next, t.remote, t.bits)])
            && Drew(es, Broadcast(drawn), addr,
                    if addr in drawn then before + [Header(2, next, t.remote, t.bits)] else before)
  {
    hide Run, Heard, AckTracking.Run;
    OneMoreEvent(es, SendIntent(addr));
    OneMoreEvent(es, Measure(addr));
    OneMoreEvent(es, Broadcast(drawn));
    StampsAcknowledgeWhatWasHeard(es, addr, PKT_INTENT);
    StampsAcknowledgeWhatWasHeard(es, addr, PKT_PING);
    StampsAcknowledgeWhatWasHeard(es, addr, PKT_STATE_SYNC);
  }

  /** A datagram with a valid header of the ping type and eight bytes behind it. */
  predicate IsFullPing(data: seq<byte>) {
    |data| >= 26 && ParseHeader(data).Some? && ParseHeader(data).value.ptype == 5
  }

  /** Every full ping from a known client, and nothing else, gets a pong. */
  lemma EveryPingIsAnswered(s: Server, addr: string, data: seq<byte>)
    ensures Reply(s, addr, data).Some? <==> IsFullPing(data) && addr in s.clients
  {
    hide Decode, Encode;
    TimeInRange(data);
  }

  lemma HeardOneMore(es: seq<Event>, addr: string, data: seq<byte>)
    requires addr in Run(es).clients && ParseHeader(data).Some?
    ensures var before, sequence := Heard(es, addr), ParseHeader(data).value.sequence;
            && Heard(es + [Receive(addr, data)], addr) == before + [sequence]
            && AckTracking.Run(before + [sequence])
               == Update(Run(es).clients[addr].tracker, sequence).(local := 0)
  {
    hide ParseHeader, ShiftLeft;
    assert (es + [Receive(addr, data)])[..|es|] == es;
    TrackerIsRun(es, addr);
    var before, sequence := Heard(es, addr), ParseHeader(data).value.sequence;
    assert (before + [sequence])[..|before|] == before;
  }

  lemma PongBytes(h: Header, data: seq<byte>)
    requires |data| >= 26 && 0 <= h.ptype < 256
    ensures var pong := BuildTimed(h, TimeOf(data).value);
            && pong.Some? && |pong.value| == 26 && pong.value[18..] == data[18..26]
            && ParseHeader(pong.value) == Some(h.Masked())
  {
    hide Encode, Decode, ParseHeader;
    TimeInRange(data);
    EncodeDecode(data[18..26]);
    HeaderRoundTrip(h, Encode(TimeOf(data).value, 8));
  }

  lemma KeepsLocal(t: Tracker, sequence: int)
    ensures Update(t, sequence).local == t.local
    ensures Accepts(t.remote, sequence) ==> Update(t, sequence).remote == sequence
  {
  }

  lemma SequenceInRange(data: seq<byte>)
    requires ParseHeader(data).Some?
    ensures 0 <= ParseHeader(data).value.sequence < U32
  {
    hide ParseHeader, BuildHeader;
    HeaderCanonical(data);
  }

  lemma AdvanceSetsBitZero(t: Tracker, sequence: int)
    requires Accepts(t.remote, sequence)
    ensures Bit(Update(t, sequence).bits % U32, 0)
  {
    SetLowBitBit(ShiftLeft(t.bits, Delta(t.remote, sequence)), 0);
    Pow2Of32();
    LowBits(Update(t, sequence).bits, 32, 0);
  }

  /** After any run, the pong to a full ping from a known client carries the ping's own eight time bytes,
      the client's next number and the tracker's verdict on all its datagrams, this one included. If the
      ping advances, that verdict is its own number with bit 0 set. */
  lemma PongAnswersPing(es: seq<Event>, addr: string, data: seq<byte>)
    requires addr in Run(es).clients && IsFullPing(data)
    ensures Reply(Run(es), addr, data).Some?
    ensures var s, pong := Run(es), Reply(Run(es), addr, data).value;
            var n, sequence := |s.clients[addr].stamped|, ParseHeader(data).value.sequence;
            var t := AckTracking.Run(Heard(es + [Receive(addr, data)], addr));
            var stamped := Received(s, addr, data).clients[addr].stamped;
            && |pong| == 26 && pong[18..] == data[18..26]
            && ParseHeader(pong) == Some(Header(6, n % U32, t.remote % U32, t.bits % U32))
            && |stamped| == n + 1 && stamped[..n] == s.clients[addr].stamped
            && Some(stamped[n].Masked()) == ParseHeader(pong)
            && (Accepts(AckTracking.Run(Heard(es, addr)).remote, sequence) ==>
                  t.remote % U32 == sequence && Bit(t.bits % U32, 0))
  {
    hide Run, Heard, AckTracking.Run, ParseHeader, BuildTimed, Update, Encode, Decode;
    var s, sequence := Run(es), ParseHeader(data).value.sequence;
    var c := s.clients[addr];
    StampsAreConsecutive(es);
    TrackerIsRun(es, addr);
    HeardOneMore(es, addr, data);
    KeepsLocal(c.tracker, sequence);
    PongBytes(HeaderFor(PKT_PONG, Update(c.tracker, sequence)), data);
    SequenceInRange(data);
    if Accepts(c.tracker.remote, sequence) { AdvanceSetsBitZero(c.tracker, sequence); }
  }

  // ---------- who is registered ----------

  function Registrations(es: seq<Event>): nat {
    if es == [] then 0 else Registrations(es[..|es| - 1]) + if es[|es| - 1].Register? then 1 else 0
  }

  /** Id, name and address tuple of the last registration at an address that was not removed since; ids
      count registrations from 2. */
  function Holder(es: seq<Event>, addr: string): Option<(nat, string, bool)> {
    if es == [] then None
    else
      var front, last := es[..|es| - 1], es[|es| - 1];
      match last
      case Register(a, name, addressed) =>
        if a == addr then Some((2 + Registrations(front), name, addressed)) else Holder(front, addr)
      case Remove(a) => if a == addr then None else Holder(front, addr)
      case _ => Holder(front, addr)
  }

  lemma StepHolder(s: Server, e: Event, addr: string)
    requires !e.Register? && !e.Remove?
    ensures Step(s, e).nextId == s.nextId
    ensures addr in Step(s, e).clients <==> addr in s.clients
    ensures addr in s.clients ==>
              var c, c' := s.clients[addr], Step(s, e).clients[addr];
              c'.id == c.id && c'.name == c.name && c'.addressed == c.addressed
  {
    hide ParseHeader, IsPing, Update;
  }

  lemma {:induction false} ClientsAreTheHolders(es: seq<Event>, addr: string)
    ensures Run(es).nextId == 2 + Registrations(es)
    ensures addr in Run(es).clients <==> Holder(es, addr).Some?
    ensures addr in Run(es).clients ==>
              var c := Run(es).clients[addr]; Some((c.id, c.name, c.addressed)) == Holder(es, addr)
  {
    if es != [] {
      var front, last := es[..|es| - 1], es[|es| - 1];
      ClientsAreTheHolders(front, addr);
      if !last.Register? && !last.Remove? { StepHolder(Run(front), last, addr); }
    }
  }

  // ---------- the objects ----------

  /** addressed: the address tuple is there and not empty. */
  datatype ClientRecord = ClientRecord(clientId: nat, playerName: string, tracker: AckTracker, addressed: bool)

  class UdpServer {
    var clients: map<string, ClientRecord>
    var nextClientId: nat
    ghost var server: Server  // the abstract value, with the stamping history
    ghost var owner: map<AckTracker, string>  // whose each tracker is; no two clients share one

    static ghost predicate Represents(r: ClientRecord, c: Client)
      reads r.tracker
    {
      && r.clientId == c.id && r.playerName == c.name && r.addressed == c.addressed
      && r.tracker.View() == c.tracker
    }

    ghost predicate Valid()
      reads this, owner.Keys
    {
      && nextClientId == server.nextId
      && clients.Keys == server.clients.Keys
      && (forall a | a in clients ::
            && clients[a].tracker in owner
            && owner[clients[a].tracker] == a
            && Represents(clients[a], server.clients[a]))
    }

    constructor ()
      ensures Valid() && server == NO_CLIENTS
    {
      clients, nextClientId, server, owner := map[], 2, NO_CLIENTS, map[];
    }

    method RegisterClient(addr: string, playerName: string, addressed: bool) returns (clientId: nat)
      requires Valid()
      modifies this
      ensures Valid() && fresh(owner.Keys - old(owner).Keys)
      ensures clientId == old(server).nextId
      ensures server == Registered(old(server), addr, playerName, addressed)
    {
      clientId := nextClientId;
      nextClientId := nextClientId + 1;
      var tracker := new AckTracker();
      clients := clients[addr := ClientRecord(clientId, playerName, tracker, addressed)];
      server, owner := Registered(server, addr, playerName, addressed), owner[tracker := addr];
    }

    method RemoveClient(addr: string) returns (removed: Option<(nat, string)>)
      requires Valid()
      modifies this
      ensures Valid() && owner == old(owner)
      ensures removed == if addr in old(server).clients
                         then Some((old(server).clients[addr].id, old(server).clients[addr].name)) else None
      ensures server == Removed(old(server), addr)
    {
      if addr in clients {
        removed := Some((clients[addr].clientId, clients[addr].playerName));
      } else {
        removed := None;
      }
      clients := clients - {addr};
      server := Removed(server, addr);
    }

    /** Draws the next number of one client and the header that goes with it. */
    method Draw(addr: string, ptype: int) returns (h: Header)
      requires Valid() && addr in clients
      modifies this`server, owner.Keys
      ensures Valid()
      ensures h == HeaderFor(ptype, old(server).clients[addr].tracker)
      ensures server == Stamped(old(server), addr, ptype)
    {
      var tracker := clients[addr].tracker;
      var sequence := tracker.NextSequence();
      h := Header(ptype, sequence, tracker.remoteSequence, tracker.ackBitfield);
      server := Stamped(server, addr, ptype);
    }

    /** The datagram handler: the pong it sends and the intent it hands to the callback. */
    method HandlePacket<M>(codec: Codec<IntentBody<M>>, data: seq<byte>, addr: string)
      returns (pong: Option<seq<byte>>, intent: Parsed<IntentBody<M>>)
      requires Valid()
      modifies this`server, owner.Keys
      ensures Valid() && clients == old(clients)
      ensures pong == Reply(old(server), addr, data)
      ensures intent == ParseIntent(codec, data)
      ensures server == Received(old(server), addr, data)
    {
      hide Decode, BuildTimed, ShiftLeft;
      pong, intent := None, NoPacket;
      var header := ParseHeader(data);
      if header.None? {
        return;
      }
      if addr in clients {
        clients[addr].tracker.UpdateRemote(header.value.sequence);
        server := Acked(server, addr, header.value.sequence);
      }
      if header.value.ptype == PKT_INTENT {
        intent := ParseIntent(codec, data);
      } else if header.value.ptype == PKT_PING {
        var time := TimeOf(data);
        if time.Some? && addr in clients {
          var h := Draw(addr, PKT_PONG);
          pong := BuildTimed(h, time.value);
        }
      }
    }

    method StateSyncFor(addr: string, payload: seq<byte>, isInt: string -> bool)
      returns (packet: seq<byte>, sendable: bool)
      requires Valid() && addr in clients && |payload| < U32
      modifies this`server, owner.Keys
      ensures Valid() && clients == old(clients)
      ensures server == Stamped(old(server), addr, PKT_STATE_SYNC)
      ensures Frame(HeaderFor(PKT_STATE_SYNC, old(server).clients[addr].tracker), payload) == Some(packet)
      ensures sendable == Addressable(old(server), addr, isInt)
    {
      var h := Draw(addr, PKT_STATE_SYNC);
      packet := Frame(h, payload).value;
      sendable := clients[addr].addressed || (SecondPart(addr).Some? && isInt(SecondPart(addr).value));
    }

    /** One packet a client: the payload is serialised once, the header is its own. Nothing is sent when
        something raises: packing a payload that is too long, or splitting an address, which happens in
        the middle of the loop. */
    method BroadcastStateSync(open: bool, payload: seq<byte>, isInt: string -> bool)
      returns (packets: map<string, seq<byte>>, raised: bool, ghost drawn: set<string>)
      requires Valid()
      modifies this`server, owner.Keys
      ensures Valid() && clients == old(clients)
      ensures raised <==> open && (|payload| >= U32 || !AllAddressable(old(server), isInt))
      ensures server == StampedSome(old(server), drawn)
      ensures if open && |payload| < U32 then Draws(old(server), isInt, drawn) else drawn == {}
      ensures packets.Keys == if raised then {} else drawn
      ensures AllStamped(old(server), payload, packets)
    {
      hide Addressable, AllAddressable, Partway, Draws, StampedSome, Stamped, HeaderFor, Frame;
      packets, raised, drawn := map[], false, {};
      NothingDrawn(server, payload, isInt);
      if !open || |payload| >= U32 {
        raised := open;
        return;
      }
      var rest := clients.Keys;
      while rest != {}
        invariant Valid() && clients == old(clients) && rest <= clients.Keys
        invariant Partway(old(server), server, payload, isInt, rest, packets)
        decreases rest
      {
        var addr :| addr in rest;
        ghost var now := server;
        var packet, sendable := StateSyncFor(addr, payload, isInt);
        OneFurther(old(server), now, payload, isInt, rest, packets, addr, packet);
        if !sendable {
          CannotSendTo(old(server), addr, isInt);
          drawn := packets.Keys + {addr};
          packets, raised := map[], true;
          return;
        }
        rest, packets := rest - {addr}, packets[addr := packet];
      }
      EverythingDrawn(old(server), server, payload, isInt, packets);
      drawn := packets.Keys;
    }

    /** The packet for an intent sent to one client; None when there is no such client, or when
        packing raises (its number is drawn all the same). Without an address tuple or an open socket
        the packet is built but not sent. */
    method SendIntentToClient<M>(codec: Codec<IntentBody<M>>, addr: string, body: IntentBody<M>, open: bool)
      returns (packet: Option<seq<byte>>, sent: bool)
      requires Valid()
      modifies this`server, owner.Keys
      ensures Valid() && clients == old(clients)
      ensures server == Stamped(old(server), addr, PKT_INTENT)
      ensures packet == if addr !in clients then None
                        else Frame(HeaderFor(PKT_INTENT, old(server).clients[addr].tracker), codec.pack(body))
      ensures sent <==> packet.Some? && addr in old(server).clients && old(server).clients[addr].addressed && open
    {
      if addr !in clients {
        return None, false;
      }
      var h := Draw(addr, PKT_INTENT);
      packet := BuildIntent(codec, body, h.sequence, h.ack, h.ackBits);
      sent := packet.Some? && clients[addr].addressed && open;
    }

    /** The ping to send, empty for an unknown client; None when the clock reading does not fit its
        64 bits and packing raises. */
    method MeasureLatency(addr: string, now: int) returns (packet: Option<seq<byte>>)
      requires Valid()
      modifies this`server, owner.Keys
      ensures Valid() && clients == old(clients)
      ensures server == Stamped(old(server), addr, PKT_PING)
      ensures packet == if addr !in clients then Some([])
                        else BuildTimed(HeaderFor(PKT_PING, old(server).clients[addr].tracker), now)
    {
      if addr !in clients {
        return Some([]);
      }
      var h := Draw(addr, PKT_PING);
      packet := BuildTimed(h, now);
    }
  }
}

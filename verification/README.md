# EVOID plugins: models and proofs

A Dafny 4.11 model of the stateful parts of the EVOID plugin collection, with proofs of what they
keep over whole runs. `dafny verify dfyconfig.toml` checks all of it.

Every component has the same shape. A datatype is its state as a value; one function for each
operation says what that operation does to the state; a class with the source's own fields has methods,
with the source's loops, that are proved equal to those functions; lemmas over sequences of events
prove the properties. Clocks, load metrics, sockets, factories, health checks, remote attempts and the
serialisers are parameters, so every lemma holds for whatever they do.

| files | component |
|---|---|
| `Bytes`, `Bits`, `Packets` | the wire format of evoid-transport |
| `AckTracking`, `UdpServing` | Python sequence numbers, ack bitfield and packet stamping |
| `RustUdpServing` | the client table of the Rust server |
| `Heap`, `Scheduler`, `SchedulerOrder` | heapq as sift loops over a list, the scheduler engine on it, and its order among equals |
| `RustPriorityQueue` | the order in which entries leave the Rust queue |
| `Registry`, `ServiceRegistry`, `RoundRobin` | service index, resolution and load balancing |
| `Interference`, `Failover`, `Health` | failover routing, heartbeats and the dead-node sweep, with other tasks at work meanwhile |
| `ReplyProtocol` | forwarding an intent and awaiting its reply over an unreliable network |
| `DependencyEngine` | scoped instances, per-user eviction, fallback chains |
| `ChunkDelivery` | chunked delivery of game.pck and the loader's merge |

## Where the code and its documentation differ

The model follows the code.

- The scheduler's queue item is documented as ordered by priority, then by age. It compares by priority
  alone. Submissions of one priority come out in order exactly when they are at most three
  (`SchedulerOrder.EqualPrioritiesInOrderIff`, and four as an input in `SchedulerOrder.NotFifo`); that
  equals come out oldest first whatever the priorities is certain exactly for at most two
  (`SchedulerOrder.OldestFirstIsCertainIff`).
- Cancelling a deferred task calls `deque.remove`, which removes the first item that compares equal. A
  cancel that returns True ends its task exactly when the task is live or the first deferred one of its
  priority (`Scheduler.CancelEndsIff`); otherwise the task may still run (`Scheduler.CancelledTaskRuns`).
- The Rust queue documents FIFO among equal priorities. That holds exactly when the wall clock advances
  between pushes of one priority (`RustPriorityQueue.FifoNeedsClock`).
- `register_node` for a known id with fewer services leaves index entries behind. The bridge does this to
  its peers when `start` is called again, and its own `register_node` is public
  (`Registry.StepKeepsSoundIff`, `Registry.BareRegistrationLeavesStaleEntries`).
- `resolve` falls through to the wildcard when every exact node is down, `resolve_all` and the balanced
  form do not (`Registry.ResolveVersusResolveAll`).
- The sweep judges by its snapshot: a silent node that is heard from during the sweep, but before its
  turn, is taken offline all the same (`Health.HeardTooEarly`; which nodes exactly are online afterwards
  says `Health.OnlineAfterSweepIff`).
- The executing node encodes the error of a result as None. A caller is given its execution's own error
  text exactly when that execution raised, succeeded or had none
  (`ReplyProtocol.CallersGetTheirTextIff`, an input in `ReplyProtocol.ErrorTextIsLost`).
- A pending entry stays behind its caller, until a reply comes, when the send fails with anything but a
  timeout or the forwarding task is cancelled (`ReplyProtocol.PendingEntryIff`,
  `ReplyProtocol.RaisedSendLeavesEntry`).
- A negative `max_per_user` makes the first per-user resolution raise
  (`DependencyEngine.EvictionIsSafeIff`). A resolution that raises changes nothing exactly when it does not
  miss in a full cache (`DependencyEngine.RaisingResolutionChangesNothingIff`, an input in
  `DependencyEngine.FailedCreationEvicts`).
- A broadcast raises in the middle of its loop, with numbers drawn and nothing sent, when a client has no
  address tuple and its string does not split into a host and a port
  (`UdpServing.UdpServer.BroadcastStateSync`).
- The page's loader ignores response statuses, so without a game.pck it hands the 404 body to the engine
  (`ChunkDelivery.MissingFileIsNotNoticed`).

## Model

| member | source | states |
|---|---|---|
| `Bytes.DecodeEncode` | packages/evoid-transport/evoid_transport/__init__.py:67-75 | every number below 256^k survives k big-endian bytes |
| `Bytes.EncodeDecode` | packages/evoid-transport/evoid_transport/__init__.py:81-81 | every byte string is the encoding of the number it decodes to |
| `Bytes.EncodeAt` | packages/evoid-transport/evoid_transport/__init__.py:67-75 | the most significant byte comes first: byte i is the digit of weight 256^(k-1-i) |
| `Packets.HeaderRoundTrip` | packages/evoid-transport/evoid_transport/__init__.py:61-89 | building succeeds exactly for byte-sized types; what is built, whatever follows, parses to the type and the three numbers modulo 2^32 |
| `Packets.HeaderCanonical` | packages/evoid-transport/evoid_transport/__init__.py:78-89 | data that parses begins with exactly the bytes rebuilding its fields gives |
| `Packets.HeaderBijection` | packages/evoid-transport/evoid_transport/__init__.py:61-89 | on wire-sized fields building is injective and parsing its inverse |
| `Packets.HeaderLayout` | packages/evoid-transport/evoid_transport/__init__.py:61-75 | byte by byte: EVOI, 1, the type, then sequence, ack and bitfield modulo 2^32, each big-endian |
| `Packets.FrameRoundTrip` | packages/evoid-transport/evoid_transport/__init__.py:107-119 | a length-prefixed payload below 2^32 bytes comes back with its header, whatever is appended |
| `Packets.FrameTruncated` | packages/evoid-transport/evoid_transport/__init__.py:110-118 | every strict prefix of a packet is rejected |
| `Packets.FrameCanonical` | packages/evoid-transport/evoid_transport/__init__.py:110-119 | an accepted packet starts with the bytes its header and payload are built into |
| `Packets.FrameLayout` | packages/evoid-transport/evoid_transport/__init__.py:107-107 | behind the header lie the length in four big-endian bytes and the payload as it is |
| `Packets.PacketTypes` | packages/evoid-transport/evoid_transport/__init__.py:44-49 | intents carry type 1, state syncs 2, pings 5 and pongs 6 |
| `Packets.IntentRoundTrip` | packages/evoid-transport/evoid_transport/__init__.py:92-121 | with an inverse serialiser a built intent parses back, its prefixes parse to None, and the state-sync parser refuses it |
| `Packets.StateSyncRoundTrip` | packages/evoid-transport/evoid_transport/__init__.py:124-152 | the same for state-sync packets and the intent parser |
| `Packets.PayloadIsUnpacked` | packages/evoid-transport/evoid_transport/__init__.py:110-152 | for any serialiser, a framed payload is unpacked as an intent exactly when its type is 1 and as a state sync when it is 2; what unpacking raises is raised |
| `Packets.TimedRoundTrip` | packages/evoid-transport/evoid_transport/__init__.py:159-167 | a ping or pong yields its header and its 64-bit time |
| `Packets.TimedLayout` | packages/evoid-transport/evoid_transport/__init__.py:159-167 | behind the header lie exactly the eight big-endian bytes of the time |
| `AckTracking.AcceptIsSerialLess` | packages/evoid-transport/evoid_transport/__init__.py:185-188 | the accept test is the serial comparison of section 3.2 of RFC 1982 with SERIAL_BITS = 32 |
| `Bits.BitIsDigit` | packages/evoid-transport/evoid_transport/__init__.py:189-189 | bit i of the field is its binary digit of weight 2^i |
| `AckTracking.BitsRecordAdvances` | packages/evoid-transport/evoid_transport/__init__.py:185-190 | after any run, bit i is set exactly when the unwrapped number i below the highest was accepted as an advance |
| `AckTracking.RemoteIsUnwrappedModulo` | packages/evoid-transport/evoid_transport/__init__.py:185-190 | the remote sequence number is the unwrapped one modulo 2^32 |
| `AckTracking.MaskOnceIsMaskAlways` | packages/evoid-transport/evoid_transport/__init__.py:67-75 | masking the unbounded bitfield only when the header is built equals masking at every step |
| `AckTracking.StepNeedsWindow` | packages/evoid-transport/evoid_transport/__init__.py:185-190 | within one wrap of the highest number, a step tracks the maximum exactly when the number is at most 2^31 below and less than 2^31 above it |
| `AckTracking.TracksMaximum` | packages/evoid-transport/evoid_transport/__init__.py:185-190 | inside that window the tracker follows the running maximum across any number of wrap-arounds, and its advances are exactly the new maxima |
| `AckTracking.AckFieldIsSound` | packages/evoid-transport/evoid_transport/__init__.py:61-75 | on the wire, ack is the highest number received and bit i (i < 32) says whether the number i below arrived as a new highest |
| `AckTracking.FirstZeroIsLost` | packages/evoid-transport/evoid_transport/__init__.py:185-190 | packets numbered 0 before any other are never recorded |
| `AckTracking.AckTracker.NextSequence` | packages/evoid-transport/evoid_transport/__init__.py:180-183 | hands out the local number and moves to the next modulo 2^32 |
| `AckTracking.AckTracker.UpdateRemote` | packages/evoid-transport/evoid_transport/__init__.py:185-190 | is the modelled update, leaving the local number alone |
| `UdpServing.StampsAreConsecutive` | packages/evoid-transport/evoid_transport/__init__.py:236-267 | over any interleaving of registrations, datagrams, broadcasts (whole or broken off), intents and pings, the k-th header drawn for a client since it registered carries k modulo 2^32; client ids are distinct |
| `UdpServing.StampsAcknowledgeWhatWasHeard` | packages/evoid-transport/evoid_transport/__init__.py:241-243 | after any run a client's next header carries its count of packets as sequence and, as ack fields, the tracker's verdict on exactly the valid datagrams heard from it since it registered |
| `UdpServing.HeadersDrawn` | packages/evoid-transport/evoid_transport/__init__.py:400-451 | an intent, a ping and a state sync draw one header each, of type 1, 5 and 2, with the client's count and the verdict on what it sent; nobody else's header is drawn |
| `UdpServing.PongAnswersPing` | packages/evoid-transport/evoid_transport/__init__.py:260-267 | after any run, the pong to any full ping from a known client has the ping's own eight time bytes, type 6, the client's next number and the tracker's verdict on all it sent, this ping included; if the ping advances, its number as ack and bit 0 |
| `UdpServing.EveryPingIsAnswered` | packages/evoid-transport/evoid_transport/__init__.py:250-267 | a pong is built exactly for datagrams of type 5 with a valid header and eight more bytes, from known clients |
| `UdpServing.ClientsAreTheHolders` | packages/evoid-transport/evoid_transport/__init__.py:296-311 | over every run the client at an address has the name, address tuple and id of the last registration there not removed since; ids count registrations from 2 |
| `UdpServing.UdpServer.HandlePacket` | packages/evoid-transport/evoid_transport/__init__.py:236-254 | updates the sender's tracker, delivers parsed intents, answers pings; nobody else changes |
| `UdpServing.SecondPartSpec` | packages/evoid-transport/evoid_transport/__init__.py:409-412 | the port is read from what lies between the first colon and the second or the end; without a colon there is none |
| `UdpServing.AddressableIff` | packages/evoid-transport/evoid_transport/__init__.py:409-412 | a client can be sent to exactly with an address tuple, or when what follows the first colon, up to the next, is an integer |
| `UdpServing.UdpServer.BroadcastStateSync` | packages/evoid-transport/evoid_transport/__init__.py:388-417 | draws one number for every client, each packet framing the one payload under its own client's header; raises exactly when open and the payload is too long or some client has no address, and then sends nothing, having drawn no number or those up to the first such client |
| `UdpServing.UdpServer.SendIntentToClient` | packages/evoid-transport/evoid_transport/__init__.py:419-432 | stamps and frames an intent for a known client only, and sends it only to one with an address tuple |
| `UdpServing.UdpServer.MeasureLatency` | packages/evoid-transport/evoid_transport/__init__.py:443-451 | stamps a ping for a known client, empty bytes otherwise |
| `UdpServing.UdpServer.RegisterClient` | packages/evoid-transport/evoid_transport/__init__.py:296-305 | a new id and a fresh tracker, replacing any client at that address |
| `UdpServing.UdpServer.RemoveClient` | packages/evoid-transport/evoid_transport/__init__.py:307-311 | removes the client and returns its id and name, None if absent |
| `RustUdpServing.RunsAgree` | packages/evoid-transport/src/server.rs:62-109 | after any run the two maps have one domain and agree on ids, live ids are distinct and below the next id, and each id's packets are numbered 0, 1, 2, … modulo 2^32 |
| `RustUdpServing.NextPacketNumber` | packages/evoid-transport/src/server.rs:236-246 | the next packet of a live client carries the count of its earlier ones, and building it changes no other client |
| `RustUdpServing.ClientsAreTheirHistories` | packages/evoid-transport/src/server.rs:62-262 | over every run the client at an address is what its own registration, datagrams, packets and silence make of it: searching by id never reaches another |
| `RustUdpServing.UdpServer.RegisterClient` | packages/evoid-transport/src/server.rs:62-86 | a fresh id in both maps; the last u64 panics or wraps, and only wrapping breaks the invariant |
| `RustUdpServing.UdpServer.RemoveClient` | packages/evoid-transport/src/server.rs:88-93 | out of both maps, reporting id and name |
| `RustUdpServing.UdpServer.GetClientId` | packages/evoid-transport/src/server.rs:95-97 | the second map answers what the first one holds |
| `RustUdpServing.UdpServer.NextSequence` | packages/evoid-transport/src/server.rs:236-246 | the scan in hash order finds the one client with the id; 0 if there is none |
| `RustUdpServing.UdpServer.GetAckState` | packages/evoid-transport/src/server.rs:248-256 | the ack fields of the one client with the id, zeros if there is none |
| `RustUdpServing.UdpServer.BuildHeader` | packages/evoid-transport/src/server.rs:111-120 | number and ack fields of a packet, drawing one number; all 0 for an unknown id |
| `RustUdpServing.UdpServer.ProcessIncoming` | packages/evoid-transport/src/server.rs:182-190 | a known sender's ack fields and time are replaced, nothing else |
| `RustUdpServing.UdpServer.CleanupStale` | packages/evoid-transport/src/server.rs:215-234 | removes exactly the stale clients from both maps and reports each once |
| `Heap.PushIsHeap` | packages/evoid-scheduler/evoid_scheduler/engine.py:132-141 | pushing keeps the heap order and adds just the item |
| `Heap.PopTakesLeast` | packages/evoid-scheduler/evoid_scheduler/engine.py:143-146 | popping takes an item of least negated priority and leaves a heap of the others |
| `Heap.EqualChildrenGoRight` | packages/evoid-scheduler/evoid_scheduler/engine.py:143-146 | on the way down a smallest child moves up, of equal ones the right |
| `Heap.HeapPush` | packages/evoid-scheduler/evoid_scheduler/engine.py:132-141 | the sift loop computes the modelled push |
| `Heap.HeapPop` | packages/evoid-scheduler/evoid_scheduler/engine.py:143-146 | the hole-moving loops compute the modelled pop |
| `Scheduler.DequeueSpec` | packages/evoid-scheduler/evoid_scheduler/engine.py:143-150 | a live task of maximal priority, None exactly when none is live; only cancelled entries, each at least as urgent, are thrown away |
| `Scheduler.DeferredCancelRemoves` | packages/evoid-scheduler/evoid_scheduler/engine.py:171-182 | cancelling a deferred id removes the first item of its priority, itself exactly when no earlier one has that priority |
| `Scheduler.CancelEndsIff` | packages/evoid-scheduler/evoid_scheduler/engine.py:171-182 | in every reachable state, a cancel that returns True ends its task exactly when that is live or the first deferred one of its priority; otherwise it goes on waiting |
| `Scheduler.CancelledTaskRuns` | packages/evoid-scheduler/evoid_scheduler/engine.py:171-182 | an input: the second of two deferred tasks is cancelled with success, the first is removed, and the second is dequeued later |
| `Scheduler.RunKeepsInv` | packages/evoid-scheduler/evoid_scheduler/engine.py:152-214 | conservation: each issued id has one fate, the live and deferred ones are exactly those held, each live id has exactly one heap entry, deferral holds at most 1000 |
| `Scheduler.StepMovesFates` | packages/evoid-scheduler/evoid_scheduler/engine.py:152-214 | the only changes of fate: live to dispatched or cancelled, waiting to live or removed |
| `Scheduler.FinalFatesStay` | packages/evoid-scheduler/evoid_scheduler/engine.py:152-214 | a dispatched, cancelled, removed or dropped id keeps that fate over every continuation |
| `Scheduler.DropsOnlyWhenFull` | packages/evoid-scheduler/evoid_scheduler/engine.py:158-166 | a submission is dropped exactly below NORMAL, overloaded, with deferral enabled and 1000 deferred |
| `Scheduler.GoneForGood` | packages/evoid-scheduler/evoid_scheduler/engine.py:143-182 | a cancelled, removed, dropped or dispatched task is never dequeued afterwards |
| `Scheduler.Refines` | packages/evoid-scheduler/evoid_scheduler/engine.py:132-214 | in every reachable state the four operations act as on a plain map of live tasks and a queue |
| `Scheduler.QueueSize` | packages/evoid-scheduler/evoid_scheduler/engine.py:187-189 | queue_size is the live tasks plus the cancelled ones not yet popped |
| `Scheduler.HeapSeesPushesOnly` | packages/evoid-scheduler/evoid_scheduler/engine.py:132-214 | submitting pushes the one item, processing pushes deferral in its order, cancelling leaves the heap as it is |
| `SchedulerOrder.EqualPrioritiesInOrderIff` | packages/evoid-scheduler/evoid_scheduler/engine.py:52-59 | n submissions of one priority are drained in the order they were made exactly when n is at most 3; from 4 on the third comes out second |
| `SchedulerOrder.OldestFirstIsCertainIff` | packages/evoid-scheduler/evoid_scheduler/engine.py:52-59 | every assignment of priorities to n submissions drains oldest first among equals exactly when n is at most 2 |
| `SchedulerOrder.NotFifo` | packages/evoid-scheduler/evoid_scheduler/engine.py:52-59 | an input: after four equal submissions and one dequeue, the third is next while the second is live |
| `Scheduler.SchedulerEngine.SubmitTask` | packages/evoid-scheduler/evoid_scheduler/engine.py:152-169 | the modelled submission under the next id |
| `Scheduler.SchedulerEngine.DequeueItem` | packages/evoid-scheduler/evoid_scheduler/engine.py:143-150 | the loop is the modelled dequeue |
| `Scheduler.SchedulerEngine.CancelTask` | packages/evoid-scheduler/evoid_scheduler/engine.py:171-182 | the loop and deque.remove are the modelled cancel |
| `Scheduler.SchedulerEngine.ProcessDeferredTasks` | packages/evoid-scheduler/evoid_scheduler/engine.py:199-214 | unless overloaded all of deferral is enqueued and its ids returned in order |
| `RustPriorityQueue.DrainIsSorted` | packages/evoid-scheduler/src/queue.rs:17-23 | every drain is a permutation with falling priorities and, at equal priority, rising timestamps |
| `RustPriorityQueue.PushedIsPoppedOrHeld` | packages/evoid-scheduler/src/queue.rs:50-66 | over every history what was pushed is what was popped and what is in the heap |
| `RustPriorityQueue.MostUrgentIsPopped` | packages/evoid-scheduler/src/queue.rs:17-66 | at every pop of every history the entry taken has a priority at least that of each entry still held, and at equal priority a timestamp no later |
| `RustPriorityQueue.FifoNeedsClock` | packages/evoid-scheduler/src/queue.rs:31-34 | over every interleaving of pushes and pops, and however ties are broken, FIFO among equal priorities, exactly when the clock strictly advanced between their pushes |
| `RustPriorityQueue.PriorityQueue.Push` | packages/evoid-scheduler/src/queue.rs:50-60 | adds the entry |
| `RustPriorityQueue.PriorityQueue.Pop` | packages/evoid-scheduler/src/queue.rs:64-66 | removes an entry of greatest priority, and of those with no later timestamp than any other; None when empty |
| `RustPriorityQueue.PriorityQueue.Peek` | packages/evoid-scheduler/src/queue.rs:79-83 | shows the id and priority of such an entry and removes nothing |
| `RustPriorityQueue.PriorityQueue.Clear` | packages/evoid-scheduler/src/queue.rs:86-88 | empties the heap |
| `Registry.RunKeepsComplete` | packages/evoid-cluster/evoid_cluster/registry.py:28-68 | over every run each service of each node indexes it, and index lists are non-empty without duplicates |
| `Registry.StepKeepsSoundIff` | packages/evoid-cluster/evoid_cluster/registry.py:28-68 | a step keeps every entry backed by its node exactly unless it re-registers an id without one of its old services |
| `Registry.IndexIsInverse` | packages/evoid-cluster/evoid_cluster/registry.py:28-68 | with such registrations only, the index is the exact inverse of the nodes' lists after every run |
| `Registry.EntriesMove` | packages/evoid-cluster/evoid_cluster/registry.py:28-68 | in each pattern's list a new entry goes to the end, a dropped one is taken out, and an update leaves the services a node keeps where they are |
| `Registry.WithoutInOrder` | packages/evoid-cluster/evoid_cluster/registry.py:37-47 | taking an entry out moves no other |
| `Registry.NodesAreTheirHistories` | packages/evoid-cluster/evoid_cluster/registry.py:28-132 | over every run a node is what the events about it make of it: last registration, services, status and heartbeat |
| `Registry.BareRegistrationLeavesStaleEntries` | packages/evoid-cluster/evoid_cluster/bridge.py:242-249 | a known peer registered anew without services keeps its old entries, even after it is unregistered |
| `Registry.AnnouncementIsIndexed` | packages/evoid-cluster/evoid_cluster/bridge.py:205-211 | an announcement from a known node indexes it under exactly those services, a stranger's is ignored |
| `Registry.WithdrawalClearsIff` | packages/evoid-cluster/evoid_cluster/bridge.py:213-215 | a withdrawal clears the node from the index exactly when it had no stale entry |
| `Registry.WildcardSpec` | packages/evoid-cluster/evoid_cluster/registry.py:77-81 | the wildcard of a name is its part before the first colon with ":*" |
| `Registry.OnlyOnlineNodes` | packages/evoid-cluster/evoid_cluster/registry.py:70-118 | none of the three resolutions returns a node that is not online |
| `Registry.ResolveSpec` | packages/evoid-cluster/evoid_cluster/registry.py:70-81 | the first online node of the exact list, else the first of the wildcard's, None exactly when neither has one |
| `Registry.ResolveAllSpec` | packages/evoid-cluster/evoid_cluster/registry.py:100-106 | exactly the online nodes listed for the name, or for its wildcard when the name has no list |
| `Registry.AllHealthyInOrder` | packages/evoid-cluster/evoid_cluster/registry.py:100-106 | in list order |
| `Registry.ResolveVersusResolveAll` | packages/evoid-cluster/evoid_cluster/registry.py:70-106 | resolve gives the head of resolve_all, and something where that is empty exactly when all exact nodes are down and a wildcard node is up |
| `ServiceRegistry.ServiceRegistry.RegisterNode` | packages/evoid-cluster/evoid_cluster/registry.py:28-35 | the loop over services, on shared node objects, is the modelled registration |
| `ServiceRegistry.ServiceRegistry.UnregisterNode` | packages/evoid-cluster/evoid_cluster/registry.py:37-47 | likewise for unregistering |
| `ServiceRegistry.ServiceRegistry.UpdateNodeServices` | packages/evoid-cluster/evoid_cluster/registry.py:49-68 | likewise for an update, in whatever order the sets are walked |
| `ServiceRegistry.ServiceRegistry.ResolveNode` | packages/evoid-cluster/evoid_cluster/registry.py:70-81 | the first healthy node, exact before wildcard |
| `ServiceRegistry.ServiceRegistry.ResolveLoadBalanced` | packages/evoid-cluster/evoid_cluster/registry.py:83-98 | the node under the cursor, which moves on |
| `ServiceRegistry.ServiceRegistry.ResolveAllNodes` | packages/evoid-cluster/evoid_cluster/registry.py:100-106 | the healthy nodes in list order |
| `ServiceRegistry.ServiceRegistry.MarkNode` | packages/evoid-cluster/evoid_cluster/registry.py:120-132 | changes the status of one known node only |
| `ServiceRegistry.ServiceRegistry.Perform` | packages/evoid-cluster/evoid_cluster/registry.py:28-132 | any of the operations, on shared node objects, is the modelled step |
| `RoundRobin.PicksCycle` | packages/evoid-cluster/evoid_cluster/registry.py:83-98 | the k-th pick for a name is the k-th healthy node after its cursor, cyclically, whatever other names are balanced in between |
| `RoundRobin.NextPickFollows` | packages/evoid-cluster/evoid_cluster/registry.py:83-98 | after a pick at position i the next one is at i + 1 modulo the number of nodes online by then, whatever registrations, statuses, heartbeats and other calls lie between |
| `RoundRobin.FirstPickIsFirst` | packages/evoid-cluster/evoid_cluster/registry.py:83-98 | the first call that finds somebody picks the head of the list |
| `RoundRobin.RoundRobinIsFair` | packages/evoid-cluster/evoid_cluster/registry.py:83-98 | of m calls each of the n healthy nodes gets floor(m/n) or ceil(m/n), from any reachable state |
| `RoundRobin.EachNodeOncePerRound` | packages/evoid-cluster/evoid_cluster/registry.py:83-98 | any n consecutive calls return each healthy node exactly once |
| `Failover.FailoverSpec` | packages/evoid-cluster/evoid_cluster/router.py:53-77 | whatever other tasks do to the registry meanwhile, the outcome of the first node in the initial resolve_all order that succeeds; if they do nothing, remote nodes tried before it end OFFLINE and no other status and no index entry changes |
| `Failover.FailedNodesGoDown` | packages/evoid-cluster/evoid_cluster/router.py:53-77 | from any reachable registry and with any interference: a remote node that failed is not online afterwards unless another task raised it after its attempt, and to every other node only other tasks did anything |
| `Failover.FailoverLeavesIndex` | packages/evoid-cluster/evoid_cluster/router.py:53-77 | with any interference, index and services end as the other tasks alone would leave them |
| `Failover.FailuresConserve` | packages/evoid-cluster/evoid_cluster/router.py:53-77 | the failed remote attempts of a call equal the drop in online nodes, and are at most that drop when other tasks take nodes down meanwhile |
| `Failover.FailedAttemptsAreBounded` | packages/evoid-cluster/evoid_cluster/router.py:53-77 | over any calls and events, between and during them, that bring no node online, failures together are at most the nodes online at the start |
| `Failover.IntentRouter.RouteFailingOver` | packages/evoid-cluster/evoid_cluster/router.py:53-77 | the loop over node objects, with other tasks changing the registry during every attempt, is the modelled failover |
| `Failover.IntentRouter.Route` | packages/evoid-cluster/evoid_cluster/router.py:38-51 | one attempt on the balanced or first node, statuses untouched |
| `Health.SweepTakesDown` | packages/evoid-cluster/evoid_cluster/health.py:77-80 | a sweep leaves no silent node online, if what happens to that node between its turns is harmless |
| `Health.SweepIsNodeByNode` | packages/evoid-cluster/evoid_cluster/health.py:77-80 | seen from one node, a sweep with arbitrary interruptions is those interruptions and, at the node's own turn if the snapshot has it silent, its change from ONLINE to OFFLINE |
| `Health.OnlineAfterSweepIff` | packages/evoid-cluster/evoid_cluster/health.py:77-80 | exactly which nodes are online after a sweep interrupted by heartbeats: silent ones heard from after their turn, others online before or heard from at all |
| `Health.HeardTooEarly` | packages/evoid-cluster/evoid_cluster/health.py:77-80 | an input: a node heard from during the sweep before its turn is taken offline with a recent last_seen |
| `Health.SweepLeavesIndex` | packages/evoid-cluster/evoid_cluster/health.py:77-80 | index and services end as the interruptions alone would leave them, and an uninterrupted sweep leaves the cursors |
| `Health.LastSeenIsLastHeard` | packages/evoid-cluster/evoid_cluster/health.py:50-58 | last_seen holds the time of the last heartbeat of each node |
| `Health.HappeningsAreEvents` | packages/evoid-cluster/evoid_cluster/health.py:50-58 | to the registry a heartbeat is the event that stamps the node and brings it online |
| `Health.SilentNodesAreNotRouted` | packages/evoid-cluster/evoid_cluster/health.py:60-82 | and until something brings it online none of the three resolutions returns it |
| `Health.HealthChecker.RecordHeartbeat` | packages/evoid-cluster/evoid_cluster/health.py:50-58 | last_seen is set, a known node is stamped and ONLINE |
| `Health.HealthChecker.HandleNodeOffline` | packages/evoid-cluster/evoid_cluster/health.py:104-108 | an online node goes offline, others are left alone |
| `Health.HealthChecker.SweepDeadNodes` | packages/evoid-cluster/evoid_cluster/health.py:77-80 | the loop over a snapshot, with heartbeats and registry changes between its turns, is the modelled sweep |
| `ReplyProtocol.RunKeepsInv` | packages/evoid-cluster/evoid_cluster/router.py:86-169 | over every interleaving of forwarding, sending, loss, duplication, execution, reply, timeout and cancellation: fresh ids, right entries, every message accounted for |
| `ReplyProtocol.CallersGetTheirAnswers` | packages/evoid-cluster/evoid_cluster/router.py:153-169 | a future is completed, and a caller served, only with what an execution of this intent by the addressed node yields: its value, its exception's text, or an error without text for a result without success |
| `ReplyProtocol.AnswersWereExecuted` | packages/evoid-cluster/evoid_cluster/router.py:116-151 | every answer on record is the end of an execution that the addressed node had under way |
| `ReplyProtocol.ForwardingBegins` | packages/evoid-cluster/evoid_cluster/router.py:86-101 | forwarding counts up, adds one waiting request with its entry and sends the intent under its id |
| `ReplyProtocol.ExecutionIsAnswered` | packages/evoid-cluster/evoid_cluster/router.py:129-151 | an execution that ends is answered once: a result with its success and value and the error None, or an error with the exception's text |
| `ReplyProtocol.FailedResultIsApologisedFor` | packages/evoid-cluster/evoid_cluster/router.py:141-151 | when sending the result raises, an error with that exception's text follows |
| `ReplyProtocol.CallersGetTheirTextIff` | packages/evoid-cluster/evoid_cluster/router.py:129-169 | over every interleaving, a caller is given the error text of the execution that answered it exactly if that raised, succeeded or had none |
| `ReplyProtocol.ReplyCompletes` | packages/evoid-cluster/evoid_cluster/router.py:153-169 | from any reachable state, a reply under a pending id drops the entry and completes the future if it still waits; no other request changes |
| `ReplyProtocol.UndisturbedExchange` | packages/evoid-cluster/evoid_cluster/router.py:86-161 | from any reachable state, a forward left undisturbed gives its caller the value, the exception's text or the textless error that the execution yields |
| `ReplyProtocol.ErrorTextIsLost` | packages/evoid-cluster/evoid_cluster/router.py:129-161 | an input: a result without success and with a text reaches its caller as RuntimeError(None) |
| `ReplyProtocol.SettledForGood` | packages/evoid-cluster/evoid_cluster/router.py:153-169 | a future completes at most once and a caller returns or raises at most once, whatever arrives later or again |
| `ReplyProtocol.LateReplyChangesNothing` | packages/evoid-cluster/evoid_cluster/router.py:153-169 | a reply after the timeout, or a second one, only leaves the network |
| `ReplyProtocol.SendEndsThreeWays` | packages/evoid-cluster/evoid_cluster/router.py:100-105 | from any reachable state a send ends in the wait, in a timeout without the entry, or in its own exception with it, and nothing else changes |
| `ReplyProtocol.TimerEndsTheWait` | packages/evoid-cluster/evoid_cluster/router.py:102-105 | a wait whose timer fires ends in a timeout without its entry, its future cancelled unless done |
| `ReplyProtocol.OtherwiseItWaits` | packages/evoid-cluster/evoid_cluster/router.py:102-105 | before that a wait neither times out nor returns |
| `ReplyProtocol.DoneIsCollected` | packages/evoid-cluster/evoid_cluster/router.py:102-102 | a caller whose future is done returns or raises its outcome |
| `ReplyProtocol.CancellationEndsTheWait` | packages/evoid-cluster/evoid_cluster/router.py:100-105 | cancelling the task ends send or wait, cancels an awaited future that is not done and leaves the entry |
| `ReplyProtocol.PendingEntryIff` | packages/evoid-cluster/evoid_cluster/router.py:97-105 | over every interleaving, an id is pending exactly if it is that of a request whose caller has not timed out and to which no reply has come |
| `ReplyProtocol.RaisedSendLeavesEntry` | packages/evoid-cluster/evoid_cluster/router.py:100-105 | a send that raises leaves its entry exactly if it is no timeout and no reply has come |
| `ReplyProtocol.Router.GenerateId` | packages/evoid-cluster/evoid_cluster/protocol.py:26-29 | a new counter value in every id |
| `ReplyProtocol.Router.ForwardRemote` | packages/evoid-cluster/evoid_cluster/router.py:86-98 | a waiting request under an id not pending and never used before |
| `ReplyProtocol.Router.FinishSend` | packages/evoid-cluster/evoid_cluster/router.py:100-105 | the end of the send: on to the await, out with the entry dropped by a timeout, or out with it left by any other exception |
| `ReplyProtocol.Router.HandleReply` | packages/evoid-cluster/evoid_cluster/router.py:153-169 | pops the entry and completes its future unless it is done |
| `ReplyProtocol.Router.DropTimedOut` | packages/evoid-cluster/evoid_cluster/router.py:103-105 | drops the entry of a request whose await timed out, be its future cancelled or done |
| `DependencyEngine.FallbackSpec` | packages/evoid-di/evoid_di/engine.py:311-346 | of the name and then its fallbacks, the first one registered, healthy and creating successfully, else the cluster's answer; exactly the candidates that raised become unhealthy |
| `DependencyEngine.AnySpec` | packages/evoid-di/evoid_di/engine.py:348-358 | the first name whose resolution with fallback is not None decides, and those behind it are not touched |
| `DependencyEngine.FailuresUseUpServices` | packages/evoid-di/evoid_di/engine.py:320-336 | each failed attempt takes one registered service out of the healthy ones, even in cyclic or repeated chains |
| `DependencyEngine.FailedAttemptsAreBounded` | packages/evoid-di/evoid_di/engine.py:302-346 | without mark_healthy, all failed attempts of a run are at most the services that are registered at its end and were not unhealthy at its start |
| `DependencyEngine.RunKeepsCache` | packages/evoid-di/evoid_di/engine.py:124-131 | the per-user cache holds at most max_per_user + 1 entries, one for each key, over every run |
| `DependencyEngine.ResolveGives` | packages/evoid-di/evoid_di/engine.py:104-136 | in every reachable engine, by scope: a transient is created anew and nothing kept; a per-user instance is its user's, or is created and kept as the youngest; a singleton is the one there is, or is created and kept; a constant is given as it is |
| `DependencyEngine.RaisingFactoriesRaise` | packages/evoid-di/evoid_di/engine.py:121-136 | where there is nothing to give again, a factory that raises makes the resolution raise |
| `DependencyEngine.UnknownServicesRaise` | packages/evoid-di/evoid_di/engine.py:110-117 | a service with routing rules, without registration or without factory raises and changes nothing |
| `DependencyEngine.EvictionIsSafeIff` | packages/evoid-di/evoid_di/engine.py:241-247 | the bound holds and eviction never deletes twice while iterating, over every run, exactly when max_per_user is not negative |
| `DependencyEngine.InstanceSurvives` | packages/evoid-di/evoid_di/engine.py:228-247 | an entry not cleared survives max_per_user cache misses less the entries younger than it |
| `DependencyEngine.OldestGoesNext` | packages/evoid-di/evoid_di/engine.py:241-247 | the bound is sharp: behind max_per_user younger entries the next miss evicts it |
| `DependencyEngine.SameInstanceAgain` | packages/evoid-di/evoid_di/engine.py:124-131 | a new instance is given again after up to max_per_user further misses, whatever the factory would make |
| `DependencyEngine.FailedLookupKeepsCacheIff` | packages/evoid-di/evoid_di/engine.py:124-131 | a lookup whose creation raises leaves the cache alone exactly if it finds its key or the cache is not full, and else drops the oldest entry |
| `DependencyEngine.RaisingResolutionChangesNothingIff` | packages/evoid-di/evoid_di/engine.py:104-136 | in every reachable engine, a resolution that raises changes nothing exactly if it does not miss in a full per-user cache |
| `DependencyEngine.FailedCreationEvicts` | packages/evoid-di/evoid_di/engine.py:128-131 | an input: with max_per_user 1 a third user's failed creation takes the first user's instance |
| `DependencyEngine.SingletonStays` | packages/evoid-di/evoid_di/engine.py:133-136 | the singleton of a name is the same over every run without clear_all, even when its service is registered anew |
| `DependencyEngine.SameSingletonAgain` | packages/evoid-di/evoid_di/engine.py:133-136 | what resolving a singleton gave is what it gives after every run without clear_all, whatever the factory would make |
| `DependencyEngine.WithoutUserSpec` | packages/evoid-di/evoid_di/engine.py:228-239 | clearing a user removes exactly that user's entries |
| `DependencyEngine.WithoutUserInOrder` | packages/evoid-di/evoid_di/engine.py:228-239 | and keeps the others in their order |
| `DependencyEngine.DIEngine.EvictPerUserIfNeeded` | packages/evoid-di/evoid_di/engine.py:241-247 | the loop drops the oldest entry and raises at its second turn |
| `DependencyEngine.DIEngine.RegisterService` | packages/evoid-di/evoid_di/engine.py:88-102 | replaces the factory and scope of one name, leaving cached instances alone |
| `DependencyEngine.DIEngine.SetFallbacks` | packages/evoid-di/evoid_di/engine.py:272-279 | replaces the fallback chain of one name |
| `DependencyEngine.DIEngine.Mark` | packages/evoid-di/evoid_di/engine.py:302-309 | adds one name to the unhealthy ones or takes it out |
| `DependencyEngine.DIEngine.Clear` | packages/evoid-di/evoid_di/engine.py:223-226 | empties both caches and nothing else |
| `DependencyEngine.DIEngine.ResolveService` | packages/evoid-di/evoid_di/engine.py:104-136 | the modelled resolution by scope |
| `DependencyEngine.DIEngine.ClearUserInstances` | packages/evoid-di/evoid_di/engine.py:228-239 | keeps the other users' entries in order |
| `DependencyEngine.DIEngine.ResolveFallingBack` | packages/evoid-di/evoid_di/engine.py:311-346 | primary and fallback loop are the modelled chain, and nothing is raised |
| `DependencyEngine.DIEngine.ResolveFirst` | packages/evoid-di/evoid_di/engine.py:348-358 | the first name whose fallback resolution is not None |
| `ChunkDelivery.CountCovers` | packages/evoid-godot/evoid_godot/hosting.py:67-71 | the advertised count is the least number of chunks covering the file |
| `ChunkDelivery.ChunkRange` | packages/evoid-godot/evoid_godot/hosting.py:276-300 | below the count a 206 with exactly its bytes and range, from the count on a 416 without body |
| `ChunkDelivery.NonpositiveChunkSize` | packages/evoid-godot/evoid_godot/hosting.py:276-300 | a chunk size of 0 gives empty chunks, a negative one the whole file as its first chunk and an exception for all others |
| `ChunkDelivery.ChunksPartition` | packages/evoid-godot/evoid_godot/hosting.py:276-300 | every byte of the file is in exactly one chunk |
| `ChunkDelivery.DownloadIsFile` | packages/evoid-godot/evoid_godot/hosting.py:369-385 | fetching the advertised chunks (one if that is 0) and merging gives back the file, for every size |
| `ChunkDelivery.DownloadIsWholeIff` | packages/evoid-godot/evoid_godot/hosting.py:369-385 | with an outdated manifest, exactly when at least as many chunks are fetched as the file has |
| `ChunkDelivery.MissingFileIsNotNoticed` | packages/evoid-godot/evoid_godot/hosting.py:255-262 | without the file the merged bytes are the 404 body |
| `ChunkDelivery.Merge` | packages/evoid-godot/evoid_godot/hosting.py:380-385 | the moving-offset loop concatenates the bodies |

## Left out

- Names and ids as text: "task-k" is the number k and "msg-c-ms" the pair (c, ms); both renderings are injective. A router's id counter starts once: no process restarts.
- The scheduler's neg_timestamp: it is stored but nothing compares or reads it.
- heapq and BinaryHeap are library code: heapq is written out as CPython's sift loops, BinaryHeap appears only as its contract that pop takes a greatest entry.
- Storage, cache, auth, Maubot, Jitsi, dashboard and task plugins: wrappers and table lookups.
- TLS, sockets, websockets, event loop, load metrics: oracles; the reconnect loop calls its helper with the wrong arguments and has no behaviour to state.
- msgpack, orjson, json and bincode: an inverse pair is a hypothesis of the round trips; the Rust packet bodies are not modelled.
- Locks in the Rust classes: each call is one step.
- RustUdpServing.RunsAgree: for fewer than 2^64 - 2 registrations, after which the id counter would wrap.
- ServiceRegistry.ServiceRegistry.RegisterNode: a list of services is a value, so the bridge appending to the configuration list that its own node shares is not seen.
- Closing the websocket of a node taken offline, and the list of sockets.
- send_to and send_to_all of the UDP server: they send given bytes and draw no number.
- DependencyEngine.DIEngine.ResolveService: factories and health checks do not re-enter the engine. Rule matching and the singletons of context-aware resolution are left out; its per-user entries are the GetImpl event.
- The size parameter of the chunk route is parsed text and left out.

/** Forwarding an intent to another node and waiting for its reply: pending futures keyed by message
    id, over a network that loses, duplicates and reorders. */
module ReplyProtocol {
  import opened Options

  type NodeId = string

  /** "msg-counter-milliseconds": the counter is the process's own and never repeats. */
  datatype MsgId = MsgId(counter: nat, millis: int)

  /** How an execution ended; a falsy result counts as a success without a value. */
  datatype Execution =
    | Returned(value: Option<string>, success: bool, error: Option<string>)
    | Raised(text: string)

  /** What a future is completed with: a value, or a RuntimeError of the text. */
  datatype Outcome = Value(value: Option<string>) | Failure(text: Option<string>)

  datatype Message =
    | Intent(source: NodeId, target: NodeId, id: MsgId, intent: string)
    | Result(source: NodeId, target: NodeId, id: MsgId, success: bool, value: Option<string>,
             error: Option<string>)
    | Error(source: NodeId, target: NodeId, id: MsgId, text: string)

  datatype Future = Waiting | Done(outcome: Outcome) | Cancelled

  /** What the coroutine that sends the intent and awaits the future has come to. */
  datatype Caller = Sending | Suspended | Got(outcome: Outcome) | TimedOut | SendRaised | Abandoned

  /** How the awaited send ends. It stands in the try whose except branch catches a TimeoutError. */
  datatype SendEnd = SendReturned | SendTimedOut | SendFailed

  datatype Request = Request(target: NodeId, id: MsgId, intent: string, future: Future, caller: Caller)

  /** One process: its id counter, its router's pending map into the requests made so far, and the
      intents of others that it is executing. */
  datatype Node = Node(counter: nat, pending: map<MsgId, nat>, requests: seq<Request>, running: multiset<Message>)

  // ---------- what a router does ----------

  /** Forwarding creates a fresh id with a pending future, and starts to send. */
  function Begin(n: Node, target: NodeId, intent: string, millis: int): (Node, MsgId) {
    var id := MsgId(n.counter + 1, millis);
    var request := Request(target, id, intent, Waiting, Sending);
    (n.(counter := n.counter + 1, pending := n.pending[id := |n.requests|], requests := n.requests + [request]), id)
  }

  function WithRequest(n: Node, k: nat, r: Request): Node {
    if k < |n.requests| then n.(requests := n.requests[k := r]) else n
  }

  /** A result or an error pops the entry and completes its future unless that is done already. */
  function Receive(n: Node, id: MsgId, outcome: Outcome): Node {
    if id !in n.pending then n
    else
      var k, popped := n.pending[id], n.(pending := n.pending - {id});
      if k < |n.requests| && n.requests[k].future == Waiting
      then WithRequest(popped, k, n.requests[k].(future := Done(outcome)))
      else popped
  }

  predicate CallerIs(n: Node, k: nat, caller: Caller) {
    k < |n.requests| && n.requests[k].caller == caller
  }

  /** The except branch: the entry goes, and the caller is told of a timeout. */
  function GiveUp(n: Node, k: nat): Node {
    if k < |n.requests|
    then WithRequest(n, k, n.requests[k].(caller := TimedOut)).(pending := n.pending - {n.requests[k].id})
    else n
  }

  /** The send ends. Any exception but a timeout passes the except branch by. */
  function EndSend(n: Node, k: nat, end: SendEnd): Node {
    if !CallerIs(n, k, Sending) then n
    else
      match end
      case SendReturned => WithRequest(n, k, n.requests[k].(caller := Suspended))
      case SendTimedOut => GiveUp(n, k)
      case SendFailed => WithRequest(n, k, n.requests[k].(caller := SendRaised))
  }

  /** wait_for's timer fires: the future is cancelled, the coroutine has still to run on. */
  function Expire(n: Node, k: nat): Node {
    if CallerIs(n, k, Suspended) && n.requests[k].future == Waiting
    then WithRequest(n, k, n.requests[k].(future := Cancelled))
    else n
  }

  /** ... and runs on into the except branch. It does so too when the timer fires between the
      completion of the future and the coroutine's turn. */
  function Reap(n: Node, k: nat): Node {
    if CallerIs(n, k, Suspended) && n.requests[k].future != Waiting then GiveUp(n, k) else n
  }

  /** The forwarding task itself is cancelled: nobody drops the entry. */
  function Abandon(n: Node, k: nat): Node {
    if CallerIs(n, k, Sending) then WithRequest(n, k, n.requests[k].(caller := Abandoned))
    else if CallerIs(n, k, Suspended) then
      var future := if n.requests[k].future == Waiting then Cancelled else n.requests[k].future;
      WithRequest(n, k, n.requests[k].(future := future, caller := Abandoned))
    else n
  }

  function Collect(n: Node, k: nat): Node {
    if CallerIs(n, k, Suspended) && n.requests[k].future.Done?
    then WithRequest(n, k, n.requests[k].(caller := Got(n.requests[k].future.outcome)))
    else n
  }

  /** The executing node passes None for the error of a result, whatever the result's own error is. */
  function Reply(m: Message, e: Execution): (r: Message)
    requires m.Intent?
    ensures !r.Intent? && r.source == m.target && r.target == m.source && r.id == m.id
  {
    match e
    case Returned(value, success, _) => Result(m.target, m.source, m.id, success, value, None)
    case Raised(text) => Error(m.target, m.source, m.id, text)
  }

  function OutcomeOf(m: Message): Outcome
    requires !m.Intent?
  {
    match m
    case Result(_, _, _, success, value, error) => if success then Value(value) else Failure(error)
    case Error(_, _, _, text) => Failure(Some(text))
  }

  /** The error text an execution has to report, if any. */
  function OwnText(e: Execution): Option<string> {
    match e
    case Returned(_, success, error) => if success then None else error
    case Raised(text) => Some(text)
  }

  /** The error text a caller is given, if any. */
  function TextOf(outcome: Outcome): Option<string> {
    if outcome.Failure? then outcome.text else None
  }

  // ---------- the cluster ----------

  /** answers records every end of an execution that a reply was made of, with the intent as it arrived. */
  datatype Cluster = Cluster(nodes: map<NodeId, Node>, network: multiset<Message>, answers: set<(Message, Execution)>)

  /** An intent is in the network once its send begins; Lose takes it if it is never sent. When the send
      of a result raises, an error follows it (ExecuteAndApologise), and Lose takes the result if it was
      not sent. */
  datatype Action =
    | Forward(node: NodeId, target: NodeId, intent: string, millis: int)
    | FinishSend(node: NodeId, request: nat, end: SendEnd)
    | OtherId(node: NodeId)
    | Lose(message: Message)
    | Duplicate(message: Message)
    | DeliverIntent(message: Message)
    | Execute(message: Message, execution: Execution)
    | ExecuteAndApologise(message: Message, execution: Execution, text: string)
    | Crash(message: Message)
    | DeliverReply(message: Message)
    | ExpireRequest(node: NodeId, request: nat)
    | ReapRequest(node: NodeId, request: nat)
    | AbandonRequest(node: NodeId, request: nat)
    | CollectRequest(node: NodeId, request: nat)

  function IdleNode(): Node {
    Node(0, map[], [], multiset{})
  }

  function Initial(ids: set<NodeId>): Cluster {
    Cluster(map n | n in ids :: IdleNode(), multiset{}, {})
  }

  /** The node an action concerns. */
  function Mover(a: Action): Option<NodeId> {
    match a
    case Forward(node, _, _, _) => Some(node)
    case FinishSend(node, _, _) => Some(node)
    case OtherId(node) => Some(node)
    case Lose(_) => None
    case Duplicate(_) => None
    case DeliverIntent(m) => Some(m.target)
    case Execute(m, _) => Some(m.target)
    case ExecuteAndApologise(m, _, _) => Some(m.target)
    case Crash(m) => Some(m.target)
    case DeliverReply(m) => Some(m.target)
    case ExpireRequest(node, _) => Some(node)
    case ReapRequest(node, _) => Some(node)
    case AbandonRequest(node, _) => Some(node)
    case CollectRequest(node, _) => Some(node)
  }

  /** Delivery needs the message, and every action the node it is about. */
  predicate Enabled(c: Cluster, a: Action) {
    && (Mover(a).Some? ==> Mover(a).value in c.nodes)
    && match a
       case Lose(m) => m in c.network
       case Duplicate(m) => m in c.network
       case DeliverIntent(m) => m in c.network && m.Intent?
       case DeliverReply(m) => m in c.network && !m.Intent?
       case Execute(m, _) => m.Intent? && m in c.nodes[m.target].running
       case ExecuteAndApologise(m, e, _) => m.Intent? && m in c.nodes[m.target].running && e.Returned?
       case Crash(m) => m in c.nodes[m.target].running
       case _ => true
  }

  /** What becomes of it. */
  function Moved(n: Node, a: Action): Node {
    match a
    case Forward(_, target, intent, millis) => Begin(n, target, intent, millis).0
    case FinishSend(_, k, end) => EndSend(n, k, end)
    case OtherId(_) => n.(counter := n.counter + 1)
    case DeliverIntent(m) => n.(running := n.running + multiset{m})
    case Execute(m, _) => n.(running := n.running - multiset{m})
    case ExecuteAndApologise(m, _, _) => n.(running := n.running - multiset{m})
    case Crash(m) => n.(running := n.running - multiset{m})
    case DeliverReply(m) => if m.Intent? then n else Receive(n, m.id, OutcomeOf(m))
    case ExpireRequest(_, k) => Expire(n, k)
    case ReapRequest(_, k) => Reap(n, k)
    case AbandonRequest(_, k) => Abandon(n, k)
    case CollectRequest(_, k) => Collect(n, k)
    case _ => n
  }

  function IntentMessage(c: Cluster, node: NodeId, target: NodeId, intent: string, millis: int): (m: Message)
    requires node in c.nodes
    ensures m.Intent? && m.source == node && m.target == target && m.intent == intent
  {
    Intent(node, target, Begin(c.nodes[node], target, intent, millis).1, intent)
  }

  function NetworkAfter(c: Cluster, a: Action): multiset<Message>
    requires Enabled(c, a)
  {
    match a
    case Forward(node, target, intent, millis) =>
      c.network + multiset{IntentMessage(c, node, target, intent, millis)}
    case Lose(m) => c.network - multiset{m}
    case Duplicate(m) => c.network + multiset{m}
    case DeliverIntent(m) => c.network - multiset{m}
    case DeliverReply(m) => c.network - multiset{m}
    case Execute(m, e) => c.network + multiset{Reply(m, e)}
    case ExecuteAndApologise(m, e, text) => c.network + multiset{Reply(m, e), Reply(m, Raised(text))}
    case _ => c.network
  }

  function NodesAfter(c: Cluster, a: Action): map<NodeId, Node>
    requires Enabled(c, a)
  {
    if Mover(a).None? then c.nodes else c.nodes[Mover(a).value := Moved(c.nodes[Mover(a).value], a)]
  }

  function AnswersAfter(c: Cluster, a: Action): set<(Message, Execution)> {
    match a
    case Execute(m, e) => c.answers + {(m, e)}
    case ExecuteAndApologise(m, e, text) => c.answers + {(m, e), (m, Raised(text))}
    case _ => c.answers
  }

  /** An action that is not possible changes nothing. */
  function Step(c: Cluster, a: Action): Cluster {
    if Enabled(c, a) then Cluster(NodesAfter(c, a), NetworkAfter(c, a), AnswersAfter(c, a)) else c
  }

  function Run(ids: set<NodeId>, actions: seq<Action>): Cluster {
    if actions == [] then Initial(ids) else Step(Run(ids, actions[..|actions| - 1]), actions[|actions| - 1])
  }

  // ---------- a node's own invariant ----------

  /** A waiting future has its entry unless its caller has timed out, a completed or timed-out one has
      none, and the caller gets nothing but the outcome of its future. */
  ghost predicate Consistent(n: Node, k: nat)
    requires k < |n.requests|
  {
    var r := n.requests[k];
    && (r.future == Waiting && r.caller != TimedOut ==> r.id in n.pending && n.pending[r.id] == k)
    && (r.future.Done? ==> r.id !in n.pending)
    && (r.caller.Got? ==> r.future == Done(r.caller.outcome))
    && (r.caller == TimedOut ==> r.id !in n.pending)
    && (r.caller == Sending || r.caller == SendRaised ==> r.future != Cancelled)
  }

  /** Ids are fresh, and the pending map has each unanswered request under its own id. */
  ghost predicate NodeInv(n: Node) {
    && (forall k | 0 <= k < |n.requests| :: n.requests[k].id.counter <= n.counter)
    && (forall j, k | 0 <= j < k < |n.requests| :: n.requests[j].id.counter < n.requests[k].id.counter)
    && (forall id | id in n.pending :: n.pending[id] < |n.requests| && n.requests[n.pending[id]].id == id)
    && (forall k | 0 <= k < |n.requests| :: Consistent(n, k))
  }

  /** The coroutine has returned or raised. */
  predicate Ended(caller: Caller) {
    caller != Sending && caller != Suspended
  }

  /** The same request, its future and its caller settled at most further. */
  predicate Settles(r: Request, r': Request) {
    && r'.target == r.target && r'.id == r.id && r'.intent == r.intent
    && (r.future != Waiting ==> r'.future == r.future)
    && (Ended(r.caller) ==> r'.caller == r.caller)
  }

  ghost predicate NodeStep(n: Node, n': Node) {
    && |n.requests| <= |n'.requests|
    && forall k | 0 <= k < |n.requests| :: Settles(n.requests[k], n'.requests[k])
  }

  /** No future is newly completed. */
  ghost predicate NothingDone(n: Node, n': Node) {
    forall k | 0 <= k < |n'.requests| && n'.requests[k].future.Done? ::
      k < |n.requests| && n.requests[k].future == n'.requests[k].future
  }

  lemma BeginKeeps(n: Node, target: NodeId, intent: string, millis: int)
    requires NodeInv(n)
    ensures NodeInv(Begin(n, target, intent, millis).0)
    ensures NodeStep(n, Begin(n, target, intent, millis).0)
    ensures NothingDone(n, Begin(n, target, intent, millis).0)
  {
    var (n', id) := Begin(n, target, intent, millis);
    forall k | 0 <= k < |n'.requests| ensures Consistent(n', k) {
      if k < |n.requests| {
        assert Consistent(n, k);
        assert n'.requests[k] == n.requests[k];
      }
    }
  }

  lemma SameId(n: Node, j: nat, k: nat)
    requires NodeInv(n) && j < |n.requests| && k < |n.requests| && n.requests[j].id == n.requests[k].id
    ensures j == k
  {
  }

  /** One request moves on, and its entry may be dropped. */
  function Replaced(n: Node, k: nat, r: Request, pending: map<MsgId, nat>): Node
    requires k < |n.requests|
  {
    n.(requests := n.requests[k := r], pending := pending)
  }

  lemma OthersStayConsistent(n: Node, k: nat, r: Request, pending: map<MsgId, nat>, j: nat)
    requires NodeInv(n) && k < |n.requests| && r.id == n.requests[k].id
    requires pending == n.pending || pending == n.pending - {r.id}
    requires j < |n.requests| && j != k
    ensures Consistent(Replaced(n, k, r, pending), j)
  {
    assert Consistent(n, j);
    if n.requests[j].id == r.id { SameId(n, j, k); }
  }

  lemma OneRequestSettles(n: Node, k: nat, r: Request, pending: map<MsgId, nat>)
    requires NodeInv(n) && k < |n.requests| && Settles(n.requests[k], r)
    requires pending == n.pending || pending == n.pending - {r.id}
    requires Consistent(Replaced(n, k, r, pending), k)
    ensures NodeInv(Replaced(n, k, r, pending)) && NodeStep(n, Replaced(n, k, r, pending))
    ensures (r.future.Done? ==> n.requests[k].future == r.future) ==> NothingDone(n, Replaced(n, k, r, pending))
  {
    hide Consistent;
    var n' := Replaced(n, k, r, pending);
    forall j | 0 <= j < |n'.requests| ensures Consistent(n', j) {
      if j != k { OthersStayConsistent(n, k, r, pending, j); }
    }
  }

  lemma KeepsOwnConsistency(n: Node, k: nat)
    requires k < |n.requests| && Consistent(n, k) && n.requests[k].future != Waiting
    ensures Consistent(n.(pending := n.pending - {n.requests[k].id}), k)
  {
  }

  /** The entry of an id that is no longer waited for may go. */
  lemma EntryDropped(n: Node, id: MsgId)
    requires NodeInv(n) && id in n.pending && n.requests[n.pending[id]].future != Waiting
    ensures NodeInv(n.(pending := n.pending - {id})) && NodeStep(n, n.(pending := n.pending - {id}))
  {
    hide Consistent;
    var k := n.pending[id];
    KeepsOwnConsistency(n, k);
    assert n.requests[k := n.requests[k]] == n.requests;
    assert Replaced(n, k, n.requests[k], n.pending - {id}) == n.(pending := n.pending - {id});
    OneRequestSettles(n, k, n.requests[k], n.pending - {id});
  }

  lemma ReceiveKeeps(n: Node, id: MsgId, outcome: Outcome)
    requires NodeInv(n)
    ensures NodeInv(Receive(n, id, outcome)) && NodeStep(n, Receive(n, id, outcome))
    ensures forall k | 0 <= k < |n.requests| && Receive(n, id, outcome).requests[k].future.Done? ::
              || n.requests[k].future.Done?
              || (n.requests[k].id == id && Receive(n, id, outcome).requests[k].future.outcome == outcome)
    ensures |Receive(n, id, outcome).requests| == |n.requests|
  {
    if id in n.pending {
      var k := n.pending[id];
      assert Consistent(n, k);
      if n.requests[k].future == Waiting {
        OneRequestSettles(n, k, n.requests[k].(future := Done(outcome)), n.pending - {id});
      } else {
        EntryDropped(n, id);
      }
    }
  }

  lemma ExpireKeeps(n: Node, k: nat)
    requires NodeInv(n)
    ensures NodeInv(Expire(n, k)) && NodeStep(n, Expire(n, k)) && NothingDone(n, Expire(n, k))
  {
    if Expire(n, k) != n {
      assert Consistent(n, k);
      OneRequestSettles(n, k, n.requests[k].(future := Cancelled), n.pending);
    }
  }

  lemma AbandonKeeps(n: Node, k: nat)
    requires NodeInv(n)
    ensures NodeInv(Abandon(n, k)) && NodeStep(n, Abandon(n, k)) && NothingDone(n, Abandon(n, k))
  {
    if Abandon(n, k) != n {
      assert Consistent(n, k);
      OneRequestSettles(n, k, Abandon(n, k).requests[k], n.pending);
    }
  }

  lemma CollectKeeps(n: Node, k: nat)
    requires NodeInv(n)
    ensures NodeInv(Collect(n, k)) && NodeStep(n, Collect(n, k)) && NothingDone(n, Collect(n, k))
  {
    if Collect(n, k) != n {
      assert Consistent(n, k);
      OneRequestSettles(n, k, n.requests[k].(caller := Got(n.requests[k].future.outcome)), n.pending);
    }
  }

  lemma GiveUpKeeps(n: Node, k: nat)
    requires NodeInv(n) && k < |n.requests| && !Ended(n.requests[k].caller)
    ensures NodeInv(GiveUp(n, k)) && NodeStep(n, GiveUp(n, k)) && NothingDone(n, GiveUp(n, k))
  {
    assert Consistent(n, k);
    OneRequestSettles(n, k, n.requests[k].(caller := TimedOut), n.pending - {n.requests[k].id});
  }

  lemma StandsStill(n: Node)
    ensures NodeStep(n, n) && NothingDone(n, n)
  {
  }

  lemma ReapKeeps(n: Node, k: nat)
    requires NodeInv(n)
    ensures NodeInv(Reap(n, k)) && NodeStep(n, Reap(n, k)) && NothingDone(n, Reap(n, k))
  {
    hide GiveUp;
    StandsStill(n);
    if CallerIs(n, k, Suspended) && n.requests[k].future != Waiting { GiveUpKeeps(n, k); }
  }

  lemma EndSendKeeps(n: Node, k: nat, end: SendEnd)
    requires NodeInv(n)
    ensures NodeInv(EndSend(n, k, end)) && NodeStep(n, EndSend(n, k, end)) && NothingDone(n, EndSend(n, k, end))
  {
    hide GiveUp;
    StandsStill(n);
    if CallerIs(n, k, Sending) {
      assert Consistent(n, k);
      match end
      case SendReturned => OneRequestSettles(n, k, n.requests[k].(caller := Suspended), n.pending);
      case SendTimedOut => GiveUpKeeps(n, k);
      case SendFailed => OneRequestSettles(n, k, n.requests[k].(caller := SendRaised), n.pending);
    }
  }

  /** The other counters and the running executions are nobody's business here. */
  lemma AsideKeeps(n: Node, counter: nat, running: multiset<Message>)
    requires NodeInv(n) && counter >= n.counter
    ensures var n' := n.(counter := counter, running := running);
            NodeInv(n') && NodeStep(n, n') && NothingDone(n, n')
  {
    var n' := n.(counter := counter, running := running);
    forall k | 0 <= k < |n'.requests| ensures Consistent(n', k) { assert Consistent(n, k); }
  }

  // ---------- the cluster's invariant ----------

  predicate Asks(r: Request, m: Message) {
    m.Intent? && r.target == m.target && r.id == m.id && r.intent == m.intent
  }

  /** The intent was sent by its source for a request of its own. */
  ghost predicate Sent(c: Cluster, m: Message) {
    && m.Intent? && m.source in c.nodes
    && exists k | 0 <= k < |c.nodes[m.source].requests| :: Asks(c.nodes[m.source].requests[k], m)
  }

  /** The message is a reply to an intent that its sender executed. */
  ghost predicate Replied(c: Cluster, m: Message) {
    exists a | a in c.answers :: a.0.Intent? && m == Reply(a.0, a.1)
  }

  /** What a caller is to be given for an execution: its value, or an error with the text it raised and
      with no text for a result without success. */
  predicate Yields(e: Execution, outcome: Outcome) {
    match e
    case Returned(value, true, _) => outcome == Value(value)
    case Returned(_, false, _) => outcome == Failure(None)
    case Raised(text) => outcome == Failure(Some(text))
  }

  lemma RepliesYield(m: Message, e: Execution)
    requires m.Intent?
    ensures Yields(e, OutcomeOf(Reply(m, e)))
  {
  }

  /** The outcome is that of an execution, by the addressed node, of this very request's intent. */
  ghost predicate Answered(c: Cluster, node: NodeId, r: Request, outcome: Outcome) {
    exists a | a in c.answers :: a.0 == Intent(node, r.target, r.id, r.intent) && Yields(a.1, outcome)
  }

  ghost predicate NodesInv(c: Cluster) {
    forall node | node in c.nodes :: NodeInv(c.nodes[node])
  }

  ghost predicate TrafficInv(c: Cluster) {
    && (forall m | m in c.network :: if m.Intent? then Sent(c, m) else Replied(c, m))
    && (forall node, m | node in c.nodes && m in c.nodes[node].running :: Sent(c, m))
    && (forall a | a in c.answers :: Sent(c, a.0))
  }

  ghost predicate OutcomesInv(c: Cluster) {
    forall node, k | node in c.nodes && 0 <= k < |c.nodes[node].requests| && c.nodes[node].requests[k].future.Done? ::
      Answered(c, node, c.nodes[node].requests[k], c.nodes[node].requests[k].future.outcome)
  }

  ghost predicate Inv(c: Cluster) {
    NodesInv(c) && TrafficInv(c) && OutcomesInv(c)
  }

  /** No request is forgotten or rewritten, and answers are only added. */
  ghost predicate Grows(c: Cluster, c': Cluster) {
    && c.nodes.Keys == c'.nodes.Keys
    && c.answers <= c'.answers
    && forall node | node in c.nodes :: NodeStep(c.nodes[node], c'.nodes[node])
  }

  lemma SentGrows(c: Cluster, c': Cluster, m: Message)
    requires Grows(c, c') && Sent(c, m)
    ensures Sent(c', m)
  {
    var k :| 0 <= k < |c.nodes[m.source].requests| && Asks(c.nodes[m.source].requests[k], m);
    assert Settles(c.nodes[m.source].requests[k], c'.nodes[m.source].requests[k]);
    assert Asks(c'.nodes[m.source].requests[k], m);
  }

  /** One node moves, the others stand still. */
  lemma OneNodeMoves(c: Cluster, c': Cluster, node: NodeId, n': Node)
    requires NodesInv(c) && node in c.nodes && NodeInv(n') && NodeStep(c.nodes[node], n')
    requires c'.nodes == c.nodes[node := n'] && c.answers <= c'.answers
    ensures NodesInv(c') && Grows(c, c')
  {
    hide NodeInv;
  }

  lemma NoNodeMoves(c: Cluster, c': Cluster)
    requires NodesInv(c) && c'.nodes == c.nodes && c.answers <= c'.answers
    ensures NodesInv(c') && Grows(c, c')
  {
    hide NodeInv;
  }

  lemma MovedKeeps(n: Node, a: Action)
    requires NodeInv(n)
    ensures NodeInv(Moved(n, a)) && NodeStep(n, Moved(n, a))
    ensures a.DeliverReply? || NothingDone(n, Moved(n, a))
  {
    hide Begin, EndSend, Receive, Expire, Reap, Abandon, Collect, NodeInv;
    AsideKeeps(n, n.counter, n.running);
    match a
    case Forward(_, target, intent, millis) => BeginKeeps(n, target, intent, millis);
    case FinishSend(_, k, end) => EndSendKeeps(n, k, end);
    case OtherId(_) => AsideKeeps(n, n.counter + 1, n.running);
    case DeliverIntent(m) => AsideKeeps(n, n.counter, n.running + multiset{m});
    case Execute(m, _) => AsideKeeps(n, n.counter, n.running - multiset{m});
    case ExecuteAndApologise(m, _, _) => AsideKeeps(n, n.counter, n.running - multiset{m});
    case Crash(m) => AsideKeeps(n, n.counter, n.running - multiset{m});
    case DeliverReply(m) => if !m.Intent? { ReceiveKeeps(n, m.id, OutcomeOf(m)); }
    case ExpireRequest(_, k) => ExpireKeeps(n, k);
    case ReapRequest(_, k) => ReapKeeps(n, k);
    case AbandonRequest(_, k) => AbandonKeeps(n, k);
    case CollectRequest(_, k) => CollectKeeps(n, k);
    case _ =>
  }

  lemma MoverIsThere(c: Cluster, a: Action)
    requires Enabled(c, a) && Mover(a).Some?
    ensures Mover(a).value in c.nodes
  {
  }

  lemma NodeOf(c: Cluster, node: NodeId)
    requires NodesInv(c) && node in c.nodes
    ensures NodeInv(c.nodes[node])
  {
  }

  lemma NodesStep(c: Cluster, a: Action)
    requires NodesInv(c)
    ensures NodesInv(Step(c, a)) && Grows(c, Step(c, a))
  {
    hide Moved, NetworkAfter, Enabled, NodeInv, NodeStep, Grows, NodesInv;
    if !Enabled(c, a) || Mover(a).None? {
      NoNodeMoves(c, Step(c, a));
    } else {
      MoverIsThere(c, a);
      var node := Mover(a).value;
      NodeOf(c, node);
      MovedKeeps(c.nodes[node], a);
      OneNodeMoves(c, Step(c, a), node, Moved(c.nodes[node], a));
    }
  }

  lemma LaunchIsSent(c: Cluster, a: Action)
    requires a.Forward? && Enabled(c, a)
    ensures Sent(Step(c, a), IntentMessage(c, a.node, a.target, a.intent, a.millis))
  {
    hide NetworkAfter;
    var n := c.nodes[a.node];
    assert Asks(Moved(n, a).requests[|n.requests|], IntentMessage(c, a.node, a.target, a.intent, a.millis));
  }

  lemma ExecuteIsReplied(c: Cluster, m: Message, e: Execution)
    requires m.Intent? && (m, e) in c.answers
    ensures Replied(c, Reply(m, e))
  {
    assert (m, e).0.Intent? && Reply(m, e) == Reply((m, e).0, (m, e).1);
  }

  /** Where each message in the network comes from. */
  lemma NetworkOrigin(c: Cluster, a: Action, m: Message)
    requires TrafficInv(c) && m in Step(c, a).network && m !in c.network
    ensures if m.Intent? then Sent(Step(c, a), m) else Replied(Step(c, a), m)
  {
    hide Moved, IntentMessage, Sent, Replied, TrafficInv;
    match a
    case Forward(_, _, _, _) => LaunchIsSent(c, a);
    case Execute(i, e) => ExecuteIsReplied(Step(c, a), i, e);
    case ExecuteAndApologise(i, e, text) =>
      ExecuteIsReplied(Step(c, a), i, e);
      ExecuteIsReplied(Step(c, a), i, Raised(text));
    case _ =>
  }

  lemma RunningMoves(n: Node, a: Action)
    ensures Moved(n, a).running
         == match a
            case DeliverIntent(m) => n.running + multiset{m}
            case Execute(m, _) => n.running - multiset{m}
            case ExecuteAndApologise(m, _, _) => n.running - multiset{m}
            case Crash(m) => n.running - multiset{m}
            case _ => n.running
  {
  }

  lemma RunningOrigin(c: Cluster, a: Action, node: NodeId, m: Message)
    requires node in Step(c, a).nodes && m in Step(c, a).nodes[node].running
    ensures (m in c.network && m.Intent?) || (node in c.nodes && m in c.nodes[node].running)
  {
    hide NetworkAfter, AnswersAfter, EndSend, Receive, Expire, Reap, Abandon, Collect;
    if Enabled(c, a) && Mover(a) == Some(node) { RunningMoves(c.nodes[node], a); }
  }

  lemma AnswerOrigin(c: Cluster, a: Action, x: (Message, Execution))
    requires x in Step(c, a).answers && x !in c.answers
    ensures exists node :: node in c.nodes && x.0 in c.nodes[node].running
  {
    hide Moved, NetworkAfter;
  }

  lemma RepliedGrows(c: Cluster, c': Cluster, m: Message)
    requires Grows(c, c') && Replied(c, m)
    ensures Replied(c', m)
  {
    var x :| x in c.answers && x.0.Intent? && m == Reply(x.0, x.1);
    assert x in c'.answers;
  }

  lemma TrafficStep(c: Cluster, a: Action)
    requires NodesInv(c) && TrafficInv(c)
    ensures TrafficInv(Step(c, a))
  {
    hide Step, Sent, Replied, Grows;
    var c' := Step(c, a);
    NodesStep(c, a);
    forall m | m in c'.network ensures if m.Intent? then Sent(c', m) else Replied(c', m) {
      if m !in c.network { NetworkOrigin(c, a, m); }
      else if m.Intent? { SentGrows(c, c', m); }
      else { RepliedGrows(c, c', m); }
    }
    forall node, m | node in c'.nodes && m in c'.nodes[node].running ensures Sent(c', m) {
      RunningOrigin(c, a, node, m);
      SentGrows(c, c', m);
    }
    forall x | x in c'.answers ensures Sent(c', x.0) {
      if x !in c.answers { AnswerOrigin(c, a, x); }
      SentGrows(c, c', x.0);
    }
  }

  lemma MovedByReply(n: Node, m: Message)
    ensures Moved(n, DeliverReply(m)) == if m.Intent? then n else Receive(n, m.id, OutcomeOf(m))
  {
  }

  /** Only a delivered reply completes a future, with its own outcome and under its own id. */
  lemma DoneOrigin(c: Cluster, a: Action, node: NodeId, k: nat)
    requires NodesInv(c) && node in c.nodes && k < |Step(c, a).nodes[node].requests|
    requires Step(c, a).nodes[node].requests[k].future.Done?
    requires k < |c.nodes[node].requests| ==> !c.nodes[node].requests[k].future.Done?
    ensures k < |c.nodes[node].requests|
    ensures && a.DeliverReply? && a.message in c.network && !a.message.Intent? && a.message.target == node
            && c.nodes[node].requests[k].id == a.message.id
            && Step(c, a).nodes[node].requests[k].future.outcome == OutcomeOf(a.message)
  {
    hide Moved, NetworkAfter, NodeInv;
    NodeOf(c, node);
    MovedKeeps(c.nodes[node], a);
    if a.DeliverReply? && !a.message.Intent? {
      ReceiveKeeps(c.nodes[node], a.message.id, OutcomeOf(a.message));
      assert Moved(c.nodes[node], a) == Receive(c.nodes[node], a.message.id, OutcomeOf(a.message)) by {
        MovedByReply(c.nodes[node], a.message);
      }
    }
    if a.DeliverReply? && a.message.Intent? { MovedByReply(c.nodes[node], a.message); }
  }

  /** A reply under a request's id answers that very request: ids never repeat. */
  lemma ReplyMatches(c: Cluster, node: NodeId, k: nat, m: Message)
    requires NodesInv(c) && TrafficInv(c)
    requires m in c.network && !m.Intent? && m.target == node && node in c.nodes
    requires k < |c.nodes[node].requests| && c.nodes[node].requests[k].id == m.id
    ensures Answered(c, node, c.nodes[node].requests[k], OutcomeOf(m))
  {
    hide NodeInv, Consistent;
    assert Replied(c, m);
    var x :| x in c.answers && x.0.Intent? && m == Reply(x.0, x.1);
    assert Sent(c, x.0);
    var j :| 0 <= j < |c.nodes[node].requests| && Asks(c.nodes[node].requests[j], x.0);
    NodeOf(c, node);
    RepliesYield(x.0, x.1);
    SameId(c.nodes[node], j, k);
  }

  lemma OutcomesStep(c: Cluster, a: Action)
    requires Inv(c)
    ensures OutcomesInv(Step(c, a))
  {
    hide Step, NodeInv;
    var c' := Step(c, a);
    NodesStep(c, a);
    forall node, k | node in c'.nodes && 0 <= k < |c'.nodes[node].requests| && c'.nodes[node].requests[k].future.Done?
      ensures Answered(c', node, c'.nodes[node].requests[k], c'.nodes[node].requests[k].future.outcome)
    {
      assert NodeStep(c.nodes[node], c'.nodes[node]);
      if k < |c.nodes[node].requests| && c.nodes[node].requests[k].future.Done? {
        assert Settles(c.nodes[node].requests[k], c'.nodes[node].requests[k]);
        var r := c.nodes[node].requests[k];
        var x :| x in c.answers && x.0 == Intent(node, r.target, r.id, r.intent)
                 && Yields(x.1, r.future.outcome);
        assert x in c'.answers;
      } else {
        DoneOrigin(c, a, node, k);
        ReplyMatches(c, node, k, a.message);
        assert Settles(c.nodes[node].requests[k], c'.nodes[node].requests[k]);
        var r := c.nodes[node].requests[k];
        var x :| x in c.answers && x.0 == Intent(node, r.target, r.id, r.intent)
                 && Yields(x.1, OutcomeOf(a.message));
        assert x in c'.answers;
      }
    }
  }

  // ---------- main results ----------

  lemma InitialInv(ids: set<NodeId>)
    ensures Inv(Initial(ids))
  {
  }

  lemma {:induction false} RunKeepsInv(ids: set<NodeId>, actions: seq<Action>)
    ensures Inv(Run(ids, actions)) && Run(ids, actions).nodes.Keys == ids
  {
    hide Step, NodesInv, TrafficInv, OutcomesInv;
    if actions == [] {
      InitialInv(ids);
    } else {
      var c, a := Run(ids, actions[..|actions| - 1]), actions[|actions| - 1];
      RunKeepsInv(ids, actions[..|actions| - 1]);
      NodesStep(c, a);
      TrafficStep(c, a);
      OutcomesStep(c, a);
    }
  }

  /** Over every interleaving: whatever a caller is given is what an execution by the addressed node, of
      this very request's intent, is to yield. */
  lemma CallersGetTheirAnswers(ids: set<NodeId>, actions: seq<Action>, node: NodeId, k: nat)
    requires node in Run(ids, actions).nodes && k < |Run(ids, actions).nodes[node].requests|
    ensures var c := Run(ids, actions);
            var r := c.nodes[node].requests[k];
            && (r.future.Done? ==> Answered(c, node, r, r.future.outcome))
            && (r.caller.Got? ==> Answered(c, node, r, r.caller.outcome))
            && (r.caller == TimedOut ==> r.id !in c.nodes[node].pending)
            && (r.future == Waiting && r.caller != TimedOut ==>
                  r.id in c.nodes[node].pending && c.nodes[node].pending[r.id] == k)
  {
    hide Step;
    RunKeepsInv(ids, actions);
    var n := Run(ids, actions).nodes[node];
    assert NodeInv(n);
    assert Consistent(n, k);
  }

  /** A future that is settled and a caller that has returned or raised stay as they are, whatever
      is delivered later or again. */
  lemma {:induction false} SettledForGood(
    ids: set<NodeId>, actions: seq<Action>, more: seq<Action>, node: NodeId, k: nat)
    requires node in Run(ids, actions).nodes && k < |Run(ids, actions).nodes[node].requests|
    ensures var c, c' := Run(ids, actions), Run(ids, actions + more);
            && node in c'.nodes && k < |c'.nodes[node].requests|
            && Settles(c.nodes[node].requests[k], c'.nodes[node].requests[k])
    decreases |more|
  {
    hide Step, NodesInv, TrafficInv, OutcomesInv, NodeInv;
    RunKeepsInv(ids, actions);
    if more == [] {
      assert actions + more == actions;
    } else {
      var front, last := more[..|more| - 1], more[|more| - 1];
      SettledForGood(ids, actions, front, node, k);
      assert (actions + more)[..|actions + more| - 1] == actions + front;
      var c := Run(ids, actions + front);
      RunKeepsInv(ids, actions + front);
      NodesStep(c, last);
      assert NodeStep(c.nodes[node], Step(c, last).nodes[node]);
    }
  }

  lemma DeliveredReply(c: Cluster, m: Message)
    requires !m.Intent? && m in c.network && m.target in c.nodes
    ensures Step(c, DeliverReply(m))
         == c.(network := c.network - multiset{m},
               nodes := c.nodes[m.target := Receive(c.nodes[m.target], m.id, OutcomeOf(m))])
  {
    hide Receive;
  }

  lemma NotDelivered(c: Cluster, m: Message)
    requires m !in c.network
    ensures Step(c, DeliverReply(m)) == c.(network := c.network - multiset{m})
  {
    hide NetworkAfter, NodesAfter;
    assert c.network - multiset{m} == c.network;
  }

  /** A reply to a request that has timed out, or has been answered before, changes nothing but the
      network. */
  lemma LateReplyChangesNothing(ids: set<NodeId>, actions: seq<Action>, m: Message, k: nat)
    requires !m.Intent? && m.target in Run(ids, actions).nodes
    requires k < |Run(ids, actions).nodes[m.target].requests|
    requires var r := Run(ids, actions).nodes[m.target].requests[k];
             r.id == m.id && (r.caller == TimedOut || r.future.Done?)
    ensures var c := Run(ids, actions);
            Step(c, DeliverReply(m)) == c.(network := c.network - multiset{m})
  {
    hide Run, TrafficInv, OutcomesInv, Step;
    RunKeepsInv(ids, actions);
    var c := Run(ids, actions);
    assert NodeInv(c.nodes[m.target]);
    assert Consistent(c.nodes[m.target], k);
    if m in c.network {
      DeliveredReply(c, m);
      assert c.nodes[m.target := c.nodes[m.target]] == c.nodes;
    } else {
      NotDelivered(c, m);
    }
  }

  /** The cluster with one request's future and caller changed, and its entry there or not. */
  function Changed(c: Cluster, node: NodeId, k: nat, future: Future, caller: Caller, keepsEntry: bool): Cluster
    requires node in c.nodes && k < |c.nodes[node].requests|
  {
    var n := c.nodes[node];
    var r := n.requests[k];
    c.(nodes := c.nodes[node := n.(
         requests := n.requests[k := Request(r.target, r.id, r.intent, future, caller)],
         pending := if keepsEntry then n.pending else n.pending - {r.id})])
  }

  lemma ReceiveCompletes(n: Node, id: MsgId, outcome: Outcome, k: nat)
    requires NodeInv(n) && k < |n.requests| && n.requests[k].id == id && id in n.pending
    ensures var r := n.requests[k];
            Receive(n, id, outcome)
            == n.(pending := n.pending - {id},
                  requests := n.requests[k := r.(future := if r.future == Waiting then Done(outcome) else r.future)])
  {
    SameId(n, k, n.pending[id]);
    assert n.requests[k := n.requests[k]] == n.requests;
  }

  lemma RunOne(ids: set<NodeId>, actions: seq<Action>, a: Action)
    ensures Run(ids, actions + [a]) == Step(Run(ids, actions), a)
  {
    hide Step;
    assert (actions + [a])[..|actions|] == actions;
  }

  /** What a reply completes a future with: the value of a success, else an error of its text. */
  function Carried(m: Message): Outcome
    requires !m.Intent?
  {
    if m.Error? then Failure(Some(m.text)) else if m.success then Value(m.value) else Failure(m.error)
  }

  /** A reply under a pending id drops the entry, and completes the future if that is still waiting;
      nobody else's request changes. */
  lemma ReplyCompletes(ids: set<NodeId>, actions: seq<Action>, m: Message, k: nat)
    requires !m.Intent? && m in Run(ids, actions).network && m.target in Run(ids, actions).nodes
    requires k < |Run(ids, actions).nodes[m.target].requests|
    requires Run(ids, actions).nodes[m.target].requests[k].id == m.id
    requires m.id in Run(ids, actions).nodes[m.target].pending
    ensures var c := Run(ids, actions);
            var r := c.nodes[m.target].requests[k];
            var future := if r.future == Waiting then Done(Carried(m)) else r.future;
            Run(ids, actions + [DeliverReply(m)])
            == Changed(c, m.target, k, future, r.caller, false).(network := c.network - multiset{m})
  {
    hide Step, Run, TrafficInv, OutcomesInv, NodeInv, Receive;
    RunKeepsInv(ids, actions);
    RunOne(ids, actions, DeliverReply(m));
    var c := Run(ids, actions);
    NodeOf(c, m.target);
    ReceiveCompletes(c.nodes[m.target], m.id, OutcomeOf(m), k);
    DeliveredReply(c, m);
  }

  lemma TextArrivesIff(e: Execution, outcome: Outcome)
    requires Yields(e, outcome)
    ensures TextOf(outcome) == OwnText(e) <==> e.Raised? || e.success || e.error.None?
  {
  }

  /** Over every interleaving: a caller is given the error text of the execution that answered it,
      exactly if that execution raised, succeeded or had none. */
  lemma CallersGetTheirTextIff(ids: set<NodeId>, actions: seq<Action>, node: NodeId, k: nat)
    requires node in Run(ids, actions).nodes && k < |Run(ids, actions).nodes[node].requests|
    requires Run(ids, actions).nodes[node].requests[k].caller.Got?
    ensures var c := Run(ids, actions);
            var r := c.nodes[node].requests[k];
            var m := Intent(node, r.target, r.id, r.intent);
            exists e: Execution | (m, e) in c.answers ::
              && Yields(e, r.caller.outcome)
              && (TextOf(r.caller.outcome) == OwnText(e) <==> e.Raised? || e.success || e.error.None?)
  {
    hide Run, Yields, TextOf, OwnText;
    CallersGetTheirAnswers(ids, actions, node, k);
    var c := Run(ids, actions);
    var r := c.nodes[node].requests[k];
    var x :| x in c.answers && x.0 == Intent(node, r.target, r.id, r.intent)
             && Yields(x.1, r.caller.outcome);
    TextArrivesIff(x.1, r.caller.outcome);
    assert (x.0, x.1) == x;
  }

  /** Forward, send, arrive, execute, reply, collect. */
  function Exchange(
    c: Cluster, node: NodeId, target: NodeId, intent: string, millis: int, e: Execution): seq<Action>
    requires node in c.nodes
  {
    var m, k := IntentMessage(c, node, target, intent, millis), |c.nodes[node].requests|;
    [Forward(node, target, intent, millis), FinishSend(node, k, SendReturned), DeliverIntent(m), Execute(m, e),
     DeliverReply(Reply(m, e)), CollectRequest(node, k)]
  }

  lemma RunSix(
    ids: set<NodeId>, actions: seq<Action>, a: Action, b: Action, c: Action, d: Action, e: Action, f: Action)
    ensures Run(ids, actions + [a, b, c, d, e, f])
         == Step(Step(Step(Step(Step(Step(Run(ids, actions), a), b), c), d), e), f)
  {
    hide Step, Run;
    RunOne(ids, actions, a);
    RunOne(ids, actions + [a], b);
    RunOne(ids, actions + [a] + [b], c);
    RunOne(ids, actions + [a] + [b] + [c], d);
    RunOne(ids, actions + [a] + [b] + [c] + [d], e);
    RunOne(ids, actions + [a] + [b] + [c] + [d] + [e], f);
    assert actions + [a] + [b] + [c] + [d] + [e] + [f] == actions + [a, b, c, d, e, f];
  }

  lemma ArriveAndExecute(c: Cluster, node: NodeId, target: NodeId, m: Message, e: Execution)
    requires m in c.network && m.Intent? && m.target == target && node in c.nodes && target in c.nodes
    ensures var c' := Step(Step(c, DeliverIntent(m)), Execute(m, e));
            && Reply(m, e) in c'.network && node in c'.nodes
            && c'.nodes[node].requests == c.nodes[node].requests && c'.nodes[node].pending == c.nodes[node].pending
  {
    var c2 := Step(c, DeliverIntent(m));
    assert m in c2.nodes[target].running;
    assert c2.nodes[node] == c.nodes[node].(running := c2.nodes[node].running);
    var c3 := Step(c2, Execute(m, e));
    assert c3.nodes[node] == c2.nodes[node].(running := c3.nodes[node].running);
  }

  /** Forwarding, arrival and execution leave a waiting request at home and its reply under way. */
  lemma Outward(c0: Cluster, node: NodeId, target: NodeId, intent: string, millis: int, e: Execution)
    requires node in c0.nodes && target in c0.nodes
    ensures var m, k := IntentMessage(c0, node, target, intent, millis), |c0.nodes[node].requests|;
            var c := Step(Step(Step(Step(c0, Forward(node, target, intent, millis)), FinishSend(node, k, SendReturned)),
                               DeliverIntent(m)), Execute(m, e));
            && Reply(m, e) in c.network && node in c.nodes
            && var n := c.nodes[node];
            && |n.requests| == k + 1
            && n.requests[k] == Request(target, m.id, intent, Waiting, Suspended)
            && m.id in n.pending && n.pending[m.id] == k
  {
    var m, k := IntentMessage(c0, node, target, intent, millis), |c0.nodes[node].requests|;
    var c1 := Step(c0, Forward(node, target, intent, millis));
    assert m in c1.network && target in c1.nodes;
    var c2 := Step(c1, FinishSend(node, k, SendReturned));
    assert m in c2.network && target in c2.nodes;
    assert c2.nodes[node].requests[k] == Request(target, m.id, intent, Waiting, Suspended);
    ArriveAndExecute(c2, node, target, m, e);
  }

  lemma Collected(c: Cluster, node: NodeId, k: nat)
    requires node in c.nodes && CallerIs(c.nodes[node], k, Suspended) && c.nodes[node].requests[k].future.Done?
    ensures var c' := Step(c, CollectRequest(node, k));
            && node in c'.nodes && k < |c'.nodes[node].requests|
            && c'.nodes[node].requests[k].caller == Got(c.nodes[node].requests[k].future.outcome)
  {
    hide NetworkAfter, AnswersAfter;
  }

  lemma Homeward(c: Cluster, node: NodeId, k: nat, reply: Message)
    requires !reply.Intent? && reply in c.network && reply.target == node && node in c.nodes
    requires k < |c.nodes[node].requests| && reply.id in c.nodes[node].pending && c.nodes[node].pending[reply.id] == k
    requires c.nodes[node].requests[k].future == Waiting && c.nodes[node].requests[k].caller == Suspended
    ensures var c' := Step(Step(c, DeliverReply(reply)), CollectRequest(node, k));
            && node in c'.nodes && k < |c'.nodes[node].requests|
            && c'.nodes[node].requests[k].caller == Got(OutcomeOf(reply))
  {
    hide Step;
    DeliveredReply(c, reply);
    Collected(Step(c, DeliverReply(reply)), node, k);
  }

  /** Left alone, a forwarded intent comes back as the outcome of its execution, with its error text
      exactly if it raised, succeeded or had none. */
  lemma UndisturbedExchange(
    ids: set<NodeId>, actions: seq<Action>, node: NodeId, target: NodeId, intent: string, millis: int, e: Execution)
    requires node in ids && target in ids
    ensures node in Run(ids, actions).nodes
    ensures var c := Run(ids, actions + Exchange(Run(ids, actions), node, target, intent, millis, e));
            var k := |Run(ids, actions).nodes[node].requests|;
            && node in c.nodes && k < |c.nodes[node].requests|
            && var caller := c.nodes[node].requests[k].caller;
            && caller.Got? && Yields(e, caller.outcome)
            && (TextOf(caller.outcome) == OwnText(e) <==> e.Raised? || e.success || e.error.None?)
  {
    hide Inv, Step, Run;
    RunKeepsInv(ids, actions);
    var c0 := Run(ids, actions);
    var k, m := |c0.nodes[node].requests|, IntentMessage(c0, node, target, intent, millis);
    var forward, finish := Forward(node, target, intent, millis), FinishSend(node, k, SendReturned);
    var deliver, execute := DeliverIntent(m), Execute(m, e);
    RunSix(ids, actions, forward, finish, deliver, execute, DeliverReply(Reply(m, e)), CollectRequest(node, k));
    Outward(c0, node, target, intent, millis, e);
    Homeward(Step(Step(Step(Step(c0, forward), finish), deliver), execute), node, k, Reply(m, e));
    RepliesYield(m, e);
    TextArrivesIff(e, OutcomeOf(Reply(m, e)));
  }

  /** The error text of a result without success is lost on the way: its caller is told None. */
  lemma ErrorTextIsLost(ids: set<NodeId>, node: NodeId, target: NodeId, intent: string, millis: int, e: Execution)
    requires node in ids && target in ids
    requires e.Returned? && !e.success && e.error.Some?
    ensures node in Initial(ids).nodes
    ensures var c := Run(ids, Exchange(Initial(ids), node, target, intent, millis, e));
            && node in c.nodes && |c.nodes[node].requests| > 0
            && c.nodes[node].requests[0].caller == Got(Failure(None))
            && OwnText(e) == e.error
  {
    hide Step;
    UndisturbedExchange(ids, [], node, target, intent, millis, e);
    assert Run(ids, []) == Initial(ids);
    var exchange := Exchange(Initial(ids), node, target, intent, millis, e);
    assert [] + exchange == exchange;
  }

  // ---------- where answers come from ----------

  /** The action ends an execution of the intent in this way. */
  predicate Ends(a: Action, m: Message, e: Execution) {
    match a
    case Execute(m', e') => m' == m && e' == e
    case ExecuteAndApologise(m', e', text) => m' == m && (e' == e || Raised(text) == e)
    case _ => false
  }

  ghost predicate ExecutedAt(ids: set<NodeId>, actions: seq<Action>, j: nat, m: Message, e: Execution)
    requires j < |actions|
  {
    var c := Run(ids, actions[..j]);
    Ends(actions[j], m, e) && m.Intent? && m.target in c.nodes && m in c.nodes[m.target].running
  }

  /** Every recorded answer is the end of an execution that its node had under way. */
  lemma {:induction false} AnswersWereExecuted(ids: set<NodeId>, actions: seq<Action>, m: Message, e: Execution)
    requires (m, e) in Run(ids, actions).answers
    ensures exists j | 0 <= j < |actions| :: ExecutedAt(ids, actions, j, m, e)
  {
    hide NodesAfter, NetworkAfter;
    var last := |actions| - 1;
    var front := actions[..last];
    if (m, e) in Run(ids, front).answers {
      AnswersWereExecuted(ids, front, m, e);
      var j :| 0 <= j < |front| && ExecutedAt(ids, front, j, m, e);
      assert front[..j] == actions[..j];
      assert ExecutedAt(ids, actions, j, m, e);
    } else {
      assert ExecutedAt(ids, actions, last, m, e);
    }
  }

  // ---------- how a caller's wait can end ----------

  lemma ChangedAgain(
    c: Cluster, node: NodeId, k: nat, future: Future, caller: Caller, caller': Caller, keepsEntry: bool)
    requires node in c.nodes && k < |c.nodes[node].requests|
    ensures Changed(Changed(c, node, k, future, caller, true), node, k, future, caller', keepsEntry)
         == Changed(c, node, k, future, caller', keepsEntry)
  {
    var n := c.nodes[node];
    var r := n.requests[k];
    var r1 := Request(r.target, r.id, r.intent, future, caller);
    var r2 := Request(r.target, r.id, r.intent, future, caller');
    assert n.requests[k := r1][k := r2] == n.requests[k := r2];
  }

  lemma TimerFires(c: Cluster, node: NodeId, k: nat)
    requires node in c.nodes && CallerIs(c.nodes[node], k, Suspended)
    ensures var future := c.nodes[node].requests[k].future;
            Step(c, ExpireRequest(node, k))
            == Changed(c, node, k, if future == Waiting then Cancelled else future, Suspended, true)
  {
    var n := c.nodes[node];
    assert n.requests[k := n.requests[k]] == n.requests && c.nodes[node := n] == c.nodes;
  }

  lemma TimedOutIsReaped(c: Cluster, node: NodeId, k: nat)
    requires node in c.nodes && CallerIs(c.nodes[node], k, Suspended) && c.nodes[node].requests[k].future != Waiting
    ensures Step(c, ReapRequest(node, k)) == Changed(c, node, k, c.nodes[node].requests[k].future, TimedOut, false)
  {
  }

  /** A wait whose timer fires ends in a timeout, without its entry; nothing else changes. */
  lemma TimerEndsTheWait(ids: set<NodeId>, actions: seq<Action>, node: NodeId, k: nat)
    requires node in Run(ids, actions).nodes && CallerIs(Run(ids, actions).nodes[node], k, Suspended)
    ensures var c := Run(ids, actions);
            var future := c.nodes[node].requests[k].future;
            Run(ids, actions + [ExpireRequest(node, k)] + [ReapRequest(node, k)])
            == Changed(c, node, k, if future == Waiting then Cancelled else future, TimedOut, false)
  {
    hide Run, Step;
    RunOne(ids, actions, ExpireRequest(node, k));
    RunOne(ids, actions + [ExpireRequest(node, k)], ReapRequest(node, k));
    var c := Run(ids, actions);
    TimerFires(c, node, k);
    TimedOutIsReaped(Step(c, ExpireRequest(node, k)), node, k);
    var future := Step(c, ExpireRequest(node, k)).nodes[node].requests[k].future;
    ChangedAgain(c, node, k, future, Suspended, TimedOut, false);
  }

  /** Until its timer fires or its future is done, a wait cannot end but by cancellation. */
  lemma OtherwiseItWaits(ids: set<NodeId>, actions: seq<Action>, node: NodeId, k: nat)
    requires node in Run(ids, actions).nodes && CallerIs(Run(ids, actions).nodes[node], k, Suspended)
    requires Run(ids, actions).nodes[node].requests[k].future == Waiting
    ensures Run(ids, actions + [ReapRequest(node, k)]) == Run(ids, actions)
    ensures Run(ids, actions + [CollectRequest(node, k)]) == Run(ids, actions)
  {
    hide Run;
    RunOne(ids, actions, ReapRequest(node, k));
    RunOne(ids, actions, CollectRequest(node, k));
    var c := Run(ids, actions);
    assert c.nodes[node := c.nodes[node]] == c.nodes;
  }

  /** A caller whose future is done collects its outcome. */
  lemma DoneIsCollected(ids: set<NodeId>, actions: seq<Action>, node: NodeId, k: nat)
    requires node in Run(ids, actions).nodes && CallerIs(Run(ids, actions).nodes[node], k, Suspended)
    requires Run(ids, actions).nodes[node].requests[k].future.Done?
    ensures var c := Run(ids, actions);
            var future := c.nodes[node].requests[k].future;
            Run(ids, actions + [CollectRequest(node, k)]) == Changed(c, node, k, future, Got(future.outcome), true)
  {
    hide Run;
    RunOne(ids, actions, CollectRequest(node, k));
  }

  /** Cancelling the task cancels a future that is awaited and not done, and leaves the entry. */
  lemma CancellationEndsTheWait(ids: set<NodeId>, actions: seq<Action>, node: NodeId, k: nat)
    requires node in Run(ids, actions).nodes && k < |Run(ids, actions).nodes[node].requests|
    requires !Ended(Run(ids, actions).nodes[node].requests[k].caller)
    ensures var c := Run(ids, actions);
            var r := c.nodes[node].requests[k];
            var future := if r.caller == Suspended && r.future == Waiting then Cancelled else r.future;
            Run(ids, actions + [AbandonRequest(node, k)]) == Changed(c, node, k, future, Abandoned, true)
  {
    hide Run;
    RunOne(ids, actions, AbandonRequest(node, k));
  }

  /** A send ends in the wait, in a timeout without the entry, or in its own exception with it. */
  lemma SendEndsThreeWays(ids: set<NodeId>, actions: seq<Action>, node: NodeId, k: nat)
    requires node in Run(ids, actions).nodes && CallerIs(Run(ids, actions).nodes[node], k, Sending)
    ensures var c := Run(ids, actions);
            var future := c.nodes[node].requests[k].future;
            && Run(ids, actions + [FinishSend(node, k, SendReturned)]) == Changed(c, node, k, future, Suspended, true)
            && Run(ids, actions + [FinishSend(node, k, SendTimedOut)]) == Changed(c, node, k, future, TimedOut, false)
            && Run(ids, actions + [FinishSend(node, k, SendFailed)]) == Changed(c, node, k, future, SendRaised, true)
  {
    hide Run;
    RunOne(ids, actions, FinishSend(node, k, SendReturned));
    RunOne(ids, actions, FinishSend(node, k, SendTimedOut));
    RunOne(ids, actions, FinishSend(node, k, SendFailed));
  }

  // ---------- what the others do ----------

  /** Forwarding counts up, adds a waiting request with its entry, and sends the intent. */
  lemma ForwardingBegins(c: Cluster, node: NodeId, target: NodeId, intent: string, millis: int)
    requires node in c.nodes
    ensures var n, id := c.nodes[node], MsgId(c.nodes[node].counter + 1, millis);
            Step(c, Forward(node, target, intent, millis))
            == c.(network := c.network + multiset{Intent(node, target, id, intent)},
                  nodes := c.nodes[node := Node(
                    n.counter + 1, n.pending[id := |n.requests|],
                    n.requests + [Request(target, id, intent, Waiting, Sending)], n.running)])
  {
  }

  /** The message that answers an intent; for a result its error is None, whatever it was. */
  predicate Answers(reply: Message, m: Message, e: Execution)
    requires m.Intent?
  {
    && !reply.Intent? && reply.source == m.target && reply.target == m.source && reply.id == m.id
    && match e
       case Returned(value, success, _) =>
         reply.Result? && reply.success == success && reply.value == value && reply.error == None
       case Raised(text) => reply.Error? && reply.text == text
  }

  /** An execution that ends is answered once, and on record. */
  lemma ExecutionIsAnswered(c: Cluster, m: Message, e: Execution) returns (reply: Message)
    requires m.Intent? && m.target in c.nodes && m in c.nodes[m.target].running
    ensures Answers(reply, m, e)
    ensures var n := c.nodes[m.target];
            Step(c, Execute(m, e))
            == Cluster(c.nodes[m.target := n.(running := n.running - multiset{m})], c.network + multiset{reply},
                       c.answers + {(m, e)})
  {
    reply := Reply(m, e);
  }

  /** When sending a result raises, an error follows it. */
  lemma FailedResultIsApologisedFor(c: Cluster, m: Message, e: Execution, text: string)
    returns (result: Message, error: Message)
    requires m.Intent? && m.target in c.nodes && m in c.nodes[m.target].running && e.Returned?
    ensures Answers(result, m, e) && Answers(error, m, Raised(text))
    ensures var n := c.nodes[m.target];
            Step(c, ExecuteAndApologise(m, e, text))
            == Cluster(c.nodes[m.target := n.(running := n.running - multiset{m})], c.network + multiset{result, error},
                       c.answers + {(m, e), (m, Raised(text))})
  {
    result, error := Reply(m, e), Reply(m, Raised(text));
  }

  /** Heartbeats and announcements use up ids. */
  lemma OthersUseIds(c: Cluster, node: NodeId)
    requires node in c.nodes
    ensures Step(c, OtherId(node)) == c.(nodes := c.nodes[node := c.nodes[node].(counter := c.nodes[node].counter + 1)])
  {
  }

  /** Any message may be lost at any time, or doubled; nothing else changes then. */
  lemma MessagesAreLost(c: Cluster, m: Message)
    requires m in c.network
    ensures Step(c, Lose(m)) == c.(network := c.network - multiset{m})
  {
  }

  lemma MessagesAreDoubled(c: Cluster, m: Message)
    requires m in c.network
    ensures Step(c, Duplicate(m)) == c.(network := c.network + multiset{m})
  {
  }

  /** An intent that arrives is executed from then on. */
  lemma ArrivalStartsExecution(c: Cluster, m: Message)
    requires m in c.network && m.Intent? && m.target in c.nodes
    ensures var n := c.nodes[m.target];
            Step(c, DeliverIntent(m))
            == c.(network := c.network - multiset{m},
                  nodes := c.nodes[m.target := n.(running := n.running + multiset{m})])
  {
  }

  /** An execution may be lost, without a reply. */
  lemma ExecutionsAreLost(c: Cluster, m: Message)
    requires m.target in c.nodes && m in c.nodes[m.target].running
    ensures var n := c.nodes[m.target];
            Step(c, Crash(m)) == c.(nodes := c.nodes[m.target := n.(running := n.running - multiset{m})])
  {
  }

  // ---------- which entries stay ----------

  predicate Delivers(c: Cluster, a: Action, node: NodeId)
    ensures Delivers(c, a, node) ==> a.DeliverReply?
  {
    a.DeliverReply? && a.message.target == node && Enabled(c, a)
  }

  /** The ids under which replies have reached a node. */
  ghost function Delivered(ids: set<NodeId>, actions: seq<Action>, node: NodeId): set<MsgId> {
    if actions == [] then {}
    else
      var front, last := actions[..|actions| - 1], actions[|actions| - 1];
      Delivered(ids, front, node) + if Delivers(Run(ids, front), last, node) then {last.message.id} else {}
  }

  ghost predicate HasEntryUnless(n: Node, k: nat, delivered: set<MsgId>)
    requires k < |n.requests|
  {
    n.requests[k].id in n.pending <==> n.requests[k].caller != TimedOut && n.requests[k].id !in delivered
  }

  /** An entry is there unless its caller has timed out or a reply has come. */
  ghost predicate EntriesInv(n: Node, delivered: set<MsgId>) {
    && (forall id | id in delivered :: id.counter <= n.counter)
    && (forall k | 0 <= k < |n.requests| :: HasEntryUnless(n, k, delivered))
  }

  lemma BeginEntries(n: Node, target: NodeId, intent: string, millis: int, delivered: set<MsgId>)
    requires NodeInv(n) && EntriesInv(n, delivered)
    ensures EntriesInv(Begin(n, target, intent, millis).0, delivered)
  {
    var n' := Begin(n, target, intent, millis).0;
    forall k | 0 <= k < |n'.requests| ensures HasEntryUnless(n', k, delivered) {
      if k < |n.requests| { assert HasEntryUnless(n, k, delivered); }
    }
  }

  lemma ReceiveEntries(n: Node, id: MsgId, outcome: Outcome, delivered: set<MsgId>)
    requires NodeInv(n) && EntriesInv(n, delivered) && id.counter <= n.counter
    ensures EntriesInv(Receive(n, id, outcome), delivered + {id})
  {
    var n' := Receive(n, id, outcome);
    forall k | 0 <= k < |n'.requests| ensures HasEntryUnless(n', k, delivered + {id}) {
      assert HasEntryUnless(n, k, delivered);
      assert n'.requests[k].id == n.requests[k].id && n'.requests[k].caller == n.requests[k].caller;
    }
  }

  lemma GiveUpEntries(n: Node, k: nat, delivered: set<MsgId>)
    requires NodeInv(n) && EntriesInv(n, delivered) && k < |n.requests|
    ensures EntriesInv(GiveUp(n, k), delivered)
  {
    var n' := GiveUp(n, k);
    forall j | 0 <= j < |n'.requests| ensures HasEntryUnless(n', j, delivered) {
      assert HasEntryUnless(n, j, delivered);
      if n.requests[j].id == n.requests[k].id { SameId(n, j, k); }
    }
  }

  /** Everything else keeps the entries, and times nobody out. */
  ghost predicate IsAside(n: Node, n': Node) {
    && n'.counter >= n.counter && n'.pending == n.pending && |n'.requests| == |n.requests|
    && forall k | 0 <= k < |n.requests| ::
         && n'.requests[k].id == n.requests[k].id
         && (n'.requests[k].caller == TimedOut <==> n.requests[k].caller == TimedOut)
  }

  lemma AsideEntries(n: Node, n': Node, delivered: set<MsgId>)
    requires EntriesInv(n, delivered) && IsAside(n, n')
    ensures EntriesInv(n', delivered)
  {
    forall k | 0 <= k < |n'.requests| ensures HasEntryUnless(n', k, delivered) {
      assert HasEntryUnless(n, k, delivered);
    }
  }

  lemma SendsAside(n: Node, k: nat, end: SendEnd)
    requires end != SendTimedOut
    ensures IsAside(n, EndSend(n, k, end))
  {
  }

  lemma WaitsAside(n: Node, k: nat)
    ensures IsAside(n, Expire(n, k)) && IsAside(n, Collect(n, k))
  {
  }

  lemma AbandonsAside(n: Node, k: nat)
    ensures IsAside(n, Abandon(n, k))
  {
  }

  lemma CountsAside(n: Node, counter: nat, running: multiset<Message>)
    requires counter >= n.counter
    ensures IsAside(n, n.(counter := counter, running := running))
  {
  }

  /** The actions that neither add nor drop an entry, nor time anybody out. */
  predicate LeavesEntries(n: Node, a: Action) {
    match a
    case Forward(_, _, _, _) => false
    case FinishSend(_, _, end) => end != SendTimedOut
    case ReapRequest(_, _) => false
    case DeliverReply(_) => false
    case _ => true
  }

  lemma MovedAside(n: Node, a: Action, delivered: set<MsgId>)
    requires EntriesInv(n, delivered) && LeavesEntries(n, a)
    ensures EntriesInv(Moved(n, a), delivered)
  {
    hide EntriesInv, IsAside, EndSend, Expire, Collect, Abandon;
    CountsAside(n, n.counter, n.running);
    CountsAside(n, n.counter, Moved(n, a).running);
    CountsAside(n, n.counter + 1, n.running);
    match a {
      case FinishSend(_, k, end) => SendsAside(n, k, end);
      case ExpireRequest(_, k) => WaitsAside(n, k);
      case CollectRequest(_, k) => WaitsAside(n, k);
      case AbandonRequest(_, k) => AbandonsAside(n, k);
      case _ =>
    }
    AsideEntries(n, Moved(n, a), delivered);
  }

  lemma MovedEntries(n: Node, a: Action, delivered: set<MsgId>)
    requires NodeInv(n) && EntriesInv(n, delivered) && !a.DeliverReply?
    ensures EntriesInv(Moved(n, a), delivered)
  {
    hide NodeInv, EntriesInv, Begin, GiveUp;
    if LeavesEntries(n, a) {
      MovedAside(n, a, delivered);
    } else {
      match a
      case Forward(_, target, intent, millis) => BeginEntries(n, target, intent, millis, delivered);
      case FinishSend(_, k, _) => if CallerIs(n, k, Sending) { GiveUpEntries(n, k, delivered); }
      case ReapRequest(_, k) => if Reap(n, k) != n { GiveUpEntries(n, k, delivered); }
      case _ =>
    }
  }

  /** A reply comes under an id that its receiver has given out. */
  lemma ReplyIsOld(c: Cluster, a: Action)
    requires NodesInv(c) && TrafficInv(c) && a.DeliverReply? && Enabled(c, a)
    ensures !a.message.Intent? && a.message.target in c.nodes
    ensures a.message.id.counter <= c.nodes[a.message.target].counter
  {
    assert Replied(c, a.message);
    var x :| x in c.answers && x.0.Intent? && a.message == Reply(x.0, x.1);
    assert Sent(c, x.0);
    assert NodeInv(c.nodes[x.0.source]);
  }

  lemma EntriesStep(c: Cluster, a: Action, node: NodeId, delivered: set<MsgId>)
    requires NodesInv(c) && TrafficInv(c) && node in c.nodes && EntriesInv(c.nodes[node], delivered)
    ensures node in Step(c, a).nodes
    ensures EntriesInv(Step(c, a).nodes[node],
                       delivered + if Delivers(c, a, node) then {a.message.id} else {})
  {
    hide NodeInv, EntriesInv, NodesInv, TrafficInv, Moved, Enabled, NetworkAfter, AnswersAfter;
    NodeOf(c, node);
    if Delivers(c, a, node) {
      ReplyIsOld(c, a);
      MovedByReply(c.nodes[node], a.message);
      ReceiveEntries(c.nodes[node], a.message.id, OutcomeOf(a.message), delivered);
    } else {
      assert delivered + {} == delivered;
      if Enabled(c, a) && Mover(a) == Some(node) { MovedEntries(c.nodes[node], a, delivered); }
    }
  }

  lemma IdleEntries()
    ensures EntriesInv(IdleNode(), {})
  {
  }

  lemma {:induction false} EntriesKept(ids: set<NodeId>, actions: seq<Action>, node: NodeId)
    requires node in Run(ids, actions).nodes
    ensures EntriesInv(Run(ids, actions).nodes[node], Delivered(ids, actions, node))
  {
    hide NodeInv, EntriesInv, NodesInv, TrafficInv, OutcomesInv, Step, Delivers;
    if actions == [] {
      IdleEntries();
    } else {
      var front, a := actions[..|actions| - 1], actions[|actions| - 1];
      RunKeepsInv(ids, front);
      NodesStep(Run(ids, front), a);
      EntriesKept(ids, front, node);
      EntriesStep(Run(ids, front), a, node, Delivered(ids, front, node));
    }
  }

  /** Over every interleaving, the entries of a node are exactly those of its requests to which no
      reply has come and whose caller has not timed out: a caller whose send failed, or who was
      cancelled, leaves its entry behind until a reply comes. */
  lemma PendingEntryIff(ids: set<NodeId>, actions: seq<Action>, node: NodeId, id: MsgId)
    requires node in Run(ids, actions).nodes
    ensures var n := Run(ids, actions).nodes[node];
            id in n.pending <==>
              && id !in Delivered(ids, actions, node)
              && exists k | 0 <= k < |n.requests| :: n.requests[k].id == id && n.requests[k].caller != TimedOut
  {
    hide Run, Delivered;
    var n, delivered := Run(ids, actions).nodes[node], Delivered(ids, actions, node);
    RunKeepsInv(ids, actions);
    NodeOf(Run(ids, actions), node);
    EntriesKept(ids, actions, node);
    if id in n.pending {
      assert HasEntryUnless(n, n.pending[id], delivered);
    }
    if k :| 0 <= k < |n.requests| && n.requests[k].id == id {
      assert HasEntryUnless(n, k, delivered);
    }
  }

  /** A send that raises leaves its entry behind exactly if it is no timeout and no reply has come. */
  lemma RaisedSendLeavesEntry(ids: set<NodeId>, actions: seq<Action>, node: NodeId, k: nat, end: SendEnd)
    requires node in Run(ids, actions).nodes && CallerIs(Run(ids, actions).nodes[node], k, Sending)
    requires end != SendReturned
    ensures var n := Run(ids, actions).nodes[node];
            var c := Run(ids, actions + [FinishSend(node, k, end)]);
            && node in c.nodes && |c.nodes[node].requests| == |n.requests|
            && Ended(c.nodes[node].requests[k].caller)
            && (n.requests[k].id in c.nodes[node].pending <==>
                  end == SendFailed && n.requests[k].id !in Delivered(ids, actions, node))
  {
    var n := Run(ids, actions).nodes[node];
    RunOne(ids, actions, FinishSend(node, k, end));
    EntriesKept(ids, actions, node);
    assert HasEntryUnless(n, k, Delivered(ids, actions, node));
  }

  // ---------- the object ----------

  /** One router with its process's id counter; a future is a place in the list of requests. */
  class Router {
    var counter: nat
    var pending: map<MsgId, nat>
    var requests: seq<Request>

    ghost function View(): Node
      reads this
    {
      Node(counter, pending, requests, multiset{})
    }

    ghost predicate Valid()
      reads this
    {
      NodeInv(View())
    }

    constructor ()
      ensures Valid() && View() == IdleNode()
    {
      counter, pending, requests := 0, map[], [];
    }

    method GenerateId(millis: int) returns (id: MsgId)
      modifies this`counter
      ensures counter == old(counter) + 1 && id == MsgId(counter, millis)
    {
      counter := counter + 1;
      id := MsgId(counter, millis);
    }

    /** The part of _forward_remote up to the send. */
    method ForwardRemote(target: NodeId, intent: string, millis: int) returns (id: MsgId)
      requires Valid()
      modifies this
      ensures Valid()
      ensures (View(), id) == Begin(old(View()), target, intent, millis)
      ensures id == MsgId(old(counter) + 1, millis) && counter == old(counter) + 1
      ensures id !in old(pending) && forall k | 0 <= k < |old(requests)| :: old(requests)[k].id != id
    {
      BeginKeeps(View(), target, intent, millis);
      id := GenerateId(millis);
      pending := pending[id := |requests|];
      requests := requests + [Request(target, id, intent, Waiting, Sending)];
    }

    /** From the end of the send to the await, or out by an exception. */
    method FinishSend(k: nat, end: SendEnd)
      requires Valid()
      modifies this
      ensures Valid()
      ensures View() == EndSend(old(View()), k, end)
    {
      EndSendKeeps(View(), k, end);
      if k < |requests| && requests[k].caller == Sending {
        match end {
          case SendReturned => requests := requests[k := requests[k].(caller := Suspended)];
          case SendTimedOut =>
            pending := pending - {requests[k].id};
            requests := requests[k := requests[k].(caller := TimedOut)];
          case SendFailed => requests := requests[k := requests[k].(caller := SendRaised)];
        }
      }
    }

    method HandleReply(m: Message)
      requires Valid() && !m.Intent?
      modifies this
      ensures Valid()
      ensures View() == Receive(old(View()), m.id, OutcomeOf(m))
    {
      ReceiveKeeps(View(), m.id, OutcomeOf(m));
      if m.id !in pending {
        return;
      }
      var k := pending[m.id];
      pending := pending - {m.id};
      if requests[k].future == Waiting {
        requests := requests[k := requests[k].(future := Done(OutcomeOf(m)))];
      }
    }

    /** The except branch, once wait_for has raised. */
    method DropTimedOut(k: nat)
      requires Valid()
      modifies this
      ensures Valid()
      ensures View() == Reap(old(View()), k)
    {
      ReapKeeps(View(), k);
      if k < |requests| && requests[k].caller == Suspended && requests[k].future != Waiting {
        pending := pending - {requests[k].id};
        requests := requests[k := requests[k].(caller := TimedOut)];
      }
    }
  }
}

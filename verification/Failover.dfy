/** Routing with failover: the healthy nodes of an intent are tried in order, and a remote node that
    fails is marked offline. What an attempt gives is an oracle. */
module Failover {
  import opened Options
  import opened Registry
  import opened Interference
  import Objects = ServiceRegistry

  datatype Attempt = Succeeds(value: string) | Fails(error: string)

  /** Value is what a call returns, the others what it raises: no node for the name, every node
      failed, or (without failover) the error of the one attempt. */
  datatype Outcome = Value(value: string) | NoNode | AllFailed(lastError: Option<string>) | AttemptFailed(error: string)

  type Oracle = string -> Attempt

  function AfterFailure(r: Registry, id: string, local: string): Registry {
    if id == local then r else Mark(r, id, Offline)
  }

  /** Tries one node after the other; during[k] is what other tasks do while the k-th is awaited. */
  function TryEach(
    r: Registry, ids: seq<string>, local: string, attempt: Oracle, during: seq<seq<Event>>, lastError: Option<string>)
    : (Registry, Outcome)
    decreases |ids|
  {
    if ids == [] then (r, AllFailed(lastError))
    else
      var r' := Later(r, First(during));
      match attempt(ids[0])
      case Succeeds(v) => (r', Value(v))
      case Fails(e) => TryEach(AfterFailure(r', ids[0], local), ids[1..], local, attempt, Rest(during, 1), Some(e))
  }

  function RouteWithFailover(r: Registry, name: string, local: string, attempt: Oracle, during: seq<seq<Event>>)
    : (Registry, Outcome)
  {
    if ResolveAll(r, name) == [] then (r, NoNode)
    else TryEach(r, ResolveAll(r, name), local, attempt, during, None)
  }

  /** How many nodes of the list fail before the first that succeeds. */
  function Failures(ids: seq<string>, attempt: Oracle): (n: nat)
    ensures n <= |ids|
  {
    if ids == [] || attempt(ids[0]).Succeeds? then 0 else 1 + Failures(ids[1..], attempt)
  }

  function Remote(ids: seq<string>, local: string): set<string> {
    set id | id in ids && id != local
  }

  /** The registry with some nodes offline and nothing else changed. */
  function Downed(r: Registry, ids: set<string>): Registry {
    r.(nodes := map id | id in r.nodes :: if id in ids then r.nodes[id].(status := Offline) else r.nodes[id])
  }

  lemma DownFirst(r: Registry, id: string, rest: seq<string>, local: string)
    ensures Downed(AfterFailure(r, id, local), Remote(rest, local)) == Downed(r, Remote([id] + rest, local))
  {
  }

  lemma NobodyDowned(r: Registry, local: string)
    ensures Downed(r, Remote([], local)) == r && Downed(r, {}) == r
  {
  }

  lemma NothingLater(r: Registry)
    ensures Later(r, []) == r
  {
  }

  lemma {:induction false} TryEachSpec(
    r: Registry, ids: seq<string>, local: string, attempt: Oracle, during: seq<seq<Event>>, lastError: Option<string>)
    ensures var n, (r', o) := Failures(ids, attempt), TryEach(r, ids, local, attempt, during, lastError);
            && (forall k | 0 <= k < n :: attempt(ids[k]).Fails?)
            && (n < |ids| ==> attempt(ids[n]).Succeeds? && o == Value(attempt(ids[n]).value))
            && (n == |ids| ==> o == AllFailed(if ids == [] then lastError else Some(attempt(ids[n - 1]).error)))
            && (during == [] ==> r' == Downed(r, Remote(ids[..n], local)))
    decreases |ids|
  {
    hide Later, Downed, Remote, AfterFailure;
    NothingLater(r);
    if ids != [] && attempt(ids[0]).Fails? {
      var rest := ids[1..];
      var r1 := AfterFailure(Later(r, First(during)), ids[0], local);
      TryEachSpec(r1, rest, local, attempt, Rest(during, 1), Some(attempt(ids[0]).error));
      var n := Failures(rest, attempt);
      assert ids[..n + 1] == [ids[0]] + rest[..n];
      DownFirst(r, ids[0], rest[..n], local);
    } else {
      NobodyDowned(r, local);
      assert ids[..0] == [];
    }
  }

  /** Whatever other tasks do to the registry meanwhile, the result is that of the first node, in the
      order resolve_all gave at the start, that succeeds. When they do nothing, the remote nodes tried
      before it end offline, and no other status and no other part of the registry changes. */
  lemma FailoverSpec(r: Registry, name: string, local: string, attempt: Oracle, during: seq<seq<Event>>)
    ensures var ids := ResolveAll(r, name);
            var n, (r', o) := Failures(ids, attempt), RouteWithFailover(r, name, local, attempt, during);
            && (forall k | 0 <= k < n :: attempt(ids[k]).Fails?)
            && (ids == [] <==> o == NoNode)
            && (n < |ids| ==> attempt(ids[n]).Succeeds? && o == Value(attempt(ids[n]).value))
            && (n == |ids| > 0 ==> o == AllFailed(Some(attempt(ids[n - 1]).error)))
            && (during == [] ==>
                  && r'.index == r.index && r'.rr == r.rr && r'.nodes.Keys == r.nodes.Keys
                  && (forall id | id in ids[..n] && id != local :: id in r.nodes && r'.nodes[id].status == Offline)
                  && (forall id | id in r.nodes && !(id in ids[..n] && id != local) :: r'.nodes[id] == r.nodes[id]))
  {
    var ids := ResolveAll(r, name);
    TryEachSpec(r, ids, local, attempt, during, None);
    AllHealthySpec(r, Candidates(r, name));
    assert forall id | id in ids[..Failures(ids, attempt)] :: id in ids;
  }

  // ---------- one node at a time, with interference ----------

  function Position(ids: seq<string>, id: string): (k: nat)
    ensures k <= |ids| && (k < |ids| ==> ids[k] == id)
    ensures forall j | 0 <= j < k :: ids[j] != id
  {
    if ids == [] || ids[0] == id then 0 else 1 + Position(ids[1..], id)
  }

  /** How many nodes of the list are tried. */
  function Attempts(ids: seq<string>, attempt: Oracle): nat {
    if Failures(ids, attempt) < |ids| then Failures(ids, attempt) + 1 else |ids|
  }

  /** What happens in m attempts, to a node that is taken offline after the k-th. */
  function DownedAt(r: Registry, id: string, k: nat, during: seq<seq<Event>>, m: nat): Registry
    requires k < m
  {
    Later(Mark(Later(r, Flat(during, k + 1)), id, Offline), Flat(Rest(during, k + 1), m - k - 1))
  }

  lemma DownedOneLater(r: Registry, r': Registry, id: string, k: nat, during: seq<seq<Event>>, m: nat)
    requires k < m && NodeAt(r', id) == NodeAt(Later(r, First(during)), id)
    ensures NodeAt(DownedAt(r', id, k, Rest(during, 1), m), id) == NodeAt(DownedAt(r, id, k + 1, during, m + 1), id)
  {
    hide Later;
    var r1, rest := Later(r, First(during)), Rest(during, 1);
    LaterAppend(r, First(during), Flat(rest, k + 1));
    LaterAt(r', r1, Flat(rest, k + 1), id);
    var a, b := Mark(Later(r', Flat(rest, k + 1)), id, Offline), Mark(Later(r1, Flat(rest, k + 1)), id, Offline);
    assert NodeAt(a, id) == NodeAt(b, id);
    RestOfRest(during, k + 1);
    LaterAt(a, b, Flat(Rest(rest, k + 1), m - k - 1), id);
  }

  lemma AfterFailureAt(r: Registry, other: string, local: string, id: string)
    requires other != id
    ensures NodeAt(AfterFailure(r, other, local), id) == NodeAt(r, id)
  {
  }

  lemma DownedAtOnce(r: Registry, id: string, during: seq<seq<Event>>, m: nat)
    requires m > 0
    ensures DownedAt(r, id, 0, during, m)
         == Later(Mark(Later(r, First(during)), id, Offline), Flat(Rest(during, 1), m - 1))
  {
    hide Later;
    assert Flat(during, 1) == First(during);
  }

  /** What a failover and the other tasks make of one node. */
  function Expected(r: Registry, ids: seq<string>, local: string, attempt: Oracle, during: seq<seq<Event>>, id: string)
    : Registry
  {
    var k, m := Position(ids, id), Attempts(ids, attempt);
    if k < Failures(ids, attempt) && id != local then DownedAt(r, id, k, during, m) else Later(r, Flat(during, m))
  }

  lemma OneAttemptMore(
    r: Registry, ids: seq<string>, local: string, attempt: Oracle, during: seq<seq<Event>>, id: string)
    requires ids != [] && attempt(ids[0]).Fails? && NoDuplicates(ids)
    ensures var r1 := AfterFailure(Later(r, First(during)), ids[0], local);
            NodeAt(Expected(r1, ids[1..], local, attempt, Rest(during, 1), id), id)
            == NodeAt(Expected(r, ids, local, attempt, during, id), id)
  {
    hide Later, NodeAt, DownedAt, Mark, Step;
    var r0, rest, m := Later(r, First(during)), Rest(during, 1), Attempts(ids[1..], attempt);
    var r1 := AfterFailure(r0, ids[0], local);
    LaterAppend(r, First(during), Flat(rest, m));
    if ids[0] == id {
      assert id !in ids[1..];
      assert Position(ids[1..], id) == |ids[1..]|;
      if id != local { DownedAtOnce(r, id, during, m + 1); }
    } else {
      AfterFailureAt(r0, ids[0], local, id);
      var k := Position(ids[1..], id);
      if k < Failures(ids[1..], attempt) && id != local {
        DownedOneLater(r, r1, id, k, during, m);
      } else {
        LaterAt(r1, r0, Flat(rest, m), id);
      }
    }
  }

  /** Seen from one node a failover is what other tasks do during its attempts, and after the node's own
      failed attempt, if it is a remote one, its being taken offline. */
  lemma {:induction false} TryEachIsNodeByNode(
    r: Registry, ids: seq<string>, local: string, attempt: Oracle, during: seq<seq<Event>>, lastError: Option<string>,
    id: string)
    requires NoDuplicates(ids)
    ensures NodeAt(TryEach(r, ids, local, attempt, during, lastError).0, id)
         == NodeAt(Expected(r, ids, local, attempt, during, id), id)
    decreases |ids|
  {
    hide Later, NodeAt, DownedAt, AfterFailure;
    if ids == [] {
      assert Later(r, []) == r by { NothingLater(r); }
    } else if attempt(ids[0]).Succeeds? {
      assert Flat(during, 1) == First(during);
    } else {
      hide Expected;
      var r1 := AfterFailure(Later(r, First(during)), ids[0], local);
      TryEachIsNodeByNode(r1, ids[1..], local, attempt, Rest(during, 1), Some(attempt(ids[0]).error), id);
      OneAttemptMore(r, ids, local, attempt, during, id);
    }
  }

  lemma NoTurns(during: seq<seq<Event>>)
    ensures Flat(during, 0) == []
  {
  }

  lemma CandidatesDistinct(r: Registry, name: string)
    requires WellFormed(r.index)
    ensures NoDuplicates(Candidates(r, name))
  {
  }

  lemma RouteIsNodeByNode(
    r: Registry, name: string, local: string, attempt: Oracle, during: seq<seq<Event>>, id: string)
    requires WellFormed(r.index)
    ensures NodeAt(RouteWithFailover(r, name, local, attempt, during).0, id)
         == NodeAt(Expected(r, ResolveAll(r, name), local, attempt, during, id), id)
  {
    hide Candidates, AllHealthy, TryEach, Flat, Later, NodeAt, NoDuplicates, WellFormed, DownedAt;
    var ids := ResolveAll(r, name);
    CandidatesDistinct(r, name);
    AllHealthySpec(r, Candidates(r, name));
    if ids == [] {
      NoTurns(during);
      NothingLater(r);
    } else {
      TryEachIsNodeByNode(r, ids, local, attempt, during, None, id);
    }
  }

  lemma DownedStaysDown(r: Registry, id: string, k: nat, during: seq<seq<Event>>, m: nat)
    requires k < m && forall e | e in Flat(Rest(during, k + 1), m - k - 1) :: QuietFor(e, id)
    ensures !Healthy(DownedAt(r, id, k, during, m), id)
  {
    hide Flat, Rest, Later, QuietFor;
    StaysDown(Mark(Later(r, Flat(during, k + 1)), id, Offline), Flat(Rest(during, k + 1), m - k - 1), id);
  }

  /** From any reachable registry: a remote node that failed is not online afterwards, unless another
      task brought it online after its attempt; and to a node that did not fail, or to the local one,
      only other tasks did anything. */
  lemma FailedNodesGoDown(
    es: seq<Event>, name: string, local: string, attempt: Oracle, during: seq<seq<Event>>, id: string)
    ensures var r, ids := Run(es), ResolveAll(Run(es), name);
            var r' := RouteWithFailover(r, name, local, attempt, during).0;
            var k, n, m := Position(ids, id), Failures(ids, attempt), Attempts(ids, attempt);
            && (k < n && id != local ==>
                  && NodeAt(r', id) == NodeAt(DownedAt(r, id, k, during, m), id)
                  && ((forall e | e in Flat(Rest(during, k + 1), m - k - 1) :: QuietFor(e, id)) ==> !Healthy(r', id)))
            && (k >= n || id == local ==> NodeAt(r', id) == NodeAt(Later(r, Flat(during, m)), id))
  {
    hide Run, ResolveAll, RouteWithFailover, Flat, Rest, Later, Failures, NodeAt, DownedAt, Healthy, QuietFor;
    var r := Run(es);
    var ids := ResolveAll(r, name);
    RunKeepsComplete(es);
    RouteIsNodeByNode(r, name, local, attempt, during, id);
    var k, m := Position(ids, id), Attempts(ids, attempt);
    if k < m && forall e | e in Flat(Rest(during, k + 1), m - k - 1) :: QuietFor(e, id) {
      DownedStaysDown(r, id, k, during, m);
      HealthyAt(RouteWithFailover(r, name, local, attempt, during).0, DownedAt(r, id, k, during, m), id);
    }
  }

  lemma FailureLeavesIndex(r: Registry, id: string, local: string)
    ensures SameButStatus(AfterFailure(r, id, local), r)
  {
  }

  lemma {:induction false} TryEachLeavesIndex(
    r: Registry, ids: seq<string>, local: string, attempt: Oracle, during: seq<seq<Event>>, lastError: Option<string>)
    ensures SameButStatus(TryEach(r, ids, local, attempt, during, lastError).0,
                          Later(r, Flat(during, Attempts(ids, attempt))))
    decreases |ids|
  {
    hide Later, SameButStatus;
    if ids == [] {
      NothingLater(r);
      assert SameButStatus(r, r) by { SameAsItself(r); }
    } else if attempt(ids[0]).Succeeds? {
      assert Flat(during, 1) == First(during);
      SameAsItself(Later(r, First(during)));
    } else {
      var r0, rest, m := Later(r, First(during)), Rest(during, 1), Attempts(ids[1..], attempt);
      var r1 := AfterFailure(r0, ids[0], local);
      TryEachLeavesIndex(r1, ids[1..], local, attempt, rest, Some(attempt(ids[0]).error));
      LaterAppend(r, First(during), Flat(rest, m));
      FailureLeavesIndex(r0, ids[0], local);
      LaterSameButStatus(r1, r0, Flat(rest, m));
      SameThrough(TryEach(r, ids, local, attempt, during, lastError).0, Later(r1, Flat(rest, m)),
                  Later(r0, Flat(rest, m)));
    }
  }

  /** With any interference: failover touches statuses only, so index and services are as the other tasks
      alone would leave them. */
  lemma FailoverLeavesIndex(
    r: Registry, name: string, local: string, attempt: Oracle, during: seq<seq<Event>>)
    requires ResolveAll(r, name) != []
    ensures var r' := RouteWithFailover(r, name, local, attempt, during).0;
            var alone := Later(r, Flat(during, Attempts(ResolveAll(r, name), attempt)));
            && r'.index == alone.index && r'.nodes.Keys == alone.nodes.Keys
            && forall id | id in r'.nodes :: r'.nodes[id].services == alone.nodes[id].services
  {
    hide Later, Flat;
    TryEachLeavesIndex(r, ResolveAll(r, name), local, attempt, during, None);
  }

  // ---------- how often attempts can fail ----------

  function OnlineNodes(r: Registry): set<string> {
    set id | id in r.nodes && Healthy(r, id)
  }

  function RemoteOnly(ids: seq<string>, local: string): seq<string> {
    if ids == [] then []
    else if ids[0] == local then RemoteOnly(ids[1..], local)
    else [ids[0]] + RemoteOnly(ids[1..], local)
  }

  /** The remote nodes that a call tries in vain. */
  function FailedRemotely(r: Registry, name: string, local: string, attempt: Oracle): seq<string> {
    RemoteOnly(ResolveAll(r, name)[..Failures(ResolveAll(r, name), attempt)], local)
  }

  lemma {:induction false} RemoteOnlySpec(ids: seq<string>, local: string)
    requires NoDuplicates(ids)
    ensures |RemoteOnly(ids, local)| == |Remote(ids, local)|
  {
    if ids != [] {
      assert NoDuplicates(ids[1..]) && ids[0] !in ids[1..];
      assert ids == [ids[0]] + ids[1..];
      RemoteOnlySpec(ids[1..], local);
      if ids[0] == local {
        assert Remote(ids, local) == Remote(ids[1..], local);
      } else {
        assert Remote(ids, local) == Remote(ids[1..], local) + {ids[0]};
      }
    }
  }

  /** Brings no node online. */
  predicate Quiet(e: Event) {
    match e
    case RegisterNode(_, _) => false
    case Beat(_, _) => false
    case SetStatus(_, status) => status != Online
    case _ => true
  }

  ghost predicate QuietTurns(during: seq<seq<Event>>) {
    forall k, e | 0 <= k < |during| && e in during[k] :: Quiet(e)
  }

  lemma SubsetSize(a: set<string>, b: set<string>)
    requires a <= b
    ensures |a| <= |b|
  {
    assert b == a + (b - a);
  }

  lemma LossSize(a: set<string>, b: set<string>, c: set<string>)
    requires a <= b - c && c <= b
    ensures |a| + |c| <= |b|
  {
    SubsetSize(a, b - c);
  }

  lemma QuietStep(r: Registry, e: Event)
    requires Quiet(e)
    ensures OnlineNodes(Step(r, e)) <= OnlineNodes(r)
  {
    hide IndexAdd, IndexRemove;
  }

  lemma {:induction false} LaterOnline(r: Registry, events: seq<Event>)
    requires forall e | e in events :: Quiet(e)
    ensures OnlineNodes(Later(r, events)) <= OnlineNodes(r)
    decreases |events|
  {
    hide Step, OnlineNodes;
    if events != [] {
      assert Quiet(events[0]);
      QuietStep(r, events[0]);
      LaterOnline(Step(r, events[0]), events[1..]);
    }
  }

  lemma {:induction false} TryEachOnline(
    r: Registry, ids: seq<string>, local: string, attempt: Oracle, during: seq<seq<Event>>, lastError: Option<string>)
    requires QuietTurns(during)
    ensures OnlineNodes(TryEach(r, ids, local, attempt, during, lastError).0)
         <= OnlineNodes(r) - Remote(ids[..Failures(ids, attempt)], local)
    decreases |ids|
  {
    hide Later, Quiet;
    if ids != [] {
      LaterOnline(r, First(during));
      if attempt(ids[0]).Fails? {
        var r1, n := AfterFailure(Later(r, First(during)), ids[0], local), Failures(ids[1..], attempt);
        assert QuietTurns(Rest(during, 1));
        TryEachOnline(r1, ids[1..], local, attempt, Rest(during, 1), Some(attempt(ids[0]).error));
        assert ids[..n + 1] == [ids[0]] + ids[1..][..n];
      }
    }
  }

  lemma PrefixDistinct(ids: seq<string>, n: nat)
    requires NoDuplicates(ids) && n <= |ids|
    ensures NoDuplicates(ids[..n])
  {
  }

  lemma RemovedSize(a: set<string>, b: set<string>, c: set<string>)
    requires c <= b && forall x :: x in a <==> x in b && x !in c
    ensures |a| + |c| == |b|
  {
    assert a == b - c;
  }

  lemma DownedOnline(r: Registry, gone: set<string>)
    requires forall id | id in gone :: Healthy(r, id)
    ensures |OnlineNodes(Downed(r, gone))| + |gone| == |OnlineNodes(r)| && gone <= OnlineNodes(r)
  {
    forall id ensures Healthy(Downed(r, gone), id) <==> Healthy(r, id) && id !in gone {}
    RemovedSize(OnlineNodes(Downed(r, gone)), OnlineNodes(r), gone);
  }

  function FailureCount(r: Registry, name: string, local: string, attempt: Oracle): nat {
    |FailedRemotely(r, name, local, attempt)|
  }

  /** Every failed remote attempt takes one node offline: none is lost, none counted twice. When other
      tasks bring no node online meanwhile, they can only add to the loss. */
  lemma FailuresConserve(r: Registry, name: string, local: string, attempt: Oracle, during: seq<seq<Event>>)
    requires WellFormed(r.index)
    requires QuietTurns(during)
    ensures var r' := RouteWithFailover(r, name, local, attempt, during).0;
            && |OnlineNodes(r')| + FailureCount(r, name, local, attempt) <= |OnlineNodes(r)|
            && (during == [] ==> |OnlineNodes(r')| + FailureCount(r, name, local, attempt) == |OnlineNodes(r)|)
  {
    hide AllHealthy, Candidates, TryEach, Failures, Downed, OnlineNodes, RemoteOnly, NoDuplicates, QuietTurns;
    var ids := ResolveAll(r, name);
    var n := Failures(ids, attempt);
    TryEachSpec(r, ids, local, attempt, during, None);
    CandidatesDistinct(r, name);
    AllHealthySpec(r, Candidates(r, name));
    PrefixDistinct(ids, n);
    RemoteOnlySpec(ids[..n], local);
    var gone := Remote(ids[..n], local);
    assert forall id | id in gone :: id in ids;
    DownedOnline(r, gone);
    assert Downed(r, {}) == r by { NobodyDowned(r, local); }
    if ids != [] {
      TryEachOnline(r, ids, local, attempt, during, None);
      LossSize(OnlineNodes(TryEach(r, ids, local, attempt, during, None).0), OnlineNodes(r), gone);
    }
  }

  datatype Act = Route(name: string, attempt: Oracle, during: seq<seq<Event>>) | Other(event: Event)

  ghost predicate QuietAct(a: Act) {
    match a
    case Route(_, _, during) => QuietTurns(during)
    case Other(e) => Quiet(e)
  }

  function ActStep(r: Registry, local: string, a: Act): Registry {
    match a
    case Route(name, attempt, during) => RouteWithFailover(r, name, local, attempt, during).0
    case Other(e) => Step(r, e)
  }

  function Acts(r: Registry, local: string, acts: seq<Act>): Registry {
    if acts == [] then r else ActStep(Acts(r, local, acts[..|acts| - 1]), local, acts[|acts| - 1])
  }

  function TotalFailures(r: Registry, local: string, acts: seq<Act>): nat {
    if acts == [] then 0
    else
      var before, last := acts[..|acts| - 1], acts[|acts| - 1];
      TotalFailures(r, local, before)
      + if last.Route? then FailureCount(Acts(r, local, before), last.name, local, last.attempt) else 0
  }

  lemma {:induction false} LaterKeepsComplete(r: Registry, events: seq<Event>)
    requires Complete(r) && WellFormed(r.index)
    ensures Complete(Later(r, events)) && WellFormed(Later(r, events).index)
    decreases |events|
  {
    hide Step, Complete, WellFormed;
    if events != [] {
      StepKeepsComplete(r, events[0]);
      LaterKeepsComplete(Step(r, events[0]), events[1..]);
    }
  }

  lemma {:induction false} TryEachKeepsComplete(
    r: Registry, ids: seq<string>, local: string, attempt: Oracle, during: seq<seq<Event>>, lastError: Option<string>)
    requires Complete(r) && WellFormed(r.index)
    ensures var r' := TryEach(r, ids, local, attempt, during, lastError).0; Complete(r') && WellFormed(r'.index)
    decreases |ids|
  {
    hide Later, WellFormed;
    if ids != [] {
      LaterKeepsComplete(r, First(during));
      if attempt(ids[0]).Fails? {
        var r1 := AfterFailure(Later(r, First(during)), ids[0], local);
        TryEachKeepsComplete(r1, ids[1..], local, attempt, Rest(during, 1), Some(attempt(ids[0]).error));
      }
    }
  }

  lemma OnlineAmongNodes(r: Registry)
    ensures |OnlineNodes(r)| <= |r.nodes|
  {
    SubsetSize(OnlineNodes(r), r.nodes.Keys);
  }

  /** From any reachable registry, as long as nothing brings a node online, all calls together fail
      at most once for each node that was online, hence at most as often as there are nodes. */
  lemma {:induction false} FailedAttemptsAreBounded(es: seq<Event>, local: string, acts: seq<Act>)
    requires forall k | 0 <= k < |acts| :: QuietAct(acts[k])
    ensures var r := Run(es);
            && |OnlineNodes(Acts(r, local, acts))| + TotalFailures(r, local, acts) <= |OnlineNodes(r)| <= |r.nodes|
            && Complete(Acts(r, local, acts)) && WellFormed(Acts(r, local, acts).index)
  {
    hide Run, FailureCount, TryEach, Step, Complete, WellFormed, OnlineNodes, QuietTurns;
    var r := Run(es);
    OnlineAmongNodes(r);
    RunKeepsComplete(es);
    if acts != [] {
      var before, last := acts[..|acts| - 1], acts[|acts| - 1];
      FailedAttemptsAreBounded(es, local, before);
      var r0 := Acts(r, local, before);
      match last
      case Route(name, attempt, during) =>
        FailuresConserve(r0, name, local, attempt, during);
        TryEachKeepsComplete(r0, ResolveAll(r0, name), local, attempt, during, None);
      case Other(e) =>
        StepKeepsComplete(r0, e);
        QuietStep(r0, e);
        SubsetSize(OnlineNodes(Step(r0, e)), OnlineNodes(r0));
    }
  }

  // ---------- the object ----------

  class IntentRouter {
    const registry: Objects.ServiceRegistry
    const localNodeId: string

    constructor (registry: Objects.ServiceRegistry, localNodeId: string)
      ensures this.registry == registry && this.localNodeId == localNodeId
    {
      this.registry, this.localNodeId := registry, localNodeId;
    }

    method Route(intentName: string, loadBalance: bool, attempt: Oracle) returns (o: Outcome)
      requires registry.Valid()
      modifies registry`rrIndex, registry`registry
      ensures registry.Valid()
      ensures registry.registry
           == if loadBalance then Balance(old(registry.registry), intentName).0 else old(registry.registry)
      ensures var id := if loadBalance then Balance(old(registry.registry), intentName).1
                        else Resolve(old(registry.registry), intentName);
              o == match id
                   case None => NoNode
                   case Some(n) => match attempt(n) case Succeeds(v) => Value(v) case Fails(e) => AttemptFailed(e)
    {
      var node: Objects.ClusterNode?;
      if loadBalance {
        node := registry.ResolveLoadBalanced(intentName);
      } else {
        node := registry.ResolveNode(intentName);
      }
      if node == null {
        return NoNode;
      }
      match attempt(node.nodeId)
      case Succeeds(v) => o := Value(v);
      case Fails(e) => o := AttemptFailed(e);
    }

    /** Other tasks run. */
    method Suspend(events: seq<Event>)
      requires registry.Valid()
      modifies registry, registry.repr
      ensures registry.Valid() && fresh(registry.repr - old(registry.repr))
      ensures registry.registry == Later(old(registry.registry), events)
    {
      hide Step;
      var i := 0;
      assert events[0..] == events;
      while i < |events|
        invariant 0 <= i <= |events|
        invariant registry.Valid() && fresh(registry.repr - old(registry.repr))
        invariant Later(registry.registry, events[i..]) == Later(old(registry.registry), events)
      {
        assert events[i..][1..] == events[i + 1..];
        registry.Perform(events[i]);
        i := i + 1;
      }
    }

    /** during[k] is what other tasks do while the k-th attempt is awaited. */
    method RouteFailingOver(intentName: string, attempt: Oracle, during: seq<seq<Event>>) returns (o: Outcome)
      requires registry.Valid()
      modifies registry, registry.repr
      ensures registry.Valid() && fresh(registry.repr - old(registry.repr))
      ensures (registry.registry, o)
           == RouteWithFailover(old(registry.registry), intentName, localNodeId, attempt, during)
    {
      hide Later, First, Rest, ResolveAll, Mark;
      var nodes := registry.ResolveAllNodes(intentName);
      if nodes == [] {
        return NoNode;
      }
      ghost var ids := ResolveAll(registry.registry, intentName);
      var lastError := None;
      var i := 0;
      assert ids[0..] == ids;
      RestOfAll(during);
      while i < |nodes|
        invariant 0 <= i <= |nodes| == |ids|
        invariant registry.Valid() && fresh(registry.repr - old(registry.repr))
        invariant forall k | 0 <= k < |nodes| :: nodes[k].nodeId == ids[k]
        invariant TryEach(registry.registry, ids[i..], localNodeId, attempt, Rest(during, i), lastError)
               == TryEach(old(registry.registry), ids, localNodeId, attempt, during, None)
      {
        assert ids[i..][1..] == ids[i + 1..];
        RestOfRest(during, i);
        Suspend(if i < |during| then during[i] else []);
        match attempt(nodes[i].nodeId)
        case Succeeds(v) =>
          return Value(v);
        case Fails(e) =>
          lastError := Some(e);
          if nodes[i].nodeId != localNodeId {
            registry.MarkNode(nodes[i].nodeId, Offline);
          }
          i := i + 1;
      }
      o := AllFailed(lastError);
    }
  }
}

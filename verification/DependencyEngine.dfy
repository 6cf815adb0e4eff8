/** The dependency engine: scoped instances with a bounded per-user cache, and resolution that falls
    back along a chain of services. Factories, health checks and the cluster are oracles. */
module DependencyEngine {
  import opened Options

  /** What a factory makes; None is a value like any other. */
  datatype Obj = PyNone | Obj(id: nat)

  datatype Factory = NoFactory | Constant(obj: Obj) | Callable

  datatype Scope = Transient | PerUser | Singleton

  datatype Service = Service(factory: Factory, scope: Scope)

  /** How calling a factory ends. */
  datatype Attempt = Makes(obj: Obj) | Raises

  datatype Key = ByUser(name: string, user: string) | ByImpl(name: string, impl: string, user: string)

  /** A dictionary in insertion order. */
  type Cache = seq<(Key, Obj)>

  datatype Engine = Engine(
    services: map<string, Service>, ruleSets: set<string>, singletons: map<string, Obj>, perUser: Cache,
    maxPerUser: int, fallbacks: map<string, seq<string>>, unhealthy: set<string>)

  // ---------- the per-user cache ----------

  function Find(c: Cache, k: Key): Option<Obj> {
    if c == [] then None else if c[0].0 == k then Some(c[0].1) else Find(c[1..], k)
  }

  /** Deletes the oldest entries in excess while iterating over the dictionary: the second step of
      that iteration raises, and so does the first when there is nothing to iterate over. */
  function Evict(c: Cache, max: int): (Cache, bool) {
    if |c| <= max then (c, false)
    else if c == [] then (c, true)
    else (c[1..], |c| - max > 1)
  }

  /** Returns the cached instance or makes one, evicting first; None when something raised. */
  function Lookup(c: Cache, max: int, k: Key, made: Attempt): (Cache, Option<Obj>) {
    if Find(c, k).Some? then (c, Find(c, k))
    else
      var (c', raised) := Evict(c, max);
      if raised || made.Raises? then (c', None) else (c' + [(k, made.obj)], Some(made.obj))
  }

  function WithoutUser(c: Cache, user: string): Cache {
    if c == [] then []
    else if c[0].0.user == user then WithoutUser(c[1..], user)
    else [c[0]] + WithoutUser(c[1..], user)
  }

  // ---------- resolution ----------

  function Created(f: Factory, made: Attempt): Attempt {
    match f
    case Constant(obj) => Makes(obj)
    case _ => made
  }

  function Result(a: Attempt): Option<Obj> {
    match a
    case Makes(obj) => Some(obj)
    case Raises => None
  }

  /** None is an exception. */
  function Resolve(e: Engine, name: string, user: Option<string>, made: Attempt): (Engine, Option<Obj>) {
    if name in e.ruleSets || name !in e.services || e.services[name].factory == NoFactory then (e, None)
    else
      var s := e.services[name];
      var create := Created(s.factory, made);
      match s.scope
      case Transient => (e, Result(create))
      case PerUser =>
        if user.None? then (e, None)
        else
          var (c, r) := Lookup(e.perUser, e.maxPerUser, ByUser(name, user.value), create);
          (e.(perUser := c), r)
      case Singleton =>
        if name in e.singletons then (e, Some(e.singletons[name]))
        else match create
             case Makes(obj) => (e.(singletons := e.singletons[name := obj]), Some(obj))
             case Raises => (e, None)
  }

  function Registered(e: Engine): set<string> {
    e.services.Keys + e.ruleSets
  }

  /** A health check that is absent counts as passed, one that raises as failed. */
  predicate Usable(e: Engine, name: string, passes: bool) {
    name in Registered(e) && name !in e.unhealthy && passes
  }

  /** What the health checks and factories of the candidates do in one call, and what the cluster
      registry would answer. */
  datatype World = World(passes: nat -> bool, makes: nat -> Attempt, cluster: Option<Obj>)

  function Candidates(e: Engine, name: string): seq<string> {
    [name] + if name in e.fallbacks then e.fallbacks[name] else []
  }

  /** One candidate: skipped, resolved, or marked unhealthy because it raised. */
  function TryOne(e: Engine, name: string, user: Option<string>, passes: bool, made: Attempt): (Engine, Option<Obj>) {
    if !Usable(e, name, passes) then (e, None)
    else
      var (e', r) := Resolve(e, name, user, made);
      if r.Some? then (e', r) else (e'.(unhealthy := e'.unhealthy + {name}), None)
  }

  function TryFrom(e: Engine, names: seq<string>, i: nat, user: Option<string>, w: World): (Engine, Option<Obj>)
    decreases |names| - i
  {
    if i >= |names| then (e, None)
    else
      var (e', r) := TryOne(e, names[i], user, w.passes(i), w.makes(i));
      if r.Some? then (e', r) else TryFrom(e', names, i + 1, user, w)
  }

  /** Total: whatever raises on the way is caught. */
  function ResolveWithFallback(e: Engine, name: string, user: Option<string>, w: World): (Engine, Obj) {
    var (e', r) := TryFrom(e, Candidates(e, name), 0, user, w);
    (e', if r.Some? then r.value else if w.cluster.Some? then w.cluster.value else PyNone)
  }

  function AnyFrom(e: Engine, names: seq<string>, i: nat, user: Option<string>, w: nat -> World): (Engine, Obj)
    decreases |names| - i
  {
    if i >= |names| then (e, PyNone)
    else
      var (e', r) := ResolveWithFallback(e, names[i], user, w(i));
      if r != PyNone then (e', r) else AnyFrom(e', names, i + 1, user, w)
  }

  function ResolveAny(e: Engine, names: seq<string>, user: Option<string>, w: nat -> World): (Engine, Obj) {
    AnyFrom(e, names, 0, user, w)
  }

  // ---------- what falling back does ----------

  /** Registered, not marked unhealthy, and its health check passes. */
  predicate IsTried(e: Engine, name: string, passes: bool) {
    (name in e.services || name in e.ruleSets) && !(name in e.unhealthy) && passes
  }

  /** The engine when candidate i is reached, all before it having failed. */
  function Reached(e: Engine, names: seq<string>, i: nat, user: Option<string>, w: World): Engine
    requires i <= |names|
  {
    if i == 0 then e
    else
      var before := Reached(e, names, i - 1, user, w);
      if !IsTried(before, names[i - 1], w.passes(i - 1)) then before
      else
        var (after, r) := Resolve(before, names[i - 1], user, w.makes(i - 1));
        if r.Some? then after else after.(unhealthy := after.unhealthy + {names[i - 1]})
  }

  predicate Succeeds(e: Engine, names: seq<string>, i: nat, user: Option<string>, w: World)
    requires i < |names|
  {
    && IsTried(Reached(e, names, i, user, w), names[i], w.passes(i))
    && Resolve(Reached(e, names, i, user, w), names[i], user, w.makes(i)).1.Some?
  }

  /** It was tried and raised. */
  predicate Failed(e: Engine, names: seq<string>, i: nat, user: Option<string>, w: World)
    requires i < |names|
  {
    && IsTried(Reached(e, names, i, user, w), names[i], w.passes(i))
    && Resolve(Reached(e, names, i, user, w), names[i], user, w.makes(i)).1.None?
  }

  /** Nothing but caches and the unhealthy set ever changes in a resolution. */
  predicate SameSetup(e: Engine, e': Engine) {
    e' == e.(singletons := e'.singletons, perUser := e'.perUser, unhealthy := e'.unhealthy)
  }

  /** The first i candidates that raised. */
  function FailedNames(e: Engine, names: seq<string>, i: nat, user: Option<string>, w: World): set<string>
    requires i <= |names|
  {
    set k | 0 <= k < i && Failed(e, names, k, user, w) :: names[k]
  }

  lemma FailedNamesGrow(e: Engine, names: seq<string>, i: nat, user: Option<string>, w: World)
    requires 0 < i <= |names|
    ensures FailedNames(e, names, i, user, w)
         == FailedNames(e, names, i - 1, user, w) + if Failed(e, names, i - 1, user, w) then {names[i - 1]} else {}
  {
    hide Failed;
  }

  lemma NoneFailedYet(e: Engine, names: seq<string>, user: Option<string>, w: World)
    ensures FailedNames(e, names, 0, user, w) == {}
  {
  }

  lemma ResolveKeepsSetup(e: Engine, name: string, user: Option<string>, made: Attempt)
    ensures SameSetup(e, Resolve(e, name, user, made).0)
    ensures Resolve(e, name, user, made).0.unhealthy == e.unhealthy
  {
    hide Lookup;
  }

  lemma {:induction false} ReachedSpec(e: Engine, names: seq<string>, i: nat, user: Option<string>, w: World)
    requires i <= |names|
    requires forall k | 0 <= k < i :: !Succeeds(e, names, k, user, w)
    ensures var r := Reached(e, names, i, user, w);
            SameSetup(e, r) && r.unhealthy == e.unhealthy + FailedNames(e, names, i, user, w)
  {
    hide Resolve, FailedNames;
    if i > 0 {
      ReachedSpec(e, names, i - 1, user, w);
      FailedNamesGrow(e, names, i, user, w);
      ResolveKeepsSetup(Reached(e, names, i - 1, user, w), names[i - 1], user, w.makes(i - 1));
      assert !Succeeds(e, names, i - 1, user, w);
    } else {
      assert FailedNames(e, names, 0, user, w) == {} by { NoneFailedYet(e, names, user, w); }
    }
  }

  lemma {:induction false} TryFromFinds(e: Engine, names: seq<string>, i: nat, user: Option<string>, w: World)
    returns (t: nat)
    requires i <= |names|
    requires forall k | 0 <= k < i :: !Succeeds(e, names, k, user, w)
    ensures t <= |names|
    ensures forall k | 0 <= k < t :: !Succeeds(e, names, k, user, w)
    ensures t < |names| ==> Succeeds(e, names, t, user, w)
    ensures TryFrom(Reached(e, names, i, user, w), names, i, user, w)
         == if t < |names| then Resolve(Reached(e, names, t, user, w), names[t], user, w.makes(t))
            else (Reached(e, names, t, user, w), None)
    decreases |names| - i
  {
    hide Resolve;
    t := i;
    if i < |names| && !Succeeds(e, names, i, user, w) {
      t := TryFromFinds(e, names, i + 1, user, w);
    }
  }

  lemma ReachedIsStart(e: Engine, names: seq<string>, user: Option<string>, w: World)
    ensures Reached(e, names, 0, user, w) == e
  {
  }

  /** The result is that of the first candidate that is registered, healthy and creates successfully,
      else the cluster's answer; the candidates that raised, and no others, become unhealthy. */
  lemma FallbackSpec(e: Engine, name: string, user: Option<string>, w: World) returns (t: nat)
    ensures var names := [name] + (if name in e.fallbacks then e.fallbacks[name] else []);
            var (e', r) := ResolveWithFallback(e, name, user, w);
            && t <= |names|
            && (forall k | 0 <= k < t :: !Succeeds(e, names, k, user, w))
            && (t < |names| ==>
                  && Succeeds(e, names, t, user, w)
                  && (e', Some(r)) == Resolve(Reached(e, names, t, user, w), names[t], user, w.makes(t)))
            && (t == |names| ==>
                  && e' == Reached(e, names, t, user, w)
                  && r == if w.cluster.Some? then w.cluster.value else PyNone)
            && SameSetup(e, e')
            && e'.unhealthy == e.unhealthy + FailedNames(e, names, t, user, w)
  {
    hide Lookup, Reached, Resolve, Failed;
    var names := Candidates(e, name);
    t := TryFromFinds(e, names, 0, user, w);
    ReachedIsStart(e, names, user, w);
    ReachedSpec(e, names, t, user, w);
    if t < |names| { ResolveKeepsSetup(Reached(e, names, t, user, w), names[t], user, w.makes(t)); }
  }

  /** The engine when name i of resolve_any is reached. */
  function AnyReached(e: Engine, names: seq<string>, i: nat, user: Option<string>, w: nat -> World): Engine
    requires i <= |names|
  {
    if i == 0 then e else ResolveWithFallback(AnyReached(e, names, i - 1, user, w), names[i - 1], user, w(i - 1)).0
  }

  /** What name i gives when it is reached. */
  function AnyGives(e: Engine, names: seq<string>, i: nat, user: Option<string>, w: nat -> World): Obj
    requires i < |names|
  {
    ResolveWithFallback(AnyReached(e, names, i, user, w), names[i], user, w(i)).1
  }

  lemma {:induction false} AnyFromFinds(e: Engine, names: seq<string>, i: nat, user: Option<string>, w: nat -> World)
    returns (t: nat)
    requires i <= |names|
    requires forall k | 0 <= k < i :: AnyGives(e, names, k, user, w) == PyNone
    ensures i <= t <= |names|
    ensures forall k | 0 <= k < t :: AnyGives(e, names, k, user, w) == PyNone
    ensures t < |names| ==> AnyGives(e, names, t, user, w) != PyNone
    ensures AnyFrom(AnyReached(e, names, i, user, w), names, i, user, w)
         == if t < |names| then (AnyReached(e, names, t + 1, user, w), AnyGives(e, names, t, user, w))
            else (AnyReached(e, names, t, user, w), PyNone)
    decreases |names| - i
  {
    hide ResolveWithFallback;
    t := i;
    if i < |names| && AnyGives(e, names, i, user, w) == PyNone {
      t := AnyFromFinds(e, names, i + 1, user, w);
    }
  }

  /** resolve_any gives what the first name with a result other than None gives, and None if there is no
      such name; the names behind it are not touched. */
  lemma AnySpec(e: Engine, names: seq<string>, user: Option<string>, w: nat -> World) returns (t: nat)
    ensures t <= |names|
    ensures forall k | 0 <= k < t :: AnyGives(e, names, k, user, w) == PyNone
    ensures t < |names| ==>
              && AnyGives(e, names, t, user, w) != PyNone
              && ResolveAny(e, names, user, w) == (AnyReached(e, names, t + 1, user, w), AnyGives(e, names, t, user, w))
    ensures t == |names| ==> ResolveAny(e, names, user, w) == (AnyReached(e, names, t, user, w), PyNone)
  {
    hide ResolveWithFallback;
    t := AnyFromFinds(e, names, 0, user, w);
  }

  // ---------- runs ----------

  datatype Event =
    | Register(name: string, service: Service)
    | SetFallback(name: string, fallbacks: seq<string>)
    | MarkUnhealthy(name: string)
    | MarkHealthy(name: string)
    | Get(name: string, user: Option<string>, made: Attempt)
    | GetImpl(name: string, impl: string, owner: string, made: Attempt)
    | FallBack(name: string, user: Option<string>, world: World)
    | ClearAll
    | ClearUser(owner: string)

  function Step(e: Engine, ev: Event): Engine {
    match ev
    case Register(name, service) => e.(services := e.services[name := service])
    case SetFallback(name, fallbacks) => e.(fallbacks := e.fallbacks[name := fallbacks])
    case MarkUnhealthy(name) => e.(unhealthy := e.unhealthy + {name})
    case MarkHealthy(name) => e.(unhealthy := e.unhealthy - {name})
    case Get(name, user, made) => Resolve(e, name, user, made).0
    case GetImpl(name, impl, user, made) =>
      e.(perUser := Lookup(e.perUser, e.maxPerUser, ByImpl(name, impl, user), made).0)
    case FallBack(name, user, w) => ResolveWithFallback(e, name, user, w).0
    case ClearAll => e.(singletons := map[], perUser := [])
    case ClearUser(user) => e.(perUser := WithoutUser(e.perUser, user))
  }

  function Steps(e: Engine, evs: seq<Event>): Engine
    decreases |evs|
  {
    if evs == [] then e else Steps(Step(e, evs[0]), evs[1..])
  }

  function Initial(ruleSets: set<string>, maxPerUser: int): Engine {
    Engine(map[], ruleSets, map[], [], maxPerUser, map[], {})
  }

  // ---------- failed attempts ----------

  function FailuresFrom(e: Engine, names: seq<string>, i: nat, user: Option<string>, w: World): nat
    decreases |names| - i
  {
    if i >= |names| then 0
    else
      var (e', r) := TryOne(e, names[i], user, w.passes(i), w.makes(i));
      if r.Some? then 0
      else (if Usable(e, names[i], w.passes(i)) then 1 else 0) + FailuresFrom(e', names, i + 1, user, w)
  }

  /** The candidates a step tries in vain. */
  function Failures(e: Engine, ev: Event): nat {
    if ev.FallBack? then FailuresFrom(e, Candidates(e, ev.name), 0, ev.user, ev.world) else 0
  }

  function TotalFailures(e: Engine, evs: seq<Event>): nat
    decreases |evs|
  {
    if evs == [] then 0 else Failures(e, evs[0]) + TotalFailures(Step(e, evs[0]), evs[1..])
  }

  /** Each failure takes one more registered service out of the healthy ones. */
  lemma {:induction false} FailuresUseUpServices(
    e: Engine, names: seq<string>, i: nat, user: Option<string>, w: World, all: set<string>)
    requires Registered(e) <= all
    ensures var e' := TryFrom(e, names, i, user, w).0;
            && FailuresFrom(e, names, i, user, w) + |all - e'.unhealthy| == |all - e.unhealthy|
            && SameSetup(e, e')
    decreases |names| - i
  {
    hide Resolve;
    if i < |names| {
      ResolveKeepsSetup(e, names[i], user, w.makes(i));
      var (e', r) := TryOne(e, names[i], user, w.passes(i), w.makes(i));
      if r.None? {
        if Usable(e, names[i], w.passes(i)) {
          assert all - e'.unhealthy == (all - e.unhealthy) - {names[i]};
        }
        FailuresUseUpServices(e', names, i + 1, user, w, all);
      }
    }
  }

  lemma StepUsesUpServices(e: Engine, ev: Event, all: set<string>)
    requires Registered(Step(e, ev)) <= all && !ev.MarkHealthy?
    ensures Registered(e) <= all
    ensures Failures(e, ev) + |all - Step(e, ev).unhealthy| <= |all - e.unhealthy|
  {
    hide Lookup, Resolve, TryFrom, FailuresFrom;
    match ev
    case FallBack(name, user, w) =>
      FailuresUseUpServices(e, Candidates(e, name), 0, user, w, Registered(e) + all);
      assert Registered(e) + all == all;
    case Get(name, user, made) => ResolveKeepsSetup(e, name, user, made);
    case MarkUnhealthy(name) =>
      assert all - Step(e, ev).unhealthy == (all - e.unhealthy) - {name};
    case _ =>
  }

  /** As long as nothing is marked healthy, all failed attempts of a run together are at most the
      registered services not unhealthy at its start: even with cyclic or repeated fallback lists. */
  lemma {:induction false} FailedAttemptsAreBounded(e: Engine, evs: seq<Event>)
    requires forall k | 0 <= k < |evs| :: !evs[k].MarkHealthy?
    ensures Registered(e) <= Registered(Steps(e, evs))
    ensures TotalFailures(e, evs) + |Registered(Steps(e, evs)) - Steps(e, evs).unhealthy|
         <= |Registered(Steps(e, evs)) - e.unhealthy|
    decreases |evs|
  {
    hide Step, Failures;
    if evs != [] {
      FailedAttemptsAreBounded(Step(e, evs[0]), evs[1..]);
      StepUsesUpServices(e, evs[0], Registered(Steps(e, evs)));
    }
  }

  // ---------- the cache over runs ----------

  ghost predicate Distinct(c: Cache) {
    forall i, j | 0 <= i < j < |c| :: c[i].0 != c[j].0
  }

  /** At most one entry more than the maximum, and one for each key. */
  ghost predicate CacheInv(c: Cache, max: int) {
    |c| <= max + 1 && Distinct(c)
  }

  lemma EmptyCache(max: nat)
    ensures CacheInv([], max)
  {
  }

  lemma {:induction false} FindSpec(c: Cache, k: Key)
    ensures Find(c, k).None? <==> forall i | 0 <= i < |c| :: c[i].0 != k
    ensures Distinct(c) ==> forall i | 0 <= i < |c| && c[i].0 == k :: Find(c, k) == Some(c[i].1)
  {
    if c != [] {
      FindSpec(c[1..], k);
      assert forall i | 0 < i < |c| :: c[i] == c[1..][i - 1];
      assert Distinct(c) ==> Distinct(c[1..]);
    }
  }

  lemma LookupKeepsCache(c: Cache, max: nat, k: Key, made: Attempt)
    requires CacheInv(c, max)
    ensures CacheInv(Lookup(c, max, k, made).0, max)
    ensures !Evict(c, max).1
  {
    FindSpec(c, k);
  }

  lemma {:induction false} WithoutUserSpec(c: Cache, user: string)
    ensures |WithoutUser(c, user)| <= |c|
    ensures forall x :: x in WithoutUser(c, user) <==> x in c && x.0.user != user
    ensures Distinct(c) ==> Distinct(WithoutUser(c, user))
  {
    if c != [] {
      var rest := WithoutUser(c[1..], user);
      WithoutUserSpec(c[1..], user);
      assert c == [c[0]] + c[1..];
      if Distinct(c) {
        assert Distinct(c[1..]);
        forall j | 0 <= j < |rest| ensures rest[j].0 != c[0].0 {
          assert rest[j] in rest;
          var i :| 0 <= i < |c[1..]| && c[1..][i] == rest[j];
          assert c[i + 1] == rest[j];
        }
      }
    }
  }

  /** What remains is in its old order. */
  lemma {:induction false} WithoutUserInOrder(a: Cache, b: Cache, user: string)
    ensures WithoutUser(a + b, user) == WithoutUser(a, user) + WithoutUser(b, user)
  {
    if a == [] {
      assert a + b == b;
    } else {
      assert (a + b)[1..] == a[1..] + b;
      WithoutUserInOrder(a[1..], b, user);
    }
  }

  lemma ResolveKeepsCache(e: Engine, name: string, user: Option<string>, made: Attempt)
    requires e.maxPerUser >= 0 && CacheInv(e.perUser, e.maxPerUser)
    ensures CacheInv(Resolve(e, name, user, made).0.perUser, e.maxPerUser)
  {
    hide Lookup, CacheInv;
    if name in e.services && user.Some? {
      LookupKeepsCache(e.perUser, e.maxPerUser, ByUser(name, user.value), Created(e.services[name].factory, made));
    }
  }

  lemma {:induction false} TryFromKeepsCache(e: Engine, names: seq<string>, i: nat, user: Option<string>, w: World)
    requires e.maxPerUser >= 0 && CacheInv(e.perUser, e.maxPerUser)
    ensures CacheInv(TryFrom(e, names, i, user, w).0.perUser, e.maxPerUser)
    ensures SameSetup(e, TryFrom(e, names, i, user, w).0)
    decreases |names| - i
  {
    hide Resolve, CacheInv;
    if i < |names| {
      ResolveKeepsSetup(e, names[i], user, w.makes(i));
      ResolveKeepsCache(e, names[i], user, w.makes(i));
      var (e', r) := TryOne(e, names[i], user, w.passes(i), w.makes(i));
      if r.None? { TryFromKeepsCache(e', names, i + 1, user, w); }
    }
  }

  lemma StepKeepsCache(e: Engine, ev: Event)
    requires e.maxPerUser >= 0 && CacheInv(e.perUser, e.maxPerUser)
    ensures CacheInv(Step(e, ev).perUser, e.maxPerUser) && Step(e, ev).maxPerUser == e.maxPerUser
  {
    hide Lookup, Resolve, TryFrom;
    match ev
    case Get(name, user, made) =>
      ResolveKeepsCache(e, name, user, made);
      ResolveKeepsSetup(e, name, user, made);
    case GetImpl(name, impl, user, made) => LookupKeepsCache(e.perUser, e.maxPerUser, ByImpl(name, impl, user), made);
    case FallBack(name, user, w) => TryFromKeepsCache(e, Candidates(e, name), 0, user, w);
    case ClearUser(user) => WithoutUserSpec(e.perUser, user);
    case _ =>
  }

  lemma {:induction false} RunKeepsCache(e: Engine, evs: seq<Event>)
    requires e.maxPerUser >= 0 && CacheInv(e.perUser, e.maxPerUser)
    ensures CacheInv(Steps(e, evs).perUser, e.maxPerUser) && Steps(e, evs).maxPerUser == e.maxPerUser
    decreases |evs|
  {
    hide Step, CacheInv;
    if evs != [] {
      StepKeepsCache(e, evs[0]);
      RunKeepsCache(Step(e, evs[0]), evs[1..]);
    }
  }

  // ---------- what a resolution gives ----------

  /** What calling the factory gives: a constant is given as it is. */
  predicate Creates(f: Factory, made: Attempt, obj: Obj) {
    match f
    case NoFactory => false
    case Constant(o) => obj == o
    case Callable => made == Makes(obj)
  }

  ghost predicate Holds(c: Cache, k: Key, obj: Obj) {
    exists i | 0 <= i < |c| :: c[i] == (k, obj)
  }

  ghost predicate HasKey(c: Cache, k: Key) {
    exists i | 0 <= i < |c| :: c[i].0 == k
  }

  lemma LookupGives(c: Cache, max: nat, k: Key, made: Attempt)
    requires CacheInv(c, max)
    ensures forall obj | Holds(c, k, obj) :: Lookup(c, max, k, made) == (c, Some(obj))
    ensures !HasKey(c, k) ==>
              var kept := if |c| > max then c[1..] else c;
              Lookup(c, max, k, made)
              == if made.Makes? then (kept + [(k, made.obj)], Some(made.obj)) else (kept, None)
  {
    FindSpec(c, k);
  }

  lemma RulesStayOnce(e: Engine, ev: Event)
    ensures Step(e, ev).ruleSets == e.ruleSets
  {
    hide Lookup, Resolve, TryFrom;
    match ev
    case Get(name, user, made) => ResolveKeepsSetup(e, name, user, made);
    case FallBack(name, user, w) => FailuresUseUpServices(e, Candidates(e, name), 0, user, w, Registered(e));
    case _ =>
  }

  lemma {:induction false} RulesStay(e: Engine, evs: seq<Event>)
    ensures Steps(e, evs).ruleSets == e.ruleSets
    decreases |evs|
  {
    hide Step;
    if evs != [] {
      RulesStayOnce(e, evs[0]);
      RulesStay(Step(e, evs[0]), evs[1..]);
    }
  }

  /** What every successful or failing resolution gives in a reachable engine, by factory and scope. A
      transient is created anew, and nothing is kept; a per-user instance is that of its user, or is
      created and kept as the youngest; a singleton is the one there is, or is created and kept. */
  lemma ResolveGives(
    ruleSets: set<string>, max: nat, evs: seq<Event>, name: string, user: Option<string>, made: Attempt, obj: Obj)
    requires var e := Steps(Initial(ruleSets, max), evs);
             name !in ruleSets && name in e.services && Creates(e.services[name].factory, made, obj)
    ensures var e := Steps(Initial(ruleSets, max), evs);
            match e.services[name].scope
            case Transient => Resolve(e, name, user, made) == (e, Some(obj))
            case Singleton =>
              Resolve(e, name, user, made)
              == if name in e.singletons then (e, Some(e.singletons[name]))
                 else (e.(singletons := e.singletons[name := obj]), Some(obj))
            case PerUser =>
              && (user.None? ==> Resolve(e, name, user, made) == (e, None))
              && (user.Some? ==>
                    var k := ByUser(name, user.value);
                    && (forall o | Holds(e.perUser, k, o) :: Resolve(e, name, user, made) == (e, Some(o)))
                    && (!HasKey(e.perUser, k) ==>
                          var kept := if |e.perUser| > max then e.perUser[1..] else e.perUser;
                          Resolve(e, name, user, made) == (e.(perUser := kept + [(k, obj)]), Some(obj))))
  {
    hide Steps, Lookup, CacheInv, Holds, HasKey;
    var e := Steps(Initial(ruleSets, max), evs);
    EmptyCache(max);
    RunKeepsCache(Initial(ruleSets, max), evs);
    RulesStay(Initial(ruleSets, max), evs);
    if user.Some? { LookupGives(e.perUser, max, ByUser(name, user.value), Makes(obj)); }
  }

  /** Where there is nothing to give again, a factory that raises makes the resolution raise. */
  lemma RaisingFactoriesRaise(e: Engine, name: string, user: Option<string>)
    requires name in e.services && e.services[name].factory == Callable
    requires match e.services[name].scope
             case Transient => true
             case Singleton => name !in e.singletons
             case PerUser => user.None? || !HasKey(e.perUser, ByUser(name, user.value))
    ensures Resolve(e, name, user, Raises).1 == None
  {
    if user.Some? { FindSpec(e.perUser, ByUser(name, user.value)); }
  }

  /** An unknown service, one with routing rules and one without a factory raise, and change nothing. */
  lemma UnknownServicesRaise(e: Engine, name: string, user: Option<string>, made: Attempt)
    requires name in e.ruleSets || name !in e.services || e.services[name].factory == NoFactory
    ensures Resolve(e, name, user, made) == (e, None)
  {
  }

  /** At most one entry over the maximum, and evicting now would not raise. */
  predicate BoundedAndSafe(e: Engine) {
    |e.perUser| <= e.maxPerUser + 1 && !Evict(e.perUser, e.maxPerUser).1
  }

  lemma NonnegativeIsSafe(ruleSets: set<string>, max: int, evs: seq<Event>)
    requires max >= 0
    ensures BoundedAndSafe(Steps(Initial(ruleSets, max), evs))
  {
    RunKeepsCache(Initial(ruleSets, max), evs);
  }

  lemma NegativeRaisesAtOnce(ruleSets: set<string>, max: int) returns (evs: seq<Event>)
    requires max < 0
    ensures !BoundedAndSafe(Steps(Initial(ruleSets, max), evs))
  {
    evs := [];
  }

  /** The bound holds and the eviction loop never trips over its own deletions, over every run, exactly
      when the engine was not set up with a negative maximum. */
  lemma EvictionIsSafeIff(ruleSets: set<string>, max: int)
    ensures (forall evs :: BoundedAndSafe(Steps(Initial(ruleSets, max), evs))) <==> max >= 0
  {
    hide BoundedAndSafe, Steps;
    if max >= 0 {
      forall evs ensures BoundedAndSafe(Steps(Initial(ruleSets, max), evs)) {
        NonnegativeIsSafe(ruleSets, max, evs);
      }
    } else {
      var evs := NegativeRaisesAtOnce(ruleSets, max);
    }
  }

  // ---------- how long an instance stays ----------

  /** The entries that came after a key. */
  function Younger(c: Cache, k: Key): nat {
    if c == [] then 0 else if c[0].0 == k then |c| - 1 else Younger(c[1..], k)
  }

  function LookupMisses(c: Cache, k: Key): nat {
    if Find(c, k).Some? then 0 else 1
  }

  /** How often resolving goes past the cache, and so evicts if the cache is full. */
  function ResolveMisses(e: Engine, name: string, user: Option<string>): nat {
    if name !in e.ruleSets && name in e.services && e.services[name].factory != NoFactory
       && e.services[name].scope == PerUser && user.Some?
    then LookupMisses(e.perUser, ByUser(name, user.value)) else 0
  }

  function MissesFrom(e: Engine, names: seq<string>, i: nat, user: Option<string>, w: World): nat
    decreases |names| - i
  {
    if i >= |names| then 0
    else
      var (e', r) := TryOne(e, names[i], user, w.passes(i), w.makes(i));
      (if Usable(e, names[i], w.passes(i)) then ResolveMisses(e, names[i], user) else 0)
      + if r.Some? then 0 else MissesFrom(e', names, i + 1, user, w)
  }

  function Misses(e: Engine, ev: Event): nat {
    match ev
    case Get(name, user, _) => ResolveMisses(e, name, user)
    case GetImpl(name, impl, user, _) => LookupMisses(e.perUser, ByImpl(name, impl, user))
    case FallBack(name, user, w) => MissesFrom(e, Candidates(e, name), 0, user, w)
    case _ => 0
  }

  function TotalMisses(e: Engine, evs: seq<Event>): nat
    decreases |evs|
  {
    if evs == [] then 0 else Misses(e, evs[0]) + TotalMisses(Step(e, evs[0]), evs[1..])
  }

  predicate Spares(ev: Event, k: Key) {
    !ev.ClearAll? && !(ev.ClearUser? && ev.owner == k.user)
  }

  /** From c to c' at most `misses` entries were added behind the one of k, which is still there. */
  ghost predicate Stays(c: Cache, c': Cache, max: nat, k: Key, misses: nat) {
    Find(c, k).Some? && Younger(c, k) + misses <= max ==>
      Find(c', k) == Find(c, k) && Younger(c', k) <= Younger(c, k) + misses
  }

  lemma {:induction false} YoungerSpec(c: Cache, k: Key, x: (Key, Obj))
    requires Find(c, k).Some? && x.0 != k
    ensures Find(c + [x], k) == Find(c, k) && Younger(c + [x], k) == Younger(c, k) + 1
    ensures c[0].0 != k ==> Find(c[1..], k) == Find(c, k) && Younger(c[1..], k) == Younger(c, k)
    ensures c[0].0 == k ==> Younger(c, k) == |c| - 1
  {
    assert (c + [x])[1..] == c[1..] + [x];
    if c[0].0 != k { YoungerSpec(c[1..], k, x); }
  }

  lemma LookupStays(c: Cache, max: nat, j: Key, made: Attempt, k: Key)
    requires CacheInv(c, max)
    ensures Stays(c, Lookup(c, max, j, made).0, max, k, LookupMisses(c, j))
  {
    if Find(c, k).Some? && Find(c, j).None? && Younger(c, k) + 1 <= max {
      assert j != k;
      var x := (j, if made.Makes? then made.obj else PyNone);
      YoungerSpec(c, k, x);
      if |c| > max { YoungerSpec(c[1..], k, x); }
    }
  }

  lemma {:induction false} WithoutUserStays(c: Cache, user: string, k: Key)
    requires k.user != user && Find(c, k).Some?
    ensures Find(WithoutUser(c, user), k) == Find(c, k)
    ensures Younger(WithoutUser(c, user), k) <= Younger(c, k)
  {
    WithoutUserSpec(c[1..], user);
    if c[0].0 != k { WithoutUserStays(c[1..], user, k); }
  }

  lemma ResolveStays(e: Engine, name: string, user: Option<string>, made: Attempt, k: Key)
    requires e.maxPerUser >= 0 && CacheInv(e.perUser, e.maxPerUser)
    ensures Stays(e.perUser, Resolve(e, name, user, made).0.perUser, e.maxPerUser, k, ResolveMisses(e, name, user))
  {
    hide Lookup, CacheInv, LookupMisses;
    if name in e.services && user.Some? {
      LookupStays(e.perUser, e.maxPerUser, ByUser(name, user.value), Created(e.services[name].factory, made), k);
    }
  }

  lemma {:induction false} TryFromStays(e: Engine, names: seq<string>, i: nat, user: Option<string>, w: World, k: Key)
    requires e.maxPerUser >= 0 && CacheInv(e.perUser, e.maxPerUser)
    ensures Stays(e.perUser, TryFrom(e, names, i, user, w).0.perUser, e.maxPerUser, k, MissesFrom(e, names, i, user, w))
    decreases |names| - i
  {
    hide Resolve, CacheInv, ResolveMisses, Find, Younger;
    if i < |names| {
      ResolveKeepsSetup(e, names[i], user, w.makes(i));
      ResolveKeepsCache(e, names[i], user, w.makes(i));
      ResolveStays(e, names[i], user, w.makes(i), k);
      var (e', r) := TryOne(e, names[i], user, w.passes(i), w.makes(i));
      if r.None? { TryFromStays(e', names, i + 1, user, w, k); }
    }
  }

  lemma StepStays(e: Engine, ev: Event, k: Key)
    requires e.maxPerUser >= 0 && CacheInv(e.perUser, e.maxPerUser) && Spares(ev, k)
    ensures Stays(e.perUser, Step(e, ev).perUser, e.maxPerUser, k, Misses(e, ev))
  {
    hide Lookup, Resolve, TryFrom, MissesFrom, ResolveMisses, LookupMisses, CacheInv;
    match ev
    case Get(name, user, made) => ResolveStays(e, name, user, made, k);
    case GetImpl(name, impl, user, made) => LookupStays(e.perUser, e.maxPerUser, ByImpl(name, impl, user), made, k);
    case FallBack(name, user, w) => TryFromStays(e, Candidates(e, name), 0, user, w, k);
    case ClearUser(user) => if Find(e.perUser, k).Some? { WithoutUserStays(e.perUser, user, k); }
    case _ =>
  }

  /** An instance whose user is not cleared survives as many cache misses as the maximum allows beyond
      the entries younger than it; for a new entry, the next max_per_user ones. */
  lemma {:induction false} InstanceSurvives(e: Engine, evs: seq<Event>, k: Key)
    requires e.maxPerUser >= 0 && CacheInv(e.perUser, e.maxPerUser)
    requires forall i | 0 <= i < |evs| :: Spares(evs[i], k)
    requires Find(e.perUser, k).Some?
    requires Younger(e.perUser, k) + TotalMisses(e, evs) <= e.maxPerUser
    ensures Find(Steps(e, evs).perUser, k) == Find(e.perUser, k)
    decreases |evs|
  {
    hide Step, Misses, CacheInv, Find, Younger;
    if evs != [] {
      StepStays(e, evs[0], k);
      StepKeepsCache(e, evs[0]);
      InstanceSurvives(Step(e, evs[0]), evs[1..], k);
    }
  }

  lemma {:induction false} LastIsYoungest(c: Cache, x: (Key, Obj))
    requires Find(c, x.0).None?
    ensures Younger(c + [x], x.0) == 0 && Find(c + [x], x.0) == Some(x.1)
  {
    if c != [] {
      assert (c + [x])[1..] == c[1..] + [x];
      LastIsYoungest(c[1..], x);
    }
  }

  lemma NewEntryIsYoungest(e: Engine, name: string, user: string, made: Attempt)
    requires e.maxPerUser >= 0 && CacheInv(e.perUser, e.maxPerUser)
    requires var k := ByUser(name, user);
             Find(e.perUser, k).None? && Find(Resolve(e, name, Some(user), made).0.perUser, k).Some?
    ensures var (e1, given) := Resolve(e, name, Some(user), made);
            && Younger(e1.perUser, ByUser(name, user)) == 0
            && Find(e1.perUser, ByUser(name, user)) == given
  {
    var k := ByUser(name, user);
    var c := Evict(e.perUser, e.maxPerUser).0;
    FindSpec(e.perUser, k);
    FindSpec(c, k);
    forall x: (Key, Obj) | x.0 == k ensures Younger(c + [x], k) == 0 && Find(c + [x], k) == Some(x.1) {
      LastIsYoungest(c, x);
    }
  }

  /** What a user was given once is given again, whatever the factory would do by then. */
  lemma SameInstanceAgain(e: Engine, name: string, user: string, obj: Obj, evs: seq<Event>, made: Attempt)
    requires e.maxPerUser >= 0 && CacheInv(e.perUser, e.maxPerUser)
    requires var k := ByUser(name, user);
             && Resolve(e, name, Some(user), Makes(obj)).1.Some?
             && var e1 := Resolve(e, name, Some(user), Makes(obj)).0;
             && (forall i | 0 <= i < |evs| :: Spares(evs[i], k))
             && Find(e.perUser, k).None? && Find(e1.perUser, k).Some?
             && TotalMisses(e1, evs) <= e.maxPerUser
             && name in Steps(e1, evs).services && Steps(e1, evs).services[name].scope == PerUser
             && Steps(e1, evs).services[name].factory != NoFactory && name !in Steps(e1, evs).ruleSets
    ensures var (e1, given) := Resolve(e, name, Some(user), Makes(obj));
            Resolve(Steps(e1, evs), name, Some(user), made) == (Steps(e1, evs), given)
  {
    var k := ByUser(name, user);
    var (e1, given) := Resolve(e, name, Some(user), Makes(obj));
    ResolveKeepsCache(e, name, Some(user), Makes(obj));
    ResolveKeepsSetup(e, name, Some(user), Makes(obj));
    NewEntryIsYoungest(e, name, user, Makes(obj));
    InstanceSurvives(e1, evs, k);
  }

  /** Only the first entry has all others behind it. */
  lemma {:induction false} YoungestFirst(c: Cache, k: Key)
    requires Find(c, k).Some?
    ensures Younger(c, k) < |c|
    ensures Younger(c, k) == |c| - 1 ==> c[0].0 == k
  {
    if c[0].0 != k { YoungestFirst(c[1..], k); }
  }

  /** The bound is sharp: once max_per_user younger entries fill the cache, the next miss takes it. */
  lemma OldestGoesNext(c: Cache, max: nat, j: Key, made: Attempt, k: Key)
    requires CacheInv(c, max) && Find(c, k).Some? && Find(c, j).None?
    requires Younger(c, k) == max
    ensures Find(Lookup(c, max, j, made).0, k).None?
  {
    YoungestFirst(c, k);
    FindSpec(c, j);
    FindSpec(c[1..], k);
    var x := (j, if made.Makes? then made.obj else PyNone);
    FindSpec(c[1..] + [x], k);
  }

  lemma {:induction false} TryFromKeepsSingletons(
    e: Engine, names: seq<string>, i: nat, user: Option<string>, w: World, name: string)
    requires name in e.singletons
    ensures var e' := TryFrom(e, names, i, user, w).0;
            name in e'.singletons && e'.singletons[name] == e.singletons[name]
    decreases |names| - i
  {
    hide Lookup;
    if i < |names| {
      var (e', r) := TryOne(e, names[i], user, w.passes(i), w.makes(i));
      if r.None? { TryFromKeepsSingletons(e', names, i + 1, user, w, name); }
    }
  }

  lemma StepKeepsSingletons(e: Engine, ev: Event, name: string)
    requires name in e.singletons && !ev.ClearAll?
    ensures name in Step(e, ev).singletons && Step(e, ev).singletons[name] == e.singletons[name]
  {
    hide Lookup, TryFrom;
    if ev.FallBack? { TryFromKeepsSingletons(e, Candidates(e, ev.name), 0, ev.user, ev.world, name); }
  }

  /** A singleton stays the same until everything is cleared, even if its service is registered anew. */
  lemma {:induction false} SingletonStays(e: Engine, evs: seq<Event>, name: string)
    requires name in e.singletons
    requires forall i | 0 <= i < |evs| :: !evs[i].ClearAll?
    ensures name in Steps(e, evs).singletons && Steps(e, evs).singletons[name] == e.singletons[name]
    decreases |evs|
  {
    hide Step;
    if evs != [] {
      StepKeepsSingletons(e, evs[0], name);
      SingletonStays(Step(e, evs[0]), evs[1..], name);
    }
  }

  /** Once given, a singleton is given again, whatever the factory would do by then and even if the
      service was registered anew in between. */
  lemma SameSingletonAgain(
    e: Engine, name: string, user: Option<string>, made: Attempt, evs: seq<Event>,
    user': Option<string>, made': Attempt)
    requires name in e.services && e.services[name].scope == Singleton
    requires Resolve(e, name, user, made).1.Some?
    requires forall i | 0 <= i < |evs| :: !evs[i].ClearAll?
    requires var e2 := Steps(Resolve(e, name, user, made).0, evs);
             && name !in e2.ruleSets && name in e2.services
             && e2.services[name].scope == Singleton && e2.services[name].factory != NoFactory
    ensures var (e1, given) := Resolve(e, name, user, made);
            Resolve(Steps(e1, evs), name, user', made') == (Steps(e1, evs), given)
  {
    hide Steps, Lookup;
    SingletonStays(Resolve(e, name, user, made).0, evs, name);
  }

  // ---------- creations that raise ----------

  /** A lookup whose creation raises leaves the cache alone exactly if it finds the key or the cache is
      not full; else the oldest entry is gone for nothing. */
  lemma FailedLookupKeepsCacheIff(c: Cache, max: nat, k: Key)
    requires CacheInv(c, max)
    ensures Lookup(c, max, k, Raises).0 == c <==> Find(c, k).Some? || |c| <= max
    ensures Lookup(c, max, k, Raises).0 != c ==> Lookup(c, max, k, Raises) == (c[1..], None)
  {
    if Find(c, k).None? && |c| > max { assert |Lookup(c, max, k, Raises).0| < |c|; }
  }

  lemma RaisedBecauseCreationDid(c: Cache, max: nat, k: Key, made: Attempt)
    requires CacheInv(c, max)
    ensures Lookup(c, max, k, made).1.None? ==> made == Raises && Find(c, k).None?
  {
  }

  /** In every reachable engine, a resolution that raises changes nothing exactly if it does not miss in
      a full per-user cache, and else takes the oldest entry out of it. */
  lemma RaisingResolutionChangesNothingIff(
    ruleSets: set<string>, max: nat, evs: seq<Event>, name: string, user: Option<string>, made: Attempt)
    requires Resolve(Steps(Initial(ruleSets, max), evs), name, user, made).1.None?
    ensures var e := Steps(Initial(ruleSets, max), evs);
            var e' := Resolve(e, name, user, made).0;
            && (e' == e <==> ResolveMisses(e, name, user) == 0 || |e.perUser| <= max)
            && (e' != e ==> e' == e.(perUser := e.perUser[1..]))
  {
    hide Steps, Lookup, CacheInv;
    var e := Steps(Initial(ruleSets, max), evs);
    EmptyCache(max);
    RunKeepsCache(Initial(ruleSets, max), evs);
    if ResolveMisses(e, name, user) == 1 {
      var k := ByUser(name, user.value);
      LookupKeepsCache(e.perUser, max, k, Makes(PyNone));
      RaisedBecauseCreationDid(e.perUser, max, k, Created(e.services[name].factory, made));
      FailedLookupKeepsCacheIff(e.perUser, max, k);
    } else if name in e.services && user.Some? {
      RaisedBecauseCreationDid(e.perUser, max, ByUser(name, user.value), Created(e.services[name].factory, made));
    }
  }

  lemma FindInShort(j: Key, x: Obj, k: Key, y: Obj)
    requires j != k
    ensures Find([], j).None? && Find([(j, x)], k).None?
  {
  }

  lemma FindInPair(p: (Key, Obj), q: (Key, Obj), k: Key)
    requires p.0 != k && q.0 != k
    ensures Find([p, q], k).None?
  {
    assert [p, q][1..] == [q] && [q][1..] == [];
    assert Find([q], k).None?;
  }

  /** With max_per_user 1 and two users' instances cached, a failed creation for a third takes the first
      user's, and nobody gains an entry. */
  lemma FailedCreationEvicts(ruleSets: set<string>, name: string, a: string, b: string, c: string, x: Obj, y: Obj)
    requires name !in ruleSets && a != b && b != c && a != c
    ensures var evs := [Register(name, Service(Callable, PerUser)), Get(name, Some(a), Makes(x)),
                        Get(name, Some(b), Makes(y))];
            var e := Steps(Initial(ruleSets, 1), evs);
            && e.perUser == [(ByUser(name, a), x), (ByUser(name, b), y)]
            && Resolve(e, name, Some(c), Raises) == (e.(perUser := [(ByUser(name, b), y)]), None)
  {
    hide Find;
    FindInShort(ByUser(name, a), x, ByUser(name, b), y);
    FindInShort(ByUser(name, a), x, ByUser(name, c), y);
    var e0 := Initial(ruleSets, 1);
    var register, first, second :=
      Register(name, Service(Callable, PerUser)), Get(name, Some(a), Makes(x)), Get(name, Some(b), Makes(y));
    var e1 := Step(e0, register);
    var e2 := Step(e1, first);
    assert e2.perUser == [(ByUser(name, a), x)];
    var e3 := Step(e2, second);
    FindInPair((ByUser(name, a), x), (ByUser(name, b), y), ByUser(name, c));
    assert [register, first, second][1..] == [first, second];
    assert [first, second][1..] == [second] && [second][1..] == [];
    assert Steps(e2, [second]) == e3;
    assert Steps(e1, [first, second]) == e3;
  }

  // ---------- the object ----------

  class DIEngine {
    var services: map<string, Service>
    const ruleSets: set<string>
    var singletons: map<string, Obj>
    var perUser: Cache
    const maxPerUser: int
    var fallbacks: map<string, seq<string>>
    var unhealthy: set<string>

    function View(): Engine
      reads this
    {
      Engine(services, ruleSets, singletons, perUser, maxPerUser, fallbacks, unhealthy)
    }

    constructor (ruleSets: set<string>, maxPerUser: int)
      ensures View() == Initial(ruleSets, maxPerUser)
    {
      this.ruleSets, this.maxPerUser := ruleSets, maxPerUser;
      services, singletons, perUser, fallbacks, unhealthy := map[], map[], [], map[], {};
    }

    method RegisterService(name: string, service: Service)
      modifies this`services
      ensures services == old(services)[name := service]
      ensures View() == Step(old(View()), Register(name, service))
    {
      services := services[name := service];
    }

    method SetFallbacks(name: string, chain: seq<string>)
      modifies this`fallbacks
      ensures fallbacks == old(fallbacks)[name := chain]
      ensures View() == Step(old(View()), SetFallback(name, chain))
    {
      fallbacks := fallbacks[name := chain];
    }

    method Mark(name: string, healthy: bool)
      modifies this`unhealthy
      ensures unhealthy == if healthy then old(unhealthy) - {name} else old(unhealthy) + {name}
      ensures View() == Step(old(View()), if healthy then MarkHealthy(name) else MarkUnhealthy(name))
    {
      unhealthy := if healthy then unhealthy - {name} else unhealthy + {name};
    }

    method Clear()
      modifies this`singletons, this`perUser
      ensures singletons == map[] && perUser == []
      ensures View() == Step(old(View()), ClearAll)
    {
      singletons, perUser := map[], [];
    }

    /** raised is the RuntimeError of an iterator whose dictionary changed, or its StopIteration. */
    method EvictPerUserIfNeeded() returns (raised: bool)
      modifies this`perUser
      ensures (perUser, raised) == Evict(old(perUser), maxPerUser)
    {
      raised := false;
      if |perUser| > maxPerUser {
        var excess := |perUser| - maxPerUser;
        var k := 0;
        while k < excess
          invariant 0 <= k <= 1 && k <= excess
          invariant k <= |old(perUser)| && perUser == old(perUser)[k..]
        {
          if perUser == [] || k > 0 {
            return true;
          }
          perUser := perUser[1..];
          k := k + 1;
        }
      }
    }

    method LookupOrCreate(key: Key, made: Attempt) returns (r: Option<Obj>)
      modifies this`perUser
      ensures (perUser, r) == Lookup(old(perUser), maxPerUser, key, made)
    {
      r := Find(perUser, key);
      if r.None? {
        var raised := EvictPerUserIfNeeded();
        if raised || made.Raises? {
          return None;
        }
        perUser := perUser + [(key, made.obj)];
        r := Some(made.obj);
      }
    }

    method ResolveService(name: string, user: Option<string>, made: Attempt) returns (r: Option<Obj>)
      modifies this`perUser, this`singletons
      ensures (View(), r) == Resolve(old(View()), name, user, made)
    {
      if name in ruleSets || name !in services || services[name].factory == NoFactory {
        return None;
      }
      var create := Created(services[name].factory, made);
      match services[name].scope
      case Transient =>
        r := Result(create);
      case PerUser =>
        if user.None? {
          return None;
        }
        r := LookupOrCreate(ByUser(name, user.value), create);
      case Singleton =>
        if name !in singletons {
          if create.Raises? {
            return None;
          }
          singletons := singletons[name := create.obj];
        }
        r := Some(singletons[name]);
    }

    method ClearUserInstances(user: string)
      modifies this`perUser
      ensures perUser == WithoutUser(old(perUser), user)
    {
      var kept := [];
      var i := 0;
      assert perUser[0..] == perUser;
      while i < |perUser|
        invariant 0 <= i <= |perUser| && perUser == old(perUser)
        invariant WithoutUser(old(perUser), user) == kept + WithoutUser(perUser[i..], user)
      {
        assert perUser[i..][1..] == perUser[i + 1..];
        if perUser[i].0.user != user {
          kept := kept + [perUser[i]];
        }
        i := i + 1;
      }
      perUser := kept;
    }

    method TryCandidate(name: string, user: Option<string>, passes: bool, made: Attempt) returns (r: Option<Obj>)
      modifies this`perUser, this`singletons, this`unhealthy
      ensures (View(), r) == TryOne(old(View()), name, user, passes, made)
    {
      r := None;
      if (name in services || name in ruleSets) && name !in unhealthy && passes {
        r := ResolveService(name, user, made);
        if r.None? {
          unhealthy := unhealthy + {name};
        }
      }
    }

    /** No exception comes out of this. */
    method ResolveFallingBack(name: string, user: Option<string>, w: World) returns (r: Obj)
      modifies this`perUser, this`singletons, this`unhealthy
      ensures (View(), r) == ResolveWithFallback(old(View()), name, user, w)
    {
      var found := TryCandidate(name, user, w.passes(0), w.makes(0));
      if found.Some? {
        return found.value;
      }
      var chain := if name in fallbacks then fallbacks[name] else [];
      ghost var names := Candidates(old(View()), name);
      var i := 0;
      while i < |chain|
        invariant 0 <= i <= |chain| && names == [name] + chain
        invariant TryFrom(View(), names, i + 1, user, w) == TryFrom(old(View()), names, 0, user, w)
      {
        assert names[i + 1] == chain[i];
        found := TryCandidate(chain[i], user, w.passes(i + 1), w.makes(i + 1));
        if found.Some? {
          return found.value;
        }
        i := i + 1;
      }
      r := if w.cluster.Some? then w.cluster.value else PyNone;
    }

    method ResolveFirst(names: seq<string>, user: Option<string>, w: nat -> World) returns (r: Obj)
      modifies this`perUser, this`singletons, this`unhealthy
      ensures (View(), r) == ResolveAny(old(View()), names, user, w)
    {
      var i := 0;
      while i < |names|
        invariant 0 <= i <= |names|
        invariant AnyFrom(View(), names, i, user, w) == AnyFrom(old(View()), names, 0, user, w)
      {
        r := ResolveFallingBack(names[i], user, w(i));
        if r != PyNone {
          return;
        }
        i := i + 1;
      }
      r := PyNone;
    }
  }
}

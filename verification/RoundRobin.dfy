/** Fairness of the round-robin cursor. */
module RoundRobin {
  import opened Arithmetic
  import opened Options
  import opened Registry
  import opened Interference

  /** The state after balancing a series of intent names. */
  function Balances(r: Registry, names: seq<string>): Registry {
    if names == [] then r else Balance(Balances(r, names[..|names| - 1]), names[|names| - 1]).0
  }

  /** The nodes picked for one name in the series, in order; calls for other names come in between. */
  function Picks(r: Registry, names: seq<string>, name: string): seq<string> {
    if names == [] then []
    else
      var before, last := names[..|names| - 1], names[|names| - 1];
      var pick := Balance(Balances(r, before), last).1;
      Picks(r, before, name) + if last == name && pick.Some? then [pick.value] else []
  }

  function Cursor(r: Registry, name: string): nat {
    if name in r.rr then r.rr[name] else 0
  }

  function Occurrences(names: seq<string>, name: string): nat {
    if names == [] then 0
    else Occurrences(names[..|names| - 1], name) + if names[|names| - 1] == name then 1 else 0
  }

  lemma {:induction false} SameHealthy(r: Registry, s: Registry, ids: seq<string>)
    requires r.nodes == s.nodes
    ensures AllHealthy(r, ids) == AllHealthy(s, ids)
  {
    if ids != [] { SameHealthy(r, s, ids[1..]); }
  }

  lemma {:induction false} BalancingMovesOnlyCursors(r: Registry, names: seq<string>, name: string)
    ensures Balances(r, names) == r.(rr := Balances(r, names).rr)
    ensures ResolveAll(Balances(r, names), name) == ResolveAll(r, name)
  {
    if names != [] { BalancingMovesOnlyCursors(r, names[..|names| - 1], name); }
    SameHealthy(r, Balances(r, names), Candidates(r, name));
  }

  lemma SuccessorModulo(x: nat, n: nat)
    requires n > 0
    ensures (x % n + 1) % n == (x + 1) % n
  {
    var q, m := Quotient(x, n);
    ModIs(x, n, q, m);
    if m + 1 < n {
      ModIs(x + 1, n, q, m + 1);
      ModIs(m + 1, n, 0, m + 1);
    } else {
      Distribute(n, q, 1);
      ModIs(x + 1, n, q + 1, 0);
      ModIs(m + 1, n, 1, 0);
    }
  }

  /** The k-th pick is the k-th healthy node after the cursor, cyclically. */
  lemma {:induction false} PicksCycle(r: Registry, names: seq<string>, name: string)
    requires ResolveAll(r, name) != []
    ensures var h, p := ResolveAll(r, name), Picks(r, names, name);
            && |p| == Occurrences(names, name)
            && (forall k | 0 <= k < |p| :: p[k] == h[(Cursor(r, name) + k) % |h|])
            && Cursor(Balances(r, names), name) % |h| == (Cursor(r, name) + |p|) % |h|
  {
    hide AllHealthy, Candidates;
    if names != [] {
      var before, last := names[..|names| - 1], names[|names| - 1];
      PicksCycle(r, before, name);
      BalancingMovesOnlyCursors(r, before, name);
      var h, c, n := ResolveAll(r, name), Cursor(r, name), |Picks(r, before, name)|;
      if last == name { SuccessorModulo(c + n, |h|); }
    }
  }

  // ---------- from one call to the next ----------

  /** Balances the name while a node of it is online. */
  ghost predicate Picking(r: Registry, events: seq<Event>, j: nat, name: string)
    requires j < |events|
  {
    events[j] == Balanced(name) && ResolveAll(Later(r, events[..j]), name) != []
  }

  lemma OtherEventsKeepCursor(r: Registry, e: Event, name: string)
    requires e == Balanced(name) ==> ResolveAll(r, name) == []
    ensures Cursor(Step(r, e), name) == Cursor(r, name)
  {
    hide IndexAdd, IndexRemove, AllHealthy;
  }

  lemma {:induction false} CursorStays(r: Registry, events: seq<Event>, name: string)
    requires forall j | 0 <= j < |events| :: !Picking(r, events, j, name)
    ensures Cursor(Later(r, events), name) == Cursor(r, name)
    decreases |events|
  {
    hide Step, Cursor, ResolveAll;
    if events != [] {
      var r1, rest := Step(r, events[0]), events[1..];
      assert events[..0] == [];
      assert !Picking(r, events, 0, name);
      OtherEventsKeepCursor(r, events[0], name);
      forall j | 0 <= j < |rest| ensures !Picking(r1, rest, j, name) {
        assert events[..j + 1][1..] == rest[..j];
        assert !Picking(r, events, j + 1, name);
      }
      CursorStays(r1, rest, name);
    }
  }

  lemma HealthyDistinct(r: Registry, name: string)
    requires WellFormed(r.index)
    ensures NoDuplicates(ResolveAll(r, name))
  {
    AllHealthySpec(r, Candidates(r, name));
  }

  lemma PickIsAtCursor(r: Registry, name: string, i: nat)
    requires var h := ResolveAll(r, name); NoDuplicates(h) && i < |h| && Balance(r, name).1 == Some(h[i])
    ensures Cursor(Balance(r, name).0, name) == i + 1
  {
    hide ResolveAll;
  }

  /** If a call picked position i of the nodes online then, the next call picks position i + 1, modulo
      their number, of those online by then: whatever registrations, statuses, heartbeats and other
      names' calls lie in between, and calls that found nobody. */
  lemma NextPickFollows(es: seq<Event>, name: string, i: nat, between: seq<Event>)
    requires var h := ResolveAll(Run(es), name);
             i < |h| && Balance(Run(es), name).1 == Some(h[i])
    requires forall j | 0 <= j < |between| :: !Picking(Balance(Run(es), name).0, between, j, name)
    ensures var r := Later(Balance(Run(es), name).0, between);
            var h := ResolveAll(r, name);
            Balance(r, name).1 == if h == [] then None else Some(h[(i + 1) % |h|])
  {
    hide Run, ResolveAll, Later, Picking, NoDuplicates, WellFormed, Complete;
    var r := Run(es);
    RunKeepsComplete(es);
    HealthyDistinct(r, name);
    PickIsAtCursor(r, name, i);
    CursorStays(Balance(r, name).0, between, name);
  }

  /** The first call that finds somebody picks the first. */
  lemma FirstPickIsFirst(events: seq<Event>, name: string)
    requires forall j | 0 <= j < |events| :: !Picking(EMPTY, events, j, name)
    ensures var r := Later(EMPTY, events);
            ResolveAll(r, name) != [] ==> Balance(r, name).1 == Some(ResolveAll(r, name)[0])
  {
    hide ResolveAll, Later, Picking;
    CursorStays(EMPTY, events, name);
  }

  // ---------- counting ----------

  function Count(ids: seq<string>, id: string): nat {
    if ids == [] then 0 else Count(ids[..|ids| - 1], id) + if ids[|ids| - 1] == id then 1 else 0
  }

  /** How many of the numbers below x leave remainder j. */
  function CountBelow(x: nat, n: nat, j: nat): nat
    requires j < n
  {
    (x + n - 1 - j) / n
  }

  lemma CountBelowStep(x: nat, n: nat, j: nat)
    requires j < n
    ensures CountBelow(x + 1, n, j) == CountBelow(x, n, j) + if x % n == j then 1 else 0
  {
    var q, m := x / n, x % n;
    assert x == n * q + m;
    var y := x + n - 1 - j;
    if m <= j {
      ModIs(y, n, q, m + n - 1 - j);
    } else {
      Distribute(n, q, 1);
      ModIs(y, n, q + 1, m - 1 - j);
    }
    if m < j {
      ModIs(y + 1, n, q, m + n - j);
    } else {
      Distribute(n, q, 1);
      ModIs(y + 1, n, q + 1, m - j);
    }
  }

  /** Counting one node in a cyclic list of picks. */
  lemma {:induction false} CountCyclic(p: seq<string>, h: seq<string>, c: nat, j: nat)
    requires NoDuplicates(h) && j < |h|
    requires forall k | 0 <= k < |p| :: p[k] == h[(c + k) % |h|]
    ensures Count(p, h[j]) == CountBelow(c + |p|, |h|, j) - CountBelow(c, |h|, j)
  {
    if p != [] {
      var last := |p| - 1;
      CountCyclic(p[..last], h, c, j);
      CountBelowStep(c + last, |h|, j);
      assert p[last] == h[j] <==> (c + last) % |h| == j;
    }
  }

  lemma SumDivided(b: nat, m: nat, n: nat)
    requires n > 0
    ensures (b + m) / n == b / n + m / n + (if b % n + m % n < n then 0 else 1)
  {
    var q, s, u, v := b / n, b % n, m / n, m % n;
    Distribute(n, q, u);
    if s + v < n {
      ModIs(b + m, n, q + u, s + v);
    } else {
      Distribute(n, q + u, 1);
      ModIs(b + m, n, q + u + 1, s + v - n);
    }
  }

  lemma WindowCount(c: nat, m: nat, n: nat, j: nat)
    requires j < n
    ensures m / n <= CountBelow(c + m, n, j) - CountBelow(c, n, j) <= m / n + (if m % n == 0 then 0 else 1)
  {
    var b := c + n - 1 - j;
    assert c + m + n - 1 - j == b + m;
    SumDivided(b, m, n);
  }

  /** Fairness: while node statuses and the index stay as they are, among the m calls for a name each
      of its n healthy nodes is picked floor(m/n) or ceil(m/n) times, however the calls interleave
      with those for other names. */
  lemma RoundRobinIsFair(es: seq<Event>, names: seq<string>, name: string, id: string)
    requires id in ResolveAll(Run(es), name)
    ensures var h, m := ResolveAll(Run(es), name), Occurrences(names, name);
            m / |h| <= Count(Picks(Run(es), names, name), id) <= m / |h| + (if m % |h| == 0 then 0 else 1)
  {
    hide Run, Picks, Balances, CountBelow, Count;
    var r := Run(es);
    var h := ResolveAll(r, name);
    RunKeepsComplete(es);
    AllHealthySpec(r, Candidates(r, name));
    PicksCycle(r, names, name);
    var j :| 0 <= j < |h| && h[j] == id;
    CountCyclic(Picks(r, names, name), h, Cursor(r, name), j);
    WindowCount(Cursor(r, name), Occurrences(names, name), |h|, j);
  }

  /** Any n consecutive calls for a name, from any reachable state, return each healthy node once. */
  lemma EachNodeOncePerRound(es: seq<Event>, names: seq<string>, name: string)
    requires ResolveAll(Run(es), name) != []
    requires Occurrences(names, name) == |ResolveAll(Run(es), name)|
    ensures var h, p := ResolveAll(Run(es), name), Picks(Run(es), names, name);
            |p| == |h| && forall id | id in h :: Count(p, id) == 1
  {
    var h := ResolveAll(Run(es), name);
    PicksCycle(Run(es), names, name);
    ModIs(|h|, |h|, 1, 0);
    forall id | id in h ensures Count(Picks(Run(es), names, name), id) == 1 {
      RoundRobinIsFair(es, names, name, id);
    }
  }
}

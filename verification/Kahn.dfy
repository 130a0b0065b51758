/** The in-degree queue sort that `resolveBootOrder` and `validateExecutionGraph`
    share, and what its result is: the greedy-least linear extension. */
module Kahn {
  import opened Base
  import opened Graph

  type Before = (Id, Id) -> bool

  ghost predicate StrictTotal(less: Before) {
    && (forall a :: !less(a, a))
    && (forall a, b :: a != b ==> less(a, b) || less(b, a))
    && (forall a, b, c :: less(a, b) && less(b, c) ==> less(a, c))
  }

  /** Every dependency is itself a node. */
  predicate Closed(g: Graph) {
    forall m :: m in g ==> forall d :: d in g[m] ==> d in g
  }

  // ---- indexing nodes by id ------------------------------------------------------

  function KeysOf<N>(key: N -> Id, nodes: seq<N>): (r: seq<Id>)
    ensures |r| == |nodes|
    ensures forall i :: 0 <= i < |nodes| ==> r[i] == key(nodes[i])
  {
    seq(|nodes|, i requires 0 <= i < |nodes| => key(nodes[i]))
  }

  /** The `byId` map: a later node replaces an earlier one with the same id. */
  function Index<N>(key: N -> Id, nodes: seq<N>): map<Id, N> {
    if nodes == [] then map[]
    else
      var n := |nodes| - 1;
      Index(key, nodes[..n])[key(nodes[n]) := nodes[n]]
  }

  lemma IndexSnoc<N>(key: N -> Id, nodes: seq<N>, node: N)
    ensures Index(key, nodes + [node]) == Index(key, nodes)[key(node) := node]
  {
  }

  method BuildIndex<N>(key: N -> Id, nodes: seq<N>) returns (byId: map<Id, N>)
    ensures byId == Index(key, nodes)
  {
    byId := map[];
    for i := 0 to |nodes|
      invariant byId == Index(key, nodes[..i])
    {
      SplitAt(nodes, i);
      IndexSnoc(key, nodes[..i], nodes[i]);
      byId := byId[key(nodes[i]) := nodes[i]];
    }
    WholePrefix(nodes);
  }

  lemma {:induction false} IndexMembers<N(!new)>(key: N -> Id, nodes: seq<N>)
    ensures Index(key, nodes).Keys == Elements(KeysOf(key, nodes))
    ensures Distinct(KeysOf(key, nodes)) ==> forall m :: m in nodes ==> Index(key, nodes)[key(m)] == m
    ensures forall id :: id in Index(key, nodes) ==> Index(key, nodes)[id] in nodes && key(Index(key, nodes)[id]) == id
  {
    if nodes != [] {
      var n := |nodes| - 1;
      IndexMembers(key, nodes[..n]);
      assert nodes == nodes[..n] + [nodes[n]];
      var ids := KeysOf(key, nodes);
      assert ids == KeysOf(key, nodes[..n]) + [key(nodes[n])];
      if Distinct(ids) {
        forall m | m in nodes ensures Index(key, nodes)[key(m)] == m {
          var i :| 0 <= i <= n && nodes[i] == m;
          assert ids[i] == key(m) && ids[n] == key(nodes[n]);
          assert i < n ==> nodes[..n][i] == m;
        }
      }
    }
  }

  /** Some node depends on `d`, which is not a node. */
  ghost predicate Unregistered(g: Graph, d: Id) {
    d !in g && exists m :: m in g && d in g[m]
  }

  method MissingDependencies(ids: seq<Id>, g: Graph) returns (missing: seq<Id>)
    requires g.Keys == Elements(ids)
    ensures forall d :: d in missing <==> Unregistered(g, d)
    ensures missing == [] <==> Closed(g)
  {
    missing := [];
    for i := 0 to |ids|
      invariant forall d :: d in missing <==> d !in g && exists m :: m in ids[..i] && m in g && d in g[m]
    {
      assert ids[i] in Elements(ids);
      ghost var before := missing;
      var ds := g[ids[i]];
      for j := 0 to |ds|
        invariant forall d :: d in missing <==> d in before || (d !in g && d in ds[..j])
      {
        SplitAt(ds, j);
        if ds[j] !in g {
          missing := missing + [ds[j]];
        }
      }
      WholePrefix(ds);
      SplitAt(ids, i);
      assert forall m :: m in ids[..i + 1] <==> m in ids[..i] || m == ids[i];
    }
    WholePrefix(ids);
    assert forall m :: m in g <==> m in ids;
    ClosedIffNoneUnregistered(g);
    assert missing != [] ==> missing[0] in missing;
  }

  lemma ClosedIffNoneUnregistered(g: Graph)
    ensures Closed(g) <==> forall d :: !Unregistered(g, d)
  {
    if !Closed(g) {
      var m, d :| m in g && d in g[m] && d !in g;
      assert Unregistered(g, d);
    }
  }

  /** The set constructor spread back into an array: each entry once. */
  function Dedupe(s: seq<Id>): (r: seq<Id>)
    ensures Distinct(r) && forall x :: x in r <==> x in s
  {
    if s == [] then []
    else
      var n := |s| - 1;
      var r := Dedupe(s[..n]);
      assert s == s[..n] + [s[n]];
      if s[n] in r then r else r + [s[n]]
  }

  // ---- what the sort computes -------------------------------------------------

  /** `x` is not emitted yet, and everything it depends on is. */
  ghost predicate Available(g: Graph, done: set<Id>, x: Id) {
    x in g && x !in done && Elements(g[x]) <= done
  }

  ghost predicate Least(less: Before, g: Graph, done: set<Id>, x: Id) {
    && Available(g, done, x)
    && forall y :: Available(g, done, y) && y != x ==> less(x, y)
  }

  /** Each entry is the least node available at its turn. */
  ghost predicate Greedy(less: Before, g: Graph, order: seq<Id>) {
    forall i :: 0 <= i < |order| ==> Least(less, g, Elements(order[..i]), order[i])
  }

  ghost predicate Exhausted(g: Graph, order: seq<Id>) {
    forall x :: !Available(g, Elements(order), x)
  }

  /** The greedy order stops only when nothing is available, and then there is one such order. */
  lemma GreedyUnique(less: Before, g: Graph, a: seq<Id>, b: seq<Id>)
    requires StrictTotal(less)
    requires Greedy(less, g, a) && Exhausted(g, a)
    requires Greedy(less, g, b) && Exhausted(g, b)
    ensures a == b
  {
    if |a| <= |b| {
      GreedyNoLonger(less, g, a, b);
    } else {
      GreedyNoLonger(less, g, b, a);
    }
  }

  lemma {:induction false} LeastExists(less: Before, s: set<Id>) returns (m: Id)
    requires StrictTotal(less) && s != {}
    ensures m in s && forall y :: y in s && y != m ==> less(m, y)
    decreases |s|
  {
    var x :| x in s;
    var rest := s - {x};
    if rest == {} {
      assert s == {x};
      m := x;
    } else {
      var n := LeastExists(less, rest);
      m := if less(x, n) then x else n;
      forall y | y in s && y != m ensures less(m, y) {
        assert y == x || y == n || (y in rest && less(n, y));
      }
    }
  }

  lemma LeastAvailable(less: Before, g: Graph, done: set<Id>, x: Id) returns (m: Id)
    requires StrictTotal(less) && Available(g, done, x)
    ensures Least(less, g, done, m)
  {
    var candidates := set y | y in g && Available(g, done, y);
    assert x in candidates;
    m := LeastExists(less, candidates);
  }

  /** A greedy order can always be continued until nothing is available. */
  lemma {:induction false} GreedyExists(less: Before, g: Graph, order: seq<Id>) returns (full: seq<Id>)
    requires StrictTotal(less) && Greedy(less, g, order)
    ensures Greedy(less, g, full) && Exhausted(g, full)
    decreases g.Keys - Elements(order)
  {
    if x :| Available(g, Elements(order), x) {
      var m := LeastAvailable(less, g, Elements(order), x);
      var next := order + [m];
      forall i | 0 <= i < |next| ensures Least(less, g, Elements(next[..i]), next[i]) {
        assert next[..i] == order[..i];
        WholePrefix(order);
      }
      assert Elements(next) == Elements(order) + {m};
      full := GreedyExists(less, g, next);
    } else {
      full := order;
    }
  }

  lemma GreedyNoLonger(less: Before, g: Graph, a: seq<Id>, b: seq<Id>)
    requires StrictTotal(less)
    requires Greedy(less, g, a) && Exhausted(g, a) && Greedy(less, g, b)
    requires |a| <= |b|
    ensures a == b
  {
    if |a| < |b| {
      NextAvailable(less, g, b, |a|);
    }
    GreedyAgree(less, g, a, b, |a|);
    WholePrefix(a);
    WholePrefix(b);
  }

  lemma NextAvailable(less: Before, g: Graph, order: seq<Id>, k: nat)
    requires Greedy(less, g, order) && k < |order|
    ensures Available(g, Elements(order[..k]), order[k])
  {
  }

  lemma {:induction false} GreedyAgree(less: Before, g: Graph, a: seq<Id>, b: seq<Id>, k: nat)
    requires StrictTotal(less)
    requires Greedy(less, g, a) && Greedy(less, g, b)
    requires k <= |a| && k <= |b|
    ensures a[..k] == b[..k]
  {
    if k > 0 {
      GreedyAgree(less, g, a, b, k - 1);
      SplitAt(a, k - 1);
      SplitAt(b, k - 1);
      assert Least(less, g, Elements(a[..k - 1]), a[k - 1]);
      assert Least(less, g, Elements(b[..k - 1]), b[k - 1]);
    }
  }

  lemma GreedyLinear(less: Before, g: Graph, order: seq<Id>)
    requires Greedy(less, g, order)
    ensures Linear(g, order)
  {
  }

  /** What the sort leaves over is exactly the set of nodes that lead into a cycle. */
  lemma LeftOverReachesCycle(less: Before, g: Graph, order: seq<Id>)
    requires Closed(g) && Greedy(less, g, order) && Exhausted(g, order)
    ensures Stuck(g, g.Keys - Elements(order))
    ensures forall x :: x in g ==> (x !in order <==> ReachesCycle(g, x))
  {
    var rest := g.Keys - Elements(order);
    GreedyLinear(less, g, order);
    forall x | x in rest ensures HasSuccessorIn(g, x, rest) {
      assert !Available(g, Elements(order), x);
      var y :| y in Elements(g[x]) && y !in Elements(order);
      assert Edge(g, x, y) && y in rest;
    }
    forall x | x in g ensures x !in order <==> ReachesCycle(g, x) {
      if x in order {
        LinearReachesNoCycle(g, order, x);
      } else {
        assert x in rest;
        StuckReachesCycle(g, rest, x);
      }
    }
  }

  /** The left-over set is the greatest set whose members all depend on members. */
  lemma LeftOverIsGreatest(less: Before, g: Graph, order: seq<Id>, s: set<Id>)
    requires Greedy(less, g, order)
    requires Stuck(g, s)
    ensures s !! Elements(order)
  {
    GreedyLinear(less, g, order);
    forall x | x in s ensures x !in order {
      if x in order {
        LinearReachesNoCycle(g, order, x);
        StuckReachesCycle(g, s, x);
        assert false;
      }
    }
  }

  lemma CompleteIffAcyclic(less: Before, g: Graph, order: seq<Id>)
    requires Closed(g) && Greedy(less, g, order) && Exhausted(g, order)
    ensures |order| == |g| <==> Acyclic(g)
    ensures |order| == |g| <==> Elements(order) == g.Keys
  {
    GreedyLinear(less, g, order);
    LeftOverReachesCycle(less, g, order);
    AcyclicIffNoneReaches(g);
    DistinctSize(order);
    assert Elements(order) <= g.Keys by {
      forall x | x in order ensures x in g {
        var i :| 0 <= i < |order| && order[i] == x;
        assert Least(less, g, Elements(order[..i]), order[i]);
      }
    }
    if Elements(order) != g.Keys {
      var x :| x in g.Keys && x !in Elements(order);
      SubsetSize(Elements(order), g.Keys - {x});
      assert |order| < |g.Keys|;
    }
    assert |g| == |g.Keys|;
  }

  // ---- the queue: a library sort ----------------------------------------------

  ghost predicate Sorted(less: Before, s: seq<Id>) {
    forall i, j :: 0 <= i < j < |s| ==> !less(s[j], s[i])
  }

  function Insert(less: Before, s: seq<Id>, x: Id): (r: seq<Id>)
    ensures multiset(r) == multiset(s) + multiset{x}
  {
    if s == [] then [x]
    else if less(x, s[0]) then [x] + s
    else
      assert s == [s[0]] + s[1..];
      [s[0]] + Insert(less, s[1..], x)
  }

  /** The array sort of the source: the sorted permutation of the queue. */
  function Sort(less: Before, s: seq<Id>): (r: seq<Id>)
    ensures multiset(r) == multiset(s)
  {
    if s == [] then []
    else
      assert s == [s[0]] + s[1..];
      Insert(less, Sort(less, s[1..]), s[0])
  }

  lemma ConsSorted(less: Before, x: Id, s: seq<Id>)
    requires Sorted(less, s) && forall y :: y in s ==> !less(y, x)
    ensures Sorted(less, [x] + s)
  {
  }

  lemma {:induction false} InsertSorted(less: Before, s: seq<Id>, x: Id)
    requires StrictTotal(less) && Sorted(less, s)
    ensures Sorted(less, Insert(less, s, x))
  {
    if s != [] {
      if less(x, s[0]) {
        forall y | y in s ensures !less(y, x) {
          var j :| 0 <= j < |s| && s[j] == y;
          assert j > 0 ==> !less(s[j], s[0]);
        }
        ConsSorted(less, x, s);
      } else {
        var rest := Insert(less, s[1..], x);
        InsertSorted(less, s[1..], x);
        PermutationMembers(rest, s[1..] + [x]);
        forall y | y in rest ensures !less(y, s[0]) {
          assert y in s[1..] || y == x;
        }
        ConsSorted(less, s[0], rest);
      }
    }
  }

  lemma {:induction false} SortSorted(less: Before, s: seq<Id>)
    requires StrictTotal(less)
    ensures Sorted(less, Sort(less, s))
  {
    if s != [] {
      SortSorted(less, s[1..]);
      InsertSorted(less, Sort(less, s[1..]), s[0]);
    }
  }

  lemma SortKeepsDistinct(less: Before, s: seq<Id>)
    requires Distinct(s)
    ensures Distinct(Sort(less, s))
    ensures forall x :: x in Sort(less, s) <==> x in s
  {
    PermutationMembers(Sort(less, s), s);
    PermutationDistinct(Sort(less, s), s);
  }

  // ---- in-degrees -------------------------------------------------------------

  /** How many entries of a dependency list are not emitted yet, counting repeats. */
  ghost function Pending(ds: seq<Id>, done: set<Id>): nat {
    if ds == [] then 0
    else (if ds[0] in done then 0 else 1) + Pending(ds[1..], done)
  }

  lemma {:induction false} PendingNone(ds: seq<Id>)
    ensures Pending(ds, {}) == |ds|
  {
    if ds != [] { PendingNone(ds[1..]); }
  }

  lemma {:induction false} PendingZero(ds: seq<Id>, done: set<Id>)
    ensures Pending(ds, done) == 0 <==> Elements(ds) <= done
  {
    if ds != [] {
      PendingZero(ds[1..], done);
      assert ds == [ds[0]] + ds[1..];
      assert Elements(ds) == {ds[0]} + Elements(ds[1..]);
    }
  }

  /** Emitting `x` lowers the count by the number of times `x` is listed. */
  lemma {:induction false} PendingEmit(ds: seq<Id>, done: set<Id>, x: Id)
    requires x !in done
    ensures Pending(ds, done + {x}) == Pending(ds, done) - multiset(ds)[x]
  {
    if ds != [] {
      PendingEmit(ds[1..], done, x);
      assert ds == [ds[0]] + ds[1..];
    }
  }

  ghost predicate Degrees(g: Graph, inDegree: map<Id, int>, done: set<Id>) {
    inDegree.Keys == g.Keys && forall m :: m in g ==> inDegree[m] == Pending(g[m], done)
  }

  function DependentsOf(dependents: map<Id, seq<Id>>, d: Id): seq<Id> {
    if d in dependents then dependents[d] else []
  }

  /** `dependents` inverts `g` on the nodes in `seen`, repeats included. */
  ghost predicate Inverts(g: Graph, dependents: map<Id, seq<Id>>, seen: set<Id>) {
    forall d, m ::
      multiset(DependentsOf(dependents, d))[m] == if m in seen && m in g then multiset(g[m])[d] else 0
  }

  // ---- the loops --------------------------------------------------------------

  method InitialDegrees(nodes: seq<Id>, g: Graph) returns (inDegree: map<Id, int>)
    requires g.Keys == Elements(nodes)
    ensures Degrees(g, inDegree, {})
  {
    inDegree := map[];
    for i := 0 to |nodes|
      invariant inDegree.Keys == Elements(nodes[..i])
      invariant forall m :: m in inDegree ==> m in g && inDegree[m] == |g[m]|
    {
      SplitAt(nodes, i);
      assert nodes[i] in Elements(nodes);
      inDegree := inDegree[nodes[i] := |g[nodes[i]]|];
    }
    WholePrefix(nodes);
    forall m | m in g ensures inDegree[m] == Pending(g[m], {}) {
      PendingNone(g[m]);
    }
  }

  method AddDependent(dependents: map<Id, seq<Id>>, node: Id, ds: seq<Id>) returns (r: map<Id, seq<Id>>)
    ensures forall d, m ::
      multiset(DependentsOf(r, d))[m] ==
      multiset(DependentsOf(dependents, d))[m] + if m == node then multiset(ds)[d] else 0
  {
    r := dependents;
    for j := 0 to |ds|
      invariant forall d, m ::
        multiset(DependentsOf(r, d))[m] ==
        multiset(DependentsOf(dependents, d))[m] + if m == node then multiset(ds[..j])[d] else 0
    {
      SplitAt(ds, j);
      r := r[ds[j] := DependentsOf(r, ds[j]) + [node]];
    }
    WholePrefix(ds);
  }

  method InvertEdges(nodes: seq<Id>, g: Graph) returns (dependents: map<Id, seq<Id>>)
    requires g.Keys == Elements(nodes) && Distinct(nodes)
    ensures Inverts(g, dependents, g.Keys)
  {
    dependents := map[];
    for i := 0 to |nodes|
      invariant Inverts(g, dependents, Elements(nodes[..i]))
    {
      SplitAt(nodes, i);
      assert nodes[i] in Elements(nodes);
      assert nodes[i] !in nodes[..i];
      dependents := AddDependent(dependents, nodes[i], g[nodes[i]]);
    }
    WholePrefix(nodes);
  }

  /** The nodes with no dependencies, in input order. */
  method InitialReady(nodes: seq<Id>, g: Graph, inDegree: map<Id, int>) returns (ready: seq<Id>)
    requires g.Keys == Elements(nodes) && Distinct(nodes)
    requires Degrees(g, inDegree, {})
    ensures Distinct(ready)
    ensures forall x :: x in ready <==> Available(g, {}, x)
  {
    ready := [];
    for i := 0 to |nodes|
      invariant Distinct(ready)
      invariant forall x :: x in ready <==> x in nodes[..i] && x in inDegree && inDegree[x] == 0
    {
      SplitAt(nodes, i);
      assert nodes[i] in Elements(nodes);
      assert nodes[i] !in nodes[..i];
      if inDegree[nodes[i]] == 0 {
        ready := ready + [nodes[i]];
      }
    }
    WholePrefix(nodes);
    forall x ensures x in ready <==> Available(g, {}, x) {
      assert x in nodes <==> x in Elements(nodes);
      if x in g { PendingZero(g[x], {}); }
    }
  }

  /** The degrees and the queue once the dependents `ds` have each been counted down. */
  ghost predicate Lowered(inDegree: map<Id, int>, ready: seq<Id>, ds: seq<Id>, degrees: map<Id, int>, queue: seq<Id>) {
    && degrees.Keys == inDegree.Keys
    && Distinct(queue)
    && (forall m :: m in inDegree ==> degrees[m] == inDegree[m] - multiset(ds)[m])
    && forall m :: m in queue <==> m in ready || (m in ds && m in degrees && degrees[m] == 0)
  }

  lemma LoweredStep(inDegree: map<Id, int>, ready: seq<Id>, ds: seq<Id>, k: nat,
                    degrees: map<Id, int>, queue: seq<Id>, degrees': map<Id, int>, queue': seq<Id>)
    requires k < |ds| && Lowered(inDegree, ready, ds[..k], degrees, queue)
    requires ds[k] in inDegree
    requires ds[k] in ready ==> inDegree[ds[k]] == 0
    requires inDegree[ds[k]] >= multiset(ds)[ds[k]]
    requires degrees' == degrees[ds[k] := degrees[ds[k]] - 1]
    requires queue' == if degrees'[ds[k]] == 0 then queue + [ds[k]] else queue
    ensures Lowered(inDegree, ready, ds[..k + 1], degrees', queue')
  {
    var m := ds[k];
    SplitAt(ds, k);
    PrefixCount(ds, k + 1, m);
    assert m !in ready && degrees[m] > 0;
    forall x ensures x in queue' <==> x in ready || (x in ds[..k + 1] && x in degrees' && degrees'[x] == 0) {
      assert x in ds[..k + 1] <==> x in ds[..k] || x == m;
      assert x in queue' <==> x in queue || (x == m && degrees'[m] == 0);
    }
  }

  /** One round of the queue: lower the degree of each dependent of the node just emitted and
      queue those that reach zero. `eager` re-sorts the queue at every push, as
      `validateExecutionGraph` does; `resolveBootOrder` sorts once after the round. */
  method Release(less: Before, ds: seq<Id>, inDegree: map<Id, int>, ready: seq<Id>, eager: bool)
    returns (degrees: map<Id, int>, queue: seq<Id>)
    requires forall m :: m in ds ==> m in inDegree
    requires forall m :: m in ready && m in inDegree ==> inDegree[m] == 0
    requires forall m :: m in inDegree ==> inDegree[m] >= multiset(ds)[m]
    requires StrictTotal(less) && Distinct(ready)
    ensures Lowered(inDegree, ready, ds, degrees, queue)
    ensures eager && Sorted(less, ready) ==> Sorted(less, queue)
  {
    degrees, queue := inDegree, ready;
    for k := 0 to |ds|
      invariant Lowered(inDegree, ready, ds[..k], degrees, queue)
      invariant eager && Sorted(less, ready) ==> Sorted(less, queue)
    {
      ghost var degrees0, queue0 := degrees, queue;
      var degree := degrees[ds[k]] - 1;
      degrees := degrees[ds[k] := degree];
      if degree == 0 {
        queue := queue + [ds[k]];
      }
      LoweredStep(inDegree, ready, ds, k, degrees0, queue0, degrees, queue);
      if degree == 0 && eager {
        SortKeepsDistinct(less, queue);
        SortSorted(less, queue);
        queue := Sort(less, queue);
      }
    }
    WholePrefix(ds);
  }

  lemma PrefixCount(s: seq<Id>, k: nat, x: Id)
    requires k <= |s|
    ensures multiset(s[..k])[x] <= multiset(s)[x]
  {
    assert s == s[..k] + s[k..];
  }

  /** What holds each time the queue is about to be shifted. */
  ghost predicate QueueInv(less: Before, g: Graph, inDegree: map<Id, int>, ready: seq<Id>, order: seq<Id>) {
    && Greedy(less, g, order)
    && Degrees(g, inDegree, Elements(order))
    && Distinct(ready) && Sorted(less, ready)
    && forall x :: x in ready <==> Available(g, Elements(order), x)
  }

  lemma HeadIsLeast(less: Before, g: Graph, inDegree: map<Id, int>, ready: seq<Id>, order: seq<Id>)
    requires StrictTotal(less) && QueueInv(less, g, inDegree, ready, order) && ready != []
    ensures Least(less, g, Elements(order), ready[0])
    ensures Greedy(less, g, order + [ready[0]])
    ensures Elements(order + [ready[0]]) == Elements(order) + {ready[0]}
  {
    assert ready[0] in ready;
    forall y | Available(g, Elements(order), y) && y != ready[0] ensures less(ready[0], y) {
      var j :| 0 <= j < |ready| && ready[j] == y;
      assert !less(ready[j], ready[0]);
    }
    var next := order + [ready[0]];
    forall i | 0 <= i < |next| ensures Least(less, g, Elements(next[..i]), next[i]) {
      assert next[..i] == order[..i];
      WholePrefix(order);
    }
  }

  /** After a round the queue again holds exactly the available nodes. */
  lemma RoundKeepsAvailable(g: Graph, done: set<Id>, next: Id, ds: seq<Id>, degrees: map<Id, int>, x: Id)
    requires Available(g, done, next)
    requires Degrees(g, degrees, done + {next})
    requires forall m :: m in ds <==> m in g && next in g[m]
    ensures Available(g, done + {next}, x) <==>
            (x != next && Available(g, done, x)) || (x in ds && x !in done && degrees[x] == 0)
  {
    if x in g {
      PendingZero(g[x], done + {next});
      if x == next {
        assert next in g[x] <==> next in Elements(g[x]);
      } else if Available(g, done + {next}, x) && !Available(g, done, x) {
        var d :| d in Elements(g[x]) && d !in done;
        assert d == next;
      }
    }
  }

  /** The queue loop shared by both sorts. */
  method TopologicalOrder(less: Before, nodes: seq<Id>, g: Graph, eager: bool) returns (order: seq<Id>)
    requires StrictTotal(less)
    requires g.Keys == Elements(nodes) && Distinct(nodes) && Closed(g)
    ensures Greedy(less, g, order) && Exhausted(g, order)
  {
    var inDegree := InitialDegrees(nodes, g);
    var dependents := InvertEdges(nodes, g);
    var ready := InitialReady(nodes, g, inDegree);
    SortKeepsDistinct(less, ready);
    SortSorted(less, ready);
    ready := Sort(less, ready);
    order := [];
    assert Elements(order) == {};
    while ready != []
      invariant QueueInv(less, g, inDegree, ready, order)
      decreases g.Keys - Elements(order)
    {
      HeadIsLeast(less, g, inDegree, ready, order);
      inDegree, ready, order := Emit(less, g, dependents, inDegree, ready, order, eager);
    }
    assert forall x :: !Available(g, Elements(order), x);
  }

  /** Shift the head of the queue, append it to the order and release its dependents. */
  method Emit(less: Before, g: Graph, dependents: map<Id, seq<Id>>,
              inDegree: map<Id, int>, ready: seq<Id>, order: seq<Id>, eager: bool)
    returns (degrees: map<Id, int>, queue: seq<Id>, emitted: seq<Id>)
    requires StrictTotal(less) && Inverts(g, dependents, g.Keys)
    requires QueueInv(less, g, inDegree, ready, order) && ready != []
    ensures QueueInv(less, g, degrees, queue, emitted)
    ensures emitted == order + [ready[0]]
  {
    HeadIsLeast(less, g, inDegree, ready, order);
    var next := ready[0];
    emitted := order + [next];
    var ds := DependentsOf(dependents, next);
    BeforeRound(less, g, dependents, inDegree, ready, order, ds);
    degrees, queue := Release(less, ds, inDegree, ready[1..], eager);
    AfterRound(less, g, dependents, ready, order, ds, degrees, queue);
    if !eager {
      SortKeepsDistinct(less, queue);
      SortSorted(less, queue);
      queue := Sort(less, queue);
    }
  }

  /** The degrees of the dependents are high enough for the round to lower them. */
  lemma BeforeRound(less: Before, g: Graph, dependents: map<Id, seq<Id>>,
                    inDegree: map<Id, int>, ready: seq<Id>, order: seq<Id>, ds: seq<Id>)
    requires Inverts(g, dependents, g.Keys) && QueueInv(less, g, inDegree, ready, order) && ready != []
    requires ds == DependentsOf(dependents, ready[0])
    ensures forall m :: m in ds ==> m in inDegree
    ensures forall m :: m in ready[1..] && m in inDegree ==> inDegree[m] == 0
    ensures forall m :: m in g ==> Pending(g[m], Elements(order) + {ready[0]}) == inDegree[m] - multiset(ds)[m]
    ensures Distinct(ready[1..])
  {
    var next, done := ready[0], Elements(order);
    DependentsAre(g, dependents, next, ds);
    assert ready[0] in ready;
    forall m | m in g
      ensures Pending(g[m], done + {next}) == inDegree[m] - multiset(ds)[m]
      ensures m in ready ==> inDegree[m] == 0
    {
      PendingEmit(g[m], done, next);
      PendingZero(g[m], done);
    }
  }

  /** The queue after the round holds exactly the nodes available after the emission. */
  lemma AfterRound(less: Before, g: Graph, dependents: map<Id, seq<Id>>, ready: seq<Id>, order: seq<Id>,
                   ds: seq<Id>, degrees: map<Id, int>, queue: seq<Id>)
    requires Inverts(g, dependents, g.Keys) && Greedy(less, g, order) && ready != [] && Distinct(ready)
    requires forall x :: x in ready <==> Available(g, Elements(order), x)
    requires ds == DependentsOf(dependents, ready[0])
    requires Degrees(g, degrees, Elements(order) + {ready[0]})
    requires forall m :: m in ds ==> m in degrees
    requires forall m :: m in queue <==> m in ready[1..] || (m in ds && degrees[m] == 0)
    ensures forall x :: x in queue <==> Available(g, Elements(order) + {ready[0]}, x)
  {
    var next, done := ready[0], Elements(order);
    DependentsAre(g, dependents, next, ds);
    assert ready[0] in ready;
    assert ready == [ready[0]] + ready[1..];
    forall x ensures x in queue <==> Available(g, done + {next}, x) {
      RoundKeepsAvailable(g, done, next, ds, degrees, x);
      assert x in ready[1..] <==> x in ready && x != next;
      if x in done {
        EmittedAreSettled(less, g, order, x);
        assert x in ds ==> next in Elements(g[x]);
      }
    }
  }

  lemma DependentsAre(g: Graph, dependents: map<Id, seq<Id>>, next: Id, ds: seq<Id>)
    requires Inverts(g, dependents, g.Keys) && ds == DependentsOf(dependents, next)
    ensures forall m :: m in ds <==> m in g && next in g[m]
  {
  }

  /** Whatever an emitted node depends on was emitted too. */
  lemma EmittedAreSettled(less: Before, g: Graph, order: seq<Id>, m: Id)
    requires Greedy(less, g, order) && m in order
    ensures m in g && Elements(g[m]) <= Elements(order)
  {
  }

  // ---- how both callers end ---------------------------------------------------------

  /** The sort reached every node: the graph is acyclic and `order` is its greedy-least
      linear extension, listing each node once. */
  ghost predicate CompleteOrder(less: Before, g: Graph, ids: seq<Id>, order: seq<Id>) {
    && Acyclic(g)
    && Permutation(order, ids) && Linear(g, order)
    && Greedy(less, g, order) && Exhausted(g, order)
  }

  /** The sort stopped early: `cycle` lists, in input order and once each, exactly the nodes
      from which a cycle can be reached. */
  ghost predicate CycleReport(g: Graph, ids: seq<Id>, cycle: seq<Id>) {
    && !Acyclic(g)
    && Distinct(cycle)
    && (forall x :: x in cycle <==> x in g && ReachesCycle(g, x))
    && forall a, b :: Precedes(cycle, a, b) ==> Precedes(ids, a, b)
  }

  /** The ids that the sort did not reach, in input order. */
  function LeftOver(ids: seq<Id>, order: seq<Id>): seq<Id> {
    Filter(Outside(order), ids)
  }

  function Outside(order: seq<Id>): Id -> bool {
    id => id !in order
  }

  lemma SortOutcome(less: Before, g: Graph, ids: seq<Id>, order: seq<Id>)
    requires Distinct(ids) && g.Keys == Elements(ids) && Closed(g)
    requires Greedy(less, g, order) && Exhausted(g, order)
    ensures |order| == |ids| ==> CompleteOrder(less, g, ids, order)
    ensures |order| != |ids| ==> CycleReport(g, ids, LeftOver(ids, order))
  {
    DistinctSize(ids);
    assert |g| == |g.Keys| == |ids|;
    CompleteIffAcyclic(less, g, order);
    GreedyLinear(less, g, order);
    if |order| == |ids| {
      DistinctPermutation(order, ids);
    } else {
      LeftOverReachesCycle(less, g, order);
      LeftOverInOrder(ids, order);
      forall x ensures x in LeftOver(ids, order) <==> x in g && ReachesCycle(g, x) {
        assert x in ids <==> x in Elements(ids);
      }
    }
  }

  lemma LeftOverInOrder(ids: seq<Id>, order: seq<Id>)
    requires Distinct(ids)
    ensures Distinct(LeftOver(ids, order))
    ensures forall x :: x in LeftOver(ids, order) <==> x in ids && x !in order
    ensures forall a, b :: Precedes(LeftOver(ids, order), a, b) ==> Precedes(ids, a, b)
  {
    var f := Outside(order);
    FilterDistinct(f, ids);
    forall a, b | Precedes(Filter(f, ids), a, b) ensures Precedes(ids, a, b) {
      FilterPrecedes(f, ids, a, b);
    }
  }
}

/** Directed graphs given by successor lists: walks, cycles, and the two facts that
    decide whether a graph can be ordered. */
module Graph {
  import opened Base

  /** Maps a node to the list of nodes it points at; the list may repeat entries. */
  type Graph = map<Id, seq<Id>>

  predicate Edge(g: Graph, a: Id, b: Id) {
    a in g && b in g[a]
  }

  ghost predicate Walk(g: Graph, w: seq<Id>) {
    && |w| > 0
    && forall i :: 0 < i < |w| ==> Edge(g, w[i - 1], w[i])
  }

  ghost predicate Cycle(g: Graph, w: seq<Id>) {
    Walk(g, w) && |w| > 1 && w[0] == w[|w| - 1]
  }

  ghost predicate Acyclic(g: Graph) {
    forall w :: !Cycle(g, w)
  }

  ghost predicate OnCycle(g: Graph, x: Id) {
    exists w :: Cycle(g, w) && w[0] == x
  }

  /** `x` can be followed along edges to a node that lies on a cycle. */
  ghost predicate ReachesCycle(g: Graph, x: Id) {
    exists w :: Walk(g, w) && w[0] == x && OnCycle(g, w[|w| - 1])
  }

  /** Every member of `s` points at a member of `s`. */
  ghost predicate Stuck(g: Graph, s: set<Id>) {
    forall x :: x in s ==> HasSuccessorIn(g, x, s)
  }

  ghost predicate HasSuccessorIn(g: Graph, x: Id, s: set<Id>) {
    exists y :: y in s && Edge(g, x, y)
  }

  /** `order` lists nodes so that everything a node points at comes before it. */
  ghost predicate Linear(g: Graph, order: seq<Id>) {
    && Distinct(order)
    && forall i :: 0 <= i < |order| ==> order[i] in g && Elements(g[order[i]]) <= Elements(order[..i])
  }

  /** From a stuck set one can walk as far as one likes without leaving it. */
  lemma {:induction false} WalkInside(g: Graph, s: set<Id>, x: Id, n: nat) returns (w: seq<Id>)
    requires Stuck(g, s) && x in s
    ensures Walk(g, w) && |w| == n + 1 && w[0] == x && Elements(w) <= s
  {
    if n == 0 {
      w := [x];
    } else {
      var v := WalkInside(g, s, x, n - 1);
      var last := v[n - 1];
      assert last in Elements(v);
      assert HasSuccessorIn(g, last, s);
      var y :| y in s && Edge(g, last, y);
      w := v + [y];
    }
  }

  lemma SubWalk(g: Graph, w: seq<Id>, i: nat, j: nat)
    requires Walk(g, w) && i < j <= |w|
    ensures Walk(g, w[i..j])
  {
  }

  /** A walk that ends on a repeated node shows its start reaches a cycle. */
  lemma RepeatReachesCycle(g: Graph, w: seq<Id>, i: nat, j: nat)
    requires Walk(g, w) && i < j < |w| && w[i] == w[j]
    ensures ReachesCycle(g, w[0])
  {
    var loop, approach := w[i..j + 1], w[..i + 1];
    SubWalk(g, w, i, j + 1);
    assert Cycle(g, loop) && loop[0] == w[i];
    SubWalk(g, w, 0, i + 1);
    assert approach == w[0..i + 1];
    assert Walk(g, approach) && approach[0] == w[0] && approach[|approach| - 1] == w[i];
  }

  lemma StuckReachesCycle(g: Graph, s: set<Id>, x: Id)
    requires Stuck(g, s) && x in s
    ensures ReachesCycle(g, x)
  {
    var w := WalkInside(g, s, x, |s|);
    var i, j := Pigeonhole(w, s);
    RepeatReachesCycle(g, w, i, j);
  }

  /** Along a walk that starts inside a linear order, positions strictly decrease. */
  lemma {:induction false} WalkDescends(g: Graph, order: seq<Id>, w: seq<Id>, k: nat) returns (m: nat)
    requires Linear(g, order) && Walk(g, w)
    requires k < |order| && order[k] == w[0]
    ensures m < |order| && order[m] == w[|w| - 1]
    ensures m + |w| - 1 <= k
  {
    if |w| == 1 {
      m := k;
    } else {
      var rest := w[1..];
      assert Edge(g, w[0], w[1]);
      assert w[1] in Elements(g[order[k]]);
      assert w[1] in order[..k];
      var k' :| 0 <= k' < k && order[k'] == w[1];
      assert forall i :: 0 < i < |rest| ==> rest[i - 1] == w[i] && rest[i] == w[i + 1];
      m := WalkDescends(g, order, rest, k');
    }
  }

  /** Nodes of a linear order reach no cycle. */
  lemma LinearReachesNoCycle(g: Graph, order: seq<Id>, x: Id)
    requires Linear(g, order) && x in order
    ensures !ReachesCycle(g, x)
  {
    if ReachesCycle(g, x) {
      var w :| Walk(g, w) && w[0] == x && OnCycle(g, w[|w| - 1]);
      var k :| 0 <= k < |order| && order[k] == x;
      var m := WalkDescends(g, order, w, k);
      var c :| Cycle(g, c) && c[0] == w[|w| - 1];
      var n := WalkDescends(g, order, c, m);
      assert false;
    }
  }

  lemma AcyclicIffNoneReaches(g: Graph)
    ensures Acyclic(g) <==> forall x :: x in g ==> !ReachesCycle(g, x)
  {
    if Acyclic(g) {
      forall x | x in g ensures !ReachesCycle(g, x) {
      }
    } else {
      var c :| Cycle(g, c);
      assert Edge(g, c[0], c[1]);
      assert Walk(g, [c[0]]) && OnCycle(g, c[0]);
      assert ReachesCycle(g, c[0]);
    }
  }

  /** A node that reaches a cycle points at a node that does. */
  lemma NextTowardsCycle(g: Graph, x: Id) returns (y: Id)
    requires ReachesCycle(g, x)
    ensures Edge(g, x, y) && ReachesCycle(g, y)
  {
    var w :| Walk(g, w) && w[0] == x && OnCycle(g, w[|w| - 1]);
    if |w| == 1 {
      var c :| Cycle(g, c) && c[0] == x;
      assert Edge(g, c[0], c[1]);
      y := c[1];
      SubWalk(g, c, 1, |c|);
      assert c[1..|c|][0] == y && c[1..|c|][|c| - 2] == x;
    } else {
      assert Edge(g, w[0], w[1]);
      y := w[1];
      SubWalk(g, w, 1, |w|);
      assert w[1..|w|][0] == y && w[1..|w|][|w| - 2] == w[|w| - 1];
    }
  }
}

/** packages/event-foundation/src/audit.ts: detecting a causation cycle among events. */
module Lineage {
  import opened Base
  import opened Graph

  datatype LineageNode = LineageNode(eventId: Id, causationId: Option<Id>)

  /** The parent pointers; the last entry for a repeated event id wins. */
  function Parents(nodes: seq<LineageNode>): map<Id, Option<Id>> {
    if nodes == [] then map[]
    else
      var n := |nodes| - 1;
      Parents(nodes[..n])[nodes[n].eventId := nodes[n].causationId]
  }

  function CauseGraph(parent: map<Id, Option<Id>>): Graph {
    map id | id in parent :: if parent[id].Some? then [parent[id].value] else []
  }

  function Parent(parent: map<Id, Option<Id>>, id: Id): Option<Id> {
    if id in parent then parent[id] else None
  }

  lemma {:induction false} ParentsKeys(nodes: seq<LineageNode>)
    ensures forall id :: id in Parents(nodes) <==> exists i :: 0 <= i < |nodes| && nodes[i].eventId == id
  {
    if nodes != [] {
      var n := |nodes| - 1;
      ParentsKeys(nodes[..n]);
      forall id ensures id in Parents(nodes) <==> exists i :: 0 <= i < |nodes| && nodes[i].eventId == id {
        if id in Parents(nodes[..n]) {
          var i :| 0 <= i < n && nodes[..n][i].eventId == id;
          assert nodes[i].eventId == id;
        }
        if i :| 0 <= i < |nodes| && nodes[i].eventId == id {
          assert i < n ==> nodes[..n][i].eventId == id;
        }
      }
    }
  }

  /** Pointers leave one way to go, so what leads to a cycle goes on leading to it. */
  lemma PointerLeadsOn(parent: map<Id, Option<Id>>, x: Id)
    requires ReachesCycle(CauseGraph(parent), x)
    ensures Parent(parent, x).Some? && ReachesCycle(CauseGraph(parent), Parent(parent, x).value)
  {
    var y := NextTowardsCycle(CauseGraph(parent), x);
  }

  /** Following the pointers from one event until they end or repeat: they repeat exactly when they
      lead to a cycle. */
  method PointersRepeat(parent: map<Id, Option<Id>>, start: Id) returns (r: bool)
    ensures r <==> ReachesCycle(CauseGraph(parent), start)
  {
    ghost var g := CauseGraph(parent);
    ghost var universe := parent.Keys + {start} + set id | id in parent && parent[id].Some? :: parent[id].value;
    var seen: set<Id> := {};
    var cur := Some(start);
    ghost var trail: seq<Id> := [];
    while cur.Some?
      invariant seen == Elements(trail)
      invariant cur.Some? ==> cur.value in universe && Walk(g, trail + [cur.value])
      invariant cur.Some? ==> (trail + [cur.value])[0] == start
      invariant seen <= universe
      invariant ReachesCycle(g, start) ==> cur.Some? && ReachesCycle(g, cur.value)
      decreases universe - seen, cur.Some?
    {
      var id := cur.value;
      if id in seen {
        RepeatedPointer(g, trail, id);
        return true;
      }
      if ReachesCycle(g, start) {
        PointerLeadsOn(parent, id);
      }
      seen := seen + {id};
      cur := Parent(parent, id);
      ExtendTrail(g, trail, id, cur);
      trail := trail + [id];
    }
    return false;
  }

  lemma ExtendTrail(g: Graph, trail: seq<Id>, id: Id, next: Option<Id>)
    requires Walk(g, trail + [id]) && (next.Some? ==> Edge(g, id, next.value))
    ensures next.Some? ==> Walk(g, trail + [id] + [next.value])
    ensures Elements(trail + [id]) == Elements(trail) + {id}
  {
  }

  lemma RepeatedPointer(g: Graph, trail: seq<Id>, id: Id)
    requires Walk(g, trail + [id]) && id in trail
    ensures ReachesCycle(g, (trail + [id])[0])
  {
    var i :| 0 <= i < |trail| && trail[i] == id;
    RepeatReachesCycle(g, trail + [id], i, |trail|);
  }

  lemma AcyclicIffNoStart(nodes: seq<LineageNode>)
    ensures Acyclic(CauseGraph(Parents(nodes))) <==>
            forall k :: 0 <= k < |nodes| ==> !LeadsToCycle(Parents(nodes), nodes[k])
  {
    var g := CauseGraph(Parents(nodes));
    ParentsKeys(nodes);
    AcyclicIffNoneReaches(g);
    forall k | 0 <= k < |nodes| ensures nodes[k].eventId in g {
    }
    if !Acyclic(g) {
      var x :| x in g && ReachesCycle(g, x);
      var k :| 0 <= k < |nodes| && nodes[k].eventId == x;
      assert LeadsToCycle(Parents(nodes), nodes[k]);
    }
  }

  method BuildParents(nodes: seq<LineageNode>) returns (parent: map<Id, Option<Id>>)
    ensures parent == Parents(nodes)
  {
    parent := map[];
    for i := 0 to |nodes|
      invariant parent == Parents(nodes[..i])
    {
      parent := parent[nodes[i].eventId := nodes[i].causationId];
      assert nodes[..i + 1][..i] == nodes[..i];
    }
    WholePrefix(nodes);
  }

  ghost predicate LeadsToCycle(parent: map<Id, Option<Id>>, node: LineageNode) {
    ReachesCycle(CauseGraph(parent), node.eventId)
  }

  /** Whether the pointers from some listed event repeat. */
  method SomeRepeats(parent: map<Id, Option<Id>>, nodes: seq<LineageNode>) returns (r: bool)
    ensures r <==> exists k :: 0 <= k < |nodes| && LeadsToCycle(parent, nodes[k])
  {
    for i := 0 to |nodes|
      invariant forall k :: 0 <= k < i ==> !LeadsToCycle(parent, nodes[k])
    {
      var repeats := PointersRepeat(parent, nodes[i].eventId);
      assert repeats == LeadsToCycle(parent, nodes[i]);
      if repeats {
        return true;
      }
    }
    return false;
  }

  method HasLineageCycle(nodes: seq<LineageNode>) returns (r: bool)
    ensures r <==> !Acyclic(CauseGraph(Parents(nodes)))
  {
    var parent := BuildParents(nodes);
    AcyclicIffNoStart(nodes);
    r := SomeRepeats(parent, nodes);
  }
}

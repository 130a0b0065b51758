/** packages/orchestrator/src/execution-graph.ts: validation of an execution graph. */
module ExecutionGraph {
  import opened Base
  import opened Graph
  import opened Kahn

  datatype ExecutionNode = ExecutionNode(id: Id, action: string, dependsOn: seq<Id>)

  type Nodes = map<Id, ExecutionNode>

  datatype Validation =
    | Valid(order: seq<Id>)
    | DuplicateNode(id: Id)
    | MissingDependency(nodes: seq<Id>)
    | CycleFound(nodes: seq<Id>)

  function NodeKey(): ExecutionNode -> Id {
    (n: ExecutionNode) => n.id
  }

  function IdsOf(nodes: seq<ExecutionNode>): seq<Id> {
    KeysOf(NodeKey(), nodes)
  }

  function ById(nodes: seq<ExecutionNode>): Nodes {
    Index(NodeKey(), nodes)
  }

  function Dependencies(byId: Nodes): Graph {
    map id | id in byId :: byId[id].dependsOn
  }

  /** `d` is the id at which the first repetition is noticed. */
  ghost predicate FirstRepeat(ids: seq<Id>, d: Id) {
    exists j :: 0 <= j < |ids| && ids[j] == d && d in ids[..j] && Distinct(ids[..j])
  }

  ghost predicate Validates(nodes: seq<ExecutionNode>, idLess: Before, r: Validation) {
    var ids, g := IdsOf(nodes), Dependencies(ById(nodes));
    match r
    case DuplicateNode(d) => !Distinct(ids) && FirstRepeat(ids, d)
    case MissingDependency(missing) =>
      Distinct(ids) && !Closed(g) && Distinct(missing) && forall d :: d in missing <==> Unregistered(g, d)
    case Valid(order) => Distinct(ids) && Closed(g) && CompleteOrder(idLess, g, ids, order)
    case CycleFound(cycle) => Distinct(ids) && Closed(g) && CycleReport(g, ids, cycle)
  }

  lemma GraphNodes(nodes: seq<ExecutionNode>)
    ensures Dependencies(ById(nodes)).Keys == Elements(IdsOf(nodes))
  {
    IndexMembers(NodeKey(), nodes);
  }

  /** Index the nodes, stopping at the first id already taken. */
  method IndexOnce(nodes: seq<ExecutionNode>) returns (byId: Nodes, repeated: Option<Id>)
    ensures repeated.None? ==> Distinct(IdsOf(nodes)) && byId == ById(nodes)
    ensures repeated.Some? ==> !Distinct(IdsOf(nodes)) && FirstRepeat(IdsOf(nodes), repeated.value)
  {
    byId, repeated := map[], None;
    ghost var ids := IdsOf(nodes);
    for i := 0 to |nodes|
      invariant byId == ById(nodes[..i])
      invariant byId.Keys == Elements(ids[..i])
      invariant Distinct(ids[..i])
    {
      SplitAt(nodes, i);
      SplitAt(ids, i);
      if nodes[i].id in byId {
        assert ids[i] in ids[..i];
        ghost var k :| 0 <= k < i && ids[k] == ids[i];
        return byId, Some(nodes[i].id);
      }
      IndexSnoc(NodeKey(), nodes[..i], nodes[i]);
      byId := byId[nodes[i].id := nodes[i]];
      assert ids[i] !in ids[..i];
    }
    WholePrefix(nodes);
    WholePrefix(ids);
  }

  /** A graph is accepted exactly when its ids are distinct, its dependencies are nodes and
      nothing depends on itself through others. */
  method ValidateExecutionGraph(nodes: seq<ExecutionNode>, idLess: Before) returns (r: Validation)
    requires StrictTotal(idLess)
    ensures Validates(nodes, idLess, r)
    ensures r.Valid? <==>
            Distinct(IdsOf(nodes)) && Closed(Dependencies(ById(nodes))) && Acyclic(Dependencies(ById(nodes)))
  {
    var byId, repeated := IndexOnce(nodes);
    if repeated.Some? {
      return DuplicateNode(repeated.value);
    }
    var g := Dependencies(byId);
    var ids := IdsOf(nodes);
    GraphNodes(nodes);
    var missing := MissingDependencies(ids, g);
    if |missing| > 0 {
      return MissingDependency(Dedupe(missing));
    }
    var order := TopologicalOrder(idLess, ids, g, true);
    SortOutcome(idLess, g, ids, order);
    if |order| != |nodes| {
      r := CycleFound(LeftOver(ids, order));
    } else {
      r := Valid(order);
    }
  }
}

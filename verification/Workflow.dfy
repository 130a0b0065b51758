/** packages/orchestrator/src/workflow.ts: running a validated execution graph. */
module Workflow {
  import opened Base
  import opened Graph
  import opened Kahn
  import opened ExecutionGraph

  datatype StepStatus = Succeeded | Failed | Skipped

  datatype StepResult = StepResult(nodeId: Id, action: string, status: StepStatus)

  /** What one call of the injected step runner does; the runner may report any status. */
  datatype RunnerCall = Returned(result: StepResult) | Threw

  /** A node is handed to the runner at most once, so one run of any runner is such a function. */
  type Runner = ExecutionNode -> RunnerCall

  datatype WorkflowStatus = AllSucceeded | Partial | AllFailed | Invalid

  datatype WorkflowResult = WorkflowResult(status: WorkflowStatus, steps: seq<StepResult>)

  function Outcome(runner: Runner, node: ExecutionNode): StepResult {
    match runner(node)
    case Returned(result) => result
    case Threw => StepResult(node.id, node.action, Failed)
  }

  function SkippedResult(node: ExecutionNode): StepResult {
    StepResult(node.id, node.action, Skipped)
  }

  // ---- the law the engine is meant to follow ------------------------------------------

  /** Some transitive prerequisite of `x` does not succeed. No order is mentioned. */
  ghost predicate Doomed(byId: Nodes, runner: Runner, x: Id) {
    exists w :: DoomedVia(byId, runner, x, w)
  }

  ghost predicate DoomedVia(byId: Nodes, runner: Runner, x: Id, w: seq<Id>) {
    && Walk(Dependencies(byId), w) && |w| > 1 && w[0] == x
    && w[|w| - 1] in byId && Outcome(runner, byId[w[|w| - 1]]).status != Succeeded
  }

  ghost function Lawful(byId: Nodes, runner: Runner, x: Id): StepResult
    requires x in byId
  {
    if Doomed(byId, runner, x) then SkippedResult(byId[x]) else Outcome(runner, byId[x])
  }

  /** A node is doomed exactly when one of its direct dependencies lawfully does not succeed. */
  lemma DoomedUnfold(byId: Nodes, runner: Runner, x: Id)
    requires Closed(Dependencies(byId)) && x in byId
    ensures Doomed(byId, runner, x) <==>
            exists d :: d in byId[x].dependsOn && d in byId && Lawful(byId, runner, d).status != Succeeded
  {
    var g := Dependencies(byId);
    if w :| DoomedVia(byId, runner, x, w) {
      var d := w[1];
      assert Edge(g, w[0], w[1]);
      assert d in byId;
      if |w| > 2 {
        SubWalk(g, w, 1, |w|);
        assert DoomedVia(byId, runner, d, w[1..|w|]);
      }
      assert Lawful(byId, runner, d).status != Succeeded;
    }
    if d :| d in byId[x].dependsOn && d in byId && Lawful(byId, runner, d).status != Succeeded {
      if Doomed(byId, runner, d) {
        var w :| DoomedVia(byId, runner, d, w);
        var v := [x] + w;
        forall i | 0 < i < |v| ensures Edge(g, v[i - 1], v[i]) {
          if i == 1 { assert Edge(g, x, d); } else { assert Edge(g, w[i - 2], w[i - 1]); }
        }
        assert DoomedVia(byId, runner, x, v);
      } else {
        assert Edge(g, x, d);
        assert DoomedVia(byId, runner, x, [x, d]);
      }
    }
  }

  // ---- what the engine does -----------------------------------------------------------

  /** The loop's variables: results so far, ids that did not succeed, and the runner's call log. */
  datatype Progress = Progress(results: map<Id, StepResult>, unsuccessful: set<Id>, calls: seq<Id>)

  /** `dependsOn.find(...)`: the first listed dependency that did not succeed. */
  function FirstUnsuccessful(deps: seq<Id>, unsuccessful: set<Id>): Option<Id> {
    if deps == [] then None
    else if deps[0] in unsuccessful then Some(deps[0])
    else FirstUnsuccessful(deps[1..], unsuccessful)
  }

  /** The engine tests the found id for truth, and the empty string is false. */
  predicate Blocks(found: Option<Id>) {
    found.Some? && found.value != ""
  }

  function Advance(runner: Runner, node: ExecutionNode, p: Progress): Progress {
    if Blocks(FirstUnsuccessful(node.dependsOn, p.unsuccessful)) then
      Progress(p.results[node.id := SkippedResult(node)], p.unsuccessful + {node.id}, p.calls)
    else
      var result := Outcome(runner, node);
      Progress(p.results[node.id := result],
               if result.status != Succeeded then p.unsuccessful + {node.id} else p.unsuccessful,
               p.calls + [node.id])
  }

  function RunInOrder(byId: Nodes, runner: Runner, order: seq<Id>): Progress {
    if order == [] then Progress(map[], {}, [])
    else
      var n := |order| - 1;
      var p := RunInOrder(byId, runner, order[..n]);
      if order[n] in byId then Advance(runner, byId[order[n]], p) else p
  }

  function Summary(steps: seq<StepResult>): WorkflowStatus {
    if !exists i :: 0 <= i < |steps| && steps[i].status != Succeeded then AllSucceeded
    else if exists i :: 0 <= i < |steps| && steps[i].status == Succeeded then Partial
    else AllFailed
  }

  /** The steps reported for a finished run, in execution order. */
  function StepsOf(order: seq<Id>, p: Progress): (r: seq<StepResult>)
    requires forall x :: x in order ==> x in p.results
    ensures |r| == |order| && forall i :: 0 <= i < |order| ==> r[i] == p.results[order[i]]
  {
    seq(|order|, i requires 0 <= i < |order| => p.results[order[i]])
  }

  ghost predicate WellKeyed(byId: Nodes) {
    forall id :: id in byId ==> byId[id].id == id
  }

  lemma {:induction false} EveryStepHasAResult(byId: Nodes, runner: Runner, order: seq<Id>)
    requires Elements(order) <= byId.Keys && WellKeyed(byId)
    ensures RunInOrder(byId, runner, order).results.Keys == Elements(order)
  {
    if order != [] {
      var n := |order| - 1;
      SplitAt(order, n);
      WholePrefix(order);
      assert order[n] in Elements(order);
      EveryStepHasAResult(byId, runner, order[..n]);
    }
  }

  method RunNodes(byId: Nodes, runner: Runner, order: seq<Id>) returns (p: Progress)
    ensures p == RunInOrder(byId, runner, order)
  {
    p := Progress(map[], {}, []);
    for k := 0 to |order|
      invariant p == RunInOrder(byId, runner, order[..k])
    {
      assert order[..k + 1][..k] == order[..k];
      if order[k] in byId {
        p := Advance(runner, byId[order[k]], p);
      }
    }
    WholePrefix(order);
  }

  ghost predicate Runnable(nodes: seq<ExecutionNode>) {
    Distinct(IdsOf(nodes)) && Closed(Dependencies(ById(nodes))) && Acyclic(Dependencies(ById(nodes)))
  }

  method Execute(nodes: seq<ExecutionNode>, idLess: Before, runner: Runner)
    returns (result: WorkflowResult, calls: seq<Id>, order: seq<Id>)
    requires StrictTotal(idLess)
    ensures result.status == Invalid <==> !Runnable(nodes)
    ensures result.status == Invalid ==> result.steps == [] && calls == []
    ensures result.status != Invalid ==>
      && CompleteOrder(idLess, Dependencies(ById(nodes)), IdsOf(nodes), order)
      && var p := RunInOrder(ById(nodes), runner, order);
         && p.results.Keys == Elements(order)
         && result == WorkflowResult(Summary(StepsOf(order, p)), StepsOf(order, p))
         && calls == p.calls
    ensures result.status != Invalid && EmptyIdUnused(ById(nodes)) ==> FollowsLaw(ById(nodes), runner, order)
  {
    var validation := ValidateExecutionGraph(nodes, idLess);
    if !validation.Valid? {
      return WorkflowResult(Invalid, []), [], [];
    }
    order := validation.order;
    var byId := BuildIndex(NodeKey(), nodes);
    OrderCoversNodes(nodes, order);
    var p := RunNodes(byId, runner, order);
    EveryStepHasAResult(byId, runner, order);
    if EmptyIdUnused(byId) {
      LawHolds(byId, runner, order);
    }
    var steps := StepsOf(order, p);
    return WorkflowResult(Summary(steps), steps), p.calls, order;
  }

  lemma OrderCoversNodes(nodes: seq<ExecutionNode>, order: seq<Id>)
    requires Permutation(order, IdsOf(nodes))
    ensures Elements(order) == ById(nodes).Keys
    ensures WellKeyed(ById(nodes))
  {
    IndexMembers(NodeKey(), nodes);
    PermutationMembers(order, IdsOf(nodes));
  }

  // ---- when the engine follows the law ----------------------------------------------------

  /** Every node ran exactly once if nothing upstream failed and was skipped otherwise. */
  ghost predicate FollowsLaw(byId: Nodes, runner: Runner, order: seq<Id>) {
    var p := RunInOrder(byId, runner, order);
    && Distinct(p.calls)
    && (forall x :: x in order ==> x in byId && x in p.results && p.results[x] == Lawful(byId, runner, x))
    && forall x :: x in p.calls <==> x in order && !Doomed(byId, runner, x)
  }

  /** No node lists the empty id as a dependency. */
  predicate EmptyIdUnused(byId: Nodes) {
    forall x :: x in byId ==> "" !in byId[x].dependsOn
  }

  lemma {:induction false} FirstUnsuccessfulFinds(deps: seq<Id>, unsuccessful: set<Id>)
    ensures FirstUnsuccessful(deps, unsuccessful).Some? <==> exists d :: d in deps && d in unsuccessful
    ensures FirstUnsuccessful(deps, unsuccessful).Some? ==>
            FirstUnsuccessful(deps, unsuccessful).value in deps && FirstUnsuccessful(deps, unsuccessful).value in unsuccessful
  {
    if deps != [] {
      assert deps == [deps[0]] + deps[1..];
      FirstUnsuccessfulFinds(deps[1..], unsuccessful);
    }
  }

  lemma PrefixLinear(g: Graph, order: seq<Id>, n: nat)
    requires Linear(g, order) && n <= |order|
    ensures Linear(g, order[..n])
  {
  }

  /** `p` is what the law prescribes after the nodes in `seen`. */
  ghost predicate Tracks(byId: Nodes, runner: Runner, seen: set<Id>, p: Progress) {
    && seen <= byId.Keys && p.results.Keys == seen
    && Distinct(p.calls)
    && (forall x :: x in seen ==> p.results[x] == Lawful(byId, runner, x))
    && (forall x :: x in p.calls <==> x in seen && !Doomed(byId, runner, x))
    && forall x :: x in p.unsuccessful <==> x in seen && Lawful(byId, runner, x).status != Succeeded
  }

  lemma AdvanceTracks(byId: Nodes, runner: Runner, seen: set<Id>, p: Progress, x: Id)
    requires WellKeyed(byId) && Tracks(byId, runner, seen, p)
    requires x in byId && x !in seen
    requires Blocks(FirstUnsuccessful(byId[x].dependsOn, p.unsuccessful)) <==> Doomed(byId, runner, x)
    ensures Tracks(byId, runner, seen + {x}, Advance(runner, byId[x], p))
  {
  }

  lemma {:induction false} RunTracks(byId: Nodes, runner: Runner, order: seq<Id>)
    requires WellKeyed(byId) && Closed(Dependencies(byId)) && Linear(Dependencies(byId), order)
    requires EmptyIdUnused(byId)
    ensures Tracks(byId, runner, Elements(order), RunInOrder(byId, runner, order))
  {
    if order == [] {
      assert Elements(order) == {};
    } else {
      var n := |order| - 1;
      PrefixLinear(Dependencies(byId), order, n);
      SplitAt(order, n);
      WholePrefix(order);
      var p := RunInOrder(byId, runner, order[..n]);
      RunTracks(byId, runner, order[..n]);
      BlockedIffDoomed(byId, runner, order, n, p);
      assert order[n] !in order[..n];
      AdvanceTracks(byId, runner, Elements(order[..n]), p, order[n]);
    }
  }

  lemma BlockedIffDoomed(byId: Nodes, runner: Runner, order: seq<Id>, n: nat, p: Progress)
    requires Closed(Dependencies(byId)) && Linear(Dependencies(byId), order)
    requires EmptyIdUnused(byId) && n < |order|
    requires Tracks(byId, runner, Elements(order[..n]), p)
    ensures order[n] in byId
    ensures Blocks(FirstUnsuccessful(byId[order[n]].dependsOn, p.unsuccessful)) <==> Doomed(byId, runner, order[n])
  {
    DependenciesRanBefore(byId, order, n);
    FirstUnsuccessfulFinds(byId[order[n]].dependsOn, p.unsuccessful);
    DoomedUnfold(byId, runner, order[n]);
  }

  /** For every runner and whatever linear extension is used, the engine follows the law,
      provided the empty id is nobody's dependency. */
  lemma LawHolds(byId: Nodes, runner: Runner, order: seq<Id>)
    requires WellKeyed(byId) && Closed(Dependencies(byId)) && Linear(Dependencies(byId), order)
    requires EmptyIdUnused(byId)
    ensures FollowsLaw(byId, runner, order)
  {
    RunTracks(byId, runner, order);
    assert forall x :: x in order <==> x in Elements(order);
  }

  lemma DependenciesRanBefore(byId: Nodes, order: seq<Id>, n: nat)
    requires Linear(Dependencies(byId), order) && n < |order|
    ensures order[n] in byId
    ensures forall d :: d in byId[order[n]].dependsOn ==> d in order[..n] && d in byId
  {
    var g := Dependencies(byId);
    assert order[n] in g;
    forall d | d in g[order[n]] ensures d in order[..n] && d in byId {
      assert d in Elements(g[order[n]]) && d in Elements(order[..n]);
      var i :| 0 <= i < n && order[i] == d;
      assert order[i] in g;
    }
  }

  // ---- what every run reports --------------------------------------------------------------------

  predicate Unsuccessful(results: map<Id, StepResult>, d: Id) {
    d in results && results[d].status != Succeeded
  }

  /** The dependency at position `i` is the first listed one that did not succeed. */
  ghost predicate FirstBad(results: map<Id, StepResult>, deps: seq<Id>, i: nat) {
    i < |deps| && Unsuccessful(results, deps[i]) && forall j :: 0 <= j < i ==> !Unsuccessful(results, deps[j])
  }

  /** The first unsuccessful dependency, if there is one, has a name. */
  ghost predicate Held(results: map<Id, StepResult>, deps: seq<Id>) {
    exists i: nat :: FirstBad(results, deps, i) && deps[i] != ""
  }

  /** What the engine does with a node: it skips it if its first unsuccessful dependency has a name, and otherwise
      reports what the runner returned, or a failure if the runner threw. */
  ghost predicate Reported(byId: Nodes, runner: Runner, p: Progress, x: Id) {
    && x in byId && x in p.results
    && (Held(p.results, byId[x].dependsOn) ==>
          p.results[x] == StepResult(x, byId[x].action, Skipped) && x !in p.calls)
    && (!Held(p.results, byId[x].dependsOn) ==>
          && x in p.calls
          && (runner(byId[x]).Returned? ==> p.results[x] == runner(byId[x]).result)
          && (runner(byId[x]).Threw? ==> p.results[x] == StepResult(x, byId[x].action, Failed)))
  }

  /** The engine's notes agree with its results. */
  ghost predicate Consistent(byId: Nodes, seen: set<Id>, p: Progress) {
    && p.results.Keys == seen <= byId.Keys && Distinct(p.calls) && (forall x :: x in p.calls ==> x in seen)
    && forall x :: x in p.unsuccessful <==> Unsuccessful(p.results, x)
  }

  lemma {:induction false} FirstUnsuccessfulIs(deps: seq<Id>, unsuccessful: set<Id>)
    ensures FirstUnsuccessful(deps, unsuccessful).Some? ==>
            exists i :: 0 <= i < |deps| && deps[i] == FirstUnsuccessful(deps, unsuccessful).value && deps[i] in unsuccessful &&
                        forall j :: 0 <= j < i ==> deps[j] !in unsuccessful
    ensures FirstUnsuccessful(deps, unsuccessful).None? ==> forall j :: 0 <= j < |deps| ==> deps[j] !in unsuccessful
  {
    if deps != [] && deps[0] !in unsuccessful {
      FirstUnsuccessfulIs(deps[1..], unsuccessful);
      if FirstUnsuccessful(deps[1..], unsuccessful).Some? {
        var i :| 0 <= i < |deps[1..]| && deps[1..][i] == FirstUnsuccessful(deps[1..], unsuccessful).value &&
                 deps[1..][i] in unsuccessful && forall j :: 0 <= j < i ==> deps[1..][j] !in unsuccessful;
        assert forall j :: 1 <= j < i + 1 ==> deps[j] == deps[1..][j - 1];
        assert deps[i + 1] == deps[1..][i];
      }
    }
  }

  lemma BlocksIff(deps: seq<Id>, p: Progress)
    requires forall x :: x in p.unsuccessful <==> Unsuccessful(p.results, x)
    ensures Blocks(FirstUnsuccessful(deps, p.unsuccessful)) <==> Held(p.results, deps)
  {
    FirstUnsuccessfulIs(deps, p.unsuccessful);
    if FirstUnsuccessful(deps, p.unsuccessful).Some? {
      var i :| 0 <= i < |deps| && deps[i] == FirstUnsuccessful(deps, p.unsuccessful).value && deps[i] in p.unsuccessful &&
               forall j :: 0 <= j < i ==> deps[j] !in p.unsuccessful;
      assert FirstBad(p.results, deps, i);
      assert forall k: nat :: FirstBad(p.results, deps, k) ==> k == i;
    }
  }

  /** A result that is not among a node's dependencies does not change whether the node is blocked. */
  lemma OtherResult(results: map<Id, StepResult>, deps: seq<Id>, y: Id, r: StepResult)
    requires y !in deps
    ensures Held(results[y := r], deps) <==> Held(results, deps)
  {
    var next := results[y := r];
    assert forall j :: 0 <= j < |deps| ==> (Unsuccessful(next, deps[j]) <==> Unsuccessful(results, deps[j]));
    assert forall i: nat :: FirstBad(next, deps, i) <==> FirstBad(results, deps, i);
  }

  lemma AdvanceReports(byId: Nodes, runner: Runner, seen: set<Id>, p: Progress, y: Id)
    requires WellKeyed(byId) && Consistent(byId, seen, p) && y in byId && y !in seen && y !in byId[y].dependsOn
    ensures Consistent(byId, seen + {y}, Advance(runner, byId[y], p))
    ensures Reported(byId, runner, Advance(runner, byId[y], p), y)
  {
    BlocksIff(byId[y].dependsOn, p);
    OtherResult(p.results, byId[y].dependsOn, y, Advance(runner, byId[y], p).results[y]);
  }

  lemma EarlierReportsStay(byId: Nodes, runner: Runner, p: Progress, y: Id, x: Id)
    requires WellKeyed(byId) && y in byId && x != y && Reported(byId, runner, p, x) && y !in byId[x].dependsOn
    ensures Reported(byId, runner, Advance(runner, byId[y], p), x)
  {
    OtherResult(p.results, byId[x].dependsOn, y, Advance(runner, byId[y], p).results[y]);
  }

  /** For every plan that validates, every runner and every linear extension, with or without the empty id: each
      node is reported by the rule, and called at most once. */
  lemma {:induction false} EveryNodeIsReported(byId: Nodes, runner: Runner, order: seq<Id>)
    requires WellKeyed(byId) && Closed(Dependencies(byId)) && Linear(Dependencies(byId), order)
    ensures Consistent(byId, Elements(order), RunInOrder(byId, runner, order))
    ensures forall x :: x in order ==> Reported(byId, runner, RunInOrder(byId, runner, order), x)
  {
    if order == [] {
      assert Elements(order) == {};
    } else {
      var n := |order| - 1;
      var p, y := RunInOrder(byId, runner, order[..n]), order[n];
      PrefixLinear(Dependencies(byId), order, n);
      SplitAt(order, n);
      WholePrefix(order);
      EveryNodeIsReported(byId, runner, order[..n]);
      assert y !in order[..n];
      DependenciesRanBefore(byId, order, n);
      AdvanceReports(byId, runner, Elements(order[..n]), p, y);
      forall x | x in order[..n] ensures Reported(byId, runner, Advance(runner, byId[y], p), x) {
        var i :| 0 <= i < n && order[i] == x;
        DependenciesRanBefore(byId, order, i);
        assert forall d :: d in order[..i] ==> d in order[..n];
        EarlierReportsStay(byId, runner, p, y, x);
      }
    }
  }

  /** The runner that only ever fails the node named by the empty string. */
  function FailsOnlyEmpty(): Runner {
    (node: ExecutionNode) => Returned(StepResult(node.id, node.action, if node.id == "" then Failed else Succeeded))
  }

  lemma {:induction false} EmptyFailureBlocksNobody(byId: Nodes, order: seq<Id>)
    requires WellKeyed(byId) && Elements(order) <= byId.Keys
    ensures RunInOrder(byId, FailsOnlyEmpty(), order).calls == order
    ensures RunInOrder(byId, FailsOnlyEmpty(), order).unsuccessful <= {""}
  {
    if order != [] {
      var n := |order| - 1;
      SplitAt(order, n);
      WholePrefix(order);
      EmptyFailureBlocksNobody(byId, order[..n]);
      assert order[n] in Elements(order);
      FirstUnsuccessfulFinds(byId[order[n]].dependsOn, RunInOrder(byId, FailsOnlyEmpty(), order[..n]).unsuccessful);
    }
  }

  /** Exactly when every runner's failures stop everything downstream of them: the empty id must
      not be a dependency, because a dependency named "" is found but tested as false. */
  lemma LawHoldsIff(byId: Nodes, order: seq<Id>)
    requires WellKeyed(byId) && Closed(Dependencies(byId)) && Linear(Dependencies(byId), order)
    requires Elements(order) == byId.Keys
    ensures (forall runner: Runner :: FollowsLaw(byId, runner, order)) <==> EmptyIdUnused(byId)
  {
    if EmptyIdUnused(byId) {
      forall runner: Runner ensures FollowsLaw(byId, runner, order) {
        LawHolds(byId, runner, order);
      }
    } else {
      var x :| x in byId && "" in byId[x].dependsOn;
      var runner := FailsOnlyEmpty();
      EmptyFailureBlocksNobody(byId, order);
      assert x in Elements(order) && x in order;
      assert Edge(Dependencies(byId), x, "") && "" in byId;
      assert Outcome(runner, byId[""]).status == Failed;
      assert DoomedVia(byId, runner, x, [x, ""]);
      assert !FollowsLaw(byId, runner, order);
    }
  }

  /** The law fails on a concrete plan: the failure of "" does not stop "deploy". */
  lemma EmptyIdFailureIsIgnored()
    ensures
      var byId := map["" := ExecutionNode("", "build", []), "deploy" := ExecutionNode("deploy", "deploy", [""])];
      var p := RunInOrder(byId, FailsOnlyEmpty(), ["", "deploy"]);
      "" in p.unsuccessful && "deploy" in p.calls && Doomed(byId, FailsOnlyEmpty(), "deploy")
  {
    var build, deploy := ExecutionNode("", "build", []), ExecutionNode("deploy", "deploy", [""]);
    var byId := map["" := build, "deploy" := deploy];
    EmptyFailureBlocksNobody(byId, ["", "deploy"]);
    assert Edge(Dependencies(byId), "deploy", "");
    assert DoomedVia(byId, FailsOnlyEmpty(), "deploy", ["deploy", ""]);
    assert ["", "deploy"][..1] == [""] && [""][..0] == [];
    assert RunInOrder(byId, FailsOnlyEmpty(), [""]).unsuccessful == {""};
  }

  // ---- what the summary means ----------------------------------------------------------------

  /** Every node without dependencies fails. */
  ghost predicate SourcesFail(byId: Nodes, runner: Runner) {
    forall x :: x in byId && byId[x].dependsOn == [] ==> Outcome(runner, byId[x]).status != Succeeded
  }

  ghost predicate EveryOutcomeSucceeds(byId: Nodes, runner: Runner) {
    forall x :: x in byId ==> Outcome(runner, byId[x]).status == Succeeded
  }

  /** The workflow succeeds exactly when every node of the plan would, and fails outright exactly
      when the plan is not empty and every node without dependencies fails. */
  lemma SummaryMeans(byId: Nodes, runner: Runner, order: seq<Id>)
    requires WellKeyed(byId) && Closed(Dependencies(byId)) && Linear(Dependencies(byId), order)
    requires Elements(order) == byId.Keys && EmptyIdUnused(byId)
    requires RunInOrder(byId, runner, order).results.Keys == Elements(order)
    ensures Summary(StepsOf(order, RunInOrder(byId, runner, order))) == AllSucceeded <==> EveryOutcomeSucceeds(byId, runner)
    ensures Summary(StepsOf(order, RunInOrder(byId, runner, order))) == AllFailed <==> byId != map[] && SourcesFail(byId, runner)
  {
    var steps := StepsOf(order, RunInOrder(byId, runner, order));
    LawHolds(byId, runner, order);
    StepsAreLawful(byId, runner, order, steps);
    AllLawfulSucceed(byId, runner);
    SourcesDecideFailure(byId, runner, order, |order|);
    WholePrefix(order);
    NoneSucceedIff(byId, runner, order, steps);
    SummaryReads(steps);
    SameEmptiness(byId, order);
  }

  lemma SummaryReads(steps: seq<StepResult>)
    ensures Summary(steps) == AllSucceeded <==> forall i :: 0 <= i < |steps| ==> steps[i].status == Succeeded
    ensures Summary(steps) == AllFailed <==>
            |steps| > 0 && forall i :: 0 <= i < |steps| ==> steps[i].status != Succeeded
  {
    if |steps| > 0 {
      assert steps[0].status == Succeeded || steps[0].status != Succeeded;
    }
  }

  lemma SameEmptiness(byId: Nodes, order: seq<Id>)
    requires Elements(order) == byId.Keys
    ensures |order| > 0 <==> byId != map[]
  {
    if |order| > 0 {
      assert order[0] in Elements(order);
    }
    if byId != map[] {
      var x :| x in byId;
      assert x in Elements(order);
    }
  }

  lemma StepsAreLawful(byId: Nodes, runner: Runner, order: seq<Id>, steps: seq<StepResult>)
    requires Elements(order) == byId.Keys && FollowsLaw(byId, runner, order)
    requires RunInOrder(byId, runner, order).results.Keys == Elements(order)
    requires steps == StepsOf(order, RunInOrder(byId, runner, order))
    ensures |steps| == |order|
    ensures forall i :: 0 <= i < |steps| ==> order[i] in byId && steps[i] == Lawful(byId, runner, order[i])
    ensures (forall i :: 0 <= i < |steps| ==> steps[i].status == Succeeded) <==>
            forall x :: x in byId ==> Lawful(byId, runner, x).status == Succeeded
  {
  }

  lemma NoneSucceedIff(byId: Nodes, runner: Runner, order: seq<Id>, steps: seq<StepResult>)
    requires Elements(order) == byId.Keys && |steps| == |order|
    requires forall i :: 0 <= i < |steps| ==> order[i] in byId && steps[i] == Lawful(byId, runner, order[i])
    requires SourcesFail(byId, runner) ==>
             forall x :: x in order ==> x in byId && Lawful(byId, runner, x).status != Succeeded
    requires forall x :: x in byId && byId[x].dependsOn == [] ==> Lawful(byId, runner, x) == Outcome(runner, byId[x])
    ensures (forall i :: 0 <= i < |steps| ==> steps[i].status != Succeeded) <==> SourcesFail(byId, runner)
  {
  }

  lemma AllLawfulSucceed(byId: Nodes, runner: Runner)
    ensures (forall x :: x in byId ==> Lawful(byId, runner, x).status == Succeeded) <==>
            EveryOutcomeSucceeds(byId, runner)
  {
  }

  /** If every source fails, nothing downstream can succeed. */
  lemma {:induction false} SourcesDecideFailure(byId: Nodes, runner: Runner, order: seq<Id>, n: nat)
    requires Closed(Dependencies(byId)) && Linear(Dependencies(byId), order) && n <= |order|
    ensures SourcesFail(byId, runner) ==>
            forall x :: x in order[..n] ==> x in byId && Lawful(byId, runner, x).status != Succeeded
    ensures forall x :: x in byId && byId[x].dependsOn == [] ==> Lawful(byId, runner, x) == Outcome(runner, byId[x])
  {
    forall x | x in byId && byId[x].dependsOn == [] ensures Lawful(byId, runner, x) == Outcome(runner, byId[x]) {
      DoomedUnfold(byId, runner, x);
    }
    if n > 0 {
      SourcesDecideFailure(byId, runner, order, n - 1);
      SplitAt(order, n - 1);
      DependenciesRanBefore(byId, order, n - 1);
      var y := order[n - 1];
      DoomedUnfold(byId, runner, y);
      if byId[y].dependsOn != [] {
        var d := byId[y].dependsOn[0];
        assert d in byId[y].dependsOn;
      }
    }
  }
}

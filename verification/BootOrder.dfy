/** packages/kernel/src/dependency-graph.ts: the order in which modules boot and stop. */
module BootOrder {
  import opened Base
  import opened Graph
  import opened Kahn

  datatype ModuleKind =
    | Configuration | Observability | EventBusKind | Identity | PolicyKind | Approval | Audit | Pipeline | Runtime
    | ModelGateway | Connector | Memory | Executor | DigitalWorkforce | Ai | Application | Generic

  function BootPriority(k: ModuleKind): nat {
    match k
    case Configuration => 0
    case Observability => 1
    case EventBusKind => 2
    case Identity => 3
    case PolicyKind => 4
    case Approval => 5
    case Audit => 6
    case Pipeline => 7
    case Runtime => 8
    case ModelGateway => 9
    case Connector => 10
    case Memory => 11
    case Executor => 12
    case DigitalWorkforce => 13
    case Ai => 14
    case Application => 15
    case Generic => 16
  }

  const BOOT_SEQUENCE: seq<ModuleKind> := [
    Configuration, Observability, EventBusKind, Identity, PolicyKind, Approval, Audit, Pipeline, Runtime, ModelGateway,
    Connector, Memory, Executor, DigitalWorkforce, Ai, Application, Generic]

  /** Every kind has its own place in the sequence, and ranks by it. */
  lemma KindsBootInSequence(k: ModuleKind)
    ensures BootPriority(k) < |BOOT_SEQUENCE| && BOOT_SEQUENCE[BootPriority(k)] == k
  {
  }

  datatype ModuleMetadata = ModuleMetadata(id: Id, kind: ModuleKind, dependsOn: seq<Id>)

  type Registered = map<Id, ModuleMetadata>

  datatype Resolution =
    | Ordered(order: seq<Id>)
    | CycleFound(cycle: seq<Id>)
    | MissingDependency(missing: seq<Id>)

  function ModuleKey(): ModuleMetadata -> Id {
    (m: ModuleMetadata) => m.id
  }

  function IdsOf(modules: seq<ModuleMetadata>): seq<Id> {
    KeysOf(ModuleKey(), modules)
  }

  function ById(modules: seq<ModuleMetadata>): Registered {
    Index(ModuleKey(), modules)
  }

  /** The module registry refuses a second module with the same id. */
  ghost predicate UniqueIds(modules: seq<ModuleMetadata>) {
    Distinct(IdsOf(modules))
  }

  function Dependencies(byId: Registered): Graph {
    map id | id in byId :: byId[id].dependsOn
  }

  function BootRank(byId: Registered, id: Id): nat {
    if id in byId then BootPriority(byId[id].kind) else BootPriority(Generic)
  }

  /** Kind priority first, then the id. */
  function BootsBefore(byId: Registered, idLess: Before): Before {
    (a, b) =>
      BootRank(byId, a) < BootRank(byId, b) || (BootRank(byId, a) == BootRank(byId, b) && idLess(a, b))
  }

  lemma BootsBeforeTotal(byId: Registered, idLess: Before)
    requires StrictTotal(idLess)
    ensures StrictTotal(BootsBefore(byId, idLess))
  {
  }

  // ---- what a resolution has to be ---------------------------------------------

  /** The three outcomes, each told apart by the graph alone. */
  ghost predicate Resolves(modules: seq<ModuleMetadata>, idLess: Before, r: Resolution) {
    var g := Dependencies(ById(modules));
    match r
    case MissingDependency(missing) =>
      !Closed(g) && Distinct(missing) && forall d :: d in missing <==> Unregistered(g, d)
    case Ordered(order) =>
      Closed(g) && CompleteOrder(BootsBefore(ById(modules), idLess), g, IdsOf(modules), order)
    case CycleFound(cycle) =>
      Closed(g) && CycleReport(g, IdsOf(modules), cycle)
  }

  lemma GraphNodes(modules: seq<ModuleMetadata>)
    ensures Dependencies(ById(modules)).Keys == Elements(IdsOf(modules))
  {
    IndexMembers(ModuleKey(), modules);
  }

  // ---- the operation -------------------------------------------------------------

  method ResolveBootOrder(modules: seq<ModuleMetadata>, idLess: Before) returns (r: Resolution)
    requires UniqueIds(modules) && StrictTotal(idLess)
    ensures Resolves(modules, idLess, r)
    ensures r.Ordered? <==> Closed(Dependencies(ById(modules))) && Acyclic(Dependencies(ById(modules)))
  {
    var byId := BuildIndex(ModuleKey(), modules);
    var g := Dependencies(byId);
    var ids := IdsOf(modules);
    GraphNodes(modules);
    var missing := MissingDependencies(ids, g);
    if |missing| > 0 {
      return MissingDependency(Dedupe(missing));
    }
    BootsBeforeTotal(byId, idLess);
    var order := TopologicalOrder(BootsBefore(byId, idLess), ids, g, false);
    SortOutcome(BootsBefore(byId, idLess), g, ids, order);
    if |order| != |modules| {
      r := CycleFound(LeftOver(ids, order));
    } else {
      r := Ordered(order);
    }
  }

  /** Every registry has a resolution. */
  lemma ResolutionExists(modules: seq<ModuleMetadata>, idLess: Before) returns (r: Resolution)
    requires UniqueIds(modules) && StrictTotal(idLess)
    ensures Resolves(modules, idLess, r)
  {
    var g, ids, less := Dependencies(ById(modules)), IdsOf(modules), BootsBefore(ById(modules), idLess);
    GraphNodes(modules);
    if Closed(g) {
      BootsBeforeTotal(ById(modules), idLess);
      var order := GreedyExists(less, g, []);
      SortOutcome(less, g, ids, order);
      r := if |order| == |ids| then Ordered(order) else CycleFound(LeftOver(ids, order));
    } else {
      var missing := ListOf(set m, d | m in g && d in g[m] && d !in g :: d);
      r := MissingDependency(missing);
    }
  }

  /** The resolution does not depend on the order in which modules were registered. */
  lemma ResolutionIsCanonical(modules: seq<ModuleMetadata>, shuffled: seq<ModuleMetadata>, idLess: Before,
                              r: Resolution, s: Resolution)
    requires UniqueIds(modules) && UniqueIds(shuffled) && StrictTotal(idLess)
    requires Permutation(modules, shuffled)
    requires Resolves(modules, idLess, r) && Resolves(shuffled, idLess, s)
    ensures r.Ordered? <==> s.Ordered?
    ensures r.Ordered? ==> r == s
    ensures r.CycleFound? <==> s.CycleFound?
    ensures r.CycleFound? ==> Permutation(r.cycle, s.cycle)
    ensures r.MissingDependency? ==> Permutation(r.missing, s.missing)
  {
    SameRegistry(modules, shuffled);
    if r.Ordered? {
      BootsBeforeTotal(ById(modules), idLess);
      GreedyUnique(BootsBefore(ById(modules), idLess), Dependencies(ById(modules)), r.order, s.order);
    } else if r.CycleFound? {
      DistinctPermutation(r.cycle, s.cycle);
    } else {
      DistinctPermutation(r.missing, s.missing);
    }
  }

  lemma SameRegistry(modules: seq<ModuleMetadata>, shuffled: seq<ModuleMetadata>)
    requires UniqueIds(modules) && UniqueIds(shuffled) && Permutation(modules, shuffled)
    ensures ById(modules) == ById(shuffled)
  {
    IndexMembers(ModuleKey(), modules);
    IndexMembers(ModuleKey(), shuffled);
    PermutationMembers(modules, shuffled);
    RegistryInto(modules, shuffled);
    RegistryInto(shuffled, modules);
  }

  lemma RegistryInto(modules: seq<ModuleMetadata>, other: seq<ModuleMetadata>)
    requires UniqueIds(other) && forall m :: m in modules ==> m in other
    ensures forall id :: id in ById(modules) ==> id in ById(other) && ById(other)[id] == ById(modules)[id]
  {
    IndexMembers(ModuleKey(), modules);
    IndexMembers(ModuleKey(), other);
    forall id | id in ById(modules) ensures id in ById(other) && ById(other)[id] == ById(modules)[id] {
      var m := ById(modules)[id];
      var i :| 0 <= i < |other| && other[i] == m;
      assert IdsOf(other)[i] == id;
    }
  }

  /** The reported modules form the greatest set whose every member depends on a member. */
  lemma CycleReportIsGreatest(modules: seq<ModuleMetadata>, idLess: Before, r: Resolution, s: set<Id>)
    requires UniqueIds(modules) && Resolves(modules, idLess, r) && r.CycleFound?
    requires s <= ById(modules).Keys && Stuck(Dependencies(ById(modules)), s)
    ensures s <= Elements(r.cycle)
    ensures Stuck(Dependencies(ById(modules)), Elements(r.cycle))
  {
    var g := Dependencies(ById(modules));
    forall x | x in s ensures x in r.cycle {
      StuckReachesCycle(g, s, x);
    }
    forall x | x in Elements(r.cycle) ensures HasSuccessorIn(g, x, Elements(r.cycle)) {
      var y := NextTowardsCycle(g, x);
      assert y in g;
      assert y in Elements(r.cycle);
    }
  }

  /** `y` depends on `x`, which depends on itself. */
  function SelfAndDownstream(x: Id, y: Id): seq<ModuleMetadata> {
    [ModuleMetadata(x, Generic, [x]), ModuleMetadata(y, Generic, [x])]
  }

  lemma TwoModules(a: ModuleMetadata, b: ModuleMetadata)
    ensures ById([a, b]) == map[a.id := a][b.id := b]
  {
    IndexSnoc(ModuleKey(), [], a);
    IndexSnoc(ModuleKey(), [a], b);
    assert [] + [a] == [a] && [a] + [b] == [a, b];
  }

  lemma SelfAndDownstreamGraph(x: Id, y: Id)
    requires x != y
    ensures Dependencies(ById(SelfAndDownstream(x, y))) == map[x := [x], y := [x]]
  {
    TwoModules(ModuleMetadata(x, Generic, [x]), ModuleMetadata(y, Generic, [x]));
  }

  /** A reported module need not be on a cycle. */
  lemma DownstreamModuleIsReported(idLess: Before, r: Resolution, x: Id, y: Id)
    requires x != y && Resolves(SelfAndDownstream(x, y), idLess, r)
    ensures r.CycleFound? && y in r.cycle
    ensures !OnCycle(Dependencies(ById(SelfAndDownstream(x, y))), y)
  {
    SelfAndDownstreamGraph(x, y);
    NothingPointsAtIt(map[x := [x], y := [x]], x, y);
    ItReachesACycle(map[x := [x], y := [x]], x, y);
  }

  lemma ItReachesACycle(g: Graph, x: Id, y: Id)
    requires x != y && g == map[x := [x], y := [x]]
    ensures Closed(g) && !Acyclic(g) && ReachesCycle(g, y)
  {
    assert Edge(g, x, x) && Edge(g, y, x);
    assert Cycle(g, [x, x]) && OnCycle(g, x);
    assert Walk(g, [y, x]) && [y, x][1] == x;
  }

  lemma NothingPointsAtIt(g: Graph, x: Id, y: Id)
    requires x != y && g == map[x := [x], y := [x]]
    ensures !OnCycle(g, y)
  {
    forall c | Cycle(g, c) ensures c[0] != y {
      assert Edge(g, c[|c| - 2], c[|c| - 1]);
    }
  }

  // ---- shutdown ------------------------------------------------------------------

  predicate IsAudit(byId: Registered, id: Id) {
    id in byId && byId[id].kind == Audit
  }

  function AuditOf(byId: Registered): Id -> bool {
    id => IsAudit(byId, id)
  }

  function NonAuditOf(byId: Registered): Id -> bool {
    id => !IsAudit(byId, id)
  }

  function ResolveShutdownOrder(modules: seq<ModuleMetadata>, bootOrder: seq<Id>): seq<Id> {
    var byId := ById(modules);
    var reversed := Reverse(bootOrder);
    Filter(NonAuditOf(byId), reversed) + Filter(AuditOf(byId), reversed)
  }

  lemma ShutdownIsPermutation(modules: seq<ModuleMetadata>, bootOrder: seq<Id>)
    ensures Permutation(ResolveShutdownOrder(modules, bootOrder), bootOrder)
  {
    var byId := ById(modules);
    FilterSplits(NonAuditOf(byId), AuditOf(byId), Reverse(bootOrder));
  }

  /** Audit modules stop after every other module. */
  lemma AuditStopsLast(modules: seq<ModuleMetadata>, bootOrder: seq<Id>, a: Id, b: Id)
    requires Precedes(ResolveShutdownOrder(modules, bootOrder), a, b)
    ensures IsAudit(ById(modules), a) ==> IsAudit(ById(modules), b)
  {
    var byId, reversed := ById(modules), Reverse(bootOrder);
    PrecedesConcat(Filter(NonAuditOf(byId), reversed), Filter(AuditOf(byId), reversed), a, b);
    if IsAudit(byId, a) {
      PrecedesMembers(Filter(NonAuditOf(byId), reversed), a, b);
      PrecedesMembers(Filter(AuditOf(byId), reversed), a, b);
    }
  }

  lemma PrecedesMembers<T>(s: seq<T>, a: T, b: T)
    ensures Precedes(s, a, b) ==> a in s && b in s
  {
  }

  /** Exactly when a module stops before something it depends on: always, unless the module
      is an audit module and the dependency is not. */
  lemma DependentStopsFirstIff(modules: seq<ModuleMetadata>, bootOrder: seq<Id>, dependent: Id, dep: Id)
    requires Linear(Dependencies(ById(modules)), bootOrder) && dependent in bootOrder
    requires Edge(Dependencies(ById(modules)), dependent, dep)
    ensures dep in bootOrder
    ensures Precedes(ResolveShutdownOrder(modules, bootOrder), dependent, dep) <==>
            !(IsAudit(ById(modules), dependent) && !IsAudit(ById(modules), dep))
  {
    var byId, reversed := ById(modules), Reverse(bootOrder);
    var rest := Filter(NonAuditOf(byId), reversed);
    var audit := Filter(AuditOf(byId), reversed);
    BootsFirst(Dependencies(byId), bootOrder, dependent, dep);
    ReversePrecedes(bootOrder, dependent, dep);
    PermutationMembers(reversed, bootOrder);
    PrecedesConcat(rest, audit, dependent, dep);
    PrecedesMembers(rest, dependent, dep);
    PrecedesMembers(audit, dependent, dep);
    if !IsAudit(byId, dependent) && !IsAudit(byId, dep) {
      FilterPrecedes(NonAuditOf(byId), reversed, dependent, dep);
    } else if IsAudit(byId, dependent) && IsAudit(byId, dep) {
      FilterPrecedes(AuditOf(byId), reversed, dependent, dep);
    }
  }

  lemma BootsFirst(g: Graph, order: seq<Id>, dependent: Id, dep: Id)
    requires Linear(g, order) && dependent in order && Edge(g, dependent, dep)
    ensures dep in order && Precedes(order, dep, dependent)
  {
    var i :| 0 <= i < |order| && order[i] == dependent;
    assert dep in Elements(order[..i]);
    var j :| 0 <= j < i && order[j] == dep;
  }

  /** The exception does occur: an audit module that depends on the event bus stops after it. */
  lemma AuditMayOutliveItsDependency()
    ensures
      var modules := [ModuleMetadata("bus", EventBusKind, []), ModuleMetadata("audit", Audit, ["bus"])];
      ResolveShutdownOrder(modules, ["bus", "audit"]) == ["bus", "audit"]
  {
  }
}

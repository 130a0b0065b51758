# OSForge Core: a verified model

This project models the parts of OSForge Core that carry state, loops or recursion, and proves what they
promise over every input, every run and every interleaving of concurrent calls.

- **Governed execution.** `Governance` decides a request, mints a permit and registers it; `ExecutionEngine`
  is the step system of `ReferenceExecutionEngine.execute`, cut at its awaits, with any number of executions
  in progress over one permit store, and `ExecutionOutcomes` says what each outcome tells.
- **Secure pipeline.** `Permit` (with `Hex`) signs and verifies context-bound permits, `ReplayProtection`
  and `ApprovalGate` hold the two one-shot stores, `FinalGate` is the concurrent step system in which
  authorizations are minted and `GateRefusals` says why it refuses, `SecurePipeline` is the staged run around it,
  `PipelineRuns` lets any number of runs overlap, and `PipelineRecords` says what their audit records tell.
- **Ordering, workflow and lifecycle.** `Graph` and `Kahn` hold the queue sort shared by `BootOrder` and
  `ExecutionGraph`; `Workflow` runs a validated graph; `Lineage` finds causation cycles. `Kernel` holds the
  kernel object and what one call of each of its methods does. `KernelSteps` cuts those methods at their awaits,
  with any number of calls in progress; `KernelProgress`, `KernelExact`, `KernelHistory`, `RestartBudget` and
  `KernelDown` prove what holds over every interleaving and exactly when, `KernelTraces` shows what does not, and
  `KernelAlone` shows that a call left to itself does what the method does.
- **Policies.** `Condition` is the three-valued condition language, `PolicySet` the deny-wins combination.
- **Chained stores and the bus.** `EventStore`, `AuditSink` (with `Keys`) and `EventBus`, with `EventDelivery` for
  whom a publish reaches.

`Base` holds what they share. Code that updates fields is a class whose methods are proved against functions
on values; code that awaits is a step system, one step per segment between awaits, and its theorems quantify
over every sequence of steps. The answers of hooks, runners, consumers, the sandbox and the executor are
arbitrary. Digests are function parameters, and no lemma assumes a digest to be free of collisions: where a
promise rests on that, the lemma says exactly which two inputs would have to collide.

## Where the code departs from what it says

Each of these is kept as the code has it, shown on an input or a run, and followed by the exact condition under
which the promise holds.

- A workflow step whose dependency has the id `""` runs although that dependency failed, because the id found
  is tested for truth (`Workflow.EmptyIdFailureIsIgnored`). Failures stop everything downstream of them, for
  every runner, exactly when `""` is nobody's dependency (`Workflow.LawHoldsIff`).
- An attribute bag answers inherited names such as `toString`, so supplying one can revoke an ALLOW
  (`PolicySet.InheritedNameRevokesAllow`). Allowed requests stay allowed exactly under completions that add no
  such name and no unsafe key (`PolicySet.AllowPersistsIff`).
- The comment on `evaluatePolicySet` announces POLICY_CONFLICT, which only `detectPolicyConflict` returns; and
  that one skips the unsafe-key test (`PolicySet.ConflictIgnoresUnsafeKeys`). They still allow the same inputs.
- A policy whose status is "expired" is used as long as its expiry time has not passed
  (`PolicySet.ExpiredStatusAloneIsUsable`).
- An `attach` hook that throws escapes the boot loop and leaves the kernel booting with nothing unwound
  (`Kernel.AttachFailureLeavesBooting`, `Kernel.BootSettlesIff`).
- A pause or resume that is awaiting a module when a shutdown is accepted brings the stopped kernel back to paused
  or running (`KernelTraces.PauseOutlivesShutdown`). A shutdown is final exactly when none was in progress
  (`KernelDown.AcceptedShutdownIsFinalIff`, `KernelDown.StoppedIsFinalIff`).
- A crash report, or a health poll whose hook throws, can leave a kernel running with that module failed although
  its boot completed (`KernelTraces.CrashDuringBootLeavesFailed`, `KernelTraces.PollDuringBootLeavesFailed`). Over
  all runs of a registry a completed boot leaves a module READY exactly when no report and no poll concerns it
  (`KernelExact.AlwaysReadyIff`); a boot about to begin does so exactly when none that may write its status is in
  progress, and none is begun (`KernelExact.BootLeavesReadyIff`).
- A health poll that awaits a module while a shutdown stops it writes READY over STOPPED
  (`KernelTraces.PollOutlivesShutdown`). An accepted shutdown leaves a module STOPPED exactly when no report or poll
  that may write its status was in progress, as long as none is begun (`KernelExact.ShutdownLeavesStoppedIff`).
- A crash report can make a module READY in a stopped kernel (`KernelTraces.ReadyInStoppedKernel`,
  `Kernel.StoppedKernelRestartsModuleIff`).
- An audit module may stop after its own dependency (`BootOrder.AuditMayOutliveItsDependency`,
  `BootOrder.DependentStopsFirstIff`).
- The reported "cycle" also names modules that only lead into one (`BootOrder.DownstreamModuleIsReported`,
  `BootOrder.CycleReportIsGreatest`).
- Two overlapping audit appends break the chain for good (`AuditSink.OverlapBreaksChain`,
  `AuditSink.ChainOkIffNoStaleCommit`, `AuditSink.BrokenForGood`).
- A stream whose last hash equals the genesis value is taken for the empty one, even with a digest that has no
  collision at all (`EventStore.GenesisHidesAStream`, `EventStore.LastHashDecidesIff`).
- Keys joined by `::` can collide between tenants (`Keys.TenantsShareAKey`, `Keys.SharedKeyIff`), and the bus drops
  an event of one workspace as a duplicate of another's (`EventBus.OtherWorkspaceIsDropped`,
  `EventBus.SharedDedupeKeyIff`).
- An effect can go unaudited: exactly when the sink cannot be written at the end
  (`ExecutionEngine.RunCanGoUnrecorded`, `ExecutionEngine.RunIsAuditedIff`); in the secure pipeline, exactly when
  the append throws (`PipelineRuns.ExecutorCallIsRecordedIff`).
- The approval that the gate judges is the caller's; the store consumes by id alone
  (`ApprovalGate.PresentedApprovalMayDiffer`, with the exact condition in `ApprovalGate.RegisteredApprovesIff`).
- A permit's integrity marker is compared after hex decoding, so capitals are accepted as well
  (`Permit.CapitalMarkerVerifies`, `Hex.SafeEqualIff`, `Permit.AcceptedMarkers`).

## Model

| member | source | states |
|---|---|---|
| `Governance.EvaluateGovernancePipeline` | packages/governance/src/pipeline.ts:91-187 | each outcome comes exactly with the stages that cause it (ALLOW and a permit exactly when every mandatory stage is positive); the permit is for this request's own decision, tenant, workspace, principal, action and resource, carries the result's context hash and lives from now for the time asked for, at least a millisecond |
| `Governance.GovernancePermitStore.Register` | packages/agent-governance/src/bridge.ts:43-47 | the permit is stored under its id and nothing else changes |
| `Governance.GovernancePermitStore.Consume` | packages/agent-governance/src/bridge.ts:49-72 | the answer and the new store; after a success every later consume of that permit is a replay, whatever is presented |
| `Governance.StoreAnswers` | packages/agent-governance/src/bridge.ts:49-72 | each refusal of the store goes exactly with its own cause, in the order unknown, replayed, expired, other tenant, other context |
| `Governance.PermitCheckAnswers` | packages/governance/src/pipeline.ts:200-215 | an iff for each answer to a presented permit |
| `Governance.GovernancePermitStore.AdaptGovernanceGate` | packages/agent-governance/src/bridge.ts:21-30 | only an allowed result with a permit registers one, that one, and reports its reference; anything else leaves the store alone; an outcome without an agent equivalent, or an ALLOW without a permit, becomes DENY and every other one is passed on |
| `Governance.TicketsComeFromPermits` | packages/agent-runtime/src/action.ts:71-127 | a ticket exists exactly when the screen passed, every governance stage was positive, the context hash agrees and audit is writable; it refers to that result's permit and context and names the action's own id and tenant |
| `Governance.ActionAnswers` | packages/agent-runtime/src/action.ts:71-127 | what an agent is told, in terms of the injection screen and the governance stages: an iff for each answer, through the whole chain of decision, bridge and action gate |
| `Governance.TicketAnswers` | packages/agent-runtime/src/action.ts:148-154 | a ticket is a replay exactly when seen with its permit; an executed one spends its permit's nonce, and any other leaves the store alone |
| `ExecutionEngine.StepKeepsStoreOk` | packages/agent-governance/src/bridge.ts:21-47 | every step keeps: each stored permit is filed under its id and came from a result with every stage positive |
| `ExecutionEngine.StepKeepsEngineOk` | packages/agent-execution/src/reference.ts:32-87 | every step keeps the link between executions, consumed nonces and executor calls |
| `ExecutionEngine.StepKeepsSpendsOk` | packages/agent-execution/src/reference.ts:32-40 | every step keeps: each consumed permit was governed, unexpired at that moment and bound to the presented tenant and context |
| `ExecutionEngine.Reachable` | packages/agent-execution/src/reference.ts:32-87 | all three invariants hold after every interleaving |
| `ExecutionEngine.AtMostOneRunPerPermit` | packages/agent-execution/src/reference.ts:32-65 | over every interleaving two executor calls never share a nonce, a permit or an execution |
| `ExecutionEngine.EveryRunIsGoverned` | packages/agent-execution/src/reference.ts:32-65 | over every interleaving each executor call used a permit from a fully positive result for the ticket's own tenant, unexpired when consumed, with the ticket's tenant and the request's context hash |
| `ExecutionEngine.OutcomeTellsWhetherItRan` | packages/agent-execution/src/engine.ts:55-85 | a finished execution reports executed or handler failure exactly when the executor was called for it |
| `ExecutionEngine.RightfulTicketRuns` | packages/agent-execution/src/reference.ts:32-65 | an unspent, unexpired, rightly presented permit does lead to an executor call when the sandbox admits and audit is writable |
| `ExecutionEngine.LogStaysOk` | packages/agent-execution/src/reference.ts:78-84 | over every interleaving log positions and finished executions point at one another |
| `ExecutionEngine.AuditLogIsExact` | packages/agent-execution/src/reference.ts:78-84 | over every interleaving the log holds exactly one entry for each finished execution that recorded its outcome, with its own tenant, workspace, ticket and outcome, and no others |
| `ExecutionEngine.RunIsAuditedIff` | packages/agent-execution/src/reference.ts:66-87 | over every interleaving an execution whose executor was called has no entry yet, and once the executor answers has one exactly if the sink can then be written |
| `ExecutionEngine.RunCanGoUnrecorded` | packages/agent-execution/src/reference.ts:52-84 | a run from an empty store in which a governed effect happens and the log stays empty |
| `ExecutionOutcomes.AnswersStayTold` | packages/agent-execution/src/reference.ts:32-87 | over every interleaving each execution stands where its request, its permit and the answers it was given put it |
| `ExecutionOutcomes.OutcomeIsDecided` | packages/agent-execution/src/engine.ts:55-85 | over every interleaving an iff for each outcome of a finished execution, in terms of its request, whether it consumed a permit, and the first answers of sandbox, audit sink and executor |
| `ExecutionOutcomes.ReplyDecides` | packages/agent-execution/src/reference.ts:55-63 | over every interleaving an execution that awaits its executor ends EXECUTED exactly if the executor reports success, and HANDLER_FAILED if it reports none or throws |
| `ExecutionOutcomes.BeginSpendsIff` | packages/agent-execution/src/reference.ts:32-40 | over every interleaving an execution that begins consumes a permit exactly when the hashes agree, the ticket was not seen, and the permit is registered, unspent, unexpired and bound to the ticket's tenant and context |
| `Hex.SafeEqualIff` | packages/pipeline/src/internal/crypto.ts:45-55 | against a digest the comparison accepts exactly the texts that spell it up to letter case |
| `Permit.IssuedVerifiesIff` | packages/pipeline/src/permit.ts:107-205 | issue then verify: passes exactly when the fields are filled in, it is unexpired and the bindings are those it was issued for |
| `Permit.IssuedFailsOnlyAs` | packages/pipeline/src/permit.ts:156-205 | under its own bindings an issued permit can only be malformed or expired |
| `Permit.FirstReportIsGiven` | packages/pipeline/src/permit.ts:156-205 | verification gives exactly the first report that applies to the permit, in the order of the reports, and passes exactly when none does |
| `Permit.MalformedIff` | packages/pipeline/src/permit.ts:228-275 | malformed exactly when one of the listed texts is blank or the algorithm differs |
| `Permit.AcceptedMarkers` | packages/pipeline/src/permit.ts:142-148 | the marker is accepted exactly when it spells the keyed digest of the claims |
| `Permit.MarkerFixesClaims` | packages/pipeline/src/permit.ts:142-148 | two accepted permits have markers that agree up to case exactly when the digests of their claims agree, so one marker vouches for one set of claims unless those two collide |
| `Permit.TamperedPermitIsRefused` | packages/pipeline/src/permit.ts:142-168 | an issued permit whose claims are replaced under its marker is refused exactly unless the new claims are complete, name the same key and collide with the old |
| `Permit.CapitalMarkerVerifies` | packages/pipeline/src/permit.ts:142-148 | a permit that verifies under its marker in small letters and in capitals |
| `Permit.MutationDetectedIff` | packages/pipeline/src/execution-context.ts:114-136 | a permit issued for one context passes under another exactly when the bound fields and the digest agree: when no security-relevant field changed, or the two contexts collide |
| `ReplayProtection.PermitReplayStore.Claim` | packages/pipeline/src/replay-protection.ts:50-71 | the answer and the new store; after a success no key with that id is ever claimed again, and a replay tells whether the binding is the same |
| `ReplayProtection.ClaimsAreFinal` | packages/pipeline/src/replay-protection.ts:46-72 | over every sequence of attempts a recorded claim is never changed or dropped |
| `ApprovalGate.InMemoryApprovalStore.Register` | packages/pipeline/src/approval-gate.ts:63-65 | the approval is stored under its id; what is consumed stays consumed |
| `ApprovalGate.InMemoryApprovalStore.Consume` | packages/pipeline/src/approval-gate.ts:71-84 | the answer and the new store; a consumed id is refused at every later time, even after being registered again |
| `ApprovalGate.EvaluateApprovalGate` | packages/pipeline/src/approval-gate.ts:114-190 | allowed exactly when no approval is required or another human approved this very request, unexpired and at the demanded level; step-up exactly when only the level is lacking |
| `ApprovalGate.FirstReasonIsGiven` | packages/pipeline/src/approval-gate.ts:114-190 | the gate gives exactly the first reason that applies, in the order of the reasons |
| `ApprovalGate.OnlyRegisteredExpiryMatters` | packages/pipeline/src/approval-gate.ts:71-84 | what is registered under an id changes the answer through its expiry only |
| `ApprovalGate.PresentedApprovalMayDiffer` | packages/pipeline/src/approval-gate.ts:71-84 | an allowed, consumable approval whose registered original approves another action |
| `ApprovalGate.RegisteredApprovesIff` | packages/pipeline/src/approval-gate.ts:114-190 | the registered approval approves every request that the presented one does exactly when it covers the presented one |
| `FinalGate.VerifiedPermitClaims` | packages/pipeline/src/final-gate.ts:66-91 | a permit that verifies is claimable exactly when its id is new |
| `FinalGate.EvaluateFinalGate` | packages/pipeline/src/final-gate.ts:41-121 | grants exactly when prior decisions, mode, isolation, permit, replay store and approval store all agree; claims exactly a verified new permit; consumes an approval only together with a grant |
| `GateRefusals.ScreenTells` | packages/pipeline/src/final-gate.ts:53-70 | the checks refuse exactly with the status and reason of the first that fails |
| `GateRefusals.StepKeepsCauses` | packages/pipeline/src/final-gate.ts:53-105 | every step keeps: each refused call was refused for a cause that is there |
| `GateRefusals.EveryRefusalHasItsCause` | packages/pipeline/src/final-gate.ts:53-105 | over every interleaving a refused call failed its checks in the way it was told, or another call had claimed its permit id, or it held the claim and its approval was missing, unknown, expired or consumed by another call |
| `GateRefusals.EveryClaimIsItsOwn` | packages/pipeline/src/final-gate.ts:73-84 | over every interleaving each claim names the permit of the call that made it, field by field |
| `FinalGate.ChecksPassIff` | packages/pipeline/src/final-gate.ts:53-70 | what the checks before the claim let through |
| `FinalGate.StepKeepsInv` | packages/pipeline/src/final-gate.ts:53-120 | every step of any call keeps the link between calls, claims, consumed approvals and minted authorizations |
| `FinalGate.Reachable` | packages/pipeline/src/final-gate.ts:53-120 | the invariant holds after every interleaving |
| `FinalGate.AtMostOneAuthorizationPerPermit` | packages/pipeline/src/final-gate.ts:72-104 | over every interleaving no two authorizations share a permit id or a call |
| `FinalGate.AtMostOneAuthorizationPerApproval` | packages/pipeline/src/final-gate.ts:93-104 | over every interleaving no two authorizations share a required approval id |
| `FinalGate.EveryAuthorizationIsEarned` | packages/pipeline/src/final-gate.ts:53-104 | each authorization went to a call that passed the checks, made the claim itself and consumed an approval then unexpired |
| `FinalGate.ApprovalsAreSpentOnAuthorizations` | packages/pipeline/src/final-gate.ts:93-104 | an approval is consumed exactly when an authorization was minted with it, by a call that verified and newly claimed its own permit |
| `FinalGate.UninterruptedCall` | packages/pipeline/src/final-gate.ts:41-121 | the steps of a call with nothing in between end as the sequential call does |
| `FinalGate.WholeCallGrantsIff` | packages/pipeline/src/final-gate.ts:41-121 | the sequential call grants exactly when the call is authorizable |
| `FinalGate.ClaimIsWastedIff` | packages/pipeline/src/final-gate.ts:93-102 | a claim ends without an authorization exactly when the approval step fails |
| `FinalGate.ClaimsStay` | packages/pipeline/src/replay-protection.ts:58-70 | no step of any call gives a claimed permit id back |
| `SecurePipeline.HaltOf` | packages/pipeline/src/pipeline.ts:89-226 | a run gets to the final gate exactly when every stage passes; a halt names the first stage that fails, the decision that goes with the cause, and the audit outcome that goes with the decision |
| `SecurePipeline.EarlyHalt` | packages/pipeline/src/pipeline.ts:89-164 | the same for the stages up to policy evaluation |
| `SecurePipeline.LateHalt` | packages/pipeline/src/pipeline.ts:171-226 | the same for approval and isolation: step-up exactly when the approval lacks only its level, approval required exactly when it is missing |
| `SecurePipeline.RightHaltIsUnique` | packages/pipeline/src/pipeline.ts:89-226 | at most one halt is right for a request |
| `SecurePipeline.PermitIsForRequest` | packages/pipeline/src/pipeline.ts:126-212 | a run's permit and execution context are the request's own field by field, the permit lives for the default or configured time, names the approval exactly if one was required, and is bound to the digest of that context |
| `SecurePipeline.ApprovalIsForRequest` | packages/pipeline/src/pipeline.ts:171-182 | when a run needs an approval and what that approval must say, in terms of the run's own request |
| `SecurePipeline.OwnPermitVerifiesIff` | packages/pipeline/src/pipeline.ts:194-262 | the permit a run issues for itself passes exactly when the time to live is positive and the subject is filled in |
| `SecurePipeline.AdmissibleIff` | packages/pipeline/src/pipeline.ts:228-262 | what the final gate demands of a run, in terms of the request and the stores |
| `SecurePipeline.ScreenRefuses` | packages/pipeline/src/pipeline.ts:228-271 | before the claim, a run's permit is refused only as malformed or expired |
| `SecurePipeline.GateRefuses` | packages/pipeline/src/pipeline.ts:242-271 | why the final gate refuses a run: unusable permit, id seen before, or unconsumable approval; never a context mutation or missing reference |
| `SecurePipeline.SecureExecutionPipeline.Stop` | packages/pipeline/src/pipeline.ts:318-363 | one record with the request's own ids goes to the audit sink, whose append may throw, and its decision is the answer |
| `SecurePipeline.SecureExecutionPipeline.ExecuteAndVerify` | packages/pipeline/src/pipeline.ts:273-308 | one executor call and one record, whose append may throw; executed exactly when the envelope reports success for this permit and request |
| `SecurePipeline.SecureExecutionPipeline.PassFinalGate` | packages/pipeline/src/pipeline.ts:228-262 | granted exactly when admissible, with what happens to both stores, and the decision that goes with each cause of a refusal |
| `SecurePipeline.SecureExecutionPipeline.PassAndExecute` | packages/pipeline/src/pipeline.ts:228-308 | the run after its stages: the gate's refusal with its cause, or one executor call and its verification |
| `SecurePipeline.SecureExecutionPipeline.Run` | packages/pipeline/src/pipeline.ts:89-308 | exactly one record goes to the audit sink on every path, and the run fails exactly if the append throws; status, stage and audit outcome of a halted, a refused and an executed run go exactly with the cause; the executor is called exactly when the run is admissible; approvals and claims follow exactly |
| `SecurePipeline.CallsComeFromRuns` | packages/pipeline/src/pipeline.ts:242-262 | every gate call in progress carries the input of the run that began it |
| `SecurePipeline.EveryExecutionIsApproved` | packages/pipeline/src/pipeline.ts:89-308 | over every interleaving of gate calls made by runs each authorization belongs to a run whose stages all passed; a required approval approves that very request and is used for no other; and the registered one approves it too if it covers the presented one |
| `PipelineRuns.StepKeepsGate` | packages/pipeline/src/pipeline.ts:228-262 | every step of overlapping runs keeps the gate a run of the final gate on inputs of those runs |
| `PipelineRuns.StepKeepsTrail` | packages/pipeline/src/pipeline.ts:264-363 | every step of overlapping runs keeps the link between runs, audit records, executor calls and authorizations |
| `PipelineRuns.OneRecordPerRun` | packages/pipeline/src/pipeline.ts:318-363 | overlapping runs or not, exactly one audit record for each finished run whose append did not throw, with its own ids, and no others; it says verified or verification failed exactly when the executor was called for that run |
| `PipelineRuns.ExecutorCallIsRecordedIff` | packages/pipeline/src/pipeline.ts:295-308 | overlapping runs or not, an executor call has no record before its answer, and then one exactly if the append succeeds |
| `PipelineRuns.EveryExecutorCallIsApproved` | packages/pipeline/src/pipeline.ts:228-308 | overlapping runs or not, every executor call belongs to a run whose stages passed, on its own permit, with an authorization the gate minted for that run, and a required approval approves the request |
| `PipelineRuns.ExecutorCallsAreDistinct` | packages/pipeline/src/pipeline.ts:228-308 | overlapping runs or not, two executor calls never share a run, a permit id or an approval that both needed |
| `PipelineRuns.RunAlone` | packages/pipeline/src/pipeline.ts:89-308 | a run left to itself calls the executor exactly when it is admissible and adds one audit record exactly if its append succeeds, as the sequential run does |
| `PipelineRecords.StepKeepsTelling` | packages/pipeline/src/pipeline.ts:318-363 | every step of overlapping runs keeps: each audit record says how its run halted, was refused or was executed |
| `PipelineRecords.RecordsAreTrue` | packages/pipeline/src/pipeline.ts:89-308 | overlapping runs or not, the decision and outcome of each audit record go exactly with the first stage its run failed, with who claimed its permit id, or with its verification |
| `PipelineRecords.ReplyIsRecorded` | packages/pipeline/src/pipeline.ts:273-308 | overlapping runs or not, an executed run is recorded as verified exactly if the executor reports success for its own request and permit |
| `Graph.StuckReachesCycle` | packages/kernel/src/dependency-graph.ts:70-73 | a node of a set whose members all depend on members reaches a cycle |
| `Graph.LinearReachesNoCycle` | packages/kernel/src/dependency-graph.ts:54-68 | a node emitted after its dependencies reaches no cycle |
| `Kahn.BuildIndex` | packages/kernel/src/dependency-graph.ts:16-20 | the map from ids to nodes, the last node winning |
| `Kahn.MissingDependencies` | packages/kernel/src/dependency-graph.ts:22-34 | exactly the dependencies that are no nodes |
| `Kahn.Release` | packages/kernel/src/dependency-graph.ts:60-67 | each dependent is counted down by the number of times it lists the node, and queued exactly when it reaches zero |
| `Kahn.Emit` | packages/kernel/src/dependency-graph.ts:54-68 | one round keeps the queue equal to the available nodes, sorted |
| `Kahn.TopologicalOrder` | packages/kernel/src/dependency-graph.ts:35-68 | each emitted node is the least available one, and nothing is left available |
| `Kahn.GreedyUnique` | packages/kernel/src/dependency-graph.ts:48-68 | there is one such order |
| `Kahn.GreedyExists` | packages/kernel/src/dependency-graph.ts:48-68 | a greedy order can always be continued until nothing is available |
| `Kahn.LeftOverReachesCycle` | packages/kernel/src/dependency-graph.ts:70-73 | what is not emitted is exactly what reaches a cycle |
| `Kahn.LeftOverIsGreatest` | packages/kernel/src/dependency-graph.ts:70-73 | no set whose members all depend on members meets the emitted nodes |
| `Kahn.CompleteIffAcyclic` | packages/kernel/src/dependency-graph.ts:70-75 | all nodes are emitted exactly when there is no cycle |
| `Kahn.SortOutcome` | packages/kernel/src/dependency-graph.ts:70-75 | either a complete greedy-least order or the exact cycle report, in input order |
| `BootOrder.ResolveBootOrder` | packages/kernel/src/dependency-graph.ts:16-76 | succeeds exactly when every dependency is registered and there is no cycle; the order is the greedy-least permutation with dependencies first; missing and cycle lists are exact |
| `BootOrder.KindsBootInSequence` | packages/kernel/src/module.ts:36-54 | every kind has its own place in the boot sequence |
| `BootOrder.ResolutionExists` | packages/kernel/src/dependency-graph.ts:16-76 | every registry has a resolution |
| `BootOrder.ResolutionIsCanonical` | packages/kernel/src/dependency-graph.ts:48-68 | the resolution is the same for every permutation of the registered modules |
| `BootOrder.CycleReportIsGreatest` | packages/kernel/src/dependency-graph.ts:70-73 | the reported modules are the greatest set whose every member depends on a member |
| `BootOrder.DownstreamModuleIsReported` | packages/kernel/src/dependency-graph.ts:70-73 | a registry whose report names a module that is on no cycle |
| `BootOrder.ShutdownIsPermutation` | packages/kernel/src/dependency-graph.ts:82-91 | the shutdown order lists the boot order's modules, each as often |
| `BootOrder.AuditStopsLast` | packages/kernel/src/dependency-graph.ts:78-91 | nothing but audit modules stops after an audit module |
| `BootOrder.DependentStopsFirstIff` | packages/kernel/src/dependency-graph.ts:82-91 | a module stops before its dependency exactly unless it is an audit module and the dependency is not |
| `BootOrder.AuditMayOutliveItsDependency` | packages/kernel/src/dependency-graph.ts:88-90 | the exception occurs |
| `ExecutionGraph.IndexOnce` | packages/orchestrator/src/execution-graph.ts:22-31 | the index of distinct nodes, or the first repeated id |
| `ExecutionGraph.ValidateExecutionGraph` | packages/orchestrator/src/execution-graph.ts:22-83 | valid exactly when ids are distinct, dependencies are nodes and there is no cycle; each refusal names exactly what is wrong |
| `Workflow.DoomedUnfold` | packages/orchestrator/src/workflow.ts:82-99 | a node has a failed transitive prerequisite exactly when a direct dependency lawfully does not succeed |
| `Workflow.RunNodes` | packages/orchestrator/src/workflow.ts:73-100 | the loop computes the fold over the order |
| `Workflow.Execute` | packages/orchestrator/src/workflow.ts:62-108 | invalid exactly when the graph is, and then nothing is called; otherwise results, calls and status are those of the order, and follow the law when the empty id is unused |
| `Workflow.LawHolds` | packages/orchestrator/src/workflow.ts:62-108 | for every runner and every linear extension each node is called exactly once if no transitive prerequisite failed, and otherwise skipped without a call |
| `Workflow.LawHoldsIff` | packages/orchestrator/src/workflow.ts:82-88 | the law holds for every runner exactly when the empty id is nobody's dependency |
| `Workflow.EmptyIdFailureIsIgnored` | packages/orchestrator/src/workflow.ts:82-88 | a plan on which it fails |
| `Workflow.SummaryMeans` | packages/orchestrator/src/workflow.ts:102-107 | succeeded exactly when every step would; failed exactly when the plan is not empty and every step without dependencies fails |
| `Workflow.EveryNodeIsReported` | packages/orchestrator/src/workflow.ts:73-100 | for every plan, runner and linear extension, empty id or not: a node is skipped without a call exactly when the first of its listed dependencies that did not succeed has a name; otherwise it is called once and reported as returned, or failed if the runner threw |
| `Kernel.BootRuns` | packages/kernel/src/kernel.ts:110-147 | when no module fails the kernel runs, all are READY and each hook was called once in order |
| `Kernel.BootUnwinds` | packages/kernel/src/kernel.ts:114-141 | the modules before the failing one are shut down once each in reverse, it is FAILED, later ones are never touched, and boot has failed |
| `Kernel.BootSettlesIff` | packages/kernel/src/kernel.ts:114-141 | boot ends running or failed exactly unless the first failure is in an attach hook |
| `Kernel.AttachFailureLeavesBooting` | packages/kernel/src/kernel.ts:119-123 | the unsettled ending occurs |
| `Kernel.RunningMeansReady` | packages/kernel/src/kernel.ts:94-147 | a boot left to itself that ends running has every registered module READY |
| `Kernel.StopRemainingIs` | packages/kernel/src/kernel.ts:157-170 | exactly the modules not yet stopped are shut down, once each, in order |
| `Kernel.ShutdownStopsEverything` | packages/kernel/src/kernel.ts:149-176 | a shutdown left to itself stops every booted module and calls each due hook once, audit last |
| `Kernel.StoppedKernelRestartsModuleIff` | packages/kernel/src/kernel.ts:205-223 | a module returns to READY in a stopped kernel exactly when fewer failures than restarts are on record and its hooks succeed |
| `Kernel.PollEachIs` | packages/kernel/src/kernel.ts:235-252 | after a poll left to itself every module that was up has what its hook reported, FAILED if it threw, and all others are as they were |
| `Kernel.KernelObject.Register` | packages/kernel/src/kernel.ts:78-84 | accepted exactly before boot and for a new id, and ids stay unique |
| `Kernel.KernelObject.BootKernel` | packages/kernel/src/kernel.ts:94-147 | the whole new state after boot, from an exact resolution |
| `Kernel.KernelObject.BootModules` | packages/kernel/src/kernel.ts:110-147 | the boot loop stops at the first failing module |
| `Kernel.KernelObject.BootOne` | packages/kernel/src/kernel.ts:119-140 | the hooks of one module and what follows when one throws |
| `Kernel.KernelObject.Abort` | packages/kernel/src/kernel.ts:129-140 | the module is FAILED and counted, the started ones are unwound, boot has failed |
| `Kernel.KernelObject.Unwind` | packages/kernel/src/kernel.ts:263-272 | the given modules are stopped in the given order |
| `Kernel.KernelObject.ShutDown` | packages/kernel/src/kernel.ts:149-176 | accepted exactly from running, paused or boot-failed, with the whole new state |
| `Kernel.KernelObject.StopDue` | packages/kernel/src/kernel.ts:157-170 | the shutdown loop passes over stopped modules |
| `Kernel.KernelObject.PauseAll` | packages/kernel/src/kernel.ts:178-187 | pauses in reverse boot order; a throwing hook leaves the kernel running |
| `Kernel.KernelObject.ResumeAll` | packages/kernel/src/kernel.ts:189-198 | resumes in boot order; a throwing hook leaves the kernel paused |
| `Kernel.KernelObject.ReportCrash` | packages/kernel/src/kernel.ts:205-233 | the decision, which is the one the policy warrants given the failures on record, and the whole new state |
| `Kernel.CrashDecisionIsWarranted` | packages/kernel/src/crash-recovery.ts:28-43 | an iff for each decision: restart below maxRestarts, stop the kernel when they are spent and the flag is set, leave failed otherwise, and for an unknown module or a policy that never restarts |
| `Kernel.LeftReportDoes` | packages/kernel/src/kernel.ts:205-233 | a report that is left, or that may not shut down, changes this module's status and count and nothing else |
| `Kernel.RestartDoes` | packages/kernel/src/kernel.ts:218-227 | a restart calls initialize and then start, leaves the module READY exactly if both succeed, and changes nothing else |
| `Kernel.ExhaustionStopsKernel` | packages/kernel/src/kernel.ts:228-230 | a spent budget under a policy that stops the kernel leaves it stopped with every booted module STOPPED |
| `Kernel.KernelObject.PollModule` | packages/kernel/src/kernel.ts:237-250 | only a module that is up is polled, and its status written |
| `Kernel.KernelObject.PollHealth` | packages/kernel/src/kernel.ts:235-252 | the whole new state of a poll, and a report for each module with its status |
| `KernelSteps.StepKeepsCalls` | packages/kernel/src/kernel.ts:78-252 | every segment of any call keeps: ids are unique, the boot order lists every registered module once, only the booting call is in a boot, and shutdowns, pauses and resumes come after booting |
| `KernelSteps.CallsStayOk` | packages/kernel/src/kernel.ts:78-252 | that holds after every interleaving |
| `KernelSteps.RegistryIsFixed` | packages/kernel/src/kernel.ts:78-99 | over every interleaving the registry is fixed once booting has begun, and the kernel boots at most once |
| `KernelSteps.ResolverExists` | packages/kernel/src/dependency-graph.ts:16-76 | boot-order resolution is defined for every registry |
| `KernelProgress.StepKeepsNoneTouching` | packages/kernel/src/kernel.ts:205-252 | without a report or poll in progress that may write a module's status, and with none begun, there is none after any segment |
| `KernelProgress.StepKeepsTold` | packages/kernel/src/kernel.ts:94-147 | every segment of any call keeps the status of a module that no report or poll touches told by where the boot is |
| `KernelProgress.BootEndTells` | packages/kernel/src/kernel.ts:94-147 | over every interleaving a boot that ends leaves a module that none was touching and none has touched since READY when done; when it failed, STOPPED before the failing module, FAILED there and as found after it |
| `KernelProgress.StepKeepsStopInv` | packages/kernel/src/kernel.ts:149-176 | every segment of any call keeps the modules that a shutdown has passed STOPPED, as long as no report or poll touches them |
| `KernelProgress.StoppedWhenShutDown` | packages/kernel/src/kernel.ts:149-176 | over every interleaving, once an accepted shutdown has completed, a module that none was touching then and none has touched since is STOPPED |
| `KernelExact.ReadyWhenBooted` | packages/kernel/src/kernel.ts:94-147 | over every interleaving, when a boot completes every registered module of which no report and no poll was ever begun is READY |
| `KernelExact.AlwaysReadyIff` | packages/kernel/src/kernel.ts:94-252 | for every registry that resolves and every set of modules: every run whose reports and polls concern only that set and whose boot completes leaves a module READY exactly when it is not in the set |
| `KernelExact.BootLeavesReadyIff` | packages/kernel/src/kernel.ts:94-252 | over every interleaving a boot that begins leaves a module READY, unless a report or poll of it is begun since, exactly when none that may write its status is in progress |
| `KernelExact.ShutdownLeavesStoppedIff` | packages/kernel/src/kernel.ts:149-252 | over every interleaving an accepted shutdown leaves a module STOPPED from its completion on, unless a report or poll of it is begun since, exactly when none that may write its status was in progress |
| `KernelHistory.BootLogStaysOk` | packages/kernel/src/kernel.ts:114-141 | over every interleaving the hooks a boot has called are told by where it is alone |
| `KernelHistory.FailedBootUnwindsExactly` | packages/kernel/src/kernel.ts:114-141 | over every interleaving a failed boot called the hooks up to the one that threw, then shut down exactly the modules before it, once each in reverse, and nothing of later modules |
| `RestartBudget.BooksStayOk` | packages/kernel/src/kernel.ts:205-217 | over every interleaving counters, recorded failures, decisions and waiting reports agree |
| `RestartBudget.RestartBudgetHolds` | packages/kernel/src/crash-recovery.ts:28-43 | over every interleaving restarts granted, reports waiting within the budget and failures at boot within it add up to the failures capped at maxRestarts; restarts never exceed it |
| `RestartBudget.EveryDecisionIsWarranted` | packages/kernel/src/crash-recovery.ts:28-43 | over every interleaving each decision taken is the one the policy warrants by the failures of that module counted before this one |
| `RestartBudget.DecisionActs` | packages/kernel/src/kernel.ts:217-230 | over every interleaving the segment that decides on a report restarts, accepts a shutdown or ends, as the policy warrants, and touches nothing else |
| `RestartBudget.PendingReportsWait` | packages/kernel/src/kernel.ts:205-217 | over every interleaving a report without a decision is a call still waiting for it, with the count its failure was given |
| `KernelDown.DownForGoodIff` | packages/kernel/src/kernel.ts:149-198 | a kernel that is shutting down or stopped stays so under every continuation exactly when no pause or resume is in progress |
| `KernelDown.StoppedIsFinalIff` | packages/kernel/src/kernel.ts:149-198 | over every interleaving a stopped kernel stays stopped exactly when no pause or resume is in progress |
| `KernelDown.AcceptedShutdownIsFinalIff` | packages/kernel/src/kernel.ts:149-198 | over every interleaving an accepted shutdown is final exactly when no pause or resume was in progress when it was accepted |
| `KernelTraces.PauseOutlivesShutdown` | packages/kernel/src/kernel.ts:178-187 | a run in which a pause brings a stopped kernel back to paused |
| `KernelTraces.CrashDuringBootLeavesFailed` | packages/kernel/src/kernel.ts:114-147 | a run in which a boot completes with its module failed |
| `KernelTraces.PollDuringBootLeavesFailed` | packages/kernel/src/kernel.ts:114-252 | a run in which a boot completes with its module failed by a poll, and no failure counted |
| `KernelTraces.PollOutlivesShutdown` | packages/kernel/src/kernel.ts:149-252 | a run in which a poll makes a module READY after the shutdown stopped it |
| `KernelTraces.ReadyInStoppedKernel` | packages/kernel/src/kernel.ts:205-223 | a run in which a module is READY after the kernel was booted and shut down |
| `KernelAlone.BootAlone` | packages/kernel/src/kernel.ts:94-147 | the segments of a boot with nothing in between do what the sequential boot does, whatever its hooks do |
| `KernelAlone.ShutdownAlone` | packages/kernel/src/kernel.ts:149-176 | likewise for an accepted shutdown |
| `KernelAlone.PauseAlone` | packages/kernel/src/kernel.ts:178-187 | likewise for a pause, whichever hook throws |
| `KernelAlone.ResumeAlone` | packages/kernel/src/kernel.ts:189-198 | likewise for a resume |
| `KernelAlone.CrashAlone` | packages/kernel/src/kernel.ts:205-233 | likewise for a crash report |
| `KernelAlone.HealthAlone` | packages/kernel/src/kernel.ts:235-252 | likewise for a health poll |
| `Lineage.PointersRepeat` | packages/event-foundation/src/audit.ts:142-152 | following the pointers from one event repeats exactly when they lead to a cycle, and always ends |
| `Lineage.SomeRepeats` | packages/event-foundation/src/audit.ts:142-153 | some listed event leads to a cycle |
| `Lineage.HasLineageCycle` | packages/event-foundation/src/audit.ts:137-154 | true exactly when the causation graph, last entry winning, has a cycle |
| `Condition.EvaluateCondition` | packages/governance/src/policy.ts:35-87 | the short-circuiting loops compute the bounded three-valued meaning |
| `Condition.LeavesMean` | packages/governance/src/policy.ts:39-66 | when each test of an attribute is true, false and unknown |
| `Condition.DefiniteAnswersPersist` | packages/governance/src/policy.ts:35-87 | a definite answer survives every completion of the bag by names it did not answer by inheritance |
| `Condition.ConditionDepthIs` | packages/governance/src/policy.ts:296-307 | the early cut computes the true depth capped just above the limit |
| `Condition.BoundedAnswers` | packages/governance/src/policy.ts:35-38 | the bounded answer is unknown or the unbounded one, and equal to it within the depth limit |
| `Condition.DepthLimitIsTight` | packages/governance/src/policy.ts:35-38 | one level more and a definite answer is lost |
| `PolicySet.ExpiredStatusAloneIsUsable` | packages/governance/src/policy.ts:154-164 | a policy with status "expired" is used exactly until its expiry time, and in production exactly if it is signed besides, just like an active one |
| `PolicySet.UsabilityIs` | packages/governance/src/policy.ts:154-164 | an iff for each reason not to use a policy |
| `PolicySet.EvaluatePolicySet` | packages/governance/src/policy.ts:171-206 | the status is that of the set of rules that hold, with exactly the deciding rules listed |
| `PolicySet.RecordPolicies` | packages/governance/src/policy.ts:213-226 | an effect is recorded at a priority exactly when a usable rule with them definitely holds |
| `PolicySet.DetectPolicyConflict` | packages/governance/src/policy.ts:213-234 | conflict exactly when opposite effects hold at one priority, otherwise the evaluated status |
| `PolicySet.StatusDependsOnFacts` | packages/governance/src/policy.ts:166-234 | neither status depends on order, grouping or repetition of policies and rules |
| `PolicySet.OnlyRelevantRulesMatter` | packages/governance/src/policy.ts:148-234 | sets that agree on the rules that may have a say get the same two answers |
| `PolicySet.SilentPolicyChangesNothing` | packages/governance/src/policy.ts:154-164 | adding or removing a policy of another tenant or workspace, or one that is revoked, a draft, past its expiry or unsigned in production, changes neither answer |
| `PolicySet.OffTargetRuleChangesNothing` | packages/governance/src/policy.ts:148-152 | adding or removing a rule whose target leaves out the action or the resource type changes neither answer |
| `PolicySet.AllowNeedsItsOwnRule` | packages/governance/src/policy.ts:148-206 | ALLOW exactly when no key is unsafe, some allowing rule on target in a policy in force definitely holds, and every denying one definitely does not |
| `PolicySet.ConflictNeverHidesAnAllow` | packages/governance/src/policy.ts:208-234 | a conflict arises only where evaluation gives DENY or MALFORMED; both allow exactly the same inputs |
| `PolicySet.ConflictIgnoresUnsafeKeys` | packages/governance/src/policy.ts:213-226 | a bag with unsafe keys can be reported as a conflict |
| `PolicySet.AllowSurvives` | packages/governance/src/policy.ts:171-206 | ALLOW persists under completions with safe, uninherited names |
| `PolicySet.AllowPersistsIff` | packages/governance/src/policy.ts:171-206 | exactly those completions keep every allowed request allowed |
| `PolicySet.InheritedNameRevokesAllow` | packages/governance/src/policy.ts:46-49 | an ALLOW that supplying `toString` revokes |
| `PolicySet.ValidatePolicy` | packages/governance/src/policy.ts:281-294 | valid exactly when id, version and every rule are sound; otherwise the fault of the first unsound rule |
| `PolicySet.ScreenMeansNesting` | packages/governance/src/internal/crypto.ts:52-70 | the unsafe-key screen, run over a condition as the plain object it is, reports exactly that it is nested too far |
| `PolicySet.ValidatedPoliciesAreExact` | packages/governance/src/policy.ts:281-307 | on a validated policy the bounded evaluator is the unbounded meaning on every bag |
| `Keys.SharedKeyIff` | packages/event-foundation/src/store.ts:49-51 | two tenants can share a key exactly when one name with the separator starts the other |
| `Keys.TenantsShareAKey` | packages/event-foundation/src/store.ts:49-51 | two tenants with one key |
| `Keys.ColonFreeKeysAreDistinct` | packages/adapters/src/audit-sink.ts:88-90 | names without a colon never share a key |
| `Keys.SharedKeyWithIff` | packages/memory/src/immutable-store.ts:161-162 | with any separator, the unit separator of the memory partitions included, two tenants can share a key exactly when one name with the separator starts the other |
| `Keys.PartitionsAreDistinct` | packages/memory/src/immutable-store.ts:161-162 | names without the unit separator never share a memory partition |
| `EventStore.InMemoryEventStore.Append` | packages/event-foundation/src/store.ts:58-91 | the answer and the new streams; a refused batch changes nothing |
| `EventStore.AppendAnswers` | packages/event-foundation/src/store.ts:63-74 | an iff for each refusal of an append |
| `EventStore.InMemoryEventStore.Push` | packages/event-foundation/src/store.ts:74-90 | the loop extends the stream entry by entry |
| `EventStore.InMemoryEventStore.VerifyIntegrity` | packages/event-foundation/src/store.ts:101-116 | true exactly when every link of the stream is intact |
| `EventStore.ExtendKeeps` | packages/event-foundation/src/store.ts:74-90 | extending keeps what is there, adds the events in order and keeps the chain intact |
| `EventStore.AppendKeeps` | packages/event-foundation/src/store.ts:58-91 | an append touches one stream only, which grows by the batch |
| `EventStore.EveryStreamVerifies` | packages/event-foundation/src/store.ts:58-116 | after any run every stream verifies |
| `EventStore.HistoryIsPrefix` | packages/event-foundation/src/store.ts:58-91 | what a stream held earlier starts what it holds later |
| `EventStore.OneWinnerPerVersion` | packages/event-foundation/src/store.ts:61-69 | of two non-empty appends expecting one version of a stream at most one succeeds |
| `EventStore.ContentsAreAccepted` | packages/event-foundation/src/store.ts:58-91 | a stream holds exactly the events of the accepted batches, in order |
| `EventStore.LastHashFixesContents` | packages/event-foundation/src/store.ts:101-116 | two verifying streams with the same last hash that do not collide have the same length and the same events, exactly unless just one of them is empty |
| `EventStore.LastHashDecidesIff` | packages/event-foundation/src/store.ts:101-116 | with the empty stream included the last hash decides the contents of streams that do not collide exactly when no chain of events hashes back to the genesis value |
| `EventStore.GenesisHidesAStream` | packages/event-foundation/src/store.ts:101-116 | with a digest without any collision, a stream of one event that looks like the empty one |
| `AuditSink.InMemoryAuditStorageBackend.Append` | packages/adapters/src/audit-sink.ts:62-66 | the partition grows by the record, the others stay |
| `AuditSink.InMemoryAuditStorageBackend.VerifyChain` | packages/adapters/src/audit-sink.ts:161-177 | true exactly when every link of the partition is intact |
| `AuditSink.StepKeepsChain` | packages/adapters/src/audit-sink.ts:127-155 | one step keeps a good chain good exactly unless it commits on a stale head, and repairs none |
| `AuditSink.ChainOkIffNoStaleCommit` | packages/adapters/src/audit-sink.ts:127-177 | after any interleaving the partition verifies exactly when no commit used a stale head |
| `AuditSink.BrokenForGood` | packages/adapters/src/audit-sink.ts:127-177 | a partition that fails to verify never verifies again |
| `AuditSink.OverlapBreaksChain` | packages/adapters/src/audit-sink.ts:127-155 | two overlapping appends on a partition break it |
| `AuditSink.RecordsAreTheCommits` | packages/adapters/src/audit-sink.ts:127-155 | over every interleaving the records of a partition are exactly its committed appends, in order of commit, field by field, with payloads stored only redacted, even where the chain is broken |
| `EventBus.LastAttemptIs` | packages/adapters/src/event-bus.ts:188-210 | the last attempt is the first that is not a retry, or number retryLimit + 1 |
| `EventBus.InMemoryPersistentEventBus.Accept` | packages/adapters/src/event-bus.ts:124-152 | duplicates and backpressure change nothing; an accepted event takes the next number |
| `EventBus.SharedDedupeKeyIff` | packages/adapters/src/event-bus.ts:124-129 | events of two workspaces can be given one dedupe key exactly when the joined tenant and workspace of one, with the separator, start those of the other |
| `EventBus.ColonFreeDedupeKeys` | packages/adapters/src/event-bus.ts:124-129 | without colons in tenant and workspace the key keeps all three parts apart |
| `EventBus.OtherWorkspaceIsDropped` | packages/adapters/src/event-bus.ts:124-129 | a run in which an event of another workspace is dropped as a duplicate |
| `EventBus.InMemoryPersistentEventBus.DeliverTo` | packages/adapters/src/event-bus.ts:188-210 | ends after the last attempt, acknowledged or with exactly one dead letter |
| `EventBus.DeliveryFollowsLoop` | packages/adapters/src/event-bus.ts:188-210 | in the step system a delivery ends as the retry loop does |
| `EventBus.StepKeepsCounted` | packages/adapters/src/event-bus.ts:124-159 | every step keeps the in-flight count equal to the publishes in progress and within the cap |
| `EventBus.StepKeepsNumbered` | packages/adapters/src/event-bus.ts:136-152 | every step keeps numbering without gaps and one number per key |
| `EventBus.StepKeepsOwned` | packages/adapters/src/event-bus.ts:182-210 | every step keeps each publish's count of ended deliveries its own |
| `EventBus.StepKeepsLogged` | packages/adapters/src/event-bus.ts:188-210 | every step keeps one outcome per ended delivery, bounded attempts and dead letters exactly for the unacknowledged |
| `EventBus.BusSafety` | packages/adapters/src/event-bus.ts:124-210 | all four over every interleaving, with hooks that may throw |
| `EventBus.EachKeyAcceptedOnce` | packages/adapters/src/event-bus.ts:124-152 | over every interleaving a dedupe key is newly accepted at most once, and only accepted keys are deduplicated |
| `EventBus.FinishedPublishSettledAll` | packages/adapters/src/event-bus.ts:182-186 | a finished publish has exactly one outcome for each slot of what it found; `EventDelivery` says what that is |
| `EventDelivery.TargetsAreOfTheType` | packages/adapters/src/event-bus.ts:182-186 | over every interleaving what a publish in progress or finished delivers to is exactly the registrations present when its delivery began whose type is the event's, in order |
| `EventDelivery.RegistrationsAreSubscriptions` | packages/adapters/src/event-bus.ts:161-172 | over every interleaving the registrations are subscriptions that were made, in that order, and as many as were made and not taken back |
| `EventDelivery.StepKeepsOutcomes` | packages/adapters/src/event-bus.ts:182-210 | every step keeps: each outcome is of an accepted event and of the registration its publish found at that slot |
| `EventDelivery.OutcomesAreOfTheType` | packages/adapters/src/event-bus.ts:182-210 | over every interleaving every outcome is of a registration for the event's own type, and every dead letter is that of an unacknowledged outcome |
| `EventDelivery.EveryRegistrationOfTheTypeIsServed` | packages/adapters/src/event-bus.ts:124-186 | over every interleaving, once a publish has finished, each registration of the event's type present when delivery began has its outcome, and the event has no others |
| `EventDelivery.PublishIsAnswered` | packages/adapters/src/event-bus.ts:124-152 | over every interleaving a publish is deduplicated exactly when an event with its key was accepted, rejected exactly when not and the cap is reached, and otherwise accepted under the next number |
| `EventDelivery.HookFailureEnds` | packages/adapters/src/event-bus.ts:153-210 | a throwing audit hook ends its publish and frees its place; a publish that awaits a consumer cannot end so |

## Left out

- Digests, canonical JSON and random ids: function parameters and fresh-id parameters; constant-time comparison is its boolean result.
- Hex decoding of characters outside ASCII follows the documented rule that decoding stops at the first character that is not a hex digit.
- ISO timestamps and unparsable times: times are integers, so a time that does not parse is not modelled.
- Locale order of ids: any strict total order, given as a parameter.
- BootOrder.ResolveBootOrder: requires unique ids, which the module registry enforces (packages/kernel/src/registry.ts:13-22) and `Kernel.KernelObject.Register` keeps.
- Attribute numbers are reals; NaN is not modelled.
- Reason texts, details, evidence and next-action hints of decisions; reason codes are kept where two outcomes differ by them.
- `ReferenceExecutionEngine.execute`, `publish`, the concurrent final gate, overlapping pipeline runs and overlapping kernel calls are step systems on values rather than heap methods; updates within one segment are atomic, as they are between awaits.
- SecurePipeline.SecureExecutionPipeline.Run: one run from start to end; overlapping runs are in `PipelineRuns`. An audit sink that is slow to append is not cut into further segments.
- Edge validation, identity proofs, context validation, authorization, policy answers and runtime isolation of the secure pipeline are arbitrary inputs.
- Executor timeouts and abort signals: a thrown executor is either aborted or not.
- Kernel events, audit entries and the aggregate of the health reports; publishing an event never throws into the kernel, as its wrapper ensures.
- Serialisation of permits to text and back.
- Readiness gates, production guards, health files and single-shot decision tables of the other packages.
- Regex screens, the redactor and prompt-firewall normalisation: string-library behaviour.
- The other copies of the hash-chained audit sink: the same proof again.
- The memory package beyond its partition keys.

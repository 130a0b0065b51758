/** packages/pipeline/src/pipeline.ts: one staged run from an untrusted request to an audited execution. */
module SecurePipeline {
  import opened Base
  import opened Permit
  import opened ReplayProtection
  import opened ApprovalGate
  import opened FinalGate

  const DEFAULT_PERMIT_TTL_MS := 5 * 60 * 1000

  datatype Deps = Deps(setting: Setting, digest: ContextDigest, auditTestOnly: bool, permitTtlMs: Option<int>)

  datatype Subject = Subject(tenantId: Id, organizationId: Id, workspaceId: Id, actorId: Id, actorType: string)

  /** What the edge boundary and the identity gate vouch for. */
  datatype EdgeRequest = EdgeRequest(tenantId: Id, workspaceId: Id, authenticatedTenantId: Id)
  datatype VerifiedIdentity = VerifiedIdentity(tenantId: Id, workspaceId: Id, actorId: Id, assurance: Option<AuthenticationLevel>)

  datatype PolicyAnswer = PolicyDenied | PolicyNeedsApproval | PolicyAllowed

  /** The answers of context validation, authorization, policy evaluation and runtime isolation, which
      are arbitrary here. */
  datatype Answers = Answers(contextValid: bool, authorized: bool, policy: PolicyAnswer, isolated: bool)

  /** `edge` and `identity` are `None` when the request carries no proof from that boundary, and the
      levels are `None` when they are not one of the known levels. */
  datatype Request = Request(
    edge: Option<EdgeRequest>, identity: Option<VerifiedIdentity>, subject: Subject, answers: Answers,
    requestId: Id, correlationId: Id, causationId: Option<Id>, sessionId: Id, action: string, resource: ResourceRef,
    riskLevel: Option<PipelineRiskLevel>, requiredStepUp: AuthenticationLevel, approval: Option<ApprovalReference>,
    constraints: RuntimeConstraints, trace: map<string, string>)

  /** The identifiers drawn afresh during a run. */
  datatype Draw = Draw(permitId: Id, nonce: Id, decisionId: Id)

  datatype Attempt = Attempt(request: Request, draw: Draw, now: int)

  datatype Stage =
    | EdgeValidation | IdentityVerification | TenantContext | AuthorizationStage | PolicyEvaluation | ApprovalEvaluation
    | RuntimeIsolation | FinalGateStage | Verification

  datatype AuditOutcome =
    | DENIED | PENDING_APPROVAL | NEEDS_STEP_UP | REPLAY_REJECTED | CONTEXT_ERROR | RUNTIME_REFUSED | VERIFIED | VERIFICATION_FAILED

  // ---- the stages before the final gate -------------------------------------------------------------------

  /** A run that stops before the final gate: where, with what decision, and how it is audited. */
  datatype Halt = Halt(stage: Stage, decision: DecisionStatus, outcome: AuditOutcome)

  predicate FilledIn(r: Request) {
    && NonBlank(r.requestId) && NonBlank(r.correlationId) && NonBlank(r.sessionId) && NonBlank(r.action)
    && NonBlank(r.resource.id) && NonBlank(r.resource.kind)
  }

  /** Edge, identity and context name the same tenant, workspace and actor. */
  predicate Bound(e: EdgeRequest, i: VerifiedIdentity, s: Subject) {
    && e.tenantId == i.tenantId == s.tenantId && e.authenticatedTenantId == s.tenantId
    && e.workspaceId == i.workspaceId == s.workspaceId && i.actorId == s.actorId
  }

  function ApprovalInput(r: Request, now: int): GateInput {
    GateInput(r.action, r.subject.tenantId, r.subject.workspaceId, r.subject.actorId, r.resource.id, r.requiredStepUp,
              r.answers.policy == PolicyNeedsApproval, r.approval, now)
  }

  /** A run's approval is demanded for its own action and policy answer, and must be a human's, other than the
      actor, for this very action on this very resource in the actor's own tenant and workspace. */
  lemma ApprovalIsForRequest(r: Request, now: int, a: ApprovalReference)
    ensures Required(ApprovalInput(r, now)) <==> r.action in CRITICAL_ACTIONS || r.answers.policy.PolicyNeedsApproval?
    ensures Approves(a, ApprovalInput(r, now)) <==>
            && a.action == r.action && a.scope == r.resource.id && a.actorId == r.subject.actorId
            && a.tenantId == r.subject.tenantId && a.workspaceId == r.subject.workspaceId
            && NonBlank(a.approvalId) && a.singleUse && now < a.expiresAt
            && a.approverType == "human_user" && NonBlank(a.approverId) && a.approverId != r.subject.actorId
            && (r.requiredStepUp.Aal1? ==> !a.stepUpLevel.NoAuthentication?)
            && (r.requiredStepUp.Aal2? ==> a.stepUpLevel.Aal2? || a.stepUpLevel.Aal3?)
            && (r.requiredStepUp.Aal3? ==> a.stepUpLevel.Aal3?)
  {
  }

  predicate ProductionSafe(d: Deps) {
    d.setting.mode == ProductionMode ==> !d.setting.testOnly && !d.auditTestOnly
  }

  predicate EdgePasses(d: Deps, r: Request) {
    ProductionSafe(d) && r.edge.Some?
  }

  predicate IdentityPasses(r: Request) {
    r.edge.Some? && r.identity.Some? && Bound(r.edge.value, r.identity.value, r.subject)
  }

  predicate ContextPasses(r: Request) {
    r.answers.contextValid && FilledIn(r) && r.identity.Some? && r.identity.value.assurance.Some? && r.riskLevel.Some?
  }

  predicate PolicyPasses(r: Request) {
    r.answers.policy.PolicyAllowed? || r.answers.policy.PolicyNeedsApproval?
  }

  predicate ApprovalPasses(r: Request, now: int) {
    Required(ApprovalInput(r, now)) ==> r.approval.Some? && Approves(r.approval.value, ApprovalInput(r, now))
  }

  predicate ReachesContext(d: Deps, r: Request) {
    EdgePasses(d, r) && IdentityPasses(r)
  }

  predicate ReachesPolicy(d: Deps, r: Request) {
    ReachesContext(d, r) && ContextPasses(r) && r.answers.authorized
  }

  predicate ReachesApproval(d: Deps, r: Request) {
    ReachesPolicy(d, r) && PolicyPasses(r)
  }

  predicate ReachesIsolation(d: Deps, r: Request, now: int) {
    ReachesApproval(d, r) && ApprovalPasses(r, now)
  }

  /** Every stage before the final gate is satisfied. */
  predicate StagesPass(d: Deps, r: Request, now: int) {
    ReachesIsolation(d, r, now) && r.answers.isolated
  }

  /** `s` is the first stage that is not satisfied. */
  predicate FirstFailing(d: Deps, r: Request, now: int, s: Stage) {
    match s
    case EdgeValidation => !EdgePasses(d, r)
    case IdentityVerification => EdgePasses(d, r) && !IdentityPasses(r)
    case TenantContext => ReachesContext(d, r) && !ContextPasses(r)
    case AuthorizationStage => ReachesContext(d, r) && ContextPasses(r) && !r.answers.authorized
    case PolicyEvaluation => ReachesPolicy(d, r) && !PolicyPasses(r)
    case ApprovalEvaluation => ReachesApproval(d, r) && !ApprovalPasses(r, now)
    case RuntimeIsolation => ReachesIsolation(d, r, now) && !r.answers.isolated
    case FinalGateStage => false
    case Verification => false
  }

  predicate ApprovalIsMissing(r: Request, now: int) {
    Required(ApprovalInput(r, now)) && (r.approval.Some? ==> !NonBlank(r.approval.value.approvalId))
  }

  /** The approval is good in everything but its level. */
  predicate LacksOnlyLevel(r: Request, now: int) {
    && Required(ApprovalInput(r, now)) && r.approval.Some?
    && Approves(r.approval.value, ApprovalInput(r, now).(requiredStepUp := NoAuthentication))
    && Rank(r.approval.value.stepUpLevel) < Rank(r.requiredStepUp)
  }

  /** Which decision a request halts with. */
  predicate HaltsWith(d: Deps, r: Request, now: int, decision: DecisionStatus) {
    match decision
    case STEP_UP_REQUIRED => ReachesApproval(d, r) && LacksOnlyLevel(r, now)
    case APPROVAL_REQUIRED => ReachesApproval(d, r) && ApprovalIsMissing(r, now)
    case CONTEXT_INVALID => (ProductionSafe(d) && r.edge.None?) || (ReachesContext(d, r) && !ContextPasses(r))
    case RUNTIME_REJECTED => !ProductionSafe(d) || (ReachesIsolation(d, r, now) && !r.answers.isolated)
    case DENY =>
      || (EdgePasses(d, r) && !IdentityPasses(r))
      || (ReachesContext(d, r) && ContextPasses(r) && !r.answers.authorized)
      || (ReachesPolicy(d, r) && !PolicyPasses(r))
      || (ReachesApproval(d, r) && !ApprovalPasses(r, now) && !ApprovalIsMissing(r, now) && !LacksOnlyLevel(r, now))
    case ALLOW => false
    case RETRY_REJECTED => false
  }

  /** How a refusal is audited. */
  predicate AuditedAs(decision: DecisionStatus, outcome: AuditOutcome) {
    match outcome
    case DENIED => decision == DENY
    case PENDING_APPROVAL => decision == APPROVAL_REQUIRED
    case NEEDS_STEP_UP => decision == STEP_UP_REQUIRED
    case REPLAY_REJECTED => decision == RETRY_REJECTED
    case CONTEXT_ERROR => decision == CONTEXT_INVALID
    case RUNTIME_REFUSED => decision == RUNTIME_REJECTED
    case VERIFIED => false
    case VERIFICATION_FAILED => false
  }

  /** The halt names the first stage that is not satisfied, the decision that goes with the cause, and the
      audit outcome that goes with the decision. */
  predicate RightHalt(d: Deps, r: Request, now: int, h: Halt) {
    FirstFailing(d, r, now, h.stage) && HaltsWith(d, r, now, h.decision) && AuditedAs(h.decision, h.outcome)
  }

  /** A request has at most one first failing stage, one decision and one audit outcome. */
  lemma RightHaltIsUnique(d: Deps, r: Request, now: int, h: Halt, k: Halt)
    requires RightHalt(d, r, now, h) && RightHalt(d, r, now, k)
    ensures h == k
  {
  }

  /** The stages up to policy evaluation, in order. */
  function EarlyHalt(d: Deps, r: Request, ghost now: int): (h: Option<Halt>)
    ensures h.None? <==> ReachesApproval(d, r)
    ensures h.Some? ==> RightHalt(d, r, now, h.value)
  {
    if d.setting.mode == ProductionMode && (d.setting.testOnly || d.auditTestOnly) then
      Some(Halt(EdgeValidation, RUNTIME_REJECTED, RUNTIME_REFUSED))
    else if r.edge.None? then Some(Halt(EdgeValidation, CONTEXT_INVALID, CONTEXT_ERROR))
    else if r.identity.None? then Some(Halt(IdentityVerification, DENY, DENIED))
    else if BindingMismatch(r.edge.value, r.identity.value, r.subject) then Some(Halt(IdentityVerification, DENY, DENIED))
    else if !r.answers.contextValid || SomeBlank(r) || r.identity.value.assurance.None? || r.riskLevel.None? then
      Some(Halt(TenantContext, CONTEXT_INVALID, CONTEXT_ERROR))
    else if !r.answers.authorized then Some(Halt(AuthorizationStage, DENY, DENIED))
    else if r.answers.policy == PolicyDenied then Some(Halt(PolicyEvaluation, DENY, DENIED))
    else None
  }

  /** The approval gate, then isolation. */
  function LateHalt(ghost d: Deps, r: Request, now: int): (h: Option<Halt>)
    requires ReachesApproval(d, r)
    ensures h.None? <==> ApprovalPasses(r, now) && r.answers.isolated
    ensures h.Some? ==> RightHalt(d, r, now, h.value)
  {
    match EvaluateApprovalGate(ApprovalInput(r, now)).status
    case ApprovalRequired => Some(Halt(ApprovalEvaluation, APPROVAL_REQUIRED, PENDING_APPROVAL))
    case StepUpRequired => Some(Halt(ApprovalEvaluation, STEP_UP_REQUIRED, NEEDS_STEP_UP))
    case ApprovalDeny => Some(Halt(ApprovalEvaluation, DENY, DENIED))
    case ApprovalAllow => if !r.answers.isolated then Some(Halt(RuntimeIsolation, RUNTIME_REJECTED, RUNTIME_REFUSED)) else None
  }

  /** The stages in order; the first that is not satisfied halts the run. */
  function HaltOf(d: Deps, r: Request, now: int): (h: Option<Halt>)
    ensures h.None? <==> StagesPass(d, r, now)
    ensures h.Some? ==> RightHalt(d, r, now, h.value)
  {
    var early := EarlyHalt(d, r, now);
    if early.Some? then early else LateHalt(d, r, now)
  }

  /** The cross-boundary test. */
  predicate BindingMismatch(e: EdgeRequest, i: VerifiedIdentity, s: Subject) {
    || i.tenantId != s.tenantId || i.workspaceId != s.workspaceId || i.actorId != s.actorId
    || e.tenantId != s.tenantId || e.workspaceId != s.workspaceId || e.authenticatedTenantId != s.tenantId
  }

  /** The test of the required texts when the context is made. */
  predicate SomeBlank(r: Request) {
    || !NonBlank(r.requestId) || !NonBlank(r.correlationId) || !NonBlank(r.sessionId) || !NonBlank(r.action)
    || !NonBlank(r.resource.id) || !NonBlank(r.resource.kind)
  }

  // ---- the permit and the final gate ---------------------------------------------------------------------------

  function ContextOf(r: Request, now: int): ExecutionContext
    requires r.identity.Some? && r.identity.value.assurance.Some? && r.riskLevel.Some?
  {
    var s := r.subject;
    ExecutionContext(
      SecurityFields(r.requestId, s.actorId, s.actorType, s.tenantId, s.organizationId, s.workspaceId, r.sessionId,
                     r.identity.value.assurance.value, r.action, r.resource, r.riskLevel.value),
      r.correlationId,
      if r.causationId.Some? && NonBlank(r.causationId.value) then r.causationId else None, now, r.trace)
  }

  function Ttl(d: Deps): int {
    if d.permitTtlMs.Some? then d.permitTtlMs.value else DEFAULT_PERMIT_TTL_MS
  }

  function GrantOf(d: Deps, a: Attempt): Grant
    requires StagesPass(d, a.request, a.now)
  {
    var r := a.request;
    GrantFor(d.digest, ContextOf(r, a.now), a.now + Ttl(d), a.draw.decisionId,
             EvaluateApprovalGate(ApprovalInput(r, a.now)).approvalId, r.constraints)
  }

  function PermitOf(d: Deps, a: Attempt): SignedPermit
    requires StagesPass(d, a.request, a.now)
  {
    IssuePermit(d.setting.mac, d.setting.key, GrantOf(d, a), a.draw.permitId, a.draw.nonce)
  }

  /** The context a run hands to the executor is the request's own, with a blank causation left out. */
  predicate DescribesRequest(c: ExecutionContext, r: Request, now: int) {
    var s := c.security;
    && s.requestId == r.requestId && c.correlationId == r.correlationId && s.sessionId == r.sessionId
    && s.actorId == r.subject.actorId && s.actorType == r.subject.actorType && s.tenantId == r.subject.tenantId
    && s.organizationId == r.subject.organizationId && s.workspaceId == r.subject.workspaceId
    && s.requestedAction == r.action && s.resource == r.resource && r.riskLevel == Some(s.riskLevel)
    && r.identity.Some? && r.identity.value.assurance == Some(s.authenticationLevel)
    && c.timestamp == now && c.trace == r.trace
    && (c.causationId.Some? <==> r.causationId.Some? && NonBlank(r.causationId.value))
    && (c.causationId.Some? ==> c.causationId == r.causationId)
  }

  /** What a permit grants is the request's own action, for the default or configured time from now. */
  predicate GrantsRequest(d: Deps, g: Grant, r: Request, now: int) {
    && g.requestId == r.requestId && g.correlationId == r.correlationId
    && g.actorId == r.subject.actorId && g.actorType == r.subject.actorType && g.tenantId == r.subject.tenantId
    && g.organizationId == r.subject.organizationId && g.workspaceId == r.subject.workspaceId
    && g.action == r.action && g.resource == r.resource && g.constraints == r.constraints
    && g.issuedAt == now
    && (d.permitTtlMs.Some? ==> g.expiresAt - now == d.permitTtlMs.value)
    && (d.permitTtlMs.None? ==> g.expiresAt - now == 300000)
  }

  /** A run's permit carries the identifiers drawn for it, grants the request, names the approval exactly if one
      was required, and is bound to the digest of the context that the executor gets. */
  lemma PermitIsForRequest(d: Deps, a: Attempt)
    requires StagesPass(d, a.request, a.now)
    ensures var c := PermitOf(d, a).claims;
      && c.permitId == a.draw.permitId && c.nonce == a.draw.nonce && c.keyId == d.setting.key.keyId
      && c.grant.policyDecisionId == a.draw.decisionId && GrantsRequest(d, c.grant, a.request, a.now)
      && (Required(ApprovalInput(a.request, a.now)) ==>
            a.request.approval.Some? && c.grant.approvalReference == Some(a.request.approval.value.approvalId))
      && (!Required(ApprovalInput(a.request, a.now)) ==> c.grant.approvalReference == None)
    ensures var context := ContextOf(a.request, a.now);
      DescribesRequest(context, a.request, a.now) && PermitOf(d, a).claims.grant.contextHash == d.digest(context.security)
  {
  }

  const PRIOR_STAGES := 10

  /** What the run hands to the final gate. */
  function GateInputOf(d: Deps, a: Attempt): FinalGateInput
    requires StagesPass(d, a.request, a.now)
  {
    var approval := EvaluateApprovalGate(ApprovalInput(a.request, a.now));
    FinalGateInput(seq(PRIOR_STAGES, _ => ALLOW), PermitOf(d, a), ContextBindings(d.digest, ContextOf(a.request, a.now)),
                   true, approval.required, approval.approvalId, true, a.now)
  }

  ghost predicate SoundDeps(d: Deps) {
    ProducesDigests(d.setting.mac) && UsableKey(d.setting.key) && forall s :: DigestText(d.digest(s))
  }

  /** The parts of a permit that no earlier stage looks at. */
  predicate Permittable(d: Deps, a: Attempt) {
    var s := a.request.subject;
    && NonBlank(s.tenantId) && NonBlank(s.organizationId) && NonBlank(s.workspaceId) && NonBlank(s.actorId) && NonBlank(s.actorType)
    && NonBlank(a.draw.permitId) && NonBlank(a.draw.nonce) && NonBlank(a.draw.decisionId)
    && Ttl(d) > 0
  }

  /** The permit a run issues for itself passes the final gate's checks exactly when the time to live is
      positive and the subject is filled in: the bindings always agree. */
  lemma OwnPermitVerifiesIff(d: Deps, a: Attempt)
    requires SoundDeps(d) && StagesPass(d, a.request, a.now)
    ensures Screen(d.setting, GateInputOf(d, a)).None? <==> Permittable(d, a)
  {
    var g := GrantOf(d, a);
    DigestIsNonBlank(g.contextHash);
    IssuedVerifiesIff(d.setting.mac, d.setting.key, g, a.draw.permitId, a.draw.nonce,
                      ContextBindings(d.digest, ContextOf(a.request, a.now)), a.now);
    WellFormedIff(d, a);
  }

  lemma WellFormedIff(d: Deps, a: Attempt)
    requires StagesPass(d, a.request, a.now) && NonBlank(GrantOf(d, a).contextHash)
    ensures WellFormedGrant(GrantOf(d, a)) <==>
            var s := a.request.subject;
            && NonBlank(s.tenantId) && NonBlank(s.organizationId) && NonBlank(s.workspaceId) && NonBlank(s.actorId)
            && NonBlank(s.actorType) && NonBlank(a.draw.decisionId)
  {
  }

  /** When a run reaches the executor, given what the two stores hold. */
  ghost predicate Admissible(d: Deps, claims: ClaimStore, s: Approvals, a: Attempt) {
    && StagesPass(d, a.request, a.now) && Permittable(d, a)
    && a.draw.permitId !in claims
    && (Required(ApprovalInput(a.request, a.now)) ==>
          var id := a.request.approval.value.approvalId;
          id in s.byId && id !in s.consumed && a.now < s.byId[id].expiresAt)
  }

  /** Which decision the final gate refuses a run with: an unusable permit, a permit id seen before, or an
      approval that cannot be consumed. */
  predicate GateRefusesWith(d: Deps, claims: ClaimStore, a: Attempt, decision: DecisionStatus) {
    match decision
    case RUNTIME_REJECTED => !Permittable(d, a)
    case RETRY_REJECTED => Permittable(d, a) && a.draw.permitId in claims
    case DENY => Permittable(d, a) && a.draw.permitId !in claims
    case _ => false
  }

  lemma AdmissibleIff(d: Deps, claims: ClaimStore, s: Approvals, a: Attempt)
    requires SoundDeps(d) && StagesPass(d, a.request, a.now)
    ensures Admissible(d, claims, s, a) <==> Authorizable(d.setting, claims, s, GateInputOf(d, a))
  {
    OwnPermitVerifiesIff(d, a);
    ChecksPassIff(d.setting, GateInputOf(d, a));
    assert GateInputOf(d, a).permit.claims.permitId == a.draw.permitId;
  }

  // ---- execution, verification and audit ---------------------------------------------------------------------------

  datatype ExecutionStatus = SUCCEEDED | FAILED | CANCELLED | TIMED_OUT

  datatype Envelope = Envelope(requestId: Id, permitId: Id, status: ExecutionStatus)

  /** What the executor does when called. */
  datatype ExecutorReply = Replied(envelope: Envelope) | Threw(aborted: bool)

  datatype Execution = Execution(authorization: Authorization, permit: SignedPermit, context: ExecutionContext)

  datatype AuditRecord = AuditRecord(
    requestId: Id, correlationId: Id, actorId: Id, tenantId: Id, workspaceId: Id, action: string, resource: ResourceRef,
    decision: DecisionStatus, approvalReferences: seq<Id>, permit: Option<SignedPermit>, outcome: AuditOutcome, timestamp: int)

  datatype RunStatus = EXECUTED | Decided(decision: DecisionStatus)

  datatype Outcome = Outcome(status: RunStatus, stage: Stage, audit: AuditRecord, result: Option<Envelope>)

  function RecordOf(r: Request, decision: DecisionStatus, permit: Option<SignedPermit>, outcome: AuditOutcome, timestamp: int): AuditRecord {
    AuditRecord(r.requestId, r.correlationId, r.subject.actorId, r.subject.tenantId, r.subject.workspaceId, r.action, r.resource,
                decision, if r.approval.Some? then [r.approval.value.approvalId] else [], permit, outcome, timestamp)
  }

  /** The record names the request's own ids, subject, action, resource and approval. */
  predicate RecordFor(r: Request, record: AuditRecord) {
    && record.requestId == r.requestId && record.correlationId == r.correlationId
    && record.tenantId == r.subject.tenantId && record.workspaceId == r.subject.workspaceId
    && record.actorId == r.subject.actorId && record.action == r.action && record.resource == r.resource
    && (r.approval.Some? ==> record.approvalReferences == [r.approval.value.approvalId])
    && (r.approval.None? ==> record.approvalReferences == [])
  }

  function ResultOf(reply: ExecutorReply, permit: SignedPermit): Envelope {
    match reply
    case Replied(envelope) => envelope
    case Threw(aborted) => Envelope(permit.claims.grant.requestId, permit.claims.permitId, if aborted then TIMED_OUT else FAILED)
  }

  function RefusalOutcome(s: DecisionStatus): AuditOutcome {
    match s
    case RETRY_REJECTED => REPLAY_REJECTED
    case CONTEXT_INVALID => CONTEXT_ERROR
    case RUNTIME_REJECTED => RUNTIME_REFUSED
    case _ => DENIED
  }

  class SecureExecutionPipeline {
    const deps: Deps
    const replay: PermitReplayStore
    const approvals: InMemoryApprovalStore
    var audit: seq<AuditRecord>
    var executions: seq<Execution>

    constructor (deps: Deps, replay: PermitReplayStore, approvals: InMemoryApprovalStore)
      requires replay.testOnly == deps.setting.testOnly
      ensures this.deps == deps && this.replay == replay && this.approvals == approvals && audit == [] && executions == []
    {
      this.deps, this.replay, this.approvals := deps, replay, approvals;
      audit, executions := [], [];
    }

    /** The sink takes the record, or its append throws and so does the run. */
    method Append(entry: AuditRecord, appends: bool)
      modifies this`audit
      ensures audit == old(audit) + if appends then [entry] else []
    {
      if appends {
        audit := audit + [entry];
      }
    }

    /** A halt before or at the final gate: one audit record, and its decision is the answer. */
    method Stop(r: Request, stage: Stage, decision: DecisionStatus, outcome: AuditOutcome, permit: Option<SignedPermit>, now: int, appends: bool)
      returns (o: Outcome)
      modifies this`audit
      ensures o == Outcome(Decided(decision), stage, RecordOf(r, decision, permit, outcome, now), None)
      ensures audit == old(audit) + if appends then [o.audit] else []
    {
      var entry := RecordOf(r, decision, permit, outcome, now);
      Append(entry, appends);
      return Outcome(Decided(decision), stage, entry, None);
    }

    /** Execution and verification, reached with an authorization only. */
    method ExecuteAndVerify(a: Attempt, authorization: Authorization, permit: SignedPermit, reply: ExecutorReply, later: int, appends: bool)
      returns (o: Outcome)
      requires StagesPass(deps, a.request, a.now)
      modifies this`audit, this`executions
      ensures executions == old(executions) + [Execution(authorization, permit, ContextOf(a.request, a.now))]
      ensures audit == old(audit) + if appends then [o.audit] else []
      ensures o.result == Some(ResultOf(reply, permit)) && o.stage == Verification
      ensures o.status == EXECUTED <==> reply == Replied(Envelope(a.request.requestId, permit.claims.permitId, SUCCEEDED))
      ensures o.audit == RecordOf(a.request, if o.status == EXECUTED then ALLOW else DENY, Some(permit),
                                  if o.status == EXECUTED then VERIFIED else VERIFICATION_FAILED, later)
      ensures o.status != EXECUTED ==> o.status == Decided(DENY)
    {
      executions := executions + [Execution(authorization, permit, ContextOf(a.request, a.now))];
      var result := ResultOf(reply, permit);
      var verified := result.status == SUCCEEDED && result.permitId == permit.claims.permitId && result.requestId == a.request.requestId;
      var decision := if verified then ALLOW else DENY;
      var entry := RecordOf(a.request, decision, Some(permit), if verified then VERIFIED else VERIFICATION_FAILED, later);
      Append(entry, appends);
      return Outcome(if verified then EXECUTED else Decided(DENY), Verification, entry, Some(result));
    }

    /** The final gate on this run's own permit, in terms of the request. */
    method PassFinalGate(a: Attempt) returns (gate: GateResult)
      requires SoundDeps(deps) && replay.testOnly == deps.setting.testOnly && StagesPass(deps, a.request, a.now)
      modifies replay`claims, approvals`consumed
      ensures gate.Granted? <==> old(Admissible(deps, replay.claims, approvals.View(), a))
      ensures gate.Granted? ==> gate.authorization == Authorization(a.draw.permitId, a.request.requestId)
      ensures gate.Refused? ==> old(GateRefusesWith(deps, replay.claims, a, gate.refusal.status))
      ensures replay.claims.Keys == old(replay.claims.Keys) + if Permittable(deps, a) then {a.draw.permitId} else {}
      ensures approvals.View() ==
        if gate.Granted? && Required(ApprovalInput(a.request, a.now))
        then old(approvals.View()).(consumed := old(approvals.consumed) + {a.request.approval.value.approvalId})
        else old(approvals.View())
    {
      OwnPermitVerifiesIff(deps, a);
      AdmissibleIff(deps, replay.claims, approvals.View(), a);
      GateRefuses(deps, replay.claims, approvals.View(), a);
      if Permittable(deps, a) { ClaimedKeys(deps, replay.claims, a); }
      gate := EvaluateFinalGate(deps.setting, GateInputOf(deps, a), replay, approvals);
    }

    /** The final gate and, if it grants, the executor. */
    method PassAndExecute(a: Attempt, reply: ExecutorReply, later: int, appends: bool) returns (o: Outcome)
      requires SoundDeps(deps) && replay.testOnly == deps.setting.testOnly && StagesPass(deps, a.request, a.now)
      modifies this`audit, this`executions, replay`claims, approvals`consumed
      ensures audit == old(audit) + if appends then [o.audit] else []
      ensures executions == old(executions) +
        if old(Admissible(deps, replay.claims, approvals.View(), a))
        then [Execution(Authorization(a.draw.permitId, a.request.requestId), PermitOf(deps, a), ContextOf(a.request, a.now))] else []
      ensures old(Admissible(deps, replay.claims, approvals.View(), a)) ==> ExecutedOutcome(a, reply, later, o)
      ensures !old(Admissible(deps, replay.claims, approvals.View(), a)) ==> old(RefusedOutcome(deps, replay.claims, a, o))
      ensures RecordFor(a.request, o.audit) && o.audit.permit == Some(PermitOf(deps, a))
      ensures replay.claims.Keys == old(replay.claims.Keys) + if Permittable(deps, a) then {a.draw.permitId} else {}
      ensures approvals.View() ==
        if old(Admissible(deps, replay.claims, approvals.View(), a)) && Required(ApprovalInput(a.request, a.now))
        then old(approvals.View()).(consumed := old(approvals.consumed) + {a.request.approval.value.approvalId})
        else old(approvals.View())
    {
      var gate := PassFinalGate(a);
      if gate.Refused? {
        o := Stop(a.request, FinalGateStage, gate.refusal.status, RefusalOutcome(gate.refusal.status), Some(PermitOf(deps, a)), a.now, appends);
      } else {
        o := ExecuteAndVerify(a, gate.authorization, PermitOf(deps, a), reply, later, appends);
      }
    }

    /** On every path exactly one record is handed to the audit sink; if the append throws, the log stays as it
        was and the caller gets the exception instead of `o`. The executor is called exactly when the run is
        admissible, whatever the sink does later, with an authorization for this run's own permit. An approval is consumed exactly when
        one was required and the executor is called; the permit is claimed exactly when it verified and
        its id was new. A run that halts names the first stage that is not satisfied, with the decision and the
        audit outcome that go with the cause; so does a run that the gate refuses; and a run that reaches the
        executor counts as executed exactly when the executor reports success for this permit and request. */
    method Run(a: Attempt, reply: ExecutorReply, later: int, appends: bool) returns (ok: bool, o: Outcome)
      requires SoundDeps(deps) && replay.testOnly == deps.setting.testOnly
      modifies this`audit, this`executions, replay`claims, approvals`consumed
      ensures ok == appends && audit == old(audit) + if ok then [o.audit] else []
      ensures RecordFor(a.request, o.audit)
      ensures !StagesPass(deps, a.request, a.now) ==> HaltedOutcome(deps, a, o)
      ensures StagesPass(deps, a.request, a.now) && !old(Admissible(deps, replay.claims, approvals.View(), a)) ==>
        old(RefusedOutcome(deps, replay.claims, a, o))
      ensures old(Admissible(deps, replay.claims, approvals.View(), a)) ==> ExecutedOutcome(a, reply, later, o)
      ensures executions == old(executions) +
        if old(Admissible(deps, replay.claims, approvals.View(), a))
        then [Execution(Authorization(a.draw.permitId, a.request.requestId), PermitOf(deps, a), ContextOf(a.request, a.now))] else []
      ensures o.audit.permit == if StagesPass(deps, a.request, a.now) then Some(PermitOf(deps, a)) else None
      ensures replay.claims.Keys == old(replay.claims.Keys) +
        if StagesPass(deps, a.request, a.now) && Permittable(deps, a) then {a.draw.permitId} else {}
      ensures approvals.View() ==
        if old(Admissible(deps, replay.claims, approvals.View(), a)) && Required(ApprovalInput(a.request, a.now))
        then old(approvals.View()).(consumed := old(approvals.consumed) + {a.request.approval.value.approvalId})
        else old(approvals.View())
    {
      ok := appends;
      var halt := HaltOf(deps, a.request, a.now);
      if halt.Some? {
        o := Stop(a.request, halt.value.stage, halt.value.decision, halt.value.outcome, None, a.now, appends);
      } else {
        o := PassAndExecute(a, reply, later, appends);
      }
    }
  }

  // ---- what a run answers ----------------------------------------------------------------------------------------

  /** The answer and its record agree, and nothing was executed. */
  predicate Declined(a: Attempt, o: Outcome) {
    o.status == Decided(o.audit.decision) && o.result.None? && o.audit.timestamp == a.now
  }

  predicate HaltedOutcome(d: Deps, a: Attempt, o: Outcome) {
    Declined(a, o) && RightHalt(d, a.request, a.now, Halt(o.stage, o.audit.decision, o.audit.outcome))
  }

  predicate RefusedOutcome(d: Deps, claims: ClaimStore, a: Attempt, o: Outcome) {
    && Declined(a, o) && o.stage == FinalGateStage
    && GateRefusesWith(d, claims, a, o.audit.decision) && AuditedAs(o.audit.decision, o.audit.outcome)
  }

  /** The executor ran: verified and allowed if it reported success for this very permit and request, and
      otherwise denied, with the envelope it gave or one that says why there is none. */
  predicate ExecutedOutcome(a: Attempt, reply: ExecutorReply, later: int, o: Outcome) {
    var verified := reply == Replied(Envelope(a.request.requestId, a.draw.permitId, SUCCEEDED));
    && o.stage == Verification && o.audit.timestamp == later
    && (verified ==> o.status == EXECUTED && o.audit.decision == ALLOW && o.audit.outcome == VERIFIED)
    && (!verified ==> o.status == Decided(DENY) && o.audit.decision == DENY && o.audit.outcome == VERIFICATION_FAILED)
    && (reply.Replied? ==> o.result == Some(reply.envelope))
    && (reply.Threw? ==>
          o.result == Some(Envelope(a.request.requestId, a.draw.permitId, if reply.aborted then TIMED_OUT else FAILED)))
  }

  lemma ClaimedKeys(d: Deps, claims: ClaimStore, a: Attempt)
    requires SoundDeps(d) && StagesPass(d, a.request, a.now) && Permittable(d, a)
    ensures var i := GateInputOf(d, a);
      AfterClaim(claims, KeyOf(i.permit), i.permit.claims.grant.expiresAt, i.now).Keys == claims.Keys + {a.draw.permitId}
  {
  }

  /** The final gate's checks refuse a run of the pipeline only for its permit, and only because that is
      incomplete or already expired. */
  lemma ScreenRefuses(d: Deps, a: Attempt)
    requires SoundDeps(d) && StagesPass(d, a.request, a.now) && Screen(d.setting, GateInputOf(d, a)).Some?
    ensures Screen(d.setting, GateInputOf(d, a)).value in
            {Refusal(RUNTIME_REJECTED, PermitRefused(PermitMalformed)), Refusal(RUNTIME_REJECTED, PermitRefused(PermitExpired))}
  {
  }

  /** The final gate refuses a run of the pipeline for these reasons only: an unusable permit (blank
      fields or a time to live that is not positive), a permit id seen before, or an approval that cannot
      be consumed. A context mutation or a missing approval reference never arises. */
  lemma GateRefuses(d: Deps, claims: ClaimStore, s: Approvals, a: Attempt)
    requires SoundDeps(d) && StagesPass(d, a.request, a.now)
    ensures var g := WholeCall(d.setting, claims, s, GateInputOf(d, a));
      && (!Permittable(d, a) ==> g.Refused? && g.refusal.status == RUNTIME_REJECTED)
      && (Permittable(d, a) && a.draw.permitId in claims ==> g == Refused(Refusal(RETRY_REJECTED, PermitReplayed)))
      && (Permittable(d, a) && a.draw.permitId !in claims && g.Refused? ==>
            g.refusal.status == DENY && g.refusal.reason.ApprovalConsumptionFailed?)
  {
    OwnPermitVerifiesIff(d, a);
    if !Permittable(d, a) {
      ScreenRefuses(d, a);
    } else {
      VerifiedPermitClaims(d.setting, claims, GateInputOf(d, a));
      ApprovalIsHandedOn(d, a);
    }
  }

  lemma ApprovalIsHandedOn(d: Deps, a: Attempt)
    requires StagesPass(d, a.request, a.now)
    ensures var i := GateInputOf(d, a);
      && i.hasApprovalStore && i.permit.claims.permitId == a.draw.permitId
      && (i.approvalRequired <==> Required(ApprovalInput(a.request, a.now)))
      && i.approvalId == if i.approvalRequired then Some(a.request.approval.value.approvalId) else None
  {
  }

  // ---- concurrent runs -----------------------------------------------------------------------------------------------

  /** The gate calls in `steps` are those of pipeline runs, whose stages passed. */
  ghost predicate FromPipeline(d: Deps, attempts: map<nat, Attempt>, steps: seq<Step>) {
    forall k :: 0 <= k < |steps| && steps[k].Begin? ==> BegunBy(d, attempts, steps[k].call, steps[k].input)
  }

  ghost predicate BegunBy(d: Deps, attempts: map<nat, Attempt>, call: nat, i: FinalGateInput) {
    call in attempts && StagesPass(d, attempts[call].request, attempts[call].now) && i == GateInputOf(d, attempts[call])
  }

  lemma {:induction false} CallsComeFromRuns(d: Deps, attempts: map<nat, Attempt>, checks: Checks, steps: seq<Step>, call: nat)
    requires FromPipeline(d, attempts, steps) && call in After(checks, steps).calls
    ensures BegunBy(d, attempts, call, After(checks, steps).calls[call].input)
  {
    var n := |steps| - 1;
    if steps != [] && call in After(checks, steps[..n]).calls {
      CallsComeFromRuns(d, attempts, checks, steps[..n], call);
      StepKeepsInput(checks, After(checks, steps[..n]), steps[n], call);
    }
  }

  lemma StepKeepsInput(checks: Checks, w: World, step: Step, call: nat)
    requires call in w.calls
    ensures call in Apply(checks, w, step).calls && Apply(checks, w, step).calls[call].input == w.calls[call].input
  {
  }

  /** Over every interleaving of concurrent runs, each authorization belongs to a run all of whose stages
      passed, and if its action needed an approval the presented one approves that very request and its
      id was consumed for it; no other authorization used that id; and if the approval then registered under
      that id covers the presented one, it approves the request too. */
  lemma EveryExecutionIsApproved(d: Deps, attempts: map<nat, Attempt>, steps: seq<Step>, m: nat, n: nat)
    requires FromPipeline(d, attempts, steps)
    requires m < |After(ChecksOf(d.setting), steps).mints|
    requires n < |After(ChecksOf(d.setting), steps).mints|
    ensures var mints := After(ChecksOf(d.setting), steps).mints;
      && mints[m].call in attempts
      && var a := attempts[mints[m].call];
      && StagesPass(d, a.request, a.now)
      && mints[m].authorization == Authorization(a.draw.permitId, a.request.requestId)
      && (Required(ApprovalInput(a.request, a.now)) ==>
            && a.request.approval.Some? && Approves(a.request.approval.value, ApprovalInput(a.request, a.now))
            && mints[m].approval == Some(a.request.approval.value.approvalId)
            && (m != n ==> mints[n].approval != mints[m].approval)
            && mints[m].registered.Some?
            && (Covers(mints[m].registered.value, a.request.approval.value) ==>
                  Approves(mints[m].registered.value, ApprovalInput(a.request, a.now))))
  {
    var checks := ChecksOf(d.setting);
    var w := After(checks, steps);
    EveryAuthorizationIsEarned(checks, steps, m);
    var call := w.mints[m].call;
    CallsComeFromRuns(d, attempts, checks, steps, call);
    ApprovalIsHandedOn(d, attempts[call]);
    Reachable(checks, steps);
    if m < n { MintsAreDistinct(checks, w, m, n); }
    if n < m { MintsAreDistinct(checks, w, n, m); }
  }
}

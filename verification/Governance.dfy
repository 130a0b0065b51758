/** packages/governance/src/pipeline.ts, packages/agent-governance/src/bridge.ts and mapping.ts, and
    packages/agent-runtime/src/action.ts: from a governance decision to a single-use permit and ticket. */
module Governance {
  import opened Base
  import PolicySet

  // ---- the decision pipeline ----------------------------------------------------------------------

  datatype GovernanceOutcome =
    | ALLOW | DENY | STEP_UP_REQUIRED | APPROVAL_REQUIRED | CONDITIONALLY_ALLOWED | DEFERRED | REVOKED | EXPIRED
    | EVIDENCE_MISSING | CONTEXT_MISMATCH | CAPABILITY_MISSING | POLICY_CONFLICT | RISK_TOO_HIGH | SYSTEM_NOT_READY

  datatype Capability = CapabilityGranted | CapabilityRefused(reason: string)
  datatype Authorization = Authorized | AuthorizationRiskTooHigh | AuthorizationStepUp | AuthorizationRefused(reason: string)
  datatype RiskLevel = NEGLIGIBLE | LOW | MEDIUM | HIGH | CRITICAL | UNKNOWN
  datatype Approval = Approved | NotRequired | NotApproved(reason: string)

  datatype Stages = Stages(
    ready: bool, identityVerified: bool, identityRevoked: bool, tenantMatches: bool, contextKnown: bool,
    capability: Capability, authorization: Authorization, policy: PolicySet.Status, riskLevel: RiskLevel,
    approvalRequired: bool, approval: Approval, auditWritable: bool)

  datatype PipelineRequest = PipelineRequest(
    decisionId: Id, tenantId: Id, workspaceId: Id, principalId: Id, action: string, resourceType: string,
    resourceId: Id, stages: Stages, now: int, permitTtlMs: int)

  datatype Permit = Permit(
    permitId: Id, decisionId: Id, tenantId: Id, workspaceId: Id, principalId: Id, action: string,
    resourceRef: string, contextHash: string, nonce: Id, issuedAt: int, expiresAt: int)

  datatype PipelineResult = PipelineResult(outcome: GovernanceOutcome, contextHash: string, permit: Option<Permit>)

  /** What a permit's context hash covers. */
  datatype ContextParts = ContextParts(tenant: Id, workspace: Id, principal: Id, action: string, resource: string)

  /** Canonical serialisation followed by the digest. */
  type ContextHasher = ContextParts -> string

  function ResourceRef(req: PipelineRequest): string {
    req.resourceType + ":" + req.resourceId
  }

  function ContextHash(h: ContextHasher, req: PipelineRequest): string {
    h(ContextParts(req.tenantId, req.workspaceId, req.principalId, req.action, ResourceRef(req)))
  }

  /** The first blocking stage decides. */
  function Decide(s: Stages): GovernanceOutcome {
    if !s.ready then SYSTEM_NOT_READY
    else if s.identityRevoked then REVOKED
    else if !s.identityVerified then CONTEXT_MISMATCH
    else if !s.tenantMatches then CONTEXT_MISMATCH
    else if !s.contextKnown then CONTEXT_MISMATCH
    else if !s.capability.CapabilityGranted? then CAPABILITY_MISSING
    else if s.authorization.AuthorizationRiskTooHigh? then RISK_TOO_HIGH
    else if s.authorization.AuthorizationStepUp? then STEP_UP_REQUIRED
    else if !s.authorization.Authorized? then DENY
    else if s.policy == PolicySet.POLICY_CONFLICT then POLICY_CONFLICT
    else if s.policy != PolicySet.ALLOW then DENY
    else if s.riskLevel == CRITICAL then RISK_TOO_HIGH
    else if s.riskLevel == UNKNOWN then RISK_TOO_HIGH
    else if s.approvalRequired && !s.approval.Approved? then APPROVAL_REQUIRED
    else if !s.auditWritable then SYSTEM_NOT_READY
    else ALLOW
  }

  /** Every mandatory stage is positive. */
  predicate EveryStagePositive(s: Stages) {
    && s.ready && s.identityVerified && !s.identityRevoked && s.tenantMatches && s.contextKnown
    && s.capability == CapabilityGranted && s.authorization == Authorized && s.policy == PolicySet.ALLOW
    && s.riskLevel in {NEGLIGIBLE, LOW, MEDIUM, HIGH}
    && (s.approvalRequired ==> s.approval == Approved)
    && s.auditWritable
  }

  // ---- which stage decided ------------------------------------------------------------------------

  /** The system is up, and the principal is known in the request's tenant and context. */
  predicate Identified(s: Stages) {
    s.ready && !s.identityRevoked && s.identityVerified && s.tenantMatches && s.contextKnown
  }

  predicate Capable(s: Stages) {
    Identified(s) && s.capability == CapabilityGranted
  }

  /** Authorization and policy agree to the request. */
  predicate Permitted(s: Stages) {
    Capable(s) && s.authorization == Authorized && s.policy == PolicySet.ALLOW
  }

  predicate RiskAccepted(s: Stages) {
    Permitted(s) && s.riskLevel in {NEGLIGIBLE, LOW, MEDIUM, HIGH}
  }

  predicate Consented(s: Stages) {
    RiskAccepted(s) && (s.approvalRequired ==> s.approval == Approved)
  }

  /** Each refusal goes with the stages that cause it, and with no others. */
  predicate StagesDecide(s: Stages, o: GovernanceOutcome) {
    && (o == ALLOW <==> EveryStagePositive(s))
    && (o == SYSTEM_NOT_READY <==> !s.ready || (Consented(s) && !s.auditWritable))
    && (o == REVOKED <==> s.ready && s.identityRevoked)
    && (o == CONTEXT_MISMATCH <==>
          s.ready && !s.identityRevoked && !(s.identityVerified && s.tenantMatches && s.contextKnown))
    && (o == CAPABILITY_MISSING <==> Identified(s) && s.capability != CapabilityGranted)
    && (o == STEP_UP_REQUIRED <==> Capable(s) && s.authorization == AuthorizationStepUp)
    && (o == RISK_TOO_HIGH <==>
          (Capable(s) && s.authorization == AuthorizationRiskTooHigh) || (Permitted(s) && s.riskLevel in {CRITICAL, UNKNOWN}))
    && (o == POLICY_CONFLICT <==> Capable(s) && s.authorization == Authorized && s.policy == PolicySet.POLICY_CONFLICT)
    && (o == DENY <==>
          && Capable(s)
          && (|| s.authorization.AuthorizationRefused?
              || (s.authorization == Authorized && s.policy in {PolicySet.DENY, PolicySet.NO_MATCH_DENY, PolicySet.MALFORMED})))
    && (o == APPROVAL_REQUIRED <==> RiskAccepted(s) && s.approvalRequired && s.approval != Approved)
  }

  function PermitFor(h: ContextHasher, req: PipelineRequest, permitId: Id, nonce: Id): Permit {
    Permit(permitId, req.decisionId, req.tenantId, req.workspaceId, req.principalId, req.action, ResourceRef(req),
           ContextHash(h, req), nonce, req.now, req.now + if req.permitTtlMs > 1 then req.permitTtlMs else 1)
  }

  /** The permit is for this request's own decision, tenant, workspace, principal, action and resource, and
      lives from now for the time asked for, at least one millisecond. */
  predicate Grants(p: Permit, req: PipelineRequest, permitId: Id, nonce: Id) {
    && p.permitId == permitId && p.nonce == nonce && p.decisionId == req.decisionId
    && p.tenantId == req.tenantId && p.workspaceId == req.workspaceId && p.principalId == req.principalId
    && p.action == req.action && p.resourceRef == req.resourceType + ":" + req.resourceId
    && p.issuedAt == req.now && req.now < p.expiresAt
    && (1 <= req.permitTtlMs ==> p.expiresAt - p.issuedAt == req.permitTtlMs)
    && (req.permitTtlMs < 1 ==> p.expiresAt - p.issuedAt == 1)
  }

  /** `permitId` and `nonce` are the fresh identifiers drawn when a permit is minted. */
  function EvaluateGovernancePipeline(h: ContextHasher, req: PipelineRequest, permitId: Id, nonce: Id): (r: PipelineResult)
    ensures r.permit.Some? <==> EveryStagePositive(req.stages)
    ensures r.outcome == ALLOW <==> EveryStagePositive(req.stages)
    ensures StagesDecide(req.stages, r.outcome)
    ensures r.permit.Some? ==> Grants(r.permit.value, req, permitId, nonce) && r.permit.value.contextHash == r.contextHash
    ensures r.contextHash == h(ContextParts(req.tenantId, req.workspaceId, req.principalId, req.action, req.resourceType + ":" + req.resourceId))
  {
    var outcome := Decide(req.stages);
    PipelineResult(outcome, ContextHash(h, req),
                   if outcome == ALLOW then Some(PermitFor(h, req, permitId, nonce)) else None)
  }

  // ---- consuming a permit ----------------------------------------------------------------------------

  datatype ConsumeStatus =
    | CONSUMED | PERMIT_EXPIRED | PERMIT_REPLAYED | PERMIT_CONTEXT_MISMATCH | PERMIT_TENANT_MISMATCH | PERMIT_UNKNOWN

  function ConsumeExecutionPermit(p: Permit, tenantId: Id, workspaceId: Id, expectedContextHash: string,
                                  seen: set<Id>, now: int): ConsumeStatus {
    if p.expiresAt <= now then PERMIT_EXPIRED
    else if p.tenantId != tenantId || p.workspaceId != workspaceId then PERMIT_TENANT_MISMATCH
    else if p.contextHash != expectedContextHash then PERMIT_CONTEXT_MISMATCH
    else if p.nonce in seen then PERMIT_REPLAYED
    else CONSUMED
  }

  /** A permit presented to the check: expired, then another tenant or workspace, then another context, then used. */
  lemma PermitCheckAnswers(p: Permit, tenantId: Id, workspaceId: Id, contextHash: string, seen: set<Id>, now: int)
    ensures var r := ConsumeExecutionPermit(p, tenantId, workspaceId, contextHash, seen, now);
      var fits := now < p.expiresAt && p.tenantId == tenantId && p.workspaceId == workspaceId;
      && (r == PERMIT_EXPIRED <==> !(now < p.expiresAt))
      && (r == PERMIT_TENANT_MISMATCH <==> now < p.expiresAt && !fits)
      && (r == PERMIT_CONTEXT_MISMATCH <==> fits && p.contextHash != contextHash)
      && (r == PERMIT_REPLAYED <==> fits && p.contextHash == contextHash && p.nonce in seen)
      && (r == CONSUMED <==> fits && p.contextHash == contextHash && p.nonce !in seen)
  {
  }

  /** The contents of the permit store. */
  datatype Store = Store(permits: map<Id, Permit>, seenNonces: set<Id>)

  /** The workspace handed to the check is the permit's own, so only the tenant is compared. */
  function StoreStatus(s: Store, ref: Id, contextHash: string, tenantId: Id, now: int): ConsumeStatus {
    if ref !in s.permits then PERMIT_UNKNOWN
    else if s.permits[ref].nonce in s.seenNonces then PERMIT_REPLAYED
    else ConsumeExecutionPermit(s.permits[ref], tenantId, s.permits[ref].workspaceId, contextHash, s.seenNonces, now)
  }

  /** Each answer of the store goes with its own condition. */
  lemma StoreAnswers(s: Store, ref: Id, contextHash: string, tenantId: Id, now: int)
    ensures var r := StoreStatus(s, ref, contextHash, tenantId, now);
      && (r == PERMIT_UNKNOWN <==> ref !in s.permits)
      && (ref in s.permits ==>
            var p := s.permits[ref];
            && (r == PERMIT_REPLAYED <==> p.nonce in s.seenNonces)
            && (r == PERMIT_EXPIRED <==> p.nonce !in s.seenNonces && p.expiresAt <= now)
            && (r == PERMIT_TENANT_MISMATCH <==> p.nonce !in s.seenNonces && now < p.expiresAt && p.tenantId != tenantId)
            && (r == PERMIT_CONTEXT_MISMATCH <==>
                  p.nonce !in s.seenNonces && now < p.expiresAt && p.tenantId == tenantId && p.contextHash != contextHash))
  {
  }

  function StoreConsume(s: Store, ref: Id, contextHash: string, tenantId: Id, now: int): Store {
    if StoreStatus(s, ref, contextHash, tenantId, now) == CONSUMED
    then s.(seenNonces := s.seenNonces + {s.permits[ref].nonce})
    else s
  }

  function StoreRegister(s: Store, p: Permit): Store {
    s.(permits := s.permits[p.permitId := p])
  }

  // ---- the bridge --------------------------------------------------------------------------------------

  /** Agent outcomes are the governance outcomes that have a clean equivalent. */
  function MapGovernanceOutcome(o: GovernanceOutcome): GovernanceOutcome {
    match o
    case CONDITIONALLY_ALLOWED => DENY
    case DEFERRED => DENY
    case EVIDENCE_MISSING => DENY
    case _ => o
  }

  datatype GateResult = GateResult(outcome: GovernanceOutcome, permitRef: Option<Id>, contextHash: string)

  function AdaptedGate(r: PipelineResult): GateResult {
    var outcome := MapGovernanceOutcome(r.outcome);
    if outcome == ALLOW && r.permit.Some? then GateResult(outcome, Some(r.permit.value.permitId), r.contextHash)
    else GateResult(if outcome == ALLOW then DENY else outcome, None, r.contextHash)
  }

  function AdaptedStore(r: PipelineResult, s: Store): Store {
    if MapGovernanceOutcome(r.outcome) == ALLOW && r.permit.Some? then StoreRegister(s, r.permit.value) else s
  }

  class GovernancePermitStore {
    var permits: map<Id, Permit>
    var seenNonces: set<Id>

    constructor ()
      ensures View() == Store(map[], {})
    {
      permits, seenNonces := map[], {};
    }

    ghost function View(): Store
      reads this
    {
      Store(permits, seenNonces)
    }

    method Register(p: Permit) returns (ref: Id)
      modifies this`permits
      ensures ref == p.permitId && View() == StoreRegister(old(View()), p)
    {
      permits := permits[p.permitId := p];
      ref := p.permitId;
    }

    /** A successful consume spends the nonce; any other answer leaves the store as it was, and a
        second consume of the same permit is refused as a replay. */
    method Consume(ref: Id, contextHash: string, tenantId: Id, now: int) returns (status: ConsumeStatus)
      modifies this`seenNonces
      ensures status == StoreStatus(old(View()), ref, contextHash, tenantId, now)
      ensures View() == StoreConsume(old(View()), ref, contextHash, tenantId, now)
      ensures status == CONSUMED ==> forall hash, tenant, later :: StoreStatus(View(), ref, hash, tenant, later) == PERMIT_REPLAYED
    {
      if ref !in permits {
        return PERMIT_UNKNOWN;
      }
      var permit := permits[ref];
      if permit.nonce in seenNonces {
        return PERMIT_REPLAYED;
      }
      status := ConsumeExecutionPermit(permit, tenantId, permit.workspaceId, contextHash, seenNonces, now);
      if status == CONSUMED {
        seenNonces := seenNonces + {permit.nonce};
      }
    }

    /** Registers the permit of an allowed result as a side effect. */
    method AdaptGovernanceGate(r: PipelineResult) returns (gate: GateResult)
      modifies this`permits
      ensures gate == AdaptedGate(r) && View() == AdaptedStore(r, old(View()))
      ensures gate.outcome == ALLOW <==> r.outcome == ALLOW && r.permit.Some?
      ensures gate.permitRef == if gate.outcome == ALLOW then Some(r.permit.value.permitId) else None
      ensures gate.outcome != r.outcome ==>
        gate.outcome == DENY && (r.outcome in {CONDITIONALLY_ALLOWED, DEFERRED, EVIDENCE_MISSING} || (r.outcome == ALLOW && r.permit.None?))
      ensures gate.outcome !in {CONDITIONALLY_ALLOWED, DEFERRED, EVIDENCE_MISSING}
      ensures View().permits == if gate.outcome == ALLOW then old(permits)[r.permit.value.permitId := r.permit.value] else old(permits)
    {
      var outcome := MapGovernanceOutcome(r.outcome);
      if outcome == ALLOW && r.permit.Some? {
        var ref := Register(r.permit.value);
        return GateResult(outcome, Some(ref), r.contextHash);
      }
      return GateResult(if outcome == ALLOW then DENY else outcome, None, r.contextHash);
    }
  }

  // ---- the agent action seam ---------------------------------------------------------------------------------

  datatype InjectionScreen = PASS | QUARANTINE | SCREEN_STEP_UP | BLOCK

  datatype ActionStatus =
    | READY_TO_EXECUTE | BLOCKED_INJECTION | ACTION_STEP_UP | ACTION_APPROVAL | DENIED | PERMIT_MISSING
    | AUDIT_UNAVAILABLE | NOT_READY

  datatype Ticket = Ticket(actionId: Id, permitRef: Id, contextHash: string, tenantId: Id, issuedAt: int)

  datatype ActionResult = ActionResult(status: ActionStatus, ticket: Option<Ticket>)

  datatype ActionRequest = ActionRequest(actionId: Id, tenantId: Id, contextHash: string)

  function EvaluateAgentAction(req: ActionRequest, screen: InjectionScreen, gate: GateResult, auditWritable: bool, now: int): ActionResult {
    if screen == BLOCK || screen == QUARANTINE then ActionResult(BLOCKED_INJECTION, None)
    else if screen == SCREEN_STEP_UP then ActionResult(ACTION_STEP_UP, None)
    else if gate.outcome != ALLOW then
      ActionResult(match gate.outcome
                   case APPROVAL_REQUIRED => ACTION_APPROVAL
                   case STEP_UP_REQUIRED => ACTION_STEP_UP
                   case SYSTEM_NOT_READY => NOT_READY
                   case _ => DENIED, None)
    else if gate.permitRef.None? || gate.permitRef.value == "" then ActionResult(PERMIT_MISSING, None)
    else if gate.contextHash != req.contextHash then ActionResult(DENIED, None)
    else if !auditWritable then ActionResult(AUDIT_UNAVAILABLE, None)
    else ActionResult(READY_TO_EXECUTE, Some(Ticket(req.actionId, gate.permitRef.value, req.contextHash, req.tenantId, now)))
  }

  /** A ticket exists only for a governed action: it was minted from a result with every stage positive,
      refers to that result's permit, carries that permit's context and names the action's own id and tenant. */
  lemma TicketsComeFromPermits(h: ContextHasher, req: PipelineRequest, permitId: Id, nonce: Id,
                               action: ActionRequest, screen: InjectionScreen, auditWritable: bool, now: int)
    ensures var r := EvaluateGovernancePipeline(h, req, permitId, nonce);
      var a := EvaluateAgentAction(action, screen, AdaptedGate(r), auditWritable, now);
      && (a.ticket.Some? <==>
            screen == PASS && EveryStagePositive(req.stages) && permitId != "" &&
            action.contextHash == ContextHash(h, req) && auditWritable)
      && (a.ticket.Some? ==>
            && r.permit.Some? && a.ticket.value.permitRef == r.permit.value.permitId
            && a.ticket.value.contextHash == r.permit.value.contextHash
            && a.ticket.value.actionId == action.actionId && a.ticket.value.tenantId == action.tenantId
            && a.ticket.value.issuedAt == now)
  {
  }

  /** What an agent is told about its action, in terms of the injection screen and the stages of governance:
      each answer goes with its own cause, and only a ticketed action is ready. */
  lemma ActionAnswers(h: ContextHasher, req: PipelineRequest, permitId: Id, nonce: Id,
                      action: ActionRequest, screen: InjectionScreen, auditWritable: bool, now: int)
    ensures var s, r := req.stages, EvaluateGovernancePipeline(h, req, permitId, nonce);
      var a := EvaluateAgentAction(action, screen, AdaptedGate(r), auditWritable, now);
      var agreed := screen == PASS && EveryStagePositive(s) && permitId != "" && action.contextHash == r.contextHash;
      && (a.status == READY_TO_EXECUTE <==> a.ticket.Some?)
      && (a.status == READY_TO_EXECUTE <==> agreed && auditWritable)
      && (a.status == AUDIT_UNAVAILABLE <==> agreed && !auditWritable)
      && (a.status == BLOCKED_INJECTION <==> screen == BLOCK || screen == QUARANTINE)
      && (a.status == ACTION_STEP_UP <==>
            screen == SCREEN_STEP_UP || (screen == PASS && Capable(s) && s.authorization == AuthorizationStepUp))
      && (a.status == ACTION_APPROVAL <==> screen == PASS && RiskAccepted(s) && s.approvalRequired && s.approval != Approved)
      && (a.status == NOT_READY <==> screen == PASS && (!s.ready || (Consented(s) && !s.auditWritable)))
      && (a.status == PERMIT_MISSING <==> screen == PASS && EveryStagePositive(s) && permitId == "")
  {
  }

  datatype TicketStatus = EXECUTED_ONCE | TICKET_REPLAYED | PERMIT_REJECTED

  function TicketKey(t: Ticket): string {
    t.actionId + ":" + t.permitRef
  }

  function TicketStatusOf(t: Ticket, s: Store, seenTickets: set<string>, now: int): TicketStatus {
    if TicketKey(t) in seenTickets then TICKET_REPLAYED
    else if StoreStatus(s, t.permitRef, t.contextHash, t.tenantId, now) == CONSUMED then EXECUTED_ONCE
    else PERMIT_REJECTED
  }

  /** A ticket is a replay exactly when its action and permit were seen together, whatever the store says. */
  lemma TicketAnswers(t: Ticket, s: Store, seenTickets: set<string>, now: int)
    ensures TicketStatusOf(t, s, seenTickets, now) == TICKET_REPLAYED <==> t.actionId + ":" + t.permitRef in seenTickets
    ensures TicketStatusOf(t, s, seenTickets, now) == EXECUTED_ONCE ==>
            TicketConsume(t, s, seenTickets, now).seenNonces == s.seenNonces + {s.permits[t.permitRef].nonce}
    ensures TicketStatusOf(t, s, seenTickets, now) != EXECUTED_ONCE ==> TicketConsume(t, s, seenTickets, now) == s
  {
  }

  function TicketConsume(t: Ticket, s: Store, seenTickets: set<string>, now: int): Store {
    if TicketKey(t) in seenTickets then s else StoreConsume(s, t.permitRef, t.contextHash, t.tenantId, now)
  }
}

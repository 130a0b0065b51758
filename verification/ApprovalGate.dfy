/** packages/pipeline/src/approval-gate.ts: human approvals of critical actions. */
module ApprovalGate {
  import opened Base
  import opened Permit

  const CRITICAL_ACTIONS: set<string> := {
    "payment", "refund", "data_deletion", "permission_change", "bulk_message", "customer_data_export",
    "secret_management", "plugin_connection", "mcp_connection", "production_change", "break_glass", "irreversible_action"
  }

  const HUMAN := "human_user"

  datatype ApprovalReference = ApprovalReference(
    approvalId: Id, actorId: Id, tenantId: Id, workspaceId: Id, action: string, scope: Id, approverId: Id,
    approverType: string, stepUpLevel: AuthenticationLevel, issuedAt: int, expiresAt: int, singleUse: bool)

  // ---- the store -----------------------------------------------------------------------------------------

  datatype Approvals = Approvals(byId: map<Id, ApprovalReference>, consumed: set<Id>)

  datatype ConsumeResult = Consumed | NotFound | AlreadyConsumed | ApprovalExpired

  function ConsumeStatus(s: Approvals, id: Id, now: int): ConsumeResult {
    if id !in s.byId then NotFound
    else if id in s.consumed then AlreadyConsumed
    else if s.byId[id].expiresAt <= now then ApprovalExpired
    else Consumed
  }

  function AfterConsume(s: Approvals, id: Id, now: int): Approvals {
    if ConsumeStatus(s, id, now) == Consumed then s.(consumed := s.consumed + {id}) else s
  }

  function AfterRegister(s: Approvals, a: ApprovalReference): Approvals {
    s.(byId := s.byId[a.approvalId := a])
  }

  class InMemoryApprovalStore {
    var byId: map<Id, ApprovalReference>
    var consumed: set<Id>

    constructor ()
      ensures View() == Approvals(map[], {})
    {
      byId, consumed := map[], {};
    }

    ghost function View(): Approvals
      reads this
    {
      Approvals(byId, consumed)
    }

    method Register(a: ApprovalReference)
      modifies this`byId
      ensures View() == AfterRegister(old(View()), a)
    {
      byId := byId[a.approvalId := a];
    }

    /** A consumed approval stays consumed, even when its id is registered again. */
    method Consume(id: Id, now: int) returns (r: ConsumeResult)
      modifies this`consumed
      ensures r == ConsumeStatus(old(View()), id, now)
      ensures View() == AfterConsume(old(View()), id, now)
      ensures r == Consumed ==> forall a, later :: ConsumeStatus(AfterRegister(View(), a), id, later) == AlreadyConsumed
    {
      if id !in byId {
        return NotFound;
      }
      if id in consumed {
        return AlreadyConsumed;
      }
      if byId[id].expiresAt <= now {
        return ApprovalExpired;
      }
      consumed := consumed + {id};
      return Consumed;
    }
  }

  // ---- the gate ------------------------------------------------------------------------------------------

  datatype GateInput = GateInput(
    action: string, tenantId: Id, workspaceId: Id, actorId: Id, scope: Id, requiredStepUp: AuthenticationLevel,
    policyRequiresApproval: bool, approval: Option<ApprovalReference>, now: int)

  datatype GateReason =
    | ApprovalNotRequired | ApprovalMissing | BindingMismatch | NotSingleUse | ApproverNotHuman | ApproverIsRequester
    | GateApprovalExpired | StepUpNeeded | ApprovalValid

  datatype ApprovalStatus = ApprovalAllow | ApprovalRequired | StepUpRequired | ApprovalDeny

  datatype Evaluation = Evaluation(status: ApprovalStatus, required: bool, reason: GateReason, approvalId: Option<Id>)

  function Rank(l: AuthenticationLevel): nat {
    match l
    case NoAuthentication => 0
    case Aal1 => 1
    case Aal2 => 2
    case Aal3 => 3
  }

  predicate Required(i: GateInput) {
    i.action in CRITICAL_ACTIONS || i.policyRequiresApproval
  }

  /** A human other than the requester approved this very action, at the demanded level, and the
      approval is unexpired and single-use. */
  predicate Approves(a: ApprovalReference, i: GateInput) {
    && NonBlank(a.approvalId) && a.singleUse
    && a.approverType == HUMAN && NonBlank(a.approverId) && a.approverId != i.actorId
    && a.action == i.action && a.actorId == i.actorId && a.scope == i.scope
    && a.tenantId == i.tenantId && a.workspaceId == i.workspaceId
    && i.now < a.expiresAt && Rank(a.stepUpLevel) >= Rank(i.requiredStepUp)
  }

  function Refuse(status: ApprovalStatus, reason: GateReason): Evaluation {
    Evaluation(status, true, reason, None)
  }

  /** The gate allows exactly when no approval is required or the presented one approves the request;
      an allowed request that required one carries its id on, which the final gate then consumes. */
  function EvaluateApprovalGate(i: GateInput): (r: Evaluation)
    ensures r.required <==> Required(i)
    ensures r.status == ApprovalAllow <==> Required(i) ==> i.approval.Some? && Approves(i.approval.value, i)
    ensures r.status == ApprovalAllow ==>
      r.approvalId == if Required(i) then Some(i.approval.value.approvalId) else None
    ensures r.status == StepUpRequired <==>
      && Required(i) && i.approval.Some? && Rank(i.approval.value.stepUpLevel) < Rank(i.requiredStepUp)
      && Approves(i.approval.value, i.(requiredStepUp := NoAuthentication))
    ensures r.status == ApprovalRequired <==> Required(i) && (i.approval.Some? ==> !NonBlank(i.approval.value.approvalId))
  {
    if !(i.action in CRITICAL_ACTIONS || i.policyRequiresApproval) then
      Evaluation(ApprovalAllow, false, ApprovalNotRequired, None)
    else if i.approval.None? || !NonBlank(i.approval.value.approvalId) then Refuse(ApprovalRequired, ApprovalMissing)
    else
      var a := i.approval.value;
      if a.action != i.action || a.tenantId != i.tenantId || a.workspaceId != i.workspaceId ||
         a.actorId != i.actorId || a.scope != i.scope then Refuse(ApprovalDeny, BindingMismatch)
      else if !a.singleUse then Refuse(ApprovalDeny, NotSingleUse)
      else if a.approverType != HUMAN || !NonBlank(a.approverId) then Refuse(ApprovalDeny, ApproverNotHuman)
      else if a.approverId == i.actorId then Refuse(ApprovalDeny, ApproverIsRequester)
      else if a.expiresAt <= i.now then Refuse(ApprovalDeny, GateApprovalExpired)
      else if Rank(a.stepUpLevel) < Rank(i.requiredStepUp) then Evaluation(StepUpRequired, true, StepUpNeeded, Some(a.approvalId))
      else Evaluation(ApprovalAllow, true, ApprovalValid, Some(a.approvalId))
  }

  /** What each reason says about the request and the presented approval. */
  predicate Applies(i: GateInput, reason: GateReason) {
    match reason
    case ApprovalNotRequired => !Required(i)
    case ApprovalMissing => i.approval.None? || !NonBlank(i.approval.value.approvalId)
    case BindingMismatch =>
      i.approval.Some? && var a := i.approval.value;
      !(a.action == i.action && a.tenantId == i.tenantId && a.workspaceId == i.workspaceId && a.actorId == i.actorId && a.scope == i.scope)
    case NotSingleUse => i.approval.Some? && !i.approval.value.singleUse
    case ApproverNotHuman => i.approval.Some? && !(i.approval.value.approverType == HUMAN && NonBlank(i.approval.value.approverId))
    case ApproverIsRequester => i.approval.Some? && i.approval.value.approverId == i.actorId
    case GateApprovalExpired => i.approval.Some? && !(i.now < i.approval.value.expiresAt)
    case StepUpNeeded => i.approval.Some? && !(Rank(i.requiredStepUp) <= Rank(i.approval.value.stepUpLevel))
    case ApprovalValid => true
  }

  /** The order in which the reasons take precedence. */
  function Precedence(reason: GateReason): nat {
    match reason
    case ApprovalNotRequired => 0
    case ApprovalMissing => 1
    case BindingMismatch => 2
    case NotSingleUse => 3
    case ApproverNotHuman => 4
    case ApproverIsRequester => 5
    case GateApprovalExpired => 6
    case StepUpNeeded => 7
    case ApprovalValid => 8
  }

  /** The gate gives exactly the first reason that applies. */
  lemma FirstReasonIsGiven(i: GateInput, reason: GateReason)
    ensures EvaluateApprovalGate(i).reason == reason <==>
            Applies(i, reason) && forall other :: Applies(i, other) ==> Precedence(reason) <= Precedence(other)
  {
    var given := EvaluateApprovalGate(i).reason;
    assert Applies(i, given);
    assert forall other :: Applies(i, other) ==> Precedence(given) <= Precedence(other);
  }

  // ---- the presented and the registered approval ------------------------------------------------------------

  /** The gate judges the presented approval and the store consumes by id alone, so the registered one
      may differ: what it says beyond its expiry never changes the answer. */
  lemma OnlyRegisteredExpiryMatters(s: Approvals, id: Id, other: ApprovalReference, now: int)
    requires id in s.byId && other.approvalId == id && other.expiresAt == s.byId[id].expiresAt
    ensures ConsumeStatus(AfterRegister(s, other), id, now) == ConsumeStatus(s, id, now)
  {
  }

  /** An allowed and consumable approval whose registered original approves a different action. */
  lemma PresentedApprovalMayDiffer() returns (s: Approvals, i: GateInput)
    ensures Required(i) && EvaluateApprovalGate(i).status == ApprovalAllow
    ensures var id := i.approval.value.approvalId;
      ConsumeStatus(s, id, i.now) == Consumed && !Approves(s.byId[id], i)
  {
    var presented := ApprovalReference("a1", "actor", "t", "w", "payment", "inv", "boss", HUMAN, Aal2, 0, 10, true);
    var registered := presented.(action := "refund");
    i := GateInput("payment", "t", "w", "actor", "inv", Aal1, false, Some(presented), 5);
    s := Approvals(map["a1" := registered], {});
    assert !Whitespace(presented.approvalId[0]) && !Whitespace(presented.approverId[0]);
    assert NonBlank(presented.approvalId) && NonBlank(presented.approverId);
    assert presented.action[0] != registered.action[0];
  }

  /** `r` says no less than `p`: the same binding, and an approver and level that are as good. */
  predicate Covers(r: ApprovalReference, p: ApprovalReference) {
    && r.approvalId == p.approvalId && r.singleUse
    && r.approverType == HUMAN && NonBlank(r.approverId) && r.approverId != p.actorId
    && r.action == p.action && r.actorId == p.actorId && r.scope == p.scope
    && r.tenantId == p.tenantId && r.workspaceId == p.workspaceId
    && Rank(r.stepUpLevel) >= Rank(p.stepUpLevel)
  }

  /** The most demanding request that `p` can be presented for at time `now`. */
  function RequestFor(p: ApprovalReference, now: int): GateInput {
    GateInput(p.action, p.tenantId, p.workspaceId, p.actorId, p.scope, p.stepUpLevel, true, Some(p), now)
  }

  /** Presenting `p` is as good as presenting the registered `r`, for every request the gate allows and
      the store then accepts, exactly when `r` covers `p`. */
  lemma RegisteredApprovesIff(p: ApprovalReference, r: ApprovalReference)
    requires r.approvalId == p.approvalId
    requires exists i :: Approves(p, i)
    ensures (forall i :: Approves(p, i) && i.now < r.expiresAt ==> Approves(r, i)) <==> Covers(r, p)
  {
    var now := (if p.expiresAt < r.expiresAt then p.expiresAt else r.expiresAt) - 1;
    assert Approves(p, RequestFor(p, now));
  }
}

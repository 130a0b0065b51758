/** packages/pipeline/src/final-gate.ts: why a call of the final gate was refused, over every interleaving. */
module GateRefusals {
  import opened Base
  import opened Permit
  import opened ReplayProtection
  import opened ApprovalGate
  import opened FinalGate

  // ---- the checks before the claim -------------------------------------------------------------------------

  predicate FitStore(s: Setting) {
    s.mode == ProductionMode ==> !s.testOnly
  }

  /** The refusal that the checks give, with the cause that each reason stands for. */
  predicate ScreenedFor(s: Setting, i: FinalGateInput, refusal: Refusal) {
    match refusal.reason
    case PriorDecisionNotAllowed => refusal.status == DENY && exists k :: 0 <= k < |i.priorDecisions| && i.priorDecisions[k] != ALLOW
    case ReplayStoreNotProductionSafe => refusal.status == RUNTIME_REJECTED && AllAllowed(i.priorDecisions) && !FitStore(s)
    case RuntimeIsolationDenied =>
      refusal.status == RUNTIME_REJECTED && AllAllowed(i.priorDecisions) && FitStore(s) && !i.isolationAllowed
    case PermitRefused(check) =>
      && AllAllowed(i.priorDecisions) && FitStore(s) && i.isolationAllowed
      && check == VerifyPermit(s.mac, s.key, i.permit, i.bindings, i.now) && check != PermitOk
      && (refusal.status == CONTEXT_INVALID <==> check == ContextMutationDetected)
      && (refusal.status == RUNTIME_REJECTED <==> check != ContextMutationDetected)
    case _ => false
  }

  /** The checks refuse exactly with the refusal that goes with the first failed one. */
  lemma ScreenTells(s: Setting, i: FinalGateInput, refusal: Refusal)
    ensures Screen(s, i) == Some(refusal) <==> ScreenedFor(s, i, refusal)
  {
  }

  // ---- refusals of later segments ------------------------------------------------------------------------------

  predicate ClaimedBy(replay: Replay, id: Id, call: nat) {
    id in replay.claimedBy && replay.claimedBy[id] == call
  }

  /** A refusal after the checks: the permit id was claimed by another call, or this call holds the claim and
      its approval is missing or could not be consumed. */
  predicate LateRefusal(replay: Replay, consent: Consent, call: nat, i: FinalGateInput, refusal: Refusal) {
    var id := i.permit.claims.permitId;
    match refusal.reason
    case PermitReplayed => refusal.status == RETRY_REJECTED && id in replay.claimedBy && replay.claimedBy[id] != call
    case ApprovalReferenceMissing =>
      refusal.status == DENY && ClaimedBy(replay, id, call) && i.approvalRequired && (!i.hasApprovalStore || i.approvalId.None?)
    case ApprovalConsumptionFailed(result) =>
      && refusal.status == DENY && ClaimedBy(replay, id, call) && i.approvalRequired && i.approvalId.Some?
      && result != Consumed
      && (result == AlreadyConsumed ==>
            i.approvalId.value in consent.consumedBy && consent.consumedBy[i.approvalId.value] != call)
    case _ => false
  }

  predicate RefusalOk(checks: Checks, w: World, call: nat, i: FinalGateInput, refusal: Refusal) {
    if checks(i).Some? then checks(i).value == refusal else LateRefusal(w.replay, w.consent, call, i, refusal)
  }

  ghost predicate RefusalsOk(checks: Checks, w: World) {
    forall c :: c in w.calls && w.calls[c].Ended? ==> RefusalOk(checks, w, c, w.calls[c].input, w.calls[c].refusal)
  }

  /** The claim names the permit's own id, nonce, tenant, workspace, actor and action. */
  predicate KeyFor(p: SignedPermit, k: ReplayKey) {
    var g := p.claims.grant;
    && k.permitId == p.claims.permitId && k.nonce == p.claims.nonce && k.tenantId == g.tenantId
    && k.workspaceId == g.workspaceId && k.actorId == g.actorId && k.action == g.action
  }

  predicate ClaimOk(calls: map<nat, Phase>, call: nat, id: Id, k: ReplayKey) {
    k.permitId == id && call in calls && !calls[call].Verified? && KeyFor(calls[call].input.permit, k)
  }

  /** A call that has not claimed yet is nobody's claimant, and what is claimed is the claimant's own permit. */
  ghost predicate ClaimantsOk(w: World) {
    forall id :: id in w.replay.claimedBy ==>
      id in w.replay.store && ClaimOk(w.calls, w.replay.claimedBy[id], id, w.replay.store[id])
  }

  ghost predicate CausesOk(checks: Checks, w: World) {
    RefusalsOk(checks, w) && ClaimantsOk(w)
  }

  /** Checks that leave no incomplete or expired permit to the claim. */
  ghost predicate CompleteChecks(checks: Checks) {
    forall i, claims :: checks(i).None? ==> ClaimOf(claims, i) != REJECTED
  }

  lemma ChecksAreComplete(s: Setting)
    ensures CompleteChecks(ChecksOf(s))
  {
    forall i, claims | ChecksOf(s)(i).None? ensures ClaimOf(claims, i) != REJECTED {
      VerifiedPermitClaims(s, claims, i);
    }
  }

  /** One call moves on and nothing taken is given away: the causes of the other refusals stay. */
  lemma OthersKeepCauses(checks: Checks, w: World, v: World, call: nat)
    requires CausesOk(checks, w) && call in v.calls && v.calls == w.calls[call := v.calls[call]]
    requires forall id :: id in w.replay.claimedBy ==> id in v.replay.claimedBy && v.replay.claimedBy[id] == w.replay.claimedBy[id]
    requires forall id :: id in w.consent.consumedBy ==> id in v.consent.consumedBy && v.consent.consumedBy[id] == w.consent.consumedBy[id]
    requires forall id :: id in w.replay.claimedBy && id in w.replay.store ==> id in v.replay.store && v.replay.store[id] == w.replay.store[id]
    requires forall id :: id in v.replay.claimedBy && id !in w.replay.claimedBy ==>
      v.replay.claimedBy[id] == call && id in v.replay.store && v.replay.store[id].permitId == id && KeyFor(v.calls[call].input.permit, v.replay.store[id])
    requires !v.calls[call].Verified? || (call !in w.calls && v.replay == w.replay)
    requires call in w.calls ==> v.calls[call].input == w.calls[call].input
    requires v.calls[call].Ended? ==> RefusalOk(checks, v, call, v.calls[call].input, v.calls[call].refusal)
    ensures CausesOk(checks, v)
  {
    forall c | c in v.calls && v.calls[c].Ended? ensures RefusalOk(checks, v, c, v.calls[c].input, v.calls[c].refusal) {
      if c != call { assert RefusalOk(checks, w, c, w.calls[c].input, w.calls[c].refusal); }
    }
  }

  lemma RecordKeepsCauses(checks: Checks, w: World, call: nat, i: FinalGateInput)
    requires CausesOk(checks, w) && HistoryAgrees(w) && call in w.calls && w.calls[call] == Verified(i)
    requires i.permit.claims.permitId !in w.replay.store
    ensures CausesOk(checks, RecordClaim(w, call, i))
  {
    OthersKeepCauses(checks, w, RecordClaim(w, call, i), call);
  }

  lemma ClaimKeepsCauses(checks: Checks, w: World, call: nat, i: FinalGateInput)
    requires CompleteChecks(checks) && Inv(checks, w) && CausesOk(checks, w) && call in w.calls && w.calls[call] == Verified(i)
    ensures CausesOk(checks, ApplyClaim(w, call, i))
  {
    assert PhaseOk(checks, w, call, w.calls[call]);
    var status := ClaimOf(w.replay.store, i);
    assert status != REJECTED;
    if status == CLAIMED {
      RecordKeepsCauses(checks, w, call, i);
    } else {
      OthersKeepCauses(checks, w, EndCall(w, call, i, ClaimRefusal(status)), call);
    }
  }

  /** A call that holds its claim and is not granted was refused for its approval. */
  lemma ConcludeRefusesFor(replay: Replay, consent: Consent, call: nat, i: FinalGateInput)
    requires ClaimedBy(replay, i.permit.claims.permitId, call) && consent.consumedBy.Keys == consent.store.consumed
    requires forall id :: id in consent.consumedBy ==> consent.consumedBy[id] != call
    ensures Conclude(consent.store, i).Refused? ==> LateRefusal(replay, consent, call, i, Conclude(consent.store, i).refusal)
  {
  }

  lemma AuthorizeKeepsCauses(checks: Checks, w: World, call: nat, i: FinalGateInput)
    requires CausesOk(checks, w) && HistoryAgrees(w) && call in w.calls && w.calls[call] == Claimed(i)
    requires i.approvalRequired ==> i.approvalId.Some? && ConsumeStatus(w.consent.store, i.approvalId.value, i.now) == Consumed
    ensures CausesOk(checks, Authorize(w, call, i))
  {
    OthersKeepCauses(checks, w, Authorize(w, call, i), call);
  }

  lemma FinishKeepsCauses(checks: Checks, w: World, call: nat, i: FinalGateInput)
    requires Inv(checks, w) && CausesOk(checks, w) && call in w.calls && w.calls[call] == Claimed(i)
    ensures CausesOk(checks, ApplyFinish(w, call, i))
  {
    assert PhaseOk(checks, w, call, w.calls[call]);
    if Conclude(w.consent.store, i).Granted? {
      AuthorizeKeepsCauses(checks, w, call, i);
    } else {
      forall id | id in w.consent.consumedBy ensures w.consent.consumedBy[id] != call {
        assert ConsumptionOk(w, id);
      }
      ConcludeRefusesFor(w.replay, w.consent, call, i);
      OthersKeepCauses(checks, w, EndCall(w, call, i, Conclude(w.consent.store, i).refusal), call);
    }
  }

  lemma StepKeepsCauses(checks: Checks, w: World, step: Step)
    requires CompleteChecks(checks) && Inv(checks, w) && CausesOk(checks, w)
    ensures CausesOk(checks, Apply(checks, w, step))
  {
    match step
    case RegisterApproval(a) =>
      var v := Apply(checks, w, step);
      forall c | c in v.calls && v.calls[c].Ended? ensures RefusalOk(checks, v, c, v.calls[c].input, v.calls[c].refusal) {
        assert RefusalOk(checks, w, c, w.calls[c].input, w.calls[c].refusal);
      }
    case Begin(call, i) => if call !in w.calls { OthersKeepCauses(checks, w, ApplyBegin(checks, w, call, i), call); }
    case Claim(call) => if call in w.calls && w.calls[call].Verified? { ClaimKeepsCauses(checks, w, call, w.calls[call].input); }
    case Finish(call) => if call in w.calls && w.calls[call].Claimed? { FinishKeepsCauses(checks, w, call, w.calls[call].input); }
  }

  lemma {:induction false} CausesStay(checks: Checks, steps: seq<Step>)
    requires CompleteChecks(checks)
    ensures CausesOk(checks, After(checks, steps))
  {
    if steps != [] {
      var n := |steps| - 1;
      CausesStay(checks, steps[..n]);
      Reachable(checks, steps[..n]);
      StepKeepsCauses(checks, After(checks, steps[..n]), steps[n]);
    }
  }

  /** Over every interleaving each claim on record names the permit of the call that made it, field by field. */
  lemma EveryClaimIsItsOwn(s: Setting, steps: seq<Step>, id: Id)
    requires id in After(ChecksOf(s), steps).replay.store
    ensures var w := After(ChecksOf(s), steps);
      && id in w.replay.claimedBy && w.replay.claimedBy[id] in w.calls
      && KeyFor(w.calls[w.replay.claimedBy[id]].input.permit, w.replay.store[id])
      && w.calls[w.replay.claimedBy[id]].input.permit.claims.permitId == id
  {
    ChecksAreComplete(s);
    CausesStay(ChecksOf(s), steps);
    Reachable(ChecksOf(s), steps);
  }

  /** Over every interleaving a refused call was refused for a cause that is there: its checks failed in the way
      the refusal says, another call had claimed its permit id, or it had claimed the id itself and its
      approval was missing, unknown, expired, or consumed by another call. */
  lemma EveryRefusalHasItsCause(s: Setting, steps: seq<Step>, call: nat)
    requires call in After(ChecksOf(s), steps).calls && After(ChecksOf(s), steps).calls[call].Ended?
    ensures var w := After(ChecksOf(s), steps);
      var i, refusal := w.calls[call].input, w.calls[call].refusal;
      || ScreenedFor(s, i, refusal)
      || (ChecksOf(s)(i).None? && LateRefusal(w.replay, w.consent, call, i, refusal))
  {
    ChecksAreComplete(s);
    CausesStay(ChecksOf(s), steps);
    var w := After(ChecksOf(s), steps);
    var i, refusal := w.calls[call].input, w.calls[call].refusal;
    assert RefusalOk(ChecksOf(s), w, call, i, refusal);
    ScreenTells(s, i, refusal);
  }
}

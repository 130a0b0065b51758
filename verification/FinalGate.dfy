/** packages/pipeline/src/final-gate.ts: the only place where execution is authorized, with any number of
    calls in progress over one replay store and one approval store. */
module FinalGate {
  import opened Base
  import opened Permit
  import opened ReplayProtection
  import opened ApprovalGate

  datatype DecisionStatus =
    | ALLOW | DENY | APPROVAL_REQUIRED | STEP_UP_REQUIRED | RETRY_REJECTED | CONTEXT_INVALID | RUNTIME_REJECTED

  datatype RuntimeMode = TestMode | ProductionMode

  /** What stays fixed while a gate is in use: the digest, the key and the kind of replay store. */
  datatype Setting = Setting(mac: Mac, key: SigningKey, mode: RuntimeMode, testOnly: bool)

  datatype FinalGateInput = FinalGateInput(
    priorDecisions: seq<DecisionStatus>, permit: SignedPermit, bindings: Bindings, isolationAllowed: bool,
    approvalRequired: bool, approvalId: Option<Id>, hasApprovalStore: bool, now: int)

  datatype GateReason =
    | PriorDecisionNotAllowed | ReplayStoreNotProductionSafe | RuntimeIsolationDenied | PermitRefused(check: PermitCheck)
    | PermitReplayed | ReplayClaimRejected | ApprovalReferenceMissing | ApprovalConsumptionFailed(result: ConsumeResult)

  datatype Authorization = Authorization(permitId: Id, requestId: Id)

  datatype Refusal = Refusal(status: DecisionStatus, reason: GateReason)

  datatype GateResult = Granted(authorization: Authorization) | Refused(refusal: Refusal)

  // ---- one call --------------------------------------------------------------------------------------------

  predicate AllAllowed(ds: seq<DecisionStatus>) {
    forall i :: 0 <= i < |ds| ==> ds[i] == ALLOW
  }

  /** The checks before anything stateful: the refusal, if there is one. */
  function Screen(s: Setting, i: FinalGateInput): (r: Option<Refusal>) {
    if !AllAllowed(i.priorDecisions) then Some(Refusal(DENY, PriorDecisionNotAllowed))
    else if s.mode == ProductionMode && s.testOnly then Some(Refusal(RUNTIME_REJECTED, ReplayStoreNotProductionSafe))
    else if !i.isolationAllowed then Some(Refusal(RUNTIME_REJECTED, RuntimeIsolationDenied))
    else
      var check := VerifyPermit(s.mac, s.key, i.permit, i.bindings, i.now);
      if check == PermitOk then None
      else Some(Refusal(if check == ContextMutationDetected then CONTEXT_INVALID else RUNTIME_REJECTED, PermitRefused(check)))
  }

  function KeyOf(p: SignedPermit): ReplayKey {
    var g := p.claims.grant;
    ReplayKey(p.claims.permitId, p.claims.nonce, g.tenantId, g.workspaceId, g.actorId, g.action)
  }

  function ClaimOf(claims: ClaimStore, i: FinalGateInput): ClaimResult {
    ClaimStatus(claims, KeyOf(i.permit), i.permit.claims.grant.expiresAt, i.now)
  }

  function ClaimRefusal(r: ClaimResult): Refusal {
    if r.REPLAYED? then Refusal(RETRY_REJECTED, PermitReplayed) else Refusal(RUNTIME_REJECTED, ReplayClaimRejected)
  }

  /** The last segment: the approval is consumed if one is required, and the authorization minted. */
  function Conclude(a: Approvals, i: FinalGateInput): GateResult {
    if !i.approvalRequired then Granted(AuthorizationOf(i))
    else if !i.hasApprovalStore || i.approvalId.None? then Refused(Refusal(DENY, ApprovalReferenceMissing))
    else
      var consumed := ConsumeStatus(a, i.approvalId.value, i.now);
      if consumed != Consumed then Refused(Refusal(DENY, ApprovalConsumptionFailed(consumed)))
      else Granted(AuthorizationOf(i))
  }

  function AuthorizationOf(i: FinalGateInput): Authorization {
    Authorization(i.permit.claims.permitId, i.permit.claims.grant.requestId)
  }

  /** What must hold of a call and the two stores for the call to be authorized. */
  ghost predicate Authorizable(s: Setting, claims: ClaimStore, a: Approvals, i: FinalGateInput) {
    && AllAllowed(i.priorDecisions) && i.isolationAllowed && !(s.mode == ProductionMode && s.testOnly)
    && VerifyPermit(s.mac, s.key, i.permit, i.bindings, i.now) == PermitOk
    && i.permit.claims.permitId !in claims
    && (i.approvalRequired ==>
          && i.hasApprovalStore && i.approvalId.Some? && i.approvalId.value in a.byId
          && i.approvalId.value !in a.consumed && i.now < a.byId[i.approvalId.value].expiresAt)
  }

  /** A permit that verifies is always claimable unless its id was claimed before. */
  lemma VerifiedPermitClaims(s: Setting, claims: ClaimStore, i: FinalGateInput)
    requires Screen(s, i).None?
    ensures ClaimOf(claims, i) != REJECTED
    ensures ClaimOf(claims, i) == CLAIMED <==> i.permit.claims.permitId !in claims
  {
  }

  /** A whole call with nothing else in between. It grants exactly when the call is authorizable; the
      permit is claimed exactly when the checks passed and its id is new; an approval is consumed only
      together with a grant. */
  method EvaluateFinalGate(s: Setting, i: FinalGateInput, replay: PermitReplayStore, store: InMemoryApprovalStore)
    returns (r: GateResult)
    requires replay.testOnly == s.testOnly
    modifies replay`claims, store`consumed
    ensures r.Granted? <==> Authorizable(s, old(replay.claims), old(store.View()), i)
    ensures r.Granted? ==> r.authorization == AuthorizationOf(i)
    ensures replay.claims == if Screen(s, i).None? then old(AfterClaim(replay.claims, KeyOf(i.permit), i.permit.claims.grant.expiresAt, i.now))
                             else old(replay.claims)
    ensures store.View() == if r.Granted? && i.approvalRequired
                            then old(store.View()).(consumed := old(store.consumed) + {i.approvalId.value})
                            else old(store.View())
    ensures r == WholeCall(s, old(replay.claims), old(store.View()), i)
  {
    var screened := Screen(s, i);
    if screened.Some? {
      return Refused(screened.value);
    }
    VerifiedPermitClaims(s, replay.claims, i);
    var claim := replay.Claim(KeyOf(i.permit), i.permit.claims.grant.expiresAt, i.now);
    if claim.REPLAYED? {
      return Refused(Refusal(RETRY_REJECTED, PermitReplayed));
    }
    if claim != CLAIMED {
      return Refused(Refusal(RUNTIME_REJECTED, ReplayClaimRejected));
    }
    if i.approvalRequired {
      if !i.hasApprovalStore || i.approvalId.None? {
        return Refused(Refusal(DENY, ApprovalReferenceMissing));
      }
      var consumed := store.Consume(i.approvalId.value, i.now);
      if consumed != Consumed {
        return Refused(Refusal(DENY, ApprovalConsumptionFailed(consumed)));
      }
    }
    return Granted(AuthorizationOf(i));
  }

  function WholeCall(s: Setting, claims: ClaimStore, a: Approvals, i: FinalGateInput): GateResult {
    if Screen(s, i).Some? then Refused(Screen(s, i).value)
    else if ClaimOf(claims, i) != CLAIMED then Refused(ClaimRefusal(ClaimOf(claims, i)))
    else Conclude(a, i)
  }

  // ---- the step system -----------------------------------------------------------------------------------------

  /** An authorization that was minted: by which call, which approval id it consumed, and what was
      registered under that id at that moment. */
  datatype Mint = Mint(call: nat, authorization: Authorization, approval: Option<Id>, registered: Option<ApprovalReference>)

  /** Where a call stands; `mint` is the position of its authorization in the log. */
  datatype Phase =
    | Verified(input: FinalGateInput)
    | Claimed(input: FinalGateInput)
    | Authorized(input: FinalGateInput, mint: nat)
    | Ended(input: FinalGateInput, refusal: Refusal)

  /** The replay store, with the call that made each claim. */
  datatype Replay = Replay(store: ClaimStore, claimedBy: map<Id, nat>)

  /** The approval store, with the call that consumed each approval. */
  datatype Consent = Consent(store: Approvals, consumedBy: map<Id, nat>)

  datatype World = World(calls: map<nat, Phase>, replay: Replay, consent: Consent, mints: seq<Mint>)

  /** The atomic segments of a call, and the registration of approvals. The in-memory store claims in the
      same segment as the checks; a distributed one claims later, so the two are separate steps. */
  datatype Step =
    | RegisterApproval(approval: ApprovalReference)
    | Begin(call: nat, input: FinalGateInput)
    | Claim(call: nat)
    | Finish(call: nat)

  const INITIAL := World(map[], Replay(map[], map[]), Consent(Approvals(map[], {}), map[]), [])

  /** The checks of a call's first segment: the refusal they give, if any. */
  type Checks = FinalGateInput -> Option<Refusal>

  function ChecksOf(s: Setting): Checks {
    (i: FinalGateInput) => Screen(s, i)
  }

  function ApplyBegin(checks: Checks, w: World, call: nat, i: FinalGateInput): World {
    var refusal := checks(i);
    w.(calls := w.calls[call := if refusal.Some? then Ended(i, refusal.value) else Verified(i)])
  }

  function RecordClaim(w: World, call: nat, i: FinalGateInput): World {
    w.(calls := w.calls[call := Claimed(i)],
       replay := Replay(w.replay.store[i.permit.claims.permitId := KeyOf(i.permit)],
                        w.replay.claimedBy[i.permit.claims.permitId := call]))
  }

  function Authorize(w: World, call: nat, i: FinalGateInput): World
    requires i.approvalRequired ==> i.approvalId.Some? && i.approvalId.value in w.consent.store.byId
  {
    var authorized := w.(calls := w.calls[call := Authorized(i, |w.mints|)]);
    if !i.approvalRequired then authorized.(mints := w.mints + [Mint(call, AuthorizationOf(i), None, None)])
    else
      var id := i.approvalId.value;
      authorized.(
        consent := Consent(w.consent.store.(consumed := w.consent.store.consumed + {id}), w.consent.consumedBy[id := call]),
        mints := w.mints + [Mint(call, AuthorizationOf(i), Some(id), Some(w.consent.store.byId[id]))])
  }

  function EndCall(w: World, call: nat, i: FinalGateInput, r: Refusal): World {
    w.(calls := w.calls[call := Ended(i, r)])
  }

  function ApplyClaim(w: World, call: nat, i: FinalGateInput): World {
    var status := ClaimOf(w.replay.store, i);
    if status == CLAIMED then RecordClaim(w, call, i) else EndCall(w, call, i, ClaimRefusal(status))
  }

  function ApplyFinish(w: World, call: nat, i: FinalGateInput): World {
    var result := Conclude(w.consent.store, i);
    if result.Granted? then Authorize(w, call, i) else EndCall(w, call, i, result.refusal)
  }

  function Apply(checks: Checks, w: World, step: Step): World {
    match step
    case RegisterApproval(a) => w.(consent := w.consent.(store := AfterRegister(w.consent.store, a)))
    case Begin(call, input) => if call in w.calls then w else ApplyBegin(checks, w, call, input)
    case Claim(call) =>
      if call in w.calls && w.calls[call].Verified? then ApplyClaim(w, call, w.calls[call].input) else w
    case Finish(call) =>
      if call in w.calls && w.calls[call].Claimed? then ApplyFinish(w, call, w.calls[call].input) else w
  }

  function After(checks: Checks, steps: seq<Step>): World {
    if steps == [] then INITIAL
    else Apply(checks, After(checks, steps[..|steps| - 1]), steps[|steps| - 1])
  }

  // ---- what every step keeps -------------------------------------------------------------------------------------

  /** The call passed the checks and made the claim on its permit itself. */
  predicate Holds(checks: Checks, replay: Replay, call: nat, i: FinalGateInput) {
    && checks(i).None?
    && i.permit.claims.permitId in replay.claimedBy && replay.claimedBy[i.permit.claims.permitId] == call
  }

  predicate MintMatches(mints: seq<Mint>, call: nat, i: FinalGateInput, m: nat) {
    && m < |mints| && mints[m].call == call && mints[m].authorization == AuthorizationOf(i)
    && mints[m].approval == (if i.approvalRequired then i.approvalId else None)
    && (i.approvalRequired ==>
          i.approvalId.Some? && mints[m].registered.Some? && i.now < mints[m].registered.value.expiresAt)
  }

  predicate Spent(consent: Consent, call: nat, i: FinalGateInput) {
    i.approvalRequired ==>
      i.approvalId.Some? && i.approvalId.value in consent.consumedBy && consent.consumedBy[i.approvalId.value] == call
  }

  predicate PhaseOk(checks: Checks, w: World, call: nat, phase: Phase) {
    match phase
    case Verified(i) => checks(i).None?
    case Claimed(i) => Holds(checks, w.replay, call, i)
    case Authorized(i, m) => Holds(checks, w.replay, call, i) && MintMatches(w.mints, call, i, m) && Spent(w.consent, call, i)
    case Ended(_, _) => true
  }

  ghost predicate CallsOk(checks: Checks, w: World) {
    forall call :: call in w.calls ==> PhaseOk(checks, w, call, w.calls[call])
  }

  /** Each authorization is the one its call was given. */
  predicate MintOk(w: World, m: nat)
    requires m < |w.mints|
  {
    var call := w.mints[m].call;
    call in w.calls && w.calls[call].Authorized? && w.calls[call].mint == m
  }

  ghost predicate MintsOk(w: World) {
    forall m :: 0 <= m < |w.mints| ==> MintOk(w, m)
  }

  /** A consumed approval belongs to a call that was authorized with it. */
  predicate ConsumptionOk(w: World, id: Id)
    requires id in w.consent.consumedBy
  {
    var call := w.consent.consumedBy[id];
    && call in w.calls && w.calls[call].Authorized?
    && w.calls[call].input.approvalRequired && w.calls[call].input.approvalId == Some(id)
  }

  ghost predicate ConsumptionsOk(w: World) {
    forall id :: id in w.consent.consumedBy ==> ConsumptionOk(w, id)
  }

  /** The stores refuse exactly what the history says is taken. */
  predicate HistoryAgrees(w: World) {
    w.replay.claimedBy.Keys == w.replay.store.Keys && w.consent.consumedBy.Keys == w.consent.store.consumed
  }

  ghost predicate Inv(checks: Checks, w: World) {
    CallsOk(checks, w) && MintsOk(w) && ConsumptionsOk(w) && HistoryAgrees(w)
  }

  /** A call moving on keeps what is known of the others, as long as nothing taken is given away. */
  lemma OthersKeep(checks: Checks, w: World, v: World, call: nat)
    requires Inv(checks, w)
    requires call in w.calls ==> !w.calls[call].Authorized?
    requires call in v.calls && v.calls.Keys == w.calls.Keys + {call}
    requires forall c :: c in w.calls && c != call ==> v.calls[c] == w.calls[c]
    requires forall id :: id in w.replay.claimedBy ==> id in v.replay.claimedBy && v.replay.claimedBy[id] == w.replay.claimedBy[id]
    requires forall id :: id in w.consent.consumedBy ==> id in v.consent.consumedBy && v.consent.consumedBy[id] == w.consent.consumedBy[id]
    requires |w.mints| <= |v.mints| && v.mints[..|w.mints|] == w.mints
    ensures forall c :: c in w.calls && c != call ==> PhaseOk(checks, v, c, v.calls[c])
    ensures forall m :: 0 <= m < |w.mints| ==> MintOk(v, m)
    ensures forall id :: id in w.consent.consumedBy ==> ConsumptionOk(v, id)
  {
    assert forall m :: 0 <= m < |w.mints| ==> v.mints[m] == w.mints[m];
    forall c | c in w.calls && c != call ensures PhaseOk(checks, v, c, v.calls[c]) {
      assert PhaseOk(checks, w, c, w.calls[c]);
    }
    forall m | 0 <= m < |w.mints| ensures MintOk(v, m) {
      assert MintOk(w, m);
    }
    forall id | id in w.consent.consumedBy ensures ConsumptionOk(v, id) {
      assert ConsumptionOk(w, id);
    }
  }

  lemma BeginKeepsInv(checks: Checks, w: World, call: nat, i: FinalGateInput)
    requires Inv(checks, w) && call !in w.calls
    ensures Inv(checks, ApplyBegin(checks, w, call, i))
  {
    OthersKeep(checks, w, ApplyBegin(checks, w, call, i), call);
  }

  lemma EndKeepsInv(checks: Checks, w: World, call: nat, r: Refusal)
    requires Inv(checks, w) && call in w.calls && !w.calls[call].Authorized?
    ensures Inv(checks, EndCall(w, call, w.calls[call].input, r))
  {
    OthersKeep(checks, w, EndCall(w, call, w.calls[call].input, r), call);
  }

  lemma RecordKeepsInv(checks: Checks, w: World, call: nat, i: FinalGateInput)
    requires Inv(checks, w) && call in w.calls && w.calls[call] == Verified(i)
    requires i.permit.claims.permitId !in w.replay.store
    ensures Inv(checks, RecordClaim(w, call, i))
  {
    assert PhaseOk(checks, w, call, w.calls[call]);
    OthersKeep(checks, w, RecordClaim(w, call, i), call);
  }

  lemma AuthorizeKeepsInv(checks: Checks, w: World, call: nat, i: FinalGateInput)
    requires Inv(checks, w) && call in w.calls && w.calls[call] == Claimed(i)
    requires i.approvalRequired ==>
      i.approvalId.Some? && ConsumeStatus(w.consent.store, i.approvalId.value, i.now) == Consumed
    ensures Inv(checks, Authorize(w, call, i))
  {
    var v := Authorize(w, call, i);
    assert PhaseOk(checks, w, call, w.calls[call]);
    OthersKeep(checks, w, v, call);
    assert PhaseOk(checks, v, call, v.calls[call]);
    assert MintOk(v, |w.mints|);
  }

  lemma ClaimKeepsInv(checks: Checks, w: World, call: nat)
    requires Inv(checks, w) && call in w.calls && w.calls[call].Verified?
    ensures Inv(checks, ApplyClaim(w, call, w.calls[call].input))
  {
    var i := w.calls[call].input;
    var status := ClaimOf(w.replay.store, i);
    if status == CLAIMED {
      RecordKeepsInv(checks, w, call, i);
    } else {
      EndKeepsInv(checks, w, call, ClaimRefusal(status));
    }
  }

  lemma FinishKeepsInv(checks: Checks, w: World, call: nat)
    requires Inv(checks, w) && call in w.calls && w.calls[call].Claimed?
    ensures Inv(checks, ApplyFinish(w, call, w.calls[call].input))
  {
    var i := w.calls[call].input;
    var result := Conclude(w.consent.store, i);
    if result.Granted? {
      AuthorizeKeepsInv(checks, w, call, i);
    } else {
      EndKeepsInv(checks, w, call, result.refusal);
    }
  }

  lemma RegisterKeepsInv(checks: Checks, w: World, a: ApprovalReference)
    requires Inv(checks, w)
    ensures Inv(checks, Apply(checks, w, RegisterApproval(a)))
  {
    var v := Apply(checks, w, RegisterApproval(a));
    forall c | c in v.calls ensures PhaseOk(checks, v, c, v.calls[c]) {
      assert PhaseOk(checks, w, c, w.calls[c]);
    }
    forall m | 0 <= m < |v.mints| ensures MintOk(v, m) {
      assert MintOk(w, m);
    }
    forall id | id in v.consent.consumedBy ensures ConsumptionOk(v, id) {
      assert ConsumptionOk(w, id);
    }
  }

  lemma StepKeepsInv(checks: Checks, w: World, step: Step)
    requires Inv(checks, w)
    ensures Inv(checks, Apply(checks, w, step))
  {
    match step
    case RegisterApproval(a) => RegisterKeepsInv(checks, w, a);
    case Begin(call, i) => if call !in w.calls { BeginKeepsInv(checks, w, call, i); }
    case Claim(call) => if call in w.calls && w.calls[call].Verified? { ClaimKeepsInv(checks, w, call); }
    case Finish(call) => if call in w.calls && w.calls[call].Claimed? { FinishKeepsInv(checks, w, call); }
  }

  lemma {:induction false} Reachable(checks: Checks, steps: seq<Step>)
    ensures Inv(checks, After(checks, steps))
  {
    if steps != [] {
      var n := |steps| - 1;
      Reachable(checks, steps[..n]);
      StepKeepsInv(checks, After(checks, steps[..n]), steps[n]);
    }
  }

  // ---- over every interleaving ----------------------------------------------------------------------------------------

  lemma MintsAreDistinct(checks: Checks, w: World, m: nat, n: nat)
    requires Inv(checks, w) && m < n < |w.mints|
    ensures w.mints[m].call != w.mints[n].call
    ensures w.mints[m].authorization.permitId != w.mints[n].authorization.permitId
    ensures w.mints[m].approval.Some? ==> w.mints[m].approval != w.mints[n].approval
  {
    assert MintOk(w, m) && MintOk(w, n);
    var c, d := w.mints[m].call, w.mints[n].call;
    assert PhaseOk(checks, w, c, w.calls[c]) && PhaseOk(checks, w, d, w.calls[d]);
  }

  /** At most one authorization per permit id, and at most one per call. */
  lemma AtMostOneAuthorizationPerPermit(checks: Checks, steps: seq<Step>, m: nat, n: nat)
    requires m < n < |After(checks, steps).mints|
    ensures var mints := After(checks, steps).mints;
      mints[m].authorization.permitId != mints[n].authorization.permitId && mints[m].call != mints[n].call
  {
    Reachable(checks, steps);
    MintsAreDistinct(checks, After(checks, steps), m, n);
  }

  /** At most one authorization per required approval id. */
  lemma AtMostOneAuthorizationPerApproval(checks: Checks, steps: seq<Step>, m: nat, n: nat)
    requires m < n < |After(checks, steps).mints| && After(checks, steps).mints[m].approval.Some?
    ensures After(checks, steps).mints[m].approval != After(checks, steps).mints[n].approval
  {
    Reachable(checks, steps);
    MintsAreDistinct(checks, After(checks, steps), m, n);
  }

  /** Every authorization went to a call that passed the checks under its own input, made the claim on
      its permit itself, and consumed the approval it required while the one registered under that id was unexpired. */
  lemma EveryAuthorizationIsEarned(checks: Checks, steps: seq<Step>, m: nat)
    requires m < |After(checks, steps).mints|
    ensures var w := After(checks, steps);
      var call := w.mints[m].call;
      && call in w.calls && w.calls[call].Authorized? && w.calls[call].mint == m
      && Holds(checks, w.replay, call, w.calls[call].input) && MintMatches(w.mints, call, w.calls[call].input, m)
      && Spent(w.consent, call, w.calls[call].input)
  {
    Reachable(checks, steps);
    var w := After(checks, steps);
    assert MintOk(w, m);
    assert PhaseOk(checks, w, w.mints[m].call, w.calls[w.mints[m].call]);
  }

  /** An approval is consumed exactly when some authorization was minted with it; so no denied call and no
      call that failed to verify and newly claim its own permit consumes one. */
  lemma ApprovalsAreSpentOnAuthorizations(checks: Checks, steps: seq<Step>, id: Id)
    ensures var w := After(checks, steps);
      id in w.consent.store.consumed <==>
      exists m :: 0 <= m < |w.mints| && w.mints[m].approval == Some(id)
    ensures var w := After(checks, steps);
      id in w.consent.store.consumed ==>
      id in w.consent.consumedBy && w.consent.consumedBy[id] in w.calls &&
      Holds(checks, w.replay, w.consent.consumedBy[id], w.calls[w.consent.consumedBy[id]].input)
  {
    Reachable(checks, steps);
    SpentOnAuthorization(checks, After(checks, steps), id);
  }

  lemma SpentOnAuthorization(checks: Checks, w: World, id: Id)
    requires Inv(checks, w)
    ensures id in w.consent.store.consumed <==> exists m :: 0 <= m < |w.mints| && w.mints[m].approval == Some(id)
    ensures id in w.consent.store.consumed ==>
      id in w.consent.consumedBy && w.consent.consumedBy[id] in w.calls &&
      Holds(checks, w.replay, w.consent.consumedBy[id], w.calls[w.consent.consumedBy[id]].input)
  {
    if id in w.consent.consumedBy {
      assert ConsumptionOk(w, id);
      var call := w.consent.consumedBy[id];
      assert PhaseOk(checks, w, call, w.calls[call]);
      assert w.mints[w.calls[call].mint].approval == Some(id);
    }
    if m :| 0 <= m < |w.mints| && w.mints[m].approval == Some(id) {
      assert MintOk(w, m);
      assert PhaseOk(checks, w, w.mints[m].call, w.calls[w.mints[m].call]);
    }
  }

  /** The gate's own checks pass exactly a call whose earlier decisions all
      allow, on a store fit for the mode, isolated, with a permit that verifies. */
  lemma ChecksPassIff(s: Setting, i: FinalGateInput)
    ensures ChecksOf(s)(i).None? <==>
            && AllAllowed(i.priorDecisions) && i.isolationAllowed && !(s.mode == ProductionMode && s.testOnly)
            && VerifyPermit(s.mac, s.key, i.permit, i.bindings, i.now) == PermitOk
  {
  }

  // ---- calls by themselves ------------------------------------------------------------------------------------

  function Uninterrupted(checks: Checks, w: World, call: nat, i: FinalGateInput): World {
    Apply(checks, Apply(checks, Apply(checks, w, Begin(call, i)), Claim(call)), Finish(call))
  }

  /** A call left to itself ends as the whole-call function says. */
  lemma UninterruptedCall(s: Setting, w: World, call: nat, i: FinalGateInput)
    requires call !in w.calls
    ensures var r := WholeCall(s, w.replay.store, w.consent.store, i);
      Uninterrupted(ChecksOf(s), w, call, i).calls[call] == if r.Granted? then Authorized(i, |w.mints|) else Ended(i, r.refusal)
  {
  }

  lemma WholeCallGrantsIff(s: Setting, claims: ClaimStore, a: Approvals, i: FinalGateInput)
    ensures WholeCall(s, claims, a, i).Granted? <==> Authorizable(s, claims, a, i)
  {
  }

  /** A claim is spent without an authorization exactly when the approval step fails. */
  lemma ClaimIsWastedIff(checks: Checks, w: World, call: nat)
    requires call in w.calls && w.calls[call].Claimed?
    ensures var i := w.calls[call].input;
      |Apply(checks, w, Finish(call)).mints| == |w.mints| <==>
      i.approvalRequired && (!i.hasApprovalStore || i.approvalId.None? ||
                             ConsumeStatus(w.consent.store, i.approvalId.value, i.now) != Consumed)
  {
  }

  /** Once a permit id is claimed no step of any call gives it back. */
  lemma {:induction false} ClaimsStay(checks: Checks, w: World, steps: seq<Step>, id: Id)
    requires id in w.replay.store
    ensures id in Continue(checks, w, steps).replay.store
  {
    if steps != [] {
      ClaimsStay(checks, w, steps[..|steps| - 1], id);
    }
  }

  function Continue(checks: Checks, w: World, steps: seq<Step>): World {
    if steps == [] then w
    else Apply(checks, Continue(checks, w, steps[..|steps| - 1]), steps[|steps| - 1])
  }
}

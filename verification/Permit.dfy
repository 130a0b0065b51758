/** packages/pipeline/src/permit.ts and execution-context.ts: the signed, context-bound permit. */
module Permit {
  import opened Base
  import opened Hex

  datatype ResourceRef = ResourceRef(id: Id, kind: string)

  datatype RuntimeConstraints = RuntimeConstraints(maxExecutionTimeMs: int, allowedCapabilities: seq<string>, networkEgress: bool)

  /** What a permit grants: everything in its claims that the caller of the issuer supplies. */
  datatype Grant = Grant(
    requestId: Id, correlationId: Id, actorId: Id, actorType: string, tenantId: Id, organizationId: Id, workspaceId: Id,
    action: string, resource: ResourceRef, issuedAt: int, expiresAt: int, policyDecisionId: Id,
    approvalReference: Option<Id>, constraints: RuntimeConstraints, contextHash: string)

  datatype Claims = Claims(permitId: Id, nonce: Id, keyId: Id, grant: Grant)

  datatype SignedPermit = SignedPermit(claims: Claims, algorithm: string, integrity: string)

  datatype SigningKey = SigningKey(keyId: Id, secret: string)

  datatype Bindings = Bindings(
    tenantId: Id, organizationId: Id, workspaceId: Id, actorId: Id, action: string, resource: ResourceRef, contextHash: string)

  /** The keyed digest of the canonical claims. */
  type Mac = (string, Claims) -> string

  const ALGORITHM := "HMAC-SHA256"

  const DIGEST_LENGTH := 64

  predicate DigestText(s: string) {
    |s| == DIGEST_LENGTH && LowerHex(s)
  }

  ghost predicate ProducesDigests(mac: Mac) {
    forall secret, claims :: DigestText(mac(secret, claims))
  }

  /** The issuer's constructor throws for any other key. */
  predicate UsableKey(key: SigningKey) {
    NonBlank(key.keyId) && NonBlank(key.secret)
  }

  predicate WellFormedGrant(g: Grant) {
    && NonBlank(g.requestId) && NonBlank(g.correlationId) && NonBlank(g.actorId) && NonBlank(g.actorType)
    && NonBlank(g.tenantId) && NonBlank(g.organizationId) && NonBlank(g.workspaceId) && NonBlank(g.action)
    && NonBlank(g.policyDecisionId) && NonBlank(g.contextHash)
    && NonBlank(g.resource.id) && NonBlank(g.resource.kind)
  }

  predicate WellFormed(p: SignedPermit) {
    && p.algorithm == ALGORITHM && NonBlank(p.integrity)
    && NonBlank(p.claims.permitId) && NonBlank(p.claims.nonce) && NonBlank(p.claims.keyId)
    && WellFormedGrant(p.claims.grant)
  }

  /** A blank approval reference is left out of the claims. */
  function ClaimsFor(key: SigningKey, g: Grant, permitId: Id, nonce: Id): Claims {
    Claims(permitId, nonce, key.keyId,
           if g.approvalReference.Some? && !NonBlank(g.approvalReference.value) then g.(approvalReference := None) else g)
  }

  /** `permitId` and `nonce` are the fresh identifiers the issuer draws. */
  function IssuePermit(mac: Mac, key: SigningKey, g: Grant, permitId: Id, nonce: Id): SignedPermit {
    var claims := ClaimsFor(key, g, permitId, nonce);
    SignedPermit(claims, ALGORITHM, mac(key.secret, claims))
  }

  predicate VerifyIntegrity(mac: Mac, key: SigningKey, p: SignedPermit) {
    WellFormed(p) && p.claims.keyId == key.keyId && SafeEqualHex(mac(key.secret, p.claims), p.integrity)
  }

  datatype PermitCheck =
    | PermitOk | PermitMalformed | PermitIntegrityInvalid | PermitExpired | PermitTenantMismatch
    | PermitOrganizationMismatch | PermitWorkspaceMismatch | PermitActorMismatch | PermitActionMismatch
    | PermitResourceMismatch | ContextMutationDetected

  function VerifyPermit(mac: Mac, key: SigningKey, p: SignedPermit, b: Bindings, now: int): PermitCheck {
    var g := p.claims.grant;
    if !WellFormed(p) then PermitMalformed
    else if !VerifyIntegrity(mac, key, p) then PermitIntegrityInvalid
    else if g.expiresAt <= now then PermitExpired
    else if g.tenantId != b.tenantId then PermitTenantMismatch
    else if g.organizationId != b.organizationId then PermitOrganizationMismatch
    else if g.workspaceId != b.workspaceId then PermitWorkspaceMismatch
    else if g.actorId != b.actorId then PermitActorMismatch
    else if g.action != b.action then PermitActionMismatch
    else if g.resource != b.resource then PermitResourceMismatch
    else if g.contextHash != b.contextHash then ContextMutationDetected
    else PermitOk
  }

  /** A permit is malformed exactly when one of its texts is blank or it was not signed with the one algorithm. */
  lemma MalformedIff(mac: Mac, key: SigningKey, p: SignedPermit, b: Bindings, now: int)
    ensures var c, g := p.claims, p.claims.grant;
      VerifyPermit(mac, key, p, b, now) == PermitMalformed <==>
      || p.algorithm != "HMAC-SHA256" || !NonBlank(p.integrity)
      || !NonBlank(c.permitId) || !NonBlank(c.nonce) || !NonBlank(c.keyId)
      || !NonBlank(g.requestId) || !NonBlank(g.correlationId) || !NonBlank(g.actorId) || !NonBlank(g.actorType)
      || !NonBlank(g.tenantId) || !NonBlank(g.organizationId) || !NonBlank(g.workspaceId) || !NonBlank(g.action)
      || !NonBlank(g.policyDecisionId) || !NonBlank(g.contextHash) || !NonBlank(g.resource.id) || !NonBlank(g.resource.kind)
  {
  }

  /** What each report says about the presented permit. */
  predicate Applies(mac: Mac, key: SigningKey, p: SignedPermit, b: Bindings, now: int, report: PermitCheck) {
    var g := p.claims.grant;
    match report
    case PermitMalformed => !WellFormed(p)
    case PermitIntegrityInvalid => !VerifyIntegrity(mac, key, p)
    case PermitExpired => !(now < g.expiresAt)
    case PermitTenantMismatch => !(g.tenantId == b.tenantId)
    case PermitOrganizationMismatch => !(g.organizationId == b.organizationId)
    case PermitWorkspaceMismatch => !(g.workspaceId == b.workspaceId)
    case PermitActorMismatch => !(g.actorId == b.actorId)
    case PermitActionMismatch => !(g.action == b.action)
    case PermitResourceMismatch => !(g.resource == b.resource)
    case ContextMutationDetected => !(g.contextHash == b.contextHash)
    case PermitOk => true
  }

  /** The order in which the reports take precedence. */
  function Precedence(report: PermitCheck): nat {
    match report
    case PermitMalformed => 0
    case PermitIntegrityInvalid => 1
    case PermitExpired => 2
    case PermitTenantMismatch => 3
    case PermitOrganizationMismatch => 4
    case PermitWorkspaceMismatch => 5
    case PermitActorMismatch => 6
    case PermitActionMismatch => 7
    case PermitResourceMismatch => 8
    case ContextMutationDetected => 9
    case PermitOk => 10
  }

  /** Verification reports exactly the first report that applies, and so passes exactly when no other does. */
  lemma FirstReportIsGiven(mac: Mac, key: SigningKey, p: SignedPermit, b: Bindings, now: int, report: PermitCheck)
    ensures VerifyPermit(mac, key, p, b, now) == report <==>
            && Applies(mac, key, p, b, now, report)
            && forall other :: Applies(mac, key, p, b, now, other) ==> Precedence(report) <= Precedence(other)
  {
    var given := VerifyPermit(mac, key, p, b, now);
    assert Applies(mac, key, p, b, now, given);
    assert forall other :: Applies(mac, key, p, b, now, other) ==> Precedence(given) <= Precedence(other);
  }

  function BindingsOf(g: Grant): Bindings {
    Bindings(g.tenantId, g.organizationId, g.workspaceId, g.actorId, g.action, g.resource, g.contextHash)
  }

  lemma DigestIsNonBlank(s: string)
    requires DigestText(s)
    ensures NonBlank(s) && Lower(s) == s
  {
    assert LowerHexDigit(s[0]);
    assert !Whitespace(s[0]);
  }

  /** Issue, then verify: the permit passes exactly when its fields are filled in, it is unexpired, and
      it is presented under the bindings it was issued for. */
  lemma IssuedVerifiesIff(mac: Mac, key: SigningKey, g: Grant, permitId: Id, nonce: Id, b: Bindings, now: int)
    requires ProducesDigests(mac) && UsableKey(key)
    ensures VerifyPermit(mac, key, IssuePermit(mac, key, g, permitId, nonce), b, now) == PermitOk <==>
            && NonBlank(permitId) && NonBlank(nonce) && WellFormedGrant(g)
            && now < g.expiresAt && b == BindingsOf(g)
  {
    var p := IssuePermit(mac, key, g, permitId, nonce);
    DigestIsNonBlank(mac(key.secret, p.claims));
    SafeEqualIff(p.integrity, p.integrity);
  }

  /** Presented under its own bindings an issued permit can only be incomplete or expired. */
  lemma IssuedFailsOnlyAs(mac: Mac, key: SigningKey, g: Grant, permitId: Id, nonce: Id, now: int)
    requires ProducesDigests(mac) && UsableKey(key)
    ensures VerifyPermit(mac, key, IssuePermit(mac, key, g, permitId, nonce), BindingsOf(g), now)
            in {PermitOk, PermitMalformed, PermitExpired}
  {
  }

  /** The markers accepted for some claims are the digest and its respellings in capitals. */
  lemma AcceptedMarkers(mac: Mac, key: SigningKey, p: SignedPermit)
    requires ProducesDigests(mac) && WellFormed(p) && p.claims.keyId == key.keyId
    ensures VerifyIntegrity(mac, key, p) <==> Lower(p.integrity) == mac(key.secret, p.claims)
  {
    SafeEqualIff(mac(key.secret, p.claims), p.integrity);
  }

  /** Two accepted permits have markers that agree up to letter case exactly when the digests of their
      claims agree; so unless those two claims collide, a marker vouches for one set of claims. */
  lemma MarkerFixesClaims(mac: Mac, key: SigningKey, p: SignedPermit, q: SignedPermit)
    requires ProducesDigests(mac)
    requires VerifyIntegrity(mac, key, p) && VerifyIntegrity(mac, key, q)
    ensures Lower(p.integrity) == Lower(q.integrity) <==> mac(key.secret, p.claims) == mac(key.secret, q.claims)
    ensures p.claims == q.claims ==> Lower(p.integrity) == Lower(q.integrity)
    ensures Lower(p.integrity) == Lower(q.integrity) && p.claims != q.claims ==> Collide(mac, key.secret, p.claims, q.claims)
  {
    AcceptedMarkers(mac, key, p);
    AcceptedMarkers(mac, key, q);
  }

  /** Two different sets of claims with one digest. */
  predicate Collide(mac: Mac, secret: string, c: Claims, d: Claims) {
    c != d && mac(secret, c) == mac(secret, d)
  }

  /** An issued permit whose claims are replaced under its marker is refused as malformed or for its
      integrity, exactly unless the new claims are complete, name the same key and collide with the old. */
  lemma TamperedPermitIsRefused(mac: Mac, key: SigningKey, g: Grant, permitId: Id, nonce: Id, claims: Claims, b: Bindings, now: int)
    requires ProducesDigests(mac) && claims != ClaimsFor(key, g, permitId, nonce)
    ensures var p := IssuePermit(mac, key, g, permitId, nonce).(claims := claims);
      VerifyPermit(mac, key, p, b, now) in {PermitMalformed, PermitIntegrityInvalid} <==>
      !(WellFormed(p) && claims.keyId == key.keyId && Collide(mac, key.secret, claims, ClaimsFor(key, g, permitId, nonce)))
  {
    var p := IssuePermit(mac, key, g, permitId, nonce).(claims := claims);
    DigestIsNonBlank(p.integrity);
    if WellFormed(p) && claims.keyId == key.keyId {
      AcceptedMarkers(mac, key, p);
    }
  }

  // ---- respelled markers --------------------------------------------------------------------------------

  /** A marker respelled in capitals verifies as well. */
  lemma CapitalMarkerVerifies()
    returns (mac: Mac, key: SigningKey, p: SignedPermit, q: SignedPermit)
    ensures ProducesDigests(mac) && VerifyIntegrity(mac, key, p) && VerifyIntegrity(mac, key, q)
    ensures p.claims == q.claims && p.integrity != q.integrity
  {
    var small, capital: string := seq(DIGEST_LENGTH, _ => 'a'), seq(DIGEST_LENGTH, _ => 'A');
    mac := (secret, claims) => small;
    key := SigningKey("k", "s");
    var g := Grant("x", "x", "x", "x", "x", "x", "x", "x", ResourceRef("x", "x"), 0, 1, "x", None,
                   RuntimeConstraints(1, [], false), "x");
    p := SignedPermit(Claims("x", "x", "k", g), ALGORITHM, small);
    q := p.(integrity := capital);
    assert DigestText(small);
    assert !Whitespace("x"[0]) && !Whitespace("k"[0]) && !Whitespace(small[0]) && !Whitespace(capital[0]);
    assert NonBlank("x") && NonBlank("k");
    assert Lower(capital) == small && Lower(small) == small;
    AcceptedMarkers(mac, key, p);
    AcceptedMarkers(mac, key, q);
    assert small[0] != capital[0];
  }

  // ---- the execution context ----------------------------------------------------------------------------

  datatype AuthenticationLevel = NoAuthentication | Aal1 | Aal2 | Aal3

  datatype PipelineRiskLevel = LowRisk | MediumRisk | HighRisk | CriticalRisk

  /** The fields the context hash covers. */
  datatype SecurityFields = SecurityFields(
    requestId: Id, actorId: Id, actorType: string, tenantId: Id, organizationId: Id, workspaceId: Id, sessionId: Id,
    authenticationLevel: AuthenticationLevel, requestedAction: string, resource: ResourceRef, riskLevel: PipelineRiskLevel)

  datatype ExecutionContext = ExecutionContext(
    security: SecurityFields, correlationId: Id, causationId: Option<Id>, timestamp: int, trace: map<string, string>)

  /** The digest of the canonical security fields. */
  type ContextDigest = SecurityFields -> string

  function ContextBindings(digest: ContextDigest, c: ExecutionContext): Bindings {
    var s := c.security;
    Bindings(s.tenantId, s.organizationId, s.workspaceId, s.actorId, s.requestedAction, s.resource, digest(s))
  }

  function GrantFor(digest: ContextDigest, c: ExecutionContext, expiresAt: int, decisionId: Id, approval: Option<Id>,
                    constraints: RuntimeConstraints): Grant {
    var s := c.security;
    Grant(s.requestId, c.correlationId, s.actorId, s.actorType, s.tenantId, s.organizationId, s.workspaceId,
          s.requestedAction, s.resource, c.timestamp, expiresAt, decisionId, approval, constraints, digest(s))
  }

  /** A permit issued for one context and verified under another passes exactly when the bound fields
      and the context digest agree. So unless the two contexts collide it passes exactly when no security
      field changed; correlation, causation, time and trace are not covered. */
  lemma MutationDetectedIff(mac: Mac, key: SigningKey, digest: ContextDigest, issued: ExecutionContext, presented: ExecutionContext,
                            expiresAt: int, decisionId: Id, approval: Option<Id>, constraints: RuntimeConstraints,
                            permitId: Id, nonce: Id, now: int)
    requires ProducesDigests(mac) && UsableKey(key)
    requires NonBlank(permitId) && NonBlank(nonce) && now < expiresAt
    requires WellFormedGrant(GrantFor(digest, issued, expiresAt, decisionId, approval, constraints))
    ensures var p := IssuePermit(mac, key, GrantFor(digest, issued, expiresAt, decisionId, approval, constraints), permitId, nonce);
      var ok := VerifyPermit(mac, key, p, ContextBindings(digest, presented), now) == PermitOk;
      && (ok <==> ContextBindings(digest, issued) == ContextBindings(digest, presented))
      && (ok <==> issued.security == presented.security || ContextsCollide(digest, issued.security, presented.security))
  {
    IssuedVerifiesIff(mac, key, GrantFor(digest, issued, expiresAt, decisionId, approval, constraints), permitId, nonce,
                      ContextBindings(digest, presented), now);
  }

  /** Different security fields that agree in everything bound and in their digest. */
  predicate ContextsCollide(digest: ContextDigest, s: SecurityFields, t: SecurityFields) {
    && s != t && digest(s) == digest(t)
    && s.tenantId == t.tenantId && s.organizationId == t.organizationId && s.workspaceId == t.workspaceId
    && s.actorId == t.actorId && s.requestedAction == t.requestedAction && s.resource == t.resource
  }
}

/** packages/pipeline/src/replay-protection.ts: one-time claims of permits. */
module ReplayProtection {
  import opened Base

  datatype ReplayKey = ReplayKey(permitId: Id, nonce: Id, tenantId: Id, workspaceId: Id, actorId: Id, action: string)

  predicate CompleteKey(k: ReplayKey) {
    && NonBlank(k.permitId) && NonBlank(k.nonce) && NonBlank(k.tenantId)
    && NonBlank(k.workspaceId) && NonBlank(k.actorId) && NonBlank(k.action)
  }

  datatype ClaimResult = CLAIMED | REPLAYED(sameBinding: bool) | REJECTED

  type ClaimStore = map<Id, ReplayKey>

  function ClaimStatus(s: ClaimStore, k: ReplayKey, expiresAt: int, now: int): ClaimResult {
    if !CompleteKey(k) || expiresAt <= now then REJECTED
    else if k.permitId in s then REPLAYED(s[k.permitId] == k)
    else CLAIMED
  }

  function AfterClaim(s: ClaimStore, k: ReplayKey, expiresAt: int, now: int): ClaimStore {
    if ClaimStatus(s, k, expiresAt, now) == CLAIMED then s[k.permitId := k] else s
  }

  /** The in-memory store; a distributed one is bound to the same atomic claim and differs in `testOnly`. */
  class PermitReplayStore {
    const testOnly: bool
    var claims: ClaimStore

    constructor (testOnly: bool)
      ensures claims == map[] && this.testOnly == testOnly
    {
      this.testOnly := testOnly;
      claims := map[];
    }

    /** A claim succeeds at most once per permit id: afterwards no key with that id is claimed again,
        whatever the times, and the first key stays the one on record. */
    method Claim(k: ReplayKey, expiresAt: int, now: int) returns (r: ClaimResult)
      modifies this`claims
      ensures r == ClaimStatus(old(claims), k, expiresAt, now)
      ensures r == REJECTED <==>
        || !NonBlank(k.permitId) || !NonBlank(k.nonce) || !NonBlank(k.tenantId) || !NonBlank(k.workspaceId)
        || !NonBlank(k.actorId) || !NonBlank(k.action) || expiresAt <= now
      ensures r.REPLAYED? <==> r != REJECTED && k.permitId in old(claims)
      ensures claims == AfterClaim(old(claims), k, expiresAt, now)
      ensures r == CLAIMED ==> forall again: ReplayKey, expiry, later :: again.permitId == k.permitId ==>
        ClaimStatus(claims, again, expiry, later) in {REPLAYED(again == k), REJECTED}
    {
      if !CompleteKey(k) {
        return REJECTED;
      }
      if expiresAt <= now {
        return REJECTED;
      }
      if k.permitId in claims {
        return REPLAYED(claims[k.permitId] == k);
      }
      claims := claims[k.permitId := k];
      return CLAIMED;
    }
  }

  function ClaimAll(s: ClaimStore, attempts: seq<(ReplayKey, int, int)>): ClaimStore {
    if attempts == [] then s
    else
      var n := |attempts| - 1;
      var a := attempts[n];
      AfterClaim(ClaimAll(s, attempts[..n]), a.0, a.1, a.2)
  }

  /** Over every sequence of attempts, a recorded claim is never changed or dropped. */
  lemma {:induction false} ClaimsAreFinal(s: ClaimStore, attempts: seq<(ReplayKey, int, int)>, id: Id)
    requires id in s
    ensures id in ClaimAll(s, attempts) && ClaimAll(s, attempts)[id] == s[id]
  {
    if attempts != [] {
      ClaimsAreFinal(s, attempts[..|attempts| - 1], id);
    }
  }
}

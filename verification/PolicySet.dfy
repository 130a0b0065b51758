/** packages/governance/src/policy.ts: deny-wins evaluation of a policy set, conflict detection
    and policy validation. */
module PolicySet {
  import opened Base
  import opened Condition

  datatype Effect = Allow | Deny

  datatype PolicyStatus = Draft | Active | Revoked | Expired

  /** No list stands for "*". */
  datatype Target = Target(actions: Option<seq<string>>, resourceTypes: Option<seq<string>>)

  datatype Rule = Rule(ruleId: string, effect: Effect, target: Target, condition: Condition, priority: int)

  datatype Policy = Policy(policyId: string, version: int, status: PolicyStatus, tenantId: Id, workspaceId: Id,
                           rules: seq<Rule>, signatureRef: Option<string>, expiresAt: Option<int>)

  datatype Context = Context(tenantId: Id, workspaceId: Id, action: string, resourceType: string,
                             attributes: Bag, production: bool, now: int)

  datatype Status = ALLOW | DENY | POLICY_CONFLICT | NO_MATCH_DENY | MALFORMED

  datatype Usability = Usable | TenantMismatch | IsRevoked | UnsignedInactive | IsExpired

  datatype Ref = Ref(policyId: string, version: int, ruleId: string)

  datatype Result = Result(status: Status, matched: seq<Ref>, conflicting: seq<Ref>)

  const UNSAFE_KEYS: set<string> := {"__proto__", "prototype", "constructor"}

  predicate HasUnsafeKeys(bag: Bag) {
    exists k :: k in bag && k in UNSAFE_KEYS
  }

  predicate Listed(names: Option<seq<string>>, name: string) {
    names.None? || name in names.value
  }

  predicate TargetMatches(t: Target, ctx: Context) {
    Listed(t.actions, ctx.action) && Listed(t.resourceTypes, ctx.resourceType)
  }

  function PolicyUsable(p: Policy, ctx: Context): Usability {
    if p.tenantId != ctx.tenantId || p.workspaceId != ctx.workspaceId then TenantMismatch
    else if p.status == Revoked then IsRevoked
    else if p.status == Draft then UnsignedInactive
    else if p.expiresAt.Some? && p.expiresAt.value <= ctx.now then IsExpired
    else if ctx.production && !Signed(p) then UnsignedInactive
    else Usable
  }

  predicate Signed(p: Policy) {
    p.signatureRef.Some? && NonBlank(p.signatureRef.value)
  }

  /** A status of "expired" does not by itself disable a policy: in its own tenant and workspace such a
      policy is used exactly until its expiry time, and in production exactly if it is signed besides. */
  lemma ExpiredStatusAloneIsUsable(p: Policy, ctx: Context)
    requires p.tenantId == ctx.tenantId && p.workspaceId == ctx.workspaceId
    ensures PolicyUsable(p.(status := Expired), ctx) == Usable <==>
            (p.expiresAt.Some? ==> ctx.now < p.expiresAt.value) && (ctx.production ==> Signed(p))
    ensures PolicyUsable(p.(status := Expired), ctx) == PolicyUsable(p.(status := Active), ctx)
  {
  }

  /** Why a policy is not used: the first of these that applies. */
  lemma UsabilityIs(p: Policy, ctx: Context)
    ensures var u := PolicyUsable(p, ctx);
      var own := p.tenantId == ctx.tenantId && p.workspaceId == ctx.workspaceId;
      var current := own && (p.status.Active? || p.status.Expired?);
      var expired := p.expiresAt.Some? && !(ctx.now < p.expiresAt.value);
      && (u == TenantMismatch <==> !own)
      && (u == IsRevoked <==> own && p.status.Revoked?)
      && (u == IsExpired <==> current && expired)
      && (u == UnsignedInactive <==> (own && p.status.Draft?) || (current && !expired && ctx.production && !Signed(p)))
  {
  }

  // ---- what counts as applicable -------------------------------------------------------------

  predicate InScope(p: Policy, r: Rule, ctx: Context) {
    PolicyUsable(p, ctx) == Usable && TargetMatches(r.target, ctx)
  }

  function Answer(r: Rule, ctx: Context): Tri {
    Eval(r.condition, ctx.attributes, 0)
  }

  predicate Denies(p: Policy, r: Rule, ctx: Context) {
    InScope(p, r, ctx) && r.effect == Deny && Answer(r, ctx) != False
  }

  predicate Allows(p: Policy, r: Rule, ctx: Context) {
    InScope(p, r, ctx) && r.effect == Allow && Answer(r, ctx) == True
  }

  predicate Holds(p: Policy, r: Rule, ctx: Context) {
    InScope(p, r, ctx) && Answer(r, ctx) == True
  }

  ghost predicate SomeDenies(policies: seq<Policy>, ctx: Context) {
    exists p, r :: p in policies && r in p.rules && Denies(p, r, ctx)
  }

  ghost predicate SomeAllows(policies: seq<Policy>, ctx: Context) {
    exists p, r :: p in policies && r in p.rules && Allows(p, r, ctx)
  }

  /** Some of the rules definitely holds, with this priority and effect. */
  ghost predicate EffectIn(p: Policy, rules: seq<Rule>, ctx: Context, n: int, e: Effect) {
    exists r :: r in rules && Holds(p, r, ctx) && r.priority == n && r.effect == e
  }

  ghost predicate EffectAt(policies: seq<Policy>, ctx: Context, n: int, e: Effect) {
    exists p :: p in policies && EffectIn(p, p.rules, ctx, n, e)
  }

  /** Rules of opposite effect definitely hold at one priority. */
  ghost predicate Conflict(policies: seq<Policy>, ctx: Context) {
    exists n :: EffectAt(policies, ctx, n, Allow) && EffectAt(policies, ctx, n, Deny)
  }

  ghost function StatusOf(policies: seq<Policy>, ctx: Context): Status {
    if HasUnsafeKeys(ctx.attributes) then MALFORMED
    else if SomeDenies(policies, ctx) then DENY
    else if SomeAllows(policies, ctx) then ALLOW
    else NO_MATCH_DENY
  }

  ghost function ConflictStatusOf(policies: seq<Policy>, ctx: Context): Status {
    if Conflict(policies, ctx) then POLICY_CONFLICT else StatusOf(policies, ctx)
  }

  // ---- the references reported --------------------------------------------------------------

  type RuleTest = (Policy, Rule) -> bool

  function DenyTest(ctx: Context): RuleTest { (p, r) => Denies(p, r, ctx) }
  function AllowTest(ctx: Context): RuleTest { (p, r) => Allows(p, r, ctx) }
  function HoldTest(ctx: Context): RuleTest { (p, r) => Holds(p, r, ctx) }

  function RefOf(p: Policy, r: Rule): Ref {
    Ref(p.policyId, p.version, r.ruleId)
  }

  /** References to the rules of one policy that pass the test, in rule order. */
  function RuleRefs(test: RuleTest, p: Policy, rules: seq<Rule>): seq<Ref> {
    if rules == [] then []
    else
      var n := |rules| - 1;
      RuleRefs(test, p, rules[..n]) + if test(p, rules[n]) then [RefOf(p, rules[n])] else []
  }

  function PolicyRefs(test: RuleTest, policies: seq<Policy>): seq<Ref> {
    if policies == [] then []
    else
      var n := |policies| - 1;
      PolicyRefs(test, policies[..n]) + RuleRefs(test, policies[n], policies[n].rules)
  }

  lemma RuleRefsSnoc(test: RuleTest, p: Policy, rules: seq<Rule>, r: Rule)
    ensures RuleRefs(test, p, rules + [r]) == RuleRefs(test, p, rules) + if test(p, r) then [RefOf(p, r)] else []
  {
  }

  lemma PolicyRefsSnoc(test: RuleTest, policies: seq<Policy>, p: Policy)
    ensures PolicyRefs(test, policies + [p]) == PolicyRefs(test, policies) + RuleRefs(test, p, p.rules)
  {
  }

  lemma {:induction false} RuleRefsEmpty(test: RuleTest, p: Policy, rules: seq<Rule>)
    ensures RuleRefs(test, p, rules) != [] <==> exists r :: r in rules && test(p, r)
  {
    if rules != [] {
      var n := |rules| - 1;
      RuleRefsEmpty(test, p, rules[..n]);
      SplitAt(rules, n);
      WholePrefix(rules);
      assert forall r :: r in rules <==> r in rules[..n] || r == rules[n];
    }
  }

  lemma {:induction false} PolicyRefsEmpty(test: RuleTest, policies: seq<Policy>)
    ensures PolicyRefs(test, policies) != [] <==> exists p, r :: p in policies && r in p.rules && test(p, r)
  {
    if policies != [] {
      var n := |policies| - 1;
      PolicyRefsEmpty(test, policies[..n]);
      RuleRefsEmpty(test, policies[n], policies[n].rules);
      SplitAt(policies, n);
      WholePrefix(policies);
      assert forall p :: p in policies <==> p in policies[..n] || p == policies[n];
    }
  }

  // ---- the evaluators ----------------------------------------------------------------------------

  /** One policy's rules, added to the two lists. */
  method CollectRules(p: Policy, ctx: Context) returns (denies: seq<Ref>, allows: seq<Ref>)
    requires PolicyUsable(p, ctx) == Usable
    ensures denies == RuleRefs(DenyTest(ctx), p, p.rules)
    ensures allows == RuleRefs(AllowTest(ctx), p, p.rules)
  {
    denies, allows := [], [];
    for j := 0 to |p.rules|
      invariant denies == RuleRefs(DenyTest(ctx), p, p.rules[..j])
      invariant allows == RuleRefs(AllowTest(ctx), p, p.rules[..j])
    {
      var rule := p.rules[j];
      SplitAt(p.rules, j);
      RuleRefsSnoc(DenyTest(ctx), p, p.rules[..j], rule);
      RuleRefsSnoc(AllowTest(ctx), p, p.rules[..j], rule);
      if TargetMatches(rule.target, ctx) {
        var tri := EvaluateCondition(rule.condition, ctx.attributes, 0);
        if rule.effect == Deny {
          if tri == True || tri == Unknown { denies := denies + [RefOf(p, rule)]; }
        } else if tri == True {
          allows := allows + [RefOf(p, rule)];
        }
      }
    }
    WholePrefix(p.rules);
  }

  lemma {:induction false} UnusableHasNoRefs(p: Policy, ctx: Context, rules: seq<Rule>)
    requires PolicyUsable(p, ctx) != Usable
    ensures RuleRefs(DenyTest(ctx), p, rules) == [] && RuleRefs(AllowTest(ctx), p, rules) == []
    ensures RuleRefs(HoldTest(ctx), p, rules) == []
  {
    if rules != [] { UnusableHasNoRefs(p, ctx, rules[..|rules| - 1]); }
  }

  method EvaluatePolicySet(policies: seq<Policy>, ctx: Context) returns (r: Result)
    ensures r.status == StatusOf(policies, ctx)
    ensures r.status == DENY ==> r.matched == PolicyRefs(DenyTest(ctx), policies)
    ensures r.status == ALLOW ==> r.matched == PolicyRefs(AllowTest(ctx), policies)
    ensures r.status != DENY && r.status != ALLOW ==> r.matched == []
    ensures r.conflicting == []
  {
    if HasUnsafeKeys(ctx.attributes) {
      return Result(MALFORMED, [], []);
    }
    var denies, allows := [], [];
    for i := 0 to |policies|
      invariant denies == PolicyRefs(DenyTest(ctx), policies[..i])
      invariant allows == PolicyRefs(AllowTest(ctx), policies[..i])
    {
      var p := policies[i];
      SplitAt(policies, i);
      PolicyRefsSnoc(DenyTest(ctx), policies[..i], p);
      PolicyRefsSnoc(AllowTest(ctx), policies[..i], p);
      if PolicyUsable(p, ctx) != Usable {
        UnusableHasNoRefs(p, ctx, p.rules);
      } else {
        var ds, as_ := CollectRules(p, ctx);
        denies, allows := denies + ds, allows + as_;
      }
    }
    WholePrefix(policies);
    RefsDecide(policies, ctx);
    if |denies| > 0 {
      r := Result(DENY, denies, []);
    } else if |allows| == 0 {
      r := Result(NO_MATCH_DENY, [], []);
    } else {
      r := Result(ALLOW, allows, []);
    }
  }

  lemma RefsDecide(policies: seq<Policy>, ctx: Context)
    ensures PolicyRefs(DenyTest(ctx), policies) != [] <==> SomeDenies(policies, ctx)
    ensures PolicyRefs(AllowTest(ctx), policies) != [] <==> SomeAllows(policies, ctx)
  {
    PolicyRefsEmpty(DenyTest(ctx), policies);
    PolicyRefsEmpty(AllowTest(ctx), policies);
    assert forall p, r :: DenyTest(ctx)(p, r) == Denies(p, r, ctx);
    assert forall p, r :: AllowTest(ctx)(p, r) == Allows(p, r, ctx);
  }

  type Effects = map<int, set<Effect>>

  predicate Recorded(byPriority: Effects, n: int, e: Effect) {
    n in byPriority && e in byPriority[n]
  }

  function Record(byPriority: Effects, n: int, e: Effect): (r: Effects)
    ensures forall m, f :: Recorded(r, m, f) <==> Recorded(byPriority, m, f) || (m == n && f == e)
  {
    byPriority[n := (if n in byPriority then byPriority[n] else {}) + {e}]
  }

  lemma EffectInSnoc(p: Policy, rules: seq<Rule>, r: Rule, ctx: Context, n: int, e: Effect)
    ensures EffectIn(p, rules + [r], ctx, n, e) <==>
            EffectIn(p, rules, ctx, n, e) || (Holds(p, r, ctx) && r.priority == n && r.effect == e)
  {
  }

  lemma EffectAtSnoc(policies: seq<Policy>, p: Policy, ctx: Context, n: int, e: Effect)
    ensures EffectAt(policies + [p], ctx, n, e) <==> EffectAt(policies, ctx, n, e) || EffectIn(p, p.rules, ctx, n, e)
  {
  }

  method RecordRules(p: Policy, ctx: Context, byPriority: Effects) returns (next: Effects, refs: seq<Ref>)
    requires PolicyUsable(p, ctx) == Usable
    ensures forall n, e :: Recorded(next, n, e) <==> Recorded(byPriority, n, e) || EffectIn(p, p.rules, ctx, n, e)
    ensures refs == RuleRefs(HoldTest(ctx), p, p.rules)
  {
    next, refs := byPriority, [];
    for j := 0 to |p.rules|
      invariant forall n, e :: Recorded(next, n, e) <==> Recorded(byPriority, n, e) || EffectIn(p, p.rules[..j], ctx, n, e)
      invariant refs == RuleRefs(HoldTest(ctx), p, p.rules[..j])
    {
      var rule := p.rules[j];
      SplitAt(p.rules, j);
      RuleRefsSnoc(HoldTest(ctx), p, p.rules[..j], rule);
      forall n, e { EffectInSnoc(p, p.rules[..j], rule, ctx, n, e); }
      if TargetMatches(rule.target, ctx) {
        var tri := EvaluateCondition(rule.condition, ctx.attributes, 0);
        if tri == True {
          next := Record(next, rule.priority, rule.effect);
          refs := refs + [RefOf(p, rule)];
        }
      }
    }
    WholePrefix(p.rules);
  }

  method DetectPolicyConflict(policies: seq<Policy>, ctx: Context) returns (r: Result)
    ensures r.status == ConflictStatusOf(policies, ctx)
    ensures r.status == POLICY_CONFLICT ==> r.matched == r.conflicting == PolicyRefs(HoldTest(ctx), policies)
  {
    var byPriority, refs := RecordPolicies(policies, ctx);
    assert forall n :: n in byPriority && Allow in byPriority[n] && Deny in byPriority[n] <==>
             Recorded(byPriority, n, Allow) && Recorded(byPriority, n, Deny);
    if exists n :: n in byPriority && Allow in byPriority[n] && Deny in byPriority[n] {
      return Result(POLICY_CONFLICT, refs, refs);
    }
    r := EvaluatePolicySet(policies, ctx);
  }

  method RecordPolicies(policies: seq<Policy>, ctx: Context) returns (byPriority: Effects, refs: seq<Ref>)
    ensures forall n, e :: Recorded(byPriority, n, e) <==> EffectAt(policies, ctx, n, e)
    ensures refs == PolicyRefs(HoldTest(ctx), policies)
  {
    byPriority, refs := map[], [];
    for i := 0 to |policies|
      invariant forall n, e :: Recorded(byPriority, n, e) <==> EffectAt(policies[..i], ctx, n, e)
      invariant refs == PolicyRefs(HoldTest(ctx), policies[..i])
    {
      var p := policies[i];
      SplitAt(policies, i);
      PolicyRefsSnoc(HoldTest(ctx), policies[..i], p);
      forall n, e { EffectAtSnoc(policies[..i], p, ctx, n, e); }
      if PolicyUsable(p, ctx) != Usable {
        UnusableHasNoRefs(p, ctx, p.rules);
        assert forall n, e :: !EffectIn(p, p.rules, ctx, n, e);
      } else {
        var next, more := RecordRules(p, ctx, byPriority);
        byPriority, refs := next, refs + more;
      }
    }
    WholePrefix(policies);
  }

  // ---- laws of the two evaluators -----------------------------------------------------------------

  function Header(p: Policy): Policy {
    p.(rules := [])
  }

  /** A policy set as a set of rules, each under the header of its policy. */
  ghost function Facts(policies: seq<Policy>): set<(Policy, Rule)> {
    set p, r | p in policies && r in p.rules :: (Header(p), r)
  }

  /** The policy cannot have a say: it is of another tenant or workspace, revoked, a draft, past its expiry, or
      unsigned in production. */
  predicate Silent(p: Policy, ctx: Context) {
    || p.tenantId != ctx.tenantId || p.workspaceId != ctx.workspaceId
    || p.status == Revoked || p.status == Draft
    || (p.expiresAt.Some? && p.expiresAt.value <= ctx.now)
    || (ctx.production && (p.signatureRef.None? || !NonBlank(p.signatureRef.value)))
  }

  /** The rule is not about this request: its target leaves out the action or the resource type. */
  predicate OffTarget(r: Rule, ctx: Context) {
    || (r.target.actions.Some? && ctx.action !in r.target.actions.value)
    || (r.target.resourceTypes.Some? && ctx.resourceType !in r.target.resourceTypes.value)
  }

  lemma ScopeIff(p: Policy, r: Rule, ctx: Context)
    ensures InScope(p, r, ctx) <==> !Silent(p, ctx) && !OffTarget(r, ctx)
  {
  }

  /** Each rule that may have a say in the first set is in the second, under the same header. */
  ghost predicate Covered(policies: seq<Policy>, others: seq<Policy>, ctx: Context) {
    forall p, r :: p in policies && r in p.rules ==>
      Silent(p, ctx) || OffTarget(r, ctx) || exists q :: q in others && r in q.rules && Header(q) == Header(p)
  }

  /** The rule in the other set, under the same header. */
  lemma Counterpart(policies: seq<Policy>, others: seq<Policy>, ctx: Context, p: Policy, r: Rule) returns (q: Policy)
    requires Covered(policies, others, ctx) && p in policies && r in p.rules && InScope(p, r, ctx)
    ensures q in others && r in q.rules && InScope(q, r, ctx)
  {
    ScopeIff(p, r, ctx);
    q :| q in others && r in q.rules && Header(q) == Header(p);
  }

  lemma CoveredInto(policies: seq<Policy>, others: seq<Policy>, ctx: Context)
    requires Covered(policies, others, ctx)
    ensures SomeDenies(policies, ctx) ==> SomeDenies(others, ctx)
    ensures SomeAllows(policies, ctx) ==> SomeAllows(others, ctx)
    ensures forall n, e :: EffectAt(policies, ctx, n, e) ==> EffectAt(others, ctx, n, e)
  {
    if SomeDenies(policies, ctx) {
      var p, r :| p in policies && r in p.rules && Denies(p, r, ctx);
      var q := Counterpart(policies, others, ctx, p, r);
      assert Denies(q, r, ctx);
    }
    if SomeAllows(policies, ctx) {
      var p, r :| p in policies && r in p.rules && Allows(p, r, ctx);
      var q := Counterpart(policies, others, ctx, p, r);
      assert Allows(q, r, ctx);
    }
    forall n, e | EffectAt(policies, ctx, n, e) ensures EffectAt(others, ctx, n, e) {
      var p :| p in policies && EffectIn(p, p.rules, ctx, n, e);
      var r :| r in p.rules && Holds(p, r, ctx) && r.priority == n && r.effect == e;
      var q := Counterpart(policies, others, ctx, p, r);
      assert Holds(q, r, ctx) && EffectIn(q, q.rules, ctx, n, e);
    }
  }

  /** Two sets that agree on every rule that may have a say get the same answers. */
  lemma OnlyRelevantRulesMatter(policies: seq<Policy>, others: seq<Policy>, ctx: Context)
    requires Covered(policies, others, ctx) && Covered(others, policies, ctx)
    ensures StatusOf(policies, ctx) == StatusOf(others, ctx)
    ensures ConflictStatusOf(policies, ctx) == ConflictStatusOf(others, ctx)
  {
    CoveredInto(policies, others, ctx);
    CoveredInto(others, policies, ctx);
  }

  /** Order, grouping and repetition of policies and rules do not matter to either status. */
  lemma StatusDependsOnFacts(policies: seq<Policy>, others: seq<Policy>, ctx: Context)
    requires Facts(policies) == Facts(others)
    ensures StatusOf(policies, ctx) == StatusOf(others, ctx)
    ensures ConflictStatusOf(policies, ctx) == ConflictStatusOf(others, ctx)
  {
    FactsCover(policies, others, ctx);
    FactsCover(others, policies, ctx);
    OnlyRelevantRulesMatter(policies, others, ctx);
  }

  lemma FactsCover(policies: seq<Policy>, others: seq<Policy>, ctx: Context)
    requires Facts(policies) <= Facts(others)
    ensures Covered(policies, others, ctx)
  {
    forall p, r | p in policies && r in p.rules ensures exists q :: q in others && r in q.rules && Header(q) == Header(p) {
      assert (Header(p), r) in Facts(policies);
      assert (Header(p), r) in Facts(others);
    }
  }

  /** Adding or removing a silent policy anywhere changes neither status: no tenant's policies govern another. */
  lemma SilentPolicyChangesNothing(before: seq<Policy>, p: Policy, after: seq<Policy>, ctx: Context)
    requires Silent(p, ctx)
    ensures StatusOf(before + [p] + after, ctx) == StatusOf(before + after, ctx)
    ensures ConflictStatusOf(before + [p] + after, ctx) == ConflictStatusOf(before + after, ctx)
  {
    var policies, others := before + [p] + after, before + after;
    assert forall q :: q in policies <==> q in others || q == p;
    OnlyRelevantRulesMatter(policies, others, ctx);
  }

  /** Adding or removing a rule that is off target anywhere in a policy changes neither status. */
  lemma OffTargetRuleChangesNothing(before: seq<Policy>, p: Policy, rules: seq<Rule>, r: Rule, more: seq<Rule>, after: seq<Policy>, ctx: Context)
    requires OffTarget(r, ctx)
    ensures var policies, others := before + [p.(rules := rules + [r] + more)] + after, before + [p.(rules := rules + more)] + after;
      && StatusOf(policies, ctx) == StatusOf(others, ctx)
      && ConflictStatusOf(policies, ctx) == ConflictStatusOf(others, ctx)
  {
    var long, short := p.(rules := rules + [r] + more), p.(rules := rules + more);
    var policies, others := before + [long] + after, before + [short] + after;
    assert forall q :: q in policies <==> q in before || q in after || q == long;
    assert forall q :: q in others <==> q in before || q in after || q == short;
    assert forall s :: s in long.rules <==> s in short.rules || s == r;
    assert Header(long) == Header(short);
    OnlyRelevantRulesMatter(policies, others, ctx);
  }

  /** An allowed request has a rule that allows it: in a policy that is not silent, on target, with a condition
      that definitely holds; and no such rule denies it, not even one whose condition is unknown. */
  lemma AllowNeedsItsOwnRule(policies: seq<Policy>, ctx: Context)
    ensures StatusOf(policies, ctx) == ALLOW <==>
            && ctx.attributes.Keys !! {"__proto__", "prototype", "constructor"}
            && (exists p, r :: p in policies && r in p.rules && !Silent(p, ctx) && !OffTarget(r, ctx) && r.effect == Allow && Answer(r, ctx) == True)
            && (forall p, r :: p in policies && r in p.rules && !Silent(p, ctx) && !OffTarget(r, ctx) && r.effect == Deny ==> Answer(r, ctx) == False)
  {
    forall p, r ensures InScope(p, r, ctx) <==> !Silent(p, ctx) && !OffTarget(r, ctx) {
      ScopeIff(p, r, ctx);
    }
    assert HasUnsafeKeys(ctx.attributes) <==> !(ctx.attributes.Keys !! {"__proto__", "prototype", "constructor"});
    if SomeAllows(policies, ctx) {
      var p, r :| p in policies && r in p.rules && Allows(p, r, ctx);
      assert p in policies && r in p.rules && !Silent(p, ctx) && !OffTarget(r, ctx);
    }
    if p, r :| p in policies && r in p.rules && !Silent(p, ctx) && !OffTarget(r, ctx) && r.effect == Allow && Answer(r, ctx) == True {
      assert Allows(p, r, ctx);
    }
    forall p, r | p in policies && r in p.rules && !Silent(p, ctx) && !OffTarget(r, ctx) && r.effect == Deny && Answer(r, ctx) != False
      ensures SomeDenies(policies, ctx)
    {
      assert Denies(p, r, ctx);
    }
  }

  /** Conflict detection differs only where evaluation already refuses, so both allow the same inputs. */
  lemma ConflictNeverHidesAnAllow(policies: seq<Policy>, ctx: Context)
    ensures ConflictStatusOf(policies, ctx) == POLICY_CONFLICT ==>
            StatusOf(policies, ctx) == DENY || StatusOf(policies, ctx) == MALFORMED
    ensures ConflictStatusOf(policies, ctx) != POLICY_CONFLICT ==> ConflictStatusOf(policies, ctx) == StatusOf(policies, ctx)
    ensures ConflictStatusOf(policies, ctx) == ALLOW <==> StatusOf(policies, ctx) == ALLOW
  {
  }

  /** Conflict detection does not look at key safety first: a bag that evaluation calls malformed
      can be reported as a conflict. */
  lemma ConflictIgnoresUnsafeKeys(ctx: Context)
    requires HasUnsafeKeys(ctx.attributes) && !ctx.production
    ensures exists policies :: StatusOf(policies, ctx) == MALFORMED && ConflictStatusOf(policies, ctx) == POLICY_CONFLICT
  {
    var any := Target(None, None);
    var yes, no := Rule("a", Allow, any, Always, 0), Rule("d", Deny, any, Always, 0);
    var p := Policy("p", 1, Active, ctx.tenantId, ctx.workspaceId, [yes, no], None, None);
    assert p in [p] && yes in p.rules && no in p.rules;
    assert Holds(p, yes, ctx) && Holds(p, no, ctx);
    assert EffectIn(p, p.rules, ctx, 0, Allow) && EffectIn(p, p.rules, ctx, 0, Deny);
    assert EffectAt([p], ctx, 0, Allow) && EffectAt([p], ctx, 0, Deny);
    assert StatusOf([p], ctx) == MALFORMED && ConflictStatusOf([p], ctx) == POLICY_CONFLICT;
  }

  // ---- what more attributes can do -----------------------------------------------------------------

  /** An allowed request stays allowed when `ext` is known instead of `bag`. */
  ghost predicate AllowPersists(policies: seq<Policy>, ctx: Context, bag: Bag, ext: Bag) {
    StatusOf(policies, ctx.(attributes := bag)) == ALLOW ==> StatusOf(policies, ctx.(attributes := ext)) == ALLOW
  }

  lemma AllowSurvives(policies: seq<Policy>, ctx: Context, bag: Bag, ext: Bag)
    requires AddsOwnNamesOnly(bag, ext) && !HasUnsafeKeys(ext)
    ensures AllowPersists(policies, ctx, bag, ext)
  {
    var small, large := ctx.(attributes := bag), ctx.(attributes := ext);
    if StatusOf(policies, small) == ALLOW {
      forall p, r | p in policies && r in p.rules && Denies(p, r, large) ensures Denies(p, r, small) {
        DefiniteAnswersPersist(r.condition, bag, ext, 0);
      }
      var p, r :| p in policies && r in p.rules && Allows(p, r, small);
      DefiniteAnswersPersist(r.condition, bag, ext, 0);
      assert Allows(p, r, large);
    }
  }

  /** A set with one policy whose only rule allows under `c`. */
  function AllowWhen(ctx: Context, c: Condition): seq<Policy> {
    [Policy("p", 1, Active, ctx.tenantId, ctx.workspaceId,
            [Rule("r", Allow, Target(None, None), c, 0)], None, None)]
  }

  lemma AllowWhenStatus(ctx: Context, c: Condition)
    requires !ctx.production && !HasUnsafeKeys(ctx.attributes)
    ensures StatusOf(AllowWhen(ctx, c), ctx) == ALLOW <==> Eval(c, ctx.attributes, 0) == True
  {
    var p := AllowWhen(ctx, c)[0];
    var r := p.rules[0];
    assert forall q :: q in AllowWhen(ctx, c) ==> q == p;
    assert forall s :: s in p.rules ==> s == r;
    assert p in AllowWhen(ctx, c) && r in p.rules;
    assert Allows(p, r, ctx) <==> Eval(c, ctx.attributes, 0) == True;
  }

  /** Exactly which completions of a bag keep every allowed request allowed: those that add neither
      an unsafe key nor a name the plain object already answered by inheritance. */
  lemma AllowPersistsIff(bag: Bag, ext: Bag)
    requires Extends(bag, ext) && !HasUnsafeKeys(bag)
    ensures (forall policies, ctx :: AllowPersists(policies, ctx, bag, ext)) <==>
            AddsOwnNamesOnly(bag, ext) && !HasUnsafeKeys(ext)
  {
    if AddsOwnNamesOnly(bag, ext) && !HasUnsafeKeys(ext) {
      forall policies, ctx ensures AllowPersists(policies, ctx, bag, ext) {
        AllowSurvives(policies, ctx, bag, ext);
      }
    } else {
      var ctx := Context("t", "w", "a", "r", bag, false, 0);
      if HasUnsafeKeys(ext) {
        AllowWhenStatus(ctx, Always);
        assert ctx.(attributes := bag) == ctx;
        assert !AllowPersists(AllowWhen(ctx, Always), ctx, bag, ext);
      } else {
        var k :| k in ext && k !in bag && k in INHERITED_NAMES;
        var c := AttrNe(k, ext[k]);
        var large := ctx.(attributes := ext);
        assert AllowWhen(ctx, c) == AllowWhen(large, c);
        AllowWhenStatus(ctx, c);
        AllowWhenStatus(large, c);
        assert Eval(c, bag, 0) == True && Eval(c, ext, 0) == False;
        assert ctx.(attributes := bag) == ctx;
        assert !AllowPersists(AllowWhen(ctx, c), ctx, bag, ext);
      }
    }
  }

  /** A concrete loss: an absent "toString" reads as present, so supplying it revokes an ALLOW. */
  lemma InheritedNameRevokesAllow(ctx: Context, value: Attr)
    requires !ctx.production
    ensures var policies := AllowWhen(ctx, AttrNe("toString", value));
      && StatusOf(policies, ctx.(attributes := map[])) == ALLOW
      && StatusOf(policies, ctx.(attributes := map["toString" := value])) == NO_MATCH_DENY
  {
    var c := AttrNe("toString", value);
    var small, large := ctx.(attributes := map[]), ctx.(attributes := map["toString" := value]);
    assert AllowWhen(ctx, c) == AllowWhen(small, c) == AllowWhen(large, c);
    AllowWhenStatus(small, c);
    AllowWhenStatus(large, c);
    var p := AllowWhen(ctx, c)[0];
    assert forall q, r :: q in AllowWhen(ctx, c) && r in q.rules ==> r == p.rules[0];
    assert !SomeDenies(AllowWhen(ctx, c), large);
  }

  // ---- validation -------------------------------------------------------------------------------------

  datatype Verdict = PolicyValid | IdOrVersionInvalid | UnsafeConditionKeys | ConditionTooDeep

  /** The prototype-pollution screen over a condition as a plain object: its keys are safe, so only
      nesting beyond 64 levels of objects and arrays is reported. */
  predicate NestedTooFar(c: Condition, depth: nat) {
    || depth >= 64
    || match c
       case AttrIn(_, values) => depth >= 63 && |values| > 0
       case And(cs) => exists i :: 0 <= i < |cs| && NestedTooFar(cs[i], depth + 2)
       case Or(cs) => exists i :: 0 <= i < |cs| && NestedTooFar(cs[i], depth + 2)
       case Not(d) => NestedTooFar(d, depth + 1)
       case _ => false
  }

  /** A value as the screen sees it. */
  datatype Json = Plain | Items(items: seq<Json>) | Fields(fields: seq<Field>)
  datatype Field = Field(name: string, value: Json)

  /** The screen: unsafe keys, or more than 64 levels. */
  predicate Screened(j: Json, depth: nat)
    decreases j
  {
    || depth > 64
    || match j
       case Plain => false
       case Items(items) => exists i :: 0 <= i < |items| && Screened(items[i], depth + 1)
       case Fields(fields) =>
         exists i :: 0 <= i < |fields| && (fields[i].name in UNSAFE_KEYS || Screened(fields[i].value, depth + 1))
  }

  /** A condition as the plain object it is. */
  function AsJson(c: Condition): Json
    decreases c
  {
    var op := Field("op", Plain);
    match c
    case AttrIn(_, values) => Fields([op, Field("attr", Plain), Field("values", Items(seq(|values|, _ => Plain)))])
    case And(cs) => Fields([op, Field("conditions", Items(EachAsJson(c, cs)))])
    case Or(cs) => Fields([op, Field("conditions", Items(EachAsJson(c, cs)))])
    case Not(d) => Fields([op, Field("condition", AsJson(d))])
    case Always => Fields([op])
    case Unrecognised => Fields([op])
    case _ => Fields([op, Field("attr", Plain), Field("value", Plain)])
  }

  function EachAsJson(ghost parent: Condition, cs: seq<Condition>): (js: seq<Json>)
    requires forall i :: 0 <= i < |cs| ==> cs[i] < parent
    ensures |js| == |cs| && forall i :: 0 <= i < |cs| ==> js[i] == AsJson(cs[i])
    decreases parent, 0
  {
    seq(|cs|, i requires 0 <= i < |cs| => AsJson(cs[i]))
  }

  lemma SafeName(name: string)
    requires name in {"op", "attr", "values", "value", "conditions", "condition"}
    ensures name !in UNSAFE_KEYS
  {
  }

  lemma OneField(fields: seq<Field>, depth: nat)
    requires |fields| > 0 && fields[0] == Field("op", Plain)
    requires forall i :: 0 <= i < |fields| ==> fields[i].name in {"op", "attr", "values", "value", "conditions", "condition"}
    ensures Screened(Fields(fields), depth) <==> depth >= 64 || exists i :: 1 <= i < |fields| && Screened(fields[i].value, depth + 1)
  {
    forall i | 0 <= i < |fields| ensures fields[i].name !in UNSAFE_KEYS {
      SafeName(fields[i].name);
    }
    if depth >= 64 { assert Screened(fields[0].value, depth + 1); }
  }

  /** One more field beside the operator. */
  lemma TwoFields(name: string, value: Json, depth: nat)
    requires name in {"op", "attr", "values", "value", "conditions", "condition"}
    ensures Screened(Fields([Field("op", Plain), Field(name, value)]), depth) <==> depth >= 64 || Screened(value, depth + 1)
  {
    var fields := [Field("op", Plain), Field(name, value)];
    OneField(fields, depth);
    assert fields[1].value == value;
  }

  /** On a condition the screen reports exactly that it is nested too far. */
  lemma {:induction false} ScreenMeansNesting(c: Condition, depth: nat)
    ensures Screened(AsJson(c), depth) <==> NestedTooFar(c, depth)
    decreases c
  {
    match c
    case And(cs) => NestedList(c, cs, depth);
    case Or(cs) => NestedList(c, cs, depth);
    case Not(d) =>
      TwoFields("condition", AsJson(d), depth);
      ScreenMeansNesting(d, depth + 1);
    case AttrIn(_, values) => NestedValues(c, |values|, depth);
    case _ => OneField(AsJson(c).fields, depth);
  }

  lemma NestedValues(c: Condition, n: nat, depth: nat)
    requires c.AttrIn? && |c.values| == n
    ensures Screened(AsJson(c), depth) <==> depth >= 64 || (depth >= 63 && n > 0)
  {
    var fields, items := AsJson(c).fields, seq(n, _ => Plain);
    OneField(fields, depth);
    assert fields[1].value == Plain && fields[2].value == Items(items);
    assert Screened(Items(items), depth + 1) <==> depth + 1 > 64 || (n > 0 && depth + 2 > 64) by {
      if n > 0 { assert Screened(items[0], depth + 2) <==> depth + 2 > 64; }
    }
  }

  lemma {:induction false} NestedList(c: Condition, cs: seq<Condition>, depth: nat)
    requires forall i :: 0 <= i < |cs| ==> cs[i] < c
    ensures Screened(Fields([Field("op", Plain), Field("conditions", Items(EachAsJson(c, cs)))]), depth) <==>
            depth >= 64 || exists i :: 0 <= i < |cs| && NestedTooFar(cs[i], depth + 2)
    decreases c, 0
  {
    var items := EachAsJson(c, cs);
    forall i | 0 <= i < |cs| ensures Screened(items[i], depth + 2) <==> NestedTooFar(cs[i], depth + 2) {
      ScreenMeansNesting(cs[i], depth + 2);
    }
    TwoFields("conditions", Items(items), depth);
  }

  predicate Sound(r: Rule) {
    !NestedTooFar(r.condition, 0) && Depth(r.condition) <= MAX_CONDITION_DEPTH
  }

  ghost predicate FirstUnsound(rules: seq<Rule>, i: nat) {
    i < |rules| && !Sound(rules[i]) && forall k :: 0 <= k < i ==> Sound(rules[k])
  }

  /** The verdict names what is wrong with the first rule that is not sound. */
  method ValidatePolicy(p: Policy) returns (v: Verdict)
    ensures v == IdOrVersionInvalid <==> !NonBlank(p.policyId) || p.version < 1
    ensures v == PolicyValid <==> NonBlank(p.policyId) && p.version >= 1 && forall r :: r in p.rules ==> Sound(r)
    ensures v == UnsafeConditionKeys ==> exists i: nat :: FirstUnsound(p.rules, i) && NestedTooFar(p.rules[i].condition, 0)
    ensures v == ConditionTooDeep ==> exists i: nat :: FirstUnsound(p.rules, i) && !NestedTooFar(p.rules[i].condition, 0)
  {
    if !NonBlank(p.policyId) || p.version < 1 {
      return IdOrVersionInvalid;
    }
    for i := 0 to |p.rules|
      invariant forall k :: 0 <= k < i ==> Sound(p.rules[k])
    {
      var c := p.rules[i].condition;
      ConditionDepthIs(c, 0);
      if NestedTooFar(c, 0) {
        assert FirstUnsound(p.rules, i);
        return UnsafeConditionKeys;
      }
      if ConditionDepth(c, 0) > MAX_CONDITION_DEPTH {
        assert FirstUnsound(p.rules, i);
        return ConditionTooDeep;
      }
    }
    return PolicyValid;
  }

  /** On a validated policy the bounded evaluator is the unbounded meaning, whatever is known. */
  lemma ValidatedPoliciesAreExact(p: Policy, r: Rule, ctx: Context)
    requires forall s :: s in p.rules ==> Sound(s)
    requires r in p.rules
    ensures Answer(r, ctx) == Meaning(r.condition, ctx.attributes)
  {
    BoundedAnswers(r.condition, ctx.attributes, 0);
  }
}

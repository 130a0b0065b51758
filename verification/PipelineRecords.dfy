/** packages/pipeline/src/pipeline.ts: what the audit records of overlapping runs say, and why. */
module PipelineRecords {
  import opened Base
  import opened ApprovalGate
  import opened FinalGate
  import opened GateRefusals
  import opened SecurePipeline
  import opened PipelineRuns

  /** The decisions with which the final gate refuses. */
  predicate GateStatus(s: DecisionStatus) {
    s == DENY || s == RETRY_REJECTED || s == CONTEXT_INVALID || s == RUNTIME_REJECTED
  }

  /** An executed run is recorded as allowed and verified, or as denied because verification failed. */
  predicate ExecutionRecorded(record: AuditRecord) {
    (record.decision == ALLOW && record.outcome == VERIFIED) || (record.decision == DENY && record.outcome == VERIFICATION_FAILED)
  }

  predicate GateTells(phase: Phase, now: int, record: AuditRecord) {
    match phase
    case Ended(_, refusal) =>
      && record.decision == refusal.status && record.timestamp == now
      && (GateStatus(refusal.status) ==> AuditedAs(record.decision, record.outcome))
    case Authorized(_, _) => ExecutionRecorded(record)
    case _ => false
  }

  /** The record says how the run's first segment halted, how the gate refused it, or how its execution went. */
  predicate Tells(p: Plan, calls: map<nat, Phase>, call: nat, a: Attempt, record: AuditRecord) {
    match p.prepare(a)
    case Halts(h) =>
      record.decision == h.decision && record.outcome == h.outcome && record.permit.None? && record.timestamp == a.now
    case Goes(_, x) => record.permit == Some(x.permit) && call in calls && GateTells(calls[call], a.now, record)
  }

  predicate EntryTells(p: Plan, calls: map<nat, Phase>, attempts: map<nat, Attempt>, e: Entry) {
    e.call in attempts && Tells(p, calls, e.call, attempts[e.call], e.record)
  }

  ghost predicate AllTell(p: Plan, calls: map<nat, Phase>, attempts: map<nat, Attempt>, audit: seq<Entry>) {
    forall i :: 0 <= i < |audit| ==> EntryTells(p, calls, attempts, audit[i])
  }

  // ---- every step keeps it -----------------------------------------------------------------------------------

  predicate Settled(calls: map<nat, Phase>, call: nat) {
    call in calls && (calls[call].Ended? || calls[call].Authorized?)
  }

  /** The gate never revises a decision. */
  lemma GateKeepsDecided(checks: Checks, w: World, step: Step, call: nat)
    requires Settled(w.calls, call)
    ensures call in Apply(checks, w, step).calls && Apply(checks, w, step).calls[call] == w.calls[call]
  {
  }

  lemma GateMoveKeepsTelling(p: Plan, w: World, step: Step, attempts: map<nat, Attempt>, audit: seq<Entry>)
    requires AllTell(p, w.calls, attempts, audit)
    ensures AllTell(p, Apply(p.checks, w, step).calls, attempts, audit)
  {
    forall i | 0 <= i < |audit| ensures EntryTells(p, Apply(p.checks, w, step).calls, attempts, audit[i]) {
      assert EntryTells(p, w.calls, attempts, audit[i]);
      if p.prepare(attempts[audit[i].call]).Goes? { GateKeepsDecided(p.checks, w, step, audit[i].call); }
    }
  }

  lemma AttemptKeepsTelling(p: Plan, calls: map<nat, Phase>, attempts: map<nat, Attempt>, audit: seq<Entry>, call: nat, a: Attempt)
    requires AllTell(p, calls, attempts, audit) && call !in attempts
    ensures AllTell(p, calls, attempts[call := a], audit)
  {
    forall i | 0 <= i < |audit| ensures EntryTells(p, calls, attempts[call := a], audit[i]) {
      assert EntryTells(p, calls, attempts, audit[i]);
    }
  }

  lemma AuditKeepsTelling(p: Plan, r: Runs, call: nat, record: AuditRecord, executed: Option<nat>, appends: bool)
    requires AllTell(p, r.gate.world.calls, r.attempts, r.trail.audit)
    requires call in r.attempts && Tells(p, r.gate.world.calls, call, r.attempts[call], record)
    ensures var v := Audit(r, call, record, executed, appends); AllTell(p, v.gate.world.calls, v.attempts, v.trail.audit)
  {
    var v := Audit(r, call, record, executed, appends);
    forall i | 0 <= i < |v.trail.audit| ensures EntryTells(p, v.gate.world.calls, v.attempts, v.trail.audit[i]) {
      if i < |r.trail.audit| { assert EntryTells(p, r.gate.world.calls, r.attempts, r.trail.audit[i]); }
    }
  }

  ghost predicate TellingRuns(p: Plan, r: Runs) {
    AllTell(p, r.gate.world.calls, r.attempts, r.trail.audit)
  }

  lemma StartKeepsTelling(p: Plan, r: Runs, call: nat, a: Attempt, appends: bool)
    requires TellingRuns(p, r) && call !in r.attempts
    ensures TellingRuns(p, StartRun(p, r, call, a, appends))
  {
    AttemptKeepsTelling(p, r.gate.world.calls, r.attempts, r.trail.audit, call, a);
    var known := r.(attempts := r.attempts[call := a]);
    match p.prepare(a)
    case Halts(halt) => AuditKeepsTelling(p, known, call, HaltRecord(a, halt), None, appends);
    case Goes(input, _) => GateMoveKeepsTelling(p, r.gate.world, Begin(call, input), known.attempts, r.trail.audit);
  }

  lemma GateReturnKeepsTelling(p: Plan, r: Runs, call: nat, appends: bool)
    requires TellingRuns(p, r)
    ensures TellingRuns(p, ReturnFromGate(p, r, call, appends))
  {
    if call in r.attempts && call in r.phases && r.phases[call].AtGate? && p.prepare(r.attempts[call]).Goes? && call in r.gate.world.calls {
      var a := r.attempts[call];
      match r.gate.world.calls[call]
      case Ended(_, refusal) => AuditKeepsTelling(p, r, call, RefusalRecord(a, p.prepare(a).execution, refusal), None, appends);
      case _ =>
    }
  }

  lemma ExecutorReturnKeepsTelling(p: Plan, r: Runs, call: nat, reply: ExecutorReply, later: int, appends: bool)
    requires TellingRuns(p, r) && TrailOk(p, r)
    ensures TellingRuns(p, ReturnFromExecutor(p, r, call, reply, later, appends))
  {
    if call in r.attempts && call in r.phases && r.phases[call].Executing? && p.prepare(r.attempts[call]).Goes? {
      var a, ran := r.attempts[call], r.phases[call].ran;
      assert PhaseKept(p, r.trail, call, a, r.phases[call]);
      assert CallAuthorized(r.gate.world, r.trail.executions[ran].call);
      AuditKeepsTelling(p, r, call, ExecutionRecord(a, p.prepare(a).execution, reply, later), Some(ran), appends);
    }
  }

  lemma StepKeepsTelling(p: Plan, r: Runs, step: RunStep)
    requires TellingRuns(p, r) && TrailOk(p, r)
    ensures TellingRuns(p, Do(p, r, step))
  {
    match step
    case Start(call, a, appends) => if call !in r.attempts { StartKeepsTelling(p, r, call, a, appends); }
    case GateMoves(g) => if !g.Begin? { GateMoveKeepsTelling(p, r.gate.world, g, r.attempts, r.trail.audit); }
    case GateReturned(call, appends) => GateReturnKeepsTelling(p, r, call, appends);
    case ExecutorReturned(call, reply, later, appends) => ExecutorReturnKeepsTelling(p, r, call, reply, later, appends);
  }

  lemma {:induction false} RecordsStayTelling(p: Plan, steps: seq<RunStep>)
    requires SanePlan(p)
    ensures TellingRuns(p, DoAll(p, steps))
  {
    if steps != [] {
      var n := |steps| - 1;
      RecordsStayTelling(p, steps[..n]);
      RunsStayOk(p, steps[..n]);
      StepKeepsTelling(p, DoAll(p, steps[..n]), steps[n]);
    }
  }

  // ---- the results --------------------------------------------------------------------------------------------

  /** A run that the gate refused: its permit was unusable, another run had claimed its permit id, or it
      claimed the id itself and its approval could not be consumed. */
  predicate RefusedFor(d: Deps, replay: Replay, call: nat, a: Attempt, decision: DecisionStatus) {
    var id := a.draw.permitId;
    match decision
    case RUNTIME_REJECTED => !Permittable(d, a)
    case RETRY_REJECTED => Permittable(d, a) && id in replay.claimedBy && replay.claimedBy[id] != call
    case DENY => Permittable(d, a) && ClaimedBy(replay, id, call) && Required(ApprovalInput(a.request, a.now))
    case _ => false
  }

  lemma RefusalIsFor(d: Deps, w: World, call: nat, a: Attempt, refusal: Refusal)
    requires SoundDeps(d) && StagesPass(d, a.request, a.now)
    requires var i := GateInputOf(d, a);
      ScreenedFor(d.setting, i, refusal) || (Screen(d.setting, i).None? && LateRefusal(w.replay, w.consent, call, i, refusal))
    ensures RefusedFor(d, w.replay, call, a, refusal.status)
  {
    ScreenTells(d.setting, GateInputOf(d, a), refusal);
    OwnPermitVerifiesIff(d, a);
    ApprovalIsHandedOn(d, a);
    if Screen(d.setting, GateInputOf(d, a)).Some? { ScreenRefuses(d, a); }
  }

  /** What the record of a run says, in terms of the request and of who claimed its permit id. */
  ghost predicate TrueRecord(d: Deps, r: Runs, call: nat, a: Attempt, record: AuditRecord) {
    && RecordFor(a.request, record)
    && (!StagesPass(d, a.request, a.now) ==>
          HaltsWith(d, a.request, a.now, record.decision) && AuditedAs(record.decision, record.outcome) && record.permit.None?)
    && (StagesPass(d, a.request, a.now) ==> record.permit == Some(PermitOf(d, a)))
    && (StagesPass(d, a.request, a.now) && !HasExecution(r.trail.executions, call) ==>
          RefusedFor(d, r.gate.world.replay, call, a, record.decision) && AuditedAs(record.decision, record.outcome))
    && (HasExecution(r.trail.executions, call) ==> ExecutionRecorded(record))
  }

  lemma RefusedRunTells(d: Deps, r: Runs, call: nat, a: Attempt, record: AuditRecord)
    requires SoundDeps(d) && GateOk(PlanOf(d), r.attempts, r.gate) && call in r.attempts && r.attempts[call] == a
    requires StagesPass(d, a.request, a.now) && call in r.gate.world.calls && r.gate.world.calls[call].Ended?
    requires GateTells(r.gate.world.calls[call], a.now, record)
    ensures RefusedFor(d, r.gate.world.replay, call, a, record.decision) && AuditedAs(record.decision, record.outcome)
  {
    GateStepsAreRuns(d, r.attempts, r.gate);
    CallsComeFromRuns(d, r.attempts, ChecksOf(d.setting), r.gate.steps, call);
    EveryRefusalHasItsCause(d.setting, r.gate.steps, call);
    RefusalIsFor(d, r.gate.world, call, a, r.gate.world.calls[call].refusal);
  }

  lemma GoneRunTells(d: Deps, r: Runs, call: nat, a: Attempt, record: AuditRecord)
    requires SoundDeps(d) && GateOk(PlanOf(d), r.attempts, r.gate) && call in r.attempts && r.attempts[call] == a
    requires StagesPass(d, a.request, a.now) && Tells(PlanOf(d), r.gate.world.calls, call, a, record)
    requires RecordFor(a.request, record) && (Ran(record) <==> HasExecution(r.trail.executions, call))
    ensures TrueRecord(d, r, call, a, record)
  {
    if r.gate.world.calls[call].Ended? { RefusedRunTells(d, r, call, a, record); }
  }

  lemma HaltedRunTells(d: Deps, r: Runs, call: nat, a: Attempt, record: AuditRecord)
    requires !StagesPass(d, a.request, a.now) && Tells(PlanOf(d), r.gate.world.calls, call, a, record)
    requires RecordFor(a.request, record) && (Ran(record) <==> HasExecution(r.trail.executions, call))
    ensures TrueRecord(d, r, call, a, record)
  {
    assert RightHalt(d, a.request, a.now, PreparedBy(d, a).halt);
  }

  lemma RecordIsTrue(d: Deps, r: Runs, i: nat)
    requires SoundDeps(d) && i < |r.trail.audit|
    requires GateOk(PlanOf(d), r.attempts, r.gate) && TrailOk(PlanOf(d), r) && TellingRuns(PlanOf(d), r)
    ensures var e := r.trail.audit[i]; e.call in r.attempts && TrueRecord(d, r, e.call, r.attempts[e.call], e.record)
  {
    var e := r.trail.audit[i];
    RecordTells(PlanOf(d), r, i);
    assert EntryTells(PlanOf(d), r.gate.world.calls, r.attempts, e);
    var a := r.attempts[e.call];
    if StagesPass(d, a.request, a.now) {
      GoneRunTells(d, r, e.call, a, e.record);
    } else {
      HaltedRunTells(d, r, e.call, a, e.record);
    }
  }

  /** Overlapping runs or not, every audit record is true of its run: a halted run is recorded with the decision
      that goes with the first stage it failed, a refused one with the cause of the refusal, an executed one
      with the result of verification, and the audit outcome goes with the decision. */
  lemma RecordsAreTrue(d: Deps, steps: seq<RunStep>, i: nat)
    requires SoundDeps(d) && i < |DoAll(PlanOf(d), steps).trail.audit|
    ensures var r := DoAll(PlanOf(d), steps);
      var e := r.trail.audit[i];
      e.call in r.attempts && TrueRecord(d, r, e.call, r.attempts[e.call], e.record)
  {
    PlansAreSane(d);
    RunsStayOk(PlanOf(d), steps);
    RecordsStayTelling(PlanOf(d), steps);
    RecordIsTrue(d, DoAll(PlanOf(d), steps), i);
  }

  /** The last record is the run's own, made later, and says whether the executor reported success for this
      run's own request and permit. */
  predicate LastRecordTells(audit: seq<Entry>, call: nat, a: Attempt, reply: ExecutorReply, later: int) {
    && |audit| > 0 && audit[|audit| - 1].call == call
    && var record := audit[|audit| - 1].record;
    && record.timestamp == later
    && (record.outcome == VERIFIED <==> reply == Replied(Envelope(a.request.requestId, a.draw.permitId, SUCCEEDED)))
  }

  lemma ReplyAppends(p: Plan, r: Runs, call: nat, reply: ExecutorReply, later: int)
    requires TrailOk(p, r) && call in r.phases && r.phases[call].Executing?
    ensures call in r.attempts
    ensures LastRecordTells(ReturnFromExecutor(p, r, call, reply, later, true).trail.audit, call, r.attempts[call], reply, later)
  {
    assert PhaseKept(p, r.trail, call, r.attempts[call], r.phases[call]);
  }

  lemma PlannedReplyAppends(p: Plan, steps: seq<RunStep>, call: nat, reply: ExecutorReply, later: int)
    requires SanePlan(p) && call in DoAll(p, steps).phases && DoAll(p, steps).phases[call].Executing?
    ensures var r, v := DoAll(p, steps), DoAll(p, steps + [ExecutorReturned(call, reply, later, true)]);
      call in r.attempts && LastRecordTells(v.trail.audit, call, r.attempts[call], reply, later)
  {
    DoAllSnoc(p, steps, ExecutorReturned(call, reply, later, true));
    RunsStayOk(p, steps);
    ReplyAppends(p, DoAll(p, steps), call, reply, later);
  }

  /** Overlapping runs or not, the executor's reply decides what is recorded. */
  lemma ReplyIsRecorded(d: Deps, steps: seq<RunStep>, call: nat, reply: ExecutorReply, later: int)
    requires call in DoAll(PlanOf(d), steps).phases && DoAll(PlanOf(d), steps).phases[call].Executing?
    ensures var r, v := DoAll(PlanOf(d), steps), DoAll(PlanOf(d), steps + [ExecutorReturned(call, reply, later, true)]);
      call in r.attempts && LastRecordTells(v.trail.audit, call, r.attempts[call], reply, later)
  {
    PlansAreSane(d);
    PlannedReplyAppends(PlanOf(d), steps, call, reply, later);
  }
}

/** packages/pipeline/src/pipeline.ts with any number of runs in progress, cut at their awaits: the final
    gate, the executor and the audit log that overlapping runs share. */
module PipelineRuns {
  import opened Base
  import opened ReplayProtection
  import opened ApprovalGate
  import opened FinalGate
  import opened SecurePipeline

  /** What the first segment makes of an attempt: it halts, or goes on to the gate and then the executor. */
  datatype Prepared = Halts(halt: Halt) | Goes(input: FinalGateInput, execution: Execution)

  /** The first segment and the gate's checks, as the runs see them. */
  datatype Plan = Plan(prepare: Attempt -> Prepared, checks: Checks)

  function ExecutionOf(d: Deps, a: Attempt): Execution
    requires StagesPass(d, a.request, a.now)
  {
    Execution(Authorization(a.draw.permitId, a.request.requestId), PermitOf(d, a), ContextOf(a.request, a.now))
  }

  function PreparedBy(d: Deps, a: Attempt): Prepared {
    var halt := HaltOf(d, a.request, a.now);
    if halt.Some? then Halts(halt.value) else Goes(GateInputOf(d, a), ExecutionOf(d, a))
  }

  function PlanOf(d: Deps): Plan {
    Plan(a => PreparedBy(d, a), ChecksOf(d.setting))
  }

  /** An audit record, and the run that appended it. */
  datatype Entry = Entry(call: nat, record: AuditRecord)

  /** A call of the executor, and the run that made it. */
  datatype ExecutorCall = ExecutorCall(call: nat, execution: Execution)

  /** Where a run stands. `entry` is the position of its audit record, unless its append threw, and `ran` that of
      its executor call. */
  datatype RunPhase = AtGate | Executing(ran: nat) | Finished(entry: Option<nat>, executed: Option<nat>)

  /** What runs leave behind. */
  datatype Trail = Trail(audit: seq<Entry>, executions: seq<ExecutorCall>)

  /** The final gate, with its history. */
  datatype Gate = Gate(world: World, steps: seq<Step>)

  datatype Runs = Runs(gate: Gate, attempts: map<nat, Attempt>, phases: map<nat, RunPhase>, trail: Trail)

  /** `appends` says whether the audit append that the segment makes, if any, succeeds. */
  datatype RunStep =
    | Start(call: nat, attempt: Attempt, appends: bool)
    | GateMoves(step: Step)
    | GateReturned(call: nat, appends: bool)
    | ExecutorReturned(call: nat, reply: ExecutorReply, later: int, appends: bool)

  const NO_RUNS := Runs(Gate(INITIAL, []), map[], map[], Trail([], []))

  function Move(checks: Checks, g: Gate, step: Step): Gate {
    Gate(Apply(checks, g.world, step), g.steps + [step])
  }

  /** The run ends with one audit record, or throws because the append did. */
  function Audit(r: Runs, call: nat, record: AuditRecord, executed: Option<nat>, appends: bool): Runs {
    r.(phases := r.phases[call := Finished(if appends then Some(|r.trail.audit|) else None, executed)],
       trail := r.trail.(audit := r.trail.audit + if appends then [Entry(call, record)] else []))
  }

  function HaltRecord(a: Attempt, h: Halt): AuditRecord {
    RecordOf(a.request, h.decision, None, h.outcome, a.now)
  }

  function RefusalRecord(a: Attempt, x: Execution, refusal: Refusal): AuditRecord {
    RecordOf(a.request, refusal.status, Some(x.permit), RefusalOutcome(refusal.status), a.now)
  }

  predicate Verifies(a: Attempt, reply: ExecutorReply) {
    reply == Replied(Envelope(a.request.requestId, a.draw.permitId, SUCCEEDED))
  }

  function ExecutionRecord(a: Attempt, x: Execution, reply: ExecutorReply, later: int): AuditRecord {
    RecordOf(a.request, if Verifies(a, reply) then ALLOW else DENY, Some(x.permit),
             if Verifies(a, reply) then VERIFIED else VERIFICATION_FAILED, later)
  }

  function Execute(r: Runs, call: nat, x: Execution): Runs {
    r.(phases := r.phases[call := Executing(|r.trail.executions|)],
       trail := r.trail.(executions := r.trail.executions + [ExecutorCall(call, x)]))
  }

  /** Everything up to the final gate happens in the first segment. */
  function StartRun(p: Plan, r: Runs, call: nat, a: Attempt, appends: bool): Runs {
    var known := r.(attempts := r.attempts[call := a]);
    match p.prepare(a)
    case Halts(halt) => Audit(known, call, HaltRecord(a, halt), None, appends)
    case Goes(input, _) => known.(phases := r.phases[call := AtGate], gate := Move(p.checks, r.gate, Begin(call, input)))
  }

  function AfterGate(r: Runs, call: nat, a: Attempt, x: Execution, appends: bool): Runs {
    if call !in r.gate.world.calls then r
    else
      match r.gate.world.calls[call]
      case Ended(_, refusal) => Audit(r, call, RefusalRecord(a, x, refusal), None, appends)
      case Authorized(_, _) => Execute(r, call, x)
      case _ => r
  }

  function ReturnFromGate(p: Plan, r: Runs, call: nat, appends: bool): Runs {
    if call in r.attempts && call in r.phases && r.phases[call].AtGate? && p.prepare(r.attempts[call]).Goes?
    then AfterGate(r, call, r.attempts[call], p.prepare(r.attempts[call]).execution, appends) else r
  }

  function ReturnFromExecutor(p: Plan, r: Runs, call: nat, reply: ExecutorReply, later: int, appends: bool): Runs {
    if call in r.attempts && call in r.phases && r.phases[call].Executing? && p.prepare(r.attempts[call]).Goes?
    then Audit(r, call, ExecutionRecord(r.attempts[call], p.prepare(r.attempts[call]).execution, reply, later), Some(r.phases[call].ran), appends)
    else r
  }

  function Do(p: Plan, r: Runs, step: RunStep): Runs {
    match step
    case Start(call, a, appends) => if call in r.attempts then r else StartRun(p, r, call, a, appends)
    case GateMoves(g) => if g.Begin? then r else r.(gate := Move(p.checks, r.gate, g))
    case GateReturned(call, appends) => ReturnFromGate(p, r, call, appends)
    case ExecutorReturned(call, reply, later, appends) => ReturnFromExecutor(p, r, call, reply, later, appends)
  }

  function DoAll(p: Plan, steps: seq<RunStep>): Runs {
    if steps == [] then NO_RUNS
    else Do(p, DoAll(p, steps[..|steps| - 1]), steps[|steps| - 1])
  }

  // ---- the gate is the final gate ---------------------------------------------------------------------------

  predicate BegunAs(p: Plan, attempts: map<nat, Attempt>, step: Step) {
    step.Begin? ==> step.call in attempts && p.prepare(attempts[step.call]).Goes? && p.prepare(attempts[step.call]).input == step.input
  }

  /** The gate's steps are those of the final gate, on inputs of these runs. */
  ghost predicate GateOk(p: Plan, attempts: map<nat, Attempt>, g: Gate) {
    && g.world == After(p.checks, g.steps)
    && forall k :: 0 <= k < |g.steps| ==> BegunAs(p, attempts, g.steps[k])
  }

  lemma MoveKeepsGate(p: Plan, attempts: map<nat, Attempt>, g: Gate, step: Step)
    requires GateOk(p, attempts, g) && BegunAs(p, attempts, step)
    ensures GateOk(p, attempts, Move(p.checks, g, step))
  {
    var next := g.steps + [step];
    assert next[..|g.steps|] == g.steps;
    forall k | 0 <= k < |next| ensures BegunAs(p, attempts, next[k]) {
      assert k < |g.steps| ==> BegunAs(p, attempts, g.steps[k]);
    }
  }

  lemma AttemptKeepsGate(p: Plan, attempts: map<nat, Attempt>, g: Gate, call: nat, a: Attempt)
    requires GateOk(p, attempts, g) && call !in attempts
    ensures GateOk(p, attempts[call := a], g)
  {
    forall k | 0 <= k < |g.steps| ensures BegunAs(p, attempts[call := a], g.steps[k]) {
      assert BegunAs(p, attempts, g.steps[k]);
    }
  }

  /** Every step of overlapping runs keeps the gate a run of the final gate on inputs of those runs. */
  lemma StepKeepsGate(p: Plan, r: Runs, step: RunStep)
    requires GateOk(p, r.attempts, r.gate)
    ensures GateOk(p, Do(p, r, step).attempts, Do(p, r, step).gate)
  {
    match step
    case Start(call, a, _) =>
      if call !in r.attempts {
        AttemptKeepsGate(p, r.attempts, r.gate, call, a);
        if p.prepare(a).Goes? { MoveKeepsGate(p, r.attempts[call := a], r.gate, Begin(call, p.prepare(a).input)); }
      }
    case GateMoves(g) => if !g.Begin? { MoveKeepsGate(p, r.attempts, r.gate, g); }
    case GateReturned(call, _) =>
    case ExecutorReturned(call, _, _, _) =>
  }

  // ---- the trail --------------------------------------------------------------------------------------------

  predicate Ran(record: AuditRecord) {
    record.outcome in {VERIFIED, VERIFICATION_FAILED}
  }

  /** A halt before the gate is never audited as an execution. */
  ghost predicate SanePlan(p: Plan) {
    forall a :: p.prepare(a).Halts? ==> p.prepare(a).halt.outcome !in {VERIFIED, VERIFICATION_FAILED}
  }

  predicate CalledAt(p: Plan, executions: seq<ExecutorCall>, call: nat, a: Attempt, ran: nat) {
    ran < |executions| && p.prepare(a).Goes? && executions[ran] == ExecutorCall(call, p.prepare(a).execution)
  }

  predicate Recorded(audit: seq<Entry>, call: nat, a: Attempt, entry: nat, ran: bool) {
    entry < |audit| && audit[entry].call == call && RecordFor(a.request, audit[entry].record) && (Ran(audit[entry].record) <==> ran)
  }

  predicate PhaseKept(p: Plan, trail: Trail, call: nat, a: Attempt, phase: RunPhase) {
    match phase
    case AtGate => p.prepare(a).Goes?
    case Executing(ran) => CalledAt(p, trail.executions, call, a, ran)
    case Finished(entry, executed) =>
      (entry.Some? ==> Recorded(trail.audit, call, a, entry.value, executed.Some?)) &&
      (executed.Some? ==> CalledAt(p, trail.executions, call, a, executed.value))
  }

  ghost predicate PhasesKept(p: Plan, r: Runs) {
    forall c :: c in r.phases ==> c in r.attempts && PhaseKept(p, r.trail, c, r.attempts[c], r.phases[c])
  }

  predicate EntryOwned(phases: map<nat, RunPhase>, call: nat, i: nat) {
    call in phases && phases[call].Finished? && phases[call].entry == Some(i)
  }

  ghost predicate EntriesOwned(phases: map<nat, RunPhase>, audit: seq<Entry>) {
    forall i :: 0 <= i < |audit| ==> EntryOwned(phases, audit[i].call, i)
  }

  predicate CallOwned(phases: map<nat, RunPhase>, call: nat, i: nat) {
    call in phases && (phases[call] == Executing(i) || (phases[call].Finished? && phases[call].executed == Some(i)))
  }

  ghost predicate CallsOwned(phases: map<nat, RunPhase>, executions: seq<ExecutorCall>) {
    forall i :: 0 <= i < |executions| ==> CallOwned(phases, executions[i].call, i)
  }

  /** An executor call follows an authorization of the same run. */
  predicate CallAuthorized(w: World, call: nat) {
    call in w.calls && w.calls[call].Authorized?
  }

  ghost predicate CallsAuthorized(w: World, executions: seq<ExecutorCall>) {
    forall i :: 0 <= i < |executions| ==> CallAuthorized(w, executions[i].call)
  }

  ghost predicate TrailOk(p: Plan, r: Runs) {
    && PhasesKept(p, r) && EntriesOwned(r.phases, r.trail.audit)
    && CallsOwned(r.phases, r.trail.executions) && CallsAuthorized(r.gate.world, r.trail.executions)
  }

  lemma AuditKeepsTrail(p: Plan, r: Runs, call: nat, record: AuditRecord, executed: Option<nat>, appends: bool)
    requires TrailOk(p, r) && call in r.attempts && (call in r.phases ==> !r.phases[call].Finished?)
    requires RecordFor(r.attempts[call].request, record) && (Ran(record) <==> executed.Some?)
    requires executed.Some? ==> CalledAt(p, r.trail.executions, call, r.attempts[call], executed.value)
    requires call in r.phases && r.phases[call].Executing? ==> executed == Some(r.phases[call].ran)
    ensures TrailOk(p, Audit(r, call, record, executed, appends))
  {
    var v := Audit(r, call, record, executed, appends);
    forall c | c in v.phases ensures c in v.attempts && PhaseKept(p, v.trail, c, v.attempts[c], v.phases[c]) {
      if c != call { assert PhaseKept(p, r.trail, c, r.attempts[c], r.phases[c]); }
    }
    forall i | 0 <= i < |v.trail.executions| ensures CallOwned(v.phases, v.trail.executions[i].call, i) {
      assert CallOwned(r.phases, r.trail.executions[i].call, i);
    }
    forall i | 0 <= i < |v.trail.audit| ensures EntryOwned(v.phases, v.trail.audit[i].call, i) {
      if i < |r.trail.audit| { assert EntryOwned(r.phases, r.trail.audit[i].call, i); }
    }
  }

  lemma ExecuteKeepsTrail(p: Plan, r: Runs, call: nat, x: Execution)
    requires TrailOk(p, r) && call in r.phases && r.phases[call].AtGate? && CallAuthorized(r.gate.world, call)
    requires call in r.attempts && p.prepare(r.attempts[call]).Goes? && p.prepare(r.attempts[call]).execution == x
    ensures TrailOk(p, Execute(r, call, x))
  {
    var v := Execute(r, call, x);
    forall c | c in v.phases ensures c in v.attempts && PhaseKept(p, v.trail, c, v.attempts[c], v.phases[c]) {
      if c != call { assert PhaseKept(p, r.trail, c, r.attempts[c], r.phases[c]); }
    }
    forall i | 0 <= i < |v.trail.executions| ensures CallOwned(v.phases, v.trail.executions[i].call, i) {
      if i < |r.trail.executions| { assert CallOwned(r.phases, r.trail.executions[i].call, i); }
    }
    forall i | 0 <= i < |v.trail.audit| ensures EntryOwned(v.phases, v.trail.audit[i].call, i) {
      assert EntryOwned(r.phases, r.trail.audit[i].call, i);
    }
  }

  /** Authorizations are never withdrawn. */
  lemma GateKeepsAuthorized(checks: Checks, w: World, step: Step, executions: seq<ExecutorCall>)
    requires CallsAuthorized(w, executions)
    ensures CallsAuthorized(Apply(checks, w, step), executions)
  {
    forall i | 0 <= i < |executions| ensures CallAuthorized(Apply(checks, w, step), executions[i].call) {
      assert CallAuthorized(w, executions[i].call);
    }
  }

  lemma EnterKeepsTrail(p: Plan, r: Runs, call: nat, a: Attempt)
    requires TrailOk(p, r) && call !in r.attempts
    ensures TrailOk(p, r.(attempts := r.attempts[call := a]))
    ensures p.prepare(a).Goes? ==> TrailOk(p, r.(attempts := r.attempts[call := a], phases := r.phases[call := AtGate]))
  {
    var phases := r.phases[call := AtGate];
    forall i | 0 <= i < |r.trail.audit| ensures EntryOwned(phases, r.trail.audit[i].call, i) {
      assert EntryOwned(r.phases, r.trail.audit[i].call, i);
    }
    forall i | 0 <= i < |r.trail.executions| ensures CallOwned(phases, r.trail.executions[i].call, i) {
      assert CallOwned(r.phases, r.trail.executions[i].call, i);
    }
  }

  lemma StartKeepsTrail(p: Plan, r: Runs, call: nat, a: Attempt, appends: bool)
    requires SanePlan(p) && TrailOk(p, r) && call !in r.attempts
    ensures TrailOk(p, StartRun(p, r, call, a, appends))
  {
    EnterKeepsTrail(p, r, call, a);
    match p.prepare(a)
    case Halts(halt) => AuditKeepsTrail(p, r.(attempts := r.attempts[call := a]), call, HaltRecord(a, halt), None, appends);
    case Goes(input, _) => GateKeepsAuthorized(p.checks, r.gate.world, Begin(call, input), r.trail.executions);
  }

  lemma GateReturnKeepsTrail(p: Plan, r: Runs, call: nat, appends: bool)
    requires TrailOk(p, r)
    ensures TrailOk(p, ReturnFromGate(p, r, call, appends))
  {
    if call in r.attempts && call in r.phases && r.phases[call].AtGate? && p.prepare(r.attempts[call]).Goes? && call in r.gate.world.calls {
      var a, x := r.attempts[call], p.prepare(r.attempts[call]).execution;
      match r.gate.world.calls[call]
      case Ended(_, refusal) => AuditKeepsTrail(p, r, call, RefusalRecord(a, x, refusal), None, appends);
      case Authorized(_, _) => ExecuteKeepsTrail(p, r, call, x);
      case _ =>
    }
  }

  lemma ExecutorReturnKeepsTrail(p: Plan, r: Runs, call: nat, reply: ExecutorReply, later: int, appends: bool)
    requires TrailOk(p, r)
    ensures TrailOk(p, ReturnFromExecutor(p, r, call, reply, later, appends))
  {
    if call in r.attempts && call in r.phases && r.phases[call].Executing? && p.prepare(r.attempts[call]).Goes? {
      var a := r.attempts[call];
      assert PhaseKept(p, r.trail, call, a, r.phases[call]);
      AuditKeepsTrail(p, r, call, ExecutionRecord(a, p.prepare(a).execution, reply, later), Some(r.phases[call].ran), appends);
    }
  }

  /** Every step of overlapping runs keeps the link between runs, records, executor calls and authorizations. */
  lemma StepKeepsTrail(p: Plan, r: Runs, step: RunStep)
    requires SanePlan(p) && TrailOk(p, r)
    ensures TrailOk(p, Do(p, r, step))
  {
    match step
    case Start(call, a, appends) => if call !in r.attempts { StartKeepsTrail(p, r, call, a, appends); }
    case GateMoves(g) => if !g.Begin? { GateKeepsAuthorized(p.checks, r.gate.world, g, r.trail.executions); }
    case GateReturned(call, appends) => GateReturnKeepsTrail(p, r, call, appends);
    case ExecutorReturned(call, reply, later, appends) => ExecutorReturnKeepsTrail(p, r, call, reply, later, appends);
  }

  lemma {:induction false} RunsStayOk(p: Plan, steps: seq<RunStep>)
    requires SanePlan(p)
    ensures GateOk(p, DoAll(p, steps).attempts, DoAll(p, steps).gate) && TrailOk(p, DoAll(p, steps))
  {
    if steps != [] {
      var n := |steps| - 1;
      RunsStayOk(p, steps[..n]);
      StepKeepsGate(p, DoAll(p, steps[..n]), steps[n]);
      StepKeepsTrail(p, DoAll(p, steps[..n]), steps[n]);
    }
  }

  // ---- over every interleaving --------------------------------------------------------------------------------

  ghost predicate HasRecord(audit: seq<Entry>, call: nat) {
    exists i :: 0 <= i < |audit| && audit[i].call == call
  }

  ghost predicate HasExecution(executions: seq<ExecutorCall>, call: nat) {
    exists i :: 0 <= i < |executions| && executions[i].call == call
  }

  /** The run is over and its append succeeded. */
  predicate Delivered(phases: map<nat, RunPhase>, call: nat) {
    call in phases && phases[call].Finished? && phases[call].entry.Some?
  }

  /** The records are exactly those of the finished runs whose append succeeded, one each, with the run's own
      ids, and tell whether the executor was called. */
  ghost predicate ExactRecords(r: Runs) {
    && (forall call :: HasRecord(r.trail.audit, call) <==> Delivered(r.phases, call))
    && (forall i, j :: 0 <= i < j < |r.trail.audit| ==> r.trail.audit[i].call != r.trail.audit[j].call)
    && (forall i :: 0 <= i < |r.trail.audit| ==>
          var e := r.trail.audit[i];
          e.call in r.attempts && RecordFor(r.attempts[e.call].request, e.record) &&
          (Ran(e.record) <==> HasExecution(r.trail.executions, e.call)))
  }

  lemma RecordTells(p: Plan, r: Runs, i: nat)
    requires TrailOk(p, r) && i < |r.trail.audit|
    ensures var e := r.trail.audit[i];
      && e.call in r.attempts && RecordFor(r.attempts[e.call].request, e.record) && EntryOwned(r.phases, e.call, i)
      && (Ran(e.record) <==> HasExecution(r.trail.executions, e.call))
  {
    var call := r.trail.audit[i].call;
    assert EntryOwned(r.phases, call, i);
    assert PhaseKept(p, r.trail, call, r.attempts[call], r.phases[call]);
    if r.phases[call].executed.Some? {
      assert r.trail.executions[r.phases[call].executed.value].call == call;
    }
    if j :| 0 <= j < |r.trail.executions| && r.trail.executions[j].call == call {
      assert CallOwned(r.phases, call, j);
    }
  }

  lemma RecordsAreExact(p: Plan, r: Runs)
    requires TrailOk(p, r)
    ensures ExactRecords(r)
  {
    forall call | Delivered(r.phases, call) ensures HasRecord(r.trail.audit, call) {
      assert PhaseKept(p, r.trail, call, r.attempts[call], r.phases[call]);
      assert r.trail.audit[r.phases[call].entry.value].call == call;
    }
    forall i | 0 <= i < |r.trail.audit|
      ensures var e := r.trail.audit[i];
        && e.call in r.attempts && RecordFor(r.attempts[e.call].request, e.record) && EntryOwned(r.phases, e.call, i)
        && (Ran(e.record) <==> HasExecution(r.trail.executions, e.call))
    {
      RecordTells(p, r, i);
    }
  }

  lemma HaltIsNoExecution(d: Deps, r: Request, now: int, h: Halt)
    requires RightHalt(d, r, now, h)
    ensures h.outcome !in {VERIFIED, VERIFICATION_FAILED}
  {
    assert AuditedAs(h.decision, h.outcome);
  }

  lemma PlansAreSane(d: Deps)
    ensures SanePlan(PlanOf(d))
  {
    forall a | PlanOf(d).prepare(a).Halts? ensures PlanOf(d).prepare(a).halt.outcome !in {VERIFIED, VERIFICATION_FAILED} {
      HaltIsNoExecution(d, a.request, a.now, PreparedBy(d, a).halt);
    }
  }

  /** Overlapping runs or not, the audit log holds exactly one record for each finished run whose append did not
      throw, with that run's own ids, and no other records; the record says verified or verification failed
      exactly when the executor was called for that run. */
  lemma OneRecordPerRun(d: Deps, steps: seq<RunStep>)
    ensures ExactRecords(DoAll(PlanOf(d), steps))
  {
    PlansAreSane(d);
    RunsStayOk(PlanOf(d), steps);
    RecordsAreExact(PlanOf(d), DoAll(PlanOf(d), steps));
  }

  lemma AnswerIsRecordedIff(p: Plan, r: Runs, call: nat, reply: ExecutorReply, later: int, appends: bool)
    requires SanePlan(p) && TrailOk(p, r) && call in r.phases && r.phases[call].Executing?
    ensures !HasRecord(r.trail.audit, call) && HasExecution(r.trail.executions, call)
    ensures HasRecord(ReturnFromExecutor(p, r, call, reply, later, appends).trail.audit, call) <==> appends
  {
    assert PhaseKept(p, r.trail, call, r.attempts[call], r.phases[call]);
    assert r.trail.executions[r.phases[call].ran].call == call;
    RecordsAreExact(p, r);
    ExecutorReturnKeepsTrail(p, r, call, reply, later, appends);
    RecordsAreExact(p, ReturnFromExecutor(p, r, call, reply, later, appends));
    assert Delivered(ReturnFromExecutor(p, r, call, reply, later, appends).phases, call) <==> appends;
  }

  /** Overlapping runs or not, a run whose executor was called has no record yet, and once the executor answers
      it has one exactly if the append succeeds: that is when an executor call goes unrecorded. */
  lemma ExecutorCallIsRecordedIff(d: Deps, steps: seq<RunStep>, call: nat, reply: ExecutorReply, later: int, appends: bool)
    requires call in DoAll(PlanOf(d), steps).phases && DoAll(PlanOf(d), steps).phases[call].Executing?
    ensures !HasRecord(DoAll(PlanOf(d), steps).trail.audit, call) && HasExecution(DoAll(PlanOf(d), steps).trail.executions, call)
    ensures HasRecord(DoAll(PlanOf(d), steps + [ExecutorReturned(call, reply, later, appends)]).trail.audit, call) <==> appends
  {
    PlansAreSane(d);
    RecordedIff(PlanOf(d), steps, call, reply, later, appends);
  }

  lemma DoAllSnoc(p: Plan, steps: seq<RunStep>, step: RunStep)
    ensures DoAll(p, steps + [step]) == Do(p, DoAll(p, steps), step)
  {
    assert (steps + [step])[..|steps|] == steps;
  }

  lemma RecordedIff(p: Plan, steps: seq<RunStep>, call: nat, reply: ExecutorReply, later: int, appends: bool)
    requires SanePlan(p) && call in DoAll(p, steps).phases && DoAll(p, steps).phases[call].Executing?
    ensures !HasRecord(DoAll(p, steps).trail.audit, call) && HasExecution(DoAll(p, steps).trail.executions, call)
    ensures HasRecord(DoAll(p, steps + [ExecutorReturned(call, reply, later, appends)]).trail.audit, call) <==> appends
  {
    DoAllSnoc(p, steps, ExecutorReturned(call, reply, later, appends));
    RunsStayOk(p, steps);
    AnswerIsRecordedIff(p, DoAll(p, steps), call, reply, later, appends);
  }

  lemma GateStepsAreRuns(d: Deps, attempts: map<nat, Attempt>, g: Gate)
    requires GateOk(PlanOf(d), attempts, g)
    ensures FromPipeline(d, attempts, g.steps) && g.world == After(ChecksOf(d.setting), g.steps)
  {
    forall k | 0 <= k < |g.steps| && g.steps[k].Begin? ensures BegunBy(d, attempts, g.steps[k].call, g.steps[k].input) {
      assert BegunAs(PlanOf(d), attempts, g.steps[k]);
    }
  }

  /** The executor call at a position, as its run made it. */
  lemma CallIsKept(p: Plan, r: Runs, i: nat)
    requires TrailOk(p, r) && i < |r.trail.executions|
    ensures var call := r.trail.executions[i].call;
      call in r.attempts && CallOwned(r.phases, call, i) && CalledAt(p, r.trail.executions, call, r.attempts[call], i)
  {
    var call := r.trail.executions[i].call;
    assert CallOwned(r.phases, call, i);
    assert PhaseKept(p, r.trail, call, r.attempts[call], r.phases[call]);
  }

  /** The authorization behind an executor call. */
  lemma MintOf(checks: Checks, g: Gate, executions: seq<ExecutorCall>, i: nat) returns (m: nat)
    requires g.world == After(checks, g.steps) && CallsAuthorized(g.world, executions) && i < |executions|
    ensures m < |g.world.mints| && g.world.mints[m].call == executions[i].call
  {
    var call := executions[i].call;
    assert CallAuthorized(g.world, call);
    Reachable(checks, g.steps);
    assert PhaseOk(checks, g.world, call, g.world.calls[call]);
    m := g.world.calls[call].mint;
  }

  /** The executor call is that of a run whose stages passed, on the run's own permit, with an authorization that
      the gate minted for this run; and a required approval approves the request. */
  ghost predicate ApprovedCall(d: Deps, r: Runs, i: nat)
    requires i < |r.trail.executions|
  {
    var call := r.trail.executions[i].call;
    && call in r.attempts
    && var a := r.attempts[call];
    && StagesPass(d, a.request, a.now) && r.trail.executions[i].execution == ExecutionOf(d, a)
    && (exists m :: 0 <= m < |r.gate.world.mints| && r.gate.world.mints[m].call == call &&
                    r.gate.world.mints[m].authorization == r.trail.executions[i].execution.authorization)
    && (Required(ApprovalInput(a.request, a.now)) ==>
          a.request.approval.Some? && Approves(a.request.approval.value, ApprovalInput(a.request, a.now)))
  }

  /** Overlapping runs or not, every executor call is approved. */
  lemma EveryExecutorCallIsApproved(d: Deps, steps: seq<RunStep>, i: nat)
    requires i < |DoAll(PlanOf(d), steps).trail.executions|
    ensures ApprovedCall(d, DoAll(PlanOf(d), steps), i)
  {
    var p := PlanOf(d);
    var r := DoAll(p, steps);
    PlansAreSane(d);
    RunsStayOk(p, steps);
    GateStepsAreRuns(d, r.attempts, r.gate);
    CallIsKept(p, r, i);
    var m := MintOf(p.checks, r.gate, r.trail.executions, i);
    EveryExecutionIsApproved(d, r.attempts, r.gate.steps, m, m);
  }

  /** Overlapping runs or not, two executor calls never share a run or a permit id, nor an approval that both
      needed. */
  lemma ExecutorCallsAreDistinct(d: Deps, steps: seq<RunStep>, i: nat, j: nat)
    requires i < |DoAll(PlanOf(d), steps).trail.executions| && j < |DoAll(PlanOf(d), steps).trail.executions| && i != j
    ensures var r := DoAll(PlanOf(d), steps);
      var c, e := r.trail.executions[i].call, r.trail.executions[j].call;
      && c != e && c in r.attempts && e in r.attempts
      && var a, b := r.attempts[c], r.attempts[e];
      && a.draw.permitId != b.draw.permitId
      && (Required(ApprovalInput(a.request, a.now)) && Required(ApprovalInput(b.request, b.now)) ==>
            a.request.approval.Some? && b.request.approval.Some? &&
            a.request.approval.value.approvalId != b.request.approval.value.approvalId)
  {
    var p := PlanOf(d);
    var r := DoAll(p, steps);
    PlansAreSane(d);
    RunsStayOk(p, steps);
    GateStepsAreRuns(d, r.attempts, r.gate);
    CallIsKept(p, r, i);
    CallIsKept(p, r, j);
    var m := MintOf(p.checks, r.gate, r.trail.executions, i);
    var n := MintOf(p.checks, r.gate, r.trail.executions, j);
    EveryExecutionIsApproved(d, r.attempts, r.gate.steps, m, n);
    EveryExecutionIsApproved(d, r.attempts, r.gate.steps, n, m);
    if m < n { AtMostOneAuthorizationPerPermit(p.checks, r.gate.steps, m, n); }
    if n < m { AtMostOneAuthorizationPerPermit(p.checks, r.gate.steps, n, m); }
  }

  // ---- a run by itself ----------------------------------------------------------------------------------------

  function ThroughGate(p: Plan, r: Runs, call: nat, a: Attempt, appends: bool): Runs {
    Do(p, Do(p, Do(p, r, Start(call, a, appends)), GateMoves(Claim(call))), GateMoves(Finish(call)))
  }

  /** The segments of one run with nothing else in between. */
  function RunThrough(p: Plan, r: Runs, call: nat, a: Attempt, reply: ExecutorReply, later: int, appends: bool): Runs {
    Do(p, Do(p, ThroughGate(p, r, call, a, appends), GateReturned(call, appends)), ExecutorReturned(call, reply, later, appends))
  }

  /** The run is over, has one record if its append succeeds, and these executor calls. */
  predicate EndsWith(r: Runs, v: Runs, call: nat, appends: bool, calls: seq<ExecutorCall>) {
    && call in v.phases && v.phases[call].Finished? && (Delivered(v.phases, call) <==> appends)
    && |v.trail.audit| == |r.trail.audit| + (if appends then 1 else 0)
    && v.trail.executions == r.trail.executions + calls
  }

  lemma HaltedRunEnds(p: Plan, r: Runs, call: nat, a: Attempt, reply: ExecutorReply, later: int, appends: bool)
    requires call !in r.attempts && p.prepare(a).Halts?
    ensures EndsWith(r, RunThrough(p, r, call, a, reply, later, appends), call, appends, [])
  {
    var v := Do(p, r, Start(call, a, appends));
    assert v.phases[call].Finished? && v.attempts[call] == a;
  }

  /** After the gate has decided, the run ends as the gate says. */
  lemma DecidedRunEnds(p: Plan, r: Runs, g: Runs, call: nat, a: Attempt, reply: ExecutorReply, later: int, appends: bool)
    requires p.prepare(a).Goes? && g.trail == r.trail && call in g.attempts && g.attempts[call] == a && call in g.phases && g.phases[call].AtGate?
    requires call in g.gate.world.calls && (g.gate.world.calls[call].Authorized? || g.gate.world.calls[call].Ended?)
    ensures EndsWith(r, Do(p, Do(p, g, GateReturned(call, appends)), ExecutorReturned(call, reply, later, appends)), call, appends,
                     if g.gate.world.calls[call].Authorized? then [ExecutorCall(call, p.prepare(a).execution)] else [])
  {
  }

  lemma GateByItself(p: Plan, r: Runs, call: nat, a: Attempt, appends: bool)
    requires call !in r.attempts && p.prepare(a).Goes?
    ensures var g := ThroughGate(p, r, call, a, appends);
      && g.gate.world == Uninterrupted(p.checks, r.gate.world, call, p.prepare(a).input)
      && g.trail == r.trail && call in g.attempts && g.attempts[call] == a && call in g.phases && g.phases[call].AtGate?
  {
  }

  lemma GatedRunEnds(p: Plan, r: Runs, call: nat, a: Attempt, reply: ExecutorReply, later: int, appends: bool)
    requires call !in r.attempts && p.prepare(a).Goes?
    requires var w := Uninterrupted(p.checks, r.gate.world, call, p.prepare(a).input);
      call in w.calls && (w.calls[call].Authorized? || w.calls[call].Ended?)
    ensures EndsWith(r, RunThrough(p, r, call, a, reply, later, appends), call, appends,
                     if Uninterrupted(p.checks, r.gate.world, call, p.prepare(a).input).calls[call].Authorized?
                     then [ExecutorCall(call, p.prepare(a).execution)] else [])
  {
    GateByItself(p, r, call, a, appends);
    DecidedRunEnds(p, r, ThroughGate(p, r, call, a, appends), call, a, reply, later, appends);
  }

  lemma GateGrants(d: Deps, claims: ClaimStore, consent: Approvals, a: Attempt)
    requires SoundDeps(d) && StagesPass(d, a.request, a.now)
    ensures WholeCall(d.setting, claims, consent, GateInputOf(d, a)).Granted? <==> Admissible(d, claims, consent, a)
  {
    AdmissibleIff(d, claims, consent, a);
    WholeCallGrantsIff(d.setting, claims, consent, GateInputOf(d, a));
  }

  lemma GateEnds(s: Setting, w: World, call: nat, i: FinalGateInput)
    requires call !in w.calls
    ensures var v := Uninterrupted(ChecksOf(s), w, call, i);
      && call in v.calls && (v.calls[call].Authorized? || v.calls[call].Ended?)
      && (v.calls[call].Authorized? <==> WholeCall(s, w.replay.store, w.consent.store, i).Granted?)
  {
    UninterruptedCall(s, w, call, i);
  }

  /** The gate alone authorizes a run exactly when it is admissible given what the stores hold. */
  lemma GateDecides(d: Deps, w: World, call: nat, a: Attempt)
    requires SoundDeps(d) && StagesPass(d, a.request, a.now) && call !in w.calls
    ensures var v := Uninterrupted(ChecksOf(d.setting), w, call, GateInputOf(d, a));
      && call in v.calls && (v.calls[call].Authorized? || v.calls[call].Ended?)
      && (v.calls[call].Authorized? <==> Admissible(d, w.replay.store, w.consent.store, a))
  {
    GateGrants(d, w.replay.store, w.consent.store, a);
    GateEnds(d.setting, w, call, GateInputOf(d, a));
  }

  /** A run left to itself calls the executor exactly when it is admissible given what the stores hold, as
      the sequential run does, and ends with one more audit record if its append succeeds. */
  lemma RunAlone(d: Deps, r: Runs, call: nat, a: Attempt, reply: ExecutorReply, later: int, appends: bool)
    requires SoundDeps(d) && call !in r.attempts && call !in r.gate.world.calls
    ensures EndsWith(r, RunThrough(PlanOf(d), r, call, a, reply, later, appends), call, appends,
                     if Admissible(d, r.gate.world.replay.store, r.gate.world.consent.store, a)
                     then [ExecutorCall(call, ExecutionOf(d, a))] else [])
  {
    if StagesPass(d, a.request, a.now) {
      GateDecides(d, r.gate.world, call, a);
      GatedRunEnds(PlanOf(d), r, call, a, reply, later, appends);
    } else {
      HaltedRunEnds(PlanOf(d), r, call, a, reply, later, appends);
    }
  }
}

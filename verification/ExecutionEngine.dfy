/** packages/agent-execution/src/reference.ts and engine.ts: the governed execution protocol, with any
    number of executions in progress over one permit store. */
module ExecutionEngine {
  import opened Base
  import opened Governance

  datatype ExecutionRequest = ExecutionRequest(ticket: Ticket, contextHash: string, capability: string, workspaceId: Id)

  datatype ExecutionOutcome =
    | EXECUTED | TICKET_CONTEXT_MISMATCH | OUTCOME_PERMIT_REJECTED | SANDBOX_DENIED | OUTCOME_AUDIT_UNAVAILABLE | HANDLER_FAILED

  /** The pure gate: the first stage that did not pass decides. */
  function EvaluateExecutionGate(contextMatch: bool, consumed: TicketStatus, admitted: bool, writable: bool, threw: bool): ExecutionOutcome {
    if !contextMatch then TICKET_CONTEXT_MISMATCH
    else if consumed != EXECUTED_ONCE then OUTCOME_PERMIT_REJECTED
    else if !admitted then SANDBOX_DENIED
    else if !writable then OUTCOME_AUDIT_UNAVAILABLE
    else if threw then HANDLER_FAILED
    else EXECUTED
  }

  // ---- the step system ------------------------------------------------------------------------------

  /** A permit that was consumed: for which call and request, and at what time. */
  datatype Spend = Spend(call: nat, permit: Permit, request: ExecutionRequest, now: int)

  /** One call of the executor. */
  datatype Run = Run(spend: Spend)

  datatype AuditEntry = AuditEntry(tenantId: Id, workspaceId: Id, ticketRef: Id, outcome: ExecutionOutcome)

  /** An entry of the audit log, with the execution that appended it. */
  datatype Audited = Audited(call: nat, entry: AuditEntry)

  /** Where an execution stands; `audited` is the position of its entry in the audit log and `run` is the position of its executor call in the log of runs. */
  datatype Phase =
    | AwaitingSandbox(spend: Spend)
    | AwaitingExecutor(spend: Spend, run: nat)
    | Finished(request: ExecutionRequest, outcome: ExecutionOutcome, ran: Option<nat>, audited: Option<nat>)
    | Rejected(spend: Spend)

  /** What governance issued under each permit id. */
  datatype Issue = Issue(request: PipelineRequest, nonce: Id)

  /** Governance's side: the results it produced and the permits registered from them. */
  datatype Permits = Permits(issues: map<Id, Issue>, store: Store)

  /** The engine's side, with the history of consumed permits by nonce and of executor calls. */
  datatype Engine = Engine(calls: map<nat, Phase>, spends: map<Id, Spend>, runs: seq<Run>, audit: seq<Audited>)

  datatype World = World(permits: Permits, engine: Engine)

  datatype ExecutorReply = Succeeded | NotOk | ExecutorThrew

  /** The atomic segments between awaits. Answers of the sandbox, the executor and the audit sink are
      arbitrary, and `writable` says what the sink answers when a segment asks it. */
  datatype Step =
    | Govern(pipelineRequest: PipelineRequest, permitId: Id, nonce: Id)
    | Adapt(permitId: Id)
    | Begin(call: nat, request: ExecutionRequest, seenTickets: set<string>, now: int, writable: bool)
    | SandboxReplied(call: nat, admitted: bool, writable: bool, writableAfter: bool)
    | SandboxThrew(call: nat)
    | ExecutorReplied(call: nat, reply: ExecutorReply, writable: bool)

  const INITIAL := World(Permits(map[], Store(map[], {})), Engine(map[], map[], [], []))

  function ResultOf(h: ContextHasher, issue: Issue, permitId: Id): PipelineResult {
    EvaluateGovernancePipeline(h, issue.request, permitId, issue.nonce)
  }

  function EntryOf(r: ExecutionRequest, outcome: ExecutionOutcome): AuditEntry {
    AuditEntry(r.ticket.tenantId, r.workspaceId, r.ticket.permitRef, outcome)
  }

  /** The end of `execute`: the outcome is recorded if the sink can be written. */
  function Finish(e: Engine, call: nat, r: ExecutionRequest, outcome: ExecutionOutcome, run: Option<nat>, writable: bool): Engine {
    e.(calls := e.calls[call := Finished(r, outcome, run, if writable then Some(|e.audit|) else None)],
       audit := if writable then e.audit + [Audited(call, EntryOf(r, outcome))] else e.audit)
  }

  /** The first segment: the context check and the synchronous consumption of the permit. */
  function ApplyBegin(w: World, call: nat, r: ExecutionRequest, seenTickets: set<string>, now: int, writable: bool): World {
    var t, store := r.ticket, w.permits.store;
    if t.contextHash != r.contextHash then
      w.(engine := Finish(w.engine, call, r, EvaluateExecutionGate(false, PERMIT_REJECTED, false, false, false), None, writable))
    else
      var status := TicketStatusOf(t, store, seenTickets, now);
      if status != EXECUTED_ONCE then
        w.(engine := Finish(w.engine, call, r, EvaluateExecutionGate(true, status, false, false, false), None, writable))
      else
        var spend := Spend(call, store.permits[t.permitRef], r, now);
        World(w.permits.(store := TicketConsume(t, store, seenTickets, now)),
              w.engine.(calls := w.engine.calls[call := AwaitingSandbox(spend)],
                        spends := w.engine.spends[spend.permit.nonce := spend]))
  }

  /** After the sandbox answered: the audit sink is asked, then the executor is called. */
  function ApplySandbox(e: Engine, call: nat, spend: Spend, admitted: bool, writable: bool, writableAfter: bool): Engine {
    if admitted && writable then
      e.(calls := e.calls[call := AwaitingExecutor(spend, |e.runs|)], runs := e.runs + [Run(spend)])
    else
      Finish(e, call, spend.request, EvaluateExecutionGate(true, EXECUTED_ONCE, admitted, false, false), None, writableAfter)
  }

  function ApplyEngine(e: Engine, step: Step): Engine {
    match step
    case SandboxReplied(call, admitted, writable, writableAfter) =>
      if call in e.calls && e.calls[call].AwaitingSandbox?
      then ApplySandbox(e, call, e.calls[call].spend, admitted, writable, writableAfter)
      else e
    case SandboxThrew(call) =>
      if call in e.calls && e.calls[call].AwaitingSandbox? then e.(calls := e.calls[call := Rejected(e.calls[call].spend)]) else e
    case ExecutorReplied(call, reply, writable) =>
      if call in e.calls && e.calls[call].AwaitingExecutor?
      then Finish(e, call, e.calls[call].spend.request,
                  EvaluateExecutionGate(true, EXECUTED_ONCE, true, true, reply != Succeeded), Some(e.calls[call].run), writable)
      else e
    case _ => e
  }

  function Apply(h: ContextHasher, w: World, step: Step): World {
    match step
    case Govern(request, permitId, nonce) =>
      if permitId in w.permits.issues then w
      else w.(permits := w.permits.(issues := w.permits.issues[permitId := Issue(request, nonce)]))
    case Adapt(permitId) =>
      if permitId !in w.permits.issues then w
      else w.(permits := w.permits.(store := AdaptedStore(ResultOf(h, w.permits.issues[permitId], permitId), w.permits.store)))
    case Begin(call, request, seenTickets, now, writable) =>
      if call in w.engine.calls then w else ApplyBegin(w, call, request, seenTickets, now, writable)
    case _ => w.(engine := ApplyEngine(w.engine, step))
  }

  function After(h: ContextHasher, steps: seq<Step>): World {
    if steps == [] then INITIAL
    else Apply(h, After(h, steps[..|steps| - 1]), steps[|steps| - 1])
  }

  // ---- governance's side ---------------------------------------------------------------------------------

  /** `p` is the permit of a result that governance produced with every stage positive. */
  predicate Governed(h: ContextHasher, issues: map<Id, Issue>, p: Permit) {
    && p.permitId in issues
    && EveryStagePositive(issues[p.permitId].request.stages)
    && ResultOf(h, issues[p.permitId], p.permitId).permit == Some(p)
  }

  ghost predicate StoreOk(h: ContextHasher, p: Permits) {
    forall ref :: ref in p.store.permits ==> p.store.permits[ref].permitId == ref && Governed(h, p.issues, p.store.permits[ref])
  }

  lemma StepKeepsStoreOk(h: ContextHasher, w: World, step: Step)
    requires StoreOk(h, w.permits)
    ensures StoreOk(h, Apply(h, w, step).permits)
  {
  }

  // ---- the engine's side -----------------------------------------------------------------------------------

  /** A consumed permit was governed, unexpired at that moment, and bound to the request's tenant and context. */
  predicate Rightful(h: ContextHasher, issues: map<Id, Issue>, s: Spend) {
    && Governed(h, issues, s.permit)
    && s.now < s.permit.expiresAt
    && s.permit.tenantId == s.request.ticket.tenantId
    && s.permit.contextHash == s.request.contextHash == s.request.ticket.contextHash
    && s.permit.permitId == s.request.ticket.permitRef
  }

  ghost predicate SpendsOk(h: ContextHasher, issues: map<Id, Issue>, spends: map<Id, Spend>) {
    forall n :: n in spends ==> spends[n].permit.nonce == n && Rightful(h, issues, spends[n])
  }

  /** The spend is the one recorded for its nonce, and it belongs to this call. */
  predicate Recorded(spends: map<Id, Spend>, s: Spend, call: nat) {
    s.permit.nonce in spends && spends[s.permit.nonce] == s && s.call == call
  }

  predicate PhaseOk(e: Engine, call: nat, phase: Phase) {
    match phase
    case AwaitingSandbox(spend) => Recorded(e.spends, spend, call)
    case AwaitingExecutor(spend, run) => Recorded(e.spends, spend, call) && run < |e.runs| && e.runs[run].spend == spend
    case Finished(_, outcome, run, _) =>
      && (outcome in {EXECUTED, HANDLER_FAILED} <==> run.Some?)
      && (run.Some? ==> run.value < |e.runs| && e.runs[run.value].spend.call == call)
    case Rejected(spend) => Recorded(e.spends, spend, call)
  }

  ghost predicate CallsOk(e: Engine) {
    forall call :: call in e.calls ==> PhaseOk(e, call, e.calls[call])
  }

  predicate RunOf(phase: Phase, run: nat) {
    match phase
    case AwaitingExecutor(_, r) => r == run
    case Finished(_, _, r, _) => r == Some(run)
    case _ => false
  }

  /** Each executor call is the one executor call of the execution that spent its permit. */
  ghost predicate RunsOk(e: Engine) {
    forall i :: 0 <= i < |e.runs| ==> RunOk(e, i)
  }

  predicate RunOk(e: Engine, i: nat)
    requires i < |e.runs|
  {
    var s := e.runs[i].spend;
    Recorded(e.spends, s, s.call) && s.call in e.calls && RunOf(e.calls[s.call], i)
  }

  /** A nonce is recorded as spent exactly when the store refuses it. */
  predicate NoncesAgree(w: World) {
    w.engine.spends.Keys == w.permits.store.seenNonces
  }

  ghost predicate EngineOk(e: Engine) {
    CallsOk(e) && RunsOk(e)
  }

  lemma BeginKeepsEngineOk(w: World, call: nat, r: ExecutionRequest, seenTickets: set<string>, now: int, writable: bool)
    requires EngineOk(w.engine) && NoncesAgree(w) && call !in w.engine.calls
    ensures EngineOk(ApplyBegin(w, call, r, seenTickets, now, writable).engine)
    ensures NoncesAgree(ApplyBegin(w, call, r, seenTickets, now, writable))
  {
    var e, f := w.engine, ApplyBegin(w, call, r, seenTickets, now, writable).engine;
    forall i | 0 <= i < |f.runs| ensures RunOk(f, i) {
      assert RunOk(e, i);
    }
    forall c | c in f.calls ensures PhaseOk(f, c, f.calls[c]) {
      if c != call { assert PhaseOk(e, c, e.calls[c]); }
    }
  }

  lemma SandboxKeepsEngineOk(e: Engine, call: nat, admitted: bool, writable: bool, writableAfter: bool)
    requires EngineOk(e) && call in e.calls && e.calls[call].AwaitingSandbox?
    ensures EngineOk(ApplySandbox(e, call, e.calls[call].spend, admitted, writable, writableAfter))
  {
    var f := ApplySandbox(e, call, e.calls[call].spend, admitted, writable, writableAfter);
    assert PhaseOk(e, call, e.calls[call]);
    forall i | 0 <= i < |f.runs| ensures RunOk(f, i) {
      if i < |e.runs| { assert RunOk(e, i); }
    }
    forall c | c in f.calls ensures PhaseOk(f, c, f.calls[c]) {
      if c != call { assert PhaseOk(e, c, e.calls[c]); }
    }
  }

  lemma EngineStepKeepsOk(e: Engine, step: Step)
    requires EngineOk(e)
    ensures EngineOk(ApplyEngine(e, step))
    ensures ApplyEngine(e, step).spends == e.spends
  {
    var f := ApplyEngine(e, step);
    if step.SandboxReplied? && step.call in e.calls && e.calls[step.call].AwaitingSandbox? {
      SandboxKeepsEngineOk(e, step.call, step.admitted, step.writable, step.writableAfter);
    } else {
      forall i | 0 <= i < |f.runs| ensures RunOk(f, i) {
        assert RunOk(e, i);
      }
      forall c | c in f.calls ensures PhaseOk(f, c, f.calls[c]) {
        assert PhaseOk(e, c, e.calls[c]);
      }
    }
  }

  lemma StepKeepsEngineOk(h: ContextHasher, w: World, step: Step)
    requires EngineOk(w.engine) && NoncesAgree(w)
    ensures EngineOk(Apply(h, w, step).engine) && NoncesAgree(Apply(h, w, step))
  {
    match step
    case Begin(call, request, seenTickets, now, writable) =>
      if call !in w.engine.calls { BeginKeepsEngineOk(w, call, request, seenTickets, now, writable); }
    case Govern(_, _, _) =>
    case Adapt(_) =>
    case _ => EngineStepKeepsOk(w.engine, step);
  }

  // ---- every consumed permit was rightful -----------------------------------------------------------------------

  lemma GovernedPersists(h: ContextHasher, issues: map<Id, Issue>, permitId: Id, issue: Issue, p: Permit)
    requires permitId !in issues && Governed(h, issues, p)
    ensures Governed(h, issues[permitId := issue], p)
  {
  }

  lemma ConsumedIsRightful(h: ContextHasher, p: Permits, call: nat, r: ExecutionRequest, now: int)
    requires StoreOk(h, p) && r.ticket.contextHash == r.contextHash
    requires StoreStatus(p.store, r.ticket.permitRef, r.ticket.contextHash, r.ticket.tenantId, now) == CONSUMED
    ensures Rightful(h, p.issues, Spend(call, p.store.permits[r.ticket.permitRef], r, now))
  {
  }

  lemma SpendMore(h: ContextHasher, issues: map<Id, Issue>, spends: map<Id, Spend>, s: Spend)
    requires SpendsOk(h, issues, spends) && Rightful(h, issues, s)
    ensures SpendsOk(h, issues, spends[s.permit.nonce := s])
  {
  }

  lemma BeginSpendsRightfully(h: ContextHasher, w: World, call: nat, r: ExecutionRequest, seenTickets: set<string>, now: int, writable: bool)
    requires StoreOk(h, w.permits) && SpendsOk(h, w.permits.issues, w.engine.spends)
    ensures SpendsOk(h, w.permits.issues, ApplyBegin(w, call, r, seenTickets, now, writable).engine.spends)
    ensures ApplyBegin(w, call, r, seenTickets, now, writable).permits.issues == w.permits.issues
  {
    if r.ticket.contextHash == r.contextHash && TicketStatusOf(r.ticket, w.permits.store, seenTickets, now) == EXECUTED_ONCE {
      ConsumedIsRightful(h, w.permits, call, r, now);
      SpendMore(h, w.permits.issues, w.engine.spends, Spend(call, w.permits.store.permits[r.ticket.permitRef], r, now));
    }
  }

  lemma StepKeepsSpendsOk(h: ContextHasher, w: World, step: Step)
    requires StoreOk(h, w.permits) && SpendsOk(h, w.permits.issues, w.engine.spends) && EngineOk(w.engine)
    ensures SpendsOk(h, Apply(h, w, step).permits.issues, Apply(h, w, step).engine.spends)
  {
    match step
    case Begin(call, request, seenTickets, now, writable) =>
      BeginSpendsRightfully(h, w, call, request, seenTickets, now, writable);
    case Govern(request, permitId, nonce) =>
      if permitId !in w.permits.issues {
        forall n | n in w.engine.spends ensures Rightful(h, Apply(h, w, step).permits.issues, w.engine.spends[n]) {
          GovernedPersists(h, w.permits.issues, permitId, Issue(request, nonce), w.engine.spends[n].permit);
        }
      }
    case Adapt(_) =>
    case _ => EngineStepKeepsOk(w.engine, step);
  }

  // ---- over every interleaving -------------------------------------------------------------------------------------

  lemma {:induction false} Reachable(h: ContextHasher, steps: seq<Step>)
    ensures var w := After(h, steps);
      && StoreOk(h, w.permits) && NoncesAgree(w) && EngineOk(w.engine)
      && SpendsOk(h, w.permits.issues, w.engine.spends)
  {
    if steps != [] {
      var n := |steps| - 1;
      Reachable(h, steps[..n]);
      StepKeepsStoreOk(h, After(h, steps[..n]), steps[n]);
      StepKeepsEngineOk(h, After(h, steps[..n]), steps[n]);
      StepKeepsSpendsOk(h, After(h, steps[..n]), steps[n]);
    }
  }

  /** Over every interleaving the executor runs at most once per permit nonce, at most once per permit
      and at most once per execution. */
  lemma AtMostOneRunPerPermit(h: ContextHasher, steps: seq<Step>, i: nat, j: nat)
    requires i < j < |After(h, steps).engine.runs|
    ensures var a, b := After(h, steps).engine.runs[i].spend, After(h, steps).engine.runs[j].spend;
      a.permit.nonce != b.permit.nonce && a.permit.permitId != b.permit.permitId && a.call != b.call
  {
    Reachable(h, steps);
    RunsAreDistinct(h, After(h, steps), i, j);
  }

  lemma RunsAreDistinct(h: ContextHasher, w: World, i: nat, j: nat)
    requires EngineOk(w.engine) && SpendsOk(h, w.permits.issues, w.engine.spends)
    requires i < j < |w.engine.runs|
    ensures var a, b := w.engine.runs[i].spend, w.engine.runs[j].spend;
      a.permit.nonce != b.permit.nonce && a.permit.permitId != b.permit.permitId && a.call != b.call
  {
    var a, b := w.engine.runs[i].spend, w.engine.runs[j].spend;
    assert RunOk(w.engine, i) && RunOk(w.engine, j);
    assert Governed(h, w.permits.issues, a.permit) && Governed(h, w.permits.issues, b.permit);
  }

  /** Every run used a permit that came from a result with every governance stage positive, for the ticket's
      own tenant, was unexpired when consumed, and was bound to the ticket's tenant and the request's context. */
  lemma EveryRunIsGoverned(h: ContextHasher, steps: seq<Step>, i: nat)
    requires i < |After(h, steps).engine.runs|
    ensures var issues, s := After(h, steps).permits.issues, After(h, steps).engine.runs[i].spend;
      && Rightful(h, issues, s)
      && var governed := issues[s.request.ticket.permitRef];
      && EveryStagePositive(governed.request.stages)
      && Grants(s.permit, governed.request, s.request.ticket.permitRef, governed.nonce)
      && governed.request.tenantId == s.request.ticket.tenantId
  {
    Reachable(h, steps);
    assert RunOk(After(h, steps).engine, i);
  }

  /** An execution ends as executed or failed exactly when the executor was called for it. */
  lemma OutcomeTellsWhetherItRan(h: ContextHasher, steps: seq<Step>, call: nat)
    requires call in After(h, steps).engine.calls && After(h, steps).engine.calls[call].Finished?
    ensures var e := After(h, steps).engine;
      e.calls[call].outcome in {EXECUTED, HANDLER_FAILED} <==>
      exists i :: 0 <= i < |e.runs| && e.runs[i].spend.call == call
  {
    Reachable(h, steps);
    FinishedRan(After(h, steps).engine, call);
  }

  lemma FinishedRan(e: Engine, call: nat)
    requires EngineOk(e) && call in e.calls && e.calls[call].Finished?
    ensures e.calls[call].outcome in {EXECUTED, HANDLER_FAILED} <==>
            exists i :: 0 <= i < |e.runs| && e.runs[i].spend.call == call
  {
    assert PhaseOk(e, call, e.calls[call]);
    if e.calls[call].ran.Some? {
      assert e.runs[e.calls[call].ran.value].spend.call == call;
    }
    if i :| 0 <= i < |e.runs| && e.runs[i].spend.call == call {
      assert RunOk(e, i);
    }
  }

  /** The other direction: a registered permit that is unspent, unexpired and rightly presented does
      lead to an executor call once the sandbox admits and the audit sink can be written. */
  lemma RightfulTicketRuns(h: ContextHasher, w: World, call: nat, r: ExecutionRequest, seenTickets: set<string>, now: int)
    requires call !in w.engine.calls
    requires r.ticket.permitRef in w.permits.store.permits
    requires var p := w.permits.store.permits[r.ticket.permitRef];
      && p.nonce !in w.permits.store.seenNonces && now < p.expiresAt
      && p.tenantId == r.ticket.tenantId && p.contextHash == r.ticket.contextHash == r.contextHash
    requires TicketKey(r.ticket) !in seenTickets
    ensures var p := w.permits.store.permits[r.ticket.permitRef];
      var began := Apply(h, w, Begin(call, r, seenTickets, now, true));
      var ran := Apply(h, began, SandboxReplied(call, true, true, true));
      ran.engine.runs == w.engine.runs + [Run(Spend(call, p, r, now))]
  {
  }

  // ---- the audit log -------------------------------------------------------------------------------------------------

  /** A finished execution that recorded its outcome finds its own entry where it says. */
  predicate EntryOk(audit: seq<Audited>, call: nat, phase: Phase) {
    phase.Finished? && phase.audited.Some? ==>
      phase.audited.value < |audit| && audit[phase.audited.value] == Audited(call, EntryOf(phase.request, phase.outcome))
  }

  /** An entry belongs to the finished execution that names it. */
  predicate EntryOwned(calls: map<nat, Phase>, call: nat, i: nat) {
    call in calls && calls[call].Finished? && calls[call].audited == Some(i)
  }

  ghost predicate LogOk(calls: map<nat, Phase>, audit: seq<Audited>) {
    && (forall call :: call in calls ==> EntryOk(audit, call, calls[call]))
    && forall i :: 0 <= i < |audit| ==> EntryOwned(calls, audit[i].call, i)
  }

  predicate Unfinished(calls: map<nat, Phase>, call: nat) {
    call in calls ==> !calls[call].Finished?
  }

  lemma MoveKeepsLog(calls: map<nat, Phase>, audit: seq<Audited>, call: nat, phase: Phase)
    requires LogOk(calls, audit) && !phase.Finished? && Unfinished(calls, call)
    ensures LogOk(calls[call := phase], audit)
  {
  }

  lemma FinishKeepsLog(e: Engine, call: nat, r: ExecutionRequest, outcome: ExecutionOutcome, run: Option<nat>, writable: bool)
    requires LogOk(e.calls, e.audit) && Unfinished(e.calls, call)
    ensures var f := Finish(e, call, r, outcome, run, writable); LogOk(f.calls, f.audit)
  {
  }

  lemma BeginKeepsLog(w: World, call: nat, r: ExecutionRequest, seenTickets: set<string>, now: int, writable: bool)
    requires LogOk(w.engine.calls, w.engine.audit) && call !in w.engine.calls
    ensures var f := ApplyBegin(w, call, r, seenTickets, now, writable).engine; LogOk(f.calls, f.audit)
  {
    var e, f := w.engine, ApplyBegin(w, call, r, seenTickets, now, writable).engine;
    if f.calls[call].Finished? {
      FinishKeepsLog(e, call, r, f.calls[call].outcome, None, writable);
    } else {
      MoveKeepsLog(e.calls, e.audit, call, f.calls[call]);
    }
  }

  lemma EngineStepKeepsLog(e: Engine, step: Step)
    requires LogOk(e.calls, e.audit)
    ensures LogOk(ApplyEngine(e, step).calls, ApplyEngine(e, step).audit)
  {
    var f := ApplyEngine(e, step);
    match step
    case SandboxReplied(call, _, _, writableAfter) =>
      if call in e.calls && e.calls[call].AwaitingSandbox? {
        if f.calls[call].Finished? {
          FinishKeepsLog(e, call, e.calls[call].spend.request, f.calls[call].outcome, None, writableAfter);
        } else {
          MoveKeepsLog(e.calls, e.audit, call, f.calls[call]);
        }
      }
    case SandboxThrew(call) =>
      if call in e.calls && e.calls[call].AwaitingSandbox? { MoveKeepsLog(e.calls, e.audit, call, f.calls[call]); }
    case ExecutorReplied(call, _, writable) =>
      if call in e.calls && e.calls[call].AwaitingExecutor? {
        FinishKeepsLog(e, call, e.calls[call].spend.request, f.calls[call].outcome, Some(e.calls[call].run), writable);
      }
    case _ =>
  }

  lemma {:induction false} LogStaysOk(h: ContextHasher, steps: seq<Step>)
    ensures LogOk(After(h, steps).engine.calls, After(h, steps).engine.audit)
  {
    if steps != [] {
      var n := |steps| - 1;
      LogStaysOk(h, steps[..n]);
      var w := After(h, steps[..n]);
      match steps[n]
      case Begin(call, r, seenTickets, now, writable) =>
        if call !in w.engine.calls { BeginKeepsLog(w, call, r, seenTickets, now, writable); }
      case _ => EngineStepKeepsLog(w.engine, steps[n]);
    }
  }

  ghost predicate HasEntry(audit: seq<Audited>, call: nat) {
    exists i :: 0 <= i < |audit| && audit[i].call == call
  }

  predicate RecordedOutcome(calls: map<nat, Phase>, call: nat) {
    call in calls && calls[call].Finished? && calls[call].audited.Some?
  }

  /** The entry names the ticket's tenant and permit, the request's workspace and the outcome. */
  predicate Describes(entry: AuditEntry, r: ExecutionRequest, outcome: ExecutionOutcome) {
    && entry.tenantId == r.ticket.tenantId && entry.workspaceId == r.workspaceId
    && entry.ticketRef == r.ticket.permitRef && entry.outcome == outcome
  }

  /** Over every interleaving the audit log holds exactly one entry for each finished execution that
      recorded its outcome, with that execution's own tenant, workspace, ticket and outcome, and no other
      entries. */
  lemma AuditLogIsExact(h: ContextHasher, steps: seq<Step>)
    ensures var e := After(h, steps).engine;
      && (forall call :: HasEntry(e.audit, call) <==> RecordedOutcome(e.calls, call))
      && (forall i, j :: 0 <= i < j < |e.audit| ==> e.audit[i].call != e.audit[j].call)
      && (forall i :: 0 <= i < |e.audit| ==>
            var call := e.audit[i].call;
            RecordedOutcome(e.calls, call) && Describes(e.audit[i].entry, e.calls[call].request, e.calls[call].outcome))
  {
    LogStaysOk(h, steps);
    LogIsExact(After(h, steps).engine.calls, After(h, steps).engine.audit);
  }

  lemma LogIsExact(calls: map<nat, Phase>, audit: seq<Audited>)
    requires LogOk(calls, audit)
    ensures forall call :: HasEntry(audit, call) <==> RecordedOutcome(calls, call)
    ensures forall i, j :: 0 <= i < j < |audit| ==> audit[i].call != audit[j].call
    ensures forall i :: 0 <= i < |audit| ==>
              RecordedOutcome(calls, audit[i].call) &&
              audit[i].entry == EntryOf(calls[audit[i].call].request, calls[audit[i].call].outcome)
  {
    forall call | RecordedOutcome(calls, call) ensures HasEntry(audit, call) {
      assert EntryOk(audit, call, calls[call]);
      assert audit[calls[call].audited.value].call == call;
    }
    forall i, j | 0 <= i < j < |audit| ensures audit[i].call != audit[j].call {
      assert EntryOwned(calls, audit[i].call, i) && EntryOwned(calls, audit[j].call, j);
    }
    forall i | 0 <= i < |audit|
      ensures RecordedOutcome(calls, audit[i].call) && EntryOk(audit, audit[i].call, calls[audit[i].call]) && EntryOwned(calls, audit[i].call, i)
    {
      assert EntryOwned(calls, audit[i].call, i);
    }
  }

  lemma AfterSnoc(h: ContextHasher, steps: seq<Step>, step: Step)
    ensures After(h, steps + [step]) == Apply(h, After(h, steps), step)
  {
    assert (steps + [step])[..|steps|] == steps;
  }

  /** Over every interleaving: an execution whose executor has been called has no entry yet, and once the
      executor answers it has one exactly if the sink can then be written. */
  lemma RunIsAuditedIff(h: ContextHasher, steps: seq<Step>, call: nat, reply: ExecutorReply, writable: bool)
    requires call in After(h, steps).engine.calls && After(h, steps).engine.calls[call].AwaitingExecutor?
    ensures !HasEntry(After(h, steps).engine.audit, call)
    ensures HasEntry(After(h, steps + [ExecutorReplied(call, reply, writable)]).engine.audit, call) <==> writable
  {
    var step := ExecutorReplied(call, reply, writable);
    AuditLogIsExact(h, steps);
    AuditLogIsExact(h, steps + [step]);
    AfterSnoc(h, steps, step);
    assert RecordedOutcome(After(h, steps + [step]).engine.calls, call) <==> writable;
  }

  // ---- an effect that nobody recorded ------------------------------------------------------------------------------------

  const POSITIVE := Stages(true, true, false, true, true, CapabilityGranted, Authorized, PolicySet.ALLOW, LOW, false, NotRequired, true)

  const ASKED := PipelineRequest("d", "t", "w", "p", "act", "type", "id", POSITIVE, 0, 10)

  function Presented(h: ContextHasher): ExecutionRequest {
    ExecutionRequest(Ticket("action", "permit", ContextHash(h, ASKED), "t", 0), ContextHash(h, ASKED), "cap", "w")
  }

  lemma PermitIsStored(h: ContextHasher, req: PipelineRequest, permitId: Id, nonce: Id)
    requires EveryStagePositive(req.stages)
    ensures After(h, [Govern(req, permitId, nonce), Adapt(permitId)]) ==
            World(Permits(map[permitId := Issue(req, nonce)], Store(map[permitId := PermitFor(h, req, permitId, nonce)], {})), INITIAL.engine)
  {
    var first, second := Govern(req, permitId, nonce), Adapt(permitId);
    AfterSnoc(h, [], first);
    AfterSnoc(h, [first], second);
    assert [] + [first] == [first] && [first] + [second] == [first, second];
    assert ResultOf(h, Issue(req, nonce), permitId).permit == Some(PermitFor(h, req, permitId, nonce));
  }

  /** Whatever state the first ticket is presented in, its effect runs and nothing is logged when the
      sink fails at the end. */
  lemma EffectBeforeAudit(h: ContextHasher, w: World, r: ExecutionRequest)
    requires w.engine == INITIAL.engine && w.permits.store.seenNonces == {}
    requires r.ticket.permitRef in w.permits.store.permits
    requires var p := w.permits.store.permits[r.ticket.permitRef];
      5 < p.expiresAt && p.tenantId == r.ticket.tenantId && p.contextHash == r.ticket.contextHash == r.contextHash
    ensures var began := Apply(h, w, Begin(0, r, {}, 5, true));
      var e := Apply(h, Apply(h, began, SandboxReplied(0, true, true, true)), ExecutorReplied(0, Succeeded, false)).engine;
      |e.runs| == 1 && e.audit == [] && 0 in e.calls && e.calls[0].Finished? && e.calls[0].outcome == EXECUTED
  {
    RightfulTicketRuns(h, w, 0, r, {}, 5);
  }

  /** A governed execution runs its effect, and the log stays empty. */
  lemma RunCanGoUnrecorded(h: ContextHasher) returns (steps: seq<Step>)
    ensures var e := After(h, steps).engine;
      |e.runs| == 1 && e.audit == [] && 0 in e.calls && e.calls[0].Finished? && e.calls[0].outcome == EXECUTED
  {
    var stored := [Govern(ASKED, "permit", "nonce"), Adapt("permit")];
    PermitIsStored(h, ASKED, "permit", "nonce");
    EffectBeforeAudit(h, After(h, stored), Presented(h));
    var one := stored + [Begin(0, Presented(h), {}, 5, true)];
    var two := one + [SandboxReplied(0, true, true, true)];
    AfterSnoc(h, stored, Begin(0, Presented(h), {}, 5, true));
    AfterSnoc(h, one, SandboxReplied(0, true, true, true));
    AfterSnoc(h, two, ExecutorReplied(0, Succeeded, false));
    steps := two + [ExecutorReplied(0, Succeeded, false)];
  }
}

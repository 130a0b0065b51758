/** packages/agent-execution/src/reference.ts and engine.ts: what the outcome of an execution tells about the
    answers it was given, over every interleaving. */
module ExecutionOutcomes {
  import opened Base
  import opened Governance
  import opened ExecutionEngine

  // ---- what each execution was told ----------------------------------------------------------------------

  datatype SandboxAnswer = SandboxAnswer(admitted: bool, sinkWritable: bool)

  /** The request an execution began with, and the first answers it got from the sandbox and the executor. */
  datatype Told = Told(request: ExecutionRequest, sandbox: Option<SandboxAnswer>, executor: Option<ExecutorReply>)

  function HearSandbox(t: Told, answer: SandboxAnswer): Told {
    if t.sandbox.None? then t.(sandbox := Some(answer)) else t
  }

  function HearExecutor(t: Told, reply: ExecutorReply): Told {
    if t.sandbox.Some? && t.executor.None? then t.(executor := Some(reply)) else t
  }

  /** The answers are read off the steps alone. */
  function Hear(told: map<nat, Told>, step: Step): map<nat, Told> {
    match step
    case Begin(call, request, _, _, _) => if call in told then told else told[call := Told(request, None, None)]
    case SandboxReplied(call, admitted, writable, _) =>
      if call in told then told[call := HearSandbox(told[call], SandboxAnswer(admitted, writable))] else told
    case ExecutorReplied(call, reply, _) => if call in told then told[call := HearExecutor(told[call], reply)] else told
    case _ => told
  }

  function Heard(steps: seq<Step>): map<nat, Told> {
    if steps == [] then map[] else Hear(Heard(steps[..|steps| - 1]), steps[|steps| - 1])
  }

  /** The execution consumed a permit. */
  ghost predicate Spent(spends: map<Id, Spend>, call: nat) {
    exists n :: n in spends && spends[n].call == call
  }

  predicate HashesAgree(t: Told) {
    t.request.ticket.contextHash == t.request.contextHash
  }

  predicate Cleared(t: Told) {
    t.sandbox == Some(SandboxAnswer(true, true))
  }

  /** Each outcome goes with its own answers, and with no others; a permit is consumed only for hashes that agree. */
  predicate OutcomeTold(spent: bool, t: Told, outcome: ExecutionOutcome) {
    && (spent ==> HashesAgree(t))
    && (outcome == TICKET_CONTEXT_MISMATCH <==> !HashesAgree(t))
    && (outcome == OUTCOME_PERMIT_REJECTED <==> HashesAgree(t) && !spent)
    && (outcome == SANDBOX_DENIED <==> spent && t.sandbox.Some? && !t.sandbox.value.admitted)
    && (outcome == OUTCOME_AUDIT_UNAVAILABLE <==> spent && t.sandbox == Some(SandboxAnswer(true, false)))
    && (outcome == HANDLER_FAILED <==> spent && Cleared(t) && (t.executor == Some(NotOk) || t.executor == Some(ExecutorThrew)))
    && (outcome == EXECUTED <==> spent && Cleared(t) && t.executor == Some(Succeeded))
  }

  // ---- the invariant ---------------------------------------------------------------------------------------

  ghost predicate PhaseTold(spends: map<Id, Spend>, call: nat, phase: Phase, t: Told) {
    match phase
    case AwaitingSandbox(spend) =>
      Recorded(spends, spend, call) && spend.request == t.request && HashesAgree(t) && t.sandbox.None? && t.executor.None?
    case AwaitingExecutor(spend, _) =>
      Recorded(spends, spend, call) && spend.request == t.request && HashesAgree(t) && Cleared(t) && t.executor.None?
    case Finished(request, outcome, _, _) => request == t.request && OutcomeTold(Spent(spends, call), t, outcome)
    case Rejected(_) => true
  }

  ghost predicate AllTold(e: Engine, told: map<nat, Told>) {
    && told.Keys == e.calls.Keys
    && (forall call :: call in e.calls ==> PhaseTold(e.spends, call, e.calls[call], told[call]))
    && forall n :: n in e.spends ==> e.spends[n].call in e.calls
  }

  /** Another execution's permit, with a nonce not seen before, changes nothing for this one. */
  lemma OthersSpendKeeps(spends: map<Id, Spend>, nonce: Id, s: Spend, call: nat, phase: Phase, t: Told)
    requires nonce !in spends && s.call != call && PhaseTold(spends, call, phase, t)
    ensures PhaseTold(spends[nonce := s], call, phase, t)
  {
    var next := spends[nonce := s];
    assert forall n :: n in spends ==> n in next && next[n] == spends[n];
    assert Spent(next, call) <==> Spent(spends, call);
  }

  lemma BeginIsTold(w: World, call: nat, r: ExecutionRequest, seenTickets: set<string>, now: int, writable: bool)
    requires !Spent(w.engine.spends, call)
    ensures var f := ApplyBegin(w, call, r, seenTickets, now, writable).engine;
      && call in f.calls && f.calls == w.engine.calls[call := f.calls[call]]
      && PhaseTold(f.spends, call, f.calls[call], Told(r, None, None))
  {
  }

  /** Beginning leaves the spends alone or adds one for this execution, under a nonce not seen before. */
  lemma BeginSpendsOnce(w: World, call: nat, r: ExecutionRequest, seenTickets: set<string>, now: int, writable: bool)
    requires NoncesAgree(w)
    ensures var f := ApplyBegin(w, call, r, seenTickets, now, writable).engine;
      || f.spends == w.engine.spends
      || (f.calls[call].AwaitingSandbox? &&
          var s := f.calls[call].spend;
          s.call == call && s.permit.nonce !in w.engine.spends && f.spends == w.engine.spends[s.permit.nonce := s])
  {
  }

  lemma BeginKeepsTold(w: World, told: map<nat, Told>, call: nat, r: ExecutionRequest, seenTickets: set<string>, now: int, writable: bool)
    requires AllTold(w.engine, told) && NoncesAgree(w) && call !in w.engine.calls
    ensures AllTold(ApplyBegin(w, call, r, seenTickets, now, writable).engine, told[call := Told(r, None, None)])
  {
    var e, f := w.engine, ApplyBegin(w, call, r, seenTickets, now, writable).engine;
    var next := told[call := Told(r, None, None)];
    BeginIsTold(w, call, r, seenTickets, now, writable);
    BeginSpendsOnce(w, call, r, seenTickets, now, writable);
    forall c | c in f.calls ensures PhaseTold(f.spends, c, f.calls[c], next[c]) {
      if c != call && f.spends != e.spends {
        var spend := f.calls[call].spend;
        OthersSpendKeeps(e.spends, spend.permit.nonce, spend, c, e.calls[c], told[c]);
      }
    }
  }

  /** Once the outcome is there, a further answer changes nothing that it depends on. */
  lemma LateAnswer(spent: bool, t: Told, outcome: ExecutionOutcome, answer: SandboxAnswer, reply: ExecutorReply)
    requires OutcomeTold(spent, t, outcome)
    ensures OutcomeTold(spent, HearSandbox(t, answer), outcome) && OutcomeTold(spent, HearExecutor(t, reply), outcome)
  {
  }

  lemma LateKeepsTold(spends: map<Id, Spend>, call: nat, phase: Phase, t: Told, answer: SandboxAnswer, reply: ExecutorReply)
    requires PhaseTold(spends, call, phase, t)
    ensures !phase.AwaitingSandbox? ==> PhaseTold(spends, call, phase, HearSandbox(t, answer))
    ensures !phase.AwaitingExecutor? ==> PhaseTold(spends, call, phase, HearExecutor(t, reply))
  {
    if phase.Finished? { LateAnswer(Spent(spends, call), t, phase.outcome, answer, reply); }
  }

  /** The sandbox answers: the execution goes on or ends, or the answer comes too late. */
  lemma SandboxKeepsTold(e: Engine, call: nat, phase: Phase, t: Told, admitted: bool, writable: bool, after: bool)
    requires call in e.calls && e.calls[call] == phase && PhaseTold(e.spends, call, phase, t)
    ensures PhaseTold(e.spends, call, ApplyEngine(e, SandboxReplied(call, admitted, writable, after)).calls[call],
                      HearSandbox(t, SandboxAnswer(admitted, writable)))
  {
    if phase.AwaitingSandbox? {
      assert Spent(e.spends, call);
    } else {
      LateKeepsTold(e.spends, call, phase, t, SandboxAnswer(admitted, writable), NotOk);
    }
  }

  lemma ExecutorKeepsTold(e: Engine, call: nat, phase: Phase, t: Told, reply: ExecutorReply, writable: bool)
    requires call in e.calls && e.calls[call] == phase && PhaseTold(e.spends, call, phase, t)
    ensures PhaseTold(e.spends, call, ApplyEngine(e, ExecutorReplied(call, reply, writable)).calls[call], HearExecutor(t, reply))
  {
    if phase.AwaitingExecutor? {
      assert Spent(e.spends, call);
    } else {
      LateKeepsTold(e.spends, call, phase, t, SandboxAnswer(true, true), reply);
    }
  }

  lemma OneCallTold(e: Engine, told: map<nat, Told>, call: nat, f: Engine, t: Told)
    requires AllTold(e, told) && call in e.calls && f.spends == e.spends
    requires call in f.calls && f.calls == e.calls[call := f.calls[call]] && PhaseTold(e.spends, call, f.calls[call], t)
    ensures AllTold(f, told[call := t])
  {
    var next := told[call := t];
    forall c | c in f.calls ensures PhaseTold(f.spends, c, f.calls[c], next[c]) {
      if c != call { assert PhaseTold(e.spends, c, e.calls[c], told[c]); }
    }
  }

  /** An answer concerns the execution it is for, and no other. */
  lemma OnlyThatCall(e: Engine, step: Step)
    requires (step.SandboxReplied? || step.SandboxThrew? || step.ExecutorReplied?) && step.call in e.calls
    ensures var f := ApplyEngine(e, step);
      f.spends == e.spends && step.call in f.calls && f.calls == e.calls[step.call := f.calls[step.call]]
  {
  }

  lemma EngineStepKeepsTold(e: Engine, told: map<nat, Told>, step: Step)
    requires AllTold(e, told) && (step.SandboxReplied? || step.SandboxThrew? || step.ExecutorReplied?) && step.call in e.calls
    ensures AllTold(ApplyEngine(e, step), Hear(told, step))
  {
    var f := ApplyEngine(e, step);
    OnlyThatCall(e, step);
    match step
    case SandboxReplied(call, admitted, writable, after) =>
      SandboxKeepsTold(e, call, e.calls[call], told[call], admitted, writable, after);
      OneCallTold(e, told, call, f, HearSandbox(told[call], SandboxAnswer(admitted, writable)));
    case SandboxThrew(call) =>
      OneCallTold(e, told, call, f, told[call]);
      assert told[call := told[call]] == told;
    case ExecutorReplied(call, reply, writable) =>
      ExecutorKeepsTold(e, call, e.calls[call], told[call], reply, writable);
      OneCallTold(e, told, call, f, HearExecutor(told[call], reply));
  }

  lemma {:induction false} AnswersStayTold(h: ContextHasher, steps: seq<Step>)
    ensures AllTold(After(h, steps).engine, Heard(steps))
  {
    if steps != [] {
      var n := |steps| - 1;
      var w, told := After(h, steps[..n]), Heard(steps[..n]);
      AnswersStayTold(h, steps[..n]);
      Reachable(h, steps[..n]);
      if steps[n].Begin? {
        var Begin(call, r, seenTickets, now, writable) := steps[n];
        if call !in w.engine.calls { BeginKeepsTold(w, told, call, r, seenTickets, now, writable); }
      } else if (steps[n].SandboxReplied? || steps[n].SandboxThrew? || steps[n].ExecutorReplied?) && steps[n].call in w.engine.calls {
        EngineStepKeepsTold(w.engine, told, steps[n]);
      }
    }
  }

  // ---- the results ------------------------------------------------------------------------------------------

  /** Over every interleaving the outcome of a finished execution is fixed by its request, by whether it
      consumed a permit and by the first answers of the sandbox, the audit sink and the executor. */
  lemma OutcomeIsDecided(h: ContextHasher, steps: seq<Step>, call: nat)
    requires call in After(h, steps).engine.calls && After(h, steps).engine.calls[call].Finished?
    ensures call in Heard(steps)
    ensures var e, t := After(h, steps).engine, Heard(steps)[call];
      e.calls[call].request == t.request && OutcomeTold(Spent(e.spends, call), t, e.calls[call].outcome)
  {
    AnswersStayTold(h, steps);
  }

  /** The executor's reply alone decides between executed and failed; whether the sink can be written then
      changes nothing. */
  lemma ReplyDecides(h: ContextHasher, steps: seq<Step>, call: nat, reply: ExecutorReply, writable: bool)
    requires call in After(h, steps).engine.calls && After(h, steps).engine.calls[call].AwaitingExecutor?
    ensures var e := After(h, steps + [ExecutorReplied(call, reply, writable)]).engine;
      && call in e.calls && e.calls[call].Finished?
      && e.calls[call].outcome == if reply == Succeeded then EXECUTED else HANDLER_FAILED
  {
    AfterSnoc(h, steps, ExecutorReplied(call, reply, writable));
  }

  /** The ticket is new and its permit registered, unspent, unexpired and bound to the ticket's tenant and context. */
  predicate Presentable(store: Store, spends: map<Id, Spend>, t: Ticket, seenTickets: set<string>, now: int) {
    && t.actionId + ":" + t.permitRef !in seenTickets
    && t.permitRef in store.permits
    && var p := store.permits[t.permitRef];
    && p.nonce !in spends && now < p.expiresAt && p.tenantId == t.tenantId && p.contextHash == t.contextHash
  }

  /** Over every interleaving an execution that begins consumes a permit exactly when the hashes agree and its
      ticket is presentable. */
  lemma BeginSpendsIff(h: ContextHasher, steps: seq<Step>, call: nat, r: ExecutionRequest, seenTickets: set<string>, now: int, writable: bool)
    requires call !in After(h, steps).engine.calls
    ensures var w := After(h, steps);
      Spent(After(h, steps + [Begin(call, r, seenTickets, now, writable)]).engine.spends, call) <==>
      r.ticket.contextHash == r.contextHash && Presentable(w.permits.store, w.engine.spends, r.ticket, seenTickets, now)
  {
    AfterSnoc(h, steps, Begin(call, r, seenTickets, now, writable));
    AnswersStayTold(h, steps);
    Reachable(h, steps);
    SpendsIff(After(h, steps), call, r, seenTickets, now, writable);
  }

  lemma SpendsIff(w: World, call: nat, r: ExecutionRequest, seenTickets: set<string>, now: int, writable: bool)
    requires NoncesAgree(w) && call !in w.engine.calls && forall n :: n in w.engine.spends ==> w.engine.spends[n].call in w.engine.calls
    ensures Spent(ApplyBegin(w, call, r, seenTickets, now, writable).engine.spends, call) <==>
            r.ticket.contextHash == r.contextHash && Presentable(w.permits.store, w.engine.spends, r.ticket, seenTickets, now)
  {
    var next := ApplyBegin(w, call, r, seenTickets, now, writable).engine;
    assert !Spent(w.engine.spends, call);
    assert TicketKey(r.ticket) == r.ticket.actionId + ":" + r.ticket.permitRef;
    if r.ticket.contextHash == r.contextHash && TicketStatusOf(r.ticket, w.permits.store, seenTickets, now) == EXECUTED_ONCE {
      assert next.spends[w.permits.store.permits[r.ticket.permitRef].nonce].call == call;
    }
  }
}

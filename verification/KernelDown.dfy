/** packages/kernel/src/kernel.ts under interleaving: whether a kernel that was shut down stays down. */
module KernelDown {
  import opened Base
  import opened Kahn
  import opened BootOrder
  import opened Kernel
  import opened KernelSteps

  predicate Down(state: KernelState) {
    state == ShuttingDown || state == Stopped
  }

  /** A pause or a resume is in progress. */
  predicate Halfway(phase: Phase) {
    phase.Pausing? || phase.Resuming?
  }

  ghost predicate NoneHalfway(calls: map<nat, Phase>) {
    forall c :: c in calls ==> !Halfway(calls[c])
  }

  /** A step by `call` keeps the kernel down and starts no pause or resume. */
  predicate StaysDown(w: World, v: World, call: nat) {
    && Down(v.k.state) && (w.k.state == Stopped ==> v.k.state == Stopped)
    && call in v.calls && v.calls == w.calls[call := v.calls[call]] && !Halfway(v.calls[call])
  }

  lemma ShutdownStaysDown(w: World, call: nat, p: StopPhase)
    requires Down(w.k.state) && StopOk(w.k, p)
    ensures StaysDown(w, ProceedShutdown(w, call, p), call)
  {
    match p
    case Announced => StopNextShape(w, call, w.k, ResolveShutdownOrder(w.k.modules, w.k.bootOrder), 0);
    case Halting(order, i) => StopNextShape(w, call, Mark(w.k, order[i], STOPPED), order, i + 1);
  }

  lemma CrashStaysDown(s: Setting, w: World, call: nat, id: Id, c: CrashPhase, a: Answer)
    requires Down(w.k.state)
    ensures StaysDown(w, ProceedCrash(s, w, call, id, c, a), call)
  {
  }

  lemma PollStaysDown(w: World, call: nat, k: K, ids: seq<Id>, i: nat)
    requires Down(w.k.state) && k.state == w.k.state
    ensures StaysDown(w, PollNext(w, call, k, ids, i), call)
  {
    PollNextShape(w, call, k, ids, i);
  }

  lemma BeginStaysDown(w: World, call: nat, op: Op)
    requires Down(w.k.state)
    ensures StaysDown(w, ApplyBegin(w, call, op), call)
  {
    if op.DoHealth? { PollStaysDown(w, call, w.k, IdsOf(w.k.modules), 0); }
  }

  lemma ProceedStaysDown(s: Setting, w: World, call: nat, phase: Phase, a: Answer)
    requires Down(w.k.state) && call in w.calls && w.calls[call] == phase && !Halfway(phase)
    requires PhaseOk(w.k, w.boot.booter, call, phase)
    ensures StaysDown(w, ApplyProceed(s, w, call, phase, a), call)
  {
    assert w.calls == w.calls[call := phase];
    match phase
    case InShutdown(p) => ShutdownStaysDown(w, call, p);
    case Polling(ids, i) => PollStaysDown(w, call, Mark(w.k, ids[i], if a.ok then a.health else FAILED), ids, i + 1);
    case InCrash(id, c) => CrashStaysDown(s, w, call, id, c, a);
    case _ =>
  }

  lemma StepStaysDown(s: Setting, idLess: Before, w: World, step: Step)
    requires Resolver(s, idLess) && Sound(w) && Down(w.k.state) && NoneHalfway(w.calls)
    ensures var v := Apply(s, w, step);
      Sound(v) && Down(v.k.state) && NoneHalfway(v.calls) && (w.k.state == Stopped ==> v.k.state == Stopped)
  {
    StepKeepsCalls(s, idLess, w, step);
    match step
    case Register(m) =>
    case Begin(call, op) => if call !in w.calls { BeginStaysDown(w, call, op); }
    case Proceed(call, a) =>
      if call in w.calls {
        assert PhaseOk(w.k, w.boot.booter, call, w.calls[call]);
        ProceedStaysDown(s, w, call, w.calls[call], a);
      }
  }

  lemma {:induction false} RunStaysDown(s: Setting, idLess: Before, w: World, steps: seq<Step>)
    requires Resolver(s, idLess) && Sound(w) && Down(w.k.state) && NoneHalfway(w.calls)
    ensures var v := Continue(s, w, steps);
      Sound(v) && Down(v.k.state) && NoneHalfway(v.calls) && (w.k.state == Stopped ==> v.k.state == Stopped)
  {
    if steps != [] {
      RunStaysDown(s, idLess, w, steps[..|steps| - 1]);
      StepStaysDown(s, idLess, Continue(s, w, steps[..|steps| - 1]), steps[|steps| - 1]);
    }
  }

  // ---- the other direction: a pause or resume in progress can always finish -----------------------------------

  /** Left to itself a pause ends in `paused` and a resume in `running`, whatever the kernel's state is. */
  lemma {:induction false} HalfwayFinishes(s: Setting, w: World, call: nat) returns (steps: seq<Step>)
    requires call in w.calls && Halfway(w.calls[call])
    ensures Continue(s, w, steps).k.state == if w.calls[call].Pausing? then Paused else Running
    decreases if w.calls[call].i < |w.calls[call].order| then |w.calls[call].order| - w.calls[call].i else 0
  {
    var step := Proceed(call, GOES_ON);
    var v := Apply(s, w, step);
    if w.calls[call].i + 1 >= |w.calls[call].order| {
      steps := [step];
      assert [] + [step] == steps;
      ContinueSnoc(s, w, [], step);
    } else {
      var rest := HalfwayFinishes(s, v, call);
      ContinueCons(s, w, step, rest);
      steps := [step] + rest;
    }
  }

  /** A kernel that is shutting down or stopped stays so, whatever calls follow, exactly when no pause or
      resume is in progress. */
  lemma DownForGoodIff(s: Setting, idLess: Before, w: World)
    requires Resolver(s, idLess) && Sound(w) && Down(w.k.state)
    ensures (forall steps :: Down(Continue(s, w, steps).k.state)) <==> NoneHalfway(w.calls)
  {
    if NoneHalfway(w.calls) {
      forall steps ensures Down(Continue(s, w, steps).k.state) {
        RunStaysDown(s, idLess, w, steps);
      }
    } else {
      var c :| c in w.calls && Halfway(w.calls[c]);
      var steps := HalfwayFinishes(s, w, c);
    }
  }

  /** Over every interleaving: a stopped kernel stays stopped exactly when no pause or resume is in progress. */
  lemma StoppedIsFinalIff(s: Setting, idLess: Before, steps: seq<Step>)
    requires Resolver(s, idLess) && After(s, steps).k.state == Stopped
    ensures (forall more :: Continue(s, After(s, steps), more).k.state == Stopped) <==> NoneHalfway(After(s, steps).calls)
  {
    var w := After(s, steps);
    CallsStayOk(s, idLess, steps);
    DownForGoodIff(s, idLess, w);
    if NoneHalfway(w.calls) {
      forall more ensures Continue(s, w, more).k.state == Stopped {
        RunStaysDown(s, idLess, w, more);
      }
    }
  }

  /** Over every interleaving: an accepted shutdown is final exactly when no pause or resume was in progress
      when it was accepted. */
  lemma AcceptedShutdownIsFinalIff(s: Setting, idLess: Before, steps: seq<Step>, call: nat)
    requires Resolver(s, idLess) && CanShutDown(After(s, steps).k.state) && call !in After(s, steps).calls
    ensures var w := After(s, steps);
      (forall more :: Down(Continue(s, Apply(s, w, Begin(call, DoShutdown)), more).k.state)) <==> NoneHalfway(w.calls)
  {
    var w := After(s, steps);
    var v := Apply(s, w, Begin(call, DoShutdown));
    CallsStayOk(s, idLess, steps);
    StepKeepsCalls(s, idLess, w, Begin(call, DoShutdown));
    assert v.calls == w.calls[call := InShutdown(Announced)];
    assert NoneHalfway(v.calls) <==> NoneHalfway(w.calls) by {
      if c :| c in w.calls && Halfway(w.calls[c]) { assert v.calls[c] == w.calls[c]; }
    }
    DownForGoodIff(s, idLess, v);
  }
}

/** packages/kernel/src/kernel.ts under interleaving: what boots and shutdowns make of a module's status,
    whatever else is going on. */
module KernelProgress {
  import opened Base
  import opened Kahn
  import opened BootOrder
  import opened Kernel
  import opened KernelSteps

  // ---- crash reports and polls touch a status -----------------------------------------------------------

  /** The call is a crash report or a health poll that may yet write the status of `id`. */
  predicate Touches(policy: RestartPolicy, phase: Phase, id: Id) {
    match phase
    case InCrash(x, c) => x == id && (c.Counted? ==> Decide(policy, c.count) == Restart)
    case Polling(ids, i) => i < |ids| && ids[i] == id
    case _ => false
  }

  ghost predicate NoneTouches(policy: RestartPolicy, calls: map<nat, Phase>, id: Id) {
    forall c :: c in calls ==> !Touches(policy, calls[c], id)
  }

  /** How often a crash report or a poll of `id` was begun. */
  function TouchCount(log: Log, id: Id): nat {
    multiset(log.touched)[id]
  }

  /** In the steps from `w` to `v` no crash report and no poll of `id` was begun. */
  predicate Spared(w: World, v: World, id: Id) {
    TouchCount(v.log, id) == TouchCount(w.log, id)
  }

  /** A step by `call` that touches `id` neither now nor later: only a boot and a stop change its status. */
  predicate Calm(policy: RestartPolicy, w: World, v: World, call: nat, id: Id) {
    && call in v.calls && !Touches(policy, v.calls[call], id)
    && (HealthOf(v.k.lives.status, id) == HealthOf(w.k.lives.status, id) || Booter(w, call) ||
        (!Early(w.k.state) && HealthOf(v.k.lives.status, id) == STOPPED))
  }

  /** Touches are only ever added. */
  predicate CountGrows(w: World, v: World, id: Id) {
    TouchCount(w.log, id) <= TouchCount(v.log, id)
  }

  lemma PollCalm(policy: RestartPolicy, w: World, call: nat, k: K, ids: seq<Id>, i: nat, id: Id)
    ensures var v := PollNext(w, call, k, ids, i);
      && CountGrows(w, v, id) && HealthOf(v.k.lives.status, id) == HealthOf(k.lives.status, id)
      && call in v.calls && (Spared(w, v, id) ==> !Touches(policy, v.calls[call], id))
  {
    PollNextShape(w, call, k, ids, i);
  }

  lemma CrashCalm(s: Setting, w: World, call: nat, x: Id, c: CrashPhase, a: Answer, id: Id)
    ensures CountGrows(w, ProceedCrash(s, w, call, x, c, a), id)
    ensures !Touches(s.policy, InCrash(x, c), id) ==> Calm(s.policy, w, ProceedCrash(s, w, call, x, c, a), call, id)
  {
  }

  lemma StopCalm(policy: RestartPolicy, w: World, call: nat, k: K, order: seq<Id>, i: nat, id: Id)
    requires !Early(w.k.state)
    requires HealthOf(k.lives.status, id) == HealthOf(w.k.lives.status, id) || HealthOf(k.lives.status, id) == STOPPED
    ensures CountGrows(w, StopNext(w, call, k, order, i), id) && Calm(policy, w, StopNext(w, call, k, order, i), call, id)
  {
    StopNextShape(w, call, k, order, i);
  }

  lemma ShutdownCalm(policy: RestartPolicy, w: World, call: nat, p: StopPhase, id: Id)
    requires !Early(w.k.state) && StopOk(w.k, p)
    ensures CountGrows(w, ProceedShutdown(w, call, p), id) && Calm(policy, w, ProceedShutdown(w, call, p), call, id)
  {
    match p
    case Announced => StopCalm(policy, w, call, w.k, ResolveShutdownOrder(w.k.modules, w.k.bootOrder), 0, id);
    case Halting(order, i) => StopCalm(policy, w, call, Mark(w.k, order[i], STOPPED), order, i + 1, id);
  }

  lemma BootCalm(s: Setting, w: World, call: nat, b: BootPhase, a: Answer, id: Id)
    requires Booter(w, call) && Within(w.k, b)
    ensures CountGrows(w, ProceedBoot(s, w, call, b, a), id) && Calm(s.policy, w, ProceedBoot(s, w, call, b, a), call, id)
  {
  }

  lemma BeginCalm(policy: RestartPolicy, w: World, call: nat, op: Op, id: Id)
    ensures var v := ApplyBegin(w, call, op); CountGrows(w, v, id) && (Spared(w, v, id) ==> Calm(policy, w, v, call, id))
  {
    match op
    case DoHealth => PollCalm(policy, w, call, w.k, IdsOf(w.k.modules), 0, id);
    case _ =>
  }

  lemma ProceedCalm(s: Setting, w: World, call: nat, phase: Phase, a: Answer, id: Id)
    requires call in w.calls && w.calls[call] == phase && PhaseOk(w.k, w.boot.booter, call, phase)
    ensures var v := ApplyProceed(s, w, call, phase, a);
      CountGrows(w, v, id) && (Spared(w, v, id) && !Touches(s.policy, phase, id) ==> Calm(s.policy, w, v, call, id))
  {
    match phase
    case InBoot(b) => BootCalm(s, w, call, b, a, id);
    case InShutdown(p) => ShutdownCalm(s.policy, w, call, p, id);
    case Polling(ids, i) => PollCalm(s.policy, w, call, Mark(w.k, ids[i], if a.ok then a.health else FAILED), ids, i + 1, id);
    case InCrash(x, c) => CrashCalm(s, w, call, x, c, a, id);
    case _ =>
  }

  lemma StepCountGrows(s: Setting, w: World, step: Step, id: Id)
    requires Sound(w)
    ensures CountGrows(w, Apply(s, w, step), id)
  {
    match step
    case Register(m) =>
    case Begin(call, op) => BeginCalm(s.policy, w, call, op, id);
    case Proceed(call, a) =>
      if call in w.calls {
        assert PhaseOk(w.k, w.boot.booter, call, w.calls[call]);
        ProceedCalm(s, w, call, w.calls[call], a, id);
      }
  }

  /** Whose step it is, if it is a step of a call at all. */
  predicate IsStepOf(w: World, step: Step, call: nat) {
    match step
    case Register(_) => false
    case Begin(c, _) => c == call && c !in w.calls
    case Proceed(c, _) => c == call && c in w.calls
  }

  lemma StepCalm(s: Setting, w: World, step: Step, call: nat, id: Id)
    requires Sound(w) && IsStepOf(w, step, call) && Spared(w, Apply(s, w, step), id) && NoneTouches(s.policy, w.calls, id)
    ensures Calm(s.policy, w, Apply(s, w, step), call, id)
  {
    if step.Begin? {
      BeginCalm(s.policy, w, call, step.op, id);
    } else {
      assert PhaseOk(w.k, w.boot.booter, call, w.calls[call]);
      ProceedCalm(s, w, call, w.calls[call], step.answer, id);
    }
  }

  lemma StepMoves(s: Setting, idLess: Before, w: World, step: Step, call: nat)
    requires Resolver(s, idLess) && Sound(w) && IsStepOf(w, step, call)
    ensures Moved(w, Apply(s, w, step), call)
  {
    if step.Begin? {
      BeginMoves(w, call, step.op);
    } else {
      assert PhaseOk(w.k, w.boot.booter, call, w.calls[call]);
      ProceedMoves(s, idLess, w, call, w.calls[call], step.answer);
    }
  }

  /** Without a touch in progress, and with none begun, there is none afterwards. */
  lemma StepKeepsNoneTouching(s: Setting, idLess: Before, w: World, step: Step, id: Id)
    requires Resolver(s, idLess) && Sound(w) && Spared(w, Apply(s, w, step), id) && NoneTouches(s.policy, w.calls, id)
    ensures NoneTouches(s.policy, Apply(s, w, step).calls, id)
  {
    if !step.Register? && IsStepOf(w, step, step.call) {
      StepMoves(s, idLess, w, step, step.call);
      StepCalm(s, w, step, step.call, id);
    }
  }

  // ---- the status of a module during a boot --------------------------------------------------------------

  /** The status a boot gives the module at position `p`, told from where the boot is; `h` is what it found. */
  function InBootStatus(b: BootPhase, p: nat, h: Health): Health {
    match b
    case Begun => h
    case Attached(i) => if p < i then READY else if p == i then INITIALIZING else h
    case Initializing(i) => if p < i then READY else if p == i then INITIALIZING else h
    case Starting(i) => if p < i then READY else if p == i then INITIALIZING else h
    case Started(i) => if p <= i then READY else h
    case Failing(i, _) => if p < i then READY else if p == i then FAILED else h
    case Unwinding(i, _, n) => if p < n then READY else if p < i then STOPPED else if p == i then FAILED else h
  }

  function EndStatus(e: BootEnd, p: nat, h: Health): Health {
    match e
    case Done => READY
    case Refused => h
    case Escaped(i) => if p < i then READY else h
    case Unwound(i, _) => if p < i then STOPPED else if p == i then FAILED else h
  }

  predicate StatusTold(status: map<Id, Health>, phase: Phase, id: Id, p: nat, h: Health) {
    match phase
    case InBoot(b) => HealthOf(status, id) == InBootStatus(b, p, h)
    case BootOver(e) => HealthOf(status, id) == EndStatus(e, p, h)
    case _ => false
  }

  /** `id` is at position `p` of the order and nowhere else. */
  ghost predicate At(order: seq<Id>, id: Id, p: nat) {
    p < |order| && forall i :: 0 <= i < |order| ==> (order[i] == id <==> i == p)
  }

  /** The registry resolves to an order with `id` at position `p`. */
  ghost predicate Placed(s: Setting, modules: seq<ModuleMetadata>, id: Id, p: nat) {
    s.resolve(modules).Ordered? && At(s.resolve(modules).order, id, p)
  }

  ghost predicate Tells(v: World, call: nat, id: Id, p: nat, h: Health) {
    call in v.calls && StatusTold(v.k.lives.status, v.calls[call], id, p, h)
  }

  lemma BootNextTells(w: World, call: nat, k: K, i: nat, attaches: bool, id: Id, p: nat, h: Health)
    requires i <= |k.bootOrder| && At(k.bootOrder, id, p) && HealthOf(k.lives.status, id) == if p < i then READY else h
    ensures Tells(BootNext(w, call, k, i, attaches), call, id, p, h)
  {
  }

  lemma UnwindTells(w: World, call: nat, k: K, i: nat, outcome: BootOutcome, n: nat, id: Id, p: nat, h: Health)
    requires n <= i < |k.bootOrder| && At(k.bootOrder, id, p)
    requires HealthOf(k.lives.status, id) == if p < n then READY else if p < i then STOPPED else if p == i then FAILED else h
    ensures Tells(UnwindNext(w, call, k, i, outcome, n), call, id, p, h)
  {
  }

  lemma ModuleTells(s: Setting, w: World, call: nat, b: BootPhase, a: Answer, id: Id, p: nat, h: Health)
    requires (b.Attached? || b.Initializing? || b.Starting?) && Within(w.k, b) && At(w.k.bootOrder, id, p)
    requires HealthOf(w.k.lives.status, id) == InBootStatus(b, p, h)
    ensures Tells(ProceedBoot(s, w, call, b, a), call, id, p, h)
  {
  }

  lemma ResolvedTells(s: Setting, w: World, call: nat, a: Answer, id: Id, p: nat, h: Health)
    requires HealthOf(w.k.lives.status, id) == h && Placed(s, w.k.modules, id, p)
    ensures Tells(ProceedBoot(s, w, call, Begun, a), call, id, p, h)
  {
    BootNextTells(w, call, w.k.(bootOrder := s.resolve(w.k.modules).order), 0, a.attaches, id, p, h);
  }

  lemma UnwindingTells(s: Setting, w: World, call: nat, b: BootPhase, a: Answer, id: Id, p: nat, h: Health)
    requires (b.Failing? || b.Unwinding?) && Within(w.k, b) && At(w.k.bootOrder, id, p)
    requires HealthOf(w.k.lives.status, id) == InBootStatus(b, p, h)
    ensures Tells(ProceedBoot(s, w, call, b, a), call, id, p, h)
  {
    if b.Failing? {
      UnwindTells(w, call, w.k, b.i, b.outcome, b.i, id, p, h);
    } else {
      UnwindTells(w, call, Mark(w.k, w.k.bootOrder[b.n - 1], STOPPED), b.i, b.outcome, b.n - 1, id, p, h);
    }
  }

  lemma BootTells(s: Setting, w: World, call: nat, b: BootPhase, a: Answer, id: Id, p: nat, h: Health)
    requires Within(w.k, b) && HealthOf(w.k.lives.status, id) == InBootStatus(b, p, h)
    requires if b.Begun? then Placed(s, w.k.modules, id, p) else At(w.k.bootOrder, id, p)
    ensures Tells(ProceedBoot(s, w, call, b, a), call, id, p, h)
  {
    if b.Begun? {
      ResolvedTells(s, w, call, a, id, p, h);
    } else if b.Started? {
      BootNextTells(w, call, w.k, b.i + 1, a.attaches, id, p, h);
    } else if b.Failing? || b.Unwinding? {
      UnwindingTells(s, w, call, b, a, id, p, h);
    } else {
      ModuleTells(s, w, call, b, a, id, p, h);
    }
  }

  /** The boot in progress has this registry's order, and its phase tells the status of `id`; before any boot
      the status is `h`. */
  ghost predicate BootTold(s: Setting, k: K, phase: Option<Phase>, id: Id, h: Health) {
    && (k.state == Created ==> HealthOf(k.lives.status, id) == h)
    && (phase.Some? && phase.value.InBoot? ==>
          && (!phase.value.boot.Begun? ==> s.resolve(k.modules) == Ordered(k.bootOrder))
          && forall p :: Placed(s, k.modules, id, p) ==> HealthOf(k.lives.status, id) == InBootStatus(phase.value.boot, p, h))
  }

  /** The phase of the call that boots. */
  function BootPhaseOf(w: World): Option<Phase> {
    if w.boot.booter.Some? && w.boot.booter.value in w.calls then Some(w.calls[w.boot.booter.value]) else None
  }

  ghost predicate Told(s: Setting, w: World, id: Id, h: Health) {
    BootTold(s, w.k, BootPhaseOf(w), id, h)
  }

  /** The booting call's own step, which may end the boot. */
  lemma BootStepTells(s: Setting, w: World, call: nat, a: Answer, id: Id, p: nat, h: Health)
    requires Sound(w) && Told(s, w, id, h) && call in w.calls && w.calls[call].InBoot? && Placed(s, w.k.modules, id, p)
    ensures Tells(Apply(s, w, Proceed(call, a)), call, id, p, h)
  {
    assert PhaseOk(w.k, w.boot.booter, call, w.calls[call]);
    BootTells(s, w, call, w.calls[call].boot, a, id, p, h);
  }

  lemma BootStepOrder(s: Setting, w: World, call: nat, b: BootPhase, a: Answer)
    requires Within(w.k, b) && (!b.Begun? ==> s.resolve(w.k.modules) == Ordered(w.k.bootOrder))
    ensures var v := ProceedBoot(s, w, call, b, a);
      && v.k.modules == w.k.modules && v.boot.booter == w.boot.booter && call in v.calls
      && (v.calls[call].InBoot? ==> v.k.state == w.k.state && !v.calls[call].boot.Begun? && s.resolve(v.k.modules) == Ordered(v.k.bootOrder))
  {
  }

  lemma BootStepKeepsTold(s: Setting, w: World, call: nat, a: Answer, id: Id, h: Health)
    requires Sound(w) && Told(s, w, id, h) && call in w.calls && w.calls[call].InBoot?
    ensures Told(s, Apply(s, w, Proceed(call, a)), id, h) || !Apply(s, w, Proceed(call, a)).calls[call].InBoot?
  {
    var v := Apply(s, w, Proceed(call, a));
    assert PhaseOk(w.k, w.boot.booter, call, w.calls[call]);
    BootStepOrder(s, w, call, w.calls[call].boot, a);
    if v.calls[call].InBoot? {
      forall p | Placed(s, v.k.modules, id, p) ensures HealthOf(v.k.lives.status, id) == InBootStatus(v.calls[call].boot, p, h) {
        BootStepTells(s, w, call, a, id, p, h);
      }
    }
  }

  /** A step of another call leaves the booting kernel's order and the status of `id` alone. */
  lemma OthersKeepTold(s: Setting, w: World, v: World, call: nat, id: Id, h: Health)
    requires Sound(w) && Sound(v) && Told(s, w, id, h) && Moved(w, v, call) && Calm(s.policy, w, v, call, id)
    requires w.k.state == Booting && w.boot.booter != Some(call)
    ensures Told(s, v, id, h)
  {
  }

  /** Before the boot, the step that begins it included. */
  lemma EarlierKeepsTold(s: Setting, w: World, step: Step, call: nat, id: Id, h: Health)
    requires Sound(w) && Told(s, w, id, h) && w.k.state == Created && IsStepOf(w, step, call)
    requires Calm(s.policy, w, Apply(s, w, step), call, id) && Sound(Apply(s, w, step))
    ensures Told(s, Apply(s, w, step), id, h)
  {
    var v := Apply(s, w, step);
    if step.Begin? && step.op.DoBoot? {
      assert v.calls[call] == InBoot(Begun) && v.k.lives.status == w.k.lives.status;
    } else {
      StaysCreated(s, w, step, call);
    }
  }

  lemma StaysCreated(s: Setting, w: World, step: Step, call: nat)
    requires Sound(w) && w.k.state == Created && IsStepOf(w, step, call) && !(step.Begin? && step.op.DoBoot?)
    ensures Apply(s, w, step).k.state == Created
  {
    if step.Begin? {
      PollNextShape(w, call, w.k, IdsOf(w.k.modules), 0);
    } else {
      var phase := w.calls[call];
      assert PhaseOk(w.k, w.boot.booter, call, phase);
      if phase.Polling? {
        PollNextShape(w, call, Mark(w.k, phase.ids[phase.i], if step.answer.ok then step.answer.health else FAILED), phase.ids, phase.i + 1);
      }
    }
  }

  lemma LaterKeepsTold(s: Setting, w: World, id: Id, h: Health)
    requires Sound(w) && !Early(w.k.state)
    ensures Told(s, w, id, h)
  {
    if BootPhaseOf(w).Some? { assert PhaseOk(w.k, w.boot.booter, w.boot.booter.value, w.calls[w.boot.booter.value]); }
  }

  lemma RegisterKeepsTold(s: Setting, w: World, m: ModuleMetadata, id: Id, h: Health)
    requires Sound(w) && Told(s, w, id, h) && (IsRegistered(w.k, id) || h == UNKNOWN)
    ensures Told(s, ApplyRegister(w, m), id, h)
  {
  }

  /** Every step that begins no report or poll of `id`, while none is in progress, keeps its status told. */
  lemma StepKeepsTold(s: Setting, idLess: Before, w: World, step: Step, id: Id, h: Health)
    requires Resolver(s, idLess) && Sound(w) && Told(s, w, id, h) && (IsRegistered(w.k, id) || h == UNKNOWN)
    requires NoneTouches(s.policy, w.calls, id) && Spared(w, Apply(s, w, step), id)
    ensures Told(s, Apply(s, w, step), id, h)
  {
    var v := Apply(s, w, step);
    StepKeepsCalls(s, idLess, w, step);
    if step.Register? {
      RegisterKeepsTold(s, w, step.m, id, h);
    } else if IsStepOf(w, step, step.call) {
      var call := step.call;
      StepMoves(s, idLess, w, step, call);
      StepCalm(s, w, step, call, id);
      if w.k.state == Created {
        EarlierKeepsTold(s, w, step, call, id, h);
      } else if w.k.state == Booting && w.boot.booter != Some(call) {
        OthersKeepTold(s, w, v, call, id, h);
      } else if w.k.state == Booting && step.Proceed? && w.calls[call].InBoot? {
        BootStepKeepsTold(s, w, call, step.answer, id, h);
      } else if w.k.state != Booting {
        LaterKeepsTold(s, v, id, h);
      } else {
        BooterIsOver(s, w, step, call);
      }
    }
  }

  /** A kernel that still boots although its booting call has ended: an attach hook threw. */
  lemma BooterIsOver(s: Setting, w: World, step: Step, call: nat)
    requires Sound(w) && w.k.state == Booting && w.boot.booter == Some(call) && IsStepOf(w, step, call)
    requires !(step.Proceed? && w.calls[call].InBoot?)
    ensures var v := Apply(s, w, step); BootPhaseOf(v).Some? ==> !BootPhaseOf(v).value.InBoot?
  {
    if step.Begin? {
      PollNextShape(w, call, w.k, IdsOf(w.k.modules), 0);
    } else {
      var phase := w.calls[call];
      assert PhaseOk(w.k, w.boot.booter, call, phase);
      if phase.Polling? {
        PollNextShape(w, call, Mark(w.k, phase.ids[phase.i], if step.answer.ok then step.answer.health else FAILED), phase.ids, phase.i + 1);
      }
    }
  }

  lemma {:induction false} RunCountGrows(s: Setting, idLess: Before, w: World, steps: seq<Step>, id: Id)
    requires Resolver(s, idLess) && Sound(w)
    ensures Sound(Continue(s, w, steps)) && CountGrows(w, Continue(s, w, steps), id)
  {
    if steps != [] {
      var x := Continue(s, w, steps[..|steps| - 1]);
      RunCountGrows(s, idLess, w, steps[..|steps| - 1], id);
      StepKeepsCalls(s, idLess, x, steps[|steps| - 1]);
      StepCountGrows(s, x, steps[|steps| - 1], id);
    }
  }

  /** A run that is spared is spared at each of its steps. */
  lemma SparedStepwise(s: Setting, idLess: Before, w: World, steps: seq<Step>, id: Id)
    requires Resolver(s, idLess) && Sound(w) && steps != [] && Spared(w, Continue(s, w, steps), id)
    ensures var x := Continue(s, w, steps[..|steps| - 1]);
      Sound(x) && Spared(w, x, id) && Spared(x, Apply(s, x, steps[|steps| - 1]), id)
  {
    var x := Continue(s, w, steps[..|steps| - 1]);
    RunCountGrows(s, idLess, w, steps[..|steps| - 1], id);
    StepCountGrows(s, x, steps[|steps| - 1], id);
  }

  lemma {:induction false} RunKeepsTold(s: Setting, idLess: Before, w: World, steps: seq<Step>, id: Id, h: Health)
    requires Resolver(s, idLess) && Sound(w) && Told(s, w, id, h) && (IsRegistered(w.k, id) || h == UNKNOWN)
    requires NoneTouches(s.policy, w.calls, id) && Spared(w, Continue(s, w, steps), id)
    ensures var v := Continue(s, w, steps);
      Sound(v) && Told(s, v, id, h) && NoneTouches(s.policy, v.calls, id) && (IsRegistered(v.k, id) || h == UNKNOWN)
  {
    if steps != [] {
      var n := |steps| - 1;
      SparedStepwise(s, idLess, w, steps, id);
      RunKeepsTold(s, idLess, w, steps[..n], id, h);
      var x := Continue(s, w, steps[..n]);
      StepKeepsCalls(s, idLess, x, steps[n]);
      StepKeepsTold(s, idLess, x, steps[n], id, h);
      StepKeepsNoneTouching(s, idLess, x, steps[n], id);
      if IsRegistered(x.k, id) { StepKeepsRegistered(s, idLess, x, steps[n], id); }
    }
  }

  lemma StepKeepsRegistered(s: Setting, idLess: Before, w: World, step: Step, id: Id)
    requires Resolver(s, idLess) && Sound(w) && IsRegistered(w.k, id)
    ensures IsRegistered(Apply(s, w, step).k, id)
  {
    match step
    case Register(m) => IndexSnoc(ModuleKey(), w.k.modules, m);
    case Begin(call, op) => BeginKeepsRegistry(w, call, op);
    case Proceed(call, a) =>
      if call in w.calls {
        assert PhaseOk(w.k, w.boot.booter, call, w.calls[call]);
        ProceedKeepsRegistry(s, idLess, w, call, w.calls[call], a);
      }
  }

  // ---- boots over every interleaving -----------------------------------------------------------------------

  /** The step completes or otherwise ends the boot of `call`. */
  predicate EndsBoot(s: Setting, w: World, call: nat, a: Answer, e: BootEnd) {
    call in w.calls && w.calls[call].InBoot? &&
    var v := Apply(s, w, Proceed(call, a));
    call in v.calls && v.calls[call] == BootOver(e)
  }

  /** Over every interleaving: a boot that ends tells the status of every module that no crash report or poll
      was touching when it began and none has touched since: READY when it is done; when it failed, STOPPED
      before the failing module, FAILED there, and as it was found after it. */
  lemma BootEndTells(s: Setting, idLess: Before, steps: seq<Step>, call: nat, more: seq<Step>, a: Answer, e: BootEnd, id: Id, p: nat)
    requires Resolver(s, idLess) && After(s, steps).k.state == Created && call !in After(s, steps).calls
    requires Placed(s, After(s, steps).k.modules, id, p) && NoneTouches(s.policy, After(s, steps).calls, id)
    requires var v := Apply(s, After(s, steps), Begin(call, DoBoot));
      Spared(v, Continue(s, v, more), id) && EndsBoot(s, Continue(s, v, more), call, a, e)
    ensures var v := Apply(s, After(s, steps), Begin(call, DoBoot));
      HealthOf(Apply(s, Continue(s, v, more), Proceed(call, a)).k.lives.status, id) ==
      EndStatus(e, p, HealthOf(After(s, steps).k.lives.status, id))
  {
    var w := After(s, steps);
    var v := Apply(s, w, Begin(call, DoBoot));
    var h := HealthOf(w.k.lives.status, id);
    CallsStayOk(s, idLess, steps);
    StepKeepsCalls(s, idLess, w, Begin(call, DoBoot));
    PlacedIsRegistered(s, idLess, w.k, id, p);
    RunKeepsTold(s, idLess, v, more, id, h);
    RegistryStays(s, idLess, v, more);
    BootStepTells(s, Continue(s, v, more), call, a, id, p, h);
  }

  lemma PlacedIsRegistered(s: Setting, idLess: Before, k: K, id: Id, p: nat)
    requires Resolver(s, idLess) && UniqueIds(k.modules) && Placed(s, k.modules, id, p)
    ensures IsRegistered(k, id)
  {
    ResolvedIsFull(s, idLess, k);
    assert s.resolve(k.modules).order[p] == id;
    assert id in s.resolve(k.modules).order;
  }

  lemma RegisteredIsPlaced(s: Setting, idLess: Before, k: K, id: Id) returns (p: nat)
    requires Resolver(s, idLess) && UniqueIds(k.modules) && IsRegistered(k, id) && s.resolve(k.modules).Ordered?
    ensures Placed(s, k.modules, id, p)
  {
    ResolvedIsFull(s, idLess, k);
    var order := s.resolve(k.modules).order;
    assert id in Elements(order);
    p :| 0 <= p < |order| && order[p] == id;
  }

  lemma {:induction false} RegistryStays(s: Setting, idLess: Before, w: World, more: seq<Step>)
    requires Resolver(s, idLess) && Sound(w) && w.k.state != Created
    ensures Continue(s, w, more).k.modules == w.k.modules && Continue(s, w, more).k.state != Created && Sound(Continue(s, w, more))
  {
    if more != [] {
      var n := |more| - 1;
      RegistryStays(s, idLess, w, more[..n]);
      StepKeepsCalls(s, idLess, Continue(s, w, more[..n]), more[n]);
      StepKeepsRegistry(s, idLess, Continue(s, w, more[..n]), more[n]);
    }
  }

  // ---- shutdowns over every interleaving --------------------------------------------------------------------

  /** How far a shutdown in this order has brought the module at position `p`. */
  predicate StopTold(status: map<Id, Health>, phase: Phase, order: seq<Id>, id: Id, p: nat) {
    match phase
    case InShutdown(Announced) => true
    case InShutdown(Halting(o, i)) => o == order && (p < i ==> HealthOf(status, id) == STOPPED)
    case Ended => HealthOf(status, id) == STOPPED
    case _ => false
  }

  lemma StopNextTells(w: World, call: nat, k: K, order: seq<Id>, i: nat, id: Id, p: nat)
    requires p < |order| && order[p] == id && id in ById(k.modules).Keys && (p < i ==> HealthOf(k.lives.status, id) == STOPPED)
    ensures var v := StopNext(w, call, k, order, i); call in v.calls && StopTold(v.k.lives.status, v.calls[call], order, id, p)
  {
    StopNextShape(w, call, k, order, i);
    if i <= p && !NotStopped(ById(k.modules).Keys, k.lives.status, order[p]) {
      assert HealthOf(k.lives.status, id) == STOPPED;
    }
  }

  lemma HaltingTells(w: World, call: nat, order: seq<Id>, i: nat, id: Id, p: nat)
    requires i < |order| && p < |order| && order[p] == id && id in ById(w.k.modules).Keys
    requires p < i ==> HealthOf(w.k.lives.status, id) == STOPPED
    ensures var v := ProceedShutdown(w, call, Halting(order, i)); call in v.calls && StopTold(v.k.lives.status, v.calls[call], order, id, p)
  {
    StopNextTells(w, call, Mark(w.k, order[i], STOPPED), order, i + 1, id, p);
  }

  lemma ShutdownTells(w: World, call: nat, q: StopPhase, order: seq<Id>, id: Id, p: nat)
    requires order == ResolveShutdownOrder(w.k.modules, w.k.bootOrder) && StopOk(w.k, q)
    requires p < |order| && order[p] == id && id in ById(w.k.modules).Keys && StopTold(w.k.lives.status, InShutdown(q), order, id, p)
    ensures var v := ProceedShutdown(w, call, q); call in v.calls && StopTold(v.k.lives.status, v.calls[call], order, id, p)
  {
    if q.Announced? {
      StopNextTells(w, call, w.k, order, 0, id, p);
    } else {
      HaltingTells(w, call, order, q.i, id, p);
    }
  }

  /** A shutdown in progress or ended, on the registry and order of the kernel. */
  ghost predicate StopInv(w: World, call: nat, order: seq<Id>, id: Id, p: nat) {
    && !Early(w.k.state) && order == ResolveShutdownOrder(w.k.modules, w.k.bootOrder) && id in ById(w.k.modules).Keys
    && call in w.calls && StopTold(w.k.lives.status, w.calls[call], order, id, p)
  }

  lemma StepKeepsStopInv(s: Setting, idLess: Before, w: World, step: Step, call: nat, order: seq<Id>, id: Id, p: nat)
    requires Resolver(s, idLess) && Sound(w) && StopInv(w, call, order, id, p) && p < |order| && order[p] == id
    requires NoneTouches(s.policy, w.calls, id) && Spared(w, Apply(s, w, step), id)
    ensures StopInv(Apply(s, w, step), call, order, id, p)
  {
    var v := Apply(s, w, step);
    if !step.Register? && IsStepOf(w, step, step.call) {
      StepMoves(s, idLess, w, step, step.call);
      StepCalm(s, w, step, step.call, id);
      if step.call == call && w.calls[call].InShutdown? {
        assert PhaseOk(w.k, w.boot.booter, call, w.calls[call]);
        ShutdownTells(w, call, w.calls[call].stop, order, id, p);
      } else if step.call == call {
        assert v == w;
      }
    }
  }

  lemma {:induction false} RunKeepsStopInv(s: Setting, idLess: Before, w: World, steps: seq<Step>, call: nat, order: seq<Id>, id: Id, p: nat)
    requires Resolver(s, idLess) && Sound(w) && StopInv(w, call, order, id, p) && p < |order| && order[p] == id
    requires NoneTouches(s.policy, w.calls, id) && Spared(w, Continue(s, w, steps), id)
    ensures var v := Continue(s, w, steps); Sound(v) && StopInv(v, call, order, id, p) && NoneTouches(s.policy, v.calls, id)
  {
    if steps != [] {
      var n := |steps| - 1;
      SparedStepwise(s, idLess, w, steps, id);
      RunKeepsStopInv(s, idLess, w, steps[..n], call, order, id, p);
      var x := Continue(s, w, steps[..n]);
      StepKeepsCalls(s, idLess, x, steps[n]);
      StepKeepsStopInv(s, idLess, x, steps[n], call, order, id, p);
      StepKeepsNoneTouching(s, idLess, x, steps[n], id);
    }
  }

  lemma StopPosition(k: K, id: Id) returns (p: nat)
    requires (k.bootOrder == [] || Full(k)) && id in k.bootOrder
    ensures var order := ResolveShutdownOrder(k.modules, k.bootOrder);
      p < |order| && order[p] == id && id in ById(k.modules).Keys
  {
    var order := ResolveShutdownOrder(k.modules, k.bootOrder);
    ShutdownIsPermutation(k.modules, k.bootOrder);
    PermutationMembers(order, k.bootOrder);
    assert id in Elements(k.bootOrder);
    p :| 0 <= p < |order| && order[p] == id;
  }

  /** Over every interleaving: once an accepted shutdown has completed, every module of the boot order that no
      crash report or poll was touching when it was accepted, and none has touched since, is STOPPED. */
  lemma StoppedWhenShutDown(s: Setting, idLess: Before, steps: seq<Step>, call: nat, more: seq<Step>, id: Id)
    requires Resolver(s, idLess) && CanShutDown(After(s, steps).k.state) && call !in After(s, steps).calls
    requires id in After(s, steps).k.bootOrder && NoneTouches(s.policy, After(s, steps).calls, id)
    requires var v := Apply(s, After(s, steps), Begin(call, DoShutdown));
      var x := Continue(s, v, more);
      Spared(v, x, id) && call in x.calls && x.calls[call] == Ended
    ensures var v := Apply(s, After(s, steps), Begin(call, DoShutdown));
      HealthOf(Continue(s, v, more).k.lives.status, id) == STOPPED
  {
    var w := After(s, steps);
    var v := Apply(s, w, Begin(call, DoShutdown));
    CallsStayOk(s, idLess, steps);
    StepKeepsCalls(s, idLess, w, Begin(call, DoShutdown));
    var p := StopPosition(w.k, id);
    RunKeepsStopInv(s, idLess, v, more, call, ResolveShutdownOrder(w.k.modules, w.k.bootOrder), id, p);
  }
}

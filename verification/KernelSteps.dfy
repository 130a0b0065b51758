/** packages/kernel/src/kernel.ts with its lifecycle calls cut at their awaits: any number of boots,
    shutdowns, pauses, resumes, health polls and crash reports may be in progress at once. */
module KernelSteps {
  import opened Base
  import opened Kahn
  import opened BootOrder
  import opened Kernel

  /** The restart policy, and what boot-order resolution answers for a registry. */
  datatype Setting = Setting(policy: RestartPolicy, resolve: seq<ModuleMetadata> -> Resolution)

  ghost predicate Resolver(s: Setting, idLess: Before) {
    forall modules :: UniqueIds(modules) ==> Resolves(modules, idLess, s.resolve(modules))
  }

  ghost predicate Resolvable(modules: seq<ModuleMetadata>, idLess: Before) {
    exists r :: Resolves(modules, idLess, r)
  }

  ghost function SomeResolution(modules: seq<ModuleMetadata>, idLess: Before): (r: Resolution)
    ensures Resolvable(modules, idLess) ==> Resolves(modules, idLess, r)
  {
    if Resolvable(modules, idLess) then
      var r :| Resolves(modules, idLess, r);
      r
    else Ordered([])
  }

  /** Resolution is defined for every registry, so there are such settings, whatever the policy. */
  lemma ResolverExists(policy: RestartPolicy, idLess: Before) returns (s: Setting)
    requires StrictTotal(idLess)
    ensures s.policy == policy && Resolver(s, idLess)
  {
    s := Setting(policy, modules => SomeResolution(modules, idLess));
    forall modules | UniqueIds(modules) ensures Resolves(modules, idLess, s.resolve(modules)) {
      var r := ResolutionExists(modules, idLess);
      assert Resolvable(modules, idLess);
    }
  }

  /** Where a boot is suspended; `i` is the position in the boot order of the module being booted. While
      unwinding, `n` started modules are still to be stopped, and the last of them is being shut down. */
  datatype BootPhase =
    | Begun
    | Attached(i: nat)
    | Initializing(i: nat)
    | Starting(i: nat)
    | Started(i: nat)
    | Failing(i: nat, outcome: BootOutcome)
    | Unwinding(i: nat, outcome: BootOutcome, n: nat)

  datatype BootEnd = Done | Refused | Escaped(i: nat) | Unwound(i: nat, outcome: BootOutcome)

  datatype StopPhase = Announced | Halting(order: seq<Id>, i: nat)

  /** A crash report after counting the failure, and the two awaits of a restart. */
  datatype CrashPhase = Counted(count: nat, entry: nat) | Reinitializing | Restarting

  datatype Phase =
    | InBoot(boot: BootPhase)
    | BootOver(end: BootEnd)
    | InShutdown(stop: StopPhase)
    | Pausing(order: seq<Id>, i: nat)
    | Resuming(order: seq<Id>, i: nat)
    | Polling(ids: seq<Id>, i: nat)
    | InCrash(id: Id, crash: CrashPhase)
    | Ended

  /** What the awaited hook did, whether the next module attaches if that is tried in this segment, and what
      a health hook that did not throw reported. */
  datatype Answer = Answer(ok: bool, attaches: bool, health: Health)

  datatype Op = DoBoot | DoShutdown | DoPause | DoResume | DoHealth | DoCrash(id: Id)

  datatype Step = Register(m: ModuleMetadata) | Begin(call: nat, op: Op) | Proceed(call: nat, answer: Answer)

  /** A counted failure: of a module, by the crash report `source` or at boot. */
  datatype Failure = Failure(id: Id, source: Option<nat>)

  /** History: every counted failure, the decision taken for each crash report, and the modules for which a
      crash report or a health poll was begun, in order. */
  datatype Log = Log(failures: seq<Failure>, decided: map<nat, Decision>, touched: seq<Id>)

  /** History: the call that booted the kernel, and the hooks it called. */
  datatype BootLog = BootLog(booter: Option<nat>, hooks: seq<Hook>)

  datatype World = World(k: K, calls: map<nat, Phase>, boot: BootLog, log: Log)

  const INITIAL := World(K(Created, [], [], map[], Lives(map[], [])), map[], BootLog(None, []), Log([], map[], []))

  function Mark(k: K, id: Id, h: Health): K {
    k.(lives := k.lives.(status := k.lives.status[id := h]))
  }

  function Goto(w: World, call: nat, k: K, phase: Phase): World {
    w.(k := k, calls := w.calls[call := phase])
  }

  // ---- boot ------------------------------------------------------------------------------------------

  /** A segment of the boot that calls `hooks` on the way to its next phase. */
  function BootMove(w: World, call: nat, k: K, hooks: seq<Hook>, phase: Phase): World {
    Goto(w, call, Called(k, hooks), phase).(boot := w.boot.(hooks := w.boot.hooks + hooks))
  }

  /** The head of the boot loop. */
  function BootNext(w: World, call: nat, k: K, i: nat, attaches: bool): World {
    if i >= |k.bootOrder| then BootMove(w, call, k.(state := Running), [], BootOver(Done))
    else if attaches then BootMove(w, call, Mark(k, k.bootOrder[i], INITIALIZING), [Attach(k.bootOrder[i])], InBoot(Attached(i)))
    else BootMove(w, call, k, [Attach(k.bootOrder[i])], BootOver(Escaped(i)))
  }

  /** The catch block up to its first await. */
  function BootFail(w: World, call: nat, i: nat, outcome: BootOutcome): World
    requires i < |w.k.bootOrder|
  {
    BootMove(w, call, MarkFailed(w.k, w.k.bootOrder[i]), [], InBoot(Failing(i, outcome)))
      .(log := w.log.(failures := w.log.failures + [Failure(w.k.bootOrder[i], None)]))
  }

  function UnwindNext(w: World, call: nat, k: K, i: nat, outcome: BootOutcome, n: nat): World
    requires n <= |k.bootOrder|
  {
    if n == 0 then BootMove(w, call, k.(state := BootFailed), [], BootOver(Unwound(i, outcome)))
    else BootMove(w, call, k, [Shutdown(k.bootOrder[n - 1])], InBoot(Unwinding(i, outcome, n)))
  }

  function Resolved(s: Setting, w: World, call: nat, attaches: bool): World {
    var r := s.resolve(w.k.modules);
    if r.Ordered? then BootNext(w, call, w.k.(bootOrder := r.order), 0, attaches)
    else BootMove(w, call, w.k.(state := BootFailed), [], BootOver(Refused))
  }

  /** A boot on a position of the boot order; the guard only makes the function total. */
  predicate Within(k: K, b: BootPhase) {
    b.Begun? || (b.i < |k.bootOrder| && (b.Unwinding? ==> 0 < b.n <= b.i))
  }

  function ProceedBoot(s: Setting, w: World, call: nat, b: BootPhase, a: Answer): World {
    if !Within(w.k, b) then w
    else
      var order := w.k.bootOrder;
      match b
      case Begun => Resolved(s, w, call, a.attaches)
      case Attached(i) => BootMove(w, call, w.k, [Initialize(order[i])], InBoot(Initializing(i)))
      case Initializing(i) =>
        if a.ok then BootMove(w, call, w.k, [Start(order[i])], InBoot(Starting(i))) else BootFail(w, call, i, InitializeThrows)
      case Starting(i) =>
        if a.ok then BootMove(w, call, Mark(w.k, order[i], READY), [], InBoot(Started(i))) else BootFail(w, call, i, StartThrows)
      case Started(i) => BootNext(w, call, w.k, i + 1, a.attaches)
      case Failing(i, outcome) => UnwindNext(w, call, w.k, i, outcome, i)
      case Unwinding(i, outcome, n) => UnwindNext(w, call, Mark(w.k, order[n - 1], STOPPED), i, outcome, n - 1)
  }

  // ---- shutdown, pause and resume ------------------------------------------------------------------------

  /** The head of the shutdown loop: the next module that is not stopped yet. */
  function StopNext(w: World, call: nat, k: K, order: seq<Id>, i: nat): World
    decreases |order| - i
  {
    if i >= |order| then Goto(w, call, k.(state := Stopped), Ended)
    else if NotStopped(ById(k.modules).Keys, k.lives.status, order[i]) then
      Goto(w, call, Called(k, [Shutdown(order[i])]), InShutdown(Halting(order, i)))
    else StopNext(w, call, k, order, i + 1)
  }

  function AcceptShutdown(w: World, call: nat): World {
    if CanShutDown(w.k.state) then Goto(w, call, w.k.(state := ShuttingDown), InShutdown(Announced))
    else Goto(w, call, w.k, Ended)
  }

  function ProceedShutdown(w: World, call: nat, p: StopPhase): World {
    match p
    case Announced => StopNext(w, call, w.k, ResolveShutdownOrder(w.k.modules, w.k.bootOrder), 0)
    case Halting(order, i) => if i < |order| then StopNext(w, call, Mark(w.k, order[i], STOPPED), order, i + 1) else w
  }

  function PauseNext(w: World, call: nat, order: seq<Id>, i: nat): World {
    if i >= |order| then Goto(w, call, w.k.(state := Paused), Ended)
    else Goto(w, call, Called(w.k, [Pause(order[i])]), Pausing(order, i))
  }

  function ResumeNext(w: World, call: nat, order: seq<Id>, i: nat): World {
    if i >= |order| then Goto(w, call, w.k.(state := Running), Ended)
    else Goto(w, call, Called(w.k, [Resume(order[i])]), Resuming(order, i))
  }

  // ---- health polls -----------------------------------------------------------------------------------------

  function Touch(log: Log, id: Id): Log {
    log.(touched := log.touched + [id])
  }

  /** The head of the polling loop: the next module whose status says it is up. */
  function PollNext(w: World, call: nat, k: K, ids: seq<Id>, i: nat): World
    decreases |ids| - i
  {
    if i >= |ids| then Goto(w, call, k, Ended)
    else if IsUp(k.lives.status, ids[i]) then
      Goto(w, call, Called(k, [Healthy(ids[i])]), Polling(ids, i)).(log := Touch(w.log, ids[i]))
    else PollNext(w, call, k, ids, i + 1)
  }

  /** The status is written after the await; a hook that throws counts as failed. */
  function ProceedPoll(w: World, call: nat, ids: seq<Id>, i: nat, a: Answer): World {
    if i < |ids| then PollNext(w, call, Mark(w.k, ids[i], if a.ok then a.health else FAILED), ids, i + 1) else w
  }

  // ---- crash reports ----------------------------------------------------------------------------------------

  /** The failure is counted before the first await. */
  function BeginCrash(w: World, call: nat, id: Id): World {
    if !IsRegistered(w.k, id) then Goto(w, call, w.k, Ended)
    else
      Goto(w, call, MarkFailed(w.k, id), InCrash(id, Counted(FailuresOf(w.k.failures, id) + 1, |w.log.failures|)))
        .(log := w.log.(failures := w.log.failures + [Failure(id, Some(call))], touched := w.log.touched + [id]))
  }

  function DecideCrash(s: Setting, w: World, call: nat, id: Id, count: nat, entry: nat): World {
    var d := Decide(s.policy, count);
    var v := w.(log := w.log.(decided := w.log.decided[entry := d]));
    match d
    case Restart => Goto(v, call, Called(w.k, [Initialize(id)]), InCrash(id, Reinitializing))
    case StopKernel => AcceptShutdown(v, call)
    case LeaveFailed => Goto(v, call, w.k, Ended)
  }

  function ProceedCrash(s: Setting, w: World, call: nat, id: Id, c: CrashPhase, a: Answer): World {
    match c
    case Counted(count, entry) => DecideCrash(s, w, call, id, count, entry)
    case Reinitializing =>
      if a.ok then Goto(w, call, Called(w.k, [Start(id)]), InCrash(id, Restarting)) else Goto(w, call, Mark(w.k, id, FAILED), Ended)
    case Restarting => Goto(w, call, Mark(w.k, id, if a.ok then READY else FAILED), Ended)
  }

  // ---- the step system ----------------------------------------------------------------------------------------

  function ApplyRegister(w: World, m: ModuleMetadata): World {
    if w.k.state != Created || IsRegistered(w.k, m.id) then w
    else w.(k := Mark(w.k.(modules := w.k.modules + [m]), m.id, UNKNOWN))
  }

  function BeginBoot(w: World, call: nat): World {
    if w.k.state != Created then Goto(w, call, w.k, Ended)
    else Goto(w, call, w.k.(state := Booting), InBoot(Begun)).(boot := BootLog(Some(call), []))
  }

  function ApplyBegin(w: World, call: nat, op: Op): World {
    match op
    case DoBoot => BeginBoot(w, call)
    case DoShutdown => AcceptShutdown(w, call)
    case DoPause => if w.k.state == Running then PauseNext(w, call, Reverse(w.k.bootOrder), 0) else Goto(w, call, w.k, Ended)
    case DoResume => if w.k.state == Paused then ResumeNext(w, call, w.k.bootOrder, 0) else Goto(w, call, w.k, Ended)
    case DoHealth => PollNext(w, call, w.k, IdsOf(w.k.modules), 0)
    case DoCrash(id) => BeginCrash(w, call, id)
  }

  function ApplyProceed(s: Setting, w: World, call: nat, phase: Phase, a: Answer): World {
    match phase
    case InBoot(b) => ProceedBoot(s, w, call, b, a)
    case InShutdown(p) => ProceedShutdown(w, call, p)
    case Pausing(order, i) => if a.ok then PauseNext(w, call, order, i + 1) else Goto(w, call, w.k, Ended)
    case Resuming(order, i) => if a.ok then ResumeNext(w, call, order, i + 1) else Goto(w, call, w.k, Ended)
    case Polling(ids, i) => ProceedPoll(w, call, ids, i, a)
    case InCrash(id, c) => ProceedCrash(s, w, call, id, c, a)
    case BootOver(_) => w
    case Ended => w
  }

  function Apply(s: Setting, w: World, step: Step): World {
    match step
    case Register(m) => ApplyRegister(w, m)
    case Begin(call, op) => if call in w.calls then w else ApplyBegin(w, call, op)
    case Proceed(call, a) => if call in w.calls then ApplyProceed(s, w, call, w.calls[call], a) else w
  }

  function Continue(s: Setting, w: World, steps: seq<Step>): World {
    if steps == [] then w
    else Apply(s, Continue(s, w, steps[..|steps| - 1]), steps[|steps| - 1])
  }

  function After(s: Setting, steps: seq<Step>): World {
    Continue(s, INITIAL, steps)
  }

  lemma ContinueSnoc(s: Setting, w: World, steps: seq<Step>, step: Step)
    ensures Continue(s, w, steps + [step]) == Apply(s, Continue(s, w, steps), step)
  {
    assert (steps + [step])[..|steps|] == steps;
  }

  const GOES_ON := Answer(true, true, READY)

  const THROWS := Answer(false, true, READY)

  lemma {:induction false} ContinueCons(s: Setting, w: World, step: Step, steps: seq<Step>)
    ensures Continue(s, w, [step] + steps) == Continue(s, Apply(s, w, step), steps)
  {
    if steps == [] {
      assert [step] + steps == [step] && [step][..0] == [];
      assert Continue(s, w, [step]) == Apply(s, Continue(s, w, []), step);
    } else {
      var n := |steps| - 1;
      ContinueCons(s, w, step, steps[..n]);
      ContinueSnoc(s, w, [step] + steps[..n], steps[n]);
      ContinueSnoc(s, Apply(s, w, step), steps[..n], steps[n]);
      assert steps[..n] + [steps[n]] == steps;
      assert ([step] + steps[..n]) + [steps[n]] == [step] + steps;
    }
  }

  lemma {:induction false} ContinueConcat(s: Setting, w: World, a: seq<Step>, b: seq<Step>)
    ensures Continue(s, w, a + b) == Continue(s, Continue(s, w, a), b)
  {
    if b == [] {
      assert a + b == a;
    } else {
      var n := |b| - 1;
      ContinueConcat(s, w, a, b[..n]);
      assert a + b == (a + b[..n]) + [b[n]];
      ContinueSnoc(s, w, a + b[..n], b[n]);
    }
  }

  // ---- where calls can be -----------------------------------------------------------------------------------

  predicate Early(state: KernelState) {
    state == Created || state == Booting
  }

  /** The boot order lists every registered module once. */
  ghost predicate Full(k: K) {
    Distinct(k.bootOrder) && Elements(k.bootOrder) == ById(k.modules).Keys
  }

  /** Ids are unique, registration ends when booting begins, and a boot order is complete. */
  ghost predicate KernelOk(k: K, booter: Option<nat>) {
    && UniqueIds(k.modules)
    && (booter.None? <==> k.state == Created)
    && (k.state == Created ==> k.bootOrder == [])
    && (k.bootOrder == [] || Full(k))
  }

  predicate StopOk(k: K, p: StopPhase) {
    p.Halting? ==> p.i < |p.order| && p.order == ResolveShutdownOrder(k.modules, k.bootOrder)
  }

  /** Only the call that booted the kernel is ever in a boot, and it finds the kernel booting; shutdowns,
      pauses and resumes come after booting. */
  ghost predicate PhaseOk(k: K, booter: Option<nat>, call: nat, phase: Phase) {
    match phase
    case InBoot(b) => k.state == Booting && booter == Some(call) && Within(k, b)
    case BootOver(_) => booter == Some(call)
    case InShutdown(p) => !Early(k.state) && StopOk(k, p)
    case Pausing(_, _) => !Early(k.state)
    case Resuming(_, _) => !Early(k.state)
    case Polling(ids, i) => i < |ids| && Distinct(ids)
    case InCrash(_, _) => true
    case Ended => true
  }

  ghost predicate CallsOk(w: World) {
    forall c :: c in w.calls ==> PhaseOk(w.k, w.boot.booter, c, w.calls[c])
  }

  ghost predicate Sound(w: World) {
    KernelOk(w.k, w.boot.booter) && CallsOk(w)
  }

  predicate SameOrder(k: K, l: K) {
    l.modules == k.modules && l.bootOrder == k.bootOrder
  }

  /** A step by `call` leaves what other calls rely on: only the booting call moves a booting kernel, and
      after booting neither the registry nor the boot order changes. */
  predicate Frame(w: World, v: World, call: nat) {
    && (w.boot.booter.Some? ==> v.boot.booter == w.boot.booter)
    && (w.k.state == Booting && w.boot.booter != Some(call) ==> v.k.state == Booting && SameOrder(w.k, v.k))
    && (!Early(w.k.state) ==> !Early(v.k.state) && SameOrder(w.k, v.k))
  }

  /** The registry, the boot order and the fact of having begun to boot stay, or `v` is in order itself. */
  ghost predicate Settled(w: World, v: World) {
    || (v.boot.booter == w.boot.booter && SameOrder(w.k, v.k) && (v.k.state == Created <==> w.k.state == Created))
    || KernelOk(v.k, v.boot.booter)
  }

  /** One call moved as `v` says, and its own obligations are met. */
  ghost predicate Moved(w: World, v: World, call: nat) {
    && Frame(w, v, call) && Settled(w, v)
    && call in v.calls && v.calls == w.calls[call := v.calls[call]]
    && PhaseOk(v.k, v.boot.booter, call, v.calls[call])
  }

  lemma OthersKeepPhase(w: World, v: World, call: nat, c: nat, phase: Phase)
    requires Frame(w, v, call) && c != call && (w.boot.booter.None? <==> w.k.state == Created)
    requires PhaseOk(w.k, w.boot.booter, c, phase)
    ensures PhaseOk(v.k, v.boot.booter, c, phase)
  {
  }

  lemma CallMoves(w: World, v: World, call: nat)
    requires KernelOk(w.k, w.boot.booter) && CallsOk(w) && Moved(w, v, call)
    ensures KernelOk(v.k, v.boot.booter) && CallsOk(v)
  {
    forall c | c in v.calls ensures PhaseOk(v.k, v.boot.booter, c, v.calls[c]) {
      if c != call { OthersKeepPhase(w, v, call, c, w.calls[c]); }
    }
  }

  /** A segment that leaves the kernel's state as it is, or moves it among the states after booting. */
  lemma GotoMoves(w: World, call: nat, k: K, phase: Phase)
    requires SameOrder(w.k, k) && (k.state == w.k.state || (!Early(w.k.state) && !Early(k.state)))
    requires PhaseOk(k, w.boot.booter, call, phase)
    ensures Moved(w, Goto(w, call, k, phase), call)
  {
  }

  lemma {:induction false} StopNextMoves(w: World, call: nat, k: K, order: seq<Id>, i: nat)
    requires !Early(w.k.state) && SameOrder(w.k, k) && k.state == w.k.state
    requires order == ResolveShutdownOrder(k.modules, k.bootOrder)
    ensures Moved(w, StopNext(w, call, k, order, i), call)
    decreases |order| - i
  {
    if i >= |order| {
      GotoMoves(w, call, k.(state := Stopped), Ended);
    } else if NotStopped(ById(k.modules).Keys, k.lives.status, order[i]) {
      GotoMoves(w, call, Called(k, [Shutdown(order[i])]), InShutdown(Halting(order, i)));
    } else {
      StopNextMoves(w, call, k, order, i + 1);
    }
  }

  /** What the head of the shutdown loop changes: it ends the call and the shutdown, or waits for the next
      module that is due; every module passed over is stopped or unknown to the registry. */
  lemma {:induction false} StopNextShape(w: World, call: nat, k: K, order: seq<Id>, i: nat)
    ensures var v := StopNext(w, call, k, order, i);
      && call in v.calls && v.calls == w.calls[call := v.calls[call]] && v.boot == w.boot && v.log == w.log
      && SameOrder(k, v.k) && v.k.failures == k.failures && v.k.lives.status == k.lives.status
      && (v.calls[call] == Ended || (v.calls[call].InShutdown? && v.calls[call].stop.Halting? &&
            v.calls[call].stop.order == order && i <= v.calls[call].stop.i < |order|))
      && v.k.state == (if v.calls[call] == Ended then Stopped else k.state)
      && forall j :: i <= j < (if v.calls[call] == Ended then |order| else v.calls[call].stop.i) ==>
           !NotStopped(ById(k.modules).Keys, k.lives.status, order[j])
    decreases |order| - i
  {
    if i < |order| && !NotStopped(ById(k.modules).Keys, k.lives.status, order[i]) { StopNextShape(w, call, k, order, i + 1); }
  }

  lemma ShutdownMoves(w: World, call: nat, p: StopPhase)
    requires !Early(w.k.state) && StopOk(w.k, p)
    ensures Moved(w, ProceedShutdown(w, call, p), call)
  {
    match p
    case Announced => StopNextMoves(w, call, w.k, ResolveShutdownOrder(w.k.modules, w.k.bootOrder), 0);
    case Halting(order, i) => StopNextMoves(w, call, Mark(w.k, order[i], STOPPED), order, i + 1);
  }

  lemma AcceptMoves(w: World, call: nat)
    ensures Moved(w, AcceptShutdown(w, call), call)
  {
  }

  lemma PauseMoves(w: World, call: nat, order: seq<Id>, i: nat)
    requires !Early(w.k.state)
    ensures Moved(w, PauseNext(w, call, order, i), call) && Moved(w, ResumeNext(w, call, order, i), call)
  {
  }

  /** What the head of the polling loop changes: it ends the call, or waits for the next module that is up. */
  lemma {:induction false} PollNextShape(w: World, call: nat, k: K, ids: seq<Id>, i: nat)
    ensures var v := PollNext(w, call, k, ids, i);
      && call in v.calls && v.calls == w.calls[call := v.calls[call]] && v.boot == w.boot
      && SameOrder(k, v.k) && v.k.state == k.state && v.k.failures == k.failures && v.k.lives.status == k.lives.status
      && ((v.calls[call] == Ended && v.log == w.log) ||
          (v.calls[call].Polling? && v.calls[call].ids == ids && i <= v.calls[call].i < |ids| && v.log == Touch(w.log, ids[v.calls[call].i])))
    decreases |ids| - i
  {
    if i < |ids| && !IsUp(k.lives.status, ids[i]) { PollNextShape(w, call, k, ids, i + 1); }
  }

  lemma {:induction false} PollNextMoves(w: World, call: nat, k: K, ids: seq<Id>, i: nat)
    requires SameOrder(w.k, k) && k.state == w.k.state && Distinct(ids)
    ensures Moved(w, PollNext(w, call, k, ids, i), call)
    decreases |ids| - i
  {
    if i < |ids| && !IsUp(k.lives.status, ids[i]) {
      PollNextMoves(w, call, k, ids, i + 1);
    } else if i < |ids| {
      GotoMoves(w, call, Called(k, [Healthy(ids[i])]), Polling(ids, i));
    }
  }

  lemma BeginCrashMoves(w: World, call: nat, id: Id)
    ensures Moved(w, BeginCrash(w, call, id), call)
  {
  }

  lemma BeginBootMoves(w: World, call: nat)
    requires KernelOk(w.k, w.boot.booter)
    ensures Moved(w, BeginBoot(w, call), call)
  {
  }

  lemma BeginMoves(w: World, call: nat, op: Op)
    requires KernelOk(w.k, w.boot.booter)
    ensures Moved(w, ApplyBegin(w, call, op), call)
  {
    GotoMoves(w, call, w.k, Ended);
    match op
    case DoBoot => BeginBootMoves(w, call);
    case DoShutdown => AcceptMoves(w, call);
    case DoPause => if w.k.state == Running { PauseMoves(w, call, Reverse(w.k.bootOrder), 0); }
    case DoResume => if w.k.state == Paused { PauseMoves(w, call, w.k.bootOrder, 0); }
    case DoHealth => PollNextMoves(w, call, w.k, IdsOf(w.k.modules), 0);
    case DoCrash(id) => BeginCrashMoves(w, call, id);
  }

  lemma DecideMoves(s: Setting, w: World, call: nat, id: Id, count: nat, entry: nat)
    ensures Moved(w, DecideCrash(s, w, call, id, count, entry), call)
  {
    AcceptMoves(w.(log := w.log.(decided := w.log.decided[entry := Decide(s.policy, count)])), call);
  }

  lemma CrashMoves(s: Setting, w: World, call: nat, id: Id, c: CrashPhase, a: Answer)
    ensures Moved(w, ProceedCrash(s, w, call, id, c, a), call)
  {
    if c.Counted? { DecideMoves(s, w, call, id, c.count, c.entry); }
  }

  lemma ResolvedIsFull(s: Setting, idLess: Before, k: K)
    requires Resolver(s, idLess) && UniqueIds(k.modules) && s.resolve(k.modules).Ordered?
    ensures Full(k.(bootOrder := s.resolve(k.modules).order))
  {
    var order := s.resolve(k.modules).order;
    assert Resolves(k.modules, idLess, s.resolve(k.modules));
    PermutationMembers(order, IdsOf(k.modules));
    GraphNodes(k.modules);
    assert Dependencies(ById(k.modules)).Keys == ById(k.modules).Keys;
  }

  predicate Booter(w: World, call: nat) {
    w.k.state == Booting && w.boot.booter == Some(call)
  }

  /** A segment of the boot: the kernel stays booting on the same order, or the boot is over. */
  lemma BootSegmentMoves(w: World, call: nat, k: K, hooks: seq<Hook>, phase: Phase)
    requires Booter(w, call) && PhaseOk(k, w.boot.booter, call, phase)
    requires (SameOrder(w.k, k) && k.state != Created) || KernelOk(k, w.boot.booter)
    ensures Moved(w, BootMove(w, call, k, hooks, phase), call)
  {
    var v := BootMove(w, call, k, hooks, phase);
    if KernelOk(k, w.boot.booter) { assert KernelOk(v.k, v.boot.booter); }
  }

  lemma BootNextMoves(w: World, call: nat, k: K, i: nat, attaches: bool)
    requires Booter(w, call) && k.state == Booting && (SameOrder(w.k, k) || KernelOk(k, w.boot.booter))
    ensures Moved(w, BootNext(w, call, k, i, attaches), call)
  {
    if i >= |k.bootOrder| {
      BootSegmentMoves(w, call, k.(state := Running), [], BootOver(Done));
    } else if attaches {
      BootSegmentMoves(w, call, Mark(k, k.bootOrder[i], INITIALIZING), [Attach(k.bootOrder[i])], InBoot(Attached(i)));
    } else {
      BootSegmentMoves(w, call, k, [Attach(k.bootOrder[i])], BootOver(Escaped(i)));
    }
  }

  lemma ResolvedMoves(s: Setting, idLess: Before, w: World, call: nat, attaches: bool)
    requires Resolver(s, idLess) && KernelOk(w.k, w.boot.booter) && Booter(w, call)
    ensures Moved(w, Resolved(s, w, call, attaches), call)
  {
    var r := s.resolve(w.k.modules);
    if r.Ordered? {
      ResolvedIsFull(s, idLess, w.k);
      BootNextMoves(w, call, w.k.(bootOrder := r.order), 0, attaches);
    } else {
      BootSegmentMoves(w, call, w.k.(state := BootFailed), [], BootOver(Refused));
    }
  }

  lemma UnwindMoves(w: World, call: nat, k: K, i: nat, outcome: BootOutcome, n: nat)
    requires Booter(w, call) && SameOrder(w.k, k) && k.state == Booting && n <= i < |k.bootOrder|
    ensures Moved(w, UnwindNext(w, call, k, i, outcome, n), call)
  {
  }

  lemma BootMoves(s: Setting, idLess: Before, w: World, call: nat, b: BootPhase, a: Answer)
    requires Resolver(s, idLess) && KernelOk(w.k, w.boot.booter) && Booter(w, call) && Within(w.k, b)
    ensures Moved(w, ProceedBoot(s, w, call, b, a), call)
  {
    var order := w.k.bootOrder;
    match b
    case Begun => ResolvedMoves(s, idLess, w, call, a.attaches);
    case Attached(i) => BootSegmentMoves(w, call, w.k, [Initialize(order[i])], InBoot(Initializing(i)));
    case Initializing(i) =>
      BootSegmentMoves(w, call, w.k, [Start(order[i])], InBoot(Starting(i)));
      BootSegmentMoves(w, call, MarkFailed(w.k, order[i]), [], InBoot(Failing(i, InitializeThrows)));
    case Starting(i) =>
      BootSegmentMoves(w, call, Mark(w.k, order[i], READY), [], InBoot(Started(i)));
      BootSegmentMoves(w, call, MarkFailed(w.k, order[i]), [], InBoot(Failing(i, StartThrows)));
    case Started(i) => BootNextMoves(w, call, w.k, i + 1, a.attaches);
    case Failing(i, outcome) => UnwindMoves(w, call, w.k, i, outcome, i);
    case Unwinding(i, outcome, n) => UnwindMoves(w, call, Mark(w.k, order[n - 1], STOPPED), i, outcome, n - 1);
  }

  lemma ProceedMoves(s: Setting, idLess: Before, w: World, call: nat, phase: Phase, a: Answer)
    requires Resolver(s, idLess) && KernelOk(w.k, w.boot.booter) && call in w.calls && w.calls[call] == phase
    requires PhaseOk(w.k, w.boot.booter, call, phase)
    ensures Moved(w, ApplyProceed(s, w, call, phase, a), call)
  {
    assert w.calls == w.calls[call := phase];
    match phase
    case InBoot(b) => BootMoves(s, idLess, w, call, b, a);
    case InShutdown(p) => ShutdownMoves(w, call, p);
    case Pausing(order, i) => PauseMoves(w, call, order, i + 1); GotoMoves(w, call, w.k, Ended);
    case Resuming(order, i) => PauseMoves(w, call, order, i + 1); GotoMoves(w, call, w.k, Ended);
    case Polling(ids, i) => PollNextMoves(w, call, Mark(w.k, ids[i], if a.ok then a.health else FAILED), ids, i + 1);
    case InCrash(id, c) => CrashMoves(s, w, call, id, c, a);
    case BootOver(_) =>
    case Ended =>
  }

  lemma RegisterKeepsCalls(w: World, m: ModuleMetadata)
    requires KernelOk(w.k, w.boot.booter) && CallsOk(w)
    ensures KernelOk(ApplyRegister(w, m).k, ApplyRegister(w, m).boot.booter) && CallsOk(ApplyRegister(w, m))
  {
    var v := ApplyRegister(w, m);
    if v != w {
      RegisterUnique(w.k.modules, m);
      forall c | c in v.calls ensures PhaseOk(v.k, v.boot.booter, c, v.calls[c]) {
        assert PhaseOk(w.k, w.boot.booter, c, w.calls[c]);
      }
    }
  }

  /** Every step keeps: ids are unique, the boot order is complete, and calls are only where they can be. */
  lemma StepKeepsCalls(s: Setting, idLess: Before, w: World, step: Step)
    requires Resolver(s, idLess) && KernelOk(w.k, w.boot.booter) && CallsOk(w)
    ensures KernelOk(Apply(s, w, step).k, Apply(s, w, step).boot.booter) && CallsOk(Apply(s, w, step))
  {
    var v := Apply(s, w, step);
    match step
    case Register(m) => RegisterKeepsCalls(w, m);
    case Begin(call, op) =>
      if call !in w.calls {
        BeginMoves(w, call, op);
        CallMoves(w, v, call);
      }
    case Proceed(call, a) =>
      if call in w.calls {
        assert PhaseOk(w.k, w.boot.booter, call, w.calls[call]);
        ProceedMoves(s, idLess, w, call, w.calls[call], a);
        CallMoves(w, v, call);
      }
  }

  lemma {:induction false} CallsStayOk(s: Setting, idLess: Before, steps: seq<Step>)
    requires Resolver(s, idLess)
    ensures KernelOk(After(s, steps).k, After(s, steps).boot.booter) && CallsOk(After(s, steps))
  {
    if steps != [] {
      CallsStayOk(s, idLess, steps[..|steps| - 1]);
      StepKeepsCalls(s, idLess, After(s, steps[..|steps| - 1]), steps[|steps| - 1]);
    }
  }

  // ---- the registry ----------------------------------------------------------------------------------------

  lemma BeginKeepsRegistry(w: World, call: nat, op: Op)
    ensures ApplyBegin(w, call, op).k.modules == w.k.modules
    ensures w.k.state != Created ==> ApplyBegin(w, call, op).k.state != Created
  {
    PollNextShape(w, call, w.k, IdsOf(w.k.modules), 0);
  }

  lemma BootKeepsRegistry(s: Setting, w: World, call: nat, b: BootPhase, a: Answer)
    ensures ProceedBoot(s, w, call, b, a).k.modules == w.k.modules
    ensures w.k.state != Created ==> ProceedBoot(s, w, call, b, a).k.state != Created
  {
  }

  lemma ProceedKeepsRegistry(s: Setting, idLess: Before, w: World, call: nat, phase: Phase, a: Answer)
    requires Resolver(s, idLess) && KernelOk(w.k, w.boot.booter) && call in w.calls && w.calls[call] == phase
    requires PhaseOk(w.k, w.boot.booter, call, phase)
    ensures var v := ApplyProceed(s, w, call, phase, a); v.k.modules == w.k.modules && (w.k.state != Created ==> v.k.state != Created)
  {
    match phase
    case InBoot(b) => BootKeepsRegistry(s, w, call, b, a);
    case InShutdown(p) => ShutdownMoves(w, call, p);
    case Polling(ids, i) => PollNextShape(w, call, Mark(w.k, ids[i], if a.ok then a.health else FAILED), ids, i + 1);
    case _ =>
  }

  lemma StepKeepsRegistry(s: Setting, idLess: Before, w: World, step: Step)
    requires Resolver(s, idLess) && KernelOk(w.k, w.boot.booter) && CallsOk(w) && w.k.state != Created
    ensures Apply(s, w, step).k.modules == w.k.modules && Apply(s, w, step).k.state != Created
  {
    match step
    case Register(m) =>
    case Begin(call, op) => BeginKeepsRegistry(w, call, op);
    case Proceed(call, a) =>
      if call in w.calls {
        assert PhaseOk(w.k, w.boot.booter, call, w.calls[call]);
        ProceedKeepsRegistry(s, idLess, w, call, w.calls[call], a);
      }
  }

  /** Over every interleaving: once booting has begun the registry never changes, and no call brings the
      kernel back to `created`, so it boots at most once. */
  lemma {:induction false} RegistryIsFixed(s: Setting, idLess: Before, steps: seq<Step>, more: seq<Step>)
    requires Resolver(s, idLess) && After(s, steps).k.state != Created
    ensures After(s, steps + more).k.modules == After(s, steps).k.modules && After(s, steps + more).k.state != Created
  {
    if more == [] {
      assert steps + more == steps;
    } else {
      var n := |more| - 1;
      var before := steps + more[..n];
      RegistryIsFixed(s, idLess, steps, more[..n]);
      CallsStayOk(s, idLess, before);
      assert steps + more == before + [more[n]];
      ContinueSnoc(s, INITIAL, before, more[n]);
      StepKeepsRegistry(s, idLess, After(s, before), more[n]);
    }
  }
}

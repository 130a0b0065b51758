/** packages/kernel/src/kernel.ts under interleaving: which hooks a boot calls. */
module KernelHistory {
  import opened Base
  import opened Kahn
  import opened BootOrder
  import opened Kernel
  import opened KernelSteps

  // ---- the hooks of the boot ----------------------------------------------------------------------------

  /** The hooks of a boot whose module at position `i` failed, before unwinding. */
  function HooksToFailure(order: seq<Id>, i: nat, outcome: BootOutcome): seq<Hook>
    requires i < |order|
  {
    HooksOf(order[..i]) + FailingHooks(order[i], outcome)
  }

  /** The shutdown hooks of the modules before `i`, last first, down to position `n`. */
  function Backwards(order: seq<Id>, i: nat, n: nat): seq<Hook>
    requires n <= i <= |order|
  {
    ShutdownsOf(Reverse(order[..i])[..i - n])
  }

  predicate Positioned(order: seq<Id>, phase: Phase) {
    match phase
    case InBoot(b) => b.Begun? || (b.i < |order| && (b.Unwinding? ==> 0 < b.n <= b.i))
    case BootOver(e) => (e.Escaped? ==> e.i < |order|) && (e.Unwound? ==> e.i < |order|)
    case _ => false
  }

  function HooksInBoot(order: seq<Id>, b: BootPhase): seq<Hook>
    requires Positioned(order, InBoot(b))
  {
    match b
    case Begun => []
    case Attached(i) => HooksToFailure(order, i, AttachThrows)
    case Initializing(i) => HooksToFailure(order, i, InitializeThrows)
    case Starting(i) => HooksToFailure(order, i, StartThrows)
    case Started(i) => HooksOf(order[..i + 1])
    case Failing(i, outcome) => HooksToFailure(order, i, outcome)
    case Unwinding(i, outcome, n) => HooksToFailure(order, i, outcome) + Backwards(order, i, n - 1)
  }

  /** Every hook that a boot has called, told from where it is alone. */
  function HooksSoFar(order: seq<Id>, phase: Phase): seq<Hook>
    requires Positioned(order, phase)
  {
    match phase
    case InBoot(b) => HooksInBoot(order, b)
    case BootOver(Done) => HooksOf(order)
    case BootOver(Refused) => []
    case BootOver(Escaped(i)) => HooksToFailure(order, i, AttachThrows)
    case BootOver(Unwound(i, outcome)) => HooksToFailure(order, i, outcome) + Backwards(order, i, 0)
  }

  predicate Chronicled(order: seq<Id>, hooks: seq<Hook>, phase: Phase) {
    Positioned(order, phase) && hooks == HooksSoFar(order, phase)
  }

  /** The boot log is what the booting call's phase says. */
  predicate BootLogOk(w: World) {
    w.boot.booter.Some? ==>
      w.boot.booter.value in w.calls && Chronicled(w.k.bootOrder, w.boot.hooks, w.calls[w.boot.booter.value])
  }

  /** After a segment of the boot the log is what the call's new phase says. */
  predicate Told(w: World, v: World, call: nat) {
    v.boot.booter == w.boot.booter && call in v.calls && Chronicled(v.k.bootOrder, v.boot.hooks, v.calls[call])
  }

  lemma HooksSnoc(order: seq<Id>, i: nat)
    requires i < |order|
    ensures HooksOf(order[..i + 1]) == HooksOf(order[..i]) + BootHooks(order[i])
  {
    assert order[..i + 1][..i] == order[..i];
  }

  lemma HooksGrow(order: seq<Id>, i: nat)
    requires i < |order|
    ensures HooksToFailure(order, i, AttachThrows) == HooksOf(order[..i]) + [Attach(order[i])]
    ensures HooksToFailure(order, i, InitializeThrows) == HooksToFailure(order, i, AttachThrows) + [Initialize(order[i])]
    ensures HooksToFailure(order, i, StartThrows) == HooksToFailure(order, i, InitializeThrows) + [Start(order[i])]
    ensures HooksToFailure(order, i, StartThrows) == HooksOf(order[..i + 1])
  {
    HooksSnoc(order, i);
  }

  lemma BackwardsGrow(order: seq<Id>, i: nat, n: nat)
    requires 0 < n <= i < |order|
    ensures Backwards(order, i, n - 1) == Backwards(order, i, n) + [Shutdown(order[n - 1])]
  {
    var back := Reverse(order[..i]);
    SplitAt(back, i - n);
    ShutdownsSnoc(back[..i - n], back[i - n]);
  }

  lemma BackwardsEnds(order: seq<Id>, i: nat)
    requires i < |order|
    ensures Backwards(order, i, i) == [] && Backwards(order, i, 0) == ShutdownsOf(Reverse(order[..i]))
  {
    WholePrefix(Reverse(order[..i]));
  }

  lemma BootMovesTo(w: World, call: nat, k: K, hooks: seq<Hook>, phase: Phase)
    requires Chronicled(k.bootOrder, w.boot.hooks + hooks, phase)
    ensures Told(w, BootMove(w, call, k, hooks, phase), call)
  {
  }

  lemma BootNextChronicled(w: World, call: nat, k: K, i: nat, attaches: bool)
    requires i <= |k.bootOrder| && w.boot.hooks == HooksOf(k.bootOrder[..i])
    ensures Told(w, BootNext(w, call, k, i, attaches), call)
  {
    if i == |k.bootOrder| {
      WholePrefix(k.bootOrder);
      assert w.boot.hooks + [] == w.boot.hooks;
      BootMovesTo(w, call, k.(state := Running), [], BootOver(Done));
    } else {
      HooksGrow(k.bootOrder, i);
      BootMovesTo(w, call, Mark(k, k.bootOrder[i], INITIALIZING), [Attach(k.bootOrder[i])], InBoot(Attached(i)));
      BootMovesTo(w, call, k, [Attach(k.bootOrder[i])], BootOver(Escaped(i)));
    }
  }

  lemma Regroup(a: seq<Hook>, b: seq<Hook>, c: seq<Hook>, x: Hook)
    requires c == b + [x]
    ensures a + b + [x] == a + c
  {
  }

  /** One more started module is shut down, or none is left. */
  lemma UnwindStep(order: seq<Id>, i: nat, outcome: BootOutcome, n: nat)
    requires n <= i < |order|
    ensures var hooks := HooksToFailure(order, i, outcome) + Backwards(order, i, n);
      if n == 0 then Chronicled(order, hooks, BootOver(Unwound(i, outcome)))
      else Chronicled(order, hooks + [Shutdown(order[n - 1])], InBoot(Unwinding(i, outcome, n)))
  {
    if n > 0 {
      BackwardsGrow(order, i, n);
      Regroup(HooksToFailure(order, i, outcome), Backwards(order, i, n), Backwards(order, i, n - 1), Shutdown(order[n - 1]));
    }
  }

  lemma UnwindChronicled(w: World, call: nat, k: K, i: nat, outcome: BootOutcome, n: nat)
    requires n <= i < |k.bootOrder|
    requires w.boot.hooks == HooksToFailure(k.bootOrder, i, outcome) + Backwards(k.bootOrder, i, n)
    ensures Told(w, UnwindNext(w, call, k, i, outcome, n), call)
  {
    UnwindStep(k.bootOrder, i, outcome, n);
    if n == 0 {
      assert w.boot.hooks + [] == w.boot.hooks;
      BootMovesTo(w, call, k.(state := BootFailed), [], BootOver(Unwound(i, outcome)));
    } else {
      BootMovesTo(w, call, k, [Shutdown(k.bootOrder[n - 1])], InBoot(Unwinding(i, outcome, n)));
    }
  }

  lemma FailChronicled(w: World, call: nat, i: nat, outcome: BootOutcome)
    requires i < |w.k.bootOrder| && w.boot.hooks == HooksToFailure(w.k.bootOrder, i, outcome)
    ensures Told(w, BootFail(w, call, i, outcome), call)
  {
    assert w.boot.hooks + [] == w.boot.hooks;
    BootMovesTo(w, call, MarkFailed(w.k, w.k.bootOrder[i]), [], InBoot(Failing(i, outcome)));
  }

  lemma ResolvedChronicled(s: Setting, w: World, call: nat, attaches: bool)
    requires w.boot.hooks == []
    ensures Told(w, Resolved(s, w, call, attaches), call)
  {
    var r := s.resolve(w.k.modules);
    if r.Ordered? {
      BootNextChronicled(w, call, w.k.(bootOrder := r.order), 0, attaches);
    } else {
      BootMovesTo(w, call, w.k.(state := BootFailed), [], BootOver(Refused));
    }
  }

  /** A module on its way through its boot hooks. */
  lemma ModuleChronicled(s: Setting, w: World, call: nat, b: BootPhase, a: Answer)
    requires Within(w.k, b) && Chronicled(w.k.bootOrder, w.boot.hooks, InBoot(b)) && (b.Attached? || b.Initializing? || b.Starting?)
    ensures Told(w, ProceedBoot(s, w, call, b, a), call)
  {
    var order, i := w.k.bootOrder, b.i;
    HooksGrow(order, i);
    assert w.boot.hooks + [] == w.boot.hooks;
    if b.Attached? {
      BootMovesTo(w, call, w.k, [Initialize(order[i])], InBoot(Initializing(i)));
    } else if !a.ok {
      FailChronicled(w, call, i, if b.Initializing? then InitializeThrows else StartThrows);
    } else if b.Initializing? {
      BootMovesTo(w, call, w.k, [Start(order[i])], InBoot(Starting(i)));
    } else {
      BootMovesTo(w, call, Mark(w.k, order[i], READY), [], InBoot(Started(i)));
    }
  }

  lemma NothingUnwound(order: seq<Id>, i: nat, outcome: BootOutcome)
    requires i < |order|
    ensures HooksToFailure(order, i, outcome) == HooksToFailure(order, i, outcome) + Backwards(order, i, i)
  {
    BackwardsEnds(order, i);
  }

  lemma UnwindingChronicled(s: Setting, w: World, call: nat, b: BootPhase, a: Answer)
    requires Within(w.k, b) && Chronicled(w.k.bootOrder, w.boot.hooks, InBoot(b)) && (b.Failing? || b.Unwinding?)
    ensures Told(w, ProceedBoot(s, w, call, b, a), call)
  {
    if b.Failing? {
      NothingUnwound(w.k.bootOrder, b.i, b.outcome);
      UnwindChronicled(w, call, w.k, b.i, b.outcome, b.i);
    } else {
      UnwindChronicled(w, call, Mark(w.k, w.k.bootOrder[b.n - 1], STOPPED), b.i, b.outcome, b.n - 1);
    }
  }

  lemma BootChronicled(s: Setting, w: World, call: nat, b: BootPhase, a: Answer)
    requires Within(w.k, b) && Chronicled(w.k.bootOrder, w.boot.hooks, InBoot(b))
    ensures Told(w, ProceedBoot(s, w, call, b, a), call)
  {
    if b.Begun? {
      ResolvedChronicled(s, w, call, a.attaches);
    } else if b.Started? {
      BootNextChronicled(w, call, w.k, b.i + 1, a.attaches);
    } else if b.Failing? || b.Unwinding? {
      UnwindingChronicled(s, w, call, b, a);
    } else {
      ModuleChronicled(s, w, call, b, a);
    }
  }

  /** A step of another call leaves the boot log and, once there is one, the boot order alone. */
  lemma OthersKeepBootLog(w: World, v: World, call: nat)
    requires KernelOk(w.k, w.boot.booter) && BootLogOk(w) && Moved(w, v, call) && v.boot == w.boot && w.boot.booter != Some(call)
    ensures BootLogOk(v)
  {
  }

  lemma ShutdownLeaves(w: World, call: nat, p: StopPhase)
    requires StopOk(w.k, p)
    ensures var v := ProceedShutdown(w, call, p);
      v.boot == w.boot && v.log == w.log && v.k.failures == w.k.failures && call in v.calls &&
      v.calls == w.calls[call := v.calls[call]] && !v.calls[call].InCrash?
  {
    match p
    case Announced => StopNextShape(w, call, w.k, ResolveShutdownOrder(w.k.modules, w.k.bootOrder), 0);
    case Halting(order, i) => StopNextShape(w, call, Mark(w.k, order[i], STOPPED), order, i + 1);
  }

  lemma ProceedLeavesBootLog(s: Setting, w: World, call: nat, phase: Phase, a: Answer)
    requires !phase.InBoot? && (phase.InShutdown? ==> StopOk(w.k, phase.stop))
    ensures ApplyProceed(s, w, call, phase, a).boot == w.boot
  {
    if phase.InShutdown? { ShutdownLeaves(w, call, phase.stop); }
    if phase.Polling? && phase.i < |phase.ids| {
      PollNextShape(w, call, Mark(w.k, phase.ids[phase.i], if a.ok then a.health else FAILED), phase.ids, phase.i + 1);
    }
  }

  lemma ProceedKeepsBootLog(s: Setting, idLess: Before, w: World, call: nat, a: Answer)
    requires Resolver(s, idLess) && KernelOk(w.k, w.boot.booter) && CallsOk(w) && BootLogOk(w) && call in w.calls
    ensures BootLogOk(ApplyProceed(s, w, call, w.calls[call], a))
  {
    var phase := w.calls[call];
    assert PhaseOk(w.k, w.boot.booter, call, phase);
    if phase.InBoot? {
      BootChronicled(s, w, call, phase.boot, a);
    } else if !phase.BootOver? {
      ProceedMoves(s, idLess, w, call, phase, a);
      ProceedLeavesBootLog(s, w, call, phase, a);
      OthersKeepBootLog(w, ApplyProceed(s, w, call, phase, a), call);
    }
  }

  lemma BeginKeepsBootLog(w: World, call: nat, op: Op)
    requires KernelOk(w.k, w.boot.booter) && BootLogOk(w) && call !in w.calls
    ensures BootLogOk(ApplyBegin(w, call, op))
  {
    var v := ApplyBegin(w, call, op);
    BeginMoves(w, call, op);
    PollNextShape(w, call, w.k, IdsOf(w.k.modules), 0);
    if v.boot == w.boot {
      OthersKeepBootLog(w, v, call);
    }
  }

  lemma {:induction false} BootLogStaysOk(s: Setting, idLess: Before, steps: seq<Step>)
    requires Resolver(s, idLess)
    ensures BootLogOk(After(s, steps))
  {
    if steps != [] {
      var n := |steps| - 1;
      var w := After(s, steps[..n]);
      CallsStayOk(s, idLess, steps[..n]);
      BootLogStaysOk(s, idLess, steps[..n]);
      match steps[n]
      case Register(m) =>
      case Begin(call, op) => if call !in w.calls { BeginKeepsBootLog(w, call, op); }
      case Proceed(call, a) => if call in w.calls { ProceedKeepsBootLog(s, idLess, w, call, a); }
    }
  }

  /** Over every interleaving: whatever else went on, a boot that failed had called the hooks of the modules
      before the failing one, then those of the failing one up to the one that threw, then shut down exactly
      the modules before it, once each in reverse, and nothing of any later module. */
  lemma FailedBootUnwindsExactly(s: Setting, idLess: Before, steps: seq<Step>, call: nat)
    requires Resolver(s, idLess) && call in After(s, steps).calls
    requires After(s, steps).calls[call].BootOver? && After(s, steps).calls[call].end.Unwound?
    ensures var w := After(s, steps);
      var e := w.calls[call].end;
      && w.boot.booter == Some(call) && e.i < |w.k.bootOrder|
      && w.boot.hooks == HooksToFailure(w.k.bootOrder, e.i, e.outcome) + ShutdownsOf(Reverse(w.k.bootOrder[..e.i]))
  {
    var w := After(s, steps);
    CallsStayOk(s, idLess, steps);
    BootLogStaysOk(s, idLess, steps);
    assert PhaseOk(w.k, w.boot.booter, call, w.calls[call]);
    BackwardsEnds(w.k.bootOrder, w.calls[call].end.i);
  }
}

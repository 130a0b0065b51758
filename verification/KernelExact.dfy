/** packages/kernel/src/kernel.ts under interleaving: exactly when a boot leaves a module READY and a
    shutdown leaves it STOPPED. */
module KernelExact {
  import opened Base
  import opened Kahn
  import opened BootOrder
  import opened Kernel
  import opened KernelSteps
  import opened KernelProgress

  /** Steps of `call` alone led from `w` to `v`: the other calls, the order and the touches are as they were. */
  predicate Aside(w: World, v: World, call: nat) {
    && call in w.calls && call in v.calls && v.calls == w.calls[call := v.calls[call]]
    && v.k.bootOrder == w.k.bootOrder && v.log.touched == w.log.touched
  }

  lemma AsideTwice(w: World, v: World, x: World, call: nat)
    requires Aside(w, v, call) && Aside(v, x, call)
    ensures Aside(w, x, call)
  {
  }

  // ---- a boot can be brought to its last announcement ----------------------------------------------------

  predicate BootAt(w: World, call: nat, b: BootPhase) {
    call in w.calls && w.calls[call] == InBoot(b) && Within(w.k, b)
  }

  lemma StartsModule(s: Setting, w: World, call: nat, i: nat)
    requires BootAt(w, call, Attached(i))
    ensures var v := Apply(s, Apply(s, Apply(s, w, Proceed(call, GOES_ON)), Proceed(call, GOES_ON)), Proceed(call, GOES_ON));
      BootAt(v, call, Started(i)) && Aside(w, v, call)
  {
  }

  lemma NextModule(s: Setting, w: World, call: nat, i: nat)
    requires BootAt(w, call, Started(i)) && i + 1 < |w.k.bootOrder|
    ensures var v := Apply(s, w, Proceed(call, GOES_ON)); BootAt(v, call, Attached(i + 1)) && Aside(w, v, call)
  {
  }

  lemma OneMore(s: Setting, w: World, call: nat, i: nat)
    requires BootAt(w, call, Attached(i)) && i + 1 < |w.k.bootOrder|
    ensures var go := Proceed(call, GOES_ON);
      var x := Apply(s, Apply(s, Apply(s, Apply(s, w, go), go), go), go);
      BootAt(x, call, Attached(i + 1)) && Aside(w, x, call)
  {
    var go := Proceed(call, GOES_ON);
    var v := Apply(s, Apply(s, Apply(s, w, go), go), go);
    StartsModule(s, w, call, i);
    NextModule(s, v, call, i);
    AsideTwice(w, v, Apply(s, v, go), call);
  }

  lemma {:induction false} ReachesLast(s: Setting, w: World, call: nat, i: nat) returns (steps: seq<Step>)
    requires BootAt(w, call, Attached(i))
    ensures var v := Continue(s, w, steps); BootAt(v, call, Started(|w.k.bootOrder| - 1)) && Aside(w, v, call)
    decreases |w.k.bootOrder| - i
  {
    var go := Proceed(call, GOES_ON);
    if i + 1 < |w.k.bootOrder| {
      var x := Apply(s, Apply(s, Apply(s, Apply(s, w, go), go), go), go);
      OneMore(s, w, call, i);
      var rest := ReachesLast(s, x, call, i + 1);
      FourthStep(s, w, go, rest);
      AsideTwice(w, x, Continue(s, x, rest), call);
      steps := [go, go, go] + ([go] + rest);
    } else {
      StartsModule(s, w, call, i);
      ThreeSteps(s, w, go);
      steps := [go, go, go];
    }
  }

  lemma FourthStep(s: Setting, w: World, step: Step, rest: seq<Step>)
    ensures Continue(s, w, [step, step, step] + ([step] + rest)) ==
            Continue(s, Apply(s, Apply(s, Apply(s, Apply(s, w, step), step), step), step), rest)
  {
    ThreeSteps(s, w, step);
    ContinueConcat(s, w, [step, step, step], [step] + rest);
    ContinueCons(s, Continue(s, w, [step, step, step]), step, rest);
  }

  lemma ThreeSteps(s: Setting, w: World, step: Step)
    ensures Continue(s, w, [step, step, step]) == Apply(s, Apply(s, Apply(s, w, step), step), step)
  {
    ContinueSnoc(s, w, [], step);
    ContinueSnoc(s, w, [step], step);
    ContinueSnoc(s, w, [step, step], step);
    assert [] + [step] == [step] && [step] + [step] == [step, step] && [step, step] + [step] == [step, step, step];
  }

  /** From the start of a boot on a registry that resolves and is not empty. */
  lemma BootReachesLast(s: Setting, w: World, call: nat) returns (steps: seq<Step>)
    requires call in w.calls && w.calls[call] == InBoot(Begun) && s.resolve(w.k.modules).Ordered? && s.resolve(w.k.modules).order != []
    ensures var v := Continue(s, w, steps);
      && v.k.bootOrder == s.resolve(w.k.modules).order && BootAt(v, call, Started(|v.k.bootOrder| - 1))
      && v.calls == w.calls[call := v.calls[call]] && v.log.touched == w.log.touched
  {
    var go := Proceed(call, GOES_ON);
    var x := Apply(s, w, go);
    assert BootAt(x, call, Attached(0)) && x.log.touched == w.log.touched && x.calls == w.calls[call := x.calls[call]];
    var rest := ReachesLast(s, x, call, 0);
    ContinueCons(s, w, go, rest);
    steps := [go] + rest;
  }

  lemma LastCompletes(s: Setting, w: World, call: nat, a: Answer)
    requires w.k.bootOrder != [] && BootAt(w, call, Started(|w.k.bootOrder| - 1))
    ensures var v := Apply(s, w, Proceed(call, a));
      EndsBoot(s, w, call, a, Done) && v.k.lives.status == w.k.lives.status
  {
  }

  // ---- a touch in progress can always write ---------------------------------------------------------------

  /** The touching call writes FAILED, and nothing but it has moved. */
  predicate WritesFailed(w: World, v: World, c: nat, id: Id) {
    && HealthOf(v.k.lives.status, id) == FAILED && Spared(w, v, id)
    && c in v.calls && v.calls == w.calls[c := v.calls[c]] && v.k.bootOrder == w.k.bootOrder
  }

  lemma PollWrites(s: Setting, w: World, c: nat, ids: seq<Id>, i: nat)
    requires c in w.calls && w.calls[c] == Polling(ids, i) && i < |ids| && Distinct(ids)
    ensures WritesFailed(w, Apply(s, w, Proceed(c, THROWS)), c, ids[i])
  {
    PollNextShape(w, c, Mark(w.k, ids[i], FAILED), ids, i + 1);
  }

  lemma RestartWrites(s: Setting, w: World, c: nat, id: Id, phase: CrashPhase)
    requires c in w.calls && w.calls[c] == InCrash(id, phase) && !phase.Counted?
    ensures WritesFailed(w, Apply(s, w, Proceed(c, THROWS)), c, id)
  {
  }

  lemma TouchWrites(s: Setting, w: World, c: nat, id: Id) returns (steps: seq<Step>)
    requires Sound(w) && c in w.calls && Touches(s.policy, w.calls[c], id)
    ensures WritesFailed(w, Continue(s, w, steps), c, id)
  {
    assert PhaseOk(w.k, w.boot.booter, c, w.calls[c]);
    var last := Proceed(c, THROWS);
    match w.calls[c]
    case Polling(ids, i) =>
      PollWrites(s, w, c, ids, i);
      steps := [last];
      ContinueSnoc(s, w, [], last);
      assert [] + [last] == steps;
    case InCrash(_, phase) =>
      if phase.Counted? {
        var x := Apply(s, w, Proceed(c, GOES_ON));
        RestartWrites(s, x, c, id, Reinitializing);
        steps := [Proceed(c, GOES_ON)] + [last];
        ContinueSnoc(s, w, [], Proceed(c, GOES_ON));
        ContinueSnoc(s, w, [Proceed(c, GOES_ON)], last);
        assert [] + [Proceed(c, GOES_ON)] == [Proceed(c, GOES_ON)];
      } else {
        RestartWrites(s, w, c, id, phase);
        steps := [last];
        ContinueSnoc(s, w, [], last);
        assert [] + [last] == steps;
      }
  }

  // ---- boots -------------------------------------------------------------------------------------------------

  /** Whenever the boot completes, `id` is READY at that moment, unless a report or poll of it was begun since. */
  ghost predicate BootLeavesReady(s: Setting, v: World, call: nat, id: Id) {
    forall more, a :: Spared(v, Continue(s, v, more), id) && EndsBoot(s, Continue(s, v, more), call, a, Done) ==>
      HealthOf(Apply(s, Continue(s, v, more), Proceed(call, a)).k.lives.status, id) == READY
  }

  /** A boot that begins now leaves `id` READY, whatever else goes on, exactly when no crash report or poll
      that may write its status is in progress. */
  lemma BootLeavesReadyIff(s: Setting, idLess: Before, steps: seq<Step>, call: nat, id: Id)
    requires Resolver(s, idLess) && After(s, steps).k.state == Created && call !in After(s, steps).calls
    requires IsRegistered(After(s, steps).k, id) && s.resolve(After(s, steps).k.modules).Ordered?
    ensures BootLeavesReady(s, Apply(s, After(s, steps), Begin(call, DoBoot)), call, id) <==>
            NoneTouches(s.policy, After(s, steps).calls, id)
  {
    var w := After(s, steps);
    var v := Apply(s, w, Begin(call, DoBoot));
    CallsStayOk(s, idLess, steps);
    var p := RegisteredIsPlaced(s, idLess, w.k, id);
    if NoneTouches(s.policy, w.calls, id) {
      forall more, a | Spared(v, Continue(s, v, more), id) && EndsBoot(s, Continue(s, v, more), call, a, Done)
        ensures HealthOf(Apply(s, Continue(s, v, more), Proceed(call, a)).k.lives.status, id) == READY
      {
        BootEndTells(s, idLess, steps, call, more, a, Done, id, p);
      }
    } else {
      var c :| c in w.calls && Touches(s.policy, w.calls[c], id);
      TouchSpoilsBoot(s, idLess, w, call, c, id);
    }
  }

  lemma TouchSpoilsBoot(s: Setting, idLess: Before, w: World, call: nat, c: nat, id: Id)
    requires Resolver(s, idLess) && Sound(w) && w.k.state == Created && call !in w.calls
    requires s.resolve(w.k.modules).Ordered? && s.resolve(w.k.modules).order != []
    requires c in w.calls && Touches(s.policy, w.calls[c], id)
    ensures !BootLeavesReady(s, Apply(s, w, Begin(call, DoBoot)), call, id)
  {
    var v := Apply(s, w, Begin(call, DoBoot));
    StepKeepsCalls(s, idLess, w, Begin(call, DoBoot));
    var a := BootReachesLast(s, v, call);
    var x := Continue(s, v, a);
    RunCountGrows(s, idLess, v, a, id);
    assert x.calls[c] == w.calls[c];
    var b := TouchWrites(s, x, c, id);
    ContinueConcat(s, v, a, b);
    var y := Continue(s, v, a + b);
    assert Spared(v, y, id) && BootAt(y, call, Started(|y.k.bootOrder| - 1));
    LastCompletes(s, y, call, GOES_ON);
  }

  // ---- boots, over whole runs ---------------------------------------------------------------------------------

  /** Only modules in `c` had a crash report or a poll. */
  predicate TouchedWithin(w: World, c: set<Id>) {
    forall id :: id in w.log.touched ==> id in c
  }

  /** In every run of this registry whose reports and polls concern only modules in `c`, the boot that
      completes leaves `id` READY. */
  ghost predicate AlwaysReady(s: Setting, modules: seq<ModuleMetadata>, c: set<Id>, id: Id) {
    forall steps, call, a ::
      After(s, steps).k.modules == modules && TouchedWithin(After(s, steps), c) && EndsBoot(s, After(s, steps), call, a, Done) ==>
      HealthOf(Apply(s, After(s, steps), Proceed(call, a)).k.lives.status, id) == READY
  }

  /** Exactly when every completed boot leaves a module READY: when no report and no poll concerns it. */
  lemma AlwaysReadyIff(s: Setting, idLess: Before, modules: seq<ModuleMetadata>, c: set<Id>, id: Id)
    requires Resolver(s, idLess) && UniqueIds(modules) && s.resolve(modules).Ordered? && id in ById(modules)
    ensures AlwaysReady(s, modules, c, id) <==> id !in c
  {
    if id !in c {
      forall steps, call, a | After(s, steps).k.modules == modules && TouchedWithin(After(s, steps), c) && EndsBoot(s, After(s, steps), call, a, Done)
        ensures HealthOf(Apply(s, After(s, steps), Proceed(call, a)).k.lives.status, id) == READY
      {
        ReadyWhenBooted(s, idLess, steps, call, a, id);
      }
    } else {
      ReportSpoilsBoot(s, idLess, modules, c, id);
    }
  }

  /** Over every interleaving: at the moment a boot completes, every registered module of which no crash report
      and no poll was ever begun is READY. */
  lemma ReadyWhenBooted(s: Setting, idLess: Before, steps: seq<Step>, call: nat, a: Answer, id: Id)
    requires Resolver(s, idLess) && EndsBoot(s, After(s, steps), call, a, Done)
    requires IsRegistered(After(s, steps).k, id) && id !in After(s, steps).log.touched
    ensures HealthOf(Apply(s, After(s, steps), Proceed(call, a)).k.lives.status, id) == READY
  {
    var w := After(s, steps);
    CallsStayOk(s, idLess, steps);
    RunKeepsTold(s, idLess, INITIAL, steps, id, UNKNOWN);
    DoneMeansOrdered(s, w, call, a, id);
    var p := RegisteredIsPlaced(s, idLess, w.k, id);
    BootStepTells(s, w, call, a, id, p, UNKNOWN);
  }

  lemma DoneMeansOrdered(s: Setting, w: World, call: nat, a: Answer, id: Id)
    requires Sound(w) && Told(s, w, id, UNKNOWN) && EndsBoot(s, w, call, a, Done)
    ensures s.resolve(w.k.modules).Ordered?
  {
    assert PhaseOk(w.k, w.boot.booter, call, w.calls[call]);
  }

  // ---- the run for the other half ---------------------------------------------------------------------------

  predicate Fresh(w: World, modules: seq<ModuleMetadata>) {
    w.k.state == Created && w.k.modules == modules && w.calls == map[] && w.log.touched == []
  }

  lemma {:induction false} RegistersAll(s: Setting, modules: seq<ModuleMetadata>) returns (steps: seq<Step>)
    requires UniqueIds(modules)
    ensures Fresh(After(s, steps), modules)
  {
    if modules == [] {
      steps := [];
    } else {
      var n := |modules| - 1;
      FewerAreUnique(modules);
      var before := RegistersAll(s, modules[..n]);
      steps := before + [Register(modules[n])];
      ContinueSnoc(s, INITIAL, before, Register(modules[n]));
      assert modules[..n] + [modules[n]] == modules;
    }
  }

  lemma FewerAreUnique(modules: seq<ModuleMetadata>)
    requires UniqueIds(modules) && modules != []
    ensures var n := |modules| - 1; UniqueIds(modules[..n]) && modules[n].id !in ById(modules[..n])
  {
    var n := |modules| - 1;
    var ids, fewer := IdsOf(modules), IdsOf(modules[..n]);
    assert forall i :: 0 <= i < n ==> fewer[i] == ids[i];
    IndexMembers(ModuleKey(), modules[..n]);
    assert ids[n] == modules[n].id;
    assert modules[n].id !in fewer;
  }

  /** A run in which all modules are registered and booted up to the last announcement. */
  lemma AllBoot(s: Setting, idLess: Before, modules: seq<ModuleMetadata>) returns (steps: seq<Step>)
    requires Resolver(s, idLess) && UniqueIds(modules) && s.resolve(modules).Ordered? && s.resolve(modules).order != []
    ensures var w := After(s, steps);
      BootReady(w, 0) && w.k.modules == modules && 1 !in w.calls && w.log.touched == []
  {
    var registered := RegistersAll(s, modules);
    var begin := registered + [Begin(0, DoBoot)];
    ContinueSnoc(s, INITIAL, registered, Begin(0, DoBoot));
    var v := After(s, begin);
    assert v.calls == map[0 := InBoot(Begun)] && v.k.modules == modules && v.log.touched == [];
    var more := BootReachesLast(s, v, 0);
    CallsStayOk(s, idLess, begin);
    RegistryStays(s, idLess, v, more);
    ContinueConcat(s, INITIAL, begin, more);
    steps := begin + more;
  }

  /** Before the boot announces the last module a crash of `id` is reported. */
  lemma ReportSpoilsBoot(s: Setting, idLess: Before, modules: seq<ModuleMetadata>, c: set<Id>, id: Id)
    requires Resolver(s, idLess) && UniqueIds(modules) && s.resolve(modules).Ordered? && id in ById(modules) && id in c
    ensures !AlwaysReady(s, modules, c, id)
  {
    var p := RegisteredIsPlaced(s, idLess, INITIAL.k.(modules := modules), id);
    var ready := AllBoot(s, idLess, modules);
    var steps := ready + [Begin(1, DoCrash(id))];
    ContinueSnoc(s, INITIAL, ready, Begin(1, DoCrash(id)));
    CrashFails(s, After(s, ready), id);
    LastCompletes(s, After(s, steps), 0, GOES_ON);
    assert TouchedWithin(After(s, steps), c);
  }

  lemma CrashFails(s: Setting, w: World, id: Id)
    requires BootReady(w, 0) && IsRegistered(w.k, id) && 1 !in w.calls && w.log.touched == []
    ensures var v := Apply(s, w, Begin(1, DoCrash(id)));
      BootReady(v, 0) && v.k.modules == w.k.modules && v.log.touched == [id] && HealthOf(v.k.lives.status, id) == FAILED
  {
  }

  predicate BootReady(w: World, call: nat) {
    w.k.bootOrder != [] && BootAt(w, call, Started(|w.k.bootOrder| - 1))
  }

  // ---- shutdowns -----------------------------------------------------------------------------------------------

  /** Once the shutdown has completed `id` is STOPPED and stays so, unless a report or poll of it was begun since. */
  ghost predicate ShutdownLeavesStopped(s: Setting, v: World, call: nat, id: Id) {
    forall more :: Spared(v, Continue(s, v, more), id) && call in Continue(s, v, more).calls && Continue(s, v, more).calls[call] == Ended ==>
      HealthOf(Continue(s, v, more).k.lives.status, id) == STOPPED
  }

  lemma StopSegment(s: Setting, w: World, call: nat)
    requires call in w.calls && w.calls[call].InShutdown? && (w.calls[call].stop.Halting? ==> w.calls[call].stop.i < |w.calls[call].stop.order|)
    ensures var v := Apply(s, w, Proceed(call, GOES_ON));
      && Aside(w, v, call)
      && (v.calls[call] == Ended || (v.calls[call].InShutdown? && v.calls[call].stop.Halting? && v.calls[call].stop.i < |v.calls[call].stop.order| &&
            (w.calls[call].stop.Halting? ==> v.calls[call].stop.order == w.calls[call].stop.order && v.calls[call].stop.i > w.calls[call].stop.i)))
  {
    match w.calls[call].stop
    case Announced => StopNextShape(w, call, w.k, ResolveShutdownOrder(w.k.modules, w.k.bootOrder), 0);
    case Halting(order, i) => StopNextShape(w, call, Mark(w.k, order[i], STOPPED), order, i + 1);
  }

  lemma {:induction false} ShutdownEnds(s: Setting, w: World, call: nat) returns (steps: seq<Step>)
    requires call in w.calls && w.calls[call].InShutdown? && (w.calls[call].stop.Halting? ==> w.calls[call].stop.i < |w.calls[call].stop.order|)
    ensures var v := Continue(s, w, steps); Aside(w, v, call) && v.calls[call] == Ended
    decreases if w.calls[call].stop.Halting? then 0 else 1, if w.calls[call].stop.Halting? then |w.calls[call].stop.order| - w.calls[call].stop.i else 0
  {
    var go := Proceed(call, GOES_ON);
    var v := Apply(s, w, go);
    StopSegment(s, w, call);
    var rest: seq<Step> := [];
    if v.calls[call] != Ended {
      rest := ShutdownEnds(s, v, call);
      AsideTwice(w, v, Continue(s, v, rest), call);
    }
    ContinueCons(s, w, go, rest);
    steps := [go] + rest;
  }

  /** An accepted shutdown leaves `id` STOPPED, whatever else goes on, exactly when no crash report or poll that
      may write its status was in progress when it was accepted. */
  lemma ShutdownLeavesStoppedIff(s: Setting, idLess: Before, steps: seq<Step>, call: nat, id: Id)
    requires Resolver(s, idLess) && CanShutDown(After(s, steps).k.state) && call !in After(s, steps).calls
    requires id in After(s, steps).k.bootOrder
    ensures ShutdownLeavesStopped(s, Apply(s, After(s, steps), Begin(call, DoShutdown)), call, id) <==>
            NoneTouches(s.policy, After(s, steps).calls, id)
  {
    var w := After(s, steps);
    var v := Apply(s, w, Begin(call, DoShutdown));
    CallsStayOk(s, idLess, steps);
    StepKeepsCalls(s, idLess, w, Begin(call, DoShutdown));
    if NoneTouches(s.policy, w.calls, id) {
      forall more | Spared(v, Continue(s, v, more), id) && call in Continue(s, v, more).calls && Continue(s, v, more).calls[call] == Ended
        ensures HealthOf(Continue(s, v, more).k.lives.status, id) == STOPPED
      {
        StoppedWhenShutDown(s, idLess, steps, call, more, id);
      }
    } else {
      var c :| c in w.calls && Touches(s.policy, w.calls[c], id);
      TouchSpoilsShutdown(s, idLess, v, call, c, id);
    }
  }

  lemma TouchSpoilsShutdown(s: Setting, idLess: Before, v: World, call: nat, c: nat, id: Id)
    requires Resolver(s, idLess) && Sound(v) && call in v.calls && v.calls[call] == InShutdown(Announced)
    requires c in v.calls && Touches(s.policy, v.calls[c], id)
    ensures !ShutdownLeavesStopped(s, v, call, id)
  {
    var a := ShutdownEnds(s, v, call);
    var x := Continue(s, v, a);
    RunCountGrows(s, idLess, v, a, id);
    var b := TouchWrites(s, x, c, id);
    ContinueConcat(s, v, a, b);
    var y := Continue(s, v, a + b);
    assert Spared(v, y, id) && y.calls[call] == Ended;
  }
}

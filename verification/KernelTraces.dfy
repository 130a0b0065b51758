/** Concrete runs of a kernel with one module, on which overlapping calls undo what one call promises. */
module KernelTraces {
  import opened Base
  import opened Kahn
  import opened BootOrder
  import opened Kernel
  import opened KernelSteps
  import opened KernelDown

  const OK := Answer(true, true, READY)

  /** A kernel with the one module `m`, whose health is as given. */
  predicate OneModule(w: World, m: ModuleMetadata, state: KernelState, h: Health) {
    w.k.state == state && w.k.modules == [m] && w.k.bootOrder == [m.id] && HealthOf(w.k.lives.status, m.id) == h
  }

  lemma OneRegistered(m: ModuleMetadata)
    ensures ById([m]).Keys == {m.id} && ResolveShutdownOrder([m], [m.id]) == [m.id]
  {
    IndexMembers(ModuleKey(), [m]);
    assert IdsOf([m]) == [m.id];
    var order := ResolveShutdownOrder([m], [m.id]);
    ShutdownIsPermutation([m], [m.id]);
    PermutationMembers(order, [m.id]);
    assert |order| == |multiset(order)| == |multiset([m.id])| == 1;
    assert order[0] in order;
  }

  lemma Then(s: Setting, steps: seq<Step>, step: Step)
    ensures After(s, steps + [step]) == Apply(s, After(s, steps), step)
  {
    ContinueSnoc(s, INITIAL, steps, step);
  }

  /** A boot by call 0 that has made its module ready and is about to complete. */
  predicate AlmostBooted(w: World, m: ModuleMetadata) {
    OneModule(w, m, Booting, READY) && w.calls == map[0 := InBoot(Started(0))] && w.k.failures == map[] && w.log.failures == []
  }

  lemma Registers(s: Setting, m: ModuleMetadata)
    ensures var w := After(s, [Register(m)]);
      w.k.state == Created && w.k.modules == [m] && w.k.bootOrder == [] && w.calls == map[] && w.k.failures == map[] && w.log.failures == []
  {
    Then(s, [], Register(m));
    assert [] + [Register(m)] == [Register(m)];
    assert ById([]) == map[];
  }

  lemma BootBegins(s: Setting, m: ModuleMetadata, w: World)
    requires s.resolve([m]) == Ordered([m.id])
    requires w.k.state == Created && w.k.modules == [m] && w.calls == map[] && w.k.failures == map[] && w.log.failures == []
    ensures var v := Apply(s, Apply(s, w, Begin(0, DoBoot)), Proceed(0, OK));
      && v.k.state == Booting && v.k.modules == [m] && v.k.bootOrder == [m.id] && v.k.failures == map[] && v.log.failures == []
      && v.calls == map[0 := InBoot(Attached(0))]
  {
  }

  lemma BootGoesOn(s: Setting, m: ModuleMetadata, w: World)
    requires w.k.state == Booting && w.k.modules == [m] && w.k.bootOrder == [m.id] && w.k.failures == map[] && w.log.failures == []
    requires w.calls == map[0 := InBoot(Attached(0))]
    ensures AlmostBooted(Apply(s, Apply(s, Apply(s, w, Proceed(0, OK)), Proceed(0, OK)), Proceed(0, OK)), m)
  {
  }

  lemma AlmostBoots(s: Setting, m: ModuleMetadata) returns (steps: seq<Step>)
    requires s.resolve([m]) == Ordered([m.id])
    ensures AlmostBooted(After(s, steps), m)
  {
    Registers(s, m);
    BootBegins(s, m, After(s, [Register(m)]));
    var a := [Register(m)] + [Begin(0, DoBoot)];
    var b := a + [Proceed(0, OK)];
    Then(s, [Register(m)], Begin(0, DoBoot));
    Then(s, a, Proceed(0, OK));
    BootGoesOn(s, m, After(s, b));
    var c := b + [Proceed(0, OK)];
    var d := c + [Proceed(0, OK)];
    Then(s, b, Proceed(0, OK));
    Then(s, c, Proceed(0, OK));
    Then(s, d, Proceed(0, OK));
    steps := d + [Proceed(0, OK)];
  }

  lemma Boots(s: Setting, m: ModuleMetadata) returns (steps: seq<Step>)
    requires s.resolve([m]) == Ordered([m.id])
    ensures var w := After(s, steps);
      OneModule(w, m, Running, READY) && w.calls == map[0 := BootOver(Done)] && w.k.failures == map[] && w.log.failures == []
  {
    var ready := AlmostBoots(s, m);
    Then(s, ready, Proceed(0, OK));
    steps := ready + [Proceed(0, OK)];
  }

  lemma CrashesWhileBooting(s: Setting, m: ModuleMetadata, w: World)
    requires AlmostBooted(w, m)
    ensures var v := Apply(s, Apply(s, w, Begin(1, DoCrash(m.id))), Proceed(0, OK));
      OneModule(v, m, Running, FAILED) && 0 in v.calls && v.calls[0] == BootOver(Done)
  {
    OneRegistered(m);
    var a := Apply(s, w, Begin(1, DoCrash(m.id)));
    assert OneModule(a, m, Booting, FAILED) && a.calls[0] == InBoot(Started(0));
  }

  /** A crash reported while the boot is still announcing its last module: the kernel ends up running with
      that module failed. */
  lemma CrashDuringBootLeavesFailed(s: Setting, m: ModuleMetadata) returns (steps: seq<Step>)
    requires s.resolve([m]) == Ordered([m.id])
    ensures OneModule(After(s, steps), m, Running, FAILED) && 0 in After(s, steps).calls && After(s, steps).calls[0] == BootOver(Done)
  {
    var ready := AlmostBoots(s, m);
    CrashesWhileBooting(s, m, After(s, ready));
    var crashed := ready + [Begin(1, DoCrash(m.id))];
    Then(s, ready, Begin(1, DoCrash(m.id)));
    Then(s, crashed, Proceed(0, OK));
    steps := crashed + [Proceed(0, OK)];
  }

  /** A poll by call 1 of the one module, which is up. */
  lemma PollBegins(s: Setting, m: ModuleMetadata, w: World, state: KernelState)
    requires OneModule(w, m, state, READY) && 1 !in w.calls
    ensures var v := Apply(s, w, Begin(1, DoHealth));
      OneModule(v, m, state, READY) && v.calls == w.calls[1 := Polling([m.id], 0)] && v.log.failures == w.log.failures
  {
    assert IdsOf([m]) == [m.id];
  }

  lemma PollEnds(s: Setting, m: ModuleMetadata, w: World, state: KernelState, h: Health, a: Answer)
    requires OneModule(w, m, state, h) && 1 in w.calls && w.calls[1] == Polling([m.id], 0)
    ensures var v := Apply(s, w, Proceed(1, a));
      OneModule(v, m, state, if a.ok then a.health else FAILED) && v.calls == w.calls[1 := Ended] && v.log.failures == w.log.failures
  {
    var k := Mark(w.k, m.id, if a.ok then a.health else FAILED);
    assert PollNext(w, 1, k, [m.id], 1) == Goto(w, 1, k, Ended);
  }

  /** A poll whose hook throws while the boot is still announcing its last module: the kernel ends up running
      with that module failed, although no failure was counted. */
  lemma PollDuringBootLeavesFailed(s: Setting, m: ModuleMetadata) returns (steps: seq<Step>)
    requires s.resolve([m]) == Ordered([m.id])
    ensures OneModule(After(s, steps), m, Running, FAILED) && 0 in After(s, steps).calls && After(s, steps).calls[0] == BootOver(Done)
    ensures After(s, steps).log.failures == []
  {
    var ready := AlmostBoots(s, m);
    var fails := Answer(false, true, READY);
    PollBegins(s, m, After(s, ready), Booting);
    Then(s, ready, Begin(1, DoHealth));
    var polling := ready + [Begin(1, DoHealth)];
    PollEnds(s, m, After(s, polling), Booting, READY, fails);
    Then(s, polling, Proceed(1, fails));
    var polled := polling + [Proceed(1, fails)];
    Then(s, polled, Proceed(0, OK));
    steps := polled + [Proceed(0, OK)];
  }

  /** A poll that awaits a module while a shutdown stops it writes READY over STOPPED. */
  lemma PollOutlivesShutdown(s: Setting, m: ModuleMetadata) returns (steps: seq<Step>)
    requires s.resolve([m]) == Ordered([m.id])
    ensures OneModule(After(s, steps), m, Stopped, READY) && 2 in After(s, steps).calls && After(s, steps).calls[2] == Ended
    ensures After(s, steps).log.failures == []
  {
    var booted := Boots(s, m);
    PollBegins(s, m, After(s, booted), Running);
    Then(s, booted, Begin(1, DoHealth));
    var polling := booted + [Begin(1, DoHealth)];
    var stopped := ThenShutsDown(s, m, polling);
    PollEnds(s, m, After(s, stopped), Stopped, STOPPED, OK);
    Then(s, stopped, Proceed(1, OK));
    steps := stopped + [Proceed(1, OK)];
  }

  /** A shutdown by call 2 of a running kernel with one module. */
  lemma ShutsDown(s: Setting, m: ModuleMetadata, w: World)
    requires OneModule(w, m, Running, READY) && 2 !in w.calls
    ensures var v := Apply(s, Apply(s, Apply(s, w, Begin(2, DoShutdown)), Proceed(2, OK)), Proceed(2, OK));
      OneModule(v, m, Stopped, STOPPED) && v.calls == w.calls[2 := Ended] && v.k.failures == w.k.failures && v.log == w.log
  {
    OneRegistered(m);
    var a := Apply(s, w, Begin(2, DoShutdown));
    var b := Apply(s, a, Proceed(2, OK));
    assert b.calls[2] == InShutdown(Halting([m.id], 0));
  }

  /** A shutdown that is accepted while a pause awaits its module completes, and then the pause completes:
      the stopped kernel is paused again. */
  lemma PauseOutlivesShutdown(s: Setting, m: ModuleMetadata) returns (stopped: seq<Step>, more: seq<Step>)
    requires s.resolve([m]) == Ordered([m.id])
    ensures OneModule(After(s, stopped), m, Stopped, STOPPED)
    ensures Continue(s, After(s, stopped), more).k.state == Paused
  {
    var booted := Boots(s, m);
    var w := After(s, booted);
    Then(s, booted, Begin(1, DoPause));
    var pausing := booted + [Begin(1, DoPause)];
    assert Reverse([m.id]) == [m.id];
    assert OneModule(After(s, pausing), m, Running, READY) && After(s, pausing).calls[1] == Pausing([m.id], 0);
    stopped := ThenShutsDown(s, m, pausing);
    more := HalfwayFinishes(s, After(s, stopped), 1);
  }

  lemma ThenShutsDown(s: Setting, m: ModuleMetadata, steps: seq<Step>) returns (stopped: seq<Step>)
    requires OneModule(After(s, steps), m, Running, READY) && 2 !in After(s, steps).calls
    ensures OneModule(After(s, stopped), m, Stopped, STOPPED)
    ensures After(s, stopped).calls == After(s, steps).calls[2 := Ended] && After(s, stopped).k.failures == After(s, steps).k.failures
    ensures After(s, stopped).log == After(s, steps).log
  {
    ShutsDown(s, m, After(s, steps));
    var a := steps + [Begin(2, DoShutdown)];
    var b := a + [Proceed(2, OK)];
    Then(s, steps, Begin(2, DoShutdown));
    Then(s, a, Proceed(2, OK));
    Then(s, b, Proceed(2, OK));
    stopped := b + [Proceed(2, OK)];
  }

  lemma Restarts(s: Setting, m: ModuleMetadata, w: World)
    requires OneModule(w, m, Stopped, STOPPED) && 3 !in w.calls && w.k.failures == map[]
    requires s.policy.Bounded? && s.policy.maxRestarts >= 1
    ensures var v := Apply(s, Apply(s, Apply(s, Apply(s, w, Begin(3, DoCrash(m.id))), Proceed(3, OK)), Proceed(3, OK)), Proceed(3, OK));
      OneModule(v, m, Stopped, READY)
  {
    OneRegistered(m);
    var a := Apply(s, w, Begin(3, DoCrash(m.id)));
    assert a.calls[3] == InCrash(m.id, Counted(1, |w.log.failures|));
    var b := Apply(s, a, Proceed(3, OK));
    assert b.calls[3] == InCrash(m.id, Reinitializing);
  }

  /** A kernel that was booted and shut down, in which a crash report makes the module READY again. */
  lemma ReadyInStoppedKernel(s: Setting, m: ModuleMetadata) returns (steps: seq<Step>)
    requires s.resolve([m]) == Ordered([m.id]) && s.policy.Bounded? && s.policy.maxRestarts >= 1
    ensures OneModule(After(s, steps), m, Stopped, READY)
  {
    var booted := Boots(s, m);
    var stopped := ThenShutsDown(s, m, booted);
    Restarts(s, m, After(s, stopped));
    var a := stopped + [Begin(3, DoCrash(m.id))];
    var b := a + [Proceed(3, OK)];
    var c := b + [Proceed(3, OK)];
    Then(s, stopped, Begin(3, DoCrash(m.id)));
    Then(s, a, Proceed(3, OK));
    Then(s, b, Proceed(3, OK));
    Then(s, c, Proceed(3, OK));
    steps := c + [Proceed(3, OK)];
  }
}

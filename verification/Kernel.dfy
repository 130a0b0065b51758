/** packages/kernel/src/kernel.ts and crash-recovery.ts: boot, unwind, shutdown and bounded restart. */
module Kernel {
  import opened Base
  import opened Kahn
  import opened BootOrder

  datatype KernelState = Created | Booting | Running | Paused | ShuttingDown | Stopped | BootFailed

  datatype Health = UNKNOWN | INITIALIZING | READY | DEGRADED | FAILED | STOPPED

  /** A call of one of a module's lifecycle hooks. */
  datatype Hook = Attach(id: Id) | Initialize(id: Id) | Start(id: Id) | Shutdown(id: Id) | Pause(id: Id) | Resume(id: Id) | Healthy(id: Id)

  /** How far a module gets when it is booted or restarted. */
  datatype BootOutcome = Boots | AttachThrows | InitializeThrows | StartThrows

  /** The modules' recorded health, and every hook call made so far. */
  datatype Lives = Lives(status: map<Id, Health>, hooks: seq<Hook>)

  datatype K = K(state: KernelState, modules: seq<ModuleMetadata>, bootOrder: seq<Id>,
                 failures: map<Id, nat>, lives: Lives)

  /** `moduleHealth`. */
  function HealthOf(status: map<Id, Health>, id: Id): Health {
    if id in status then status[id] else UNKNOWN
  }

  function FailuresOf(failures: map<Id, nat>, id: Id): nat {
    if id in failures then failures[id] else 0
  }

  function CountFailure(failures: map<Id, nat>, id: Id): map<Id, nat> {
    failures[id := FailuresOf(failures, id) + 1]
  }

  // ---- booting and stopping modules one after the other -----------------------------------------

  function BootHooks(id: Id): seq<Hook> {
    [Attach(id), Initialize(id), Start(id)]
  }

  function BootEach(l: Lives, ids: seq<Id>): Lives {
    if ids == [] then l
    else
      var n := |ids| - 1;
      var p := BootEach(l, ids[..n]);
      Lives(p.status[ids[n] := READY], p.hooks + BootHooks(ids[n]))
  }

  function StopOne(l: Lives, id: Id): Lives {
    Lives(l.status[id := STOPPED], l.hooks + [Shutdown(id)])
  }

  function StopEach(l: Lives, ids: seq<Id>): Lives {
    if ids == [] then l
    else StopOne(StopEach(l, ids[..|ids| - 1]), ids[|ids| - 1])
  }

  /** The hook calls made when the modules in `ids` boot. */
  function HooksOf(ids: seq<Id>): seq<Hook> {
    if ids == [] then [] else HooksOf(ids[..|ids| - 1]) + BootHooks(ids[|ids| - 1])
  }

  function ShutdownsOf(ids: seq<Id>): seq<Hook> {
    seq(|ids|, i requires 0 <= i < |ids| => Shutdown(ids[i]))
  }

  function SetAll(status: map<Id, Health>, ids: seq<Id>, h: Health): map<Id, Health> {
    if ids == [] then status else SetAll(status, ids[..|ids| - 1], h)[ids[|ids| - 1] := h]
  }

  lemma {:induction false} SetAllIs(status: map<Id, Health>, ids: seq<Id>, h: Health, id: Id)
    ensures HealthOf(SetAll(status, ids, h), id) == if id in ids then h else HealthOf(status, id)
  {
    if ids != [] {
      var n := |ids| - 1;
      SetAllIs(status, ids[..n], h, id);
      assert ids == ids[..n] + [ids[n]];
    }
  }

  lemma ShutdownsSnoc(ids: seq<Id>, id: Id)
    ensures ShutdownsOf(ids + [id]) == ShutdownsOf(ids) + [Shutdown(id)]
  {
  }

  lemma {:induction false} BootEachIs(l: Lives, ids: seq<Id>)
    ensures BootEach(l, ids) == Lives(SetAll(l.status, ids, READY), l.hooks + HooksOf(ids))
  {
    if ids != [] {
      var n := |ids| - 1;
      BootEachIs(l, ids[..n]);
      assert l.hooks + HooksOf(ids[..n]) + BootHooks(ids[n]) == l.hooks + (HooksOf(ids[..n]) + BootHooks(ids[n]));
    }
  }

  lemma {:induction false} StopEachIs(l: Lives, ids: seq<Id>)
    ensures StopEach(l, ids) == Lives(SetAll(l.status, ids, STOPPED), l.hooks + ShutdownsOf(ids))
  {
    if ids == [] {
      assert ShutdownsOf(ids) == [];
    } else {
      var n := |ids| - 1;
      StopEachIs(l, ids[..n]);
      assert ids == ids[..n] + [ids[n]];
      ShutdownsSnoc(ids[..n], ids[n]);
      assert l.hooks + ShutdownsOf(ids[..n]) + [Shutdown(ids[n])] == l.hooks + (ShutdownsOf(ids[..n]) + [Shutdown(ids[n])]);
    }
  }

  lemma StopEachSnoc(l: Lives, ids: seq<Id>, id: Id)
    ensures StopEach(l, ids + [id]) == StopOne(StopEach(l, ids), id)
  {
  }

  // ---- boot ------------------------------------------------------------------------------------------

  /** The position of the first module that does not boot. */
  function FirstFailing(order: seq<Id>, out: Id -> BootOutcome): nat {
    if order == [] then 0
    else if out(order[0]) != Boots then 0
    else 1 + FirstFailing(order[1..], out)
  }

  /** The hooks called on a module that fails to boot. */
  function FailingHooks(id: Id, outcome: BootOutcome): seq<Hook> {
    match outcome
    case AttachThrows => [Attach(id)]
    case InitializeThrows => [Attach(id), Initialize(id)]
    case _ => BootHooks(id)
  }

  function Called(k: K, hooks: seq<Hook>): K {
    k.(lives := k.lives.(hooks := k.lives.hooks + hooks))
  }

  /** `bad` is marked failed, what has started is shut down in reverse, and boot has failed. */
  function Unwound(k: K, started: seq<Id>, bad: Id): K {
    k.(state := BootFailed, failures := CountFailure(k.failures, bad),
       lives := StopEach(Lives(k.lives.status[bad := FAILED], k.lives.hooks), Reverse(started)))
  }

  /** What happens to `k` when `bad` fails to boot after the modules in `started`. A throwing attach hook
      escapes, because `attach` is called outside the try block; any other failure unwinds. */
  function FailedBoot(k: K, started: seq<Id>, bad: Id, outcome: BootOutcome): K {
    var c := Called(k, FailingHooks(bad, outcome));
    if outcome == AttachThrows then c else Unwound(c, started, bad)
  }

  /** The kernel after the boot loop over a resolved order. */
  function BootLoop(k: K, order: seq<Id>, out: Id -> BootOutcome): K {
    var n := FirstFailing(order, out);
    if n >= |order| then k.(state := Running, lives := BootEach(k.lives, order))
    else FailedBoot(k.(lives := BootEach(k.lives, order[..n])), order[..n], order[n], out(order[n]))
  }

  function Boot(k: K, r: Resolution, out: Id -> BootOutcome): K {
    if k.state != Created then k
    else if !r.Ordered? then k.(state := BootFailed)
    else BootLoop(k.(state := Booting, bootOrder := r.order), r.order, out)
  }

  lemma {:induction false} FirstFailingIs(order: seq<Id>, out: Id -> BootOutcome)
    ensures FirstFailing(order, out) <= |order|
    ensures forall i :: 0 <= i < FirstFailing(order, out) ==> out(order[i]) == Boots
    ensures FirstFailing(order, out) < |order| ==> out(order[FirstFailing(order, out)]) != Boots
  {
    if order != [] && out(order[0]) == Boots { FirstFailingIs(order[1..], out); }
  }

  lemma {:induction false} FirstFailingUnique(order: seq<Id>, out: Id -> BootOutcome, n: nat)
    requires n <= |order| && forall i :: 0 <= i < n ==> out(order[i]) == Boots
    requires n < |order| ==> out(order[n]) != Boots
    ensures FirstFailing(order, out) == n
  {
    if order != [] && n > 0 {
      assert forall i :: 0 <= i < n - 1 ==> order[1..][i] == order[i + 1];
      FirstFailingUnique(order[1..], out, n - 1);
    }
  }

  lemma BootLoopEnds(k: K, order: seq<Id>, out: Id -> BootOutcome, n: nat)
    requires n <= |order| && forall i :: 0 <= i < n ==> out(order[i]) == Boots
    requires n < |order| ==> out(order[n]) != Boots
    ensures n == |order| ==> BootLoop(k, order, out) == k.(state := Running, lives := BootEach(k.lives, order))
    ensures n < |order| ==>
            BootLoop(k, order, out) == FailedBoot(k.(lives := BootEach(k.lives, order[..n])), order[..n], order[n], out(order[n]))
  {
    FirstFailingUnique(order, out, n);
  }

  lemma BootEachNext(l: Lives, order: seq<Id>, i: nat)
    requires i < |order|
    ensures order[..i + 1] == order[..i] + [order[i]]
    ensures BootEach(l, order[..i + 1]) ==
            Lives(BootEach(l, order[..i]).status[order[i] := READY], BootEach(l, order[..i]).hooks + BootHooks(order[i]))
  {
    BootEachSnoc(l, order[..i], order[i]);
  }

  lemma BootEachSnoc(l: Lives, ids: seq<Id>, id: Id)
    ensures BootEach(l, ids + [id]) ==
            Lives(BootEach(l, ids).status[id := READY], BootEach(l, ids).hooks + BootHooks(id))
  {
  }

  /** When no module fails the kernel runs and every module is ready, each hook called once in order. */
  lemma BootRuns(k: K, order: seq<Id>, out: Id -> BootOutcome)
    requires forall id :: id in order ==> out(id) == Boots
    ensures var b := BootLoop(k, order, out);
      && b.state == Running && b.failures == k.failures
      && b.lives.hooks == k.lives.hooks + HooksOf(order)
      && (forall id :: HealthOf(b.lives.status, id) == if id in order then READY else HealthOf(k.lives.status, id))
  {
    FirstFailingUnique(order, out, |order|);
    BootEachIs(k.lives, order);
    forall id { SetAllIs(k.lives.status, order, READY, id); }
  }

  /** A kernel that reaches `running` has every registered module ready. */
  lemma RunningMeansReady(k: K, idLess: Before, r: Resolution, out: Id -> BootOutcome, m: ModuleMetadata)
    requires k.state == Created && UniqueIds(k.modules) && Resolves(k.modules, idLess, r)
    requires Boot(k, r, out).state == Running && m in k.modules
    ensures HealthOf(Boot(k, r, out).lives.status, m.id) == READY
  {
    var b := k.(state := Booting, bootOrder := r.order);
    BootSettlesIff(b, r.order, out);
    FirstFailingIs(r.order, out);
    assert forall id :: id in r.order ==> out(id) == Boots;
    BootRuns(b, r.order, out);
    PermutationMembers(r.order, IdsOf(k.modules));
    var i :| 0 <= i < |k.modules| && k.modules[i] == m;
    assert IdsOf(k.modules)[i] == m.id;
  }

  /** When the module at position `n` is the first to fail, in its initialize or start hook: exactly the
      modules before it were shut down, once each in reverse order; it is marked failed; the later ones
      were never touched; and boot has failed. */
  lemma BootUnwinds(k: K, order: seq<Id>, out: Id -> BootOutcome, n: nat)
    requires Distinct(order) && n < |order| && (forall i :: 0 <= i < n ==> out(order[i]) == Boots)
    requires out(order[n]) == InitializeThrows || out(order[n]) == StartThrows
    ensures var b := BootLoop(k, order, out);
      && b.state == BootFailed && b.failures == CountFailure(k.failures, order[n])
      && b.lives.hooks == k.lives.hooks + HooksOf(order[..n]) + FailingHooks(order[n], out(order[n])) + ShutdownsOf(Reverse(order[..n]))
      && (forall id :: HealthOf(b.lives.status, id) ==
            if id in order[..n] then STOPPED else if id == order[n] then FAILED else HealthOf(k.lives.status, id))
  {
    FirstFailingUnique(order, out, n);
    assert order[n] !in order[..n];
    UnwoundLives(k.lives, order[..n], order[n], FailingHooks(order[n], out(order[n])));
  }

  lemma UnwoundLives(l: Lives, ids: seq<Id>, bad: Id, failing: seq<Hook>)
    requires bad !in ids
    ensures var started := BootEach(l, ids);
      var u := StopEach(Lives(started.status[bad := FAILED], started.hooks + failing), Reverse(ids));
      && u.hooks == l.hooks + HooksOf(ids) + failing + ShutdownsOf(Reverse(ids))
      && (forall id :: HealthOf(u.status, id) ==
            if id in ids then STOPPED else if id == bad then FAILED else HealthOf(l.status, id))
  {
    BootEachIs(l, ids);
    var failed := SetAll(l.status, ids, READY)[bad := FAILED];
    StopEachIs(Lives(failed, l.hooks + HooksOf(ids) + failing), Reverse(ids));
    PermutationMembers(Reverse(ids), ids);
    forall id ensures HealthOf(SetAll(failed, Reverse(ids), STOPPED), id) ==
                      if id in ids then STOPPED else if id == bad then FAILED else HealthOf(l.status, id)
    {
      SetAllIs(l.status, ids, READY, id);
      SetAllIs(failed, Reverse(ids), STOPPED, id);
    }
  }

  /** Exactly when boot does not settle: when the first module to fail does so in its attach hook. The
      kernel then stays booting, with the earlier modules ready and nothing unwound. */
  lemma BootSettlesIff(k: K, order: seq<Id>, out: Id -> BootOutcome)
    requires k.state == Booting
    ensures FirstFailing(order, out) <= |order|
    ensures BootLoop(k, order, out).state in {Running, BootFailed} <==>
            !(FirstFailing(order, out) < |order| && out(order[FirstFailing(order, out)]) == AttachThrows)
    ensures BootLoop(k, order, out).state == Booting ==>
            forall id :: id in order[..FirstFailing(order, out)] ==> HealthOf(BootLoop(k, order, out).lives.status, id) == READY
  {
    var n := FirstFailing(order, out);
    FirstFailingIs(order, out);
    BootEachIs(k.lives, order[..n]);
    forall id { SetAllIs(k.lives.status, order[..n], READY, id); }
  }

  /** The unsettled ending does occur. */
  lemma AttachFailureLeavesBooting(k: K, a: Id, b: Id, out: Id -> BootOutcome)
    requires k.state == Booting && out(a) == Boots && out(b) == AttachThrows
    ensures BootLoop(k, [a, b], out).state == Booting
    ensures HealthOf(BootLoop(k, [a, b], out).lives.status, a) == READY
  {
    FirstFailingUnique([a, b], out, 1);
    BootSettlesIff(k, [a, b], out);
    assert a in [a, b][..1];
  }

  // ---- shutdown -----------------------------------------------------------------------------------------

  predicate NotStopped(registered: set<Id>, status: map<Id, Health>, id: Id) {
    id in registered && HealthOf(status, id) != STOPPED
  }

  /** The shutdown loop: modules already stopped are passed over. */
  function StopRemaining(registered: set<Id>, l: Lives, ids: seq<Id>): Lives {
    if ids == [] then l
    else
      var p := StopRemaining(registered, l, ids[..|ids| - 1]);
      if NotStopped(registered, p.status, ids[|ids| - 1]) then StopOne(p, ids[|ids| - 1]) else p
  }

  predicate CanShutDown(state: KernelState) {
    state == Running || state == Paused || state == BootFailed
  }

  function ShutdownKernel(k: K): K {
    if !CanShutDown(k.state) then k
    else
      k.(state := Stopped,
         lives := StopRemaining(ById(k.modules).Keys, k.lives, ResolveShutdownOrder(k.modules, k.bootOrder)))
  }

  function StillUp(registered: set<Id>, status: map<Id, Health>): Id -> bool {
    (id: Id) => NotStopped(registered, status, id)
  }

  lemma StoppingOthers(registered: set<Id>, l: Lives, ids: seq<Id>, id: Id)
    requires id !in ids
    ensures NotStopped(registered, StopEach(l, ids).status, id) <==> NotStopped(registered, l.status, id)
  {
  }

  /** Exactly the modules that were not stopped are shut down, once each and in the given order. */
  lemma {:induction false} StopRemainingIs(registered: set<Id>, l: Lives, ids: seq<Id>)
    requires Distinct(ids)
    ensures StopRemaining(registered, l, ids) == StopEach(l, Filter(StillUp(registered, l.status), ids))
  {
    var up := StillUp(registered, l.status);
    if ids == [] {
      assert Filter(up, ids) == [];
    } else {
      var n := |ids| - 1;
      var f := Filter(up, ids[..n]);
      StopRemainingIs(registered, l, ids[..n]);
      assert ids == ids[..n] + [ids[n]];
      FilterSnoc(up, ids[..n], ids[n]);
      StopEachSnoc(l, f, ids[n]);
      assert ids[n] !in ids[..n];
      StoppingOthers(registered, l, f, ids[n]);
      assert f + [] == f;
      assert up(ids[n]) == NotStopped(registered, l.status, ids[n]);
    }
  }

  /** A kernel that shuts down stops every module of the boot order, audit modules last, calling each
      shutdown hook that is still due exactly once. */
  lemma ShutdownStopsEverything(k: K)
    requires CanShutDown(k.state)
    requires Distinct(k.bootOrder) && Elements(k.bootOrder) <= ById(k.modules).Keys
    ensures ShutdownKernel(k).state == Stopped
    ensures forall id :: id in k.bootOrder ==> HealthOf(ShutdownKernel(k).lives.status, id) == STOPPED
    ensures ShutdownKernel(k).lives.hooks ==
            k.lives.hooks +
            ShutdownsOf(Filter(StillUp(ById(k.modules).Keys, k.lives.status), ResolveShutdownOrder(k.modules, k.bootOrder)))
  {
    var order := ResolveShutdownOrder(k.modules, k.bootOrder);
    ShutdownIsPermutation(k.modules, k.bootOrder);
    PermutationDistinct(order, k.bootOrder);
    PermutationMembers(order, k.bootOrder);
    StopsAll(ById(k.modules).Keys, k.lives, order);
    forall id | id in k.bootOrder ensures HealthOf(ShutdownKernel(k).lives.status, id) == STOPPED {
      assert id in Elements(k.bootOrder);
    }
  }

  lemma StopsAll(registered: set<Id>, l: Lives, ids: seq<Id>)
    requires Distinct(ids)
    ensures var s := StopRemaining(registered, l, ids);
      && s.hooks == l.hooks + ShutdownsOf(Filter(StillUp(registered, l.status), ids))
      && forall id :: id in ids && id in registered ==> HealthOf(s.status, id) == STOPPED
  {
    var due := Filter(StillUp(registered, l.status), ids);
    StopRemainingIs(registered, l, ids);
    StopEachIs(l, due);
    forall id | id in ids && id in registered ensures HealthOf(StopRemaining(registered, l, ids).status, id) == STOPPED {
      SetAllIs(l.status, due, STOPPED, id);
    }
  }

  // ---- crashes ----------------------------------------------------------------------------------------------

  datatype RestartPolicy = Bounded(maxRestarts: nat, stopKernelOnExhaustion: bool) | NeverRestart

  datatype Decision = Restart | LeaveFailed | StopKernel

  function Decide(policy: RestartPolicy, failureCount: nat): Decision {
    match policy
    case NeverRestart => LeaveFailed
    case Bounded(maxRestarts, stopKernelOnExhaustion) =>
      if failureCount <= maxRestarts then Restart
      else if stopKernelOnExhaustion then StopKernel
      else LeaveFailed
  }

  predicate IsRegistered(k: K, id: Id) {
    id in ById(k.modules)
  }

  function CrashDecision(k: K, policy: RestartPolicy, id: Id): Decision {
    if IsRegistered(k, id) then Decide(policy, FailuresOf(k.failures, id) + 1) else LeaveFailed
  }

  function MarkFailed(k: K, id: Id): K {
    k.(failures := CountFailure(k.failures, id), lives := k.lives.(status := k.lives.status[id := FAILED]))
  }

  /** The restart attempt: attach is not repeated. */
  function RestartModule(l: Lives, id: Id, outcome: BootOutcome): Lives {
    if outcome == InitializeThrows then l.(hooks := l.hooks + [Initialize(id)])
    else
      Lives(if outcome == StartThrows then l.status else l.status[id := READY], l.hooks + [Initialize(id), Start(id)])
  }

  /** `reportCrash`; the kernel's state is not consulted. */
  function Crash(k: K, policy: RestartPolicy, id: Id, outcome: BootOutcome): K {
    if !IsRegistered(k, id) then k
    else
      var c := MarkFailed(k, id);
      match CrashDecision(k, policy, id)
      case LeaveFailed => c
      case StopKernel => ShutdownKernel(c)
      case Restart => c.(lives := RestartModule(c.lives, id, outcome))
  }

  /** When each decision on a crash report is the right one, given the failures on record before it. */
  predicate Warranted(policy: RestartPolicy, registered: bool, earlier: nat, d: Decision) {
    match d
    case Restart => registered && policy.Bounded? && earlier < policy.maxRestarts
    case StopKernel => registered && policy.Bounded? && policy.stopKernelOnExhaustion && policy.maxRestarts <= earlier
    case LeaveFailed =>
      !registered || policy.NeverRestart? || (policy.Bounded? && !policy.stopKernelOnExhaustion && policy.maxRestarts <= earlier)
  }

  /** Exactly one decision is warranted, and it is the one taken. */
  lemma CrashDecisionIsWarranted(k: K, policy: RestartPolicy, id: Id, d: Decision)
    ensures CrashDecision(k, policy, id) == d <==> Warranted(policy, IsRegistered(k, id), FailuresOf(k.failures, id), d)
  {
  }

  /** Between the two states one module's status became `h`, and no other status changed. */
  ghost predicate OnlyStatus(before: K, after: K, id: Id, h: Health) {
    && HealthOf(after.lives.status, id) == h
    && forall x :: x != id ==> HealthOf(after.lives.status, x) == HealthOf(before.lives.status, x)
  }

  /** The failure is counted for this module and no other, and registry, boot order and state stay. */
  ghost predicate OnlyCounted(before: K, after: K, id: Id) {
    && after.modules == before.modules && after.bootOrder == before.bootOrder && after.state == before.state
    && (forall x :: FailuresOf(after.failures, x) == FailuresOf(before.failures, x) + if x == id then 1 else 0)
  }

  /** A report that is left, or that finds nothing to shut down, changes this module's status and count and
      nothing else. */
  lemma LeftReportDoes(k: K, policy: RestartPolicy, id: Id, outcome: BootOutcome)
    requires IsRegistered(k, id)
    requires var earlier := FailuresOf(k.failures, id);
      || Warranted(policy, true, earlier, LeaveFailed)
      || (Warranted(policy, true, earlier, StopKernel) && !CanShutDown(k.state))
    ensures var c := Crash(k, policy, id, outcome);
      OnlyStatus(k, c, id, FAILED) && OnlyCounted(k, c, id) && c.lives.hooks == k.lives.hooks
  {
    assert Crash(k, policy, id, outcome) == MarkFailed(k, id);
  }

  /** A restart calls initialize and, if that succeeds, start; the module ends READY exactly if both succeed,
      and nothing changes but its status and count. */
  lemma RestartDoes(k: K, policy: RestartPolicy, id: Id, outcome: BootOutcome)
    requires Warranted(policy, IsRegistered(k, id), FailuresOf(k.failures, id), Restart)
    ensures var c := Crash(k, policy, id, outcome);
      && OnlyStatus(k, c, id, if outcome == InitializeThrows || outcome == StartThrows then FAILED else READY) && OnlyCounted(k, c, id)
      && c.lives.hooks == k.lives.hooks + if outcome == InitializeThrows then [Initialize(id)] else [Initialize(id), Start(id)]
  {
    var c := MarkFailed(k, id);
    assert Crash(k, policy, id, outcome) == c.(lives := RestartModule(c.lives, id, outcome));
  }

  /** A report that finds the budget spent under a policy that stops the kernel stops it, from every state that
      can shut down: every module of the boot order ends STOPPED, the crashed one included, after the shutdown
      hook of each that was not stopped already. */
  lemma ExhaustionStopsKernel(k: K, policy: RestartPolicy, id: Id, outcome: BootOutcome)
    requires Warranted(policy, IsRegistered(k, id), FailuresOf(k.failures, id), StopKernel) && CanShutDown(k.state)
    requires Distinct(k.bootOrder) && Elements(k.bootOrder) <= ById(k.modules).Keys
    ensures var c := Crash(k, policy, id, outcome);
      && c.state == Stopped
      && (forall x :: x in k.bootOrder ==> HealthOf(c.lives.status, x) == STOPPED)
      && FailuresOf(c.failures, id) == FailuresOf(k.failures, id) + 1
      && c.lives.hooks == k.lives.hooks + ShutdownsOf(Filter(StillUp(ById(k.modules).Keys, k.lives.status[id := FAILED]),
                                                             ResolveShutdownOrder(k.modules, k.bootOrder)))
  {
    ShutdownStopsEverything(MarkFailed(k, id));
  }

  /** A crash report can put a module back to READY after the kernel has stopped: exactly when fewer
      failures than restarts are on record and the hooks succeed. */
  lemma StoppedKernelRestartsModuleIff(k: K, policy: RestartPolicy, id: Id, outcome: BootOutcome)
    requires k.state == Stopped && IsRegistered(k, id)
    ensures Crash(k, policy, id, outcome).state == Stopped
    ensures HealthOf(Crash(k, policy, id, outcome).lives.status, id) == READY <==>
            && policy.Bounded? && FailuresOf(k.failures, id) < policy.maxRestarts
            && outcome != InitializeThrows && outcome != StartThrows
  {
  }

  // ---- pause and resume ----------------------------------------------------------------------------------------

  function PausesOf(ids: seq<Id>): seq<Hook> {
    seq(|ids|, i requires 0 <= i < |ids| => Pause(ids[i]))
  }

  lemma PausesOfSnoc(hooks: seq<Hook>, ids: seq<Id>, i: nat)
    requires i < |ids|
    ensures hooks + PausesOf(ids[..i]) + [Pause(ids[i])] == hooks + PausesOf(ids[..i + 1])
  {
    assert PausesOf(ids[..i + 1]) == PausesOf(ids[..i]) + [Pause(ids[i])];
  }

  function ResumesOf(ids: seq<Id>): seq<Hook> {
    seq(|ids|, i requires 0 <= i < |ids| => Resume(ids[i]))
  }

  lemma ResumesOfSnoc(hooks: seq<Hook>, ids: seq<Id>, i: nat)
    requires i < |ids|
    ensures hooks + ResumesOf(ids[..i]) + [Resume(ids[i])] == hooks + ResumesOf(ids[..i + 1])
  {
    assert ResumesOf(ids[..i + 1]) == ResumesOf(ids[..i]) + [Resume(ids[i])];
  }

  function PauseKernel(k: K, stopsAt: nat): K {
    if k.state != Running then k
    else
      var ids := Reverse(k.bootOrder);
      if stopsAt < |ids| then Called(k, PausesOf(ids[..stopsAt + 1]))
      else Called(k, PausesOf(ids)).(state := Paused)
  }

  function ResumeKernel(k: K, stopsAt: nat): K {
    if k.state != Paused then k
    else if stopsAt < |k.bootOrder| then Called(k, ResumesOf(k.bootOrder[..stopsAt + 1]))
    else Called(k, ResumesOf(k.bootOrder)).(state := Running)
  }

  // ---- health ------------------------------------------------------------------------------------------------

  /** Only modules that have started and not stopped are polled. */
  predicate IsUp(status: map<Id, Health>, id: Id) {
    HealthOf(status, id) == READY || HealthOf(status, id) == DEGRADED
  }

  /** What a poll writes; a hook that throws, `None`, counts as failed. */
  function PollOne(l: Lives, id: Id, answer: Option<Health>): Lives {
    if IsUp(l.status, id)
    then Lives(l.status[id := if answer.Some? then answer.value else FAILED], l.hooks + [Healthy(id)])
    else l
  }

  function PollEach(l: Lives, ids: seq<Id>, answers: Id -> Option<Health>): Lives {
    if ids == [] then l
    else PollOne(PollEach(l, ids[..|ids| - 1], answers), ids[|ids| - 1], answers(ids[|ids| - 1]))
  }

  function PollKernel(k: K, answers: Id -> Option<Health>): K {
    k.(lives := PollEach(k.lives, IdsOf(k.modules), answers))
  }

  /** After a poll a module that was up has what its hook said, and every other status is as it was. */
  lemma {:induction false} PollEachIs(l: Lives, ids: seq<Id>, answers: Id -> Option<Health>, id: Id)
    requires Distinct(ids)
    ensures HealthOf(PollEach(l, ids, answers).status, id) ==
            if id in ids && IsUp(l.status, id) then (if answers(id).Some? then answers(id).value else FAILED)
            else HealthOf(l.status, id)
  {
    if ids != [] {
      var n := |ids| - 1;
      PollEachIs(l, ids[..n], answers, id);
      assert ids == ids[..n] + [ids[n]];
      assert ids[n] !in ids[..n];
      PollEachIs(l, ids[..n], answers, ids[n]);
      assert IsUp(PollEach(l, ids[..n], answers).status, ids[n]) <==> IsUp(l.status, ids[n]);
    }
  }

  // ---- the kernel object --------------------------------------------------------------------------------------

  class KernelObject {
    const policy: RestartPolicy
    var state: KernelState
    var modules: seq<ModuleMetadata>
    var bootOrder: seq<Id>
    var status: map<Id, Health>
    var failureCounts: map<Id, nat>
    var hooks: seq<Hook>

    constructor (policy: RestartPolicy)
      ensures this.policy == policy && View() == K(Created, [], [], map[], Lives(map[], []))
    {
      this.policy := policy;
      state, modules, bootOrder, status, failureCounts, hooks := Created, [], [], map[], map[], [];
    }

    ghost function View(): K
      reads this
    {
      K(state, modules, bootOrder, failureCounts, Lives(status, hooks))
    }

    /** Refused once the kernel has left `created`, or for an id that is already registered. */
    method Register(m: ModuleMetadata) returns (ok: bool)
      requires UniqueIds(modules)
      modifies this
      ensures UniqueIds(modules)
      ensures ok <==> old(state) == Created && m.id !in ById(old(modules))
      ensures View() == if ok then old(View()).(modules := old(modules) + [m], lives := old(View()).lives.(status := old(status)[m.id := UNKNOWN]))
                        else old(View())
    {
      ok := state == Created && m.id !in ById(modules);
      if ok {
        RegisterUnique(modules, m);
        modules := modules + [m];
        status := status[m.id := UNKNOWN];
      }
    }

    method BootKernel(idLess: Before, out: Id -> BootOutcome) returns (r: Resolution)
      requires UniqueIds(modules) && StrictTotal(idLess)
      modifies this
      ensures old(state) == Created ==> Resolves(modules, idLess, r)
      ensures View() == Boot(old(View()), r, out)
    {
      if state != Created {
        return Ordered([]);
      }
      state := Booting;
      r := ResolveBootOrder(modules, idLess);
      if !r.Ordered? {
        state := BootFailed;
        return;
      }
      bootOrder := r.order;
      BootModules(r.order, out);
    }

    /** The boot loop over the resolved order. */
    method BootModules(order: seq<Id>, out: Id -> BootOutcome)
      requires state == Booting
      modifies this`state, this`status, this`hooks, this`failureCounts
      ensures View() == BootLoop(old(View()), order, out)
    {
      ghost var start := View();
      var started := [];
      for i := 0 to |order|
        invariant started == order[..i]
        invariant forall j :: 0 <= j < i ==> out(order[j]) == Boots
        invariant View() == start.(lives := BootEach(start.lives, order[..i]))
      {
        var id := order[i];
        BootEachNext(start.lives, order, i);
        BootOne(id, out(id), started);
        if out(id) != Boots {
          BootLoopEnds(start, order, out, i);
          return;
        }
        started := started + [id];
      }
      BootLoopEnds(start, order, out, |order|);
      WholePrefix(order);
      state := Running;
    }

    /** The hooks of one module, and what follows if one of them throws. */
    method BootOne(id: Id, outcome: BootOutcome, started: seq<Id>)
      modifies this`state, this`status, this`hooks, this`failureCounts
      ensures outcome == Boots ==>
        View() == old(View()).(lives := Lives(old(status)[id := READY], old(hooks) + BootHooks(id)))
      ensures outcome != Boots ==> View() == FailedBoot(old(View()), started, id, outcome)
    {
      hooks := hooks + [Attach(id)];
      if outcome == AttachThrows { return; }
      status := status[id := INITIALIZING];
      hooks := hooks + [Initialize(id)];
      if outcome != InitializeThrows {
        hooks := hooks + [Start(id)];
        assert hooks == old(hooks) + BootHooks(id);
        if outcome == Boots {
          status := status[id := READY];
          assert status == old(status)[id := READY];
          return;
        }
      }
      ghost var failing := Called(old(View()), FailingHooks(id, outcome));
      assert hooks == failing.lives.hooks && status[id := FAILED] == failing.lives.status[id := FAILED];
      Abort(id, started);
    }

    /** The catch block: mark the module, unwind what has started, give up. */
    method Abort(id: Id, started: seq<Id>)
      modifies this`state, this`status, this`hooks, this`failureCounts
      ensures View() == Unwound(old(View()), started, id)
    {
      status := status[id := FAILED];
      failureCounts := failureCounts[id := FailuresOf(failureCounts, id) + 1];
      Unwind(Reverse(started));
      state := BootFailed;
    }

    method Unwind(ids: seq<Id>)
      modifies this`status, this`hooks
      ensures Lives(status, hooks) == StopEach(Lives(old(status), old(hooks)), ids)
    {
      ghost var before := Lives(status, hooks);
      for j := 0 to |ids|
        invariant Lives(status, hooks) == StopEach(before, ids[..j])
      {
        SplitAt(ids, j);
        StopEachSnoc(before, ids[..j], ids[j]);
        hooks := hooks + [Shutdown(ids[j])];
        status := status[ids[j] := STOPPED];
      }
      WholePrefix(ids);
    }

    method ShutDown() returns (ok: bool)
      modifies this`state, this`status, this`hooks
      ensures ok == CanShutDown(old(state))
      ensures View() == ShutdownKernel(old(View()))
    {
      if state != Running && state != Paused && state != BootFailed {
        return false;
      }
      state := ShuttingDown;
      StopDue(ById(modules).Keys, ResolveShutdownOrder(modules, bootOrder));
      state := Stopped;
      return true;
    }

    /** The shutdown loop. */
    method StopDue(registered: set<Id>, ids: seq<Id>)
      modifies this`status, this`hooks
      ensures Lives(status, hooks) == StopRemaining(registered, Lives(old(status), old(hooks)), ids)
    {
      ghost var before := Lives(status, hooks);
      for i := 0 to |ids|
        invariant Lives(status, hooks) == StopRemaining(registered, before, ids[..i])
      {
        assert ids[..i + 1][..i] == ids[..i];
        if ids[i] in registered && HealthOf(status, ids[i]) != STOPPED {
          hooks := hooks + [Shutdown(ids[i])];
          status := status[ids[i] := STOPPED];
        }
      }
      WholePrefix(ids);
    }

    /** Pauses the modules in reverse boot order; a throwing hook leaves the kernel running. */
    method PauseAll(stopsAt: nat)
      modifies this`state, this`hooks
      ensures View() == PauseKernel(old(View()), stopsAt)
    {
      if state != Running {
        return;
      }
      var ids := Reverse(bootOrder);
      for i := 0 to |ids|
        invariant i <= stopsAt && state == old(state)
        invariant hooks == old(hooks) + PausesOf(ids[..i])
      {
        PausesOfSnoc(old(hooks), ids, i);
        hooks := hooks + [Pause(ids[i])];
        if i == stopsAt {
          return;
        }
      }
      WholePrefix(ids);
      state := Paused;
    }

    /** Resumes the modules in boot order; a throwing hook leaves the kernel paused. */
    method ResumeAll(stopsAt: nat)
      modifies this`state, this`hooks
      ensures View() == ResumeKernel(old(View()), stopsAt)
    {
      if state != Paused {
        return;
      }
      for i := 0 to |bootOrder|
        invariant i <= stopsAt && state == old(state)
        invariant hooks == old(hooks) + ResumesOf(bootOrder[..i])
      {
        ResumesOfSnoc(old(hooks), bootOrder, i);
        hooks := hooks + [Resume(bootOrder[i])];
        if i == stopsAt {
          return;
        }
      }
      WholePrefix(bootOrder);
      state := Running;
    }

    /** Polls one module if it is up, and reports its status. */
    method PollModule(id: Id, answer: Option<Health>) returns (report: Health)
      modifies this`status, this`hooks
      ensures Lives(status, hooks) == PollOne(Lives(old(status), old(hooks)), id, answer)
      ensures report == HealthOf(status, id) && forall x :: x != id ==> HealthOf(status, x) == HealthOf(old(status), x)
    {
      report := HealthOf(status, id);
      if report == READY || report == DEGRADED {
        hooks := hooks + [Healthy(id)];
        report := if answer.Some? then answer.value else FAILED;
        status := status[id := report];
      }
    }

    /** Polls the modules in registration order and reports their statuses. */
    method PollHealth(answers: Id -> Option<Health>) returns (reports: seq<Health>)
      requires UniqueIds(modules)
      modifies this`status, this`hooks
      ensures View() == PollKernel(old(View()), answers)
      ensures |reports| == |modules| && forall i :: 0 <= i < |modules| ==> reports[i] == HealthOf(status, modules[i].id)
    {
      var ids := IdsOf(modules);
      ghost var before := Lives(status, hooks);
      reports := [];
      for i := 0 to |ids|
        invariant Lives(status, hooks) == PollEach(before, ids[..i], answers)
        invariant |reports| == i && forall j :: 0 <= j < i ==> reports[j] == HealthOf(status, ids[j])
      {
        assert ids[..i + 1][..i] == ids[..i];
        var report := PollModule(ids[i], answers(ids[i]));
        reports := reports + [report];
      }
      WholePrefix(ids);
    }

    method ReportCrash(id: Id, outcome: BootOutcome) returns (decision: Decision)
      modifies this`state, this`status, this`hooks, this`failureCounts
      ensures decision == CrashDecision(old(View()), policy, id)
      ensures Warranted(policy, id in ById(modules), FailuresOf(old(failureCounts), id), decision)
      ensures View() == Crash(old(View()), policy, id, outcome)
    {
      if id !in ById(modules) {
        return LeaveFailed;
      }
      status := status[id := FAILED];
      var failureCount := FailuresOf(failureCounts, id) + 1;
      failureCounts := failureCounts[id := failureCount];
      assert View() == MarkFailed(old(View()), id);
      decision := Decide(policy, failureCount);
      if decision == Restart {
        hooks := hooks + [Initialize(id)];
        if outcome != InitializeThrows {
          hooks := hooks + [Start(id)];
          if outcome != StartThrows {
            status := status[id := READY];
          }
        }
        assert hooks == old(hooks) + if outcome == InitializeThrows then [Initialize(id)] else [Initialize(id), Start(id)];
      } else if decision == StopKernel {
        var _ := ShutDown();
      }
    }
  }

  lemma RegisterUnique(modules: seq<ModuleMetadata>, m: ModuleMetadata)
    requires UniqueIds(modules) && m.id !in ById(modules)
    ensures UniqueIds(modules + [m])
  {
    IndexMembers(ModuleKey(), modules);
    var ids, next := IdsOf(modules), IdsOf(modules + [m]);
    forall i, j | 0 <= i < j < |next| ensures next[i] != next[j] {
      assert next[i] == (modules + [m])[i].id && next[j] == (modules + [m])[j].id;
      assert i < |modules| ==> next[i] == ids[i] && ids[i] in Elements(ids);
      assert j < |modules| ==> next[j] == ids[j];
    }
  }
}

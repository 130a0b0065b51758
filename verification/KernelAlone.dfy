/** One lifecycle call left to itself: its segments, one after the other, do what the kernel's method does. */
module KernelAlone {
  import opened Base
  import opened BootOrder
  import opened Kernel
  import opened KernelSteps

  ghost predicate OnlyBy(call: nat, steps: seq<Step>) {
    forall j :: 0 <= j < |steps| ==> steps[j].Proceed? && steps[j].call == call
  }

  /** From `w` the call alone brings the kernel to `k`. */
  ghost predicate Leads(s: Setting, w: World, call: nat, steps: seq<Step>, k: K) {
    OnlyBy(call, steps) && Continue(s, w, steps).k == k
  }

  lemma LeadsFirst(s: Setting, w: World, call: nat, a: Answer, rest: seq<Step>, k: K)
    requires Leads(s, Apply(s, w, Proceed(call, a)), call, rest, k)
    ensures Leads(s, w, call, [Proceed(call, a)] + rest, k)
  {
    ContinueCons(s, w, Proceed(call, a), rest);
  }

  // ---- shutdown -------------------------------------------------------------------------------------------

  lemma {:induction false} StopsAlone(s: Setting, w: World, call: nat, k: K, l: Lives, order: seq<Id>, i: nat) returns (steps: seq<Step>)
    requires i <= |order| && k.lives == StopRemaining(ById(k.modules).Keys, l, order[..i])
    ensures Leads(s, StopNext(w, call, k, order, i), call, steps, k.(state := Stopped, lives := StopRemaining(ById(k.modules).Keys, l, order)))
    decreases |order| - i
  {
    var registered := ById(k.modules).Keys;
    if i == |order| {
      WholePrefix(order);
      steps := [];
    } else {
      assert order[..i + 1][..i] == order[..i];
      var next := StopRemaining(registered, l, order[..i + 1]);
      if NotStopped(registered, k.lives.status, order[i]) {
        var v := StopNext(w, call, k, order, i);
        var k' := Mark(Called(k, [Shutdown(order[i])]), order[i], STOPPED);
        assert k'.lives == next;
        var rest := StopsAlone(s, v, call, k', l, order, i + 1);
        assert Apply(s, v, Proceed(call, GOES_ON)) == StopNext(v, call, k', order, i + 1);
        LeadsFirst(s, v, call, GOES_ON, rest, k.(state := Stopped, lives := StopRemaining(registered, l, order)));
        steps := [Proceed(call, GOES_ON)] + rest;
      } else {
        steps := StopsAlone(s, w, call, k, l, order, i + 1);
      }
    }
  }

  /** An accepted shutdown left to itself does what the kernel's shutdown does. */
  lemma ShutdownAlone(s: Setting, w: World, call: nat) returns (steps: seq<Step>)
    requires call !in w.calls && CanShutDown(w.k.state)
    ensures Leads(s, Apply(s, w, Begin(call, DoShutdown)), call, steps, ShutdownKernel(w.k))
  {
    var v := Apply(s, w, Begin(call, DoShutdown));
    var order := ResolveShutdownOrder(w.k.modules, w.k.bootOrder);
    var rest := StopsAlone(s, v, call, v.k, v.k.lives, order, 0);
    assert v.k.(state := Stopped, lives := StopRemaining(ById(v.k.modules).Keys, v.k.lives, order)) == ShutdownKernel(w.k);
    LeadsFirst(s, v, call, GOES_ON, rest, ShutdownKernel(w.k));
    steps := [Proceed(call, GOES_ON)] + rest;
  }

  // ---- pause and resume -------------------------------------------------------------------------------------

  lemma PausesOfCons(hooks: seq<Hook>, ids: seq<Id>, i: nat, n: nat)
    requires i < n <= |ids|
    ensures hooks + [Pause(ids[i])] + PausesOf(ids[i + 1..n]) == hooks + PausesOf(ids[i..n])
  {
    assert [Pause(ids[i])] + PausesOf(ids[i + 1..n]) == PausesOf(ids[i..n]);
  }

  lemma ResumesOfCons(hooks: seq<Hook>, ids: seq<Id>, i: nat, n: nat)
    requires i < n <= |ids|
    ensures hooks + [Resume(ids[i])] + ResumesOf(ids[i + 1..n]) == hooks + ResumesOf(ids[i..n])
  {
    assert [Resume(ids[i])] + ResumesOf(ids[i + 1..n]) == ResumesOf(ids[i..n]);
  }

  lemma {:induction false} PausesAlone(s: Setting, w: World, call: nat, ids: seq<Id>, i: nat, stopsAt: nat) returns (steps: seq<Step>)
    requires i <= |ids| && i <= stopsAt
    ensures Leads(s, PauseNext(w, call, ids, i), call, steps,
                  if stopsAt < |ids| then Called(w.k, PausesOf(ids[i..stopsAt + 1])) else Called(w.k, PausesOf(ids[i..])).(state := Paused))
    decreases |ids| - i
  {
    var v := PauseNext(w, call, ids, i);
    if i == |ids| {
      steps := [];
      assert w.k.lives.hooks + PausesOf(ids[i..]) == w.k.lives.hooks;
    } else if i == stopsAt {
      assert PausesOf(ids[i..stopsAt + 1]) == [Pause(ids[i])];
      LeadsFirst(s, v, call, THROWS, [], v.k);
      steps := [Proceed(call, THROWS)];
      assert steps == [Proceed(call, THROWS)] + [];
    } else {
      var rest := PausesAlone(s, v, call, ids, i + 1, stopsAt);
      var n := if stopsAt < |ids| then stopsAt + 1 else |ids|;
      PausesOfCons(w.k.lives.hooks, ids, i, n);
      LeadsFirst(s, v, call, GOES_ON, rest, Continue(s, Apply(s, v, Proceed(call, GOES_ON)), rest).k);
      steps := [Proceed(call, GOES_ON)] + rest;
    }
  }

  /** A pause left to itself does what the kernel's pause does, whichever hook throws. */
  lemma PauseAlone(s: Setting, w: World, call: nat, stopsAt: nat) returns (steps: seq<Step>)
    requires call !in w.calls && w.k.state == Running
    ensures Leads(s, Apply(s, w, Begin(call, DoPause)), call, steps, PauseKernel(w.k, stopsAt))
  {
    var ids := Reverse(w.k.bootOrder);
    steps := PausesAlone(s, w, call, ids, 0, stopsAt);
    assert ids[0..] == ids;
  }

  lemma {:induction false} ResumesAlone(s: Setting, w: World, call: nat, ids: seq<Id>, i: nat, stopsAt: nat) returns (steps: seq<Step>)
    requires i <= |ids| && i <= stopsAt
    ensures Leads(s, ResumeNext(w, call, ids, i), call, steps,
                  if stopsAt < |ids| then Called(w.k, ResumesOf(ids[i..stopsAt + 1])) else Called(w.k, ResumesOf(ids[i..])).(state := Running))
    decreases |ids| - i
  {
    var v := ResumeNext(w, call, ids, i);
    if i == |ids| {
      steps := [];
      assert w.k.lives.hooks + ResumesOf(ids[i..]) == w.k.lives.hooks;
    } else if i == stopsAt {
      assert ResumesOf(ids[i..stopsAt + 1]) == [Resume(ids[i])];
      LeadsFirst(s, v, call, THROWS, [], v.k);
      steps := [Proceed(call, THROWS)];
      assert steps == [Proceed(call, THROWS)] + [];
    } else {
      var rest := ResumesAlone(s, v, call, ids, i + 1, stopsAt);
      var n := if stopsAt < |ids| then stopsAt + 1 else |ids|;
      ResumesOfCons(w.k.lives.hooks, ids, i, n);
      LeadsFirst(s, v, call, GOES_ON, rest, Continue(s, Apply(s, v, Proceed(call, GOES_ON)), rest).k);
      steps := [Proceed(call, GOES_ON)] + rest;
    }
  }

  lemma ResumeAlone(s: Setting, w: World, call: nat, stopsAt: nat) returns (steps: seq<Step>)
    requires call !in w.calls && w.k.state == Paused
    ensures Leads(s, Apply(s, w, Begin(call, DoResume)), call, steps, ResumeKernel(w.k, stopsAt))
  {
    steps := ResumesAlone(s, w, call, w.k.bootOrder, 0, stopsAt);
    assert w.k.bootOrder[0..] == w.k.bootOrder;
  }

  // ---- health polls --------------------------------------------------------------------------------------------

  /** The answer a segment gets when the hook reports, or throws. */
  function PollAnswer(answer: Option<Health>): Answer {
    Answer(answer.Some?, true, if answer.Some? then answer.value else FAILED)
  }

  lemma {:induction false} PollsAlone(s: Setting, w: World, call: nat, k: K, l: Lives, ids: seq<Id>, i: nat, answers: Id -> Option<Health>)
    returns (steps: seq<Step>)
    requires i <= |ids| && k.lives == PollEach(l, ids[..i], answers)
    ensures Leads(s, PollNext(w, call, k, ids, i), call, steps, k.(lives := PollEach(l, ids, answers)))
    decreases |ids| - i
  {
    if i == |ids| {
      WholePrefix(ids);
      steps := [];
    } else {
      assert ids[..i + 1][..i] == ids[..i];
      var next := k.(lives := PollEach(l, ids[..i + 1], answers));
      if IsUp(k.lives.status, ids[i]) {
        var v, a := PollNext(w, call, k, ids, i), PollAnswer(answers(ids[i]));
        assert Mark(v.k, ids[i], if a.ok then a.health else FAILED) == next;
        var rest := PollsAlone(s, v, call, next, l, ids, i + 1, answers);
        LeadsFirst(s, v, call, a, rest, k.(lives := PollEach(l, ids, answers)));
        steps := [Proceed(call, a)] + rest;
      } else {
        steps := PollsAlone(s, w, call, k, l, ids, i + 1, answers);
      }
    }
  }

  /** A health poll left to itself does what the kernel's health method does. */
  lemma HealthAlone(s: Setting, w: World, call: nat, answers: Id -> Option<Health>) returns (steps: seq<Step>)
    requires call !in w.calls
    ensures Leads(s, Apply(s, w, Begin(call, DoHealth)), call, steps, PollKernel(w.k, answers))
  {
    steps := PollsAlone(s, w, call, w.k, w.k.lives, IdsOf(w.k.modules), 0, answers);
  }

  // ---- crash reports -----------------------------------------------------------------------------------------

  lemma RestartAlone(s: Setting, w: World, call: nat, id: Id, outcome: BootOutcome) returns (steps: seq<Step>)
    requires HealthOf(w.k.lives.status, id) == FAILED && id in w.k.lives.status
    ensures Leads(s, Goto(w, call, Called(w.k, [Initialize(id)]), InCrash(id, Reinitializing)), call, steps,
                  w.k.(lives := RestartModule(w.k.lives, id, outcome)))
  {
    var v := Goto(w, call, Called(w.k, [Initialize(id)]), InCrash(id, Reinitializing));
    var target := w.k.(lives := RestartModule(w.k.lives, id, outcome));
    assert w.k.lives.status[id := FAILED] == w.k.lives.status;
    if outcome == InitializeThrows {
      LeadsFirst(s, v, call, THROWS, [], target);
      steps := [Proceed(call, THROWS)] + [];
    } else {
      var last := if outcome == StartThrows then THROWS else GOES_ON;
      var started := Apply(s, v, Proceed(call, GOES_ON));
      assert w.k.lives.hooks + [Initialize(id)] + [Start(id)] == w.k.lives.hooks + [Initialize(id), Start(id)];
      LeadsFirst(s, started, call, last, [], target);
      LeadsFirst(s, v, call, GOES_ON, [Proceed(call, last)] + [], target);
      steps := [Proceed(call, GOES_ON)] + ([Proceed(call, last)] + []);
    }
  }

  /** A crash report left to itself does what the kernel's `reportCrash` does. */
  lemma CrashAlone(s: Setting, w: World, call: nat, id: Id, outcome: BootOutcome) returns (steps: seq<Step>)
    requires call !in w.calls
    ensures Leads(s, Apply(s, w, Begin(call, DoCrash(id))), call, steps, Crash(w.k, s.policy, id, outcome))
  {
    var v := Apply(s, w, Begin(call, DoCrash(id)));
    if !IsRegistered(w.k, id) {
      steps := [];
    } else {
      var decided := Apply(s, v, Proceed(call, GOES_ON));
      var d := CrashDecision(w.k, s.policy, id);
      var rest: seq<Step> := [];
      if d == Restart {
        var x := v.(log := decided.log);
        assert decided == Goto(x, call, Called(x.k, [Initialize(id)]), InCrash(id, Reinitializing));
        rest := RestartAlone(s, x, call, id, outcome);
      } else if d == StopKernel && CanShutDown(w.k.state) {
        var order := ResolveShutdownOrder(w.k.modules, w.k.bootOrder);
        var more := StopsAlone(s, decided, call, decided.k, decided.k.lives, order, 0);
        LeadsFirst(s, decided, call, GOES_ON, more, ShutdownKernel(v.k));
        rest := [Proceed(call, GOES_ON)] + more;
      }
      LeadsFirst(s, v, call, GOES_ON, rest, Crash(w.k, s.policy, id, outcome));
      steps := [Proceed(call, GOES_ON)] + rest;
    }
  }

  // ---- boot -------------------------------------------------------------------------------------------------------

  /** `back` lists the first `i` modules of the boot order, last first. */
  predicate ListsBack(order: seq<Id>, i: nat, back: seq<Id>) {
    i <= |order| && |back| == i && forall j :: 0 <= j < i ==> back[j] == order[i - 1 - j]
  }

  lemma UnwindProceeds(s: Setting, w: World, call: nat, k: K, i: nat, outcome: BootOutcome, n: nat)
    requires 0 < n <= i < |k.bootOrder|
    ensures var v := UnwindNext(w, call, k, i, outcome, n);
      Apply(s, v, Proceed(call, GOES_ON)) ==
      UnwindNext(v, call, Mark(Called(k, [Shutdown(k.bootOrder[n - 1])]), k.bootOrder[n - 1], STOPPED), i, outcome, n - 1)
  {
  }

  lemma StopsOneMore(k: K, l: Lives, back: seq<Id>, j: nat)
    requires j < |back| && k.lives == StopEach(l, back[..j])
    ensures Mark(Called(k, [Shutdown(back[j])]), back[j], STOPPED) == k.(lives := StopEach(l, back[..j + 1]))
  {
    assert back[..j + 1] == back[..j] + [back[j]];
    StopEachSnoc(l, back[..j], back[j]);
  }

  lemma {:induction false} UnwindsAlone(s: Setting, w: World, call: nat, k: K, l: Lives, back: seq<Id>, i: nat, outcome: BootOutcome, n: nat)
    returns (steps: seq<Step>)
    requires n <= i < |k.bootOrder| && ListsBack(k.bootOrder, i, back) && k.lives == StopEach(l, back[..i - n])
    ensures Leads(s, UnwindNext(w, call, k, i, outcome, n), call, steps, k.(state := BootFailed, lives := StopEach(l, back)))
    decreases n
  {
    var target := k.(state := BootFailed, lives := StopEach(l, back));
    if n == 0 {
      WholePrefix(back);
      assert k.lives.hooks + [] == k.lives.hooks;
      steps := [];
    } else {
      var v := UnwindNext(w, call, k, i, outcome, n);
      StopsOneMore(k, l, back, i - n);
      UnwindProceeds(s, w, call, k, i, outcome, n);
      var k' := k.(lives := StopEach(l, back[..i - (n - 1)]));
      var rest := UnwindsAlone(s, v, call, k', l, back, i, outcome, n - 1);
      assert k'.(state := BootFailed, lives := StopEach(l, back)) == target;
      LeadsFirst(s, v, call, GOES_ON, rest, target);
      steps := [Proceed(call, GOES_ON)] + rest;
    }
  }

  /** The catch block and the unwinding, from the segment in which the hook's failure is seen. */
  lemma FailsAlone(s: Setting, w: World, call: nat, i: nat, outcome: BootOutcome) returns (steps: seq<Step>)
    requires i < |w.k.bootOrder|
    ensures Leads(s, BootFail(w, call, i, outcome), call, steps, Kernel.Unwound(w.k, w.k.bootOrder[..i], w.k.bootOrder[i]))
  {
    var v := BootFail(w, call, i, outcome);
    var back := Reverse(w.k.bootOrder[..i]);
    assert w.k.lives.hooks + [] == w.k.lives.hooks;
    assert v.k == MarkFailed(w.k, w.k.bootOrder[i]);
    var rest := UnwindsAlone(s, v, call, v.k, v.k.lives, back, i, outcome, i);
    LeadsFirst(s, v, call, GOES_ON, rest, Kernel.Unwound(w.k, w.k.bootOrder[..i], w.k.bootOrder[i]));
    steps := [Proceed(call, GOES_ON)] + rest;
  }

  function Attaches(order: seq<Id>, i: nat, out: Id -> BootOutcome): Answer {
    Answer(true, i < |order| && out(order[i]) != AttachThrows, READY)
  }

  /** A module attached on top of `k`, when its initialize hook is called. */
  function AtInitialize(k: K, id: Id): K {
    Mark(Called(Called(k, [Attach(id)]), [Initialize(id)]), id, INITIALIZING)
  }

  lemma AttachedProceeds(s: Setting, w: World, call: nat, k: K, i: nat)
    requires i < |k.bootOrder|
    ensures var v := Apply(s, BootNext(w, call, k, i, true), Proceed(call, GOES_ON));
      v.k == AtInitialize(k, k.bootOrder[i]) && call in v.calls && v.calls[call] == InBoot(Initializing(i))
  {
  }

  /** The three boot hooks of a module that boots. */
  lemma ModuleBoots(s: Setting, v: World, call: nat, k: K, i: nat, a: Answer)
    requires i < |k.bootOrder| && v.k == AtInitialize(k, k.bootOrder[i]) && call in v.calls && v.calls[call] == InBoot(Initializing(i))
    ensures var x := Apply(s, Apply(s, v, Proceed(call, GOES_ON)), Proceed(call, GOES_ON));
      var l := Lives(k.lives.status[k.bootOrder[i] := READY], k.lives.hooks + BootHooks(k.bootOrder[i]));
      Apply(s, x, Proceed(call, a)) == BootNext(x, call, k.(lives := l), i + 1, a.attaches)
  {
    var id := k.bootOrder[i];
    assert k.lives.hooks + [Attach(id)] + [Initialize(id)] + [Start(id)] + [] == k.lives.hooks + BootHooks(id);
    assert k.lives.status[id := INITIALIZING][id := READY] == k.lives.status[id := READY];
  }

  /** The mark of an initializing module does not outlast its failure. */
  lemma FailedAt(k: K, started: seq<Id>, id: Id)
    ensures Kernel.Unwound(AtInitialize(k, id), started, id) == FailedBoot(k, started, id, InitializeThrows)
    ensures Kernel.Unwound(Called(AtInitialize(k, id), [Start(id)]), started, id) == FailedBoot(k, started, id, StartThrows)
  {
    assert k.lives.status[id := INITIALIZING][id := FAILED] == k.lives.status[id := FAILED];
    assert k.lives.hooks + [Attach(id)] + [Initialize(id)] == k.lives.hooks + [Attach(id), Initialize(id)];
    assert k.lives.hooks + [Attach(id)] + [Initialize(id)] + [Start(id)] == k.lives.hooks + BootHooks(id);
  }

  lemma InitializeFails(s: Setting, v: World, call: nat, i: nat) returns (steps: seq<Step>)
    requires i < |v.k.bootOrder| && call in v.calls && v.calls[call] == InBoot(Initializing(i))
    ensures Leads(s, v, call, steps, Kernel.Unwound(v.k, v.k.bootOrder[..i], v.k.bootOrder[i]))
  {
    var rest := FailsAlone(s, v, call, i, InitializeThrows);
    assert Apply(s, v, Proceed(call, THROWS)) == BootFail(v, call, i, InitializeThrows);
    LeadsFirst(s, v, call, THROWS, rest, Kernel.Unwound(v.k, v.k.bootOrder[..i], v.k.bootOrder[i]));
    steps := [Proceed(call, THROWS)] + rest;
  }

  lemma StartFails(s: Setting, v: World, call: nat, i: nat, target: K) returns (steps: seq<Step>)
    requires i < |v.k.bootOrder| && call in v.calls && v.calls[call] == InBoot(Initializing(i))
    requires target == Kernel.Unwound(Called(v.k, [Start(v.k.bootOrder[i])]), v.k.bootOrder[..i], v.k.bootOrder[i])
    ensures Leads(s, v, call, steps, target)
  {
    var x := Apply(s, v, Proceed(call, GOES_ON));
    assert x.k == Called(v.k, [Start(v.k.bootOrder[i])]) && x.calls[call] == InBoot(Starting(i));
    var rest := FailsAlone(s, x, call, i, StartThrows);
    assert Apply(s, x, Proceed(call, THROWS)) == BootFail(x, call, i, StartThrows);
    LeadsFirst(s, x, call, THROWS, rest, target);
    LeadsFirst(s, v, call, GOES_ON, [Proceed(call, THROWS)] + rest, target);
    steps := [Proceed(call, GOES_ON)] + ([Proceed(call, THROWS)] + rest);
  }

  lemma ModuleFails(s: Setting, v: World, call: nat, k: K, i: nat, outcome: BootOutcome) returns (steps: seq<Step>)
    requires i < |k.bootOrder| && (outcome == InitializeThrows || outcome == StartThrows)
    requires v.k == AtInitialize(k, k.bootOrder[i]) && call in v.calls && v.calls[call] == InBoot(Initializing(i))
    ensures Leads(s, v, call, steps, FailedBoot(k, k.bootOrder[..i], k.bootOrder[i], outcome))
  {
    FailedAt(k, k.bootOrder[..i], k.bootOrder[i]);
    if outcome == InitializeThrows {
      steps := InitializeFails(s, v, call, i);
    } else {
      steps := StartFails(s, v, call, i, FailedBoot(k, k.bootOrder[..i], k.bootOrder[i], outcome));
    }
  }

  lemma LeadsThird(s: Setting, v: World, call: nat, a: Answer, rest: seq<Step>, k: K)
    requires Leads(s, Apply(s, Apply(s, Apply(s, v, Proceed(call, GOES_ON)), Proceed(call, GOES_ON)), Proceed(call, a)), call, rest, k)
    ensures Leads(s, v, call, [Proceed(call, GOES_ON)] + ([Proceed(call, GOES_ON)] + ([Proceed(call, a)] + rest)), k)
  {
    var x := Apply(s, v, Proceed(call, GOES_ON));
    LeadsFirst(s, Apply(s, x, Proceed(call, GOES_ON)), call, a, rest, k);
    LeadsFirst(s, x, call, GOES_ON, [Proceed(call, a)] + rest, k);
    LeadsFirst(s, v, call, GOES_ON, [Proceed(call, GOES_ON)] + ([Proceed(call, a)] + rest), k);
  }

  lemma {:induction false} BootsAlone(s: Setting, w: World, call: nat, k: K, l: Lives, out: Id -> BootOutcome, i: nat) returns (steps: seq<Step>)
    requires i <= |k.bootOrder| && k.lives == BootEach(l, k.bootOrder[..i])
    requires forall j :: 0 <= j < i ==> out(k.bootOrder[j]) == Boots
    ensures Leads(s, BootNext(w, call, k, i, Attaches(k.bootOrder, i, out).attaches), call, steps, BootLoop(k.(lives := l), k.bootOrder, out))
    decreases |k.bootOrder| - i
  {
    var order := k.bootOrder;
    if i == |order| {
      BootLoopEnds(k.(lives := l), order, out, i);
      WholePrefix(order);
      assert k.lives.hooks + [] == k.lives.hooks;
      steps := [];
    } else if out(order[i]) == AttachThrows {
      BootLoopEnds(k.(lives := l), order, out, i);
      steps := [];
    } else {
      var u := BootNext(w, call, k, i, true);
      var v := Apply(s, u, Proceed(call, GOES_ON));
      AttachedProceeds(s, w, call, k, i);
      var rest: seq<Step>;
      if out(order[i]) == Boots {
        rest := BootsOneMore(s, v, call, k, l, out, i);
      } else {
        BootLoopEnds(k.(lives := l), order, out, i);
        rest := ModuleFails(s, v, call, k, i, out(order[i]));
      }
      LeadsFirst(s, u, call, GOES_ON, rest, BootLoop(k.(lives := l), order, out));
      steps := [Proceed(call, GOES_ON)] + rest;
    }
  }

  lemma {:induction false} BootsOneMore(s: Setting, v: World, call: nat, k: K, l: Lives, out: Id -> BootOutcome, i: nat) returns (steps: seq<Step>)
    requires i < |k.bootOrder| && k.lives == BootEach(l, k.bootOrder[..i])
    requires forall j :: 0 <= j <= i ==> out(k.bootOrder[j]) == Boots
    requires v.k == AtInitialize(k, k.bootOrder[i]) && call in v.calls && v.calls[call] == InBoot(Initializing(i))
    ensures Leads(s, v, call, steps, BootLoop(k.(lives := l), k.bootOrder, out))
    decreases |k.bootOrder| - i, 0
  {
    var order, a := k.bootOrder, Attaches(k.bootOrder, i + 1, out);
    var k' := k.(lives := BootEach(l, order[..i + 1]));
    assert order[..i + 1] == order[..i] + [order[i]];
    BootEachSnoc(l, order[..i], order[i]);
    ModuleBoots(s, v, call, k, i, a);
    var x := Apply(s, Apply(s, v, Proceed(call, GOES_ON)), Proceed(call, GOES_ON));
    var rest := BootsAlone(s, x, call, k', l, out, i + 1);
    LeadsThird(s, v, call, a, rest, BootLoop(k.(lives := l), order, out));
    steps := [Proceed(call, GOES_ON)] + ([Proceed(call, GOES_ON)] + ([Proceed(call, a)] + rest));
  }

  /** A boot left to itself does what the kernel's boot does, whatever its modules' hooks do. */
  lemma BootAlone(s: Setting, w: World, call: nat, out: Id -> BootOutcome) returns (steps: seq<Step>)
    requires call !in w.calls && w.k.state == Created
    ensures Leads(s, Apply(s, w, Begin(call, DoBoot)), call, steps, Boot(w.k, s.resolve(w.k.modules), out))
  {
    var v, r := Apply(s, w, Begin(call, DoBoot)), s.resolve(w.k.modules);
    if r.Ordered? {
      var k, a := v.k.(bootOrder := r.order), Attaches(r.order, 0, out);
      var rest := BootsAlone(s, v, call, k, k.lives, out, 0);
      LeadsFirst(s, v, call, a, rest, Boot(w.k, r, out));
      steps := [Proceed(call, a)] + rest;
    } else {
      assert w.k.lives.hooks + [] == w.k.lives.hooks;
      LeadsFirst(s, v, call, GOES_ON, [], Boot(w.k, r, out));
      steps := [Proceed(call, GOES_ON)] + [];
    }
  }
}

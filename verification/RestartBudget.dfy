/** packages/kernel/src/crash-recovery.ts under interleaving: how the restart budget of a module is spent
    when crash reports overlap one another and the boot. */
module RestartBudget {
  import opened Base
  import opened Kahn
  import opened Kernel
  import opened KernelSteps
  import opened KernelHistory
  import opened BootOrder

  /** How many of the failures are of this module. */
  function Total(fs: seq<Failure>, id: Id): nat {
    if fs == [] then 0
    else Total(fs[..|fs| - 1], id) + if fs[|fs| - 1].id == id then 1 else 0
  }

  /** The count that the failure at position `e` was given. */
  function Number(fs: seq<Failure>, e: nat): nat
    requires e < |fs|
  {
    Total(fs[..e + 1], fs[e].id)
  }

  lemma TotalSnoc(fs: seq<Failure>, f: Failure, id: Id)
    ensures Total(fs + [f], id) == Total(fs, id) + if f.id == id then 1 else 0
  {
    assert (fs + [f])[..|fs|] == fs;
  }

  lemma NumberSnoc(fs: seq<Failure>, f: Failure, e: nat)
    requires e <= |fs|
    ensures Number(fs + [f], e) == if e < |fs| then Number(fs, e) else Total(fs, f.id) + 1
  {
    if e < |fs| {
      assert (fs + [f])[..e + 1] == fs[..e + 1];
    } else {
      WholePrefix(fs + [f]);
      TotalSnoc(fs, f, f.id);
    }
  }

  // ---- the books ----------------------------------------------------------------------------------------

  /** The kernel's counters are the numbers of recorded failures. */
  ghost predicate CountsOk(counts: map<Id, nat>, fs: seq<Failure>) {
    forall id :: FailuresOf(counts, id) == Total(fs, id)
  }

  predicate EntryDecided(policy: RestartPolicy, fs: seq<Failure>, decided: map<nat, Decision>, e: nat)
    requires e in decided
  {
    e < |fs| && fs[e].source.Some? && decided[e] == Decide(policy, Number(fs, e))
  }

  /** Decisions are taken for crash reports, each by the count it was given. */
  ghost predicate DecisionsOk(policy: RestartPolicy, fs: seq<Failure>, decided: map<nat, Decision>) {
    forall e :: e in decided ==> EntryDecided(policy, fs, decided, e)
  }

  /** A crash report that waits for its decision holds its own undecided entry. */
  predicate WaitOk(log: Log, call: nat, phase: Phase) {
    phase.InCrash? && phase.crash.Counted? ==>
      var e := phase.crash.entry;
      && e < |log.failures| && e !in log.decided
      && log.failures[e] == Failure(phase.id, Some(call)) && phase.crash.count == Number(log.failures, e)
  }

  ghost predicate WaitsOk(calls: map<nat, Phase>, log: Log) {
    forall c :: c in calls ==> WaitOk(log, c, calls[c])
  }

  /** An undecided crash report is still waiting. */
  predicate UndecidedOk(calls: map<nat, Phase>, log: Log, e: nat)
    requires e < |log.failures|
  {
    var f := log.failures[e];
    f.source.Some? && e !in log.decided ==>
      f.source.value in calls && calls[f.source.value] == InCrash(f.id, Counted(Number(log.failures, e), e))
  }

  ghost predicate AllUndecidedOk(calls: map<nat, Phase>, log: Log) {
    forall e :: 0 <= e < |log.failures| ==> UndecidedOk(calls, log, e)
  }

  ghost predicate BooksOk(policy: RestartPolicy, counts: map<Id, nat>, calls: map<nat, Phase>, log: Log) {
    CountsOk(counts, log.failures) && DecisionsOk(policy, log.failures, log.decided) && WaitsOk(calls, log) && AllUndecidedOk(calls, log)
  }

  predicate Waiting(phase: Phase) {
    phase.InCrash? && phase.crash.Counted?
  }

  /** A call that is not waiting moves on without starting to wait. */
  lemma QuietBooks(policy: RestartPolicy, counts: map<Id, nat>, calls: map<nat, Phase>, log: Log, call: nat, phase: Phase)
    requires BooksOk(policy, counts, calls, log) && !Waiting(phase) && (call in calls ==> !Waiting(calls[call]))
    ensures BooksOk(policy, counts, calls[call := phase], log)
  {
    var next := calls[call := phase];
    forall e | 0 <= e < |log.failures| ensures UndecidedOk(next, log, e) {
      assert UndecidedOk(calls, log, e);
    }
  }

  lemma RecordedCounts(counts: map<Id, nat>, fs: seq<Failure>, f: Failure)
    requires CountsOk(counts, fs)
    ensures CountsOk(CountFailure(counts, f.id), fs + [f])
  {
    forall id { TotalSnoc(fs, f, id); }
  }

  lemma RecordedDecisions(policy: RestartPolicy, fs: seq<Failure>, decided: map<nat, Decision>, f: Failure)
    requires DecisionsOk(policy, fs, decided)
    ensures DecisionsOk(policy, fs + [f], decided)
  {
    forall e | e in decided ensures EntryDecided(policy, fs + [f], decided, e) {
      assert EntryDecided(policy, fs, decided, e);
      NumberSnoc(fs, f, e);
    }
  }

  function Recorded(log: Log, f: Failure, touched: seq<Id>): Log {
    log.(failures := log.failures + [f], touched := touched)
  }

  lemma RecordedWaits(calls: map<nat, Phase>, log: Log, f: Failure, touched: seq<Id>)
    requires WaitsOk(calls, log)
    ensures WaitsOk(calls, Recorded(log, f, touched))
  {
    forall c | c in calls ensures WaitOk(Recorded(log, f, touched), c, calls[c]) {
      assert WaitOk(log, c, calls[c]);
      if Waiting(calls[c]) { NumberSnoc(log.failures, f, calls[c].crash.entry); }
    }
  }

  lemma RecordedUndecided(calls: map<nat, Phase>, log: Log, f: Failure, touched: seq<Id>, e: nat)
    requires e < |log.failures| && UndecidedOk(calls, log, e)
    ensures UndecidedOk(calls, Recorded(log, f, touched), e)
  {
    NumberSnoc(log.failures, f, e);
  }

  /** A failure at boot is recorded; nobody waits for a decision on it. */
  lemma BootFailureBooks(policy: RestartPolicy, counts: map<Id, nat>, calls: map<nat, Phase>, log: Log, id: Id)
    requires BooksOk(policy, counts, calls, log)
    ensures BooksOk(policy, CountFailure(counts, id), calls, Recorded(log, Failure(id, None), log.touched))
  {
    var f := Failure(id, None);
    RecordedCounts(counts, log.failures, f);
    RecordedDecisions(policy, log.failures, log.decided, f);
    RecordedWaits(calls, log, f, log.touched);
    forall e | 0 <= e < |log.failures| ensures UndecidedOk(calls, Recorded(log, f, log.touched), e) {
      RecordedUndecided(calls, log, f, log.touched, e);
    }
  }

  /** A crash report is recorded, and its call waits for the decision. */
  lemma CrashBooks(policy: RestartPolicy, counts: map<Id, nat>, calls: map<nat, Phase>, log: Log, call: nat, id: Id, touched: seq<Id>)
    requires BooksOk(policy, counts, calls, log) && call !in calls && |log.failures| !in log.decided
    ensures BooksOk(policy, CountFailure(counts, id),
                    calls[call := InCrash(id, Counted(FailuresOf(counts, id) + 1, |log.failures|))],
                    Recorded(log, Failure(id, Some(call)), touched))
  {
    var f, n := Failure(id, Some(call)), |log.failures|;
    var next := Recorded(log, f, touched);
    var calls' := calls[call := InCrash(id, Counted(FailuresOf(counts, id) + 1, n))];
    RecordedCounts(counts, log.failures, f);
    RecordedDecisions(policy, log.failures, log.decided, f);
    RecordedWaits(calls, log, f, touched);
    NumberSnoc(log.failures, f, n);
    forall e | 0 <= e < |next.failures| ensures UndecidedOk(calls', next, e) {
      if e < n {
        assert UndecidedOk(calls, log, e);
        RecordedUndecided(calls, log, f, touched, e);
      }
    }
    forall c | c in calls' ensures WaitOk(next, c, calls'[c]) {
      if c != call { assert WaitOk(next, c, calls[c]); }
    }
  }

  /** The decision on a crash report is taken by the count it was given, and its call waits no more. */
  lemma DecisionBooks(policy: RestartPolicy, counts: map<Id, nat>, calls: map<nat, Phase>, log: Log, call: nat, phase: Phase)
    requires BooksOk(policy, counts, calls, log) && call in calls && Waiting(calls[call]) && !Waiting(phase)
    ensures var c := calls[call].crash;
      BooksOk(policy, counts, calls[call := phase], log.(decided := log.decided[c.entry := Decide(policy, c.count)]))
  {
    var c := calls[call].crash;
    var next := log.(decided := log.decided[c.entry := Decide(policy, c.count)]);
    var moved := calls[call := phase];
    assert WaitOk(log, call, calls[call]);
    forall e | e in next.decided ensures EntryDecided(policy, next.failures, next.decided, e) {
      if e != c.entry { assert EntryDecided(policy, log.failures, log.decided, e); }
    }
    forall e | 0 <= e < |log.failures| ensures UndecidedOk(moved, next, e) {
      assert UndecidedOk(calls, log, e);
    }
    forall d | d in moved ensures WaitOk(next, d, moved[d]) {
      if d != call { assert WaitOk(log, d, calls[d]); }
    }
  }

  // ---- every step keeps the books ---------------------------------------------------------------------------

  ghost predicate Booked(s: Setting, w: World) {
    BooksOk(s.policy, w.k.failures, w.calls, w.log)
  }

  lemma SameBooks(policy: RestartPolicy, counts: map<Id, nat>, calls: map<nat, Phase>, log: Log, touched: seq<Id>)
    requires BooksOk(policy, counts, calls, log)
    ensures BooksOk(policy, counts, calls, log.(touched := touched))
  {
    var next := log.(touched := touched);
    forall e | 0 <= e < |log.failures| ensures UndecidedOk(calls, next, e) {
      assert UndecidedOk(calls, log, e);
    }
    forall c | c in calls ensures WaitOk(next, c, calls[c]) {
      assert WaitOk(log, c, calls[c]);
    }
  }

  lemma QuietStep(s: Setting, w: World, v: World, call: nat)
    requires Booked(s, w) && (call in w.calls ==> !Waiting(w.calls[call]))
    requires v.k.failures == w.k.failures && v.log == w.log.(touched := v.log.touched)
    requires call in v.calls && v.calls == w.calls[call := v.calls[call]] && !Waiting(v.calls[call])
    ensures Booked(s, v)
  {
    QuietBooks(s.policy, w.k.failures, w.calls, w.log, call, v.calls[call]);
    SameBooks(s.policy, w.k.failures, v.calls, w.log, v.log.touched);
  }

  lemma PollStep(s: Setting, w: World, call: nat, k: K, ids: seq<Id>, i: nat)
    requires Booked(s, w) && (call in w.calls ==> !Waiting(w.calls[call])) && k.failures == w.k.failures
    ensures Booked(s, PollNext(w, call, k, ids, i))
  {
    PollNextShape(w, call, k, ids, i);
    QuietStep(s, w, PollNext(w, call, k, ids, i), call);
  }

  lemma BootFailStep(s: Setting, w: World, call: nat, i: nat, outcome: BootOutcome)
    requires Booked(s, w) && i < |w.k.bootOrder| && call in w.calls && !Waiting(w.calls[call])
    ensures Booked(s, BootFail(w, call, i, outcome))
  {
    var id := w.k.bootOrder[i];
    BootFailureBooks(s.policy, w.k.failures, w.calls, w.log, id);
    QuietBooks(s.policy, CountFailure(w.k.failures, id), w.calls, Recorded(w.log, Failure(id, None), w.log.touched), call, InBoot(Failing(i, outcome)));
  }

  predicate Throws(b: BootPhase, a: Answer) {
    !a.ok && (b.Initializing? || b.Starting?)
  }

  lemma BootStep(s: Setting, w: World, call: nat, b: BootPhase, a: Answer)
    requires Booked(s, w) && call in w.calls && w.calls[call] == InBoot(b) && Within(w.k, b)
    ensures Booked(s, ProceedBoot(s, w, call, b, a))
  {
    if Throws(b, a) {
      BootFailStep(s, w, call, b.i, if b.Initializing? then InitializeThrows else StartThrows);
    } else {
      BootStaysQuiet(s, w, call, b, a);
      QuietStep(s, w, ProceedBoot(s, w, call, b, a), call);
    }
  }

  lemma BootStaysQuiet(s: Setting, w: World, call: nat, b: BootPhase, a: Answer)
    requires !Throws(b, a) && Within(w.k, b)
    ensures var v := ProceedBoot(s, w, call, b, a);
      && v.k.failures == w.k.failures && v.log == w.log
      && call in v.calls && v.calls == w.calls[call := v.calls[call]] && !Waiting(v.calls[call])
  {
  }

  lemma CrashStep(s: Setting, w: World, call: nat, id: Id, c: CrashPhase, a: Answer)
    requires Booked(s, w) && call in w.calls && w.calls[call] == InCrash(id, c)
    ensures Booked(s, ProceedCrash(s, w, call, id, c, a))
  {
    var v := ProceedCrash(s, w, call, id, c, a);
    if c.Counted? {
      DecisionBooks(s.policy, w.k.failures, w.calls, w.log, call, v.calls[call]);
    } else {
      QuietStep(s, w, v, call);
    }
  }

  lemma ProceedStep(s: Setting, w: World, call: nat, phase: Phase, a: Answer)
    requires Booked(s, w) && call in w.calls && w.calls[call] == phase && PhaseOk(w.k, w.boot.booter, call, phase)
    ensures Booked(s, ApplyProceed(s, w, call, phase, a))
  {
    match phase
    case InBoot(b) => BootStep(s, w, call, b, a);
    case InCrash(id, c) => CrashStep(s, w, call, id, c, a);
    case InShutdown(p) =>
      ShutdownLeaves(w, call, p);
      QuietStep(s, w, ApplyProceed(s, w, call, phase, a), call);
    case Polling(ids, i) => PollStep(s, w, call, Mark(w.k, ids[i], if a.ok then a.health else FAILED), ids, i + 1);
    case Pausing(_, _) => QuietStep(s, w, ApplyProceed(s, w, call, phase, a), call);
    case Resuming(_, _) => QuietStep(s, w, ApplyProceed(s, w, call, phase, a), call);
    case BootOver(_) =>
    case Ended =>
  }

  lemma NextIsUndecided(policy: RestartPolicy, fs: seq<Failure>, decided: map<nat, Decision>)
    requires DecisionsOk(policy, fs, decided)
    ensures |fs| !in decided
  {
    assert forall e :: e in decided ==> EntryDecided(policy, fs, decided, e);
  }

  lemma CountedStep(s: Setting, w: World, call: nat, id: Id)
    requires Booked(s, w) && call !in w.calls && IsRegistered(w.k, id)
    ensures Booked(s, BeginCrash(w, call, id))
  {
    NextIsUndecided(s.policy, w.log.failures, w.log.decided);
    CrashBooks(s.policy, w.k.failures, w.calls, w.log, call, id, w.log.touched + [id]);
  }

  lemma BeginCrashStep(s: Setting, w: World, call: nat, id: Id)
    requires Booked(s, w) && call !in w.calls
    ensures Booked(s, BeginCrash(w, call, id))
  {
    if IsRegistered(w.k, id) {
      CountedStep(s, w, call, id);
    } else {
      QuietStep(s, w, Goto(w, call, w.k, Ended), call);
    }
  }

  lemma PauseStep(s: Setting, w: World, call: nat, order: seq<Id>)
    requires Booked(s, w) && call !in w.calls
    ensures Booked(s, PauseNext(w, call, order, 0)) && Booked(s, ResumeNext(w, call, order, 0))
  {
    QuietStep(s, w, PauseNext(w, call, order, 0), call);
    QuietStep(s, w, ResumeNext(w, call, order, 0), call);
  }

  lemma BeginStep(s: Setting, w: World, call: nat, op: Op)
    requires Booked(s, w) && call !in w.calls
    ensures Booked(s, ApplyBegin(w, call, op))
  {
    QuietStep(s, w, Goto(w, call, w.k, Ended), call);
    match op
    case DoBoot => QuietStep(s, w, BeginBoot(w, call), call);
    case DoShutdown => QuietStep(s, w, AcceptShutdown(w, call), call);
    case DoPause => PauseStep(s, w, call, Reverse(w.k.bootOrder));
    case DoResume => PauseStep(s, w, call, w.k.bootOrder);
    case DoHealth => PollStep(s, w, call, w.k, IdsOf(w.k.modules), 0);
    case DoCrash(id) => BeginCrashStep(s, w, call, id);
  }

  lemma {:induction false} BooksStayOk(s: Setting, idLess: Before, steps: seq<Step>)
    requires Resolver(s, idLess)
    ensures Booked(s, After(s, steps))
  {
    if steps != [] {
      var n := |steps| - 1;
      var w := After(s, steps[..n]);
      CallsStayOk(s, idLess, steps[..n]);
      BooksStayOk(s, idLess, steps[..n]);
      match steps[n]
      case Register(m) =>
      case Begin(call, op) => if call !in w.calls { BeginStep(s, w, call, op); }
      case Proceed(call, a) =>
        if call in w.calls {
          assert PhaseOk(w.k, w.boot.booter, call, w.calls[call]);
          ProceedStep(s, w, call, w.calls[call], a);
        }
    }
  }

  // ---- the budget ---------------------------------------------------------------------------------------------

  /** How the first `n` failures of a module were used: restarts granted, reports within the budget that
      still wait for their decision, and failures at boot within the budget. */
  function Granted(log: Log, id: Id, n: nat): nat
    requires n <= |log.failures|
  {
    if n == 0 then 0
    else
      Granted(log, id, n - 1) +
      if log.failures[n - 1].id == id && n - 1 in log.decided && log.decided[n - 1] == Restart then 1 else 0
  }

  function Pending(log: Log, id: Id, budget: nat, n: nat): nat
    requires n <= |log.failures|
  {
    if n == 0 then 0
    else
      Pending(log, id, budget, n - 1) +
      if log.failures[n - 1].id == id && log.failures[n - 1].source.Some? && n - 1 !in log.decided &&
         Number(log.failures, n - 1) <= budget then 1 else 0
  }

  function SpentAtBoot(log: Log, id: Id, budget: nat, n: nat): nat
    requires n <= |log.failures|
  {
    if n == 0 then 0
    else
      SpentAtBoot(log, id, budget, n - 1) +
      if log.failures[n - 1].id == id && log.failures[n - 1].source.None? && Number(log.failures, n - 1) <= budget then 1 else 0
  }

  function AtMost(n: nat, cap: nat): nat {
    if n <= cap then n else cap
  }

  lemma {:induction false} BudgetUpTo(policy: RestartPolicy, log: Log, id: Id, n: nat)
    requires policy.Bounded? && DecisionsOk(policy, log.failures, log.decided) && n <= |log.failures|
    ensures Granted(log, id, n) + Pending(log, id, policy.maxRestarts, n) + SpentAtBoot(log, id, policy.maxRestarts, n) ==
            AtMost(Total(log.failures[..n], id), policy.maxRestarts)
  {
    if n > 0 {
      BudgetUpTo(policy, log, id, n - 1);
      var e := n - 1;
      assert log.failures[..n][..e] == log.failures[..e];
      if e in log.decided { assert EntryDecided(policy, log.failures, log.decided, e); }
    }
  }

  /** Over every interleaving the budget is spent exactly: each of the first maxRestarts failures of a module
      was granted a restart, waits for its decision, or was used up by a failed boot. So the restarts granted
      to a module never exceed the budget, however crash reports overlap. */
  lemma RestartBudgetHolds(s: Setting, idLess: Before, steps: seq<Step>, id: Id)
    requires Resolver(s, idLess) && s.policy.Bounded?
    ensures var w := After(s, steps);
      var n, budget := |w.log.failures|, s.policy.maxRestarts;
      && Granted(w.log, id, n) + Pending(w.log, id, budget, n) + SpentAtBoot(w.log, id, budget, n) ==
         AtMost(FailuresOf(w.k.failures, id), budget)
      && Granted(w.log, id, n) <= budget
  {
    BooksStayOk(s, idLess, steps);
    var w := After(s, steps);
    BudgetUpTo(s.policy, w.log, id, |w.log.failures|);
    WholePrefix(w.log.failures);
  }

  /** Over every interleaving a decision was taken for a crash report, and it is the one that the policy warrants
      given the failures of that module counted before this one, however late it was taken. */
  lemma EveryDecisionIsWarranted(s: Setting, idLess: Before, steps: seq<Step>, e: nat, d: Decision)
    requires Resolver(s, idLess) && e in After(s, steps).log.decided
    ensures var log := After(s, steps).log;
      && e < |log.failures| && log.failures[e].source.Some?
      && (log.decided[e] == d <==> Warranted(s.policy, true, Total(log.failures[..e], log.failures[e].id), d))
  {
    BooksStayOk(s, idLess, steps);
    var log := After(s, steps).log;
    assert EntryDecided(s.policy, log.failures, log.decided, e);
    assert log.failures[..e + 1][..e] == log.failures[..e];
  }

  /** Over every interleaving the segment that decides on a waiting report does what the policy warrants by the
      count the report was given: it calls initialize, or accepts a shutdown if the kernel can shut down, or
      ends the call; and the last two leave every status as it is. */
  lemma DecisionActs(s: Setting, idLess: Before, steps: seq<Step>, call: nat, a: Answer)
    requires Resolver(s, idLess) && call in After(s, steps).calls && Waiting(After(s, steps).calls[call])
    ensures var w, v := After(s, steps), After(s, steps + [Proceed(call, a)]);
      var id, e := w.calls[call].id, w.calls[call].crash.entry;
      && e < |w.log.failures| && w.log.failures[e].id == id && call in v.calls
      && var earlier := Total(w.log.failures[..e], id);
      && (Warranted(s.policy, true, earlier, Restart) ==>
            v.k == Called(w.k, [Initialize(id)]) && v.calls[call] == InCrash(id, Reinitializing))
      && (Warranted(s.policy, true, earlier, StopKernel) && CanShutDown(w.k.state) ==>
            v.k == w.k.(state := ShuttingDown) && v.calls[call] == InShutdown(Announced))
      && (Warranted(s.policy, true, earlier, StopKernel) && !CanShutDown(w.k.state) ==> v.k == w.k && v.calls[call] == Ended)
      && (Warranted(s.policy, true, earlier, LeaveFailed) ==> v.k == w.k && v.calls[call] == Ended)
  {
    BooksStayOk(s, idLess, steps);
    var w := After(s, steps);
    assert WaitOk(w.log, call, w.calls[call]);
    var e := w.calls[call].crash.entry;
    assert w.log.failures[..e + 1][..e] == w.log.failures[..e];
    assert (steps + [Proceed(call, a)])[..|steps|] == steps;
  }

  /** Over every interleaving a report without a decision is a call that is still waiting for it, with the
      count that its failure was given. */
  lemma PendingReportsWait(s: Setting, idLess: Before, steps: seq<Step>, e: nat)
    requires Resolver(s, idLess) && e < |After(s, steps).log.failures|
    ensures UndecidedOk(After(s, steps).calls, After(s, steps).log, e)
  {
    BooksStayOk(s, idLess, steps);
  }
}

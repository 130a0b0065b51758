/** packages/adapters/src/event-bus.ts: to whom a publish delivers, over every interleaving of publishes,
    subscriptions and unsubscriptions. */
module EventDelivery {
  import opened Base
  import opened EventBus

  // ---- whom a publish found ----------------------------------------------------------------------------------

  /** The registrations a publish in progress or finished has found; none before delivery begins. */
  function TargetsOf(calls: map<nat, Call>, ended: map<nat, Ending>, c: nat): Option<seq<Registration>> {
    if c in calls then
      match calls[c].phase
      case Announcing => None
      case Attempting(targets, _, _) => Some(targets)
      case Noting(targets, _) => Some(targets)
    else if c in ended && ended[c].Published? then Some(ended[c].targets)
    else None
  }

  function EventOf(calls: map<nat, Call>, ended: map<nat, Ending>, c: nat): Option<Event> {
    if c in calls then Some(calls[c].event)
    else if c in ended && ended[c].Published? then Some(ended[c].event)
    else None
  }

  /** The registrations for a type of event, by their own type. */
  ghost predicate ForType(registrations: seq<Registration>, eventType: string, targets: seq<Registration>, at: seq<nat>) {
    && |at| == |targets|
    && (forall j :: 0 <= j < |at| ==> at[j] < |registrations| && registrations[at[j]] == targets[j])
    && (forall j, k :: 0 <= j < k < |at| ==> at[j] < at[k])
    && (forall i :: 0 <= i < |registrations| ==> (registrations[i].eventType == eventType <==> exists j :: 0 <= j < |at| && at[j] == i))
  }

  /** At step `k` the delivery of `event` began, and `targets` are exactly the registrations then present whose
      type is the event's, in their order. */
  ghost predicate FoundAt(cap: nat, steps: seq<Step>, k: nat, c: nat, event: Event, targets: seq<Registration>) {
    && k < |steps| && steps[k] == HookReturned(c)
    && var s := After(cap, steps[..k]);
    && c in s.calls && s.calls[c] == Call(event, Announcing)
    && exists at :: ForType(s.registrations, event.input.eventType, targets, at)
  }

  lemma FilterIsForType(eventType: string, registrations: seq<Registration>)
    ensures exists at :: ForType(registrations, eventType, Filter(OfType(eventType), registrations), at)
  {
    var at := FilterSelects(OfType(eventType), registrations);
    assert ForType(registrations, eventType, Filter(OfType(eventType), registrations), at);
  }

  /** A step begins the delivery of `c` now, leaves what `c` found as it is, or ends `c` without a delivery. */
  lemma TargetsMove(s: State, step: Step, c: nat)
    requires s.calls.Keys !! s.ended.Keys
    ensures var t := Apply(s, step);
      var before, after := TargetsOf(s.calls, s.ended, c), TargetsOf(t.calls, t.ended, c);
      || after.None?
      || (after == before && EventOf(t.calls, t.ended, c) == EventOf(s.calls, s.ended, c))
      || (&& step == HookReturned(c) && c in s.calls && s.calls[c].phase.Announcing?
          && after == Some(Filter(OfType(s.calls[c].event.input.eventType), s.registrations))
          && EventOf(t.calls, t.ended, c) == Some(s.calls[c].event))
  {
  }

  /** Over every interleaving, what a publish in progress or finished delivers to is exactly the registrations
      that were present when its delivery began and are of the event's own type, in subscription order. */
  lemma {:induction false} TargetsAreOfTheType(cap: nat, steps: seq<Step>, c: nat) returns (k: nat)
    requires TargetsOf(After(cap, steps).calls, After(cap, steps).ended, c).Some?
    ensures var s := After(cap, steps);
      EventOf(s.calls, s.ended, c).Some? && FoundAt(cap, steps, k, c, EventOf(s.calls, s.ended, c).value, TargetsOf(s.calls, s.ended, c).value)
  {
    var n := |steps| - 1;
    var s, t := After(cap, steps[..n]), After(cap, steps);
    BusSafety(cap, steps[..n]);
    TargetsMove(s, steps[n], c);
    if TargetsOf(s.calls, s.ended, c).Some? && TargetsOf(t.calls, t.ended, c) == TargetsOf(s.calls, s.ended, c) &&
       EventOf(t.calls, t.ended, c) == EventOf(s.calls, s.ended, c)
    {
      k := TargetsAreOfTheType(cap, steps[..n], c);
      assert steps[..n][..k] == steps[..k];
    } else {
      k := n;
      FilterIsForType(s.calls[c].event.input.eventType, s.registrations);
    }
  }

  // ---- subscription order ----------------------------------------------------------------------------------------

  /** Each registration was made by a subscription of its own, in that order. */
  ghost predicate SubscribedAt(steps: seq<Step>, registrations: seq<Registration>, at: seq<nat>) {
    && |at| == |registrations|
    && (forall i :: 0 <= i < |at| ==> at[i] < |steps| && steps[at[i]] == Subscribe(registrations[i]))
    && (forall i, j :: 0 <= i < j < |at| ==> at[i] < at[j])
  }

  lemma LaterStep(steps: seq<Step>, step: Step, registrations: seq<Registration>, at: seq<nat>)
    requires SubscribedAt(steps, registrations, at)
    ensures SubscribedAt(steps + [step], registrations, at)
    ensures step.Subscribe? ==> SubscribedAt(steps + [step], registrations + [step.registration], at + [|steps|])
    ensures step.Unsubscribe? && step.index < |registrations| ==>
      SubscribedAt(steps + [step], registrations[..step.index] + registrations[step.index + 1..], at[..step.index] + at[step.index + 1..])
  {
  }

  /** How many subscriptions there were, and how many of them were taken back. */
  function Made(steps: seq<Step>): nat {
    if steps == [] then 0 else Made(steps[..|steps| - 1]) + if steps[|steps| - 1].Subscribe? then 1 else 0
  }

  function TakenBack(cap: nat, steps: seq<Step>): nat {
    if steps == [] then 0
    else
      var n := |steps| - 1;
      TakenBack(cap, steps[..n]) + if steps[n].Unsubscribe? && steps[n].index < |After(cap, steps[..n]).registrations| then 1 else 0
  }

  /** Only subscriptions and unsubscriptions change who is registered. */
  lemma RegistrationsMove(s: State, step: Step)
    ensures var t := Apply(s, step);
      && (step.Subscribe? ==> t.registrations == s.registrations + [step.registration])
      && (step.Unsubscribe? && step.index < |s.registrations| ==>
            t.registrations == s.registrations[..step.index] + s.registrations[step.index + 1..])
      && (!step.Subscribe? && !(step.Unsubscribe? && step.index < |s.registrations|) ==> t.registrations == s.registrations)
  {
  }

  /** Over every interleaving the registrations are subscriptions that were made, in the order in which they were
      made, and as many as were made and not taken back. */
  lemma {:induction false} RegistrationsAreSubscriptions(cap: nat, steps: seq<Step>) returns (at: seq<nat>)
    ensures SubscribedAt(steps, After(cap, steps).registrations, at)
    ensures |After(cap, steps).registrations| + TakenBack(cap, steps) == Made(steps)
  {
    if steps == [] {
      at := [];
    } else {
      var n := |steps| - 1;
      var s := After(cap, steps[..n]);
      at := RegistrationsAreSubscriptions(cap, steps[..n]);
      RegistrationsMove(s, steps[n]);
      LaterStep(steps[..n], steps[n], s.registrations, at);
      SplitAt(steps, n);
      WholePrefix(steps);
      if steps[n].Subscribe? {
        at := at + [n];
      } else if steps[n].Unsubscribe? && steps[n].index < |s.registrations| {
        at := at[..steps[n].index] + at[steps[n].index + 1..];
      }
    }
  }

  // ---- outcomes belong to targets ---------------------------------------------------------------------------------

  predicate TargetAt(targets: Option<seq<Registration>>, o: Outcome) {
    targets.Some? ==> o.slot < |targets.value| && targets.value[o.slot] == o.registration
  }

  /** The outcome is of an accepted event, went to a registration of that event's type, and to the one its publish
      found at that slot; a publish that has not begun to deliver has none. */
  predicate OutcomeOk(s: State, o: Outcome) {
    && 1 <= o.event.sequence <= |s.ledger.accepted| && s.ledger.accepted[o.event.sequence - 1].event == o.event
    && o.registration.eventType == o.event.input.eventType
    && var c := s.ledger.accepted[o.event.sequence - 1].call;
    && TargetAt(TargetsOf(s.calls, s.ended, c), o)
    && !(c in s.calls && s.calls[c].phase.Announcing?)
    && (c in s.calls || c in s.ended)
  }

  ghost predicate OutcomesOk(s: State) {
    forall i :: 0 <= i < |s.journal.log| ==> OutcomeOk(s, s.journal.log[i])
  }

  predicate OfOneType(targets: seq<Registration>, eventType: string) {
    forall j :: 0 <= j < |targets| ==> targets[j].eventType == eventType
  }

  /** What a publish in progress or finished has found is of its event's type. */
  predicate TypedTargets(s: State, c: nat) {
    var targets, event := TargetsOf(s.calls, s.ended, c), EventOf(s.calls, s.ended, c);
    targets.Some? && event.Some? ==> OfOneType(targets.value, event.value.input.eventType)
  }

  ghost predicate AllTyped(s: State) {
    forall c :: TypedTargets(s, c)
  }

  lemma FilterIsOfOneType(eventType: string, registrations: seq<Registration>)
    ensures OfOneType(Filter(OfType(eventType), registrations), eventType)
  {
    var targets := Filter(OfType(eventType), registrations);
    forall j | 0 <= j < |targets| ensures targets[j].eventType == eventType {
      assert targets[j] in targets;
    }
  }

  lemma StepKeepsTyped(s: State, step: Step)
    requires s.calls.Keys !! s.ended.Keys && AllTyped(s)
    ensures AllTyped(Apply(s, step))
  {
    forall c ensures TypedTargets(Apply(s, step), c) {
      assert TypedTargets(s, c);
      TargetsMove(s, step, c);
      if c in s.calls { FilterIsOfOneType(s.calls[c].event.input.eventType, s.registrations); }
    }
  }

  /** Accepted events keep their place. */
  lemma LedgerGrows(s: State, step: Step)
    ensures s.ledger.accepted <= Apply(s, step).ledger.accepted
  {
  }

  /** Begun publishes stay begun, and keep what they found while that is known. */
  lemma TargetsKept(s: State, step: Step, c: nat)
    requires s.calls.Keys !! s.ended.Keys && (c in s.calls || c in s.ended) && !(c in s.calls && s.calls[c].phase.Announcing?)
    ensures var t := Apply(s, step);
      && (c in t.calls || c in t.ended) && !(c in t.calls && t.calls[c].phase.Announcing?)
      && (TargetsOf(t.calls, t.ended, c).Some? ==> TargetsOf(t.calls, t.ended, c) == TargetsOf(s.calls, s.ended, c))
  {
  }

  lemma OldOutcomeStays(s: State, step: Step, o: Outcome)
    requires s.calls.Keys !! s.ended.Keys && OutcomeOk(s, o)
    ensures OutcomeOk(Apply(s, step), o)
  {
    LedgerGrows(s, step);
    TargetsKept(s, step, s.ledger.accepted[o.event.sequence - 1].call);
  }

  /** The outcome that a reply adds. */
  lemma NewOutcomeOk(s: State, call: nat, reply: Reply)
    requires Owned(s) && AllTyped(s) && call in s.calls && EndsWith(s, call, reply).Some?
    ensures OutcomeOk(Apply(s, ConsumerReplied(call, reply)), EndsWith(s, call, reply).value)
  {
    assert TypedTargets(s, call);
  }

  lemma StepKeepsOutcomes(s: State, step: Step)
    requires Owned(s) && AllTyped(s) && OutcomesOk(s)
    ensures OutcomesOk(Apply(s, step))
  {
    var t := Apply(s, step);
    JournalSteps(s, step);
    forall i | 0 <= i < |t.journal.log| ensures OutcomeOk(t, t.journal.log[i]) {
      if i < |s.journal.log| {
        OldOutcomeStays(s, step, s.journal.log[i]);
      } else {
        NewOutcomeOk(s, step.call, step.reply);
      }
    }
  }

  lemma {:induction false} OutcomesStayOk(cap: nat, steps: seq<Step>)
    ensures AllTyped(After(cap, steps)) && OutcomesOk(After(cap, steps))
  {
    if steps != [] {
      var n := |steps| - 1;
      OutcomesStayOk(cap, steps[..n]);
      BusSafety(cap, steps[..n]);
      StepKeepsTyped(After(cap, steps[..n]), steps[n]);
      StepKeepsOutcomes(After(cap, steps[..n]), steps[n]);
    }
  }

  // ---- what a publish is answered --------------------------------------------------------------------------------

  /** Some accepted event had this dedupe key. */
  ghost predicate AcceptedBefore(s: State, key: string) {
    exists k :: 0 <= k < |s.ledger.accepted| && s.ledger.accepted[k].key == key
  }

  /** Deduplicated if the key was used, rejected if the cap is reached, and otherwise accepted under the next number;
      the first two change nothing else. */
  ghost predicate Answered(s: State, t: State, call: nat, key: string, input: PublishInput) {
    var used, event := AcceptedBefore(s, key), Event(|s.ledger.accepted| + 1, input);
    && (used ==> t == s.(ended := s.ended[call := WasDeduplicated]))
    && (!used && |s.calls| >= s.cap ==> t == s.(ended := s.ended[call := WasRejected]))
    && (!used && |s.calls| < s.cap ==>
          && t.ended == s.ended && t.calls == s.calls[call := Call(event, Announcing)]
          && t.ledger.accepted == s.ledger.accepted + [Admitted(key, call, event)])
  }

  lemma PublishDoes(s: State, call: nat, key: string, input: PublishInput)
    requires Counted(s) && Numbered(s.ledger)
    requires key in s.ledger.seen <==> AcceptedBefore(s, key)
    ensures Answered(s, ApplyPublish(s, call, key, input), call, key, input)
  {
  }

  /** Over every interleaving a new publish is deduplicated exactly when an event with its key was accepted before,
      rejected exactly when not and as many publishes as the cap allows are in progress, and otherwise accepted. */
  lemma PublishIsAnswered(cap: nat, steps: seq<Step>, call: nat, input: PublishInput)
    requires call !in After(cap, steps).calls && call !in After(cap, steps).ended
    ensures Answered(After(cap, steps), After(cap, steps + [Publish(call, input)]), call, DedupeKey(input), input)
  {
    var s, key := After(cap, steps), DedupeKey(input);
    BusSafety(cap, steps);
    EachKeyAcceptedOnce(cap, steps);
    PublishDoes(s, call, key, input);
    assert (steps + [Publish(call, input)])[..|steps|] == steps;
  }

  /** A hook that throws ends its publish, which no longer counts as in flight; a publish that awaits a consumer
      awaits no hook, and a consumer that throws only counts as a retry. */
  lemma HookFailureEnds(s: State, call: nat)
    requires call in s.calls
    ensures var t := Apply(s, HookThrew(call));
      && (s.calls[call].phase.Announcing? || s.calls[call].phase.Noting? ==>
            && call !in t.calls && t.inflight == s.inflight - 1 && t.journal == s.journal
            && t.ended == s.ended[call := Failed(s.calls[call].event)])
      && (s.calls[call].phase.Attempting? ==> t == s)
  {
  }

  // ---- the results ---------------------------------------------------------------------------------------------------

  /** Over every interleaving every outcome, and so every dead letter, is of a registration for the event's own
      type. */
  lemma OutcomesAreOfTheType(cap: nat, steps: seq<Step>)
    ensures var j := After(cap, steps).journal;
      && (forall i :: 0 <= i < |j.log| ==> j.log[i].registration.eventType == j.log[i].event.input.eventType)
      && (forall d :: d in j.deadLetters ==> exists i :: 0 <= i < |j.log| && IsLetterOf(d, j.log[i]))
  {
    OutcomesStayOk(cap, steps);
    BusSafety(cap, steps);
    var s := After(cap, steps);
    forall i | 0 <= i < |s.journal.log| ensures s.journal.log[i].registration.eventType == s.journal.log[i].event.input.eventType {
      assert OutcomeOk(s, s.journal.log[i]);
    }
    forall d | d in s.journal.deadLetters ensures exists i :: 0 <= i < |s.journal.log| && IsLetterOf(d, s.journal.log[i]) {
      var i := LetterHasOutcome(s.journal.log, d);
    }
  }

  /** The dead letter of an unacknowledged outcome. */
  predicate IsLetterOf(d: DeadLetter, o: Outcome) {
    !o.acked && d.event == o.event && d.group == o.registration.group && d.attempts == o.attempts
  }

  lemma {:induction false} LetterHasOutcome(log: seq<Outcome>, d: DeadLetter) returns (i: nat)
    requires d in DeadLettersOf(log)
    ensures i < |log| && IsLetterOf(d, log[i])
  {
    var n := |log| - 1;
    if d in DeadLettersOf(log[..n]) {
      i := LetterHasOutcome(log[..n], d);
    } else {
      i := n;
    }
  }

  /** Over every interleaving: once a publish has finished, each registration of the event's type that was present
      when delivery began has an outcome, its own; and there are no others for that event. */
  lemma EveryRegistrationOfTheTypeIsServed(cap: nat, steps: seq<Step>, c: nat) returns (k: nat, at: seq<nat>)
    requires c in After(cap, steps).ended && After(cap, steps).ended[c].Published?
    ensures var s := After(cap, steps);
      var event, targets := s.ended[c].event, s.ended[c].targets;
      && FoundAt(cap, steps, k, c, event, targets)
      && ForType(After(cap, steps[..k]).registrations, event.input.eventType, targets, at)
      && (forall j :: 0 <= j < |targets| ==> Served(s.journal.log, event, j, targets[j]))
      && (forall i :: 0 <= i < |s.journal.log| && s.journal.log[i].event.sequence == event.sequence ==> s.journal.log[i].slot < |targets|)
  {
    var s := After(cap, steps);
    BusSafety(cap, steps);
    k := TargetsAreOfTheType(cap, steps, c);
    at :| ForType(After(cap, steps[..k]).registrations, s.ended[c].event.input.eventType, s.ended[c].targets, at);
    OutcomesStayOk(cap, steps);
    forall j | 0 <= j < |s.ended[c].targets| ensures Served(s.journal.log, s.ended[c].event, j, s.ended[c].targets[j]) {
      EndedAreSettled(s, c, j);
      SlotIsServed(s, c, j);
    }
    forall i | 0 <= i < |s.journal.log| && s.journal.log[i].event.sequence == s.ended[c].event.sequence
      ensures s.journal.log[i].slot < |s.ended[c].targets|
    {
      assert IsOutcomeOf(s.journal.log[i], s.ended[c].event.sequence, s.journal.log[i].slot);
      EndedAreSettled(s, c, s.journal.log[i].slot);
    }
  }

  /** The delivery of `event` to `r` at `slot` has ended. */
  ghost predicate Served(log: seq<Outcome>, event: Event, slot: nat, r: Registration) {
    exists i :: 0 <= i < |log| && log[i].event == event && log[i].slot == slot && log[i].registration == r
  }

  lemma SlotIsServed(s: State, c: nat, slot: nat)
    requires Owned(s) && OutcomesOk(s) && c in s.ended && s.ended[c].Published? && slot < |s.ended[c].targets|
    requires HasOutcome(s.journal.log, s.ended[c].event.sequence, slot)
    ensures Served(s.journal.log, s.ended[c].event, slot, s.ended[c].targets[slot])
  {
    var i :| 0 <= i < |s.journal.log| && IsOutcomeOf(s.journal.log[i], s.ended[c].event.sequence, slot);
    assert OutcomeOk(s, s.journal.log[i]);
  }
}

/** packages/adapters/src/event-bus.ts: admission, deduplication and bounded retry of the
    in-memory event bus, with any number of publishes in progress. */
module EventBus {
  import opened Base
  import opened Keys

  datatype PublishInput = PublishInput(eventType: string, tenantId: Id, workspaceId: Id, idempotencyKey: Id)

  datatype Event = Event(sequence: nat, input: PublishInput)

  datatype Registration = Registration(eventType: string, group: Id, retryLimit: nat)

  /** What a consumer answers; a consumer that throws counts as `Retry`. */
  datatype Reply = Ack | Retry | Poison

  datatype DeadLetter = DeadLetter(event: Event, group: Id, attempts: nat)

  function DedupeKey(input: PublishInput): string {
    Join(Join(input.tenantId, input.workspaceId), input.idempotencyKey)
  }

  predicate PublishedIn(input: PublishInput, tenantId: Id, workspaceId: Id) {
    input.tenantId == tenantId && input.workspaceId == workspaceId
  }

  /** Events of two workspaces can be given one dedupe key exactly when the tenant and workspace of one,
      joined and followed by the separator, start those of the other. */
  lemma SharedDedupeKeyIff(t: Id, w: Id, u: Id, x: Id)
    ensures (exists a, b :: PublishedIn(a, t, w) && PublishedIn(b, u, x) && DedupeKey(a) == DedupeKey(b)) <==>
            Join(t, w) + SEPARATOR <= Join(u, x) + SEPARATOR || Join(u, x) + SEPARATOR <= Join(t, w) + SEPARATOR
  {
    SharedKeyIff(Join(t, w), Join(u, x));
    if j, k :| Join(Join(t, w), j) == Join(Join(u, x), k) {
      var a, b := PublishInput("", t, w, j), PublishInput("", u, x, k);
      assert PublishedIn(a, t, w) && PublishedIn(b, u, x) && DedupeKey(a) == DedupeKey(b);
    }
    if a, b :| PublishedIn(a, t, w) && PublishedIn(b, u, x) && DedupeKey(a) == DedupeKey(b) {
      assert Join(Join(t, w), a.idempotencyKey) == Join(Join(u, x), b.idempotencyKey);
    }
  }

  /** Ids without a colon in tenant and workspace keep all three parts apart. */
  lemma ColonFreeDedupeKeys(a: PublishInput, b: PublishInput)
    requires ':' !in a.tenantId && ':' !in a.workspaceId && ':' !in b.tenantId && ':' !in b.workspaceId
    ensures DedupeKey(a) == DedupeKey(b) <==>
            a.tenantId == b.tenantId && a.workspaceId == b.workspaceId && a.idempotencyKey == b.idempotencyKey
  {
    if DedupeKey(a) == DedupeKey(b) {
      var x, y := Join(a.workspaceId, a.idempotencyKey), Join(b.workspaceId, b.idempotencyKey);
      assert DedupeKey(a) == Join(a.tenantId, x) && DedupeKey(b) == Join(b.tenantId, y);
      ColonFreeKeysAreDistinct(a.tenantId, x, b.tenantId, y);
      ColonFreeKeysAreDistinct(a.workspaceId, a.idempotencyKey, b.workspaceId, b.idempotencyKey);
    }
  }

  // ---- one delivery ---------------------------------------------------------------------------

  /** The attempt that ends a delivery: the first that is not a retry, or the last one allowed. */
  function LastAttempt(limit: nat, consumer: nat -> Reply, attempt: nat): nat
    requires 1 <= attempt <= limit + 1
    decreases limit + 1 - attempt
  {
    if consumer(attempt) == Retry && attempt <= limit then LastAttempt(limit, consumer, attempt + 1) else attempt
  }

  lemma {:induction false} LastAttemptIs(limit: nat, consumer: nat -> Reply, attempt: nat)
    requires 1 <= attempt <= limit + 1
    ensures var n := LastAttempt(limit, consumer, attempt);
      && attempt <= n <= limit + 1
      && (forall k :: attempt <= k < n ==> consumer(k) == Retry)
      && (consumer(n) == Retry ==> n == limit + 1)
    decreases limit + 1 - attempt
  {
    if consumer(attempt) == Retry && attempt <= limit { LastAttemptIs(limit, consumer, attempt + 1); }
  }

  class InMemoryPersistentEventBus {
    const maxInflight: nat
    var inflight: nat
    var sequence: nat
    var seen: set<string>
    var deadLetters: seq<DeadLetter>

    constructor (cap: int)
      ensures maxInflight == (if cap < 1 then 1 else cap) && inflight == 0 && sequence == 0
      ensures seen == {} && deadLetters == []
    {
      maxInflight := if cap < 1 then 1 else cap;
      inflight, sequence, seen, deadLetters := 0, 0, {}, [];
    }

    /** The part of `publish` before its first await. */
    method Accept(input: PublishInput) returns (admission: Admission)
      modifies this`inflight, this`sequence, this`seen
      ensures admission == Admit(old(inflight), maxInflight, old(seen), DedupeKey(input), old(sequence), input)
      ensures admission.Accepted? ==>
        inflight == old(inflight) + 1 && seen == old(seen) + {DedupeKey(input)} && sequence == old(sequence) + 1
      ensures !admission.Accepted? ==> unchanged(this)
    {
      var key := DedupeKey(input);
      if key in seen {
        return Deduplicated;
      }
      if inflight >= maxInflight {
        return Backpressure;
      }
      inflight := inflight + 1;
      seen := seen + {key};
      sequence := sequence + 1;
      return Accepted(Event(sequence, input));
    }

    /** The retry loop for one registration, given how its consumer would answer each attempt. */
    method DeliverTo(registration: Registration, event: Event, consumer: nat -> Reply) returns (acked: bool, attempts: nat)
      modifies this`deadLetters
      ensures attempts == LastAttempt(registration.retryLimit, consumer, 1)
      ensures 1 <= attempts <= registration.retryLimit + 1
      ensures acked <==> consumer(attempts) == Ack
      ensures deadLetters == old(deadLetters) + if acked then [] else [DeadLetter(event, registration.group, attempts)]
    {
      LastAttemptIs(registration.retryLimit, consumer, 1);
      attempts := 0;
      while attempts <= registration.retryLimit
        invariant attempts <= registration.retryLimit + 1
        invariant forall k :: 1 <= k <= attempts ==> consumer(k) == Retry
        invariant attempts <= LastAttempt(registration.retryLimit, consumer, 1)
        invariant deadLetters == old(deadLetters)
      {
        attempts := attempts + 1;
        var result := consumer(attempts);
        if result == Ack {
          return true, attempts;
        }
        if result == Poison {
          break;
        }
      }
      deadLetters := deadLetters + [DeadLetter(event, registration.group, attempts)];
      acked := false;
    }
  }

  // ---- admission ----------------------------------------------------------------------------------

  datatype Admission = Deduplicated | Backpressure | Accepted(event: Event)

  function Admit(inflight: nat, cap: nat, seen: set<string>, key: string, sequence: nat, input: PublishInput): Admission {
    if key in seen then Deduplicated
    else if inflight >= cap then Backpressure
    else Accepted(Event(sequence + 1, input))
  }

  // ---- interleaved publishes -------------------------------------------------------------------------

  /** Where a publish is suspended. `targets` are the registrations found when delivery began. */
  datatype Phase =
    | Announcing
    | Attempting(targets: seq<Registration>, slot: nat, attempt: nat)
    | Noting(targets: seq<Registration>, slot: nat)

  predicate PhaseOk(phase: Phase) {
    match phase
    case Announcing => true
    case Attempting(targets, slot, attempt) => slot < |targets| && 1 <= attempt <= targets[slot].retryLimit + 1
    case Noting(targets, slot) => slot < |targets|
  }

  datatype Call = Call(event: Event, phase: Phase)

  datatype Ending = WasDeduplicated | WasRejected | Published(event: Event, targets: seq<Registration>) | Failed(event: Event)

  /** An accepted publish: its dedupe key, the call that made it and the event it became. */
  datatype Admitted = Admitted(key: string, call: nat, event: Event)

  /** How the delivery of one event to the registration at one slot ended. */
  datatype Outcome = Outcome(event: Event, slot: nat, registration: Registration, acked: bool, attempts: nat)

  /** What admission knows: the bus's counter and seen keys, and a history of what was accepted, in
      order, with the number given to each key. */
  datatype Ledger = Ledger(sequence: nat, seen: set<string>, accepted: seq<Admitted>, numberOf: map<string, nat>)

  /** What delivery leaves behind: the bus's dead letters, and a history of how many deliveries of each
      accepted event have ended and how each of them ended. */
  datatype Journal = Journal(deadLetters: seq<DeadLetter>, settled: seq<nat>, log: seq<Outcome>)

  datatype State = State(cap: nat, inflight: int, registrations: seq<Registration>,
                         calls: map<nat, Call>, ended: map<nat, Ending>, ledger: Ledger, journal: Journal)

  datatype Step =
    | Publish(call: nat, input: PublishInput)
    | HookReturned(call: nat)
    | HookThrew(call: nat)
    | ConsumerReplied(call: nat, reply: Reply)
    | Subscribe(registration: Registration)
    | Unsubscribe(index: nat)

  function Initial(cap: nat): State {
    State(if cap < 1 then 1 else cap, 0, [], map[], map[], Ledger(0, {}, [], map[]), Journal([], [], []))
  }

  function Enter(l: Ledger, key: string, call: nat, event: Event): Ledger {
    Ledger(l.sequence + 1, l.seen + {key}, l.accepted + [Admitted(key, call, event)], l.numberOf[key := l.sequence + 1])
  }

  function Open(j: Journal): Journal {
    j.(settled := j.settled + [0])
  }

  function Close(j: Journal, o: Outcome): Journal
    requires 1 <= o.event.sequence <= |j.settled|
  {
    Journal(if o.acked then j.deadLetters else j.deadLetters + [DeadLetter(o.event, o.registration.group, o.attempts)],
            j.settled[o.event.sequence - 1 := o.slot + 1],
            j.log + [o])
  }

  function ApplyPublish(s: State, call: nat, key: string, input: PublishInput): State
    requires s.inflight >= 0
  {
    match Admit(s.inflight, s.cap, s.ledger.seen, key, s.ledger.sequence, input)
    case Deduplicated => s.(ended := s.ended[call := WasDeduplicated])
    case Backpressure => s.(ended := s.ended[call := WasRejected])
    case Accepted(event) =>
      s.(inflight := s.inflight + 1, calls := s.calls[call := Call(event, Announcing)],
         ledger := Enter(s.ledger, key, call, event), journal := Open(s.journal))
  }

  /** The publish leaves through its `finally`. */
  function End(s: State, call: nat, ending: Ending): State {
    s.(inflight := s.inflight - 1, calls := s.calls - {call}, ended := s.ended[call := ending])
  }

  function Move(s: State, call: nat, event: Event, phase: Phase): State {
    s.(calls := s.calls[call := Call(event, phase)])
  }

  /** Continue with the registration at `slot`, or finish when there is none. */
  function Continue(s: State, call: nat, event: Event, targets: seq<Registration>, slot: nat): State {
    if slot < |targets| then Move(s, call, event, Attempting(targets, slot, 1))
    else End(s, call, Published(event, targets))
  }

  /** The delivery at `o.slot` ends: acknowledged, or with a dead letter. */
  function Settle(s: State, call: nat, targets: seq<Registration>, o: Outcome): State
    requires 1 <= o.event.sequence <= |s.journal.settled|
  {
    Move(s, call, o.event, Noting(targets, o.slot)).(journal := Close(s.journal, o))
  }

  function ApplyReply(s: State, call: nat, c: Call, reply: Reply): State {
    if !c.phase.Attempting? || !PhaseOk(c.phase) || !(1 <= c.event.sequence <= |s.journal.settled|) then s
    else
      var Attempting(targets, slot, attempt) := c.phase;
      if reply == Retry && attempt <= targets[slot].retryLimit then
        Move(s, call, c.event, Attempting(targets, slot, attempt + 1))
      else Settle(s, call, targets, Outcome(c.event, slot, targets[slot], reply == Ack, attempt))
  }

  function OfType(eventType: string): Registration -> bool {
    (r: Registration) => r.eventType == eventType
  }

  function ApplyHook(s: State, call: nat, c: Call): State {
    match c.phase
    case Announcing => Continue(s, call, c.event, Filter(OfType(c.event.input.eventType), s.registrations), 0)
    case Noting(targets, slot) => Continue(s, call, c.event, targets, slot + 1)
    case _ => s
  }

  function Apply(s: State, step: Step): State {
    match step
    case Publish(call, input) =>
      if call in s.calls || call in s.ended || s.inflight < 0 then s else ApplyPublish(s, call, DedupeKey(input), input)
    case HookReturned(call) => if call in s.calls then ApplyHook(s, call, s.calls[call]) else s
    case HookThrew(call) =>
      if call in s.calls && !s.calls[call].phase.Attempting? then End(s, call, Failed(s.calls[call].event)) else s
    case ConsumerReplied(call, reply) => if call in s.calls then ApplyReply(s, call, s.calls[call], reply) else s
    case Subscribe(r) => s.(registrations := s.registrations + [r])
    case Unsubscribe(i) =>
      if i < |s.registrations| then s.(registrations := s.registrations[..i] + s.registrations[i + 1..]) else s
  }

  function After(cap: nat, steps: seq<Step>): State {
    if steps == [] then Initial(cap)
    else Apply(After(cap, steps[..|steps| - 1]), steps[|steps| - 1])
  }

  /** The replies of one consumer, one after the other, from this attempt to the last. */
  function Replies(s: State, call: nat, limit: nat, consumer: nat -> Reply, attempt: nat): State
    requires 1 <= attempt <= limit + 1
    decreases limit + 1 - attempt
  {
    var next := Apply(s, ConsumerReplied(call, consumer(attempt)));
    if consumer(attempt) == Retry && attempt <= limit then Replies(next, call, limit, consumer, attempt + 1) else next
  }

  /** A delivery in the step system ends as the retry loop says: after `LastAttempt` attempts, acknowledged
      exactly when that one was, with nothing but this delivery's outcome added. */
  lemma {:induction false} DeliveryFollowsLoop(s: State, call: nat, consumer: nat -> Reply)
    requires call in s.calls && s.calls[call].phase.Attempting? && PhaseOk(s.calls[call].phase)
    requires 1 <= s.calls[call].event.sequence <= |s.journal.settled|
    ensures var c := s.calls[call];
      var r, attempt := c.phase.targets[c.phase.slot], c.phase.attempt;
      var n := LastAttempt(r.retryLimit, consumer, attempt);
      Replies(s, call, r.retryLimit, consumer, attempt) ==
      Settle(s, call, c.phase.targets, Outcome(c.event, c.phase.slot, r, consumer(n) == Ack, n))
    decreases var p := s.calls[call].phase; p.targets[p.slot].retryLimit + 1 - p.attempt
  {
    var c := s.calls[call];
    var Attempting(targets, slot, attempt) := c.phase;
    if consumer(attempt) == Retry && attempt <= targets[slot].retryLimit {
      var next := Apply(s, ConsumerReplied(call, Retry));
      assert next == Move(s, call, c.event, Attempting(targets, slot, attempt + 1));
      DeliveryFollowsLoop(next, call, consumer);
      var n := LastAttempt(targets[slot].retryLimit, consumer, attempt);
      var o := Outcome(c.event, slot, targets[slot], consumer(n) == Ack, n);
      assert Settle(next, call, targets, o) == Settle(s, call, targets, o);
    }
  }

  /** An event of workspace "w::x" is dropped as a duplicate of one published in workspace "w", although
      tenant and idempotency keys hold nothing unusual in the second. */
  lemma OtherWorkspaceIsDropped(eventType: string)
    ensures var first, second := PublishInput(eventType, "t", "w", "x::k"), PublishInput(eventType, "t", "w::x", "k");
      After(2, [Publish(0, first), Publish(1, second)]).ended == map[1 := WasDeduplicated]
  {
    var first, second := PublishInput(eventType, "t", "w", "x::k"), PublishInput(eventType, "t", "w::x", "k");
    assert DedupeKey(first) == DedupeKey(second);
    var steps := [Publish(0, first), Publish(1, second)];
    assert steps[..1] == [Publish(0, first)] && [Publish(0, first)][..0] == [];
    var one := After(2, [Publish(0, first)]);
    assert After(2, []) == Initial(2);
    assert one == Apply(Initial(2), Publish(0, first));
    assert one.ledger.seen == {DedupeKey(first)} && one.inflight == 1 && one.ended == map[] && one.calls.Keys == {0};
  }

  // ---- counting ------------------------------------------------------------------------------------------

  /** In-flight publishes are counted exactly and bounded; a handle is in progress or ended, not both. */
  ghost predicate Counted(s: State) {
    && s.cap >= 1 && s.inflight == |s.calls| <= s.cap
    && s.calls.Keys !! s.ended.Keys
  }

  lemma SizeWith<V>(calls: map<nat, V>, call: nat, v: V)
    ensures |calls[call := v]| == |calls| + if call in calls then 0 else 1
  {
    assert calls[call := v].Keys == calls.Keys + {call};
    assert |calls| == |calls.Keys| && |calls[call := v]| == |calls[call := v].Keys|;
  }

  lemma SizeWithout<V>(calls: map<nat, V>, call: nat)
    requires call in calls
    ensures |calls - {call}| == |calls| - 1
  {
    assert (calls - {call}).Keys == calls.Keys - {call};
    assert |calls| == |calls.Keys| && |calls - {call}| == |(calls - {call}).Keys|;
  }

  lemma PublishKeepsCounted(s: State, call: nat, key: string, input: PublishInput)
    requires Counted(s) && call !in s.calls && call !in s.ended
    ensures Counted(ApplyPublish(s, call, key, input))
  {
    SizeWith(s.calls, call, Call(Event(s.ledger.sequence + 1, input), Announcing));
  }

  lemma MoveKeepsCounted(s: State, call: nat, event: Event, phase: Phase)
    requires Counted(s) && call in s.calls
    ensures Counted(Move(s, call, event, phase))
  {
    SizeWith(s.calls, call, Call(event, phase));
  }

  lemma EndKeepsCounted(s: State, call: nat, ending: Ending)
    requires Counted(s) && call in s.calls
    ensures Counted(End(s, call, ending))
  {
    SizeWithout(s.calls, call);
  }

  lemma ContinueKeepsCounted(s: State, call: nat, event: Event, targets: seq<Registration>, slot: nat)
    requires Counted(s) && call in s.calls
    ensures Counted(Continue(s, call, event, targets, slot))
  {
    MoveKeepsCounted(s, call, event, Attempting(targets, slot, 1));
    EndKeepsCounted(s, call, Published(event, targets));
  }

  lemma ReplyKeepsCounted(s: State, call: nat, reply: Reply)
    requires Counted(s) && call in s.calls
    ensures Counted(ApplyReply(s, call, s.calls[call], reply))
  {
    var c := s.calls[call];
    if c.phase.Attempting? {
      MoveKeepsCounted(s, call, c.event, Attempting(c.phase.targets, c.phase.slot, c.phase.attempt + 1));
      MoveKeepsCounted(s, call, c.event, Noting(c.phase.targets, c.phase.slot));
    }
  }

  lemma StepKeepsCounted(s: State, step: Step)
    requires Counted(s)
    ensures Counted(Apply(s, step))
  {
    match step
    case Publish(call, input) =>
      if call !in s.calls && call !in s.ended { PublishKeepsCounted(s, call, DedupeKey(input), input); }
    case HookReturned(call) =>
      if call in s.calls {
        var c := s.calls[call];
        match c.phase
        case Announcing => ContinueKeepsCounted(s, call, c.event, Filter(OfType(c.event.input.eventType), s.registrations), 0);
        case Noting(targets, slot) => ContinueKeepsCounted(s, call, c.event, targets, slot + 1);
        case _ =>
      }
    case HookThrew(call) =>
      if call in s.calls { EndKeepsCounted(s, call, Failed(s.calls[call].event)); }
    case ConsumerReplied(call, reply) =>
      if call in s.calls { ReplyKeepsCounted(s, call, reply); }
    case _ =>
  }

  // ---- numbering -----------------------------------------------------------------------------------------

  predicate GivenNumber(a: Admitted, numberOf: map<string, nat>, n: nat) {
    a.event.sequence == n && a.key in numberOf && numberOf[a.key] == n
  }

  /** The n-th accepted event has number n. */
  ghost predicate NumbersGiven(accepted: seq<Admitted>, numberOf: map<string, nat>) {
    forall i :: 0 <= i < |accepted| ==> GivenNumber(accepted[i], numberOf, i + 1)
  }

  /** A key is recorded with the number of the one event it was accepted for. */
  ghost predicate NumbersUsed(accepted: seq<Admitted>, numberOf: map<string, nat>) {
    forall key :: key in numberOf ==> 1 <= numberOf[key] <= |accepted| && accepted[numberOf[key] - 1].key == key
  }

  ghost predicate Numbered(l: Ledger) {
    && l.sequence == |l.accepted| && l.seen == l.numberOf.Keys
    && NumbersGiven(l.accepted, l.numberOf) && NumbersUsed(l.accepted, l.numberOf)
  }

  lemma GiveNumber(accepted: seq<Admitted>, numberOf: map<string, nat>, a: Admitted)
    requires NumbersGiven(accepted, numberOf) && a.key !in numberOf && a.event.sequence == |accepted| + 1
    ensures NumbersGiven(accepted + [a], numberOf[a.key := |accepted| + 1])
  {
  }

  lemma UseNumber(accepted: seq<Admitted>, numberOf: map<string, nat>, a: Admitted)
    requires NumbersUsed(accepted, numberOf)
    ensures NumbersUsed(accepted + [a], numberOf[a.key := |accepted| + 1])
  {
  }

  lemma EnterKeepsNumbered(l: Ledger, key: string, call: nat, event: Event)
    requires Numbered(l) && key !in l.seen && event.sequence == l.sequence + 1
    ensures Numbered(Enter(l, key, call, event))
  {
    GiveNumber(l.accepted, l.numberOf, Admitted(key, call, event));
    UseNumber(l.accepted, l.numberOf, Admitted(key, call, event));
  }

  lemma StepKeepsNumbered(s: State, step: Step)
    requires Numbered(s.ledger)
    ensures Numbered(Apply(s, step).ledger)
  {
    var t := Apply(s, step);
    if step.Publish? && t.ledger != s.ledger {
      EnterKeepsNumbered(s.ledger, DedupeKey(step.input), step.call, Event(s.ledger.sequence + 1, step.input));
    } else {
      assert t.ledger == s.ledger;
    }
  }

  // ---- ownership -----------------------------------------------------------------------------------------

  /** How many of a suspended publish's deliveries have ended. */
  function SettledBy(phase: Phase): nat {
    match phase
    case Announcing => 0
    case Attempting(_, slot, _) => slot
    case Noting(_, slot) => slot + 1
  }

  /** `event` is the accepted event of call `c`, with `n` deliveries ended. */
  predicate Owns(accepted: seq<Admitted>, settled: seq<nat>, c: nat, event: Event, n: nat) {
    && 1 <= event.sequence <= |accepted| && |accepted| == |settled|
    && accepted[event.sequence - 1].call == c && accepted[event.sequence - 1].event == event
    && settled[event.sequence - 1] == n
  }

  ghost predicate CallsOk(calls: map<nat, Call>, accepted: seq<Admitted>, settled: seq<nat>) {
    forall c :: c in calls ==>
      PhaseOk(calls[c].phase) && Owns(accepted, settled, c, calls[c].event, SettledBy(calls[c].phase))
  }

  /** A publish that finished normally settled every registration it found. */
  ghost predicate EndedOk(ended: map<nat, Ending>, accepted: seq<Admitted>, settled: seq<nat>) {
    forall c :: c in ended && ended[c].Published? ==>
      Owns(accepted, settled, c, ended[c].event, |ended[c].targets|)
  }

  ghost predicate Owned(s: State) {
    && |s.ledger.accepted| == |s.journal.settled| == s.ledger.sequence
    && CallsOk(s.calls, s.ledger.accepted, s.journal.settled)
    && EndedOk(s.ended, s.ledger.accepted, s.journal.settled)
    && s.calls.Keys !! s.ended.Keys
  }

  lemma PublishKeepsOwned(s: State, call: nat, key: string, input: PublishInput)
    requires Owned(s) && s.inflight >= 0 && call !in s.calls && call !in s.ended
    ensures Owned(ApplyPublish(s, call, key, input))
  {
  }

  lemma ContinueKeepsOwned(s: State, call: nat, targets: seq<Registration>, slot: nat)
    requires Owned(s) && call in s.calls
    requires slot == SettledBy(s.calls[call].phase) && slot <= |targets|
    ensures Owned(Continue(s, call, s.calls[call].event, targets, slot))
  {
  }

  /** Changing the count of one call's event leaves the counts of all other events alone. */
  lemma SettleKeepsOwned(s: State, call: nat, targets: seq<Registration>, o: Outcome)
    requires Owned(s) && call in s.calls && s.calls[call].event == o.event
    requires o.slot < |targets|
    ensures 1 <= o.event.sequence <= |s.journal.settled|
    ensures Owned(Settle(s, call, targets, o))
  {
    assert s.ledger.accepted[o.event.sequence - 1].call == call;
  }

  lemma MoveKeepsOwned(s: State, call: nat, phase: Phase)
    requires Owned(s) && call in s.calls && PhaseOk(phase) && SettledBy(phase) == SettledBy(s.calls[call].phase)
    ensures Owned(Move(s, call, s.calls[call].event, phase))
  {
  }

  lemma ReplyKeepsOwned(s: State, call: nat, reply: Reply)
    requires Owned(s) && call in s.calls
    ensures Owned(ApplyReply(s, call, s.calls[call], reply))
  {
    var c := s.calls[call];
    if c.phase.Attempting? {
      var Attempting(targets, slot, attempt) := c.phase;
      if reply == Retry && attempt <= targets[slot].retryLimit {
        MoveKeepsOwned(s, call, Attempting(targets, slot, attempt + 1));
      } else {
        SettleKeepsOwned(s, call, targets, Outcome(c.event, slot, targets[slot], reply == Ack, attempt));
      }
    }
  }

  lemma StepKeepsOwned(s: State, step: Step)
    requires Owned(s)
    ensures Owned(Apply(s, step))
  {
    match step
    case Publish(call, input) =>
      if call !in s.calls && call !in s.ended && s.inflight >= 0 {
        PublishKeepsOwned(s, call, DedupeKey(input), input);
      }
    case HookReturned(call) =>
      if call in s.calls {
        var c := s.calls[call];
        match c.phase
        case Announcing => ContinueKeepsOwned(s, call, Filter(OfType(c.event.input.eventType), s.registrations), 0);
        case Noting(targets, slot) => ContinueKeepsOwned(s, call, targets, slot + 1);
        case _ =>
      }
    case ConsumerReplied(call, reply) =>
      if call in s.calls { ReplyKeepsOwned(s, call, reply); }
    case _ =>
  }

  // ---- outcomes ------------------------------------------------------------------------------------------

  predicate IsOutcomeOf(o: Outcome, sequence: nat, slot: nat) {
    o.event.sequence == sequence && o.slot == slot
  }

  ghost predicate HasOutcome(log: seq<Outcome>, sequence: nat, slot: nat) {
    exists i :: 0 <= i < |log| && IsOutcomeOf(log[i], sequence, slot)
  }

  ghost predicate OneOutcomeEach(log: seq<Outcome>) {
    forall i, j :: 0 <= i < j < |log| ==> !IsOutcomeOf(log[j], log[i].event.sequence, log[i].slot)
  }

  ghost predicate AttemptsBounded(log: seq<Outcome>) {
    forall i :: 0 <= i < |log| ==> 1 <= log[i].attempts <= log[i].registration.retryLimit + 1
  }

  /** Outcomes exist for exactly the first `settled[q - 1]` slots of event `q`. */
  ghost predicate LogMatches(log: seq<Outcome>, settled: seq<nat>) {
    forall q: nat, k: nat :: HasOutcome(log, q, k) <==> 1 <= q <= |settled| && k < settled[q - 1]
  }

  function DeadLettersOf(log: seq<Outcome>): seq<DeadLetter> {
    if log == [] then []
    else
      var o := log[|log| - 1];
      DeadLettersOf(log[..|log| - 1]) + if o.acked then [] else [DeadLetter(o.event, o.registration.group, o.attempts)]
  }

  ghost predicate Logged(j: Journal) {
    && OneOutcomeEach(j.log) && AttemptsBounded(j.log) && LogMatches(j.log, j.settled)
    && j.deadLetters == DeadLettersOf(j.log)
  }

  lemma OpenKeepsLogged(j: Journal)
    requires Logged(j)
    ensures Logged(Open(j))
  {
  }

  lemma HasOutcomeSnoc(log: seq<Outcome>, o: Outcome, q: nat, k: nat)
    ensures HasOutcome(log + [o], q, k) <==> HasOutcome(log, q, k) || IsOutcomeOf(o, q, k)
  {
    var next := log + [o];
    if HasOutcome(log, q, k) {
      var i :| 0 <= i < |log| && IsOutcomeOf(log[i], q, k);
      assert IsOutcomeOf(next[i], q, k);
    }
    if IsOutcomeOf(o, q, k) { assert IsOutcomeOf(next[|log|], q, k); }
  }

  lemma OneMoreOutcome(log: seq<Outcome>, o: Outcome)
    requires OneOutcomeEach(log) && !HasOutcome(log, o.event.sequence, o.slot)
    ensures OneOutcomeEach(log + [o])
  {
    var next := log + [o];
    forall i, k | 0 <= i < k < |next| ensures !IsOutcomeOf(next[k], next[i].event.sequence, next[i].slot) {
      assert k == |log| ==> !IsOutcomeOf(log[i], o.event.sequence, o.slot);
    }
  }

  lemma OneMoreMatches(log: seq<Outcome>, settled: seq<nat>, o: Outcome)
    requires LogMatches(log, settled)
    requires 1 <= o.event.sequence <= |settled| && o.slot == settled[o.event.sequence - 1]
    ensures LogMatches(log + [o], settled[o.event.sequence - 1 := o.slot + 1])
  {
    var after := settled[o.event.sequence - 1 := o.slot + 1];
    forall q: nat, k: nat ensures HasOutcome(log + [o], q, k) <==> 1 <= q <= |after| && k < after[q - 1] {
      HasOutcomeSnoc(log, o, q, k);
    }
  }

  lemma NoOutcomeYet(log: seq<Outcome>, settled: seq<nat>, o: Outcome)
    requires LogMatches(log, settled)
    requires 1 <= o.event.sequence <= |settled| && o.slot == settled[o.event.sequence - 1]
    ensures !HasOutcome(log, o.event.sequence, o.slot)
  {
  }

  lemma OneMoreBounded(log: seq<Outcome>, o: Outcome)
    requires AttemptsBounded(log) && 1 <= o.attempts <= o.registration.retryLimit + 1
    ensures AttemptsBounded(log + [o])
  {
  }

  lemma OneMoreDeadLetter(log: seq<Outcome>, o: Outcome)
    ensures DeadLettersOf(log + [o]) ==
            DeadLettersOf(log) + if o.acked then [] else [DeadLetter(o.event, o.registration.group, o.attempts)]
  {
    assert (log + [o])[..|log|] == log;
  }

  lemma CloseKeepsLogged(j: Journal, o: Outcome)
    requires Logged(j)
    requires 1 <= o.event.sequence <= |j.settled| && o.slot == j.settled[o.event.sequence - 1]
    requires 1 <= o.attempts <= o.registration.retryLimit + 1
    ensures Logged(Close(j, o))
  {
    var c := Close(j, o);
    assert OneOutcomeEach(c.log) by { NoOutcomeYet(j.log, j.settled, o); OneMoreOutcome(j.log, o); }
    assert AttemptsBounded(c.log) by { OneMoreBounded(j.log, o); }
    assert LogMatches(c.log, c.settled) by { OneMoreMatches(j.log, j.settled, o); }
    assert c.deadLetters == DeadLettersOf(c.log) by { OneMoreDeadLetter(j.log, o); }
  }

  /** The outcome with which a reply ends a delivery, if it does. */
  function EndsWith(s: State, call: nat, reply: Reply): Option<Outcome>
    requires call in s.calls
  {
    var c := s.calls[call];
    if !c.phase.Attempting? || !PhaseOk(c.phase) || !(1 <= c.event.sequence <= |s.journal.settled|) then None
    else if reply == Retry && c.phase.attempt <= c.phase.targets[c.phase.slot].retryLimit then None
    else Some(Outcome(c.event, c.phase.slot, c.phase.targets[c.phase.slot], reply == Ack, c.phase.attempt))
  }

  /** A step opens an entry, closes one with the outcome of a call in progress, or leaves the journal alone. */
  lemma JournalSteps(s: State, step: Step)
    requires Owned(s)
    ensures var j := Apply(s, step).journal;
      || j == s.journal
      || j == Open(s.journal)
      || (step.ConsumerReplied? && step.call in s.calls &&
          var e := EndsWith(s, step.call, step.reply);
          e.Some? && 1 <= e.value.event.sequence <= |s.journal.settled| && j == Close(s.journal, e.value))
  {
  }

  lemma StepKeepsLogged(s: State, step: Step)
    requires Owned(s) && Logged(s.journal)
    ensures Logged(Apply(s, step).journal)
  {
    JournalSteps(s, step);
    OpenKeepsLogged(s.journal);
    if step.ConsumerReplied? && step.call in s.calls && EndsWith(s, step.call, step.reply).Some? {
      CloseKeepsLogged(s.journal, EndsWith(s, step.call, step.reply).value);
    }
  }

  // ---- over every interleaving -----------------------------------------------------------------------------

  /** Over every interleaving, with consumers that answer anything and hooks that may throw: the
      in-flight count is the number of publishes in progress and stays within the cap, each key is
      accepted at most once, numbering has no gaps, every delivery that ended has exactly one outcome
      after at most retryLimit + 1 attempts, and the dead letters are exactly the unacknowledged ones. */
  lemma {:induction false} BusSafety(cap: nat, steps: seq<Step>)
    ensures Counted(After(cap, steps))
    ensures Numbered(After(cap, steps).ledger)
    ensures Owned(After(cap, steps))
    ensures Logged(After(cap, steps).journal)
  {
    if steps == [] {
      assert |Initial(cap).calls| == 0;
      assert LogMatches([], []);
    } else {
      var n := |steps| - 1;
      BusSafety(cap, steps[..n]);
      StepKeepsCounted(After(cap, steps[..n]), steps[n]);
      StepKeepsNumbered(After(cap, steps[..n]), steps[n]);
      StepKeepsOwned(After(cap, steps[..n]), steps[n]);
      StepKeepsLogged(After(cap, steps[..n]), steps[n]);
    }
  }

  /** Over every interleaving a dedupe key is newly accepted at most once, and only an accepted key is ever
      deduplicated. */
  lemma EachKeyAcceptedOnce(cap: nat, steps: seq<Step>)
    ensures var l := After(cap, steps).ledger;
      && (forall i, j :: 0 <= i < j < |l.accepted| ==> l.accepted[i].key != l.accepted[j].key)
      && (forall key :: key in l.seen <==> exists k :: 0 <= k < |l.accepted| && l.accepted[k].key == key)
  {
    BusSafety(cap, steps);
    NumberedKeysAreDistinct(After(cap, steps).ledger);
  }

  lemma NumberedKeysAreDistinct(l: Ledger)
    requires Numbered(l)
    ensures forall i, j :: 0 <= i < j < |l.accepted| ==> l.accepted[i].key != l.accepted[j].key
    ensures forall key :: key in l.seen <==> exists k :: 0 <= k < |l.accepted| && l.accepted[k].key == key
  {
    forall i, j | 0 <= i < j < |l.accepted| ensures l.accepted[i].key != l.accepted[j].key {
      assert GivenNumber(l.accepted[i], l.numberOf, i + 1) && GivenNumber(l.accepted[j], l.numberOf, j + 1);
    }
    forall key | key in l.seen ensures exists k :: 0 <= k < |l.accepted| && l.accepted[k].key == key {
      assert l.accepted[l.numberOf[key] - 1].key == key;
    }
    forall k | 0 <= k < |l.accepted| ensures l.accepted[k].key in l.seen {
      assert GivenNumber(l.accepted[k], l.numberOf, k + 1);
    }
  }

  /** A publish that finished delivered to each registration it found: one outcome each, no more. */
  lemma FinishedPublishSettledAll(cap: nat, steps: seq<Step>, call: nat, slot: nat)
    requires call in After(cap, steps).ended && After(cap, steps).ended[call].Published?
    ensures var s := After(cap, steps);
      HasOutcome(s.journal.log, s.ended[call].event.sequence, slot) <==> slot < |s.ended[call].targets|
  {
    BusSafety(cap, steps);
    EndedAreSettled(After(cap, steps), call, slot);
  }

  lemma EndedAreSettled(s: State, call: nat, slot: nat)
    requires Owned(s) && Logged(s.journal) && call in s.ended && s.ended[call].Published?
    ensures HasOutcome(s.journal.log, s.ended[call].event.sequence, slot) <==> slot < |s.ended[call].targets|
  {
  }
}

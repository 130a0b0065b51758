/** packages/adapters/src/audit-sink.ts: a hash-chained audit log whose append reads the head and
    commits in two separate steps. */
module AuditSink {
  import opened Base
  import opened Keys

  type Hash = string

  const GENESIS: Hash := "0000000000000000000000000000000000000000000000000000000000000000"

  datatype Content = Content(requestId: Id, actorId: Id, action: string, outcome: string, reasonCode: string,
                             detail: Option<string>, payload: Option<string>, at: int)

  datatype AuditInput = AuditInput(tenantId: Id, workspaceId: Id, content: Content)

  /** What is serialised and hashed for one record. */
  datatype HashInput = HashInput(previousHash: Hash, partitionKey: string, sequence: int, content: Content)

  /** The digest and the redactor, both of them code outside this component. */
  datatype Tools = Tools(hash: HashInput -> Hash, redact: string -> string)

  datatype Record = Record(auditId: nat, partitionKey: string, sequence: int, content: Content,
                           previousHash: Hash, currentHash: Hash)

  datatype Head = Head(sequence: int, hash: Hash)

  type Partitions = map<string, seq<Record>>

  function RecordsAt(partitions: Partitions, key: string): seq<Record> {
    if key in partitions then partitions[key] else []
  }

  function HeadOf(records: seq<Record>): Head {
    if records == [] then Head(0, GENESIS)
    else Head(records[|records| - 1].sequence, records[|records| - 1].currentHash)
  }

  function KeyOf(input: AuditInput): string {
    Join(input.tenantId, input.workspaceId)
  }

  function Redacted(tools: Tools, c: Content): Content {
    c.(payload := if c.payload.Some? then Some(tools.redact(c.payload.value)) else None)
  }

  /** The record that an append builds from the head it read. */
  function RecordAfter(tools: Tools, auditId: nat, head: Head, input: AuditInput): Record {
    var content := Redacted(tools, input.content);
    Record(auditId, KeyOf(input), head.sequence + 1, content, head.hash,
           tools.hash(HashInput(head.hash, KeyOf(input), head.sequence + 1, content)))
  }

  // ---- verification ----------------------------------------------------------------------------

  predicate LinkOk(tools: Tools, records: seq<Record>, i: nat)
    requires i < |records|
  {
    var r, previous := records[i], HeadOf(records[..i]).hash;
    && r.previousHash == previous
    && r.sequence == i + 1
    && r.currentHash == tools.hash(HashInput(previous, r.partitionKey, r.sequence, r.content))
  }

  predicate ChainOk(tools: Tools, records: seq<Record>) {
    forall i :: 0 <= i < |records| ==> LinkOk(tools, records, i)
  }

  lemma ChainSnoc(tools: Tools, records: seq<Record>, r: Record)
    ensures ChainOk(tools, records + [r]) <==> ChainOk(tools, records) && LinkOk(tools, records + [r], |records|)
  {
    forall i | 0 <= i < |records| ensures LinkOk(tools, records + [r], i) <==> LinkOk(tools, records, i) {
      assert (records + [r])[..i] == records[..i];
    }
  }

  // ---- the adapter ---------------------------------------------------------------------------------

  class InMemoryAuditStorageBackend {
    var partitions: Partitions

    constructor ()
      ensures partitions == map[]
    {
      partitions := map[];
    }

    method Append(key: string, record: Record)
      modifies this
      ensures partitions == old(partitions)[key := RecordsAt(old(partitions), key) + [record]]
    {
      partitions := partitions[key := RecordsAt(partitions, key) + [record]];
    }

    function ReadHead(key: string): Head
      reads this
    {
      HeadOf(RecordsAt(partitions, key))
    }

    method VerifyChain(tools: Tools, tenantId: Id, workspaceId: Id) returns (ok: bool)
      ensures ok == ChainOk(tools, RecordsAt(partitions, Join(tenantId, workspaceId)))
    {
      var records := RecordsAt(partitions, Join(tenantId, workspaceId));
      var previous := GENESIS;
      var expectedSeq := 1;
      for i := 0 to |records|
        invariant previous == HeadOf(records[..i]).hash && expectedSeq == i + 1
        invariant forall k :: 0 <= k < i ==> LinkOk(tools, records, k)
      {
        var record := records[i];
        SplitAt(records, i);
        if record.previousHash != previous || record.sequence != expectedSeq {
          assert !LinkOk(tools, records, i);
          return false;
        }
        if tools.hash(HashInput(previous, record.partitionKey, record.sequence, record.content)) != record.currentHash {
          assert !LinkOk(tools, records, i);
          return false;
        }
        previous := record.currentHash;
        expectedSeq := expectedSeq + 1;
      }
      return true;
    }
  }

  // ---- concurrent appends ------------------------------------------------------------------------------

  /** An append that has read its head and not committed: `seen` is how many records there were. */
  datatype Pending = Pending(input: AuditInput, head: Head, seen: nat)

  /** `counter` numbers the records; every append in progress has a handle of its own. */
  datatype State = State(partitions: Partitions, pending: map<nat, Pending>, counter: nat)

  datatype Step =
    | ReadHead(call: nat, input: AuditInput)
    | Commit(call: nat)

  const INITIAL := State(map[], map[], 0)

  function Apply(tools: Tools, s: State, step: Step): State {
    match step
    case ReadHead(call, input) =>
      if call in s.pending then s
      else
        var records := RecordsAt(s.partitions, KeyOf(input));
        s.(pending := s.pending[call := Pending(input, HeadOf(records), |records|)])
    case Commit(call) =>
      if call !in s.pending then s
      else
        var p := s.pending[call];
        var key := KeyOf(p.input);
        State(s.partitions[key := RecordsAt(s.partitions, key) + [RecordAfter(tools, s.counter + 1, p.head, p.input)]],
              s.pending - {call}, s.counter + 1)
  }

  function After(tools: Tools, steps: seq<Step>): State {
    if steps == [] then INITIAL
    else Apply(tools, After(tools, steps[..|steps| - 1]), steps[|steps| - 1])
  }

  /** The step commits to `key` although the partition has grown since the call read its head. */
  predicate StaleCommit(s: State, step: Step, key: string) {
    && step.Commit? && step.call in s.pending
    && var p := s.pending[step.call];
       KeyOf(p.input) == key && p.seen != |RecordsAt(s.partitions, key)|
  }

  predicate NoStaleCommit(tools: Tools, steps: seq<Step>, key: string) {
    steps == [] ||
    var n := |steps| - 1;
    NoStaleCommit(tools, steps[..n], key) && !StaleCommit(After(tools, steps[..n]), steps[n], key)
  }

  lemma AfterSnoc(tools: Tools, steps: seq<Step>, step: Step)
    ensures After(tools, steps + [step]) == Apply(tools, After(tools, steps), step)
  {
  }

  /** Every append in progress remembers a head that its partition really had. */
  ghost predicate HeadsAreReal(s: State) {
    forall call :: call in s.pending ==> HeadIsReal(s, s.pending[call])
  }

  ghost predicate HeadIsReal(s: State, p: Pending) {
    var records := RecordsAt(s.partitions, KeyOf(p.input));
    p.seen <= |records| && p.head == HeadOf(records[..p.seen])
  }

  lemma ApplyKeepsHeads(tools: Tools, s: State, step: Step)
    requires HeadsAreReal(s)
    ensures HeadsAreReal(Apply(tools, s, step))
  {
    var t := Apply(tools, s, step);
    forall call | call in t.pending ensures HeadIsReal(t, t.pending[call]) {
      var p := t.pending[call];
      var before, after := RecordsAt(s.partitions, KeyOf(p.input)), RecordsAt(t.partitions, KeyOf(p.input));
      if call in s.pending {
        assert HeadIsReal(s, s.pending[call]);
        assert before <= after;
        assert after[..p.seen] == before[..p.seen];
      } else {
        assert before[..|before|] == before;
      }
    }
  }

  lemma {:induction false} HeadsStayReal(tools: Tools, steps: seq<Step>)
    ensures HeadsAreReal(After(tools, steps))
  {
    if steps != [] {
      HeadsStayReal(tools, steps[..|steps| - 1]);
      ApplyKeepsHeads(tools, After(tools, steps[..|steps| - 1]), steps[|steps| - 1]);
    }
  }

  /** One step keeps a good chain good unless it commits on a stale head, and never repairs a bad one. */
  lemma StepKeepsChain(tools: Tools, s: State, step: Step, key: string)
    requires HeadsAreReal(s)
    ensures ChainOk(tools, RecordsAt(Apply(tools, s, step).partitions, key)) <==>
            ChainOk(tools, RecordsAt(s.partitions, key)) && !StaleCommit(s, step, key)
  {
    if step.Commit? && step.call in s.pending && KeyOf(s.pending[step.call].input) == key {
      var p, records := s.pending[step.call], RecordsAt(s.partitions, key);
      var r := RecordAfter(tools, s.counter + 1, p.head, p.input);
      assert HeadIsReal(s, p);
      ChainSnoc(tools, records, r);
      assert (records + [r])[..|records|] == records;
      if ChainOk(tools, records) {
        if p.seen > 0 { assert LinkOk(tools, records, p.seen - 1); }
        assert p.head.sequence == p.seen;
        assert records[..|records|] == records;
      }
    }
  }

  /** After any interleaving, the partition verifies exactly when no commit used a stale head. */
  lemma {:induction false} ChainOkIffNoStaleCommit(tools: Tools, steps: seq<Step>, key: string)
    ensures ChainOk(tools, RecordsAt(After(tools, steps).partitions, key)) <==> NoStaleCommit(tools, steps, key)
  {
    if steps != [] {
      var n := |steps| - 1;
      ChainOkIffNoStaleCommit(tools, steps[..n], key);
      HeadsStayReal(tools, steps[..n]);
      StepKeepsChain(tools, After(tools, steps[..n]), steps[n], key);
    }
  }

  /** Once a partition fails to verify, no continuation makes it verify again. */
  lemma {:induction false} BrokenForGood(tools: Tools, steps: seq<Step>, more: seq<Step>, key: string)
    requires !ChainOk(tools, RecordsAt(After(tools, steps).partitions, key))
    ensures !ChainOk(tools, RecordsAt(After(tools, steps + more).partitions, key))
  {
    if more == [] {
      assert steps + more == steps;
    } else {
      var n := |more| - 1;
      BrokenForGood(tools, steps, more[..n], key);
      assert steps + more == (steps + more[..n]) + [more[n]];
      AfterSnoc(tools, steps + more[..n], more[n]);
      HeadsStayReal(tools, steps + more[..n]);
      StepKeepsChain(tools, After(tools, steps + more[..n]), more[n], key);
    }
  }

  // ---- what is stored --------------------------------------------------------------------------------------

  /** What the callers did, read off the steps alone: the appends in progress and those committed, in order. */
  datatype Journal = Journal(waiting: map<nat, AuditInput>, done: seq<AuditInput>)

  function Note(j: Journal, step: Step): Journal {
    match step
    case ReadHead(call, input) => if call in j.waiting then j else j.(waiting := j.waiting[call := input])
    case Commit(call) => if call in j.waiting then Journal(j.waiting - {call}, j.done + [j.waiting[call]]) else j
  }

  function Noted(steps: seq<Step>): Journal {
    if steps == [] then Journal(map[], []) else Note(Noted(steps[..|steps| - 1]), steps[|steps| - 1])
  }

  function InPartition(key: string): AuditInput -> bool {
    (input: AuditInput) => input.tenantId + "::" + input.workspaceId == key
  }

  /** The record says what the input said, in the input's own partition, except that a payload is only stored
      redacted. */
  predicate Keeps(tools: Tools, input: AuditInput, r: Record) {
    var c, d := input.content, r.content;
    && r.partitionKey == input.tenantId + "::" + input.workspaceId
    && d.requestId == c.requestId && d.actorId == c.actorId && d.action == c.action && d.outcome == c.outcome
    && d.reasonCode == c.reasonCode && d.detail == c.detail && d.at == c.at
    && (c.payload.None? ==> d.payload.None?)
    && (c.payload.Some? ==> d.payload == Some(tools.redact(c.payload.value)))
  }

  ghost predicate StoredAs(tools: Tools, inputs: seq<AuditInput>, records: seq<Record>) {
    |records| == |inputs| && forall i :: 0 <= i < |inputs| ==> Keeps(tools, inputs[i], records[i])
  }

  ghost predicate PartitionKept(tools: Tools, s: State, j: Journal, key: string) {
    StoredAs(tools, Filter(InPartition(key), j.done), RecordsAt(s.partitions, key))
  }

  predicate SameCalls(s: State, j: Journal) {
    && s.pending.Keys == j.waiting.Keys && s.counter == |j.done|
    && forall call :: call in s.pending ==> s.pending[call].input == j.waiting[call]
  }

  lemma CommitKeepsPartition(tools: Tools, s: State, j: Journal, call: nat, key: string)
    requires SameCalls(s, j) && call in s.pending && PartitionKept(tools, s, j, key)
    ensures PartitionKept(tools, Apply(tools, s, Commit(call)), Note(j, Commit(call)), key)
  {
    var p, input := s.pending[call], j.waiting[call];
    FilterSnoc(InPartition(key), j.done, input);
    assert InPartition(key)(input) <==> KeyOf(p.input) == key;
    assert Keeps(tools, input, RecordAfter(tools, s.counter + 1, p.head, p.input));
  }

  /** Over every interleaving the records of a partition are exactly the committed appends of that partition, in
      the order of their commits and with redacted payloads: none is lost, doubled or invented, even where
      the chain no longer verifies. */
  lemma {:induction false} RecordsAreTheCommits(tools: Tools, steps: seq<Step>, key: string)
    ensures SameCalls(After(tools, steps), Noted(steps))
    ensures PartitionKept(tools, After(tools, steps), Noted(steps), key)
  {
    if steps != [] {
      var n := |steps| - 1;
      RecordsAreTheCommits(tools, steps[..n], key);
      if steps[n].Commit? && steps[n].call in After(tools, steps[..n]).pending {
        CommitKeepsPartition(tools, After(tools, steps[..n]), Noted(steps[..n]), steps[n].call, key);
      }
    }
  }

  /** Two appends that overlap on one partition do break it. */
  lemma OverlapBreaksChain(tools: Tools, a: AuditInput, b: AuditInput)
    requires KeyOf(a) == KeyOf(b)
    ensures !ChainOk(tools, RecordsAt(After(tools, [ReadHead(0, a), ReadHead(1, b), Commit(0), Commit(1)]).partitions, KeyOf(a)))
  {
    AfterSnoc(tools, [], ReadHead(0, a));
    AfterSnoc(tools, [ReadHead(0, a)], ReadHead(1, b));
    AfterSnoc(tools, [ReadHead(0, a), ReadHead(1, b)], Commit(0));
    var three := [ReadHead(0, a), ReadHead(1, b), Commit(0)];
    assert [] + [ReadHead(0, a)] == [ReadHead(0, a)];
    assert [ReadHead(0, a)] + [ReadHead(1, b)] == [ReadHead(0, a), ReadHead(1, b)];
    assert [ReadHead(0, a), ReadHead(1, b)] + [Commit(0)] == three;
    assert StaleCommit(After(tools, three), Commit(1), KeyOf(a));
    assert (three + [Commit(1)])[..3] == three;
    assert three + [Commit(1)] == [ReadHead(0, a), ReadHead(1, b), Commit(0), Commit(1)];
    ChainOkIffNoStaleCommit(tools, three + [Commit(1)], KeyOf(a));
  }
}

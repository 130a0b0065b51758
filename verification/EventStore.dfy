/** packages/event-foundation/src/store.ts: append-only, hash-chained event streams. */
module EventStore {
  import opened Base
  import opened Keys

  type Hash = string

  const GENESIS: Hash := "0000000000000000000000000000000000000000000000000000000000000000"

  /** What is serialised and hashed for one event. */
  datatype HashInput = HashInput(previousHash: Hash, eventId: Id, payloadDigest: string, version: int)

  /** Canonical serialisation followed by the digest. */
  type Hasher = HashInput -> Hash

  datatype StoredRef = StoredRef(eventId: Id, streamId: Id, version: int, payloadDigest: string,
                                 previousHash: Hash, currentHash: Hash)

  datatype NewEvent = NewEvent(eventId: Id, payloadDigest: string)

  datatype AppendRequest = AppendRequest(streamId: Id, tenantId: Id, expectedVersion: int, events: seq<NewEvent>)

  datatype AppendStatus = APPENDED | VERSION_CONFLICT | VERSION_ROLLBACK | PARTIAL_FAILURE

  type Stream = seq<StoredRef>
  type Streams = map<string, Stream>

  function KeyOf(req: AppendRequest): string {
    Join(req.tenantId, req.streamId)
  }

  function StreamAt(streams: Streams, key: string): Stream {
    if key in streams then streams[key] else []
  }

  function LastHash(s: Stream): Hash {
    if s == [] then GENESIS else s[|s| - 1].currentHash
  }

  // ---- integrity ---------------------------------------------------------------------------

  /** What the entry at position `i` has to be the hash of. */
  function InputAt(s: Stream, i: nat): HashInput
    requires i < |s|
  {
    HashInput(LastHash(s[..i]), s[i].eventId, s[i].payloadDigest, i + 1)
  }

  predicate LinkOk(h: Hasher, s: Stream, i: nat)
    requires i < |s|
  {
    s[i].previousHash == LastHash(s[..i]) && s[i].version == i + 1 && s[i].currentHash == h(InputAt(s, i))
  }

  /** Versions count up from one and every entry hashes its predecessor and its own content. */
  predicate Verifies(h: Hasher, s: Stream) {
    forall i :: 0 <= i < |s| ==> LinkOk(h, s, i)
  }

  lemma VerifiesSnoc(h: Hasher, s: Stream, r: StoredRef)
    ensures Verifies(h, s + [r]) <==> Verifies(h, s) && LinkOk(h, s + [r], |s|)
  {
    forall i | 0 <= i < |s| ensures LinkOk(h, s + [r], i) <==> LinkOk(h, s, i) {
      assert (s + [r])[..i] == s[..i];
    }
  }

  /** The entry that extends a stream by one event. */
  function Entry(h: Hasher, streamId: Id, s: Stream, e: NewEvent): StoredRef {
    StoredRef(e.eventId, streamId, |s| + 1, e.payloadDigest, LastHash(s),
              h(HashInput(LastHash(s), e.eventId, e.payloadDigest, |s| + 1)))
  }

  function Extend(h: Hasher, streamId: Id, s: Stream, events: seq<NewEvent>): Stream {
    if events == [] then s
    else
      var n := |events| - 1;
      var t := Extend(h, streamId, s, events[..n]);
      t + [Entry(h, streamId, t, events[n])]
  }

  lemma ExtendSnoc(h: Hasher, streamId: Id, s: Stream, events: seq<NewEvent>, e: NewEvent)
    ensures Extend(h, streamId, s, events + [e]) ==
            Extend(h, streamId, s, events) + [Entry(h, streamId, Extend(h, streamId, s, events), e)]
  {
  }

  lemma PushStep(h: Hasher, streamId: Id, before: Stream, list: Stream, appended: Stream, events: seq<NewEvent>, k: nat, ref: StoredRef)
    requires k < |events| && list == Extend(h, streamId, before, events[..k]) && list == before + appended
    requires ref == Entry(h, streamId, list, events[k])
    ensures list + [ref] == Extend(h, streamId, before, events[..k + 1])
    ensures list + [ref] == before + (appended + [ref])
    ensures LastHash(list + [ref]) == ref.currentHash
  {
    assert events[..k + 1] == events[..k] + [events[k]];
    ExtendSnoc(h, streamId, before, events[..k], events[k]);
  }

  /** The events a stream holds, without the chain around them. */
  function Contents(s: Stream): seq<NewEvent> {
    seq(|s|, i requires 0 <= i < |s| => NewEvent(s[i].eventId, s[i].payloadDigest))
  }

  lemma ContentsSnoc(s: Stream, r: StoredRef)
    ensures Contents(s + [r]) == Contents(s) + [NewEvent(r.eventId, r.payloadDigest)]
  {
  }

  /** Extending keeps what is there, adds the events in order and keeps the chain intact. */
  lemma {:induction false} ExtendKeeps(h: Hasher, streamId: Id, s: Stream, events: seq<NewEvent>)
    ensures s <= Extend(h, streamId, s, events)
    ensures Contents(Extend(h, streamId, s, events)) == Contents(s) + events
    ensures Verifies(h, s) ==> Verifies(h, Extend(h, streamId, s, events))
  {
    if events != [] {
      var n := |events| - 1;
      ExtendKeeps(h, streamId, s, events[..n]);
      var t := Extend(h, streamId, s, events[..n]);
      var r := Entry(h, streamId, t, events[n]);
      ContentsSnoc(t, r);
      SplitAt(events, n);
      WholePrefix(events);
      VerifiesSnoc(h, t, r);
      assert (t + [r])[..|t|] == t;
    }
  }

  // ---- append --------------------------------------------------------------------------------

  predicate WellFormed(e: NewEvent) {
    NonBlank(e.eventId) && NonBlank(e.payloadDigest)
  }

  function StatusOf(streams: Streams, req: AppendRequest): AppendStatus {
    var version := |StreamAt(streams, KeyOf(req))|;
    if req.expectedVersion < version then VERSION_ROLLBACK
    else if req.expectedVersion != version then VERSION_CONFLICT
    else if exists i :: 0 <= i < |req.events| && !WellFormed(req.events[i]) then PARTIAL_FAILURE
    else APPENDED
  }

  function AppendTo(h: Hasher, streams: Streams, req: AppendRequest): Streams {
    if StatusOf(streams, req) != APPENDED then streams
    else streams[KeyOf(req) := Extend(h, req.streamId, StreamAt(streams, KeyOf(req)), req.events)]
  }

  /** Each answer to an append goes with its own cause: what is expected against what is there, and then whether
      an event lacks its id or its digest. */
  lemma AppendAnswers(streams: Streams, req: AppendRequest)
    ensures var r, version := StatusOf(streams, req), |StreamAt(streams, req.tenantId + "::" + req.streamId)|;
      && (r == VERSION_ROLLBACK <==> req.expectedVersion < version)
      && (r == VERSION_CONFLICT <==> version < req.expectedVersion)
      && (r == PARTIAL_FAILURE <==>
            req.expectedVersion == version &&
            exists i :: 0 <= i < |req.events| && (!NonBlank(req.events[i].eventId) || !NonBlank(req.events[i].payloadDigest)))
  {
  }

  class InMemoryEventStore {
    const hasher: Hasher
    var streams: Streams

    constructor (h: Hasher)
      ensures hasher == h && streams == map[]
    {
      hasher, streams := h, map[];
    }

    method Append(req: AppendRequest) returns (status: AppendStatus, appended: seq<StoredRef>)
      modifies this
      ensures status == StatusOf(old(streams), req)
      ensures streams == AppendTo(hasher, old(streams), req)
      ensures StreamAt(streams, KeyOf(req)) == StreamAt(old(streams), KeyOf(req)) + appended
    {
      var key := KeyOf(req);
      var list := StreamAt(streams, key);
      var currentVersion := |list|;
      if req.expectedVersion < currentVersion {
        return VERSION_ROLLBACK, [];
      }
      if req.expectedVersion != currentVersion {
        return VERSION_CONFLICT, [];
      }
      if exists i :: 0 <= i < |req.events| && !WellFormed(req.events[i]) {
        return PARTIAL_FAILURE, [];
      }
      list, appended := Push(hasher, req, list);
      streams := streams[key := list];
      status := APPENDED;
    }

    /** The loop that pushes one entry per event. */
    static method Push(h: Hasher, req: AppendRequest, before: Stream) returns (list: Stream, appended: seq<StoredRef>)
      ensures list == Extend(h, req.streamId, before, req.events)
      ensures list == before + appended
    {
      list, appended := before, [];
      var previousHash := if list == [] then GENESIS else list[|list| - 1].currentHash;
      var version := |list|;
      for k := 0 to |req.events|
        invariant list == Extend(h, req.streamId, before, req.events[..k])
        invariant list == before + appended
        invariant version == |list| && previousHash == LastHash(list)
      {
        var e := req.events[k];
        version := version + 1;
        var currentHash := h(HashInput(previousHash, e.eventId, e.payloadDigest, version));
        var ref := StoredRef(e.eventId, req.streamId, version, e.payloadDigest, previousHash, currentHash);
        PushStep(h, req.streamId, before, list, appended, req.events, k, ref);
        list, appended, previousHash := list + [ref], appended + [ref], currentHash;
      }
      WholePrefix(req.events);
    }

    method VerifyIntegrity(streamId: Id, tenantId: Id) returns (ok: bool)
      ensures ok == Verifies(hasher, StreamAt(streams, Join(tenantId, streamId)))
    {
      var list := StreamAt(streams, Join(tenantId, streamId));
      var previousHash := GENESIS;
      var version := 0;
      for i := 0 to |list|
        invariant version == i
        invariant previousHash == LastHash(list[..i])
        invariant forall k :: 0 <= k < i ==> LinkOk(hasher, list, k)
      {
        var ref := list[i];
        version := version + 1;
        if ref.previousHash != previousHash || ref.version != version {
          assert !LinkOk(hasher, list, i);
          return false;
        }
        if hasher(HashInput(previousHash, ref.eventId, ref.payloadDigest, version)) != ref.currentHash {
          assert !LinkOk(hasher, list, i);
          return false;
        }
        previousHash := ref.currentHash;
        SplitAt(list, i);
      }
      return true;
    }
  }

  // ---- over every run --------------------------------------------------------------------------

  /** The store after a sequence of requests, over any number of streams. */
  function After(h: Hasher, reqs: seq<AppendRequest>): Streams {
    if reqs == [] then map[]
    else
      var n := |reqs| - 1;
      AppendTo(h, After(h, reqs[..n]), reqs[n])
  }

  predicate Succeeded(h: Hasher, reqs: seq<AppendRequest>, i: nat)
    requires i < |reqs|
  {
    StatusOf(After(h, reqs[..i]), reqs[i]) == APPENDED
  }

  lemma AppendKeeps(h: Hasher, streams: Streams, req: AppendRequest, key: string)
    ensures StreamAt(streams, key) <= StreamAt(AppendTo(h, streams, req), key)
    ensures Verifies(h, StreamAt(streams, key)) ==> Verifies(h, StreamAt(AppendTo(h, streams, req), key))
    ensures key != KeyOf(req) || StatusOf(streams, req) != APPENDED ==>
            StreamAt(AppendTo(h, streams, req), key) == StreamAt(streams, key)
    ensures key == KeyOf(req) && StatusOf(streams, req) == APPENDED ==>
            |StreamAt(AppendTo(h, streams, req), key)| == req.expectedVersion + |req.events|
  {
    var s := StreamAt(streams, KeyOf(req));
    ExtendKeeps(h, req.streamId, s, req.events);
    assert |Contents(Extend(h, req.streamId, s, req.events))| == |s| + |req.events|;
  }

  /** After any run every stream verifies. */
  lemma {:induction false} EveryStreamVerifies(h: Hasher, reqs: seq<AppendRequest>, key: string)
    ensures Verifies(h, StreamAt(After(h, reqs), key))
  {
    if reqs != [] {
      var n := |reqs| - 1;
      EveryStreamVerifies(h, reqs[..n], key);
      AppendKeeps(h, After(h, reqs[..n]), reqs[n], key);
    }
  }

  /** History is never rewritten: what a stream held after `i` requests starts what it holds later. */
  lemma {:induction false} HistoryIsPrefix(h: Hasher, reqs: seq<AppendRequest>, i: nat, j: nat, key: string)
    requires i <= j <= |reqs|
    ensures StreamAt(After(h, reqs[..i]), key) <= StreamAt(After(h, reqs[..j]), key)
  {
    if i < j {
      HistoryIsPrefix(h, reqs, i, j - 1, key);
      assert reqs[..j][..j - 1] == reqs[..j - 1];
      AppendKeeps(h, After(h, reqs[..j - 1]), reqs[j - 1], key);
    }
  }

  /** Optimistic concurrency: of two non-empty appends that expect the same version of one
      stream, at most one succeeds. */
  lemma OneWinnerPerVersion(h: Hasher, reqs: seq<AppendRequest>, i: nat, j: nat)
    requires i < j < |reqs| && KeyOf(reqs[i]) == KeyOf(reqs[j])
    requires reqs[i].expectedVersion == reqs[j].expectedVersion && reqs[i].events != []
    ensures !(Succeeded(h, reqs, i) && Succeeded(h, reqs, j))
  {
    var key := KeyOf(reqs[i]);
    assert reqs[..i + 1][..i] == reqs[..i];
    AppendKeeps(h, After(h, reqs[..i]), reqs[i], key);
    HistoryIsPrefix(h, reqs, i + 1, j, key);
  }

  lemma AppendAdds(h: Hasher, streams: Streams, req: AppendRequest, key: string)
    ensures Contents(StreamAt(AppendTo(h, streams, req), key)) ==
            Contents(StreamAt(streams, key)) + if KeyOf(req) == key && StatusOf(streams, req) == APPENDED then req.events else []
  {
    ExtendKeeps(h, req.streamId, StreamAt(streams, key), req.events);
  }

  /** A stream's contents are those of the successful requests on its key, in order. */
  lemma {:induction false} ContentsAreAccepted(h: Hasher, reqs: seq<AppendRequest>, key: string)
    ensures Contents(StreamAt(After(h, reqs), key)) == Accepted(h, reqs, key)
  {
    if reqs != [] {
      var n := |reqs| - 1;
      ContentsAreAccepted(h, reqs[..n], key);
      AppendAdds(h, After(h, reqs[..n]), reqs[n], key);
    }
  }

  function Accepted(h: Hasher, reqs: seq<AppendRequest>, key: string): seq<NewEvent> {
    if reqs == [] then []
    else
      var n := |reqs| - 1;
      Accepted(h, reqs[..n], key) +
      if KeyOf(reqs[n]) == key && StatusOf(After(h, reqs[..n]), reqs[n]) == APPENDED then reqs[n].events else []
  }

  // ---- the chain fixes the contents ---------------------------------------------------------------

  /** Entries of the two streams hash different inputs to one value. */
  ghost predicate Collide(h: Hasher, s: Stream, t: Stream) {
    exists i, j :: 0 <= i < |s| && 0 <= j < |t| && InputAt(s, i) != InputAt(t, j) && h(InputAt(s, i)) == h(InputAt(t, j))
  }

  /** Two verifying streams with the same last hash and no collision between them hold the same events,
      exactly unless just one of them is empty. */
  lemma LastHashFixesContents(h: Hasher, s: Stream, t: Stream)
    requires Verifies(h, s) && Verifies(h, t) && LastHash(s) == LastHash(t) && !Collide(h, s, t)
    ensures Contents(s) == Contents(t) <==> (s == [] <==> t == [])
  {
    if s != [] && t != [] {
      assert LinkOk(h, s, |s| - 1) && LinkOk(h, t, |t| - 1);
      assert InputAt(s, |s| - 1) == InputAt(t, |t| - 1);
      SameLengthSameContents(h, s, t);
    } else {
      assert |Contents(s)| == |s| && |Contents(t)| == |t|;
    }
  }

  lemma ShorterStreamsDoNotCollide(h: Hasher, s: Stream, t: Stream, n: nat)
    requires n <= |s| && n <= |t| && !Collide(h, s, t)
    ensures !Collide(h, s[..n], t[..n])
  {
    assert forall i :: 0 <= i < n ==> s[..n][..i] == s[..i] && t[..n][..i] == t[..i];
    assert forall i :: 0 <= i < n ==> InputAt(s[..n], i) == InputAt(s, i) && InputAt(t[..n], i) == InputAt(t, i);
  }

  lemma {:induction false} SameLengthSameContents(h: Hasher, s: Stream, t: Stream)
    requires Verifies(h, s) && Verifies(h, t) && !Collide(h, s, t)
    requires |s| == |t| && LastHash(s) == LastHash(t)
    ensures Contents(s) == Contents(t)
  {
    if s != [] {
      var n := |s| - 1;
      assert LinkOk(h, s, n) && LinkOk(h, t, n);
      assert InputAt(s, n) == InputAt(t, n);
      assert s == s[..n] + [s[n]] && t == t[..n] + [t[n]];
      VerifiesSnoc(h, s[..n], s[n]);
      VerifiesSnoc(h, t[..n], t[n]);
      ShorterStreamsDoNotCollide(h, s, t, n);
      SameLengthSameContents(h, s[..n], t[..n]);
      ContentsSnoc(s[..n], s[n]);
      ContentsSnoc(t[..n], t[n]);
    }
  }

  /** Streams that do not collide are told apart by their last hash. */
  ghost predicate LastHashDecides(h: Hasher) {
    forall s, t :: Verifies(h, s) && Verifies(h, t) && LastHash(s) == LastHash(t) && !Collide(h, s, t) ==> Contents(s) == Contents(t)
  }

  /** No chain of events leads back to the genesis value. */
  ghost predicate NeverGenesis(h: Hasher) {
    forall s :: Verifies(h, s) && s != [] ==> LastHash(s) != GENESIS
  }

  /** With the empty stream included, the last hash decides the contents exactly when no chain leads
      back to the genesis value. */
  lemma LastHashDecidesIff(h: Hasher)
    ensures LastHashDecides(h) <==> NeverGenesis(h)
  {
    if NeverGenesis(h) {
      forall s, t | Verifies(h, s) && Verifies(h, t) && LastHash(s) == LastHash(t) && !Collide(h, s, t)
        ensures Contents(s) == Contents(t)
      {
        LastHashFixesContents(h, s, t);
      }
    } else {
      var s :| Verifies(h, s) && s != [] && LastHash(s) == GENESIS;
      assert Verifies(h, []) && !Collide(h, [], s);
      assert |Contents([])| == 0 != |Contents(s)|;
    }
  }

  // ---- a digest without collisions that reaches the genesis value ----------------------------------------

  function Ones(n: nat): string {
    if n == 0 then "0" else "1" + Ones(n - 1)
  }

  /** A text with its length in front, so that what follows can be told apart. */
  function Framed(t: string): string {
    Ones(|t|) + t
  }

  lemma {:induction false} OnesAreFrames(m: nat, a: string, n: nat, b: string)
    requires Ones(m) + a == Ones(n) + b
    ensures m == n && a == b
  {
    var s, t := Ones(m) + a, Ones(n) + b;
    assert s[0] == (if m == 0 then '0' else '1') && t[0] == (if n == 0 then '0' else '1');
    if m > 0 {
      assert s[1..] == Ones(m - 1) + a && t[1..] == Ones(n - 1) + b;
      OnesAreFrames(m - 1, a, n - 1, b);
    } else {
      assert s[1..] == a && t[1..] == b;
    }
  }

  lemma FramesAreTold(t: string, a: string, u: string, b: string)
    requires Framed(t) + a == Framed(u) + b
    ensures t == u && a == b
  {
    assert Ones(|t|) + (t + a) == Framed(t) + a && Ones(|u|) + (u + b) == Framed(u) + b;
    OnesAreFrames(|t|, t + a, |u|, u + b);
    assert (t + a)[..|t|] == t && (u + b)[..|u|] == u;
    assert (t + a)[|t|..] == a && (u + b)[|u|..] == b;
  }

  function Spelled(v: int): string {
    if v < 0 then "-" + Ones(-v) else "+" + Ones(v)
  }

  lemma SpellingsDiffer(v: int, w: int)
    requires Spelled(v) == Spelled(w)
    ensures v == w
  {
    var s, t := Spelled(v), Spelled(w);
    assert s[0] == (if v < 0 then '-' else '+') && t[0] == (if w < 0 then '-' else '+');
    var m, n := if v < 0 then -v else v, if w < 0 then -w else w;
    assert s[1..] == Ones(m) && t[1..] == Ones(n);
    assert Ones(m) + "" == Ones(n) + "";
    OnesAreFrames(m, "", n, "");
  }

  function Encoded(x: HashInput): string {
    Framed(x.previousHash) + (Framed(x.eventId) + (Framed(x.payloadDigest) + Spelled(x.version)))
  }

  lemma EncodingsDiffer(x: HashInput, y: HashInput)
    requires Encoded(x) == Encoded(y)
    ensures x == y
  {
    FramesAreTold(x.previousHash, Framed(x.eventId) + (Framed(x.payloadDigest) + Spelled(x.version)),
                  y.previousHash, Framed(y.eventId) + (Framed(y.payloadDigest) + Spelled(y.version)));
    FramesAreTold(x.eventId, Framed(x.payloadDigest) + Spelled(x.version), y.eventId, Framed(y.payloadDigest) + Spelled(y.version));
    FramesAreTold(x.payloadDigest, Spelled(x.version), y.payloadDigest, Spelled(y.version));
    SpellingsDiffer(x.version, y.version);
  }

  /** Sends one input to the genesis value and all others to different texts. */
  function GenesisFor(chosen: HashInput): Hasher {
    (x: HashInput) => if x == chosen then GENESIS else GENESIS + ("1" + Encoded(x))
  }

  lemma GenesisForIsInjective(chosen: HashInput, x: HashInput, y: HashInput)
    requires GenesisFor(chosen)(x) == GenesisFor(chosen)(y)
    ensures x == y
  {
    if x != chosen && y != chosen {
      var n := |GENESIS| + 1;
      assert (GENESIS + ("1" + Encoded(x)))[n..] == Encoded(x) && (GENESIS + ("1" + Encoded(y)))[n..] == Encoded(y);
      EncodingsDiffer(x, y);
    } else {
      assert |GENESIS + ("1" + Encoded(x))| > |GENESIS| && |GENESIS + ("1" + Encoded(y))| > |GENESIS|;
    }
  }

  /** With a digest that has no collision at all, a stream of one event ends in the genesis value and so looks
      like the empty one. */
  lemma GenesisHidesAStream() returns (h: Hasher, s: Stream)
    ensures forall x, y :: h(x) == h(y) ==> x == y
    ensures Verifies(h, s) && |s| == 1 && LastHash(s) == LastHash([]) && Contents(s) != Contents([])
  {
    var chosen := HashInput(GENESIS, "event", "digest", 1);
    h := GenesisFor(chosen);
    forall x, y | h(x) == h(y) ensures x == y {
      GenesisForIsInjective(chosen, x, y);
    }
    s := [Entry(h, "stream", [], NewEvent("event", "digest"))];
    assert LinkOk(h, s, 0);
    assert |Contents(s)| == 1 && |Contents([])| == 0;
  }
}

/** The composite keys of the in-memory stores: two ids joined by a separator. */
module Keys {
  import opened Base

  function JoinWith(separator: string, a: Id, b: Id): string {
    a + separator + b
  }

  /** Exactly when two different tenants can be given one key: when one of them, with the separator,
      starts the other. */
  lemma SharedKeyWithIff(separator: string, t: Id, u: Id)
    ensures (exists s, v :: JoinWith(separator, t, s) == JoinWith(separator, u, v)) <==>
            t + separator <= u + separator || u + separator <= t + separator
  {
    if s, v :| JoinWith(separator, t, s) == JoinWith(separator, u, v) {
      OneStartsTheOther(t + separator, s, u + separator, v);
    }
    if t + separator <= u + separator {
      var s := (u + separator)[|t + separator|..];
      assert JoinWith(separator, t, s) == JoinWith(separator, u, "");
    }
    if u + separator <= t + separator {
      var v := (t + separator)[|u + separator|..];
      assert JoinWith(separator, t, "") == JoinWith(separator, u, v);
    }
  }

  lemma OneStartsTheOther(a: string, s: string, b: string, v: string)
    requires a + s == b + v
    ensures a <= b || b <= a
  {
    var w := a + s;
    assert a == w[..|a|] && b == w[..|b|];
  }

  // ---- the memory partitions: the unit separator ---------------------------------------------------------

  const UNIT_SEPARATOR: string := "\U{001F}"

  /** Names that do not hold the separator's one character never share a partition. */
  lemma PartitionsAreDistinct(t: Id, s: Id, u: Id, v: Id)
    requires UNIT_SEPARATOR[0] !in t && UNIT_SEPARATOR[0] !in u
    requires JoinWith(UNIT_SEPARATOR, t, s) == JoinWith(UNIT_SEPARATOR, u, v)
    ensures t == u && s == v
  {
    var w := JoinWith(UNIT_SEPARATOR, t, s);
    assert w[|t|] == UNIT_SEPARATOR[0] && w[|u|] == UNIT_SEPARATOR[0];
    assert forall i :: 0 <= i < |t| ==> w[i] == t[i];
    assert forall i :: 0 <= i < |u| ==> w[i] == u[i];
    assert |t| == |u|;
    assert t == w[..|t|] && u == w[..|u|];
    assert s == w[|t| + 1..] && v == w[|u| + 1..];
  }

  // ---- streams and audit partitions: the double colon ------------------------------------------------------

  const SEPARATOR: string := "::"

  function Join(a: Id, b: Id): string {
    JoinWith(SEPARATOR, a, b)
  }

  lemma SharedKeyIff(t: Id, u: Id)
    ensures (exists s, v :: Join(t, s) == Join(u, v)) <==>
            t + SEPARATOR <= u + SEPARATOR || u + SEPARATOR <= t + SEPARATOR
  {
    SharedKeyWithIff(SEPARATOR, t, u);
    if s, v :| JoinWith(SEPARATOR, t, s) == JoinWith(SEPARATOR, u, v) {
      assert Join(t, s) == Join(u, v);
    }
  }

  /** Tenants whose names hold no colon never share a key with one another. */
  lemma ColonFreeKeysAreDistinct(t: Id, s: Id, u: Id, v: Id)
    requires ':' !in t && ':' !in u
    requires Join(t, s) == Join(u, v)
    ensures t == u && s == v
  {
    var w := Join(t, s);
    assert w[|t|] == ':' && w[|u|] == ':';
    assert forall i :: 0 <= i < |t| ==> w[i] == t[i];
    assert forall i :: 0 <= i < |u| ==> w[i] == u[i];
    assert |t| == |u|;
    assert t == w[..|t|] && u == w[..|u|];
    assert s == w[|t| + 2..] && v == w[|u| + 2..];
  }

  /** Two tenants that do share a key. */
  lemma TenantsShareAKey()
    ensures Join("a", "b::c") == Join("a::b", "c")
  {
  }
}

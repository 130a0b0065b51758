/** Definitions shared by every component: options, identifiers, text tests and
    facts about sequences. */
module Base {

  datatype Option<+T> = None | Some(value: T)

  /** Identifiers are strings in the source; the empty string is a legal one. */
  type Id = string

  /** The characters that JavaScript's `trim` removes. */
  predicate Whitespace(c: char) {
    var n := c as int;
    || n in {0x09, 0x0A, 0x0B, 0x0C, 0x0D, 0x20, 0xA0, 0x1680, 0x2028, 0x2029, 0x202F, 0x205F, 0x3000, 0xFEFF}
    || 0x2000 <= n <= 0x200A
  }

  /** `isNonEmptyString`: some character survives trimming. */
  predicate NonBlank(s: string) {
    exists i :: 0 <= i < |s| && !Whitespace(s[i])
  }

  function Elements<T>(s: seq<T>): set<T> {
    set x | x in s
  }

  ghost predicate Distinct<T>(s: seq<T>) {
    forall i, j :: 0 <= i < j < |s| ==> s[i] != s[j]
  }

  /** `s` lists every element of `t`, and nothing else, the same number of times. */
  ghost predicate Permutation<T>(s: seq<T>, t: seq<T>) {
    multiset(s) == multiset(t)
  }

  function Reverse<T>(s: seq<T>): (r: seq<T>)
    ensures |r| == |s|
    ensures forall i :: 0 <= i < |s| ==> r[i] == s[|s| - 1 - i]
    ensures Permutation(r, s)
  {
    if s == [] then []
    else
      assert s == [s[0]] + s[1..];
      Reverse(s[1..]) + [s[0]]
  }

  lemma SplitAt<T>(s: seq<T>, k: nat)
    requires k < |s|
    ensures s[..k + 1] == s[..k] + [s[k]]
    ensures multiset(s[..k + 1]) == multiset(s[..k]) + multiset{s[k]}
    ensures Elements(s[..k + 1]) == Elements(s[..k]) + {s[k]}
  {
  }

  lemma WholePrefix<T>(s: seq<T>)
    ensures s[..|s|] == s
  {
  }

  lemma {:induction false} DistinctSize<T>(s: seq<T>)
    requires Distinct(s)
    ensures |Elements(s)| == |s|
  {
    if s != [] {
      var k := |s| - 1;
      DistinctSize(s[..k]);
      SplitAt(s, k);
      WholePrefix(s);
      assert s[k] !in s[..k];
    }
  }

  /** The pigeonhole principle: a list longer than the set it draws from repeats an entry. */
  lemma Pigeonhole<T>(s: seq<T>, pool: set<T>) returns (i: nat, j: nat)
    requires Elements(s) <= pool
    requires |s| > |pool|
    ensures i < j < |s| && s[i] == s[j]
  {
    if Distinct(s) {
      DistinctSize(s);
      SubsetSize(Elements(s), pool);
      assert false;
    }
    i, j :| 0 <= i < j < |s| && s[i] == s[j];
  }

  lemma {:induction false} SubsetSize<T>(a: set<T>, b: set<T>)
    requires a <= b
    ensures |a| <= |b|
  {
    if a != {} {
      var x :| x in a;
      SubsetSize(a - {x}, b - {x});
    }
  }

  /** Distinct lists over the same elements are permutations of each other. */
  lemma DistinctPermutation<T>(s: seq<T>, t: seq<T>)
    requires Distinct(s) && Distinct(t)
    requires Elements(s) == Elements(t)
    ensures Permutation(s, t)
  {
    forall x ensures multiset(s)[x] == multiset(t)[x] {
      DistinctCount(s, x);
      DistinctCount(t, x);
      assert x in s <==> x in Elements(s);
      assert x in t <==> x in Elements(t);
    }
  }

  lemma {:induction false} DistinctCount<T>(s: seq<T>, x: T)
    requires Distinct(s)
    ensures multiset(s)[x] == if x in s then 1 else 0
  {
    if s != [] {
      assert s == [s[0]] + s[1..];
      DistinctCount(s[1..], x);
    }
  }

  // ---- filtering and relative order ---------------------------------------------

  function Filter<T(!new)>(f: T -> bool, s: seq<T>): (r: seq<T>)
    ensures forall x :: x in r <==> x in s && f(x)
  {
    if s == [] then []
    else
      assert s == [s[0]] + s[1..];
      if f(s[0]) then [s[0]] + Filter(f, s[1..]) else Filter(f, s[1..])
  }

  lemma {:induction false} FilterSnoc<T(!new)>(f: T -> bool, s: seq<T>, x: T)
    ensures Filter(f, s + [x]) == Filter(f, s) + if f(x) then [x] else []
  {
    if s == [] {
      assert s + [x] == [x];
    } else {
      assert (s + [x])[1..] == s[1..] + [x];
      FilterSnoc(f, s[1..], x);
    }
  }

  /** `picked` lists the elements of `s` at the positions `at`, which are in order, hold for `f`, and are all
      the positions that do. */
  ghost predicate Selects<T(!new)>(f: T -> bool, s: seq<T>, picked: seq<T>, at: seq<nat>) {
    && |at| == |picked|
    && (forall j :: 0 <= j < |at| ==> at[j] < |s| && s[at[j]] == picked[j] && f(picked[j]))
    && (forall j, k :: 0 <= j < k < |at| ==> at[j] < at[k])
    && (forall i :: 0 <= i < |s| && f(s[i]) ==> exists j :: 0 <= j < |at| && at[j] == i)
  }

  lemma SelectsSnoc<T(!new)>(f: T -> bool, s: seq<T>, picked: seq<T>, at: seq<nat>, x: T)
    requires Selects(f, s, picked, at)
    ensures f(x) ==> Selects(f, s + [x], picked + [x], at + [|s|])
    ensures !f(x) ==> Selects(f, s + [x], picked, at)
  {
    var more := at + [|s|];
    assert more[|at|] == |s|;
    assert forall j :: 0 <= j < |at| ==> more[j] == at[j];
  }

  lemma SelectsMore<T(!new)>(f: T -> bool, s: seq<T>, picked: seq<T>, at: seq<nat>, x: T, whole: seq<T>) returns (more: seq<nat>)
    requires Selects(f, s, picked, at) && whole == picked + if f(x) then [x] else []
    ensures Selects(f, s + [x], whole, more)
  {
    SelectsSnoc(f, s, picked, at, x);
    more := if f(x) then at + [|s|] else at;
  }

  lemma {:induction false} FilterSelects<T(!new)>(f: T -> bool, s: seq<T>) returns (at: seq<nat>)
    ensures Selects(f, s, Filter(f, s), at)
  {
    if s == [] {
      at := [];
    } else {
      var init, last := s[..|s| - 1], s[|s| - 1];
      at := FilterSelects(f, init);
      assert s == init + [last];
      FilterSnoc(f, init, last);
      at := SelectsMore(f, init, Filter(f, init), at, last, Filter(f, s));
    }
  }

  /** Some occurrence of `a` comes before some occurrence of `b`. */
  ghost predicate Precedes<T>(s: seq<T>, a: T, b: T) {
    exists i, j :: 0 <= i < j < |s| && s[i] == a && s[j] == b
  }

  lemma PrecedesConcat<T>(s: seq<T>, t: seq<T>, a: T, b: T)
    ensures Precedes(s + t, a, b) <==> Precedes(s, a, b) || Precedes(t, a, b) || (a in s && b in t)
  {
    var u := s + t;
    if Precedes(u, a, b) {
      var i, j :| 0 <= i < j < |u| && u[i] == a && u[j] == b;
      if i >= |s| {
        assert t[i - |s|] == a && t[j - |s|] == b;
      } else if j >= |s| {
        assert s[i] == a && t[j - |s|] == b;
      }
    }
    if Precedes(s, a, b) {
      var i, j :| 0 <= i < j < |s| && s[i] == a && s[j] == b;
      assert u[i] == a && u[j] == b;
    }
    if Precedes(t, a, b) {
      var i, j :| 0 <= i < j < |t| && t[i] == a && t[j] == b;
      assert u[i + |s|] == a && u[j + |s|] == b;
    }
    if a in s && b in t {
      var i :| 0 <= i < |s| && s[i] == a;
      var j :| 0 <= j < |t| && t[j] == b;
      assert u[i] == a && u[j + |s|] == b;
    }
  }

  lemma {:induction false} FilterPrecedes<T(!new)>(f: T -> bool, s: seq<T>, a: T, b: T)
    requires f(a) && f(b)
    ensures Precedes(Filter(f, s), a, b) <==> Precedes(s, a, b)
  {
    if s != [] {
      FilterPrecedes(f, s[1..], a, b);
      assert s == [s[0]] + s[1..];
      PrecedesConcat([s[0]], s[1..], a, b);
      PrecedesConcat([s[0]], Filter(f, s[1..]), a, b);
    }
  }

  lemma ReversePrecedes<T>(s: seq<T>, a: T, b: T)
    ensures Precedes(Reverse(s), a, b) <==> Precedes(s, b, a)
  {
    MirrorPrecedes(s, Reverse(s), b, a);
    MirrorPrecedes(Reverse(s), s, a, b);
  }

  lemma MirrorPrecedes<T>(s: seq<T>, r: seq<T>, a: T, b: T)
    requires |r| == |s| && forall i :: 0 <= i < |s| ==> s[i] == r[|s| - 1 - i]
    ensures Precedes(s, a, b) ==> Precedes(r, b, a)
  {
  }

  lemma {:induction false} FilterSplits<T(!new)>(f: T -> bool, g: T -> bool, s: seq<T>)
    requires forall x :: x in s ==> f(x) != g(x)
    ensures Permutation(Filter(f, s) + Filter(g, s), s)
  {
    if s != [] {
      assert s == [s[0]] + s[1..];
      FilterSplits(f, g, s[1..]);
    }
  }

  lemma {:induction false} FilterDistinct<T(!new)>(f: T -> bool, s: seq<T>)
    requires Distinct(s)
    ensures Distinct(Filter(f, s))
  {
    if s != [] {
      FilterDistinct(f, s[1..]);
      assert s[0] !in s[1..];
    }
  }

  lemma PermutationDistinct<T>(s: seq<T>, t: seq<T>)
    requires Permutation(s, t) && Distinct(t)
    ensures Distinct(s)
  {
    forall i, j | 0 <= i < j < |s| ensures s[i] != s[j] {
      if s[i] == s[j] {
        CountTwice(s, i, j);
        DistinctCount(t, s[i]);
        assert false;
      }
    }
  }

  lemma CountTwice<T>(s: seq<T>, i: nat, j: nat)
    requires i < j < |s| && s[i] == s[j]
    ensures multiset(s)[s[i]] >= 2
  {
    assert s == s[..i] + [s[i]] + s[i + 1..j] + [s[j]] + s[j + 1..];
  }

  lemma PermutationMembers<T>(s: seq<T>, t: seq<T>)
    requires Permutation(s, t)
    ensures forall x :: x in s <==> x in t
  {
    forall x ensures x in s <==> x in t {
      assert x in s <==> x in multiset(s);
      assert x in t <==> x in multiset(t);
    }
  }

  lemma {:induction false} ListOf<T>(s: set<T>) returns (q: seq<T>)
    ensures Distinct(q) && forall x :: x in q <==> x in s
    decreases |s|
  {
    if s == {} {
      q := [];
    } else {
      var x :| x in s;
      var rest := ListOf(s - {x});
      q := rest + [x];
    }
  }
}

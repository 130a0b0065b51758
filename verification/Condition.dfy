/** packages/governance/src/policy.ts: the three-valued condition language, its depth bound
    and what more knowledge can change. */
module Condition {
  const MAX_CONDITION_DEPTH: nat := 32

  datatype Attr = Text(text: string) | Number(number: real) | Flag(flag: bool)

  type Bag = map<string, Attr>

  datatype Condition =
    | Always
    | AttrEq(attr: string, value: Attr)
    | AttrNe(attr: string, value: Attr)
    | AttrIn(attr: string, values: seq<Attr>)
    | AttrGte(attr: string, bound: real)
    | AttrLte(attr: string, bound: real)
    | And(conditions: seq<Condition>)
    | Or(conditions: seq<Condition>)
    | Not(condition: Condition)
    | Unrecognised

  datatype Tri = True | False | Unknown

  // ---- reading an attribute ------------------------------------------------------------

  /** Names that a plain object answers although it has no such key of its own. */
  const INHERITED_NAMES: set<string> := {
    "constructor", "__defineGetter__", "__defineSetter__", "hasOwnProperty", "__lookupGetter__",
    "__lookupSetter__", "isPrototypeOf", "propertyIsEnumerable", "toString", "valueOf", "__proto__",
    "toLocaleString"
  }

  /** What indexing the bag yields: nothing, a value that is no attribute, or an attribute. */
  datatype Seen = Absent | Inherited | Has(value: Attr)

  function Lookup(bag: Bag, name: string): Seen {
    if name in bag then Has(bag[name])
    else if name in INHERITED_NAMES then Inherited
    else Absent
  }

  function OfBool(b: bool): Tri {
    if b then True else False
  }

  /** The conditions that look at no other condition. */
  function EvalLeaf(c: Condition, bag: Bag): Tri
    requires !c.And? && !c.Or? && !c.Not?
  {
    match c
    case Always => True
    case AttrEq(name, value) =>
      var v := Lookup(bag, name);
      if v.Absent? then Unknown else OfBool(v == Has(value))
    case AttrNe(name, value) =>
      var v := Lookup(bag, name);
      if v.Absent? then Unknown else OfBool(v != Has(value))
    case AttrIn(name, values) =>
      var v := Lookup(bag, name);
      if v.Absent? then Unknown else OfBool(v.Has? && v.value in values)
    case AttrGte(name, bound) =>
      var v := Lookup(bag, name);
      if v.Has? && v.value.Number? then OfBool(v.value.number >= bound) else Unknown
    case AttrLte(name, bound) =>
      var v := Lookup(bag, name);
      if v.Has? && v.value.Number? then OfBool(v.value.number <= bound) else Unknown
    case Unrecognised => Unknown
  }

  /** The attribute is there and passes the test. */
  predicate Known(bag: Bag, name: string, test: Attr -> bool) {
    name in bag && test(bag[name])
  }

  /** A name that is missing and not one the plain object answers by inheritance. */
  predicate Missing(bag: Bag, name: string) {
    name !in bag && name !in INHERITED_NAMES
  }

  function AtLeast(bound: real): Attr -> bool { (v: Attr) => v.Number? && bound <= v.number }
  function Below(bound: real): Attr -> bool { (v: Attr) => v.Number? && v.number < bound }
  function AtMost(bound: real): Attr -> bool { (v: Attr) => v.Number? && v.number <= bound }
  function Above(bound: real): Attr -> bool { (v: Attr) => v.Number? && bound < v.number }
  function OneOf(values: seq<Attr>): Attr -> bool { (v: Attr) => exists i :: 0 <= i < |values| && values[i] == v }

  /** What a test of one attribute answers: membership is definite whenever the name is answered at all, a
      comparison only for a number, and equality and inequality are opposites. */
  lemma LeavesMean(bag: Bag, name: string, value: Attr, values: seq<Attr>, bound: real)
    ensures EvalLeaf(AttrEq(name, value), bag) == True <==> Known(bag, name, (v: Attr) => v == value)
    ensures EvalLeaf(AttrEq(name, value), bag) == Unknown <==> Missing(bag, name)
    ensures EvalLeaf(AttrNe(name, value), bag) == False <==> Known(bag, name, (v: Attr) => v == value)
    ensures EvalLeaf(AttrNe(name, value), bag) == Unknown <==> Missing(bag, name)
    ensures EvalLeaf(AttrIn(name, values), bag) == True <==> Known(bag, name, OneOf(values))
    ensures EvalLeaf(AttrIn(name, values), bag) == Unknown <==> Missing(bag, name)
    ensures EvalLeaf(AttrGte(name, bound), bag) == True <==> Known(bag, name, AtLeast(bound))
    ensures EvalLeaf(AttrGte(name, bound), bag) == False <==> Known(bag, name, Below(bound))
    ensures EvalLeaf(AttrLte(name, bound), bag) == True <==> Known(bag, name, AtMost(bound))
    ensures EvalLeaf(AttrLte(name, bound), bag) == False <==> Known(bag, name, Above(bound))
    ensures EvalLeaf(Always, bag) == True && EvalLeaf(Unrecognised, bag) == Unknown
  {
  }

  // ---- three-valued meaning ----------------------------------------------------------------

  function AllOf(rs: seq<Tri>): Tri {
    if False in rs then False else if Unknown in rs then Unknown else True
  }

  function AnyOf(rs: seq<Tri>): Tri {
    if True in rs then True else if Unknown in rs then Unknown else False
  }

  function Negate(r: Tri): Tri {
    match r case True => False case False => True case Unknown => Unknown
  }

  /** The meaning of a condition with no bound on its depth. */
  function Meaning(c: Condition, bag: Bag): Tri
    decreases c
  {
    match c
    case And(cs) => AllOf(MeaningEach(c, cs, bag))
    case Or(cs) => AnyOf(MeaningEach(c, cs, bag))
    case Not(d) => Negate(Meaning(d, bag))
    case _ => EvalLeaf(c, bag)
  }

  function MeaningEach(ghost parent: Condition, cs: seq<Condition>, bag: Bag): (rs: seq<Tri>)
    requires forall i :: 0 <= i < |cs| ==> cs[i] < parent
    ensures |rs| == |cs| && forall i :: 0 <= i < |cs| ==> rs[i] == Meaning(cs[i], bag)
    decreases parent, 0
  {
    seq(|cs|, i requires 0 <= i < |cs| => Meaning(cs[i], bag))
  }

  /** The meaning the evaluator gives: anything nested too deep is unknown. */
  function Eval(c: Condition, bag: Bag, depth: nat): Tri
    decreases c
  {
    if depth > MAX_CONDITION_DEPTH then Unknown
    else match c
      case And(cs) => AllOf(EvalEach(c, cs, bag, depth + 1))
      case Or(cs) => AnyOf(EvalEach(c, cs, bag, depth + 1))
      case Not(d) => Negate(Eval(d, bag, depth + 1))
      case _ => EvalLeaf(c, bag)
  }

  function EvalEach(ghost parent: Condition, cs: seq<Condition>, bag: Bag, depth: nat): (rs: seq<Tri>)
    requires forall i :: 0 <= i < |cs| ==> cs[i] < parent
    ensures |rs| == |cs| && forall i :: 0 <= i < |cs| ==> rs[i] == Eval(cs[i], bag, depth)
    decreases parent, 0
  {
    seq(|cs|, i requires 0 <= i < |cs| => Eval(cs[i], bag, depth))
  }

  /** The short-circuiting loops of the source compute `Eval`. */
  method EvaluateCondition(c: Condition, bag: Bag, depth: nat) returns (r: Tri)
    ensures r == Eval(c, bag, depth)
    decreases c
  {
    if depth > MAX_CONDITION_DEPTH {
      return Unknown;
    }
    match c
    case And(cs) =>
      var sawUnknown := false;
      for i := 0 to |cs|
        invariant sawUnknown <==> exists k :: 0 <= k < i && Eval(cs[k], bag, depth + 1) == Unknown
        invariant forall k :: 0 <= k < i ==> Eval(cs[k], bag, depth + 1) != False
      {
        var t := EvaluateCondition(cs[i], bag, depth + 1);
        if t == False {
          assert EvalEach(c, cs, bag, depth + 1)[i] == False;
          return False;
        }
        if t == Unknown { sawUnknown := true; }
      }
      ghost var rs := EvalEach(c, cs, bag, depth + 1);
      assert sawUnknown <==> Unknown in rs;
      return if sawUnknown then Unknown else True;
    case Or(cs) =>
      var sawUnknown := false;
      for i := 0 to |cs|
        invariant sawUnknown <==> exists k :: 0 <= k < i && Eval(cs[k], bag, depth + 1) == Unknown
        invariant forall k :: 0 <= k < i ==> Eval(cs[k], bag, depth + 1) != True
      {
        var t := EvaluateCondition(cs[i], bag, depth + 1);
        if t == True {
          assert EvalEach(c, cs, bag, depth + 1)[i] == True;
          return True;
        }
        if t == Unknown { sawUnknown := true; }
      }
      ghost var rs := EvalEach(c, cs, bag, depth + 1);
      assert sawUnknown <==> Unknown in rs;
      return if sawUnknown then Unknown else False;
    case Not(d) =>
      var t := EvaluateCondition(d, bag, depth + 1);
      return if t == Unknown then Unknown else if t == True then False else True;
    case _ =>
      return EvalLeaf(c, bag);
  }

  // ---- more knowledge --------------------------------------------------------------------------

  /** `b` answers at least what `a` answers. */
  predicate Refines(a: Tri, b: Tri) {
    a == Unknown || a == b
  }

  ghost predicate Extends(bag: Bag, ext: Bag) {
    forall k :: k in bag ==> k in ext && ext[k] == bag[k]
  }

  /** No added key is one that the smaller bag already answered by inheritance. */
  ghost predicate AddsOwnNamesOnly(bag: Bag, ext: Bag) {
    Extends(bag, ext) && forall k :: k in ext && k !in bag ==> k !in INHERITED_NAMES
  }

  lemma PointwiseRefines(rs: seq<Tri>, ss: seq<Tri>)
    requires |rs| == |ss| && forall i :: 0 <= i < |rs| ==> Refines(rs[i], ss[i])
    ensures Refines(AllOf(rs), AllOf(ss)) && Refines(AnyOf(rs), AnyOf(ss))
  {
  }

  /** A definite answer survives every completion of the bag. */
  lemma {:induction false} DefiniteAnswersPersist(c: Condition, bag: Bag, ext: Bag, depth: nat)
    requires AddsOwnNamesOnly(bag, ext)
    ensures Refines(Eval(c, bag, depth), Eval(c, ext, depth))
    decreases c
  {
    if depth <= MAX_CONDITION_DEPTH {
      match c
      case And(cs) =>
        forall i | 0 <= i < |cs| { DefiniteAnswersPersist(cs[i], bag, ext, depth + 1); }
        PointwiseRefines(EvalEach(c, cs, bag, depth + 1), EvalEach(c, cs, ext, depth + 1));
      case Or(cs) =>
        forall i | 0 <= i < |cs| { DefiniteAnswersPersist(cs[i], bag, ext, depth + 1); }
        PointwiseRefines(EvalEach(c, cs, bag, depth + 1), EvalEach(c, cs, ext, depth + 1));
      case Not(d) =>
        DefiniteAnswersPersist(d, bag, ext, depth + 1);
      case _ =>
        assert Refines(EvalLeaf(c, bag), EvalLeaf(c, ext));
    }
  }

  // ---- the depth bound ----------------------------------------------------------------------------

  function MaxOf(base: nat, ns: seq<nat>): nat {
    if ns == [] then base
    else
      var m := MaxOf(base, ns[1..]);
      if ns[0] > m then ns[0] else m
  }

  lemma {:induction false} MaxOfIsMaximum(base: nat, ns: seq<nat>)
    ensures MaxOf(base, ns) >= base && forall i :: 0 <= i < |ns| ==> MaxOf(base, ns) >= ns[i]
    ensures MaxOf(base, ns) == base || MaxOf(base, ns) in ns
  {
    if ns != [] {
      MaxOfIsMaximum(base, ns[1..]);
      assert ns == [ns[0]] + ns[1..];
    }
  }

  /** How many levels lie below the root of a condition. */
  function Depth(c: Condition): nat {
    match c
    case And(cs) => MaxOf(0, LevelsEach(c, cs))
    case Or(cs) => MaxOf(0, LevelsEach(c, cs))
    case Not(d) => Depth(d) + 1
    case _ => 0
  }

  function LevelsEach(ghost parent: Condition, cs: seq<Condition>): (ns: seq<nat>)
    requires forall i :: 0 <= i < |cs| ==> cs[i] < parent
    ensures |ns| == |cs| && forall i :: 0 <= i < |cs| ==> ns[i] == Depth(cs[i]) + 1
    decreases parent, 0
  {
    seq(|cs|, i requires 0 <= i < |cs| => Depth(cs[i]) + 1)
  }

  /** `conditionDepth`, which stops descending once the limit is clearly passed. */
  function ConditionDepth(c: Condition, depth: nat): nat
    decreases c
  {
    if depth > MAX_CONDITION_DEPTH + 1 then depth
    else match c
      case And(cs) => MaxOf(depth, DepthEach(c, cs, depth + 1))
      case Or(cs) => MaxOf(depth, DepthEach(c, cs, depth + 1))
      case Not(d) => ConditionDepth(d, depth + 1)
      case _ => depth
  }

  function DepthEach(ghost parent: Condition, cs: seq<Condition>, depth: nat): (ns: seq<nat>)
    requires forall i :: 0 <= i < |cs| ==> cs[i] < parent
    ensures |ns| == |cs| && forall i :: 0 <= i < |cs| ==> ns[i] == ConditionDepth(cs[i], depth)
    decreases parent, 0
  {
    seq(|cs|, i requires 0 <= i < |cs| => ConditionDepth(cs[i], depth))
  }

  function Min(a: nat, b: nat): nat {
    if a <= b then a else b
  }

  lemma MaxOfCapped(full: seq<nat>, capped: seq<nat>, depth: nat, cap: nat)
    requires |full| == |capped| && depth <= cap
    requires forall i :: 0 <= i < |full| ==> capped[i] == Min(depth + full[i], cap)
    ensures MaxOf(depth, capped) == Min(depth + MaxOf(0, full), cap)
  {
  }

  /** The early cut changes no verdict: the computed depth is the true depth capped at 34. */
  lemma {:induction false} ConditionDepthIs(c: Condition, depth: nat)
    requires depth <= MAX_CONDITION_DEPTH + 2
    ensures ConditionDepth(c, depth) == Min(depth + Depth(c), MAX_CONDITION_DEPTH + 2)
    decreases c
  {
    if depth <= MAX_CONDITION_DEPTH + 1 {
      match c
      case And(cs) => ConditionDepthOfList(c, cs, depth);
      case Or(cs) => ConditionDepthOfList(c, cs, depth);
      case Not(d) => ConditionDepthIs(d, depth + 1);
      case _ =>
    }
  }

  lemma {:induction false} ConditionDepthOfList(c: Condition, cs: seq<Condition>, depth: nat)
    requires depth <= MAX_CONDITION_DEPTH + 1
    requires forall i :: 0 <= i < |cs| ==> cs[i] < c
    ensures MaxOf(depth, DepthEach(c, cs, depth + 1)) ==
            Min(depth + MaxOf(0, LevelsEach(c, cs)), MAX_CONDITION_DEPTH + 2)
    decreases c, 0
  {
    var full, capped := LevelsEach(c, cs), DepthEach(c, cs, depth + 1);
    forall i | 0 <= i < |cs| ensures capped[i] == Min(depth + full[i], MAX_CONDITION_DEPTH + 2) {
      ConditionDepthIs(cs[i], depth + 1);
    }
    MaxOfCapped(full, capped, depth, MAX_CONDITION_DEPTH + 2);
  }

  /** Whatever its depth, a condition's bounded answer is unknown or the unbounded one, and
      within the limit it is always the unbounded one. */
  lemma {:induction false} BoundedAnswers(c: Condition, bag: Bag, depth: nat)
    ensures Refines(Eval(c, bag, depth), Meaning(c, bag))
    ensures depth + Depth(c) <= MAX_CONDITION_DEPTH ==> Eval(c, bag, depth) == Meaning(c, bag)
    decreases c
  {
    match c
    case And(cs) => BoundedList(c, cs, bag, depth);
    case Or(cs) => BoundedList(c, cs, bag, depth);
    case Not(d) => BoundedAnswers(d, bag, depth + 1);
    case _ =>
  }

  lemma {:induction false} BoundedList(c: Condition, cs: seq<Condition>, bag: Bag, depth: nat)
    requires forall i :: 0 <= i < |cs| ==> cs[i] < c
    ensures var rs, ss := EvalEach(c, cs, bag, depth + 1), MeaningEach(c, cs, bag);
      && Refines(AllOf(rs), AllOf(ss)) && Refines(AnyOf(rs), AnyOf(ss))
      && (depth + MaxOf(0, LevelsEach(c, cs)) <= MAX_CONDITION_DEPTH ==> rs == ss)
    decreases c, 0
  {
    var rs, ss := EvalEach(c, cs, bag, depth + 1), MeaningEach(c, cs, bag);
    var ds := LevelsEach(c, cs);
    MaxOfIsMaximum(0, ds);
    forall i | 0 <= i < |cs|
      ensures Refines(rs[i], ss[i])
      ensures depth + MaxOf(0, ds) <= MAX_CONDITION_DEPTH ==> rs[i] == ss[i]
    {
      BoundedAnswers(cs[i], bag, depth + 1);
      assert MaxOf(0, ds) >= ds[i];
    }
    PointwiseRefines(rs, ss);
  }

  function Negated(n: nat): Condition {
    if n == 0 then Always else Not(Negated(n - 1))
  }

  /** The limit is where it is said to be: one more level and a definite answer is lost. */
  lemma {:induction false} DepthLimitIsTight(n: nat, bag: Bag, depth: nat)
    ensures Eval(Negated(n), bag, depth) == Unknown <==> depth + n > MAX_CONDITION_DEPTH
    ensures Meaning(Negated(n), bag) == if n % 2 == 0 then True else False
  {
    if n > 0 { DepthLimitIsTight(n - 1, bag, depth + 1); }
  }
}

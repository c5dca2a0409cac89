/**
  Where a WHERE clause cannot tell two readings of a leaf apart: the polarity condition is not only enough for two
  backends to select the same rows, for trees without a repeated leaf it is also needed.
 */
module Polarity {
  import opened Logic3
  import opened Where

  /** What each leaf of a tree evaluates to on one row. */
  type Reading = Condition -> Tri

  /** The leaves that are compiled. */
  function Leaves(c: Condition): set<Condition>
    decreases c, 1
  {
    match c
    case Field(_, _, _, _) => if Kept(c) then {c} else {}
    case Logical(_, conditions) => LeavesOf(conditions)
    case Negation(inner) => Leaves(inner)
    case NilCondition => {}
  }

  function LeavesOf(cs: seq<Condition>): set<Condition>
    decreases cs, 0
  {
    if cs == [] then {} else Leaves(cs[0]) + LeavesOf(cs[1..])
  }

  /** No leaf occurs twice. */
  predicate Linear(c: Condition)
    decreases c, 1
  {
    match c
    case Logical(_, conditions) => LinearList(conditions)
    case Negation(inner) => Linear(inner)
    case _ => true
  }

  predicate LinearList(cs: seq<Condition>)
    decreases cs, 0
  {
    cs == [] || (Linear(cs[0]) && LinearList(cs[1..]) && Leaves(cs[0]) !! LeavesOf(cs[1..]))
  }

  /** Whether leaf x stands under an even number of NOTs. */
  predicate Positive(c: Condition, x: Condition)
    decreases c, 1
  {
    match c
    case Logical(_, conditions) => PositiveIn(conditions, x)
    case Negation(inner) => !Positive(inner, x)
    case _ => true
  }

  predicate PositiveIn(cs: seq<Condition>, x: Condition)
    decreases cs, 0
  {
    cs == [] || if x in Leaves(cs[0]) then Positive(cs[0], x) else PositiveIn(cs[1..], x)
  }

  /** The meaning of a kept tree, from the values of its leaves. */
  function ValueOf(m: Reading, c: Condition): Tri
    decreases c, 1
  {
    match c
    case Field(_, _, _, _) => m(c)
    case Logical(logic, conditions) => Fold(logic, ValuesOf(m, conditions))
    case Negation(inner) => Not(ValueOf(m, inner))
    case NilCondition => Unknown
  }

  function ValuesOf(m: Reading, cs: seq<Condition>): seq<Tri>
    decreases cs, 0
  {
    if cs == [] then [] else (if Kept(cs[0]) then [ValueOf(m, cs[0])] else []) + ValuesOf(m, cs[1..])
  }

  function Fold(logic: LogicType, ts: seq<Tri>): Tri
  {
    if logic.LogicAnd? then All(ts) else Any(ts)
  }

  /** Trees mean what their leaves' meanings make of them. */
  lemma {:induction false} ValueIsMeaning(leaf: LeafMeaning, c: Condition)
    ensures ValueOf(x => Meaning(leaf, x), c) == Meaning(leaf, c)
    decreases c, 1
  {
    match c
    case Logical(_, conditions) => ValuesAreMeanings(leaf, conditions);
    case Negation(inner) => ValueIsMeaning(leaf, inner);
    case _ =>
  }

  lemma {:induction false} ValuesAreMeanings(leaf: LeafMeaning, cs: seq<Condition>)
    ensures ValuesOf(x => Meaning(leaf, x), cs) == KeptMeanings(leaf, cs)
    decreases cs, 0
  {
    if cs == [] {
    } else {
      ValueIsMeaning(leaf, cs[0]);
      ValuesAreMeanings(leaf, cs[1..]);
    }
  }

  lemma {:induction false} KeptHasLeaves(c: Condition)
    ensures Kept(c) <==> Leaves(c) != {}
    decreases c, 1
  {
    match c
    case Logical(_, conditions) => SomeKept(conditions);
    case Negation(inner) => KeptHasLeaves(inner);
    case _ =>
  }

  lemma {:induction false} SomeKept(cs: seq<Condition>)
    ensures (exists i :: 0 <= i < |cs| && Kept(cs[i])) <==> LeavesOf(cs) != {}
    decreases cs, 0
  {
    if cs == [] {
    } else {
      KeptHasLeaves(cs[0]);
      SomeKept(cs[1..]);
      if i :| 0 <= i < |cs| && Kept(cs[i]) {
        if i > 0 { assert Kept(cs[1..][i - 1]); }
      }
      if i :| 0 <= i < |cs[1..]| && Kept(cs[1..][i]) { assert Kept(cs[i + 1]); }
    }
  }

  // -----------------------------------------------------------------------------------------
  // Readings that alike leaves cannot tell apart
  // -----------------------------------------------------------------------------------------

  /** Two truth values that a position of the given polarity cannot tell apart in what is selected. */
  predicate Alike(positive: bool, a: Tri, b: Tri)
  {
    if positive then a == True <==> b == True else a == False <==> b == False
  }

  lemma {:induction false} ReadingsAlike(m: Reading, n: Reading, c: Condition, positive: bool)
    requires Kept(c) && Linear(c) && forall x :: x in Leaves(c) ==> Alike(Positive(c, x) == positive, m(x), n(x))
    ensures Alike(positive, ValueOf(m, c), ValueOf(n, c))
    decreases c, 1
  {
    match c
    case Logical(logic, conditions) => ListsReadAlike(m, n, conditions, positive, logic);
    case Negation(inner) => ReadingsAlike(m, n, inner, !positive);
    case _ =>
  }

  lemma {:induction false} ListsReadAlike(m: Reading, n: Reading, cs: seq<Condition>, positive: bool, logic: LogicType)
    requires LinearList(cs) && forall x :: x in LeavesOf(cs) ==> Alike(PositiveIn(cs, x) == positive, m(x), n(x))
    ensures Alike(positive, Fold(logic, ValuesOf(m, cs)), Fold(logic, ValuesOf(n, cs)))
    decreases cs, 0
  {
    if cs == [] {
    } else {
      assert forall x :: x in LeavesOf(cs[1..]) ==> PositiveIn(cs, x) == PositiveIn(cs[1..], x);
      ListsReadAlike(m, n, cs[1..], positive, logic);
      FoldStep(m, cs, logic);
      FoldStep(n, cs, logic);
      if Kept(cs[0]) { ReadingsAlike(m, n, cs[0], positive); }
    }
  }

  function Join2(logic: LogicType, a: Tri, b: Tri): Tri
  {
    if logic.LogicAnd? then And(a, b) else Or(a, b)
  }

  lemma {:induction false} FoldStep(m: Reading, cs: seq<Condition>, logic: LogicType)
    requires cs != []
    ensures var rest := Fold(logic, ValuesOf(m, cs[1..]));
      Fold(logic, ValuesOf(m, cs)) == if Kept(cs[0]) then Join2(logic, ValueOf(m, cs[0]), rest) else rest
  {
    var ts := ValuesOf(m, cs[1..]);
    if Kept(cs[0]) {
      assert ([ValueOf(m, cs[0])] + ts)[1..] == ts;
    } else {
      assert [] + ts == ts;
    }
  }

  // -----------------------------------------------------------------------------------------
  // Readings under which one leaf decides
  // -----------------------------------------------------------------------------------------

  function Put(m: Reading, x: Condition, v: Tri): Reading
  {
    y => if y == x then v else m(y)
  }

  function Both(m: Reading, n: Reading, xs: set<Condition>): Reading
  {
    y => if y in xs then m(y) else n(y)
  }

  /** Only the leaves of a tree matter to it. */
  lemma {:induction false} Local(m: Reading, n: Reading, c: Condition)
    requires Kept(c) && forall x :: x in Leaves(c) ==> m(x) == n(x)
    ensures ValueOf(m, c) == ValueOf(n, c)
    decreases c, 1
  {
    match c
    case Logical(_, conditions) => LocalList(m, n, conditions);
    case Negation(inner) => Local(m, n, inner);
    case _ =>
  }

  lemma {:induction false} LocalList(m: Reading, n: Reading, cs: seq<Condition>)
    requires forall x :: x in LeavesOf(cs) ==> m(x) == n(x)
    ensures ValuesOf(m, cs) == ValuesOf(n, cs)
    decreases cs, 0
  {
    if cs == [] {
    } else {
      if Kept(cs[0]) { Local(m, n, cs[0]); }
      LocalList(m, n, cs[1..]);
    }
  }

  /** A tree can be made true, and it can be made false. */
  lemma {:induction false} Force(c: Condition, v: Tri) returns (m: Reading)
    requires v != Unknown && Kept(c) && Linear(c)
    ensures ValueOf(m, c) == v
    decreases c, 1
  {
    match c
    case Logical(logic, conditions) =>
      m := ForceList(conditions, v, logic);
      SomeKept(conditions);
    case Negation(inner) =>
      m := Force(inner, Not(v));
    case _ =>
      m := x => v;
  }

  lemma {:induction false} ForceList(cs: seq<Condition>, v: Tri, logic: LogicType) returns (m: Reading)
    requires v != Unknown && LinearList(cs)
    ensures LeavesOf(cs) != {} ==> Fold(logic, ValuesOf(m, cs)) == v
    decreases cs, 0
  {
    if cs == [] {
      m := x => v;
    } else {
      var rest := ForceList(cs[1..], v, logic);
      SomeKept(cs[1..]);
      KeptHasLeaves(cs[0]);
      if Kept(cs[0]) {
        var first := Force(cs[0], v);
        m := Both(first, rest, Leaves(cs[0]));
        Local(m, first, cs[0]);
        LocalList(m, rest, cs[1..]);
        if LeavesOf(cs[1..]) == {} { NoValues(m, cs[1..]); }
      } else {
        m := rest;
      }
      FoldStep(m, cs, logic);
    }
  }

  lemma {:induction false} NoValues(m: Reading, cs: seq<Condition>)
    requires LeavesOf(cs) == {}
    ensures ValuesOf(m, cs) == []
    decreases cs, 0
  {
    if cs == [] {
    } else {
      KeptHasLeaves(cs[0]);
      NoValues(m, cs[1..]);
    }
  }

  /** What does not influence a group: true among conjuncts, false among disjuncts. */
  function Neutral(logic: LogicType): Tri
  {
    if logic.LogicAnd? then True else False
  }

  /** A reading of the other leaves under which the tree has the value of leaf x, or its negation. */
  lemma {:induction false} Expose(c: Condition, x: Condition) returns (m: Reading)
    requires Kept(c) && Linear(c) && x in Leaves(c)
    ensures forall v :: ValueOf(Put(m, x, v), c) == if Positive(c, x) then v else Not(v)
    decreases c, 1
  {
    match c
    case Logical(logic, conditions) => m := ExposeIn(conditions, x, logic);
    case Negation(inner) => m := Expose(inner, x);
    case _ => m := y => True;
  }

  lemma {:induction false} ExposeIn(cs: seq<Condition>, x: Condition, logic: LogicType) returns (m: Reading)
    requires LinearList(cs) && x in LeavesOf(cs)
    ensures forall v :: Fold(logic, ValuesOf(Put(m, x, v), cs)) == if PositiveIn(cs, x) then v else Not(v)
    decreases cs, 0
  {
    KeptHasLeaves(cs[0]);
    if x in Leaves(cs[0]) {
      var first := Expose(cs[0], x);
      var rest := ForceList(cs[1..], Neutral(logic), logic);
      m := Both(first, rest, Leaves(cs[0]));
      forall v ensures Fold(logic, ValuesOf(Put(m, x, v), cs)) == if PositiveIn(cs, x) then v else Not(v) {
        ExposedFirst(cs, x, logic, first, rest, v);
      }
    } else {
      var rest := ExposeIn(cs[1..], x, logic);
      if Kept(cs[0]) {
        var first := Force(cs[0], Neutral(logic));
        m := Both(first, rest, Leaves(cs[0]));
        forall v ensures Fold(logic, ValuesOf(Put(m, x, v), cs)) == if PositiveIn(cs, x) then v else Not(v) {
          ExposedLater(cs, x, logic, first, rest, v);
        }
      } else {
        m := rest;
        forall v ensures Fold(logic, ValuesOf(Put(m, x, v), cs)) == if PositiveIn(cs, x) then v else Not(v) {
          FoldStep(Put(m, x, v), cs, logic);
        }
      }
    }
  }

  lemma {:induction false} ExposedFirst(cs: seq<Condition>, x: Condition, logic: LogicType, first: Reading,
      rest: Reading, v: Tri)
    requires LinearList(cs) && cs != [] && x in Leaves(cs[0]) && Kept(cs[0])
    requires ValueOf(Put(first, x, v), cs[0]) == if Positive(cs[0], x) then v else Not(v)
    requires LeavesOf(cs[1..]) != {} ==> Fold(logic, ValuesOf(rest, cs[1..])) == Neutral(logic)
    ensures Fold(logic, ValuesOf(Put(Both(first, rest, Leaves(cs[0])), x, v), cs)) == if PositiveIn(cs, x) then v
      else Not(v)
  {
    var m := Put(Both(first, rest, Leaves(cs[0])), x, v);
    Local(m, Put(first, x, v), cs[0]);
    LocalList(m, rest, cs[1..]);
    FoldStep(m, cs, logic);
    if LeavesOf(cs[1..]) == {} { NoValues(m, cs[1..]); }
  }

  lemma {:induction false} ExposedLater(cs: seq<Condition>, x: Condition, logic: LogicType, first: Reading,
      rest: Reading, v: Tri)
    requires LinearList(cs) && cs != [] && x !in Leaves(cs[0]) && Kept(cs[0]) && ValueOf(first, cs[0]) == Neutral(logic)
    requires Fold(logic, ValuesOf(Put(rest, x, v), cs[1..])) == if PositiveIn(cs[1..], x) then v else Not(v)
    ensures Fold(logic, ValuesOf(Put(Both(first, rest, Leaves(cs[0])), x, v), cs)) == if PositiveIn(cs, x) then v
      else Not(v)
  {
    var m := Put(Both(first, rest, Leaves(cs[0])), x, v);
    Local(m, first, cs[0]);
    LocalList(m, Put(rest, x, v), cs[1..]);
    FoldStep(m, cs, logic);
  }

  // -----------------------------------------------------------------------------------------
  // Exactly the differences that cannot show
  // -----------------------------------------------------------------------------------------

  /** Which pairs of values two backends may give each leaf; equal values are always possible. */
  type Differences = Condition -> iset<(Tri, Tri)>

  ghost predicate Within(m: Reading, n: Reading, c: Condition, d: Differences)
  {
    forall x :: x in Leaves(c) ==> (m(x), n(x)) in d(x)
  }

  /** However the leaves differ within d, the same rows are selected. */
  ghost predicate Tolerates(c: Condition, d: Differences)
  {
    forall m: Reading, n: Reading :: Within(m, n, c, d) ==> (ValueOf(m, c) == True <==> ValueOf(n, c) == True)
  }

  /** Positive leaves differ between false and unknown at most, negative ones between true and unknown. */
  ghost predicate Harmless(c: Condition, d: Differences)
  {
    forall x, a, b :: x in Leaves(c) && (a, b) in d(x) ==> Alike(Positive(c, x), a, b)
  }

  lemma {:induction false} HarmfulShows(c: Condition, d: Differences, x: Condition, a: Tri, b: Tri)
    requires Kept(c) && Linear(c) && x in Leaves(c) && (a, b) in d(x) && !Alike(Positive(c, x), a, b)
    requires forall y, v :: (v, v) in d(y)
    ensures !Tolerates(c, d)
  {
    var m := Expose(c, x);
    var p, q := Put(m, x, a), Put(m, x, b);
    assert Within(p, q, c, d);
    assert ValueOf(p, c) == (if Positive(c, x) then a else Not(a)) && ValueOf(q, c) == if Positive(c, x) then b
      else Not(b);
  }

  /** In a tree without a repeated leaf the differences that selection tolerates are exactly the harmless ones. */
  lemma {:induction false} ToleratesIffHarmless(c: Condition, d: Differences)
    requires Kept(c) && Linear(c) && forall y, v :: (v, v) in d(y)
    ensures Tolerates(c, d) <==> Harmless(c, d)
  {
    if Harmless(c, d) {
      forall m: Reading, n: Reading | Within(m, n, c, d) ensures ValueOf(m, c) == True <==> ValueOf(n, c) == True {
        ReadingsAlike(m, n, c, true);
      }
    } else {
      var x, a, b :| x in Leaves(c) && (a, b) in d(x) && !Alike(Positive(c, x), a, b);
      HarmfulShows(c, d, x, a, b);
    }
  }
}

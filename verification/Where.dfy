/** The condition tree of the where package and the meaning it has for a caller. */
module Where {
  import opened Logic3

  datatype Operator =
    | Eq | Ne | Gt | Gte | Lt | Lte
    | In | NotIn
    | IsNil | IsNotNil
    | Contains | ContainsAny | ContainsAll
    | RegExp | HasKey
    | StartsWith | EndsWith | StringContains

  /** A Go value handed to a builder. `text` is its %v rendering. */
  datatype Value =
    | Nil
    | Scalar(text: string, isString: bool)
    | Composite(text: string)
    | FieldRef(field: string)

  function TextOf(v: Value): string
  {
    match v
    case Nil => "<nil>"
    case Scalar(t, _) => t
    case Composite(t) => t
    case FieldRef(f) => f
  }

  datatype LogicType = LogicAnd | LogicOr

  /** NilCondition is a nil interface value among the conditions. */
  datatype Condition =
    | Field(field: string, op: Operator, value: Value, values: seq<Value>)
    | Logical(logic: LogicType, conditions: seq<Condition>)
    | Negation(inner: Condition)
    | NilCondition

  predicate IsComparison(op: Operator)
  {
    op in {Eq, Ne, Gt, Gte, Lt, Lte}
  }

  /** A field predicate has a value for one row: operator, field and operands decide it. */
  type LeafMeaning = (string, Operator, seq<Value>) -> Tri

  /** Which field predicates a compiled query keeps: all but two kinds that print as nothing. */
  predicate KeptField(op: Operator, value: Value, values: seq<Value>)
  {
    if value.FieldRef? then IsComparison(op)
    else op == ContainsAll ==> values != []
  }

  /** A tree is kept unless every leaf below it prints as nothing. */
  predicate Kept(c: Condition)
  {
    match c
    case Field(_, op, value, values) => KeptField(op, value, values)
    case Logical(_, conditions) => exists i :: 0 <= i < |conditions| && Kept(conditions[i])
    case Negation(inner) => Kept(inner)
    case NilCondition => false
  }

  /** The field predicates of a tree, from left to right. */
  function Predicates(c: Condition): seq<Condition>
    decreases c, 1
  {
    match c
    case Field(_, _, _, _) => [c]
    case Logical(_, conditions) => PredicatesOf(conditions)
    case Negation(inner) => Predicates(inner)
    case NilCondition => []
  }

  function PredicatesOf(cs: seq<Condition>): seq<Condition>
    decreases cs, 0
  {
    if cs == [] then [] else Predicates(cs[0]) + PredicatesOf(cs[1..])
  }

  /**
    Two kinds of field predicate print as nothing: a comparison with another field by an operator that does not
    compare, and ContainsAll without values. A tree is kept if some field predicate in it is of neither kind.
   */
  lemma {:induction false} KeptIffSomePredicate(c: Condition)
    ensures Kept(c) <==> exists l | l in Predicates(c) && l.Field? ::
      if l.value.FieldRef? then l.op in {Eq, Ne, Gt, Gte, Lt, Lte} else l.op != ContainsAll || l.values != []
    decreases c, 1
  {
    match c
    case Field(_, _, _, _) => assert c in Predicates(c);
    case Logical(_, conditions) => SomeKeptIffSomePredicate(conditions);
    case Negation(inner) => KeptIffSomePredicate(inner);
    case NilCondition =>
  }

  lemma {:induction false} SomeKeptIffSomePredicate(cs: seq<Condition>)
    ensures (exists i :: 0 <= i < |cs| && Kept(cs[i])) <==> exists l | l in PredicatesOf(cs) && l.Field? ::
      if l.value.FieldRef? then l.op in {Eq, Ne, Gt, Gte, Lt, Lte} else l.op != ContainsAll || l.values != []
    decreases cs, 0
  {
    if cs == [] {
    } else {
      KeptIffSomePredicate(cs[0]);
      SomeKeptIffSomePredicate(cs[1..]);
      if i :| 0 <= i < |cs| && Kept(cs[i]) { assert i > 0 ==> Kept(cs[1..][i - 1]); }
      if i :| 0 <= i < |cs[1..]| && Kept(cs[1..][i]) { assert Kept(cs[i + 1]); }
    }
  }

  /**
    The value of a field predicate. ContainsAny and ContainsAll are the disjunction and the conjunction of
    Contains.
   */
  function FieldMeaning(leaf: LeafMeaning, field: string, op: Operator, value: Value, values: seq<Value>): Tri
  {
    match op
    case In => leaf(field, In, values)
    case NotIn => leaf(field, NotIn, values)
    case IsNil => leaf(field, IsNil, [])
    case IsNotNil => leaf(field, IsNotNil, [])
    case ContainsAny => Any(seq(|values|, i requires 0 <= i < |values| => leaf(field, Contains, [values[i]])))
    case ContainsAll => All(seq(|values|, i requires 0 <= i < |values| => leaf(field, Contains, [values[i]])))
    case _ => leaf(field, op, [value])
  }

  /** The three-valued meaning of a kept tree on one row: connectives over the kept children. */
  function Meaning(leaf: LeafMeaning, c: Condition): Tri
    decreases c, 1
  {
    match c
    case Field(field, op, value, values) =>
      if value.FieldRef? then leaf(field, op, [value]) else FieldMeaning(leaf, field, op, value, values)
    case Logical(LogicAnd, conditions) => All(KeptMeanings(leaf, conditions))
    case Logical(LogicOr, conditions) => Any(KeptMeanings(leaf, conditions))
    case Negation(inner) => Not(Meaning(leaf, inner))
    case NilCondition => Unknown
  }

  function KeptMeanings(leaf: LeafMeaning, cs: seq<Condition>): seq<Tri>
    decreases cs, 0
  {
    if cs == [] then []
    else (if Kept(cs[0]) then [Meaning(leaf, cs[0])] else []) + KeptMeanings(leaf, cs[1..])
  }

  predicate SafeRune(c: char)
  {
    'a' <= c <= 'z' || 'A' <= c <= 'Z' || '0' <= c <= '9' || c == '_' || c == '.'
  }

  /** The characters of a field name that reach a JSON path. */
  function Sanitized(field: string): string
  {
    if field == [] then [] else (if SafeRune(field[0]) then [field[0]] else []) + Sanitized(field[1..])
  }

  /** A path is left alone exactly when it is made of safe characters; what is left always is. */
  lemma {:induction false} SanitizedIsSafe(field: string)
    ensures forall c :: c in Sanitized(field) ==>
      'a' <= c <= 'z' || 'A' <= c <= 'Z' || '0' <= c <= '9' || c == '_' || c == '.'
    ensures |Sanitized(field)| <= |field|
    ensures Sanitized(field) == field <==> forall i :: 0 <= i < |field| ==>
      var c := field[i]; 'a' <= c <= 'z' || 'A' <= c <= 'Z' || '0' <= c <= '9' || c == '_' || c == '.'
  {
    if field == [] {
    } else {
      SanitizedIsSafe(field[1..]);
      assert forall i :: 0 <= i < |field| - 1 ==> field[1..][i] == field[i + 1];
      assert field == [field[0]] + field[1..];
    }
  }

  lemma {:induction false} SanitizedAppend(a: string, b: string)
    ensures Sanitized(a + b) == Sanitized(a) + Sanitized(b)
  {
    if a == [] {
      assert a + b == b;
    } else {
      var first := if SafeRune(a[0]) then [a[0]] else [];
      var s := a + b;
      assert s[0] == a[0] && s[1..] == a[1..] + b;
      SanitizedAppend(a[1..], b);
      Appended(first, Sanitized(a[1..]), Sanitized(b));
    }
  }

  lemma {:induction false} Appended(a: string, b: string, c: string)
    ensures a + b + c == a + (b + c)
  {
  }

  /** Character by character: letters, digits, underscores and dots stay, everything else goes. */
  lemma {:induction false} SanitizedCharacter(before: string, c: char, after: string)
    ensures Sanitized(before + ([c] + after)) == Sanitized(before) + (Sanitized([c]) + Sanitized(after))
    ensures Sanitized([c]) ==
      if 'a' <= c <= 'z' || 'A' <= c <= 'Z' || '0' <= c <= '9' || c == '_' || c == '.' then [c] else []
  {
    SanitizedAppend([c], after);
    SanitizedAppend(before, [c] + after);
    assert [c][1..] == [];
  }

  method SanitizeFieldName(field: string) returns (b: string)
    ensures b == Sanitized(field)
  {
    b := [];
    for i := 0 to |field|
      invariant Sanitized(field) == b + Sanitized(field[i..])
    {
      assert field[i..][1..] == field[i + 1..];
      if SafeRune(field[i]) {
        b := b + [field[i]];
      }
    }
  }
}

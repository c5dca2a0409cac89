/** The compiler from condition trees to WHERE text, for both backends. */
module ConditionSql {
  import opened Where
  import opened SqlGrammar
  import LikePattern

  datatype Dialect = Postgres | Sqlite

  /** Empty tokens are the empty string: the condition printed as nothing. */
  datatype Clause = Clause(tokens: seq<Token>, args: seq<Arg>, next: nat)

  /** The parenthesised clauses of a list of conditions, before they are joined. */
  datatype Group = Group(items: seq<seq<Token>>, args: seq<Arg>, next: nat)

  function Wrap(ts: seq<Token>): seq<Token>
  {
    [LParen] + ts + [RParen]
  }

  /** strings.Join. */
  function Join(items: seq<seq<Token>>, sep: Token): seq<Token>
  {
    if items == [] then []
    else if |items| == 1 then items[0]
    else items[0] + [sep] + Join(items[1..], sep)
  }

  function Hole(numbered: bool, n: nat): Token
  {
    if numbered then Dollar(n) else Question
  }

  function ParamTokens(numbered: bool, k: nat, n: nat): seq<Token>
  {
    if k == 0 then []
    else if k == 1 then [Hole(numbered, n)]
    else [Hole(numbered, n), Comma] + ParamTokens(numbered, k - 1, n + 1)
  }

  function Plain(h: Head, n: nat): Clause
  {
    Clause([Predicate(h)], [], n)
  }

  function WithParam(numbered: bool, h: Head, a: Arg, n: nat): Clause
  {
    Clause([Predicate(h), Hole(numbered, n)], [a], n + 1)
  }

  function WithList(numbered: bool, h: Head, args: seq<Arg>, n: nat): Clause
  {
    Clause([Predicate(h), LParen] + ParamTokens(numbered, |args|, n) + [RParen], args, n + |args|)
  }

  /** One array membership test per value. */
  function ElementTests(numbered: bool, path: string, k: nat, n: nat): seq<seq<Token>>
  {
    if k == 0 then []
    else [[Predicate(ElementOf(path)), Hole(numbered, n)]] + ElementTests(numbered, path, k - 1, n + 1)
  }

  function Args(raw: bool, vs: seq<Value>): seq<Arg>
  {
    seq(|vs|, i requires 0 <= i < |vs| => if raw then Raw(vs[i]) else Bound(vs[i]))
  }

  /** Top-level scalar equality is rewritten to containment so that the GIN index serves it. */
  predicate CanRewriteEqToContainment(field: string, v: Value)
  {
    v.Scalar? && '.' !in field
  }

  /** The type assertion value.(string) with its result ignored. */
  function KeyText(v: Value): string
  {
    if v.Scalar? && v.isString then v.text else ""
  }

  function FieldClause(d: Dialect, numbered: bool, field: string, op: Operator, value: Value, values: seq<Value>,
      n: nat): Clause
  {
    var path := Sanitized(field);
    var pg := d.Postgres?;
    if value.FieldRef? then
      if IsComparison(op) then Plain(RefCompare(op, path, Sanitized(value.field)), n) else Clause([], [], n)
    else
      match op
      case Eq =>
        if pg && CanRewriteEqToContainment(field, value) then WithParam(numbered, DocContains, Doc(field, value), n)
        else WithParam(numbered, Compare(Eq, path), Bound(value), n)
      case Ne => WithParam(numbered, Compare(Ne, path), Bound(value), n)
      case Gt => WithParam(numbered, Compare(Gt, path), Bound(value), n)
      case Gte => WithParam(numbered, Compare(Gte, path), Bound(value), n)
      case Lt => WithParam(numbered, Compare(Lt, path), Bound(value), n)
      case Lte => WithParam(numbered, Compare(Lte, path), Bound(value), n)
      case IsNil => Plain(NullTest(path, false), n)
      case IsNotNil => Plain(NullTest(path, true), n)
      case In => WithList(numbered, InList(path, false), Args(false, values), n)
      case NotIn => WithList(numbered, InList(path, true), Args(false, values), n)
      case Contains => WithParam(numbered, ElementOf(path), if pg then Raw(value) else Bound(value), n)
      case ContainsAny =>
        if pg then
          Clause(Wrap(Join(ElementTests(numbered, path, |values|, n), KwOr)), Args(true, values), n + |values|)
        else WithList(numbered, ElementIn(path), Args(false, values), n)
      case ContainsAll =>
        Clause(Join(ElementTests(numbered, path, |values|, n), KwAnd), Args(pg, values), n + |values|)
      case HasKey =>
        if pg then WithParam(numbered, KeyExists(path), Raw(value), n)
        else Plain(KeyPath(path + "." + Sanitized(KeyText(value))), n)
      case RegExp => WithParam(numbered, RegExpMatch(path), Text(TextOf(value)), n)
      case StartsWith => WithParam(numbered, LikeMatch(path), Text(LikePattern.EscapeLike(TextOf(value)) + "%"), n)
      case EndsWith => WithParam(numbered, LikeMatch(path), Text("%" + LikePattern.EscapeLike(TextOf(value))), n)
      case StringContains =>
        WithParam(numbered, LikeMatch(path), Text("%" + LikePattern.EscapeLike(TextOf(value)) + "%"), n)
  }

  function ConditionClause(d: Dialect, numbered: bool, c: Condition, n: nat): Clause
    decreases c, 1
  {
    match c
    case Field(field, op, value, values) => FieldClause(d, numbered, field, op, value, values, n)
    case Logical(logic, conditions) =>
      var g := ClauseGroup(d, numbered, conditions, n);
      Clause(Join(g.items, if logic == LogicOr then KwOr else KwAnd), g.args, g.next)
    case Negation(inner) =>
      var i := ConditionClause(d, numbered, inner, n);
      if i.tokens == [] then Clause([], [], n) else Clause([KwNot] + Wrap(i.tokens), i.args, i.next)
    case NilCondition => Clause([], [], n)
  }

  /** The loop body of logicalToSQL and of buildWhereClauses: drop what is empty, wrap the rest. */
  function ClauseGroup(d: Dialect, numbered: bool, cs: seq<Condition>, n: nat): Group
    decreases cs, 0
  {
    if cs == [] then Group([], [], n)
    else
      var c := ConditionClause(d, numbered, cs[0], n);
      if c.tokens == [] then ClauseGroup(d, numbered, cs[1..], n)
      else
        var g := ClauseGroup(d, numbered, cs[1..], c.next);
        Group([Wrap(c.tokens)] + g.items, c.args + g.args, g.next)
  }

  // -----------------------------------------------------------------------------------------
  // What is dropped
  // -----------------------------------------------------------------------------------------

  lemma {:induction false} JoinEmpty(items: seq<seq<Token>>, sep: Token)
    requires forall i :: 0 <= i < |items| ==> items[i] != []
    ensures Join(items, sep) == [] <==> items == []
  {
  }

  lemma {:induction false} ElementTestsShape(numbered: bool, path: string, k: nat, n: nat)
    ensures |ElementTests(numbered, path, k, n)| == k
    ensures forall i :: 0 <= i < k ==>
      ElementTests(numbered, path, k, n)[i] == [Predicate(ElementOf(path)), Hole(numbered, n + i)]
  {
    if k > 0 { ElementTestsShape(numbered, path, k - 1, n + 1); }
  }

  /** A condition prints as nothing exactly when no leaf below it is kept; then it takes no argument and no number. */
  lemma {:induction false} EmptyIffDropped(d: Dialect, numbered: bool, c: Condition, n: nat)
    ensures ConditionClause(d, numbered, c, n).tokens == [] <==> !Kept(c)
    ensures !Kept(c) ==> ConditionClause(d, numbered, c, n) == Clause([], [], n)
    decreases c, 1
  {
    match c
    case Field(field, op, value, values) =>
      ElementTestsShape(numbered, Sanitized(field), |values|, n);
      JoinEmpty(ElementTests(numbered, Sanitized(field), |values|, n), KwAnd);
    case Logical(logic, conditions) =>
      GroupDrops(d, numbered, conditions, n);
      JoinEmpty(ClauseGroup(d, numbered, conditions, n).items, if logic == LogicOr then KwOr else KwAnd);
    case Negation(inner) => EmptyIffDropped(d, numbered, inner, n);
    case NilCondition =>
  }

  lemma {:induction false} GroupDrops(d: Dialect, numbered: bool, cs: seq<Condition>, n: nat)
    ensures var g := ClauseGroup(d, numbered, cs, n);
      && (g.items == [] <==> forall i :: 0 <= i < |cs| ==> !Kept(cs[i]))
      && (g.items == [] ==> g == Group([], [], n))
      && (forall i :: 0 <= i < |g.items| ==> g.items[i] != [])
    decreases cs, 0
  {
    if cs == [] {
    } else {
      EmptyIffDropped(d, numbered, cs[0], n);
      GroupDrops(d, numbered, cs[1..], n);
      GroupDrops(d, numbered, cs[1..], ConditionClause(d, numbered, cs[0], n).next);
      assert (forall i :: 0 <= i < |cs| ==> !Kept(cs[i])) <==> !Kept(cs[0]) && forall i :: 0 <= i < |cs[1..]| ==>
        !Kept(cs[1..][i]);
    }
  }
}

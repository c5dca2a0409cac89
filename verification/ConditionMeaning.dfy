/**
  Running a compiled WHERE text computes the meaning of the condition trees it was compiled from.

  `InterpretsField` says, form by form, what a database must compute on one row for one field predicate to mean
  what its operator says, and `Interprets` asks that of the predicates that occur in the trees at hand, no others.
  Everything else - dropped clauses, parentheses, precedence, which argument reaches which placeholder - is proved.
 */
module ConditionMeaning {
  import opened Options
  import opened Logic3
  import opened Where
  import opened SqlGrammar
  import opened ConditionSql
  import opened ConditionParse
  import opened ConditionNumbering
  import L = LikePattern

  function Truth(b: bool): Tri
  {
    if b then True else False
  }

  /** One row as the database sees it: its predicates, and the text and character order behind LIKE. */
  datatype Row = Row(sql: SqlMeaning, text: string -> Option<string>, eq: L.CharEq)
  {
    /** A test on a text column: unknown when the column is NULL. */
    function OnText(path: string, passes: bool): Tri
    {
      if text(path).None? then Unknown else Truth(passes)
    }

    /** The column's text; only read where it is not NULL. */
    function TextAt(path: string): string
    {
      if text(path).None? then "" else text(path).value
    }
  }

  predicate IsPrefix(row: Row, s: string, t: string)
  {
    L.OccursAt(row.eq, s, t, 0)
  }

  predicate IsSuffix(row: Row, s: string, t: string)
  {
    |s| <= |t| && L.OccursAt(row.eq, s, t, |t| - |s|)
  }

  predicate IsSubstring(row: Row, s: string, t: string)
  {
    exists k :: 0 <= k <= |t| && L.OccursAt(row.eq, s, t, k)
  }

  /** LIKE runs the pattern; the three text operators mean prefix, suffix and substring. */
  ghost predicate InterpretsText(row: Row, leaf: LeafMeaning, field: string, op: Operator, v: Value)
  {
    var path, s := Sanitized(field), TextOf(v);
    (forall p: string ::
       row.sql(LikeMatch(path), [Text(p)]) == row.OnText(path, L.Like(row.eq, p, row.TextAt(path)))) &&
    leaf(field, op, [v]) ==
      row.OnText(path, if op.StartsWith? then IsPrefix(row, s, row.TextAt(path))
      else if op.EndsWith? then IsSuffix(row, s, row.TextAt(path))
      else IsSubstring(row, s, row.TextAt(path)))
  }

  /** Membership of one value in an array. */
  ghost predicate InterpretsElement(d: Dialect, row: Row, leaf: LeafMeaning, field: string, v: Value)
  {
    row.sql(ElementOf(Sanitized(field)), [if d.Postgres? then Raw(v) else Bound(v)]) == leaf(field, Contains, [v])
  }

  /** The forms that carry one operand. */
  ghost predicate InterpretsValue(d: Dialect, row: Row, leaf: LeafMeaning, field: string, op: Operator, v: Value)
  {
    var path := Sanitized(field);
    match op
    case Eq =>
      leaf(field, Eq, [v]) ==
        if d.Postgres? && v.Scalar? && '.' !in field then row.sql(DocContains, [Doc(field, v)])
        else row.sql(Compare(Eq, path), [Bound(v)])
    case Contains => InterpretsElement(d, row, leaf, field, v)
    case HasKey =>
      leaf(field, HasKey, [v]) ==
        if d.Postgres? then row.sql(KeyExists(path), [Raw(v)])
        else row.sql(KeyPath(path + "." + Sanitized(if v.Scalar? && v.isString then v.text else "")), [])
    case RegExp => row.sql(RegExpMatch(path), [Text(TextOf(v))]) == leaf(field, RegExp, [v])
    case _ =>
      if op in {StartsWith, EndsWith, StringContains} then InterpretsText(row, leaf, field, op, v)
      else row.sql(Compare(op, path), [Bound(v)]) == leaf(field, op, [v])
  }

  /** What the database computes for one field predicate on the row is what the predicate means there. */
  ghost predicate InterpretsField(
    d: Dialect, row: Row, leaf: LeafMeaning, field: string, op: Operator, value: Value, values: seq<Value>)
  {
    var path := Sanitized(field);
    if value.FieldRef? then
      IsComparison(op) ==> row.sql(RefCompare(op, path, Sanitized(value.field)), []) == leaf(field, op, [value])
    else
      match op
      case IsNil => row.sql(NullTest(path, false), []) == leaf(field, IsNil, [])
      case IsNotNil => row.sql(NullTest(path, true), []) == leaf(field, IsNotNil, [])
      case In => d.Sqlite? || values != [] ==>
        row.sql(InList(path, false), Args(false, values)) == leaf(field, In, values)
      case NotIn => d.Sqlite? || values != [] ==>
        row.sql(InList(path, true), Args(false, values)) == leaf(field, NotIn, values)
      case ContainsAll => forall v :: v in values ==> InterpretsElement(d, row, leaf, field, v)
      case ContainsAny =>
        if d.Postgres? then forall v :: v in values ==> InterpretsElement(d, row, leaf, field, v)
        else row.sql(ElementIn(path), Args(false, values)) == FieldMeaning(leaf, field, ContainsAny, value, values)
      case _ => InterpretsValue(d, row, leaf, field, op, value)
  }

  /** The same for every field predicate of a tree. */
  ghost predicate Interprets(d: Dialect, row: Row, leaf: LeafMeaning, c: Condition)
  {
    match c
    case Field(field, op, value, values) => InterpretsField(d, row, leaf, field, op, value, values)
    case Logical(_, conditions) => forall i :: 0 <= i < |conditions| ==> Interprets(d, row, leaf, conditions[i])
    case Negation(inner) => Interprets(d, row, leaf, inner)
    case NilCondition => true
  }

  ghost predicate InterpretsAll(d: Dialect, row: Row, leaf: LeafMeaning, cs: seq<Condition>)
  {
    forall i :: 0 <= i < |cs| ==> Interprets(d, row, leaf, cs[i])
  }

  /** Arguments n, n+1, ... of the whole statement are the given ones. */
  predicate Holds(all: seq<Arg>, n: nat, part: seq<Arg>)
  {
    1 <= n && n - 1 + |part| <= |all| && all[n - 1..n - 1 + |part|] == part
  }

  lemma {:induction false} ArgsSplit(all: seq<Arg>, n: nat, a: seq<Arg>, b: seq<Arg>)
    requires Holds(all, n, a + b)
    ensures Holds(all, n, a) && Holds(all, n + |a|, b)
  {
    var m := n - 1;
    var part := all[m..m + |a + b|];
    assert part[..|a|] == a && part[|a|..] == b;
    assert all[m..m + |a|] == part[..|a|];
    assert all[m + |a|..m + |a| + |b|] == part[|a|..];
  }

  /** A leaf reads exactly its own arguments. */
  lemma {:induction false} LeafReads(row: Row, all: seq<Arg>, h: Head, n: nat, args: seq<Arg>)
    requires Holds(all, n, args)
    ensures Eval(row.sql, all, Leaf(h, Span(n, |args|))) == row.sql(h, args)
  {
    var ps := Span(n, |args|);
    var read := seq(|ps|, i requires 0 <= i < |ps| => ArgAt(all, ps[i]));
    assert forall i :: 0 <= i < |args| ==> read[i] == all[n - 1..n - 1 + |args|][i];
    assert read == args;
  }

  lemma {:induction false} LeafReads1(row: Row, all: seq<Arg>, h: Head, n: nat, a: Arg)
    requires Holds(all, n, [a])
    ensures Eval(row.sql, all, Leaf(h, [n])) == row.sql(h, [a])
  {
    LeafReads(row, all, h, n, [a]);
    assert Span(n, |[a]|) == [n];
  }

  lemma {:induction false} LeafReads0(row: Row, all: seq<Arg>, h: Head)
    ensures Eval(row.sql, all, Leaf(h, [])) == row.sql(h, [])
  {
    LeafReads(row, all, h, 1, []);
    assert Span(1, 0) == [];
  }

  lemma {:induction false} FoldsEvaluate(sql: SqlMeaning, all: seq<Arg>, ps: seq<Option<Expr>>, ts: seq<Tri>)
    requires |ps| == |ts| > 0
    requires forall i :: 0 <= i < |ps| ==> ps[i].Some? && Eval(sql, all, ps[i].value) == ts[i]
    ensures AndFold(ps).Some? && Eval(sql, all, AndFold(ps).value) == All(ts)
    ensures OrFold(ps).Some? && Eval(sql, all, OrFold(ps).value) == Any(ts)
  {
    if |ps| == 1 {
      assert ts[1..] == [];
    } else {
      FoldsEvaluate(sql, all, ps[1..], ts[1..]);
    }
  }

  lemma {:induction false} ArgOf(all: seq<Arg>, n: nat, part: seq<Arg>, i: nat)
    requires Holds(all, n, part) && i < |part|
    ensures Holds(all, n + i, [part[i]])
  {
    assert part[i] == all[n - 1..n - 1 + |part|][i] == all[n - 1 + i];
    assert all[n + i - 1..n + i] == [part[i]];
  }

  lemma {:induction false} ElementEvaluates(
    d: Dialect, row: Row, leaf: LeafMeaning, all: seq<Arg>, field: string, v: Value, n: nat)
    requires InterpretsElement(d, row, leaf, field, v) && Holds(all, n, [if d.Postgres? then Raw(v) else Bound(v)])
    ensures Eval(row.sql, all, Leaf(ElementOf(Sanitized(field)), [n])) == leaf(field, Contains, [v])
  {
    LeafReads1(row, all, ElementOf(Sanitized(field)), n, if d.Postgres? then Raw(v) else Bound(v));
  }

  lemma {:induction false} ElementsEvaluate(
    d: Dialect, row: Row, leaf: LeafMeaning, all: seq<Arg>, field: string, values: seq<Value>, n: nat)
    requires (forall v :: v in values ==> InterpretsElement(d, row, leaf, field, v)) && values != []
    requires Holds(all, n, Args(d.Postgres?, values))
    ensures var es := ElementExprs(Sanitized(field), |values|, n);
      && AndFold(es).Some? && Eval(row.sql, all, AndFold(es).value) ==
        FieldMeaning(leaf, field, ContainsAll, Nil, values)
      && OrFold(es).Some? && Eval(row.sql, all, OrFold(es).value) == FieldMeaning(leaf, field, ContainsAny, Nil, values)
  {
    var es := ElementExprs(Sanitized(field), |values|, n);
    var ts := seq(|values|, i requires 0 <= i < |values| => leaf(field, Contains, [values[i]]));
    var args := Args(d.Postgres?, values);
    forall i | 0 <= i < |values| ensures es[i].Some? && Eval(row.sql, all, es[i].value) == ts[i] {
      ArgOf(all, n, args, i);
      ElementEvaluates(d, row, leaf, all, field, values[i], n + i);
    }
    FoldsEvaluate(row.sql, all, es, ts);
  }

  /** LIKE with a pattern that passes exactly the texts the operator means. */
  lemma {:induction false} LikeEvaluates(row: Row, leaf: LeafMeaning, field: string, op: Operator, v: Value,
      p: string, passes: bool)
    requires InterpretsText(row, leaf, field, op, v)
    requires L.Like(row.eq, p, row.TextAt(Sanitized(field))) == passes
    requires leaf(field, op, [v]) == row.OnText(Sanitized(field), passes)
    ensures row.sql(LikeMatch(Sanitized(field)), [Text(p)]) == leaf(field, op, [v])
  {
  }

  lemma {:induction false} TextEvaluates(row: Row, leaf: LeafMeaning, field: string, op: Operator, v: Value)
    requires op in {StartsWith, EndsWith, StringContains} && InterpretsText(row, leaf, field, op, v)
    ensures op.StartsWith? ==>
      row.sql(LikeMatch(Sanitized(field)), [Text(L.EscapeLike(TextOf(v)) + "%")]) == leaf(field, op, [v])
    ensures op.EndsWith? ==>
      row.sql(LikeMatch(Sanitized(field)), [Text("%" + L.EscapeLike(TextOf(v)))]) == leaf(field, op, [v])
    ensures op.StringContains? ==>
      row.sql(LikeMatch(Sanitized(field)), [Text("%" + L.EscapeLike(TextOf(v)) + "%")]) == leaf(field, op, [v])
  {
    var text, t := row.TextAt(Sanitized(field)), TextOf(v);
    if op.StartsWith? {
      L.StartsWithPattern(row.eq, t, text);
      LikeEvaluates(row, leaf, field, op, v, L.EscapeLike(t) + "%", IsPrefix(row, t, text));
    } else if op.EndsWith? {
      L.EndsWithPattern(row.eq, t, text);
      LikeEvaluates(row, leaf, field, op, v, "%" + L.EscapeLike(t), IsSuffix(row, t, text));
    } else {
      L.ContainsPattern(row.eq, t, text);
      LikeEvaluates(row, leaf, field, op, v, "%" + L.EscapeLike(t) + "%", IsSubstring(row, t, text));
    }
  }

  /** Operators with one encoded operand. */
  lemma {:induction false} ValueEvaluates(
    d: Dialect, row: Row, leaf: LeafMeaning, all: seq<Arg>, field: string, op: Operator, value: Value, n: nat)
    requires InterpretsValue(d, row, leaf, field, op, value) && !value.FieldRef?
    requires op !in {IsNil, IsNotNil, In, NotIn, ContainsAny, ContainsAll} && !(op.HasKey? && d.Sqlite?)
    requires Holds(all, n, FieldClause(d, true, field, op, value, [], n).args)
    ensures Eval(row.sql, all, FieldExpr(d, field, op, value, [], n).value) == leaf(field, op, [value])
  {
    var e := FieldExpr(d, field, op, value, [], n).value;
    var a := FieldClause(d, true, field, op, value, [], n).args[0];
    LeafReads1(row, all, e.head, n, a);
    if op in {StartsWith, EndsWith, StringContains} {
      TextEvaluates(row, leaf, field, op, value);
    } else {
      assert row.sql(e.head, [a]) == leaf(field, op, [value]);
    }
  }

  /** Predicates without an operand. */
  lemma {:induction false} BareEvaluates(
    d: Dialect, row: Row, leaf: LeafMeaning, all: seq<Arg>, field: string, op: Operator, value: Value,
      values: seq<Value>, n: nat)
    requires InterpretsField(d, row, leaf, field, op, value, values) && KeptField(op, value, values)
    requires value.FieldRef? || op in {IsNil, IsNotNil} || (op.HasKey? && d.Sqlite?)
    ensures FieldExpr(d, field, op, value, values, n).Some?
    ensures Eval(row.sql, all, FieldExpr(d, field, op, value, values, n).value) ==
      Meaning(leaf, Field(field, op, value, values))
  {
    LeafReads0(row, all, FieldExpr(d, field, op, value, values, n).value.head);
  }

  /** Predicates with a parenthesised list. */
  lemma {:induction false} ListEvaluates(
    d: Dialect, row: Row, leaf: LeafMeaning, all: seq<Arg>, field: string, op: Operator, value: Value,
      values: seq<Value>, n: nat)
    requires InterpretsField(d, row, leaf, field, op, value, values) && !value.FieldRef?
    requires op in {In, NotIn} || (op.ContainsAny? && d.Sqlite?)
    requires FieldExpr(d, field, op, value, values, n).Some? && Holds(all, n, Args(false, values))
    ensures Eval(row.sql, all, FieldExpr(d, field, op, value, values, n).value) ==
      Meaning(leaf, Field(field, op, value, values))
  {
    LeafReads(row, all, FieldExpr(d, field, op, value, values, n).value.head, n, Args(false, values));
  }

  lemma {:induction false} FieldEvaluates(
    d: Dialect, row: Row, leaf: LeafMeaning, all: seq<Arg>, field: string, op: Operator, value: Value,
      values: seq<Value>, n: nat)
    requires InterpretsField(d, row, leaf, field, op, value, values) && KeptField(op, value, values)
    requires FieldExpr(d, field, op, value, values, n).Some?
    requires Holds(all, n, FieldClause(d, true, field, op, value, values, n).args)
    ensures Eval(row.sql, all, FieldExpr(d, field, op, value, values, n).value) ==
      Meaning(leaf, Field(field, op, value, values))
  {
    if value.FieldRef? || op in {IsNil, IsNotNil} || (op.HasKey? && d.Sqlite?) {
      BareEvaluates(d, row, leaf, all, field, op, value, values, n);
    } else if op in {In, NotIn} || (op.ContainsAny? && d.Sqlite?) {
      ListEvaluates(d, row, leaf, all, field, op, value, values, n);
    } else if op in {ContainsAny, ContainsAll} {
      ElementsEvaluate(d, row, leaf, all, field, values, n);
    } else {
      ValueEvaluates(d, row, leaf, all, field, op, value, n);
    }
  }

  // -----------------------------------------------------------------------------------------
  // Meaning of trees
  // -----------------------------------------------------------------------------------------

  /** An IN, NOT IN or ContainsAny without values, anywhere in the tree. */
  predicate HasEmptyList(c: Condition)
  {
    match c
    case Field(_, op, value, values) => !value.FieldRef? && op in {In, NotIn, ContainsAny} && values == []
    case Logical(_, conditions) => exists i :: 0 <= i < |conditions| && HasEmptyList(conditions[i])
    case Negation(inner) => HasEmptyList(inner)
    case NilCondition => false
  }

  lemma {:induction false} HasEmptyListIsKept(c: Condition)
    requires HasEmptyList(c)
    ensures Kept(c)
  {
    match c
    case Logical(_, conditions) =>
      var i :| 0 <= i < |conditions| && HasEmptyList(conditions[i]);
      HasEmptyListIsKept(conditions[i]);
    case Negation(inner) => HasEmptyListIsKept(inner);
    case _ =>
  }

  predicate SomeRejected(ps: seq<Option<Expr>>)
  {
    exists i :: 0 <= i < |ps| && ps[i].None?
  }

  predicate AnyEmptyList(cs: seq<Condition>)
  {
    exists i :: 0 <= i < |cs| && HasEmptyList(cs[i])
  }

  lemma {:induction false} FoldsFail(ps: seq<Option<Expr>>)
    requires ps != []
    ensures AndFold(ps).None? <==> SomeRejected(ps)
    ensures OrFold(ps).None? <==> SomeRejected(ps)
  {
    if |ps| <= 1 {
    } else {
      FoldsFail(ps[1..]);
      assert forall i :: 0 <= i < |ps[1..]| ==> ps[1..][i] == ps[i + 1];
      if i :| 0 <= i < |ps| && ps[i].None? {
        assert i > 0 ==> ps[1..][i - 1].None?;
      }
    }
  }

  /** Compilation yields an expression unless PostgreSQL meets an empty list. */
  lemma {:induction false} RejectedIffEmptyList(d: Dialect, c: Condition, n: nat)
    requires Kept(c)
    ensures ConditionExpr(d, c, n).None? <==> d.Postgres? && HasEmptyList(c)
    decreases c, 1
  {
    match c
    case Field(field, op, value, values) =>
      if !value.FieldRef? && (op.ContainsAny? || op.ContainsAll?) && values != [] {
        FoldsFail(ElementExprs(Sanitized(field), |values|, n));
      }
    case Logical(logic, conditions) =>
      GroupRejectedIffEmptyList(d, conditions, n);
      SomeExprIffKept(d, conditions, n);
      FoldsFail(KeptExprs(d, conditions, n));
    case Negation(inner) => RejectedIffEmptyList(d, inner, n);
  }

  lemma {:induction false} AnyEmptyCons(cs: seq<Condition>)
    requires cs != []
    ensures AnyEmptyList(cs) <==> HasEmptyList(cs[0]) || AnyEmptyList(cs[1..])
  {
    if i :| 0 <= i < |cs| && HasEmptyList(cs[i]) { assert i > 0 ==> HasEmptyList(cs[1..][i - 1]); }
    if i :| 0 <= i < |cs[1..]| && HasEmptyList(cs[1..][i]) { assert HasEmptyList(cs[i + 1]); }
  }

  lemma {:induction false} GroupRejectedIffEmptyList(d: Dialect, cs: seq<Condition>, n: nat)
    ensures SomeRejected(KeptExprs(d, cs, n)) <==> d.Postgres? && AnyEmptyList(cs)
    decreases cs, 0
  {
    if cs == [] {
    } else {
      AnyEmptyCons(cs);
      if !Kept(cs[0]) {
        if HasEmptyList(cs[0]) { HasEmptyListIsKept(cs[0]); }
        GroupRejectedIffEmptyList(d, cs[1..], n);
      } else {
        RejectedIffEmptyList(d, cs[0], n);
        var next := ConditionClause(d, true, cs[0], n).next;
        GroupRejectedIffEmptyList(d, cs[1..], next);
        RejectedCons(ConditionExpr(d, cs[0], n), KeptExprs(d, cs[1..], next));
      }
    }
  }

  /** Evaluating the expression of a tree against the bound arguments gives its meaning. */
  lemma {:induction false} ConditionEvaluates(d: Dialect, row: Row, leaf: LeafMeaning, all: seq<Arg>,
      c: Condition, n: nat)
    requires Interprets(d, row, leaf, c) && Kept(c) && ConditionExpr(d, c, n).Some?
    requires Holds(all, n, ConditionClause(d, true, c, n).args)
    ensures Eval(row.sql, all, ConditionExpr(d, c, n).value) == Meaning(leaf, c)
    decreases c, 1
  {
    match c
    case Field(field, op, value, values) => FieldEvaluates(d, row, leaf, all, field, op, value, values, n);
    case Logical(logic, conditions) =>
      SomeExprIffKept(d, conditions, n);
      FoldsFail(KeptExprs(d, conditions, n));
      GroupEvaluates(d, row, leaf, all, conditions, n);
      FoldsEvaluate(row.sql, all, KeptExprs(d, conditions, n), KeptMeanings(leaf, conditions));
    case Negation(inner) =>
      EmptyIffDropped(d, true, inner, n);
      ConditionEvaluates(d, row, leaf, all, inner, n);
  }

  /** A list of expressions evaluates, one by one, to a list of truth values. */
  ghost predicate AllEvaluate(row: Row, all: seq<Arg>, es: seq<Option<Expr>>, ts: seq<Tri>)
  {
    |es| == |ts| && forall i :: 0 <= i < |es| && es[i].Some? ==> Eval(row.sql, all, es[i].value) == ts[i]
  }

  lemma {:induction false} ConsEvaluates(row: Row, all: seq<Arg>, e: Option<Expr>, es: seq<Option<Expr>>, t: Tri,
      ts: seq<Tri>)
    requires AllEvaluate(row, all, es, ts) && (e.Some? ==> Eval(row.sql, all, e.value) == t)
    ensures AllEvaluate(row, all, [e] + es, [t] + ts)
  {
  }

  lemma {:induction false} GroupUnfolds(d: Dialect, leaf: LeafMeaning, cs: seq<Condition>, n: nat)
    requires cs != []
    ensures !Kept(cs[0]) ==> KeptExprs(d, cs, n) == KeptExprs(d, cs[1..], n)
    ensures !Kept(cs[0]) ==> KeptMeanings(leaf, cs) == KeptMeanings(leaf, cs[1..])
    ensures !Kept(cs[0]) ==> ClauseGroup(d, true, cs, n).args == ClauseGroup(d, true, cs[1..], n).args
    ensures Kept(cs[0]) ==> var c := ConditionClause(d, true, cs[0], n);
      KeptExprs(d, cs, n) == [ConditionExpr(d, cs[0], n)] + KeptExprs(d, cs[1..], c.next) &&
      KeptMeanings(leaf, cs) == [Meaning(leaf, cs[0])] + KeptMeanings(leaf, cs[1..]) &&
      ClauseGroup(d, true, cs, n).args == c.args + ClauseGroup(d, true, cs[1..], c.next).args
  {
    EmptyIffDropped(d, true, cs[0], n);
  }

  /** The first kept condition of a list, and where the rest find their arguments. */
  lemma {:induction false} HeadEvaluates(d: Dialect, row: Row, leaf: LeafMeaning, all: seq<Arg>, c: Condition,
      n: nat, rest: seq<Arg>)
    requires Interprets(d, row, leaf, c) && Kept(c) && ConditionExpr(d, c, n).Some?
    requires Holds(all, n, ConditionClause(d, true, c, n).args + rest)
    ensures Eval(row.sql, all, ConditionExpr(d, c, n).value) == Meaning(leaf, c)
    ensures Holds(all, ConditionClause(d, true, c, n).next, rest)
    decreases c, 2
  {
    RestHolds(d, all, c, n, rest);
    ConditionEvaluates(d, row, leaf, all, c, n);
  }

  lemma {:induction false} RestHolds(d: Dialect, all: seq<Arg>, c: Condition, n: nat, rest: seq<Arg>)
    requires Holds(all, n, ConditionClause(d, true, c, n).args + rest)
    ensures Holds(all, n, ConditionClause(d, true, c, n).args) && Holds(all, ConditionClause(d, true, c, n).next, rest)
  {
    PlaceholdersAreConsecutive(d, c, n);
    ArgsSplit(all, n, ConditionClause(d, true, c, n).args, rest);
  }

  lemma {:induction false} GroupEvaluates(d: Dialect, row: Row, leaf: LeafMeaning, all: seq<Arg>,
      cs: seq<Condition>, n: nat)
    requires InterpretsAll(d, row, leaf, cs) && !SomeRejected(KeptExprs(d, cs, n))
    requires Holds(all, n, ClauseGroup(d, true, cs, n).args)
    ensures AllEvaluate(row, all, KeptExprs(d, cs, n), KeptMeanings(leaf, cs))
    decreases cs, 0
  {
    if cs == [] {
    } else {
      GroupUnfolds(d, leaf, cs, n);
      if !Kept(cs[0]) {
        GroupEvaluates(d, row, leaf, all, cs[1..], n);
      } else {
        var e, next := ConditionExpr(d, cs[0], n), ConditionClause(d, true, cs[0], n).next;
        var tail := KeptExprs(d, cs[1..], next);
        RejectedCons(e, tail);
        HeadEvaluates(d, row, leaf, all, cs[0], n, ClauseGroup(d, true, cs[1..], next).args);
        GroupEvaluates(d, row, leaf, all, cs[1..], next);
        ConsEvaluates(row, all, e, tail, Meaning(leaf, cs[0]), KeptMeanings(leaf, cs[1..]));
      }
    }
  }

  lemma {:induction false} RejectedCons(e: Option<Expr>, es: seq<Option<Expr>>)
    ensures SomeRejected([e] + es) <==> e.None? || SomeRejected(es)
  {
    var all := [e] + es;
    assert all[0] == e && forall i :: 0 <= i < |es| ==> all[i + 1] == es[i];
    if SomeRejected(all) && e.Some? {
      var i :| 0 <= i < |all| && all[i].None?;
      assert es[i - 1].None?;
    }
  }
}

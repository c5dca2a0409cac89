/** The text of a condition parses back to the expression the condition stands for. */
module ConditionParse {
  import opened Options
  import opened Where
  import opened SqlGrammar
  import opened ConditionSql

  /** The expression behind a numbered clause, or None where PostgreSQL rejects an empty list. */
  function AndFold(ps: seq<Option<Expr>>): Option<Expr>
    requires ps != []
  {
    if |ps| == 1 then ps[0]
    else
      var tail := AndFold(ps[1..]);
      if ps[0].None? || tail.None? then None else Some(AndE(ps[0].value, tail.value))
  }

  function OrFold(ps: seq<Option<Expr>>): Option<Expr>
    requires ps != []
  {
    if |ps| == 1 then ps[0]
    else
      var tail := OrFold(ps[1..]);
      if ps[0].None? || tail.None? then None else Some(OrE(ps[0].value, tail.value))
  }

  function Span(n: nat, k: nat): seq<nat>
  {
    seq(k, i requires 0 <= i < k => n + i)
  }

  function ElementExprs(path: string, k: nat, n: nat): seq<Option<Expr>>
  {
    seq(k, i requires 0 <= i < k => Some(Leaf(ElementOf(path), [n + i])))
  }

  function ListExpr(d: Dialect, h: Head, k: nat, n: nat): Option<Expr>
  {
    if d.Postgres? && k == 0 then None else Some(Leaf(h, Span(n, k)))
  }

  function FieldExpr(d: Dialect, field: string, op: Operator, value: Value, values: seq<Value>, n: nat): Option<Expr>
    requires KeptField(op, value, values)
  {
    var path := Sanitized(field);
    if value.FieldRef? then Some(Leaf(RefCompare(op, path, Sanitized(value.field)), []))
    else
      match op
      case IsNil => Some(Leaf(NullTest(path, false), []))
      case IsNotNil => Some(Leaf(NullTest(path, true), []))
      case In => ListExpr(d, InList(path, false), |values|, n)
      case NotIn => ListExpr(d, InList(path, true), |values|, n)
      case ContainsAny =>
        if d.Sqlite? then ListExpr(d, ElementIn(path), |values|, n)
        else if values == [] then None else OrFold(ElementExprs(path, |values|, n))
      case ContainsAll => AndFold(ElementExprs(path, |values|, n))
      case Eq =>
        Some(Leaf(if d.Postgres? && CanRewriteEqToContainment(field, value) then DocContains
          else Compare(Eq, path), [n]))
      case Contains => Some(Leaf(ElementOf(path), [n]))
      case HasKey =>
        Some(if d.Postgres? then Leaf(KeyExists(path), [n])
             else Leaf(KeyPath(path + "." + Sanitized(KeyText(value))), []))
      case RegExp => Some(Leaf(RegExpMatch(path), [n]))
      case StartsWith => Some(Leaf(LikeMatch(path), [n]))
      case EndsWith => Some(Leaf(LikeMatch(path), [n]))
      case StringContains => Some(Leaf(LikeMatch(path), [n]))
      case _ => Some(Leaf(Compare(op, path), [n]))
  }

  function ConditionExpr(d: Dialect, c: Condition, n: nat): Option<Expr>
    requires Kept(c)
    decreases c, 1
  {
    match c
    case Field(field, op, value, values) => FieldExpr(d, field, op, value, values, n)
    case Logical(logic, conditions) =>
      var es := KeptExprs(d, conditions, n);
      if es == [] then None else if logic == LogicOr then OrFold(es) else AndFold(es)
    case Negation(inner) =>
      var e := ConditionExpr(d, inner, n);
      if e.None? then None else Some(NotE(e.value))
  }

  function KeptExprs(d: Dialect, cs: seq<Condition>, n: nat): seq<Option<Expr>>
    decreases cs, 0
  {
    if cs == [] then []
    else if !Kept(cs[0]) then KeptExprs(d, cs[1..], n)
    else [ConditionExpr(d, cs[0], n)] + KeptExprs(d, cs[1..], ConditionClause(d, true, cs[0], n).next)
  }

  lemma {:induction false} SomeExprIffKept(d: Dialect, cs: seq<Condition>, n: nat)
    ensures KeptExprs(d, cs, n) != [] <==> exists i :: 0 <= i < |cs| && Kept(cs[i])
  {
    if cs != [] && !Kept(cs[0]) {
      SomeExprIffKept(d, cs[1..], n);
      if i :| 0 <= i < |cs| && Kept(cs[i]) { assert Kept(cs[1..][i - 1]); }
      if i :| 0 <= i < |cs[1..]| && Kept(cs[1..][i]) { assert Kept(cs[i + 1]); }
    }
  }

  function Lift(p: Option<Expr>, rest: seq<Token>): Parsed<Expr>
  {
    if p.None? then Fail else Done(p.value, rest)
  }

  /** Only SQLite reads an empty IN list. */
  predicate ReadsEmptyList(d: Dialect)
  {
    d.Sqlite?
  }

  /** An item that parses, or fails to parse, at NOT level whatever follows it. */
  ghost predicate IsUnit(empty: bool, item: seq<Token>, p: Option<Expr>)
  {
    item != [] && forall r :: ParseNot(empty, item + r) == Lift(p, r)
  }

  /** Text that ends a clause: nothing more, or the parenthesis around it. */
  predicate Stop(r: seq<Token>)
  {
    r == [] || r[0].RParen?
  }

  lemma {:induction false} UnitAt(empty: bool, item: seq<Token>, p: Option<Expr>, r: seq<Token>)
    requires IsUnit(empty, item, p)
    ensures ParseNot(empty, item + r) == Lift(p, r)
  {
  }

  lemma {:induction false} AndStep(empty: bool, ts: seq<Token>, p: Option<Expr>, rest: seq<Token>)
    requires ParseNot(empty, ts) == Lift(p, rest)
    ensures rest == [] || !rest[0].KwAnd? ==> ParseAnd(empty, ts) == Lift(p, rest)
    ensures rest != [] && rest[0].KwAnd? && p.None? ==> ParseAnd(empty, ts) == Fail
    ensures rest != [] && rest[0].KwAnd? && p.Some? ==>
      var t := ParseAnd(empty, rest[1..]);
      ParseAnd(empty, ts) == if t.Fail? then Fail else Done(AndE(p.value, t.value), t.rest)
  {
  }

  lemma {:induction false} OrStep(empty: bool, ts: seq<Token>, p: Option<Expr>, rest: seq<Token>)
    requires ParseNot(empty, ts) == Lift(p, rest)
    requires Stop(rest) || rest[0].KwOr?
    ensures Stop(rest) ==> ParseOr(empty, ts) == Lift(p, rest)
    ensures !Stop(rest) && p.None? ==> ParseOr(empty, ts) == Fail
    ensures !Stop(rest) && p.Some? ==>
      var t := ParseOr(empty, rest[1..]);
      ParseOr(empty, ts) == if t.Fail? then Fail else Done(OrE(p.value, t.value), t.rest)
  {
    AndStep(empty, ts, p, rest);
  }

  lemma {:induction false} ParseJoinedAnd(empty: bool, items: seq<seq<Token>>, ps: seq<Option<Expr>>, rest: seq<Token>)
    requires |items| == |ps| > 0
    requires forall i :: 0 <= i < |ps| ==> IsUnit(empty, items[i], ps[i])
    requires rest == [] || !rest[0].KwAnd?
    ensures ParseAnd(empty, Join(items, KwAnd) + rest) == Lift(AndFold(ps), rest)
  {
    if |items| == 1 {
      UnitAt(empty, items[0], ps[0], rest);
      AndStep(empty, items[0] + rest, ps[0], rest);
    } else {
      var tail := [KwAnd] + (Join(items[1..], KwAnd) + rest);
      assert Join(items, KwAnd) + rest == items[0] + tail;
      assert tail[1..] == Join(items[1..], KwAnd) + rest;
      UnitAt(empty, items[0], ps[0], tail);
      AndStep(empty, items[0] + tail, ps[0], tail);
      ParseJoinedAnd(empty, items[1..], ps[1..], rest);
    }
  }

  lemma {:induction false} ParseJoinedOr(empty: bool, items: seq<seq<Token>>, ps: seq<Option<Expr>>, rest: seq<Token>)
    requires |items| == |ps| > 0
    requires forall i :: 0 <= i < |ps| ==> IsUnit(empty, items[i], ps[i])
    requires Stop(rest)
    ensures ParseOr(empty, Join(items, KwOr) + rest) == Lift(OrFold(ps), rest)
  {
    if |items| == 1 {
      UnitAt(empty, items[0], ps[0], rest);
      OrStep(empty, items[0] + rest, ps[0], rest);
    } else {
      var tail := [KwOr] + (Join(items[1..], KwOr) + rest);
      assert Join(items, KwOr) + rest == items[0] + tail;
      assert tail[1..] == Join(items[1..], KwOr) + rest;
      UnitAt(empty, items[0], ps[0], tail);
      OrStep(empty, items[0] + tail, ps[0], tail);
      ParseJoinedOr(empty, items[1..], ps[1..], rest);
    }
  }

  /** What parses as a whole becomes a unit inside parentheses. */
  lemma {:induction false} WrappedIsUnit(empty: bool, ts: seq<Token>, p: Option<Expr>)
    requires forall r | Stop(r) :: ParseOr(empty, ts + r) == Lift(p, r)
    ensures IsUnit(empty, Wrap(ts), p)
  {
    forall r ensures ParseNot(empty, Wrap(ts) + r) == Lift(p, r) {
      var inner := [RParen] + r;
      assert Stop(inner);
      assert (Wrap(ts) + r)[1..] == ts + inner;
      assert inner[1..] == r;
    }
  }

  lemma {:induction false} UnitParses(empty: bool, ts: seq<Token>, p: Option<Expr>, r: seq<Token>)
    requires IsUnit(empty, ts, p) && Stop(r)
    ensures ParseOr(empty, ts + r) == Lift(p, r)
  {
  }

  lemma {:induction false} ParseParamTokens(k: nat, n: nat, r: seq<Token>)
    requires k > 0
    ensures ParseParams1(ParamTokens(true, k, n) + [RParen] + r) == Done(Span(n, k), r)
  {
    var ts := ParamTokens(true, k, n) + [RParen] + r;
    if k == 1 {
      assert ts == [Dollar(n), RParen] + r && ts[2..] == r;
      assert Span(n, 1) == [n];
    } else {
      ParseParamTokens(k - 1, n + 1, r);
      assert ts[2..] == ParamTokens(true, k - 1, n + 1) + [RParen] + r;
      assert Span(n, k) == [n] + Span(n + 1, k - 1);
    }
  }

  lemma {:induction false} ListIsUnit(d: Dialect, h: Head, k: nat, n: nat)
    requires ArityOf(h) == ParamList
    ensures IsUnit(ReadsEmptyList(d), [Predicate(h), LParen] + ParamTokens(true, k, n) + [RParen], ListExpr(d, h, k, n))
  {
    var item := [Predicate(h), LParen] + ParamTokens(true, k, n) + [RParen];
    forall r ensures ParseNot(ReadsEmptyList(d), item + r) == Lift(ListExpr(d, h, k, n), r) {
      var tail := ParamTokens(true, k, n) + [RParen] + r;
      assert (item + r)[2..] == tail;
      if k == 0 {
        assert tail == [RParen] + r && tail[1..] == r;
        assert Span(n, 0) == [];
      } else {
        ParseParamTokens(k, n, r);
      }
    }
  }

  lemma {:induction false} PlainIsUnit(empty: bool, h: Head)
    requires ArityOf(h) == NoParam
    ensures IsUnit(empty, [Predicate(h)], Some(Leaf(h, [])))
  {
    forall r ensures ParseNot(empty, [Predicate(h)] + r) == Done(Leaf(h, []), r) {
      assert ([Predicate(h)] + r)[1..] == r;
    }
  }

  lemma {:induction false} ParamIsUnit(empty: bool, h: Head, n: nat)
    requires ArityOf(h) == OneParam
    ensures IsUnit(empty, [Predicate(h), Dollar(n)], Some(Leaf(h, [n])))
  {
    forall r ensures ParseNot(empty, [Predicate(h), Dollar(n)] + r) == Done(Leaf(h, [n]), r) {
      assert ([Predicate(h), Dollar(n)] + r)[2..] == r;
    }
  }

  lemma {:induction false} ElementsAreUnits(empty: bool, path: string, k: nat, n: nat)
    ensures var items := ElementTests(true, path, k, n);
      |items| == k && forall i :: 0 <= i < k ==> IsUnit(empty, items[i], ElementExprs(path, k, n)[i])
  {
    ElementTestsShape(true, path, k, n);
    forall i | 0 <= i < k ensures IsUnit(empty, ElementTests(true, path, k, n)[i], ElementExprs(path, k, n)[i]) {
      ParamIsUnit(empty, ElementOf(path), n + i);
    }
  }

  lemma {:induction false} FieldParses(d: Dialect, field: string, op: Operator, value: Value, values: seq<Value>,
      n: nat, r: seq<Token>)
    requires KeptField(op, value, values) && Stop(r)
    ensures ParseOr(ReadsEmptyList(d), FieldClause(d, true, field, op, value, values, n).tokens + r)
         == Lift(FieldExpr(d, field, op, value, values, n), r)
  {
    var ts := FieldClause(d, true, field, op, value, values, n).tokens;
    var e := FieldExpr(d, field, op, value, values, n);
    var empty := ReadsEmptyList(d);
    var path := Sanitized(field);
    if value.FieldRef? || op.IsNil? || op.IsNotNil? || (op.HasKey? && d.Sqlite?) {
      PlainIsUnit(empty, ts[0].head);
      UnitParses(empty, ts, e, r);
    } else if op.In? || op.NotIn? || (op.ContainsAny? && d.Sqlite?) {
      ListIsUnit(d, ts[0].head, |values|, n);
      UnitParses(empty, ts, e, r);
    } else if op.ContainsAny? {
      AnyOfElementsParses(path, |values|, n);
      UnitParses(empty, ts, e, r);
    } else if op.ContainsAll? {
      ElementsAreUnits(empty, path, |values|, n);
      ParseJoinedAnd(empty, ElementTests(true, path, |values|, n), ElementExprs(path, |values|, n), r);
    } else {
      ParamIsUnit(empty, ts[0].head, n);
      UnitParses(empty, ts, e, r);
    }
  }

  /** PostgreSQL's ContainsAny is a parenthesised disjunction, and a syntax error when there is nothing to join. */
  lemma {:induction false} AnyOfElementsParses(path: string, k: nat, n: nat)
    ensures IsUnit(false, Wrap(Join(ElementTests(true, path, k, n), KwOr)), if k == 0 then None
      else OrFold(ElementExprs(path, k, n)))
  {
    var ts := Join(ElementTests(true, path, k, n), KwOr);
    var p := if k == 0 then None else OrFold(ElementExprs(path, k, n));
    ElementsAreUnits(false, path, k, n);
    forall r | Stop(r) ensures ParseOr(false, ts + r) == Lift(p, r) {
      if k == 0 {
        assert ts + r == r;
        assert ParsePrimary(false, r) == Fail && ParseNot(false, r) == Fail && ParseAnd(false, r) == Fail;
      } else {
        ParseJoinedOr(false, ElementTests(true, path, k, n), ElementExprs(path, k, n), r);
      }
    }
    WrappedIsUnit(false, ts, p);
  }

  /**
    Parsing a numbered clause, followed by what may follow it, yields its expression or the syntax error it
    contains.
   */
  lemma {:induction false} ClauseParses(d: Dialect, c: Condition, n: nat, r: seq<Token>)
    requires Kept(c) && Stop(r)
    ensures ParseOr(ReadsEmptyList(d), ConditionClause(d, true, c, n).tokens + r) == Lift(ConditionExpr(d, c, n), r)
    decreases c, 1
  {
    var empty := ReadsEmptyList(d);
    match c
    case Field(field, op, value, values) => FieldParses(d, field, op, value, values, n, r);
    case Logical(logic, conditions) =>
      GroupParses(d, conditions, n);
      var items := ClauseGroup(d, true, conditions, n).items;
      if logic == LogicOr {
        SomeExprIffKept(d, conditions, n);
        ParseJoinedOr(empty, items, KeptExprs(d, conditions, n), r);
      } else {
        SomeExprIffKept(d, conditions, n);
        ParseJoinedAnd(empty, items, KeptExprs(d, conditions, n), r);
      }
    case Negation(inner) =>
      EmptyIffDropped(d, true, inner, n);
      var ts := ConditionClause(d, true, inner, n).tokens;
      var e := ConditionExpr(d, inner, n);
      forall q | Stop(q) ensures ParseOr(empty, ts + q) == Lift(e, q) { ClauseParses(d, inner, n, q); }
      WrappedIsUnit(empty, ts, e);
      var all := [KwNot] + Wrap(ts) + r;
      assert all[1..] == Wrap(ts) + r;
      UnitAt(empty, Wrap(ts), e, r);
      OrStep(empty, all, ConditionExpr(d, c, n), r);
  }

  lemma {:induction false} GroupParses(d: Dialect, cs: seq<Condition>, n: nat)
    ensures var items, es := ClauseGroup(d, true, cs, n).items, KeptExprs(d, cs, n);
      |items| == |es| && forall i :: 0 <= i < |es| ==> IsUnit(ReadsEmptyList(d), items[i], es[i])
    decreases cs, 0
  {
    if cs == [] {
    } else {
      EmptyIffDropped(d, true, cs[0], n);
      if !Kept(cs[0]) {
        GroupParses(d, cs[1..], n);
      } else {
        var c := ConditionClause(d, true, cs[0], n);
        GroupParses(d, cs[1..], c.next);
        forall q | Stop(q) ensures ParseOr(ReadsEmptyList(d), c.tokens + q) == Lift(ConditionExpr(d, cs[0], n), q) {
          ClauseParses(d, cs[0], n, q);
        }
        WrappedIsUnit(ReadsEmptyList(d), c.tokens, ConditionExpr(d, cs[0], n));
      }
    }
  }
}

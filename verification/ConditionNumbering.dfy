/** Placeholders: PostgreSQL's numbers are consecutive, and SQLite's anonymous ones number to the same text. */
module ConditionNumbering {
  import opened Where
  import opened SqlGrammar
  import opened ConditionSql
  import opened ConditionParse

  /** The six shapes a field predicate prints as. */
  datatype Shape =
    | Nothing
    | Bare(h: Head)
    | One(h: Head, a: Arg)
    | Many(h: Head, args: seq<Arg>)
    | AnyElement(path: string, args: seq<Arg>)
    | AllElements(path: string, args: seq<Arg>)

  function Render(s: Shape, numbered: bool, n: nat): Clause
  {
    match s
    case Nothing => Clause([], [], n)
    case Bare(h) => Plain(h, n)
    case One(h, a) => WithParam(numbered, h, a, n)
    case Many(h, args) => WithList(numbered, h, args, n)
    case AnyElement(path, args) => Clause(Wrap(Join(ElementTests(numbered, path, |args|, n), KwOr)), args, n + |args|)
    case AllElements(path, args) => Clause(Join(ElementTests(numbered, path, |args|, n), KwAnd), args, n + |args|)
  }

  ghost function ShapeOf(d: Dialect, field: string, op: Operator, value: Value, values: seq<Value>, n: nat): (s: Shape)
    ensures FieldClause(d, true, field, op, value, values, n) == Render(s, true, n)
    ensures FieldClause(d, false, field, op, value, values, n) == Render(s, false, n)
  {
    var c := FieldClause(d, true, field, op, value, values, n);
    var path := Sanitized(field);
    if value.FieldRef? then (if IsComparison(op) then Bare(c.tokens[0].head) else Nothing)
    else
      match op
      case IsNil => Bare(c.tokens[0].head)
      case IsNotNil => Bare(c.tokens[0].head)
      case HasKey => if d.Postgres? then One(c.tokens[0].head, c.args[0]) else Bare(c.tokens[0].head)
      case In => Many(c.tokens[0].head, c.args)
      case NotIn => Many(c.tokens[0].head, c.args)
      case ContainsAny => if d.Postgres? then AnyElement(path, c.args) else Many(c.tokens[0].head, c.args)
      case ContainsAll => AllElements(path, c.args)
      case _ => One(c.tokens[0].head, c.args[0])
  }

  // -----------------------------------------------------------------------------------------
  // Placeholder numbers
  // -----------------------------------------------------------------------------------------

  /** The $n of a text from left to right. */
  function Dollars(ts: seq<Token>): seq<nat>
  {
    if ts == [] then [] else (if ts[0].Dollar? then [ts[0].n] else []) + Dollars(ts[1..])
  }

  lemma {:induction false} ConcatAssoc<T>(a: seq<T>, b: seq<T>, c: seq<T>)
    ensures a + (b + c) == a + b + c
  {
  }

  lemma {:induction false} DollarsAppend(a: seq<Token>, b: seq<Token>)
    ensures Dollars(a + b) == Dollars(a) + Dollars(b)
  {
    if a == [] {
      assert a + b == b;
    } else {
      var own := if a[0].Dollar? then [a[0].n] else [];
      assert (a + b)[0] == a[0] && (a + b)[1..] == a[1..] + b;
      DollarsAppend(a[1..], b);
      assert Dollars(a) == own + Dollars(a[1..]) && Dollars(a + b) == own + Dollars(a[1..] + b);
      ConcatAssoc(own, Dollars(a[1..]), Dollars(b));
    }
  }

  lemma {:induction false} DollarsOne(t: Token)
    ensures Dollars([t]) == if t.Dollar? then [t.n] else []
  {
    assert [t][1..] == [];
  }

  lemma {:induction false} SpanAppend(n: nat, j: nat, k: nat)
    ensures Span(n, j) + Span(n + j, k) == Span(n, j + k)
  {
  }

  lemma {:induction false} ParamDollars(k: nat, n: nat)
    ensures Dollars(ParamTokens(true, k, n)) == Span(n, k)
  {
    if k == 1 {
      assert [Dollar(n)][1..] == [];
    } else if k > 1 {
      ParamDollars(k - 1, n + 1);
      var ts := ParamTokens(true, k, n);
      assert ts[1..][1..] == ParamTokens(true, k - 1, n + 1);
    }
  }

  lemma {:induction false} JoinDollars(item: seq<Token>, items: seq<seq<Token>>, sep: Token)
    requires !sep.Dollar?
    ensures Dollars(Join([item] + items, sep)) == Dollars(item) + Dollars(Join(items, sep))
  {
    if items != [] {
      assert ([item] + items)[1..] == items;
      DollarsAppend(item + [sep], Join(items, sep));
      DollarsAppend(item, [sep]);
      assert [sep][1..] == [];
    }
  }

  lemma {:induction false} ElementDollars(path: string, k: nat, n: nat, sep: Token)
    requires !sep.Dollar?
    ensures Dollars(Join(ElementTests(true, path, k, n), sep)) == Span(n, k)
  {
    if k == 0 {
    } else {
      var h, rest := Predicate(ElementOf(path)), ElementTests(true, path, k - 1, n + 1);
      PairDollars(h, n);
      ElementDollars(path, k - 1, n + 1, sep);
      JoinDollars([h, Dollar(n)], rest, sep);
      SpanAppend(n, 1, k - 1);
      assert Span(n, 1) == [n];
    }
  }

  lemma {:induction false} PairDollars(h: Token, n: nat)
    requires !h.Dollar?
    ensures Dollars([h, Dollar(n)]) == [n]
  {
    DollarsOne(h);
    DollarsOne(Dollar(n));
    DollarsAppend([h], [Dollar(n)]);
    assert [h] + [Dollar(n)] == [h, Dollar(n)];
  }

  lemma {:induction false} ListDollars(h: Token, k: nat, n: nat)
    requires !h.Dollar?
    ensures Dollars([h, LParen] + ParamTokens(true, k, n) + [RParen]) == Span(n, k)
  {
    var ps := ParamTokens(true, k, n);
    ParamDollars(k, n);
    WrapDollars(ps);
    DollarsOne(h);
    DollarsAppend([h], Wrap(ps));
    assert [h, LParen] + ps + [RParen] == [h] + Wrap(ps);
  }

  lemma {:induction false} WrapDollars(ts: seq<Token>)
    ensures Dollars(Wrap(ts)) == Dollars(ts)
  {
    DollarsAppend([LParen] + ts, [RParen]);
    DollarsAppend([LParen], ts);
    assert [LParen][1..] == [] && [RParen][1..] == [];
  }

  lemma {:induction false} ShapeDollars(s: Shape, n: nat)
    ensures var c := Render(s, true, n);
      Dollars(c.tokens) == Span(n, |c.args|) && c.next == n + |c.args|
  {
    match s
    case Nothing =>
    case Bare(h) => DollarsOne(Predicate(h));
    case One(h, _) => PairDollars(Predicate(h), n);
    case Many(h, args) => ListDollars(Predicate(h), |args|, n);
    case AnyElement(path, args) =>
      ElementDollars(path, |args|, n, KwOr);
      WrapDollars(Join(ElementTests(true, path, |args|, n), KwOr));
    case AllElements(path, args) =>
      ElementDollars(path, |args|, n, KwAnd);
  }

  /** Every placeholder is emitted once, in order, gap-free, one per argument - dropped clauses take none. */
  lemma {:induction false} PlaceholdersAreConsecutive(d: Dialect, c: Condition, n: nat)
    ensures var r := ConditionClause(d, true, c, n);
      Dollars(r.tokens) == Span(n, |r.args|) && r.next == n + |r.args|
    decreases c, 1
  {
    match c
    case Field(field, op, value, values) => ShapeDollars(ShapeOf(d, field, op, value, values, n), n);
    case Logical(logic, conditions) => GroupPlaceholders(d, conditions, n, if logic == LogicOr then KwOr else KwAnd);
    case Negation(inner) =>
      PlaceholdersAreConsecutive(d, inner, n);
      var ts := ConditionClause(d, true, inner, n).tokens;
      WrapDollars(ts);
      assert ([KwNot] + Wrap(ts))[1..] == Wrap(ts);
    case NilCondition =>
  }

  lemma {:induction false} GroupPlaceholders(d: Dialect, cs: seq<Condition>, n: nat, sep: Token)
    requires !sep.Dollar?
    ensures var g := ClauseGroup(d, true, cs, n);
      Dollars(Join(g.items, sep)) == Span(n, |g.args|) && g.next == n + |g.args|
    decreases cs, 0
  {
    if cs == [] {
    } else {
      PlaceholdersAreConsecutive(d, cs[0], n);
      var c := ConditionClause(d, true, cs[0], n);
      if c.tokens == [] {
        GroupPlaceholders(d, cs[1..], n, sep);
      } else {
        GroupPlaceholders(d, cs[1..], c.next, sep);
        var g := ClauseGroup(d, true, cs[1..], c.next);
        WrapDollars(c.tokens);
        JoinDollars(Wrap(c.tokens), g.items, sep);
        SpanAppend(n, |c.args|, |g.args|);
      }
    }
  }

  // -----------------------------------------------------------------------------------------
  // Anonymous placeholders
  // -----------------------------------------------------------------------------------------

  function Questions(ts: seq<Token>): nat
  {
    if ts == [] then 0 else (if ts[0].Question? then 1 else 0) + Questions(ts[1..])
  }

  lemma {:induction false} NumberAppend(a: seq<Token>, b: seq<Token>, n: nat)
    ensures Number(a + b, n) == Number(a, n) + Number(b, n + Questions(a))
    ensures Questions(a + b) == Questions(a) + Questions(b)
  {
    if a == [] {
      assert a + b == b;
    } else {
      var m := if a[0].Question? then n + 1 else n;
      var t := if a[0].Question? then Dollar(n) else a[0];
      assert (a + b)[0] == a[0] && (a + b)[1..] == a[1..] + b;
      NumberAppend(a[1..], b, m);
      assert Number(a, n) == [t] + Number(a[1..], m) && Number(a + b, n) == [t] + Number(a[1..] + b, m);
      assert m + Questions(a[1..]) == n + Questions(a);
      ConcatAssoc([t], Number(a[1..], m), Number(b, n + Questions(a)));
    }
  }

  /** Numbering the anonymous text gives the numbered one. */
  ghost predicate Numbers(anon: seq<Token>, text: seq<Token>, n: nat, k: nat)
  {
    Number(anon, n) == text && Questions(anon) == k
  }

  lemma {:induction false} NumbersAppend(a: seq<Token>, ta: seq<Token>, n: nat, k: nat, b: seq<Token>,
      tb: seq<Token>, m: nat)
    requires Numbers(a, ta, n, k) && Numbers(b, tb, n + k, m)
    ensures Numbers(a + b, ta + tb, n, k + m)
  {
    NumberAppend(a, b, n);
  }

  lemma {:induction false} NumbersFixed(t: Token, n: nat)
    requires !t.Question?
    ensures Numbers([t], [t], n, 0)
  {
    assert [t][1..] == [];
  }

  lemma {:induction false} NumbersHole(n: nat)
    ensures Numbers([Question], [Dollar(n)], n, 1)
  {
    assert [Question][1..] == [];
  }

  lemma {:induction false} NumbersWrap(a: seq<Token>, ta: seq<Token>, n: nat, k: nat)
    requires Numbers(a, ta, n, k)
    ensures Numbers(Wrap(a), Wrap(ta), n, k)
  {
    NumbersFixed(LParen, n);
    NumbersFixed(RParen, n + k);
    NumbersAppend([LParen], [LParen], n, 0, a, ta, k);
    NumbersAppend([LParen] + a, [LParen] + ta, n, k, [RParen], [RParen], 0);
  }

  lemma {:induction false} NumbersParams(k: nat, n: nat)
    ensures Numbers(ParamTokens(false, k, n), ParamTokens(true, k, n), n, k)
  {
    NumbersHole(n);
    if k <= 1 {
    } else {
      NumbersParams(k - 1, n + 1);
      NumbersFixed(Comma, n + 1);
      NumbersAppend([Question], [Dollar(n)], n, 1, [Comma], [Comma], 0);
      NumbersAppend([Question] + [Comma], [Dollar(n)] + [Comma], n, 1, ParamTokens(false, k - 1, n + 1),
        ParamTokens(true, k - 1, n + 1), k - 1);
      assert [Question, Comma] == [Question] + [Comma] && [Dollar(n), Comma] == [Dollar(n)] + [Comma];
    }
  }

  lemma {:induction false} NumbersElements(path: string, k: nat, n: nat, sep: Token)
    requires !sep.Question?
    ensures Numbers(Join(ElementTests(false, path, k, n), sep), Join(ElementTests(true, path, k, n), sep), n, k)
  {
    if k == 0 {
    } else {
      var h := Predicate(ElementOf(path));
      NumbersFixed(h, n);
      NumbersHole(n);
      NumbersAppend([h], [h], n, 0, [Question], [Dollar(n)], 1);
      assert [h] + [Question] == [h, Question] && [h] + [Dollar(n)] == [h, Dollar(n)];
      ElementTestsShape(false, path, k - 1, n + 1);
      ElementTestsShape(true, path, k - 1, n + 1);
      if k > 1 {
        NumbersElements(path, k - 1, n + 1, sep);
        NumbersJoin([h, Question], [h, Dollar(n)], n, 1, ElementTests(false, path, k - 1, n + 1),
          ElementTests(true, path, k - 1, n + 1), k - 1, sep);
        assert ElementTests(false, path, k, n) == [[h, Question]] + ElementTests(false, path, k - 1, n + 1);
        assert ElementTests(true, path, k, n) == [[h, Dollar(n)]] + ElementTests(true, path, k - 1, n + 1);
      }
    }
  }

  lemma {:induction false} NumbersJoin(a: seq<Token>, ta: seq<Token>, n: nat, k: nat, items: seq<seq<Token>>,
      titems: seq<seq<Token>>, m: nat, sep: Token)
    requires Numbers(a, ta, n, k) && Numbers(Join(items, sep), Join(titems, sep), n + k, m)
    requires |items| == |titems| && !sep.Question?
    ensures Numbers(Join([a] + items, sep), Join([ta] + titems, sep), n, k + m)
  {
    if items == [] {
      assert Join(items, sep) == [] && m == 0;
    } else {
      assert ([a] + items)[1..] == items && ([ta] + titems)[1..] == titems;
      NumbersFixed(sep, n + k);
      NumbersAppend(a, ta, n, k, [sep], [sep], 0);
      NumbersAppend(a + [sep], ta + [sep], n, k, Join(items, sep), Join(titems, sep), m);
    }
  }

  lemma {:induction false} NumbersShape(s: Shape, n: nat)
    ensures var a, t := Render(s, false, n), Render(s, true, n);
      Numbers(a.tokens, t.tokens, n, |t.args|) && a.args == t.args && a.next == t.next
  {
    match s
    case Nothing =>
    case Bare(h) => NumbersFixed(Predicate(h), n);
    case One(h, _) =>
      NumbersFixed(Predicate(h), n);
      NumbersHole(n);
      NumbersAppend([Predicate(h)], [Predicate(h)], n, 0, [Question], [Dollar(n)], 1);
      assert [Predicate(h)] + [Question] == [Predicate(h), Question];
      assert [Predicate(h)] + [Dollar(n)] == [Predicate(h), Dollar(n)];
    case Many(h, args) =>
      var ps, qs := ParamTokens(true, |args|, n), ParamTokens(false, |args|, n);
      NumbersParams(|args|, n);
      NumbersWrap(qs, ps, n, |args|);
      NumbersFixed(Predicate(h), n);
      NumbersAppend([Predicate(h)], [Predicate(h)], n, 0, Wrap(qs), Wrap(ps), |args|);
      assert [Predicate(h), LParen] + ps + [RParen] == [Predicate(h)] + Wrap(ps);
      assert [Predicate(h), LParen] + qs + [RParen] == [Predicate(h)] + Wrap(qs);
    case AnyElement(path, args) =>
      NumbersElements(path, |args|, n, KwOr);
      NumbersWrap(Join(ElementTests(false, path, |args|, n), KwOr), Join(ElementTests(true, path, |args|, n), KwOr), n,
        |args|);
    case AllElements(path, args) =>
      NumbersElements(path, |args|, n, KwAnd);
  }

  /** The positional text of a condition, numbered from n, is the numbered text from n. */
  lemma {:induction false} NumbersClause(d: Dialect, c: Condition, n: nat)
    ensures var a, t := ConditionClause(d, false, c, n), ConditionClause(d, true, c, n);
      Numbers(a.tokens, t.tokens, n, |t.args|) && a.args == t.args && a.next == t.next
    decreases c, 1
  {
    match c
    case Field(field, op, value, values) => NumbersShape(ShapeOf(d, field, op, value, values, n), n);
    case Logical(logic, conditions) => NumbersGroup(d, conditions, n, if logic == LogicOr then KwOr else KwAnd);
    case Negation(inner) =>
      NumbersClause(d, inner, n);
      EmptyIffDropped(d, false, inner, n);
      EmptyIffDropped(d, true, inner, n);
      var a, t := ConditionClause(d, false, inner, n), ConditionClause(d, true, inner, n);
      NumbersWrap(a.tokens, t.tokens, n, |t.args|);
      NumbersFixed(KwNot, n);
      NumbersAppend([KwNot], [KwNot], n, 0, Wrap(a.tokens), Wrap(t.tokens), |t.args|);
    case NilCondition =>
  }

  /** Putting one clause in front of a numbered group. */
  lemma {:induction false} GroupCons(a: Clause, t: Clause, ga: Group, gt: Group, n: nat, sep: Token)
    requires !sep.Question? && Numbers(a.tokens, t.tokens, n, |t.args|) && a.args == t.args && t.next == n + |t.args|
    requires GroupNumbers(ga, gt, t.next, sep)
    ensures GroupNumbers(Group([Wrap(a.tokens)] + ga.items, a.args + ga.args, ga.next),
                         Group([Wrap(t.tokens)] + gt.items, t.args + gt.args, gt.next), n, sep)
  {
    NumbersWrap(a.tokens, t.tokens, n, |t.args|);
    NumbersJoin(Wrap(a.tokens), Wrap(t.tokens), n, |t.args|, ga.items, gt.items, |gt.args|, sep);
  }

  ghost predicate GroupNumbers(a: Group, t: Group, n: nat, sep: Token)
  {
    |a.items| == |t.items| && a.args == t.args && a.next == t.next &&
      Numbers(Join(a.items, sep), Join(t.items, sep), n, |t.args|)
  }

  lemma {:induction false} NumbersGroup(d: Dialect, cs: seq<Condition>, n: nat, sep: Token)
    requires !sep.Question?
    ensures GroupNumbers(ClauseGroup(d, false, cs, n), ClauseGroup(d, true, cs, n), n, sep)
    decreases cs, 0
  {
    if cs == [] {
    } else {
      NumbersClause(d, cs[0], n);
      EmptyIffDropped(d, false, cs[0], n);
      EmptyIffDropped(d, true, cs[0], n);
      PlaceholdersAreConsecutive(d, cs[0], n);
      var a, t := ConditionClause(d, false, cs[0], n), ConditionClause(d, true, cs[0], n);
      if t.tokens == [] {
        NumbersGroup(d, cs[1..], n, sep);
      } else {
        NumbersGroup(d, cs[1..], t.next, sep);
        GroupCons(a, t, ClauseGroup(d, false, cs[1..], t.next), ClauseGroup(d, true, cs[1..], t.next), n, sep);
      }
    }
  }
}

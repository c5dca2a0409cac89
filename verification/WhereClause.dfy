/** Whole WHERE clauses: the builders as loops, and what the database computes for their text. */
module WhereClause {
  import opened Options
  import opened Logic3
  import opened Where
  import P = Polarity
  import opened SqlGrammar
  import opened ConditionSql
  import opened ConditionParse
  import opened ConditionNumbering
  import opened ConditionMeaning

  /** The filtering part of a query; `search` is the full-text term of the Search builders. */
  datatype Query = Query(search: Option<string>, conditions: seq<Condition>, afterID: string, beforeID: string)

  function Lead(d: Dialect, numbered: bool, q: Query): Group
  {
    if q.search.None? then Group([], [], 1)
    else Group([[Predicate(FullText), Hole(numbered, 1)]], [Text(q.search.value)], 2)
  }

  function IdBound(numbered: bool, h: Head, id: string, n: nat): Group
  {
    if id == "" then Group([], [], n) else Group([[Predicate(h), Hole(numbered, n)]], [Text(id)], n + 1)
  }

  function Concat(a: Group, b: Group): Group
  {
    Group(a.items + b.items, a.args + b.args, b.next)
  }

  function Cursors(numbered: bool, q: Query, n: nat): Group
  {
    var after := IdBound(numbered, IdAfter, q.afterID, n);
    Concat(after, IdBound(numbered, IdBefore, q.beforeID, after.next))
  }

  function WhereItems(d: Dialect, numbered: bool, q: Query): Group
  {
    var lead := Lead(d, numbered, q);
    var body := ClauseGroup(d, numbered, q.conditions, lead.next);
    Concat(Concat(lead, body), Cursors(numbered, q, body.next))
  }

  // -----------------------------------------------------------------------------------------
  // The builders
  // -----------------------------------------------------------------------------------------

  /** One turn of the loop: the next condition is dropped, or wrapped and appended. */
  lemma {:induction false} GroupExtend(d: Dialect, whole: Group, acc: Group, cs: seq<Condition>, i: nat)
    requires i < |cs| && whole == Concat(acc, ClauseGroup(d, d.Postgres?, cs[i..], acc.next))
    ensures var c := ConditionClause(d, d.Postgres?, cs[i], acc.next);
      var acc' := if c.tokens == [] then acc else Group(acc.items + [Wrap(c.tokens)], acc.args + c.args, c.next);
      whole == Concat(acc', ClauseGroup(d, d.Postgres?, cs[i + 1..], acc'.next))
  {
    var c := ConditionClause(d, d.Postgres?, cs[i], acc.next);
    assert cs[i..][0] == cs[i] && cs[i..][1..] == cs[i + 1..];
    if c.tokens != [] {
      var g := ClauseGroup(d, d.Postgres?, cs[i + 1..], c.next);
      assert acc.items + ([Wrap(c.tokens)] + g.items) == acc.items + [Wrap(c.tokens)] + g.items;
      assert acc.args + (c.args + g.args) == acc.args + c.args + g.args;
    }
  }

  method ConditionToSQL(d: Dialect, cond: Condition, paramN: nat) returns (tokens: seq<Token>, args: seq<Arg>,
      nextN: nat)
    ensures Clause(tokens, args, nextN) == ConditionClause(d, d.Postgres?, cond, paramN)
    decreases cond, 1
  {
    match cond
    case Field(field, op, value, values) =>
      var c := FieldClause(d, d.Postgres?, field, op, value, values, paramN);
      return c.tokens, c.args, c.next;
    case Logical(logic, conditions) =>
      tokens, args, nextN := LogicalToSQL(d, logic, conditions, paramN);
    case Negation(inner) =>
      tokens, args, nextN := ConditionToSQL(d, inner, paramN);
      if tokens == [] {
        return [], [], paramN;
      }
      tokens := [KwNot] + Wrap(tokens);
    case NilCondition =>
      return [], [], paramN;
  }

  method LogicalToSQL(d: Dialect, logic: LogicType, conditions: seq<Condition>, paramN: nat)
    returns (tokens: seq<Token>, args: seq<Arg>, nextN: nat)
    ensures Clause(tokens, args, nextN) == ConditionClause(d, d.Postgres?, Logical(logic, conditions), paramN)
    decreases conditions, 0
  {
    var clauses: seq<seq<Token>> := [];
    args, nextN := [], paramN;
    for i := 0 to |conditions|
      invariant ClauseGroup(d, d.Postgres?, conditions, paramN)
             == Concat(Group(clauses, args, nextN), ClauseGroup(d, d.Postgres?, conditions[i..], nextN))
    {
      GroupExtend(d, ClauseGroup(d, d.Postgres?, conditions, paramN), Group(clauses, args, nextN), conditions, i);
      var clause, clauseArgs, n := ConditionToSQL(d, conditions[i], nextN);
      if clause != [] {
        clauses := clauses + [Wrap(clause)];
        args := args + clauseArgs;
        nextN := n;
      }
    }
    assert conditions[|conditions|..] == [] && clauses + [] == clauses && args + [] == args;
    if clauses == [] {
      GroupDrops(d, d.Postgres?, conditions, paramN);
      return [], [], nextN;
    }
    tokens := Join(clauses, if logic == LogicOr then KwOr else KwAnd);
  }

  method BuildWhereClauses(d: Dialect, conditions: seq<Condition>, start: nat)
    returns (clauses: seq<seq<Token>>, args: seq<Arg>, paramN: nat)
    ensures Group(clauses, args, paramN) == ClauseGroup(d, d.Postgres?, conditions, start)
  {
    clauses, args, paramN := [], [], start;
    for i := 0 to |conditions|
      invariant ClauseGroup(d, d.Postgres?, conditions, start)
             == Concat(Group(clauses, args, paramN), ClauseGroup(d, d.Postgres?, conditions[i..], paramN))
    {
      GroupExtend(d, ClauseGroup(d, d.Postgres?, conditions, start), Group(clauses, args, paramN), conditions, i);
      var clause, clauseArgs, n := ConditionToSQL(d, conditions[i], paramN);
      if clause != [] {
        clauses := clauses + [Wrap(clause)];
        args := args + clauseArgs;
        paramN := n;
      }
    }
    assert conditions[|conditions|..] == [] && clauses + [] == clauses && args + [] == args;
  }

  method AppendCursorClauses(d: Dialect, clauses0: seq<seq<Token>>, args0: seq<Arg>, n: nat, q: Query)
    returns (clauses: seq<seq<Token>>, args: seq<Arg>)
    ensures clauses == clauses0 + Cursors(d.Postgres?, q, n).items && args == args0 + Cursors(d.Postgres?, q, n).args
  {
    var paramN := n;
    clauses, args := clauses0, args0;
    if q.afterID != "" {
      clauses := clauses + [[Predicate(IdAfter), Hole(d.Postgres?, paramN)]];
      args := args + [Text(q.afterID)];
      paramN := paramN + 1;
    }
    if q.beforeID != "" {
      clauses := clauses + [[Predicate(IdBefore), Hole(d.Postgres?, paramN)]];
      args := args + [Text(q.beforeID)];
    }
  }

  /** Top-level conditions, after a full-text predicate if there is one, and cursor bounds, joined with AND. */
  method BuildWhere(d: Dialect, q: Query) returns (text: seq<Token>, args: seq<Arg>)
    ensures text == Join(WhereItems(d, d.Postgres?, q).items, KwAnd)
    ensures args == WhereItems(d, d.Postgres?, q).args
  {
    var lead := Lead(d, d.Postgres?, q);
    var clauses, clauseArgs, paramN := BuildWhereClauses(d, q.conditions, lead.next);
    clauses, args := AppendCursorClauses(d, lead.items + clauses, lead.args + clauseArgs, paramN, q);
    text := Join(clauses, KwAnd);
  }

  // -----------------------------------------------------------------------------------------
  // Placeholders of the whole statement
  // -----------------------------------------------------------------------------------------

  lemma {:induction false} JoinConcat(a: seq<seq<Token>>, b: seq<seq<Token>>, sep: Token)
    requires a != [] && b != []
    ensures Join(a + b, sep) == Join(a, sep) + [sep] + Join(b, sep)
  {
    if |a| == 1 {
      assert (a + b)[1..] == b;
    } else {
      assert (a + b)[1..] == a[1..] + b;
      JoinConcat(a[1..], b, sep);
    }
  }

  /** The anonymous group numbers to the numbered one, whose placeholders are n, n+1, ... */
  ghost predicate Matches(anon: Group, g: Group, n: nat)
  {
    && |anon.items| == |g.items| && anon.args == g.args && anon.next == g.next == n + |g.args|
    && Numbers(Join(anon.items, KwAnd), Join(g.items, KwAnd), n, |g.args|)
    && Dollars(Join(g.items, KwAnd)) == Span(n, |g.args|)
  }

  lemma {:induction false} MatchesConcat(a: Group, ta: Group, n: nat, b: Group, tb: Group)
    requires Matches(a, ta, n) && Matches(b, tb, ta.next)
    ensures Matches(Concat(a, b), Concat(ta, tb), n)
  {
    SpanAppend(n, |ta.args|, |tb.args|);
    if a.items == [] {
      assert a.items + b.items == b.items && ta.items + tb.items == tb.items;
      assert ta.args == [];
    } else if b.items == [] {
      assert a.items + b.items == a.items && ta.items + tb.items == ta.items;
      assert tb.args == [];
    } else {
      var x, tx, y, ty := Join(a.items, KwAnd), Join(ta.items, KwAnd), Join(b.items, KwAnd), Join(tb.items, KwAnd);
      JoinConcat(a.items, b.items, KwAnd);
      JoinConcat(ta.items, tb.items, KwAnd);
      NumbersFixed(KwAnd, ta.next);
      NumbersAppend(x, tx, n, |ta.args|, [KwAnd], [KwAnd], 0);
      NumbersAppend(x + [KwAnd], tx + [KwAnd], n, |ta.args|, y, ty, |tb.args|);
      DollarsOne(KwAnd);
      DollarsAppend(tx, [KwAnd]);
      DollarsAppend(tx + [KwAnd], ty);
    }
  }

  lemma {:induction false} SingleMatches(h: Head, a: Arg, n: nat)
    ensures Matches(Group([[Predicate(h), Question]], [a], n + 1), Group([[Predicate(h), Dollar(n)]], [a], n + 1), n)
  {
    NumbersShape(One(h, a), n);
    ShapeDollars(One(h, a), n);
  }

  lemma {:induction false} EmptyMatches(n: nat)
    ensures Matches(Group([], [], n), Group([], [], n), n)
  {
  }

  lemma {:induction false} CursorsMatch(q: Query, n: nat)
    ensures Matches(Cursors(false, q, n), Cursors(true, q, n), n)
  {
    EmptyMatches(n);
    SingleMatches(IdAfter, Text(q.afterID), n);
    var after := IdBound(true, IdAfter, q.afterID, n);
    EmptyMatches(after.next);
    SingleMatches(IdBefore, Text(q.beforeID), after.next);
    MatchesConcat(IdBound(false, IdAfter, q.afterID, n), after, n,
                  IdBound(false, IdBefore, q.beforeID, after.next), IdBound(true, IdBefore, q.beforeID, after.next));
  }

  /** One placeholder per argument, $1 to $k from left to right; SQLite's ? take the same numbers. */
  lemma {:induction false} StatementPlaceholders(d: Dialect, q: Query)
    ensures Matches(WhereItems(d, false, q), WhereItems(d, true, q), 1)
  {
    var lead := Lead(d, true, q);
    EmptyMatches(1);
    if q.search.Some? { SingleMatches(FullText, Text(q.search.value), 1); }
    var body := ClauseGroup(d, true, q.conditions, lead.next);
    NumbersGroup(d, q.conditions, lead.next, KwAnd);
    GroupPlaceholders(d, q.conditions, lead.next, KwAnd);
    MatchesConcat(Lead(d, false, q), lead, 1, ClauseGroup(d, false, q.conditions, lead.next), body);
    CursorsMatch(q, body.next);
    MatchesConcat(Concat(Lead(d, false, q), ClauseGroup(d, false, q.conditions, lead.next)), Concat(lead, body), 1,
                  Cursors(false, q, body.next), Cursors(true, q, body.next));
  }

  lemma {:induction false} NumberNumbered(ts: seq<Token>, n: nat)
    requires Questions(ts) == 0
    ensures Number(ts, n) == ts
  {
    if ts == [] {
    } else {
      NumberNumbered(ts[1..], n);
      assert ts == [ts[0]] + ts[1..];
    }
  }

  /** The numbered text has no anonymous placeholder left, so numbering it again changes nothing. */
  lemma {:induction false} NumberedHasNoQuestions(ts: seq<Token>, n: nat)
    ensures Questions(Number(ts, n)) == 0
  {
    if ts == [] {
    } else {
      var m := if ts[0].Question? then n + 1 else n;
      NumberedHasNoQuestions(ts[1..], m);
      assert Number(ts, n)[1..] == Number(ts[1..], m);
    }
  }

  // -----------------------------------------------------------------------------------------
  // Meaning
  // -----------------------------------------------------------------------------------------

  function LeadExprs(q: Query): seq<Option<Expr>>
  {
    if q.search.None? then [] else [Some(Leaf(FullText, [1]))]
  }

  function CursorExprs(q: Query, n: nat): seq<Option<Expr>>
  {
    (if q.afterID == "" then [] else [Some(Leaf(IdAfter, [n]))])
    + if q.beforeID == "" then [] else [Some(Leaf(IdBefore, [if q.afterID == "" then n else n + 1]))]
  }

  /** What the caller asked for: the search term, every kept condition, and both id bounds, all at once. */
  function QueryMeaning(sql: SqlMeaning, leaf: LeafMeaning, q: Query): seq<Tri>
  {
    LeadMeaning(sql, q) + KeptMeanings(leaf, q.conditions)
    + (if q.afterID == "" then [] else [sql(IdAfter, [Text(q.afterID)])])
    + (if q.beforeID == "" then [] else [sql(IdBefore, [Text(q.beforeID)])])
  }

  ghost predicate AllUnits(empty: bool, items: seq<seq<Token>>, ps: seq<Option<Expr>>)
  {
    |items| == |ps| && forall i :: 0 <= i < |ps| ==> IsUnit(empty, items[i], ps[i])
  }

  lemma {:induction false} UnitsConcat(empty: bool, a: seq<seq<Token>>, pa: seq<Option<Expr>>, b: seq<seq<Token>>,
      pb: seq<Option<Expr>>)
    requires AllUnits(empty, a, pa) && AllUnits(empty, b, pb)
    ensures AllUnits(empty, a + b, pa + pb)
  {
  }

  function StatementExprs(d: Dialect, q: Query): seq<Option<Expr>>
  {
    var lead := Lead(d, true, q);
    var body := ClauseGroup(d, true, q.conditions, lead.next);
    LeadExprs(q) + KeptExprs(d, q.conditions, lead.next) + CursorExprs(q, body.next)
  }

  lemma {:induction false} CursorUnits(empty: bool, q: Query, n: nat)
    ensures AllUnits(empty, Cursors(true, q, n).items, CursorExprs(q, n))
  {
    ParamIsUnit(empty, IdAfter, n);
    ParamIsUnit(empty, IdBefore, if q.afterID == "" then n else n + 1);
  }

  lemma {:induction false} LeadUnits(empty: bool, d: Dialect, q: Query)
    ensures AllUnits(empty, Lead(d, true, q).items, LeadExprs(q))
  {
    ParamIsUnit(empty, FullText, 1);
  }

  lemma {:induction false} BodyUnits(d: Dialect, cs: seq<Condition>, n: nat)
    ensures AllUnits(ReadsEmptyList(d), ClauseGroup(d, true, cs, n).items, KeptExprs(d, cs, n))
  {
    GroupParses(d, cs, n);
  }

  lemma {:induction false} WhereParses(d: Dialect, q: Query)
    ensures AllUnits(ReadsEmptyList(d), WhereItems(d, true, q).items, StatementExprs(d, q))
  {
    var empty := ReadsEmptyList(d);
    var lead := Lead(d, true, q);
    var body := ClauseGroup(d, true, q.conditions, lead.next);
    var es := KeptExprs(d, q.conditions, lead.next);
    var cursors := Cursors(true, q, body.next);
    LeadUnits(empty, d, q);
    BodyUnits(d, q.conditions, lead.next);
    CursorUnits(empty, q, body.next);
    UnitsConcat(empty, lead.items, LeadExprs(q), body.items, es);
    UnitsConcat(empty, lead.items + body.items, LeadExprs(q) + es, cursors.items, CursorExprs(q, body.next));
  }

  /** The search term and the id bounds read their own arguments. */
  lemma {:induction false} BoundsEvaluate(d: Dialect, row: Row, q: Query, all: seq<Arg>, n: nat)
    requires Holds(all, 1, Lead(d, true, q).args) && Holds(all, n, Cursors(true, q, n).args)
    ensures q.search.Some? ==> Eval(row.sql, all, Leaf(FullText, [1])) == row.sql(FullText, [Text(q.search.value)])
    ensures q.afterID != "" ==> Eval(row.sql, all, Leaf(IdAfter, [n])) == row.sql(IdAfter, [Text(q.afterID)])
    ensures q.beforeID != "" ==>
      Eval(row.sql, all, Leaf(IdBefore, [if q.afterID == "" then n else n + 1])) ==
        row.sql(IdBefore, [Text(q.beforeID)])
  {
    if q.search.Some? { LeafReads1(row, all, FullText, 1, Text(q.search.value)); }
    var after := IdBound(true, IdAfter, q.afterID, n);
    ArgsSplit(all, n, after.args, IdBound(true, IdBefore, q.beforeID, after.next).args);
    if q.afterID != "" { LeafReads1(row, all, IdAfter, n, Text(q.afterID)); }
    if q.beforeID != "" { LeafReads1(row, all, IdBefore, after.next, Text(q.beforeID)); }
  }

  ghost predicate Evaluates(row: Row, all: seq<Arg>, ps: seq<Option<Expr>>, ts: seq<Tri>)
  {
    |ps| == |ts| && forall i :: 0 <= i < |ps| ==> ps[i].Some? && Eval(row.sql, all, ps[i].value) == ts[i]
  }

  /** Every expression of the statement evaluates to the part of the query it was compiled from. */
  lemma {:induction false} EvaluatesConcat(row: Row, all: seq<Arg>, ps: seq<Option<Expr>>, ts: seq<Tri>,
      qs: seq<Option<Expr>>, us: seq<Tri>)
    requires Evaluates(row, all, ps, ts) && Evaluates(row, all, qs, us)
    ensures Evaluates(row, all, ps + qs, ts + us)
  {
  }

  lemma {:induction false} BodyEvaluates(d: Dialect, row: Row, leaf: LeafMeaning, cs: seq<Condition>,
      all: seq<Arg>, n: nat)
    requires InterpretsAll(d, row, leaf, cs)
    requires !(d.Postgres? && AnyEmptyList(cs))
    requires Holds(all, n, ClauseGroup(d, true, cs, n).args)
    ensures Evaluates(row, all, KeptExprs(d, cs, n), KeptMeanings(leaf, cs))
  {
    GroupRejectedIffEmptyList(d, cs, n);
    GroupEvaluates(d, row, leaf, all, cs, n);
  }

  function CursorMeaning(sql: SqlMeaning, q: Query): seq<Tri>
  {
    (if q.afterID == "" then [] else [sql(IdAfter, [Text(q.afterID)])])
    + (if q.beforeID == "" then [] else [sql(IdBefore, [Text(q.beforeID)])])
  }

  /** Every part of the statement finds its own arguments. */
  lemma {:induction false} StatementArgs(d: Dialect, q: Query, all: seq<Arg>)
    requires all == WhereItems(d, true, q).args
    ensures var lead := Lead(d, true, q);
      var body := ClauseGroup(d, true, q.conditions, lead.next);
      Holds(all, 1, lead.args) && Holds(all, lead.next, body.args) &&
        Holds(all, body.next, Cursors(true, q, body.next).args)
  {
    var lead := Lead(d, true, q);
    var body := ClauseGroup(d, true, q.conditions, lead.next);
    NextAfterGroup(d, q.conditions, lead.next);
    ItemsArgs(d, q);
    ThreeParts(all, lead.args, body.args, Cursors(true, q, body.next).args);
  }

  lemma {:induction false} NextAfterGroup(d: Dialect, cs: seq<Condition>, n: nat)
    ensures ClauseGroup(d, true, cs, n).next == n + |ClauseGroup(d, true, cs, n).args|
  {
    GroupPlaceholders(d, cs, n, KwAnd);
  }

  lemma {:induction false} ItemsArgs(d: Dialect, q: Query)
    ensures var lead := Lead(d, true, q);
      var body := ClauseGroup(d, true, q.conditions, lead.next);
      WhereItems(d, true, q).args == lead.args + body.args + Cursors(true, q, body.next).args &&
      lead.next == 1 + |lead.args|
  {
  }

  lemma {:induction false} ThreeParts(all: seq<Arg>, a: seq<Arg>, b: seq<Arg>, c: seq<Arg>)
    requires all == a + b + c
    ensures Holds(all, 1, a) && Holds(all, 1 + |a|, b) && Holds(all, 1 + |a| + |b|, c)
  {
    assert all[0..|all|] == all;
    ArgsSplit(all, 1, a + b, c);
    ArgsSplit(all, 1, a, b);
  }

  lemma {:induction false} QueryParts(sql: SqlMeaning, leaf: LeafMeaning, q: Query)
    ensures QueryMeaning(sql, leaf, q) == LeadMeaning(sql, q) + KeptMeanings(leaf, q.conditions) + CursorMeaning(sql, q)
  {
  }

  function LeadMeaning(sql: SqlMeaning, q: Query): seq<Tri>
  {
    if q.search.None? then [] else [sql(FullText, [Text(q.search.value)])]
  }

  lemma {:induction false} WhereEvaluates(d: Dialect, row: Row, leaf: LeafMeaning, q: Query)
    requires InterpretsAll(d, row, leaf, q.conditions)
    requires !(d.Postgres? && AnyEmptyList(q.conditions))
    ensures Evaluates(row, WhereItems(d, true, q).args, StatementExprs(d, q), QueryMeaning(row.sql, leaf, q))
  {
    var lead := Lead(d, true, q);
    var body := ClauseGroup(d, true, q.conditions, lead.next);
    var all := WhereItems(d, true, q).args;
    StatementArgs(d, q, all);
    BodyEvaluates(d, row, leaf, q.conditions, all, lead.next);
    StatementEvaluates(d, row, q, all, KeptExprs(d, q.conditions, lead.next), KeptMeanings(leaf, q.conditions),
      body.next);
    QueryParts(row.sql, leaf, q);
  }

  lemma {:induction false} StatementEvaluates(d: Dialect, row: Row, q: Query, all: seq<Arg>, es: seq<Option<Expr>>,
      ts: seq<Tri>, n: nat)
    requires Evaluates(row, all, es, ts)
    requires Holds(all, 1, Lead(d, true, q).args) && Holds(all, n, Cursors(true, q, n).args)
    ensures Evaluates(row, all, LeadExprs(q) + es + CursorExprs(q, n),
      LeadMeaning(row.sql, q) + ts + CursorMeaning(row.sql, q))
  {
    BoundsEvaluate(d, row, q, all, n);
    EvaluatesConcat(row, all, LeadExprs(q), LeadMeaning(row.sql, q), es, ts);
    EvaluatesConcat(row, all, LeadExprs(q) + es, LeadMeaning(row.sql, q) + ts, CursorExprs(q, n),
      CursorMeaning(row.sql, q));
  }

  /** What running the statement's own text and arguments on its own database gives for one row. */
  function Executed(d: Dialect, row: Row, q: Query): Outcome
  {
    var w := WhereItems(d, d.Postgres?, q);
    Run(ReadsEmptyList(d), row.sql, Join(w.items, KwAnd), w.args)
  }

  /**
    The main result. Whatever conditions a query carries, and on any row, the text and arguments
    that the builder hands to the database evaluate to the conjunction of everything asked for -
    except that PostgreSQL rejects the statement exactly when some list predicate has no values.
   */
  lemma {:induction false} WhereMeansConjunction(d: Dialect, row: Row, leaf: LeafMeaning, q: Query)
    requires InterpretsAll(d, row, leaf, q.conditions)
    ensures Executed(d, row, q) == if d.Postgres? && AnyEmptyList(q.conditions) then SyntaxError
      else Value3(All(QueryMeaning(row.sql, leaf, q)))
  {
    var w, t := WhereItems(d, d.Postgres?, q), WhereItems(d, true, q);
    var ps := StatementExprs(d, q);
    StatementPlaceholders(d, q);
    var text := Join(t.items, KwAnd);
    NumberedHasNoQuestions(Join(WhereItems(d, false, q).items, KwAnd), 1);
    NumberNumbered(text, 1);
    assert Number(Join(w.items, KwAnd), 1) == text && w.args == t.args;
    WhereParses(d, q);
    RejectedStatement(d, q);
    if ps == [] {
      assert t.items == [] && w.items == [];
      WhereEvaluates(d, row, leaf, q);
    } else {
      assert |w.items| > 0 && text != [] by { JoinNonEmpty(t.items, ps, ReadsEmptyList(d)); }
      assert Join(w.items, KwAnd) != [];
      ParseJoinedAnd(ReadsEmptyList(d), t.items, ps, []);
      assert text + [] == text;
      assert ParseOr(ReadsEmptyList(d), text) == Lift(AndFold(ps), []);
      FoldsFail(ps);
      if !(d.Postgres? && AnyEmptyList(q.conditions)) {
        WhereEvaluates(d, row, leaf, q);
        FoldsEvaluate(row.sql, t.args, ps, QueryMeaning(row.sql, leaf, q));
      }
    }
  }

  lemma {:induction false} JoinNonEmpty(items: seq<seq<Token>>, ps: seq<Option<Expr>>, empty: bool)
    requires AllUnits(empty, items, ps) && ps != []
    ensures Join(items, KwAnd) != []
  {
    assert IsUnit(empty, items[0], ps[0]);
  }

  /** Some expression of the statement is a syntax error exactly when PostgreSQL meets an empty list. */
  lemma {:induction false} RejectedStatement(d: Dialect, q: Query)
    ensures SomeRejected(StatementExprs(d, q)) <==> d.Postgres? && AnyEmptyList(q.conditions)
  {
    var lead := Lead(d, true, q);
    var es := KeptExprs(d, q.conditions, lead.next);
    var a, ps := LeadExprs(q), StatementExprs(d, q);
    GroupRejectedIffEmptyList(d, q.conditions, lead.next);
    if SomeRejected(ps) {
      var i :| 0 <= i < |ps| && ps[i].None?;
      assert es[i - |a|].None?;
    }
    if SomeRejected(es) {
      var i :| 0 <= i < |es| && es[i].None?;
      assert ps[|a| + i].None?;
    }
  }

  // -----------------------------------------------------------------------------------------
  // Both backends
  // -----------------------------------------------------------------------------------------

  /** The search term and the id bounds of the query hold alike on both sides. */
  predicate SameBounds(a: SqlMeaning, b: SqlMeaning, q: Query)
  {
    (q.search.Some? ==> a(FullText, [Text(q.search.value)]) == b(FullText, [Text(q.search.value)])) &&
    (q.afterID != "" ==> a(IdAfter, [Text(q.afterID)]) == b(IdAfter, [Text(q.afterID)])) &&
    (q.beforeID != "" ==> a(IdBefore, [Text(q.beforeID)]) == b(IdBefore, [Text(q.beforeID)]))
  }

  /**
    On rows where the query's own predicates mean the same to both databases, the backends give the same truth
    value exactly when no list is empty.
   */
  lemma {:induction false} BackendsAgree(pg: Row, lite: Row, leaf: LeafMeaning, q: Query)
    requires InterpretsAll(Postgres, pg, leaf, q.conditions) && InterpretsAll(Sqlite, lite, leaf, q.conditions)
    requires SameBounds(pg.sql, lite.sql, q)
    ensures Executed(Postgres, pg, q) == Executed(Sqlite, lite, q) <==> !AnyEmptyList(q.conditions)
  {
    WhereMeansConjunction(Postgres, pg, leaf, q);
    WhereMeansConjunction(Sqlite, lite, leaf, q);
    assert QueryMeaning(pg.sql, leaf, q) == QueryMeaning(lite.sql, leaf, q);
  }

  /** The row is in the result: SQL selects on true, and on nothing else. */
  predicate Selected(o: Outcome)
  {
    o == Value3(True)
  }

  /**
    The two leaf meanings may differ where it cannot matter: between false and unknown under an even number of
    Nots, between true and unknown under an odd number.
   */
  predicate LeavesAlike(pg: LeafMeaning, lite: LeafMeaning, c: Condition, positive: bool)
  {
    match c
    case Field(_, _, _, _) => P.Alike(positive, Meaning(pg, c), Meaning(lite, c))
    case Logical(_, conditions) => forall i :: 0 <= i < |conditions| ==> LeavesAlike(pg, lite, conditions[i], positive)
    case Negation(inner) => LeavesAlike(pg, lite, inner, !positive)
    case NilCondition => true
  }

  predicate AllAlike(positive: bool, a: seq<Tri>, b: seq<Tri>)
  {
    |a| == |b| && forall i :: 0 <= i < |a| ==> P.Alike(positive, a[i], b[i])
  }

  lemma {:induction false} FoldsAlike(positive: bool, a: seq<Tri>, b: seq<Tri>)
    requires AllAlike(positive, a, b)
    ensures P.Alike(positive, All(a), All(b)) && P.Alike(positive, Any(a), Any(b))
  {
    if a == [] {
    } else {
      FoldsAlike(positive, a[1..], b[1..]);
    }
  }

  lemma {:induction false} TreesAlike(pg: LeafMeaning, lite: LeafMeaning, c: Condition, positive: bool)
    requires LeavesAlike(pg, lite, c, positive)
    ensures P.Alike(positive, Meaning(pg, c), Meaning(lite, c))
    decreases c, 1
  {
    match c
    case Logical(_, conditions) =>
      ListsAlike(pg, lite, conditions, positive);
      FoldsAlike(positive, KeptMeanings(pg, conditions), KeptMeanings(lite, conditions));
    case Negation(inner) => TreesAlike(pg, lite, inner, !positive);
    case _ =>
  }

  lemma {:induction false} ListsAlike(pg: LeafMeaning, lite: LeafMeaning, cs: seq<Condition>, positive: bool)
    requires forall i :: 0 <= i < |cs| ==> LeavesAlike(pg, lite, cs[i], positive)
    ensures AllAlike(positive, KeptMeanings(pg, cs), KeptMeanings(lite, cs))
    decreases cs, 0
  {
    if cs == [] {
    } else {
      TreesAlike(pg, lite, cs[0], positive);
      ListsAlike(pg, lite, cs[1..], positive);
    }
  }

  /**
    Where the databases do read a predicate differently - a missing field is false to one and NULL to the other -
    they still select the same rows as long as that predicate stands where the difference cannot show.
   */
  lemma {:induction false} SelectionsAgree(pg: Row, lite: Row, onPg: LeafMeaning, onLite: LeafMeaning, q: Query)
    requires InterpretsAll(Postgres, pg, onPg, q.conditions) && InterpretsAll(Sqlite, lite, onLite, q.conditions)
    requires SameBounds(pg.sql, lite.sql, q) && !AnyEmptyList(q.conditions)
    requires forall i :: 0 <= i < |q.conditions| ==> LeavesAlike(onPg, onLite, q.conditions[i], true)
    ensures Selected(Executed(Postgres, pg, q)) <==> Selected(Executed(Sqlite, lite, q))
  {
    WhereMeansConjunction(Postgres, pg, onPg, q);
    WhereMeansConjunction(Sqlite, lite, onLite, q);
    ListsAlike(onPg, onLite, q.conditions, true);
    FoldsAlike(true, QueryMeaning(pg.sql, onPg, q), QueryMeaning(lite.sql, onLite, q));
  }

  /** A query with one condition and nothing else. */
  function Only(c: Condition): Query
  {
    Query(None, [c], "", "")
  }

  /** A query for one condition gives the value that condition has on each side. */
  lemma {:induction false} OnlyMeans(d: Dialect, row: Row, leaf: LeafMeaning, c: Condition)
    requires Interprets(d, row, leaf, c) && Kept(c) && !HasEmptyList(c)
    ensures Executed(d, row, Only(c)) == Value3(Meaning(leaf, c))
  {
    WhereMeansConjunction(d, row, leaf, Only(c));
    assert [c][1..] == [] && KeptMeanings(leaf, [c]) == [Meaning(leaf, c)];
    assert QueryMeaning(row.sql, leaf, Only(c)) == [Meaning(leaf, c)];
    assert [Meaning(leaf, c)][1..] == [];
  }

  /**
    Where it does show: on a row without the field, containment is false and json_extract is NULL, so a negated
    equality selects the row on PostgreSQL and not on SQLite.
   */
  lemma {:induction false} NegatedEqualityDiverges(pg: Row, lite: Row, field: string, v: Value)
    requires v.Scalar? && '.' !in field
    requires pg.sql(DocContains, [Doc(field, v)]) == False &&
      lite.sql(Compare(Eq, Sanitized(field)), [Bound(v)]) == Unknown
    ensures var q := Only(Negation(Field(field, Eq, v, [])));
      Selected(Executed(Postgres, pg, q)) && !Selected(Executed(Sqlite, lite, q))
  {
    var c := Negation(Field(field, Eq, v, []));
    OnlyMeans(Postgres, pg, (f, op, vs) => False, c);
    OnlyMeans(Sqlite, lite, (f, op, vs) => Unknown, c);
  }

  /** The other way round: on such a row array membership is NULL on PostgreSQL and false on SQLite. */
  lemma {:induction false} NegatedContainsDiverges(pg: Row, lite: Row, field: string, v: Value)
    requires !v.FieldRef?
    requires pg.sql(ElementOf(Sanitized(field)), [Raw(v)]) == Unknown &&
      lite.sql(ElementOf(Sanitized(field)), [Bound(v)]) == False
    ensures var q := Only(Negation(Field(field, Contains, v, [])));
      !Selected(Executed(Postgres, pg, q)) && Selected(Executed(Sqlite, lite, q))
  {
    var c := Negation(Field(field, Contains, v, []));
    OnlyMeans(Postgres, pg, (f, op, vs) => Unknown, c);
    OnlyMeans(Sqlite, lite, (f, op, vs) => False, c);
  }
}

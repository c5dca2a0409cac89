/**
  The WHERE grammar both databases share: NOT binds over AND, AND binds over OR.

  A token stands for the text between two points where precedence or parameter order could go wrong:
  a predicate head such as `jsonb_extract_path(data, 'a') =` or `data @>` is one token, every
  placeholder, comma and grouping parenthesis is its own.
 */
module SqlGrammar {
  import opened Logic3
  import opened Where

  datatype Arity = NoParam | OneParam | ParamList

  datatype Head =
    | RefCompare(cmp: Operator, left: string, right: string)  // left < right, two columns
    | NullTest(path: string, negated: bool)                   // path IS [NOT] NULL
    | KeyPath(path: string)                                   // json_type(data, path) IS NOT NULL
    | Compare(cmp: Operator, path: string)                    // path < p
    | DocContains                                             // data @> p
    | ElementOf(path: string)                                 // p is an element of the array at path
    | ElementIn(path: string)                                 // some element of the array is in (p, ...)
    | KeyExists(path: string)                                 // jsonb_exists(path, p)
    | RegExpMatch(path: string)                               // path ~ p
    | LikeMatch(path: string)                                 // path LIKE p ESCAPE '\'
    | InList(path: string, negated: bool)                     // path [NOT] IN (p, ...)
    | FullText                                                // fts MATCH p
    | IdAfter                                                 // id > p
    | IdBefore                                                // id < p

  function ArityOf(h: Head): Arity
  {
    match h
    case RefCompare(_, _, _) => NoParam
    case NullTest(_, _) => NoParam
    case KeyPath(_) => NoParam
    case InList(_, _) => ParamList
    case ElementIn(_) => ParamList
    case _ => OneParam
  }

  /** Dollar(n) is PostgreSQL's $n; Question is SQLite's anonymous ?. */
  datatype Token =
    | LParen | RParen | Comma
    | KwAnd | KwOr | KwNot
    | Predicate(head: Head)
    | Dollar(n: nat)
    | Question

  datatype Expr =
    | Leaf(head: Head, params: seq<nat>)
    | NotE(e: Expr)
    | AndE(l: Expr, r: Expr)
    | OrE(l: Expr, r: Expr)

  /** A driver numbers anonymous placeholders from left to right. */
  function Number(ts: seq<Token>, n: nat): seq<Token>
  {
    if ts == [] then []
    else if ts[0].Question? then [Dollar(n)] + Number(ts[1..], n + 1)
    else [ts[0]] + Number(ts[1..], n)
  }

  datatype Parsed<T> = Fail | Done(value: T, rest: seq<Token>)

  /** An IN list: PostgreSQL rejects an empty one, SQLite reads it as the empty set. */
  function ParseParams(emptyList: bool, ts: seq<Token>): (r: Parsed<seq<nat>>)
    ensures r.Done? ==> |r.rest| < |ts|
  {
    if ts == [] then Fail
    else if ts[0].RParen? then (if emptyList then Done([], ts[1..]) else Fail)
    else ParseParams1(ts)
  }

  function ParseParams1(ts: seq<Token>): (r: Parsed<seq<nat>>)
    ensures r.Done? ==> |r.rest| < |ts|
  {
    if |ts| < 2 || !ts[0].Dollar? then Fail
    else if ts[1].RParen? then Done([ts[0].n], ts[2..])
    else if ts[1].Comma? then
      var tail := ParseParams1(ts[2..]);
      if tail.Fail? then Fail else Done([ts[0].n] + tail.value, tail.rest)
    else Fail
  }

  function ParsePrimary(emptyList: bool, ts: seq<Token>): (r: Parsed<Expr>)
    ensures r.Done? ==> |r.rest| < |ts|
    decreases |ts|, 0
  {
    if ts == [] then Fail
    else match ts[0]
      case LParen =>
        var e := ParseOr(emptyList, ts[1..]);
        if e.Fail? || e.rest == [] || !e.rest[0].RParen? then Fail else Done(e.value, e.rest[1..])
      case Predicate(h) => (
        match ArityOf(h)
        case NoParam => Done(Leaf(h, []), ts[1..])
        case OneParam => if |ts| < 2 || !ts[1].Dollar? then Fail else Done(Leaf(h, [ts[1].n]), ts[2..])
        case ParamList =>
          if |ts| < 2 || !ts[1].LParen? then Fail
          else
            var ps := ParseParams(emptyList, ts[2..]);
            if ps.Fail? then Fail else Done(Leaf(h, ps.value), ps.rest))
      case _ => Fail
  }

  function ParseNot(emptyList: bool, ts: seq<Token>): (r: Parsed<Expr>)
    ensures r.Done? ==> |r.rest| < |ts|
    decreases |ts|, 1
  {
    if ts != [] && ts[0].KwNot? then
      var e := ParseNot(emptyList, ts[1..]);
      if e.Fail? then Fail else Done(NotE(e.value), e.rest)
    else ParsePrimary(emptyList, ts)
  }

  function ParseAnd(emptyList: bool, ts: seq<Token>): (r: Parsed<Expr>)
    ensures r.Done? ==> |r.rest| < |ts|
    decreases |ts|, 2
  {
    var l := ParseNot(emptyList, ts);
    if l.Fail? || l.rest == [] || !l.rest[0].KwAnd? then l
    else
      var r := ParseAnd(emptyList, l.rest[1..]);
      if r.Fail? then Fail else Done(AndE(l.value, r.value), r.rest)
  }

  function ParseOr(emptyList: bool, ts: seq<Token>): (r: Parsed<Expr>)
    ensures r.Done? ==> |r.rest| < |ts|
    decreases |ts|, 3
  {
    var l := ParseAnd(emptyList, ts);
    if l.Fail? || l.rest == [] || !l.rest[0].KwOr? then l
    else
      var r := ParseOr(emptyList, l.rest[1..]);
      if r.Fail? then Fail else Done(OrE(l.value, r.value), r.rest)
  }

  /** A bound argument as the driver receives it. */
  datatype Arg =
    | Bound(value: Value)                  // encoded: JSON on PostgreSQL, formatBindArg on SQLite
    | Raw(value: Value)                    // passed through
    | Doc(field: string, value: Value)     // the object {field: value}
    | Text(text: string)
    | Missing

  function ArgAt(args: seq<Arg>, n: nat): Arg
  {
    if 1 <= n <= |args| then args[n - 1] else Missing
  }

  type SqlMeaning = (Head, seq<Arg>) -> Tri

  /** What the database computes for a parsed expression on one row. */
  function Eval(sql: SqlMeaning, args: seq<Arg>, e: Expr): Tri
  {
    match e
    case Leaf(h, ps) => sql(h, seq(|ps|, i requires 0 <= i < |ps| => ArgAt(args, ps[i])))
    case NotE(x) => Logic3.Not(Eval(sql, args, x))
    case AndE(l, r) => Logic3.And(Eval(sql, args, l), Eval(sql, args, r))
    case OrE(l, r) => Logic3.Or(Eval(sql, args, l), Eval(sql, args, r))
  }

  datatype Outcome = SyntaxError | Value3(t: Tri)

  /** Running a WHERE text: number the placeholders, parse all of it, evaluate. No text is no filter. */
  function Run(emptyList: bool, sql: SqlMeaning, ts: seq<Token>, args: seq<Arg>): Outcome
  {
    if ts == [] then Value3(True)
    else
      var p := ParseOr(emptyList, Number(ts, 1));
      if p.Fail? || p.rest != [] then SyntaxError else Value3(Eval(sql, args, p.value))
  }
}

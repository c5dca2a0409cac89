/** What running a compiled query computes, operator by operator and connective by connective. */
module WhereRuns {
  import opened Options
  import opened Logic3
  import opened Where
  import opened SqlGrammar
  import opened ConditionSql
  import opened ConditionMeaning
  import opened WhereClause
  import L = LikePattern

  /** A comparison with a value: one predicate on exactly its own argument. */
  lemma {:induction false} ComparisonRuns(d: Dialect, row: Row, field: string, op: Operator, value: Value,
      values: seq<Value>)
    requires !value.FieldRef?
    ensures var path, got := Sanitized(field), Executed(d, row, Only(Field(field, op, value, values)));
      && (op in {Ne, Gt, Gte, Lt, Lte} ==> got == Value3(row.sql(Compare(op, path), [Bound(value)])))
      && (op == Eq && d.Postgres? && value.Scalar? && '.' !in field ==>
            got == Value3(row.sql(DocContains, [Doc(field, value)])))
      && (op == Eq && !(d.Postgres? && value.Scalar? && '.' !in field) ==>
            got == Value3(row.sql(Compare(Eq, path), [Bound(value)])))
  {
    var path := Sanitized(field);
    if op in {Ne, Gt, Gte, Lt, Lte} {
      LeafIs(d, row, field, op, value, values, row.sql(Compare(op, path), [Bound(value)]));
    } else if op == Eq {
      var contains := d.Postgres? && value.Scalar? && '.' !in field;
      LeafIs(d, row, field, op, value, values,
        if contains then row.sql(DocContains, [Doc(field, value)]) else row.sql(Compare(Eq, path), [Bound(value)]));
    }
  }

  /** Null tests, one array member and regular expressions. */
  lemma {:induction false} TestRuns(d: Dialect, row: Row, field: string, op: Operator, value: Value,
      values: seq<Value>)
    requires !value.FieldRef?
    ensures var path, got := Sanitized(field), Executed(d, row, Only(Field(field, op, value, values)));
      && (op == IsNil ==> got == Value3(row.sql(NullTest(path, false), [])))
      && (op == IsNotNil ==> got == Value3(row.sql(NullTest(path, true), [])))
      && (op == Contains ==>
            got == Value3(row.sql(ElementOf(path), [if d.Postgres? then Raw(value) else Bound(value)])))
      && (op == RegExp && value.Scalar? ==> got == Value3(row.sql(RegExpMatch(path), [Text(value.text)])))
  {
    var path := Sanitized(field);
    if op == IsNil || op == IsNotNil {
      LeafIs(d, row, field, op, value, values, row.sql(NullTest(path, op == IsNotNil), []));
    } else if op == Contains {
      LeafIs(d, row, field, op, value, values,
        row.sql(ElementOf(path), [if d.Postgres? then Raw(value) else Bound(value)]));
    } else if op == RegExp {
      LeafIs(d, row, field, op, value, values, row.sql(RegExpMatch(path), [Text(TextOf(value))]));
    }
  }

  /** A predicate that means one truth value wherever it stands runs to that value. */
  lemma {:induction false} LeafIs(d: Dialect, row: Row, field: string, op: Operator, value: Value, values: seq<Value>,
      t: Tri)
    requires op !in {ContainsAny, ContainsAll} && (op in {In, NotIn} ==> values != [])
    requires InterpretsField(d, row, (f, o, vs) => t, field, op, value, values) && KeptField(op, value, values)
    ensures Executed(d, row, Only(Field(field, op, value, values))) == Value3(t)
  {
    OnlyMeans(d, row, (f, o, vs) => t, Field(field, op, value, values));
  }

  /** HasKey asks for the key by name; a value that is no string asks for the empty one. */
  lemma {:induction false} KeyRuns(d: Dialect, row: Row, field: string, value: Value, values: seq<Value>)
    requires !value.FieldRef?
    ensures var path, got := Sanitized(field), Executed(d, row, Only(Field(field, HasKey, value, values)));
      && (d.Postgres? ==> got == Value3(row.sql(KeyExists(path), [Raw(value)])))
      && (d.Sqlite? && value.Scalar? && value.isString ==>
            got == Value3(row.sql(KeyPath(path + "." + Sanitized(value.text)), [])))
      && (d.Sqlite? && !(value.Scalar? && value.isString) ==> got == Value3(row.sql(KeyPath(path + "."), [])))
  {
    var path := Sanitized(field);
    if d.Postgres? {
      LeafIs(d, row, field, HasKey, value, values, row.sql(KeyExists(path), [Raw(value)]));
    } else {
      var key := if value.Scalar? && value.isString then value.text else "";
      assert key == "" ==> path + "." + Sanitized(key) == path + ".";
      LeafIs(d, row, field, HasKey, value, values, row.sql(KeyPath(path + "." + Sanitized(key)), []));
    }
  }

  /** A comparison with another field takes no argument. */
  lemma {:induction false} FieldComparisonRuns(d: Dialect, row: Row, field: string, op: Operator, other: string,
      values: seq<Value>)
    ensures op in {Eq, Ne, Gt, Gte, Lt, Lte} ==>
      Executed(d, row, Only(Field(field, op, FieldRef(other), values)))
      == Value3(row.sql(RefCompare(op, Sanitized(field), Sanitized(other)), []))
    ensures op !in {Eq, Ne, Gt, Gte, Lt, Lte} ==>
      Executed(d, row, Only(Field(field, op, FieldRef(other), values))) == Value3(True)
  {
    var c := Field(field, op, FieldRef(other), values);
    var t := row.sql(RefCompare(op, Sanitized(field), Sanitized(other)), []);
    if op in {Eq, Ne, Gt, Gte, Lt, Lte} {
      OnlyMeans(d, row, (f, o, vs) => t, c);
    } else {
      DroppedRuns(d, row, (f, o, vs) => t, c);
    }
  }

  /** A condition that prints as nothing filters nothing. */
  lemma {:induction false} DroppedRuns(d: Dialect, row: Row, leaf: LeafMeaning, c: Condition)
    requires Interprets(d, row, leaf, c) && !Kept(c) && !HasEmptyList(c)
    ensures Executed(d, row, Only(c)) == Value3(True)
  {
    WhereMeansConjunction(d, row, leaf, Only(c));
    assert [c][1..] == [] && KeptMeanings(leaf, [c]) == [];
  }

  /** Lists of values. PostgreSQL takes no empty list, except for ContainsAll, which then filters nothing. */
  lemma {:induction false} MembershipRuns(d: Dialect, row: Row, field: string, op: Operator, value: Value,
      values: seq<Value>)
    requires !value.FieldRef? && op in {In, NotIn}
    ensures var got := Executed(d, row, Only(Field(field, op, value, values)));
      got == if d.Postgres? && values == [] then SyntaxError
        else Value3(row.sql(InList(Sanitized(field), op == NotIn),
               seq(|values|, i requires 0 <= i < |values| => Bound(values[i]))))
  {
    var c := Field(field, op, value, values);
    var args := seq(|values|, i requires 0 <= i < |values| => Bound(values[i]));
    assert Args(false, values) == args;
    var t := row.sql(InList(Sanitized(field), op == NotIn), args);
    WhereMeansConjunction(d, row, (f, o, vs) => t, Only(c));
    assert AnyEmptyList([c]) <==> values == [] by { assert HasEmptyList([c][0]) <==> values == []; }
    OneMeaning((f, o, vs) => t, c, t);
  }

  lemma {:induction false} OneMeaning(leaf: LeafMeaning, c: Condition, t: Tri)
    requires Kept(c) && Meaning(leaf, c) == t
    ensures forall sql: SqlMeaning :: All(QueryMeaning(sql, leaf, Only(c))) == t
  {
    assert [c][1..] == [] && KeptMeanings(leaf, [c]) == [t];
    forall sql: SqlMeaning ensures All(QueryMeaning(sql, leaf, Only(c))) == t {
      assert QueryMeaning(sql, leaf, Only(c)) == [t] && [t][1..] == [];
    }
  }

  /** ContainsAll: one membership test per value. */
  lemma {:induction false} AllElementsRun(d: Dialect, row: Row, field: string, value: Value, values: seq<Value>)
    requires !value.FieldRef? && values != []
    ensures Executed(d, row, Only(Field(field, ContainsAll, value, values))) == Value3(True) <==>
      forall v :: v in values ==> HasElement(d, row, field, v) == True
  {
    OnlyMeans(d, row, ElementLeaf(d, row, field), Field(field, ContainsAll, value, values));
    var ts := seq(|values|, i requires 0 <= i < |values| => ElementLeaf(d, row, field)(field, Contains, [values[i]]));
    AllIff(ts);
    assert forall i :: 0 <= i < |values| ==> ts[i] == HasElement(d, row, field, values[i]);
  }

  /** ContainsAny on PostgreSQL likewise. */
  lemma {:induction false} AnyElementRuns(row: Row, field: string, value: Value, values: seq<Value>)
    requires !value.FieldRef? && values != []
    ensures Executed(Postgres, row, Only(Field(field, ContainsAny, value, values))) == Value3(True) <==>
      exists v :: v in values && HasElement(Postgres, row, field, v) == True
  {
    OnlyMeans(Postgres, row, ElementLeaf(Postgres, row, field), Field(field, ContainsAny, value, values));
    var ts := seq(|values|,
      i requires 0 <= i < |values| => ElementLeaf(Postgres, row, field)(field, Contains, [values[i]]));
    AnyIff(ts);
    assert forall i :: 0 <= i < |values| ==> ts[i] == HasElement(Postgres, row, field, values[i]);
  }

  /** The database's membership test for one value. */
  function HasElement(d: Dialect, row: Row, field: string, v: Value): Tri
  {
    row.sql(ElementOf(Sanitized(field)), [if d.Postgres? then Raw(v) else Bound(v)])
  }

  function ElementLeaf(d: Dialect, row: Row, field: string): LeafMeaning
  {
    (f, o, vs) => if |vs| == 1 then HasElement(d, row, field, vs[0]) else Unknown
  }

  /** SQLite's ContainsAny is one predicate over the whole list. */
  lemma {:induction false} ElementInRuns(row: Row, field: string, value: Value, values: seq<Value>)
    requires !value.FieldRef? && values != []
    ensures Executed(Sqlite, row, Only(Field(field, ContainsAny, value, values)))
         == Value3(row.sql(ElementIn(Sanitized(field)),
              seq(|values|, i requires 0 <= i < |values| => Bound(values[i]))))
  {
    var args := seq(|values|, i requires 0 <= i < |values| => Bound(values[i]));
    assert Args(false, values) == args;
    var t := row.sql(ElementIn(Sanitized(field)), args);
    var leaf: LeafMeaning := (f, o, vs) => t;
    var ts := seq(|values|, i requires 0 <= i < |values| => leaf(field, Contains, [values[i]]));
    AnyIff(ts);
    assert ts[0] == t;
    OnlyMeans(Sqlite, row, leaf, Field(field, ContainsAny, value, values));
  }

  predicate SliceAt(s: string, t: string, k: nat)
  {
    k + |s| <= |t| && t[k..k + |s|] == s
  }

  /** The text operators, on a database that runs LIKE and compares characters exactly. */
  lemma {:induction false} TextRuns(d: Dialect, row: Row, field: string, s: string, values: seq<Value>, t: string)
    requires row.text(Sanitized(field)) == Some(t) && forall a, b :: row.eq(a, b) <==> a == b
    requires forall p: string :: row.sql(LikeMatch(Sanitized(field)), [Text(p)]) == Truth(L.Like(row.eq, p, t))
    ensures var v := Scalar(s, true);
      && Executed(d, row, Only(Field(field, StartsWith, v, values))) == Value3(Truth(s <= t))
      && Executed(d, row, Only(Field(field, EndsWith, v, values)))
         == Value3(Truth(|s| <= |t| && t[|t| - |s|..] == s))
      && Executed(d, row, Only(Field(field, StringContains, v, values)))
         == Value3(Truth(exists k: nat :: SliceAt(s, t, k)))
  {
    TextOperatorRuns(d, row, field, StartsWith, s, values, t, IsPrefix(row, s, t));
    TextOperatorRuns(d, row, field, EndsWith, s, values, t, IsSuffix(row, s, t));
    TextOperatorRuns(d, row, field, StringContains, s, values, t, IsSubstring(row, s, t));
    forall k: nat ensures L.OccursAt(row.eq, s, t, k) <==> SliceAt(s, t, k) {
      L.OccursIsSlice(row.eq, s, t, k);
    }
    assert s <= t <==> L.OccursAt(row.eq, s, t, 0);
    if |s| <= |t| { assert t[|t| - |s|..] == t[|t| - |s|..|t| - |s| + |s|]; }
    if k: nat :| SliceAt(s, t, k) { assert L.OccursAt(row.eq, s, t, k); }
    if IsSubstring(row, s, t) {
      var k :| 0 <= k <= |t| && L.OccursAt(row.eq, s, t, k);
      assert SliceAt(s, t, k);
    }
  }

  lemma {:induction false} TextOperatorRuns(d: Dialect, row: Row, field: string, op: Operator, s: string,
      values: seq<Value>, t: string, passes: bool)
    requires row.text(Sanitized(field)) == Some(t) && op in {StartsWith, EndsWith, StringContains}
    requires forall p: string :: row.sql(LikeMatch(Sanitized(field)), [Text(p)]) == Truth(L.Like(row.eq, p, t))
    requires passes == if op.StartsWith? then IsPrefix(row, s, t) else if op.EndsWith? then IsSuffix(row, s, t)
      else IsSubstring(row, s, t)
    ensures Executed(d, row, Only(Field(field, op, Scalar(s, true), values))) == Value3(Truth(passes))
  {
    LeafIs(d, row, field, op, Scalar(s, true), values, Truth(passes));
  }

  // -----------------------------------------------------------------------------------------
  // Connectives
  // -----------------------------------------------------------------------------------------

  /** Everything that each of these conditions asks for on its own. */
  ghost predicate RunsAlone(d: Dialect, row: Row, leaf: LeafMeaning, cs: seq<Condition>)
  {
    InterpretsAll(d, row, leaf, cs) && !AnyEmptyList(cs)
  }

  /** Some kept condition means t. */
  ghost predicate SomeMeans(leaf: LeafMeaning, cs: seq<Condition>, t: Tri)
  {
    exists i :: 0 <= i < |cs| && Kept(cs[i]) && Meaning(leaf, cs[i]) == t
  }

  /** Every kept condition means t. */
  ghost predicate AllMean(leaf: LeafMeaning, cs: seq<Condition>, t: Tri)
  {
    forall i :: 0 <= i < |cs| && Kept(cs[i]) ==> Meaning(leaf, cs[i]) == t
  }

  lemma {:induction false} MeansCons(leaf: LeafMeaning, cs: seq<Condition>, t: Tri)
    requires cs != []
    ensures SomeMeans(leaf, cs, t) <==> (Kept(cs[0]) && Meaning(leaf, cs[0]) == t) || SomeMeans(leaf, cs[1..], t)
    ensures AllMean(leaf, cs, t) <==> (Kept(cs[0]) ==> Meaning(leaf, cs[0]) == t) && AllMean(leaf, cs[1..], t)
  {
    var rest := cs[1..];
    assert forall i :: 0 <= i < |rest| ==> rest[i] == cs[i + 1];
    if i :| 0 <= i < |cs| && Kept(cs[i]) && Meaning(leaf, cs[i]) == t {
      assert i > 0 ==> Kept(rest[i - 1]) && Meaning(leaf, rest[i - 1]) == t;
    }
    if i :| 0 <= i < |cs| && Kept(cs[i]) && Meaning(leaf, cs[i]) != t {
      assert i > 0 ==> Kept(rest[i - 1]) && Meaning(leaf, rest[i - 1]) != t;
    }
  }

  lemma {:induction false} KeptInList(leaf: LeafMeaning, cs: seq<Condition>, t: Tri)
    ensures t in KeptMeanings(leaf, cs) <==> SomeMeans(leaf, cs, t)
    ensures AllAre(KeptMeanings(leaf, cs), t) <==> AllMean(leaf, cs, t)
  {
    if cs == [] {
    } else {
      KeptInList(leaf, cs[1..], t);
      MeansCons(leaf, cs, t);
      var first := if Kept(cs[0]) then [Meaning(leaf, cs[0])] else [];
      assert KeptMeanings(leaf, cs) == first + KeptMeanings(leaf, cs[1..]);
      AllAreBoth(first, KeptMeanings(leaf, cs[1..]), t);
      if Kept(cs[0]) { assert first[0] == Meaning(leaf, cs[0]); }
    }
  }

  /** A group with something kept in it is neither dropped nor rejected. */
  lemma {:induction false} GroupMeans(d: Dialect, row: Row, leaf: LeafMeaning, logic: LogicType, cs: seq<Condition>)
    requires RunsAlone(d, row, leaf, cs) && exists i :: 0 <= i < |cs| && Kept(cs[i])
    ensures var ts := KeptMeanings(leaf, cs);
      Executed(d, row, Only(Logical(logic, cs))) == Value3(if logic == LogicAnd then All(ts) else Any(ts))
  {
    OnlyMeans(d, row, leaf, Logical(logic, cs));
  }

  /** A conjunction, in terms of what each condition gives as a query of its own. */
  lemma {:induction false} AndRuns(d: Dialect, row: Row, leaf: LeafMeaning, cs: seq<Condition>)
    requires RunsAlone(d, row, leaf, cs) && exists i :: 0 <= i < |cs| && Kept(cs[i])
    ensures var got := Executed(d, row, Only(Logical(LogicAnd, cs)));
      && (got == Value3(True) <==> forall i :: 0 <= i < |cs| && Kept(cs[i]) ==>
            Executed(d, row, Only(cs[i])) == Value3(True))
      && (got == Value3(False) <==> exists i | 0 <= i < |cs| && Kept(cs[i]) ::
            Executed(d, row, Only(cs[i])) == Value3(False))
  {
    GroupMeans(d, row, leaf, LogicAnd, cs);
    AllIff(KeptMeanings(leaf, cs));
    KeptInList(leaf, cs, True);
    KeptInList(leaf, cs, False);
    ConditionsMean(d, row, leaf, cs);
  }

  /** A disjunction likewise. */
  lemma {:induction false} OrRuns(d: Dialect, row: Row, leaf: LeafMeaning, cs: seq<Condition>)
    requires RunsAlone(d, row, leaf, cs) && exists i :: 0 <= i < |cs| && Kept(cs[i])
    ensures var got := Executed(d, row, Only(Logical(LogicOr, cs)));
      && (got == Value3(True) <==> exists i | 0 <= i < |cs| && Kept(cs[i]) ::
            Executed(d, row, Only(cs[i])) == Value3(True))
      && (got == Value3(False) <==> forall i :: 0 <= i < |cs| && Kept(cs[i]) ==>
            Executed(d, row, Only(cs[i])) == Value3(False))
  {
    GroupMeans(d, row, leaf, LogicOr, cs);
    AnyIff(KeptMeanings(leaf, cs));
    KeptInList(leaf, cs, True);
    KeptInList(leaf, cs, False);
    ConditionsMean(d, row, leaf, cs);
  }

  lemma {:induction false} NotRuns(d: Dialect, row: Row, leaf: LeafMeaning, c: Condition)
    requires Interprets(d, row, leaf, c) && !HasEmptyList(c) && Kept(c)
    ensures var got, inner := Executed(d, row, Only(Negation(c))), Executed(d, row, Only(c));
      && (got == Value3(True) <==> inner == Value3(False))
      && (got == Value3(False) <==> inner == Value3(True))
  {
    OnlyMeans(d, row, leaf, c);
    OnlyMeans(d, row, leaf, Negation(c));
  }

  /** A query selects a row if the search term, every condition that is kept and both id bounds hold on it. */
  lemma {:induction false} QuerySelects(d: Dialect, row: Row, leaf: LeafMeaning, q: Query)
    requires RunsAlone(d, row, leaf, q.conditions)
    ensures Executed(d, row, q) == Value3(True) <==>
      && (q.search.Some? ==> row.sql(FullText, [Text(q.search.value)]) == True)
      && (forall i :: 0 <= i < |q.conditions| && Kept(q.conditions[i]) ==>
            Executed(d, row, Only(q.conditions[i])) == Value3(True))
      && (q.afterID != "" ==> row.sql(IdAfter, [Text(q.afterID)]) == True)
      && (q.beforeID != "" ==> row.sql(IdBefore, [Text(q.beforeID)]) == True)
  {
    WhereMeansConjunction(d, row, leaf, q);
    QueryParts(row.sql, leaf, q);
    AllIff(QueryMeaning(row.sql, leaf, q));
    AllAreBoth(LeadMeaning(row.sql, q), KeptMeanings(leaf, q.conditions), True);
    AllAreBoth(LeadMeaning(row.sql, q) + KeptMeanings(leaf, q.conditions), CursorMeaning(row.sql, q), True);
    BoundsTrue(row.sql, q);
    KeptInList(leaf, q.conditions, True);
    ConditionsMean(d, row, leaf, q.conditions);
  }

  /** What each condition gives on its own. */
  lemma {:induction false} ConditionsMean(d: Dialect, row: Row, leaf: LeafMeaning, cs: seq<Condition>)
    requires RunsAlone(d, row, leaf, cs)
    ensures forall i :: 0 <= i < |cs| && Kept(cs[i]) ==> Executed(d, row, Only(cs[i])) == Value3(Meaning(leaf, cs[i]))
  {
    forall i | 0 <= i < |cs| && Kept(cs[i]) ensures Executed(d, row, Only(cs[i])) == Value3(Meaning(leaf, cs[i])) {
      OnlyMeans(d, row, leaf, cs[i]);
    }
  }

  lemma {:induction false} BoundsTrue(sql: SqlMeaning, q: Query)
    ensures AllAre(LeadMeaning(sql, q), True) <==>
      (q.search.Some? ==> sql(FullText, [Text(q.search.value)]) == True)
    ensures AllAre(CursorMeaning(sql, q), True) <==>
      (q.afterID != "" ==> sql(IdAfter, [Text(q.afterID)]) == True) &&
      (q.beforeID != "" ==> sql(IdBefore, [Text(q.beforeID)]) == True)
  {
    var after := if q.afterID == "" then [] else [sql(IdAfter, [Text(q.afterID)])];
    var before := if q.beforeID == "" then [] else [sql(IdBefore, [Text(q.beforeID)])];
    AllAreBoth(after, before, True);
    if q.search.Some? { assert LeadMeaning(sql, q)[0] == sql(FullText, [Text(q.search.value)]); }
    if q.afterID != "" { assert after[0] == sql(IdAfter, [Text(q.afterID)]); }
    if q.beforeID != "" { assert before[0] == sql(IdBefore, [Text(q.beforeID)]); }
  }
}

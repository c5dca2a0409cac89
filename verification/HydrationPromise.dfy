/**
  The promise of one query per level and target type, and the schemas that keep it whatever is stored: those in
  which no two paths of hydrated fields, equally long, end in the same type.
 */
module HydrationPromise {
  import opened Hydration
  import opened HydrationCost

  // -----------------------------------------------------------------------------------------
  // Paths
  // -----------------------------------------------------------------------------------------

  /** The fields of p can be hydrated one after the other, starting from type t. */
  predicate IsPath(w: World, t: Type, p: seq<nat>)
    decreases |p|
  {
    p == [] || (Wanted(w, t, p[0]) && IsPath(w, TargetType(w, t, p[0]), p[1..]))
  }

  function End(w: World, t: Type, p: seq<nat>): Type
    decreases |p|
  {
    if p == [] then t else End(w, TargetType(w, t, p[0]), p[1..])
  }

  /** Hydrating along p, which starts with one of the first n fields, ends with the query a. */
  predicate Makes(w: World, t: Type, d: int, n: nat, p: seq<nat>, a: Ask)
  {
    0 < |p| <= d && p[0] < n && IsPath(w, t, p) && a == Ask(d - |p| + 1, End(w, t, p))
  }

  /** Hydrating field f makes the query a, itself or further down. */
  ghost function FieldWays(w: World, t: Type, d: int, f: nat, a: Ask): nat
    decreases d, f, 0
  {
    var u := TargetType(w, t, f);
    if d <= 0 || !Wanted(w, t, f) then 0
    else (if a == Ask(d, u) then 1 else 0) + Ways(w, u, d - 1, |Fields(w, u)|, a)
  }

  /** In how many ways the first n fields make the query a. */
  ghost function Ways(w: World, t: Type, d: int, n: nat, a: Ask): nat
    decreases d, n
  {
    if d <= 0 || n == 0 then 0 else Ways(w, t, d, n - 1, a) + FieldWays(w, t, d, n - 1, a)
  }

  lemma {:induction false} MakesStep(w: World, t: Type, d: int, n: nat, p: seq<nat>, a: Ask)
    requires |p| > 1 && Wanted(w, t, p[0]) && p[0] < n
    ensures var u := TargetType(w, t, p[0]);
      Makes(w, t, d, n, p, a) <==> Makes(w, u, d - 1, |Fields(w, u)|, p[1..], a)
  {
    var u, r := TargetType(w, t, p[0]), p[1..];
    assert IsPath(w, t, p) <==> IsPath(w, u, r);
    assert End(w, t, p) == End(w, u, r);
    assert IsPath(w, u, r) ==> r[0] < |Fields(w, u)|;
  }

  lemma {:induction false} ShortMakes(w: World, t: Type, d: int, n: nat, p: seq<nat>, a: Ask)
    requires |p| == 1
    ensures Makes(w, t, d, n, p, a) <==> d > 0 && p[0] < n && Wanted(w, t, p[0]) && a == Ask(d, TargetType(w, t, p[0]))
  {
    var u := TargetType(w, t, p[0]);
    assert IsPath(w, u, p[1..]) && End(w, u, p[1..]) == u;
    assert IsPath(w, t, p) <==> Wanted(w, t, p[0]);
    assert End(w, t, p) == u;
  }

  lemma {:induction false} FieldCounts(w: World, t: Type, d: int, n: nat, p: seq<nat>, a: Ask)
    requires Makes(w, t, d, n, p, a)
    ensures FieldWays(w, t, d, p[0], a) >= 1
    decreases d, p[0], 0
  {
    if |p| > 1 {
      MakesStep(w, t, d, n, p, a);
      PathCounts(w, TargetType(w, t, p[0]), d - 1, |Fields(w, TargetType(w, t, p[0]))|, p[1..], a);
    } else {
      ShortMakes(w, t, d, n, p, a);
    }
  }

  lemma {:induction false} PathCounts(w: World, t: Type, d: int, n: nat, p: seq<nat>, a: Ask)
    requires Makes(w, t, d, n, p, a)
    ensures Ways(w, t, d, n, a) >= 1
    decreases d, n
  {
    if p[0] < n - 1 {
      PathCounts(w, t, d, n - 1, p, a);
    } else {
      FieldCounts(w, t, d, n, p, a);
    }
  }

  /** Two paths to one query through the same field. */
  lemma {:induction false} FieldCountsTwice(w: World, t: Type, d: int, n: nat, p: seq<nat>, q: seq<nat>, a: Ask)
    requires p != q && Makes(w, t, d, n, p, a) && Makes(w, t, d, n, q, a) && p[0] == q[0]
    ensures FieldWays(w, t, d, p[0], a) >= 2
    decreases d, p[0], 0
  {
    assert p == [p[0]] + p[1..] && q == [q[0]] + q[1..];
    if |p| > 1 {
      MakesStep(w, t, d, n, p, a);
      MakesStep(w, t, d, n, q, a);
      PathsCount(w, TargetType(w, t, p[0]), d - 1, |Fields(w, TargetType(w, t, p[0]))|, p[1..], q[1..], a);
    }
  }

  lemma {:induction false} PathsCount(w: World, t: Type, d: int, n: nat, p: seq<nat>, q: seq<nat>, a: Ask)
    requires p != q && Makes(w, t, d, n, p, a) && Makes(w, t, d, n, q, a)
    ensures Ways(w, t, d, n, a) >= 2
    decreases d, n
  {
    if p[0] < n - 1 && q[0] < n - 1 {
      PathsCount(w, t, d, n - 1, p, q, a);
    } else if p[0] == q[0] {
      FieldCountsTwice(w, t, d, n, p, q, a);
    } else if p[0] < q[0] {
      PathCounts(w, t, d, n - 1, p, a);
      FieldCounts(w, t, d, n, q, a);
    } else {
      PathCounts(w, t, d, n - 1, q, a);
      FieldCounts(w, t, d, n, p, a);
    }
  }

  lemma {:induction false} OnePath(w: World, t: Type, d: int, n: nat, a: Ask) returns (p: seq<nat>)
    requires Ways(w, t, d, n, a) >= 1
    ensures Makes(w, t, d, n, p, a) && a.left <= d
    decreases d, n
  {
    if Ways(w, t, d, n - 1, a) >= 1 {
      p := OnePath(w, t, d, n - 1, a);
    } else {
      p := OneOfField(w, t, d, n - 1, n, a);
    }
  }

  lemma {:induction false} OneOfField(w: World, t: Type, d: int, f: nat, n: nat, a: Ask) returns (p: seq<nat>)
    requires f < n && FieldWays(w, t, d, f, a) >= 1
    ensures Makes(w, t, d, n, p, a) && p[0] == f && a.left <= d
    decreases d, f, 0
  {
    var u := TargetType(w, t, f);
    if a == Ask(d, u) {
      p := [f];
      ShortMakes(w, t, d, n, p, a);
    } else {
      var q := OnePath(w, u, d - 1, |Fields(w, u)|, a);
      p := [f] + q;
      assert p[1..] == q;
      MakesStep(w, t, d, n, p, a);
    }
  }

  lemma {:induction false} TwoOfField(w: World, t: Type, d: int, f: nat, n: nat, a: Ask)
    returns (p: seq<nat>, q: seq<nat>)
    requires f < n && FieldWays(w, t, d, f, a) >= 2
    ensures p != q && Makes(w, t, d, n, p, a) && Makes(w, t, d, n, q, a)
    decreases d, f, 0
  {
    var u := TargetType(w, t, f);
    var r := OnePath(w, u, d - 1, |Fields(w, u)|, a);
    var p', q' := TwoPaths(w, u, d - 1, |Fields(w, u)|, a);
    p, q := [f] + p', [f] + q';
    assert p[1..] == p' && q[1..] == q';
    MakesStep(w, t, d, n, p, a);
    MakesStep(w, t, d, n, q, a);
  }

  lemma {:induction false} TwoPaths(w: World, t: Type, d: int, n: nat, a: Ask) returns (p: seq<nat>, q: seq<nat>)
    requires Ways(w, t, d, n, a) >= 2
    ensures p != q && Makes(w, t, d, n, p, a) && Makes(w, t, d, n, q, a)
    decreases d, n
  {
    if Ways(w, t, d, n - 1, a) >= 2 {
      p, q := TwoPaths(w, t, d, n - 1, a);
    } else if Ways(w, t, d, n - 1, a) == 1 {
      p := OnePath(w, t, d, n - 1, a);
      q := OneOfField(w, t, d, n - 1, n, a);
    } else {
      p, q := TwoOfField(w, t, d, n - 1, n, a);
    }
  }

  /** No two different paths of one length, from t and not longer than depth, end in the same type. */
  ghost predicate PathsApart(w: World, t: Type, depth: int)
  {
    forall p, q ::
      IsPath(w, t, p) && IsPath(w, t, q) && 0 < |p| <= depth && |p| == |q| && End(w, t, p) == End(w, t, q) ==> p == q
  }

  ghost predicate OneWayEach(w: World, t: Type, depth: int)
  {
    forall a :: Ways(w, t, depth, |Fields(w, t)|, a) <= 1
  }

  lemma {:induction false} OneWayIffApart(w: World, t: Type, depth: int)
    ensures OneWayEach(w, t, depth) <==> PathsApart(w, t, depth)
  {
    var n := |Fields(w, t)|;
    if !OneWayEach(w, t, depth) {
      var a :| Ways(w, t, depth, n, a) > 1;
      var p, q := TwoPaths(w, t, depth, n, a);
    }
    if !PathsApart(w, t, depth) {
      var p, q :| IsPath(w, t, p) && IsPath(w, t, q) && 0 < |p| <= depth && |p| == |q| &&
        End(w, t, p) == End(w, t, q) && p != q;
      PathsCount(w, t, depth, n, p, q, Ask(depth - |p| + 1, End(w, t, p)));
    }
  }

  // -----------------------------------------------------------------------------------------
  // No call asks more than the paths, and a complete store is asked for all of them
  // -----------------------------------------------------------------------------------------

  lemma {:induction false} FieldWithinWays(w: World, t: Type, f: nat, ids: set<Id>, d: int, a: Ask)
    requires Wanted(w, t, f)
    ensures FieldAsks(w, TargetType(w, t, f), ids, d)[a] <= FieldWays(w, t, d, f, a)
    decreases d, 0
  {
    var u := TargetType(w, t, f);
    if d > 0 { LevelWithinWays(w, u, ids, d - 1, |Fields(w, u)|, a); }
  }

  lemma {:induction false} LevelWithinWays(w: World, t: Type, docs: set<Id>, d: int, n: nat, a: Ask)
    ensures LevelAsks(w, t, docs, d, n)[a] <= Ways(w, t, d, n, a)
    decreases d, n + 1
  {
    if n == 0 {
    } else {
      LevelWithinWays(w, t, docs, d, n - 1, a);
      if Wanted(w, t, n - 1) { FieldWithinWays(w, t, n - 1, LinkIds(w, t, docs, n - 1), d, a); }
    }
  }

  lemma {:induction false} CallWithinWays(w: World, h: Heap, docs: set<Ref>, t: Type, depth: int, n: nat, a: Ask)
    requires forall p :: p in docs ==> p < |h.objects| && h.objects[p].typ == t
    ensures CallAsks(w, h, docs, t, depth, n)[a] <= Ways(w, t, depth, n, a)
  {
    if n == 0 {
    } else {
      CallWithinWays(w, h, docs, t, depth, n - 1, a);
      if Wanted(w, t, n - 1) {
        FieldWithinWays(w, t, n - 1, PendingIds(w, h, docs, n - 1, depth), depth, a);
      } else {
        assert PendingIds(w, h, docs, n - 1, depth) == {};
      }
    }
  }

  lemma {:induction false} LevelStepAt(w: World, t: Type, ids: set<Id>, d: int, n: nat, a: Ask)
    requires d > 0 && Closed(w, ids) && t in w.store && 0 < n <= |Fields(w, t)|
    ensures var u := TargetType(w, t, n - 1);
      u in w.store &&
      LevelAsks(w, t, ids, d, n)[a] == LevelAsks(w, t, ids, d, n - 1)[a] +
        if Wanted(w, t, n - 1) then
          (if a == Ask(d, u) then 1 else 0) + LevelAsks(w, u, ids, d - 1, |Fields(w, u)|)[a]
        else 0
  {
    assert LeadsOn(w, t, ids, n - 1);
  }

  lemma {:induction false} CompleteAsksAll(w: World, t: Type, ids: set<Id>, d: int, n: nat, a: Ask)
    requires Closed(w, ids) && t in w.store && n <= |Fields(w, t)|
    ensures LevelAsks(w, t, ids, d, n)[a] == Ways(w, t, d, n, a)
    decreases d, n
  {
    if d <= 0 {
      LevelWithinWays(w, t, ids, d, n, a);
    } else if n == 0 {
    } else {
      CompleteAsksAll(w, t, ids, d, n - 1, a);
      LevelStepAt(w, t, ids, d, n, a);
      CompleteAsksAll(w, TargetType(w, t, n - 1), ids, d - 1, |Fields(w, TargetType(w, t, n - 1))|, a);
    }
  }

  /** The ways are a matter of schema and mode alone. */
  lemma {:induction false} SameFieldWays(w: World, v: World, t: Type, d: int, f: nat, a: Ask)
    requires w.schema == v.schema && w.mode == v.mode
    ensures FieldWays(w, t, d, f, a) == FieldWays(v, t, d, f, a)
    decreases d, f, 0
  {
    var u := TargetType(w, t, f);
    if d > 0 { SameWays(w, v, u, d - 1, |Fields(w, u)|, a); }
  }

  lemma {:induction false} SameWays(w: World, v: World, t: Type, d: int, n: nat, a: Ask)
    requires w.schema == v.schema && w.mode == v.mode
    ensures Ways(w, t, d, n, a) == Ways(v, t, d, n, a)
    decreases d, n
  {
    if d <= 0 || n == 0 {
    } else {
      SameWays(w, v, t, d, n - 1, a);
      SameFieldWays(w, v, t, d, n - 1, a);
    }
  }

  // -----------------------------------------------------------------------------------------
  // The promise
  // -----------------------------------------------------------------------------------------

  /** The call asks each collection at most once on each level. */
  ghost predicate OncePerLevel(w: World, h: Heap, docs: set<Ref>, t: Type, depth: int)
  {
    forall a :: CallAsks(w, h, docs, t, depth, |Fields(w, t)|)[a] <= 1
  }

  /** Of this schema and mode, whatever is stored, every successful call on documents of type t does. */
  ghost predicate KeepsPromise(schema: map<Type, seq<LinkField>>, mode: Mode, t: Type, depth: int)
  {
    forall w: World, h, docs :: w.schema == schema && w.mode == mode && Succeeds(w, h, docs, t, depth) ==>
      OncePerLevel(w, h, docs, t, depth)
  }

  /** One new document of a complete store is a successful call. */
  lemma {:induction false} CompleteSucceeds(schema: map<Type, seq<LinkField>>, mode: Mode, t: Type, depth: int, n: nat)
    returns (w: World, h: Heap)
    requires t in schema
    ensures w.schema == schema && w.mode == mode && Closed(w, {"x"}) && t in w.store && Succeeds(w, h, {0}, t, depth)
    ensures CallAsks(w, h, {0}, t, depth, n) == LevelAsks(w, t, {"x"}, depth, n)
    ensures CallCost(w, h, {0}, t, depth, n) == LevelCost(w, t, {"x"}, depth, n)
  {
    w := Complete(schema, mode);
    CompleteIsComplete(schema, mode);
    h := Fresh(w, t);
    CompleteCall(w, t, depth, n);
    CompleteIsClosed(w);
  }

  lemma {:induction false} SameApart(w: World, v: World, t: Type, depth: int)
    requires w.schema == v.schema && w.mode == v.mode
    ensures OneWayEach(w, t, depth) <==> PathsApart(v, t, depth)
  {
    OneWayIffApart(v, t, depth);
    forall a ensures Ways(w, t, depth, |Fields(w, t)|, a) == Ways(v, t, depth, |Fields(v, t)|, a) {
      SameWays(w, v, t, depth, |Fields(w, t)|, a);
    }
  }

  /**
    One query per level and target type, whatever is stored, exactly when the schema keeps equally long paths
    apart.
   */
  lemma {:induction false} PromiseIffPathsApart(schema: map<Type, seq<LinkField>>, mode: Mode, t: Type, depth: int)
    ensures KeepsPromise(schema, mode, t, depth) <==> PathsApart(World(schema, map[], mode), t, depth)
  {
    var v := World(schema, map[], mode);
    if PathsApart(v, t, depth) {
      forall w: World, h, docs | w.schema == schema && w.mode == mode && Succeeds(w, h, docs, t, depth)
        ensures OncePerLevel(w, h, docs, t, depth)
      {
        SameApart(w, v, t, depth);
        forall a ensures CallAsks(w, h, docs, t, depth, |Fields(w, t)|)[a] <= 1 {
          CallWithinWays(w, h, docs, t, depth, |Fields(w, t)|, a);
        }
      }
    } else {
      OneWayIffApart(v, t, depth);
      var a :| Ways(v, t, depth, |Fields(v, t)|, a) > 1;
      var w, h := CompleteSucceeds(schema, mode, t, depth, |Fields(v, t)|);
      SameWays(w, v, t, depth, |Fields(v, t)|, a);
      CompleteAsksAll(w, t, {"x"}, depth, |Fields(v, t)|, a);
      assert !OncePerLevel(w, h, {0}, t, depth);
    }
  }

  // -----------------------------------------------------------------------------------------
  // The promise as a number
  // -----------------------------------------------------------------------------------------

  /** The number of paths of at most d hydrated fields that start with one of the first n fields of t. */
  ghost function PathCount(w: World, t: Type, d: int, n: nat): nat
    decreases d, n
  {
    if d <= 0 || n == 0 then 0
    else
      PathCount(w, t, d, n - 1) + if Wanted(w, t, n - 1) then
        1 + PathCount(w, TargetType(w, t, n - 1), d - 1, |Fields(w, TargetType(w, t, n - 1))|) else 0
  }

  /** The types that such paths end in. */
  ghost function Kinds(w: World, t: Type, d: int, n: nat): (kinds: set<Type>)
    decreases d, n
  {
    if d <= 0 || n == 0 then {}
    else
      var u := TargetType(w, t, n - 1);
      Kinds(w, t, d, n - 1) + if Wanted(w, t, n - 1) then {u} + Kinds(w, u, d - 1, |Fields(w, u)|) else {}
  }

  /** At most levels times target types queries. */
  ghost predicate WithinProduct(w: World, h: Heap, docs: set<Ref>, t: Type, depth: int)
  {
    |CallAsks(w, h, docs, t, depth, |Fields(w, t)|)| <= depth * |Kinds(w, t, depth, |Fields(w, t)|)|
  }

  ghost predicate KeepsProduct(schema: map<Type, seq<LinkField>>, mode: Mode, t: Type, depth: int)
  {
    forall w: World, h, docs :: w.schema == schema && w.mode == mode && Succeeds(w, h, docs, t, depth) ==>
      WithinProduct(w, h, docs, t, depth)
  }

  lemma {:induction false} CostWithinPaths(w: World, t: Type, docs: set<Id>, d: int, n: nat)
    ensures LevelCost(w, t, docs, d, n) <= PathCount(w, t, d, n)
    decreases d, n
  {
    if d <= 0 {
      NoLevel(w, t, docs, d, n);
    } else if n == 0 {
    } else {
      var u := TargetType(w, t, n - 1);
      CostWithinPaths(w, t, docs, d, n - 1);
      CostWithinPaths(w, u, LinkIds(w, t, docs, n - 1), d - 1, |Fields(w, u)|);
    }
  }

  lemma {:induction false} CallWithinPaths(w: World, h: Heap, docs: set<Ref>, t: Type, depth: int, n: nat)
    requires forall p :: p in docs ==> p < |h.objects| && h.objects[p].typ == t
    ensures CallCost(w, h, docs, t, depth, n) <= PathCount(w, t, depth, n)
  {
    if n == 0 {
    } else {
      var u, ids := TargetType(w, t, n - 1), PendingIds(w, h, docs, n - 1, depth);
      CallWithinPaths(w, h, docs, t, depth, n - 1);
      CostWithinPaths(w, u, ids, depth - 1, |Fields(w, u)|);
      if !Wanted(w, t, n - 1) { assert ids == {}; }
    }
  }

  lemma {:induction false} CompleteCostsAll(w: World, t: Type, ids: set<Id>, d: int, n: nat)
    requires Closed(w, ids) && t in w.store && n <= |Fields(w, t)|
    ensures LevelCost(w, t, ids, d, n) == PathCount(w, t, d, n)
    decreases d, n
  {
    if d <= 0 {
      NoLevel(w, t, ids, d, n);
    } else if n == 0 {
    } else {
      CompleteCostsAll(w, t, ids, d, n - 1);
      LevelStep(w, t, ids, d, n);
      CompleteCostsAll(w, TargetType(w, t, n - 1), ids, d - 1, |Fields(w, TargetType(w, t, n - 1))|);
    }
  }

  lemma {:induction false} SamePaths(w: World, v: World, t: Type, d: int, n: nat)
    requires w.schema == v.schema && w.mode == v.mode
    ensures PathCount(w, t, d, n) == PathCount(v, t, d, n) && Kinds(w, t, d, n) == Kinds(v, t, d, n)
    decreases d, n
  {
    if d <= 0 || n == 0 {
    } else {
      SamePaths(w, v, t, d, n - 1);
      SamePaths(w, v, TargetType(w, t, n - 1), d - 1, |Fields(w, TargetType(w, t, n - 1))|);
    }
  }

  /** Levels times target types bounds every successful call exactly when it bounds the number of paths. */
  lemma {:induction false} ProductIffFewPaths(schema: map<Type, seq<LinkField>>, mode: Mode, t: Type, depth: int)
    ensures var v := World(schema, map[], mode);
      KeepsProduct(schema, mode, t, depth) <==>
      PathCount(v, t, depth, |Fields(v, t)|) <= depth * |Kinds(v, t, depth, |Fields(v, t)|)|
  {
    var v := World(schema, map[], mode);
    var n := |Fields(v, t)|;
    if PathCount(v, t, depth, n) <= depth * |Kinds(v, t, depth, n)| {
      forall w: World, h, docs | w.schema == schema && w.mode == mode && Succeeds(w, h, docs, t, depth)
        ensures WithinProduct(w, h, docs, t, depth)
      {
        SamePaths(w, v, t, depth, n);
        CallWithinPaths(w, h, docs, t, depth, n);
        CallCount(w, h, docs, t, depth, n);
      }
    } else {
      var w, h := CompleteSucceeds(schema, mode, t, depth, n);
      SamePaths(w, v, t, depth, n);
      CompleteCostsAll(w, t, {"x"}, depth, n);
      CallCount(w, h, {0}, t, depth, n);
      assert !WithinProduct(w, h, {0}, t, depth);
    }
  }
}

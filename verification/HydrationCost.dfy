/**
  What batched hydration costs: one query per link field and distinct path of fields, however many parents
  there are.
 */
module HydrationCost {
  import opened Hydration

  /** The link ids that the rows docs of type t hold in field f. */
  ghost function LinkIds(w: World, t: Type, docs: set<Id>, f: nat): (ids: set<Id>)
  {
    set id, j | id in docs && Found(w, t, id) && f < |Links(w, t, id)| && 0 <= j < |Links(w, t, id)[f]| &&
      Links(w, t, id)[f][j] != "" ::
      Links(w, t, id)[f][j]
  }

  /** One query, by how many levels were left to hydrate and which collection it asks. */
  datatype Ask = Ask(left: int, typ: Type)

  /** Queries for hydrating one field that points at the given ids of type u: its own and those of the level below. */
  ghost function FieldAsks(w: World, u: Type, ids: set<Id>, d: int): multiset<Ask>
    decreases d, 0
  {
    if d <= 0 || ids == {} then multiset{} else multiset{Ask(d, u)} + LevelAsks(w, u, ids, d - 1, |Fields(w, u)|)
  }

  /** Queries for the first n fields of new documents decoded from the rows docs. */
  ghost function LevelAsks(w: World, t: Type, docs: set<Id>, d: int, n: nat): multiset<Ask>
    decreases d, n + 1
  {
    if n == 0 then multiset{}
    else
      LevelAsks(w, t, docs, d, n - 1) +
      if Wanted(w, t, n - 1) then FieldAsks(w, TargetType(w, t, n - 1), LinkIds(w, t, docs, n - 1), d) else multiset{}
  }

  /** The distinct ids that a call must fetch for field f. */
  ghost function PendingIds(w: World, h: Heap, docs: set<Ref>, f: nat, depth: int): set<Id>
  {
    set l | l in Due(w, h, docs, depth) && l.field == f :: h.slots[l].id
  }

  /** Queries for the first n fields of the documents docs as they are now. */
  ghost function CallAsks(w: World, h: Heap, docs: set<Ref>, t: Type, depth: int, n: nat): multiset<Ask>
  {
    if n == 0 then multiset{}
    else
      CallAsks(w, h, docs, t, depth, n - 1) +
      FieldAsks(w, TargetType(w, t, n - 1), PendingIds(w, h, docs, n - 1, depth), depth)
  }

  // -----------------------------------------------------------------------------------------
  // Documents as they come from the store
  // -----------------------------------------------------------------------------------------

  /** Document p was decoded from one of the rows ids and nothing of it is loaded. */
  ghost predicate FromRows(w: World, h: Heap, p: Ref, t: Type, ids: set<Id>)
  {
    exists id :: id in ids && Hydrated(w, h, 0, p, t, id, 0)
  }

  /** One of the documents docs was decoded from row id and nothing of it is loaded. */
  ghost predicate HasDocument(w: World, h: Heap, docs: set<Ref>, t: Type, id: Id)
  {
    exists p :: p in docs && Hydrated(w, h, 0, p, t, id, 0)
  }

  /** The documents docs are those of the rows ids, nothing of them loaded. */
  ghost predicate DecodedFrom(w: World, h: Heap, docs: set<Ref>, t: Type, ids: set<Id>)
  {
    (forall p :: p in docs ==> FromRows(w, h, p, t, ids)) && forall id :: id in ids ==> HasDocument(w, h, docs, t, id)
  }

  lemma {:induction false} SlotOfRow(w: World, h: Heap, t: Type, id: Id, l: Loc)
    requires WellFormed(w, h) && Hydrated(w, h, 0, l.doc, t, id, 0)
    ensures l in h.slots <==> l.field < |Links(w, t, id)| && l.index < |Links(w, t, id)[l.field]|
    ensures l in h.slots ==> IsLoc(h, l) && h.objects[l.doc].typ == t && !h.slots[l].loaded
    ensures l in h.slots ==> h.slots[l].id == Links(w, t, id)[l.field][l.index]
  {
    assert l in h.slots <==> IsLoc(h, l);
  }

  lemma {:induction false} PendingId(w: World, h: Heap, docs: set<Ref>, t: Type, ids: set<Id>, l: Loc, d: int)
    requires WellFormed(w, h) && FromRows(w, h, l.doc, t, ids) && l in Due(w, h, docs, d)
    ensures Wanted(w, t, l.field) && h.slots[l].id in LinkIds(w, t, ids, l.field)
  {
    var id :| id in ids && Hydrated(w, h, 0, l.doc, t, id, 0);
    SlotOfRow(w, h, t, id, l);
  }

  lemma {:induction false} LinkedId(w: World, h: Heap, docs: set<Ref>, t: Type, id: Id, f: nat, j: nat, d: int)
    requires d > 0 && WellFormed(w, h) && HasDocument(w, h, docs, t, id) && Wanted(w, t, f) && Found(w, t, id)
    requires f < |Links(w, t, id)| && j < |Links(w, t, id)[f]| && Links(w, t, id)[f][j] != ""
    ensures Links(w, t, id)[f][j] in PendingIds(w, h, docs, f, d)
  {
    var p :| p in docs && Hydrated(w, h, 0, p, t, id, 0);
    var l := Loc(p, f, j);
    SlotOfRow(w, h, t, id, l);
    assert l in Due(w, h, docs, d);
  }

  lemma {:induction false} PendingIsLinked(w: World, h: Heap, docs: set<Ref>, t: Type, ids: set<Id>, f: nat, d: int)
    requires d > 0 && WellFormed(w, h) && DecodedFrom(w, h, docs, t, ids)
    ensures PendingIds(w, h, docs, f, d) == if Wanted(w, t, f) then LinkIds(w, t, ids, f) else {}
  {
    forall i | i in PendingIds(w, h, docs, f, d) ensures Wanted(w, t, f) && i in LinkIds(w, t, ids, f) {
      var l :| l in Due(w, h, docs, d) && l.field == f && h.slots[l].id == i;
      PendingId(w, h, docs, t, ids, l, d);
    }
    if Wanted(w, t, f) {
      forall i | i in LinkIds(w, t, ids, f) ensures i in PendingIds(w, h, docs, f, d) {
        var id, j :| id in ids && Found(w, t, id) && f < |Links(w, t, id)| && 0 <= j < |Links(w, t, id)[f]| &&
          Links(w, t, id)[f][j] == i && i != "";
        LinkedId(w, h, docs, t, id, f, j, d);
      }
    }
  }

  lemma {:induction false} NewFieldAsks(w: World, h: Heap, docs: set<Ref>, t: Type, ids: set<Id>, f: nat, d: int)
    requires WellFormed(w, h) && DecodedFrom(w, h, docs, t, ids)
    ensures FieldAsks(w, TargetType(w, t, f), PendingIds(w, h, docs, f, d), d) ==
      if Wanted(w, t, f) then FieldAsks(w, TargetType(w, t, f), LinkIds(w, t, ids, f), d) else multiset{}
  {
    if d > 0 { PendingIsLinked(w, h, docs, t, ids, f, d); }
  }

  /** What new documents cost depends on their rows alone, not on how many documents there are. */
  lemma {:induction false} NewDocumentsAsk(w: World, h: Heap, docs: set<Ref>, t: Type, ids: set<Id>, d: int, n: nat)
    requires WellFormed(w, h) && DecodedFrom(w, h, docs, t, ids)
    ensures CallAsks(w, h, docs, t, d, n) == LevelAsks(w, t, ids, d, n)
  {
    if n == 0 {
    } else {
      NewDocumentsAsk(w, h, docs, t, ids, d, n - 1);
      NewFieldAsks(w, h, docs, t, ids, n - 1, d);
    }
  }

  /** Where nothing is due no query is needed. */
  lemma {:induction false} NothingAsked(w: World, h: Heap, docs: set<Ref>, t: Type, depth: int, n: nat)
    requires Due(w, h, docs, depth) == {}
    ensures CallAsks(w, h, docs, t, depth, n) == multiset{}
  {
    if n == 0 {
    } else {
      NothingAsked(w, h, docs, t, depth, n - 1);
      assert PendingIds(w, h, docs, n - 1, depth) == {};
    }
  }

  lemma {:induction false} NoAsks(w: World, t: Type, docs: set<Id>, d: int, n: nat)
    requires d <= 0
    ensures LevelAsks(w, t, docs, d, n) == multiset{}
  {
    if n == 0 {
    } else {
      NoAsks(w, t, docs, d, n - 1);
    }
  }

  // -----------------------------------------------------------------------------------------
  // Their number
  // -----------------------------------------------------------------------------------------

  /** How many queries one field takes. */
  ghost function FieldCost(w: World, u: Type, ids: set<Id>, d: int): nat
    decreases d, 0
  {
    if d <= 0 || ids == {} then 0 else 1 + LevelCost(w, u, ids, d - 1, |Fields(w, u)|)
  }

  /** How many the first n fields of new documents take. */
  ghost function LevelCost(w: World, t: Type, docs: set<Id>, d: int, n: nat): nat
    decreases d, n + 1
  {
    if n == 0 then 0
    else
      LevelCost(w, t, docs, d, n - 1) +
      if Wanted(w, t, n - 1) then FieldCost(w, TargetType(w, t, n - 1), LinkIds(w, t, docs, n - 1), d) else 0
  }

  /** How many a call takes for the first n fields. */
  ghost function CallCost(w: World, h: Heap, docs: set<Ref>, t: Type, depth: int, n: nat): nat
  {
    if n == 0 then 0
    else
      CallCost(w, h, docs, t, depth, n - 1) +
      FieldCost(w, TargetType(w, t, n - 1), PendingIds(w, h, docs, n - 1, depth), depth)
  }

  lemma {:induction false} FieldCount(w: World, u: Type, ids: set<Id>, d: int)
    ensures |FieldAsks(w, u, ids, d)| == FieldCost(w, u, ids, d)
    decreases d, 0
  {
    if d <= 0 || ids == {} {
    } else {
      LevelCount(w, u, ids, d - 1, |Fields(w, u)|);
    }
  }

  lemma {:induction false} LevelCount(w: World, t: Type, docs: set<Id>, d: int, n: nat)
    ensures |LevelAsks(w, t, docs, d, n)| == LevelCost(w, t, docs, d, n)
    decreases d, n + 1
  {
    if n == 0 {
    } else {
      LevelCount(w, t, docs, d, n - 1);
      FieldCount(w, TargetType(w, t, n - 1), LinkIds(w, t, docs, n - 1), d);
    }
  }

  lemma {:induction false} CallCount(w: World, h: Heap, docs: set<Ref>, t: Type, depth: int, n: nat)
    ensures |CallAsks(w, h, docs, t, depth, n)| == CallCost(w, h, docs, t, depth, n)
  {
    if n == 0 {
    } else {
      CallCount(w, h, docs, t, depth, n - 1);
      FieldCount(w, TargetType(w, t, n - 1), PendingIds(w, h, docs, n - 1, depth), depth);
    }
  }

  // -----------------------------------------------------------------------------------------
  // How large the cost gets
  // -----------------------------------------------------------------------------------------

  /** k + k^2 + ... + k^depth. */
  function QueryBound(k: nat, depth: int): nat
  {
    if depth <= 0 then 0 else QueryBound(k, depth - 1) + Power(k, depth)
  }

  function Power(k: nat, n: nat): nat
  {
    if n == 0 then 1 else k * Power(k, n - 1)
  }

  /** A level costs one query per link field and what the targets of that field cost. */
  lemma {:induction false} QueryBoundUnfolds(k: nat, depth: int)
    requires depth > 0
    ensures QueryBound(k, depth) == k * (1 + QueryBound(k, depth - 1))
  {
    if depth > 1 {
      QueryBoundUnfolds(k, depth - 1);
      assert Power(k, depth) == k * Power(k, depth - 1);
      assert QueryBound(k, depth - 1) == QueryBound(k, depth - 2) + Power(k, depth - 1);
      Distributes(k, 1 + QueryBound(k, depth - 2), Power(k, depth - 1));
    } else {
      assert Power(k, 1) == k * Power(k, 0);
    }
  }

  lemma {:induction false} Distributes(k: nat, x: nat, y: nat)
    ensures k * (x + y) == k * x + k * y
  {
  }

  ghost predicate FieldsWithin(schema: map<Type, seq<LinkField>>, k: nat)
  {
    forall t :: t in schema ==> |schema[t]| <= k
  }

  lemma {:induction false} OneMore(f: nat, cost: nat)
    ensures f * cost + cost == (f + 1) * cost
  {
  }

  lemma {:induction false} TimesGrows(f: nat, k: nat, cost: nat)
    requires f <= k
    ensures f * cost <= k * cost
  {
    assert k * cost == f * cost + (k - f) * cost;
    assert (k - f) * cost >= 0;
  }

  lemma {:induction false} FieldWithin(w: World, u: Type, ids: set<Id>, d: int, k: nat)
    requires FieldsWithin(w.schema, k)
    ensures FieldCost(w, u, ids, d) <= if d <= 0 then 0 else 1 + QueryBound(k, d - 1)
    decreases d, 0
  {
    if d > 0 {
      LevelWithin(w, u, ids, d - 1, |Fields(w, u)|, k);
    }
  }

  lemma {:induction false} LevelWithin(w: World, t: Type, docs: set<Id>, d: int, n: nat, k: nat)
    requires FieldsWithin(w.schema, k) && n <= |Fields(w, t)|
    ensures LevelCost(w, t, docs, d, n) <= QueryBound(k, d)
    decreases d, n + 1
  {
    LevelTimes(w, t, docs, d, n, k);
    if d > 0 {
      TimesGrows(n, k, 1 + QueryBound(k, d - 1));
      QueryBoundUnfolds(k, d);
    }
  }

  lemma {:induction false} LevelTimes(w: World, t: Type, docs: set<Id>, d: int, n: nat, k: nat)
    requires FieldsWithin(w.schema, k)
    ensures LevelCost(w, t, docs, d, n) <= if d <= 0 then 0 else n * (1 + QueryBound(k, d - 1))
    decreases d, n
  {
    if n == 0 {
    } else {
      LevelTimes(w, t, docs, d, n - 1, k);
      FieldWithin(w, TargetType(w, t, n - 1), LinkIds(w, t, docs, n - 1), d, k);
      if d > 0 { OneMore(n - 1, 1 + QueryBound(k, d - 1)); }
    }
  }

  lemma {:induction false} CallTimes(w: World, h: Heap, docs: set<Ref>, t: Type, depth: int, n: nat, k: nat)
    requires FieldsWithin(w.schema, k)
    ensures CallCost(w, h, docs, t, depth, n) <= if depth <= 0 then 0 else n * (1 + QueryBound(k, depth - 1))
  {
    if n == 0 {
    } else {
      CallTimes(w, h, docs, t, depth, n - 1, k);
      FieldWithin(w, TargetType(w, t, n - 1), PendingIds(w, h, docs, n - 1, depth), depth, k);
      if depth > 0 { OneMore(n - 1, 1 + QueryBound(k, depth - 1)); }
    }
  }

  /** With at most k link fields per type a call of the given depth needs at most k + ... + k^depth queries. */
  lemma {:induction false} CallWithin(w: World, h: Heap, docs: set<Ref>, t: Type, depth: int, k: nat)
    requires FieldsWithin(w.schema, k)
    ensures CallCost(w, h, docs, t, depth, |Fields(w, t)|) <= QueryBound(k, depth)
  {
    CallTimes(w, h, docs, t, depth, |Fields(w, t)|, k);
    if depth > 0 {
      TimesGrows(|Fields(w, t)|, k, 1 + QueryBound(k, depth - 1));
      QueryBoundUnfolds(k, depth);
    }
  }

  // -----------------------------------------------------------------------------------------
  // Stores in which every field holds a link
  // -----------------------------------------------------------------------------------------

  /** The types that some link field points at. */
  function Targets(schema: map<Type, seq<LinkField>>): set<Type>
  {
    set t, f | t in schema && 0 <= f < |schema[t]| :: schema[t][f].target
  }

  /** One row "x" of every type, each of its fields holding one link to the row "x" of the field's target type. */
  function Complete(schema: map<Type, seq<LinkField>>, mode: Mode): World
  {
    var row := (t: Type) => Row(seq(if t in schema then |schema[t]| else 0, _ => ["x"]));
    World(schema, map t | t in schema.Keys + Targets(schema) :: map["x" := row(t)], mode)
  }

  predicate IsComplete(w: World)
  {
    w.schema.Keys <= w.store.Keys &&
    (forall t :: t in w.store ==> Found(w, t, "x")) &&
    forall t, f :: t in w.store && 0 <= f < |Fields(w, t)| ==>
      Links(w, t, "x")[f] == ["x"] && TargetType(w, t, f) in w.store
  }

  lemma {:induction false} CompleteIsComplete(schema: map<Type, seq<LinkField>>, mode: Mode)
    ensures var w := Complete(schema, mode); IsComplete(w) && w.schema == schema && w.mode == mode
  {
    var w := Complete(schema, mode);
    forall t, f | t in w.store && 0 <= f < |Fields(w, t)|
      ensures Links(w, t, "x")[f] == ["x"] && TargetType(w, t, f) in w.store
    {
      assert schema[t][f].target in Targets(schema);
    }
  }

  /** Field f of the rows ids leads to the rows ids of a stored type. */
  ghost predicate LeadsOn(w: World, t: Type, ids: set<Id>, f: nat)
  {
    LinkIds(w, t, ids, f) == ids && TargetType(w, t, f) in w.store
  }

  /** Every field of the rows ids leads to the rows ids of its target type again. */
  ghost predicate Closed(w: World, ids: set<Id>)
  {
    ids != {} && forall t, f :: t in w.store && 0 <= f < |Fields(w, t)| ==> LeadsOn(w, t, ids, f)
  }

  lemma {:induction false} CompleteIsClosed(w: World)
    requires IsComplete(w)
    ensures Closed(w, {"x"})
  {
    forall t, f | t in w.store && 0 <= f < |Fields(w, t)| ensures LeadsOn(w, t, {"x"}, f) {
      assert Links(w, t, "x")[f][0] in LinkIds(w, t, {"x"}, f);
    }
  }

  lemma {:induction false} LevelStep(w: World, t: Type, ids: set<Id>, d: int, n: nat)
    requires d > 0 && Closed(w, ids) && t in w.store && 0 < n <= |Fields(w, t)|
    ensures TargetType(w, t, n - 1) in w.store
    ensures var u := TargetType(w, t, n - 1);
      LevelCost(w, t, ids, d, n) ==
      LevelCost(w, t, ids, d, n - 1) + if Wanted(w, t, n - 1) then
        1 + LevelCost(w, u, ids, d - 1, |Fields(w, u)|) else 0
  {
    assert LeadsOn(w, t, ids, n - 1);
  }

  lemma {:induction false} CompleteResolves(w: World, t: Type, d: int)
    requires IsComplete(w) && t in w.store
    ensures Resolves(w, t, "x", d)
    decreases d
  {
    if d <= 0 {
    } else {
      forall f, j | 0 <= f < |Links(w, t, "x")| && 0 <= j < |Links(w, t, "x")[f]| && Wanted(w, t, f)
        ensures Resolves(w, TargetType(w, t, f), Links(w, t, "x")[f][j], d - 1)
      {
        CompleteResolves(w, TargetType(w, t, f), d - 1);
      }
    }
  }

  /** One new document of type t. */
  function Fresh(w: World, t: Type): Heap
    requires Found(w, t, "x")
  {
    Decoded(w, Heap([], map[]), t, "x")
  }

  lemma {:induction false} NewDocument(w: World, t: Type)
    requires Found(w, t, "x")
    ensures WellFormed(w, Fresh(w, t)) && Hydrated(w, Fresh(w, t), 0, 0, t, "x", 0) && |Fresh(w, t).objects| == 1 &&
      Fresh(w, t).objects[0].typ == t
  {
    DecodedIsNew(w, Heap([], map[]), t, "x");
  }

  /** A call on a new document of a complete store succeeds and costs what its row costs. */
  lemma {:induction false} CompleteCall(w: World, t: Type, d: int, n: nat)
    requires IsComplete(w) && t in w.store
    ensures Succeeds(w, Fresh(w, t), {0}, t, d)
    ensures CallAsks(w, Fresh(w, t), {0}, t, d, n) == LevelAsks(w, t, {"x"}, d, n)
    ensures CallCost(w, Fresh(w, t), {0}, t, d, n) == LevelCost(w, t, {"x"}, d, n)
  {
    var h := Fresh(w, t);
    NewDocument(w, t);
    forall l | l in Due(w, h, {0}, d) ensures Resolves(w, TargetAt(w, h, l), h.slots[l].id, d - 1) {
      SlotOfRow(w, h, t, "x", l);
      CompleteResolves(w, TargetAt(w, h, l), d - 1);
    }
    assert FromRows(w, h, 0, t, {"x"}) && HasDocument(w, h, {0}, t, "x");
    NewDocumentsAsk(w, h, {0}, t, {"x"}, d, n);
    CallCount(w, h, {0}, t, d, n);
    LevelCount(w, t, {"x"}, d, n);
  }

  /** A call that succeeds, on documents of one type. */
  ghost predicate Succeeds(w: World, h: Heap, docs: set<Ref>, t: Type, depth: int)
  {
    WellFormed(w, h) && (forall p :: p in docs ==> p < |h.objects| && h.objects[p].typ == t) &&
    AllResolve(w, h, Due(w, h, docs, depth), depth - 1)
  }

  // -----------------------------------------------------------------------------------------
  // The largest number
  // -----------------------------------------------------------------------------------------

  /** One type with k link fields, all pointing back at it. */
  predicate IsMesh(w: World, t: Type, k: nat)
  {
    w.schema.Keys == {t} && t in w.store && |Fields(w, t)| == k &&
    forall f :: 0 <= f < k ==> Wanted(w, t, f) && TargetType(w, t, f) == t
  }

  function MeshFields(k: nat): (fields: seq<LinkField>)
    ensures |fields| == k && forall f :: 0 <= f < k ==> fields[f].target == "Node"
  {
    seq(k, i requires i >= 0 => LinkField(seq(i + 1, _ => 'n'), true, "Node"))
  }

  function Mesh(k: nat): World
  {
    Complete(map["Node" := MeshFields(k)], FetchAll)
  }

  lemma {:induction false} MeshIsMesh(k: nat)
    ensures IsMesh(Mesh(k), "Node", k) && IsComplete(Mesh(k))
  {
    CompleteIsComplete(map["Node" := MeshFields(k)], FetchAll);
  }

  lemma {:induction false} MeshLevel(w: World, t: Type, ids: set<Id>, k: nat, d: int, n: nat)
    requires IsMesh(w, t, k) && Closed(w, ids) && d > 0 && n <= k
    ensures LevelCost(w, t, ids, d, n) == n * (1 + QueryBound(k, d - 1))
    decreases d, n
  {
    if n == 0 {
    } else {
      MeshLevel(w, t, ids, k, d, n - 1);
      LevelStep(w, t, ids, d, n);
      MeshBelow(w, t, ids, k, d - 1);
      OneMore(n - 1, 1 + QueryBound(k, d - 1));
    }
  }

  lemma {:induction false} MeshBelow(w: World, t: Type, ids: set<Id>, k: nat, d: int)
    requires IsMesh(w, t, k) && Closed(w, ids)
    ensures LevelCost(w, t, ids, d, k) == QueryBound(k, d)
    decreases d, k + 1
  {
    if d > 0 {
      MeshLevel(w, t, ids, k, d, k);
      QueryBoundUnfolds(k, d);
    } else {
      NoLevel(w, t, ids, d, k);
    }
  }

  lemma {:induction false} NoLevel(w: World, t: Type, docs: set<Id>, d: int, n: nat)
    requires d <= 0
    ensures LevelCost(w, t, docs, d, n) == 0
  {
    if n == 0 {
    } else {
      NoLevel(w, t, docs, d, n - 1);
    }
  }

  /**
    The bound is reached: a successful call on one document whose type has k links to itself takes k + ... +
    k^depth queries.
   */
  lemma {:induction false} BoundIsReached(w: World, t: Type, k: nat, depth: int)
    requires IsMesh(w, t, k) && IsComplete(w)
    ensures Succeeds(w, Fresh(w, t), {0}, t, depth)
    ensures CallCost(w, Fresh(w, t), {0}, t, depth, |Fields(w, t)|) == QueryBound(k, depth)
  {
    CompleteCall(w, t, depth, k);
    CompleteIsClosed(w);
    MeshBelow(w, t, {"x"}, k, depth);
  }

  /** Two links to the type itself, two levels: six queries where one per level and target type would be two. */
  lemma {:induction false} SixQueries()
    ensures Succeeds(Mesh(2), Fresh(Mesh(2), "Node"), {0}, "Node", 2)
    ensures CallCost(Mesh(2), Fresh(Mesh(2), "Node"), {0}, "Node", 2, |Fields(Mesh(2), "Node")|) == 6
  {
    MeshIsMesh(2);
    BoundIsReached(Mesh(2), "Node", 2, 2);
    TwoLevels();
  }

  lemma {:induction false} TwoLevels()
    ensures QueryBound(2, 2) == 6
  {
    assert Power(2, 1) == 2 && Power(2, 2) == 4;
    assert QueryBound(2, 1) == 2;
  }

  // -----------------------------------------------------------------------------------------
  // Hydration that ends with the first level
  // -----------------------------------------------------------------------------------------

  /** The call queries nothing below its first level. */
  ghost predicate StopsEarly(w: World, h: Heap, docs: set<Ref>, t: Type, depth: int)
  {
    CallCost(w, h, docs, t, depth, |Fields(w, t)|) == CallCost(w, h, docs, t, 1, |Fields(w, t)|)
  }

  /** Of this schema and mode, no successful call queries anything below its first level. */
  ghost predicate EndsAtFirstLevel(schema: map<Type, seq<LinkField>>, mode: Mode)
  {
    forall w: World, h, docs, t, depth ::
      depth > 0 && w.schema == schema && w.mode == mode && Succeeds(w, h, docs, t, depth) ==>
        StopsEarly(w, h, docs, t, depth)
  }

  predicate Selected(schema: map<Type, seq<LinkField>>, mode: Mode, t: Type, f: nat)
  {
    Wanted(World(schema, map[], mode), t, f)
  }

  /** Type t has no field that the mode hydrates. */
  predicate SelectsNone(schema: map<Type, seq<LinkField>>, mode: Mode, t: Type)
  {
    t in schema ==> forall g :: 0 <= g < |schema[t]| ==> !Selected(schema, mode, t, g)
  }

  /** No field that the mode hydrates points at a type with a field that it hydrates as well. */
  predicate SelectionsEnd(schema: map<Type, seq<LinkField>>, mode: Mode)
  {
    forall t, f :: t in schema && 0 <= f < |schema[t]| && Selected(schema, mode, t, f) ==>
      SelectsNone(schema, mode, schema[t][f].target)
  }

  lemma {:induction false} NothingWanted(w: World, t: Type, docs: set<Id>, d: int, n: nat)
    requires SelectsNone(w.schema, w.mode, t) && n <= |Fields(w, t)|
    ensures LevelCost(w, t, docs, d, n) == 0
  {
    if n == 0 {
    } else {
      NothingWanted(w, t, docs, d, n - 1);
      assert !Selected(w.schema, w.mode, t, n - 1);
    }
  }

  lemma {:induction false} SomethingWanted(w: World, t: Type, ids: set<Id>, d: int, n: nat, g: nat)
    requires Closed(w, ids) && d > 0 && t in w.store && g < n <= |Fields(w, t)| && Wanted(w, t, g)
    ensures LevelCost(w, t, ids, d, n) > 0
  {
    LevelStep(w, t, ids, d, n);
    if g < n - 1 {
      SomethingWanted(w, t, ids, d, n - 1, g);
    }
  }

  lemma {:induction false} FieldStops(w: World, u: Type, ids: set<Id>, depth: int)
    requires depth > 0 && SelectsNone(w.schema, w.mode, u)
    ensures FieldCost(w, u, ids, depth) == if ids == {} then 0 else 1
  {
    NothingWanted(w, u, ids, depth - 1, |Fields(w, u)|);
  }

  lemma {:induction false} PendingAtAnyDepth(w: World, h: Heap, docs: set<Ref>, t: Type, f: nat, depth: int)
    requires depth > 0 && forall p :: p in docs ==> p < |h.objects| && h.objects[p].typ == t
    ensures PendingIds(w, h, docs, f, depth) == PendingIds(w, h, docs, f, 1)
    ensures !Wanted(w, t, f) ==> PendingIds(w, h, docs, f, 1) == {}
  {
    assert Due(w, h, docs, depth) == Due(w, h, docs, 1);
  }

  lemma {:induction false} OneLevelCosts(w: World, h: Heap, docs: set<Ref>, t: Type, depth: int, n: nat)
    requires depth > 0 && SelectionsEnd(w.schema, w.mode) && n <= |Fields(w, t)|
    requires forall p :: p in docs ==> p < |h.objects| && h.objects[p].typ == t
    ensures CallCost(w, h, docs, t, depth, n) == CallCost(w, h, docs, t, 1, n)
  {
    if n == 0 {
    } else {
      OneLevelCosts(w, h, docs, t, depth, n - 1);
      PendingAtAnyDepth(w, h, docs, t, n - 1, depth);
      if Wanted(w, t, n - 1) {
        assert Selected(w.schema, w.mode, t, n - 1);
        FieldStops(w, TargetType(w, t, n - 1), PendingIds(w, h, docs, n - 1, 1), depth);
        FieldStops(w, TargetType(w, t, n - 1), PendingIds(w, h, docs, n - 1, 1), 1);
      }
    }
  }

  /** The second level costs something if a hydrated field's target has a hydrated field g. */
  lemma {:induction false} SecondLevelCosts(w: World, t: Type, ids: set<Id>, n: nat, f: nat, g: nat)
    requires Closed(w, ids) && t in w.store && n <= |Fields(w, t)| && Wanted(w, t, f) &&
      Wanted(w, TargetType(w, t, f), g)
    ensures LevelCost(w, t, ids, 2, n) >= LevelCost(w, t, ids, 1, n) + if f < n then 1 else 0
  {
    if n == 0 {
    } else {
      var u := TargetType(w, t, n - 1);
      SecondLevelCosts(w, t, ids, n - 1, f, g);
      LevelStep(w, t, ids, 1, n);
      LevelStep(w, t, ids, 2, n);
      NoLevel(w, u, ids, 0, |Fields(w, u)|);
      if n - 1 == f {
        SomethingWanted(w, u, ids, 1, |Fields(w, u)|, g);
      }
    }
  }

  lemma {:induction false} GoesOn(w: World, t: Type, f: nat, g: nat)
    requires IsComplete(w) && t in w.store && Wanted(w, t, f) && Wanted(w, TargetType(w, t, f), g)
    ensures Succeeds(w, Fresh(w, t), {0}, t, 2) && !StopsEarly(w, Fresh(w, t), {0}, t, 2)
  {
    CompleteCall(w, t, 1, |Fields(w, t)|);
    CompleteCall(w, t, 2, |Fields(w, t)|);
    CompleteIsClosed(w);
    SecondLevelCosts(w, t, {"x"}, |Fields(w, t)|, f, g);
  }

  lemma {:induction false} SelectedGoesOn(schema: map<Type, seq<LinkField>>, mode: Mode, t: Type, f: nat, g: nat)
    requires t in schema && f < |schema[t]| && Selected(schema, mode, t, f)
    requires var u := schema[t][f].target; u in schema && g < |schema[u]| && Selected(schema, mode, u, g)
    ensures !EndsAtFirstLevel(schema, mode)
  {
    var w := Complete(schema, mode);
    CompleteIsComplete(schema, mode);
    GoesOn(w, t, f, g);
  }

  /**
    Hydration ends with the first level, whatever is stored, exactly when hydrated fields point at types
    without any.
   */
  lemma {:induction false} EndsAtFirstLevelIff(schema: map<Type, seq<LinkField>>, mode: Mode)
    ensures EndsAtFirstLevel(schema, mode) <==> SelectionsEnd(schema, mode)
  {
    if SelectionsEnd(schema, mode) {
      forall w: World, h, docs, t, depth | depth > 0 && w.schema == schema && w.mode == mode &&
        Succeeds(w, h, docs, t, depth)
        ensures StopsEarly(w, h, docs, t, depth)
      {
        OneLevelCosts(w, h, docs, t, depth, |Fields(w, t)|);
      }
    } else {
      var t, f :| t in schema && 0 <= f < |schema[t]| && Selected(schema, mode, t, f) &&
        !SelectsNone(schema, mode, schema[t][f].target);
      var g :| 0 <= g < |schema[schema[t][f].target]| && Selected(schema, mode, schema[t][f].target, g);
      SelectedGoesOn(schema, mode, t, f, g);
    }
  }

  /** Hydrating the field "next" by name goes on in a target type that has a field of that name too. */
  lemma {:induction false} NamedReachesDeeper()
    ensures !EndsAtFirstLevel(map["A" := [LinkField("next", false, "B")], "B" := [LinkField("next", false, "B")]],
      FetchNamed({"next"}))
  {
    var schema: map<Type, seq<LinkField>> :=
      map["A" := [LinkField("next", false, "B")], "B" := [LinkField("next", false, "B")]];
    assert Selected(schema, FetchNamed({"next"}), "A", 0) && Selected(schema, FetchNamed({"next"}), "B", 0);
    EndsAtFirstLevelIff(schema, FetchNamed({"next"}));
  }
}

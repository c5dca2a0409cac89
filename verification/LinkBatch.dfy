/** Batched link hydration: one query per link field and level, pointers shared between parents. */
module LinkBatch {
  import opened Hydration
  import opened HydrationCost

  datatype Outcome =
    | Ok
    | Unregistered(typ: Type)
    | Dangling(col: Type, id: Id)
    | NotFound(col: Type, id: Id)
    | BadRow(col: Type, id: Id)

  /**
    An error names what is wrong with the store: no such collection, no such row in it, or a row that does
    not decode.
   */
  predicate Explains(w: World, out: Outcome)
  {
    match out
    case Ok => true
    case Unregistered(t) => t !in w.store
    case Dangling(t, id) => t in w.store && id !in w.store[t]
    case NotFound(t, id) => t in w.store && id !in w.store[t]
    case BadRow(t, id) => t in w.store && id in w.store[t] && w.store[t][id].Corrupt?
  }

  /** Within one field, equal ids got one pointer. */
  ghost predicate Shared(h: Heap, h': Heap, due: set<Loc>)
    requires forall l :: l in due ==> l in h.slots && l in h'.slots
  {
    forall l, m :: l in due && m in due && l.field == m.field && h.slots[l].id == h.slots[m].id ==>
      h'.slots[l].value == h'.slots[m].value
  }

  /** The slots of one field among the due ones. */
  ghost function DueIn(w: World, h: Heap, docs: set<Ref>, f: nat, depth: int): (due: set<Loc>)
    ensures forall l :: l in due <==> l in Due(w, h, docs, depth) && l.field == f
  {
    set l | l in Due(w, h, docs, depth) && l.field == f
  }

  /** The slots of the first n fields among the due ones. */
  ghost function DueBelow(w: World, h: Heap, docs: set<Ref>, n: nat, depth: int): (due: set<Loc>)
    ensures forall l :: l in due <==> l in Due(w, h, docs, depth) && l.field < n
  {
    set l | l in Due(w, h, docs, depth) && l.field < n
  }

  /** Every pending slot is filed under its id, and nothing else is. */
  ghost predicate Grouped(h: Heap, groups: map<Id, seq<Loc>>, due: set<Loc>)
  {
    (forall id, l {:trigger l in groups[id]} :: id in groups && l in groups[id] ==>
      l in due && l in h.slots && h.slots[l].id == id) &&
    (forall id :: id in groups ==> groups[id] != []) &&
    forall l :: l in due ==> l in h.slots && h.slots[l].id in groups && l in groups[h.slots[l].id]
  }

  ghost function Elems(docs: seq<Ref>): set<Ref>
  {
    set p | p in docs
  }

  ghost predicate AreDocs(h: Heap, docs: seq<Ref>, t: Type)
  {
    forall p :: p in docs ==> p < |h.objects| && h.objects[p].typ == t
  }

  /** File one slot under its id; empty ids and loaded links are passed over. */
  function CollectLinkSlot(s: Slot, l: Loc, groups: map<Id, seq<Loc>>): map<Id, seq<Loc>>
  {
    if s.id == "" then groups
    else if s.loaded then groups
    else groups[s.id := (if s.id in groups then groups[s.id] else []) + [l]]
  }

  lemma {:induction false} CollectKeepsGrouped(h: Heap, groups: map<Id, seq<Loc>>, seen: set<Loc>, l: Loc)
    requires Grouped(h, groups, seen) && l in h.slots
    ensures Grouped(h, CollectLinkSlot(h.slots[l], l, groups), if IsPending(h.slots[l]) then seen + {l} else seen)
  {
  }

  ghost function Locs(ls: seq<Loc>): set<Loc>
  {
    set l | l in ls
  }

  /** Whatever happened, documents were only added and links that were not due are as they were. */
  ghost predicate Touches(h: Heap, h': Heap, due: set<Loc>)
  {
    h.objects <= h'.objects && forall l :: l in h.slots && l !in due ==> l in h'.slots && h'.slots[l] == h.slots[l]
  }

  lemma {:induction false} TouchesThen(h0: Heap, h1: Heap, h2: Heap, a: set<Loc>, b: set<Loc>, c: set<Loc>)
    requires Touches(h0, h1, a) && Touches(h1, h2, b) && a <= c && forall l :: l in b && l in h0.slots ==> l in c
    ensures Touches(h0, h2, c)
  {
  }

  /** What is due in documents loaded after h0 is no slot of h0. */
  lemma {:induction false} TouchesDeeper(w: World, h0: Heap, h1: Heap, h2: Heap, due: set<Loc>, docs: set<Ref>, d: int)
    requires WellFormed(w, h0) && Touches(h0, h1, due) && Touches(h1, h2, Due(w, h1, docs, d))
    requires forall r :: r in docs ==> r >= |h0.objects|
    ensures Touches(h0, h2, due)
  {
    forall l | l in h0.slots && l !in due ensures l in h2.slots && h2.slots[l] == h0.slots[l] {
      assert IsLoc(h0, l);
      assert l !in Due(w, h1, docs, d);
    }
  }

  // -----------------------------------------------------------------------------------------
  // Why the parts fit together
  // -----------------------------------------------------------------------------------------

  /** Loading other fields leaves what is due in field f. */
  lemma {:induction false} SameDue(w: World, h0: Heap, h1: Heap, docs: seq<Ref>, t: Type, f: nat, depth: int)
    requires WellFormed(w, h0) && AreDocs(h0, docs, t)
    requires Loads(w, h0, h1, DueBelow(w, h0, Elems(docs), f, depth), depth - 1)
    ensures AreDocs(h1, docs, t) && DueIn(w, h1, Elems(docs), f, depth) == DueIn(w, h0, Elems(docs), f, depth)
    ensures forall l :: l in DueIn(w, h0, Elems(docs), f, depth) ==>
      h1.slots[l] == h0.slots[l] && TargetAt(w, h1, l) == TargetAt(w, h0, l)
  {
    forall l: Loc | l.doc in docs && l.field == f
      ensures l in DueIn(w, h1, Elems(docs), f, depth) <==> l in DueIn(w, h0, Elems(docs), f, depth)
    {
      assert IsLoc(h1, l) <==> IsLoc(h0, l);
    }
  }

  /** The first n fields are done: every due slot in them resolved, was loaded and shares pointers. */
  ghost predicate FieldsDone(w: World, h0: Heap, h: Heap, docs: seq<Ref>, n: nat, depth: int)
  {
    var due := DueBelow(w, h0, Elems(docs), n, depth);
    Loads(w, h0, h, due, depth - 1) && AllResolve(w, h0, due, depth - 1) && Shared(h0, h, due)
  }

  /**
    What hydrating the slots due, d levels below their targets, achieves: it succeeds exactly when all
    of them resolve, it then loads exactly them, and in any case it touches no other link.
   */
  ghost function Outcomes(w: World, h: Heap, due: set<Loc>, d: int, ok: bool): iset<Heap>
    requires forall l :: l in due ==> l in h.slots && IsLoc(h, l)
  {
    iset h' | WellFormed(w, h') && Touches(h, h', due) && (ok <==> AllResolve(w, h, due, d)) &&
      (ok ==> Loads(w, h, h', due, d))
  }

  /** What a successful call loads, by the eager flags, the names asked for and the stored rows. */
  ghost function ByMode(w: World, h: Heap, docs: seq<Ref>, t: Type, depth: int): iset<Heap>
  {
    iset h' | LoadsByMode(w, h, h', Elems(docs), t, depth)
  }

  lemma {:induction false} CallLoads(w: World, h: Heap, h': Heap, docs: seq<Ref>, t: Type, depth: int)
    requires WellFormed(w, h) && AreDocs(h, docs, t)
    requires h' in Outcomes(w, h, Due(w, h, Elems(docs), depth), depth - 1, true)
    ensures h' in ByMode(w, h, docs, t, depth)
  {
    LoadsWhatTheModeTakes(w, h, h', Elems(docs), t, depth);
  }

  /** The slot l, if it waits to be loaded. */
  ghost function Pending(h: Heap, l: Loc): set<Loc>
    requires l in h.slots
  {
    if IsPending(h.slots[l]) then {l} else {}
  }

  lemma {:induction false} NoFieldsDone(w: World, h: Heap, docs: seq<Ref>, t: Type, depth: int)
    requires WellFormed(w, h) && AreDocs(h, docs, t)
    ensures FieldsDone(w, h, h, docs, 0, depth)
  {
    assert DueBelow(w, h, Elems(docs), 0, depth) == {};
  }

  lemma {:induction false} SharedTogether(h0: Heap, h1: Heap, h2: Heap, a: set<Loc>, b: set<Loc>)
    requires forall l :: l in a + b ==> l in h0.slots && l in h1.slots && l in h2.slots
    requires Shared(h0, h1, a) && Shared(h1, h2, b) && forall l, m :: l in a && m in b ==> l.field != m.field
    requires (forall l :: l in a ==> h2.slots[l] == h1.slots[l]) && forall l :: l in b ==> h1.slots[l] == h0.slots[l]
    ensures Shared(h0, h2, a + b)
  {
  }

  lemma {:induction false} LaterLoadsKeep(w: World, h0: Heap, h1: Heap, h2: Heap, a: set<Loc>, b: set<Loc>, d: int)
    requires a !! b && forall l :: l in a ==> l in h0.slots && IsLoc(h0, l)
    requires forall l :: l in b ==> l in h1.slots && IsLoc(h1, l)
    requires Loads(w, h0, h1, a, d) && Loads(w, h1, h2, b, d)
    ensures forall l :: l in a ==> l in h1.slots && l in h2.slots && h2.slots[l] == h1.slots[l]
  {
    forall l | l in a ensures l in h1.slots && l in h2.slots && h2.slots[l] == h1.slots[l] {
      assert LoadedAt(w, h0, h1, l, d);
    }
  }

  /** The slots ls are as they were, and lead to the same types. */
  ghost predicate Unmoved(w: World, h0: Heap, h1: Heap, ls: set<Loc>)
  {
    forall l :: l in ls ==>
      l in h0.slots && IsLoc(h0, l) && l in h1.slots && IsLoc(h1, l) && h1.slots[l] == h0.slots[l] &&
        TargetAt(w, h1, l) == TargetAt(w, h0, l)
  }

  lemma {:induction false} JoinFields(w: World, h0: Heap, h1: Heap, h2: Heap, a: set<Loc>, b: set<Loc>, d: int)
    requires WellFormed(w, h0) && a !! b && forall l, m :: l in a && m in b ==> l.field != m.field
    requires (forall l :: l in a ==> l in h0.slots && IsLoc(h0, l)) && Unmoved(w, h0, h1, b)
    requires Loads(w, h0, h1, a, d) && Loads(w, h1, h2, b, d)
    requires Shared(h0, h1, a) && Shared(h1, h2, b)
    ensures Loads(w, h0, h2, a + b, d) && Shared(h0, h2, a + b)
    ensures AllResolve(w, h0, a, d) && AllResolve(w, h1, b, d) ==> AllResolve(w, h0, a + b, d)
  {
    LoadsThen(w, h0, h1, h2, a, b, d);
    LaterLoadsKeep(w, h0, h1, h2, a, b, d);
    SharedTogether(h0, h1, h2, a, b);
  }

  lemma {:induction false} NextFieldDone(w: World, h0: Heap, h1: Heap, h2: Heap, docs: seq<Ref>, t: Type, f: nat,
      depth: int)
    requires WellFormed(w, h0) && AreDocs(h0, docs, t)
    requires FieldsDone(w, h0, h1, docs, f, depth)
    requires h2 in Outcomes(w, h1, DueIn(w, h1, Elems(docs), f, depth), depth - 1, true) &&
      Shared(h1, h2, DueIn(w, h1, Elems(docs), f, depth))
    ensures FieldsDone(w, h0, h2, docs, f + 1, depth)
  {
    var a, b := DueBelow(w, h0, Elems(docs), f, depth), DueIn(w, h0, Elems(docs), f, depth);
    SameDue(w, h0, h1, docs, t, f, depth);
    JoinFields(w, h0, h1, h2, a, b, depth - 1);
    assert DueBelow(w, h0, Elems(docs), f + 1, depth) == a + b;
  }

  lemma {:induction false} NextFieldFails(w: World, h0: Heap, h1: Heap, h2: Heap, docs: seq<Ref>, t: Type, f: nat,
      depth: int)
    requires WellFormed(w, h0) && AreDocs(h0, docs, t)
    requires FieldsDone(w, h0, h1, docs, f, depth)
    requires h2 in Outcomes(w, h1, DueIn(w, h1, Elems(docs), f, depth), depth - 1, false)
    ensures h2 in Outcomes(w, h0, Due(w, h0, Elems(docs), depth), depth - 1, false)
  {
    SameDue(w, h0, h1, docs, t, f, depth);
    TouchesThen(h0, h1, h2, DueBelow(w, h0, Elems(docs), f, depth), DueIn(w, h0, Elems(docs), f, depth),
      Due(w, h0, Elems(docs), depth));
  }

  /** A field that the mode does not select has nothing due. */
  lemma {:induction false} FieldSkipped(w: World, h0: Heap, docs: seq<Ref>, t: Type, f: nat, depth: int)
    requires AreDocs(h0, docs, t) && !Wanted(w, t, f)
    ensures DueBelow(w, h0, Elems(docs), f + 1, depth) == DueBelow(w, h0, Elems(docs), f, depth)
  {
    forall l ensures l in DueBelow(w, h0, Elems(docs), f + 1, depth) <==> l in DueBelow(w, h0, Elems(docs), f, depth) {
    }
  }

  lemma {:induction false} AllFieldsDone(w: World, h0: Heap, h: Heap, docs: seq<Ref>, t: Type, depth: int)
    requires WellFormed(w, h0) && AreDocs(h0, docs, t) && FieldsDone(w, h0, h, docs, |Fields(w, t)|, depth)
    ensures h in Outcomes(w, h0, Due(w, h0, Elems(docs), depth), depth - 1, true) &&
      Shared(h0, h, Due(w, h0, Elems(docs), depth))
  {
    var due := Due(w, h0, Elems(docs), depth);
    assert forall l :: l in due ==> IsLoc(h0, l) && l.field < |Fields(w, t)|;
    assert DueBelow(w, h0, Elems(docs), |Fields(w, t)|, depth) == due;
  }

  lemma {:induction false} NothingDue(w: World, h: Heap, docs: seq<Ref>, depth: int)
    requires WellFormed(w, h) && (depth <= 0 || |docs| == 0 || w.mode == FetchNone)
    ensures Due(w, h, Elems(docs), depth) == {}
    ensures h in Outcomes(w, h, {}, depth - 1, true)
  {
  }

  /** The loaded documents are what the due slots now point at; via[i] is one slot that loaded[i] was loaded for. */
  ghost predicate TargetsOf(w: World, h0: Heap, h1: Heap, due: set<Loc>, loaded: seq<Ref>, via: seq<Loc>, target: Type)
  {
    (forall r :: r in loaded ==> |h0.objects| <= r < |h1.objects| && h1.objects[r].typ == target) &&
    (forall l :: l in due ==> l in h1.slots && h1.slots[l].value.At? && h1.slots[l].value.ref in loaded) &&
    |via| == |loaded| && forall i :: 0 <= i < |via| ==> via[i] in due && h1.slots[via[i]].value == At(loaded[i])
  }

  /** The links of the loaded targets resolve exactly when the due slots resolve one level further. */
  lemma {:induction false} TargetsDecide(w: World, h0: Heap, h1: Heap, due: set<Loc>, loaded: seq<Ref>, via: seq<Loc>,
      target: Type, d: int)
    requires d > 0 && WellFormed(w, h0)
    requires (forall l :: l in due ==> l in h0.slots && IsLoc(h0, l)) && Loads(w, h0, h1, due, 0)
    requires TargetsOf(w, h0, h1, due, loaded, via, target)
    ensures AllResolve(w, h1, Due(w, h1, Elems(loaded), d), d - 1) <==> AllResolve(w, h0, due, d)
  {
    var docs, next := Elems(loaded), Due(w, h1, Elems(loaded), d);
    if AllResolve(w, h1, next, d - 1) {
      forall l | l in due ensures Resolves(w, TargetAt(w, h0, l), h0.slots[l].id, d) {
        assert LoadedAt(w, h0, h1, l, 0);
        ResolvesDeeper(w, h1, |h0.objects|, docs, h1.slots[l].value.ref, TargetAt(w, h0, l), h0.slots[l].id, d);
      }
    }
    if AllResolve(w, h0, due, d) {
      forall m | m in next ensures Resolves(w, TargetAt(w, h1, m), h1.slots[m].id, d - 1) {
        var i :| 0 <= i < |loaded| && loaded[i] == m.doc;
        var l := via[i];
        assert LoadedAt(w, h0, h1, l, 0);
        ResolvesDeeper(w, h1, |h0.objects|, docs, m.doc, TargetAt(w, h0, l), h0.slots[l].id, d);
      }
    }
  }

  /** Hydrating the targets themselves completes the field. */
  lemma {:induction false} DeeperDone(w: World, h0: Heap, h1: Heap, h2: Heap, due: set<Loc>, loaded: seq<Ref>,
      via: seq<Loc>, target: Type, d: int)
    requires d > 0 && WellFormed(w, h0)
    requires (forall l :: l in due ==> l in h0.slots && IsLoc(h0, l)) && Loads(w, h0, h1, due, 0) && Shared(h0, h1, due)
    requires TargetsOf(w, h0, h1, due, loaded, via, target)
    requires Loads(w, h1, h2, Due(w, h1, Elems(loaded), d), d - 1)
    ensures Loads(w, h0, h2, due, d) && Shared(h0, h2, due)
  {
    LoadsDeeper(w, h0, h1, h2, due, Elems(loaded), d);
    forall l | l in due ensures l in h1.slots && h2.slots[l] == h1.slots[l] {
      assert l !in Due(w, h1, Elems(loaded), d);
    }
  }

  /** What hydrating field f of docs costs, before anything of it is loaded. */
  ghost function FieldQueries(w: World, h: Heap, docs: seq<Ref>, t: Type, f: nat, depth: int): multiset<Ask>
  {
    FieldAsks(w, TargetType(w, t, f), PendingIds(w, h, Elems(docs), f, depth), depth)
  }

  /** The queries that the first n fields of docs take. */
  ghost function CallQueries(w: World, h: Heap, docs: seq<Ref>, t: Type, n: nat, depth: int): (asks: multiset<Ask>)
    ensures n == 0 ==> asks == multiset{}
  {
    CallAsks(w, h, Elems(docs), t, depth, n)
  }

  lemma {:induction false} NextAsks(w: World, h: Heap, docs: seq<Ref>, t: Type, f: nat, depth: int)
    ensures CallQueries(w, h, docs, t, f + 1, depth) ==
      CallQueries(w, h, docs, t, f, depth) + FieldQueries(w, h, docs, t, f, depth)
  {
  }

  /** The first f fields and a further one, even if that one fails, stay within the bound. */
  lemma {:induction false} AsksWithin(w: World, h: Heap, docs: seq<Ref>, t: Type, f: nat, depth: int, k: nat)
    requires depth > 0 && FieldsWithin(w.schema, k) && f < |Fields(w, t)|
    ensures |CallQueries(w, h, docs, t, f, depth)| + 1 + QueryBound(k, depth - 1) <= QueryBound(k, depth)
  {
    CallCount(w, h, Elems(docs), t, depth, f);
    CallTimes(w, h, Elems(docs), t, depth, f, k);
    OneMore(f, 1 + QueryBound(k, depth - 1));
    TimesGrows(f + 1, k, 1 + QueryBound(k, depth - 1));
    QueryBoundUnfolds(k, depth);
  }

  lemma {:induction false} AllAsksWithin(w: World, h: Heap, docs: seq<Ref>, t: Type, depth: int, k: nat)
    requires FieldsWithin(w.schema, k)
    ensures |CallQueries(w, h, docs, t, |Fields(w, t)|, depth)| <= QueryBound(k, depth)
  {
    CallCount(w, h, Elems(docs), t, depth, |Fields(w, t)|);
    CallWithin(w, h, Elems(docs), t, depth, k);
  }

  /** Loading other fields does not change what field f costs. */
  lemma {:induction false} SameAsks(w: World, h0: Heap, h1: Heap, docs: seq<Ref>, t: Type, f: nat, depth: int)
    requires DueIn(w, h1, Elems(docs), f, depth) == DueIn(w, h0, Elems(docs), f, depth)
    requires forall l :: l in DueIn(w, h0, Elems(docs), f, depth) ==> l in h1.slots && h1.slots[l] == h0.slots[l]
    ensures FieldQueries(w, h1, docs, t, f, depth) == FieldQueries(w, h0, docs, t, f, depth)
  {
    forall i ensures i in PendingIds(w, h1, Elems(docs), f, depth) <==> i in PendingIds(w, h0, Elems(docs), f, depth) {
      if l :| l in DueIn(w, h0, Elems(docs), f, depth) && h0.slots[l].id == i {
        assert l in DueIn(w, h1, Elems(docs), f, depth);
      }
      if l :| l in DueIn(w, h1, Elems(docs), f, depth) && h1.slots[l].id == i {
        assert l in DueIn(w, h0, Elems(docs), f, depth);
      }
    }
    assert PendingIds(w, h1, Elems(docs), f, depth) == PendingIds(w, h0, Elems(docs), f, depth);
  }

  /** What the next field finds after the first f are done. */
  lemma {:induction false} FieldUntouched(w: World, h0: Heap, h1: Heap, docs: seq<Ref>, t: Type, f: nat, depth: int)
    requires WellFormed(w, h0) && AreDocs(h0, docs, t) && FieldsDone(w, h0, h1, docs, f, depth)
    ensures AreDocs(h1, docs, t) && FieldQueries(w, h1, docs, t, f, depth) == FieldQueries(w, h0, docs, t, f, depth)
  {
    SameDue(w, h0, h1, docs, t, f, depth);
    SameAsks(w, h0, h1, docs, t, f, depth);
  }

  lemma {:induction false} SkippedAsks(w: World, h: Heap, docs: seq<Ref>, t: Type, f: nat, depth: int)
    requires AreDocs(h, docs, t) && (!Wanted(w, t, f) || DueIn(w, h, Elems(docs), f, depth) == {})
    ensures FieldQueries(w, h, docs, t, f, depth) == multiset{}
  {
    assert forall l :: l in Due(w, h, Elems(docs), depth) && l.field == f ==> l in DueIn(w, h, Elems(docs), f, depth);
    assert PendingIds(w, h, Elems(docs), f, depth) == {};
  }

  /** How hydrating field f may end: what becomes of the heap, and on success which queries were made. */
  ghost function FieldEnds(w: World, h: Heap, asked: multiset<Ask>, docs: seq<Ref>, t: Type, f: nat, depth: int,
    ok: bool): iset<(Heap, multiset<Ask>)>
  {
    var due := DueIn(w, h, Elems(docs), f, depth);
    iset s: (Heap, multiset<Ask>) |
      s.0 in Outcomes(w, h, due, depth - 1, ok) &&
      (ok ==> Shared(h, s.0, due) && s.1 == asked + FieldQueries(w, h, docs, t, f, depth))
  }

  // -----------------------------------------------------------------------------------------
  // One field after the other
  // -----------------------------------------------------------------------------------------

  /** What the heap and the queries are once the first n fields are done. */
  ghost function Progress(w: World, h0: Heap, asked: multiset<Ask>, docs: seq<Ref>, t: Type, n: nat, depth: int):
    iset<(Heap, multiset<Ask>)>
  {
    iset s: (Heap, multiset<Ask>) |
      FieldsDone(w, h0, s.0, docs, n, depth) && s.1 == asked + CallQueries(w, h0, docs, t, n, depth)
  }

  lemma {:induction false} Begins(w: World, h: Heap, asked: multiset<Ask>, docs: seq<Ref>, t: Type, depth: int)
    requires WellFormed(w, h) && AreDocs(h, docs, t)
    ensures (h, asked) in Progress(w, h, asked, docs, t, 0, depth)
  {
    NoFieldsDone(w, h, docs, t, depth);
  }

  lemma {:induction false} StillDocs(w: World, h0: Heap, asked: multiset<Ask>, h1: Heap, a1: multiset<Ask>,
      docs: seq<Ref>, t: Type, f: nat, depth: int)
    requires WellFormed(w, h0) && AreDocs(h0, docs, t) && (h1, a1) in Progress(w, h0, asked, docs, t, f, depth)
    ensures WellFormed(w, h1) && AreDocs(h1, docs, t)
  {
    FieldUntouched(w, h0, h1, docs, t, f, depth);
  }

  lemma {:induction false} Continues(w: World, h0: Heap, asked: multiset<Ask>, h1: Heap, a1: multiset<Ask>,
      h2: Heap, a2: multiset<Ask>, docs: seq<Ref>, t: Type, f: nat, depth: int)
    requires WellFormed(w, h0) && AreDocs(h0, docs, t) && (h1, a1) in Progress(w, h0, asked, docs, t, f, depth)
    requires (h2, a2) in FieldEnds(w, h1, a1, docs, t, f, depth, true)
    ensures (h2, a2) in Progress(w, h0, asked, docs, t, f + 1, depth)
  {
    FieldUntouched(w, h0, h1, docs, t, f, depth);
    NextFieldDone(w, h0, h1, h2, docs, t, f, depth);
    NextAsks(w, h0, docs, t, f, depth);
  }

  lemma {:induction false} PassesOver(w: World, h0: Heap, asked: multiset<Ask>, h1: Heap, a1: multiset<Ask>,
      docs: seq<Ref>, t: Type, f: nat, depth: int)
    requires AreDocs(h0, docs, t) && !Wanted(w, t, f) && (h1, a1) in Progress(w, h0, asked, docs, t, f, depth)
    ensures (h1, a1) in Progress(w, h0, asked, docs, t, f + 1, depth)
  {
    FieldSkipped(w, h0, docs, t, f, depth);
    SkippedAsks(w, h0, docs, t, f, depth);
    NextAsks(w, h0, docs, t, f, depth);
  }

  lemma {:induction false} Breaks(w: World, h0: Heap, asked: multiset<Ask>, h1: Heap, a1: multiset<Ask>, h2: Heap,
      a2: multiset<Ask>, docs: seq<Ref>, t: Type, f: nat, depth: int, k: nat)
    requires WellFormed(w, h0) && AreDocs(h0, docs, t) && (h1, a1) in Progress(w, h0, asked, docs, t, f, depth)
    requires (h2, a2) in FieldEnds(w, h1, a1, docs, t, f, depth, false)
    requires depth > 0 && FieldsWithin(w.schema, k) && f < |Fields(w, t)|
    ensures h2 in Outcomes(w, h0, Due(w, h0, Elems(docs), depth), depth - 1, false)
    ensures |a1| + 1 + QueryBound(k, depth - 1) <= |asked| + QueryBound(k, depth)
  {
    NextFieldFails(w, h0, h1, h2, docs, t, f, depth);
    AsksWithin(w, h0, docs, t, f, depth, k);
  }

  lemma {:induction false} Ends(w: World, h0: Heap, asked: multiset<Ask>, h1: Heap, a1: multiset<Ask>,
      docs: seq<Ref>, t: Type, depth: int, k: nat)
    requires WellFormed(w, h0) && AreDocs(h0, docs, t) && FieldsWithin(w.schema, k)
    requires (h1, a1) in Progress(w, h0, asked, docs, t, |Fields(w, t)|, depth)
    ensures h1 in Outcomes(w, h0, Due(w, h0, Elems(docs), depth), depth - 1, true)
    ensures Shared(h0, h1, Due(w, h0, Elems(docs), depth))
    ensures a1 == asked + CallQueries(w, h0, docs, t, |Fields(w, t)|, depth)
    ensures |a1| <= |asked| + QueryBound(k, depth)
  {
    AllFieldsDone(w, h0, h1, docs, t, depth);
    AllAsksWithin(w, h0, docs, t, depth, k);
  }

  lemma {:induction false} NothingToDo(w: World, h: Heap, docs: seq<Ref>, t: Type, depth: int)
    requires WellFormed(w, h) && (depth <= 0 || |docs| == 0 || w.mode == FetchNone)
    ensures h in Outcomes(w, h, Due(w, h, Elems(docs), depth), depth - 1, true)
    ensures Shared(h, h, Due(w, h, Elems(docs), depth))
    ensures CallQueries(w, h, docs, t, |Fields(w, t)|, depth) == multiset{}
  {
    NothingDue(w, h, docs, depth);
    NothingAsked(w, h, Elems(docs), t, depth, |Fields(w, t)|);
  }

  /** The loaded documents are those of the ids that were due. */
  lemma {:induction false} TargetsDecoded(w: World, h0: Heap, h1: Heap, docs: seq<Ref>, t: Type, f: nat, depth: int,
      loaded: seq<Ref>, via: seq<Loc>)
    requires WellFormed(w, h0) && AreDocs(h0, docs, t) && Loads(w, h0, h1, DueIn(w, h0, Elems(docs), f, depth), 0)
    requires TargetsOf(w, h0, h1, DueIn(w, h0, Elems(docs), f, depth), loaded, via, TargetType(w, t, f))
    ensures DecodedFrom(w, h1, Elems(loaded), TargetType(w, t, f), PendingIds(w, h0, Elems(docs), f, depth))
  {
    var u, due, ids := TargetType(w, t, f), DueIn(w, h0, Elems(docs), f, depth),
      PendingIds(w, h0, Elems(docs), f, depth);
    forall r | r in Elems(loaded) ensures FromRows(w, h1, r, u, ids) {
      var i :| 0 <= i < |loaded| && loaded[i] == r;
      TargetDecoded(w, h0, h1, due, via[i], u);
    }
    forall id | id in ids ensures HasDocument(w, h1, Elems(loaded), u, id) {
      var l :| l in Due(w, h0, Elems(docs), depth) && l.field == f && h0.slots[l].id == id;
      TargetDecoded(w, h0, h1, due, l, u);
    }
  }

  lemma {:induction false} TargetDecoded(w: World, h0: Heap, h1: Heap, due: set<Loc>, l: Loc, u: Type)
    requires WellFormed(w, h0) && (forall m :: m in due ==> m in h0.slots && IsLoc(h0, m)) && Loads(w, h0, h1, due, 0)
    requires l in due && TargetAt(w, h0, l) == u
    ensures h1.slots[l].value.At? && Hydrated(w, h1, 0, h1.slots[l].value.ref, u, h0.slots[l].id, 0)
  {
    assert LoadedAt(w, h0, h1, l, 0);
    HydratedKept(w, h1, h1, |h0.objects|, 0, h1.slots[l].value.ref, u, h0.slots[l].id, 0);
  }

  lemma {:induction false} FieldStep(w: World, u: Type, ids: set<Id>, depth: int)
    requires depth > 0 && ids != {}
    ensures FieldAsks(w, u, ids, depth) == multiset{Ask(depth, u)} + LevelAsks(w, u, ids, depth - 1, |Fields(w, u)|)
    ensures depth == 1 ==> FieldAsks(w, u, ids, depth) == multiset{Ask(depth, u)}
  {
    if depth == 1 { NoAsks(w, u, ids, 0, |Fields(w, u)|); }
  }

  lemma {:induction false} SomeDue(w: World, h: Heap, docs: seq<Ref>, f: nat, depth: int, l: Loc)
    requires l in DueIn(w, h, Elems(docs), f, depth)
    ensures PendingIds(w, h, Elems(docs), f, depth) != {}
  {
    assert h.slots[l].id in PendingIds(w, h, Elems(docs), f, depth);
  }

  lemma {:induction false} TargetsAsk(w: World, h0: Heap, h1: Heap, docs: seq<Ref>, t: Type, f: nat, depth: int,
      loaded: seq<Ref>, via: seq<Loc>, n: nat)
    requires WellFormed(w, h0) && WellFormed(w, h1) && AreDocs(h0, docs, t)
    requires Loads(w, h0, h1, DueIn(w, h0, Elems(docs), f, depth), 0)
    requires TargetsOf(w, h0, h1, DueIn(w, h0, Elems(docs), f, depth), loaded, via, TargetType(w, t, f))
    ensures CallAsks(w, h1, Elems(loaded), TargetType(w, t, f), depth - 1, n) ==
      LevelAsks(w, TargetType(w, t, f), PendingIds(w, h0, Elems(docs), f, depth), depth - 1, n)
  {
    TargetsDecoded(w, h0, h1, docs, t, f, depth, loaded, via);
    NewDocumentsAsk(w, h1, Elems(loaded), TargetType(w, t, f), PendingIds(w, h0, Elems(docs), f, depth), depth - 1, n);
  }

  /** A field with due slots costs its own query and what its targets cost. */
  lemma {:induction false} AskedForField(w: World, h0: Heap, h1: Heap, docs: seq<Ref>, t: Type, f: nat, depth: int,
      loaded: seq<Ref>, via: seq<Loc>, l: Loc)
    requires depth > 0 && WellFormed(w, h0) && WellFormed(w, h1) && AreDocs(h0, docs, t)
    requires Loads(w, h0, h1, DueIn(w, h0, Elems(docs), f, depth), 0)
    requires TargetsOf(w, h0, h1, DueIn(w, h0, Elems(docs), f, depth), loaded, via, TargetType(w, t, f))
    requires l in DueIn(w, h0, Elems(docs), f, depth)
    ensures var u := TargetType(w, t, f);
      FieldQueries(w, h0, docs, t, f, depth) ==
        multiset{Ask(depth, u)} + CallQueries(w, h1, loaded, u, |Fields(w, u)|, depth - 1)
    ensures var u := TargetType(w, t, f);
      loaded != [] && (depth == 1 ==> FieldQueries(w, h0, docs, t, f, depth) == multiset{Ask(depth, u)})
  {
    var u, ids := TargetType(w, t, f), PendingIds(w, h0, Elems(docs), f, depth);
    SomeDue(w, h0, docs, f, depth, l);
    TargetsAsk(w, h0, h1, docs, t, f, depth, loaded, via, |Fields(w, u)|);
    FieldStep(w, u, ids, depth);
  }

  /** Heaps in which the slots due were filled, one new document for each id. */
  ghost function Fetched(w: World, h: Heap, due: set<Loc>, loaded: seq<Ref>, via: seq<Loc>, target: Type): iset<Heap>
    requires forall l :: l in due ==> l in h.slots && IsLoc(h, l)
  {
    iset h' | Loads(w, h, h', due, 0) && Touches(h, h', due) && Shared(h, h', due) &&
      TargetsOf(w, h, h', due, loaded, via, target)
  }

  lemma {:induction false} FetchedDocs(w: World, h: Heap, h': Heap, due: set<Loc>, loaded: seq<Ref>, via: seq<Loc>,
      target: Type)
    requires (forall l :: l in due ==> l in h.slots && IsLoc(h, l)) && h' in Fetched(w, h, due, loaded, via, target)
    ensures WellFormed(w, h') && AreDocs(h', loaded, target)
  {
  }

  /** A field without pending slots is done. */
  lemma {:induction false} EmptyField(w: World, h: Heap, asked: multiset<Ask>, docs: seq<Ref>, t: Type, f: nat,
      depth: int)
    requires WellFormed(w, h) && AreDocs(h, docs, t) && Grouped(h, map[], DueIn(w, h, Elems(docs), f, depth))
    ensures (h, asked) in FieldEnds(w, h, asked, docs, t, f, depth, true)
  {
    assert DueIn(w, h, Elems(docs), f, depth) == {};
    SkippedAsks(w, h, docs, t, f, depth);
  }

  /** One id of a group that is not found makes the field fail. */
  lemma {:induction false} FieldFails(w: World, h: Heap, asked: multiset<Ask>, h': Heap, asked': multiset<Ask>,
      groups: map<Id, seq<Loc>>, docs: seq<Ref>, t: Type, f: nat, depth: int, id: Id)
    requires AreDocs(h, docs, t) && Grouped(h, groups, DueIn(w, h, Elems(docs), f, depth))
    requires id in groups && !Found(w, TargetType(w, t, f), id)
    requires WellFormed(w, h') && Touches(h, h', DueIn(w, h, Elems(docs), f, depth))
    ensures (h', asked') in FieldEnds(w, h, asked, docs, t, f, depth, false)
  {
    var l := groups[id][0];
    assert l in groups[id];
    assert !Resolves(w, TargetAt(w, h, l), h.slots[l].id, depth - 1);
  }

  /** At the last level, filling the groups is all there is to do. */
  lemma {:induction false} FieldFetched(w: World, h: Heap, asked: multiset<Ask>, h': Heap, groups: map<Id, seq<Loc>>,
      docs: seq<Ref>, t: Type, f: nat, loaded: seq<Ref>, via: seq<Loc>, depth: int)
    requires depth == 1 && WellFormed(w, h) && AreDocs(h, docs, t) &&
      Grouped(h, groups, DueIn(w, h, Elems(docs), f, depth))
    requires groups != map[] && forall id :: id in groups ==> Found(w, TargetType(w, t, f), id)
    requires h' in Fetched(w, h, DueIn(w, h, Elems(docs), f, depth), loaded, via, TargetType(w, t, f))
    ensures (h', asked + multiset{Ask(depth, TargetType(w, t, f))}) in FieldEnds(w, h, asked, docs, t, f, depth, true)
  {
    var l := SomeGrouped(w, h, groups, docs, f, depth);
    AskedForField(w, h, h', docs, t, f, depth, loaded, via, l);
    GroupsResolve(w, h, groups, DueIn(w, h, Elems(docs), f, depth), TargetType(w, t, f));
  }

  lemma {:induction false} SomeGrouped(w: World, h: Heap, groups: map<Id, seq<Loc>>, docs: seq<Ref>, f: nat, depth: int)
    returns (l: Loc)
    requires Grouped(h, groups, DueIn(w, h, Elems(docs), f, depth)) && groups != map[]
    ensures l in DueIn(w, h, Elems(docs), f, depth)
  {
    var id :| id in groups;
    l := groups[id][0];
    assert l in groups[id];
  }

  lemma {:induction false} SomeLoaded(w: World, h: Heap, h': Heap, groups: map<Id, seq<Loc>>, docs: seq<Ref>, f: nat,
      depth: int, loaded: seq<Ref>, via: seq<Loc>, target: Type)
    requires Grouped(h, groups, DueIn(w, h, Elems(docs), f, depth)) && groups != map[]
    requires h' in Fetched(w, h, DueIn(w, h, Elems(docs), f, depth), loaded, via, target)
    ensures loaded != []
  {
    var l := SomeGrouped(w, h, groups, docs, f, depth);
  }

  lemma {:induction false} GroupsResolve(w: World, h: Heap, groups: map<Id, seq<Loc>>, due: set<Loc>, target: Type)
    requires Grouped(h, groups, due) && forall id :: id in groups ==> Found(w, target, id)
    requires forall l :: l in due ==> l in h.slots && IsLoc(h, l) && TargetAt(w, h, l) == target
    ensures AllResolve(w, h, due, 0)
  {
  }

  /** Hydrating the loaded targets decides and completes the field. */
  lemma {:induction false} FieldHydrated(w: World, h: Heap, asked: multiset<Ask>, h1: Heap, h2: Heap,
      asked': multiset<Ask>,
      groups: map<Id, seq<Loc>>, docs: seq<Ref>, t: Type, f: nat, loaded: seq<Ref>, via: seq<Loc>, depth: int, ok: bool)
    requires depth > 1 && WellFormed(w, h) && AreDocs(h, docs, t) &&
      Grouped(h, groups, DueIn(w, h, Elems(docs), f, depth))
    requires groups != map[] &&
      h1 in Fetched(w, h, DueIn(w, h, Elems(docs), f, depth), loaded, via, TargetType(w, t, f))
    requires h2 in Outcomes(w, h1, Due(w, h1, Elems(loaded), depth - 1), depth - 2, ok)
    requires var u := TargetType(w, t, f);
      ok ==> asked' == asked + multiset{Ask(depth, u)} + CallQueries(w, h1, loaded, u, |Fields(w, u)|, depth - 1)
    ensures (h2, asked') in FieldEnds(w, h, asked, docs, t, f, depth, ok)
  {
    var due := DueIn(w, h, Elems(docs), f, depth);
    TargetsHydrated(w, h, h1, h2, due, loaded, via, TargetType(w, t, f), depth - 1, ok);
    var l := SomeGrouped(w, h, groups, docs, f, depth);
    AskedForField(w, h, h1, docs, t, f, depth, loaded, via, l);
  }

  lemma {:induction false} TargetsHydrated(w: World, h0: Heap, h1: Heap, h2: Heap, due: set<Loc>,
      loaded: seq<Ref>, via: seq<Loc>, target: Type, d: int, ok: bool)
    requires d > 0 && WellFormed(w, h0) && (forall l :: l in due ==> l in h0.slots && IsLoc(h0, l))
    requires h1 in Fetched(w, h0, due, loaded, via, target)
    requires h2 in Outcomes(w, h1, Due(w, h1, Elems(loaded), d), d - 1, ok)
    ensures h2 in Outcomes(w, h0, due, d, ok) && (ok ==> Shared(h0, h2, due))
  {
    TargetsDecide(w, h0, h1, due, loaded, via, target, d);
    TouchesDeeper(w, h0, h1, h2, due, Elems(loaded), d);
    if ok { DeeperDone(w, h0, h1, h2, due, loaded, via, target, d); }
  }

  /** The due slots whose id is among ids. */
  ghost function With(h: Heap, due: set<Loc>, ids: set<Id>): set<Loc>
  {
    set l | l in due && l in h.slots && h.slots[l].id in ids
  }

  // -----------------------------------------------------------------------------------------
  // Rows of one query
  // -----------------------------------------------------------------------------------------

  /** Each of the slots ls holds the pointer of its id. */
  ghost predicate PointersAre(h0: Heap, h: Heap, ls: set<Loc>, ptr: map<Id, Ref>)
  {
    forall l :: l in ls ==>
      l in h0.slots && l in h.slots && h0.slots[l].id in ptr && h.slots[l].value == At(ptr[h0.slots[l].id])
  }

  /**
    The groups of the ids in ptr have been filled, each with the one pointer ptr gives; loaded lists those
    documents.
   */
  ghost predicate RowsDone(w: World, h0: Heap, h: Heap, due: set<Loc>, ptr: map<Id, Ref>, loaded: seq<Ref>,
      via: seq<Loc>, target: Type)
    requires forall l :: l in due ==> l in h0.slots && IsLoc(h0, l)
  {
    var done := With(h0, due, ptr.Keys);
    Loads(w, h0, h, done, 0) && PointersAre(h0, h, done, ptr) && TargetsOf(w, h0, h, done, loaded, via, target) &&
    forall id :: id in ptr ==> Found(w, target, id)
  }

  lemma {:induction false} NoRowsDone(w: World, h: Heap, due: set<Loc>, target: Type)
    requires WellFormed(w, h) && forall l :: l in due ==> l in h.slots && IsLoc(h, l)
    ensures RowsDone(w, h, h, due, map[], [], [], target)
  {
    assert With(h, due, {}) == {};
  }

  /** Slots of ids not yet matched are as they were. */
  lemma {:induction false} StillPending(w: World, h0: Heap, h: Heap, due: set<Loc>, ids: set<Id>, id: Id, target: Type)
    requires WellFormed(w, h0) && id !in ids
    requires forall l :: l in due ==> l in h0.slots && IsLoc(h0, l) && TargetAt(w, h0, l) == target
    requires Loads(w, h0, h, With(h0, due, ids), 0)
    ensures forall l :: l in With(h0, due, {id}) ==>
      l in h.slots && IsLoc(h, l) && h.slots[l] == h0.slots[l] && TargetAt(w, h, l) == target
  {
    forall l | l in With(h0, due, {id}) ensures l in h.slots && IsLoc(h, l) && h.slots[l] == h0.slots[l] &&
      TargetAt(w, h, l) == target {
      assert l !in With(h0, due, ids);
    }
  }

  lemma {:induction false} JoinSlots(w: World, h0: Heap, h: Heap, h2: Heap, a: set<Loc>, b: set<Loc>, c: set<Loc>)
    requires WellFormed(w, h0) && a !! b && c == a + b
    requires forall l :: l in a + b ==> l in h0.slots && IsLoc(h0, l)
    requires Loads(w, h0, h, a, 0)
    requires (forall l :: l in b ==> l in h.slots && IsLoc(h, l)) && Loads(w, h, h2, b, 0)
    ensures Loads(w, h0, h2, c, 0)
  {
    LoadsThen(w, h0, h, h2, a, b, 0);
  }

  /** One row was decoded and its address stored in exactly the slots ls. */
  ghost predicate RowLoaded(w: World, h: Heap, h2: Heap, ls: set<Loc>, r: Ref, target: Type)
    requires forall l :: l in ls ==> l in h.slots && IsLoc(h, l)
  {
    Loads(w, h, h2, ls, 0) && r == |h.objects| && |h2.objects| == r + 1 && h2.objects[r].typ == target &&
    forall l :: l in ls ==> h2.slots[l].value == At(r)
  }

  lemma {:induction false} RowIsLoaded(w: World, h: Heap, h2: Heap, ls: set<Loc>, t: Type, id: Id)
    requires WellFormed(w, h) && Found(w, t, id)
    requires forall l :: l in ls ==> l in h.slots && IsLoc(h, l) && h.slots[l].id == id && TargetAt(w, h, l) == t
    requires h2 == Filled(Decoded(w, h, t, id), ls, |h.objects|)
    ensures RowLoaded(w, h, h2, ls, |h.objects|, t)
  {
    OneTargetLoads(w, h, Decoded(w, h, t, id), h2, ls, t, id);
  }

  lemma {:induction false} NextPointers(w: World, h0: Heap, h: Heap, h2: Heap, a: set<Loc>, b: set<Loc>, ptr: map<Id,
      Ref>, id: Id, r: Ref, target: Type)
    requires id !in ptr && PointersAre(h0, h, a, ptr)
    requires forall l :: l in b ==> l in h0.slots && h0.slots[l].id == id && l in h.slots && IsLoc(h, l)
    requires RowLoaded(w, h, h2, b, r, target)
    ensures PointersAre(h0, h2, a + b, ptr[id := r])
  {
  }

  /** One more document, loaded into the slots b. */
  lemma {:induction false} PushTarget(w: World, h0: Heap, h: Heap, h2: Heap, a: set<Loc>, b: set<Loc>,
      loaded: seq<Ref>, via: seq<Loc>, l: Loc, r: Ref, target: Type)
    requires l in b && |h0.objects| <= r < |h2.objects| && h2.objects[r].typ == target && h.objects <= h2.objects
    requires TargetsOf(w, h0, h, a, loaded, via, target)
    requires forall m :: m in a ==> m in h.slots && m in h2.slots && h2.slots[m] == h.slots[m]
    requires forall m :: m in b ==> m in h2.slots && h2.slots[m].value == At(r)
    ensures TargetsOf(w, h0, h2, a + b, loaded + [r], via + [l], target)
  {
    forall i | 0 <= i < |via| + 1
      ensures (via + [l])[i] in a + b && h2.slots[(via + [l])[i]].value == At((loaded + [r])[i])
    {
      if i < |via| { assert via[i] in a; }
    }
  }

  lemma {:induction false} NextTargets(w: World, h0: Heap, h: Heap, h2: Heap, a: set<Loc>, b: set<Loc>,
      loaded: seq<Ref>, via: seq<Loc>, l: Loc, r: Ref, target: Type)
    requires a !! b && l in b && h0.objects <= h.objects
    requires forall l :: l in b ==> l in h.slots && IsLoc(h, l)
    requires TargetsOf(w, h0, h, a, loaded, via, target) && RowLoaded(w, h, h2, b, r, target)
    ensures TargetsOf(w, h0, h2, a + b, loaded + [r], via + [l], target)
  {
    RowLoadedKeeps(w, h, h2, a, b, r, target);
    PushTarget(w, h0, h, h2, a, b, loaded, via, l, r, target);
  }

  lemma {:induction false} RowLoadedKeeps(w: World, h: Heap, h2: Heap, a: set<Loc>, b: set<Loc>, r: Ref, target: Type)
    requires a !! b && forall l :: l in b ==> l in h.slots && IsLoc(h, l)
    requires RowLoaded(w, h, h2, b, r, target)
    ensures r < |h2.objects| && h2.objects[r].typ == target && h.objects <= h2.objects
    ensures forall m :: m in a && m in h.slots ==> m in h2.slots && h2.slots[m] == h.slots[m]
    ensures forall m :: m in b ==> m in h2.slots && h2.slots[m].value == At(r)
  {
    forall m | m in b ensures m in h2.slots { assert LoadedAt(w, h, h2, m, 0); }
  }

  lemma {:induction false} NextRowDone(w: World, h0: Heap, h: Heap, h2: Heap, due: set<Loc>, ptr: map<Id, Ref>,
      loaded: seq<Ref>, via: seq<Loc>, target: Type, id: Id, l: Loc, r: Ref)
    requires WellFormed(w, h0) && Found(w, target, id) && id !in ptr
    requires forall l :: l in due ==> l in h0.slots && IsLoc(h0, l)
    requires RowsDone(w, h0, h, due, ptr, loaded, via, target)
    requires l in With(h0, due, {id}) && forall l :: l in With(h0, due, {id}) ==> l in h.slots && IsLoc(h, l)
    requires RowLoaded(w, h, h2, With(h0, due, {id}), r, target)
    ensures RowsDone(w, h0, h2, due, ptr[id := r], loaded + [r], via + [l], target)
  {
    var ptr', a, b := ptr[id := r], With(h0, due, ptr.Keys), With(h0, due, {id});
    assert With(h0, due, ptr'.Keys) == a + b;
    NextPointers(w, h0, h, h2, a, b, ptr, id, r, target);
    NextTargets(w, h0, h, h2, a, b, loaded, via, l, r, target);
    JoinSlots(w, h0, h, h2, a, b, a + b);
  }

  /** The slots of an id not yet matched: all still pending. */
  lemma {:induction false} GroupPending(w: World, h0: Heap, h: Heap, due: set<Loc>, groups: map<Id, seq<Loc>>,
      ids: set<Id>, id: Id, target: Type)
    requires WellFormed(w, h0) && id !in ids && id in groups && Grouped(h0, groups, due)
    requires forall l :: l in due ==> IsLoc(h0, l) && TargetAt(w, h0, l) == target
    requires Loads(w, h0, h, With(h0, due, ids), 0)
    ensures Locs(groups[id]) == With(h0, due, {id})
    ensures forall l :: l in groups[id] ==>
      l in h.slots && IsLoc(h, l) && h.slots[l].id == id && TargetAt(w, h, l) == target
  {
    StillPending(w, h0, h, due, ids, id, target);
    assert Locs(groups[id]) == With(h0, due, {id});
  }

  lemma {:induction false} AllRowsDone(w: World, h0: Heap, h: Heap, due: set<Loc>, groups: map<Id, seq<Loc>>,
      ptr: map<Id, Ref>, loaded: seq<Ref>, via: seq<Loc>, target: Type)
    requires (forall l :: l in due ==> l in h0.slots && IsLoc(h0, l)) && Grouped(h0, groups, due)
    requires RowsDone(w, h0, h, due, ptr, loaded, via, target) && ptr.Keys == groups.Keys
    ensures Loads(w, h0, h, due, 0) && Shared(h0, h, due) && TargetsOf(w, h0, h, due, loaded, via, target)
  {
    assert With(h0, due, ptr.Keys) == due;
  }

  /** What a query over the ids of a group must contain: at most one row per id, and one for every id that has one. */
  ghost predicate RowsMatch(w: World, rows: seq<Id>, target: Type, ids: set<Id>)
    requires target in w.store
  {
    (forall id :: id in rows ==> id in w.store[target]) &&
    (forall id :: id in ids && id in w.store[target] ==> id in rows) &&
    forall i, j :: 0 <= i < j < |rows| ==> rows[i] != rows[j]
  }

  ghost predicate Seen(rows: seq<Id>, i: nat, groups: map<Id, seq<Loc>>, matched: set<Id>)
    requires i <= |rows|
  {
    (forall id :: id in matched ==> id in rows[..i] && id in groups) &&
    forall id :: id in rows[..i] && id in groups ==> id in matched
  }

  class Hydrator {
    const world: World
    var heap: Heap
    ghost var asked: multiset<Ask>

    ghost predicate Valid()
      reads this
    {
      WellFormed(world, heap)
    }

    constructor (w: World)
      ensures Valid() && world == w && heap == Heap([], map[]) && asked == multiset{}
    {
      world := w;
      heap := Heap([], map[]);
      asked := multiset{};
    }

    /**
      Hydrate every wanted pending link of docs, depth levels down. Succeeds exactly when per-slot
      recursive resolution of each of them would, and then loads exactly those slots with what that loads.
     */
    method BatchResolveLinks(docs: seq<Ref>, t: Type, depth: int, ghost k: nat) returns (out: Outcome)
      requires Valid() && AreDocs(heap, docs, t)
      requires FieldsWithin(world.schema, k)
      modifies this`heap, this`asked
      ensures heap in Outcomes(world, old(heap), Due(world, old(heap), Elems(docs), depth), depth - 1, out == Ok)
      ensures Explains(world, out)
      ensures out == Ok ==> Shared(old(heap), heap, Due(world, old(heap), Elems(docs), depth))
      ensures out == Ok ==> heap in ByMode(world, old(heap), docs, t, depth)
      ensures out == Ok ==> asked == old(asked) + CallQueries(world, old(heap), docs, t, |Fields(world, t)|, depth)
      ensures |asked| <= |old(asked)| + QueryBound(k, depth)
      decreases depth, 1
    {
      ghost var h0, a0 := heap, asked;
      out := Ok;
      if depth <= 0 || |docs| == 0 || world.mode == FetchNone {
        NothingToDo(world, heap, docs, t, depth);
        CallLoads(world, heap, heap, docs, t, depth);
        return;
      }
      var fields := Fields(world, t);
      var f := 0;
      Begins(world, h0, a0, docs, t, depth);
      while f < |fields|
        invariant 0 <= f <= |fields| && out == Ok
        invariant (heap, asked) in Progress(world, h0, a0, docs, t, f, depth)
      {
        if Wanted(world, t, f) {
          ghost var h1, a1 := heap, asked;
          StillDocs(world, h0, a0, h1, a1, docs, t, f, depth);
          out := BatchResolveField(docs, t, f, depth, k);
          if out != Ok {
            Breaks(world, h0, a0, h1, a1, heap, asked, docs, t, f, depth, k);
            return;
          }
          Continues(world, h0, a0, h1, a1, heap, asked, docs, t, f, depth);
        } else {
          PassesOver(world, h0, a0, heap, asked, docs, t, f, depth);
        }
        f := f + 1;
      }
      Ends(world, h0, a0, heap, asked, docs, t, depth, k);
      CallLoads(world, h0, heap, docs, t, depth);
    }

    /** One link field of all of docs, in one query, and then the loaded targets one level deeper. */
    method BatchResolveField(docs: seq<Ref>, t: Type, f: nat, depth: int, ghost k: nat) returns (out: Outcome)
      requires Valid() && AreDocs(heap, docs, t) && depth > 0 && Wanted(world, t, f)
      requires FieldsWithin(world.schema, k)
      modifies this`heap, this`asked
      ensures Explains(world, out)
      ensures (heap, asked) in FieldEnds(world, old(heap), old(asked), docs, t, f, depth, out == Ok)
      ensures |asked| <= |old(asked)| + 1 + QueryBound(k, depth - 1)
      decreases depth, 0
    {
      ghost var h0, a0, due := heap, asked, DueIn(world, heap, Elems(docs), f, depth);
      var slotsByID := CollectSlots(docs, t, f, depth);
      if slotsByID == map[] {
        EmptyField(world, h0, a0, docs, t, f, depth);
        return Ok;
      }
      var target := TargetType(world, t, f);
      if target !in world.store {
        ghost var id :| id in slotsByID;
        FieldFails(world, h0, a0, h0, a0, slotsByID, docs, t, f, depth, id);
        return Unregistered(target);
      }
      var loaded;
      ghost var via;
      out, loaded, via := LoadTargets(slotsByID, target, due, depth);
      if out != Ok {
        FieldFails(world, h0, a0, heap, asked, slotsByID, docs, t, f, depth, out.id);
        return;
      }
      ghost var h1 := heap;
      if depth > 1 && |loaded| > 0 {
        FetchedDocs(world, h0, h1, due, loaded, via, target);
        out := BatchResolveLinks(loaded, target, depth - 1, k);
        FieldHydrated(world, h0, a0, h1, heap, asked, slotsByID, docs, t, f, loaded, via, depth, out == Ok);
      } else {
        SomeLoaded(world, h0, h1, slotsByID, docs, f, depth, loaded, via, target);
        FieldFetched(world, h0, a0, h1, slotsByID, docs, t, f, loaded, via, depth);
      }
    }

    method CollectSlots(docs: seq<Ref>, t: Type, f: nat, ghost depth: int) returns (groups: map<Id, seq<Loc>>)
      requires Valid() && AreDocs(heap, docs, t) && depth > 0 && Wanted(world, t, f)
      ensures Grouped(heap, groups, DueIn(world, heap, Elems(docs), f, depth))
    {
      ghost var due := DueIn(world, heap, Elems(docs), f, depth);
      ghost var seen: set<Loc> := {};
      groups := map[];
      for i := 0 to |docs|
        invariant Grouped(heap, groups, seen) && seen <= due
        invariant forall l :: l in due && l.doc in docs[..i] ==> l in seen
      {
        var p := docs[i];
        assert p in docs;
        for j := 0 to heap.objects[p].sizes[f]
          invariant Grouped(heap, groups, seen) && seen <= due
          invariant forall l :: l in due && l.doc in docs[..i] ==> l in seen
          invariant forall l :: l in due && l.doc == p && l.index < j ==> l in seen
        {
          var l := Loc(p, f, j);
          assert IsLoc(heap, l);
          CollectKeepsGrouped(heap, groups, seen, l);
          groups := CollectLinkSlot(heap.slots[l], l, groups);
          if IsPending(heap.slots[l]) { seen := seen + {l}; }
        }
      }
      assert seen == due;
    }

    /** The rows of a collection with the given ids, in any order; a backend may return others too. */
    method QueryByIDs(target: Type, ids: set<Id>, ghost depth: int) returns (rows: seq<Id>)
      requires target in world.store
      modifies this`asked
      ensures asked == old(asked) + multiset{Ask(depth, target)}
      ensures RowsMatch(world, rows, target, ids)
    {
      asked := asked + multiset{Ask(depth, target)};
      rows := [];
      var rest := ids;
      while rest != {}
        invariant forall id :: id in rows ==> id in world.store[target] && id !in rest
        invariant forall id :: id in ids && id in world.store[target] ==> id in rest || id in rows
        invariant forall i, j :: 0 <= i < j < |rows| ==> rows[i] != rows[j]
        decreases |rest|
      {
        var id :| id in rest;
        rest := rest - {id};
        if id in world.store[target] { rows := rows + [id]; }
      }
    }

    /** Store one pointer into every slot of a group. */
    method FillSlots(slots: seq<Loc>, r: Ref)
      requires forall l :: l in slots ==> l in heap.slots
      modifies this`heap
      ensures heap == Filled(old(heap), Locs(slots), r)
    {
      ghost var h1 := heap;
      for i := 0 to |slots|
        invariant heap.objects == h1.objects && heap.slots.Keys == h1.slots.Keys
        invariant forall l :: l in h1.slots ==>
          heap.slots[l] == if l in slots[..i] then h1.slots[l].(loaded := true, value := At(r)) else h1.slots[l]
      {
        var l := slots[i];
        heap := heap.(slots := heap.slots[l := heap.slots[l].(loaded := true, value := At(r))]);
      }
      assert heap.slots == Filled(h1, Locs(slots), r).slots;
    }

    /** Decode one row and store its address into every slot of its group. */
    method LoadRow(slots: seq<Loc>, target: Type, id: Id) returns (r: Ref)
      requires Valid() && Found(world, target, id)
      requires forall l :: l in slots ==>
        l in heap.slots && IsLoc(heap, l) && heap.slots[l].id == id && TargetAt(world, heap, l) == target
      modifies this`heap
      ensures Valid() && RowLoaded(world, old(heap), heap, Locs(slots), r, target)
    {
      ghost var h := heap;
      r := |heap.objects|;
      heap := Decoded(world, heap, target, id);
      assert h.slots.Keys <= heap.slots.Keys;
      FillSlots(slots, r);
      RowIsLoaded(world, h, heap, Locs(slots), target, id);
    }

    /** The per-slot path: one link, one Get, one level. A link with no id, or loaded already, is left as it is. */
    method ResolveSingleLink(l: Loc) returns (out: Outcome)
      requires Valid() && l in heap.slots
      modifies this`heap
      ensures Explains(world, out)
      ensures heap in Outcomes(world, old(heap), Pending(old(heap), l), 0, out == Ok)
      ensures out != Ok ==> heap == old(heap)
    {
      NothingLoads(world, heap, 0);
      var s := heap.slots[l];
      if s.id == "" { return Ok; }
      if s.loaded { return Ok; }
      var target := TargetAt(world, heap, l);
      if target !in world.store { return Unregistered(target); }
      if s.id !in world.store[target] { return NotFound(target, s.id); }
      if world.store[target][s.id].Corrupt? { return BadRow(target, s.id); }
      ghost var h := heap;
      var r := LoadRow([l], target, s.id);
      assert Locs([l]) == {l};
      out := Ok;
    }

    /** Fill the group of one id from its row. */
    method LoadGroup(slotsByID: map<Id, seq<Loc>>, target: Type, id: Id, ghost h0: Heap, ghost due: set<Loc>,
        ghost ptr: map<Id, Ref>, ghost loaded: seq<Ref>, ghost via: seq<Loc>)
        returns (r: Ref)
      requires Valid() && WellFormed(world, h0) && Found(world, target, id) && id in slotsByID && id !in ptr &&
        Grouped(h0, slotsByID, due)
      requires forall l :: l in due ==> IsLoc(h0, l) && TargetAt(world, h0, l) == target
      requires RowsDone(world, h0, heap, due, ptr, loaded, via, target)
      modifies this`heap
      ensures Valid() && RowsDone(world, h0, heap, due, ptr[id := r], loaded + [r], via + [slotsByID[id][0]], target)
    {
      ghost var h := heap;
      GroupPending(world, h0, h, due, slotsByID, ptr.Keys, id, target);
      r := LoadRow(slotsByID[id], target, id);
      assert slotsByID[id][0] in slotsByID[id];
      NextRowDone(world, h0, h, heap, due, ptr, loaded, via, target, id, slotsByID[id][0], r);
    }

    /** Run the query and fill every group from its row; an id without a row is reported as dangling. */
    method LoadTargets(slotsByID: map<Id, seq<Loc>>, target: Type, ghost due: set<Loc>,
        ghost depth: int) returns (out: Outcome,
        loaded: seq<Ref>, ghost via: seq<Loc>)
      requires Valid() && target in world.store && Grouped(heap, slotsByID, due)
      requires forall l :: l in due ==> IsLoc(heap, l) && IsPending(heap.slots[l]) && TargetAt(world, heap, l) == target
      modifies this`heap, this`asked
      ensures Valid() && asked == old(asked) + multiset{Ask(depth, target)}
      ensures out == Ok ==> forall id :: id in slotsByID ==> Found(world, target, id)
      ensures Explains(world, out)
      ensures out != Ok ==> (out.Dangling? || out.BadRow?) && out.id in slotsByID && !Found(world, target, out.id)
      ensures out.Dangling? ==> out.id !in world.store[target]
      ensures out == Ok ==> heap in Fetched(world, old(heap), due, loaded, via, target)
      ensures Touches(old(heap), heap, due)
    {
      ghost var h0 := heap;
      var rows := QueryByIDs(target, slotsByID.Keys, depth);
      loaded, via := [], [];
      var matched: set<Id> := {};
      ghost var ptr: map<Id, Ref> := map[];
      NoRowsDone(world, heap, due, target);
      for i := 0 to |rows|
        invariant Valid() && asked == old(asked) + multiset{Ask(depth, target)}
        invariant RowsDone(world, h0, heap, due, ptr, loaded, via, target)
        invariant ptr.Keys == matched && Seen(rows, i, slotsByID, matched)
      {
        var id := rows[i];
        if id !in slotsByID { continue; }
        if world.store[target][id].Corrupt? {
          return BadRow(target, id), [], [];
        }
        var r := LoadGroup(slotsByID, target, id, h0, due, ptr, loaded, via);
        matched := matched + {id};
        ptr := ptr[id := r];
        loaded, via := loaded + [r], via + [slotsByID[id][0]];
      }
      var missing := slotsByID.Keys - matched;
      if missing != {} {
        var id :| id in missing;
        return Dangling(target, id), [], [];
      }
      AllRowsDone(world, h0, heap, due, slotsByID, ptr, loaded, via, target);
      out := Ok;
    }
  }
}

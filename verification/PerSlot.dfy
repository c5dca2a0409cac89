/** The reference for batched hydration: one Get per link, each target hydrated before the next link is looked at. */
module PerSlot {
  import opened Hydration
  import opened LinkBatch

  /** The slots among ls that wait to be loaded. */
  ghost function PendingOf(h: Heap, slots: seq<Loc>): set<Loc>
  {
    set l | l in slots && l in h.slots && IsPending(h.slots[l])
  }

  ghost predicate AreSlots(h: Heap, slots: seq<Loc>)
  {
    forall l :: l in slots ==> l in h.slots && IsLoc(h, l)
  }

  /** The pending ones of the first slots resolved and were loaded. */
  ghost predicate SlotsDone(w: World, h0: Heap, h: Heap, slots: seq<Loc>, d: int)
    requires AreSlots(h0, slots)
  {
    Loads(w, h0, h, PendingOf(h0, slots), d) && AllResolve(w, h0, PendingOf(h0, slots), d)
  }

  lemma {:induction false} NoSlotsDone(w: World, h: Heap, d: int)
    requires WellFormed(w, h)
    ensures SlotsDone(w, h, h, [], d)
  {
    assert PendingOf(h, []) == {};
    NothingLoads(w, h, d);
  }

  /** Another slot waits to be loaded exactly if it did at first and has not come up yet. */
  lemma {:induction false} StillWaits(w: World, h0: Heap, h: Heap, slots: seq<Loc>, l: Loc, d: int)
    requires WellFormed(w, h0) && AreSlots(h0, slots + [l]) && AreSlots(h0, slots) && SlotsDone(w, h0, h, slots, d)
    ensures l in h.slots && IsLoc(h, l)
    ensures Pending(h, l) == PendingOf(h0, slots + [l]) - PendingOf(h0, slots)
    ensures Unmoved(w, h0, h, Pending(h, l))
  {
    assert l in slots + [l];
    if l in PendingOf(h0, slots) { assert LoadedAt(w, h0, h, l, d); }
  }

  lemma {:induction false} NextSlotDone(w: World, h0: Heap, h1: Heap, h2: Heap, slots: seq<Loc>, l: Loc, d: int)
    requires WellFormed(w, h0) && AreSlots(h0, slots + [l]) && AreSlots(h0, slots) && SlotsDone(w, h0, h1, slots, d)
    requires l in h1.slots && IsLoc(h1, l) && h2 in Outcomes(w, h1, Pending(h1, l), d, true)
    ensures SlotsDone(w, h0, h2, slots + [l], d)
  {
    StillWaits(w, h0, h1, slots, l, d);
    assert PendingOf(h0, slots + [l]) == PendingOf(h0, slots) + Pending(h1, l);
    JoinDone(w, h0, h1, h2, PendingOf(h0, slots), Pending(h1, l), d);
  }

  lemma {:induction false} JoinDone(w: World, h0: Heap, h1: Heap, h2: Heap, a: set<Loc>, b: set<Loc>, d: int)
    requires WellFormed(w, h0) && a !! b && (forall l :: l in a ==> l in h0.slots && IsLoc(h0, l))
    requires Unmoved(w, h0, h1, b) && Loads(w, h0, h1, a, d) && AllResolve(w, h0, a, d)
    requires h2 in Outcomes(w, h1, b, d, true)
    ensures Loads(w, h0, h2, a + b, d) && AllResolve(w, h0, a + b, d)
  {
    LoadsThen(w, h0, h1, h2, a, b, d);
  }

  lemma {:induction false} NextSlotFails(w: World, h0: Heap, h1: Heap, h2: Heap, slots: seq<Loc>, n: nat, d: int)
    requires WellFormed(w, h0) && AreSlots(h0, slots) && n < |slots| && SlotsDone(w, h0, h1, slots[..n], d) &&
      slots[n] in h1.slots && IsLoc(h1, slots[n])
    requires h2 in Outcomes(w, h1, Pending(h1, slots[n]), d, false)
    ensures h2 in Outcomes(w, h0, PendingOf(h0, slots), d, false)
  {
    StillWaits(w, h0, h1, slots[..n], slots[n], d);
    TouchesThen(h0, h1, h2, PendingOf(h0, slots[..n]), Pending(h1, slots[n]), PendingOf(h0, slots));
  }

  /** One link fetched is a group of one filled. */
  lemma {:induction false} FetchedOne(w: World, h0: Heap, h1: Heap, l: Loc) returns (r: Ref)
    requires WellFormed(w, h0) && l in h0.slots && IsLoc(h0, l) && h1 in Outcomes(w, h0, {l}, 0, true)
    ensures l in h1.slots && IsLoc(h1, l) && h1.slots[l].value == At(r) && TargetAt(w, h1, l) == TargetAt(w, h0, l)
    ensures h1 in Fetched(w, h0, {l}, [r], [l], TargetAt(w, h0, l))
  {
    assert LoadedAt(w, h0, h1, l, 0);
    r := h1.slots[l].value.ref;
    OneTarget(w, h0, h1, l, r, TargetAt(w, h0, l));
  }

  lemma {:induction false} OneTarget(w: World, h0: Heap, h1: Heap, l: Loc, r: Ref, target: Type)
    requires l in h0.slots && l in h1.slots && h1.slots[l].value == At(r)
    requires |h0.objects| <= r < |h1.objects| && h1.objects[r].typ == target
    ensures Shared(h0, h1, {l}) && TargetsOf(w, h0, h1, {l}, [r], [l], target)
  {
  }

  /** Where there is nothing to fetch, or fetching fails, the depth asked for makes no difference. */
  lemma {:induction false} AtAnyDepth(w: World, h: Heap, h': Heap, due: set<Loc>, d: nat, ok: bool)
    requires (forall l :: l in due ==> l in h.slots && IsLoc(h, l)) && h' in Outcomes(w, h, due, 0, ok)
    requires due == {} || !ok || d == 0
    ensures h' in Outcomes(w, h, due, d, ok)
  {
    if !ok {
      var l :| l in due && !Resolves(w, TargetAt(w, h, l), h.slots[l].id, 0);
      assert !Resolves(w, TargetAt(w, h, l), h.slots[l].id, d);
    }
  }

  // -----------------------------------------------------------------------------------------
  // The methods
  // -----------------------------------------------------------------------------------------

  /** The locations of all links of docs that the mode hydrates. */
  method WantedSlots(hy: Hydrator, docs: seq<Ref>, t: Type) returns (slots: seq<Loc>)
    requires hy.Valid() && AreDocs(hy.heap, docs, t)
    ensures forall l :: l in slots <==> l.doc in docs && IsLoc(hy.heap, l) && Wanted(hy.world, t, l.field)
  {
    slots := [];
    for i := 0 to |docs|
      invariant forall l :: l in slots <==> l.doc in docs[..i] && IsLoc(hy.heap, l) && Wanted(hy.world, t, l.field)
    {
      var p := docs[i];
      assert p in docs;
      var sizes := hy.heap.objects[p].sizes;
      ghost var before := slots;
      for f := 0 to |sizes|
        invariant forall l :: l in slots <==>
          l in before || (l.doc == p && IsLoc(hy.heap, l) && Wanted(hy.world, t, l.field) && l.field < f)
      {
        ghost var earlier := slots;
        if Wanted(hy.world, t, f) {
          for j := 0 to sizes[f]
            invariant forall l :: l in slots <==> l in earlier || (l.doc == p && l.field == f && l.index < j)
          {
            slots := slots + [Loc(p, f, j)];
          }
        }
      }
    }
    assert docs[..|docs|] == docs;
  }

  /**
    Hydrates every wanted pending link of docs, depth levels down. It succeeds exactly when the batched
    form does, and then the same slots hold the same values.
   */
  method ResolveEach(hy: Hydrator, docs: seq<Ref>, t: Type, depth: int) returns (out: Outcome)
    requires hy.Valid() && AreDocs(hy.heap, docs, t)
    modifies hy`heap
    ensures hy.heap in Outcomes(hy.world, old(hy.heap), Due(hy.world, old(hy.heap), Elems(docs), depth), depth - 1,
      out == Ok)
    decreases depth, 1
  {
    if depth <= 0 {
      NothingDue(hy.world, hy.heap, docs, depth);
      return Ok;
    }
    var slots := WantedSlots(hy, docs, t);
    assert PendingOf(hy.heap, slots) == Due(hy.world, hy.heap, Elems(docs), depth);
    out := ResolveSlots(hy, slots, depth - 1);
  }

  /** One slot after the other. */
  method ResolveSlots(hy: Hydrator, slots: seq<Loc>, d: nat) returns (out: Outcome)
    requires hy.Valid() && AreSlots(hy.heap, slots)
    modifies hy`heap
    ensures hy.heap in Outcomes(hy.world, old(hy.heap), PendingOf(old(hy.heap), slots), d, out == Ok)
    decreases d, 3
  {
    ghost var h0 := hy.heap;
    NoSlotsDone(hy.world, h0, d);
    out := Ok;
    for i := 0 to |slots|
      invariant hy.Valid() && out == Ok && SlotsDone(hy.world, h0, hy.heap, slots[..i], d)
    {
      ghost var h1 := hy.heap;
      assert slots[..i + 1] == slots[..i] + [slots[i]];
      StillWaits(hy.world, h0, h1, slots[..i], slots[i], d);
      out := ResolveDeep(hy, slots[i], d);
      if out != Ok {
        NextSlotFails(hy.world, h0, h1, hy.heap, slots, i, d);
        return;
      }
      NextSlotDone(hy.world, h0, h1, hy.heap, slots[..i], slots[i], d);
    }
    assert slots[..|slots|] == slots;
  }

  /** One link and d levels below its target. */
  method ResolveDeep(hy: Hydrator, l: Loc, d: nat) returns (out: Outcome)
    requires hy.Valid() && l in hy.heap.slots
    modifies hy`heap
    ensures hy.heap in Outcomes(hy.world, old(hy.heap), Pending(old(hy.heap), l), d, out == Ok)
    decreases d, 2
  {
    ghost var h0 := hy.heap;
    var fetched := hy.heap.slots[l].id != "" && !hy.heap.slots[l].loaded;
    out := hy.ResolveSingleLink(l);
    if out == Ok && fetched && d > 0 {
      ghost var h1, target := hy.heap, TargetAt(hy.world, h0, l);
      ghost var p := FetchedOne(hy.world, h0, h1, l);
      FetchedDocs(hy.world, h0, h1, {l}, [p], [l], target);
      var r := hy.heap.slots[l].value.ref;
      out := ResolveEach(hy, [r], TargetAt(hy.world, hy.heap, l), d);
      TargetsHydrated(hy.world, h0, h1, hy.heap, {l}, [p], [l], target, d, out == Ok);
    } else {
      AtAnyDepth(hy.world, h0, hy.heap, Pending(h0, l), d, out == Ok);
    }
  }
}

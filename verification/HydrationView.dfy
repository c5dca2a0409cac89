/**
  What a caller can see of hydrated links: the value tree behind an address, and the tree per-slot resolution
  builds.
 */
module HydrationView {
  import opened Hydration

  datatype Tree = Tree(typ: Type, links: seq<seq<Branch>>)
  datatype Branch = Unloaded(id: Id) | Loaded(id: Id, target: Tree) | Deeper(id: Id)

  // -----------------------------------------------------------------------------------------
  // The tree behind an address, pointers followed n levels
  // -----------------------------------------------------------------------------------------

  function View(h: Heap, r: Ref, n: nat): Tree
    requires r < |h.objects|
    decreases n, 1
  {
    var sizes := h.objects[r].sizes;
    Tree(h.objects[r].typ,
         seq(|sizes|, f requires 0 <= f < |sizes| => seq(sizes[f],
           j requires 0 <= j < sizes[f] => ViewSlot(h, Loc(r, f, j), n))))
  }

  function ViewSlot(h: Heap, l: Loc, n: nat): Branch
    decreases n, 0
  {
    if l !in h.slots then Unloaded("")
    else
      var s := h.slots[l];
      if !s.loaded then Unloaded(s.id)
      else if n == 0 || s.value.Nil? || s.value.ref >= |h.objects| then Deeper(s.id)
      else Loaded(s.id, View(h, s.value.ref, n - 1))
  }

  // -----------------------------------------------------------------------------------------
  // Per-slot recursive resolution, as a function of the stored rows alone
  // -----------------------------------------------------------------------------------------

  function ResolveDoc(w: World, t: Type, id: Id, n: nat): Tree
    requires Resolves(w, t, id, n)
    decreases n, 1
  {
    var ids := Links(w, t, id);
    Tree(t, seq(|ids|, f requires 0 <= f < |ids| => seq(|ids[f]|,
      j requires 0 <= j < |ids[f]| => ResolveSlot(w, t, id, f, j, n))))
  }

  function ResolveSlot(w: World, t: Type, id: Id, f: nat, j: nat, n: nat): Branch
    requires Resolves(w, t, id, n) && f < |Links(w, t, id)| && j < |Links(w, t, id)[f]|
    decreases n, 0
  {
    var target := Links(w, t, id)[f][j];
    if n > 0 && Wanted(w, t, f) && target != "" then Loaded(target, ResolveDoc(w, TargetType(w, t, f), target, n - 1))
    else Unloaded(target)
  }

  /** A hydrated document shows exactly the tree that per-slot resolution to the same depth builds. */
  lemma {:induction false} HydratedView(w: World, h: Heap, lo: nat, r: Ref, t: Type, id: Id, n: nat)
    requires WellFormed(w, h) && Hydrated(w, h, lo, r, t, id, n)
    ensures Resolves(w, t, id, n) && View(h, r, n) == ResolveDoc(w, t, id, n)
    decreases n, 1
  {
    var ids := Links(w, t, id);
    forall f, j | 0 <= f < |ids| && 0 <= j < |ids[f]| && n > 0 && Wanted(w, t, f) && ids[f][j] != ""
      ensures Resolves(w, TargetType(w, t, f), ids[f][j], n - 1)
    {
      var l := Loc(r, f, j);
      assert IsLoc(h, l) && l in h.slots;
      HydratedView(w, h, lo, h.slots[l].value.ref, TargetType(w, t, f), ids[f][j], n - 1);
    }
    forall f, j | 0 <= f < |ids| && 0 <= j < |ids[f]|
      ensures ViewSlot(h, Loc(r, f, j), n) == ResolveSlot(w, t, id, f, j, n)
    {
      SlotView(w, h, lo, r, t, id, f, j, n);
    }
    ViewRows(h, r, w, t, id, n);
  }

  lemma {:induction false} SlotView(w: World, h: Heap, lo: nat, r: Ref, t: Type, id: Id, f: nat, j: nat, n: nat)
    requires WellFormed(w, h) && Hydrated(w, h, lo, r, t, id, n) && Resolves(w, t, id, n)
    requires f < |Links(w, t, id)| && j < |Links(w, t, id)[f]|
    ensures ViewSlot(h, Loc(r, f, j), n) == ResolveSlot(w, t, id, f, j, n)
    decreases n, 0
  {
    var l, target := Loc(r, f, j), Links(w, t, id)[f][j];
    assert IsLoc(h, l) && l in h.slots;
    if n > 0 && Wanted(w, t, f) && target != "" {
      HydratedView(w, h, lo, h.slots[l].value.ref, TargetType(w, t, f), target, n - 1);
    }
  }

  lemma {:induction false} ViewRows(h: Heap, r: Ref, w: World, t: Type, id: Id, n: nat)
    requires r < |h.objects| && Resolves(w, t, id, n) && h.objects[r] == Object(t, Sizes(Links(w, t, id)))
    requires forall f, j :: 0 <= f < |Links(w, t, id)| && 0 <= j < |Links(w, t, id)[f]| ==>
      ViewSlot(h, Loc(r, f, j), n) == ResolveSlot(w, t, id, f, j, n)
    ensures View(h, r, n) == ResolveDoc(w, t, id, n)
  {
    var ids, a, b := Links(w, t, id), View(h, r, n).links, ResolveDoc(w, t, id, n).links;
    forall f | 0 <= f < |ids| ensures a[f] == b[f] {
      assert |a[f]| == |ids[f]| == |b[f]|;
      assert forall j :: 0 <= j < |ids[f]| ==>
        a[f][j] == ViewSlot(h, Loc(r, f, j), n) && b[f][j] == ResolveSlot(w, t, id, f, j, n);
    }
    assert a == b;
  }

  /**
    After a successful hydration every due slot holds its target's per-slot tree, so two successful
    hydrations of the same slots, however they order or share their reads, show the same values.
   */
  lemma {:induction false} LoadedValues(w: World, h: Heap, h': Heap, due: set<Loc>, n: nat, l: Loc)
    requires WellFormed(w, h) && (forall m :: m in due ==> m in h.slots && IsLoc(h, m)) && Loads(w, h, h', due, n) &&
      l in due
    ensures AllResolve(w, h, due, n)
    ensures ViewSlot(h', l, n + 1) == Loaded(h.slots[l].id, ResolveDoc(w, TargetAt(w, h, l), h.slots[l].id, n))
  {
    forall m | m in due ensures Resolves(w, TargetAt(w, h, m), h.slots[m].id, n) &&
      h'.slots[m].value.ref < |h'.objects| {
      assert LoadedAt(w, h, h', m, n);
      HydratedView(w, h', |h.objects|, h'.slots[m].value.ref, TargetAt(w, h, m), h.slots[m].id, n);
    }
    HydratedView(w, h', |h.objects|, h'.slots[l].value.ref, TargetAt(w, h, l), h.slots[l].id, n);
  }
}

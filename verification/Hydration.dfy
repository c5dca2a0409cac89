/**
  Documents, links and rows, and what it means for links to have been hydrated to a given depth.
  Documents live at addresses; a link slot is a location inside a document, so that two parents can
  come to share one target.
 */
module Hydration {
  type Type = string
  type Id = string
  type Ref = nat

  datatype LinkField = LinkField(name: string, eager: bool, target: Type)

  datatype Mode = FetchNone | FetchDefault | FetchAll | FetchNamed(names: set<string>)

  /** A stored row decodes to the ids of its links, field by field (a single link is a list of one). */
  datatype Row = Row(links: seq<seq<Id>>) | Corrupt

  /** Link fields of each type, rows of each registered collection, and the hydration mode. */
  datatype World = World(schema: map<Type, seq<LinkField>>, store: map<Type, map<Id, Row>>, mode: Mode)

  function Fields(w: World, t: Type): seq<LinkField>
  {
    if t in w.schema then w.schema[t] else []
  }

  /** Whether the mode hydrates field f of type t. */
  predicate Wanted(w: World, t: Type, f: nat)
  {
    f < |Fields(w, t)| &&
    match w.mode
    case FetchNone => false
    case FetchDefault => Fields(w, t)[f].eager
    case FetchAll => true
    case FetchNamed(names) => Fields(w, t)[f].name in names
  }

  function TargetType(w: World, t: Type, f: nat): Type
  {
    if f < |Fields(w, t)| then Fields(w, t)[f].target else t
  }

  /** The row exists, its collection is registered, and it decodes. */
  predicate Found(w: World, t: Type, id: Id)
  {
    t in w.store && id in w.store[t] && w.store[t][id].Row?
  }

  /** The link ids of a row, one list per link field; a field the row does not mention stays empty. */
  function Links(w: World, t: Type, id: Id): (ids: seq<seq<Id>>)
    requires Found(w, t, id)
    ensures |ids| == |Fields(w, t)|
  {
    var stored := w.store[t][id].links;
    seq(|Fields(w, t)|, f requires 0 <= f < |Fields(w, t)| => if f < |stored| then stored[f] else [])
  }

  /** Per-slot recursive resolution of one link, d levels below its target, meets no missing or corrupt row. */
  predicate Resolves(w: World, t: Type, id: Id, d: int)
    decreases d
  {
    Found(w, t, id) &&
    (d > 0 ==>
      forall f, j ::
        0 <= f < |Links(w, t, id)| && 0 <= j < |Links(w, t, id)[f]| && Wanted(w, t, f) &&
          Links(w, t, id)[f][j] != "" ==>
        Resolves(w, TargetType(w, t, f), Links(w, t, id)[f][j], d - 1))
  }

  // -----------------------------------------------------------------------------------------
  // Addresses
  // -----------------------------------------------------------------------------------------

  datatype Pointer = Nil | At(ref: Ref)
  datatype Slot = Slot(id: Id, loaded: bool, value: Pointer)
  datatype Loc = Loc(doc: Ref, field: nat, index: nat)
  datatype Object = Object(typ: Type, sizes: seq<nat>)
  datatype Heap = Heap(objects: seq<Object>, slots: map<Loc, Slot>)

  predicate IsLoc(h: Heap, l: Loc)
  {
    l.doc < |h.objects| && l.field < |h.objects[l.doc].sizes| && l.index < h.objects[l.doc].sizes[l.field]
  }

  ghost predicate WellFormed(w: World, h: Heap)
  {
    (forall p :: 0 <= p < |h.objects| ==> |h.objects[p].sizes| == |Fields(w, h.objects[p].typ)|) &&
    forall l :: l in h.slots <==> IsLoc(h, l)
  }

  function TargetAt(w: World, h: Heap, l: Loc): Type
    requires IsLoc(h, l)
  {
    TargetType(w, h.objects[l.doc].typ, l.field)
  }

  function Sizes(links: seq<seq<Id>>): seq<nat>
  {
    seq(|links|, f requires 0 <= f < |links| => |links[f]|)
  }

  /** A new document decoded from a row: every link carries its id and none is loaded. */
  function Decoded(w: World, h: Heap, t: Type, id: Id): Heap
    requires Found(w, t, id)
  {
    var links := Links(w, t, id);
    var r := |h.objects|;
    var locs := set f, j | 0 <= f < |links| && 0 <= j < |links[f]| :: Loc(r, f, j);
    Heap(h.objects + [Object(t, Sizes(links))],
         h.slots + map l | l in locs :: Slot(links[l.field][l.index], false, Nil))
  }

  /** Storing one pointer into many slots. */
  function Filled(h: Heap, ls: set<Loc>, r: Ref): Heap
  {
    Heap(h.objects, map l | l in h.slots :: if l in ls then h.slots[l].(loaded := true, value := At(r)) else h.slots[l])
  }

  // -----------------------------------------------------------------------------------------
  // Hydrated to a depth
  // -----------------------------------------------------------------------------------------

  /**
    The document at r is row id of type t, with every wanted non-empty link below it loaded d levels
    down and no other link loaded. Everything it reaches has an address of at least lo.
   */
  ghost predicate Hydrated(w: World, h: Heap, lo: nat, r: Ref, t: Type, id: Id, d: int)
    decreases d
  {
    Found(w, t, id) && lo <= r < |h.objects| && h.objects[r] == Object(t, Sizes(Links(w, t, id))) &&
    forall l :: l in h.slots && IsLoc(h, l) && l.doc == r ==>
      var s, i := h.slots[l], Links(w, t, id)[l.field][l.index];
      s.id == i &&
      if d > 0 && Wanted(w, t, l.field) && i != "" then
        s.loaded && s.value.At? && Hydrated(w, h, lo, s.value.ref, TargetType(w, t, l.field), i, d - 1)
      else !s.loaded
  }

  /** Nothing at or above address lo changed. */
  ghost predicate Kept(h: Heap, h': Heap, lo: nat)
  {
    |h.objects| <= |h'.objects| &&
    (forall p :: lo <= p < |h.objects| ==> h'.objects[p] == h.objects[p]) &&
    forall l: Loc :: lo <= l.doc < |h.objects| ==>
      (l in h.slots <==> l in h'.slots) && (l in h.slots ==> h'.slots[l] == h.slots[l])
  }

  lemma {:induction false} HydratedKept(w: World, h: Heap, h': Heap, lo: nat, lo': nat, r: Ref, t: Type, id: Id, d: int)
    requires Hydrated(w, h, lo, r, t, id, d) && Kept(h, h', lo) && lo' <= lo
    ensures Hydrated(w, h', lo', r, t, id, d)
    decreases d
  {
    if d <= 0 {
    } else {
      forall l | l in h'.slots && IsLoc(h', l) && l.doc == r && Wanted(w, t, l.field) &&
        Links(w, t, id)[l.field][l.index] != ""
        ensures Hydrated(w, h', lo', h'.slots[l].value.ref, TargetType(w, t, l.field),
          Links(w, t, id)[l.field][l.index], d - 1)
      {
        HydratedKept(w, h, h', lo, lo', h.slots[l].value.ref, TargetType(w, t, l.field),
          Links(w, t, id)[l.field][l.index], d - 1);
      }
    }
  }

  /** Slots of the documents docs that a call of this mode and depth must load. */
  ghost function Due(w: World, h: Heap, docs: set<Ref>, depth: int): (due: set<Loc>)
    ensures forall l :: l in due <==>
      depth > 0 && l in h.slots && IsLoc(h, l) && l.doc in docs && Wanted(w, h.objects[l.doc].typ, l.field) &&
      IsPending(h.slots[l])
  {
    set l | l in h.slots && depth > 0 && IsLoc(h, l) && l.doc in docs && Wanted(w, h.objects[l.doc].typ, l.field) &&
      IsPending(h.slots[l])
  }

  /** An id and nothing loaded for it yet. */
  predicate IsPending(s: Slot)
  {
    s.id != "" && !s.loaded
  }

  ghost predicate AllResolve(w: World, h: Heap, due: set<Loc>, d: int)
    requires forall l :: l in due ==> l in h.slots && IsLoc(h, l)
  {
    forall l :: l in due ==> Resolves(w, TargetAt(w, h, l), h.slots[l].id, d)
  }

  /** Slot l was loaded with its target, hydrated d levels further down out of new documents only. */
  ghost predicate LoadedAt(w: World, h: Heap, h': Heap, l: Loc, d: int)
    requires l in h.slots && IsLoc(h, l)
  {
    l in h'.slots && h'.slots[l].id == h.slots[l].id && h'.slots[l].loaded && h'.slots[l].value.At? &&
    Hydrated(w, h', |h.objects|, h'.slots[l].value.ref, TargetAt(w, h, l), h.slots[l].id, d)
  }

  /** Exactly the due slots were loaded; documents were only added. */
  ghost predicate Loads(w: World, h: Heap, h': Heap, due: set<Loc>, d: int)
    requires forall l :: l in due ==> l in h.slots && IsLoc(h, l)
  {
    WellFormed(w, h') && h.objects <= h'.objects &&
    (forall l :: l in h.slots && l !in due ==> l in h'.slots && h'.slots[l] == h.slots[l]) &&
    forall l :: l in due ==> LoadedAt(w, h, h', l, d)
  }

  // -----------------------------------------------------------------------------------------
  // Composition
  // -----------------------------------------------------------------------------------------

  lemma {:induction false} NothingLoads(w: World, h: Heap, d: int)
    requires WellFormed(w, h)
    ensures Loads(w, h, h, {}, d)
  {
  }

  lemma {:induction false} LoadsKeeps(w: World, h: Heap, h': Heap, due: set<Loc>, d: int, lo: nat)
    requires WellFormed(w, h) && (forall l :: l in due ==> l in h.slots && IsLoc(h, l)) && Loads(w, h, h', due, d)
    requires forall l :: l in due ==> l.doc < lo
    ensures Kept(h, h', lo)
  {
    forall l: Loc | lo <= l.doc < |h.objects|
      ensures (l in h.slots <==> l in h'.slots) && (l in h.slots ==> h'.slots[l] == h.slots[l])
    {
      assert IsLoc(h, l) <==> IsLoc(h', l);
    }
  }

  /** Loading some slots and then others is loading both. */
  lemma {:induction false} LoadsThen(w: World, h0: Heap, h1: Heap, h2: Heap, a: set<Loc>, b: set<Loc>, d: int)
    requires WellFormed(w, h0) && a !! b
    requires forall l :: l in a + b ==> l in h0.slots && IsLoc(h0, l)
    requires Loads(w, h0, h1, a, d)
    requires (forall l :: l in b ==> l in h1.slots && IsLoc(h1, l)) && Loads(w, h1, h2, b, d)
    ensures Loads(w, h0, h2, a + b, d)
  {
    LoadsKeeps(w, h1, h2, b, d, |h0.objects|);
    forall l | l in a + b ensures LoadedAt(w, h0, h2, l, d) {
      var t := TargetAt(w, h0, l);
      if l in a {
        HydratedKept(w, h1, h2, |h0.objects|, |h0.objects|, h1.slots[l].value.ref, t, h0.slots[l].id, d);
      } else {
        assert LoadedAt(w, h1, h2, l, d) && TargetAt(w, h1, l) == t;
        HydratedKept(w, h2, h2, |h1.objects|, |h0.objects|, h2.slots[l].value.ref, t, h0.slots[l].id, d);
      }
    }
  }

  /** The documents that slots ls point at. */
  ghost predicate PointInto(h: Heap, ls: set<Loc>, docs: set<Ref>)
  {
    forall l :: l in ls && l in h.slots && h.slots[l].value.At? ==> h.slots[l].value.ref in docs
  }

  /** One level deeper: hydrate the freshly loaded targets themselves. */
  lemma {:induction false} LoadsDeeper(w: World, h0: Heap, h1: Heap, h2: Heap, due: set<Loc>, docs: set<Ref>, d: int)
    requires d > 0 && WellFormed(w, h0)
    requires (forall l :: l in due ==> l in h0.slots && IsLoc(h0, l)) && Loads(w, h0, h1, due, 0)
    requires PointInto(h1, due, docs) && forall r :: r in docs ==> r >= |h0.objects|
    requires Loads(w, h1, h2, Due(w, h1, docs, d), d - 1)
    ensures Loads(w, h0, h2, due, d)
  {
    var next := Due(w, h1, docs, d);
    forall l | l in h0.slots && l !in due ensures l in h2.slots && h2.slots[l] == h0.slots[l] {
      assert l !in next;
    }
    forall l | l in due ensures LoadedAt(w, h0, h2, l, d) {
      assert LoadedAt(w, h0, h1, l, 0) && l !in next;
      TargetDeeper(w, |h0.objects|, h1, h2, docs, h1.slots[l].value.ref, TargetAt(w, h0, l), h0.slots[l].id, d);
    }
  }

  lemma {:induction false} TargetDeeper(w: World, lo: nat, h1: Heap, h2: Heap, docs: set<Ref>, r: Ref, t: Type,
      id: Id, d: int)
    requires d > 0 && r in docs && lo <= |h1.objects| && WellFormed(w, h1)
    requires Hydrated(w, h1, lo, r, t, id, 0) && Loads(w, h1, h2, Due(w, h1, docs, d), d - 1)
    ensures Hydrated(w, h2, lo, r, t, id, d)
  {
    forall l | l in h2.slots && IsLoc(h2, l) && l.doc == r
      ensures var s, i := h2.slots[l], Links(w, t, id)[l.field][l.index];
        s.id == i &&
        if Wanted(w, t, l.field) && i != "" then
          s.loaded && s.value.At? && Hydrated(w, h2, lo, s.value.ref, TargetType(w, t, l.field), i, d - 1)
        else !s.loaded
    {
      assert IsLoc(h1, l) && l in h1.slots;
      if l in Due(w, h1, docs, d) {
        assert LoadedAt(w, h1, h2, l, d - 1);
        HydratedKept(w, h2, h2, |h1.objects|, lo, h2.slots[l].value.ref, TargetType(w, t, l.field),
          h1.slots[l].id, d - 1);
      }
    }
  }

  /** A target resolves d levels down exactly when its row is there and its own due links resolve. */
  lemma {:induction false} ResolvesDeeper(w: World, h: Heap, lo: nat, docs: set<Ref>, r: Ref, t: Type, id: Id, d: int)
    requires d > 0 && r in docs && WellFormed(w, h) && Hydrated(w, h, lo, r, t, id, 0)
    ensures AllResolve(w, h, Due(w, h, docs, d), d - 1) ==> Resolves(w, t, id, d)
    ensures !Resolves(w, t, id, d) <==>
      exists l :: l in Due(w, h, docs, d) && l.doc == r && !Resolves(w, TargetAt(w, h, l), h.slots[l].id, d - 1)
  {
    var links, due := Links(w, t, id), Due(w, h, docs, d);
    if l :| l in due && l.doc == r && !Resolves(w, TargetAt(w, h, l), h.slots[l].id, d - 1) {
      assert !Resolves(w, TargetType(w, t, l.field), links[l.field][l.index], d - 1);
      assert !Resolves(w, t, id, d);
    } else {
      forall f, j | 0 <= f < |links| && 0 <= j < |links[f]| && Wanted(w, t, f) && links[f][j] != ""
        ensures Resolves(w, TargetType(w, t, f), links[f][j], d - 1)
      {
        var l := Loc(r, f, j);
        assert IsLoc(h, l) && l in h.slots;
        assert l in due;
      }
    }
  }

  // -----------------------------------------------------------------------------------------
  // One target
  // -----------------------------------------------------------------------------------------

  lemma {:induction false} DecodedIsNew(w: World, h: Heap, t: Type, id: Id)
    requires WellFormed(w, h) && Found(w, t, id)
    ensures WellFormed(w, Decoded(w, h, t, id)) && Kept(h, Decoded(w, h, t, id), 0)
    ensures Hydrated(w, Decoded(w, h, t, id), |h.objects|, |h.objects|, t, id, 0)
  {
    var h', links := Decoded(w, h, t, id), Links(w, t, id);
    var locs := set f, j | 0 <= f < |links| && 0 <= j < |links[f]| :: Loc(|h.objects|, f, j);
    forall l ensures l in h'.slots <==> IsLoc(h', l) {
      if l.doc == |h.objects| {
        assert l in locs <==> IsLoc(h', l);
      } else {
        assert l !in locs && (IsLoc(h, l) <==> IsLoc(h', l));
      }
    }
  }

  lemma {:induction false} FilledKeeps(w: World, h: Heap, ls: set<Loc>, r: Ref, lo: nat)
    requires WellFormed(w, h) && forall l :: l in ls ==> l.doc < lo
    ensures WellFormed(w, Filled(h, ls, r)) && Kept(h, Filled(h, ls, r), lo)
    ensures Filled(h, ls, r).objects == h.objects
    ensures forall l :: l in h.slots <==> l in Filled(h, ls, r).slots
    ensures forall l :: l in h.slots && l !in ls ==> Filled(h, ls, r).slots[l] == h.slots[l]
    ensures forall l :: l in h.slots && l in ls ==>
      Filled(h, ls, r).slots[l] == h.slots[l].(loaded := true, value := At(r))
  {
    var h' := Filled(h, ls, r);
    assert forall l :: IsLoc(h, l) <==> IsLoc(h', l);
  }

  /** Decoding one row and storing its address in all of ls loads exactly ls. */
  lemma {:induction false} OneTargetLoads(w: World, h: Heap, h1: Heap, h2: Heap, ls: set<Loc>, t: Type, id: Id)
    requires WellFormed(w, h) && Found(w, t, id)
    requires forall l :: l in ls ==> l in h.slots && IsLoc(h, l) && h.slots[l].id == id && TargetAt(w, h, l) == t
    requires h1 == Decoded(w, h, t, id) && h2 == Filled(h1, ls, |h.objects|)
    ensures Loads(w, h, h2, ls, 0)
    ensures Hydrated(w, h2, |h.objects|, |h.objects|, t, id, 0)
  {
    DecodedIsNew(w, h, t, id);
    FilledKeeps(w, h1, ls, |h.objects|, |h.objects|);
    HydratedKept(w, h1, h2, |h.objects|, |h.objects|, |h.objects|, t, id, 0);
    DecodedKeepsSlots(w, h, h1);
  }

  lemma {:induction false} DecodedKeepsSlots(w: World, h: Heap, h1: Heap)
    requires WellFormed(w, h) && Kept(h, h1, 0)
    ensures h.objects <= h1.objects
    ensures forall l :: l in h.slots ==> l in h1.slots && h1.slots[l] == h.slots[l]
  {
    forall l | l in h.slots ensures l in h1.slots && h1.slots[l] == h.slots[l] {
      assert IsLoc(h, l);
      assert 0 <= l.doc < |h.objects|;
    }
  }

  // -----------------------------------------------------------------------------------------
  // The outcome in terms of the schema, the store and the mode
  // -----------------------------------------------------------------------------------------

  /** The collection is there, and so is the row. */
  predicate RowIsThere(w: World, t: Type, id: Id)
  {
    t in w.store && id in w.store[t] && w.store[t][id].Row?
  }

  /** The document at r is new, of type t, and has a slot for every link that the stored row names. */
  ghost predicate RowDecoded(w: World, h: Heap, h': Heap, r: Ref, t: Type, id: Id)
    requires RowIsThere(w, t, id)
  {
    var stored := w.store[t][id].links;
    var n := if t in w.schema then |w.schema[t]| else 0;
    && |h.objects| <= r < |h'.objects| && h'.objects[r].typ == t && |h'.objects[r].sizes| == n
    && (forall g :: 0 <= g < n ==> h'.objects[r].sizes[g] == if g < |stored| then |stored[g]| else 0)
    && forall g, k :: 0 <= g < n && g < |stored| && 0 <= k < |stored[g]| ==>
      Loc(r, g, k) in h'.slots && h'.slots[Loc(r, g, k)].id == stored[g][k]
  }

  /**
    A slot of docs is loaded if it has an id, is not loaded yet and its field is eager or asked for; it then points
    at the row of that id in the field's collection. Any other slot is as it was.
   */
  ghost predicate LoadsByMode(w: World, h: Heap, h': Heap, docs: set<Ref>, t: Type, depth: int)
  {
    forall l :: l in h.slots && l.doc in docs ==>
      l in h'.slots && t in w.schema && l.field < |w.schema[t]| &&
      var field, s, s' := w.schema[t][l.field], h.slots[l], h'.slots[l];
      if depth > 0 && s.id != "" && !s.loaded &&
        ((w.mode.FetchDefault? && field.eager) || w.mode.FetchAll? ||
         (w.mode.FetchNamed? && field.name in w.mode.names)) then
        && s'.id == s.id && s'.loaded && s'.value.At?
        && RowIsThere(w, field.target, s.id) && RowDecoded(w, h, h', s'.value.ref, field.target, s.id)
      else s' == s
  }

  lemma {:induction false} HydratedIsDecoded(w: World, h: Heap, h': Heap, r: Ref, t: Type, id: Id, d: int)
    requires WellFormed(w, h') && Hydrated(w, h', |h.objects|, r, t, id, d)
    ensures RowIsThere(w, t, id) && RowDecoded(w, h, h', r, t, id)
  {
    var links, stored := Links(w, t, id), w.store[t][id].links;
    forall g, k | 0 <= g < |links| && g < |stored| && 0 <= k < |stored[g]|
      ensures Loc(r, g, k) in h'.slots && h'.slots[Loc(r, g, k)].id == stored[g][k] {
      assert IsLoc(h', Loc(r, g, k)) && links[g] == stored[g];
    }
  }

  /** What a call loads, by the eager flags, the names asked for and the stored rows themselves. */
  lemma {:induction false} LoadsWhatTheModeTakes(w: World, h: Heap, h': Heap, docs: set<Ref>, t: Type, depth: int)
    requires WellFormed(w, h) && forall p :: p in docs ==> p < |h.objects| && h.objects[p].typ == t
    requires Loads(w, h, h', Due(w, h, docs, depth), depth - 1)
    ensures LoadsByMode(w, h, h', docs, t, depth)
  {
    forall l | l in h.slots && l.doc in docs
      ensures l in h'.slots && t in w.schema && l.field < |w.schema[t]|
      ensures var field, s, s' := w.schema[t][l.field], h.slots[l], h'.slots[l];
        if depth > 0 && s.id != "" && !s.loaded &&
          ((w.mode.FetchDefault? && field.eager) || w.mode.FetchAll? ||
         (w.mode.FetchNamed? && field.name in w.mode.names)) then
          && s'.id == s.id && s'.loaded && s'.value.At?
          && RowIsThere(w, field.target, s.id) && RowDecoded(w, h, h', s'.value.ref, field.target, s.id)
        else s' == s
    {
      assert IsLoc(h, l);
      if l in Due(w, h, docs, depth) {
        assert LoadedAt(w, h, h', l, depth - 1);
        HydratedIsDecoded(w, h, h', h'.slots[l].value.ref, w.schema[t][l.field].target, h.slots[l].id, depth - 1);
      }
    }
  }

  /** A link resolves if its row is there and, with levels left, the links of its fields that the mode takes do. */
  lemma {:induction false} ResolvesByMode(w: World, t: Type, id: Id, d: int)
    ensures Resolves(w, t, id, d) <==>
      && RowIsThere(w, t, id)
      && forall f, j | d > 0 && t in w.schema && 0 <= f < |w.schema[t]| && f < |w.store[t][id].links| &&
                         0 <= j < |w.store[t][id].links[f]| && w.store[t][id].links[f][j] != "" ::
        var field := w.schema[t][f];
        (w.mode.FetchDefault? && field.eager) || w.mode.FetchAll? ||
        (w.mode.FetchNamed? && field.name in w.mode.names) ==>
          Resolves(w, field.target, w.store[t][id].links[f][j], d - 1)
  {
    if RowIsThere(w, t, id) && d > 0 {
      var links, stored := Links(w, t, id), w.store[t][id].links;
      assert forall f :: 0 <= f < |links| && f < |stored| ==> links[f] == stored[f];
    }
  }
}

/** The link-expanding encoder: ordinary encoding first, then only the members that may hold a link are redone. */
module Marshal {
  import opened StringOrder
  import opened LinkEncoding
  import opened LinkContent
  import T = TypeGraph

  // -----------------------------------------------------------------------------------------
  // Values of a type
  // -----------------------------------------------------------------------------------------

  function FieldNamed(fields: seq<T.Field>, name: string): (i: nat)
    requires T.HasField(fields, name)
    ensures i < |fields| && fields[i].name == name
  {
    if fields[0].name == name then 0 else 1 + FieldNamed(fields[1..], name)
  }

  /** The type of a link's Value field. */
  function ValueType(g: T.Graph, t: T.TypeId): T.TypeId
    requires T.IsLinkShape(g, t)
  {
    g[t].fields[FieldNamed(g[t].fields, "Value")].typ
  }

  predicate IsStruct(g: T.Graph, t: T.TypeId)
  {
    t < |g| && (g[t].Struct? || g[t].Time?)
  }

  /** Behind one pointer. */
  function Element(g: T.Graph, t: T.TypeId): T.TypeId
  {
    if t < |g| && g[t].Pointer? then g[t].elem else t
  }

  /** v is a value of type t; types whose values have no structure for the encoder count as scalars. */
  predicate Fits(g: T.Graph, t: T.TypeId, v: Value)
    decreases v
  {
    t < |g| &&
    match v
    case Leaf(_) => g[t].Scalar? || g[t].Time?
    case Nil => g[t].Pointer? || g[t].List? || g[t].Dict? || g[t].Interface?
    case Ptr(p) => g[t].Pointer? && Fits(g, g[t].elem, p)
    case Items(vs) => g[t].List? && forall i :: 0 <= i < |vs| ==> Fits(g, g[t].elem, vs[i])
    case Entries(es, textual) =>
      g[t].Dict? && g[t].textual == textual && forall i :: 0 <= i < |es| ==> Fits(g, g[t].elem, es[i].value)
    case Boxed(d, p) => g[t].Interface? && Fits(g, d, p)
    case Record(fs) =>
      g[t].Struct? && !T.IsLinkShape(g, t) && |g[t].fields| == |fs| &&
      forall i :: 0 <= i < |fs| ==>
        fs[i].exported == g[t].fields[i].exported && Fits(g, g[t].fields[i].typ, fs[i].value) &&
        (fs[i].role.Embedded? ==> (fs[i].role.ofStruct <==> IsStruct(g, Element(g, g[t].fields[i].typ))))
    case LinkTo(_, _, p) => T.IsLinkShape(g, t) && Fits(g, ValueType(g, t), p)
  }

  /** typeContainsLink, as a table. */
  ghost predicate ExactLinks(g: T.Graph, links: set<T.TypeId>)
  {
    T.WellFormed(g) && forall t: T.TypeId :: t in links <==> T.Reaches(T.LinkWalk, g, t)
  }

  lemma {:induction false} ReachesThrough(g: T.Graph, t: T.TypeId, u: T.TypeId)
    requires T.Edge(T.LinkWalk, g, t, u) && T.Reaches(T.LinkWalk, g, u)
    ensures T.Reaches(T.LinkWalk, g, t)
  {
    var p :| T.PathToGoal(T.LinkWalk, g, u, p);
    T.PrependEdge(T.LinkWalk, g, t, p);
  }

  lemma {:induction false} LinkReaches(g: T.Graph, t: T.TypeId)
    requires T.IsLinkShape(g, t)
    ensures T.Reaches(T.LinkWalk, g, t)
  {
    assert T.PathToGoal(T.LinkWalk, g, t, [t]);
  }

  // -----------------------------------------------------------------------------------------
  // The fast path
  // -----------------------------------------------------------------------------------------

  lemma {:induction false} HiddenStays(v: Value, n: nat)
    requires v.Record? && n <= |v.fields|
    ensures forall c :: c in Cells(v, n, true) ==> c.hidden
    decreases v, n, 1
  {
    if n == 0 {
    } else {
      HiddenStays(v, n - 1);
      HiddenFieldStays(v, n - 1, true);
    }
  }

  lemma {:induction false} HiddenFieldStays(v: Value, i: nat, hidden: bool)
    requires v.Record? && i < |v.fields| && (hidden || PassedOver(v.fields[i]))
    ensures forall c :: c in FieldCells(v, i, hidden) ==> c.hidden
    decreases v, i, 2
  {
    var f := v.fields[i];
    if Flattened(f) && Behind(f.value).Record? {
      HiddenStays(Behind(f.value), |Behind(f.value).fields|);
    }
  }

  /** A cell that is not hidden holds a value of a type reachable from the struct's. */
  lemma {:induction false} CellType(g: T.Graph, t: T.TypeId, v: Value, n: nat, c: Cell) returns (u: T.TypeId)
    requires T.WellFormed(g) && v.Record? && n <= |v.fields| && Fits(g, t, v) && c in Cells(v, n, false) && !c.hidden
    ensures Fits(g, u, c.value) && (T.Reaches(T.LinkWalk, g, u) ==> T.Reaches(T.LinkWalk, g, t))
    decreases v, n, 1
  {
    if c in FieldCells(v, n - 1, false) {
      u := FieldCellType(g, t, v, n - 1, c);
    } else {
      u := CellType(g, t, v, n - 1, c);
    }
  }

  lemma {:induction false} FieldCellType(g: T.Graph, t: T.TypeId, v: Value, i: nat, c: Cell) returns (u: T.TypeId)
    requires T.WellFormed(g) && v.Record? && i < |v.fields| && Fits(g, t, v) && c in FieldCells(v, i, false) &&
      !c.hidden
    ensures Fits(g, u, c.value) && (T.Reaches(T.LinkWalk, g, u) ==> T.Reaches(T.LinkWalk, g, t))
    decreases v, i, 2
  {
    var f, ft := v.fields[i], g[t].fields[i].typ;
    if PassedOver(f) { HiddenFieldStays(v, i, false); }
    assert T.Edge(T.LinkWalk, g, t, ft) by { assert T.InGraph(g[t], |g|); }
    u := ft;
    if Flattened(f) {
      if f.value.Ptr? {
        u := CellType(g, g[ft].elem, f.value.target, |f.value.target.fields|, c);
        if T.Reaches(T.LinkWalk, g, u) { ReachesThrough(g, ft, g[ft].elem); }
      } else {
        u := CellType(g, ft, f.value, |f.value.fields|, c);
      }
    }
    if T.Reaches(T.LinkWalk, g, u) { ReachesThrough(g, t, ft); }
  }

  /** The fast path never skips a link: a value of a link-free type encodes the same either way. */
  lemma {:induction false} LinkFreeType(g: T.Graph, t: T.TypeId, v: Value)
    requires T.WellFormed(g) && Fits(g, t, v) && !T.Reaches(T.LinkWalk, g, t)
    ensures Encode(v, Reached) == Encode(v, Plain)
    decreases v
  {
    match v {
      case Ptr(p) =>
        assert T.Edge(T.LinkWalk, g, t, g[t].elem) by { assert T.InGraph(g[t], |g|); }
        if T.Reaches(T.LinkWalk, g, g[t].elem) { ReachesThrough(g, t, g[t].elem); }
        LinkFreeType(g, g[t].elem, p);
      case Items(vs) =>
        assert T.Edge(T.LinkWalk, g, t, g[t].elem) by { assert T.InGraph(g[t], |g|); }
        if T.Reaches(T.LinkWalk, g, g[t].elem) { ReachesThrough(g, t, g[t].elem); }
        forall i | 0 <= i < |vs| ensures Encode(vs[i], Reached) == Encode(vs[i], Plain) {
          LinkFreeType(g, g[t].elem, vs[i]);
        }
      case Entries(es, textual) =>
        assert T.Edge(T.LinkWalk, g, t, g[t].elem) by { assert T.InGraph(g[t], |g|); }
        if T.Reaches(T.LinkWalk, g, g[t].elem) { ReachesThrough(g, t, g[t].elem); }
        forall i | 0 <= i < |es|
          ensures Encode(es[i].value, EntryMode(textual, Reached)) == Encode(es[i].value, Plain)
        {
          LinkFreeType(g, g[t].elem, es[i].value);
        }
      case Record(_) =>
        forall i | 0 <= i < |AllCells(v)| ensures CellSame(v, i, Reached, Plain) {
          var c := AllCells(v)[i];
          assert c in AllCells(v);
          if !c.hidden {
            var u := CellType(g, t, v, |v.fields|, c);
            LinkFreeType(g, u, c.value);
          }
        }
        MembersAlign(v, |AllCells(v)|, Reached, Plain);
      case LinkTo(_, _, _) => LinkReaches(g, t);
      case _ =>
    }
  }

  // -----------------------------------------------------------------------------------------
  // Member maps
  // -----------------------------------------------------------------------------------------

  /** json.Unmarshal of an object into a map. */
  function MapOf(ms: seq<Member>): map<string, Json>
  {
    if ms == [] then map[] else MapOf(ms[..|ms| - 1])[ms[|ms| - 1].key := ms[|ms| - 1].value]
  }

  lemma {:induction false} MapOfMembers(ms: seq<Member>)
    requires DistinctKeys(ms)
    ensures forall i :: 0 <= i < |ms| ==> ms[i].key in MapOf(ms) && MapOf(ms)[ms[i].key] == ms[i].value
    ensures forall k :: k in MapOf(ms) ==> exists i :: 0 <= i < |ms| && ms[i].key == k
  {
    if ms == [] {
    } else {
      MapOfMembers(ms[..|ms| - 1]);
    }
  }

  /** The map holds the plain encoding of every cell that is not omitted, and nothing for the others. */
  predicate HoldsPlain(m: map<string, Json>, cells: seq<Cell>)
  {
    forall c :: c in cells ==> if c.omitted then c.key !in m else c.key in m && m[c.key] == Encode(c.value, Plain)
  }

  /** c's member now means what the expanding encoding means, and is untouched if there was nothing to expand. */
  predicate CellPatched(m0: map<string, Json>, m: map<string, Json>, c: Cell)
  {
    c.omitted ||
    (c.key in m0 && c.key in m && MeaningOf(m[c.key]) == MeaningOf(Encode(c.value, CellMode(c, Reached))) &&
     Shows(m[c.key], c.value, CellMode(c, Reached)) &&
     (!Misses(c.value, Plain) ==> m[c.key] == m0[c.key]))
  }

  ghost predicate HasKey(cells: seq<Cell>, k: string)
  {
    exists c :: c in cells && c.key == k
  }

  ghost predicate Patched(m0: map<string, Json>, m: map<string, Json>, cells: seq<Cell>, changed: bool)
  {
    m.Keys == m0.Keys && (forall c :: c in cells ==> CellPatched(m0, m, c)) &&
    (forall k :: k in m0 && !HasKey(cells, k) ==> m[k] == m0[k]) &&
    (changed <==> m != m0) && (Quiet(cells) ==> !changed)
  }

  /** Nothing to expand in any of the cells. */
  predicate Quiet(cells: seq<Cell>)
  {
    forall c :: c in cells ==> c.omitted || !Misses(c.value, Plain)
  }

  predicate KeysApart(a: seq<Cell>, b: seq<Cell>)
  {
    forall c, d :: c in a && d in b ==> c.key != d.key
  }

  /** Later changes never undo earlier ones. */
  lemma {:induction false} ChangesStay(m0: map<string, Json>, m1: map<string, Json>, m2: map<string, Json>,
      a: seq<Cell>, b: seq<Cell>, c1: bool, c2: bool)
    requires Patched(m0, m1, a, c1) && Patched(m1, m2, b, c2) && KeysApart(a, b)
    ensures (c1 || c2) <==> m2 != m0
  {
    if c1 {
      var k :| k in m0 && m1[k] != m0[k];
      assert HasKey(a, k) && !HasKey(b, k);
    } else if c2 {
      var k :| k in m1 && m2[k] != m1[k];
      assert m1[k] == m0[k];
    }
  }

  lemma {:induction false} PatchedThen(m0: map<string, Json>, m1: map<string, Json>, m2: map<string, Json>,
      a: seq<Cell>, b: seq<Cell>, c1: bool, c2: bool)
    requires Patched(m0, m1, a, c1) && Patched(m1, m2, b, c2) && KeysApart(a, b)
    ensures Patched(m0, m2, a + b, c1 || c2)
  {
    forall c | c in a + b ensures CellPatched(m0, m2, c) {
      if c in a {
        assert !HasKey(b, c.key);
      } else {
        assert c in b && !HasKey(a, c.key);
      }
    }
    forall k | k in m0 && !HasKey(a + b, k) ensures m2[k] == m0[k] {
      assert forall c :: c in a ==> c in a + b;
      assert forall c :: c in b ==> c in a + b;
    }
    ChangesStay(m0, m1, m2, a, b, c1, c2);
    if Quiet(a + b) {
      assert forall c :: c in a ==> c in a + b;
      assert forall c :: c in b ==> c in a + b;
    }
  }

  /** Doing nothing is right where both encodings agree. */
  lemma {:induction false} NothingToPatch(m: map<string, Json>, cells: seq<Cell>)
    requires AllKeyed(cells) && HoldsPlain(m, cells) && forall c :: c in cells ==>
      Encode(c.value, CellMode(c, Reached)) == Encode(c.value, Plain)
    ensures Patched(m, m, cells, false)
  {
    forall c | c in cells ensures Shows(Encode(c.value, Plain), c.value, CellMode(c, Reached)) {
      EncodeShows(c.value, CellMode(c, Reached));
    }
  }

  // -----------------------------------------------------------------------------------------
  // Keys in order
  // -----------------------------------------------------------------------------------------

  lemma {:induction false} LeastKey(ks: set<string>) returns (least: string)
    requires ks != {}
    ensures least in ks && forall k :: k in ks ==> k == least || StringLess(least, k)
    decreases |ks|
  {
    var x :| x in ks;
    if ks == {x} {
      least := x;
    } else {
      var m := LeastKey(ks - {x});
      LessTotal(x, m);
      least := if StringLess(x, m) then x else m;
      forall k | k in ks ensures k == least || StringLess(least, k) {
        if k != x && k != m && least == x { LessTransitive(x, m, k); }
      }
    }
  }

  predicate Ascending(ms: seq<Member>)
  {
    forall i, j :: 0 <= i < j < |ms| ==> StringLess(ms[i].key, ms[j].key) && ms[i].key != ms[j].key
  }

  /** ms is, in key order, the part of m whose keys come before those in rest. */
  ghost predicate SortedSoFar(m: map<string, Json>, ms: seq<Member>, rest: set<string>)
  {
    rest <= m.Keys && Ascending(ms) && MapOf(ms) == m - rest &&
    forall i, k :: 0 <= i < |ms| && k in rest ==> StringLess(ms[i].key, k) && ms[i].key != k
  }

  lemma {:induction false} NextSorted(m: map<string, Json>, ms: seq<Member>, rest: set<string>, k: string)
    requires SortedSoFar(m, ms, rest) && k in rest && forall o :: o in rest ==> o == k || StringLess(k, o)
    ensures SortedSoFar(m, ms + [Member(k, m[k])], rest - {k})
  {
    var ms' := ms + [Member(k, m[k])];
    assert ms'[..|ms|] == ms;
    assert MapOf(ms') == m - (rest - {k});
    forall i, j | 0 <= i < j < |ms'| ensures StringLess(ms'[i].key, ms'[j].key) && ms'[i].key != ms'[j].key {
      assert ms'[i] == ms[i];
    }
  }

  /** json.Marshal of a map: its members in key order. */
  method SortedMembers(m: map<string, Json>) returns (ms: seq<Member>)
    ensures Ascending(ms) && MapOf(ms) == m
  {
    ms := [];
    var rest := m.Keys;
    while rest != {}
      invariant SortedSoFar(m, ms, rest)
      decreases |rest|
    {
      ghost var least := LeastKey(rest);
      var k :| k in rest && forall o :: o in rest ==> o == k || StringLess(k, o);
      NextSorted(m, ms, rest, k);
      ms := ms + [Member(k, m[k])];
      rest := rest - {k};
    }
  }

  // -----------------------------------------------------------------------------------------
  // Structs as maps of members
  // -----------------------------------------------------------------------------------------

  lemma {:induction false} SameMapSameMeaning(a: Json, b: Json)
    requires a.Obj? && b.Obj? && DistinctKeys(a.members) && DistinctKeys(b.members)
    requires MapOf(a.members).Keys == MapOf(b.members).Keys
    requires forall k :: k in MapOf(a.members) ==> MeaningOf(MapOf(a.members)[k]) == MeaningOf(MapOf(b.members)[k])
    ensures MeaningOf(a) == MeaningOf(b)
  {
    var fa, fb := MeaningOfFirst(a, |a.members|), MeaningOfFirst(b, |b.members|);
    MeaningAsMap(a);
    MeaningAsMap(b);
    assert fa.Keys == fb.Keys;
    assert fa == fb;
  }

  lemma {:induction false} MeaningAsMap(a: Json)
    requires a.Obj? && DistinctKeys(a.members)
    ensures MeaningOfFirst(a, |a.members|).Keys == MapOf(a.members).Keys
    ensures forall k :: k in MapOf(a.members) ==> MeaningOfFirst(a, |a.members|)[k] == MeaningOf(MapOf(a.members)[k])
  {
    var f, m := MeaningOfFirst(a, |a.members|), MapOf(a.members);
    MeaningOfMembers(a, |a.members|);
    MapOfMembers(a.members);
    forall k ensures k in f <==> k in m {
      if k in f { var i :| 0 <= i < |a.members| && a.members[i].key == k; }
      if k in m { var i :| 0 <= i < |a.members| && a.members[i].key == k; }
    }
    forall k | k in m ensures f[k] == MeaningOf(m[k]) {
      var i :| 0 <= i < |a.members| && a.members[i].key == k;
    }
  }

  /** A struct's members as a map hold each cell's encoding. */
  lemma {:induction false} MembersMap(v: Value, n: nat, mode: Mode)
    requires v.Record? && n <= |AllCells(v)| && DistinctCells(AllCells(v))
    ensures forall i :: 0 <= i < n && !AllCells(v)[i].omitted ==> CellHeld(v, n, mode, i)
    ensures forall k :: k in MapOf(Members(v, n, mode)) ==> IsCellKey(v, n, k)
    decreases n
  {
    if n > 0 {
      MembersMap(v, n - 1, mode);
      forall i | 0 <= i < n && !AllCells(v)[i].omitted ensures CellHeld(v, n, mode, i) {
        HeldStep(v, n, mode, i);
      }
      forall k | k in MapOf(Members(v, n, mode)) ensures IsCellKey(v, n, k) {
        KeyStep(v, n, mode, k);
      }
    }
  }

  lemma {:induction false} HeldStep(v: Value, n: nat, mode: Mode, i: nat)
    requires v.Record? && i < n <= |AllCells(v)| && DistinctCells(AllCells(v)) && !AllCells(v)[i].omitted
    requires i < n - 1 ==> CellHeld(v, n - 1, mode, i)
    ensures CellHeld(v, n, mode, i)
  {
    LastMapped(v, n, mode);
  }

  lemma {:induction false} KeyStep(v: Value, n: nat, mode: Mode, k: string)
    requires v.Record? && 0 < n <= |AllCells(v)| && k in MapOf(Members(v, n, mode))
    requires k in MapOf(Members(v, n - 1, mode)) ==> IsCellKey(v, n - 1, k)
    ensures IsCellKey(v, n, k)
  {
    LastMapped(v, n, mode);
  }

  lemma {:induction false} LastMapped(v: Value, n: nat, mode: Mode)
    requires v.Record? && 0 < n <= |AllCells(v)|
    ensures var c := AllCells(v)[n - 1];
      MapOf(Members(v, n, mode)) == if c.omitted then MapOf(Members(v, n - 1, mode))
        else MapOf(Members(v, n - 1, mode))[c.key := Encode(c.value, CellMode(c, mode))]
    ensures !AllCells(v)[n - 1].omitted ==> IsCellKey(v, n, AllCells(v)[n - 1].key)
  {
    var c, ms := AllCells(v)[n - 1], Members(v, n - 1, mode);
    if c.omitted {
      assert Members(v, n, mode) == ms;
    } else {
      assert Members(v, n, mode)[..|ms|] == ms;
    }
  }

  predicate CellHeld(v: Value, n: nat, mode: Mode, i: nat)
    requires v.Record? && n <= |AllCells(v)| && i < |AllCells(v)|
  {
    var c := AllCells(v)[i];
    c.key in MapOf(Members(v, n, mode)) && MapOf(Members(v, n, mode))[c.key] == Encode(c.value, CellMode(c, mode))
  }

  lemma {:induction false} PlainMap(v: Value)
    requires v.Record? && DistinctCells(AllCells(v))
    ensures HoldsPlain(MapOf(Members(v, |AllCells(v)|, Plain)), AllCells(v))
  {
    var n := |AllCells(v)|;
    var m := MapOf(Members(v, n, Plain));
    MembersMap(v, n, Plain);
    forall c | c in AllCells(v)
      ensures if c.omitted then c.key !in m else c.key in m && m[c.key] == Encode(c.value, Plain)
    {
      var i :| 0 <= i < n && AllCells(v)[i] == c;
      if c.omitted {
        assert !IsCellKey(v, n, c.key);
      } else {
        assert CellHeld(v, n, Plain, i);
      }
    }
  }

  /** A map patched for all cells means what the expanding encoding means. */
  lemma {:induction false} PatchedMeans(v: Value, m0: map<string, Json>, m: map<string, Json>, r: Json, changed: bool)
    requires v.Record? && DistinctCells(AllCells(v)) && m0 == MapOf(Members(v, |AllCells(v)|, Plain))
    requires Patched(m0, m, AllCells(v), changed) && r.Obj? && DistinctKeys(r.members) && MapOf(r.members) == m
    ensures MeaningOf(r) == MeaningOf(Encode(v, Reached))
  {
    var n, e := |AllCells(v)|, Encode(v, Reached);
    var me := MapOf(e.members);
    MembersDistinct(v, n, Reached);
    MembersMap(v, n, Plain);
    MembersMap(v, n, Reached);
    forall k ensures k in me <==> k in m0 {
      if k in me || k in m0 {
        assert IsCellKey(v, n, k);
        var i :| 0 <= i < n && AllCells(v)[i].key == k && !AllCells(v)[i].omitted;
        assert CellHeld(v, n, Plain, i) && CellHeld(v, n, Reached, i);
      }
    }
    forall k | k in m ensures k in me && MeaningOf(m[k]) == MeaningOf(me[k]) {
      assert IsCellKey(v, n, k);
      var i :| 0 <= i < n && AllCells(v)[i].key == k && !AllCells(v)[i].omitted;
      assert CellHeld(v, n, Reached, i);
      assert AllCells(v)[i] in AllCells(v) && CellPatched(m0, m, AllCells(v)[i]);
    }
    SameMapSameMeaning(r, e);
  }

  /** Every field is shown in a map patched for all cells. */
  lemma {:induction false} PatchedShows(v: Value, m0: map<string, Json>, m: map<string, Json>, r: Json, changed: bool)
    requires v.Record? && DistinctCells(AllCells(v)) && m0 == MapOf(Members(v, |AllCells(v)|, Plain))
    requires Patched(m0, m, AllCells(v), changed) && r.Obj? && DistinctKeys(r.members) && MapOf(r.members) == m
    ensures Shows(r, v, Reached)
  {
    MapOfMembers(r.members);
    MembersMap(v, |AllCells(v)|, Plain);
    forall c | c in AllCells(v) ensures MemberShows(r, c, Reached) {
      assert CellPatched(m0, m, c);
      if !c.omitted { var k :| 0 <= k < |r.members| && r.members[k].key == c.key; }
    }
    ShowsRecord(r, v, Reached);
  }

  lemma {:induction false} AscendingIsDistinct(ms: seq<Member>)
    requires Ascending(ms)
    ensures DistinctKeys(ms)
  {
  }

  /** Nothing missed by the plain encoding of a struct is nothing to expand in its cells. */
  lemma {:induction false} QuietCells(v: Value)
    requires v.Record?
    ensures !Misses(v, Plain) <==> Quiet(AllCells(v))
  {
    if Quiet(AllCells(v)) {
      forall i | 0 <= i < |AllCells(v)| ensures !CellMisses(v, i, Plain) {
        assert AllCells(v)[i] in AllCells(v);
      }
    } else {
      var c :| c in AllCells(v) && !c.omitted && Misses(c.value, Plain);
      var i :| 0 <= i < |AllCells(v)| && AllCells(v)[i] == c;
      assert CellMisses(v, i, Plain);
    }
  }

  // -----------------------------------------------------------------------------------------
  // Cells field by field
  // -----------------------------------------------------------------------------------------

  predicate AllKeyed(cells: seq<Cell>)
  {
    DistinctCells(cells) && forall c :: c in cells ==> WellKeyed(c.value)
  }

  lemma {:induction false} RecordKeyed(v: Value)
    requires v.Record? && WellKeyed(v)
    ensures AllKeyed(AllCells(v))
  {
    forall c | c in AllCells(v) ensures WellKeyed(c.value) {
      var i :| 0 <= i < |AllCells(v)| && AllCells(v)[i] == c;
      assert CellKeyed(v, i);
    }
  }

  /** The cells of the first n fields, and of one field, are among all the cells, apart from each other. */
  lemma {:induction false} CellsPrefix(v: Value, n: nat) returns (rest: seq<Cell>)
    requires v.Record? && n <= |v.fields|
    ensures AllCells(v) == Cells(v, n, false) + rest
    decreases |v.fields| - n
  {
    if n == |v.fields| {
      rest := [];
    } else {
      var r := CellsPrefix(v, n + 1);
      rest := FieldCells(v, n, false) + r;
      assert Cells(v, n + 1, false) + r == Cells(v, n, false) + rest;
    }
  }

  lemma {:induction false} SegmentKeyed(a: seq<Cell>, b: seq<Cell>, rest: seq<Cell>, all: seq<Cell>)
    requires all == a + b + rest && AllKeyed(all)
    ensures KeysApart(a, b) && AllKeyed(b) && forall c :: c in b ==> c in all
  {
    assert forall x :: 0 <= x < |a| ==> all[x] == a[x];
    assert forall x :: 0 <= x < |b| ==> all[|a| + x] == b[x];
    forall x, y | 0 <= x < y < |b| ensures b[x].key != b[y].key {
      assert all[|a| + x] == b[x] && all[|a| + y] == b[y];
    }
    forall c, d | c in a && d in b ensures c.key != d.key {
      var x :| 0 <= x < |a| && a[x] == c;
      var y :| 0 <= y < |b| && b[y] == d;
      assert all[x] == c && all[|a| + y] == d;
    }
  }

  lemma {:induction false} FieldCellsKeyed(v: Value, i: nat)
    requires v.Record? && i < |v.fields| && AllKeyed(AllCells(v))
    ensures KeysApart(Cells(v, i, false), FieldCells(v, i, false)) && AllKeyed(FieldCells(v, i, false))
    ensures forall c :: c in FieldCells(v, i, false) ==> c in AllCells(v)
  {
    var rest := CellsPrefix(v, i + 1);
    SegmentKeyed(Cells(v, i, false), FieldCells(v, i, false), rest, AllCells(v));
  }

  // -----------------------------------------------------------------------------------------
  // The encoder
  // -----------------------------------------------------------------------------------------

  /**
    What every call promises: the meaning of the expanding encoding, everything in its place, and the plain text
    itself if nothing is loaded.
   */
  ghost predicate Encodes(r: Json, v: Value)
  {
    MeaningOf(r) == MeaningOf(Encode(v, Reached)) && Shows(r, v, Reached) &&
      (!Misses(v, Plain) ==> r == Encode(v, Plain))
  }

  /** Behind every pointer and interface. */
  function Stripped(v: Value): (r: Value)
    ensures !r.Ptr? && !r.Boxed? && (r == v || r < v)
  {
    match v
    case Ptr(p) => Stripped(p)
    case Boxed(_, p) => Stripped(p)
    case _ => v
  }

  /** Only the expanding encoder tells a value from what holds it. */
  lemma {:induction false} StrippedAlike(v: Value, mode: Mode)
    requires mode != Reached
    ensures Encode(Stripped(v), mode) == Encode(v, mode) && (Misses(Stripped(v), mode) <==> Misses(v, mode))
    decreases v
  {
    match v {
      case Ptr(p) => StrippedAlike(p, mode);
      case Boxed(_, p) => StrippedAlike(p, mode);
      case _ =>
    }
  }

  lemma {:induction false} ReachesElement(g: T.Graph, t: T.TypeId)
    requires T.Reaches(T.LinkWalk, g, t) && (g[t].Pointer? || g[t].List? || g[t].Dict?)
    ensures T.Reaches(T.LinkWalk, g, g[t].elem)
  {
    var p :| T.PathToGoal(T.LinkWalk, g, t, p);
    assert T.Edge(T.LinkWalk, g, p[0], p[0 + 1]);
    var q := p[1..];
    forall i | 0 <= i < |q| - 1 ensures T.Edge(T.LinkWalk, g, q[i], q[i + 1]) {
      assert T.Edge(T.LinkWalk, g, p[i + 1], p[i + 1 + 1]);
    }
    assert T.PathToGoal(T.LinkWalk, g, g[t].elem, q);
  }

  /** The walk does not look into interfaces. */
  lemma {:induction false} ReachesNoInterface(g: T.Graph, t: T.TypeId)
    requires T.Reaches(T.LinkWalk, g, t)
    ensures t < |g| && !g[t].Interface?
  {
    var p :| T.PathToGoal(T.LinkWalk, g, t, p);
    assert |p| > 1 ==> T.Edge(T.LinkWalk, g, p[0], p[0 + 1]);
  }

  /** A value of a type that leads to a link is not held by an interface. */
  lemma {:induction false} NotBoxed(g: T.Graph, t: T.TypeId, v: Value)
    requires Fits(g, t, v) && T.Reaches(T.LinkWalk, g, t)
    ensures Encode(Stripped(v), Reached) == Encode(v, Reached) && Encode(Stripped(v), Plain) == Encode(v, Plain)
    ensures Misses(Stripped(v), Plain) <==> Misses(v, Plain)
    ensures forall j :: Shows(j, Stripped(v), Reached) <==> Shows(j, v, Reached)
    decreases v
  {
    match v {
      case Ptr(p) =>
        ReachesElement(g, t);
        NotBoxed(g, g[t].elem, p);
      case _ => ReachesNoInterface(g, t);
    }
  }

  lemma {:induction false} StrippedEncodes(g: T.Graph, t: T.TypeId, v: Value, b: Json)
    requires Fits(g, t, v) && T.Reaches(T.LinkWalk, g, t) && Encodes(b, Stripped(v))
    ensures Encodes(b, v)
  {
    NotBoxed(g, t, v);
  }

  /** A loaded link is expanded to what its target is. */
  lemma {:induction false} LoadedTarget(v: Value)
    requires v.LinkTo? && v.loaded && v.value != Nil && WellKeyed(v)
    ensures Encode(v, Reached) == Encode(Stripped(v.value), Reached) && Misses(v, Plain)
    ensures forall j :: Shows(j, Stripped(v.value), Reached) ==> Shows(j, v, Reached)
  {
    var p := v.value;
    assert Stripped(p) == p.target;
    forall j | Shows(j, Stripped(p), Reached) ensures Shows(j, v, Reached) {
      assert Shows(j, p, Reached);
    }
  }

  method MarshalValue(g: T.Graph, links: set<T.TypeId>, v: Value, t: T.TypeId) returns (r: Json)
    requires ExactLinks(g, links) && Fits(g, t, v) && WellKeyed(v)
    ensures Encodes(r, Stripped(v)) && ShowsExpanded(r, v)
    decreases v, 3, 0
  {
    var w, u: T.TypeId := v, t;
    while w.Ptr? || w.Boxed?
      invariant Fits(g, u, w) && WellKeyed(w) && (w == v || w < v) && Stripped(w) == Stripped(v)
      invariant forall j :: ShowsExpanded(j, w) ==> ShowsExpanded(j, v)
      decreases w
    {
      u := if w.Ptr? then g[u].elem else w.typ;
      w := if w.Ptr? then w.target else w.held;
    }
    if w.LinkTo? {
      LinkReaches(g, u);
      if w.loaded && w.value != Nil {
        r := MarshalValue(g, links, w.value, ValueType(g, u));
        LoadedTarget(w);
      } else {
        r := Encode(w, Plain);
      }
      return;
    }
    if u !in links {
      LinkFreeType(g, u, w);
      EncodeShows(w, Reached);
      return Encode(w, Plain);
    }
    match w {
      case Record(_) => r := MarshalStruct(g, links, w, u);
      case Items(_) => r := MarshalSequence(g, links, w, u);
      case Entries(_, _) => r := MarshalMap(g, links, w, u);
      case _ => r := Encode(w, Plain);
    }
  }

  method MarshalSequence(g: T.Graph, links: set<T.TypeId>, v: Value, t: T.TypeId) returns (r: Json)
    requires ExactLinks(g, links) && t in links && v.Items? && Fits(g, t, v) && WellKeyed(v)
    ensures Encodes(r, v)
    decreases v, 2, 0
  {
    ReachesElement(g, t);
    var items: seq<Json> := [];
    for i := 0 to |v.elems|
      invariant |items| == i && forall k :: 0 <= k < i ==> Encodes(items[k], v.elems[k])
    {
      var b := MarshalValue(g, links, v.elems[i], g[t].elem);
      StrippedEncodes(g, g[t].elem, v.elems[i], b);
      items := items + [b];
    }
    r := Arr(items);
    ItemsEncoded(v, r);
  }

  lemma {:induction false} ItemsEncoded(v: Value, r: Json)
    requires v.Items? && r.Arr? && |r.items| == |v.elems| && forall k :: 0 <= k < |v.elems| ==>
      Encodes(r.items[k], v.elems[k])
    ensures Encodes(r, v)
  {
    var e := Encode(v, Reached);
    assert forall k :: 0 <= k < |v.elems| ==> e.items[k] == Encode(v.elems[k], Reached);
    ItemsMeaning(r, e);
  }

  method MarshalMap(g: T.Graph, links: set<T.TypeId>, v: Value, t: T.TypeId) returns (r: Json)
    requires ExactLinks(g, links) && t in links && v.Entries? && Fits(g, t, v) && WellKeyed(v)
    ensures Encodes(r, v) && r.Obj? && Ascending(r.members)
    ensures |r.members| == |v.entries| && forall k :: 0 <= k < |v.entries| ==> r.members[k].key == v.entries[k].key
    decreases v, 2, 0
  {
    if !v.textual {
      OtherKeys(v);
      return Encode(v, Plain);
    }
    ReachesElement(g, t);
    var ms: seq<Member> := [];
    for i := 0 to |v.entries|
      invariant |ms| == i && forall k :: 0 <= k < i ==>
        ms[k].key == v.entries[k].key && Encodes(ms[k].value, v.entries[k].value)
    {
      var b := MarshalValue(g, links, v.entries[i].value, g[t].elem);
      StrippedEncodes(g, g[t].elem, v.entries[i].value, b);
      ms := ms + [Member(v.entries[i].key, b)];
    }
    r := Obj(ms);
    EntriesEncoded(v, r);
  }

  /** A map whose keys are not strings goes to encoding/json. */
  lemma {:induction false} OtherKeys(v: Value)
    requires v.Entries? && WellKeyed(v) && !v.textual
    ensures Encode(v, Plain) == Encode(v, Reached) && Encode(v, Plain).Obj? && Ascending(Encode(v, Plain).members)
    ensures |Encode(v, Plain).members| == |v.entries| && Shows(Encode(v, Plain), v, Reached)
    ensures forall k :: 0 <= k < |v.entries| ==> Encode(v, Plain).members[k].key == v.entries[k].key
  {
    EncodeShows(v, Reached);
  }

  lemma {:induction false} EntriesEncoded(v: Value, r: Json)
    requires v.Entries? && v.textual && WellKeyed(v) && r.Obj? && |r.members| == |v.entries|
    requires forall k :: 0 <= k < |v.entries| ==>
      r.members[k].key == v.entries[k].key && Encodes(r.members[k].value, v.entries[k].value)
    ensures Encodes(r, v) && Ascending(r.members)
  {
    var e := Encode(v, Reached);
    assert forall k :: 0 <= k < |v.entries| ==>
      e.members[k] == Member(v.entries[k].key, Encode(v.entries[k].value, Reached));
    SameKeysMeaning(r, e);
  }

  /** Some member differs from the ordinary encoding, and the members come in key order. */
  predicate Reordered(r: Json, raw: Json)
  {
    r.Obj? && raw.Obj? && Ascending(r.members) && MapOf(r.members) != MapOf(raw.members)
  }

  method MarshalStruct(g: T.Graph, links: set<T.TypeId>, v: Value, t: T.TypeId) returns (r: Json)
    requires ExactLinks(g, links) && v.Record? && Fits(g, t, v) && WellKeyed(v)
    ensures Encodes(r, v)
    ensures r == Encode(v, Plain) || Reordered(r, Encode(v, Plain))
    decreases v, 2, 0
  {
    var raw := Encode(v, Plain);
    RecordKeyed(v);
    MembersDistinct(v, |AllCells(v)|, Plain);
    PlainMap(v);
    var m0 := MapOf(raw.members);
    var m, changed := PatchStructLinks(g, links, v, t, m0);
    if changed {
      var ms := SortedMembers(m);
      AscendingIsDistinct(ms);
      r := Obj(ms);
    } else {
      r := raw;
    }
    PatchedMeans(v, m0, m, r, changed);
    PatchedShows(v, m0, m, r, changed);
    QuietCells(v);
  }

  /** Field by field, overwrite the members that may hold a link with their expanded form. */
  method PatchStructLinks(g: T.Graph, links: set<T.TypeId>, v: Value, t: T.TypeId, m0: map<string,
      Json>) returns (m: map<string, Json>, changed: bool)
    requires ExactLinks(g, links) && v.Record? && Fits(g, t, v) && AllKeyed(AllCells(v)) && HoldsPlain(m0, AllCells(v))
    ensures Patched(m0, m, AllCells(v), changed)
    decreases v, 1, 0
  {
    m, changed := m0, false;
    for i := 0 to |v.fields|
      invariant Patched(m0, m, Cells(v, i, false), changed)
    {
      FieldCellsKeyed(v, i);
      StillPlain(v, i, m0, m, changed);
      var was, c := m, changed;
      m, changed := PatchField(g, links, v, t, i, m);
      PatchedThen(m0, was, m, Cells(v, i, false), FieldCells(v, i, false), c, changed);
      changed := c || changed;
    }
  }

  lemma {:induction false} StillPlain(v: Value, i: nat, m0: map<string, Json>, m: map<string, Json>, changed: bool)
    requires v.Record? && i < |v.fields| && HoldsPlain(m0, AllCells(v)) && Patched(m0, m, Cells(v, i, false), changed)
    requires KeysApart(Cells(v, i, false), FieldCells(v, i, false)) && forall c :: c in FieldCells(v, i, false) ==>
      c in AllCells(v)
    ensures HoldsPlain(m, FieldCells(v, i, false))
  {
    forall c | c in FieldCells(v, i, false)
      ensures if c.omitted then c.key !in m else c.key in m && m[c.key] == Encode(c.value, Plain)
    {
      assert !HasKey(Cells(v, i, false), c.key);
    }
  }

  /** The loop body of PatchStructLinks. */
  method PatchField(g: T.Graph, links: set<T.TypeId>, v: Value, t: T.TypeId, i: nat, m0: map<string,
      Json>) returns (m: map<string, Json>, changed: bool)
    requires ExactLinks(g, links) && v.Record? && i < |v.fields| && Fits(g, t, v)
    requires AllKeyed(FieldCells(v, i, false)) && HoldsPlain(m0, FieldCells(v, i, false))
    ensures Patched(m0, m, FieldCells(v, i, false), changed)
    decreases v, 0, 1
  {
    m, changed := m0, false;
    var f, ft := v.fields[i], g[t].fields[i].typ;
    if !f.exported {
      HiddenFieldStays(v, i, false);
      NothingToPatch(m0, FieldCells(v, i, false));
      return;
    }
    if f.role.Dropped? || f.misnamed {
      if f.misnamed { HiddenFieldStays(v, i, false); }
      NothingToPatch(m0, FieldCells(v, i, false));
    } else if f.role.Embedded? && !f.role.named {
      m, changed := PatchEmbedded(g, links, v, t, i, m0);
    } else {
      var cell := Cell(f.name, f.value, f.omitted, false);
      assert cell in FieldCells(v, i, false);
      if ft !in links {
        LinkFreeType(g, ft, f.value);
        NothingToPatch(m0, FieldCells(v, i, false));
        return;
      }
      if f.name !in m0 {
        return;
      }
      var b := MarshalValue(g, links, f.value, ft);
      NotBoxed(g, ft, f.value);
      if b != m0[f.name] {
        m, changed := m0[f.name := b], true;
      }
      assert CellPatched(m0, m, cell);
    }
  }

  /** An exported embedded field without a json name: only structs are looked into. */
  method PatchEmbedded(g: T.Graph, links: set<T.TypeId>, v: Value, t: T.TypeId, i: nat, m0: map<string, Json>)
      returns (m: map<string, Json>, changed: bool)
    requires ExactLinks(g, links) && v.Record? && i < |v.fields| && Fits(g, t, v)
    requires var f := v.fields[i]; f.exported && !f.misnamed && f.role.Embedded? && !f.role.named
    requires AllKeyed(FieldCells(v, i, false)) && HoldsPlain(m0, FieldCells(v, i, false))
    ensures Patched(m0, m, FieldCells(v, i, false), changed)
    decreases v, 0, 0
  {
    m, changed := m0, false;
    var f, et := v.fields[i], Element(g, g[t].fields[i].typ);
    var e := Behind(f.value);
    if !IsStruct(g, et) {
      HiddenFieldStays(v, i, false);
      NothingToPatch(m0, FieldCells(v, i, false));
    } else if e.Record? && et in links {
      m, changed := PatchStructLinks(g, links, e, et, m0);
    } else if e.Record? {
      LinkFreeCells(g, et, e);
      NothingToPatch(m0, FieldCells(v, i, false));
    } else {
      NothingToPatch(m0, FieldCells(v, i, false));
    }
  }

  /** The cells of a link-free struct type encode the same either way. */
  lemma {:induction false} LinkFreeCells(g: T.Graph, t: T.TypeId, v: Value)
    requires T.WellFormed(g) && v.Record? && Fits(g, t, v) && !T.Reaches(T.LinkWalk, g, t)
    ensures forall c :: c in AllCells(v) ==> Encode(c.value, CellMode(c, Reached)) == Encode(c.value, Plain)
  {
    forall c | c in AllCells(v) ensures Encode(c.value, CellMode(c, Reached)) == Encode(c.value, Plain) {
      if !c.hidden {
        var u := CellType(g, t, v, |v.fields|, c);
        LinkFreeType(g, u, c.value);
      }
    }
  }

  // -----------------------------------------------------------------------------------------
  // What a caller gets
  // -----------------------------------------------------------------------------------------

  /** typeContainsLink for every type of the program, through the cache. */
  method LinkTable(g: T.Graph, ghost rank: seq<nat>) returns (links: set<T.TypeId>)
    requires T.WellFormed(g) && T.NoPointerCycle(g, rank)
    ensures ExactLinks(g, links)
  {
    var cache := new T.LinkTypeCache(g, rank);
    links := {};
    for t := 0 to |g|
      invariant cache.Valid() && cache.g == g && cache.rank == rank && fresh(cache)
      invariant forall u: T.TypeId :: u in links <==> u < t && T.Reaches(T.LinkWalk, g, u)
    {
      var found := cache.TypeContainsLink(t);
      if found { links := links + {t}; }
    }
    forall t: T.TypeId | T.Reaches(T.LinkWalk, g, t) ensures t < |g| {
      var p :| T.PathToGoal(T.LinkWalk, g, t, p);
    }
  }

  /**
    Marshal expands every loaded link exactly when none of them lies in a place that encoding/json emits and
    the code passes over; with nothing loaded its output is the ordinary encoding, member for member.
   */
  method MarshalAny(g: T.Graph, ghost rank: seq<nat>, v: Value, t: T.TypeId) returns (r: Json)
    requires T.WellFormed(g) && T.NoPointerCycle(g, rank) && Fits(g, t, v) && WellKeyed(v)
    ensures MeaningOf(r) == MeaningOf(Encode(v, Full)) <==> !Misses(Stripped(v), Reached)
    ensures !Misses(v, Plain) ==> r == Encode(v, Plain)
    ensures ShowsExpanded(r, v)
  {
    var links := LinkTable(g, rank);
    r := MarshalValue(g, links, v, t);
    StrippedKeyed(v);
    StrippedAlike(v, Full);
    StrippedAlike(v, Plain);
    MeaningDiffersByMisses(Stripped(v), Reached);
  }

  lemma {:induction false} StrippedKeyed(v: Value)
    requires WellKeyed(v)
    ensures WellKeyed(Stripped(v))
    decreases v
  {
    match v {
      case Ptr(p) => StrippedKeyed(p);
      case Boxed(_, p) => StrippedKeyed(p);
      case _ =>
    }
  }
}

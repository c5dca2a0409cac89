/** The places where the expanding encoder leaves a loaded link as its id, with a value and its types for each. */
module MarshalExamples {
  import opened LinkEncoding
  import opened Marshal
  import T = TypeGraph

  /** Places that encoding/json emits and the expanding encoder passes over. */
  datatype Place = UnexportedEmbed | NamedUnexportedEmbed | EmbeddedSlice | InterfaceField | OtherKey | RefusedName

  function LinkFields(): seq<T.Field>
  {
    [T.Field("ID", true, 2, ""), T.Field("Value", true, 0, ""), T.Field("Loaded", true, 3, "")]
  }

  /** A link (type 4) to an empty struct, and the types that hold it. */
  function Types(): T.Graph
  {
    [ T.Pointer(1), T.Struct([]), T.Scalar(true), T.Scalar(false), T.Struct(LinkFields()),
      T.Struct([T.Field("owner", true, 4, "")]), T.Struct([T.Field("base", false, 5, "")]), T.List(4),
      T.Struct([T.Field("owner", true, 7, "")]), T.Interface, T.Struct([T.Field("owner", true, 9, "")]),
      T.Dict(4, false) ]
  }

  /** What the examples need of these types. */
  predicate HoldLinks(g: T.Graph)
  {
    |g| == 12 && g[0] == T.Pointer(1) && g[1] == T.Struct([]) && g[7] == T.List(4) && g[9].Interface? &&
    g[11] == T.Dict(4, false) && T.IsLinkShape(g, 4) && ValueType(g, 4) == 0 &&
    Holds(g, 5, true, 4) && Holds(g, 6, false, 5) && Holds(g, 8, true, 7) && Holds(g, 10, true, 9)
  }

  /** Type t is a struct of one field. */
  predicate Holds(g: T.Graph, t: T.TypeId, exported: bool, u: T.TypeId)
  {
    t < |g| && g[t].Struct? && |g[t].fields| == 1 && g[t].fields[0].exported == exported && g[t].fields[0].typ == u
  }

  lemma {:induction false} LinkIsLinkShape(g: T.Graph)
    requires |g| > 4 && g[4] == T.Struct(LinkFields()) && g[2] == T.Scalar(true)
    ensures T.IsLinkShape(g, 4) && ValueType(g, 4) == 0
  {
    var link := LinkFields();
    assert link[0].name == "ID" && link[1].name == "Value" && link[2].name == "Loaded";
  }

  /** A graph in which only type 0 is a pointer, and not to itself. */
  lemma {:induction false} TypesAreFine() returns (rank: seq<nat>)
    ensures T.WellFormed(Types()) && T.NoPointerCycle(Types(), rank)
  {
    rank := seq(12, t => if t == 0 then 1 else 0);
  }

  lemma {:induction false} TypesHoldLinks()
    ensures HoldLinks(Types())
  {
    LinkIsLinkShape(Types());
  }

  /** A loaded link to an empty document. */
  predicate IsLoadedLink(v: Value)
  {
    v.LinkTo? && v.loaded && v.value == Ptr(Record([]))
  }

  lemma {:induction false} LoadedLink(v: Value)
    requires IsLoadedLink(v)
    ensures WellKeyed(v) && Misses(v, Plain) && Misses(v, Unreached(Reached))
    ensures Encode(v, Plain) == Atom(v.id) && Encode(v, Full) == Obj([])
  {
    assert AllCells(Record([])) == [] && Encode(Record([]), Full) == Obj([]);
  }

  lemma {:induction false} LinkFits(g: T.Graph, v: Value)
    requires HoldLinks(g) && IsLoadedLink(v)
    ensures Fits(g, 4, v)
  {
    assert Fits(g, 1, Record([])) && Fits(g, 0, Ptr(Record([])));
  }

  function OneField(name: string, role: Role, exported: bool, misnamed: bool, v: Value): Value
  {
    Record([FieldValue(name, role, exported, misnamed, false, v)])
  }

  lemma {:induction false} OneFieldFits(g: T.Graph, t: T.TypeId, u: T.TypeId, name: string, role: Role, exported: bool,
      misnamed: bool, v: Value)
    requires Holds(g, t, exported, u) && Fits(g, u, v)
    requires role.Embedded? ==> (role.ofStruct <==> IsStruct(g, Element(g, u)))
    ensures Fits(g, t, OneField(name, role, exported, misnamed, v))
  {
  }

  lemma {:induction false} OneCell(v: Value, c: Cell, mode: Mode)
    requires v.Record? && AllCells(v) == [c] && !c.omitted
    ensures Encode(v, mode) == Obj([Member(c.key, Encode(c.value, CellMode(c, mode)))])
    ensures WellKeyed(c.value) ==> WellKeyed(v)
    ensures Misses(v, mode) <==> Misses(c.value, CellMode(c, mode))
  {
    assert Members(v, 0, mode) == [];
    assert Members(v, 1, mode) == [Member(c.key, Encode(c.value, CellMode(c, mode)))];
    assert CellMisses(v, 0, mode) <==> Misses(c.value, CellMode(c, mode));
    if WellKeyed(c.value) { assert CellKeyed(v, 0); }
  }

  lemma {:induction false} OneFieldCells(name: string, role: Role, exported: bool, misnamed: bool, v: Value)
    requires var f := FieldValue(name, role, exported, misnamed, false, v); Emitted(f) && !Flattened(f)
    ensures var r := OneField(name, role, exported, misnamed, v);
      AllCells(r) == [Cell(name, v, false, PassedOver(r.fields[0]))]
  {
    var r := OneField(name, role, exported, misnamed, v);
    assert Cells(r, 1, false) == Cells(r, 0, false) + FieldCells(r, 0, false);
  }

  /** A plain field holding the link. */
  lemma {:induction false} OwnerHolds(name: string, link: Value)
    requires IsLoadedLink(link)
    ensures var owner := OneField(name, Ordinary, true, false, link);
      WellKeyed(owner) && Misses(owner, Plain) && Encode(owner, Plain) == Obj([Member(name, Atom(link.id))]) &&
      Encode(owner, Full) == Obj([Member(name, Obj([]))])
  {
    var owner := OneField(name, Ordinary, true, false, link);
    LoadedLink(link);
    OneFieldCells(name, Ordinary, true, false, link);
    OneCell(owner, Cell(name, link, false, false), Plain);
    OneCell(owner, Cell(name, link, false, false), Full);
  }

  /** Below an unexported embedded struct, whose members encoding/json emits as its parent's. */
  lemma {:induction false} EmbeddedLinkStaysAnId(base: string, name: string, link: Value)
    requires IsLoadedLink(link)
    ensures var v := OneField(base, Embedded(true, false), false, false, OneField(name, Ordinary, true, false, link));
      WellKeyed(v) && Misses(v, Reached) && Encode(v, Reached) == Obj([Member(name, Atom(link.id))]) &&
      Encode(v, Full) == Obj([Member(name, Obj([]))])
  {
    var owner, cell := OneField(name, Ordinary, true, false, link), Cell(name, link, false, true);
    var v := OneField(base, Embedded(true, false), false, false, owner);
    LoadedLink(link);
    assert Cells(owner, 1, true) == Cells(owner, 0, true) + FieldCells(owner, 0, true) == [cell];
    assert Cells(v, 1, false) == Cells(v, 0, false) + FieldCells(v, 0, false) == [cell];
    OneCell(v, cell, Reached);
    OneCell(v, cell, Full);
  }

  /** The same with a json name on the embedded struct, which encoding/json then emits as a member of its own. */
  lemma {:induction false} NamedEmbedStaysAnId(base: string, name: string, link: Value)
    requires IsLoadedLink(link)
    ensures var v := OneField(base, Embedded(true, true), false, false, OneField(name, Ordinary, true, false, link));
      WellKeyed(v) && Misses(v, Reached) &&
        Encode(v, Reached) == Obj([Member(base, Obj([Member(name, Atom(link.id))]))]) &&
      Encode(v, Full) == Obj([Member(base, Obj([Member(name, Obj([]))]))])
  {
    var owner := OneField(name, Ordinary, true, false, link);
    var v := OneField(base, Embedded(true, true), false, false, owner);
    OwnerHolds(name, link);
    OneFieldCells(base, Embedded(true, true), false, false, owner);
    OneCell(v, Cell(base, owner, false, true), Reached);
    OneCell(v, Cell(base, owner, false, true), Full);
  }

  /** In a field that is passed over, or that holds what is not looked into. */
  lemma {:induction false} HeldLinkMisses(name: string, role: Role, misnamed: bool, v: Value)
    requires role in {Ordinary, Embedded(false, false)} && WellKeyed(v)
    requires Misses(v, if role.Ordinary? && !misnamed then Reached else Plain)
    ensures var r := OneField(name, role, true, misnamed, v); WellKeyed(r) && Misses(r, Reached)
  {
    var r := OneField(name, role, true, misnamed, v);
    OneFieldCells(name, role, true, misnamed, v);
    OneCell(r, Cell(name, v, false, PassedOver(r.fields[0])), Reached);
  }

  /** A value, with its type, that holds the link in such a place. */
  function Example(place: Place, base: string, name: string, link: Value): (T.TypeId, Value)
  {
    var owner := OneField(name, Ordinary, true, false, link);
    match place
    case UnexportedEmbed => (6, OneField(base, Embedded(true, false), false, false, owner))
    case NamedUnexportedEmbed => (6, OneField(base, Embedded(true, true), false, false, owner))
    case EmbeddedSlice => (8, OneField(name, Embedded(false, false), true, false, Items([link])))
    case InterfaceField => (10, OneField(name, Ordinary, true, false, Boxed(4, link)))
    case OtherKey => (11, Entries([Entry("1", link)], false))
    case RefusedName => (5, OneField(name, Ordinary, true, true, link))
  }

  lemma {:induction false} ExampleFits(g: T.Graph, place: Place, base: string, name: string, link: Value)
    requires HoldLinks(g) && IsLoadedLink(link)
    ensures Fits(g, Example(place, base, name, link).0, Example(place, base, name, link).1)
  {
    LinkFits(g, link);
    match place {
      case EmbeddedSlice =>
        assert Fits(g, 7, Items([link]));
        OneFieldFits(g, 8, 7, name, Embedded(false, false), true, false, Items([link]));
      case InterfaceField => OneFieldFits(g, 10, 9, name, Ordinary, true, false, Boxed(4, link));
      case OtherKey =>
      case RefusedName => OneFieldFits(g, 5, 4, name, Ordinary, true, true, link);
      case _ =>
        var owner := OneField(name, Ordinary, true, false, link);
        OneFieldFits(g, 5, 4, name, Ordinary, true, false, link);
        OneFieldFits(g, 6, 5, base, Embedded(true, place.NamedUnexportedEmbed?), false, false, owner);
    }
  }

  lemma {:induction false} ExampleMisses(place: Place, base: string, name: string, link: Value)
    requires IsLoadedLink(link)
    ensures WellKeyed(Example(place, base, name, link).1) && Misses(Example(place, base, name, link).1, Reached)
  {
    LoadedLink(link);
    match place {
      case UnexportedEmbed => EmbeddedLinkStaysAnId(base, name, link);
      case NamedUnexportedEmbed => NamedEmbedStaysAnId(base, name, link);
      case EmbeddedSlice =>
        assert Misses(Items([link]), Plain) by { assert Misses([link][0], Plain); }
        HeldLinkMisses(name, Embedded(false, false), false, Items([link]));
      case InterfaceField => HeldLinkMisses(name, Ordinary, false, Boxed(4, link));
      case OtherKey =>
        var es := [Entry("1", link)];
        assert Misses(es[0].value, EntryMode(false, Reached)) && WellKeyed(es[0].value);
      case RefusedName => HeldLinkMisses(name, Ordinary, true, link);
    }
  }

  /** In each of these places a loaded link stays an id. */
  lemma {:induction false} EveryPlaceMisses(place: Place, base: string, name: string, link: Value)
    returns (g: T.Graph, rank: seq<nat>, t: T.TypeId, v: Value)
    requires IsLoadedLink(link)
    ensures T.WellFormed(g) && T.NoPointerCycle(g, rank) && Fits(g, t, v) && WellKeyed(v) &&
      v == Example(place, base, name, link).1
    ensures Misses(Stripped(v), Reached)
  {
    TypesHoldLinks();
    ExampleFits(Types(), place, base, name, link);
    ExampleMisses(place, base, name, link);
    rank := TypesAreFine();
    g := Types();
    t, v := Example(place, base, name, link).0, Example(place, base, name, link).1;
    assert Stripped(v) == v;
  }
}

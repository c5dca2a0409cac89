/** What stands where in the JSON text of a value, read off the value's own fields. */
module LinkContent {
  import opened LinkEncoding

  /**
    j shows v. A leaf is its text and a nil is null; slice element i stands at index i and map entry i under its
    key; a struct shows every field that it emits under the field's name and nothing else. A link that is not
    loaded, or whose Value is nil, is its id; a loaded one is its id or, except in mode Plain, what shows its target.
   */
  predicate Shows(j: Json, v: Value, mode: Mode)
    decreases v, 2
  {
    match v
    case Leaf(text) => j == Atom(text)
    case Nil => j == Atom("null")
    case Ptr(p) => Shows(j, p, mode)
    case Boxed(_, p) => Shows(j, p, if mode == Reached then Plain else mode)
    case Items(vs) => j.Arr? && |j.items| == |vs| && forall i :: 0 <= i < |vs| ==> Shows(j.items[i], vs[i], mode)
    case Entries(es, textual) =>
      j.Obj? && |j.members| == |es| && forall i :: 0 <= i < |es| ==>
        j.members[i].key == es[i].key &&
        Shows(j.members[i].value, es[i].value, if mode == Reached && !textual then Plain else mode)
    case Record(fields) =>
      j.Obj? && DistinctKeys(j.members) &&
      (forall i :: 0 <= i < |fields| ==> FieldShown(j, v, i, mode)) &&
      forall k :: 0 <= k < |j.members| ==> Gives(v, j.members[k].key)
    case LinkTo(id, loaded, p) => if loaded && p != Nil && mode != Plain then Shows(j, p, mode) else j == Atom(id)
  }

  /** Field i is shown in the object j: as a member, or as those of the struct that it embeds. */
  predicate FieldShown(j: Json, v: Value, i: nat, mode: Mode)
    requires j.Obj? && v.Record? && i < |v.fields|
    decreases v, 1
  {
    var f := v.fields[i];
    var embedsStruct := f.role.Embedded? && f.role.ofStruct;
    var reached := f.exported && !f.misnamed && !(f.role.Embedded? && !f.role.ofStruct && !f.role.named);
    var inner := if mode == Reached && !reached then Plain else mode;
    var e := if f.value.Ptr? then f.value.target else f.value;
    if f.role.Dropped? || (!f.exported && !embedsStruct) then true
    else if embedsStruct && !f.role.named then
      e.Record? ==> forall k :: 0 <= k < |e.fields| ==> FieldShown(j, e, k, inner)
    else if f.omitted then true
    else exists k :: 0 <= k < |j.members| && j.members[k].key == f.name && Shows(j.members[k].value, f.value, inner)
  }

  /** The struct's object has a member with this key. */
  predicate Gives(v: Value, key: string)
    requires v.Record?
    decreases v, 2
  {
    exists i :: 0 <= i < |v.fields| && FieldGives(v, i, key)
  }

  /** Field i gives it. */
  predicate FieldGives(v: Value, i: nat, key: string)
    requires v.Record? && i < |v.fields|
    decreases v, 1
  {
    var f := v.fields[i];
    var embedsStruct := f.role.Embedded? && f.role.ofStruct;
    var e := if f.value.Ptr? then f.value.target else f.value;
    if f.role.Dropped? || (!f.exported && !embedsStruct) then false
    else if embedsStruct && !f.role.named then
      e.Record? && Gives(e, key)
    else !f.omitted && key == f.name
  }

  /** Behind every pointer and interface, what the expanding encoder starts from. */
  predicate ShowsExpanded(j: Json, v: Value)
  {
    match v
    case Ptr(p) => ShowsExpanded(j, p)
    case Boxed(_, p) => ShowsExpanded(j, p)
    case _ => Shows(j, v, Reached)
  }

  // -----------------------------------------------------------------------------------------
  // From cells to fields
  // -----------------------------------------------------------------------------------------

  predicate MemberShows(j: Json, c: Cell, mode: Mode)
    requires j.Obj?
  {
    c.omitted ||
    exists k :: 0 <= k < |j.members| && j.members[k].key == c.key &&
                Shows(j.members[k].value, c.value, CellMode(c, mode))
  }

  lemma {:induction false} FieldsShown(j: Json, v: Value, n: nat, hidden: bool, mode: Mode, inner: Mode)
    requires j.Obj? && v.Record? && n <= |v.fields| && inner == if hidden then Unreached(mode) else mode
    requires forall c :: c in Cells(v, n, hidden) ==> MemberShows(j, c, mode)
    ensures forall i :: 0 <= i < n ==> FieldShown(j, v, i, inner)
    decreases v, n, 1
  {
    if n == 0 {
    } else {
      FieldsShown(j, v, n - 1, hidden, mode, inner);
      FieldIsShown(j, v, n - 1, hidden, mode, inner);
    }
  }

  lemma {:induction false} FieldIsShown(j: Json, v: Value, i: nat, hidden: bool, mode: Mode, inner: Mode)
    requires j.Obj? && v.Record? && i < |v.fields| && inner == if hidden then Unreached(mode) else mode
    requires forall c :: c in FieldCells(v, i, hidden) ==> MemberShows(j, c, mode)
    ensures FieldShown(j, v, i, inner)
    decreases v, i, 2
  {
    var f := v.fields[i];
    if Emitted(f) {
      if Flattened(f) {
        var e := Behind(f.value);
        var below := if hidden || PassedOver(f) then Unreached(mode) else mode;
        if e.Record? { FieldsShown(j, e, |e.fields|, hidden || PassedOver(f), mode, below); }
      } else {
        var c := Cell(f.name, f.value, f.omitted, hidden || PassedOver(f));
        assert c in FieldCells(v, i, hidden);
      }
    }
  }

  lemma {:induction false} CellGiven(v: Value, n: nat, hidden: bool, c: Cell) returns (i: nat)
    requires v.Record? && n <= |v.fields| && c in Cells(v, n, hidden) && !c.omitted
    ensures i < n && FieldGives(v, i, c.key)
    decreases v, n, 1
  {
    if c in FieldCells(v, n - 1, hidden) {
      FieldCellGiven(v, n - 1, hidden, c);
      i := n - 1;
    } else {
      i := CellGiven(v, n - 1, hidden, c);
    }
  }

  lemma {:induction false} FieldCellGiven(v: Value, i: nat, hidden: bool, c: Cell)
    requires v.Record? && i < |v.fields| && c in FieldCells(v, i, hidden) && !c.omitted
    ensures FieldGives(v, i, c.key)
    decreases v, i, 2
  {
    var f := v.fields[i];
    if Flattened(f) {
      var e := Behind(f.value);
      var k := CellGiven(e, |e.fields|, hidden || PassedOver(f), c);
    }
  }

  lemma {:induction false} ShowsRecord(j: Json, v: Value, mode: Mode)
    requires j.Obj? && DistinctKeys(j.members) && v.Record?
    requires forall c :: c in AllCells(v) ==> MemberShows(j, c, mode)
    requires forall k :: 0 <= k < |j.members| ==> IsCellKey(v, |AllCells(v)|, j.members[k].key)
    ensures Shows(j, v, mode)
  {
    FieldsShown(j, v, |v.fields|, false, mode, mode);
    forall k | 0 <= k < |j.members| ensures Gives(v, j.members[k].key) {
      assert IsCellKey(v, |AllCells(v)|, j.members[k].key);
      var x :| 0 <= x < |AllCells(v)| && AllCells(v)[x].key == j.members[k].key && !AllCells(v)[x].omitted;
      var i := CellGiven(v, |v.fields|, false, AllCells(v)[x]);
    }
  }

  // -----------------------------------------------------------------------------------------
  // Encodings show what they encode
  // -----------------------------------------------------------------------------------------

  lemma {:induction false} MemberOfCell(v: Value, n: nat, i: nat, mode: Mode) returns (k: nat)
    requires v.Record? && i < n <= |AllCells(v)| && !AllCells(v)[i].omitted
    ensures k < |Members(v, n, mode)|
    ensures var c := AllCells(v)[i]; Members(v, n, mode)[k] == Member(c.key, Encode(c.value, CellMode(c, mode)))
    decreases n
  {
    if i == n - 1 {
      k := |Members(v, n - 1, mode)|;
    } else {
      k := MemberOfCell(v, n - 1, i, mode);
    }
  }

  /** Each of the three encodings shows its value, in its mode. */
  lemma {:induction false} EncodeShows(v: Value, mode: Mode)
    requires WellKeyed(v)
    ensures Shows(Encode(v, mode), v, mode)
    decreases v
  {
    match v {
      case Ptr(p) => EncodeShows(p, mode);
      case Items(vs) =>
        forall i | 0 <= i < |vs| ensures Shows(Encode(vs[i], mode), vs[i], mode) { EncodeShows(vs[i], mode); }
      case Entries(es, textual) =>
        var m := EntryMode(textual, mode);
        forall i | 0 <= i < |es| ensures Shows(Encode(es[i].value, m), es[i].value, m) { EncodeShows(es[i].value, m); }
      case Boxed(_, p) => EncodeShows(p, Unreached(mode));
      case Record(_) =>
        var j := Encode(v, mode);
        forall c | c in AllCells(v) ensures MemberShows(j, c, mode) {
          var i :| 0 <= i < |AllCells(v)| && AllCells(v)[i] == c;
          assert CellKeyed(v, i);
          if !c.omitted {
            EncodeShows(c.value, CellMode(c, mode));
            var k := MemberOfCell(v, |AllCells(v)|, i, mode);
          }
        }
        MembersDistinct(v, |AllCells(v)|, mode);
        ShowsRecord(j, v, mode);
      case LinkTo(_, loaded, p) => if loaded && p != Nil { EncodeShows(p, mode); }
      case _ =>
    }
  }

  // -----------------------------------------------------------------------------------------
  // The order of a struct's members
  // -----------------------------------------------------------------------------------------

  /** The keys that the first n fields give, in field order, those of an embedded struct in its place. */
  function Names(v: Value, n: nat): seq<string>
    requires v.Record? && n <= |v.fields|
    decreases v, n, 1
  {
    if n == 0 then [] else Names(v, n - 1) + FieldNames(v, n - 1)
  }

  function FieldNames(v: Value, i: nat): seq<string>
    requires v.Record? && i < |v.fields|
    decreases v, i, 2
  {
    var f := v.fields[i];
    var embedsStruct := f.role.Embedded? && f.role.ofStruct;
    var e := if f.value.Ptr? then f.value.target else f.value;
    if f.role.Dropped? || (!f.exported && !embedsStruct) then []
    else if embedsStruct && !f.role.named then if e.Record? then Names(e, |e.fields|) else []
    else if f.omitted then [] else [f.name]
  }

  function KeysOf(ms: seq<Member>): seq<string>
  {
    seq(|ms|, i requires 0 <= i < |ms| => ms[i].key)
  }

  function Kept(cells: seq<Cell>): seq<string>
  {
    if cells == [] then [] else
      var c := cells[|cells| - 1];
      Kept(cells[..|cells| - 1]) + if c.omitted then [] else [c.key]
  }

  lemma {:induction false} KeptBoth(a: seq<Cell>, b: seq<Cell>)
    ensures Kept(a + b) == Kept(a) + Kept(b)
    decreases |b|
  {
    if b == [] {
      assert a + b == a;
    } else {
      assert (a + b)[..|a + b| - 1] == a + b[..|b| - 1];
      KeptBoth(a, b[..|b| - 1]);
    }
  }

  lemma {:induction false} NamesOfCells(v: Value, n: nat, hidden: bool)
    requires v.Record? && n <= |v.fields|
    ensures Kept(Cells(v, n, hidden)) == Names(v, n)
    decreases v, n, 1
  {
    if n == 0 {
    } else {
      NamesOfCells(v, n - 1, hidden);
      NamesOfFieldCells(v, n - 1, hidden);
      KeptBoth(Cells(v, n - 1, hidden), FieldCells(v, n - 1, hidden));
    }
  }

  lemma {:induction false} NamesOfFieldCells(v: Value, i: nat, hidden: bool)
    requires v.Record? && i < |v.fields|
    ensures Kept(FieldCells(v, i, hidden)) == FieldNames(v, i)
    decreases v, i, 2
  {
    var f := v.fields[i];
    if Emitted(f) {
      if Flattened(f) {
        var e := Behind(f.value);
        if e.Record? { NamesOfCells(e, |e.fields|, hidden || PassedOver(f)); }
      } else {
        var c := Cell(f.name, f.value, f.omitted, hidden || PassedOver(f));
        assert FieldCells(v, i, hidden) == [c] && [c][..0] == [];
      }
    }
  }

  lemma {:induction false} KeysOfMembers(v: Value, n: nat, mode: Mode)
    requires v.Record? && n <= |AllCells(v)|
    ensures KeysOf(Members(v, n, mode)) == Kept(AllCells(v)[..n])
  {
    if n == 0 {
    } else {
      KeysOfMembers(v, n - 1, mode);
      assert AllCells(v)[..n][..n - 1] == AllCells(v)[..n - 1];
    }
  }

  /** An encoded struct has its members in field order. */
  lemma {:induction false} MembersInFieldOrder(v: Value, mode: Mode)
    requires v.Record?
    ensures Encode(v, mode).Obj? && KeysOf(Encode(v, mode).members) == Names(v, |v.fields|)
  {
    KeysOfMembers(v, |AllCells(v)|, mode);
    NamesOfCells(v, |v.fields|, false);
    assert AllCells(v)[..|AllCells(v)|] == AllCells(v);
  }
}

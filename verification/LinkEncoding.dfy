/**
  Values as the JSON encoder sees them, and three encodings of them: the ordinary one, the one with every
  loaded link replaced by its target, and the one Marshal is able to produce.
 */
module LinkEncoding {
  import opened StringOrder

  datatype Json = Atom(text: string) | Arr(items: seq<Json>) | Obj(members: seq<Member>)
  datatype Member = Member(key: string, value: Json)

  /** What a JSON text denotes; the order of an object's members is no part of it. */
  datatype Meaning = Scalar(text: string) | Sequence(items: seq<Meaning>) | Mapping(members: map<string, Meaning>)

  /**
    Leaf stands for any value without structure, given by its encoding; the entries of a map are in key
    order, as both encoders emit them, and textual says that its keys are strings; Boxed is what an
    interface holds, with its dynamic type.
   */
  datatype Value =
    | Leaf(text: string)
    | Nil
    | Ptr(target: Value)
    | Items(elems: seq<Value>)
    | Entries(entries: seq<Entry>, textual: bool)
    | Boxed(typ: nat, held: Value)
    | Record(fields: seq<FieldValue>)
    | LinkTo(id: string, loaded: bool, value: Value)

  datatype Entry = Entry(key: string, value: Value)

  /** An ordinary field, an embedded one with or without a json name, or a field tagged "-". */
  datatype Role = Ordinary | Embedded(ofStruct: bool, named: bool) | Dropped

  /**
    name is the key that encoding/json emits; omitted says that the field is tagged omitempty and empty;
    misnamed that its tag holds a name that encoding/json does not accept, so that it goes by the Go name.
   */
  datatype FieldValue =
    FieldValue(name: string, role: Role, exported: bool, misnamed: bool, omitted: bool, value: Value)

  // -----------------------------------------------------------------------------------------
  // The members of a struct, embedded structs flattened
  // -----------------------------------------------------------------------------------------

  /** hidden marks what encoding/json emits and the expanding encoder passes over. */
  datatype Cell = Cell(key: string, value: Value, omitted: bool, hidden: bool)

  /** Behind one pointer. */
  function Behind(v: Value): (r: Value)
    ensures r == v || r < v
  {
    if v.Ptr? then v.target else v
  }

  /** The cells of the first n fields of a struct. */
  function Cells(v: Value, n: nat, hidden: bool): (cells: seq<Cell>)
    requires v.Record? && n <= |v.fields|
    ensures forall c :: c in cells ==> c.value < v
    decreases v, n, 1
  {
    if n == 0 then [] else Cells(v, n - 1, hidden) + FieldCells(v, n - 1, hidden)
  }

  /** A struct, or pointer to one, embedded without a json name. */
  predicate Flattened(f: FieldValue)
  {
    f.role.Embedded? && f.role.ofStruct && !f.role.named
  }

  /** Fields that encoding/json emits: embedded structs also when they are not exported. */
  predicate Emitted(f: FieldValue)
  {
    !f.role.Dropped? && (f.exported || (f.role.Embedded? && f.role.ofStruct))
  }

  /** Fields that the expanding encoder passes over or looks for under another name. */
  predicate PassedOver(f: FieldValue)
  {
    !f.exported || f.misnamed || (f.role.Embedded? && !f.role.ofStruct && !f.role.named)
  }

  /** The cells of one field. */
  function FieldCells(v: Value, i: nat, hidden: bool): (cells: seq<Cell>)
    requires v.Record? && i < |v.fields|
    ensures forall c :: c in cells ==> c.value < v
    decreases v, i, 2
  {
    var f := v.fields[i];
    if !Emitted(f) then []
    else if Flattened(f) then
      var e := Behind(f.value);
      if e.Record? then Cells(e, |e.fields|, hidden || PassedOver(f)) else []
    else [Cell(f.name, f.value, f.omitted, hidden || PassedOver(f))]
  }

  function AllCells(v: Value): seq<Cell>
    requires v.Record?
  {
    Cells(v, |v.fields|, false)
  }

  // -----------------------------------------------------------------------------------------
  // Encodings
  // -----------------------------------------------------------------------------------------

  /** No link expanded; all of them; those that the expanding encoder reaches. */
  datatype Mode = Plain | Full | Reached

  /** The mode inside something that the expanding encoder hands to encoding/json as it is. */
  function Unreached(mode: Mode): Mode
  {
    if mode == Reached then Plain else mode
  }

  function CellMode(c: Cell, mode: Mode): Mode
  {
    if c.hidden then Unreached(mode) else mode
  }

  function EntryMode(textual: bool, mode: Mode): Mode
  {
    if textual then mode else Unreached(mode)
  }

  function Encode(v: Value, mode: Mode): Json
    decreases v, 1, 0
  {
    match v
    case Leaf(text) => Atom(text)
    case Nil => Atom("null")
    case Ptr(p) => Encode(p, mode)
    case Items(vs) => Arr(seq(|vs|, i requires 0 <= i < |vs| => Encode(vs[i], mode)))
    case Entries(es, textual) =>
      Obj(seq(|es|, i requires 0 <= i < |es| => Member(es[i].key, Encode(es[i].value, EntryMode(textual, mode)))))
    case Boxed(_, p) => Encode(p, Unreached(mode))
    case Record(_) => Obj(Members(v, |AllCells(v)|, mode))
    case LinkTo(id, loaded, p) => if mode != Plain && loaded && p != Nil then Encode(p, mode) else Atom(id)
  }

  /** The members that the first n cells of a struct give. */
  function Members(v: Value, n: nat, mode: Mode): seq<Member>
    requires v.Record? && n <= |AllCells(v)|
    decreases v, 0, n
  {
    if n == 0 then [] else
      var c := AllCells(v)[n - 1];
      assert c in AllCells(v);
      Members(v, n - 1, mode) + if c.omitted then [] else [Member(c.key, Encode(c.value, CellMode(c, mode)))]
  }

  function MeaningOf(j: Json): Meaning
    decreases j, 1, 0
  {
    match j
    case Atom(text) => Scalar(text)
    case Arr(js) => Sequence(seq(|js|, i requires 0 <= i < |js| => MeaningOf(js[i])))
    case Obj(ms) => Mapping(MeaningOfFirst(j, |ms|))
  }

  function MeaningOfFirst(j: Json, n: nat): map<string, Meaning>
    requires j.Obj? && n <= |j.members|
    decreases j, 0, n
  {
    if n == 0 then map[] else MeaningOfFirst(j, n - 1)[j.members[n - 1].key := MeaningOf(j.members[n - 1].value)]
  }

  // -----------------------------------------------------------------------------------------
  // Well-keyed values: no key twice in a struct, a map's keys in order, links point at structs
  // -----------------------------------------------------------------------------------------

  predicate DistinctKeys(ms: seq<Member>)
  {
    forall i, j :: 0 <= i < j < |ms| ==> ms[i].key != ms[j].key
  }

  predicate DistinctCells(cells: seq<Cell>)
  {
    forall i, j :: 0 <= i < j < |cells| ==> cells[i].key != cells[j].key
  }

  predicate WellKeyed(v: Value)
    decreases v
  {
    match v
    case Ptr(p) => WellKeyed(p)
    case Items(vs) => forall i :: 0 <= i < |vs| ==> WellKeyed(vs[i])
    case Entries(es, _) =>
      (forall i, j :: 0 <= i < j < |es| ==> es[i].key != es[j].key && StringLess(es[i].key, es[j].key)) &&
      forall i :: 0 <= i < |es| ==> WellKeyed(es[i].value)
    case Boxed(_, p) => WellKeyed(p)
    case Record(_) => DistinctCells(AllCells(v)) && forall i :: 0 <= i < |AllCells(v)| ==> CellKeyed(v, i)
    case LinkTo(_, _, p) => p == Nil || (p.Ptr? && p.target.Record? && WellKeyed(p))
    case _ => true
  }

  predicate CellKeyed(v: Value, i: nat)
    requires v.Record? && i < |AllCells(v)|
    decreases v, 0
  {
    assert AllCells(v)[i] in AllCells(v);
    WellKeyed(AllCells(v)[i].value)
  }

  // -----------------------------------------------------------------------------------------
  // Objects
  // -----------------------------------------------------------------------------------------

  lemma {:induction false} MeaningOfMembers(j: Json, n: nat)
    requires j.Obj? && n <= |j.members| && DistinctKeys(j.members)
    ensures forall i :: 0 <= i < n ==>
      j.members[i].key in MeaningOfFirst(j, n) &&
      MeaningOfFirst(j, n)[j.members[i].key] == MeaningOf(j.members[i].value)
    ensures forall k :: k in MeaningOfFirst(j, n) ==> exists i :: 0 <= i < n && j.members[i].key == k
    decreases n
  {
    if n == 0 {
    } else {
      MeaningOfMembers(j, n - 1);
    }
  }

  predicate MembersAgree(a: seq<Member>, b: seq<Member>)
    requires |a| == |b|
  {
    forall i :: 0 <= i < |a| ==> MeaningOf(a[i].value) == MeaningOf(b[i].value)
  }

  /** Two objects with the same keys in the same order mean the same exactly when their members do. */
  lemma {:induction false} SameKeysMeaning(a: Json, b: Json)
    requires a.Obj? && b.Obj? && |a.members| == |b.members| && DistinctKeys(a.members)
    requires forall i :: 0 <= i < |a.members| ==> a.members[i].key == b.members[i].key
    ensures MeaningOf(a) == MeaningOf(b) <==> MembersAgree(a.members, b.members)
  {
    assert DistinctKeys(b.members);
    if MembersAgree(a.members, b.members) {
      SameFirst(a, b, |a.members|);
    } else {
      var i :| 0 <= i < |a.members| && MeaningOf(a.members[i].value) != MeaningOf(b.members[i].value);
      MeaningOfMembers(a, |a.members|);
      MeaningOfMembers(b, |b.members|);
      assert MeaningOfFirst(a, |a.members|)[a.members[i].key] != MeaningOfFirst(b, |b.members|)[a.members[i].key];
    }
  }

  lemma {:induction false} SameFirst(a: Json, b: Json, n: nat)
    requires a.Obj? && b.Obj? && |a.members| == |b.members| && n <= |a.members| && MembersAgree(a.members, b.members)
    requires forall i :: 0 <= i < |a.members| ==> a.members[i].key == b.members[i].key
    ensures MeaningOfFirst(a, n) == MeaningOfFirst(b, n)
    decreases n
  {
    if n == 0 {
    } else {
      SameFirst(a, b, n - 1);
    }
  }

  // -----------------------------------------------------------------------------------------
  // Which loaded links an encoding leaves as bare ids
  // -----------------------------------------------------------------------------------------

  /** Some loaded link that the full encoding expands is left as its id under mode. */
  predicate Misses(v: Value, mode: Mode)
    decreases v, 1
  {
    match v
    case Ptr(p) => Misses(p, mode)
    case Items(vs) => exists i :: 0 <= i < |vs| && Misses(vs[i], mode)
    case Entries(es, textual) => exists i :: 0 <= i < |es| && Misses(es[i].value, EntryMode(textual, mode))
    case Boxed(_, p) => Misses(p, Unreached(mode))
    case Record(_) => exists i :: 0 <= i < |AllCells(v)| && CellMisses(v, i, mode)
    case LinkTo(_, loaded, p) => loaded && p != Nil && (mode == Plain || Misses(p, mode))
    case _ => false
  }

  predicate CellMisses(v: Value, i: nat, mode: Mode)
    requires v.Record? && i < |AllCells(v)|
    decreases v, 0
  {
    var c := AllCells(v)[i];
    assert c in AllCells(v);
    !c.omitted && Misses(c.value, CellMode(c, mode))
  }

  /** Cell i is encoded alike under a and b, as a text or in meaning. */
  predicate CellSame(v: Value, i: nat, a: Mode, b: Mode)
    requires v.Record? && i < |AllCells(v)|
  {
    var c := AllCells(v)[i];
    c.omitted || Encode(c.value, CellMode(c, a)) == Encode(c.value, CellMode(c, b))
  }

  predicate CellAgrees(v: Value, i: nat, a: Mode, b: Mode)
    requires v.Record? && i < |AllCells(v)|
  {
    var c := AllCells(v)[i];
    c.omitted || MeaningOf(Encode(c.value, CellMode(c, a))) == MeaningOf(Encode(c.value, CellMode(c, b)))
  }

  lemma {:induction false} MembersAlign(v: Value, n: nat, a: Mode, b: Mode)
    requires v.Record? && n <= |AllCells(v)|
    ensures |Members(v, n, a)| == |Members(v, n, b)|
    ensures forall i :: 0 <= i < |Members(v, n, a)| ==> Members(v, n, a)[i].key == Members(v, n, b)[i].key
    ensures MembersAgree(Members(v, n, a), Members(v, n, b)) <==> forall i :: 0 <= i < n ==> CellAgrees(v, i, a, b)
    ensures (forall i :: 0 <= i < n ==> CellSame(v, i, a, b)) ==> Members(v, n, a) == Members(v, n, b)
    decreases n
  {
    if n == 0 {
    } else {
      MembersAlign(v, n - 1, a, b);
      LastMember(v, n, a, b);
    }
  }

  lemma {:induction false} LastMember(v: Value, n: nat, a: Mode, b: Mode)
    requires v.Record? && 0 < n <= |AllCells(v)| && |Members(v, n - 1, a)| == |Members(v, n - 1, b)|
    ensures |Members(v, n, a)| == |Members(v, n, b)|
    ensures MembersAgree(Members(v, n, a), Members(v, n, b)) <==>
      MembersAgree(Members(v, n - 1, a), Members(v, n - 1, b)) && CellAgrees(v, n - 1, a, b)
    ensures Members(v, n - 1, a) == Members(v, n - 1, b) && CellSame(v, n - 1, a, b) ==>
      Members(v, n, a) == Members(v, n, b)
  {
    var ma, mb, la, lb := Members(v, n - 1, a), Members(v, n - 1, b), Members(v, n, a), Members(v, n, b);
    var c := AllCells(v)[n - 1];
    if !c.omitted {
      var x, y := Member(c.key, Encode(c.value, CellMode(c, a))), Member(c.key, Encode(c.value, CellMode(c, b)));
      assert la == ma + [x] && lb == mb + [y];
      assert la[|ma|] == x && lb[|mb|] == y;
      assert forall i :: 0 <= i < |ma| ==> la[i] == ma[i] && lb[i] == mb[i];
    } else {
      assert la == ma && lb == mb;
    }
  }

  /** The members of a struct with distinct cells have distinct keys. */
  lemma {:induction false} MembersDistinct(v: Value, n: nat, mode: Mode)
    requires v.Record? && n <= |AllCells(v)| && DistinctCells(AllCells(v))
    ensures DistinctKeys(Members(v, n, mode))
    ensures forall i :: 0 <= i < |Members(v, n, mode)| ==> IsCellKey(v, n, Members(v, n, mode)[i].key)
    decreases n
  {
    if n == 0 {
    } else {
      MembersDistinct(v, n - 1, mode);
      NextKey(v, n);
      var ms, c := Members(v, n - 1, mode), AllCells(v)[n - 1];
      DistinctPush(ms, Member(c.key, Encode(c.value, CellMode(c, mode))));
    }
  }

  lemma {:induction false} NextKey(v: Value, n: nat)
    requires v.Record? && 0 < n <= |AllCells(v)| && DistinctCells(AllCells(v))
    ensures !IsCellKey(v, n - 1, AllCells(v)[n - 1].key)
    ensures IsCellKey(v, n, AllCells(v)[n - 1].key) || AllCells(v)[n - 1].omitted
    ensures forall k :: IsCellKey(v, n - 1, k) ==> IsCellKey(v, n, k)
  {
  }

  lemma {:induction false} DistinctPush(ms: seq<Member>, m: Member)
    requires DistinctKeys(ms)
    ensures (forall i :: 0 <= i < |ms| ==> ms[i].key != m.key) ==> DistinctKeys(ms + [m])
  {
  }

  /** k is the key of one of the first n cells, and that cell is not omitted. */
  predicate IsCellKey(v: Value, n: nat, k: string)
    requires v.Record? && n <= |AllCells(v)|
  {
    exists i :: 0 <= i < n && AllCells(v)[i].key == k && !AllCells(v)[i].omitted
  }

  /** Where nothing is missed by the plain encoding, there is nothing to expand: all encodings are the same text. */
  lemma {:induction false} NothingToExpand(v: Value, mode: Mode)
    requires !Misses(v, Plain)
    ensures Encode(v, mode) == Encode(v, Plain)
    decreases v
  {
    match v {
      case Ptr(p) => NothingToExpand(p, mode);
      case Items(vs) =>
        forall i | 0 <= i < |vs| ensures Encode(vs[i], mode) == Encode(vs[i], Plain) { NothingToExpand(vs[i], mode); }
      case Entries(es, textual) =>
        forall i, m | 0 <= i < |es| ensures Encode(es[i].value, m) == Encode(es[i].value, Plain) {
          NothingToExpand(es[i].value, m);
        }
      case Boxed(_, p) => NothingToExpand(p, Unreached(mode));
      case Record(_) =>
        forall i | 0 <= i < |AllCells(v)| ensures CellSame(v, i, mode, Plain) {
          var c := AllCells(v)[i];
          assert c in AllCells(v) && !CellMisses(v, i, Plain);
          if !c.omitted {
            NothingToExpand(c.value, CellMode(c, mode));
          }
        }
        MembersAlign(v, |AllCells(v)|, mode, Plain);
      case _ =>
    }
  }

  predicate MeansTheSame(v: Value, mode: Mode)
  {
    MeaningOf(Encode(v, mode)) == MeaningOf(Encode(v, Full))
  }

  lemma {:induction false} ItemsDiffer(v: Value, mode: Mode)
    requires v.Items? && forall i :: 0 <= i < |v.elems| ==>
      (MeansTheSame(v.elems[i], mode) <==> !Misses(v.elems[i], mode))
    ensures MeansTheSame(v, mode) <==> !Misses(v, mode)
  {
    var vs, a, b := v.elems, Encode(v, mode), Encode(v, Full);
    assert forall i :: 0 <= i < |vs| ==> a.items[i] == Encode(vs[i], mode) && b.items[i] == Encode(vs[i], Full);
    ItemsMeaning(a, b);
  }

  lemma {:induction false} EntriesDiffer(v: Value, mode: Mode)
    requires v.Entries? && WellKeyed(v)
    requires var m := EntryMode(v.textual, mode);
      forall i :: 0 <= i < |v.entries| ==> (MeansTheSame(v.entries[i].value, m) <==> !Misses(v.entries[i].value, m))
    ensures MeansTheSame(v, mode) <==> !Misses(v, mode)
  {
    var es, m, a, b := v.entries, EntryMode(v.textual, mode), Encode(v, mode), Encode(v, Full);
    assert forall i :: 0 <= i < |es| ==> a.members[i] == Member(es[i].key, Encode(es[i].value, m));
    assert forall i :: 0 <= i < |es| ==> b.members[i] == Member(es[i].key, Encode(es[i].value, Full));
    SameKeysMeaning(a, b);
  }

  lemma {:induction false} RecordDiffers(v: Value, mode: Mode)
    requires v.Record? && WellKeyed(v)
    requires forall i :: 0 <= i < |AllCells(v)| ==> (CellAgrees(v, i, mode, Full) <==> !CellMisses(v, i, mode))
    ensures MeansTheSame(v, mode) <==> !Misses(v, mode)
  {
    MembersAlign(v, |AllCells(v)|, mode, Full);
    MembersDistinct(v, |AllCells(v)|, mode);
    SameKeysMeaning(Encode(v, mode), Encode(v, Full));
  }

  /** An encoding means what the full one means exactly when it misses no loaded link. */
  lemma {:induction false} MeaningDiffersByMisses(v: Value, mode: Mode)
    requires WellKeyed(v) && mode != Full
    ensures MeansTheSame(v, mode) <==> !Misses(v, mode)
    decreases v
  {
    match v {
      case Ptr(p) => MeaningDiffersByMisses(p, mode);
      case Items(vs) =>
        forall i | 0 <= i < |vs| ensures MeansTheSame(vs[i], mode) <==> !Misses(vs[i], mode) {
          MeaningDiffersByMisses(vs[i], mode);
        }
        ItemsDiffer(v, mode);
      case Entries(es, textual) =>
        var m := EntryMode(textual, mode);
        forall i | 0 <= i < |es| ensures MeansTheSame(es[i].value, m) <==> !Misses(es[i].value, m) {
          MeaningDiffersByMisses(es[i].value, m);
        }
        EntriesDiffer(v, mode);
      case Boxed(_, p) => MeaningDiffersByMisses(p, Unreached(mode));
      case Record(_) =>
        forall i | 0 <= i < |AllCells(v)| ensures CellAgrees(v, i, mode, Full) <==> !CellMisses(v, i, mode) {
          var c := AllCells(v)[i];
          assert c in AllCells(v) && CellKeyed(v, i);
          if !c.omitted {
            MeaningDiffersByMisses(c.value, CellMode(c, mode));
          }
        }
        RecordDiffers(v, mode);
      case LinkTo(id, loaded, p) =>
        if loaded && p != Nil {
          if mode == Plain {
            assert MeaningOf(Encode(p, Full)).Mapping?;
          } else {
            MeaningDiffersByMisses(p, mode);
          }
        }
      case _ =>
    }
  }

  lemma {:induction false} ItemsMeaning(a: Json, b: Json)
    requires a.Arr? && b.Arr? && |a.items| == |b.items|
    ensures MeaningOf(a) == MeaningOf(b) <==> forall i :: 0 <= i < |a.items| ==>
      MeaningOf(a.items[i]) == MeaningOf(b.items[i])
  {
    var ma, mb := MeaningOf(a).items, MeaningOf(b).items;
    assert forall i :: 0 <= i < |ma| ==> ma[i] == MeaningOf(a.items[i]) && mb[i] == MeaningOf(b.items[i]);
    if forall i :: 0 <= i < |a.items| ==> MeaningOf(a.items[i]) == MeaningOf(b.items[i]) {
      assert ma == mb;
    }
  }
}

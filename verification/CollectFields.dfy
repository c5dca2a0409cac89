/** Flattening a document type into the list of its stored fields. */
module CollectFields {
  import T = TypeGraph

  type TypeId = nat

  /** What a field's Go type means to the walk. */
  datatype FieldKind = NonStruct | ByValue(target: TypeId) | ByPointer(target: TypeId)

  /** json is the name its json tag gives, empty if it gives none; denOk says whether its den tag parses. */
  datatype Field = Field(goName: string, json: string, denOk: bool, anonymous: bool, kind: FieldKind)

  /** scalar marks time.Time; link marks a link shape. */
  datatype StructDef = StructDef(fields: seq<Field>, scalar: bool, link: bool)

  type Graph = seq<StructDef>

  datatype FieldInfo = FieldInfo(jsonName: string, goName: string, index: seq<nat>)

  predicate KindInGraph(k: FieldKind, n: nat)
  {
    k.NonStruct? || k.target < n
  }

  ghost predicate WellFormed(g: Graph)
  {
    forall t, i :: 0 <= t < |g| && 0 <= i < |g[t].fields| ==> KindInGraph(g[t].fields[i].kind, |g|)
  }

  // -----------------------------------------------------------------------------------------
  // One field
  // -----------------------------------------------------------------------------------------

  function LowerChar(c: char): char
  {
    if 'A' <= c <= 'Z' then c + 32 as char else c
  }

  function ToLower(s: string): string
  {
    seq(|s|, i requires 0 <= i < |s| => LowerChar(s[i]))
  }

  function RawName(f: Field): string
  {
    if f.json == "" then ToLower(f.goName) else f.json
  }

  predicate IsLetter(c: char)
  {
    'a' <= c <= 'z' || 'A' <= c <= 'Z' || c == '_'
  }

  /** A SQL identifier; in particular there is no dot in it. */
  predicate ValidFieldName(s: string)
  {
    s != "" && IsLetter(s[0]) && forall i :: 0 <= i < |s| ==> IsLetter(s[i]) || '0' <= s[i] <= '9'
  }

  /** Anonymous struct values are flattened into their parent and not listed themselves. */
  predicate Embedded(f: Field)
  {
    f.anonymous && f.kind.ByValue?
  }

  predicate FieldOk(f: Field)
  {
    Embedded(f) || (ValidFieldName(RawName(f)) && f.denOk)
  }

  /**
    The walk goes on inside embedded structs, and inside structs and pointers to structs that are no scalar
    and no link.
   */
  predicate Entered(g: Graph, f: Field)
  {
    !f.kind.NonStruct? && f.kind.target < |g| && (Embedded(f) || (!g[f.kind.target].scalar && !g[f.kind.target].link))
  }

  /** The name a field gets, and hands down, below a prefix. */
  function Below(prefix: string, f: Field): string
  {
    if Embedded(f) then prefix else if prefix == "" then RawName(f) else prefix + "." + RawName(f)
  }

  // -----------------------------------------------------------------------------------------
  // What belongs in the list
  // -----------------------------------------------------------------------------------------

  /** path is a reflect index path from struct t to a field that is listed, not an embedded struct. */
  predicate Leads(g: Graph, t: TypeId, path: seq<nat>)
    decreases |path|
  {
    t < |g| && path != [] && path[0] < |g[t].fields| &&
    var f := g[t].fields[path[0]];
    if |path| == 1 then !Embedded(f) else Entered(g, f) && Leads(g, f.kind.target, path[1..])
  }

  /** The struct types the path passes through, the first included. */
  function TypesAlong(g: Graph, t: TypeId, path: seq<nat>): (ts: seq<TypeId>)
    requires Leads(g, t, path)
    ensures |ts| == |path|
    decreases |path|
  {
    if |path| == 1 then [t] else [t] + TypesAlong(g, g[t].fields[path[0]].kind.target, path[1..])
  }

  /** The field the path ends at. */
  function FieldAt(g: Graph, t: TypeId, path: seq<nat>): Field
    requires Leads(g, t, path)
    decreases |path|
  {
    var f := g[t].fields[path[0]];
    if |path| == 1 then f else FieldAt(g, f.kind.target, path[1..])
  }

  /** The names of the path's fields that are not embedded. */
  function Segments(g: Graph, t: TypeId, path: seq<nat>): (names: seq<string>)
    requires Leads(g, t, path)
    ensures names != []
    decreases |path|
  {
    var f := g[t].fields[path[0]];
    if |path| == 1 then [RawName(f)]
    else (if Embedded(f) then [] else [RawName(f)]) + Segments(g, f.kind.target, path[1..])
  }

  function Join(names: seq<string>): string
    requires names != []
  {
    if |names| == 1 then names[0] else names[0] + "." + Join(names[1..])
  }

  /** The entry name of a field is its json name, or its Go name in lower case. */
  lemma {:induction false} NameOfField(f: Field)
    ensures f.json != "" ==> RawName(f) == f.json
    ensures f.json == "" ==> |RawName(f)| == |f.goName| && forall i :: 0 <= i < |f.goName| ==>
      if 'A' <= f.goName[i] <= 'Z' then
        'a' <= RawName(f)[i] <= 'z' && RawName(f)[i] as int - 'a' as int == f.goName[i] as int - 'A' as int
      else RawName(f)[i] == f.goName[i]
  {
  }

  /** A field passes if it is flattened away, or if its tag parses and its name is a SQL identifier. */
  lemma {:induction false} FieldPasses(f: Field)
    ensures FieldOk(f) <==>
      (f.anonymous && f.kind.ByValue?) ||
      (f.denOk && RawName(f) != "" && !('0' <= RawName(f)[0] <= '9') &&
       forall i :: 0 <= i < |RawName(f)| ==>
         var c := RawName(f)[i]; 'a' <= c <= 'z' || 'A' <= c <= 'Z' || c == '_' || '0' <= c <= '9')
  {
  }

  /** Field f is an embedded struct, or a struct or pointer to one that is no scalar and no link, of type u. */
  predicate StepsInto(g: Graph, f: Field, u: TypeId)
  {
    !f.kind.NonStruct? && f.kind.target == u < |g| &&
    ((f.anonymous && f.kind.ByValue?) || (!g[u].scalar && !g[u].link))
  }

  predicate WalksAt(g: Graph, path: seq<nat>, ts: seq<TypeId>, k: nat)
    requires k < |path| == |ts|
  {
    ts[k] < |g| && path[k] < |g[ts[k]].fields| &&
    var f := g[ts[k]].fields[path[k]];
    if k == |path| - 1 then !(f.anonymous && f.kind.ByValue?) else StepsInto(g, f, ts[k + 1])
  }

  /** ts are the struct types met on the way: each field but the last is one to go into, the last is listed. */
  ghost predicate Walks(g: Graph, path: seq<nat>, ts: seq<TypeId>)
  {
    |ts| == |path| > 0 && forall k :: 0 <= k < |path| ==> WalksAt(g, path, ts, k)
  }

  lemma {:induction false} WalkGoesOn(g: Graph, path: seq<nat>, ts: seq<TypeId>)
    requires Walks(g, path, ts) && |path| > 1
    ensures WalksAt(g, path, ts, 0) && Walks(g, path[1..], ts[1..])
  {
    forall k | 0 <= k < |path| - 1 ensures WalksAt(g, path[1..], ts[1..], k) {
      assert WalksAt(g, path, ts, k + 1);
    }
  }

  /** A path leads to a field if it walks from field to field like that, and ends at the last of them. */
  lemma {:induction false} LeadsIfWalks(g: Graph, t: TypeId, path: seq<nat>, ts: seq<TypeId>)
    requires Walks(g, path, ts) && ts[0] == t
    ensures Leads(g, t, path) && TypesAlong(g, t, path) == ts
    ensures WalksAt(g, path, ts, |path| - 1) &&
      FieldAt(g, t, path) == g[ts[|path| - 1]].fields[path[|path| - 1]]
    decreases |path|
  {
    assert WalksAt(g, path, ts, 0) && WalksAt(g, path, ts, |path| - 1);
    if |path| > 1 {
      WalkGoesOn(g, path, ts);
      LeadsIfWalks(g, ts[1], path[1..], ts[1..]);
    }
  }

  lemma {:induction false} WalksIfLeads(g: Graph, t: TypeId, path: seq<nat>)
    requires Leads(g, t, path)
    ensures Walks(g, path, TypesAlong(g, t, path)) && TypesAlong(g, t, path)[0] == t
    decreases |path|
  {
    if |path| > 1 {
      var u := g[t].fields[path[0]].kind.target;
      WalksIfLeads(g, u, path[1..]);
      var us, ts := TypesAlong(g, u, path[1..]), TypesAlong(g, t, path);
      forall k | 0 <= k < |path| ensures WalksAt(g, path, ts, k) {
        if k > 0 { assert WalksAt(g, path[1..], us, k - 1); }
      }
    }
  }

  /** The names of a path are those of its fields in order, without the embedded ones. */
  lemma {:induction false} SegmentsOfWalk(g: Graph, t: TypeId, path: seq<nat>, ts: seq<TypeId>)
    requires Walks(g, path, ts) && ts[0] == t
    ensures Leads(g, t, path) && WalksAt(g, path, ts, 0)
    ensures |path| == 1 ==> Segments(g, t, path) == [RawName(g[t].fields[path[0]])]
    ensures |path| > 1 ==>
      var f := g[t].fields[path[0]];
      Leads(g, ts[1], path[1..]) &&
      Segments(g, t, path) ==
        (if f.anonymous && f.kind.ByValue? then [] else [RawName(f)]) + Segments(g, ts[1], path[1..])
  {
    LeadsIfWalks(g, t, path, ts);
    assert WalksAt(g, path, ts, 0);
  }

  predicate NoRepeat(ts: seq<TypeId>)
  {
    forall i, j :: 0 <= i < j < |ts| ==> ts[i] != ts[j]
  }

  /** NoRepeat, and none of the types in seen. */
  predicate NewAlong(g: Graph, t: TypeId, path: seq<nat>, seen: set<TypeId>)
    requires Leads(g, t, path)
  {
    NoRepeat(TypesAlong(g, t, path)) && forall i :: 0 <= i < |path| ==> TypesAlong(g, t, path)[i] !in seen
  }

  lemma {:induction false} NewAlongUnfolds(g: Graph, t: TypeId, path: seq<nat>, seen: set<TypeId>)
    requires Leads(g, t, path)
    ensures |path| == 1 ==> (NewAlong(g, t, path, seen) <==> t !in seen)
    ensures |path| > 1 ==> (NewAlong(g, t, path, seen) <==>
      t !in seen && NewAlong(g, g[t].fields[path[0]].kind.target, path[1..], seen + {t}))
  {
    var ts := TypesAlong(g, t, path);
    assert ts[0] == t;
    if |path| > 1 {
      var us := TypesAlong(g, g[t].fields[path[0]].kind.target, path[1..]);
      assert ts == [t] + us;
      if NewAlong(g, t, path, seen) {
        forall i | 0 <= i < |us| ensures us[i] !in seen + {t} {
          assert ts[i + 1] == us[i] && ts[0] != ts[i + 1];
        }
        forall i, j | 0 <= i < j < |us| ensures us[i] != us[j] {
          assert ts[i + 1] == us[i] && ts[j + 1] == us[j];
        }
      }
      if t !in seen && NewAlong(g, g[t].fields[path[0]].kind.target, path[1..], seen + {t}) {
        forall i, j | 0 <= i < j < |ts| ensures ts[i] != ts[j] {
          if i > 0 { assert ts[i] == us[i - 1] && ts[j] == us[j - 1]; } else { assert ts[j] == us[j - 1]; }
        }
        forall i | 0 <= i < |ts| ensures ts[i] !in seen {
          if i > 0 { assert ts[i] == us[i - 1]; }
        }
      }
    }
  }

  /** The dotted name below a prefix. */
  function Dotted(prefix: string, names: seq<string>): string
    requires names != []
  {
    if prefix == "" then Join(names) else prefix + "." + Join(names)
  }

  /** The entry of the field that path leads to from t, when t itself sits at index path at under prefix. */
  function Info(g: Graph, t: TypeId, at: seq<nat>, prefix: string, path: seq<nat>): FieldInfo
    requires Leads(g, t, path)
  {
    FieldInfo(Dotted(prefix, Segments(g, t, path)), FieldAt(g, t, path).goName, at + path)
  }

  // -----------------------------------------------------------------------------------------
  // Listings
  // -----------------------------------------------------------------------------------------

  /** Struct before field: index paths in the order in which the fields are declared. */
  predicate Precedes(p: seq<nat>, q: seq<nat>)
  {
    q != [] && (p == [] || p[0] < q[0] || (p[0] == q[0] && Precedes(p[1..], q[1..])))
  }

  lemma {:induction false} NeverBeforeItself(p: seq<nat>)
    ensures !Precedes(p, p)
    decreases |p|
  {
    if p == [] {
    } else {
      NeverBeforeItself(p[1..]);
    }
  }

  predicate InOrder(paths: seq<seq<nat>>)
  {
    forall i, j :: 0 <= i < j < |paths| ==> Precedes(paths[i], paths[j])
  }

  /** path starts with a field in lo..hi and enters no struct type twice and none of seen. */
  predicate Due(g: Graph, t: TypeId, path: seq<nat>, seen: set<TypeId>, lo: nat, hi: nat)
  {
    Leads(g, t, path) && NewAlong(g, t, path, seen) && lo <= path[0] < hi
  }

  ghost function DuePaths(g: Graph, t: TypeId, seen: set<TypeId>, lo: nat, hi: nat): iset<seq<nat>>
  {
    iset p | Due(g, t, p, seen, lo, hi)
  }

  /** The due paths that end at a field with a bad name or tag. */
  ghost function BadPaths(g: Graph, t: TypeId, seen: set<TypeId>, lo: nat, hi: nat): iset<seq<nat>>
  {
    iset p | Due(g, t, p, seen, lo, hi) && !FieldOk(FieldAt(g, t, p))
  }

  ghost predicate IsListing(g: Graph, t: TypeId, paths: seq<seq<nat>>, seen: set<TypeId>, lo: nat, hi: nat)
  {
    InOrder(paths) && forall p :: p in paths <==> p in DuePaths(g, t, seen, lo, hi)
  }

  ghost function OkPaths(g: Graph, t: TypeId): iset<seq<nat>>
  {
    iset p | Leads(g, t, p) && FieldOk(FieldAt(g, t, p))
  }

  ghost predicate AllOk(g: Graph, t: TypeId, paths: seq<seq<nat>>)
  {
    forall p :: p in paths ==> p in OkPaths(g, t)
  }

  /** The entries of a list of paths; one that leads nowhere gets a blank entry. */
  function Infos(g: Graph, t: TypeId, at: seq<nat>, prefix: string, paths: seq<seq<nat>>): seq<FieldInfo>
  {
    seq(|paths|, k requires 0 <= k < |paths| => if Leads(g, t, paths[k]) then Info(g, t, at, prefix, paths[k])
      else FieldInfo("", "", []))
  }

  /** The paths of a field's target, seen from the struct that holds the field. */
  function Through(i: nat, qs: seq<seq<nat>>): (ps: seq<seq<nat>>)
    ensures |ps| == |qs| && forall k :: 0 <= k < |qs| ==> ps[k] == [i] + qs[k]
    ensures forall p :: p in ps <==> p != [] && p[0] == i && p[1..] in qs
  {
    var ps := seq(|qs|, k requires 0 <= k < |qs| => [i] + qs[k]);
    assert forall k :: 0 <= k < |qs| ==> ps[k][1..] == qs[k];
    assert forall p: seq<nat> :: p != [] && p[0] == i && p[1..] in qs ==> [i] + p[1..] == p;
    ps
  }

  lemma {:induction false} AdjacentListings(g: Graph, t: TypeId, a: seq<seq<nat>>, b: seq<seq<nat>>, seen: set<TypeId>,
      lo: nat, mid: nat, hi: nat)
    requires lo <= mid <= hi && IsListing(g, t, a, seen, lo, mid) && IsListing(g, t, b, seen, mid, hi)
    ensures IsListing(g, t, a + b, seen, lo, hi)
  {
    forall i, j | 0 <= i < j < |a + b| ensures Precedes((a + b)[i], (a + b)[j]) {
      if i < |a| <= j {
        assert a[i] in a && b[j - |a|] in b;
        assert Due(g, t, a[i], seen, lo, mid) && Due(g, t, b[j - |a|], seen, mid, hi);
      }
    }
  }

  /** What field i contributes: itself unless embedded, and the listing of its target if the walk enters it. */
  function FieldPaths(g: Graph, f: Field, i: nat, qs: seq<seq<nat>>): seq<seq<nat>>
  {
    (if Embedded(f) then [] else [[i]]) + if Entered(g, f) then Through(i, qs) else []
  }

  lemma {:induction false} FieldListing(g: Graph, t: TypeId, i: nat, f: Field, qs: seq<seq<nat>>, seen: set<TypeId>)
    requires t < |g| && t !in seen && i < |g[t].fields| && f == g[t].fields[i]
    requires Entered(g, f) ==> IsListing(g, f.kind.target, qs, seen + {t}, 0, |g[f.kind.target].fields|)
    ensures IsListing(g, t, FieldPaths(g, f, i, qs), seen, i, i + 1)
  {
    var inner := if Entered(g, f) then qs else [];
    assert [] !in inner;
    forall p ensures p in FieldPaths(g, f, i, qs) <==> Due(g, t, p, seen, i, i + 1) {
      FieldPathsDue(g, t, i, f, inner, seen, p);
    }
    OrderedPaths(if Embedded(f) then [] else [[i]], i, inner);
  }

  lemma {:induction false} FieldPathsDue(g: Graph, t: TypeId, i: nat, f: Field, qs: seq<seq<nat>>, seen: set<TypeId>,
      p: seq<nat>)
    requires t < |g| && t !in seen && i < |g[t].fields| && f == g[t].fields[i] && [] !in qs
    requires if Entered(g, f) then IsListing(g, f.kind.target, qs, seen + {t}, 0, |g[f.kind.target].fields|)
      else qs == []
    ensures p in FieldPaths(g, f, i, qs) <==> Due(g, t, p, seen, i, i + 1)
  {
    if p == [] || p[0] != i {
      assert !Due(g, t, p, seen, i, i + 1);
    } else if |p| == 1 {
      assert p == [i] && p[1..] == [];
      if !Embedded(f) { NewAlongUnfolds(g, t, p, seen); }
    } else {
      assert p != [i] && (p in FieldPaths(g, f, i, qs) <==> Entered(g, f) && p[1..] in qs);
      DueThrough(g, t, i, f, seen, p);
    }
  }

  /** A longer path is due when the walk enters its first field and the rest is due from there. */
  lemma {:induction false} DueThrough(g: Graph, t: TypeId, i: nat, f: Field, seen: set<TypeId>, p: seq<nat>)
    requires t < |g| && t !in seen && i < |g[t].fields| && f == g[t].fields[i] && |p| > 1 && p[0] == i
    ensures Due(g, t, p, seen, i, i + 1) <==>
      Entered(g, f) && Due(g, f.kind.target, p[1..], seen + {t}, 0, |g[f.kind.target].fields|)
  {
    if Leads(g, t, p) {
      NewAlongUnfolds(g, t, p, seen);
      assert Leads(g, f.kind.target, p[1..]);
    }
  }

  lemma {:induction false} OrderedPaths(own: seq<seq<nat>>, i: nat, qs: seq<seq<nat>>)
    requires (own == [] || own == [[i]]) && InOrder(qs) && [] !in qs
    ensures InOrder(own + Through(i, qs))
  {
    var ps := own + Through(i, qs);
    forall a, b | 0 <= a < b < |ps| ensures Precedes(ps[a], ps[b]) {
      if a < |own| {
        assert ps[a][1..] == [] && ps[b] == [i] + qs[b - |own|] && qs[b - |own|] in qs;
        assert ps[b][1..] == qs[b - |own|];
      } else {
        assert ps[a][1..] == qs[a - |own|] && ps[b][1..] == qs[b - |own|];
      }
    }
  }

  /** A repeated type contributes nothing. */
  lemma {:induction false} SeenListsNothing(g: Graph, t: TypeId, seen: set<TypeId>)
    requires t < |g| && t in seen
    ensures IsListing(g, t, [], seen, 0, |g[t].fields|)
  {
    forall p ensures !Due(g, t, p, seen, 0, |g[t].fields|) {
      if Leads(g, t, p) { NewAlongUnfolds(g, t, p, seen); }
    }
  }

  // -----------------------------------------------------------------------------------------
  // Names
  // -----------------------------------------------------------------------------------------

  /** An entry read from the target of a field is the entry read from the struct that holds the field. */
  lemma {:induction false} InfoThrough(g: Graph, t: TypeId, at: seq<nat>, prefix: string, i: nat, f: Field, q: seq<nat>)
    requires t < |g| && i < |g[t].fields| && f == g[t].fields[i]
    requires Entered(g, f) && FieldOk(f) && Leads(g, f.kind.target, q)
    ensures Leads(g, t, [i] + q) && FieldAt(g, t, [i] + q) == FieldAt(g, f.kind.target, q)
    ensures Info(g, t, at, prefix, [i] + q) == Info(g, f.kind.target, at + [i], Below(prefix, f), q)
  {
    var p := [i] + q;
    assert p[1..] == q && at + p == at + [i] + q;
    assert Leads(g, t, p);
    var rest := Segments(g, f.kind.target, q);
    if Embedded(f) {
      assert Segments(g, t, p) == rest;
    } else {
      var names := Segments(g, t, p);
      assert names == [RawName(f)] + rest && names[1..] == rest;
      assert Join(names) == RawName(f) + "." + Join(rest);
      if prefix != "" {
        assert prefix + "." + (RawName(f) + "." + Join(rest)) == prefix + "." + RawName(f) + "." + Join(rest);
      }
    }
  }

  lemma {:induction false} InfosThrough(g: Graph, t: TypeId, at: seq<nat>, prefix: string, i: nat, f: Field,
      qs: seq<seq<nat>>)
    requires t < |g| && i < |g[t].fields| && f == g[t].fields[i]
    requires Entered(g, f) && FieldOk(f) && AllOk(g, f.kind.target, qs)
    ensures AllOk(g, t, Through(i, qs))
    ensures Infos(g, t, at, prefix, Through(i, qs)) == Infos(g, f.kind.target, at + [i], Below(prefix, f), qs)
  {
    var ps := Through(i, qs);
    forall k | 0 <= k < |qs|
      ensures Leads(g, t, ps[k]) && FieldOk(FieldAt(g, t, ps[k])) &&
        Info(g, t, at, prefix, ps[k]) == Info(g, f.kind.target, at + [i], Below(prefix, f), qs[k])
    {
      assert qs[k] in qs;
      InfoThrough(g, t, at, prefix, i, f, qs[k]);
    }
  }

  lemma {:induction false} InfosAppend(g: Graph, t: TypeId, at: seq<nat>, prefix: string, a: seq<seq<nat>>,
      b: seq<seq<nat>>)
    ensures Infos(g, t, at, prefix, a + b) == Infos(g, t, at, prefix, a) + Infos(g, t, at, prefix, b)
  {
  }

  lemma {:induction false} OwnPath(g: Graph, t: TypeId, i: nat, at: seq<nat>, prefix: string, above: set<TypeId>)
    requires t < |g| && i < |g[t].fields| && t !in above && !Embedded(g[t].fields[i])
    ensures Due(g, t, [i], above, i, i + 1) && FieldAt(g, t, [i]) == g[t].fields[i]
    ensures Infos(g, t, at, prefix,
      [[i]]) == [FieldInfo(Below(prefix, g[t].fields[i]), g[t].fields[i].goName, at + [i])]
  {
    NewAlongUnfolds(g, t, [i], above);
    assert Segments(g, t, [i]) == [RawName(g[t].fields[i])];
  }

  /** The entry of field i itself; an embedded struct has none. */
  function OwnEntry(f: Field, i: nat, at: seq<nat>, prefix: string): seq<FieldInfo>
  {
    if Embedded(f) then [] else [FieldInfo(Below(prefix, f), f.goName, at + [i])]
  }

  lemma {:induction false} FieldInfos(g: Graph, t: TypeId, i: nat, f: Field, at: seq<nat>, prefix: string,
      qs: seq<seq<nat>>)
    requires t < |g| && i < |g[t].fields| && f == g[t].fields[i] && FieldOk(f)
    requires if Entered(g, f) then AllOk(g, f.kind.target, qs) else qs == []
    ensures AllOk(g, t, FieldPaths(g, f, i, qs))
    ensures Infos(g, t, at, prefix, FieldPaths(g, f, i, qs))
         == OwnEntry(f, i, at, prefix) + if qs == [] then []
           else Infos(g, f.kind.target, at + [i], Below(prefix, f), qs)
  {
    var own: seq<seq<nat>> := if Embedded(f) then [] else [[i]];
    if !Embedded(f) { OwnPath(g, t, i, at, prefix, {}); }
    if Entered(g, f) {
      InfosThrough(g, t, at, prefix, i, f, qs);
    }
    assert Infos(g, t, at, prefix, own) == OwnEntry(f, i, at, prefix);
    var rest := if Entered(g, f) then Through(i, qs) else [];
    InfosAppend(g, t, at, prefix, own, rest);
  }

  // -----------------------------------------------------------------------------------------
  // The walk
  // -----------------------------------------------------------------------------------------

  ghost function Unseen(g: Graph, seen: set<TypeId>): nat
  {
    |T.Below(|g|) - seen|
  }

  lemma {:induction false} UnseenDrops(g: Graph, seen: set<TypeId>, t: TypeId)
    requires t < |g| && t !in seen
    ensures Unseen(g, seen + {t}) < Unseen(g, seen)
  {
    assert T.Below(|g|) - seen == T.Below(|g|) - (seen + {t}) + {t};
  }

  /** The lists that are listings of lo..hi with no bad field among them. */
  ghost function Listings(g: Graph, t: TypeId, seen: set<TypeId>, lo: nat, hi: nat): iset<seq<seq<nat>>>
  {
    iset paths | IsListing(g, t, paths, seen, lo, hi) && AllOk(g, t, paths)
  }

  lemma {:induction false} EmptyListing(g: Graph, t: TypeId, seen: set<TypeId>)
    requires t < |g|
    ensures [] in Listings(g, t, seen, 0, 0)
    ensures t in seen ==> [] in Listings(g, t, seen, 0, |g[t].fields|)
  {
    if t in seen { SeenListsNothing(g, t, seen); }
  }

  /** One field and all below it, listed and described: mid is the list with the field's own entry. */
  lemma {:induction false} FieldDone(g: Graph, t: TypeId, i: nat, f: Field, at: seq<nat>, prefix: string,
      qs: seq<seq<nat>>, above: set<TypeId>, was: seq<FieldInfo>, mid: seq<FieldInfo>, now: seq<FieldInfo>)
      returns (paths: seq<seq<nat>>)
    requires t < |g| && t !in above && i < |g[t].fields| && f == g[t].fields[i] && FieldOk(f)
    requires if Entered(g, f) then qs in Listings(g, f.kind.target, above + {t}, 0, |g[f.kind.target].fields|)
      else qs == []
    requires mid == was + OwnEntry(f, i, at, prefix)
    requires now == if Entered(g, f) then mid + Infos(g, f.kind.target, at + [i], Below(prefix, f), qs) else mid
    ensures paths in Listings(g, t, above, i, i + 1) && now == was + Infos(g, t, at, prefix, paths)
  {
    FieldListing(g, t, i, f, qs, above);
    FieldInfos(g, t, i, f, at, prefix, qs);
    paths := FieldPaths(g, f, i, qs);
  }

  lemma {:induction false} NextField(g: Graph, t: TypeId, at: seq<nat>, prefix: string, a: seq<seq<nat>>,
      b: seq<seq<nat>>, above: set<TypeId>, i: nat)
    requires a in Listings(g, t, above, 0, i) && b in Listings(g, t, above, i, i + 1)
    ensures a + b in Listings(g, t, above, 0, i + 1)
    ensures Infos(g, t, at, prefix, a + b) == Infos(g, t, at, prefix, a) + Infos(g, t, at, prefix, b)
  {
    AdjacentListings(g, t, a, b, above, 0, i, i + 1);
    InfosAppend(g, t, at, prefix, a, b);
  }

  lemma {:induction false} BadBelow(g: Graph, t: TypeId, above: set<TypeId>, i: nat, bad: seq<nat>)
    requires t < |g| && i < |g[t].fields| && bad in BadPaths(g, t, above, i, i + 1)
    ensures bad in BadPaths(g, t, above, 0, |g[t].fields|)
  {
  }

  class Collector {
    const g: Graph
    var fields: seq<FieldInfo>
    var seen: set<TypeId>  // struct types on the current descent

    constructor (g: Graph)
      ensures this.g == g && fields == [] && seen == {}
    {
      this.g, fields, seen := g, [], {};
    }

    /**
      Lists, in order, every path below t that enters no type twice and none of seen, or fails because the
      field at one such path has a bad name or tag.
     */
    method CollectFields(t: TypeId, at: seq<nat>, prefix: string) returns (ok: bool, ghost paths: seq<seq<nat>>,
        ghost bad: seq<nat>)
      requires WellFormed(g) && t < |g|
      modifies this
      ensures seen == old(seen)
      ensures ok ==> paths in Listings(g, t, seen, 0, |g[t].fields|)
      ensures ok ==> fields == old(fields) + Infos(g, t, at, prefix, paths)
      ensures !ok ==> bad in BadPaths(g, t, seen, 0, |g[t].fields|)
      decreases Unseen(g, seen), 1
    {
      ok, paths, bad := true, [], [];
      EmptyListing(g, t, seen);
      if t in seen { return; }
      ghost var above := seen;
      UnseenDrops(g, seen, t);
      seen := seen + {t};
      for i := 0 to |g[t].fields|
        invariant ok && seen == above + {t}
        invariant paths in Listings(g, t, above, 0, i) && fields == old(fields) + Infos(g, t, at, prefix, paths)
      {
        ghost var some := paths;
        ok, paths, bad := CollectField(t, i, at, prefix, above);
        if !ok {
          BadBelow(g, t, above, i, bad);
          seen := seen - {t};
          return;
        }
        NextField(g, t, at, prefix, some, paths, above, i);
        paths := some + paths;
      }
      seen := seen - {t};
    }

    /** The loop body: list one field and go on inside it. */
    method CollectField(t: TypeId, i: nat, at: seq<nat>, prefix: string, ghost above: set<TypeId>)
        returns (ok: bool, ghost paths: seq<seq<nat>>, ghost bad: seq<nat>)
      requires WellFormed(g) && t < |g| && i < |g[t].fields| && t !in above && seen == above + {t}
      modifies this
      ensures seen == old(seen)
      ensures ok ==> paths in Listings(g, t, above, i, i + 1) && fields == old(fields) + Infos(g, t, at, prefix, paths)
      ensures !ok ==> bad in BadPaths(g, t, above, i, i + 1)
      decreases Unseen(g, seen), 2
    {
      var f := g[t].fields[i];
      ok, paths, bad := true, [], [i];
      if !Embedded(f) {
        if !ValidFieldName(RawName(f)) || !f.denOk {
          OwnPath(g, t, i, at, prefix, above);
          return false, [], [i];
        }
        fields := fields + [FieldInfo(Below(prefix, f), f.goName, at + [i])];
      }
      ghost var mid := fields;
      ghost var qs: seq<seq<nat>> := [];
      if Entered(g, f) {
        ok, qs, bad := CollectFields(f.kind.target, at + [i], Below(prefix, f));
        if !ok {
          BadThrough(g, t, i, f, bad, above);
          bad := [i] + bad;
          return;
        }
      }
      paths := FieldDone(g, t, i, f, at, prefix, qs, above, old(fields), mid, fields);
    }
  }

  lemma {:induction false} BadThrough(g: Graph, t: TypeId, i: nat, f: Field, bad: seq<nat>, above: set<TypeId>)
    requires t < |g| && i < |g[t].fields| && t !in above && f == g[t].fields[i]
    requires Entered(g, f) && bad in BadPaths(g, f.kind.target, above + {t}, 0, |g[f.kind.target].fields|)
    ensures [i] + bad in BadPaths(g, t, above, i, i + 1)
  {
    assert ([i] + bad)[1..] == bad;
    assert Leads(g, t, [i] + bad);
    NewAlongUnfolds(g, t, [i] + bad, above);
  }

  /**
    The field list of a document type: exactly one entry for every path whose struct types do not repeat, under
    the dotted name of its segments that are not embedded; refused exactly when one of those fields is bad.
   */
  method AnalyzeStruct(g: Graph, t: TypeId) returns (ok: bool, fields: seq<FieldInfo>)
    requires WellFormed(g) && t < |g|
    ensures ok <==> forall p :: Leads(g, t, p) && NoRepeat(TypesAlong(g, t, p)) ==> FieldOk(FieldAt(g, t, p))
    ensures ok ==> forall p :: (exists k :: 0 <= k < |fields| && fields[k].index == p) <==>
      (Leads(g, t, p) && NoRepeat(TypesAlong(g, t, p)))
    ensures ok ==> forall k :: 0 <= k < |fields| ==> Describes(g, t, fields[k])
    ensures ok ==> forall i, j :: 0 <= i < j < |fields| ==>
      Precedes(fields[i].index, fields[j].index) && fields[i].index != fields[j].index
  {
    var c := new Collector(g);
    ghost var paths, bad;
    ok, paths, bad := c.CollectFields(t, [], "");
    fields := c.fields;
    if ok {
      ListingIsComplete(g, t, paths, fields);
    } else {
      BadPathIsBad(g, t, bad);
    }
  }

  lemma {:induction false} BadPathIsBad(g: Graph, t: TypeId, bad: seq<nat>)
    requires t < |g| && bad in BadPaths(g, t, {}, 0, |g[t].fields|)
    ensures Leads(g, t, bad) && NoRepeat(TypesAlong(g, t, bad)) && !FieldOk(FieldAt(g, t, bad))
  {
    assert Due(g, t, bad, {}, 0, |g[t].fields|);
  }

  /** The entry list and the path list index the same paths. */
  lemma {:induction false} IndexedByPaths(paths: seq<seq<nat>>, fields: seq<FieldInfo>, p: seq<nat>)
    requires |fields| == |paths| && forall k :: 0 <= k < |fields| ==> fields[k].index == paths[k]
    ensures p in paths <==> exists k :: 0 <= k < |fields| && fields[k].index == p
  {
    if p in paths {
      var k :| 0 <= k < |paths| && paths[k] == p;
      assert fields[k].index == p;
    }
  }

  /** Entry k describes its own path. */
  ghost predicate Describes(g: Graph, t: TypeId, info: FieldInfo)
  {
    Leads(g, t, info.index) && info.jsonName == Join(Segments(g, t, info.index)) &&
      info.goName == FieldAt(g, t, info.index).goName
  }

  lemma {:induction false} TopLevel(g: Graph, t: TypeId, p: seq<nat>)
    requires Leads(g, t, p)
    ensures Info(g, t, [], "", p).index == p && Describes(g, t, Info(g, t, [], "", p))
  {
    assert [] + p == p;
  }

  lemma {:induction false} EntriesFollowPaths(g: Graph, t: TypeId, paths: seq<seq<nat>>, fields: seq<FieldInfo>)
    requires AllOk(g, t, paths) && fields == Infos(g, t, [], "", paths)
    ensures |fields| == |paths| && forall k :: 0 <= k < |fields| ==>
      fields[k].index == paths[k] && Describes(g, t, fields[k])
  {
    forall k | 0 <= k < |fields| ensures fields[k].index == paths[k] && Describes(g, t, fields[k]) {
      assert paths[k] in paths;
      TopLevel(g, t, paths[k]);
    }
  }

  lemma {:induction false} PathsAreDue(g: Graph, t: TypeId, paths: seq<seq<nat>>)
    requires t < |g| && IsListing(g, t, paths, {}, 0, |g[t].fields|)
    ensures forall p :: p in paths <==> (Leads(g, t, p) && NoRepeat(TypesAlong(g, t, p)))
  {
    assert forall p :: p in paths <==> Due(g, t, p, {}, 0, |g[t].fields|);
  }

  lemma {:induction false} ListingIsComplete(g: Graph, t: TypeId, paths: seq<seq<nat>>, fields: seq<FieldInfo>)
    requires t < |g| && IsListing(g, t, paths, {}, 0, |g[t].fields|) && AllOk(g, t, paths) &&
      fields == Infos(g, t, [], "", paths)
    ensures forall p :: Leads(g, t, p) && NoRepeat(TypesAlong(g, t, p)) ==> FieldOk(FieldAt(g, t, p))
    ensures forall p :: (exists k :: 0 <= k < |fields| && fields[k].index == p) <==>
      (Leads(g, t, p) && NoRepeat(TypesAlong(g, t, p)))
    ensures forall k :: 0 <= k < |fields| ==> Describes(g, t, fields[k])
    ensures forall i, j :: 0 <= i < j < |fields| ==>
      Precedes(fields[i].index, fields[j].index) && fields[i].index != fields[j].index
  {
    EntriesFollowPaths(g, t, paths, fields);
    forall i, j | 0 <= i < j < |fields|
      ensures Precedes(fields[i].index, fields[j].index) && fields[i].index != fields[j].index {
      assert Precedes(paths[i], paths[j]);
      NeverBeforeItself(paths[i]);
    }
    PathsAreDue(g, t, paths);
    forall p ensures (exists k :: 0 <= k < |fields| && fields[k].index == p) <==> p in paths {
      IndexedByPaths(paths, fields, p);
    }
  }
}

/** Go types as a finite, possibly cyclic graph, and the two depth-first walks over it. */
module TypeGraph {

  type TypeId = nat

  datatype Field = Field(name: string, exported: bool, typ: TypeId, validate: string)

  datatype Kind =
    | Scalar(isString: bool)
    | Pointer(elem: TypeId)
    | List(elem: TypeId)      // slice or array
    | Dict(elem: TypeId, textual: bool)  // map; keys are not walked, only whether they are strings
    | Interface
    | Struct(fields: seq<Field>)
    | Time                    // time.Time, a struct of the standard library

  type Graph = seq<Kind>

  predicate InGraph(k: Kind, n: nat)
  {
    match k
    case Pointer(e) => e < n
    case List(e) => e < n
    case Dict(e, _) => e < n
    case Struct(fields) => forall i :: 0 <= i < |fields| ==> fields[i].typ < n
    case _ => true
  }

  ghost predicate WellFormed(g: Graph)
  {
    forall t :: 0 <= t < |g| ==> InGraph(g[t], |g|)
  }

  /** No type is a pointer to itself through pointers only: every pointer step lowers the rank. */
  ghost predicate NoPointerCycle(g: Graph, rank: seq<nat>)
  {
    |rank| == |g| && forall t :: 0 <= t < |g| && g[t].Pointer? && g[t].elem < |g| ==> rank[g[t].elem] < rank[t]
  }

  predicate HasField(fields: seq<Field>, name: string)
  {
    exists i :: 0 <= i < |fields| && fields[i].name == name
  }

  /** A struct of at least three fields with ID, Value and Loaded among them, ID being a string. */
  predicate IsLinkShape(g: Graph, t: TypeId)
  {
    t < |g| && g[t].Struct? && |g[t].fields| >= 3 && HasField(g[t].fields, "Value") &&
      HasField(g[t].fields, "Loaded") &&
    exists i :: 0 <= i < |g[t].fields| && g[t].fields[i].name == "ID" && g[t].fields[i].typ < |g| &&
      g[g[t].fields[i].typ] == Scalar(true)
  }

  // -----------------------------------------------------------------------------------------
  // Reachability
  // -----------------------------------------------------------------------------------------

  /** One of the two walks: which fields it enters, and whether it enters time.Time. */
  datatype Walk = LinkWalk | ValidateWalk

  predicate Enters(w: Walk, f: Field)
  {
    match w
    case LinkWalk => f.exported
    case ValidateWalk => f.validate != "-"
  }

  predicate Edge(w: Walk, g: Graph, t: TypeId, u: TypeId)
  {
    t < |g| && u < |g| &&
    match g[t]
    case Pointer(e) => u == e
    case List(e) => u == e
    case Dict(e, _) => u == e
    case Struct(fields) => exists i :: 0 <= i < |fields| && fields[i].typ == u && Enters(w, fields[i])
    case _ => false
  }

  /** What the walk looks for: a link, or a struct with a tag the validator acts on. */
  predicate Goal(w: Walk, g: Graph, t: TypeId)
  {
    t < |g| &&
    match w
    case LinkWalk => IsLinkShape(g, t)
    case ValidateWalk => g[t].Struct? && exists i :: 0 <= i < |g[t].fields| && g[t].fields[i].validate !in ["-", ""]
  }

  predicate IsPath(w: Walk, g: Graph, p: seq<TypeId>)
  {
    p != [] && p[0] < |g| && forall i :: 0 <= i < |p| - 1 ==> Edge(w, g, p[i], p[i + 1])
  }

  predicate PathToGoal(w: Walk, g: Graph, t: TypeId, p: seq<TypeId>)
  {
    IsPath(w, g, p) && p[0] == t && Goal(w, g, p[|p| - 1])
  }

  ghost predicate Reaches(w: Walk, g: Graph, t: TypeId)
  {
    exists p :: PathToGoal(w, g, t, p)
  }

  lemma {:induction false} PrependEdge(w: Walk, g: Graph, t: TypeId, p: seq<TypeId>)
    requires p != [] && PathToGoal(w, g, p[0], p) && Edge(w, g, t, p[0])
    ensures PathToGoal(w, g, t, [t] + p)
  {
    forall i | 0 <= i < |p| ensures Edge(w, g, ([t] + p)[i], ([t] + p)[i + 1]) {
      if i > 0 { assert Edge(w, g, p[i - 1], p[i - 1 + 1]); }
    }
  }

  lemma {:induction false} ReachesByEdge(w: Walk, g: Graph, t: TypeId)
    ensures Reaches(w, g, t) <==> Goal(w, g, t) || exists u :: Edge(w, g, t, u) && Reaches(w, g, u)
  {
    if Goal(w, g, t) { assert PathToGoal(w, g, t, [t]); }
    if u :| Edge(w, g, t, u) && Reaches(w, g, u) {
      var p :| PathToGoal(w, g, u, p);
      PrependEdge(w, g, t, p);
    }
    if Reaches(w, g, t) && !Goal(w, g, t) {
      var p :| PathToGoal(w, g, t, p);
      var q := p[1..];
      assert Edge(w, g, p[0], p[0 + 1]);
      forall i | 0 <= i < |q| - 1 ensures Edge(w, g, q[i], q[i + 1]) { assert Edge(w, g, p[i + 1], p[i + 1 + 1]); }
      assert PathToGoal(w, g, q[0], q);
    }
  }

  /**
    A link is reached from a struct with at least the three fields of a link, ID being a string, from a struct with
    an exported field that leads to one, and through pointers and elements.
   */
  lemma {:induction false} LinkReachedFrom(g: Graph, t: TypeId)
    requires WellFormed(g) && t < |g|
    ensures Reaches(LinkWalk, g, t) <==>
      match g[t]
      case Pointer(e) => Reaches(LinkWalk, g, e)
      case List(e) => Reaches(LinkWalk, g, e)
      case Dict(e, _) => Reaches(LinkWalk, g, e)
      case Struct(fs) =>
        || (|fs| >= 3 && (exists i :: 0 <= i < |fs| && fs[i].name == "Value")
            && (exists i :: 0 <= i < |fs| && fs[i].name == "Loaded")
            && exists i :: 0 <= i < |fs| && fs[i].name == "ID" && g[fs[i].typ] == Scalar(true))
        || exists i :: 0 <= i < |fs| && fs[i].exported && Reaches(LinkWalk, g, fs[i].typ)
      case _ => false
  {
    assert InGraph(g[t], |g|);
    ReachesByEdge(LinkWalk, g, t);
    if g[t].Struct? {
      FieldEdges(LinkWalk, g, t);
    } else if g[t].Pointer? || g[t].List? || g[t].Dict? {
      assert Edge(LinkWalk, g, t, g[t].elem);
    }
  }

  /** The same for validate tags: a tag other than "-", on the struct or below a field not tagged "-". */
  lemma {:induction false} TagReachedFrom(g: Graph, t: TypeId)
    requires WellFormed(g) && t < |g|
    ensures Reaches(ValidateWalk, g, t) <==>
      match g[t]
      case Pointer(e) => Reaches(ValidateWalk, g, e)
      case List(e) => Reaches(ValidateWalk, g, e)
      case Dict(e, _) => Reaches(ValidateWalk, g, e)
      case Struct(fs) =>
        || (exists i :: 0 <= i < |fs| && fs[i].validate != "-" && fs[i].validate != "")
        || exists i :: 0 <= i < |fs| && fs[i].validate != "-" && Reaches(ValidateWalk, g, fs[i].typ)
      case _ => false
  {
    assert InGraph(g[t], |g|);
    ReachesByEdge(ValidateWalk, g, t);
    if g[t].Struct? {
      FieldEdges(ValidateWalk, g, t);
    } else if g[t].Pointer? || g[t].List? || g[t].Dict? {
      assert Edge(ValidateWalk, g, t, g[t].elem);
    }
  }

  lemma {:induction false} FieldEdges(w: Walk, g: Graph, t: TypeId)
    requires WellFormed(g) && t < |g| && g[t].Struct?
    ensures (exists u :: Edge(w, g, t, u) && Reaches(w, g, u)) <==>
      exists i :: 0 <= i < |g[t].fields| && Enters(w, g[t].fields[i]) && Reaches(w, g, g[t].fields[i].typ)
  {
    assert InGraph(g[t], |g|);
    var fs := g[t].fields;
    if i :| 0 <= i < |fs| && Enters(w, fs[i]) && Reaches(w, g, fs[i].typ) {
      assert Edge(w, g, t, fs[i].typ);
    }
  }

  /** Behind the pointers of t. */
  function Base(g: Graph, t: TypeId, ghost rank: seq<nat>): (b: TypeId)
    requires WellFormed(g) && NoPointerCycle(g, rank) && t < |g|
    ensures b < |g| && !g[b].Pointer?
    decreases rank[t]
  {
    if g[t].Pointer? then Base(g, g[t].elem, rank) else t
  }

  lemma {:induction false} PathFromBase(w: Walk, g: Graph, t: TypeId, rank: seq<nat>,
      p: seq<TypeId>) returns (q: seq<TypeId>)
    requires WellFormed(g) && NoPointerCycle(g, rank) && t < |g| && PathToGoal(w, g, Base(g, t, rank), p)
    ensures PathToGoal(w, g, t, q)
    decreases rank[t]
  {
    if g[t].Pointer? {
      q := PathFromBase(w, g, g[t].elem, rank, p);
      PrependEdge(w, g, t, q);
      q := [t] + q;
    } else {
      q := p;
    }
  }

  /** A walk has finished with u: it is no goal, and everything u leads to has been seen. */
  ghost predicate Finished(w: Walk, g: Graph, rank: seq<nat>, seen: set<TypeId>, u: TypeId)
    requires WellFormed(g) && NoPointerCycle(g, rank)
  {
    u < |g| && !g[u].Pointer? && !Goal(w, g, u) && forall v: TypeId :: Edge(w, g, u, v) ==> Base(g, v, rank) in seen
  }

  ghost predicate AllFinished(w: Walk, g: Graph, rank: seq<nat>, seen: set<TypeId>, us: set<TypeId>)
    requires WellFormed(g) && NoPointerCycle(g, rank)
  {
    forall u :: u in us ==> Finished(w, g, rank, seen, u)
  }

  /** Seeing more finishes no less. */
  lemma {:induction false} FinishedGrows(w: Walk, g: Graph, rank: seq<nat>, base: set<TypeId>, seen: set<TypeId>,
      seen': set<TypeId>)
    requires WellFormed(g) && NoPointerCycle(g, rank) && base <= seen <= seen'
    requires AllFinished(w, g, rank, seen, seen - base) && AllFinished(w, g, rank, seen', seen' - seen)
    ensures AllFinished(w, g, rank, seen', seen' - base)
  {
    forall u | u in seen' - base ensures Finished(w, g, rank, seen', u) {
      if u in seen { assert Finished(w, g, rank, seen, u); }
    }
  }

  /** From inside a finished set no goal can be reached. */
  lemma {:induction false} FinishedAvoids(w: Walk, g: Graph, rank: seq<nat>, seen: set<TypeId>, p: seq<TypeId>)
    requires WellFormed(g) && NoPointerCycle(g, rank) && AllFinished(w, g, rank, seen, seen)
    requires IsPath(w, g, p) && Base(g, p[0], rank) in seen
    ensures !Goal(w, g, p[|p| - 1])
    decreases |p|
  {
    if |p| > 1 {
      assert Edge(w, g, p[0], p[0 + 1]);
      var q := p[1..];
      forall i | 0 <= i < |q| - 1 ensures Edge(w, g, q[i], q[i + 1]) {
        assert Edge(w, g, p[i + 1], p[i + 1 + 1]);
      }
      assert Base(g, q[0], rank) in seen by {
        if g[p[0]].Pointer? {
          assert q[0] == g[p[0]].elem;
        } else {
          assert Finished(w, g, rank, seen, p[0]);
        }
      }
      FinishedAvoids(w, g, rank, seen, q);
    } else {
      assert Base(g, p[0], rank) in seen;
      if !g[p[0]].Pointer? { assert Finished(w, g, rank, seen, p[0]); }
    }
  }

  /** What a complete unsuccessful walk from t establishes. */
  lemma {:induction false} NothingFound(w: Walk, g: Graph, rank: seq<nat>, seen: set<TypeId>, t: TypeId)
    requires WellFormed(g) && NoPointerCycle(g, rank) && t < |g| && Base(g, t, rank) in seen &&
      AllFinished(w, g, rank, seen, seen)
    ensures !Reaches(w, g, t)
  {
    if p :| PathToGoal(w, g, t, p) {
      FinishedAvoids(w, g, rank, seen, p);
    }
  }

  // -----------------------------------------------------------------------------------------
  // The walks
  // -----------------------------------------------------------------------------------------

  ghost function Below(n: nat): (ts: set<TypeId>)
    ensures forall t: TypeId :: t in ts <==> t < n
  {
    if n == 0 then {} else Below(n - 1) + {n - 1}
  }

  ghost function Types(g: Graph): set<TypeId>
  {
    Below(|g|)
  }

  lemma {:induction false} SeenGrows(g: Graph, a: set<TypeId>, b: set<TypeId>)
    requires a <= b
    ensures |Types(g) - b| <= |Types(g) - a|
  {
    Fewer(Types(g) - b, Types(g) - a);
  }

  lemma {:induction false} Fewer<T>(a: set<T>, b: set<T>)
    requires a <= b
    ensures |a| <= |b|
  {
    assert b == a + (b - a);
  }

  lemma {:induction false} SeenAnother(g: Graph, seen: set<TypeId>, t: TypeId)
    requires t < |g| && t !in seen
    ensures |Types(g) - (seen + {t})| < |Types(g) - seen|
  {
    assert Types(g) - seen == Types(g) - (seen + {t}) + {t};
  }

  class Walker {
    const g: Graph
    ghost const rank: seq<nat>
    var seen: set<TypeId>

    ghost predicate Valid()
    {
      WellFormed(g) && NoPointerCycle(g, rank)
    }

    constructor (g: Graph, ghost rank: seq<nat>)
      requires WellFormed(g) && NoPointerCycle(g, rank)
      ensures Valid() && this.g == g && this.rank == rank && seen == {}
    {
      this.g, this.rank, this.seen := g, rank, {};
    }

    /** What a call leaves behind when it finds nothing: everything it newly saw is finished. */
    ghost predicate Explored(w: Walk, before: set<TypeId>, t: TypeId)
      requires Valid() && t < |g|
      reads this
    {
      before <= seen && Base(g, t, rank) in seen && AllFinished(w, g, rank, seen, seen - before)
    }

    /** computeContainsLink: types still being explored answer false. */
    method ComputeContainsLink(t0: TypeId) returns (found: bool, ghost p: seq<TypeId>)
      requires Valid() && t0 < |g|
      modifies this
      ensures old(seen) <= seen
      ensures if found then PathToGoal(LinkWalk, g, t0, p) else Explored(LinkWalk, old(seen), t0)
      decreases |Types(g) - seen|
    {
      ghost var before := seen;
      var t := Behind(t0);
      if IsLinkShape(g, t) {
        p := PathFromBase(LinkWalk, g, t0, rank, [t]);
        return true, p;
      }
      if t in seen { return false, []; }
      SeenAnother(g, seen, t);
      seen := seen + {t};
      match g[t] {
        case Struct(fields) =>
          for i := 0 to |fields|
            invariant before + {t} <= seen && AllFinished(LinkWalk, g, rank, seen, seen - (before + {t}))
            invariant forall j :: 0 <= j < i && fields[j].exported ==> Base(g, fields[j].typ, rank) in seen
          {
            if !fields[i].exported { continue; }
            ghost var mid := seen;
            SeenGrows(g, before + {t}, seen);
            found, p := ComputeContainsLink(fields[i].typ);
            if found {
              assert Edge(LinkWalk, g, t, fields[i].typ);
              PrependEdge(LinkWalk, g, t, p);
              p := PathFromBase(LinkWalk, g, t0, rank, [t] + p);
              return;
            }
            FinishedGrows(LinkWalk, g, rank, before + {t}, mid, seen);
          }
        case List(e) =>
          found, p := ComputeContainsLink(e);
          if found {
            PrependEdge(LinkWalk, g, t, p);
            p := PathFromBase(LinkWalk, g, t0, rank, [t] + p);
            return;
          }
        case Dict(e, _) =>
          found, p := ComputeContainsLink(e);
          if found {
            PrependEdge(LinkWalk, g, t, p);
            p := PathFromBase(LinkWalk, g, t0, rank, [t] + p);
            return;
          }
        case _ =>
      }
      assert Finished(LinkWalk, g, rank, seen, t);
      found, p := false, [];
    }

    /** scanValidateTags: a "-" tag also blocks the way into its field. */
    method ScanValidateTags(t0: TypeId) returns (found: bool, ghost p: seq<TypeId>)
      requires Valid() && t0 < |g|
      modifies this
      ensures old(seen) <= seen
      ensures if found then PathToGoal(ValidateWalk, g, t0, p) else Explored(ValidateWalk, old(seen), t0)
      decreases |Types(g) - seen|
    {
      ghost var before := seen;
      var t := Behind(t0);
      if t in seen { return false, []; }
      SeenAnother(g, seen, t);
      seen := seen + {t};
      match g[t] {
        case Struct(fields) =>
          for i := 0 to |fields|
            invariant before + {t} <= seen && AllFinished(ValidateWalk, g, rank, seen, seen - (before + {t}))
            invariant forall j :: 0 <= j < i ==>
              fields[j].validate == "-" || (fields[j].validate == "" && Base(g, fields[j].typ, rank) in seen)
          {
            var tag := fields[i].validate;
            if tag == "-" { continue; }
            if tag != "" {
              p := PathFromBase(ValidateWalk, g, t0, rank, [t]);
              return true, p;
            }
            ghost var mid := seen;
            SeenGrows(g, before + {t}, seen);
            found, p := ScanValidateTags(fields[i].typ);
            if found {
              assert Edge(ValidateWalk, g, t, fields[i].typ);
              PrependEdge(ValidateWalk, g, t, p);
              p := PathFromBase(ValidateWalk, g, t0, rank, [t] + p);
              return;
            }
            FinishedGrows(ValidateWalk, g, rank, before + {t}, mid, seen);
          }
        case List(e) =>
          found, p := ScanValidateTags(e);
          if found {
            PrependEdge(ValidateWalk, g, t, p);
            p := PathFromBase(ValidateWalk, g, t0, rank, [t] + p);
            return;
          }
        case Dict(e, _) =>
          found, p := ScanValidateTags(e);
          if found {
            PrependEdge(ValidateWalk, g, t, p);
            p := PathFromBase(ValidateWalk, g, t0, rank, [t] + p);
            return;
          }
        case _ =>
      }
      assert Finished(ValidateWalk, g, rank, seen, t);
      found, p := false, [];
    }

    /** The loop that strips pointers. */
    method Behind(t0: TypeId) returns (t: TypeId)
      requires Valid() && t0 < |g|
      ensures t == Base(g, t0, rank)
    {
      t := t0;
      while g[t].Pointer?
        invariant t < |g| && Base(g, t, rank) == Base(g, t0, rank)
        decreases rank[t]
      {
        t := g[t].elem;
      }
    }
  }

  /** The cached entry point. Only answers of complete walks are stored, so every stored answer is exact. */
  class LinkTypeCache {
    const g: Graph
    ghost const rank: seq<nat>
    var cache: map<TypeId, bool>

    ghost predicate Valid()
      reads this
    {
      WellFormed(g) && NoPointerCycle(g, rank) && forall t :: t in cache ==> (cache[t] <==> Reaches(LinkWalk, g, t))
    }

    constructor (g: Graph, ghost rank: seq<nat>)
      requires WellFormed(g) && NoPointerCycle(g, rank)
      ensures Valid() && this.g == g && this.rank == rank && cache == map[]
    {
      this.g, this.rank, this.cache := g, rank, map[];
    }

    method TypeContainsLink(t: TypeId) returns (found: bool)
      requires Valid() && t < |g|
      modifies this
      ensures Valid() && (found <==> Reaches(LinkWalk, g, t)) && cache == old(cache)[t := found]
    {
      if t in cache { return cache[t]; }
      var walker := new Walker(g, rank);
      ghost var p;
      found, p := walker.ComputeContainsLink(t);
      if !found {
        NothingFound(LinkWalk, g, rank, walker.seen, t);
      }
      cache := cache[t := found];
    }
  }

  /** Whether the write path may skip the validator for documents of type t. */
  method HasValidateTags(g: Graph, ghost rank: seq<nat>, t: TypeId) returns (found: bool)
    requires WellFormed(g) && NoPointerCycle(g, rank) && t < |g|
    ensures found <==> Reaches(ValidateWalk, g, t)
  {
    var walker := new Walker(g, rank);
    ghost var p;
    found, p := walker.ScanValidateTags(t);
    if !found {
      NothingFound(ValidateWalk, g, rank, walker.seen, t);
    }
  }
}

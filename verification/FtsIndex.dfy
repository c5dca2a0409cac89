/** The FTS5 index of a collection: created once, backfilled once, and kept in step by triggers. */
module FtsIndex {
  import opened Options

  type RowId = nat
  type Path = string
  type Token = string

  /** A document as the extraction expressions see it: the tokens at each path, none where it is NULL. */
  type Doc = map<Path, seq<Token>>

  datatype Row = Row(id: string, data: Doc)

  /** One occurrence of a token. */
  datatype Posting = Posting(row: RowId, column: nat, position: nat, token: Token)

  /** The virtual table: its columns, fixed when it is created, and its inverted index. */
  datatype Fts = Fts(paths: seq<Path>, index: multiset<Posting>)

  /** The three triggers; each remembers the paths it was created with. */
  datatype Triggers = Triggers(onInsert: Option<seq<Path>>, onDelete: Option<seq<Path>>, onUpdate: Option<seq<Path>>)

  datatype Db = Db(rows: map<RowId, Row>, fts: Option<Fts>, triggers: Triggers)

  function Extract(d: Doc, p: Path): seq<Token>
  {
    if p in d then d[p] else []
  }

  /** What one row contributes to an index over these paths. */
  function Postings(r: RowId, d: Doc, paths: seq<Path>): (ps: set<Posting>)
    ensures forall p :: p in ps <==>
      p.row == r && p.column < |paths| && p.position < |Extract(d, paths[p.column])| &&
        Extract(d, paths[p.column])[p.position] == p.token
  {
    set c, i | 0 <= c < |paths| && 0 <= i < |Extract(d, paths[c])| :: Posting(r, c, i, Extract(d, paths[c])[i])
  }

  // -----------------------------------------------------------------------------------------
  // What the index should hold
  // -----------------------------------------------------------------------------------------

  /** How often a posting belongs in an index of these rows. */
  function Expected(rows: map<RowId, Row>, paths: seq<Path>, p: Posting): nat
  {
    if p.row in rows && p in Postings(p.row, rows[p.row].data, paths) then 1 else 0
  }

  ghost predicate Exact(rows: map<RowId, Row>, fts: Fts)
  {
    forall p :: fts.index[p] == Expected(rows, fts.paths, p)
  }

  /** Either full-text search was never set up, or the index is exact and all three triggers feed it. */
  ghost predicate InSync(db: Db)
  {
    match db.fts
    case None => db.triggers == Triggers(None, None, None)
    case Some(fts) => Exact(db.rows, fts) && db.triggers == Triggers(Some(fts.paths), Some(fts.paths), Some(fts.paths))
  }

  // -----------------------------------------------------------------------------------------
  // Statements, with the triggers they fire
  // -----------------------------------------------------------------------------------------

  /** INSERT INTO the virtual table. */
  function IndexRow(db: Db, r: RowId, d: Doc, paths: seq<Path>): Db
  {
    if db.fts.None? then db else
      db.(fts := Some(db.fts.value.(index := db.fts.value.index + multiset(Postings(r, d, paths)))))
  }

  /** The 'delete' command of the virtual table: it is told what to take out. */
  function UnindexRow(db: Db, r: RowId, d: Doc, paths: seq<Path>): Db
  {
    if db.fts.None? then db else
      db.(fts := Some(db.fts.value.(index := db.fts.value.index - multiset(Postings(r, d, paths)))))
  }

  function FireInsert(db: Db, r: RowId, d: Doc): Db
  {
    if db.triggers.onInsert.None? then db else IndexRow(db, r, d, db.triggers.onInsert.value)
  }

  function FireDelete(db: Db, r: RowId, d: Doc): Db
  {
    if db.triggers.onDelete.None? then db else UnindexRow(db, r, d, db.triggers.onDelete.value)
  }

  function FireUpdate(db: Db, r: RowId, was: Doc, d: Doc): Db
  {
    if db.triggers.onUpdate.None? then db
    else IndexRow(UnindexRow(db, r, was, db.triggers.onUpdate.value), r, d, db.triggers.onUpdate.value)
  }

  /** The row with the given document id, if any. */
  ghost predicate RowOf(db: Db, id: string, r: RowId)
  {
    r in db.rows && db.rows[r].id == id
  }

  /** INSERT ... ON CONFLICT(id) DO UPDATE: r is the row of that id, or a row id not in use. */
  function Upsert(db: Db, r: RowId, id: string, d: Doc): Db
  {
    var rows := db.rows[r := Row(id, d)];
    if r in db.rows then FireUpdate(db, r, db.rows[r].data, d).(rows := rows)
    else FireInsert(db, r, d).(rows := rows)
  }

  /** DELETE of one row; the trigger fires before it. */
  function Remove(db: Db, r: RowId): Db
  {
    if r !in db.rows then db
    else FireDelete(db, r, db.rows[r].data).(rows := map x | x in db.rows && x != r :: db.rows[x])
  }

  /** CREATE TRIGGER IF NOT EXISTS, three times. */
  function CreateTriggers(db: Db, paths: seq<Path>): Db
  {
    var t := db.triggers;
    db.(triggers := Triggers(
      if t.onInsert.None? then Some(paths) else t.onInsert,
      if t.onDelete.None? then Some(paths) else t.onDelete,
      if t.onUpdate.None? then Some(paths) else t.onUpdate))
  }

  /** As Expected, with the rows in rest not counted yet. */
  function ExpectedOutside(db: Db, rest: set<RowId>, p: Posting): nat
    requires db.fts.Some?
  {
    if p.row in rest then 0 else Expected(db.rows, db.fts.value.paths, p)
  }

  /** INSERT INTO the virtual table SELECT from every row. */
  ghost predicate Backfilled(before: Db, after: Db)
  {
    before.fts.Some? && after.fts.Some? && after == before.(fts := after.fts) &&
      after.fts.value.paths == before.fts.value.paths &&
    forall p :: after.fts.value.index[p] == before.fts.value.index[p] + Expected(before.rows, before.fts.value.paths, p)
  }

  lemma {:induction false} IndexedAt(i: multiset<Posting>, s: set<Posting>, p: Posting)
    ensures (i + multiset(s))[p] == i[p] + if p in s then 1 else 0
    ensures i[p] >= 1 || p !in s ==> (i - multiset(s))[p] == i[p] - if p in s then 1 else 0
  {
    assert multiset(s)[p] == if p in s then 1 else 0;
  }

  /** Writing a row keeps the index exact. */
  lemma {:induction false} UpsertInSync(db: Db, r: RowId, id: string, d: Doc)
    requires InSync(db)
    ensures InSync(Upsert(db, r, id, d)) && Upsert(db, r, id, d).rows == db.rows[r := Row(id, d)]
    ensures Upsert(db, r, id, d).fts.Some? <==> db.fts.Some?
    ensures db.fts.Some? ==> Upsert(db, r, id, d).fts.value.paths == db.fts.value.paths
  {
    if db.fts.Some? {
      var fts, paths, db' := db.fts.value, db.fts.value.paths, Upsert(db, r, id, d);
      forall p ensures db'.fts.value.index[p] == Expected(db'.rows, paths, p) {
        if r in db.rows {
          var was := Postings(r, db.rows[r].data, paths);
          IndexedAt(fts.index, was, p);
          IndexedAt(fts.index - multiset(was), Postings(r, d, paths), p);
        } else {
          IndexedAt(fts.index, Postings(r, d, paths), p);
        }
      }
    }
  }

  lemma {:induction false} RemoveInSync(db: Db, r: RowId)
    requires InSync(db)
    ensures InSync(Remove(db, r)) && Remove(db, r).rows.Keys == db.rows.Keys - {r}
    ensures forall x :: x in db.rows && x != r ==> Remove(db, r).rows[x] == db.rows[x]
    ensures Remove(db, r).fts.Some? <==> db.fts.Some?
    ensures db.fts.Some? ==> Remove(db, r).fts.value.paths == db.fts.value.paths
  {
    if db.fts.Some? && r in db.rows {
      var fts, paths, db' := db.fts.value, db.fts.value.paths, Remove(db, r);
      forall p ensures db'.fts.value.index[p] == Expected(db'.rows, paths, p) {
        IndexedAt(fts.index, Postings(r, db.rows[r].data, paths), p);
      }
    }
  }

  // -----------------------------------------------------------------------------------------
  // The backend
  // -----------------------------------------------------------------------------------------

  /** Where a first creation fails, if it does. */
  datatype Fault = NoFault | AtBegin | AtCreate | AtTrigger | AtBackfill | AtCommit

  /** The primary key: no two rows share an id. */
  ghost predicate UniqueIds(rows: map<RowId, Row>)
  {
    forall a, b :: a in rows && b in rows && rows[a].id == rows[b].id ==> a == b
  }

  class Backend {
    var db: Db

    ghost predicate Valid()
      reads this
    {
      InSync(db) && UniqueIds(db.rows)
    }

    constructor (rows: map<RowId, Row>)
      requires UniqueIds(rows)
      ensures db == Db(rows, None, Triggers(None, None, None)) && Valid()
    {
      db := Db(rows, None, Triggers(None, None, None));
    }

    /** Look for the table, then either make sure of the triggers or create everything. */
    method EnsureFTS(paths: seq<Path>, fault: Fault) returns (ok: bool)
      requires Valid()
      modifies this
      ensures Valid() && db.rows == old(db).rows
      ensures old(db).fts.Some? ==> db == old(db)
      ensures old(db).fts.None? ==> (ok <==> fault == NoFault)
      ensures old(db).fts.None? ==> if ok then db.fts.Some? && db.fts.value.paths == paths else db == old(db)
    {
      if db.fts.Some? {
        if fault == AtTrigger { return false; }
        db := CreateTriggers(db, paths);
        return true;
      }
      ok := FirstCreation(paths, fault);
    }

    /**
      Table, triggers and backfill in one transaction. It may come too late: another registration may have
      created the table since the check.
     */
    method FirstCreation(paths: seq<Path>, fault: Fault) returns (ok: bool)
      requires Valid()
      modifies this
      ensures Valid() && db.rows == old(db).rows
      ensures ok <==> old(db).fts.None? && fault == NoFault
      ensures if ok then db.fts.Some? && db.fts.value.paths == paths else db == old(db)
    {
      ok := false;
      if fault == AtBegin { return; }
      var saved := db;
      if fault == AtCreate || db.fts.Some? { db := saved; return; }
      db := db.(fts := Some(Fts(paths, multiset{})));
      if fault == AtTrigger { db := saved; return; }
      db := CreateTriggers(db, paths);
      if fault == AtBackfill { db := saved; return; }
      Backfill();
      if fault == AtCommit { db := saved; return; }
      ok := true;
    }

    method Backfill()
      requires db.fts.Some?
      modifies this
      ensures Backfilled(old(db), db)
    {
      ghost var before := db;
      var rest := db.rows.Keys;
      while rest != {}
        invariant db.fts.Some? && db == before.(fts := db.fts) && db.fts.value.paths == before.fts.value.paths &&
          rest <= db.rows.Keys
        invariant forall p: Posting ::
          db.fts.value.index[p] == before.fts.value.index[p] + ExpectedOutside(before, rest, p)
        decreases |rest|
      {
        var r :| r in rest;
        ghost var i, ps := db.fts.value.index, Postings(r, db.rows[r].data, db.fts.value.paths);
        db := IndexRow(db, r, db.rows[r].data, db.fts.value.paths);
        forall p: Posting ensures db.fts.value.index[p] == i[p] + if p in ps then 1 else 0 {
          IndexedAt(i, ps, p);
        }
        rest := rest - {r};
      }
    }

    /** The prepared put statement. */
    method Put(id: string, d: Doc, unused: RowId) returns (r: RowId)
      requires Valid() && unused !in db.rows
      modifies this
      ensures Valid() && RowOf(db, id, r) && db.rows == old(db).rows[r := Row(id, d)]
      ensures forall x :: RowOf(old(db), id, x) ==> r == x
      ensures old(db).fts.Some? ==> db.fts.Some? && db.fts.value.paths == old(db).fts.value.paths
    {
      r := unused;
      if x :| x in db.rows && db.rows[x].id == id {
        assert RowOf(db, id, x);
        r := x;
      }
      UpsertInSync(db, r, id, d);
      db := Upsert(db, r, id, d);
    }

    /** The prepared delete statement. */
    method Delete(id: string)
      requires Valid()
      modifies this
      ensures Valid() && forall x :: x in db.rows <==> x in old(db).rows && old(db).rows[x].id != id
      ensures forall x :: x in db.rows ==> db.rows[x] == old(db).rows[x]
      ensures old(db).fts.Some? ==> db.fts.Some? && db.fts.value.paths == old(db).fts.value.paths
    {
      if r :| r in db.rows && db.rows[r].id == id {
        assert RowOf(db, id, r);
        RemoveInSync(db, r);
        db := Remove(db, r);
      }
    }
  }

  // -----------------------------------------------------------------------------------------
  // Runs
  // -----------------------------------------------------------------------------------------

  datatype Write = PutRow(r: RowId, id: string, data: Doc) | DeleteRow(r: RowId)

  /**
    A write transaction of any statements, committed or rolled back; a registration that found the table; a
    registration that did not, whose creation succeeds or fails.
   */
  datatype Event =
    | Transaction(writes: seq<Write>, committed: bool)
    | Reregister(paths: seq<Path>)
    | Create(paths: seq<Path>, fault: Fault)

  function ApplyAll(db: Db, ws: seq<Write>): Db
    decreases |ws|
  {
    if ws == [] then db else
      ApplyAll(match ws[0] case PutRow(r, id, d) => Upsert(db, r, id, d) case DeleteRow(r) => Remove(db, r), ws[1..])
  }

  ghost predicate Occurs(db: Db, e: Event, db': Db)
  {
    match e
    case Transaction(ws, committed) => db' == if committed then ApplyAll(db, ws) else db
    case Reregister(paths) => db.fts.Some? && db' == CreateTriggers(db, paths)
    case Create(paths, fault) =>
      if fault == NoFault && db.fts.None? then
        Backfilled(CreateTriggers(db.(fts := Some(Fts(paths, multiset{}))), paths), db')
      else db' == db
  }

  ghost predicate IsRun(dbs: seq<Db>, es: seq<Event>)
  {
    |dbs| == |es| + 1 && forall i :: 0 <= i < |es| ==> Occurs(dbs[i], es[i], dbs[i + 1])
  }

  lemma {:induction false} WritesInSync(db: Db, ws: seq<Write>)
    requires InSync(db)
    ensures InSync(ApplyAll(db, ws)) && (ApplyAll(db, ws).fts.Some? <==> db.fts.Some?)
    ensures db.fts.Some? ==> ApplyAll(db, ws).fts.value.paths == db.fts.value.paths
    decreases |ws|
  {
    if ws == [] {
    } else {
      match ws[0] {
        case PutRow(r, id, d) =>
          UpsertInSync(db, r, id, d);
          WritesInSync(Upsert(db, r, id, d), ws[1..]);
        case DeleteRow(r) =>
          RemoveInSync(db, r);
          WritesInSync(Remove(db, r), ws[1..]);
      }
    }
  }

  lemma {:induction false} EventInSync(db: Db, e: Event, db': Db)
    requires InSync(db) && Occurs(db, e, db')
    ensures InSync(db') && (db.fts.Some? ==> db'.fts.Some? && db'.fts.value.paths == db.fts.value.paths)
    ensures e.Create? ==> if e.fault == NoFault && db.fts.None? then db'.fts.Some? && db'.fts.value.paths == e.paths &&
      db'.rows == db.rows else db' == db
  {
    if e.Transaction? {
      WritesInSync(db, e.writes);
    }
  }

  /**
    Over every run from a database without full-text search, the index is exact whenever there is one, and its
    columns are those of the registration that created it: later registrations with other fields do not change them.
   */
  lemma {:induction false} IndexStaysExact(dbs: seq<Db>, es: seq<Event>, k: nat, n: nat)
    requires IsRun(dbs, es) && InSync(dbs[0]) && k <= n <= |es|
    ensures InSync(dbs[n]) && InSync(dbs[k])
    ensures dbs[k].fts.Some? ==> dbs[n].fts.Some? && dbs[n].fts.value.paths == dbs[k].fts.value.paths
    decreases n
  {
    if n == 0 {
    } else {
      assert Occurs(dbs[n - 1], es[n - 1], dbs[n - 1 + 1]);
      IndexStaysExact(dbs, es, if k == n then n - 1 else k, n - 1);
      EventInSync(dbs[n - 1], es[n - 1], dbs[n]);
    }
  }

  /** The document has the token at this path. */
  predicate HasToken(d: Doc, p: Path, token: Token)
  {
    p in d && token in d[p]
  }

  /**
    An index in sync holds one posting for every place where a row has a token at an indexed path, and nothing else;
    its triggers are all there and over the same paths.
   */
  lemma {:induction false} IndexHolds(db: Db, p: Posting)
    requires InSync(db) && db.fts.Some?
    ensures var paths := db.fts.value.paths;
      && db.triggers == Triggers(Some(paths), Some(paths), Some(paths))
      && db.fts.value.index[p] ==
         if p.row in db.rows && p.column < |paths| && paths[p.column] in db.rows[p.row].data &&
           p.position < |db.rows[p.row].data[paths[p.column]]| &&
           db.rows[p.row].data[paths[p.column]][p.position] == p.token then 1 else 0
  {
    assert db.fts.value.index[p] == Expected(db.rows, db.fts.value.paths, p);
  }

  /** A MATCH on one token finds exactly the rows that have it in an indexed field. */
  lemma {:induction false} SearchIsExact(db: Db, token: Token, r: RowId)
    requires InSync(db) && db.fts.Some?
    ensures (exists p :: p in db.fts.value.index && p.row == r && p.token == token) <==>
      (r in db.rows &&
       exists c :: 0 <= c < |db.fts.value.paths| && HasToken(db.rows[r].data, db.fts.value.paths[c], token))
  {
    var fts := db.fts.value;
    if p :| p in fts.index && p.row == r && p.token == token {
      FoundIsThere(db, p);
    }
    if r in db.rows {
      if c :| 0 <= c < |fts.paths| && HasToken(db.rows[r].data, fts.paths[c], token) {
        var p := ThereIsFound(db, token, r, c);
      }
    }
  }

  lemma {:induction false} FoundIsThere(db: Db, p: Posting)
    requires InSync(db) && db.fts.Some? && p in db.fts.value.index
    ensures p.row in db.rows && p.column < |db.fts.value.paths|
    ensures HasToken(db.rows[p.row].data, db.fts.value.paths[p.column], p.token)
  {
    assert Expected(db.rows, db.fts.value.paths, p) == 1;
  }

  lemma {:induction false} ThereIsFound(db: Db, token: Token, r: RowId, c: nat) returns (p: Posting)
    requires InSync(db) && db.fts.Some? && r in db.rows && c < |db.fts.value.paths|
    requires HasToken(db.rows[r].data, db.fts.value.paths[c], token)
    ensures p in db.fts.value.index && p.row == r && p.token == token
  {
    var words := Extract(db.rows[r].data, db.fts.value.paths[c]);
    var i :| 0 <= i < |words| && words[i] == token;
    p := Posting(r, c, i, token);
    assert Expected(db.rows, db.fts.value.paths, p) == 1;
  }

  // -----------------------------------------------------------------------------------------
  // Fields registered later
  // -----------------------------------------------------------------------------------------

  /** A MATCH on the token returns row r. */
  ghost predicate FindsRow(db: Db, token: Token, r: RowId)
  {
    db.fts.Some? && exists p :: p in db.fts.value.index && p.row == r && p.token == token
  }

  /** Every row that has a token in one of these fields is found by it. */
  ghost predicate Covers(db: Db, paths: seq<Path>)
  {
    forall r, token, p :: r in db.rows && p in paths && HasToken(db.rows[r].data, p, token) ==> FindsRow(db, token, r)
  }

  /** Runs that create the index over cols and end with a registration of the fields paths. */
  ghost predicate Reregisters(dbs: seq<Db>, es: seq<Event>, cols: seq<Path>, paths: seq<Path>)
  {
    IsRun(dbs, es) && InSync(dbs[0]) && dbs[0].fts.None? && |es| > 1 &&
    es[0] == Create(cols, NoFault) && es[|es| - 1] == Reregister(paths)
  }

  /** After any such run the index covers the fields registered last. */
  ghost predicate StaysComplete(cols: seq<Path>, paths: seq<Path>)
  {
    forall dbs, es :: Reregisters(dbs, es, cols, paths) ==> Covers(dbs[|es|], paths)
  }

  lemma {:induction false} ColumnsAreTheFirst(dbs: seq<Db>, es: seq<Event>, cols: seq<Path>, paths: seq<Path>)
    requires Reregisters(dbs, es, cols, paths)
    ensures InSync(dbs[|es|]) && dbs[|es|].fts.Some? && dbs[|es|].fts.value.paths == cols
  {
    assert Occurs(dbs[0], es[0], dbs[0 + 1]);
    EventInSync(dbs[0], es[0], dbs[1]);
    IndexStaysExact(dbs, es, 1, |es|);
  }

  lemma {:induction false} ColumnsAreCovered(db: Db, paths: seq<Path>)
    requires InSync(db) && db.fts.Some? && forall p :: p in paths ==> p in db.fts.value.paths
    ensures Covers(db, paths)
  {
    forall r, token, p | r in db.rows && p in paths && HasToken(db.rows[r].data, p, token)
      ensures FindsRow(db, token, r)
    {
      var c :| 0 <= c < |db.fts.value.paths| && db.fts.value.paths[c] == p;
      SearchIsExact(db, token, r);
    }
  }

  /** One document with a token in field p only, in an index created over cols. */
  lemma {:induction false} LaterFieldRun(cols: seq<Path>, paths: seq<Path>, p: Path)
    returns (dbs: seq<Db>, es: seq<Event>)
    ensures Reregisters(dbs, es, cols, paths) && 0 in dbs[|es|].rows && dbs[|es|].rows[0].data == map[p := ["t"]]
  {
    var none := Db(map[], None, Triggers(None, None, None));
    var created := Db(map[], Some(Fts(cols, multiset{})), Triggers(Some(cols), Some(cols), Some(cols)));
    var put := PutRow(0, "x", map[p := ["t"]]);
    var filled := ApplyAll(created, [put]);
    assert Occurs(none, Create(cols, NoFault), created);
    assert [put][1..] == [];
    assert ApplyAll(created, [put]) == ApplyAll(Upsert(created, 0, "x", map[p := ["t"]]), [put][1..]);
    UpsertInSync(created, 0, "x", map[p := ["t"]]);
    dbs := [none, created, filled, CreateTriggers(filled, paths)];
    es := [Create(cols, NoFault), Transaction([put], true), Reregister(paths)];
  }

  lemma {:induction false} LaterFieldIsMissed(cols: seq<Path>, paths: seq<Path>, p: Path)
    requires p in paths && p !in cols
    ensures !StaysComplete(cols, paths)
  {
    var dbs, es := LaterFieldRun(cols, paths, p);
    var db := dbs[|es|];
    ColumnsAreTheFirst(dbs, es, cols, paths);
    SearchIsExact(db, "t", 0);
    assert HasToken(db.rows[0].data, p, "t") && !FindsRow(db, "t", 0);
  }

  /** Registering fields again leaves an index that covers them exactly when it was created with all of them. */
  lemma {:induction false} CompleteIffFieldsAreColumns(cols: seq<Path>, paths: seq<Path>)
    ensures StaysComplete(cols, paths) <==> forall p :: p in paths ==> p in cols
  {
    if forall p :: p in paths ==> p in cols {
      forall dbs, es | Reregisters(dbs, es, cols, paths) ensures Covers(dbs[|es|], paths) {
        ColumnsAreTheFirst(dbs, es, cols, paths);
        ColumnsAreCovered(dbs[|es|], paths);
      }
    } else {
      var p :| p in paths && p !in cols;
      LaterFieldIsMissed(cols, paths, p);
    }
  }

  /** A field tagged for search after the index was created is not searched. */
  lemma {:induction false} NewFieldIsNotSearched()
    ensures !StaysComplete(["title"], ["title", "body"])
  {
    assert ["title", "body"][1] == "body" && "body" != "title";
    LaterFieldIsMissed(["title"], ["title", "body"], "body");
  }
}

/**
  Many clients over one revisioned collection: loads, edits, inserts, Saves and soft Deletes, with
  write transactions that exclude one another and may hold any number of writes.

  Ghost version numbers say which write produced a stored row and which version a document in memory
  stands for. The code only ever compares revision strings; that these identify versions is what has
  to be proved, from each drawn revision being new for its document.
 */
module RevisionProtocol {
  import opened Options
  import opened Revision

  type Client = nat
  type Ver = nat

  /** A stored row: its content, and the write that produced it. */
  datatype Stored = Stored(row: Row, ver: Ver)

  /** A document in a client's memory, and the version it was loaded from or last written as. */
  datatype Copy = Copy(row: Row, ver: Ver)

  /** One committed write: what was in the store, what the writer had in hand, and what replaced it. */
  datatype Write = Write(id: Id, client: Client, replaced: Option<Ver>, loaded: Option<Ver>, ver: Ver, deleted: bool)

  datatype Tx = Tx(client: Client, rows: map<Id, Stored>, writes: seq<Write>)

  datatype State = State(
    rows: map<Id, Stored>,
    history: seq<Write>,
    tx: Option<Tx>,
    copies: map<(Client, Id), Copy>,
    nextVer: Ver,
    issued: map<(Id, string), Ver>)  // ghost bookkeeping: the version each revision of a document was drawn for

  datatype Action =
    | Load(id: Id)
    | Edit(id: Id, body: string, deletedAt: Option<int>)
    | Begin
    | Insert(id: Id, body: string, rev: string, now: int)
    | Save(id: Id, rev: string, now: int, putOk: bool)
    | SoftDelete(id: Id, actor: string, reason: string, rev: string, now: int, putOk: bool)
    | Commit
    | Rollback

  /** A document that the caller made and has not saved. */
  function Unsaved(body: string): Row
  {
    Row("", 0, 0, None, "", "", body)
  }

  /** The rows without the ghost version numbers. */
  function Contents(rows: map<Id, Stored>): Rows
  {
    map id | id in rows :: rows[id].row
  }

  function View(s: State, c: Client): map<Id, Stored>
  {
    if s.tx.Some? && s.tx.value.client == c then s.tx.value.rows else s.rows
  }

  predicate InTx(s: State, c: Client)
  {
    s.tx.Some? && s.tx.value.client == c
  }

  /** A write that passed its check: the in-memory revision changes, and the row too unless the put fails. */
  function Written(s: State, c: Client, id: Id, row: Row, putOk: bool): State
    requires InTx(s, c) && id in s.tx.value.rows && (c, id) in s.copies
  {
    var tx := s.tx.value;
    var before := tx.rows[id];
    var ver := s.nextVer;
    var w := Write(id, c, Some(before.ver), Some(s.copies[(c, id)].ver), ver, row.deletedAt.Some?);
    s.(tx := if putOk then Some(Tx(c, tx.rows[id := Stored(row, ver)], tx.writes + [w])) else s.tx,
       copies := s.copies[(c, id) := Copy(row, ver)],
       nextVer := ver + 1,
       issued := s.issued[(id, row.rev) := ver])
  }

  /**
    One step of client c, or None where it is not enabled; Save and Delete send a document without an id
    elsewhere. A refused write changes nothing.
   */
  function Apply(s: State, c: Client, a: Action): Option<State>
  {
    match a
    case Load(id) =>
      var v := View(s, c);
      if id !in v then None else Some(s.(copies := s.copies[(c, id) := Copy(v[id].row, v[id].ver)]))
    case Edit(id, body, deletedAt) =>
      if (c, id) !in s.copies then None
      else
        var d := s.copies[(c, id)];
        Some(s.(copies := s.copies[(c, id) := d.(row := d.row.(body := body, deletedAt := deletedAt))]))
    case Begin =>
      if s.tx.Some? then None else Some(s.(tx := Some(Tx(c, s.rows, []))))
    case Insert(id, body, rev, now) =>
      if !InTx(s, c) || id in s.tx.value.rows || id in s.rows || (id, rev) in s.issued then None
      else
        var tx := s.tx.value;
        var row := Created(Unsaved(body), true, rev, now);
        var ver := s.nextVer;
        Some(s.(tx := Some(Tx(c, tx.rows[id := Stored(row, ver)], tx.writes + [Write(id, c, None, None, ver, false)])),
                copies := s.copies[(c, id) := Copy(row, ver)],
                nextVer := ver + 1,
                issued := s.issued[(id, rev) := ver]))
    case Save(id, rev, now, putOk) =>
      if !InTx(s, c) || id == "" || (c, id) !in s.copies || (id, rev) in s.issued then None
      else
        var d := s.copies[(c, id)];
        if Refused(s, c, id) then Some(s)
        else Some(Written(s, c, id, Stamped(d.row, true, rev, now), putOk))
    case SoftDelete(id, actor, reason, rev, now, putOk) =>
      if !InTx(s, c) || id == "" || (c, id) !in s.copies || (id, rev) in s.issued then None
      else
        var d := s.copies[(c, id)];
        if Refused(s, c, id) then Some(s)
        else Some(Written(s, c, id, Tombstone(d.row, true, actor, reason, rev, now), putOk))
    case Commit =>
      if !InTx(s, c) then None
      else Some(s.(rows := s.tx.value.rows, history := s.history + s.tx.value.writes, tx := None))
    case Rollback =>
      if !InTx(s, c) then None else Some(s.(tx := None))
  }

  /** The check of the code, on the rows the transaction sees. */
  predicate Refused(s: State, c: Client, id: Id)
    requires InTx(s, c) && (c, id) in s.copies
  {
    id !in s.tx.value.rows || CheckRevision(Contents(s.tx.value.rows), id, s.copies[(c, id)].row.rev, false).Some?
  }

  datatype Step = Step(c: Client, a: Action)

  function RunOf(s: State, steps: seq<Step>): Option<State>
    decreases |steps|
  {
    if steps == [] then Some(s)
    else
      var t := Apply(s, steps[0].c, steps[0].a);
      if t.None? then None else RunOf(t.value, steps[1..])
  }

  // -----------------------------------------------------------------------------------------
  // Revisions identify versions
  // -----------------------------------------------------------------------------------------

  /** A revision string was drawn for one version of its document; rows and copies carry that version. */
  predicate Genuine(s: State, id: Id, rev: string, ver: Ver)
  {
    (id, rev) in s.issued && s.issued[(id, rev)] == ver && ver < s.nextVer
  }

  ghost predicate RowsGenuine(s: State, rows: map<Id, Stored>)
  {
    forall id :: id in rows ==> Genuine(s, id, rows[id].row.rev, rows[id].ver)
  }

  ghost predicate RevisionsOk(s: State)
  {
    && RowsGenuine(s, s.rows)
    && (s.tx.Some? ==> RowsGenuine(s, s.tx.value.rows))
    && (forall k :: k in s.copies ==> Genuine(s, k.1, s.copies[k].row.rev, s.copies[k].ver))
  }

  // -----------------------------------------------------------------------------------------
  // Chains
  // -----------------------------------------------------------------------------------------

  /** The last write to a document in a history, or the version it had before. */
  function LastVer(start: map<Id, Ver>, ws: seq<Write>, id: Id): Option<Ver>
  {
    if ws == [] then (if id in start then Some(start[id]) else None)
    else if ws[|ws| - 1].id == id then Some(ws[|ws| - 1].ver)
    else LastVer(start, ws[..|ws| - 1], id)
  }

  /** Write k replaced exactly the version its writer had loaded, and that was the latest version at that point. */
  ghost predicate Linked(start: map<Id, Ver>, ws: seq<Write>, k: nat)
    requires k < |ws|
  {
    && ws[k].replaced == ws[k].loaded
    && ws[k].replaced == LastVer(start, ws[..k], ws[k].id)
    && (ws[k].replaced.Some? ==> ws[k].replaced.value < ws[k].ver)
  }

  ghost predicate Chained(start: map<Id, Ver>, ws: seq<Write>)
  {
    forall k :: 0 <= k < |ws| ==> Linked(start, ws, k)
  }

  /** The rows are what the history left behind. */
  ghost predicate Tip(start: map<Id, Ver>, ws: seq<Write>, rows: map<Id, Stored>)
  {
    forall id :: LastVer(start, ws, id) == if id in rows then Some(rows[id].ver) else None
  }

  ghost predicate Inv(start: map<Id, Ver>, s: State)
  {
    && RevisionsOk(s)
    && Chained(start, s.history) && Tip(start, s.history, s.rows)
    && (s.tx.Some? ==>
          var all := s.history + s.tx.value.writes;
          Chained(start, all) && Tip(start, all, s.tx.value.rows))
  }

  lemma {:induction false} ChainExtends(start: map<Id, Ver>, ws: seq<Write>, w: Write, rows: map<Id, Stored>,
      stored: Stored)
    requires Chained(start, ws) && Tip(start, ws, rows)
    requires w.replaced == w.loaded && w.replaced == LastVer(start, ws, w.id) && stored.ver == w.ver
    requires w.replaced.Some? ==> w.replaced.value < w.ver
    ensures Chained(start, ws + [w]) && Tip(start, ws + [w], rows[w.id := stored])
  {
    var all := ws + [w];
    assert all[..|ws|] == ws;
    forall k | 0 <= k < |all| ensures Linked(start, all, k) {
      if k < |ws| {
        assert Linked(start, ws, k);
        assert all[..k] == ws[..k];
      }
    }
    forall id ensures LastVer(start, all, id) == if id in rows[w.id := stored] then Some(rows[w.id := stored][id].ver)
      else None {
    }
  }

  /** A passed check means that the writer holds the very version it is about to replace. */
  lemma {:induction false} CheckIdentifiesVersion(s: State, c: Client, id: Id)
    requires RevisionsOk(s) && InTx(s, c) && id != "" && (c, id) in s.copies && !Refused(s, c, id)
    ensures id in s.tx.value.rows && s.tx.value.rows[id].ver == s.copies[(c, id)].ver
  {
    assert Genuine(s, id, s.copies[(c, id)].row.rev, s.copies[(c, id)].ver);
    assert Genuine(s, id, s.tx.value.rows[id].row.rev, s.tx.value.rows[id].ver);
  }

  lemma {:induction false} GenuineKept(s: State, t: State, id: Id, rev: string, ver: Ver)
    requires Genuine(s, id, rev, ver) && s.nextVer <= t.nextVer
    requires forall k :: k in s.issued ==> k in t.issued && t.issued[k] == s.issued[k]
    ensures Genuine(t, id, rev, ver)
  {
  }

  lemma {:induction false} WriteKeepsRevisions(s: State, c: Client, id: Id, row: Row, putOk: bool)
    requires RevisionsOk(s) && InTx(s, c) && (c, id) in s.copies && id in s.tx.value.rows && (id, row.rev) !in s.issued
    ensures RevisionsOk(Written(s, c, id, row, putOk))
  {
    RevisionsKept(s, Written(s, c, id, row, putOk));
  }

  lemma {:induction false} WriteKeepsInv(start: map<Id, Ver>, s: State, c: Client, id: Id, row: Row, putOk: bool)
    requires Inv(start, s) && InTx(s, c) && id != "" && (c, id) in s.copies && !Refused(s, c, id)
    requires (id, row.rev) !in s.issued && id in s.tx.value.rows
    ensures Inv(start, Written(s, c, id, row, putOk))
  {
    CheckIdentifiesVersion(s, c, id);
    WriteKeepsRevisions(s, c, id, row, putOk);
    if putOk {
      var t, tx := Written(s, c, id, row, putOk), s.tx.value;
      var w := t.tx.value.writes[|tx.writes|];
      var all := s.history + tx.writes;
      assert Genuine(s, id, tx.rows[id].row.rev, tx.rows[id].ver);
      ChainExtends(start, all, w, tx.rows, Stored(row, s.nextVer));
      assert s.history + t.tx.value.writes == all + [w];
    }
  }

  /** Rows and copies that were genuine stay so; the only new ones carry the revision just issued. */
  lemma {:induction false} RevisionsKept(s: State, t: State)
    requires RevisionsOk(s) && s.nextVer <= t.nextVer && t.rows == s.rows
    requires forall k :: k in s.issued ==> k in t.issued && t.issued[k] == s.issued[k]
    requires forall k :: k in t.copies ==>
      (k in s.copies && t.copies[k] == s.copies[k]) || Genuine(t, k.1, t.copies[k].row.rev, t.copies[k].ver)
    requires t.tx.Some? ==> s.tx.Some? && forall id :: id in t.tx.value.rows ==>
      (id in s.tx.value.rows && t.tx.value.rows[id] == s.tx.value.rows[id])
      || Genuine(t, id, t.tx.value.rows[id].row.rev, t.tx.value.rows[id].ver)
    ensures RevisionsOk(t)
  {
    forall id | id in t.rows ensures Genuine(t, id, t.rows[id].row.rev, t.rows[id].ver) {
      GenuineKept(s, t, id, t.rows[id].row.rev, t.rows[id].ver);
    }
    if t.tx.Some? {
      forall id | id in t.tx.value.rows ensures Genuine(t, id, t.tx.value.rows[id].row.rev, t.tx.value.rows[id].ver) {
        var r := t.tx.value.rows[id];
        if id in s.tx.value.rows && r == s.tx.value.rows[id] { GenuineKept(s, t, id, r.row.rev, r.ver); }
      }
    }
    forall k | k in t.copies ensures Genuine(t, k.1, t.copies[k].row.rev, t.copies[k].ver) {
      if k in s.copies && t.copies[k] == s.copies[k] { GenuineKept(s, t, k.1, t.copies[k].row.rev, t.copies[k].ver); }
    }
  }

  lemma {:induction false} LoadKeepsInv(start: map<Id, Ver>, s: State, c: Client, id: Id)
    requires Inv(start, s) && Apply(s, c, Load(id)).Some?
    ensures Inv(start, Apply(s, c, Load(id)).value)
  {
    assert Genuine(s, id, View(s, c)[id].row.rev, View(s, c)[id].ver);
    RevisionsKept(s, Apply(s, c, Load(id)).value);
  }

  lemma {:induction false} EditKeepsInv(start: map<Id, Ver>, s: State, c: Client, id: Id, body: string,
      deletedAt: Option<int>)
    requires Inv(start, s) && Apply(s, c, Edit(id, body, deletedAt)).Some?
    ensures Inv(start, Apply(s, c, Edit(id, body, deletedAt)).value)
  {
    assert Genuine(s, id, s.copies[(c, id)].row.rev, s.copies[(c, id)].ver);
    RevisionsKept(s, Apply(s, c, Edit(id, body, deletedAt)).value);
  }

  lemma {:induction false} BeginKeepsInv(start: map<Id, Ver>, s: State, c: Client)
    requires Inv(start, s) && Apply(s, c, Begin).Some?
    ensures Inv(start, Apply(s, c, Begin).value)
  {
    assert s.history + [] == s.history;
  }

  lemma {:induction false} InsertKeepsInv(start: map<Id, Ver>, s: State, c: Client, id: Id, body: string, rev: string,
      now: int)
    requires Inv(start, s) && Apply(s, c, Insert(id, body, rev, now)).Some?
    ensures Inv(start, Apply(s, c, Insert(id, body, rev, now)).value)
  {
    var t := Apply(s, c, Insert(id, body, rev, now)).value;
    RevisionsKept(s, t);
    var tx := s.tx.value;
    var w := t.tx.value.writes[|tx.writes|];
    ChainExtends(start, s.history + tx.writes, w, tx.rows, t.tx.value.rows[id]);
    assert s.history + t.tx.value.writes == s.history + tx.writes + [w];
  }

  lemma {:induction false} SaveKeepsInv(start: map<Id, Ver>, s: State, c: Client, id: Id, rev: string, now: int,
      putOk: bool)
    requires Inv(start, s) && Apply(s, c, Save(id, rev, now, putOk)).Some?
    ensures Inv(start, Apply(s, c, Save(id, rev, now, putOk)).value)
  {
    if !Refused(s, c, id) { WriteKeepsInv(start, s, c, id, Stamped(s.copies[(c, id)].row, true, rev, now), putOk); }
  }

  lemma {:induction false} SoftDeleteKeepsInv(start: map<Id, Ver>, s: State, c: Client, id: Id, actor: string,
      reason: string, rev: string, now: int, putOk: bool)
    requires Inv(start, s) && Apply(s, c, SoftDelete(id, actor, reason, rev, now, putOk)).Some?
    ensures Inv(start, Apply(s, c, SoftDelete(id, actor, reason, rev, now, putOk)).value)
  {
    if !Refused(s, c, id) {
      WriteKeepsInv(start, s, c, id, Tombstone(s.copies[(c, id)].row, true, actor, reason, rev, now), putOk);
    }
  }

  lemma {:induction false} CommitKeepsInv(start: map<Id, Ver>, s: State, c: Client)
    requires Inv(start, s) && Apply(s, c, Commit).Some?
    ensures Inv(start, Apply(s, c, Commit).value)
  {
  }

  lemma {:induction false} StepKeepsInv(start: map<Id, Ver>, s: State, c: Client, a: Action)
    requires Inv(start, s) && Apply(s, c, a).Some?
    ensures Inv(start, Apply(s, c, a).value)
  {
    match a
    case Load(id) => LoadKeepsInv(start, s, c, id);
    case Edit(id, body, deletedAt) => EditKeepsInv(start, s, c, id, body, deletedAt);
    case Begin => BeginKeepsInv(start, s, c);
    case Insert(id, body, rev, now) => InsertKeepsInv(start, s, c, id, body, rev, now);
    case Save(id, rev, now, putOk) => SaveKeepsInv(start, s, c, id, rev, now, putOk);
    case SoftDelete(id, actor, reason, rev, now, putOk) =>
      SoftDeleteKeepsInv(start, s, c, id, actor, reason, rev, now, putOk);
    case Commit => CommitKeepsInv(start, s, c);
    case Rollback =>
  }

  lemma {:induction false} EveryRunKeepsInv(start: map<Id, Ver>, s: State, steps: seq<Step>)
    requires Inv(start, s) && RunOf(s, steps).Some?
    ensures Inv(start, RunOf(s, steps).value)
    decreases |steps|
  {
    if steps == [] {
    } else {
      StepKeepsInv(start, s, steps[0].c, steps[0].a);
      EveryRunKeepsInv(start, Apply(s, steps[0].c, steps[0].a).value, steps[1..]);
    }
  }

  // -----------------------------------------------------------------------------------------
  // Results
  // -----------------------------------------------------------------------------------------

  /** Stored documents, nothing in memory, no transaction, no history. */
  ghost predicate Initial(s: State)
  {
    && s.history == [] && s.tx.None? && s.copies == map[]
    && RowsGenuine(s, s.rows)
  }

  function VersOf(rows: map<Id, Stored>): map<Id, Ver>
  {
    map id | id in rows :: rows[id].ver
  }

  lemma {:induction false} LaterWritesSeeEarlier(start: map<Id, Ver>, ws: seq<Write>, j: nat, k: nat)
    requires Chained(start, ws) && j < k <= |ws|
    ensures LastVer(start, ws[..k], ws[j].id).Some? && ws[j].ver <= LastVer(start, ws[..k], ws[j].id).value
    decreases k
  {
    assert ws[..k][..k - 1] == ws[..k - 1];
    if j < k - 1 {
      LaterWritesSeeEarlier(start, ws, j, k - 1);
      assert Linked(start, ws, k - 1);
    }
  }

  /**
    In every run, each committed write replaced exactly the version its writer had loaded, and those form one
    chain per document.
   */
  lemma {:induction false} CommittedWritesFormChains(s: State, steps: seq<Step>)
    requires Initial(s) && RunOf(s, steps).Some?
    ensures var t := RunOf(s, steps).value;
      Chained(VersOf(s.rows), t.history) && Tip(VersOf(s.rows), t.history, t.rows)
  {
    EveryRunKeepsInv(VersOf(s.rows), s, steps);
  }

  /** Of all clients that loaded the same version of a document, at most one commits a write based on it. */
  lemma {:induction false} AtMostOneWriterPerBase(s: State, steps: seq<Step>, j: nat, k: nat)
    requires Initial(s) && RunOf(s, steps).Some?
    requires j < k < |RunOf(s, steps).value.history|
    ensures var h := RunOf(s, steps).value.history;
      h[j].id == h[k].id ==> h[j].loaded != h[k].loaded
  {
    CommittedWritesFormChains(s, steps);
    var h := RunOf(s, steps).value.history;
    assert Linked(VersOf(s.rows), h, j) && Linked(VersOf(s.rows), h, k);
    LaterWritesSeeEarlier(VersOf(s.rows), h, j, k);
  }

  /**
    A write that follows a committed deletion was made by a client that had loaded that deletion, or a
    version after it.
   */
  lemma {:induction false} StaleSaveNeverClearsDeletion(s: State, steps: seq<Step>, j: nat, k: nat)
    requires Initial(s) && RunOf(s, steps).Some?
    requires j < k < |RunOf(s, steps).value.history|
    ensures var h := RunOf(s, steps).value.history;
      h[j].id == h[k].id && h[j].deleted ==> h[k].loaded.Some? && h[j].ver <= h[k].loaded.value
  {
    CommittedWritesFormChains(s, steps);
    var h := RunOf(s, steps).value.history;
    assert Linked(VersOf(s.rows), h, k);
    LaterWritesSeeEarlier(VersOf(s.rows), h, j, k);
  }

  // -----------------------------------------------------------------------------------------
  // The same, said of rows instead of versions
  // -----------------------------------------------------------------------------------------

  /** A version that a transaction shares with the store has one content. */
  ghost predicate SameContent(s: State)
  {
    s.tx.Some? ==>
      forall id :: id in s.rows && id in s.tx.value.rows && s.rows[id].ver == s.tx.value.rows[id].ver ==>
        s.rows[id].row == s.tx.value.rows[id].row
  }

  lemma {:induction false} StepKeepsContent(s: State, c: Client, a: Action)
    requires RevisionsOk(s) && SameContent(s) && Apply(s, c, a).Some?
    ensures SameContent(Apply(s, c, a).value)
  {
    var t := Apply(s, c, a).value;
    if t.tx.Some? {
      forall id | id in t.rows && id in t.tx.value.rows && t.rows[id].ver == t.tx.value.rows[id].ver
        ensures t.rows[id].row == t.tx.value.rows[id].row {
        if id in s.rows { assert Genuine(s, id, s.rows[id].row.rev, s.rows[id].ver); }
      }
    }
  }

  lemma {:induction false} RunKeepsContent(start: map<Id, Ver>, s: State, steps: seq<Step>)
    requires Inv(start, s) && SameContent(s) && RunOf(s, steps).Some?
    ensures Inv(start, RunOf(s, steps).value) && SameContent(RunOf(s, steps).value)
    decreases |steps|
  {
    if steps == [] {
    } else {
      StepKeepsInv(start, s, steps[0].c, steps[0].a);
      StepKeepsContent(s, steps[0].c, steps[0].a);
      RunKeepsContent(start, Apply(s, steps[0].c, steps[0].a).value, steps[1..]);
    }
  }

  /** Wherever version v of the document is stored, its content is row; and client c has it in hand, edited or not. */
  ghost predicate InHand(s: State, c: Client, id: Id, v: Ver, row: Row)
  {
    && v < s.nextVer
    && (id in s.rows && s.rows[id].ver == v ==> s.rows[id].row == row)
    && (s.tx.Some? && id in s.tx.value.rows && s.tx.value.rows[id].ver == v ==> s.tx.value.rows[id].row == row)
    && (c, id) in s.copies && s.copies[(c, id)].ver == v && s.copies[(c, id)].row.rev == row.rev
  }

  /** The action loads or writes the document. */
  predicate Renews(a: Action, id: Id)
  {
    match a
    case Load(i) => i == id
    case Insert(i, _, _, _) => i == id
    case Save(i, _, _, _) => i == id
    case SoftDelete(i, _, _, _, _, _) => i == id
    case _ => false
  }

  lemma {:induction false} StaysInHand(s: State, step: Step, c: Client, id: Id, v: Ver, row: Row)
    requires InHand(s, c, id, v, row) && Apply(s, step.c, step.a).Some? && (step.c == c ==> !Renews(step.a, id))
    ensures InHand(Apply(s, step.c, step.a).value, c, id, v, row)
  {
    match step.a
    case Save(i, rev, now, putOk) =>
      if !Refused(s, step.c, i) {
        WriteStaysInHand(s, step.c, i, Stamped(s.copies[(step.c, i)].row, true, rev, now), putOk, c, id, v, row);
      }
    case SoftDelete(i, actor, reason, rev, now, putOk) =>
      if !Refused(s, step.c, i) {
        WriteStaysInHand(s, step.c, i, Tombstone(s.copies[(step.c, i)].row, true, actor, reason, rev, now), putOk,
          c, id, v, row);
      }
    case _ =>
  }

  lemma {:induction false} WriteStaysInHand(s: State, writer: Client, i: Id, written: Row, putOk: bool, c: Client,
      id: Id, v: Ver, row: Row)
    requires InHand(s, c, id, v, row) && InTx(s, writer) && i in s.tx.value.rows && (writer, i) in s.copies
    requires writer == c ==> i != id
    ensures InHand(Written(s, writer, i, written, putOk), c, id, v, row)
  {
  }

  lemma {:induction false} StaysInHandOver(s: State, steps: seq<Step>, c: Client, id: Id, v: Ver, row: Row)
    requires InHand(s, c, id, v, row) && RunOf(s, steps).Some?
    requires forall k :: 0 <= k < |steps| && steps[k].c == c ==> !Renews(steps[k].a, id)
    ensures InHand(RunOf(s, steps).value, c, id, v, row)
    decreases |steps|
  {
    if steps == [] {
    } else {
      StaysInHand(s, steps[0], c, id, v, row);
      StaysInHandOver(Apply(s, steps[0].c, steps[0].a).value, steps[1..], c, id, v, row);
    }
  }

  /**
    A client loads a document; whatever happens then, when it comes to save and the stored revision is the one it
    has in memory, the stored row is field for field the row that it loaded.
   */
  lemma {:induction false} PassedCheckMeansUnchanged(s: State, before: seq<Step>, c: Client, id: Id,
      between: seq<Step>)
    requires Initial(s) && RunOf(s, before).Some?
    requires var loaded := Apply(RunOf(s, before).value, c, Load(id));
      loaded.Some? && RunOf(loaded.value, between).Some?
    requires forall k :: 0 <= k < |between| && between[k].c == c ==> !Renews(between[k].a, id)
    ensures var t := RunOf(Apply(RunOf(s, before).value, c, Load(id)).value, between).value;
      && (c, id) in t.copies
      && (InTx(t, c) && id in t.tx.value.rows && t.tx.value.rows[id].row.rev == t.copies[(c, id)].row.rev ==>
            t.tx.value.rows[id].row == View(RunOf(s, before).value, c)[id].row)
  {
    var start, s1 := VersOf(s.rows), RunOf(s, before).value;
    RunKeepsContent(start, s, before);
    var v, s2 := View(s1, c)[id], Apply(s1, c, Load(id)).value;
    assert Genuine(s1, id, v.row.rev, v.ver);
    StepKeepsInv(start, s1, c, Load(id));
    StaysInHandOver(s2, between, c, id, v.ver, v.row);
    EveryRunKeepsInv(start, s2, between);
    var t := RunOf(s2, between).value;
    if InTx(t, c) && id in t.tx.value.rows {
      assert Genuine(t, id, t.tx.value.rows[id].row.rev, t.tx.value.rows[id].ver);
      assert Genuine(t, id, t.copies[(c, id)].row.rev, t.copies[(c, id)].ver);
    }
  }

  // -----------------------------------------------------------------------------------------
  // The methods do what the steps say
  // -----------------------------------------------------------------------------------------

  /** Save inside a transaction: the row, the document and the refusal are those of the step. */
  method SaveIsStep(s: State, c: Client, id: Id, env: Env)
      returns (rows: Rows, copy: Row, err: Option<Error>)
    requires InTx(s, c) && id != "" && (c, id) in s.copies && (id, env.nonce) !in s.issued && env.preOk
    ensures var t := Apply(s, c, Save(id, env.nonce, env.now, env.putOk));
      t.Some? && InTx(t.value, c) && (c, id) in t.value.copies &&
      rows == Contents(t.value.tx.value.rows) && copy == t.value.copies[(c, id)].row
    ensures var stored, mine := s.tx.value.rows, s.copies[(c, id)].row;
      err == if id !in stored then Some(NotFound)
        else if stored[id].row.rev != mine.rev then Some(RevisionConflict)
        else if !env.putOk then Some(Storage)
        else if !env.afterOk then Some(Hook)
        else None
  {
    var db := new Store(Contents(s.tx.value.rows));
    var doc := new Doc(id, s.copies[(c, id)].row);
    err := Revision.Save(db, doc, true, true, false, env);
    rows, copy := db.rows, doc.Encoded();
  }

  /** A soft delete inside a transaction likewise. */
  method SoftDeleteIsStep(s: State, c: Client, id: Id, actor: string, reason: string, env: Env)
      returns (rows: Rows, copy: Row, err: Option<Error>)
    requires InTx(s, c) && id != "" && (c, id) in s.copies && (id, env.nonce) !in s.issued
    ensures var t := Apply(s, c, SoftDelete(id, actor, reason, env.nonce, env.now, env.putOk));
      t.Some? && InTx(t.value, c) && (c, id) in t.value.copies &&
      rows == Contents(t.value.tx.value.rows) && copy == t.value.copies[(c, id)].row
    ensures var stored, mine := s.tx.value.rows, s.copies[(c, id)].row;
      err == if id !in stored then Some(NotFound)
        else if stored[id].row.rev != mine.rev then Some(RevisionConflict)
        else if !env.putOk then Some(Storage)
        else None
  {
    var db := new Store(Contents(s.tx.value.rows));
    var doc := new Doc(id, s.copies[(c, id)].row);
    err := Revision.SoftDelete(db, doc, true, true, false, actor, reason, env);
    rows, copy := db.rows, doc.Encoded();
  }

  /** Saving a new document likewise. */
  method InsertIsStep(s: State, c: Client, body: string, env: Env)
      returns (rows: Rows, copy: Row, err: Option<Error>)
    requires InTx(s, c) && env.newId !in s.tx.value.rows && env.newId !in s.rows
    requires (env.newId, env.nonce) !in s.issued && env.preOk && env.putOk
    ensures var t := Apply(s, c, Insert(env.newId, body, env.nonce, env.now));
      t.Some? && InTx(t.value, c) && (c, env.newId) in t.value.copies &&
      rows == Contents(t.value.tx.value.rows) && copy == t.value.copies[(c, env.newId)].row
    ensures err == if env.afterOk then None else Some(Hook)
  {
    var db := new Store(Contents(s.tx.value.rows));
    var doc := new Doc("", Unsaved(body));
    err := Revision.Save(db, doc, true, true, false, env);
    rows, copy := db.rows, doc.Encoded();
  }

  lemma {:induction false} ThreeSteps(s: State, steps: seq<Step>)
    requires |steps| == 3 && Apply(s, steps[0].c, steps[0].a).Some?
    requires var t := Apply(s, steps[0].c, steps[0].a).value; Apply(t, steps[1].c, steps[1].a).Some?
    ensures var t := Apply(s, steps[0].c, steps[0].a).value;
      RunOf(s, steps) == Apply(Apply(t, steps[1].c, steps[1].a).value, steps[2].c, steps[2].a)
  {
    var t := Apply(s, steps[0].c, steps[0].a).value;
    var u := Apply(t, steps[1].c, steps[1].a).value;
    var v := Apply(u, steps[2].c, steps[2].a);
    assert steps[1..][1..] == steps[2..] && steps[2..][1..] == [];
    assert RunOf(s, steps) == RunOf(t, steps[1..]) == RunOf(u, steps[2..]);
    assert v.Some? ==> RunOf(v.value, []) == v;
  }

  /** Save outside a transaction: the step within a transaction of its own, committed exactly if there was no error. */
  method SaveAloneIsThreeSteps(s: State, c: Client, id: Id, env: Env)
      returns (rows: Rows, copy: Row, err: Option<Error>)
    requires s.tx.None? && id != "" && (c, id) in s.copies && (id, env.nonce) !in s.issued && env.preOk && env.beginOk
    ensures var last := if err.None? then Commit else Rollback;
      var t := RunOf(s, [Step(c, Begin), Step(c, Save(id, env.nonce, env.now, env.putOk)), Step(c, last)]);
      t.Some? && t.value.tx.None? && (c, id) in t.value.copies &&
      rows == Contents(t.value.rows) && copy == t.value.copies[(c, id)].row
  {
    var db := new Store(Contents(s.rows));
    var doc := new Doc(id, s.copies[(c, id)].row);
    err := Revision.Save(db, doc, false, true, false, env);
    rows, copy := db.rows, doc.Encoded();
    ghost var steps := [Step(c, Begin), Step(c, Save(id, env.nonce, env.now, env.putOk)),
                        Step(c, if err.None? then Commit else Rollback)];
    ThreeSteps(s, steps);
  }
}

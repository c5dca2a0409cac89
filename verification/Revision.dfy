/** Saving and soft-deleting one document: the revision check, the write, and the transaction around them. */
module Revision {
  import opened Options

  type Id = string

  /** The stored form of a document. */
  datatype Row = Row(rev: string, createdAt: int, updatedAt: int, deletedAt: Option<int>, deletedBy: string,
      deleteReason: string, body: string)

  type Rows = map<Id, Row>

  datatype Error = Validation | NotFound | RevisionConflict | Storage | Hook | BeginFailed | CommitFailed

  /** A document in the caller's memory. */
  class Doc {
    var id: Id
    var rev: string
    var createdAt: int
    var updatedAt: int
    var deletedAt: Option<int>
    var deletedBy: string
    var deleteReason: string
    var body: string

    constructor (id: Id, row: Row)
      ensures this.id == id && Encoded() == row
    {
      this.id, rev, createdAt, updatedAt := id, row.rev, row.createdAt, row.updatedAt;
      deletedAt, deletedBy, deleteReason, body := row.deletedAt, row.deletedBy, row.deleteReason, row.body;
    }

    function Encoded(): Row
      reads this
    {
      Row(rev, createdAt, updatedAt, deletedAt, deletedBy, deleteReason, body)
    }
  }

  /** A collection, or the view of it that one transaction has. */
  class Store {
    var rows: Rows

    constructor (rows: Rows)
      ensures this.rows == rows
    {
      this.rows := rows;
    }
  }

  /** What the surroundings decide: nonces, the clock, hooks, and which backend calls succeed. 0 is the zero time. */
  datatype Env = Env(nonce: string, now: int, newId: Id, preOk: bool, putOk: bool, afterOk: bool, beginOk: bool,
      commitOk: bool)

  /** The stored revision has to be the one in memory; keyed off the id, not off the in-memory revision. */
  function CheckRevision(rows: Rows, id: Id, rev: string, ignore: bool): Option<Error>
  {
    if ignore || id == "" then None
    else if id !in rows then Some(NotFound)
    else if rows[id].rev != rev then Some(RevisionConflict)
    else None
  }

  /** The document as an update stamps it. */
  function Stamped(row: Row, useRevision: bool, nonce: string, now: int): Row
  {
    row.(rev := if useRevision then nonce else row.rev, updatedAt := now)
  }

  /** The document as an insert stamps it: a creation time the caller set is kept. */
  function Created(row: Row, useRevision: bool, nonce: string, now: int): Row
  {
    Stamped(row, useRevision, nonce, now).(createdAt := if row.createdAt == 0 then now else row.createdAt)
  }

  /** The document as a soft delete stamps it: no updatedAt, and audit fields only where given. */
  function Tombstone(row: Row, useRevision: bool, actor: string, reason: string, nonce: string, now: int): Row
  {
    row.(rev := if useRevision then nonce else row.rev, deletedAt := Some(now),
         deletedBy := if actor != "" then actor else row.deletedBy,
         deleteReason := if reason != "" then reason else row.deleteReason)
  }

  method CheckAndUpdateRevision(store: Store, doc: Doc, useRevision: bool, ignore: bool,
      nonce: string) returns (err: Option<Error>)
    modifies doc`rev
    ensures err == if useRevision then CheckRevision(store.rows, doc.id, old(doc.rev), ignore) else None
    ensures doc.rev == if useRevision && err.None? then nonce else old(doc.rev)
    ensures err == if !useRevision || ignore || doc.id == "" then None
      else if doc.id !in store.rows then Some(NotFound)
      else if store.rows[doc.id].rev != old(doc.rev) then Some(RevisionConflict)
      else None
  {
    if !useRevision { return None; }
    if !ignore && doc.id != "" {
      if doc.id !in store.rows { return Some(NotFound); }
      if store.rows[doc.id].rev != doc.rev { return Some(RevisionConflict); }
    }
    doc.rev := nonce;
    return None;
  }

  method SetBaseFields(doc: Doc, env: Env, isInsert: bool)
    modifies doc
    ensures doc.id == if old(doc.id) == "" then env.newId else old(doc.id)
    ensures doc.Encoded() == old(doc.Encoded()).(updatedAt := env.now,
              createdAt := if isInsert && old(doc.createdAt) == 0 then env.now else old(doc.createdAt))
  {
    if doc.id == "" { doc.id := env.newId; }
    if isInsert && doc.createdAt == 0 { doc.createdAt := env.now; }
    doc.updatedAt := env.now;
  }

  /** Hooks, revision, stamp, encode, put, after-hooks: in that order. The in-memory document changes before the put. */
  method WriteDocCore(store: Store, doc: Doc, useRevision: bool, isInsert: bool, ignore: bool,
      env: Env) returns (err: Option<Error>)
    requires isInsert || doc.id != ""
    modifies store, doc
    ensures var refused :=
        if !env.preOk then Some(Hook)
        else if useRevision && !isInsert then CheckRevision(old(store.rows), old(doc.id), old(doc.rev), ignore)
          else None;
      if refused.Some? then err == refused && doc.id == old(doc.id) && doc.Encoded() == old(doc.Encoded()) &&
        store.rows == old(store.rows)
      else
        && doc.id == (if old(doc.id) == "" then env.newId else old(doc.id))
        && doc.Encoded() == (if isInsert then Created(old(doc.Encoded()), useRevision, env.nonce, env.now)
          else Stamped(old(doc.Encoded()), useRevision, env.nonce, env.now))
        && store.rows == (if env.putOk then old(store.rows)[doc.id := doc.Encoded()] else old(store.rows))
        && err == if !env.putOk then Some(Storage) else if !env.afterOk then Some(Hook) else None
    ensures err.None? ==> doc.rev == (if useRevision then env.nonce else old(doc.rev)) && doc.updatedAt == env.now
    ensures err.None? ==> doc.createdAt == if isInsert && old(doc.createdAt) == 0 then env.now else old(doc.createdAt)
    ensures err.None? ==> doc.body == old(doc.body) && doc.deletedAt == old(doc.deletedAt)
    ensures err.None? ==> doc.deletedBy == old(doc.deletedBy) && doc.deleteReason == old(doc.deleteReason)
    ensures err.None? ==> store.rows == old(store.rows)[doc.id := Row(doc.rev, doc.createdAt, doc.updatedAt,
      doc.deletedAt, doc.deletedBy, doc.deleteReason, doc.body)]
    ensures err == if !env.preOk then Some(Hook)
      else if useRevision && !isInsert && !ignore && old(doc.id) !in old(store.rows) then Some(NotFound)
      else if useRevision && !isInsert && !ignore && old(store.rows[doc.id].rev) != old(doc.rev) then
        Some(RevisionConflict)
      else if !env.putOk then Some(Storage)
      else if !env.afterOk then Some(Hook)
      else None
  {
    if !env.preOk { return Some(Hook); }
    if useRevision {
      if isInsert {
        doc.rev := env.nonce;
      } else {
        err := CheckAndUpdateRevision(store, doc, useRevision, ignore, env.nonce);
        if err.Some? { return; }
      }
    }
    SetBaseFields(doc, env, isInsert);
    var data := doc.Encoded();
    if !env.putOk { return Some(Storage); }
    store.rows := store.rows[doc.id := data];
    if !env.afterOk { return Some(Hook); }
    return None;
  }

  /** An update. Outside a transaction, a checked one gets its own, so that any error leaves the store alone. */
  method UpdateCore(db: Store, doc: Doc, inTx: bool, useRevision: bool, ignore: bool,
      env: Env) returns (err: Option<Error>)
    modifies db, doc
    ensures doc.id == old(doc.id)
    ensures var checked, wrapped := useRevision && !ignore, useRevision && !ignore && !inTx;
      err == if wrapped && !env.beginOk then Some(BeginFailed)
      else if doc.id == "" then Some(Validation)
      else if !env.preOk then Some(Hook)
      else if checked && doc.id !in old(db.rows) then Some(NotFound)
      else if checked && old(db.rows[doc.id].rev) != old(doc.rev) then Some(RevisionConflict)
      else if !env.putOk then Some(Storage)
      else if !env.afterOk then Some(Hook)
      else if wrapped && !env.commitOk then Some(CommitFailed)
      else None
    ensures err.None? ==> doc.rev == (if useRevision then env.nonce else old(doc.rev)) && doc.updatedAt == env.now
    ensures err.None? ==> doc.body == old(doc.body) && doc.createdAt == old(doc.createdAt)
    ensures err.None? ==> doc.deletedAt == old(doc.deletedAt) && doc.deletedBy == old(doc.deletedBy)
    ensures err.None? ==> doc.deleteReason == old(doc.deleteReason)
    ensures err.None? ==> db.rows == old(db.rows)[doc.id := Row(doc.rev, doc.createdAt, doc.updatedAt, doc.deletedAt,
      doc.deletedBy, doc.deleteReason, doc.body)]
    ensures var refused := doc.id == "" || !env.preOk || err == Some(BeginFailed) || err == Some(NotFound) ||
        err == Some(RevisionConflict);
      && doc.Encoded() == (if refused then old(doc.Encoded())
        else Stamped(old(doc.Encoded()), useRevision, env.nonce, env.now))
      && db.rows == if refused || !env.putOk || (err.Some? && useRevision && !ignore && !inTx) then old(db.rows)
        else old(db.rows)[doc.id := doc.Encoded()]
  {
    if useRevision && !ignore && !inTx {
      // runInWriteTx: the callback works on the transaction's view.
      if !env.beginOk { return Some(BeginFailed); }
      var tx := new Store(db.rows);
      err := UpdateInTx(tx, doc, useRevision, ignore, env);
      if err.Some? { return; }
      if !env.commitOk { return Some(CommitFailed); }
      db.rows := tx.rows;
    } else {
      err := UpdateInTx(db, doc, useRevision, ignore, env);
    }
  }

  method UpdateInTx(tx: Store, doc: Doc, useRevision: bool, ignore: bool, env: Env) returns (err: Option<Error>)
    modifies tx, doc
    ensures var refused :=
        if doc.id == "" then Some(Validation) else if !env.preOk then Some(Hook)
        else if useRevision then CheckRevision(old(tx.rows), doc.id, old(doc.rev), ignore) else None;
      if refused.Some? then err == refused && doc.Encoded() == old(doc.Encoded()) && tx.rows == old(tx.rows)
      else
        && doc.Encoded() == Stamped(old(doc.Encoded()), useRevision, env.nonce, env.now)
        && tx.rows == (if env.putOk then old(tx.rows)[doc.id := doc.Encoded()] else old(tx.rows))
        && err == if !env.putOk then Some(Storage) else if !env.afterOk then Some(Hook) else None
    ensures doc.id == old(doc.id)
  {
    if doc.id == "" { return Some(Validation); }
    err := WriteDocCore(tx, doc, useRevision, false, ignore, env);
  }

  /** Save routes on the id: a document without one is inserted, any other is updated. */
  method Save(db: Store, doc: Doc, inTx: bool, useRevision: bool, ignore: bool, env: Env) returns (err: Option<Error>)
    modifies db, doc
    ensures old(doc.id) == "" ==>
      && err == (if !env.preOk then Some(Hook)
        else if !env.putOk then Some(Storage)
        else if !env.afterOk then Some(Hook)
        else None)
      && (env.preOk && env.putOk ==>
            doc.id == env.newId && doc.Encoded() == Created(old(doc.Encoded()), useRevision, env.nonce, env.now) &&
              db.rows == old(db.rows)[doc.id := doc.Encoded()])
      && (!(env.preOk && env.putOk) ==> db.rows == old(db.rows))
    ensures old(doc.id) == "" && err.None? ==>
      && doc.rev == (if useRevision then env.nonce else old(doc.rev)) && doc.updatedAt == env.now
      && doc.createdAt == (if old(doc.createdAt) == 0 then env.now else old(doc.createdAt))
    ensures old(doc.id) != "" ==>
      var checked, wrapped := useRevision && !ignore, useRevision && !ignore && !inTx;
      doc.id == old(doc.id) &&
      err == if wrapped && !env.beginOk then Some(BeginFailed)
        else if !env.preOk then Some(Hook)
        else if checked && doc.id !in old(db.rows) then Some(NotFound)
        else if checked && old(db.rows[doc.id].rev) != old(doc.rev) then Some(RevisionConflict)
        else if !env.putOk then Some(Storage)
        else if !env.afterOk then Some(Hook)
        else if wrapped && !env.commitOk then Some(CommitFailed)
        else None
    ensures old(doc.id) != "" && err.None? ==>
      && doc.rev == (if useRevision then env.nonce else old(doc.rev)) && doc.updatedAt == env.now
      && doc.createdAt == old(doc.createdAt)
    ensures err.None? ==> doc.body == old(doc.body) && doc.deletedAt == old(doc.deletedAt)
    ensures err.None? ==> doc.deletedBy == old(doc.deletedBy) && doc.deleteReason == old(doc.deleteReason)
    ensures err.None? ==> db.rows == old(db.rows)[doc.id := Row(doc.rev, doc.createdAt, doc.updatedAt, doc.deletedAt,
      doc.deletedBy, doc.deleteReason, doc.body)]
    ensures old(doc.id) != "" ==>
      var refused := !env.preOk || err == Some(BeginFailed) || err == Some(NotFound) || err == Some(RevisionConflict);
      && doc.Encoded() == (if refused then old(doc.Encoded())
        else Stamped(old(doc.Encoded()), useRevision, env.nonce, env.now))
      && db.rows == if refused || !env.putOk || (err.Some? && useRevision && !ignore && !inTx) then old(db.rows)
        else old(db.rows)[doc.id := doc.Encoded()]
  {
    if doc.id == "" {
      err := WriteDocCore(db, doc, useRevision, true, false, env);
    } else {
      err := UpdateCore(db, doc, inTx, useRevision, ignore, env);
    }
  }

  /** A soft delete takes part in the revision chain exactly as an update does. */
  method SoftDelete(db: Store, doc: Doc, inTx: bool, useRevision: bool, ignore: bool, actor: string, reason: string,
      env: Env)
    returns (err: Option<Error>)
    requires doc.id != ""
    modifies db, doc
    ensures doc.id == old(doc.id)
    ensures var checked, wrapped := useRevision && !ignore, useRevision && !ignore && !inTx;
      err == if wrapped && !env.beginOk then Some(BeginFailed)
      else if checked && doc.id !in old(db.rows) then Some(NotFound)
      else if checked && old(db.rows[doc.id].rev) != old(doc.rev) then Some(RevisionConflict)
      else if !env.putOk then Some(Storage)
      else if wrapped && !env.commitOk then Some(CommitFailed)
      else None
    ensures err.None? ==> doc.rev == (if useRevision then env.nonce else old(doc.rev))
    ensures err.None? ==> doc.deletedAt == Some(env.now)
    ensures err.None? ==> doc.deletedBy == if actor != "" then actor else old(doc.deletedBy)
    ensures err.None? ==> doc.deleteReason == if reason != "" then reason else old(doc.deleteReason)
    ensures err.None? ==> doc.body == old(doc.body)
    ensures err.None? ==> doc.createdAt == old(doc.createdAt) && doc.updatedAt == old(doc.updatedAt)
    ensures err.None? ==> db.rows == old(db.rows)[doc.id := Row(doc.rev, doc.createdAt, doc.updatedAt, doc.deletedAt,
      doc.deletedBy, doc.deleteReason, doc.body)]
    ensures doc.Encoded() ==
      if err == Some(BeginFailed) || err == Some(NotFound) || err == Some(RevisionConflict) then old(doc.Encoded())
      else Tombstone(old(doc.Encoded()), useRevision, actor, reason, env.nonce, env.now)
    ensures err.Some? ==> db.rows == old(db.rows)
  {
    if useRevision && !ignore && !inTx {
      if !env.beginOk { return Some(BeginFailed); }
      var tx := new Store(db.rows);
      err := SoftDeleteInTx(tx, doc, useRevision, ignore, actor, reason, env);
      if err.Some? { return; }
      if !env.commitOk { return Some(CommitFailed); }
      db.rows := tx.rows;
    } else {
      err := SoftDeleteInTx(db, doc, useRevision, ignore, actor, reason, env);
    }
  }

  method SoftDeleteInTx(tx: Store, doc: Doc, useRevision: bool, ignore: bool, actor: string, reason: string, env: Env)
    returns (err: Option<Error>)
    modifies tx, doc
    ensures doc.id == old(doc.id)
    ensures var refused := if useRevision then CheckRevision(old(tx.rows), doc.id, old(doc.rev), ignore) else None;
      if refused.Some? then err == refused && tx.rows == old(tx.rows) && doc.Encoded() == old(doc.Encoded())
      else
        && doc.Encoded() == Tombstone(old(doc.Encoded()), useRevision, actor, reason, env.nonce, env.now)
        && tx.rows == (if env.putOk then old(tx.rows)[doc.id := doc.Encoded()] else old(tx.rows))
        && err == if env.putOk then None else Some(Storage)
  {
    err := CheckAndUpdateRevision(tx, doc, useRevision, ignore, env.nonce);
    if err.Some? { return; }
    doc.deletedAt := Some(env.now);
    if actor != "" { doc.deletedBy := actor; }
    if reason != "" { doc.deleteReason := reason; }
    if !env.putOk { return Some(Storage); }
    tx.rows := tx.rows[doc.id := doc.Encoded()];
    return None;
  }

  /**
    Two writers load one row and each changes the body and saves, outside a transaction. The first is stored; the
    second still has the revision that it replaced and is refused.
   */
  method TwoWriters(db: Store, id: Id, mine: string, yours: string, first: Env, second: Env)
      returns (err1: Option<Error>, err2: Option<Error>)
    requires id != "" && id in db.rows && first.nonce != db.rows[id].rev
    requires first.preOk && first.putOk && first.afterOk && first.beginOk && first.commitOk
    requires second.beginOk && second.preOk
    modifies db
    ensures err1.None? && err2 == Some(RevisionConflict)
    ensures db.rows == old(db.rows)[id := old(db.rows[id]).(rev := first.nonce, updatedAt := first.now, body := mine)]
  {
    var a := new Doc(id, db.rows[id]);
    var b := new Doc(id, db.rows[id]);
    a.body, b.body := mine, yours;
    err1 := Save(db, a, false, true, false, first);
    err2 := Save(db, b, false, true, false, second);
  }

  /** A writer that loaded a row before it was soft-deleted cannot clear the deletion. */
  method DeletedMeanwhile(db: Store, id: Id, yours: string, actor: string, reason: string, first: Env, second: Env)
      returns (err1: Option<Error>, err2: Option<Error>)
    requires id != "" && id in db.rows && first.nonce != db.rows[id].rev
    requires first.putOk && first.beginOk && first.commitOk && second.beginOk && second.preOk
    modifies db
    ensures err1.None? && err2 == Some(RevisionConflict)
    ensures id in db.rows && db.rows[id].deletedAt == Some(first.now) && db.rows[id].body == old(db.rows[id].body)
  {
    var a := new Doc(id, db.rows[id]);
    var b := new Doc(id, db.rows[id]);
    b.body, b.deletedAt := yours, None;
    err1 := SoftDelete(db, a, false, true, false, actor, reason, first);
    err2 := Save(db, b, false, true, false, second);
  }
}

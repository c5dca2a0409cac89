/** Deleting everything a query matches, in chunks of bounded size, inside one transaction. */
module ChunkedDelete {

  type Id = string

  datatype Row<D> = Row(deleted: bool, data: D)

  /** le is the ORDER BY comparison: rows may tie, and without a sort all rows do. */
  ghost predicate TotalPreorder<D(!new)>(le: (Row<D>, Row<D>) -> bool)
  {
    (forall a, b :: le(a, b) || le(b, a)) && forall a, b, c :: le(a, b) && le(b, c) ==> le(a, c)
  }

  /** Every id of first is ordered no later than every id of all - first. */
  ghost predicate ComesFirst<D(!new)>(le: (Row<D>, Row<D>) -> bool, table: map<Id, Row<D>>, first: set<Id>,
      all: set<Id>)
    requires first <= all <= table.Keys
  {
    forall i, j :: i in first && j in all - first ==> le(table[i], table[j])
  }

  function Min(a: int, b: int): int
  {
    if a < b then a else b
  }

  lemma {:induction false} LeastExists<D(!new)>(le: (Row<D>, Row<D>) -> bool, table: map<Id, Row<D>>,
      ids: set<Id>) returns (least: Id)
    requires TotalPreorder(le) && ids != {} && ids <= table.Keys
    ensures least in ids && forall j :: j in ids ==> le(table[least], table[j])
    decreases |ids|
  {
    var i :| i in ids;
    if ids == {i} {
      least := i;
      assert le(table[i], table[i]);
    } else {
      var m := LeastExists(le, table, ids - {i});
      least := if le(table[i], table[m]) then i else m;
    }
  }

  lemma {:induction false} SubsetSize<T>(a: set<T>, b: set<T>)
    requires a <= b
    ensures |a| <= |b| && |b - a| == |b| - |a| && (|a| == |b| ==> a == b)
  {
    assert b == a + (b - a);
    if |a| == |b| { assert b - a == {}; }
  }

  lemma {:induction false} OneOutside<T>(a: set<T>, b: set<T>) returns (x: T)
    requires |a| > |b|
    ensures x in a && x !in b
  {
    SubsetSize(a * b, b);
    assert a * b != a;
    x :| x in a && x !in b;
  }

  /** Taking the first rows of what is left after taking the first rows is taking the first rows. */
  lemma {:induction false} FirstThenFirst<D(!new)>(le: (Row<D>, Row<D>) -> bool, table: map<Id, Row<D>>, first: set<Id>,
      next: set<Id>, all: set<Id>)
    requires first <= all <= table.Keys && next <= all - first
    requires ComesFirst(le, table, first, all) && ComesFirst(le, table, next, all - first)
    ensures ComesFirst(le, table, first + next, all)
  {
  }

  class QuerySet<D(!new)> {
    const cond: Row<D> -> bool                // the query's conditions
    const le: (Row<D>, Row<D>) -> bool        // its order
    const limitN: int                         // no limit unless positive
    const includeDeleted: bool
    const hasSoftDelete: bool                 // of the collection
    const hardDelete: bool                    // the HardDelete option
    const stamp: D -> D                       // what a soft delete writes besides the deletion mark
    const chunkSize: nat
    const vetoed: set<Id>                     // rows whose hooks before the write, or the write itself, fail
    const afterVetoed: set<Id>                // rows whose hooks after the write fail
    const undecodable: set<Id>
    var table: map<Id, Row<D>>

    constructor (cond: Row<D> -> bool, le: (Row<D>, Row<D>) -> bool, limitN: int, includeDeleted: bool,
        hasSoftDelete: bool, hardDelete: bool,
                 stamp: D -> D, chunkSize: nat, vetoed: set<Id>, afterVetoed: set<Id>, undecodable: set<Id>,
                   table: map<Id, Row<D>>)
      requires chunkSize >= 1 && TotalPreorder(le)
      ensures Valid() && this.table == table && this.limitN == limitN
    {
      this.cond, this.le, this.limitN, this.includeDeleted := cond, le, limitN, includeDeleted;
      this.hasSoftDelete, this.hardDelete, this.stamp, this.chunkSize := hasSoftDelete, hardDelete, stamp, chunkSize;
      this.vetoed, this.afterVetoed, this.undecodable, this.table := vetoed, afterVetoed, undecodable, table;
    }

    ghost predicate Valid()
    {
      chunkSize >= 1 && TotalPreorder(le)
    }

    predicate SoftPath()
    {
      hasSoftDelete && !hardDelete
    }

    /** The conditions with the automatic filter on soft-deleted rows. */
    predicate Matches(row: Row<D>)
    {
      cond(row) && (hasSoftDelete && !includeDeleted ==> !row.deleted)
    }

    function Matching(t: map<Id, Row<D>>): (ids: set<Id>)
      ensures forall id :: id in ids <==> id in t && Matches(t[id])
    {
      set id | id in t && Matches(t[id])
    }

    function SoftDeleted(row: Row<D>): Row<D>
    {
      Row(true, stamp(row.data))
    }

    /** The table after deleting exactly the rows in gone. */
    function Without(t: map<Id, Row<D>>, gone: set<Id>): map<Id, Row<D>>
    {
      if SoftPath() then map id | id in t :: if id in gone then SoftDeleted(t[id]) else t[id]
      else map id | id in t && id !in gone :: t[id]
    }

    /** Deleting a row always takes it out of the match set. */
    ghost predicate RowsLeave()
    {
      SoftPath() ==> forall row :: !Matches(SoftDeleted(row))
    }

    /** On the hard path, on the soft path unless the query asks for deleted rows too, and if it wants none of those. */
    lemma {:induction false} RowsLeaveUnlessIncluded()
      ensures RowsLeave() <==>
        !hasSoftDelete || hardDelete || !includeDeleted || forall d: D :: !cond(Row(true, stamp(d)))
    {
      if hasSoftDelete && !hardDelete && includeDeleted && RowsLeave() {
        forall d: D ensures !cond(Row(true, stamp(d))) {
          assert !Matches(SoftDeleted(Row(false, d)));
        }
      }
    }

    lemma {:induction false} MatchingShrinks(t: map<Id, Row<D>>, gone: set<Id>)
      requires RowsLeave() && gone <= Matching(t)
      ensures Matching(Without(t, gone)) == Matching(t) - gone
    {
    }

    lemma {:induction false} WithoutBoth(t: map<Id, Row<D>>, a: set<Id>, b: set<Id>)
      requires a !! b
      ensures Without(Without(t, a), b) == Without(t, a + b)
    {
      assert Without(Without(t, a), b).Keys == Without(t, a + b).Keys;
    }

    function Target(matches: int): int
    {
      if limitN > 0 then Min(limitN, matches) else matches
    }

    lemma {:induction false} NextFirst(t: map<Id, Row<D>>, ids: seq<Id>, id: Id, all: set<Id>, rest: set<Id>)
      requires rest <= all <= t.Keys && Elems(ids) == all - rest && id in rest
      requires ComesFirst(le, t, Elems(ids), all) && forall j :: j in rest ==> le(t[id], t[j])
      ensures Elems(ids + [id]) == all - (rest - {id}) && ComesFirst(le, t, Elems(ids + [id]), all)
    {
      FirstThenFirst(le, t, Elems(ids), {id}, all);
      assert Elems(ids + [id]) == Elems(ids) + {id};
    }

    /** The rows a query with LIMIT n returns: that many, in order; ties fall as the backend likes. */
    method Query(n: nat) returns (ids: seq<Id>)
      requires Valid() && n >= 1
      ensures forall id :: id in ids ==> id in Matching(table)
      ensures forall i, j :: 0 <= i < j < |ids| ==> ids[i] != ids[j]
      ensures |ids| == Min(n, |Matching(table)|)
      ensures ComesFirst(le, table, Elems(ids), Matching(table))
    {
      ids := [];
      var rest := Matching(table);
      ghost var all := rest;
      while rest != {} && |ids| < n
        invariant |ids| <= n && |ids| + |rest| == |all| && rest <= all <= table.Keys
        invariant Elems(ids) == all - rest
        invariant forall i, j :: 0 <= i < j < |ids| ==> ids[i] != ids[j]
        invariant ComesFirst(le, table, Elems(ids), all)
        decreases |rest|
      {
        ghost var least := LeastExists(le, table, rest);
        var id :| id in rest && forall j :: j in rest ==> le(table[id], table[j]);
        NextFirst(table, ids, id, all, rest);
        rest := rest - {id};
        ids := ids + [id];
      }
      assert forall id :: id in ids ==> id in Elems(ids);
    }

    ghost function Elems(ids: seq<Id>): set<Id>
    {
      set id | id in ids
    }

    /** The rows that make the call fail. */
    function Failing(): set<Id>
    {
      vetoed + afterVetoed + undecodable
    }

    /** Delete one row: hooks, then mark it or drop it, then hooks again; when those fail the row is gone already. */
    method DeleteRow(id: Id) returns (ok: bool)
      requires id in table
      modifies this
      ensures ok <==> id !in vetoed + afterVetoed
      ensures table == if id in vetoed then old(table) else Without(old(table), {id})
      ensures id in vetoed ==> table == old(table)
      ensures forall i :: i in old(table) && i != id ==> i in table && table[i] == old(table)[i]
      ensures id !in vetoed && (!hasSoftDelete || hardDelete) ==> table.Keys == old(table).Keys - {id}
      ensures id !in vetoed && hasSoftDelete && !hardDelete ==>
        table.Keys == old(table).Keys && table[id] == Row(true, stamp(old(table)[id].data))
    {
      if id in vetoed { return false; }
      if SoftPath() {
        table := table[id := SoftDeleted(table[id])];
      } else {
        table := map i | i in table && i != id :: table[i];
      }
      assert table == Without(old(table), {id});
      ok := id !in afterVetoed;
    }

    lemma {:induction false} NextElem(ids: seq<Id>, n: nat)
      requires n < |ids| && forall i, j :: 0 <= i < j < |ids| ==> ids[i] != ids[j]
      ensures ids[n] in Elems(ids) && ids[n] !in Elems(ids[..n]) && Elems(ids[..n + 1]) == Elems(ids[..n]) + {ids[n]}
      ensures |Elems(ids[..n + 1])| == |Elems(ids[..n])| + 1
    {
    }

    /** The writes of one chunk; a row that fails stops it. */
    method DeleteRows(ids: seq<Id>) returns (ok: bool, n: nat, ghost done: set<Id>)
      requires Elems(ids) <= table.Keys && forall i, j :: 0 <= i < j < |ids| ==> ids[i] != ids[j]
      modifies this
      ensures done <= Elems(ids) && table == Without(old(table), done)
      ensures ok <==> Elems(ids) !! vetoed + afterVetoed
      ensures ok ==> n == |ids| == |done| && done == Elems(ids)
    {
      ghost var t0 := table;
      n, done := 0, {};
      assert table == Without(t0, {});
      while n < |ids|
        invariant n <= |ids| && done == Elems(ids[..n]) && |done| == n
        invariant table == Without(t0, done) && done !! vetoed + afterVetoed
      {
        var id := ids[n];
        NextElem(ids, n);
        ok := DeleteRow(id);
        WithoutBoth(t0, done, {id});
        if !ok {
          if id !in vetoed { done := done + {id}; }
          return;
        }
        n, done := n + 1, done + {id};
      }
      assert ids[..n] == ids;
      ok := true;
    }

    /** Progress of the chunk loop: gone is the first count rows of the original match set, and only they are gone. */
    ghost predicate Progress(t0: map<Id, Row<D>>, t: map<Id, Row<D>>, gone: set<Id>, count: nat)
    {
      gone <= Matching(t0) && |gone| == count && t == Without(t0, gone) &&
      ComesFirst(le, t0, gone, Matching(t0)) && gone !! Failing()
    }

    lemma {:induction false} NoProgress(t: map<Id, Row<D>>)
      ensures Progress(t, t, {}, 0)
    {
    }

    /** A chunk comes first among what is left of the original match set, in the original rows. */
    lemma {:induction false} FirstOfRest(t0: map<Id, Row<D>>, gone: set<Id>, all: set<Id>, chunk: set<Id>)
      requires all == Matching(t0) && gone <= all && ComesFirst(le, t0, gone, all)
      requires chunk <= all - gone <= Without(t0, gone).Keys && ComesFirst(le, Without(t0, gone), chunk, all - gone)
      ensures ComesFirst(le, t0, gone + chunk, all)
    {
      assert forall id :: id in all - gone ==> Without(t0, gone)[id] == t0[id];
      FirstThenFirst(le, t0, gone, chunk, all);
    }

    /** What is left to match after the rows in gone, if they left or if there are none yet. */
    lemma {:induction false} RestMatches(t0: map<Id, Row<D>>, t: map<Id, Row<D>>, gone: set<Id>)
      requires (RowsLeave() || gone == {}) && gone <= Matching(t0) && t == Without(t0, gone)
      ensures Matching(t) == Matching(t0) - gone
    {
      if gone == {} {
        assert Without(t0, {}) == t0;
      } else {
        MatchingShrinks(t0, gone);
      }
    }

    lemma {:induction false} ChunkProgress(
      t0: map<Id, Row<D>>, t: map<Id, Row<D>>, t': map<Id, Row<D>>, gone: set<Id>, count: nat, chunk: set<Id>)
      requires Progress(t0, t, gone, count) && (RowsLeave() || gone == {})
      requires chunk <= Matching(t) && t' == Without(t, chunk) && chunk !! Failing()
      requires ComesFirst(le, t, chunk, Matching(t))
      ensures Progress(t0, t', gone + chunk, count + |chunk|)
    {
      RestMatches(t0, t, gone);
      assert gone !! chunk;
      WithoutBoth(t0, gone, chunk);
      FirstOfRest(t0, gone, Matching(t0), chunk);
    }

    lemma {:induction false} ChunkStopped(
      t0: map<Id, Row<D>>, t: map<Id, Row<D>>, t': map<Id, Row<D>>, gone: set<Id>, count: nat, part: set<Id>)
      requires Progress(t0, t, gone, count) && (RowsLeave() || gone == {}) && part <= Matching(t) &&
        t' == Without(t, part)
      ensures gone + part <= Matching(t0) && t' == Without(t0, gone + part)
    {
      RestMatches(t0, t, gone);
      assert gone !! part;
      WithoutBoth(t0, gone, part);
    }

    lemma {:induction false} ElemsSize(ids: seq<Id>)
      requires forall i, j :: 0 <= i < j < |ids| ==> ids[i] != ids[j]
      ensures |Elems(ids)| == |ids|
    {
      if ids == [] {
      } else {
        var n := |ids| - 1;
        ElemsSize(ids[..n]);
        assert Elems(ids) == Elems(ids[..n]) + {ids[n]};
      }
    }

    /** Query one chunk and decode it. */
    method Drain(n: nat) returns (ok: bool, ids: seq<Id>)
      requires Valid() && n >= 1
      ensures Elems(ids) <= Matching(table) && |Elems(ids)| == |ids| == Min(n, |Matching(table)|)
      ensures forall i, j :: 0 <= i < j < |ids| ==> ids[i] != ids[j]
      ensures ComesFirst(le, table, Elems(ids), Matching(table))
      ensures ok <==> Elems(ids) !! undecodable
    {
      ids := Query(n);
      ElemsSize(ids);
      ok := forall id :: id in ids ==> id !in undecodable;
    }

    // ---------------------------------------------------------------------------------------
    // Rounds
    // ---------------------------------------------------------------------------------------

    function TableAfter(t: map<Id, Row<D>>, chunks: seq<set<Id>>): map<Id, Row<D>>
    {
      if chunks == [] then t else TableAfter(Without(t, chunks[0]), chunks[1..])
    }

    function Total(rounds: seq<set<Id>>): nat
    {
      if rounds == [] then 0 else Total(rounds[..|rounds| - 1]) + |rounds[|rounds| - 1]|
    }

    function Gone(rounds: seq<set<Id>>): set<Id>
    {
      if rounds == [] then {} else Gone(rounds[..|rounds| - 1]) + rounds[|rounds| - 1]
    }

    /** How many rows the next round asks for when count rows have been deleted; none once the limit is reached. */
    function Size(count: int): int
    {
      if limitN > 0 then Min(chunkSize, limitN - count) else chunkSize
    }

    /** What a query with LIMIT n returns: the first rows of the match set. */
    ghost predicate IsChunk(t: map<Id, Row<D>>, n: int, chunk: set<Id>)
    {
      chunk <= Matching(t) && |chunk| == Min(n, |Matching(t)|) && ComesFirst(le, t, chunk, Matching(t))
    }

    /** Round k deletes such a chunk of the table as it then is, and only a full round has a successor. */
    ghost predicate RoundAt(t: map<Id, Row<D>>, rounds: seq<set<Id>>, k: nat)
      requires k < |rounds|
    {
      var n := Size(Total(rounds[..k]));
      n > 0 && IsChunk(TableAfter(t, rounds[..k]), n, rounds[k]) && rounds[k] !! Failing() &&
      (k < |rounds| - 1 ==> |rounds[k]| == n)
    }

    ghost predicate Rounds(t: map<Id, Row<D>>, rounds: seq<set<Id>>)
    {
      forall k :: 0 <= k < |rounds| ==> RoundAt(t, rounds, k)
    }

    predicate LastIsFull(rounds: seq<set<Id>>)
    {
      rounds != [] ==> |rounds[|rounds| - 1]| == Size(Total(rounds[..|rounds| - 1]))
    }

    /** The loop stops: the limit is reached, or the last round was not full. */
    predicate Over(rounds: seq<set<Id>>)
    {
      (limitN > 0 && Total(rounds) >= limitN) || !LastIsFull(rounds)
    }

    lemma {:induction false} TableAfterPush(t: map<Id, Row<D>>, rounds: seq<set<Id>>, chunk: set<Id>)
      ensures TableAfter(t, rounds + [chunk]) == Without(TableAfter(t, rounds), chunk)
      decreases |rounds|
    {
      if rounds == [] {
        assert ([] + [chunk])[1..] == [];
      } else {
        assert (rounds + [chunk])[1..] == rounds[1..] + [chunk];
        TableAfterPush(Without(t, rounds[0]), rounds[1..], chunk);
      }
    }

    lemma {:induction false} Pushed(rounds: seq<set<Id>>, chunk: set<Id>)
      ensures (rounds + [chunk])[..|rounds|] == rounds
      ensures Total(rounds + [chunk]) == Total(rounds) + |chunk| && Gone(rounds + [chunk]) == Gone(rounds) + chunk
    {
      assert (rounds + [chunk])[..|rounds|] == rounds;
    }

    lemma {:induction false} AnotherRound(t: map<Id, Row<D>>, rounds: seq<set<Id>>, chunk: set<Id>)
      requires Rounds(t, rounds) && LastIsFull(rounds) && Size(Total(rounds)) > 0
      requires IsChunk(TableAfter(t, rounds), Size(Total(rounds)), chunk) && chunk !! Failing()
      ensures Rounds(t, rounds + [chunk])
    {
      Pushed(rounds, chunk);
      forall k | 0 <= k < |rounds| + 1 ensures RoundAt(t, rounds + [chunk], k) {
        assert (rounds + [chunk])[..k] == rounds[..k];
        if k < |rounds| { assert RoundAt(t, rounds, k); } else { assert rounds[..k] == rounds; }
      }
    }

    lemma {:induction false} FewerRounds(t: map<Id, Row<D>>, rounds: seq<set<Id>>)
      requires rounds != [] && Rounds(t, rounds)
      ensures Rounds(t, rounds[..|rounds| - 1]) && LastIsFull(rounds[..|rounds| - 1])
      ensures RoundAt(t, rounds, |rounds| - 1)
      ensures TableAfter(t, rounds) == Without(TableAfter(t, rounds[..|rounds| - 1]), rounds[|rounds| - 1])
    {
      var m := |rounds| - 1;
      assert rounds == rounds[..m] + [rounds[m]];
      TableAfterPush(t, rounds[..m], rounds[m]);
      forall k | 0 <= k < m ensures RoundAt(t, rounds[..m], k) {
        assert rounds[..m][..k] == rounds[..k] && RoundAt(t, rounds, k);
      }
      if m > 0 { assert RoundAt(t, rounds, m - 1) && rounds[..m][..m - 1] == rounds[..m - 1]; }
    }

    lemma {:induction false} TotalWithinLimit(t: map<Id, Row<D>>, rounds: seq<set<Id>>)
      requires Rounds(t, rounds) && limitN > 0
      ensures Total(rounds) <= limitN
    {
      if rounds == [] {
      } else {
        FewerRounds(t, rounds);
      }
    }

    /** Rows not deleted yet are as they were, and those that match now matched at first. */
    lemma {:induction false} Untouched(t: map<Id, Row<D>>, rounds: seq<set<Id>>)
      requires Rounds(t, rounds)
      ensures Matching(TableAfter(t, rounds)) <= Matching(t)
      ensures forall id :: id in t && id !in Gone(rounds) ==>
        id in TableAfter(t, rounds) && TableAfter(t, rounds)[id] == t[id]
      decreases |rounds|
    {
      if rounds == [] {
      } else {
        FewerRounds(t, rounds);
        Untouched(t, rounds[..|rounds| - 1]);
      }
    }

    /** When the last round was not full, every row that matched has been deleted. */
    lemma {:induction false} AllGone(t: map<Id, Row<D>>, rounds: seq<set<Id>>)
      requires Rounds(t, rounds) && !LastIsFull(rounds)
      ensures Matching(t) <= Gone(rounds) && Gone(rounds) !! Failing()
    {
      var m := |rounds| - 1;
      FewerRounds(t, rounds);
      Untouched(t, rounds[..m]);
      SubsetSize(rounds[m], Matching(TableAfter(t, rounds[..m])));
      NoneFailed(t, rounds);
    }

    lemma {:induction false} NoneFailed(t: map<Id, Row<D>>, rounds: seq<set<Id>>)
      requires Rounds(t, rounds)
      ensures Gone(rounds) !! Failing()
      decreases |rounds|
    {
      if rounds == [] {
      } else {
        FewerRounds(t, rounds);
        NoneFailed(t, rounds[..|rounds| - 1]);
      }
    }

    /** Gone is the union of the rounds. */
    lemma {:induction false} GoneInSomeRound(rounds: seq<set<Id>>, id: Id)
      ensures id in Gone(rounds) <==> exists k :: 0 <= k < |rounds| && id in rounds[k]
    {
      if rounds == [] {
      } else {
        var m := |rounds| - 1;
        GoneInSomeRound(rounds[..m], id);
        if k :| 0 <= k < m && id in rounds[k] { assert id in rounds[..m][k]; }
        if k :| 0 <= k < m && id in rounds[..m][k] { assert id in rounds[k]; }
      }
    }

    /** Every round but the last fills a chunk. */
    lemma {:induction false} RoundSizes(t: map<Id, Row<D>>, rounds: seq<set<Id>>, k: nat)
      requires Rounds(t, rounds) && k < |rounds|
      ensures |rounds[k]| <= chunkSize && (k < |rounds| - 1 ==> |rounds[k]| == chunkSize)
    {
      assert RoundAt(t, rounds, k);
      if k < |rounds| - 1 {
        assert RoundAt(t, rounds, k + 1);
        assert rounds[..k + 1][..k] == rounds[..k];
      }
    }

    /** One more round: rows dropped on the hard path, marked on the soft path. */
    lemma {:induction false} WithoutSays(t: map<Id, Row<D>>, gone: set<Id>)
      ensures Without(t, gone).Keys == if hasSoftDelete && !hardDelete then t.Keys else t.Keys - gone
      ensures forall id :: id in Without(t, gone) && id !in gone ==> Without(t, gone)[id] == t[id]
      ensures forall id :: id in Without(t, gone) && id in gone ==> Without(t, gone)[id] == Row(true, stamp(t[id].data))
    {
      assert Without(t, gone).Keys == if hasSoftDelete && !hardDelete then t.Keys else t.Keys - gone;
    }

    /** What is in the table after some rounds. */
    lemma {:induction false} TableOf(t: map<Id, Row<D>>, rounds: seq<set<Id>>)
      requires Rounds(t, rounds)
      ensures Gone(rounds) <= Matching(t)
      ensures var now := TableAfter(t, rounds);
        && now.Keys == (if hasSoftDelete && !hardDelete then t.Keys else t.Keys - Gone(rounds))
        && (forall id :: id in now && id !in Gone(rounds) ==> now[id] == t[id])
        && (forall id :: id in now && id in Gone(rounds) ==> now[id].deleted)
      decreases |rounds|
    {
      if rounds == [] {
      } else {
        var m := |rounds| - 1;
        FewerRounds(t, rounds);
        Untouched(t, rounds[..m]);
        TableOf(t, rounds[..m]);
        RoundAfter(t, TableAfter(t, rounds[..m]), Gone(rounds[..m]), rounds[m]);
      }
    }

    lemma {:induction false} RoundAfter(t: map<Id, Row<D>>, now: map<Id, Row<D>>, gone: set<Id>, chunk: set<Id>)
      requires now.Keys == (if hasSoftDelete && !hardDelete then t.Keys else t.Keys - gone)
      requires forall id :: id in now && id !in gone ==> now[id] == t[id]
      requires forall id :: id in now && id in gone ==> now[id].deleted
      ensures var next := Without(now, chunk);
        && next.Keys == (if hasSoftDelete && !hardDelete then t.Keys else t.Keys - (gone + chunk))
        && (forall id :: id in next && id !in gone + chunk ==> next[id] == t[id])
        && (forall id :: id in next && id in gone + chunk ==> next[id].deleted)
    {
      WithoutSays(now, chunk);
    }

    ghost predicate OnlyRound(rounds: seq<set<Id>>, k: nat, id: Id)
    {
      forall j :: 0 <= j < |rounds| && j != k ==> id !in rounds[j]
    }

    /** A row that one round only has deleted is its old data, stamped once. */
    lemma {:induction false} MarkedOnce(t: map<Id, Row<D>>, rounds: seq<set<Id>>, k: nat, id: Id)
      requires Rounds(t, rounds) && hasSoftDelete && !hardDelete && k < |rounds| && id in rounds[k]
      requires OnlyRound(rounds, k, id)
      ensures id in t && id in TableAfter(t, rounds) && TableAfter(t, rounds)[id] == Row(true, stamp(t[id].data))
      decreases |rounds|
    {
      var m := |rounds| - 1;
      FewerRounds(t, rounds);
      TableOf(t, rounds);
      TableOf(t, rounds[..m]);
      if k < m {
        MarkedOnce(t, rounds[..m], k, id);
      } else {
        GoneInSomeRound(rounds[..m], id);
        GoneInSomeRound(rounds, id);
      }
    }

    // ---------------------------------------------------------------------------------------
    // When rounds amount to one pass
    // ---------------------------------------------------------------------------------------

    /** Rows that are deleted stop matching, or one chunk is all there is to do. */
    ghost predicate OneShotApplies(t: map<Id, Row<D>>)
    {
      RowsLeave() || |Matching(t)| < chunkSize || 0 < limitN <= chunkSize
    }

    lemma {:induction false} OneRound(t: map<Id, Row<D>>, rounds: seq<set<Id>>)
      requires Rounds(t, rounds) && OneShotApplies(t)
      ensures RowsLeave() || |rounds| <= 1
    {
      if |rounds| > 1 {
        assert RoundAt(t, rounds, 0) && RoundAt(t, rounds, 1);
        assert rounds[..0] == [] && rounds[..1] == [rounds[0]] && rounds[..1][..0] == [];
        assert TableAfter(t, rounds[..0]) == t && Total(rounds[..0]) == 0;
        assert Total(rounds[..1]) == |rounds[0]|;
      }
    }

    /** Then the rows deleted are the first of the original match set. */
    lemma {:induction false} RoundsAreOnePass(t: map<Id, Row<D>>, rounds: seq<set<Id>>)
      requires Rounds(t, rounds) && (RowsLeave() || |rounds| <= 1)
      ensures Progress(t, TableAfter(t, rounds), Gone(rounds), Total(rounds))
      decreases |rounds|
    {
      if rounds == [] {
        NoProgress(t);
      } else {
        var m := |rounds| - 1;
        FewerRounds(t, rounds);
        RoundsAreOnePass(t, rounds[..m]);
        ChunkProgress(t, TableAfter(t, rounds[..m]), TableAfter(t, rounds), Gone(rounds[..m]), Total(rounds[..m]),
          rounds[m]);
      }
    }

    lemma {:induction false} TargetReached(t: map<Id, Row<D>>, rounds: seq<set<Id>>)
      requires Rounds(t, rounds) && OneShotApplies(t) && Over(rounds)
      ensures Progress(t, TableAfter(t, rounds), Gone(rounds), Total(rounds)) && Total(rounds) == Target(|Matching(t)|)
    {
      OneRound(t, rounds);
      RoundsAreOnePass(t, rounds);
      SubsetSize(Gone(rounds), Matching(t));
      if limitN > 0 { TotalWithinLimit(t, rounds); }
      if !LastIsFull(rounds) {
        AllGone(t, rounds);
        SubsetSize(Matching(t), Gone(rounds));
      }
    }

    /**
      What the rounds leave of a table. A hard delete leaves exactly the other rows, a soft delete all rows: the
      others as they were, those of one round marked and stamped once.
     */
    ghost predicate Leaves(t0: map<Id, Row<D>>, t: map<Id, Row<D>>, rounds: seq<set<Id>>)
    {
      && t.Keys == (if hasSoftDelete && !hardDelete then t0.Keys else t0.Keys - Gone(rounds))
      && (forall id :: id in t0 && id in t && id !in Gone(rounds) ==> t[id] == t0[id])
      && (forall id :: id in t && id in Gone(rounds) ==> t[id].deleted)
      && forall k: nat, id :: k < |rounds| && id in rounds[k] && OnlyRound(rounds, k, id) && id in t ==>
        id in t0 && t[id] == Row(true, stamp(t0[id].data))
    }

    lemma {:induction false} RowsLeft(t: map<Id, Row<D>>, rounds: seq<set<Id>>)
      requires Rounds(t, rounds)
      ensures Leaves(t, TableAfter(t, rounds), rounds)
    {
      TableOf(t, rounds);
      forall k: nat, id | k < |rounds| && id in rounds[k] && OnlyRound(rounds, k, id) && id in TableAfter(t, rounds)
        ensures id in t && TableAfter(t, rounds)[id] == Row(true, stamp(t[id].data)) {
        GoneInSomeRound(rounds, id);
        MarkedOnce(t, rounds, k, id);
      }
    }

    /** The first rows of what the query asks for, as many as the limit allows, each counted once. */
    ghost predicate FirstOnes(t: map<Id, Row<D>>, gone: set<Id>, count: int)
    {
      var all := set id | id in t && cond(t[id]) && (hasSoftDelete && !includeDeleted ==> !t[id].deleted);
      && gone <= all && count == |gone| == (if 0 < limitN < |all| then limitN else |all|)
      && forall i, j :: i in gone && j in all - gone ==> le(t[i], t[j])
    }

    lemma {:induction false} FirstOnesGo(t: map<Id, Row<D>>, rounds: seq<set<Id>>)
      requires Rounds(t, rounds) && Over(rounds) && (!hasSoftDelete || hardDelete || !includeDeleted)
      ensures FirstOnes(t, Gone(rounds), Total(rounds))
    {
      RowsLeaveUnlessIncluded();
      TargetReached(t, rounds);
      assert Matching(t)
        == set id | id in t && cond(t[id]) && (hasSoftDelete && !includeDeleted ==> !t[id].deleted);
    }

    // ---------------------------------------------------------------------------------------
    // The loop
    // ---------------------------------------------------------------------------------------

    /** One round: drain at most n rows, then delete them. A row that fails leaves the round unfinished. */
    method Chunk(n: nat) returns (ok: bool, got: nat, ghost chunk: set<Id>)
      requires Valid() && n >= 1
      modifies this
      ensures chunk <= Matching(old(table)) && table == Without(old(table), chunk)
      ensures ok ==> IsChunk(old(table), n, chunk) && got == |chunk| && chunk !! Failing()
      ensures !ok ==> Matching(old(table)) * Failing() != {}
    {
      ghost var t := table;
      var ids;
      ok, ids := Drain(n);
      got, chunk := 0, {};
      if !ok {
        assert Without(t, {}) == t;
        FailureFound(t, Elems(ids));
        return;
      }
      ok, got, chunk := DeleteRows(ids);
      if !ok { FailureFound(t, Elems(ids)); }
    }

    lemma {:induction false} FailureFound(t0: map<Id, Row<D>>, ids: set<Id>)
      requires ids <= Matching(t0) && !(ids !! Failing())
      ensures Matching(t0) * Failing() != {}
    {
      var id :| id in ids && id in Failing();
      assert id in Matching(t0) * Failing();
    }

    /** A soft-deleted row that the query still wants. */
    predicate Stays(row: Row<D>)
    {
      SoftPath() && Matches(SoftDeleted(row))
    }

    function Staying(t: map<Id, Row<D>>): (ids: set<Id>)
      ensures forall id :: id in ids <==> id in t && Matches(t[id]) && Stays(t[id])
    {
      set id | id in t && Matches(t[id]) && Stays(t[id])
    }

    /** Deleting a deleted row again changes nothing that the query looks at. */
    ghost predicate DeletesSettle()
    {
      SoftPath() ==> forall row: Row<D> :: Matches(SoftDeleted(SoftDeleted(row))) <==> Matches(SoftDeleted(row))
    }

    /** The loop comes to an end: there is a limit, or the rows that go on matching never fill a chunk. */
    ghost predicate Ends(t: map<Id, Row<D>>)
    {
      limitN > 0 || |Matching(t)| < chunkSize || (DeletesSettle() && |Staying(t)| < chunkSize)
    }

    lemma {:induction false} LeavingEnds(t: map<Id, Row<D>>)
      requires Valid() && RowsLeave()
      ensures Ends(t)
    {
      assert forall id :: id in t ==> !Stays(t[id]);
      assert Staying(t) == {};
    }

    lemma {:induction false} RoundKeepsStaying(t: map<Id, Row<D>>, chunk: set<Id>)
      requires DeletesSettle() && chunk <= Matching(t)
      ensures Staying(Without(t, chunk)) == Staying(t)
      ensures Matching(Without(t, chunk)) == Matching(t) - (chunk - Staying(t))
    {
      var t' := Without(t, chunk);
      forall id ensures id in Staying(t') <==> id in Staying(t) {
        if id in t && SoftPath() { assert Matches(SoftDeleted(SoftDeleted(t[id]))) <==> Matches(SoftDeleted(t[id])); }
      }
    }

    /** Without a limit a full round leaves fewer rows that match. */
    lemma {:induction false} FullRoundShrinks(t0: map<Id, Row<D>>, t: map<Id, Row<D>>, chunk: set<Id>)
      requires Ends(t0) && limitN <= 0 && Matching(t) <= Matching(t0) && Staying(t) <= Staying(t0)
      requires chunk <= Matching(t) && |chunk| == chunkSize
      ensures DeletesSettle() && |Staying(t)| < chunkSize && |Matching(Without(t, chunk))| < |Matching(t)|
    {
      SubsetSize(chunk, Matching(t));
      SubsetSize(Matching(t), Matching(t0));
      SubsetSize(Staying(t), Staying(t0));
      RoundShrinks(t, chunk);
    }

    lemma {:induction false} RoundShrinks(t: map<Id, Row<D>>, chunk: set<Id>)
      requires DeletesSettle() && chunk <= Matching(t) && |chunk| > |Staying(t)|
      ensures Matching(Without(t, chunk)) <= Matching(t) && |Matching(Without(t, chunk))| < |Matching(t)|
    {
      RoundKeepsStaying(t, chunk);
      var id := OneOutside(chunk, Staying(t));
      SubsetSize(Matching(Without(t, chunk)), Matching(t));
      assert id in Matching(t) - Matching(Without(t, chunk));
    }

    /** What stays has not grown, unless the loop has a limit or deletes everything in one round. */
    ghost predicate Bounded(t0: map<Id, Row<D>>, t: map<Id, Row<D>>)
    {
      Matching(t) <= Matching(t0) && (DeletesSettle() ==> Staying(t) == Staying(t0))
    }

    lemma {:induction false} RoundBounded(t0: map<Id, Row<D>>, t: map<Id, Row<D>>, chunk: set<Id>)
      requires Bounded(t0, t) && chunk <= Matching(t)
      ensures Bounded(t0, Without(t, chunk))
    {
      if DeletesSettle() { RoundKeepsStaying(t, chunk); }
    }

    /** Tables and rounds that the loop may have behind it when it goes round again. */
    ghost function Reached(t0: map<Id, Row<D>>): iset<(map<Id, Row<D>>, seq<set<Id>>)>
    {
      iset s: (map<Id, Row<D>>, seq<set<Id>>) |
        Rounds(t0, s.1) && LastIsFull(s.1) && s.0 == TableAfter(t0, s.1) && Bounded(t0, s.0)
    }

    lemma {:induction false} ReachedIs(t0: map<Id, Row<D>>, t: map<Id, Row<D>>, rounds: seq<set<Id>>)
      requires (t, rounds) in Reached(t0)
      ensures Rounds(t0, rounds) && LastIsFull(rounds) && t == TableAfter(t0, rounds)
    {
    }

    lemma {:induction false} AtFirst(t: map<Id, Row<D>>)
      ensures (t, []) in Reached(t)
    {
    }

    lemma {:induction false} RoundRan(t0: map<Id, Row<D>>, t: map<Id, Row<D>>, rounds: seq<set<Id>>, chunk: set<Id>)
      requires (t, rounds) in Reached(t0) && Size(Total(rounds)) > 0
      requires IsChunk(t, Size(Total(rounds)), chunk) && chunk !! Failing()
      ensures Rounds(t0, rounds + [chunk]) && Total(rounds + [chunk]) == Total(rounds) + |chunk|
      ensures TableAfter(t0, rounds + [chunk]) == Without(t, chunk)
      ensures LastIsFull(rounds + [chunk]) <==> |chunk| == Size(Total(rounds))
      ensures |chunk| == Size(Total(rounds)) ==> (Without(t, chunk), rounds + [chunk]) in Reached(t0)
    {
      AnotherRound(t0, rounds, chunk);
      Pushed(rounds, chunk);
      TableAfterPush(t0, rounds, chunk);
      RoundBounded(t0, t, chunk);
    }

    lemma {:induction false} ReachedShrinks(t0: map<Id, Row<D>>, t: map<Id, Row<D>>, rounds: seq<set<Id>>,
        chunk: set<Id>)
      requires (t, rounds) in Reached(t0) && Ends(t0) && limitN <= 0 && chunk <= Matching(t) && |chunk| == chunkSize
      ensures |Matching(Without(t, chunk))| < |Matching(t)|
    {
      if !DeletesSettle() {
        SubsetSize(chunk, Matching(t));
        SubsetSize(Matching(t), Matching(t0));
      } else {
        FullRoundShrinks(t0, t, chunk);
      }
    }

    /**
      The chunk loop: round after round until the limit is reached or a round is not full. Where one pass would
      do, it deletes what one pass over the ordered match set would: the first Target rows and no others.
     */
    method Chunks() returns (ok: bool, count: nat, ghost rounds: seq<set<Id>>, ghost part: set<Id>)
      requires Valid() && Ends(table)
      modifies this
      ensures Rounds(old(table), rounds) && count == Total(rounds)
      ensures ok ==> part == {} && table == TableAfter(old(table), rounds) && Over(rounds)
      ensures !ok ==> part <= Matching(TableAfter(old(table), rounds))
      ensures !ok ==> table == Without(TableAfter(old(table), rounds), part)
      ensures !ok ==> LastIsFull(rounds) && Size(count) > 0 && Matching(old(table)) * Failing() != {}
    {
      ghost var t0 := table;
      ok, count, rounds, part := true, 0, [], {};
      AtFirst(t0);
      while true
        invariant ok && part == {} && count == Total(rounds) && (table, rounds) in Reached(t0)
        decreases if limitN > 0 then limitN - count else |Matching(table)|
      {
        ghost var t := table;
        ReachedIs(t0, t, rounds);
        var n: int := chunkSize;
        if limitN > 0 {
          var remaining := limitN - count;
          if remaining <= 0 { return; }
          if n > remaining { n := remaining; }
        }
        var got;
        ghost var chunk;
        ok, got, chunk := Chunk(n);
        if !ok {
          part := chunk;
          FailsFromStart(t0, t, rounds);
          return;
        }
        RoundRan(t0, t, rounds, chunk);
        if limitN <= 0 && got == n { ReachedShrinks(t0, t, rounds, chunk); }
        rounds, count := rounds + [chunk], count + got;
        if got == 0 { return; }
        if got < n { return; }
      }
    }

    lemma {:induction false} FailsFromStart(t0: map<Id, Row<D>>, t: map<Id, Row<D>>, rounds: seq<set<Id>>)
      requires (t, rounds) in Reached(t0) && Matching(t) * Failing() != {}
      ensures Matching(t0) * Failing() != {}
    {
      var id :| id in Matching(t) * Failing();
      assert id in Matching(t0) * Failing();
    }

    /**
      Bound to a database the loop runs in a transaction of its own, which an error rolls back;
      bound to a transaction it runs inline, and what to keep is the caller's decision.
     */
    method Delete(inline: bool) returns (ok: bool, count: nat, ghost rounds: seq<set<Id>>, ghost part: set<Id>)
      requires Valid() && Ends(table)
      modifies this
      ensures Rounds(old(table), rounds)
      ensures ok ==> table == TableAfter(old(table), rounds) && count == Total(rounds) && Over(rounds)
      ensures ok && (!hasSoftDelete || hardDelete) ==> table.Keys == old(table).Keys - Gone(rounds)
      ensures ok && hasSoftDelete && !hardDelete ==> table.Keys == old(table).Keys
      ensures ok ==> Leaves(old(table), table, rounds)
      ensures forall id :: id in Gone(rounds) ==>
        id in old(table) && cond(old(table)[id]) && (hasSoftDelete && !includeDeleted ==> !old(table)[id].deleted)
      ensures ok && limitN <= 0 ==>
        forall id | id in old(table) && cond(old(table)[id]) && (hasSoftDelete && !includeDeleted ==>
          !old(table)[id].deleted) :: id in Gone(rounds)
      ensures ok && (!hasSoftDelete || hardDelete || !includeDeleted) ==> FirstOnes(old(table), Gone(rounds), count)
      ensures ok && OneShotApplies(old(table)) ==> Progress(old(table), table, Gone(rounds), count)
      ensures ok && OneShotApplies(old(table)) ==> count == Target(|Matching(old(table))|)
      ensures !ok ==> count == 0 && Matching(old(table)) * Failing() != {}
      ensures !ok && !inline ==> table == old(table)
      ensures !ok && inline ==> part <= Matching(TableAfter(old(table), rounds))
      ensures !ok && inline ==> table == Without(TableAfter(old(table), rounds), part)
      ensures !ok && inline && OneShotApplies(old(table)) ==> Gone(rounds) + part <= Matching(old(table))
      ensures !ok && inline && OneShotApplies(old(table)) ==> table == Without(old(table), Gone(rounds) + part)
      ensures limitN <= 0 ==>
        (ok <==> forall id | id in old(table) && cond(old(table)[id]) && (hasSoftDelete && !includeDeleted ==>
                               !old(table)[id].deleted) :: id !in vetoed + afterVetoed + undecodable)
    {
      var before := table;
      ok, count, rounds, part := Chunks();
      TableOf(before, rounds);
      if ok {
        RowsLeft(before, rounds);
        if !hasSoftDelete || hardDelete || !includeDeleted { FirstOnesGo(before, rounds); }
        if OneShotApplies(before) { TargetReached(before, rounds); }
        if limitN <= 0 { AllGone(before, rounds); }
      } else {
        count := 0;
        if OneShotApplies(before) { StoppedInOnePass(before, rounds, part); }
        if !inline { table := before; }
      }
    }

    lemma {:induction false} StoppedInOnePass(t: map<Id, Row<D>>, rounds: seq<set<Id>>, part: set<Id>)
      requires Rounds(t, rounds) && LastIsFull(rounds) && Size(Total(rounds)) > 0 && OneShotApplies(t)
      requires part <= Matching(TableAfter(t, rounds))
      ensures Gone(rounds) + part <= Matching(t)
      ensures Without(TableAfter(t, rounds), part) == Without(t, Gone(rounds) + part)
    {
      var now := TableAfter(t, rounds);
      OneRound(t, rounds);
      if |rounds| == 1 {
        assert RoundAt(t, rounds, 0) && rounds[..0] == [];
        assert Total(rounds) == |rounds[0]| && TableAfter(t, []) == t;
      }
      RoundsAreOnePass(t, rounds);
      ChunkStopped(t, now, Without(now, part), Gone(rounds), Total(rounds), part);
    }

    lemma {:induction false} TheyTie(t: map<Id, Row<D>>, a: set<Id>, b: set<Id>, i: Id, j: Id)
      requires a <= Matching(t) && b <= Matching(t) && i in a - b && j in b - a
      requires ComesFirst(le, t, a, Matching(t)) && ComesFirst(le, t, b, Matching(t))
      ensures le(t[i], t[j]) && le(t[j], t[i])
    {
    }

    /** Without ties the outcome does not depend on chunking or on the backend's choices. */
    lemma {:induction false} OutcomeIsUnique(t0: map<Id, Row<D>>, t: map<Id, Row<D>>, t': map<Id, Row<D>>,
        gone: set<Id>, gone': set<Id>, count: nat)
      requires forall i, j :: i in Matching(t0) && j in Matching(t0) && le(t0[i], t0[j]) && le(t0[j], t0[i]) ==> i == j
      requires Progress(t0, t, gone, count) && Progress(t0, t', gone', count)
      ensures gone == gone' && t == t'
    {
      if i :| i in gone && i !in gone' {
        if gone' <= gone {
          SubsetSize(gone', gone);
        } else {
          var j :| j in gone' && j !in gone;
          TheyTie(t0, gone, gone', i, j);
          assert false;
        }
      } else {
        SubsetSize(gone, gone');
      }
    }

    // ---------------------------------------------------------------------------------------
    // Rows that go on matching
    // ---------------------------------------------------------------------------------------

    /** One chunk: the loop goes on after it exactly when it is full. */
    ghost predicate FullChunk(t: map<Id, Row<D>>, chunk: set<Id>)
    {
      chunk <= Matching(t) && |chunk| == chunkSize && ComesFirst(le, t, chunk, Matching(t))
    }

    /** Rounds of the loop without a limit, each draining a full chunk. */
    ghost predicate Drained(t: map<Id, Row<D>>, chunks: seq<set<Id>>)
    {
      chunks == [] || (FullChunk(t, chunks[0]) && Drained(Without(t, chunks[0]), chunks[1..]))
    }

    /** Rows that stay are there after any number of rounds; if all do, the match set never changes. */
    lemma {:induction false} IncludedRowsStay(t: map<Id, Row<D>>, chunks: seq<set<Id>>)
      requires DeletesSettle() && Drained(t, chunks)
      ensures Staying(TableAfter(t, chunks)) == Staying(t) && Matching(TableAfter(t, chunks)) <= Matching(t)
      ensures Staying(t) == Matching(t) ==> Matching(TableAfter(t, chunks)) == Matching(t)
      ensures |Staying(t)| < chunkSize ==> |Matching(TableAfter(t, chunks))| + |chunks| <= |Matching(t)|
      decreases |chunks|
    {
      StayingStays(t, chunks);
      if |Staying(t)| < chunkSize { OthersGo(t, chunks); }
    }

    lemma {:induction false} StayingStays(t: map<Id, Row<D>>, chunks: seq<set<Id>>)
      requires DeletesSettle() && Drained(t, chunks)
      ensures Staying(TableAfter(t, chunks)) == Staying(t) && Matching(TableAfter(t, chunks)) <= Matching(t)
      ensures Staying(t) == Matching(t) ==> Matching(TableAfter(t, chunks)) == Matching(t)
      decreases |chunks|
    {
      if chunks == [] {
      } else {
        RoundKeepsStaying(t, chunks[0]);
        StayingStays(Without(t, chunks[0]), chunks[1..]);
      }
    }

    lemma {:induction false} OthersGo(t: map<Id, Row<D>>, chunks: seq<set<Id>>)
      requires DeletesSettle() && Drained(t, chunks) && |Staying(t)| < chunkSize
      ensures |Matching(TableAfter(t, chunks))| + |chunks| <= |Matching(t)|
      decreases |chunks|
    {
      if chunks == [] {
      } else {
        RoundKeepsStaying(t, chunks[0]);
        RoundShrinks(t, chunks[0]);
        OthersGo(Without(t, chunks[0]), chunks[1..]);
      }
    }

    lemma {:induction false} FirstChunk(t: map<Id, Row<D>>, n: nat) returns (chunk: set<Id>)
      requires Valid() && n <= |Matching(t)|
      ensures chunk <= Matching(t) && |chunk| == n && ComesFirst(le, t, chunk, Matching(t))
    {
      if n == 0 {
        chunk := {};
      } else {
        var front := FirstChunk(t, n - 1);
        SubsetSize(front, Matching(t));
        var rest := Matching(t) - front;
        var least := LeastExists(le, t, rest);
        FirstThenFirst(le, t, front, {least}, Matching(t));
        chunk := front + {least};
      }
    }

    lemma {:induction false} RoundsGoOn(t: map<Id, Row<D>>, n: nat) returns (chunks: seq<set<Id>>)
      requires Valid() && DeletesSettle() && |Staying(t)| >= chunkSize
      ensures |chunks| == n && Drained(t, chunks)
      decreases n
    {
      if n == 0 {
        chunks := [];
      } else {
        SubsetSize(Staying(t), Matching(t));
        var chunk := FirstChunk(t, chunkSize);
        RoundKeepsStaying(t, chunk);
        var rest := RoundsGoOn(Without(t, chunk), n - 1);
        chunks := [chunk] + rest;
        assert chunks[1..] == rest;
      }
    }

    ghost predicate CanDrain(t: map<Id, Row<D>>, n: nat)
    {
      exists chunks: seq<set<Id>> :: |chunks| == n && Drained(t, chunks)
    }

    /** However many rounds have gone by, another full chunk can be drained. */
    ghost predicate NeverEnds(t: map<Id, Row<D>>)
    {
      forall n: nat :: CanDrain(t, n)
    }

    /**
      The exception, exactly: without a limit and without failing rows the loop goes on for ever if the rows that
      still match once soft-deleted fill a chunk, and otherwise ends after no more rounds than there are matches.
     */
    lemma {:induction false} NeverEndsIffStayingFillAChunk(t: map<Id, Row<D>>)
      requires Valid() && DeletesSettle()
      ensures NeverEnds(t) <==> |Staying(t)| >= chunkSize
      ensures |Staying(t)| < chunkSize ==> forall chunks: seq<set<Id>> :: Drained(t, chunks) ==>
        |chunks| <= |Matching(t)|
    {
      if |Staying(t)| >= chunkSize {
        forall n: nat ensures CanDrain(t, n) {
          var chunks := RoundsGoOn(t, n);
        }
      } else {
        forall chunks: seq<set<Id>> | Drained(t, chunks) ensures |chunks| <= |Matching(t)| {
          IncludedRowsStay(t, chunks);
        }
        assert !CanDrain(t, |Matching(t)| + 1);
      }
    }

    /** Under IncludeDeleted, for conditions that do not look at the deletion, that is a full chunk of matches. */
    lemma {:induction false} IncludedLoopEndsIffUnderAChunk(t: map<Id, Row<D>>)
      requires Valid() && hasSoftDelete && !hardDelete && includeDeleted
      requires forall row: Row<D> :: cond(Row(true, stamp(row.data))) <==> cond(row)
      ensures NeverEnds(t) <==> |Matching(t)| >= chunkSize
    {
      forall row: Row<D> ensures Matches(SoftDeleted(SoftDeleted(row))) <==> Matches(SoftDeleted(row)) {
        assert SoftDeleted(row) == Row(true, stamp(row.data));
        assert SoftDeleted(SoftDeleted(row)) == Row(true, stamp(stamp(row.data)));
        assert cond(SoftDeleted(SoftDeleted(row))) <==> cond(SoftDeleted(row));
      }
      assert Staying(t) == Matching(t);
      NeverEndsIffStayingFillAChunk(t);
    }

    lemma {:induction false} MatchesAreSteady(t: map<Id, Row<D>>, rounds: seq<set<Id>>)
      requires DeletesSettle() && Staying(t) == Matching(t) && Rounds(t, rounds)
      ensures Matching(TableAfter(t, rounds)) == Matching(t) && Staying(TableAfter(t, rounds)) == Staying(t)
      decreases |rounds|
    {
      if rounds == [] {
      } else {
        var m := |rounds| - 1;
        FewerRounds(t, rounds);
        MatchesAreSteady(t, rounds[..m]);
        RoundKeepsStaying(TableAfter(t, rounds[..m]), rounds[m]);
      }
    }

    /**
      With a limit, where every row stays: a row is counted again in every round, until the limit is reached. So the
      count is the number of rows that one pass would delete exactly if they fit a round or are as many as the limit.
     */
    lemma {:induction false} IncludedCount(t: map<Id, Row<D>>, rounds: seq<set<Id>>)
      requires Valid() && limitN > 0 && DeletesSettle() && Staying(t) == Matching(t) && Rounds(t, rounds) &&
        Over(rounds)
      ensures Total(rounds) == if |Matching(t)| < chunkSize then Min(limitN, |Matching(t)|) else limitN
      ensures Total(rounds) == Target(|Matching(t)|) <==> |Matching(t)| < chunkSize || limitN <= |Matching(t)|
    {
      TotalWithinLimit(t, rounds);
      if |Matching(t)| < chunkSize {
        TargetReached(t, rounds);
      } else if !LastIsFull(rounds) {
        var m := |rounds| - 1;
        FewerRounds(t, rounds);
        MatchesAreSteady(t, rounds[..m]);
        assert false;
      }
    }
  }
}

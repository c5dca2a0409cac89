/** Row locks taken by FOR UPDATE queries, and why they are taken in id order. */
module LockOrder {
  import opened Options

  type Id = int  // only the order of ids matters here

  datatype Mode = Blocking | SkipLocked | NoWait

  /** A query as far as it decides the order of its rows; a sort compares rows by some key. */
  datatype Query = Query(sort: Option<Id -> int>, lock: Option<Mode>)

  /** The orders in which the built statement may return rows (and so lock them). */
  predicate ReturnedInOrder(q: Query, rows: seq<Id>)
  {
    (forall i, j :: 0 <= i < j < |rows| ==> rows[i] != rows[j]) &&
    if q.sort.Some? then forall i, j :: 0 <= i < j < |rows| ==> q.sort.value(rows[i]) <= q.sort.value(rows[j])
    else q.lock.Some? ==> forall i, j :: 0 <= i < j < |rows| ==> rows[i] <= rows[j]
  }

  /** A transaction with one such query: it holds the first held rows and is about to lock the next. */
  datatype Tx = Tx(mode: Mode, rows: seq<Id>, held: nat, finished: bool)

  type State = seq<Tx>

  predicate Holds(tx: Tx, id: Id)
  {
    !tx.finished && tx.held <= |tx.rows| && id in tx.rows[..tx.held]
  }

  /** Still has rows to lock. */
  predicate Unlocked(tx: Tx)
  {
    !tx.finished && tx.held < |tx.rows|
  }

  /** t's next row is held by u. */
  predicate Waits(s: State, t: nat, u: nat)
  {
    t < |s| && u < |s| && t != u && Unlocked(s[t]) && Holds(s[u], s[t].rows[s[t].held])
  }

  predicate Blocked(s: State, t: nat)
  {
    exists u :: 0 <= u < |s| && Waits(s, t, u)
  }

  /** A common order of all rows, as a rank. */
  type Rank = Id -> int

  predicate Ordered(rank: Rank, tx: Tx)
  {
    tx.held <= |tx.rows| && forall i, j :: 0 <= i < j < |tx.rows| ==> rank(tx.rows[i]) < rank(tx.rows[j])
  }

  predicate AllOrdered(rank: Rank, s: State)
  {
    forall t :: 0 <= t < |s| ==> Ordered(rank, s[t])
  }

  /** Nobody holds more rows than it has. */
  predicate AreHeld(s: State)
  {
    forall t :: 0 <= t < |s| ==> s[t].held <= |s[t].rows|
  }

  /** No row is held twice. */
  ghost predicate Exclusive(s: State)
  {
    forall t, u, id :: 0 <= t < |s| && 0 <= u < |s| && t != u && Holds(s[t], id) ==> !Holds(s[u], id)
  }

  // -----------------------------------------------------------------------------------------
  // Steps
  // -----------------------------------------------------------------------------------------

  datatype Action = Lock | Skip | Fail | Commit | Rollback

  /** What transaction t becomes by an action it is able to take. */
  function After(s: State, t: nat, a: Action): (r: Option<Tx>)
    requires t < |s| && s[t].held <= |s[t].rows|
  {
    var tx := s[t];
    if tx.finished then None else
      match a
      case Lock => if Unlocked(tx) && !Blocked(s, t) then Some(tx.(held := tx.held + 1)) else None
      case Skip => if Unlocked(tx) && Blocked(s, t) && tx.mode == SkipLocked then
        Some(tx.(rows := tx.rows[..tx.held] + tx.rows[tx.held + 1..])) else None
      case Fail => if Unlocked(tx) && Blocked(s, t) && tx.mode == NoWait then Some(tx.(finished := true)) else None
      case Commit => if tx.held == |tx.rows| then Some(tx.(finished := true)) else None
      case Rollback => Some(tx.(finished := true))
  }

  ghost predicate Step(s: State, s': State)
  {
    exists t, a :: 0 <= t < |s| && s[t].held <= |s[t].rows| && After(s, t, a).Some? &&
      s' == s[t := After(s, t, a).value]
  }

  /** Able to go on without giving up by its own choice. */
  ghost predicate CanProceed(s: State, t: nat)
    requires t < |s| && s[t].held <= |s[t].rows|
  {
    exists a :: a != Rollback && After(s, t, a).Some?
  }

  /**
    A transaction is held up only while it has a row to lock that another unfinished one has locked, and only if its
    query blocks.
   */
  lemma {:induction false} HeldUpOnlyByLocks(s: State, t: nat)
    requires t < |s| && s[t].held <= |s[t].rows| && AreHeld(s)
    ensures CanProceed(s, t) <==>
      !s[t].finished &&
      (s[t].held == |s[t].rows| || s[t].mode == SkipLocked || s[t].mode == NoWait ||
       forall u: nat, k: nat :: u < |s| && u != t && !s[u].finished && k < s[u].held ==>
         s[u].rows[k] != s[t].rows[s[t].held])
  {
    if !s[t].finished && s[t].held < |s[t].rows| {
      BlockedByRow(s, t);
      if !Blocked(s, t) {
        assert After(s, t, Lock).Some?;
      } else if s[t].mode == SkipLocked {
        assert After(s, t, Skip).Some?;
      } else if s[t].mode == NoWait {
        assert After(s, t, Fail).Some?;
      }
    } else if !s[t].finished {
      assert After(s, t, Commit).Some?;
    }
  }

  lemma {:induction false} BlockedByRow(s: State, t: nat)
    requires t < |s| && Unlocked(s[t]) && AreHeld(s)
    ensures Blocked(s, t) <==> exists u: nat, k: nat | u < |s| && u != t && !s[u].finished && k < s[u].held ::
      s[u].rows[k] == s[t].rows[s[t].held]
  {
    var id := s[t].rows[s[t].held];
    if Blocked(s, t) {
      var u :| 0 <= u < |s| && Waits(s, t, u);
      var k :| 0 <= k < s[u].held && s[u].rows[..s[u].held][k] == id;
      assert s[u].rows[k] == id;
    }
    if u: nat, k: nat :| u < |s| && u != t && !s[u].finished && k < s[u].held && s[u].rows[k] == id {
      assert s[u].rows[..s[u].held][k] == id;
      assert Waits(s, t, u);
    }
  }

  /** A locking query without a sort returns its rows by ascending id; a sort replaces that order by its own. */
  lemma {:induction false} OrdersReturned(q: Query, rows: seq<Id>)
    ensures ReturnedInOrder(q, rows) <==> forall i, j | 0 <= i < j < |rows| ::
      rows[i] != rows[j] &&
      if q.sort.Some? then q.sort.value(rows[i]) <= q.sort.value(rows[j]) else q.lock.Some? ==> rows[i] < rows[j]
  {
    if ReturnedInOrder(q, rows) && q.lock.Some? && q.sort.None? {
      forall i, j | 0 <= i < j < |rows| ensures rows[i] < rows[j] {
        assert rows[i] != rows[j];
      }
    }
  }

  lemma {:induction false} StepKeepsOrder(rank: Rank, s: State, s': State)
    requires AllOrdered(rank, s) && Exclusive(s) && Step(s, s')
    ensures AllOrdered(rank, s') && Exclusive(s') && |s'| == |s|
  {
    var t, a :| 0 <= t < |s| && s[t].held <= |s[t].rows| && After(s, t, a).Some? && s' == s[t := After(s, t, a).value];
    AfterKeepsOrder(rank, s, t, a);
    assert forall u :: 0 <= u < |s| && u != t ==> s'[u] == s[u];
  }

  /** The transaction that stepped is still ordered, and holds nothing that another holds. */
  lemma {:induction false} AfterKeepsOrder(rank: Rank, s: State, t: nat, a: Action)
    requires AllOrdered(rank, s) && Exclusive(s) && t < |s| && After(s, t, a).Some?
    ensures Ordered(rank, After(s, t, a).value)
    ensures forall u, id :: 0 <= u < |s| && u != t && Holds(s[u], id) ==> !Holds(After(s, t, a).value, id)
  {
    var tx, tx' := s[t], After(s, t, a).value;
    if a == Lock {
      assert tx'.rows[..tx'.held] == tx.rows[..tx.held] + [tx.rows[tx.held]];
      forall u, id | 0 <= u < |s| && u != t && Holds(s[u], id) ensures !Holds(tx', id) {
        assert !Waits(s, t, u);
      }
    } else if a == Skip {
      assert tx'.rows[..tx'.held] == tx.rows[..tx.held];
    }
  }

  // -----------------------------------------------------------------------------------------
  // Nobody waits in a circle
  // -----------------------------------------------------------------------------------------

  /** The rank of the row a transaction locks next. */
  function NextRank(rank: Rank, tx: Tx): int
    requires Unlocked(tx)
  {
    rank(tx.rows[tx.held])
  }

  /** Whoever holds the row t waits for is itself after a higher row. */
  lemma {:induction false} WaitingAscends(rank: Rank, s: State, t: nat, u: nat)
    requires AllOrdered(rank, s) && Waits(s, t, u) && Unlocked(s[u])
    ensures NextRank(rank, s[t]) < NextRank(rank, s[u])
  {
    var i :| 0 <= i < s[u].held && s[u].rows[i] == s[t].rows[s[t].held];
  }

  /** p[0] waits for p[1], which waits for p[2], and so on. */
  predicate Chain(s: State, p: seq<nat>)
  {
    forall i :: 0 <= i < |p| - 1 ==> Waits(s, p[i], p[i + 1])
  }

  lemma {:induction false} ChainAscends(rank: Rank, s: State, p: seq<nat>)
    requires AllOrdered(rank, s) && |p| >= 2 && Chain(s, p) && p[|p| - 1] < |s| && Unlocked(s[p[|p| - 1]])
    ensures p[0] < |s| && Unlocked(s[p[0]]) && NextRank(rank, s[p[0]]) < NextRank(rank, s[p[|p| - 1]])
    decreases |p|
  {
    var n := |p| - 1;
    assert Waits(s, p[n - 1], p[n - 1 + 1]);
    WaitingAscends(rank, s, p[n - 1], p[n]);
    if n <= 1 {
    } else {
      ChainAscends(rank, s, p[..n]);
    }
  }

  /** The wait-for graph has no cycle. */
  lemma {:induction false} NoCycle(rank: Rank, s: State, p: seq<nat>)
    requires AllOrdered(rank, s) && |p| >= 2 && Chain(s, p)
    ensures p[0] != p[|p| - 1]
  {
    assert Waits(s, p[0], p[0 + 1]);
    if p[0] == p[|p| - 1] {
      ChainAscends(rank, s, p);
    }
  }

  /** Those after a higher row than t. */
  ghost function Above(rank: Rank, s: State, t: nat): set<nat>
    requires t < |s| && Unlocked(s[t])
  {
    set u | 0 <= u < |s| && Unlocked(s[u]) && NextRank(rank, s[u]) > NextRank(rank, s[t])
  }

  lemma {:induction false} FollowWaits(rank: Rank, s: State, t: nat) returns (v: nat)
    requires AllOrdered(rank, s) && t < |s| && Unlocked(s[t])
    ensures v < |s| && !s[v].finished && CanProceed(s, v)
    decreases Above(rank, s, t)
  {
    if !Blocked(s, t) {
      v := t;
      assert After(s, t, Lock).Some?;
    } else if s[t].mode == SkipLocked {
      v := t;
      assert After(s, t, Skip).Some?;
    } else if s[t].mode == NoWait {
      v := t;
      assert After(s, t, Fail).Some?;
    } else {
      var u :| 0 <= u < |s| && Waits(s, t, u);
      if Unlocked(s[u]) {
        WaitingAscends(rank, s, t, u);
        assert u in Above(rank, s, t) && u !in Above(rank, s, u) && Above(rank, s, u) <= Above(rank, s, t);
        v := FollowWaits(rank, s, u);
      } else {
        v := u;
        assert After(s, u, Commit).Some?;
      }
    }
  }

  /** While anyone is unfinished, someone unfinished can go on. */
  lemma {:induction false} SomeoneCanProceed(rank: Rank, s: State, t: nat) returns (v: nat)
    requires AllOrdered(rank, s) && t < |s| && !s[t].finished
    ensures v < |s| && !s[v].finished && CanProceed(s, v)
  {
    if Unlocked(s[t]) {
      v := FollowWaits(rank, s, t);
    } else {
      v := t;
      assert After(s, t, Commit).Some?;
    }
  }

  // -----------------------------------------------------------------------------------------
  // Whole runs
  // -----------------------------------------------------------------------------------------

  /** Each query has found some rows, in an order its statement may return them in, and locked none yet. */
  predicate Started(qs: seq<Query>, s: State)
  {
    |qs| == |s| && forall t :: 0 <= t < |s| ==>
      qs[t].lock == Some(s[t].mode) && ReturnedInOrder(qs[t], s[t].rows) && s[t].held == 0 && !s[t].finished
  }

  ghost predicate IsRun(run: seq<State>)
  {
    run != [] && forall i :: 0 <= i < |run| - 1 ==> Step(run[i], run[i + 1])
  }

  /** Steps still ahead of a transaction, at most. */
  function Ahead(tx: Tx): nat
    requires tx.held <= |tx.rows|
  {
    if tx.finished then 0 else |tx.rows| - tx.held + 1
  }

  function AllAhead(s: State): nat
    requires AreHeld(s)
  {
    if s == [] then 0 else Ahead(s[0]) + AllAhead(s[1..])
  }

  lemma {:induction false} AheadDrops(s: State, t: nat, tx: Tx)
    requires AreHeld(s) && t < |s| && tx.held <= |tx.rows| && Ahead(tx) < Ahead(s[t])
    ensures AreHeld(s[t := tx]) && AllAhead(s[t := tx]) < AllAhead(s)
    decreases |s|
  {
    if t == 0 {
      assert s[t := tx][1..] == s[1..];
    } else {
      AheadDrops(s[1..], t - 1, tx);
      assert s[t := tx][1..] == s[1..][t - 1 := tx];
    }
  }

  /** Every step brings the end nearer, whatever the order of the rows. */
  lemma {:induction false} StepDrops(s: State, s': State)
    requires AreHeld(s) && Step(s, s')
    ensures AreHeld(s') && AllAhead(s') < AllAhead(s) && |s'| == |s|
  {
    var t, a :| 0 <= t < |s| && s[t].held <= |s[t].rows| && After(s, t, a).Some? && s' == s[t := After(s, t, a).value];
    AheadDrops(s, t, s'[t]);
  }

  lemma {:induction false} RunFront(run: seq<State>)
    requires IsRun(run) && |run| > 1
    ensures IsRun(run[..|run| - 1]) && Step(run[|run| - 2], run[|run| - 1])
  {
    var front := run[..|run| - 1];
    forall i | 0 <= i < |front| - 1 ensures Step(front[i], front[i + 1]) {
      assert Step(run[i], run[i + 1]);
    }
    assert Step(run[|run| - 2], run[|run| - 2 + 1]);
  }

  /** No run is longer than the rows to lock and the transactions to end. */
  lemma {:induction false} RunsAreBounded(run: seq<State>)
    requires IsRun(run) && AreHeld(run[0])
    ensures AreHeld(run[|run| - 1]) && |run[|run| - 1]| == |run[0]| &&
      AllAhead(run[|run| - 1]) + |run| - 1 <= AllAhead(run[0])
    decreases |run|
  {
    if |run| == 1 {
    } else {
      RunFront(run);
      RunsAreBounded(run[..|run| - 1]);
      StepDrops(run[|run| - 2], run[|run| - 1]);
    }
  }

  lemma {:induction false} RunIsOrdered(rank: Rank, run: seq<State>)
    requires IsRun(run) && AllOrdered(rank, run[0]) && Exclusive(run[0])
    ensures AllOrdered(rank, run[|run| - 1]) && Exclusive(run[|run| - 1]) && |run[|run| - 1]| == |run[0]|
    decreases |run|
  {
    if |run| == 1 {
    } else {
      RunFront(run);
      RunIsOrdered(rank, run[..|run| - 1]);
      StepKeepsOrder(rank, run[|run| - 2], run[|run| - 1]);
    }
  }

  /** Someone is unfinished, and nobody can go on except by giving up. */
  ghost predicate Stuck(s: State)
  {
    AreHeld(s) && (exists t :: 0 <= t < |s| && !s[t].finished) && forall t :: 0 <= t < |s| ==> !CanProceed(s, t)
  }

  /**
    Transactions that each run one locking query without a sort, in any lock modes: no run has more steps than
    there are rows to lock and transactions to end, rows are never held twice, nobody waits in a circle, and a run
    that cannot go on has finished everyone.
   */
  lemma {:induction false} UnsortedLockingIsLive(qs: seq<Query>, run: seq<State>, s: State)
    requires IsRun(run) && s == run[|run| - 1] && Started(qs, run[0]) && forall t :: 0 <= t < |qs| ==> qs[t].sort.None?
    ensures AreHeld(run[0]) && |run| - 1 <= AllAhead(run[0])
    ensures AreHeld(s) && Exclusive(s) && |s| == |qs| && !Stuck(s)
    ensures forall p: seq<nat> :: |p| >= 2 && Chain(s, p) ==> p[0] != p[|p| - 1]
  {
    var byId: Rank := id => id;
    assert AllOrdered(byId, run[0]) by {
      forall t | 0 <= t < |run[0]| ensures Ordered(byId, run[0][t]) {
        assert ReturnedInOrder(qs[t], run[0][t].rows);
      }
    }
    CommonOrderIsLive(byId, run, s);
  }

  lemma {:induction false} CommonOrderIsLive(rank: Rank, run: seq<State>, s: State)
    requires IsRun(run) && s == run[|run| - 1] && AllOrdered(rank, run[0]) && Exclusive(run[0])
    ensures AreHeld(run[0]) && |run| - 1 <= AllAhead(run[0])
    ensures AllOrdered(rank, s) && Exclusive(s) && |s| == |run[0]| && !Stuck(s)
    ensures forall p: seq<nat> :: |p| >= 2 && Chain(s, p) ==> p[0] != p[|p| - 1]
  {
    RunIsOrdered(rank, run);
    RunsAreBounded(run);
    forall p: seq<nat> | |p| >= 2 && Chain(s, p) ensures p[0] != p[|p| - 1] {
      NoCycle(rank, s, p);
    }
    if t :| 0 <= t < |s| && !s[t].finished {
      var v := SomeoneCanProceed(rank, s, t);
    }
  }

  // -----------------------------------------------------------------------------------------
  // Exactly when blocking queries cannot deadlock
  // -----------------------------------------------------------------------------------------

  /** The statement may return row a before row b. */
  predicate MayPrecede(q: Query, a: Id, b: Id)
  {
    if q.sort.Some? then q.sort.value(a) <= q.sort.value(b) else a < b
  }

  /** No two of the queries may return two rows in opposite orders. */
  ghost predicate OrdersAgree(qs: seq<Query>)
  {
    forall i, j, a, b :: 0 <= i < |qs| && 0 <= j < |qs| && i != j && a != b ==>
      !(MayPrecede(qs[i], a, b) && MayPrecede(qs[j], b, a))
  }

  ghost predicate NeverStuck(qs: seq<Query>)
  {
    forall run: seq<State> :: IsRun(run) && Started(qs, run[0]) ==> !Stuck(run[|run| - 1])
  }

  predicate AllBlock(qs: seq<Query>)
  {
    forall t :: 0 <= t < |qs| ==> qs[t].lock == Some(Blocking)
  }

  function RankOf(q: Query): Rank
  {
    if q.sort.Some? then q.sort.value else id => id
  }

  /** With two queries or more that agree, the order of one is the order of all, without ties. */
  lemma {:induction false} OneOrder(qs: seq<Query>, t: nat, rows: seq<Id>)
    requires AllBlock(qs) && OrdersAgree(qs) && |qs| >= 2 && t < |qs| && ReturnedInOrder(qs[t], rows)
    ensures forall i, j :: 0 <= i < j < |rows| ==> RankOf(qs[0])(rows[i]) < RankOf(qs[0])(rows[j])
  {
    forall i, j | 0 <= i < j < |rows| ensures RankOf(qs[0])(rows[i]) < RankOf(qs[0])(rows[j]) {
      var a, b := rows[i], rows[j];
      assert MayPrecede(qs[t], a, b);
      if t == 0 {
        assert !MayPrecede(qs[1], b, a);
        assert MayPrecede(qs[1], a, b);
        assert !MayPrecede(qs[0], b, a);
      } else {
        assert !MayPrecede(qs[0], b, a);
      }
    }
  }

  lemma {:induction false} AloneCanProceed(s: State, t: nat)
    requires AreHeld(s) && |s| == 1 && t == 0 && !s[t].finished
    ensures CanProceed(s, t)
  {
    assert !Blocked(s, t);
    if Unlocked(s[t]) {
      assert After(s, t, Lock).Some?;
    } else {
      assert After(s, t, Commit).Some?;
    }
  }

  lemma {:induction false} AgreeingNeverStuck(qs: seq<Query>, run: seq<State>)
    requires AllBlock(qs) && OrdersAgree(qs) && IsRun(run) && Started(qs, run[0])
    ensures !Stuck(run[|run| - 1])
  {
    var s := run[|run| - 1];
    if |qs| >= 2 {
      assert AllOrdered(RankOf(qs[0]), run[0]) by {
        forall t | 0 <= t < |run[0]| ensures Ordered(RankOf(qs[0]), run[0][t]) { OneOrder(qs, t, run[0][t].rows); }
      }
      CommonOrderIsLive(RankOf(qs[0]), run, s);
    } else {
      RunsAreBounded(run);
      if t :| 0 <= t < |s| && !s[t].finished {
        AloneCanProceed(s, t);
      }
    }
  }

  lemma {:induction false} IsStep(s: State, t: nat, a: Action, s': State)
    requires t < |s| && s[t].held <= |s[t].rows| && After(s, t, a).Some? && s' == s[t := After(s, t, a).value]
    ensures Step(s, s')
  {
  }

  lemma {:induction false} RunExtends(run: seq<State>, s': State)
    requires IsRun(run) && Step(run[|run| - 1], s')
    ensures IsRun(run + [s'])
  {
    var r := run + [s'];
    forall k | 0 <= k < |r| - 1 ensures Step(r[k], r[k + 1]) {
      if k < |run| - 1 { assert Step(run[k], run[k + 1]); }
    }
  }

  /** Transaction i holds a and wants b, transaction j holds b and wants a; nobody else below m is in the way. */
  predicate Crossed(s: State, i: nat, j: nat, a: Id, b: Id, m: nat)
  {
    i < |s| && j < |s| && i != j && a != b &&
    s[i] == Tx(Blocking, [a, b], 1, false) && s[j] == Tx(Blocking, [b, a], 1, false) &&
    forall t :: 0 <= t < |s| && t != i && t != j ==> s[t] == Tx(Blocking, [], 0, t < m)
  }

  /** The others, who found no rows, commit; the two are left with each other. */
  lemma {:induction false} OthersCommit(run: seq<State>, i: nat, j: nat, a: Id, b: Id,
      m: nat) returns (longer: seq<State>)
    requires IsRun(run) && m <= |run[|run| - 1]| && Crossed(run[|run| - 1], i, j, a, b, m)
    ensures IsRun(longer) && longer[0] == run[0] && Crossed(longer[|longer| - 1], i, j, a, b, |longer[|longer| - 1]|)
    ensures |longer[|longer| - 1]| == |run[|run| - 1]|
    decreases |run[|run| - 1]| - m
  {
    var s := run[|run| - 1];
    if m == |s| {
      longer := run;
    } else if m == i || m == j {
      longer := OthersCommit(run, i, j, a, b, m + 1);
    } else {
      var s' := s[m := s[m].(finished := true)];
      IsStep(s, m, Commit, s');
      RunExtends(run, s');
      longer := OthersCommit(run + [s'], i, j, a, b, m + 1);
    }
  }

  lemma {:induction false} CrossedIsStuck(s: State, i: nat, j: nat, a: Id, b: Id)
    requires Crossed(s, i, j, a, b, |s|)
    ensures Stuck(s) && Chain(s, [i, j, i])
  {
    assert s[i].rows[..1] == [a] && s[j].rows[..1] == [b];
    assert Waits(s, i, j) && Waits(s, j, i);
    assert [i, j, i][1] == j;
  }

  /** Query i finds a before b, query j finds b before a, and the others find nothing. */
  function Opposed(n: nat, i: nat, j: nat, a: Id, b: Id): (s: State)
    ensures |s| == n
  {
    seq(n, t requires 0 <= t < n => Tx(Blocking, if t == i then [a, b] else if t == j then [b, a] else [], 0, false))
  }

  lemma {:induction false} OpposedStarts(qs: seq<Query>, i: nat, j: nat, a: Id, b: Id)
    requires AllBlock(qs) && i < |qs| && j < |qs| && i != j && a != b
    requires MayPrecede(qs[i], a, b) && MayPrecede(qs[j], b, a)
    ensures Started(qs, Opposed(|qs|, i, j, a, b))
  {
  }

  /** Both take their first row. */
  lemma {:induction false} BothTakeOne(n: nat, i: nat, j: nat, a: Id, b: Id) returns (run: seq<State>)
    requires i < n && j < n && i != j && a != b
    ensures IsRun(run) && run[0] == Opposed(n, i, j, a, b)
    ensures |run[|run| - 1]| == n && Crossed(run[|run| - 1], i, j, a, b, 0)
  {
    var s0 := Opposed(n, i, j, a, b);
    var s1 := s0[i := s0[i].(held := 1)];
    var s2 := s1[j := s1[j].(held := 1)];
    NotBlockedAtStart(s0, i);
    IsStep(s0, i, Lock, s1);
    NotBlockedByOne(s1, i, j);
    IsStep(s1, j, Lock, s2);
    RunExtends([s0], s1);
    RunExtends([s0] + [s1], s2);
    run := [s0] + [s1] + [s2];
  }

  lemma {:induction false} NotBlockedByOne(s: State, i: nat, j: nat)
    requires i < |s| && j < |s| && i != j && |s[i].rows| > 0 && |s[j].rows| > 0 && s[i].rows[0] != s[j].rows[0]
    requires s[i].held == 1 && s[j].held == 0 && forall u :: 0 <= u < |s| && u != i ==> s[u].held == 0
    ensures !Blocked(s, j)
  {
    assert s[i].rows[..1] == [s[i].rows[0]];
  }

  /** Queries that may return two rows in opposite orders can block each other for good. */
  lemma {:induction false} OppositeOrdersDeadlock(qs: seq<Query>, i: nat, j: nat, a: Id, b: Id)
    returns (run: seq<State>)
    requires AllBlock(qs) && i < |qs| && j < |qs| && i != j && a != b
    requires MayPrecede(qs[i], a, b) && MayPrecede(qs[j], b, a)
    ensures IsRun(run) && Started(qs, run[0]) && Stuck(run[|run| - 1]) && Chain(run[|run| - 1], [i, j, i])
  {
    OpposedStarts(qs, i, j, a, b);
    run := BothTakeOne(|qs|, i, j, a, b);
    run := OthersCommit(run, i, j, a, b, 0);
    CrossedIsStuck(run[|run| - 1], i, j, a, b);
  }

  lemma {:induction false} NotBlockedAtStart(s: State, t: nat)
    requires forall u :: 0 <= u < |s| ==> s[u].held == 0
    ensures !Blocked(s, t)
  {
  }

  /** Blocking queries are free of deadlock, whatever rows they match, exactly when their orders agree. */
  lemma {:induction false} NeverStuckIffOrdersAgree(qs: seq<Query>)
    requires AllBlock(qs)
    ensures NeverStuck(qs) <==> OrdersAgree(qs)
  {
    if OrdersAgree(qs) {
      forall run: seq<State> | IsRun(run) && Started(qs, run[0]) ensures !Stuck(run[|run| - 1]) {
        AgreeingNeverStuck(qs, run);
      }
    } else {
      var i, j, a, b :| 0 <= i < |qs| && 0 <= j < |qs| && i != j && a != b && MayPrecede(qs[i], a, b) &&
        MayPrecede(qs[j], b, a);
      var run := OppositeOrdersDeadlock(qs, i, j, a, b);
    }
  }

  /**
    With a sort the guarantee is gone: two queries that sort the same two rows in opposite ways can block
    each other for good.
   */
  lemma {:induction false} SortedLockingCanDeadlock() returns (qs: seq<Query>, run: seq<State>, s: State)
    ensures IsRun(run) && Started(qs, run[0]) && s == run[|run| - 1] && |s| == 2 && AreHeld(s)
    ensures !s[0].finished && !CanProceed(s, 0) && !s[1].finished && !CanProceed(s, 1) && Chain(s, [0, 1, 0])
  {
    qs := [Query(Some((id: Id) => id), Some(Blocking)), Query(Some((id: Id) => -id), Some(Blocking))];
    run := OppositeOrdersDeadlock(qs, 0, 1, 1, 2);
    s := run[|run| - 1];
    RunsAreBounded(run);
    assert Waits(s, [0, 1, 0][0], [0, 1, 0][0 + 1]) && Waits(s, [0, 1, 0][1], [0, 1, 0][1 + 1]);
  }
}

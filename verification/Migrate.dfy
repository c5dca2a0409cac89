/** The migration registry and its runner, one starter at a time. MigrateProtocol has the concurrent runs. */
module Migrate {
  import opened StringOrder
  import opened Options

  type Version = string

  /** Forward and Backward transform the data inside a transaction, or fail. A Backward is optional. */
  datatype Migration<!D> = Migration(version: Version, forward: D -> Option<D>, backward: Option<D -> Option<D>>)

  function Versions<D>(ms: seq<Migration<D>>): seq<Version>
  {
    seq(|ms|, i requires 0 <= i < |ms| => ms[i].version)
  }

  ghost predicate Sorted<D>(ms: seq<Migration<D>>)
  {
    forall i, j :: 0 <= i < j < |ms| ==> !StringLess(ms[j].version, ms[i].version)
  }

  ghost predicate Distinct(vs: seq<Version>)
  {
    forall i, j :: 0 <= i < j < |vs| ==> vs[i] != vs[j]
  }

  function InsertAt<D>(ms: seq<Migration<D>>, m: Migration<D>): (k: nat)
    ensures k <= |ms|
    ensures forall i :: 0 <= i < k ==> !StringLess(m.version, ms[i].version)
    ensures k < |ms| ==> StringLess(m.version, ms[k].version)
  {
    if ms == [] || StringLess(m.version, ms[0].version) then 0 else 1 + InsertAt(ms[1..], m)
  }

  // -----------------------------------------------------------------------------------------
  // What the runner does to the database
  // -----------------------------------------------------------------------------------------

  datatype Event = Up(v: Version) | Down(v: Version)

  datatype Error = MigrationFailed(v: Version) | NotInRegistry(v: Version) | NoBackward(v: Version)

  /** The stored log, the data, and the committed migrations in order. */
  datatype St<D> = St(log: seq<Version>, data: D, trace: seq<Event>)

  datatype Outcome<D> = Outcome(st: St<D>, err: Option<Error>)

  /** The log with every entry of one version removed: the filter loop of runBackward. */
  function Without(log: seq<Version>, v: Version): seq<Version>
  {
    if log == [] then [] else (if log[0] == v then [] else [log[0]]) + Without(log[1..], v)
  }

  function Forwarded<D>(st: St<D>, m: Migration<D>): Outcome<D>
  {
    if m.version in st.log then Outcome(st, None)
    else match m.forward(st.data)
      case None => Outcome(st, Some(MigrationFailed(m.version)))
      case Some(d) => Outcome(St(st.log + [m.version], d, st.trace + [Event.Up(m.version)]), None)
  }

  function Backwarded<D>(st: St<D>, m: Migration<D>): Outcome<D>
    requires m.backward.Some?
  {
    if m.version !in st.log then Outcome(st, None)
    else match m.backward.value(st.data)
      case None => Outcome(st, Some(MigrationFailed(m.version)))
      case Some(d) => Outcome(St(Without(st.log, m.version), d, st.trace + [Event.Down(m.version)]), None)
  }

  function AllForwarded<D>(st: St<D>, ms: seq<Migration<D>>): Outcome<D>
    decreases |ms|
  {
    if ms == [] then Outcome(st, None)
    else
      var o := Forwarded(st, ms[0]);
      if o.err.Some? then o else AllForwarded(o.st, ms[1..])
  }

  function Find<D>(ms: seq<Migration<D>>, v: Version): (r: Option<Migration<D>>)
    ensures r.Some? ==> r.value in ms && r.value.version == v
    ensures r.None? ==> v !in Versions(ms)
  {
    if ms == [] then None
    else if ms[0].version == v then Some(ms[0])
    else
      var r := Find(ms[1..], v);
      assert Versions(ms) == [ms[0].version] + Versions(ms[1..]);
      r
  }

  function RolledBack<D>(st: St<D>, ms: seq<Migration<D>>, v: Version): Outcome<D>
  {
    match Find(ms, v)
    case None => Outcome(st, Some(NotInRegistry(v)))
    case Some(m) => if m.backward.None? then Outcome(st, Some(NoBackward(v))) else Backwarded(st, m)
  }

  /** Rolling back a list of versions from its end. */
  function AllRolledBack<D>(st: St<D>, ms: seq<Migration<D>>, vs: seq<Version>): Outcome<D>
    decreases |vs|
  {
    if vs == [] then Outcome(st, None)
    else
      var o := RolledBack(st, ms, vs[|vs| - 1]);
      if o.err.Some? then o else AllRolledBack(o.st, ms, vs[..|vs| - 1])
  }

  /** Entry by entry: the removed version goes, every other entry stays where it was among the rest. */
  lemma {:induction false} WithoutEntry(before: seq<Version>, entry: Version, after: seq<Version>, v: Version)
    ensures Without(before + ([entry] + after), v)
         == Without(before, v) + ((if entry == v then [] else [entry]) + Without(after, v))
    decreases |before|
  {
    var rest := [entry] + after;
    if before == [] {
      assert before + rest == rest && rest[1..] == after;
    } else {
      var s := before + rest;
      assert s[0] == before[0] && s[1..] == before[1..] + rest;
      WithoutEntry(before[1..], entry, after, v);
      Appended(if s[0] == v then [] else [s[0]], Without(before[1..], v),
        (if entry == v then [] else [entry]) + Without(after, v));
    }
  }

  lemma {:induction false} WithoutStep(log: seq<Version>, i: nat, v: Version)
    requires i < |log|
    ensures Without(log[i..], v) == if log[i] == v then Without(log[i + 1..], v)
      else [log[i]] + Without(log[i + 1..], v)
  {
    assert log[i..][1..] == log[i + 1..];
  }

  /** filtered := entries[:0]; the kept entries move to the front of the same array. */
  method FilterInPlace(entries: array<Version>, v: Version) returns (kept: nat)
    modifies entries
    ensures kept <= entries.Length
    ensures entries[..kept] == Without(old(entries[..]), v)
  {
    kept := 0;
    ghost var was := entries[..];
    assert was[0..] == was;
    for i := 0 to entries.Length
      invariant kept <= i && forall k :: i <= k < entries.Length ==> entries[k] == was[k]
      invariant Without(was, v) == entries[..kept] + Without(was[i..], v)
    {
      ghost var done := entries[..kept];
      FilterStep(was, i, v, done);
      if entries[i] != v {
        entries[kept] := entries[i];
        kept := kept + 1;
        assert entries[..kept] == done + [was[i]];
      }
    }
    assert was[entries.Length..] == [] && entries[..kept] + [] == entries[..kept];
  }

  lemma {:induction false} FilterStep(was: seq<Version>, i: nat, v: Version, done: seq<Version>)
    requires i < |was| && Without(was, v) == done + Without(was[i..], v)
    ensures Without(was, v) == (if was[i] == v then done else done + [was[i]]) + Without(was[i + 1..], v)
  {
    WithoutStep(was, i, v);
    Appended(done, [was[i]], Without(was[i + 1..], v));
  }

  // -----------------------------------------------------------------------------------------
  // The registry
  // -----------------------------------------------------------------------------------------

  class Database<D> {
    var log: seq<Version>
    var data: D
    ghost var trace: seq<Event>

    constructor (data: D)
      ensures State() == St([], data, [])
    {
      this.log, this.data, this.trace := [], data, [];
    }

    ghost function State(): St<D>
      reads this
    {
      St(log, data, trace)
    }
  }

  lemma {:induction false} InsertKeepsSorted<D>(ms: seq<Migration<D>>, m: Migration<D>, k: nat)
    requires Sorted(ms) && k == InsertAt(ms, m)
    ensures Sorted(ms[..k] + [m] + ms[k..])
  {
    var out := ms[..k] + [m] + ms[k..];
    forall i, j | 0 <= i < j < |out| ensures !StringLess(out[j].version, out[i].version) {
      if i == k {
        NotBefore(ms, m, k, j - 1);
      }
    }
  }

  lemma {:induction false} NotBefore<D>(ms: seq<Migration<D>>, m: Migration<D>, k: nat, j: nat)
    requires Sorted(ms) && k == InsertAt(ms, m) && k <= j < |ms|
    ensures !StringLess(ms[j].version, m.version)
  {
    LessTotal(m.version, ms[k].version);
    LessTotal(ms[j].version, ms[k].version);
    if StringLess(ms[j].version, m.version) { LessTransitive(ms[j].version, m.version, ms[k].version); }
  }

  class Registry<D(!new)> {
    var migrations: seq<Migration<D>>

    constructor ()
      ensures migrations == []
    {
      migrations := [];
    }

    /** Append and sort; equal versions may end up in either order. */
    method Register(m: Migration<D>)
      requires Sorted(migrations)
      modifies this
      ensures Sorted(migrations)
      ensures multiset(migrations) == multiset(old(migrations)) + multiset{m}
    {
      var k := InsertAt(migrations, m);
      InsertKeepsSorted(migrations, m, k);
      assert migrations == migrations[..k] + migrations[k..];
      migrations := migrations[..k] + [m] + migrations[k..];
    }

    /** One migration in its own transaction: re-read the log under the lock, skip what is applied. */
    method RunForward(db: Database<D>, m: Migration<D>) returns (err: Option<Error>)
      modifies db
      ensures Outcome(db.State(), err) == Forwarded(old(db.State()), m)
      ensures m.version in old(db.log) ==> err.None? && db.log == old(db.log) && db.data == old(db.data)
      ensures m.version !in old(db.log) ==>
        match m.forward(old(db.data))
        case None => err == Some(MigrationFailed(m.version)) && db.log == old(db.log) && db.data == old(db.data)
        case Some(d) => err.None? && db.log == old(db.log) + [m.version] && db.data == d
    {
      var entries := db.log;
      for i := 0 to |entries|
        invariant m.version !in entries[..i]
      {
        if entries[i] == m.version { return None; }
      }
      assert entries[..|entries|] == entries;
      match m.forward(db.data)
      case None => return Some(MigrationFailed(m.version));
      case Some(d) =>
        entries := entries + [m.version];
        db.log, db.data, db.trace := entries, d, db.trace + [Event.Up(m.version)];
        return None;
    }

    method RunBackward(db: Database<D>, m: Migration<D>) returns (err: Option<Error>)
      requires m.backward.Some?
      modifies db
      ensures Outcome(db.State(), err) == Backwarded(old(db.State()), m)
      ensures m.version !in old(db.log) ==> err.None? && db.log == old(db.log) && db.data == old(db.data)
      ensures m.version in old(db.log) ==>
        match m.backward.value(old(db.data))
        case None => err == Some(MigrationFailed(m.version)) && db.log == old(db.log) && db.data == old(db.data)
        case Some(d) => err.None? && db.log == Without(old(db.log), m.version) && db.data == d
    {
      var log := db.log;
      var found := false;
      for i := 0 to |log|
        invariant !found && m.version !in log[..i]
      {
        if log[i] == m.version { found := true; break; }
      }
      assert !found ==> log[..|log|] == log;
      if !found { return None; }
      match m.backward.value(db.data)
      case None => return Some(MigrationFailed(m.version));
      case Some(d) =>
        var entries := new Version[|log|](i requires 0 <= i < |log| => log[i]);
        assert entries[..] == log;
        var kept := FilterInPlace(entries, m.version);
        db.log, db.data, db.trace := entries[..kept], d, db.trace + [Event.Down(m.version)];
        return None;
    }

    /**
      run holds the positions of the migrations that were committed and ds the data before and after each: the
      first done positions have been seen to, and whatever else is the case, a migration runs exactly if its
      version was neither logged nor registered at an earlier position.
     */
    method Up(db: Database<D>) returns (err: Option<Error>, ghost done: nat, ghost run: seq<nat>, ghost ds: seq<D>)
      modifies db
      ensures Outcome(db.State(), err) == AllForwarded(old(db.State()), migrations)
      ensures migrations == old(migrations)
      ensures done <= |migrations| && forall k :: 0 <= k < |run| ==> run[k] < done
      ensures forall j, k :: 0 <= j < k < |run| ==> run[j] < run[k]
      ensures forall i :: 0 <= i < done ==>
        (i in run <==>
         migrations[i].version !in old(db.log) && forall j :: 0 <= j < i ==>
           migrations[j].version != migrations[i].version)
      ensures |ds| == |run| + 1 && ds[0] == old(db.data) && ds[|run|] == db.data
      ensures forall k :: 0 <= k < |run| ==> migrations[run[k]].forward(ds[k]) == Some(ds[k + 1])
      ensures |db.log| == |old(db.log)| + |run| && old(db.log) <= db.log
      ensures forall k :: 0 <= k < |run| ==> db.log[|old(db.log)| + k] == migrations[run[k]].version
      ensures err.None? <==> done == |migrations|
      ensures done < |migrations| ==>
        var m := migrations[done];
        m.version !in db.log && m.forward(db.data).None? && err == Some(MigrationFailed(m.version))
    {
      done, run, ds := ForwardsFrom(migrations, db.State(), db.State(), 0, [], [db.data]);
      assert migrations[0..] == migrations;
      for i := 0 to |migrations|
        invariant migrations == old(migrations)
        invariant AllForwarded(old(db.State()), migrations) == AllForwarded(db.State(), migrations[i..])
      {
        assert migrations[i..][1..] == migrations[i + 1..];
        err := RunForward(db, migrations[i]);
        if err.Some? { return; }
      }
      err := None;
    }

    method UpOne(db: Database<D>) returns (err: Option<Error>)
      modifies db
      ensures var ms, st := old(migrations), old(db.State());
        Outcome(db.State(), err)
        == if FirstPending(ms, st.log) == |ms| then Outcome(st, None) else Forwarded(st, ms[FirstPending(ms, st.log)])
      ensures migrations == old(migrations)
      ensures (forall i :: 0 <= i < |migrations| ==> migrations[i].version in old(db.log)) ==>
        err.None? && db.log == old(db.log) && db.data == old(db.data)
      ensures forall k | 0 <= k < |migrations| && migrations[k].version !in old(db.log) &&
        forall i :: 0 <= i < k ==> migrations[i].version in old(db.log) ::
        match migrations[k].forward(old(db.data))
        case None =>
          err == Some(MigrationFailed(migrations[k].version)) && db.log == old(db.log) && db.data == old(db.data)
        case Some(d) => err.None? && db.log == old(db.log) + [migrations[k].version] && db.data == d
    {
      var applied := db.log;
      for i := 0 to |migrations|
        invariant migrations == old(migrations) && db.State() == old(db.State())
        invariant FirstPending(migrations, applied) == i + FirstPending(migrations[i..], applied)
        invariant forall j :: 0 <= j < i ==> migrations[j].version in applied
      {
        assert migrations[i..][1..] == migrations[i + 1..];
        if migrations[i].version !in applied {
          err := RunForward(db, migrations[i]);
          return;
        }
      }
      return None;
    }

    /** k is the first position registered for the last log entry, or the number of migrations. */
    method DownOne(db: Database<D>) returns (err: Option<Error>, ghost k: nat)
      modifies db
      ensures var st := old(db.State());
        Outcome(db.State(), err)
        == if st.log == [] then Outcome(st, None) else RolledBack(st, old(migrations), st.log[|st.log| - 1])
      ensures migrations == old(migrations)
      ensures old(db.log) == [] ==> err.None?
      ensures err.Some? || old(db.log) == [] ==> db.log == old(db.log) && db.data == old(db.data)
      ensures old(db.log) != [] ==>
        var n, last := |old(db.log)| - 1, old(db.log)[|old(db.log)| - 1];
        && FirstAt(migrations, last, k)
        && (err.None? ==> k < |migrations| && Undone(migrations[k], old(db.data), db.data))
        && (err.None? && last !in old(db.log)[..n] ==> db.log == old(db.log)[..n])
        && (err.Some? ==> CannotUndo(migrations, last, k, db.data, err.value))
    {
      var applied := db.log;
      k := 0;
      if |applied| == 0 { err := None; return; }
      var last := applied[|applied| - 1];
      k := FindAt(migrations, last);
      assert applied == applied[..|applied| - 1] + [last];
      if last !in applied[..|applied| - 1] { WithoutLast(applied[..|applied| - 1], last); }
      var m := Find(migrations, last);
      if m.None? { err := Some(NotInRegistry(last)); return; }
      if m.value.backward.None? { err := Some(NoBackward(last)); return; }
      err := RunBackward(db, m.value);
    }

    /**
      Over a log without duplicates: left entries remain, the others were rolled back from the end, entry n - 1 - i
      by the Backward registered at position at[i], which took the data from ds[i] to ds[i + 1]; stop is the position
      registered for the entry that could not be rolled back.
     */
    method Down(db: Database<D>)
      returns (err: Option<Error>, ghost left: nat, ghost at: seq<nat>, ghost ds: seq<D>, ghost stop: nat)
      modifies db
      ensures Outcome(db.State(), err) == AllRolledBack(old(db.State()), old(migrations), old(db.log))
      ensures migrations == old(migrations)
      ensures left <= |old(db.log)| && |at| == |old(db.log)| - left && |ds| == |at| + 1
      ensures ds[0] == old(db.data) && ds[|at|] == db.data
      ensures forall i: nat :: i < |at| ==> FirstAt(migrations, old(db.log)[|old(db.log)| - 1 - i], at[i])
      ensures Distinct(old(db.log)) ==>
        && db.log == old(db.log)[..left]
        && forall i: nat :: i < |at| ==> at[i] < |migrations| && Undone(migrations[at[i]], ds[i], ds[i + 1])
      ensures err.None? <==> left == 0
      ensures left > 0 ==>
        var v := old(db.log)[left - 1];
        FirstAt(migrations, v, stop) && CannotUndo(migrations, v, stop, db.data, err.value)
    {
      ghost var was := db.State();
      var applied := db.log;
      var i: nat := |applied|;
      assert applied[..i] == applied;
      err := None;
      while i > 0 && err.None?
        invariant i <= |applied| && migrations == old(migrations)
        invariant AllRolledBack(was, migrations, applied) ==
          if err.Some? then Outcome(db.State(), err) else AllRolledBack(db.State(), migrations, applied[..i])
      {
        i := i - 1;
        RollsBackFrom(db.State(), migrations, applied, i);
        var m := Find(migrations, applied[i]);
        if m.None? {
          err := Some(NotInRegistry(applied[i]));
        } else if m.value.backward.None? {
          err := Some(NoBackward(applied[i]));
        } else {
          err := RunBackward(db, m.value);
        }
      }
      left, at, ds, stop := BackwardsCompose(migrations, was, db.State(), err);
    }
  }

  /** k is the first position at which a version is registered, or the number of migrations. */
  ghost predicate FirstAt<D>(ms: seq<Migration<D>>, v: Version, k: nat)
  {
    k <= |ms| && (k < |ms| ==> ms[k].version == v) && forall j: nat :: j < k ==> ms[j].version != v
  }

  ghost predicate Undone<D>(m: Migration<D>, before: D, after: D)
  {
    m.backward.Some? && m.backward.value(before) == Some(after)
  }

  /** Why a version whose first registered position is k is not rolled back. */
  ghost predicate CannotUndo<D>(ms: seq<Migration<D>>, v: Version, k: nat, data: D, err: Error)
  {
    if k >= |ms| then err == NotInRegistry(v)
    else if ms[k].backward.None? then err == NoBackward(v)
    else ms[k].backward.value(data).None? && err == MigrationFailed(v)
  }

  lemma {:induction false} FindAt<D>(ms: seq<Migration<D>>, v: Version) returns (k: nat)
    ensures FirstAt(ms, v, k) && Find(ms, v) == if k == |ms| then None else Some(ms[k])
  {
    if ms == [] || ms[0].version == v {
      k := 0;
    } else {
      var j := FindAt(ms[1..], v);
      k := j + 1;
      forall i: nat | i < k ensures ms[i].version != v {
        if i > 0 { assert ms[i] == ms[1..][i - 1]; }
      }
    }
  }

  /** The migration at position i has a version that is neither logged nor registered before it. */
  ghost predicate Due<D>(ms: seq<Migration<D>>, log: seq<Version>, i: nat)
    requires i < |ms|
  {
    ms[i].version !in log && forall j :: 0 <= j < i ==> ms[j].version != ms[i].version
  }

  ghost function VersionsAt<D>(ms: seq<Migration<D>>, run: seq<nat>): seq<Version>
    requires forall k :: 0 <= k < |run| ==> run[k] < |ms|
  {
    seq(|run|, k requires 0 <= k < |run| => ms[run[k]].version)
  }

  lemma {:induction false} DueIffNotLogged<D>(ms: seq<Migration<D>>, log: seq<Version>, run: seq<nat>, i: nat)
    requires i < |ms| && forall k :: 0 <= k < |run| ==> run[k] < i
    requires forall j: nat :: j < i ==> (j in run <==> Due(ms, log, j))
    ensures ms[i].version !in log + VersionsAt(ms, run) <==> Due(ms, log, i)
  {
    var v, w := ms[i].version, VersionsAt(ms, run);
    if v in w {
      var k :| 0 <= k < |run| && w[k] == v;
      assert ms[run[k]].version == v;
    } else if v !in log {
      forall j: nat | j < i ensures ms[j].version != v {
        if ms[j].version == v {
          var f := FirstSuch(ms, v, j);
          VersionIsAt(ms, run, f);
          assert Due(ms, log, f);
        }
      }
    }
  }

  lemma {:induction false} VersionIsAt<D>(ms: seq<Migration<D>>, run: seq<nat>, f: nat)
    requires forall k :: 0 <= k < |run| ==> run[k] < |ms|
    ensures f in run ==> f < |ms| && ms[f].version in VersionsAt(ms, run)
  {
    if f in run {
      var k :| 0 <= k < |run| && run[k] == f;
      assert VersionsAt(ms, run)[k] == ms[f].version;
    }
  }

  /** The first i positions have been seen to: run holds those that ran, ds the data around each. */
  ghost predicate Composed<D>(ms: seq<Migration<D>>, before: St<D>, st: St<D>, i: nat, run: seq<nat>, ds: seq<D>)
  {
    && i <= |ms| && (forall k :: 0 <= k < |run| ==> run[k] < i)
    && (forall j, k :: 0 <= j < k < |run| ==> run[j] < run[k])
    && (forall j: nat :: j < i ==> (j in run <==> Due(ms, before.log, j)))
    && |ds| == |run| + 1 && ds[0] == before.data && ds[|run|] == st.data
    && (forall k :: 0 <= k < |run| ==> ms[run[k]].forward(ds[k]) == Some(ds[k + 1]))
    && st.log == before.log + VersionsAt(ms, run)
  }

  lemma {:induction false} ComposedStep<D>(ms: seq<Migration<D>>, before: St<D>, st: St<D>, i: nat, run: seq<nat>,
      ds: seq<D>)
    requires Composed(ms, before, st, i, run, ds) && i < |ms| && Forwarded(st, ms[i]).err.None?
    ensures var t := Forwarded(st, ms[i]).st;
      if ms[i].version in st.log then Composed(ms, before, t, i + 1, run, ds)
      else Composed(ms, before, t, i + 1, run + [i], ds + [t.data])
  {
    DueIffNotLogged(ms, before.log, run, i);
    if ms[i].version !in st.log {
      assert VersionsAt(ms, run + [i]) == VersionsAt(ms, run) + [ms[i].version];
    }
  }

  /** What a run of Up does to the data is the composition of the Forwards that were due. */
  lemma {:induction false} ForwardsFrom<D>(ms: seq<Migration<D>>, before: St<D>, st: St<D>, i: nat, run: seq<nat>,
      ds: seq<D>)
      returns (done: nat, run': seq<nat>, ds': seq<D>)
    requires Composed(ms, before, st, i, run, ds)
    ensures var o := AllForwarded(st, ms[i..]);
      && Composed(ms, before, o.st, done, run', ds')
      && (o.err.None? <==> done == |ms|)
      && (done < |ms| ==> ms[done].version !in o.st.log && o.err == Some(MigrationFailed(ms[done].version)))
      && (done < |ms| ==> ms[done].forward(o.st.data).None?)
    decreases |ms| - i
  {
    if i == |ms| || Forwarded(st, ms[i]).err.Some? {
      done, run', ds' := i, run, ds;
    } else {
      assert ms[i..][1..] == ms[i + 1..];
      ComposedStep(ms, before, st, i, run, ds);
      var t := Forwarded(st, ms[i]).st;
      if ms[i].version in st.log {
        done, run', ds' := ForwardsFrom(ms, before, t, i + 1, run, ds);
      } else {
        done, run', ds' := ForwardsFrom(ms, before, t, i + 1, run + [i], ds + [t.data]);
      }
    }
  }

  /** The entries from left on have been rolled back, last one first. */
  ghost predicate Undoing<D>(ms: seq<Migration<D>>, before: St<D>, st: St<D>, left: nat, at: seq<nat>, ds: seq<D>)
  {
    var n := |before.log|;
    && left <= n && |at| == n - left && |ds| == |at| + 1 && ds[0] == before.data && ds[|at|] == st.data
    && (forall i: nat :: i < |at| ==> FirstAt(ms, before.log[n - 1 - i], at[i]))
    && (Distinct(before.log) ==>
          && st.log == before.log[..left]
          && forall i: nat :: i < |at| ==> at[i] < |ms| && Undone(ms[at[i]], ds[i], ds[i + 1]))
  }

  lemma {:induction false} UndoingStep<D>(ms: seq<Migration<D>>, before: St<D>, st: St<D>, left: nat, at: seq<nat>,
      ds: seq<D>, k: nat)
    requires Undoing(ms, before, st, left, at, ds) && left > 0
    requires FirstAt(ms, before.log[left - 1], k)
    requires Find(ms, before.log[left - 1]) == if k == |ms| then None else Some(ms[k])
    ensures var v := before.log[left - 1];
      var o := RolledBack(st, ms, v);
      if o.err.Some? then o.st == st && CannotUndo(ms, v, k, st.data, o.err.value)
      else Undoing(ms, before, o.st, left - 1, at + [k], ds + [o.st.data])
  {
    OneUndone(ms, before.log, st, left, k);
  }

  /** Rolling back the last of the entries that are left. */
  lemma {:induction false} OneUndone<D>(ms: seq<Migration<D>>, log: seq<Version>, st: St<D>, left: nat, k: nat)
    requires 0 < left <= |log| && FirstAt(ms, log[left - 1], k)
    requires Find(ms, log[left - 1]) == if k == |ms| then None else Some(ms[k])
    ensures var v := log[left - 1];
      var o := RolledBack(st, ms, v);
      && (o.err.Some? ==> o.st == st && CannotUndo(ms, v, k, st.data, o.err.value))
      && (o.err.None? && Distinct(log) && st.log == log[..left] ==>
            k < |ms| && Undone(ms[k], st.data, o.st.data) && o.st.log == log[..left - 1])
  {
    var rest := log[..left - 1];
    assert log[..left] == rest + [log[left - 1]];
    if log[left - 1] !in rest { WithoutLast(rest, log[left - 1]); }
  }

  lemma {:induction false} BackwardsFrom<D>(ms: seq<Migration<D>>, before: St<D>, st: St<D>, i: nat, at: seq<nat>,
      ds: seq<D>)
      returns (left: nat, at': seq<nat>, ds': seq<D>, stop: nat)
    requires Undoing(ms, before, st, i, at, ds)
    ensures var o := AllRolledBack(st, ms, before.log[..i]);
      && Undoing(ms, before, o.st, left, at', ds')
      && (o.err.None? <==> left == 0)
      && (left > 0 ==> FirstAt(ms, before.log[left - 1], stop))
      && (left > 0 ==> CannotUndo(ms, before.log[left - 1], stop, o.st.data, o.err.value))
    decreases i
  {
    if i == 0 {
      left, at', ds', stop := 0, at, ds, 0;
    } else {
      var v := before.log[i - 1];
      var k := FindAt(ms, v);
      UndoingStep(ms, before, st, i, at, ds, k);
      var o := RolledBack(st, ms, v);
      assert before.log[..i][..i - 1] == before.log[..i - 1];
      if o.err.Some? {
        left, at', ds', stop := i, at, ds, k;
      } else {
        left, at', ds', stop := BackwardsFrom(ms, before, o.st, i - 1, at + [k], ds + [o.st.data]);
      }
    }
  }

  lemma {:induction false} RollsBackFrom<D>(st: St<D>, ms: seq<Migration<D>>, vs: seq<Version>, i: nat)
    requires i < |vs|
    ensures var o := RolledBack(st, ms, vs[i]);
      AllRolledBack(st, ms, vs[..i + 1]) == if o.err.Some? then o else AllRolledBack(o.st, ms, vs[..i])
  {
    assert vs[..i + 1][..i] == vs[..i];
  }

  lemma {:induction false} BackwardsCompose<D>(ms: seq<Migration<D>>, was: St<D>, now: St<D>, err: Option<Error>)
      returns (left: nat, at: seq<nat>, ds: seq<D>, stop: nat)
    requires Outcome(now, err) == AllRolledBack(was, ms, was.log)
    ensures left <= |was.log| && |at| == |was.log| - left && |ds| == |at| + 1
    ensures ds[0] == was.data && ds[|at|] == now.data
    ensures forall i: nat :: i < |at| ==> FirstAt(ms, was.log[|was.log| - 1 - i], at[i])
    ensures Distinct(was.log) ==>
      && now.log == was.log[..left]
      && forall i: nat :: i < |at| ==> at[i] < |ms| && Undone(ms[at[i]], ds[i], ds[i + 1])
    ensures err.None? <==> left == 0
    ensures left > 0 ==>
      var v := was.log[left - 1];
      FirstAt(ms, v, stop) && CannotUndo(ms, v, stop, now.data, err.value)
  {
    assert was.log[..|was.log|] == was.log;
    left, at, ds, stop := BackwardsFrom(ms, was, was, |was.log|, [], [was.data]);
  }

  lemma {:induction false} FirstSuch<D>(ms: seq<Migration<D>>, v: Version, j: nat) returns (f: nat)
    requires j < |ms| && ms[j].version == v
    ensures f <= j && ms[f].version == v && forall i: nat :: i < f ==> ms[i].version != v
  {
    f := FindAt(ms, v);
  }

  /** The index of the first migration that is not in the log, or the number of migrations. */
  function FirstPending<D>(ms: seq<Migration<D>>, log: seq<Version>): (k: nat)
    ensures k <= |ms|
    ensures forall i :: 0 <= i < k ==> ms[i].version in log
    ensures k < |ms| ==> ms[k].version !in log
  {
    if ms == [] || ms[0].version !in log then 0 else 1 + FirstPending(ms[1..], log)
  }

  // -----------------------------------------------------------------------------------------
  // Sequential results
  // -----------------------------------------------------------------------------------------

  /** What Up has to do: the versions missing from the log, each once, in registry order. */
  function Pending(vs: seq<Version>, log: seq<Version>): seq<Version>
    decreases |vs|
  {
    if vs == [] then []
    else if vs[0] in log then Pending(vs[1..], log)
    else [vs[0]] + Pending(vs[1..], log + [vs[0]])
  }

  function Ups(vs: seq<Version>): seq<Event>
  {
    seq(|vs|, i requires 0 <= i < |vs| => Event.Up(vs[i]))
  }

  /** Backward events of vs, last version first. */
  function DownsReversed(vs: seq<Version>): seq<Event>
  {
    seq(|vs|, i requires 0 <= i < |vs| => Event.Down(vs[|vs| - 1 - i]))
  }

  /** What is pending after the first version has been seen to. */
  lemma {:induction false} PendingStep(vs: seq<Version>, rest: seq<Version>, k: nat, log: seq<Version>)
    requires vs != [] && rest == vs[1..] && k <= |rest|
    ensures vs[0] in log ==> Pending(vs[..k + 1], log) == Pending(rest[..k], log)
    ensures vs[0] !in log ==>
      Pending(vs[..k + 1], log) == [vs[0]] + Pending(rest[..k], log + [vs[0]]) &&
      Ups(Pending(vs[..k + 1], log)) == [Event.Up(vs[0])] + Ups(Pending(rest[..k], log + [vs[0]]))
  {
    assert vs[..k + 1] == [vs[0]] + rest[..k] && vs[..k + 1][1..] == rest[..k];
  }

  /** The first done migrations have been seen to, and the next one, if any, failed. */
  predicate UpTo<D>(st: St<D>, ms: seq<Migration<D>>, done: nat)
  {
    var o := AllForwarded(st, ms);
    done <= |ms| && o.st.log == st.log + Pending(Versions(ms)[..done], st.log) &&
    o.st.trace == st.trace + Ups(Pending(Versions(ms)[..done], st.log)) &&
    (forall i :: 0 <= i < done ==> ms[i].version in o.st.log) &&
    if done == |ms| then o.err.None?
    else o.err == Some(MigrationFailed(ms[done].version)) && ms[done].version !in o.st.log
  }

  lemma {:induction false} StopsAtFirst<D>(st: St<D>, ms: seq<Migration<D>>)
    requires ms == [] || Forwarded(st, ms[0]).err.Some?
    ensures UpTo(st, ms, 0)
  {
    assert Versions(ms)[..0] == [] && Ups([]) == [];
    assert st.log + [] == st.log && st.trace + [] == st.trace;
  }

  lemma {:induction false} GoesOn<D>(st: St<D>, ms: seq<Migration<D>>, k: nat)
    requires ms != [] && Forwarded(st, ms[0]).err.None? && UpTo(Forwarded(st, ms[0]).st, ms[1..], k)
    ensures UpTo(st, ms, k + 1)
  {
    assert Versions(ms)[1..] == Versions(ms[1..]) &&
      AllForwarded(st, ms) == AllForwarded(Forwarded(st, ms[0]).st, ms[1..]);
    PendingStep(Versions(ms), Versions(ms[1..]), k, st.log);
    FirstIsLogged(st, ms, Pending(Versions(ms[1..])[..k], Forwarded(st, ms[0]).st.log));
    if k < |ms[1..]| { assert ms[1..][k] == ms[k + 1]; }
    forall i | 0 <= i < k + 1 ensures ms[i].version in AllForwarded(st, ms).st.log {
      if i > 0 { assert ms[1..][i - 1] == ms[i]; }
    }
  }

  lemma {:induction false} FirstIsLogged<D>(st: St<D>, ms: seq<Migration<D>>, more: seq<Version>)
    requires ms != [] && Forwarded(st, ms[0]).err.None?
    ensures ms[0].version in Forwarded(st, ms[0]).st.log + more
  {
  }

  /** Up appends exactly the pending versions in order, or those before the one that failed. */
  lemma {:induction false} UpAppliesPending<D>(st: St<D>, ms: seq<Migration<D>>) returns (done: nat)
    ensures done <= |ms|
    ensures var o, p := AllForwarded(st, ms), Pending(Versions(ms)[..done], st.log);
      && o.st.log == st.log + p && o.st.trace == st.trace + Ups(p)
      && (forall i :: 0 <= i < done ==> ms[i].version in o.st.log)
      && (o.err.None? <==> done == |ms|)
      && (done < |ms| ==> o.err == Some(MigrationFailed(ms[done].version)) && ms[done].version !in o.st.log)
  {
    done := SeenTo(st, ms);
  }

  lemma {:induction false} SeenTo<D>(st: St<D>, ms: seq<Migration<D>>) returns (done: nat)
    ensures UpTo(st, ms, done)
    decreases |ms|
  {
    if ms == [] || Forwarded(st, ms[0]).err.Some? {
      done := 0;
      StopsAtFirst(st, ms);
    } else {
      var k := SeenTo(Forwarded(st, ms[0]).st, ms[1..]);
      GoesOn(st, ms, k);
      done := k + 1;
    }
  }

  lemma {:induction false} WithoutLast(log: seq<Version>, v: Version)
    requires v !in log
    ensures Without(log + [v], v) == log
  {
    if log == [] {
      assert ([] + [v])[1..] == [];
    } else {
      assert (log + [v])[1..] == log[1..] + [v];
      WithoutLast(log[1..], v);
    }
  }

  lemma {:induction false} RolledBackLast<D>(st: St<D>, ms: seq<Migration<D>>)
    requires st.log != [] && st.log[|st.log| - 1] !in st.log[..|st.log| - 1]
    ensures var n := |st.log| - 1;
      var o := RolledBack(st, ms, st.log[n]);
      if o.err.Some? then o.st == st else o.st.log == st.log[..n] && o.st.trace == st.trace + [Event.Down(st.log[n])]
  {
    var n := |st.log| - 1;
    assert st.log == st.log[..n] + [st.log[n]];
    WithoutLast(st.log[..n], st.log[n]);
  }

  /** The first step of a complete rollback. */
  lemma {:induction false} LastRolledBack<D>(st: St<D>, ms: seq<Migration<D>>)
    requires st.log != [] && Distinct(st.log)
    ensures var n := |st.log| - 1;
      var o := RolledBack(st, ms, st.log[n]);
      if o.err.Some? then o.st == st && AllRolledBack(st, ms, st.log) == o
      else
        o.st.log == st.log[..n] && Distinct(o.st.log) && o.st.trace == st.trace + [Event.Down(st.log[n])] &&
        AllRolledBack(st, ms, st.log) == AllRolledBack(o.st, ms, o.st.log)
  {
    RolledBackLast(st, ms);
  }

  lemma {:induction false} LogsAlign(log: seq<Version>, left: nat)
    requires left < |log|
    ensures log[..|log| - 1][..left] == log[..left]
    ensures DownsReversed(log[left..]) == [Event.Down(log[|log| - 1])] + DownsReversed(log[..|log| - 1][left..])
  {
    DownsReversedStep(log, left);
  }

  /** Down over an undisturbed log empties it, or stops with the versions it has not reached. */
  lemma {:induction false} DownEmptiesLog<D>(st: St<D>, ms: seq<Migration<D>>) returns (left: nat)
    requires Distinct(st.log)
    ensures left <= |st.log|
    ensures var o := AllRolledBack(st, ms, st.log);
      && o.st.log == st.log[..left] && o.st.trace == st.trace + DownsReversed(st.log[left..])
      && (o.err.None? <==> left == 0)
    decreases |st.log|
  {
    var n := |st.log|;
    if n == 0 {
      left := 0;
      assert st.trace + [] == st.trace;
    } else {
      var v, o := st.log[n - 1], RolledBack(st, ms, st.log[n - 1]);
      LastRolledBack(st, ms);
      if o.err.Some? {
        left := n;
        assert st.log[..n] == st.log && st.log[n..] == [] && st.trace + [] == st.trace;
      } else {
        left := DownEmptiesLog(o.st, ms);
        LogsAlign(st.log, left);
        Appended(st.trace, [Event.Down(v)], DownsReversed(o.st.log[left..]));
      }
    }
  }

  lemma {:induction false} Appended<T>(a: seq<T>, b: seq<T>, c: seq<T>)
    ensures a + b + c == a + (b + c)
  {
  }

  lemma {:induction false} DownsReversedStep(log: seq<Version>, left: nat)
    requires left < |log|
    ensures DownsReversed(log[left..]) == [Event.Down(log[|log| - 1])] + DownsReversed(log[..|log| - 1][left..])
  {
    assert log[..|log| - 1][left..] == log[left..|log| - 1];
  }

  /** Each Backward gives back the data its Forward was given. */
  ghost predicate Undoes<D(!new)>(ms: seq<Migration<D>>)
  {
    forall m :: m in ms ==> m.backward.Some? && forall d :: m.forward(d).Some? ==>
      m.backward.value(m.forward(d).value) == Some(d)
  }

  lemma {:induction false} FindDistinct<D>(ms: seq<Migration<D>>, k: nat)
    requires Distinct(Versions(ms)) && k < |ms|
    ensures Find(ms, ms[k].version) == Some(ms[k])
    decreases k
  {
    if k == 0 {
    } else {
      var vs := Versions(ms);
      assert vs[0] == ms[0].version && vs[k] == ms[k].version && vs[0] != vs[k];
      assert Versions(ms[1..]) == vs[1..];
      FindDistinct(ms[1..], k - 1);
    }
  }

  /**
    Rolling back what Up just applied on top of a log leads to the state before it, whether Up finished or
    stopped early.
   */
  lemma {:induction false} RollbackUndoesUp<D(!new)>(st: St<D>, ms: seq<Migration<D>>, k: nat)
    requires k <= |ms| && Distinct(Versions(ms)) && Undoes(ms)
    requires forall i :: k <= i < |ms| ==> ms[i].version !in st.log
    ensures var up := AllForwarded(st, ms[k..]).st;
      && st.log <= up.log && up.trace == st.trace + Ups(up.log[|st.log|..])
      && AllRolledBack(up, ms, up.log)
         == AllRolledBack(St(st.log, st.data, up.trace + DownsReversed(up.log[|st.log|..])), ms, st.log)
    decreases |ms| - k
  {
    var up := AllForwarded(st, ms[k..]).st;
    var n := |st.log|;
    if k == |ms| || Forwarded(st, ms[k]).err.Some? {
      assert up == st;
      assert up.log[n..] == [] && up.trace + [] == up.trace && Ups([]) == [] && DownsReversed([]) == [];
    } else {
      var m := ms[k];
      var st1 := Forwarded(st, m).st;
      assert ms[k..][0] == m && ms[k..][1..] == ms[k + 1..];
      LaterStayPending(st.log, ms, k);
      RollbackUndoesUp(st1, ms, k + 1);
      var tail := DownsReversed(up.log[n + 1..]);
      EventsStep(up.log, n);
      FindDistinct(ms, k);
      RollbackOne(st, st1, ms, m, up.trace + tail);
      Appended(st.trace, [Event.Up(m.version)], Ups(up.log[n + 1..]));
      Appended(up.trace, tail, [Event.Down(m.version)]);
    }
  }

  lemma {:induction false} LaterStayPending<D>(log: seq<Version>, ms: seq<Migration<D>>, k: nat)
    requires k < |ms| && Distinct(Versions(ms))
    requires forall i :: k <= i < |ms| ==> ms[i].version !in log
    ensures forall i :: k + 1 <= i < |ms| ==> ms[i].version !in log + [ms[k].version]
  {
    forall i | k + 1 <= i < |ms| ensures ms[i].version !in log + [ms[k].version] {
      assert Versions(ms)[i] != Versions(ms)[k];
    }
  }

  lemma {:induction false} EventsStep(log: seq<Version>, n: nat)
    requires n < |log|
    ensures Ups(log[n..]) == [Event.Up(log[n])] + Ups(log[n + 1..])
    ensures DownsReversed(log[n..]) == DownsReversed(log[n + 1..]) + [Event.Down(log[n])]
  {
    assert log[n..] == [log[n]] + log[n + 1..];
  }

  /** Undoing the newest migration of a log. */
  lemma {:induction false} RollbackOne<D(!new)>(st: St<D>, st1: St<D>, ms: seq<Migration<D>>, m: Migration<D>,
      trace: seq<Event>)
    requires m.version !in st.log && Forwarded(st, m) == Outcome(st1, None)
    requires Find(ms, m.version) == Some(m) && Undoes(ms)
    ensures AllRolledBack(St(st1.log, st1.data, trace), ms, st1.log)
         == AllRolledBack(St(st.log, st.data, trace + [Event.Down(m.version)]), ms, st.log)
  {
    WithoutLast(st.log, m.version);
    var n := |st.log|;
    assert st1.log[n] == m.version && st1.log[..n] == st.log;
    assert m in ms;
    assert m.backward.value(st1.data) == Some(st.data);
    assert RolledBack(St(st1.log, st1.data, trace), ms,
      m.version) == Outcome(St(st.log, st.data, trace + [Event.Down(m.version)]), None);
  }

  /** From an empty log, Up and then Down restores the data and runs the Backwards in exact reverse order. */
  lemma {:induction false} UpThenDown<D(!new)>(st: St<D>, ms: seq<Migration<D>>)
    requires st.log == [] && Distinct(Versions(ms)) && Undoes(ms)
    ensures var up := AllForwarded(st, ms).st;
      AllRolledBack(up, ms, up.log) == Outcome(St([], st.data, st.trace + Ups(up.log) + DownsReversed(up.log)), None)
  {
    assert ms[0..] == ms;
    var up := AllForwarded(st, ms).st;
    RollbackUndoesUp(st, ms, 0);
    assert up.log[0..] == up.log;
  }
}

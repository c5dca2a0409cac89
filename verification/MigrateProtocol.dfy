/**
  Many migration starters over one stored log, interleaved step by step.

  Every starter is one call of Up, UpOne, Down or DownOne. UpOne, Down and DownOne plan from a read
  of the log that no lock protects; each planned version then runs in its own transaction: begin,
  take the advisory lock, re-read the log, run, rewrite the log, commit. Any step may fail instead,
  which rolls the transaction back and ends the call.
 */
module MigrateProtocol {
  import opened Options
  import opened Migrate

  datatype Kind = UpAll | UpNext | DownAll | DownLast

  datatype Job = Job(forward: bool, v: Version)

  datatype Pc =
    | Waiting
    | Between(plan: seq<Job>)
    | Begun(plan: seq<Job>)
    | Locked(plan: seq<Job>)
    | Loaded(plan: seq<Job>, entries: seq<Version>)
    | Ran(plan: seq<Job>, entries: seq<Version>)
    | Saved(plan: seq<Job>, entries: seq<Version>)
    | Succeeded
    | Failed

  datatype Starter = Starter(kind: Kind, pc: Pc)

  /** What is committed, who holds the lock, and where every starter is. */
  datatype State = State(log: seq<Version>, history: seq<Event>, lock: Option<nat>, starters: map<nat, Starter>)

  /** The registry, sorted, and the versions that can be rolled back. */
  datatype Config = Config(versions: seq<Version>, reversible: set<Version>)

  datatype Action = Launch | Begin | Lock | Read | Run | Save | Commit | Abort

  function Forwards(vs: seq<Version>): seq<Job>
  {
    seq(|vs|, i requires 0 <= i < |vs| => Job(true, vs[i]))
  }

  /** Last version first. */
  function Backwards(vs: seq<Version>): seq<Job>
  {
    seq(|vs|, i requires 0 <= i < |vs| => Job(false, vs[|vs| - 1 - i]))
  }

  function FirstMissing(vs: seq<Version>, log: seq<Version>): (k: nat)
    ensures k <= |vs| && (k < |vs| ==> vs[k] !in log)
    ensures forall i :: 0 <= i < k ==> vs[i] in log
  {
    if vs == [] || vs[0] !in log then 0 else 1 + FirstMissing(vs[1..], log)
  }

  /** The jobs a call will try, planned from the log as it reads it without a lock. */
  function Plan(c: Config, kind: Kind, log: seq<Version>): seq<Job>
  {
    match kind
    case UpAll => Forwards(c.versions)
    case UpNext =>
      var k := FirstMissing(c.versions, log);
      if k == |c.versions| then [] else [Job(true, c.versions[k])]
    case DownAll => Backwards(log)
    case DownLast => if log == [] then [] else [Job(false, log[|log| - 1])]
  }

  function Rewritten(log: seq<Version>, j: Job): seq<Version>
  {
    if j.forward then log + [j.v] else Without(log, j.v)
  }

  function EventOf(j: Job): Event
  {
    if j.forward then Event.Up(j.v) else Event.Down(j.v)
  }

  /** Another starter did this job first. */
  predicate Redundant(log: seq<Version>, j: Job)
  {
    j.forward <==> j.v in log
  }

  predicate InTransaction(pc: Pc)
  {
    pc.Begun? || HoldsLock(pc)
  }

  predicate HoldsLock(pc: Pc)
  {
    pc.Locked? || pc.Loaded? || pc.Ran? || pc.Saved?
  }

  function At(s: State, p: nat, pc: Pc): State
    requires p in s.starters
  {
    s.(starters := s.starters[p := s.starters[p].(pc := pc)])
  }

  /** One step of starter p, or None where it is not enabled. */
  function Apply(c: Config, s: State, p: nat, a: Action): Option<State>
  {
    if p !in s.starters then None
    else
      var pc := s.starters[p].pc;
      match a
      case Launch =>
        if !pc.Waiting? then None else Some(At(s, p, Between(Plan(c, s.starters[p].kind, s.log))))
      case Begin =>
        if !pc.Between? then None
        else if pc.plan == [] then Some(At(s, p, Succeeded))
        else if !pc.plan[0].forward && pc.plan[0].v !in c.reversible then Some(At(s, p, Failed))
        else Some(At(s, p, Begun(pc.plan)))
      case Lock =>
        if !pc.Begun? || s.lock.Some? then None else Some(At(s, p, Locked(pc.plan)).(lock := Some(p)))
      case Read =>
        if !pc.Locked? then None else Some(At(s, p, Loaded(pc.plan, s.log)))
      case Run =>
        if !pc.Loaded? || pc.plan == [] then None
        else if Redundant(pc.entries, pc.plan[0]) then Some(At(s, p, Between(pc.plan[1..])).(lock := None))
        else Some(At(s, p, Ran(pc.plan, pc.entries)))
      case Save =>
        if !pc.Ran? || pc.plan == [] then None
        else Some(At(s, p, Saved(pc.plan, Rewritten(pc.entries, pc.plan[0]))))
      case Commit =>
        if !pc.Saved? || pc.plan == [] then None
        else Some(At(s, p, Between(pc.plan[1..])).(lock := None, log := pc.entries,
          history := s.history + [EventOf(pc.plan[0])]))
      case Abort =>
        if pc.Succeeded? || pc.Failed? then None
        else Some(At(s, p, Failed).(lock := if HoldsLock(pc) then None else s.lock))
  }

  datatype Step = Step(p: nat, a: Action)

  /** A run: any interleaving of steps, or None if one of them is not enabled. */
  function RunOf(c: Config, s: State, steps: seq<Step>): Option<State>
    decreases |steps|
  {
    if steps == [] then Some(s)
    else
      var t := Apply(c, s, steps[0].p, steps[0].a);
      if t.None? then None else RunOf(c, t.value, steps[1..])
  }

  predicate Initial(s: State)
  {
    s.lock.None? && forall p :: p in s.starters ==> s.starters[p].pc.Waiting?
  }

  // -----------------------------------------------------------------------------------------
  // Any mix of calls
  // -----------------------------------------------------------------------------------------

  /** What the lock protects: the holder's copy of the log is the log, and its job is still to do. */
  predicate StarterOk(s: State, p: nat)
    requires p in s.starters
  {
    var pc := s.starters[p].pc;
    && (HoldsLock(pc) <==> s.lock == Some(p))
    && (InTransaction(pc) ==> pc.plan != [])
    && (pc.Loaded? ==> pc.entries == s.log)
    && (pc.Ran? ==> pc.entries == s.log && !Redundant(s.log, pc.plan[0]))
    && (pc.Saved? ==> pc.entries == Rewritten(s.log, pc.plan[0]) && !Redundant(s.log, pc.plan[0]))
  }

  predicate LockOk(s: State)
  {
    && (s.lock.Some? ==> s.lock.value in s.starters)
    && (forall p :: p in s.starters ==> StarterOk(s, p))
  }

  /** Committed Forwards minus committed Backwards is one for a logged version and zero for any other. */
  ghost predicate Balanced(s: State)
  {
    && Distinct(s.log)
    && forall v :: multiset(s.history)[Event.Up(v)] == multiset(s.history)[Event.Down(v)] + (if v in s.log then
      1 else 0)
  }

  lemma {:induction false} LockKept(c: Config, s: State, p: nat, a: Action)
    requires LockOk(s) && Apply(c, s, p, a).Some?
    ensures LockOk(Apply(c, s, p, a).value)
  {
    var t := Apply(c, s, p, a).value;
    forall q | q in t.starters ensures StarterOk(t, q) {
      assert StarterOk(s, p) && StarterOk(s, q);
      if q != p { assert t.starters[q] == s.starters[q]; }
    }
  }

  lemma {:induction false} WithoutKeepsOthers(log: seq<Version>, v: Version)
    ensures forall w :: w in Without(log, v) <==> w in log && w != v
    ensures Distinct(log) ==> Distinct(Without(log, v))
  {
    if log == [] {
    } else {
      WithoutKeepsOthers(log[1..], v);
      assert log == [log[0]] + log[1..];
      if Distinct(log) {
        assert forall i, j :: 0 <= i < j < |log[1..]| ==> log[1..][i] == log[i + 1] && log[1..][j] == log[j + 1];
        var rest := Without(log[1..], v);
        assert forall k :: 0 <= k < |log[1..]| ==> log[1..][k] == log[k + 1];
        assert log[0] !in log[1..];
        assert log[0] !in rest;
      }
    }
  }

  lemma {:induction false} BalanceKept(c: Config, s: State, p: nat, a: Action)
    requires LockOk(s) && Balanced(s) && Apply(c, s, p, a).Some?
    ensures Balanced(Apply(c, s, p, a).value)
  {
    var t := Apply(c, s, p, a).value;
    if a.Commit? {
      var j := s.starters[p].pc.plan[0];
      assert StarterOk(s, p);
      WithoutKeepsOthers(s.log, j.v);
      assert t.log == Rewritten(s.log, j);
      assert multiset(t.history) == multiset(s.history) + multiset{EventOf(j)};
    }
  }

  lemma {:induction false} EveryRunKeepsLock(c: Config, s: State, steps: seq<Step>)
    requires LockOk(s) && RunOf(c, s, steps).Some?
    ensures LockOk(RunOf(c, s, steps).value)
    decreases |steps|
  {
    if steps == [] {
    } else {
      LockKept(c, s, steps[0].p, steps[0].a);
      EveryRunKeepsLock(c, Apply(c, s, steps[0].p, steps[0].a).value, steps[1..]);
    }
  }

  lemma {:induction false} EveryRunKeepsBalance(c: Config, s: State, steps: seq<Step>)
    requires LockOk(s) && Balanced(s) && RunOf(c, s, steps).Some?
    ensures Balanced(RunOf(c, s, steps).value)
    decreases |steps|
  {
    if steps == [] {
    } else {
      LockKept(c, s, steps[0].p, steps[0].a);
      BalanceKept(c, s, steps[0].p, steps[0].a);
      EveryRunKeepsBalance(c, Apply(c, s, steps[0].p, steps[0].a).value, steps[1..]);
    }
  }

  /** From an empty log, under any interleaving of any calls, no version is logged twice and the counts balance. */
  lemma {:induction false} AnyInterleavingBalances(c: Config, s: State, steps: seq<Step>)
    requires Initial(s) && s.log == [] && s.history == [] && RunOf(c, s, steps).Some?
    ensures Balanced(RunOf(c, s, steps).value)
  {
    EveryRunKeepsBalance(c, s, steps);
  }

  /** The lock never wedges the runners: while a call is unfinished, some call has a step other than failing. */
  lemma {:induction false} SomeoneCanStep(c: Config, s: State, steps: seq<Step>, p: nat) returns (q: nat, a: Action)
    requires Initial(s) && RunOf(c, s, steps).Some? && p in s.starters
    ensures var t := RunOf(c, s, steps).value;
      p in t.starters && (t.starters[p].pc.Succeeded? || t.starters[p].pc.Failed? ||
        (a != Abort && Apply(c, t, q, a).Some?))
  {
    EveryRunKeepsLock(c, s, steps);
    StartersStay(c, s, steps);
    var t := RunOf(c, s, steps).value;
    q := if t.lock.Some? then t.lock.value else p;
    assert StarterOk(t, q) && StarterOk(t, p);
    a := match t.starters[q].pc
      case Waiting => Launch
      case Between(_) => Begin
      case Begun(_) => Lock
      case Locked(_) => Read
      case Loaded(_, _) => Run
      case Ran(_, _) => Save
      case _ => Commit;
  }

  lemma {:induction false} StartersStay(c: Config, s: State, steps: seq<Step>)
    requires RunOf(c, s, steps).Some?
    ensures var t := RunOf(c, s, steps).value;
      t.starters.Keys == s.starters.Keys && forall p :: p in s.starters ==> t.starters[p].kind == s.starters[p].kind
    decreases |steps|
  {
    if steps == [] {
    } else {
      StartersStay(c, Apply(c, s, steps[0].p, steps[0].a).value, steps[1..]);
    }
  }

  // -----------------------------------------------------------------------------------------
  // Upward starters only
  // -----------------------------------------------------------------------------------------

  predicate HasPlan(pc: Pc)
  {
    !pc.Waiting? && !pc.Succeeded? && !pc.Failed?
  }

  /** What is left of a plan starts no later than the first version missing from the log. */
  ghost predicate UpPlanOk(c: Config, s: State, st: Starter)
  {
    && (st.kind.UpAll? || st.kind.UpNext?)
    && (HasPlan(st.pc) ==> UpRest(c, st.kind, st.pc.plan, |s.log|))
    && (st.kind.UpAll? && st.pc.Succeeded? ==> s.log == c.versions)
  }

  ghost predicate UpRest(c: Config, kind: Kind, plan: seq<Job>, n: nat)
  {
    if kind.UpAll? then exists i :: 0 <= i <= n && i <= |c.versions| && plan == Forwards(c.versions[i..])
    else plan == [] || exists i :: 0 <= i <= n && i < |c.versions| && plan == [Job(true, c.versions[i])]
  }

  /** The log is a prefix of the registry and holds exactly what committed, in order. */
  ghost predicate UpInv(c: Config, s: State)
  {
    && LockOk(s)
    && s.log <= c.versions
    && s.history == Ups(s.log)
    && forall p :: p in s.starters ==> UpPlanOk(c, s, s.starters[p])
  }

  lemma {:induction false} FirstMissingOfPrefix(vs: seq<Version>, log: seq<Version>)
    requires Distinct(vs) && log <= vs
    ensures FirstMissing(vs, log) == |log|
  {
    assert forall i :: 0 <= i < |log| ==> log[i] == vs[i];
    assert |log| < |vs| ==> vs[|log|] !in log;
  }

  lemma {:induction false} UpRestGrows(c: Config, kind: Kind, plan: seq<Job>, n: nat, m: nat)
    requires UpRest(c, kind, plan, n) && n <= m
    ensures UpRest(c, kind, plan, m)
  {
  }

  /** Finishing the first job of a plan, by doing it or by finding it done. */
  lemma {:induction false} UpRestTail(c: Config, kind: Kind, plan: seq<Job>, n: nat, m: nat)
    requires (kind.UpAll? || kind.UpNext?) && plan != [] && UpRest(c, kind, plan, n) && n <= m
    requires forall i :: 0 <= i < |c.versions| && plan[0].v == c.versions[i] && i <= n ==> i < m
    ensures UpRest(c, kind, plan[1..], m)
  {
    if kind.UpAll? {
      var i :| 0 <= i <= n && i <= |c.versions| && plan == Forwards(c.versions[i..]);
      assert plan[0] == Job(true, c.versions[i]);
      assert c.versions[i..][1..] == c.versions[i + 1..];
      assert plan[1..] == Forwards(c.versions[i + 1..]);
    }
  }

  lemma {:induction false} UpHead(c: Config, kind: Kind, plan: seq<Job>, n: nat) returns (i: nat)
    requires (kind.UpAll? || kind.UpNext?) && plan != [] && UpRest(c, kind, plan, n)
    ensures i <= n && i < |c.versions| && plan[0] == Job(true, c.versions[i])
  {
    if kind.UpAll? {
      i :| 0 <= i <= n && i <= |c.versions| && plan == Forwards(c.versions[i..]);
    } else {
      i :| 0 <= i <= n && i < |c.versions| && plan == [Job(true, c.versions[i])];
    }
  }

  /** A step leaves the log alone, or a commit appends the first missing version. */
  lemma {:induction false} UpLogKept(c: Config, s: State, p: nat, a: Action)
    requires Distinct(c.versions) && UpInv(c, s) && Apply(c, s, p, a).Some?
    ensures var t := Apply(c, s, p, a).value;
      t.log <= c.versions && t.history == Ups(t.log) &&
      if a == Commit then |s.log| < |c.versions| && s.starters[p].pc.plan[0] == Job(true, c.versions[|s.log|]) &&
        t.log == s.log + [c.versions[|s.log|]]
      else t.log == s.log
  {
    if a == Commit {
      var st, n := s.starters[p], |s.log|;
      assert UpPlanOk(c, s, st) && StarterOk(s, p);
      var i := UpHead(c, st.kind, st.pc.plan, n);
      assert forall k :: 0 <= k < n ==> s.log[k] == c.versions[k];
      assert i == n;
      assert Ups(s.log + [c.versions[n]]) == Ups(s.log) + [Event.Up(c.versions[n])];
    }
  }

  /** The plan of the starter that stepped. */
  lemma {:induction false} OwnPlanKept(c: Config, s: State, p: nat, a: Action)
    requires Distinct(c.versions) && UpInv(c, s) && Apply(c, s, p, a).Some?
    ensures var t := Apply(c, s, p, a).value; p in t.starters && UpPlanOk(c, t, t.starters[p])
  {
    var st, n := s.starters[p], |s.log|;
    assert UpPlanOk(c, s, st) && StarterOk(s, p);
    UpLogKept(c, s, p, a);
    match a {
      case Launch =>
        FirstMissingOfPrefix(c.versions, s.log);
        assert c.versions[0..] == c.versions;
      case Begin =>
        if st.pc.plan == [] && st.kind.UpAll? {
          var i :| 0 <= i <= n && i <= |c.versions| && st.pc.plan == Forwards(c.versions[i..]);
          assert |c.versions[i..]| == |Forwards(c.versions[i..])| == 0;
        }
      case Run =>
        var i := UpHead(c, st.kind, st.pc.plan, n);
        if Redundant(s.log, st.pc.plan[0]) {
          UpRestTail(c, st.kind, st.pc.plan, n, n) by {
            var k :| 0 <= k < n && s.log[k] == st.pc.plan[0].v;
            assert c.versions[k] == s.log[k];
          }
        }
      case Commit => UpRestTail(c, st.kind, st.pc.plan, n, n + 1);
      case _ =>
    }
  }

  lemma {:induction false} UpKept(c: Config, s: State, p: nat, a: Action)
    requires Distinct(c.versions) && UpInv(c, s) && Apply(c, s, p, a).Some?
    ensures UpInv(c, Apply(c, s, p, a).value)
  {
    var t := Apply(c, s, p, a).value;
    LockKept(c, s, p, a);
    UpLogKept(c, s, p, a);
    OwnPlanKept(c, s, p, a);
    forall q | q in t.starters ensures UpPlanOk(c, t, t.starters[q]) {
      if q != p {
        assert UpPlanOk(c, s, s.starters[q]) && t.starters[q] == s.starters[q];
        if HasPlan(s.starters[q].pc) {
          UpRestGrows(c, s.starters[q].kind, s.starters[q].pc.plan, |s.log|, |t.log|);
        }
      }
    }
  }

  lemma {:induction false} EveryUpRun(c: Config, s: State, steps: seq<Step>)
    requires Distinct(c.versions) && UpInv(c, s) && RunOf(c, s, steps).Some?
    ensures UpInv(c, RunOf(c, s, steps).value)
    decreases |steps|
  {
    if steps == [] {
    } else {
      UpKept(c, s, steps[0].p, steps[0].a);
      EveryUpRun(c, Apply(c, s, steps[0].p, steps[0].a).value, steps[1..]);
    }
  }

  /**
    Any number of Up and UpOne calls, in any interleaving, from a log that is a prefix of the
    registry: the log stays one, each Forward commits once and in order, and once any Up has
    succeeded every version is applied.
   */
  lemma {:induction false} ConcurrentUpsApplyOnce(c: Config, s: State, steps: seq<Step>)
    requires Distinct(c.versions) && Initial(s) && s.log <= c.versions && s.history == Ups(s.log)
    requires forall p :: p in s.starters ==> s.starters[p].kind.UpAll? || s.starters[p].kind.UpNext?
    requires RunOf(c, s, steps).Some?
    ensures var t := RunOf(c, s, steps).value;
      && t.log <= c.versions
      && t.history == Ups(t.log)
      && (forall v :: multiset(t.history)[Event.Up(v)] <= 1)
      && (forall p :: p in t.starters && t.starters[p].kind.UpAll? && t.starters[p].pc.Succeeded? ==>
            t.log == c.versions && forall v :: v in c.versions ==> multiset(t.history)[Event.Up(v)] == 1)
  {
    EveryUpRun(c, s, steps);
    var t := RunOf(c, s, steps).value;
    UpsCount(t.log);
    forall p | p in t.starters && t.starters[p].kind.UpAll? && t.starters[p].pc.Succeeded? ensures t.log == c.versions {
      assert UpPlanOk(c, t, t.starters[p]);
    }
  }

  lemma {:induction false} UpsCount(vs: seq<Version>)
    requires Distinct(vs)
    ensures forall v :: multiset(Ups(vs))[Event.Up(v)] == if v in vs then 1 else 0
  {
    if vs == [] {
    } else {
      var n := |vs| - 1;
      UpsCount(vs[..n]);
      assert vs == vs[..n] + [vs[n]];
      assert Ups(vs) == Ups(vs[..n]) + [Event.Up(vs[n])];
    }
  }

  // -----------------------------------------------------------------------------------------
  // Downward starters only
  // -----------------------------------------------------------------------------------------

  /** What is left of a rollback plan reaches down from no lower than the end of the log. */
  ghost predicate DownRest(full: seq<Version>, kind: Kind, plan: seq<Job>, n: nat)
  {
    if kind.DownAll? then exists i :: n <= i <= |full| && plan == Backwards(full[..i])
    else plan == [] || exists k :: n - 1 <= k < |full| && 0 <= k && plan == [Job(false, full[k])]
  }

  ghost predicate DownPlanOk(full: seq<Version>, s: State, st: Starter)
  {
    && (st.kind.DownAll? || st.kind.DownLast?)
    && (HasPlan(st.pc) ==> DownRest(full, st.kind, st.pc.plan, |s.log|))
    && (st.kind.DownAll? && st.pc.Succeeded? ==> s.log == [])
  }

  ghost predicate DownInv(full: seq<Version>, s: State)
  {
    && LockOk(s)
    && s.log <= full
    && s.history == DownsReversed(full[|s.log|..])
    && forall p :: p in s.starters ==> DownPlanOk(full, s, s.starters[p])
  }

  lemma {:induction false} DownRestTail(full: seq<Version>, kind: Kind, plan: seq<Job>, n: nat, m: nat)
    requires (kind.DownAll? || kind.DownLast?) && plan != [] && DownRest(full, kind, plan, n) && m <= n
    requires forall k :: n - 1 <= k < |full| && 0 <= k && plan[0].v == full[k] ==> m <= k
    ensures DownRest(full, kind, plan[1..], m)
  {
    if kind.DownAll? {
      var i :| n <= i <= |full| && plan == Backwards(full[..i]);
      assert plan[0] == Job(false, full[i - 1]);
      assert full[..i][..i - 1] == full[..i - 1];
      assert plan[1..] == Backwards(full[..i - 1]);
    }
  }

  lemma {:induction false} DownHead(full: seq<Version>, kind: Kind, plan: seq<Job>, n: nat) returns (k: nat)
    requires (kind.DownAll? || kind.DownLast?) && plan != [] && DownRest(full, kind, plan, n)
    ensures n <= k + 1 <= |full| && plan[0] == Job(false, full[k])
  {
    if kind.DownAll? {
      var i :| n <= i <= |full| && plan == Backwards(full[..i]);
      k := i - 1;
    } else {
      k :| n - 1 <= k < |full| && 0 <= k && plan == [Job(false, full[k])];
    }
  }

  lemma {:induction false} DownRestShrinks(full: seq<Version>, kind: Kind, plan: seq<Job>, n: nat, m: nat)
    requires DownRest(full, kind, plan, n) && m <= n
    ensures DownRest(full, kind, plan, m)
  {
  }

  /** Committing a rollback removes the last version of the log. */
  /** A job that is still to do is the rollback of the last version. */
  lemma {:induction false} NextDown(full: seq<Version>, kind: Kind, plan: seq<Job>, n: nat)
    requires Distinct(full) && n <= |full| && (kind.DownAll? || kind.DownLast?)
    requires plan != [] && DownRest(full, kind, plan, n) && !Redundant(full[..n], plan[0])
    ensures 0 < n && plan[0] == Job(false, full[n - 1])
  {
    var k := DownHead(full, kind, plan, n);
    var i :| 0 <= i < n && full[..n][i] == full[k];
    assert full[i] == full[k];
  }

  lemma {:induction false} LastGone(full: seq<Version>, n: nat)
    requires Distinct(full) && 0 < n <= |full|
    ensures Without(full[..n], full[n - 1]) == full[..n - 1]
    ensures DownsReversed(full[n - 1..]) == DownsReversed(full[n..]) + [Event.Down(full[n - 1])]
  {
    assert full[..n] == full[..n - 1] + [full[n - 1]];
    WithoutLast(full[..n - 1], full[n - 1]);
    assert full[n - 1..] == [full[n - 1]] + full[n..];
  }

  lemma {:induction false} DownCommits(full: seq<Version>, kind: Kind, plan: seq<Job>, n: nat)
    requires Distinct(full) && n <= |full| && (kind.DownAll? || kind.DownLast?)
    requires plan != [] && DownRest(full, kind, plan, n) && !Redundant(full[..n], plan[0])
    ensures 0 < n && EventOf(plan[0]) == Event.Down(full[n - 1])
    ensures Rewritten(full[..n], plan[0]) == full[..n - 1]
    ensures DownsReversed(full[n - 1..]) == DownsReversed(full[n..]) + [EventOf(plan[0])]
    ensures DownRest(full, kind, plan[1..], n - 1)
  {
    NextDown(full, kind, plan, n);
    LastGone(full, n);
    DownRestTail(full, kind, plan, n, n - 1);
  }

  /** A redundant rollback names a version above the log. */
  lemma {:induction false} DownSkips(full: seq<Version>, kind: Kind, plan: seq<Job>, n: nat)
    requires n <= |full| && (kind.DownAll? || kind.DownLast?)
    requires plan != [] && DownRest(full, kind, plan, n) && Redundant(full[..n], plan[0])
    ensures DownRest(full, kind, plan[1..], n)
  {
    var k := DownHead(full, kind, plan, n);
    assert forall i :: 0 <= i < n ==> full[..n][i] == full[i];
    DownRestTail(full, kind, plan, n, n);
  }

  lemma {:induction false} DownPlans(c: Config, log: seq<Version>, full: seq<Version>, kind: Kind)
    requires log <= full && (kind.DownAll? || kind.DownLast?)
    ensures DownRest(full, kind, Plan(c, kind, log), |log|)
  {
    assert full[..|log|] == log;
  }

  lemma {:induction false} DownEnds(full: seq<Version>, n: nat)
    requires DownRest(full, DownAll, [], n)
    ensures n == 0
  {
    var i :| n <= i <= |full| && [] == Backwards(full[..i]);
    assert |full[..i]| == |Backwards(full[..i])| == 0;
  }

  /** A step leaves the log alone, or a commit removes its last version. */
  lemma {:induction false} DownLogKept(c: Config, full: seq<Version>, s: State, p: nat, a: Action)
    requires Distinct(full) && DownInv(full, s) && Apply(c, s, p, a).Some?
    ensures var t := Apply(c, s, p, a).value;
      t.log <= full && t.history == DownsReversed(full[|t.log|..]) &&
      if a == Commit then |t.log| == |s.log| - 1 &&
        DownRest(full, s.starters[p].kind, s.starters[p].pc.plan[1..], |t.log|) else t.log == s.log
  {
    if a == Commit {
      var st, n := s.starters[p], |s.log|;
      assert DownPlanOk(full, s, st) && StarterOk(s, p);
      assert full[..n] == s.log;
      DownCommits(full, st.kind, st.pc.plan, n);
    }
  }

  lemma {:induction false} OwnRollbackKept(c: Config, full: seq<Version>, s: State, p: nat, a: Action)
    requires Distinct(full) && DownInv(full, s) && Apply(c, s, p, a).Some?
    ensures var t := Apply(c, s, p, a).value; p in t.starters && DownPlanOk(full, t, t.starters[p])
  {
    var st, n := s.starters[p], |s.log|;
    assert DownPlanOk(full, s, st) && StarterOk(s, p);
    assert full[..n] == s.log;
    DownLogKept(c, full, s, p, a);
    match a {
      case Launch => DownPlans(c, s.log, full, st.kind);
      case Begin => if st.pc.plan == [] && st.kind.DownAll? { DownEnds(full, n); }
      case Run => if Redundant(s.log, st.pc.plan[0]) { DownSkips(full, st.kind, st.pc.plan, n); }
      case _ =>
    }
  }

  lemma {:induction false} DownKept(c: Config, full: seq<Version>, s: State, p: nat, a: Action)
    requires Distinct(full) && DownInv(full, s) && Apply(c, s, p, a).Some?
    ensures DownInv(full, Apply(c, s, p, a).value)
  {
    var t := Apply(c, s, p, a).value;
    LockKept(c, s, p, a);
    DownLogKept(c, full, s, p, a);
    OwnRollbackKept(c, full, s, p, a);
    forall q | q in t.starters ensures DownPlanOk(full, t, t.starters[q]) {
      if q != p {
        assert DownPlanOk(full, s, s.starters[q]) && t.starters[q] == s.starters[q];
        if HasPlan(s.starters[q].pc) {
          DownRestShrinks(full, s.starters[q].kind, s.starters[q].pc.plan, |s.log|, |t.log|);
        }
      }
    }
  }

  lemma {:induction false} EveryDownRun(c: Config, full: seq<Version>, s: State, steps: seq<Step>)
    requires Distinct(full) && DownInv(full, s) && RunOf(c, s, steps).Some?
    ensures DownInv(full, RunOf(c, s, steps).value)
    decreases |steps|
  {
    if steps == [] {
    } else {
      DownKept(c, full, s, steps[0].p, steps[0].a);
      EveryDownRun(c, full, Apply(c, s, steps[0].p, steps[0].a).value, steps[1..]);
    }
  }

  /**
    Any number of Down and DownOne calls over one log: Backwards commit once each, in exact reverse
    log order, and once any Down has succeeded the log is empty.
   */
  lemma {:induction false} ConcurrentDownsRollBackOnce(c: Config, s: State, steps: seq<Step>)
    requires Initial(s) && Distinct(s.log) && s.history == []
    requires forall p :: p in s.starters ==> s.starters[p].kind.DownAll? || s.starters[p].kind.DownLast?
    requires RunOf(c, s, steps).Some?
    ensures var t := RunOf(c, s, steps).value;
      && t.log <= s.log
      && t.history == DownsReversed(s.log[|t.log|..])
      && (forall p :: p in t.starters && t.starters[p].kind.DownAll? && t.starters[p].pc.Succeeded? ==> t.log == [])
  {
    assert s.log[|s.log|..] == [] && DownsReversed([]) == [];
    EveryDownRun(c, s.log, s, steps);
    var t := RunOf(c, s, steps).value;
    forall p | p in t.starters && t.starters[p].kind.DownAll? && t.starters[p].pc.Succeeded? ensures t.log == [] {
      assert DownPlanOk(s.log, t, t.starters[p]);
    }
  }

  // -----------------------------------------------------------------------------------------
  // Upward and downward starters together
  // -----------------------------------------------------------------------------------------

  lemma {:induction false} RunConcat(c: Config, s: State, a: seq<Step>, b: seq<Step>)
    requires RunOf(c, s, a).Some?
    ensures RunOf(c, s, a + b) == RunOf(c, RunOf(c, s, a).value, b)
    decreases |a|
  {
    if a == [] {
      assert a + b == b;
    } else {
      assert (a + b)[1..] == a[1..] + b;
      RunConcat(c, Apply(c, s, a[0].p, a[0].a).value, a[1..], b);
    }
  }

  lemma {:induction false} RunOne(c: Config, s: State, p: nat, a: Action)
    ensures RunOf(c, s, [Step(p, a)]) == Apply(c, s, p, a)
  {
    assert [Step(p, a)][1..] == [];
  }

  function JobSteps(p: nat): seq<Step>
  {
    [Step(p, Begin)] + [Step(p, Lock)] + [Step(p, Read)] + [Step(p, Run)] + [Step(p, Save)] + [Step(p, Commit)]
  }

  /** A job that nobody disturbs commits. */
  lemma {:induction false} UndisturbedJobCommits(c: Config, s: State, p: nat)
    requires p in s.starters && s.starters[p].pc.Between? && s.starters[p].pc.plan != [] && s.lock.None?
    requires var j := s.starters[p].pc.plan[0];
      !Redundant(s.log, j) && (j.forward || j.v in c.reversible)
    ensures var plan := s.starters[p].pc.plan;
      RunOf(c, s, JobSteps(p))
      == Some(At(s, p, Between(plan[1..])).(log := Rewritten(s.log, plan[0]),
        history := s.history + [EventOf(plan[0])]))
  {
    var plan := s.starters[p].pc.plan;
    var s1 := At(s, p, Begun(plan));
    var s2 := At(s1, p, Locked(plan)).(lock := Some(p));
    var s3 := At(s2, p, Loaded(plan, s.log));
    var s4 := At(s3, p, Ran(plan, s.log));
    var s5 := At(s4, p, Saved(plan, Rewritten(s.log, plan[0])));
    RunOne(c, s, p, Begin);
    RunOne(c, s1, p, Lock);
    RunOne(c, s2, p, Read);
    RunOne(c, s3, p, Run);
    RunOne(c, s4, p, Save);
    RunOne(c, s5, p, Commit);
    RunConcat(c, s, [Step(p, Begin)], [Step(p, Lock)]);
    RunConcat(c, s, [Step(p, Begin)] + [Step(p, Lock)], [Step(p, Read)]);
    RunConcat(c, s, [Step(p, Begin)] + [Step(p, Lock)] + [Step(p, Read)], [Step(p, Run)]);
    RunConcat(c, s, [Step(p, Begin)] + [Step(p, Lock)] + [Step(p, Read)] + [Step(p, Run)], [Step(p, Save)]);
    RunConcat(c, s, [Step(p, Begin)] + [Step(p, Lock)] + [Step(p, Read)] + [Step(p, Run)] + [Step(p, Save)],
      [Step(p, Commit)]);
    assert s.starters[p := s.starters[p].(pc := Between(plan[1..]))]
        == s5.starters[p := s5.starters[p].(pc := Between(plan[1..]))];
  }
}

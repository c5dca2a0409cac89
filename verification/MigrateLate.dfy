/**
  Upward calls over any log, also one that is no prefix of the registry: a version registered late sorts before
  versions that are applied already.
 */
module MigrateLate {
  import opened Options
  import opened Migrate
  import opened MigrateProtocol

  /** The first i registered versions are logged. */
  predicate AllLogged(c: Config, i: nat, log: seq<Version>)
  {
    i <= |c.versions| && forall k :: 0 <= k < i ==> c.versions[k] in log
  }

  /** What is left of a plan: an Up has seen to all it has passed. */
  ghost predicate LatePlan(c: Config, kind: Kind, plan: seq<Job>, log: seq<Version>)
  {
    if kind.UpAll? then exists i: nat :: AllLogged(c, i, log) && plan == Forwards(c.versions[i..])
    else forall j :: j in plan ==> j.forward
  }

  ghost predicate LateStarter(c: Config, log: seq<Version>, st: Starter)
  {
    && (st.kind.UpAll? || st.kind.UpNext?)
    && (HasPlan(st.pc) ==> LatePlan(c, st.kind, st.pc.plan, log))
    && (st.kind.UpAll? && st.pc.Succeeded? ==> AllLogged(c, |c.versions|, log))
  }

  /** The log has only grown, by exactly what was committed. */
  ghost predicate LateInv(c: Config, s0: State, s: State)
  {
    && LockOk(s)
    && s0.log <= s.log && Distinct(s.log)
    && s.history == s0.history + Ups(s.log[|s0.log|..])
    && forall p :: p in s.starters ==> LateStarter(c, s.log, s.starters[p])
  }

  lemma {:induction false} LatePlanGrows(c: Config, kind: Kind, plan: seq<Job>, log: seq<Version>, more: seq<Version>)
    requires LatePlan(c, kind, plan, log) && log <= more
    ensures LatePlan(c, kind, plan, more)
  {
    assert forall v :: v in log ==> v in more by {
      forall v | v in log ensures v in more { var k :| 0 <= k < |log| && log[k] == v; assert more[k] == v; }
    }
    if kind.UpAll? {
      var i: nat :| AllLogged(c, i, log) && plan == Forwards(c.versions[i..]);
      assert AllLogged(c, i, more);
    }
  }

  /** A job that was done, by this call or another, can be struck off. */
  lemma {:induction false} LatePlanTail(c: Config, kind: Kind, plan: seq<Job>, log: seq<Version>)
    requires plan != [] && LatePlan(c, kind, plan, log) && plan[0].v in log
    ensures LatePlan(c, kind, plan[1..], log)
  {
    if kind.UpAll? {
      var i: nat :| AllLogged(c, i, log) && plan == Forwards(c.versions[i..]);
      assert plan[0] == Job(true, c.versions[i]);
      assert c.versions[i..][1..] == c.versions[i + 1..];
      assert AllLogged(c, i + 1, log) && plan[1..] == Forwards(c.versions[i + 1..]);
    }
  }

  lemma {:induction false} LatePlanIsForward(c: Config, kind: Kind, plan: seq<Job>, log: seq<Version>)
    requires plan != [] && LatePlan(c, kind, plan, log)
    ensures plan[0].forward
  {
    if kind.UpAll? { var i: nat :| AllLogged(c, i, log) && plan == Forwards(c.versions[i..]); }
  }

  /** A step leaves the log alone, or a commit appends one version that was missing. */
  lemma {:induction false} LogGrows(c: Config, s0: State, s: State, p: nat, a: Action)
    requires LateInv(c, s0, s) && Apply(c, s, p, a).Some?
    ensures var t := Apply(c, s, p, a).value;
      s.log <= t.log && Distinct(t.log) && t.history == s0.history + Ups(t.log[|s0.log|..])
    ensures a == Commit ==> Apply(c, s, p, a).value.log == s.log + [s.starters[p].pc.plan[0].v]
  {
    if a == Commit {
      var st := s.starters[p];
      assert LateStarter(c, s.log, st) && StarterOk(s, p);
      LatePlanIsForward(c, st.kind, st.pc.plan, s.log);
      var v, n := st.pc.plan[0].v, |s0.log|;
      assert (s.log + [v])[n..] == s.log[n..] + [v];
      assert Ups(s.log[n..] + [v]) == Ups(s.log[n..]) + [Event.Up(v)];
    }
  }

  /** The starter that stepped. */
  lemma {:induction false} OwnLatePlan(c: Config, s0: State, s: State, p: nat, a: Action)
    requires LateInv(c, s0, s) && Apply(c, s, p, a).Some?
    ensures var t := Apply(c, s, p, a).value; p in t.starters && LateStarter(c, t.log, t.starters[p])
  {
    var st, t := s.starters[p], Apply(c, s, p, a).value;
    assert LateStarter(c, s.log, st) && StarterOk(s, p);
    LogGrows(c, s0, s, p, a);
    match a {
      case Launch =>
        assert c.versions[0..] == c.versions && AllLogged(c, 0, s.log);
      case Begin =>
        if st.pc.plan == [] && st.kind.UpAll? {
          var i: nat :| AllLogged(c, i, s.log) && st.pc.plan == Forwards(c.versions[i..]);
          assert |Forwards(c.versions[i..])| == |c.versions| - i;
        }
      case Run =>
        LatePlanIsForward(c, st.kind, st.pc.plan, s.log);
        if Redundant(s.log, st.pc.plan[0]) { LatePlanTail(c, st.kind, st.pc.plan, s.log); }
      case Commit =>
        LatePlanGrows(c, st.kind, st.pc.plan, s.log, t.log);
        assert t.log[|s.log|] == st.pc.plan[0].v;
        LatePlanTail(c, st.kind, st.pc.plan, t.log);
      case _ =>
    }
  }

  lemma {:induction false} LateKept(c: Config, s0: State, s: State, p: nat, a: Action)
    requires LateInv(c, s0, s) && Apply(c, s, p, a).Some?
    ensures LateInv(c, s0, Apply(c, s, p, a).value)
  {
    var t := Apply(c, s, p, a).value;
    LockKept(c, s, p, a);
    LogGrows(c, s0, s, p, a);
    OwnLatePlan(c, s0, s, p, a);
    forall q | q in t.starters ensures LateStarter(c, t.log, t.starters[q]) {
      if q != p { OtherLatePlan(c, s.log, t.log, s.starters[q]); }
    }
  }

  lemma {:induction false} OtherLatePlan(c: Config, log: seq<Version>, more: seq<Version>, st: Starter)
    requires LateStarter(c, log, st) && log <= more
    ensures LateStarter(c, more, st)
  {
    if HasPlan(st.pc) { LatePlanGrows(c, st.kind, st.pc.plan, log, more); }
    forall v | v in log ensures v in more { var k :| 0 <= k < |log| && log[k] == v; assert more[k] == v; }
  }

  lemma {:induction false} EveryLateRun(c: Config, s0: State, s: State, steps: seq<Step>)
    requires LateInv(c, s0, s) && RunOf(c, s, steps).Some?
    ensures LateInv(c, s0, RunOf(c, s, steps).value)
    decreases |steps|
  {
    if steps == [] {
    } else {
      LateKept(c, s0, s, steps[0].p, steps[0].a);
      EveryLateRun(c, s0, Apply(c, s, steps[0].p, steps[0].a).value, steps[1..]);
    }
  }

  /**
    Any number of Up and UpOne calls over any log without duplicates: the log only grows, by the Forwards that
    commit, each at most once and none that was logged already; once any Up has succeeded every registered
    version is logged, those registered late as well.
   */
  lemma {:induction false} LateVersionsAreApplied(c: Config, s: State, steps: seq<Step>)
    requires Distinct(s.log) && Initial(s) && RunOf(c, s, steps).Some?
    requires forall p :: p in s.starters ==> s.starters[p].kind.UpAll? || s.starters[p].kind.UpNext?
    ensures var t := RunOf(c, s, steps).value;
      && s.log <= t.log && t.history == s.history + Ups(t.log[|s.log|..])
      && (forall v :: multiset(Ups(t.log[|s.log|..]))[Event.Up(v)] == if v in t.log && v !in s.log then 1 else 0)
      && (forall p :: p in t.starters && t.starters[p].kind.UpAll? && t.starters[p].pc.Succeeded? ==>
            forall v :: v in c.versions ==> v in t.log)
  {
    assert s.log[|s.log|..] == [] && Ups([]) == [];
    EveryLateRun(c, s, s, steps);
    var t := RunOf(c, s, steps).value;
    NewOnes(s.log, t.log);
    UpsCount(t.log[|s.log|..]);
    forall p | p in t.starters && t.starters[p].kind.UpAll? && t.starters[p].pc.Succeeded?
      ensures forall v :: v in c.versions ==> v in t.log
    {
      assert LateStarter(c, t.log, t.starters[p]);
    }
  }

  lemma {:induction false} NewOnes(log: seq<Version>, more: seq<Version>)
    requires log <= more && Distinct(more)
    ensures Distinct(more[|log|..]) && forall v :: v in more[|log|..] <==> v in more && v !in log
  {
    var added := more[|log|..];
    assert forall k :: 0 <= k < |added| ==> added[k] == more[|log| + k];
    assert forall k :: 0 <= k < |log| ==> log[k] == more[k];
    forall v | v in more && v !in log ensures v in added {
      var k :| 0 <= k < |more| && more[k] == v;
      assert k >= |log| && added[k - |log|] == v;
    }
  }
}

/** How many steps a migration call can take, whatever else is going on. */
module MigrateBound {
  import opened Options
  import opened Migrate
  import opened MigrateProtocol

  /** Every step of a call lowers this: seven for each job still planned, less what the current one has behind it. */
  function Rank(limit: nat, pc: Pc): int
  {
    match pc
    case Waiting => 7 * limit + 2
    case Between(plan) => 7 * |plan| + 1
    case Begun(plan) => 7 * |plan|
    case Locked(plan) => 7 * |plan| - 1
    case Loaded(plan, _) => 7 * |plan| - 2
    case Ran(plan, _) => 7 * |plan| - 3
    case Saved(plan, _) => 7 * |plan| - 4
    case Succeeded => 0
    case Failed => 0
  }

  function StepsOf(steps: seq<Step>, p: nat): nat
  {
    if steps == [] then 0 else (if steps[0].p == p then 1 else 0) + StepsOf(steps[1..], p)
  }

  /** The log holds known versions once each, and so do the plans, which are no longer than the limit. */
  ghost predicate Within(known: set<Version>, limit: nat, s: State)
  {
    Distinct(s.log) && (forall v :: v in s.log ==> v in known) &&
    forall p :: p in s.starters && HasPlan(s.starters[p].pc) ==> PlanWithin(known, limit, s.starters[p].pc.plan)
  }

  predicate PlanWithin(known: set<Version>, limit: nat, plan: seq<Job>)
  {
    |plan| <= limit && forall i :: 0 <= i < |plan| ==> plan[i].v in known
  }

  lemma {:induction false} DistinctFits(log: seq<Version>, known: set<Version>)
    requires Distinct(log) && forall v :: v in log ==> v in known
    ensures |log| <= |known|
    decreases |log|
  {
    if log == [] {
    } else {
      var n := |log| - 1;
      assert log[n] !in log[..n];
      DistinctFits(log[..n], known - {log[n]});
    }
  }

  lemma {:induction false} PlansAreWithin(c: Config, kind: Kind, log: seq<Version>, known: set<Version>, limit: nat)
    requires (forall v :: v in c.versions || v in log ==> v in known) && |c.versions| <= limit && |log| <= limit
    ensures PlanWithin(known, limit, Plan(c, kind, log))
  {
  }

  lemma {:induction false} StepRanks(c: Config, known: set<Version>, limit: nat, s: State, p: nat, a: Action)
    requires LockOk(s) && Within(known, limit, s) && Apply(c, s, p, a).Some?
    requires (forall v :: v in c.versions ==> v in known) && |c.versions| <= limit && |known| <= limit
    ensures 0 <= Rank(limit, Apply(c, s, p, a).value.starters[p].pc) < Rank(limit, s.starters[p].pc)
    ensures HasPlan(Apply(c, s, p, a).value.starters[p].pc) ==>
      PlanWithin(known, limit, Apply(c, s, p, a).value.starters[p].pc.plan)
  {
    assert StarterOk(s, p);
    if a == Launch {
      DistinctFits(s.log, known);
      PlansAreWithin(c, s.starters[p].kind, s.log, known, limit);
    }
  }

  lemma {:induction false} LogWithin(known: set<Version>, log: seq<Version>, j: Job)
    requires Distinct(log) && (forall v :: v in log ==> v in known) && j.v in known && !Redundant(log, j)
    ensures Distinct(Rewritten(log, j)) && forall v :: v in Rewritten(log, j) ==> v in known
  {
    WithoutKeepsOthers(log, j.v);
  }

  lemma {:induction false} OthersStay(c: Config, s: State, p: nat, a: Action)
    requires LockOk(s) && Apply(c, s, p, a).Some?
    ensures Apply(c, s, p, a).value.starters.Keys == s.starters.Keys
    ensures forall q :: q in s.starters && q != p ==> Apply(c, s, p, a).value.starters[q] == s.starters[q]
    ensures a != Commit ==> Apply(c, s, p, a).value.log == s.log
    ensures a == Commit ==> var pc := s.starters[p].pc;
      HasPlan(pc) && pc.plan != [] && !Redundant(s.log, pc.plan[0]) &&
      Apply(c, s, p, a).value.log == Rewritten(s.log, pc.plan[0])
  {
    if a == Commit { assert StarterOk(s, p); }
  }

  lemma {:induction false} StepWithin(c: Config, known: set<Version>, limit: nat, s: State, p: nat, a: Action)
    requires LockOk(s) && Within(known, limit, s) && Apply(c, s, p, a).Some?
    requires (forall v :: v in c.versions ==> v in known) && |c.versions| <= limit && |known| <= limit
    ensures Within(known, limit, Apply(c, s, p, a).value)
    ensures Apply(c, s, p, a).value.starters.Keys == s.starters.Keys
    ensures forall q :: q in s.starters && q != p ==> Apply(c, s, p, a).value.starters[q] == s.starters[q]
  {
    StepRanks(c, known, limit, s, p, a);
    OthersStay(c, s, p, a);
    if a == Commit { LogWithin(known, s.log, s.starters[p].pc.plan[0]); }
  }

  /** Steps taken are paid for by the rank. */
  lemma {:induction false} CallsAreBounded(c: Config, known: set<Version>, limit: nat, s: State,
      steps: seq<Step>, p: nat)
    requires LockOk(s) && Within(known, limit, s) && RunOf(c, s, steps).Some? && p in s.starters &&
      Rank(limit, s.starters[p].pc) >= 0
    requires (forall v :: v in c.versions ==> v in known) && |c.versions| <= limit && |known| <= limit
    ensures p in RunOf(c, s, steps).value.starters && Rank(limit, RunOf(c, s, steps).value.starters[p].pc) >= 0
    ensures StepsOf(steps, p) + Rank(limit, RunOf(c, s, steps).value.starters[p].pc) <= Rank(limit, s.starters[p].pc)
    decreases |steps|
  {
    if steps == [] {
    } else {
      var q, a := steps[0].p, steps[0].a;
      StepRanks(c, known, limit, s, q, a);
      StepWithin(c, known, limit, s, q, a);
      LockKept(c, s, q, a);
      CallsAreBounded(c, known, limit, Apply(c, s, q, a).value, steps[1..], p);
    }
  }

  /**
    No call takes more steps than seven for each version that is registered or was logged at the start, and two,
    however many other calls run beside it.
   */
  lemma {:induction false} EveryCallEnds(c: Config, s: State, steps: seq<Step>, p: nat)
    requires Initial(s) && Distinct(s.log) && RunOf(c, s, steps).Some? && p in s.starters
    ensures StepsOf(steps, p) <= 7 * (|c.versions| + |s.log|) + 2
  {
    var known, limit := Known(c.versions + s.log), |c.versions| + |s.log|;
    KnownFits(c.versions + s.log);
    CallsAreBounded(c, known, limit, s, steps, p);
  }

  function Known(vs: seq<Version>): set<Version>
  {
    set v | v in vs
  }

  lemma {:induction false} KnownFits(vs: seq<Version>)
    ensures |Known(vs)| <= |vs|
    decreases |vs|
  {
    if vs == [] {
    } else {
      KnownFits(vs[1..]);
      assert Known(vs) == Known(vs[1..]) + {vs[0]};
    }
  }
}

/** Exactly which calls may run beside each other without the log losing its prefix property. */
module MigratePrefix {
  import opened Options
  import opened Migrate
  import opened MigrateProtocol

  predicate IsUp(k: Kind)
  {
    k.UpAll? || k.UpNext?
  }

  /** From any prefix of any registry, in any interleaving of calls of these kinds, the log stays a prefix. */
  ghost predicate KeepsPrefix(kinds: set<Kind>)
  {
    forall c: Config, s: State, steps: seq<Step> ::
      Distinct(c.versions) && Initial(s) && s.log <= c.versions && UsesOnly(s, kinds) && RunOf(c, s, steps).Some? ==>
        RunOf(c, s, steps).value.log <= c.versions
  }

  predicate UsesOnly(s: State, kinds: set<Kind>)
  {
    forall p :: p in s.starters ==> s.starters[p].kind in kinds
  }

  // -----------------------------------------------------------------------------------------
  // One direction only
  // -----------------------------------------------------------------------------------------

  /** The record of past commits does not influence a run. */
  lemma {:induction false} HistoryIsIdle(c: Config, s: State, steps: seq<Step>, h: seq<Event>) returns (h': seq<Event>)
    requires RunOf(c, s, steps).Some?
    ensures RunOf(c, s.(history := h), steps) == Some(RunOf(c, s, steps).value.(history := h'))
    decreases |steps|
  {
    if steps == [] {
      h' := h;
    } else {
      var p, a := steps[0].p, steps[0].a;
      var t, u := Apply(c, s, p, a).value, Apply(c, s.(history := h), p, a);
      assert u.Some? && u.value == t.(history := u.value.history);
      h' := HistoryIsIdle(c, t, steps[1..], u.value.history);
    }
  }

  lemma {:induction false} UpsKeepPrefix(c: Config, s: State, steps: seq<Step>, kinds: set<Kind>)
    requires Distinct(c.versions) && Initial(s) && s.log <= c.versions && UsesOnly(s, kinds) && RunOf(c, s, steps).Some?
    requires forall k :: k in kinds ==> IsUp(k)
    ensures RunOf(c, s, steps).value.log <= c.versions
  {
    var h := HistoryIsIdle(c, s, steps, Ups(s.log));
    ConcurrentUpsApplyOnce(c, s.(history := Ups(s.log)), steps);
  }

  lemma {:induction false} DownsKeepPrefix(c: Config, s: State, steps: seq<Step>, kinds: set<Kind>)
    requires Distinct(c.versions) && Initial(s) && s.log <= c.versions && UsesOnly(s, kinds) && RunOf(c, s, steps).Some?
    requires forall k :: k in kinds ==> !IsUp(k)
    ensures RunOf(c, s, steps).value.log <= c.versions
  {
    assert Distinct(s.log) by {
      assert forall i :: 0 <= i < |s.log| ==> s.log[i] == c.versions[i];
    }
    var h := HistoryIsIdle(c, s, steps, []);
    ConcurrentDownsRollBackOnce(c, s.(history := []), steps);
  }

  // -----------------------------------------------------------------------------------------
  // Both directions
  // -----------------------------------------------------------------------------------------

  /** Two upward calls of one kind and one downward call over an empty log. */
  function ThreeCalls(up: Kind, down: Kind): State
  {
    State([], [], None, map[0 := Starter(up, Waiting), 1 := Starter(down, Waiting), 2 := Starter(up, Waiting)])
  }

  /** The first job of starter p runs to its commit, after what came before. */
  lemma {:induction false} JobRuns(c: Config, s0: State, steps: seq<Step>, p: nat, j: Job,
      rest: seq<Job>) returns (longer: seq<Step>)
    requires RunOf(c, s0, steps).Some?
    requires var s := RunOf(c, s0, steps).value;
      p in s.starters && s.starters[p].pc == Between([j] + rest) && s.lock.None? && !Redundant(s.log, j) &&
        (j.forward || j.v in c.reversible)
    ensures var s := RunOf(c, s0, steps).value;
      RunOf(c, s0, longer) ==
        Some(At(s, p, Between(rest)).(log := Rewritten(s.log, j), history := s.history + [EventOf(j)]))
  {
    var s := RunOf(c, s0, steps).value;
    assert ([j] + rest)[1..] == rest && ([j] + rest)[0] == j;
    UndisturbedJobCommits(c, s, p);
    longer := steps + JobSteps(p);
    RunConcat(c, s0, steps, JobSteps(p));
  }

  /** A waiting starter reads the log, which no lock protects, and plans. */
  lemma {:induction false} Launches(c: Config, s0: State, steps: seq<Step>, p: nat) returns (longer: seq<Step>)
    requires RunOf(c, s0, steps).Some?
    requires p in RunOf(c, s0, steps).value.starters && RunOf(c, s0, steps).value.starters[p].pc == Waiting
    ensures var s := RunOf(c, s0, steps).value;
      RunOf(c, s0, longer) == Some(At(s, p, Between(Plan(c, s.starters[p].kind, s.log))))
  {
    var s := RunOf(c, s0, steps).value;
    RunOne(c, s, p, Launch);
    longer := steps + [Step(p, Launch)];
    RunConcat(c, s0, steps, [Step(p, Launch)]);
  }

  /** What an upward call still has to do after version 1. */
  function Later(up: Kind): seq<Job>
  {
    if up.UpAll? then [Job(true, "2")] else []
  }

  /** Version 1 is applied and the downward call plans to roll it back. */
  lemma {:induction false} RollbackIsPlanned(c: Config, up: Kind, down: Kind) returns (steps: seq<Step>, s: State)
    requires IsUp(up) && !IsUp(down) && c == Config(["1", "2"], {"1", "2"})
    ensures RunOf(c, ThreeCalls(up, down), steps) == Some(s) && s.log == ["1"] && s.lock.None? &&
      s.starters.Keys == {0, 1, 2} && s.history == [Event.Up("1")]
    ensures s.starters[0].pc == Between(Later(up)) && s.starters[1].pc == Between([Job(false, "1")]) &&
      s.starters[2] == Starter(up, Waiting)
  {
    var s0 := ThreeCalls(up, down);
    PlansOf(c);
    steps := Launches(c, s0, [], 0);
    assert Plan(c, up, []) == [Job(true, "1")] + Later(up);
    steps := JobRuns(c, s0, steps, 0, Job(true, "1"), Later(up));
    steps := Launches(c, s0, steps, 1);
    s := RunOf(c, s0, steps).value;
  }

  /** Then version 2 is applied, and the stale plan rolls back version 1. */
  lemma {:induction false} StaleRollbackLeavesGap(c: Config, up: Kind, down: Kind) returns (steps: seq<Step>)
    requires IsUp(up) && !IsUp(down) && c == Config(["1", "2"], {"1", "2"})
    ensures RunOf(c, ThreeCalls(up, down), steps).Some? && RunOf(c, ThreeCalls(up, down), steps).value.log == ["2"]
    ensures RunOf(c, ThreeCalls(up, down), steps).value.history == [Event.Up("1"), Event.Up("2"), Event.Down("1")]
  {
    var s0, s, second := ThreeCalls(up, down), ThreeCalls(up, down), Job(true, "2");
    steps, s := RollbackIsPlanned(c, up, down);
    PlansOf(c);
    if up.UpAll? {
      assert Later(up) == [second] + [];
      steps := JobRuns(c, s0, steps, 0, second, []);
    } else {
      steps := Launches(c, s0, steps, 2);
      assert Plan(c, up, ["1"]) == [second] + [];
      steps := JobRuns(c, s0, steps, 2, second, []);
    }
    assert [Job(false, "1")] == [Job(false, "1")] + [];
    steps := JobRuns(c, s0, steps, 1, Job(false, "1"), []);
    assert Without(["1", "2"], "1") == ["2"] by {
      assert ["1", "2"][1..] == ["2"] && ["2"][1..] == [];
    }
  }

  /** What each kind of call plans over the empty log and over ["1"]. */
  lemma {:induction false} PlansOf(c: Config)
    requires c.versions == ["1", "2"]
    ensures Plan(c, UpAll, []) == [Job(true, "1"), Job(true, "2")] && Plan(c, UpNext, []) == [Job(true, "1")]
    ensures Plan(c, UpNext, ["1"]) == [Job(true, "2")]
    ensures Plan(c, DownAll, ["1"]) == [Job(false, "1")] && Plan(c, DownLast, ["1"]) == [Job(false, "1")]
  {
    assert "1" != "2" by { assert "1"[0] != "2"[0]; }
    assert c.versions[1..] == ["2"] && "1" in ["1"] && "2" !in ["1"];
    assert FirstMissing(["2"], ["1"]) == 0 && FirstMissing(c.versions, ["1"]) == 1;
  }

  /** The log stays a prefix of the registry exactly when the calls in use all go one way. */
  lemma {:induction false} PrefixKeptIffOneDirection(kinds: set<Kind>)
    ensures KeepsPrefix(kinds) <==> (forall k :: k in kinds ==> IsUp(k)) || (forall k :: k in kinds ==> !IsUp(k))
  {
    if forall k :: k in kinds ==> IsUp(k) {
      forall c: Config, s: State, steps: seq<Step>
        | Distinct(c.versions) && Initial(s) && s.log <= c.versions && UsesOnly(s, kinds) && RunOf(c, s, steps).Some?
        ensures RunOf(c, s, steps).value.log <= c.versions
      {
        UpsKeepPrefix(c, s, steps, kinds);
      }
    } else if forall k :: k in kinds ==> !IsUp(k) {
      forall c: Config, s: State, steps: seq<Step>
        | Distinct(c.versions) && Initial(s) && s.log <= c.versions && UsesOnly(s, kinds) && RunOf(c, s, steps).Some?
        ensures RunOf(c, s, steps).value.log <= c.versions
      {
        DownsKeepPrefix(c, s, steps, kinds);
      }
    } else {
      var down :| down in kinds && !IsUp(down);
      var up :| up in kinds && IsUp(up);
      var c := Config(["1", "2"], {"1", "2"});
      var steps := StaleRollbackLeavesGap(c, up, down);
      var s := ThreeCalls(up, down);
      assert "1"[0] != "2"[0] && "1" != "2";
      assert ["2"][0] != c.versions[0] && !(["2"] <= c.versions);
      assert Distinct(c.versions) && s.log <= c.versions;
      assert Initial(s) && UsesOnly(s, kinds);
    }
  }
}

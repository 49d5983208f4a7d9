/**
 `verify_union` of `ci_rust_lanes.py`: the one place that admits a run. Problems are collected, never
 thrown away, and a run is admitted only when none was found.
 */
module UnionVerifier {
  import opened Wrappers
  import opened RustLanes
  import opened MediumRun
  import TestInventory

  const LINUX := "ubuntu-latest"

  datatype Problem =
    | BadHosts
    | IncompleteMatrix
    | NoRunner(host: string)
    | JobNotGreen(host: string)
    | Foreign
    | LaneRefused(host: string, lane: string)
    | DoctestsRed(host: string, lane: string)
    | NotCompared
    | Lost(problem: TestInventory.Problem)
    | MediumRefused
    | MediumOutside

  /** The run's environment: the known and the expected hosts, the workflow run, and in CI the outcomes
      of the other runners' jobs. */
  datatype Setting = Setting(
    policy: Policy,
    knownHosts: set<string>,
    profileHosts: string -> seq<string>,
    run: Option<(string, string)>,
    jobs: Option<map<string, string>>,
    jobOf: string -> string)

  /** The published files of medium runs and of shadow decisions. */
  datatype MediumFiles = MediumFiles(mediums: seq<Medium>, decisions: seq<Shadow>)

  type Lane = (string, string)

  function LanesOf(policy: Policy, profile: string, host: string): seq<Lane> {
    var lanes := policy.lanes(profile, host);
    seq(|lanes|, k requires 0 <= k < |lanes| => (host, lanes[k]))
  }

  /** The runners and lanes the profile calls for. */
  function Expected(policy: Policy, profile: string, hosts: seq<string>): (r: seq<Lane>)
    ensures forall h, l :: (h, l) in r <==> h in hosts && l in policy.lanes(profile, h)
  {
    if hosts == [] then []
    else
      var last := |hosts| - 1;
      var mine := LanesOf(policy, profile, hosts[last]);
      assert forall l :: l in policy.lanes(profile, hosts[last]) ==>
               exists k :: 0 <= k < |mine| && mine[k] == (hosts[last], l) by {
        forall l | l in policy.lanes(profile, hosts[last])
          ensures exists k :: 0 <= k < |mine| && mine[k] == (hosts[last], l)
        {
          var k :| 0 <= k < |policy.lanes(profile, hosts[last])| && policy.lanes(profile, hosts[last])[k] == l;
          assert mine[k] == (hosts[last], l);
        }
      }
      assert forall h :: h in hosts <==> h in hosts[..last] || h == hosts[last];
      Expected(policy, profile, hosts[..last]) + mine
  }

  predicate HostsOk(s: Setting, hosts: seq<string>) {
    && hosts != []
    && (forall j, k :: 0 <= j < k < |hosts| ==> hosts[j] != hosts[k])
    && (forall k :: 0 <= k < |hosts| ==> hosts[k] in s.knownHosts)
  }

  function Outcome(jobs: map<string, string>, job: string): string {
    if job in jobs then jobs[job] else "missing"
  }

  predicate DoctestsGreen(m: Manifest) {
    m.lane == "ordinary" ==> m.doctests == Some(0)
  }

  /** The lane's plan is valid and every shard of it is accounted for. */
  predicate LaneOk(s: Setting, ms: seq<Manifest>, rs: seq<ShardResult>, profile: string, sha: string, at: Lane) {
    var mine := MatchingManifests(ms, at.0, at.1);
    && |mine| == 1
    && ManifestOk(mine[0], s.policy, profile, at.0, at.1, sha)
    && (s.run.Some? ==> (mine[0].runId, mine[0].attempt) == s.run.value)
    && ShardsOk(mine[0], MatchingResults(rs, at.0, at.1))
  }

  predicate JobsGreen(s: Setting, profile: string, hosts: seq<string>) {
    s.jobs.Some? ==>
      && (hosts == s.profileHosts(profile) || (profile == "pr" && hosts == [LINUX]))
      && forall k :: 0 <= k < |hosts| && hosts[k] != LINUX ==> Outcome(s.jobs.value, s.jobOf(hosts[k])) == "success"
  }

  /** Everything that admission of a run certifies about one expected runner and lane. */
  ghost predicate LaneCertified(s: Setting, ms: seq<Manifest>, rs: seq<ShardResult>, profile: string, sha: string,
                                at: Lane) {
    exists m :: MatchingManifests(ms, at.0, at.1) == [m] && DoctestsGreen(m)
                && ExactlyOnce(m, MatchingResults(rs, at.0, at.1))
                && IsThisPlan(s, m, profile, sha, at) && AreItsResults(m, MatchingResults(rs, at.0, at.1))
  }

  /** The plan is of this revision, profile, runner and lane and of this run, with the selection and the number of
      shards that the profile calls for. */
  ghost predicate IsThisPlan(s: Setting, m: Manifest, profile: string, sha: string, at: Lane) {
    && m.schema == 1 && m.sha == sha && m.profile == profile && m.runner == at.0 && m.lane == at.1
    && (forall run :: s.run == Some(run) ==> run == (m.runId, m.attempt))
    && m.selection == s.policy.selection(at.1) && m.nextestProfile == s.policy.nextestProfile(profile, at.1, at.0)
    && |m.shards| == s.policy.shards(profile, at.1, at.0)
  }

  /** The results are of the same archive and run, each with the plan of its shard, and each ended well. */
  ghost predicate AreItsResults(m: Manifest, rs: seq<ShardResult>) {
    && |rs| == |m.shards|
    && forall r <- rs ::
         && r.schema == 1 && r.sha == m.sha && r.profile == m.profile && r.archive == m.archive && r.exitCode == 0
         && r.runId == m.runId && r.attempt == m.attempt
         && 1 <= r.shard <= |m.shards| && r.plan == m.shards[r.shard - 1]
  }

  method CheckJobs(s: Setting, profile: string, hosts: seq<string>)
    returns (problems: seq<Problem>, unacquired: set<string>)
    ensures problems == [] <==> JobsGreen(s, profile, hosts)
    ensures unacquired != {} ==> problems != []
  {
    problems, unacquired := [], {};
    if s.jobs.Some? {
      var jobs := s.jobs.value;
      var matrixOk := hosts == s.profileHosts(profile) || (profile == "pr" && hosts == [LINUX]);
      if !matrixOk {
        problems := [IncompleteMatrix];
      }
      for k := 0 to |hosts|
        invariant problems == [] <==>
                  matrixOk && forall i :: 0 <= i < k && hosts[i] != LINUX ==>
                    Outcome(jobs, s.jobOf(hosts[i])) == "success"
        invariant unacquired != {} ==> problems != []
      {
        var outcome := Outcome(jobs, s.jobOf(hosts[k]));
        if hosts[k] != LINUX && outcome != "success" {
          if outcome == "not_acquired" {
            unacquired := unacquired + {hosts[k]};
            problems := problems + [NoRunner(hosts[k])];
          } else {
            problems := problems + [JobNotGreen(hosts[k])];
          }
        }
      }
    }
  }

  /** The lane is accepted and its doctests are green. */
  predicate LaneGreen(s: Setting, ms: seq<Manifest>, rs: seq<ShardResult>, profile: string, sha: string, at: Lane) {
    LaneOk(s, ms, rs, profile, sha, at) && DoctestsGreen(MatchingManifests(ms, at.0, at.1)[0])
  }

  /** The lane has exactly one plan, and the plan is valid. */
  predicate HasPlan(s: Setting, ms: seq<Manifest>, profile: string, sha: string, at: Lane) {
    var mine := MatchingManifests(ms, at.0, at.1);
    |mine| == 1 && ManifestOk(mine[0], s.policy, profile, at.0, at.1, sha)
  }

  /** One turn of the loop over the expected runners and lanes. Without problems the lane is certified; red doctests of
      a valid plan are reported whether or not its shards fail. */
  method CheckLane(s: Setting, ms: seq<Manifest>, rs: seq<ShardResult>, profile: string, sha: string, at: Lane)
    returns (problems: seq<Problem>, plan: seq<Manifest>)
    ensures problems == [] ==> LaneCertified(s, ms, rs, profile, sha, at)
    ensures problems == [] <==> LaneGreen(s, ms, rs, profile, sha, at)
    ensures DoctestsRed(at.0, at.1) in problems
        <==> HasPlan(s, ms, profile, sha, at) && !DoctestsGreen(MatchingManifests(ms, at.0, at.1)[0])
    ensures LaneRefused(at.0, at.1) in problems <==> !LaneOk(s, ms, rs, profile, sha, at)
    ensures plan == if LaneOk(s, ms, rs, profile, sha, at) then MatchingManifests(ms, at.0, at.1) else []
  {
    problems, plan := [], [];
    var mine := MatchingManifests(ms, at.0, at.1);
    if !HasPlan(s, ms, profile, sha, at) {
      return [LaneRefused(at.0, at.1)], [];
    }
    var m := mine[0];
    if !DoctestsGreen(m) {
      problems := [DoctestsRed(at.0, at.1)];
    }
    if (s.run.Some? && (m.runId, m.attempt) != s.run.value) || !ShardsOk(m, MatchingResults(rs, at.0, at.1)) {
      problems := problems + [LaneRefused(at.0, at.1)];
    } else {
      plan := mine;
      GreenIsCertified(s, ms, rs, profile, sha, at);
    }
  }

  lemma GreenIsCertified(s: Setting, ms: seq<Manifest>, rs: seq<ShardResult>, profile: string, sha: string, at: Lane)
    requires LaneOk(s, ms, rs, profile, sha, at)
    ensures DoctestsGreen(MatchingManifests(ms, at.0, at.1)[0]) ==> LaneCertified(s, ms, rs, profile, sha, at)
  {
    var m := MatchingManifests(ms, at.0, at.1)[0];
    AcceptedMeansExactlyOnce(m, MatchingResults(rs, at.0, at.1));
    ResultsAreIts(m, MatchingResults(rs, at.0, at.1));
    assert MatchingManifests(ms, at.0, at.1) == [m];
  }

  lemma ResultsAreIts(m: Manifest, rs: seq<ShardResult>)
    requires ShardsOk(m, rs)
    ensures AreItsResults(m, rs)
  {
    forall r | r in rs
      ensures && r.schema == 1 && r.sha == m.sha && r.profile == m.profile && r.archive == m.archive && r.exitCode == 0
              && r.runId == m.runId && r.attempt == m.attempt
              && 1 <= r.shard <= |m.shards| && r.plan == m.shards[r.shard - 1]
    {
      var k :| 0 <= k < |rs| && rs[k] == r;
      assert ResultOk(m, rs[k], rs[k].shard);
    }
  }

  method CheckLanes(s: Setting, ms: seq<Manifest>, rs: seq<ShardResult>, profile: string, sha: string,
                    lanes: seq<Lane>, unacquired: set<string>)
    returns (problems: seq<Problem>, verified: seq<Manifest>)
    ensures unacquired == {} ==> (problems == [] <==> LanesGreen(s, ms, rs, profile, sha, lanes))
    ensures unacquired == {} && problems == [] ==> verified == Plans(ms, lanes)
  {
    problems, verified := [], [];
    for k := 0 to |lanes|
      invariant unacquired == {} ==> (problems == [] <==> LanesGreen(s, ms, rs, profile, sha, lanes[..k]))
      invariant unacquired == {} && problems == [] ==> verified == Plans(ms, lanes[..k])
    {
      OneMoreLane(s, ms, rs, profile, sha, lanes, k);
      if lanes[k].0 !in unacquired {
        var refused, plan := CheckLane(s, ms, rs, profile, sha, lanes[k]);
        problems, verified := problems + refused, verified + plan;
      }
    }
    assert lanes[..|lanes|] == lanes;
  }

  lemma OneMoreLane(s: Setting, ms: seq<Manifest>, rs: seq<ShardResult>, profile: string, sha: string, lanes: seq<Lane>,
                    k: nat)
    requires k < |lanes|
    ensures LanesGreen(s, ms, rs, profile, sha, lanes[..k + 1])
        <==> LanesGreen(s, ms, rs, profile, sha, lanes[..k]) && LaneGreen(s, ms, rs, profile, sha, lanes[k])
    ensures var mine := MatchingManifests(ms, lanes[k].0, lanes[k].1);
            Plans(ms, lanes[..k + 1]) == Plans(ms, lanes[..k]) + (if |mine| == 1 then mine else [])
  {
    assert lanes[..k + 1][..k] == lanes[..k] && lanes[..k + 1][k] == lanes[k];
  }

  /** The plan of each lane, where it has exactly one. */
  function Plans(ms: seq<Manifest>, lanes: seq<Lane>): seq<Manifest> {
    if lanes == [] then []
    else
      var last := lanes[|lanes| - 1];
      var mine := MatchingManifests(ms, last.0, last.1);
      Plans(ms, lanes[..|lanes| - 1]) + (if |mine| == 1 then mine else [])
  }

  predicate LanesGreen(s: Setting, ms: seq<Manifest>, rs: seq<ShardResult>, profile: string, sha: string,
                       lanes: seq<Lane>) {
    lanes == [] ||
    (&& LanesGreen(s, ms, rs, profile, sha, lanes[..|lanes| - 1])
     && LaneGreen(s, ms, rs, profile, sha, lanes[|lanes| - 1]))
  }

  lemma {:induction false} EachLaneIsGreen(s: Setting, ms: seq<Manifest>, rs: seq<ShardResult>, profile: string,
                                           sha: string, lanes: seq<Lane>, at: Lane)
    requires LanesGreen(s, ms, rs, profile, sha, lanes) && at in lanes
    ensures LaneGreen(s, ms, rs, profile, sha, at)
  {
    if lanes[|lanes| - 1] != at {
      EachLaneIsGreen(s, ms, rs, profile, sha, lanes[..|lanes| - 1], at);
    }
  }

  predicate NothingForeign(ms: seq<Manifest>, rs: seq<ShardResult>, lanes: seq<Lane>) {
    && (forall k :: 0 <= k < |ms| ==> (ms[k].runner, ms[k].lane) in lanes)
    && (forall k :: 0 <= k < |rs| ==> (rs[k].runner, rs[k].lane) in lanes)
  }

  function JobNames(s: Setting): Option<set<string>> {
    if s.jobs.Some? then Some(s.jobs.value.Keys + {"Unica CI"}) else None
  }

  function OrdinaryPlans(ms: seq<Manifest>): seq<Manifest> {
    MatchingManifests(ms, MEDIUM_RUNNER, "ordinary")
  }

  function DecisionOf(decisions: seq<Shadow>): Option<Shadow> {
    if decisions == [] then None else Some(decisions[0])
  }

  /** A pull request carries one medium result that agrees with its shadow decision, always in CI and otherwise if it
      carries any; no other profile carries one. */
  predicate MediumGreen(s: Setting, ms: seq<Manifest>, run: MediumFiles, profile: string, sha: string) {
    if profile != "pr" then run.mediums == []
    else
      run.mediums != [] || s.jobs.Some? ==>
        && |run.mediums| == 1 && |OrdinaryPlans(ms)| == 1 && |run.decisions| <= 1
        && MediumAgrees(OrdinaryPlans(ms)[0], run.mediums[0], DecisionOf(run.decisions), sha)
  }

  /** The one medium run plans every case of the ordinary plan that the shadow decision leaves in scope, and records
      what it does not ignore exactly once, with an admissible outcome. */
  ghost predicate MediumCertified(ms: seq<Manifest>, run: MediumFiles, sha: string) {
    && |OrdinaryPlans(ms)| == 1 && |run.mediums| == 1
    && (forall c <- OrdinaryPlans(ms)[0].inventory :: InScope(DecisionOf(run.decisions), sha, c) ==>
          CaseId(c) in CaseIdSet(run.mediums[0].result.plan))
    && (forall id <- Wanted(run.mediums[0].result.plan) :: Recorded(run.mediums[0], id, MEDIUM_RUNNER))
    && IsItsMedium(OrdinaryPlans(ms)[0], run.mediums[0])
  }

  /** The medium run is of the same revision, archive and run, by the queue's profile on Linux, and ended well. */
  ghost predicate IsItsMedium(m: Manifest, x: Medium) {
    && x.nextestProfile == "queue" && x.result.runner == "ubuntu-latest" && x.result.exitCode == 0
    && x.result.sha == m.sha && x.result.archive == m.archive
    && x.result.runId == m.runId && x.result.attempt == m.attempt
  }

  /** The binaries of every case are listed, as in every valid plan. */
  predicate ListsItsBinaries(m: Manifest) {
    forall k :: 0 <= k < |m.inventory| ==> m.inventory[k].binary in m.binaries
  }

  /** The medium part of `verify_union`: a pull request of CI that passes is certified, whether or not the shards of its
      ordinary lane passed. */
  method CheckMedium(s: Setting, ms: seq<Manifest>, run: MediumFiles, profile: string, sha: string)
    returns (problems: seq<Problem>)
    ensures problems == [] && profile == "pr" && s.jobs.Some? ==>
              (forall m <- OrdinaryPlans(ms) :: ListsItsBinaries(m)) ==> MediumCertified(ms, run, sha)
    ensures problems == [] <==> profile != "pr" || MediumGreen(s, ms, run, profile, sha)
  {
    problems := [];
    if profile == "pr" && (run.mediums != [] || s.jobs.Some?) {
      var ordinary := OrdinaryPlans(ms);
      if |run.mediums| != 1 || |ordinary| != 1 || |run.decisions| > 1 {
        problems := [MediumRefused];
      } else if !MediumAgrees(ordinary[0], run.mediums[0], DecisionOf(run.decisions), sha) {
        problems := [MediumRefused];
      } else if ListsItsBinaries(ordinary[0]) {
        AgreementIsCertified(ms, run, sha);
      }
    }
  }

  lemma AgreementIsCertified(ms: seq<Manifest>, run: MediumFiles, sha: string)
    requires |OrdinaryPlans(ms)| == 1 && |run.mediums| == 1 && ListsItsBinaries(OrdinaryPlans(ms)[0])
    requires MediumAgrees(OrdinaryPlans(ms)[0], run.mediums[0], DecisionOf(run.decisions), sha)
    ensures MediumCertified(ms, run, sha)
  {
    MatchesAreMine(ms, MEDIUM_RUNNER, "ordinary");
    assert OrdinaryPlans(ms)[0] in OrdinaryPlans(ms);
    MediumCovers(OrdinaryPlans(ms)[0], run.mediums[0], DecisionOf(run.decisions), sha);
  }

  /** Nothing of the previous inventory is lost; in CI there is always one to compare with, or a reset. */
  predicate Compared(s: Setting, rules: TestInventory.Rules, profile: string, plans: seq<Manifest>,
                     baseline: Option<Baseline>) {
    if baseline.None? then s.jobs.None?
    else
      || baseline.value.ex.reset
      || (baseline.value.previous.Some?
          && TestInventory.Clean(baseline.value.previous.value, Summary(profile, JobNames(s), plans), baseline.value.ex,
                                 rules))
  }

  /** Exactly the runs that are admitted. */
  predicate Admissible(s: Setting, rules: TestInventory.Rules, ms: seq<Manifest>, rs: seq<ShardResult>, profile: string,
                       hosts: seq<string>, sha: string, run: MediumFiles, baseline: Option<Baseline>) {
    var lanes := Expected(s.policy, profile, hosts);
    && HostsOk(s, hosts)
    && JobsGreen(s, profile, hosts)
    && NothingForeign(ms, rs, lanes)
    && LanesGreen(s, ms, rs, profile, sha, lanes)
    && MediumGreen(s, ms, run, profile, sha)
    && Compared(s, rules, profile, Plans(ms, lanes), baseline)
  }

  function CountSelected(cases: seq<Case>, binary: string): nat {
    if cases == [] then 0
    else CountSelected(cases[1..], binary) + (if cases[0].binary == binary && !cases[0].ignored then 1 else 0)
  }

  /** `inventory_summary`: what a later run compares itself with. */
  function Summary(profile: string, jobs: Option<set<string>>, verified: seq<Manifest>): TestInventory.Inventory {
    TestInventory.Inventory(profile, jobs, seq(|verified|, k requires 0 <= k < |verified| => Compact(verified[k])))
  }

  function Compact(m: Manifest): TestInventory.Config {
    TestInventory.Config(m.runner, m.lane, m.binaries, map b | b in m.binaries ::
                           CountSelected(m.inventory, b), CaseIds(m.inventory))
  }

  datatype Baseline = Baseline(previous: Option<TestInventory.Inventory>, ex: TestInventory.Explanations)

  /** `verify_union`: the gate's decision. */
  method VerifyUnion(s: Setting, rules: TestInventory.Rules, ms: seq<Manifest>, rs: seq<ShardResult>, profile: string,
                     hosts: seq<string>, sha: string, run: MediumFiles, baseline: Option<Baseline>)
    returns (r: Result<seq<Manifest>, seq<Problem>>)
    ensures r.Ok? <==> Admissible(s, rules, ms, rs, profile, hosts, sha, run, baseline)
    ensures r.Ok? ==> r.value == Plans(ms, Expected(s.policy, profile, hosts))
    ensures r.Err? ==> r.error != []
  {
    if !HostsOk(s, hosts) {
      return Err([BadHosts]);
    }
    var problems, unacquired := CheckJobs(s, profile, hosts);
    var lanes := Expected(s.policy, profile, hosts);
    if !NothingForeign(ms, rs, lanes) {
      return Err([Foreign]);
    }
    var refused, verified := CheckLanes(s, ms, rs, profile, sha, lanes, unacquired);
    if profile != "pr" && run.mediums != [] {
      return Err([MediumOutside]);
    }
    var medium := CheckMedium(s, ms, run, profile, sha);
    var lost := CompareBaseline(s, rules, profile, verified, baseline);
    problems := problems + refused + medium + lost;
    r := if problems == [] then Ok(verified) else Err(problems);
  }

  method CompareBaseline(s: Setting, rules: TestInventory.Rules, profile: string, plans: seq<Manifest>,
                         baseline: Option<Baseline>)
    returns (problems: seq<Problem>)
    ensures problems == [] <==> Compared(s, rules, profile, plans, baseline)
  {
    problems := [];
    if baseline.Some? {
      var lost := TestInventory.CompareInventory(baseline.value.previous, Summary(profile, JobNames(s), plans),
                                                 baseline.value.ex, rules);
      problems := seq(|lost|, k requires 0 <= k < |lost| => Lost(lost[k]));
    } else if s.jobs.Some? {
      problems := [NotCompared];
    }
  }

  ghost predicate JobSucceeded(s: Setting, host: string) {
    s.jobs.Some? && s.jobOf(host) in s.jobs.value && s.jobs.value[s.jobOf(host)] == "success"
  }

  /** An admitted run: every expected runner and lane has exactly one plan of this run whose cases are each accounted
      for exactly once, and no plan and no result lies outside the expected lanes. */
  lemma AdmittedIsCertified(s: Setting, rules: TestInventory.Rules, ms: seq<Manifest>, rs: seq<ShardResult>,
                            profile: string, hosts: seq<string>, sha: string, run: MediumFiles,
                            baseline: Option<Baseline>)
    requires Admissible(s, rules, ms, rs, profile, hosts, sha, run, baseline)
    ensures forall host <- hosts :: forall lane <- s.policy.lanes(profile, host) ::
              LaneCertified(s, ms, rs, profile, sha, (host, lane))
    ensures forall m <- ms :: m.runner in hosts && m.lane in s.policy.lanes(profile, m.runner)
    ensures forall r <- rs :: r.runner in hosts && r.lane in s.policy.lanes(profile, r.runner)
  {
    var lanes := Expected(s.policy, profile, hosts);
    forall host, lane | host in hosts && lane in s.policy.lanes(profile, host)
      ensures LaneCertified(s, ms, rs, profile, sha, (host, lane))
    {
      LaneIsCertified(s, ms, rs, profile, sha, lanes, (host, lane));
    }
    forall m | m in ms ensures m.runner in hosts && m.lane in s.policy.lanes(profile, m.runner) {
      var k :| 0 <= k < |ms| && ms[k] == m;
      assert (m.runner, m.lane) in lanes;
    }
    forall r | r in rs ensures r.runner in hosts && r.lane in s.policy.lanes(profile, r.runner) {
      var k :| 0 <= k < |rs| && rs[k] == r;
      assert (r.runner, r.lane) in lanes;
    }
  }

  /** The runners of an admitted run are known and distinct; in CI they are those of the profile, and the jobs of all
      but Linux succeeded. */
  lemma AdmittedRunners(s: Setting, rules: TestInventory.Rules, ms: seq<Manifest>, rs: seq<ShardResult>,
                        profile: string, hosts: seq<string>, sha: string, run: MediumFiles,
                        baseline: Option<Baseline>)
    requires Admissible(s, rules, ms, rs, profile, hosts, sha, run, baseline)
    ensures hosts != [] && (forall host <- hosts :: host in s.knownHosts)
    ensures forall j, k :: 0 <= j < k < |hosts| ==> hosts[j] != hosts[k]
    ensures s.jobs.Some? ==>
              && (hosts == s.profileHosts(profile) || (profile == "pr" && hosts == ["ubuntu-latest"]))
              && (forall host <- hosts :: host == "ubuntu-latest" || JobSucceeded(s, host))
  {
    if s.jobs.Some? {
      forall host | host in hosts && host != LINUX ensures JobSucceeded(s, host) {
        var k :| 0 <= k < |hosts| && hosts[k] == host;
      }
    }
  }

  /** The plans of an admitted run were compared with the previous ones, always in CI, and without a reset nothing was
      lost; only a pull request has a medium run. */
  lemma AdmittedIsCompared(s: Setting, rules: TestInventory.Rules, ms: seq<Manifest>, rs: seq<ShardResult>,
                           profile: string, hosts: seq<string>, sha: string, run: MediumFiles,
                           baseline: Option<Baseline>)
    requires Admissible(s, rules, ms, rs, profile, hosts, sha, run, baseline)
    ensures s.jobs.Some? ==> baseline.Some?
    ensures baseline.Some? && !baseline.value.ex.reset ==>
              && baseline.value.previous.Some?
              && TestInventory.Clean(baseline.value.previous.value,
                                     Summary(profile, JobNames(s), Plans(ms, Expected(s.policy, profile, hosts))),
                                     baseline.value.ex, rules)
    ensures profile != "pr" ==> run.mediums == []
  {
  }

  /** In an admitted pull request of CI every case of the ordinary plan that the shadow decision leaves in scope is in
      the plan of the one medium run, and what that plan does not ignore has exactly one record with an admissible
      outcome. */
  lemma AdmittedCoversMedium(s: Setting, rules: TestInventory.Rules, ms: seq<Manifest>, rs: seq<ShardResult>,
                             hosts: seq<string>, sha: string, run: MediumFiles, baseline: Option<Baseline>)
    requires Admissible(s, rules, ms, rs, "pr", hosts, sha, run, baseline) && s.jobs.Some?
    ensures MediumCertified(ms, run, sha)
  {
    var m := OrdinaryPlans(ms)[0];
    var lanes := Expected(s.policy, "pr", hosts);
    MatchesAreMine(ms, MEDIUM_RUNNER, "ordinary");
    assert (MEDIUM_RUNNER, "ordinary") in lanes;
    EachLaneIsGreen(s, ms, rs, "pr", sha, lanes, (MEDIUM_RUNNER, "ordinary"));
    AgreementIsCertified(ms, run, sha);
  }

  lemma {:induction false} MatchesAreMine(ms: seq<Manifest>, host: string, lane: string)
    ensures forall m <- MatchingManifests(ms, host, lane) :: m in ms && m.runner == host && m.lane == lane
  {
    if ms != [] {
      MatchesAreMine(ms[1..], host, lane);
    }
  }

  lemma LaneIsCertified(s: Setting, ms: seq<Manifest>, rs: seq<ShardResult>, profile: string, sha: string,
                        lanes: seq<Lane>, at: Lane)
    requires at in lanes && LanesGreen(s, ms, rs, profile, sha, lanes)
    ensures LaneCertified(s, ms, rs, profile, sha, at)
  {
    EachLaneIsGreen(s, ms, rs, profile, sha, lanes, at);
    GreenIsCertified(s, ms, rs, profile, sha, at);
  }
}

/**
 The comparison of a run's test inventory with the previous one (`ci_rust_lanes.py`): no case may
 disappear unless its own test binary vanished with a declaration, or a declaration of that same binary
 names it.
 */
module TestInventory {
  import opened Wrappers

  datatype Config = Config(runner: string, lane: string, binaries: seq<string>, selected: map<string, nat>,
                           cases: seq<string>)

  type Key = (string, string)

  datatype Inventory = Inventory(profile: string, jobs: Option<set<string>>, configs: seq<Config>)

  /** What the pull request declares. */
  datatype Explanations = Explanations(reset: bool, removedTargets: set<string>, removedTests: seq<string>)

  datatype Problem =
    | NoPreviousInventory
    | Colliding(lane: string)
    | TransitionRefused(lane: string)
    | JobsGone(jobs: set<string>)
    | ConfigGone(key: Key)
    | TargetsGone(key: Key, binaries: set<string>)
    | CasesGone(key: Key, cases: set<string>)

  /** The parts of the comparison that are tables or flat field checks elsewhere: whether two profiles
      select the same plan on a host, the lanes of a profile on a host, and whether the replacement of one
      runner image by another is evidenced. The results hold for every choice of them. */
  datatype Rules = Rules(
    same: (string, string, string) -> bool,
    lanes: (string, string) -> seq<string>,
    admits: (Config, Config) -> bool,
    hosts: seq<string>,
    jobOf: string -> string)

  const OLD_MAC := "macos-14"
  const NEW_MAC := "macos-15"

  // ---------- Which binary a case belongs to ----------

  predicate Owns(binary: string, test: string) {
    binary + "::" <= test
  }

  /** `binary_of`: the longest binary id the case starts with. */
  function BinaryOf(test: string, binaries: seq<string>): (r: Option<string>)
    ensures r.Some? ==> r.value in binaries && Owns(r.value, test)
    ensures r.Some? ==> forall b <- binaries :: Owns(b, test) ==> |b| <= |r.value|
    ensures r.None? ==> forall b <- binaries :: !Owns(b, test)
  {
    if binaries == [] then None
    else
      var last := |binaries| - 1;
      assert forall b :: b in binaries <==> b in binaries[..last] || b == binaries[last];
      var rest := BinaryOf(test, binaries[..last]);
      if Owns(binaries[last], test) && (rest.None? || |rest.value| < |binaries[last]|) then Some(binaries[last])
         else rest
  }

  /** The owner is unique: two ids of the same length that both own a case are the same id. */
  lemma OwnerIsUnique(test: string, binaries: seq<string>, b: string)
    requires b in binaries && Owns(b, test) && forall other <- binaries :: Owns(other, test) ==> |other| <= |b|
    ensures BinaryOf(test, binaries) == Some(b)
  {
    var owner := BinaryOf(test, binaries).value;
    assert owner == test[..|owner|] && b == test[..|b|];
  }

  predicate Matches(test: string, pattern: string) {
    if pattern != "" && pattern[|pattern| - 1] == '*' then pattern[..|pattern| - 1] <= test else test == pattern
  }

  /** `explained_case`. */
  predicate Explained(test: string, binaries: seq<string>, gone: set<string>, tests: seq<string>) {
    var binary := BinaryOf(test, binaries);
    && binary.Some?
    && (binary.value in gone
        || exists k :: 0 <= k < |tests| && BinaryOf(tests[k], binaries) == binary && Matches(test, tests[k]))
  }

  // ---------- Runner transitions ----------

  function KeyOf(c: Config): Key {
    (c.runner, c.lane)
  }

  function Renamed(key: Key): Key {
    if key.0 == OLD_MAC then (NEW_MAC, key.1) else key
  }

  function Destinations(configs: seq<Config>): seq<Key> {
    seq(|configs|, k requires 0 <= k < |configs| => Renamed(KeyOf(configs[k])))
  }

  /** A lane whose old and new image records would land on the same key. */
  predicate Blocked(configs: seq<Config>, lane: string) {
    multiset(Destinations(configs))[(NEW_MAC, lane)] != 1
  }

  /** The last configuration recorded under a key. */
  function Present(configs: seq<Config>, key: Key): (r: Option<Config>)
    ensures r.Some? ==> r.value in configs && KeyOf(r.value) == key
    ensures r.None? ==> forall c <- configs :: KeyOf(c) != key
  {
    if configs == [] then None
    else
      var last := |configs| - 1;
      assert forall c :: c in configs <==> c in configs[..last] || c == configs[last];
      if KeyOf(configs[last]) == key then Some(configs[last]) else Present(configs[..last], key)
  }

  function HowMany(configs: seq<Config>, key: Key): nat {
    if configs == [] then 0
       else HowMany(configs[..|configs| - 1], key) + (if KeyOf(configs[|configs| - 1]) == key then 1 else 0)
  }

  /** Every recorded key that moves to another key in this comparison. */
  predicate Moves(prev: Inventory, current: Inventory, rules: Rules, c: Config) {
    && c.runner == OLD_MAC
    && !Blocked(prev.configs, c.lane)
    && HowMany(current.configs, (NEW_MAC, c.lane)) == 1
    && Present(current.configs, (NEW_MAC, c.lane)).Some?
    && rules.admits(c, Present(current.configs, (NEW_MAC, c.lane)).value)
  }

  /** A move that is called for but refused. */
  predicate Refused(prev: Inventory, current: Inventory, rules: Rules, c: Config) {
    && c.runner == OLD_MAC
    && !Blocked(prev.configs, c.lane)
    && HowMany(current.configs, (NEW_MAC, c.lane)) > 0
    && !Moves(prev, current, rules, c)
  }

  function Destination(prev: Inventory, current: Inventory, rules: Rules, c: Config): Key {
    if Moves(prev, current, rules, c) then (NEW_MAC, c.lane) else KeyOf(c)
  }

  /** Two records that end up on one key had one key before: no two runners are merged. */
  lemma TransitionIsInjective(prev: Inventory, current: Inventory, rules: Rules, i: nat, j: nat)
    requires i < |prev.configs| && j < |prev.configs|
    requires Destination(prev, current, rules, prev.configs[i]) == Destination(prev, current, rules, prev.configs[j])
    ensures KeyOf(prev.configs[i]) == KeyOf(prev.configs[j])
  {
    var a, b := prev.configs[i], prev.configs[j];
    if Moves(prev, current, rules, a) && !Moves(prev, current, rules, b) {
      OneDestination(prev.configs, i, j, a.lane);
    } else if Moves(prev, current, rules, b) && !Moves(prev, current, rules, a) {
      OneDestination(prev.configs, j, i, b.lane);
    }
  }

  lemma OneDestination(configs: seq<Config>, i: nat, j: nat, lane: string)
    requires i < |configs| && j < |configs| && !Blocked(configs, lane)
    requires Renamed(KeyOf(configs[i])) == (NEW_MAC, lane) == Renamed(KeyOf(configs[j]))
    ensures i == j
  {
    var d := Destinations(configs);
    assert d[i] == d[j] == (NEW_MAC, lane);
    if i < j {
      TwoPlaces(d, i, j);
    } else if j < i {
      TwoPlaces(d, j, i);
    }
  }

  lemma TwoPlaces(s: seq<Key>, i: nat, j: nat)
    requires i < j < |s| && s[i] == s[j]
    ensures multiset(s)[s[i]] >= 2
  {
    assert s == s[..j] + s[j..];
    assert s[..j][i] in multiset(s[..j]) && s[j..][0] in multiset(s[j..]);
  }

  // ---------- The comparison ----------

  function Elements(s: seq<string>): set<string> {
    set x | x in s
  }

  function Vanished(a: Config, b: Config): set<string> {
    Elements(a.binaries) - Elements(b.binaries)
  }

  function Unexplained(a: Config, b: Config, ex: Explanations): set<string> {
    set c | c in a.cases && c !in b.cases
    && !Explained(c, a.binaries, Vanished(a, b) * ex.removedTargets, ex.removedTests)
  }

  /** Nothing of this recorded configuration is missing without a reason. */
  predicate Kept(prev: Inventory, current: Inventory, ex: Explanations, rules: Rules, a: Config) {
    var same := rules.same(prev.profile, current.profile, a.runner);
    match Present(current.configs, Destination(prev, current, rules, a))
    case None => !same && a.lane in rules.lanes(prev.profile, a.runner)
    case Some(b) => Vanished(a, b) <= ex.removedTargets && (same ==> Unexplained(a, b, ex) == {})
  }

  predicate SameJobs(prev: Inventory, current: Inventory, rules: Rules) {
    forall h <- rules.hosts :: rules.same(prev.profile, current.profile, h)
  }

  predicate AnyMoves(prev: Inventory, current: Inventory, rules: Rules) {
    exists k :: 0 <= k < |prev.configs| && Moves(prev, current, rules, prev.configs[k])
  }

  /** The jobs of the previous run under their current names. */
  function ExpectedJobs(prev: Inventory, current: Inventory, rules: Rules): set<string>
    requires prev.jobs.Some?
  {
    set j | j in prev.jobs.value ::
      if j == rules.jobOf(OLD_MAC) && AnyMoves(prev, current, rules) then rules.jobOf(NEW_MAC) else j
  }

  predicate JobsKept(prev: Inventory, current: Inventory, rules: Rules) {
    SameJobs(prev, current, rules) && prev.jobs.Some? && current.jobs.Some? ==>
      ExpectedJobs(prev, current, rules) <= current.jobs.value
  }

  predicate Collides(prev: Inventory, c: Config) {
    c.runner == OLD_MAC && Blocked(prev.configs, c.lane)
  }

  /** The comparison finds nothing to object to. */
  predicate Clean(prev: Inventory, current: Inventory, ex: Explanations, rules: Rules) {
    && (forall k :: 0 <= k < |prev.configs| ==> !Collides(prev, prev.configs[k]))
    && (forall k :: 0 <= k < |prev.configs| ==> !Refused(prev, current, rules, prev.configs[k]))
    && JobsKept(prev, current, rules)
    && (forall k :: 0 <= k < |prev.configs| ==> Kept(prev, current, ex, rules, prev.configs[k]))
  }

  method CompareInventory(previous: Option<Inventory>, current: Inventory, ex: Explanations, rules: Rules)
    returns (problems: seq<Problem>)
    ensures ex.reset ==> problems == []
    ensures !ex.reset ==> (problems == [] <==> previous.Some? && Clean(previous.value, current, ex, rules))
  {
    if previous.None? {
      return if ex.reset then [] else [NoPreviousInventory];
    }
    var prev := previous.value;
    var colliding := Collisions(prev);
    var refused := Refusals(prev, current, rules);
    var jobs := LostJobs(prev, current, rules);
    var gone := CompareConfigs(prev, current, ex, rules);
    problems := if ex.reset then [] else colliding + refused + jobs + gone;
  }

  method Collisions(prev: Inventory) returns (problems: seq<Problem>)
    ensures problems == [] <==> forall k :: 0 <= k < |prev.configs| ==> !Collides(prev, prev.configs[k])
  {
    problems := [];
    for k := 0 to |prev.configs|
      invariant problems == [] <==> forall i :: 0 <= i < k ==> !Collides(prev, prev.configs[i])
    {
      if Collides(prev, prev.configs[k]) {
        problems := problems + [Colliding(prev.configs[k].lane)];
      }
    }
  }

  method Refusals(prev: Inventory, current: Inventory, rules: Rules) returns (problems: seq<Problem>)
    ensures problems == [] <==> forall k :: 0 <= k < |prev.configs| ==> !Refused(prev, current, rules, prev.configs[k])
  {
    problems := [];
    for k := 0 to |prev.configs|
      invariant problems == [] <==> forall i :: 0 <= i < k ==> !Refused(prev, current, rules, prev.configs[i])
    {
      if Refused(prev, current, rules, prev.configs[k]) {
        problems := problems + [TransitionRefused(prev.configs[k].lane)];
      }
    }
  }

  lemma NothingOutside(a: set<string>, b: set<string>)
    ensures a - b == {} <==> a <= b
  {
    if a - b == {} {
      forall x | x in a ensures x in b {
        assert x !in a - b;
      }
    }
  }

  method LostJobs(prev: Inventory, current: Inventory, rules: Rules) returns (problems: seq<Problem>)
    ensures problems == [] <==> JobsKept(prev, current, rules)
  {
    problems := [];
    if SameJobs(prev, current, rules) && prev.jobs.Some? && current.jobs.Some? {
      var lost := ExpectedJobs(prev, current, rules) - current.jobs.value;
      NothingOutside(ExpectedJobs(prev, current, rules), current.jobs.value);
      if lost != {} {
        problems := [JobsGone(lost)];
      }
    }
  }

  method CompareConfigs(prev: Inventory, current: Inventory, ex: Explanations, rules: Rules)
    returns (problems: seq<Problem>)
    ensures problems == [] <==> forall k :: 0 <= k < |prev.configs| ==> Kept(prev, current, ex, rules, prev.configs[k])
  {
    problems := [];
    for k := 0 to |prev.configs|
      invariant problems == [] <==> forall i :: 0 <= i < k ==> Kept(prev, current, ex, rules, prev.configs[i])
    {
      var a := prev.configs[k];
      var same := rules.same(prev.profile, current.profile, a.runner);
      var found := Present(current.configs, Destination(prev, current, rules, a));
      if found.None? {
        if same || a.lane !in rules.lanes(prev.profile, a.runner) {
          problems := problems + [ConfigGone(KeyOf(a))];
        }
      } else {
        var b := found.value;
        var undeclared := Vanished(a, b) - ex.removedTargets;
        NothingOutside(Vanished(a, b), ex.removedTargets);
        if undeclared != {} {
          problems := problems + [TargetsGone(KeyOf(a), undeclared)];
        }
        if same && Unexplained(a, b, ex) != {} {
          problems := problems + [CasesGone(KeyOf(a), Unexplained(a, b, ex))];
        }
      }
    }
  }

  // ---------- What a clean comparison means ----------

  /** Why a case of the previous run need not be in this one: its own binary is gone and its removal is
      declared, or a declaration that names the same binary matches the case. */
  ghost predicate Excused(a: Config, b: Config, ex: Explanations, test: string) {
    exists owner :: OwnerOf(owner, test, a.binaries)
      && ((owner !in b.binaries && owner in ex.removedTargets)
          || exists k :: 0 <= k < |ex.removedTests|
                         && OwnerOf(owner, ex.removedTests[k], a.binaries) && Matches(test, ex.removedTests[k]))
  }

  /** The longest recorded binary id that owns a case. */
  ghost predicate OwnerOf(owner: string, test: string, binaries: seq<string>) {
    owner in binaries && Owns(owner, test) && forall b <- binaries :: Owns(b, test) ==> |b| <= |owner|
  }

  lemma ExplainedIsExcused(a: Config, b: Config, ex: Explanations, test: string)
    ensures Explained(test, a.binaries, Vanished(a, b) * ex.removedTargets, ex.removedTests)
            <==> Excused(a, b, ex, test)
  {
    var gone := Vanished(a, b) * ex.removedTargets;
    if Explained(test, a.binaries, gone, ex.removedTests) {
      var owner := BinaryOf(test, a.binaries).value;
      assert OwnerOf(owner, test, a.binaries);
      if owner !in gone {
        var k :| 0 <= k < |ex.removedTests| && BinaryOf(ex.removedTests[k], a.binaries) == Some(owner)
                 && Matches(test, ex.removedTests[k]);
        assert OwnerOf(owner, ex.removedTests[k], a.binaries);
      }
    }
    if Excused(a, b, ex, test) {
      var owner :| OwnerOf(owner, test, a.binaries)
        && ((owner !in b.binaries && owner in ex.removedTargets)
            || exists k :: 0 <= k < |ex.removedTests|
                           && OwnerOf(owner, ex.removedTests[k], a.binaries) && Matches(test, ex.removedTests[k]));
      OwnerIsUnique(test, a.binaries, owner);
      if owner in b.binaries || owner !in ex.removedTargets {
        var k :| 0 <= k < |ex.removedTests| && OwnerOf(owner, ex.removedTests[k], a.binaries)
                 && Matches(test, ex.removedTests[k]);
        OwnerIsUnique(ex.removedTests[k], a.binaries, owner);
      }
    }
  }

  /** No case is lost: without a reset, an accepted comparison finds every recorded case of every
      comparable configuration in the current run, or an excuse for it. */
  lemma NothingIsLost(prev: Inventory, current: Inventory, ex: Explanations, rules: Rules, a: Config, test: string)
    requires Clean(prev, current, ex, rules)
    requires a in prev.configs && test in a.cases && rules.same(prev.profile, current.profile, a.runner)
    ensures exists b :: b in current.configs && KeyOf(b) == Destination(prev, current, rules, a)
                        && (test in b.cases || Excused(a, b, ex, test))
  {
    var k :| 0 <= k < |prev.configs| && prev.configs[k] == a;
    assert Kept(prev, current, ex, rules, a);
    var b := Present(current.configs, Destination(prev, current, rules, a)).value;
    ExplainedIsExcused(a, b, ex, test);
    assert test !in Unexplained(a, b, ex);
  }

  /** Nor is a configuration, a test target or a job: an accepted comparison finds each configuration on its own runner
      or on the image that replaced it, with every target that was not declared removed, unless the profiles differ
      and the lane was one of the previous profile; and every job of a comparable run under its own or its new name. */
  lemma NothingElseIsLost(prev: Inventory, current: Inventory, ex: Explanations, rules: Rules, a: Config)
    requires Clean(prev, current, ex, rules) && a in prev.configs
    ensures || (!rules.same(prev.profile, current.profile, a.runner) && a.lane in rules.lanes(prev.profile, a.runner))
            || exists b :: b in current.configs && Succeeds(a, b) && TargetsRemain(a, b, ex)
    ensures prev.jobs.Some? && current.jobs.Some? ==>
              (forall h <- rules.hosts :: rules.same(prev.profile, current.profile, h)) ==>
              forall j <- prev.jobs.value ::
                j in current.jobs.value || (j == rules.jobOf(OLD_MAC) && rules.jobOf(NEW_MAC) in current.jobs.value)
  {
    var k :| 0 <= k < |prev.configs| && prev.configs[k] == a;
    assert Kept(prev, current, ex, rules, a);
    var found := Present(current.configs, Destination(prev, current, rules, a));
    if found.Some? {
      var b := found.value;
      assert Succeeds(a, b) && Vanished(a, b) <= ex.removedTargets;
      forall t | t in a.binaries && t !in b.binaries ensures t in ex.removedTargets {
        assert t in Vanished(a, b);
      }
    }
    if SameJobs(prev, current, rules) && prev.jobs.Some? && current.jobs.Some? {
      JobsRemain(prev, current, rules);
    }
  }

  lemma JobsRemain(prev: Inventory, current: Inventory, rules: Rules)
    requires JobsKept(prev, current, rules) && SameJobs(prev, current, rules) && prev.jobs.Some? && current.jobs.Some?
    ensures forall j <- prev.jobs.value ::
              j in current.jobs.value || (j == rules.jobOf(OLD_MAC) && rules.jobOf(NEW_MAC) in current.jobs.value)
  {
    forall j | j in prev.jobs.value
      ensures j in current.jobs.value || (j == rules.jobOf(OLD_MAC) && rules.jobOf(NEW_MAC) in current.jobs.value)
    {
      var now := if j == rules.jobOf(OLD_MAC) && AnyMoves(prev, current, rules) then rules.jobOf(NEW_MAC) else j;
      assert now in ExpectedJobs(prev, current, rules);
    }
  }

  predicate Succeeds(a: Config, b: Config) {
    b.lane == a.lane && (b.runner == a.runner || (a.runner == OLD_MAC && b.runner == NEW_MAC))
  }

  ghost predicate TargetsRemain(a: Config, b: Config, ex: Explanations) {
    forall t <- a.binaries :: t in b.binaries || t in ex.removedTargets
  }
}

/**
 `evaluate-ci-gate.py`: step outcomes become gate entries, the expected table is derived again from the validated
 classification, and the gate is green only when nothing differs.

 Jobs, steps and classification outputs are enumerations; every result outside the named verdicts is `Named`.
 */
module CiGate {
  import opened Wrappers
  import opened ChangeClassifier

  datatype Verdict = Success | Failure | Cancelled | Skipped | Missing | Partial | Named(text: string)

  // ---------- One entry from its steps ----------

  function FirstNamed(outcomes: seq<Verdict>): Option<Verdict> {
    if outcomes == [] then None
    else if outcomes[0] != Success && outcomes[0] != Skipped then Some(outcomes[0])
    else FirstNamed(outcomes[1..])
  }

  /** `combined`. */
  function Combined(outcomes: seq<Verdict>): Verdict {
    if outcomes == [] || Missing in outcomes then Missing
    else if Failure in outcomes then Failure
    else if Cancelled in outcomes then Cancelled
    else if FirstNamed(outcomes).Some? then FirstNamed(outcomes).value
    else if forall outcome <- outcomes :: outcome == Success then Success
    else if forall outcome <- outcomes :: outcome == Skipped then Skipped
    else Partial
  }

  predicate All(outcomes: seq<Verdict>, verdict: Verdict) {
    outcomes != [] && forall outcome <- outcomes :: outcome == verdict
  }

  lemma {:induction false} FirstNamedIsThere(outcomes: seq<Verdict>)
    ensures FirstNamed(outcomes).None? <==> forall outcome <- outcomes :: outcome == Success || outcome == Skipped
    ensures FirstNamed(outcomes).Some? ==>
              && FirstNamed(outcomes).value in outcomes
              && FirstNamed(outcomes).value != Success && FirstNamed(outcomes).value != Skipped
  {
    if outcomes != [] {
      FirstNamedIsThere(outcomes[1..]);
      assert outcomes[0] in outcomes && forall outcome <- outcomes[1..] :: outcome in outcomes;
      assert forall outcome <- outcomes :: outcome == outcomes[0] || outcome in outcomes[1..];
    }
  }

  /** A group is green only when every step succeeded and skipped only when every step was skipped. */
  lemma CombinedMeans(outcomes: seq<Verdict>)
    ensures Combined(outcomes) == Success <==> All(outcomes, Success)
    ensures Combined(outcomes) == Skipped <==> All(outcomes, Skipped)
    ensures Combined(outcomes) == Missing <==> outcomes == [] || Missing in outcomes
    ensures Combined(outcomes) == Failure <==> Failure in outcomes && Missing !in outcomes
  {
    FirstNamedIsThere(outcomes);
    if outcomes != [] {
      assert outcomes[0] in outcomes;
    }
  }

  predicate Active(part: seq<Verdict>) {
    exists outcome <- part :: outcome != Skipped
  }

  function ActiveParts(parts: seq<seq<Verdict>>): seq<seq<Verdict>> {
    if parts == [] then []
    else (if Active(parts[0]) then [parts[0]] else []) + ActiveParts(parts[1..])
  }

  function Flat(parts: seq<seq<Verdict>>): seq<Verdict> {
    if parts == [] then [] else parts[0] + Flat(parts[1..])
  }

  /** The result of an entry whose steps run in exactly one of several places. */
  function Alternative(outcomes: seq<Verdict>, parts: seq<seq<Verdict>>): Verdict {
    var active := ActiveParts(parts);
    Combined(if |active| == 1 then active[0] else if active == [] then outcomes else Flat(active) + [Partial])
  }

  /** `parts` are the `outcomes`, grouped. */
  ghost predicate Groups(outcomes: seq<Verdict>, parts: seq<seq<Verdict>>) {
    forall outcome :: outcome in outcomes <==> exists part <- parts :: outcome in part
  }

  ghost predicate OnlyActive(parts: seq<seq<Verdict>>, k: nat) {
    k < |parts| && Active(parts[k]) && forall j :: 0 <= j < |parts| && j != k ==> !Active(parts[j])
  }

  lemma {:induction false} ActiveIsFound(parts: seq<seq<Verdict>>)
    ensures ActiveParts(parts) == [] <==> forall part <- parts :: !Active(part)
    ensures forall part <- ActiveParts(parts) :: Active(part) && part in parts
  {
    if parts != [] {
      ActiveIsFound(parts[1..]);
      assert parts == [parts[0]] + parts[1..];
    }
  }

  lemma {:induction false} OneActive(parts: seq<seq<Verdict>>) returns (k: nat)
    requires |ActiveParts(parts)| == 1
    ensures OnlyActive(parts, k) && ActiveParts(parts) == [parts[k]]
  {
    if Active(parts[0]) {
      k := 0;
      ActiveIsFound(parts[1..]);
      assert ActiveParts(parts) == [parts[0]] + ActiveParts(parts[1..]);
      forall j | 0 < j < |parts| ensures !Active(parts[j]) {
        assert parts[j] == parts[1..][j - 1] && parts[j] in parts[1..];
      }
    } else {
      var i := OneActive(parts[1..]);
      k := i + 1;
      forall j | 0 <= j < |parts| && j != k ensures !Active(parts[j]) {
        if j > 0 {
          assert parts[j] == parts[1..][j - 1];
        }
      }
    }
  }

  lemma {:induction false} OnlyActiveIsFound(parts: seq<seq<Verdict>>, k: nat)
    requires OnlyActive(parts, k)
    ensures ActiveParts(parts) == [parts[k]]
  {
    if k == 0 {
      ActiveIsFound(parts[1..]);
      forall part | part in parts[1..] ensures !Active(part) {
        var j :| 0 <= j < |parts[1..]| && parts[1..][j] == part;
        assert part == parts[j + 1];
      }
    } else {
      assert !Active(parts[0]);
      forall j | 0 <= j < |parts[1..]| && j != k - 1 ensures !Active(parts[1..][j]) {
        assert parts[1..][j] == parts[j + 1];
      }
      OnlyActiveIsFound(parts[1..], k - 1);
    }
  }

  /** An alternative entry is a success exactly when one alternative ran and all its steps succeeded. */
  lemma AlternativeSucceeds(outcomes: seq<Verdict>, parts: seq<seq<Verdict>>)
    requires Groups(outcomes, parts)
    ensures Alternative(outcomes, parts) == Success
        <==> exists k: nat :: OnlyActive(parts, k) && All(parts[k], Success)
  {
    if Alternative(outcomes, parts) == Success {
      var k := SuccessHasOneActive(outcomes, parts);
    }
    if k: nat :| OnlyActive(parts, k) && All(parts[k], Success) {
      OnlyActiveIsFound(parts, k);
      CombinedMeans(parts[k]);
    }
  }

  lemma SuccessHasOneActive(outcomes: seq<Verdict>, parts: seq<seq<Verdict>>) returns (k: nat)
    requires Groups(outcomes, parts) && Alternative(outcomes, parts) == Success
    ensures OnlyActive(parts, k) && All(parts[k], Success)
  {
    var active := ActiveParts(parts);
    var many := Flat(active) + [Partial];
    assert many[|Flat(active)|] == Partial && Partial in many;
    CombinedMeans(many);
    CombinedMeans(outcomes);
    if All(outcomes, Success) {
      assert outcomes[0] in outcomes;
      SuccessIsActive(outcomes, parts);
    }
    k := OneActive(parts);
    CombinedMeans(active[0]);
  }

  lemma SuccessIsActive(outcomes: seq<Verdict>, parts: seq<seq<Verdict>>)
    requires Groups(outcomes, parts) && Success in outcomes
    ensures ActiveParts(parts) != []
  {
    ActiveIsFound(parts);
    var part :| part in parts && Success in part;
    assert Active(part);
  }

  // ---------- The entries of the table ----------

  datatype Job =
    | ClassifyChanges | Guards | TestPython | BuildPythonProduct
    | TestRust | LintRust | RustMedium | WindowsLint | WarmCache | OsJobs
    | BuildTools | PackageThin | Assessment | P0Proof | ProbeBootstrap
    | PublishAssets | SmokePlugin | VerifyAssets | AlphaJob
    | Foreign(name: string)

  datatype StepId =
    | Classify | GuardsCompile | GuardsVersion | GuardsFmt | GuardsZizmor | Product
    | PythonPlan | Python | PrPython | RustBuild | RustRun | Verify | RemovedTests
    | MediumStep | Clippy | LintJob | WindowsClippy | Warm | Shadow

  const ABSENT_STEPS := {Shadow, MediumStep, LintJob, PrPython, Warm}

  const ENTRIES := [ClassifyChanges, Guards, BuildPythonProduct, TestPython, TestRust, RustMedium, LintRust,
                    WindowsLint, WarmCache]

  /** `STEP_GROUPS`. */
  function StepsOf(entry: Job): seq<StepId> {
    match entry
    case ClassifyChanges => [Classify]
    case Guards => [GuardsCompile, GuardsVersion, GuardsFmt, GuardsZizmor]
    case BuildPythonProduct => [Product]
    case TestPython => [PythonPlan, Python, PrPython]
    case TestRust => [RustBuild, RustRun, Verify, RemovedTests]
    case RustMedium => [MediumStep]
    case LintRust => [Clippy, LintJob]
    case WindowsLint => [WindowsClippy]
    case WarmCache => [Warm]
    case _ => []
  }

  /** `ALTERNATIVE_GROUPS`; none for an entry whose steps all run in one place. */
  function AlternativesOf(entry: Job): seq<seq<StepId>> {
    match entry
    case LintRust => [[Clippy], [LintJob]]
    case TestPython => [[PythonPlan, Python], [PrPython]]
    case _ => []
  }

  function StepOutcome(steps: map<StepId, Verdict>, step: StepId): Verdict {
    if step in steps then steps[step] else if step in ABSENT_STEPS then Skipped else Missing
  }

  function OutcomesOf(steps: map<StepId, Verdict>, ids: seq<StepId>): (r: seq<Verdict>)
    ensures |r| == |ids| && forall i :: 0 <= i < |r| ==> r[i] == StepOutcome(steps, ids[i])
  {
    if ids == [] then [] else [StepOutcome(steps, ids[0])] + OutcomesOf(steps, ids[1..])
  }

  function PartsOf(steps: map<StepId, Verdict>, parts: seq<seq<StepId>>): (r: seq<seq<Verdict>>)
    ensures |r| == |parts| && forall i :: 0 <= i < |r| ==> r[i] == OutcomesOf(steps, parts[i])
  {
    if parts == [] then [] else [OutcomesOf(steps, parts[0])] + PartsOf(steps, parts[1..])
  }

  /** What the gate records of an entry. */
  function EntryResult(steps: map<StepId, Verdict>, entry: Job): Verdict {
    var outcomes := OutcomesOf(steps, StepsOf(entry));
    if AlternativesOf(entry) == [] then Combined(outcomes)
    else Alternative(outcomes, PartsOf(steps, AlternativesOf(entry)))
  }

  function OsResult(osJobs: Option<seq<Verdict>>): Verdict {
    match osJobs
    case None => Skipped
    case Some(outcomes) => Combined(outcomes)
  }

  function ResultsOf(steps: map<StepId, Verdict>, entries: seq<Job>): map<Job, Verdict> {
    map entry | entry in entries :: EntryResult(steps, entry)
  }

  lemma OneMoreEntry(steps: map<StepId, Verdict>, entries: seq<Job>, i: nat)
    requires i < |entries|
    ensures ResultsOf(steps, entries[..i + 1])
         == ResultsOf(steps, entries[..i])[entries[i] := EntryResult(steps, entries[i])]
  {
    assert entries[..i + 1] == entries[..i] + [entries[i]];
  }

  /** The loop of `validation_results`. */
  method EntryResults(steps: map<StepId, Verdict>, entries: seq<Job>) returns (results: map<Job, Verdict>)
    ensures results == ResultsOf(steps, entries)
  {
    results := map[];
    var i := 0;
    while i < |entries|
      invariant 0 <= i <= |entries|
      invariant results == ResultsOf(steps, entries[..i])
    {
      OneMoreEntry(steps, entries, i);
      results := results[entries[i] := EntryResult(steps, entries[i])];
      i := i + 1;
    }
    assert entries[..i] == entries;
  }

  predicate Succeeded(steps: map<StepId, Verdict>, ids: seq<StepId>) {
    forall i :: 0 <= i < |ids| ==> StepOutcome(steps, ids[i]) == Success
  }

  predicate Ran(steps: map<StepId, Verdict>, ids: seq<StepId>) {
    exists i :: 0 <= i < |ids| && StepOutcome(steps, ids[i]) != Skipped
  }

  lemma OutcomesMean(steps: map<StepId, Verdict>, ids: seq<StepId>)
    requires ids != []
    ensures All(OutcomesOf(steps, ids), Success) <==> Succeeded(steps, ids)
    ensures Active(OutcomesOf(steps, ids)) <==> Ran(steps, ids)
  {
    var outcomes := OutcomesOf(steps, ids);
    assert forall i :: 0 <= i < |ids| ==> outcomes[i] == StepOutcome(steps, ids[i]) && outcomes[i] in outcomes;
  }

  /** An ordinary entry is green exactly when all its steps succeeded. */
  lemma EntrySucceeds(steps: map<StepId, Verdict>, entry: Job)
    requires entry in ENTRIES && AlternativesOf(entry) == []
    ensures EntryResult(steps, entry) == Success <==> Succeeded(steps, StepsOf(entry))
  {
    OutcomesMean(steps, StepsOf(entry));
    CombinedMeans(OutcomesOf(steps, StepsOf(entry)));
  }

  /** Python and Clippy run in the gate's own job or in the second one of a pull request: the entry is green exactly
      when one of the two ran and all of it succeeded. */
  lemma AlternativeEntrySucceeds(steps: map<StepId, Verdict>, entry: Job)
    requires entry == LintRust || entry == TestPython
    ensures var here, there := AlternativesOf(entry)[0], AlternativesOf(entry)[1];
            EntryResult(steps, entry) == Success
            <==> (Succeeded(steps, here) && !Ran(steps, there)) || (Succeeded(steps, there) && !Ran(steps, here))
  {
    var here, there := AlternativesOf(entry)[0], AlternativesOf(entry)[1];
    var parts := PartsOf(steps, AlternativesOf(entry));
    var outcomes := OutcomesOf(steps, StepsOf(entry));
    OutcomesMean(steps, here);
    OutcomesMean(steps, there);
    EntryGroups(steps, entry);
    AlternativeSucceeds(outcomes, parts);
    assert Succeeded(steps, here) ==> StepOutcome(steps, here[0]) == Success && here[0] in here;
    assert Succeeded(steps, there) ==> StepOutcome(steps, there[0]) == Success && there[0] in there;
    assert OnlyActive(parts, 0) <==> Ran(steps, here) && !Ran(steps, there);
    assert OnlyActive(parts, 1) <==> Ran(steps, there) && !Ran(steps, here);
  }

  lemma EntryGroups(steps: map<StepId, Verdict>, entry: Job)
    requires entry == LintRust || entry == TestPython
    ensures Groups(OutcomesOf(steps, StepsOf(entry)), PartsOf(steps, AlternativesOf(entry)))
  {
    var parts := PartsOf(steps, AlternativesOf(entry));
    assert parts[0] in parts && parts[1] in parts;
    if entry == LintRust {
      assert OutcomesOf(steps, StepsOf(entry)) == parts[0] + parts[1];
    } else {
      assert OutcomesOf(steps, StepsOf(entry)) == parts[0] + parts[1];
    }
  }

  /** Green by its steps: all of them succeeded, or for an alternative entry all of the one place that ran. */
  predicate Green(steps: map<StepId, Verdict>, entry: Job) {
    if AlternativesOf(entry) == [] then Succeeded(steps, StepsOf(entry))
    else
      var here, there := AlternativesOf(entry)[0], AlternativesOf(entry)[1];
      (Succeeded(steps, here) && !Ran(steps, there)) || (Succeeded(steps, there) && !Ran(steps, here))
  }

  /** `validation_results`: there is one result for each entry and one for the other runners, and a result is a success
      exactly when the steps or the jobs behind it are green. */
  method ValidationResults(steps: map<StepId, Verdict>, osJobs: Option<seq<Verdict>>)
    returns (results: map<Job, Verdict>)
    ensures results.Keys == (set entry | entry in ENTRIES) + {OsJobs}
    ensures forall entry <- ENTRIES :: results[entry] == Success <==> Green(steps, entry)
    ensures results[OsJobs] == Success <==> osJobs.Some? && All(osJobs.value, Success)
    ensures results[OsJobs] == Skipped <==> osJobs.None? || All(osJobs.value, Skipped)
  {
    results := EntryResults(steps, ENTRIES);
    results := results[OsJobs := OsResult(osJobs)];
    EntriesAreGreen(steps);
    ResultsMean(steps, ENTRIES, OsResult(osJobs));
    if osJobs.Some? {
      CombinedMeans(osJobs.value);
    }
  }

  lemma ResultsMean(steps: map<StepId, Verdict>, entries: seq<Job>, os: Verdict)
    requires OsJobs !in entries
    requires forall entry <- entries :: EntryResult(steps, entry) == Success <==> Green(steps, entry)
    ensures var results := ResultsOf(steps, entries)[OsJobs := os];
            && results.Keys == (set entry | entry in entries) + {OsJobs}
            && forall entry <- entries :: results[entry] == Success <==> Green(steps, entry)
  {
  }

  lemma EntriesAreGreen(steps: map<StepId, Verdict>)
    ensures forall entry <- ENTRIES :: EntryResult(steps, entry) == Success <==> Green(steps, entry)
  {
    forall entry | entry in ENTRIES ensures EntryResult(steps, entry) == Success <==> Green(steps, entry) {
      GreenExactly(steps, entry);
    }
  }

  lemma GreenExactly(steps: map<StepId, Verdict>, entry: Job)
    requires entry in ENTRIES
    ensures EntryResult(steps, entry) == Success <==> Green(steps, entry)
  {
    if AlternativesOf(entry) == [] {
      EntrySucceeds(steps, entry);
    } else {
      AlternativeEntrySucceeds(steps, entry);
    }
  }

  // ---------- The classification outputs ----------

  datatype Output =
    | RustChanged | PlatformChanged | ToolchainChanged | SearchChanged | PackageChanged | PluginChanged | CiChanged
    | ReleaseRequired | AssessmentRequired | DocsOnly

  const SCOPE_OUTPUTS := {RustChanged, PlatformChanged, ToolchainChanged, SearchChanged, PackageChanged, PluginChanged,
                          CiChanged, ReleaseRequired, AssessmentRequired, DocsOnly}

  function Flag(scope: Scope, output: Output): bool {
    match output
    case RustChanged => scope.classification.rust
    case PlatformChanged => scope.classification.platform
    case ToolchainChanged => scope.classification.toolchain
    case SearchChanged => scope.classification.search
    case PackageChanged => scope.classification.package
    case PluginChanged => scope.classification.pluginContent
    case CiChanged => scope.classification.ci
    case ReleaseRequired => scope.classification.release
    case AssessmentRequired => scope.classification.assessment
    case DocsOnly => scope.docsOnly
  }

  /** The output lines of the classifier. */
  function Emit(scope: Scope): map<Output, string> {
    map output | output in SCOPE_OUTPUTS :: if Flag(scope, output) then "true" else "false"
  }

  predicate Typed(outputs: map<Output, string>) {
    forall output <- SCOPE_OUTPUTS :: output in outputs && (outputs[output] == "true" || outputs[output] == "false")
  }

  function ReadFlag(outputs: map<Output, string>, output: Output): bool
    requires output in outputs
  {
    outputs[output] == "true"
  }

  function ReadScope(outputs: map<Output, string>): Scope
    requires Typed(outputs)
  {
    Scope(Classification(ReadFlag(outputs, RustChanged), ReadFlag(outputs, PlatformChanged),
                         ReadFlag(outputs, ToolchainChanged), ReadFlag(outputs, SearchChanged),
                         ReadFlag(outputs, PackageChanged), ReadFlag(outputs, PluginChanged),
                         ReadFlag(outputs, CiChanged), ReadFlag(outputs, ReleaseRequired),
                         ReadFlag(outputs, AssessmentRequired)),
          ReadFlag(outputs, DocsOnly))
  }

  /** `_validated_classification` finds nothing wrong. */
  predicate Validated(outputs: map<Output, string>) {
    Typed(outputs) && Consistent(ReadScope(outputs).classification, ReadScope(outputs).docsOnly)
  }

  /** The scope the gate goes on with: nothing at all when the outputs are refused. */
  function ScopeOf(outputs: map<Output, string>): Scope {
    if Validated(outputs) then ReadScope(outputs) else Scope(NOTHING, false)
  }

  lemma EmittedIsRead(scope: Scope)
    ensures Typed(Emit(scope)) && ReadScope(Emit(scope)) == scope
  {
  }

  // ---------- The expected table ----------

  datatype Profile = PrProfile | QueueProfile | MainProfile | ReleaseProfile | LargeProfile | OtherProfile

  datatype Runner = Linux | MacOs | Windows | OtherRunner(name: string)

  datatype Matrix = NoMatrix | Malformed | Rows(rows: seq<string>)

  datatype AlphaTag = NoTag | AlphaVersion | OtherTag

  datatype Inputs = Inputs(event: Event, outputs: map<Output, string>, profile: Profile, matrix: Matrix,
                           routed: Option<seq<string>>, runners: Option<seq<Runner>>, delivery: bool,
                           alphaRequested: bool, alphaTag: AlphaTag)

  predicate IsTag(event: Event) { event.Push? && "refs/tags/" <= event.ref }
  predicate IsMainPush(event: Event) { event == Push(MAIN) }
  predicate IsBranch(event: Event) { event.Push? && "refs/heads/" <= event.ref && event.ref != MAIN }
  predicate IsManual(event: Event) { event.Dispatch? || event.Schedule? }

  function Profiles(event: Event): set<Profile> {
    if IsManual(event) then {MainProfile, LargeProfile}
    else if IsTag(event) then {ReleaseProfile}
    else if event.MergeGroup? then {QueueProfile}
    else if event.PullRequest? then {PrProfile}
    else {MainProfile}
  }

  /** `PROFILE_RUNNERS`. */
  function RunnersOf(profile: Profile): Option<seq<Runner>> {
    match profile
    case PrProfile => Some([Linux, MacOs])
    case QueueProfile => Some([Linux])
    case MainProfile => Some([Linux, MacOs])
    case ReleaseProfile => Some([Linux, MacOs])
    case LargeProfile => Some([Linux, MacOs, Windows])
    case OtherProfile => None
  }

  predicate AllContours(c: Classification) {
    c == FULL
  }

  datatype Reason = BadClassification | BadEvent | BadProfile | BadDocsOnly | BadMatrix | BadRunners | BadAlphaTag

  /** `routed` is what `python_matrix` answers for this profile and scope, `None` when it refuses them. */
  predicate IsInvalid(i: Inputs, reason: Reason) {
    var scope := ScopeOf(i.outputs);
    match reason
    case BadClassification =>
      || !Validated(i.outputs)
      || ((IsTag(i.event) || IsBranch(i.event) || (i.event.MergeGroup? && !scope.docsOnly) || IsManual(i.event))
          && !AllContours(scope.classification))
    case BadEvent =>
      !(IsTag(i.event) || IsMainPush(i.event) || IsBranch(i.event) || i.event.MergeGroup? || IsManual(i.event)
        || i.event.PullRequest?)
    case BadProfile => i.profile !in Profiles(i.event)
    case BadDocsOnly => scope.docsOnly && !(i.event.PullRequest? || i.event.MergeGroup?)
    case BadMatrix =>
      (match i.matrix
       case NoMatrix => true
       case Malformed => true
       case Rows(rows) =>
         && i.profile in Profiles(i.event)
         && (i.routed.None? || (rows != i.routed.value && !(IsMainPush(i.event) && rows == []))))
    case BadRunners => RunnersRefused(i)
    case BadAlphaTag => i.alphaTag != NoTag && !IsAlpha(i)
  }

  predicate RunnersRefused(i: Inputs) {
    && !IsMainPush(i.event)
    && (i.runners.None? || RunnersOf(i.profile).None?
        || (i.runners != RunnersOf(i.profile) && !(i.event.PullRequest? && i.runners == Some([Linux]))))
  }

  predicate IsAlpha(i: Inputs) {
    IsManual(i.event) && i.alphaTag == AlphaVersion
  }

  /** `rust_route`. */
  predicate RustRequired(event: Event, scope: Scope) {
    var c := scope.classification;
    !IsMainPush(event) && !scope.docsOnly && (c.rust || c.platform || c.toolchain || c.ci)
  }

  predicate CacheRequired(event: Event, scope: Scope) {
    IsMainPush(event) && (scope.classification.toolchain || scope.classification.ci)
  }

  /** What the table depends on. */
  datatype Facts = Facts(
    tag: bool, mainPush: bool, queue: bool, manual: bool, pr: bool, mainProfile: bool, docsOnly: bool,
    release: bool, ci: bool, assessment: bool, rust: bool, cache: bool, runnersRefused: bool, linuxOnly: bool,
    alpha: bool, alphaRequested: bool, delivery: bool)

  function FactsOf(i: Inputs): Facts {
    var scope := ScopeOf(i.outputs);
    var c := scope.classification;
    Facts(IsTag(i.event), IsMainPush(i.event), i.event.MergeGroup?, IsManual(i.event), i.event.PullRequest?,
          i.profile == MainProfile, scope.docsOnly, c.release, c.ci, c.assessment, RustRequired(i.event, scope),
          CacheRequired(i.event, scope), RunnersRefused(i), i.runners == Some([Linux]), IsAlpha(i), i.alphaRequested,
          i.delivery)
  }

  /** The table, job by job: whether it must have succeeded; otherwise it must have been skipped. */
  predicate MustRun(f: Facts, job: Job) {
    var packaging := (f.release || f.ci) && (f.tag || f.manual);
    match job
    case ClassifyChanges => true
    case Guards => true
    case TestPython => !f.mainPush
    case BuildPythonProduct => !(f.mainPush || f.pr || f.docsOnly)
    case TestRust => f.rust
    case LintRust => f.rust
    case RustMedium => f.rust && f.pr
    case WindowsLint => f.rust && (f.queue || (f.manual && f.mainProfile))
    case WarmCache => f.cache
    case OsJobs => !f.mainPush && (f.runnersRefused || !f.linuxOnly)
    case BuildTools => packaging
    case PackageThin => packaging
    case Assessment => f.assessment && (f.tag || f.manual)
    case P0Proof => f.assessment && f.manual
    case ProbeBootstrap => packaging && f.manual && !f.alpha
    case PublishAssets => f.tag || f.alpha
    case SmokePlugin => f.tag || f.alpha
    case VerifyAssets => f.tag || f.alpha
    case AlphaJob => true
    case Foreign(_) => false
  }

  const VALIDATION := {ClassifyChanges, Guards, TestPython, BuildPythonProduct, TestRust, LintRust, RustMedium,
                       WindowsLint, WarmCache, OsJobs}
  const DELIVERY_ONLY := {BuildTools, PackageThin, Assessment, P0Proof, ProbeBootstrap, PublishAssets, SmokePlugin,
                          VerifyAssets}

  function Listed(f: Facts): set<Job> {
    if !f.delivery then VALIDATION
    else VALIDATION + DELIVERY_ONLY + (if f.alphaRequested then {AlphaJob} else {})
  }

  function Demanded(f: Facts, job: Job): Verdict {
    When(MustRun(f, job))
  }

  function When(required: bool): Verdict {
    if required then Success else Skipped
  }

  function TableOf(f: Facts, jobs: set<Job>): map<Job, Verdict> {
    map job | job in jobs :: Demanded(f, job)
  }

  /** What a green gate demands of each job. */
  function Expected(i: Inputs): map<Job, Verdict> {
    TableOf(FactsOf(i), Listed(FactsOf(i)))
  }

  lemma OneMoreJob(f: Facts, jobs: set<Job>, job: Job, required: bool)
    requires required == MustRun(f, job)
    ensures TableOf(f, jobs)[job := When(required)] == TableOf(f, jobs + {job})
  {
  }

  /** One update of `expected_results` for several jobs. */
  method ExpectAll(ghost f: Facts, ghost jobs: set<Job>, expected: map<Job, Verdict>, more: set<Job>, required: bool)
    returns (r: map<Job, Verdict>)
    requires expected == TableOf(f, jobs) && forall job <- more :: required == MustRun(f, job)
    ensures r == TableOf(f, jobs + more)
  {
    r := expected + map job | job in more :: When(required);
  }

  const ALWAYS_JOBS := {ClassifyChanges, Guards, TestPython}
  const RUST_JOBS := {TestRust, LintRust}
  const PACKAGE_JOBS := {BuildTools, PackageThin}
  const PUBLISH_JOBS := {PublishAssets, SmokePlugin, VerifyAssets}

  /** The updates of `expected_results` up to the routing of Rust. */
  method ExpectBasics(f: Facts) returns (expected: map<Job, Verdict>)
    ensures expected == TableOf(f, ALWAYS_JOBS + {BuildPythonProduct} + RUST_JOBS)
  {
    expected := map job | job in ALWAYS_JOBS :: Success;
    if f.mainPush {
      expected := expected[TestPython := Skipped];
    }
    assert expected == TableOf(f, ALWAYS_JOBS);
    expected := Expect(f, ALWAYS_JOBS, expected, BuildPythonProduct, !(f.mainPush || f.pr || f.docsOnly));
    expected := ExpectAll(f, ALWAYS_JOBS + {BuildPythonProduct}, expected, RUST_JOBS, f.rust);
  }

  /** One assignment of `expected_results`. */
  method Expect(ghost f: Facts, ghost jobs: set<Job>, expected: map<Job, Verdict>, job: Job, required: bool)
    returns (r: map<Job, Verdict>)
    requires expected == TableOf(f, jobs) && required == MustRun(f, job)
    ensures r == TableOf(f, jobs + {job})
  {
    r := expected[job := When(required)];
    OneMoreJob(f, jobs, job, required);
  }

  /** The updates for the other entries of the gate's own job. */
  method ExpectRunners(f: Facts) returns (expected: map<Job, Verdict>)
    ensures expected == TableOf(f, VALIDATION)
  {
    expected := ExpectBasics(f);
    ghost var jobs := ALWAYS_JOBS + {BuildPythonProduct} + RUST_JOBS;
    expected := Expect(f, jobs, expected, RustMedium, f.rust && f.pr);
    jobs := jobs + {RustMedium};
    expected := Expect(f, jobs, expected, WindowsLint, f.rust && (f.queue || (f.manual && f.mainProfile)));
    jobs := jobs + {WindowsLint};
    expected := Expect(f, jobs, expected, WarmCache, f.cache);
    jobs := jobs + {WarmCache};
    var os := if f.mainPush then false else if f.runnersRefused then true else !f.linuxOnly;
    expected := Expect(f, jobs, expected, OsJobs, os);
    assert jobs + {OsJobs} == VALIDATION;
  }

  /** The updates for packages and their assessment. */
  method ExpectPackages(f: Facts, ghost jobs: set<Job>, before: map<Job, Verdict>, packaging: bool)
    returns (expected: map<Job, Verdict>)
    requires before == TableOf(f, jobs) && packaging == ((f.release || f.ci) && (f.tag || f.manual))
    ensures expected == TableOf(f, jobs + PACKAGE_JOBS + {Assessment})
  {
    expected := ExpectAll(f, jobs, before, PACKAGE_JOBS, packaging);
    expected := Expect(f, jobs + PACKAGE_JOBS, expected, Assessment, f.assessment && (f.tag || f.manual));
  }

  /** The updates for the proof and the probe. */
  method ExpectProofs(f: Facts, ghost jobs: set<Job>, before: map<Job, Verdict>, packaging: bool)
    returns (expected: map<Job, Verdict>)
    requires before == TableOf(f, jobs) && packaging == ((f.release || f.ci) && (f.tag || f.manual))
    ensures expected == TableOf(f, jobs + {P0Proof} + {ProbeBootstrap})
  {
    expected := Expect(f, jobs, before, P0Proof, f.assessment && f.manual);
    expected := Expect(f, jobs + {P0Proof}, expected, ProbeBootstrap, packaging && f.manual && !f.alpha);
  }

  /** The updates for the delivery tail. */
  method ExpectDelivery(f: Facts, validation: map<Job, Verdict>) returns (expected: map<Job, Verdict>)
    requires validation == TableOf(f, VALIDATION)
    ensures expected == TableOf(f, VALIDATION + DELIVERY_ONLY)
  {
    var packaging := (f.release || f.ci) && (f.tag || f.manual);
    expected := ExpectPackages(f, VALIDATION, validation, packaging);
    ghost var jobs := VALIDATION + PACKAGE_JOBS + {Assessment};
    expected := ExpectProofs(f, jobs, expected, packaging);
    jobs := jobs + {P0Proof} + {ProbeBootstrap};
    expected := ExpectAll(f, jobs, expected, PUBLISH_JOBS, f.tag || f.alpha);
    assert jobs + PUBLISH_JOBS == VALIDATION + DELIVERY_ONLY;
  }

  lemma TakenOut(f: Facts, jobs: set<Job>, out: set<Job>)
    ensures TableOf(f, jobs) - out == TableOf(f, jobs - out)
  {
  }

  /** `expected_results`: one update after another, and for the gate's own job the delivery tail taken out again, give
      the table. */
  method ExpectedResults(i: Inputs) returns (expected: map<Job, Verdict>)
    ensures expected == Expected(i)
  {
    expected := ExpectByFacts(FactsOf(i));
  }

  method ExpectByFacts(f: Facts) returns (expected: map<Job, Verdict>)
    ensures expected == TableOf(f, Listed(f))
  {
    expected := ExpectRunners(f);
    expected := ExpectDelivery(f, expected);
    ghost var jobs := VALIDATION + DELIVERY_ONLY;
    if f.alphaRequested {
      expected := Expect(f, jobs, expected, AlphaJob, true);
      jobs := jobs + {AlphaJob};
    }
    if !f.delivery {
      expected := expected - (DELIVERY_ONLY + {AlphaJob});
      TakenOut(f, jobs, DELIVERY_ONLY + {AlphaJob});
      OnlyValidation(jobs);
    }
  }

  lemma OnlyValidation(jobs: set<Job>)
    requires VALIDATION <= jobs <= VALIDATION + DELIVERY_ONLY + {AlphaJob}
    ensures jobs - (DELIVERY_ONLY + {AlphaJob}) == VALIDATION
  {
  }

  const REASONS := {BadClassification, BadEvent, BadProfile, BadDocsOnly, BadMatrix, BadRunners, BadAlphaTag}

  function Invalid(i: Inputs): set<Reason> {
    set reason | reason in REASONS && IsInvalid(i, reason)
  }

  // ---------- The gate ----------

  /** A job whose result differs: what it was and what it had to be. `None` is a job outside the table. */
  type Difference = (Verdict, Option<Verdict>)

  function Actual(results: map<Job, Verdict>, job: Job): Verdict {
    if job in results then results[job] else Missing
  }

  predicate Differs(expected: map<Job, Verdict>, results: map<Job, Verdict>, job: Job) {
    if job in expected then Actual(results, job) != expected[job] else job in results
  }

  function DifferenceAt(expected: map<Job, Verdict>, results: map<Job, Verdict>, job: Job): Difference {
    (Actual(results, job), if job in expected then Some(expected[job]) else None)
  }

  /** One of the two loops of `evaluate_gate`, over the jobs in `jobs`. */
  method Compare(expected: map<Job, Verdict>, results: map<Job, Verdict>, jobs: set<Job>)
    returns (unexpected: map<Job, Difference>)
    ensures unexpected == map job | job in jobs && Differs(expected, results, job)
                            :: DifferenceAt(expected, results, job)
  {
    unexpected := map[];
    var rest := jobs;
    ghost var done: set<Job> := {};
    while rest != {}
      invariant done + rest == jobs
      invariant unexpected == map job | job in done && Differs(expected, results, job)
                                :: DifferenceAt(expected, results, job)
      decreases |rest|
    {
      var job :| job in rest;
      if Differs(expected, results, job) {
        unexpected := unexpected[job := DifferenceAt(expected, results, job)];
      }
      rest, done := rest - {job}, done + {job};
    }
    assert done == jobs;
  }

  predicate Accepted(i: Inputs, results: map<Job, Verdict>) {
    Invalid(i) == {} && results == Expected(i)
  }

  lemma NoDifferenceMeansEqual(expected: map<Job, Verdict>, results: map<Job, Verdict>)
    requires forall job <- expected :: expected[job] != Missing
    ensures (forall job :: job in expected.Keys + results.Keys ==> !Differs(expected, results, job))
            <==> results == expected
  {
    if forall job :: job in expected.Keys + results.Keys ==> !Differs(expected, results, job) {
      forall job | job in expected ensures job in results && results[job] == expected[job] {
        assert !Differs(expected, results, job);
      }
      forall job | job in results ensures job in expected {
        assert !Differs(expected, results, job);
      }
      assert results.Keys == expected.Keys;
    }
  }

  /** `evaluate_gate`: green exactly when no input is invalid and the results are the expected table, no job more. */
  method EvaluateGate(i: Inputs, results: map<Job, Verdict>)
    returns (invalid: set<Reason>, unexpected: map<Job, Difference>, ok: bool)
    ensures invalid == Invalid(i)
    ensures unexpected == map job | job in Expected(i).Keys + results.Keys && Differs(Expected(i), results, job)
                            :: DifferenceAt(Expected(i), results, job)
    ensures ok <==> Accepted(i, results)
  {
    var expected := ExpectedResults(i);
    invalid := Invalid(i);
    unexpected := Differences(expected, results);
    ok := invalid == {} && unexpected == map[];
  }

  method Differences(expected: map<Job, Verdict>, results: map<Job, Verdict>) returns (unexpected: map<Job, Difference>)
    requires forall job <- expected :: expected[job] != Missing
    ensures unexpected == map job | job in expected.Keys + results.Keys && Differs(expected, results, job)
                            :: DifferenceAt(expected, results, job)
    ensures unexpected == map[] <==> results == expected
  {
    var missing := Compare(expected, results, expected.Keys);
    var extra := Compare(expected, results, results.Keys - expected.Keys);
    unexpected := missing + extra;
    NoDifferenceMeansEqual(expected, results);
    assert forall job :: job in unexpected <==> job in expected.Keys + results.Keys && Differs(expected, results, job);
  }

  // ---------- What a green gate has run, event by event ----------

  /** A contour that has to be built or tested was touched, and the change is not prose. */
  predicate NeedsRust(scope: Scope) {
    var c := scope.classification;
    !scope.docsOnly && (c.rust || c.platform || c.toolchain || c.ci)
  }

  /** Pull requests: Python, and with Rust its tests, lint and medium run; the other runners only when asked for. */
  predicate PullRan(job: Job, rust: bool, others: bool) {
    match job
    case ClassifyChanges | Guards | TestPython => true
    case TestRust | LintRust | RustMedium => rust
    case OsJobs => others
    case _ => false
  }

  /** The queue: everything on Linux and the Windows lint, unless it is prose. */
  predicate QueueRan(job: Job, prose: bool) {
    match job
    case ClassifyChanges | Guards | TestPython => true
    case BuildPythonProduct | TestRust | LintRust | WindowsLint => !prose
    case _ => false
  }

  /** A push to the main branch: nothing but the cache. */
  predicate MainRan(job: Job, stale: bool) {
    match job
    case ClassifyChanges | Guards => true
    case WarmCache => stale
    case _ => false
  }

  /** A release line: every test. */
  predicate BranchRan(job: Job) {
    match job
    case ClassifyChanges | Guards | TestPython | BuildPythonProduct | TestRust | LintRust | OsJobs => true
    case _ => false
  }

  /** A tag: every test, and the delivery with its publication. */
  predicate TagRan(job: Job, delivery: bool) {
    match job
    case BuildTools | PackageThin | Assessment | PublishAssets | SmokePlugin | VerifyAssets => delivery
    case _ => BranchRan(job)
  }

  /** A manual or nightly run: every test, on the main profile the Windows lint too, and the delivery, which probes the
      missing assets or publishes an alpha. */
  predicate ManualRan(job: Job, mainProfile: bool, delivery: bool, alpha: bool) {
    match job
    case WindowsLint => mainProfile
    case BuildTools | PackageThin | Assessment | P0Proof => delivery
    case PublishAssets | SmokePlugin | VerifyAssets => delivery && alpha
    case ProbeBootstrap => delivery && !alpha
    case _ => BranchRan(job)
  }

  /** What a green gate has run. */
  predicate HasRun(i: Inputs, job: Job) {
    var scope := ScopeOf(i.outputs);
    if job == AlphaJob then i.delivery && i.alphaRequested
    else if i.event.PullRequest? then PullRan(job, NeedsRust(scope), i.runners != Some([Linux]))
    else if i.event.MergeGroup? then QueueRan(job, scope.docsOnly)
    else if IsMainPush(i.event) then MainRan(job, scope.classification.toolchain || scope.classification.ci)
    else if IsTag(i.event) then TagRan(job, i.delivery)
    else if IsManual(i.event) then ManualRan(job, i.profile == MainProfile, i.delivery, i.alphaTag == AlphaVersion)
    else BranchRan(job)
  }

  /** The profile that an event is judged by. */
  predicate ProfileFits(i: Inputs) {
    match i.profile
    case PrProfile => i.event.PullRequest?
    case QueueProfile => i.event.MergeGroup?
    case ReleaseProfile => IsTag(i.event)
    case LargeProfile => IsManual(i.event)
    case MainProfile => IsManual(i.event) || IsMainPush(i.event) || IsBranch(i.event)
    case OtherProfile => false
  }

  /** What a green gate was given: consistent outputs, all contours where nothing may be left out, the profile and the
      runners of the event, the routed Python suites, and an alpha tag only in a manual run. */
  lemma AcceptedInputs(i: Inputs, results: map<Job, Verdict>)
    requires Accepted(i, results)
    ensures Validated(i.outputs) && ProfileFits(i)
    ensures IsTag(i.event) || IsBranch(i.event) || IsManual(i.event) ==> ScopeOf(i.outputs).classification == FULL
    ensures i.event.MergeGroup? ==> ScopeOf(i.outputs).docsOnly || ScopeOf(i.outputs).classification == FULL
    ensures ScopeOf(i.outputs).docsOnly ==> i.event.PullRequest? || i.event.MergeGroup?
    ensures i.matrix.Rows? && (i.routed == Some(i.matrix.rows) || (IsMainPush(i.event) && i.matrix.rows == []))
    ensures i.event.PullRequest? ==> i.runners == Some([Linux, MacOs]) || i.runners == Some([Linux])
    ensures i.event.MergeGroup? ==> i.runners == Some([Linux])
    ensures IsTag(i.event) || IsBranch(i.event) ==> i.runners == Some([Linux, MacOs])
    ensures i.profile == LargeProfile ==> i.runners == Some([Linux, MacOs, Windows])
    ensures i.alphaTag == NoTag || (IsManual(i.event) && i.alphaTag == AlphaVersion)
  {
    NothingInvalid(i, BadClassification);
    NothingInvalid(i, BadEvent);
    NothingInvalid(i, BadProfile);
    NothingInvalid(i, BadDocsOnly);
    NothingInvalid(i, BadMatrix);
    NothingInvalid(i, BadRunners);
    NothingInvalid(i, BadAlphaTag);
    TagIsNotMain(i.event);
  }

  /** The facts of a valid input, event by event. */
  predicate FactsFit(i: Inputs, f: Facts) {
    var scope := ScopeOf(i.outputs);
    && f.delivery == i.delivery && f.alphaRequested == i.alphaRequested
    && f.tag == IsTag(i.event) && f.mainPush == IsMainPush(i.event) && f.queue == i.event.MergeGroup?
    && f.manual == IsManual(i.event) && f.pr == i.event.PullRequest? && f.mainProfile == (i.profile == MainProfile)
    && f.alpha == (f.manual && i.alphaTag == AlphaVersion) && !f.runnersRefused
    && f.cache == (f.mainPush && (scope.classification.toolchain || scope.classification.ci))
    && f.rust == (!f.mainPush && NeedsRust(scope))
    && (f.pr || f.queue ==> f.docsOnly == scope.docsOnly)
    && (!f.pr && !f.queue ==> !f.docsOnly)
    && (f.pr ==> f.linuxOnly == (i.runners == Some([Linux])))
    && (f.queue ==> f.linuxOnly && f.rust == !f.docsOnly)
    && (!f.pr && !f.queue && !f.mainPush ==> !f.linuxOnly && f.rust && f.release && f.ci && f.assessment)
  }

  lemma TagIsNotMain(event: Event)
    ensures !(IsTag(event) && IsMainPush(event)) && !(IsTag(event) && IsBranch(event))
  {
    MainIsHead();
    if event.Push? && "refs/tags/" <= event.ref {
      assert event.ref[5] == "refs/tags/"[5];
    }
    if event.Push? && "refs/heads/" <= event.ref {
      assert event.ref[5] == "refs/heads/"[5];
    }
  }

  lemma MainIsHead()
    ensures |MAIN| > 5 && MAIN[5] == 'h'
  {
    assert MAIN == ['r', 'e', 'f', 's', '/'] + ['h'] + "eads/main";
  }

  lemma ValidFactsFit(i: Inputs)
    requires Invalid(i) == {}
    ensures FactsFit(i, FactsOf(i))
  {
    NothingInvalid(i, BadClassification);
    NothingInvalid(i, BadEvent);
    NothingInvalid(i, BadProfile);
    NothingInvalid(i, BadDocsOnly);
    NothingInvalid(i, BadRunners);
    TagIsNotMain(i.event);
  }

  lemma NothingInvalid(i: Inputs, reason: Reason)
    requires Invalid(i) == {}
    ensures !IsInvalid(i, reason)
  {
    assert reason in REASONS;
    assert reason !in Invalid(i);
  }

  /** The same from the facts alone. */
  predicate RanBy(f: Facts, job: Job) {
    if job == AlphaJob then f.delivery && f.alphaRequested
    else if f.pr then PullRan(job, f.rust, !f.linuxOnly)
    else if f.queue then QueueRan(job, f.docsOnly)
    else if f.mainPush then MainRan(job, f.cache)
    else if f.tag then TagRan(job, f.delivery)
    else if f.manual then ManualRan(job, f.mainProfile, f.delivery, f.alpha)
    else BranchRan(job)
  }

  /** What `FactsFit` says without the input. */
  predicate FactsAgree(f: Facts) {
    && (f.pr ==> !f.queue && !f.mainPush && !f.tag && !f.manual)
    && (f.queue ==> !f.mainPush && !f.tag && !f.manual && f.linuxOnly && f.rust == !f.docsOnly)
    && (f.mainPush ==> !f.tag && !f.manual && !f.rust)
    && (f.tag ==> !f.manual)
    && (!f.mainPush ==> !f.cache) && (!f.manual ==> !f.alpha) && !f.runnersRefused
    && (!f.pr && !f.queue ==> !f.docsOnly)
    && (!f.pr && !f.queue && !f.mainPush ==> !f.linuxOnly && f.rust && f.release && f.ci && f.assessment)
  }

  lemma ListedJobs(f: Facts, job: Job)
    ensures job in Listed(f) <==>
              match job
              case BuildTools | PackageThin | Assessment | P0Proof | ProbeBootstrap => f.delivery
              case PublishAssets | SmokePlugin | VerifyAssets => f.delivery
              case AlphaJob => f.delivery && f.alphaRequested
              case Foreign(_) => false
              case _ => true
  {
  }

  lemma TableRuns(f: Facts, job: Job)
    requires FactsAgree(f)
    ensures RanBy(f, job) <==> job in Listed(f) && MustRun(f, job)
  {
    ListedJobs(f, job);
  }

  lemma RunsByFacts(i: Inputs)
    requires Invalid(i) == {}
    ensures FactsAgree(FactsOf(i)) && forall job :: HasRun(i, job) <==> RanBy(FactsOf(i), job)
  {
    ValidFactsFit(i);
    TagIsNotMain(i.event);
  }

  /** In every accepted run these jobs succeeded and all others were skipped; and the gate's own job is judged by
      exactly the entries that its steps give. */
  lemma AcceptedRuns(i: Inputs, results: map<Job, Verdict>)
    requires Accepted(i, results)
    ensures forall job :: HasRun(i, job) <==> job in results && results[job] == Success
    ensures forall job <- results :: !HasRun(i, job) ==> results[job] == Skipped
    ensures !i.delivery ==> results.Keys == (set entry | entry in ENTRIES) + {OsJobs}
  {
    RunsByFacts(i);
    TableDecides(FactsOf(i), results);
    OwnEntries();
  }

  lemma TableDecides(f: Facts, results: map<Job, Verdict>)
    requires FactsAgree(f) && results == TableOf(f, Listed(f))
    ensures forall job :: RanBy(f, job) <==> job in results && results[job] == Success
    ensures forall job <- results :: !RanBy(f, job) ==> results[job] == Skipped
    ensures !f.delivery ==> results.Keys == VALIDATION
  {
    forall job ensures RanBy(f, job) <==> job in Listed(f) && MustRun(f, job) {
      TableRuns(f, job);
    }
  }

  lemma OwnEntries()
    ensures VALIDATION == (set entry | entry in ENTRIES) + {OsJobs}
  {
  }

  // ---------- The classifier and the gate together ----------

  /** The inputs of the gate when the classifier wrote its outputs for this event. */
  function Routed(i: Inputs, trusted: bool, changes: seq<Change>): Inputs {
    i.(outputs := Emit(Decide(i.event, trusted, changes)))
  }

  lemma RoutedScope(i: Inputs, scope: Scope)
    requires i.outputs == Emit(scope) && Consistent(scope.classification, scope.docsOnly)
    ensures Validated(i.outputs) && ScopeOf(i.outputs) == scope
  {
    EmittedIsRead(scope);
  }

  lemma ScopePasses(i: Inputs, scope: Scope)
    requires i.outputs == Emit(scope) && Consistent(scope.classification, scope.docsOnly)
    requires scope.docsOnly ==> i.event.PullRequest? || i.event.MergeGroup?
    requires !Compared(i.event) ==> scope == Scope(FULL, false)
    requires i.event.MergeGroup? && !scope.docsOnly ==> scope.classification == FULL
    ensures BadClassification !in Invalid(i) && BadDocsOnly !in Invalid(i)
  {
    RoutedScope(i, scope);
    assert IsTag(i.event) ==> !Compared(i.event) by {
      if IsTag(i.event) {
        assert i.event.ref[5] == 't' && MAIN[5] == 'h';
      }
    }
  }

  /** Whatever the event and the changes, the gate finds no fault with what the classifier wrote. */
  lemma ClassifierPassesTheGate(i: Inputs, trusted: bool, changes: seq<Change>)
    ensures BadClassification !in Invalid(Routed(i, trusted, changes))
            && BadDocsOnly !in Invalid(Routed(i, trusted, changes))
    ensures ScopeOf(Routed(i, trusted, changes).outputs) == Decide(i.event, trusted, changes)
  {
    var scope := Decide(i.event, trusted, changes);
    EveryScopeIsConsistent(i.event, trusted, changes);
    DocsExactly(i.event, trusted, changes);
    FullWhenNeeded(KINDS, i.event, trusted, changes);
    RoutedScope(i.(outputs := Emit(scope)), scope);
    ScopePasses(i.(outputs := Emit(scope)), scope);
  }

  lemma AcceptedRust(i: Inputs, results: map<Job, Verdict>, scope: Scope)
    requires Accepted(i, results) && ScopeOf(i.outputs) == scope
    ensures TestRust in results && LintRust in results
    ensures results[TestRust] == results[LintRust] == if RustRequired(i.event, scope) then Success else Skipped
  {
    assert TestRust in Listed(FactsOf(i)) && LintRust in Listed(FactsOf(i));
  }

  /** A green gate has tested and linted every change of a Rust file, on every event but the push that the queue has
      already tested. */
  lemma RustChangesAreTested(i: Inputs, results: map<Job, Verdict>, trusted: bool, changes: seq<Change>, k: nat)
    requires k < |changes| && !IsMainPush(i.event)
    ensures Hits(changes[k].path, IsRustPath) && Accepted(Routed(i, trusted, changes), results) ==>
              TestRust in results && results[TestRust] == Success && LintRust in results && results[LintRust] == Success
  {
    if Hits(changes[k].path, IsRustPath) && Accepted(Routed(i, trusted, changes), results) {
      ClassifierPassesTheGate(i, trusted, changes);
      RustIsRouted(i.event, trusted, changes, k);
      AcceptedRust(Routed(i, trusted, changes), results, Decide(i.event, trusted, changes));
    }
  }

  /** The steps behind the Rust entries: all of the tests, all of the one place where Clippy ran, and on a pull request
      the medium run. */
  predicate RustIsProven(event: Event, steps: map<StepId, Verdict>) {
    && (event.PullRequest? ==> Succeeded(steps, [MediumStep]))
    && Succeeded(steps, [RustBuild, RustRun, Verify, RemovedTests])
    && ((Succeeded(steps, [Clippy]) && !Ran(steps, [LintJob]))
        || (Succeeded(steps, [LintJob]) && !Ran(steps, [Clippy])))
  }

  lemma GreenRustIsProven(event: Event, steps: map<StepId, Verdict>, results: map<Job, Verdict>)
    requires TestRust in results && results[TestRust] == Success && LintRust in results && results[LintRust] == Success
    requires event.PullRequest? ==> RustMedium in results && results[RustMedium] == Success && Green(steps, RustMedium)
    requires Green(steps, TestRust) && Green(steps, LintRust)
    ensures RustIsProven(event, steps)
  {
  }

  /** An accepted pull request with a change of a Rust file has run its medium tests. */
  lemma RustChangesRunMedium(i: Inputs, results: map<Job, Verdict>, trusted: bool, changes: seq<Change>, k: nat)
    requires k < |changes| && i.event.PullRequest?
    ensures Hits(changes[k].path, IsRustPath) && Accepted(Routed(i, trusted, changes), results) ==>
              RustMedium in results && results[RustMedium] == Success
  {
    if Hits(changes[k].path, IsRustPath) && Accepted(Routed(i, trusted, changes), results) {
      ClassifierPassesTheGate(i, trusted, changes);
      RustIsRouted(i.event, trusted, changes, k);
      MediumRan(Routed(i, trusted, changes), results, Decide(i.event, trusted, changes));
    }
  }

  lemma MediumRan(i: Inputs, results: map<Job, Verdict>, scope: Scope)
    requires Accepted(i, results) && ScopeOf(i.outputs) == scope && i.event.PullRequest?
    requires scope.classification.rust && !scope.docsOnly
    ensures RustMedium in results && results[RustMedium] == Success
  {
    AcceptedRuns(i, results);
    assert HasRun(i, RustMedium);
  }

  /** The classifier, the recorded steps and the gate together: when the gate is green, every step of the Rust tests and
      one whole Clippy place succeeded for every change of a Rust file, and on a pull request the medium run did. */
  method JudgeRun(i: Inputs, trusted: bool, changes: seq<Change>, steps: map<StepId, Verdict>,
                  osJobs: Option<seq<Verdict>>)
    returns (ok: bool)
    ensures ok && !IsMainPush(i.event) ==>
              forall k :: 0 <= k < |changes| && Hits(changes[k].path, IsRustPath) ==> RustIsProven(i.event, steps)
  {
    var scope := ClassifyEvent(i.event, trusted, changes);
    var results := ValidationResults(steps, osJobs);
    var invalid, unexpected;
    invalid, unexpected, ok := EvaluateGate(i.(outputs := Emit(scope)), results);
    if ok && !IsMainPush(i.event) {
      forall k | 0 <= k < |changes| && Hits(changes[k].path, IsRustPath) ensures RustIsProven(i.event, steps) {
        RustStepsSucceeded(i, results, trusted, changes, steps, k);
      }
    }
  }

  lemma RustStepsSucceeded(i: Inputs, results: map<Job, Verdict>, trusted: bool, changes: seq<Change>,
                           steps: map<StepId, Verdict>, k: nat)
    requires k < |changes| && !IsMainPush(i.event) && Hits(changes[k].path, IsRustPath)
    requires Accepted(Routed(i, trusted, changes), results)
    requires forall entry <- ENTRIES :: entry in results && (results[entry] == Success <==> Green(steps, entry))
    ensures RustIsProven(i.event, steps)
  {
    RustChangesAreTested(i, results, trusted, changes, k);
    if i.event.PullRequest? {
      RustChangesRunMedium(i, results, trusted, changes, k);
    }
    assert TestRust in ENTRIES && LintRust in ENTRIES && RustMedium in ENTRIES;
    GreenRustIsProven(i.event, steps, results);
  }

  /** A green merge group has run the Rust tests unless it is trusted and changes nothing but prose. */
  lemma QueueSkipsOnlyProse(i: Inputs, results: map<Job, Verdict>, trusted: bool, changes: seq<Change>)
    requires i.event.MergeGroup?
    ensures Accepted(Routed(i, trusted, changes), results) ==>
              TestRust in results && (results[TestRust] == Success <==> !(trusted && ProseOnly(changes)))
  {
    if Accepted(Routed(i, trusted, changes), results) {
      ClassifierPassesTheGate(i, trusted, changes);
      DocsExactly(i.event, trusted, changes);
      FullWhenNeeded(KINDS, i.event, trusted, changes);
      AcceptedQueue(Routed(i, trusted, changes), results, Decide(i.event, trusted, changes));
    }
  }

  lemma AcceptedQueue(i: Inputs, results: map<Job, Verdict>, scope: Scope)
    requires Accepted(i, results) && ScopeOf(i.outputs) == scope && i.event.MergeGroup?
    requires !scope.docsOnly ==> scope.classification == FULL
    ensures TestRust in results && (results[TestRust] == Success <==> !scope.docsOnly)
  {
    AcceptedRust(i, results, scope);
  }
}

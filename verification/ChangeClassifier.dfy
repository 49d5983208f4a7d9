/**
 `classify-workflow-changes.py`: which contours of the pipeline a list of changed paths touches, and when a pull
 request or a merge group may claim the documentation exception.
 */
module ChangeClassifier {
  import opened PosixPath

  // ---------- The path tables, by directory ----------

  const PROBE := "scripts/ci/fixtures/file-io-probe/"
  const SCRIPTS := "scripts/ci/"
  const TESTS := "tests/ci/"
  const PLUGIN := "plugins/unica/"
  const INFRASTRUCTURE := "crates/unica-coder/src/infrastructure/"
  const APPLICATION := "crates/unica-application/src/application/"
  const DOMAIN := "crates/unica-domain/src/"
  const INTERFACES := "crates/unica-coder/src/interfaces/"
  const WORKFLOWS := ".github/workflows/"

  const TOOLCHAIN_PATHS: set<string> := {
    "Cargo.toml",
    "Cargo.lock",
    "rust-toolchain",
    "rust-toolchain.toml",
    ".config/nextest.toml",
    ".config/python-sizes.toml"
  }

  const PACKAGE_PLUGIN: set<string> := {
    PLUGIN + ".claude-plugin/plugin.json",
    PLUGIN + ".codex-plugin/plugin.json",
    PLUGIN + ".zcode-plugin/plugin.json",
    PLUGIN + ".mcp.json",
    PLUGIN + "bootstrap/launch.sh",
    PLUGIN + "runtime-manifest.json",
    PLUGIN + "third-party/tools.lock.json",
    PLUGIN + "third-party/manifest.json"
  }

  const PACKAGE_SCRIPTS: set<string> := {
    SCRIPTS + "build-unica-tools.py",
    SCRIPTS + "check-tool-contracts.py",
    SCRIPTS + "package-unica-plugin.py",
    SCRIPTS + "package-unica-runtime.py",
    SCRIPTS + "probe-unica-wire.py",
    SCRIPTS + "release-assessment.py",
    SCRIPTS + "release-proof.py",
    SCRIPTS + "stage-unica-assessment-engine.py",
    SCRIPTS + "smoke-unica-bootstrap.py",
    SCRIPTS + "smoke-unica-mcp.py",
    SCRIPTS + "verify-release-assets.py"
  }

  const PACKAGE_OTHER: set<string> := {
    ".agents/plugins/marketplace.json",
    TESTS + "test_stage_unica_assessment_engine.py",
    TESTS + "test_release_assessment.py",
    TESTS + "test_release_proof.py"
  }

  const PACKAGE_PATHS: set<string> := PACKAGE_PLUGIN + PACKAGE_SCRIPTS + PACKAGE_OTHER

  const CI_CONTRACT_SCRIPTS: set<string> := {
    SCRIPTS + "check-component-boundaries.py",
    SCRIPTS + "check-crate-read-boundary.py",
    SCRIPTS + "check-discovered-modules-format.py",
    SCRIPTS + "workflow_routing.py",
    SCRIPTS + "classify-workflow-changes.py",
    SCRIPTS + "evaluate-ci-gate.py",
    SCRIPTS + "run-tests.py",
    SCRIPTS + "ci_rust_lanes.py",
    SCRIPTS + "prepared_binary.py",
    SCRIPTS + "ci_shadow_selector.py",
    SCRIPTS + "rust_inventory_baseline.py",
    SCRIPTS + "removed_tests.py",
    SCRIPTS + "await_os_jobs.py",
    SCRIPTS + "background_step.py",
    SCRIPTS + "clippy.sh",
    SCRIPTS + "run-unittest.py",
    SCRIPTS + "allure_results.py",
    SCRIPTS + "collect-results.py",
    SCRIPTS + "nightly-decide.py",
    SCRIPTS + "release-alpha.py",
    SCRIPTS + "resolve-line.py"
  }

  const CI_CONTRACT_TESTS: set<string> := {
    TESTS + "test_component_boundaries.py",
    TESTS + "test_crate_read_boundary.py",
    TESTS + "test_discovered_modules_format.py",
    TESTS + "test_removed_tests.py",
    TESTS + "test_await_os_jobs.py",
    TESTS + "test_background_step.py",
    TESTS + "test_ci_rust_lanes.py",
    TESTS + "test_rust_inventory_baseline.py",
    TESTS + "test_ci_prepared_binary.py",
    TESTS + "test_ci_shadow_selector.py",
    TESTS + "test_run_tests.py",
    TESTS + "test_gate_profiles.py",
    TESTS + "test_release_alpha.py",
    TESTS + "test_nightly_decide.py",
    TESTS + "test_resolve_line.py",
    TESTS + "test_python_sizes.py",
    TESTS + "test_research_policy.py",
    TESTS + "test_allure_results.py",
    TESTS + "test_collect_results.py",
    TESTS + "test_scope_skips.py",
    TESTS + "test_classify_workflow_changes.py",
    TESTS + "test_evaluate_ci_gate.py",
    TESTS + "test_unica_workflow.py"
  }

  const CI_CONTRACT_OTHER: set<string> := {
    "scripts/dev/install-local-unica.sh"
  }

  const CI_CONTRACT_PATHS: set<string> := CI_CONTRACT_SCRIPTS + CI_CONTRACT_TESTS + CI_CONTRACT_OTHER

  const PLATFORM_CONTRACT_PATHS: set<string> := {
    SCRIPTS + "check-rust-platform-boundary.py",
    TESTS + "test_rust_platform_boundary.py",
    SCRIPTS + "check-file-io-methods.py",
    TESTS + "test_file_io_methods.py",
    ".config/clippy/file-io-free/clippy.toml",
    PROBE + "Cargo.toml",
    PROBE + "Cargo.lock",
    PROBE + "src/lib.rs"
  }

  const PLATFORM_SOURCE_PATHS: set<string> := {
    INFRASTRUCTURE + "native_operations/logical_selector.rs",
    INFRASTRUCTURE + "path_policy.rs",
    INFRASTRUCTURE + "platform_xml_owner.rs",
    INFRASTRUCTURE + "platform_xml_source_targets.rs",
    INFRASTRUCTURE + "source_roots.rs",
    INFRASTRUCTURE + "support_state.rs"
  }

  const SEARCH_INTEGRATION_APPLICATION: set<string> := {
    APPLICATION + "code_intelligence.rs",
    APPLICATION + "mod.rs",
    APPLICATION + "operational_config.rs",
    APPLICATION + "ports.rs",
    APPLICATION + "source_navigation.rs",
    APPLICATION + "tool_contracts.rs"
  }

  const SEARCH_INTEGRATION_INFRASTRUCTURE: set<string> := {
    INFRASTRUCTURE + "application_ports.rs",
    INFRASTRUCTURE + "code_intelligence.rs",
    INFRASTRUCTURE + "internal_adapters.rs",
    INFRASTRUCTURE + "operational_config.rs",
    INFRASTRUCTURE + "platform/process.rs",
    INFRASTRUCTURE + "platform_xml_source_targets.rs",
    INFRASTRUCTURE + "source_roots.rs",
    INFRASTRUCTURE + "workspace_services.rs"
  }

  const SEARCH_INTEGRATION_OTHER: set<string> := {
    DOMAIN + "code_intelligence.rs",
    DOMAIN + "operational_config.rs",
    DOMAIN + "source_location.rs",
    INTERFACES + "mcp.rs"
  }

  const SEARCH_INTEGRATION_PATHS: set<string> :=
    SEARCH_INTEGRATION_APPLICATION + SEARCH_INTEGRATION_INFRASTRUCTURE + SEARCH_INTEGRATION_OTHER

  const ASSESSMENT_SCRIPTS: set<string> := {
    SCRIPTS + "workflow_routing.py",
    SCRIPTS + "build-unica-tools.py",
    SCRIPTS + "classify-workflow-changes.py",
    SCRIPTS + "evaluate-ci-gate.py",
    SCRIPTS + "package-unica-plugin.py",
    SCRIPTS + "package-unica-runtime.py",
    SCRIPTS + "probe-unica-wire.py",
    SCRIPTS + "release-assessment.py",
    SCRIPTS + "release-proof.py",
    SCRIPTS + "stage-unica-assessment-engine.py",
    SCRIPTS + "verify-release-assets.py"
  }

  const ASSESSMENT_TESTS: set<string> := {
    TESTS + "test_stage_unica_assessment_engine.py",
    TESTS + "test_classify_workflow_changes.py",
    TESTS + "test_evaluate_ci_gate.py",
    TESTS + "test_release_assessment.py",
    TESTS + "test_release_proof.py",
    TESTS + "test_unica_workflow.py"
  }

  const ASSESSMENT_OTHER: set<string> := {
    WORKFLOWS + "release.yml",
    INFRASTRUCTURE + "plugin_runtime.rs",
    PLUGIN + "third-party/tools.lock.json"
  }

  const ASSESSMENT_PATHS: set<string> := ASSESSMENT_SCRIPTS + ASSESSMENT_TESTS + ASSESSMENT_OTHER

  const VENDORED_TOOLCHAIN: set<string> := {
    "vendor/ureq/Cargo.toml", "vendor/ureq/Cargo.lock", "vendor/ureq/.config/nextest.toml"
  }

  const PROSE_PATHS: set<string> := {
    "README.md", "CONTRIBUTING.md", "CODE_OF_CONDUCT.md", "AGENTS.md", "AI_DEV.md",
    "docs/acceptance-scenarios.md", "docs/internal-package.md", "docs/release-runbook.md",
    "docs/visual-kit/README.md"
  }

  // ---------- Normalized paths ----------

  /** `str.isspace`. */
  predicate IsSpace(c: char) {
    || '\U{9}' <= c <= '\U{d}' || '\U{1c}' <= c <= '\U{20}' || c == '\U{85}' || c == '\U{a0}' || c == '\U{1680}'
    || '\U{2000}' <= c <= '\U{200a}' || c == '\U{2028}' || c == '\U{2029}' || c == '\U{202f}' || c == '\U{205f}'
    || c == '\U{3000}'
  }

  function Strip(text: string): string {
    if text == "" then ""
    else if IsSpace(text[0]) then Strip(text[1..])
    else if IsSpace(text[|text| - 1]) then Strip(text[..|text| - 1])
    else text
  }

  function Slashes(text: string): (r: string)
    ensures |r| == |text| && forall i :: 0 <= i < |r| ==> r[i] == if text[i] == '\\' then '/' else text[i]
  {
    if text == "" then "" else [if text[0] == '\\' then '/' else text[0]] + Slashes(text[1..])
  }

  function DropDots(path: string): string {
    if "./" <= path then DropDots(path[2..]) else path
  }

  /** `normalize_path`. */
  function Normalize(path: string): string {
    DropDots(Slashes(Strip(path)))
  }

  lemma {:induction false} DotsAreDropped(path: string)
    ensures !("./" <= DropDots(path)) && (forall c <- DropDots(path) :: c in path)
    decreases |path|
  {
    if "./" <= path {
      DotsAreDropped(path[2..]);
    }
  }

  /** A normal path has no backslash and no leading `./`, ... */
  lemma NormalIsClean(path: string)
    ensures '\\' !in Normalize(path) && !("./" <= Normalize(path))
  {
    DotsAreDropped(Slashes(Strip(path)));
  }

  /** ... blanks around a path make no difference, ... */
  lemma BlanksAreIgnored(path: string)
    ensures Normalize(" " + path) == Normalize(path) && Normalize(path + " ") == Normalize(path)
  {
    assert (" " + path)[1..] == path;
    TrailingBlank(path);
  }

  /** ... and neither does a leading `./`. */
  lemma DotIsIgnored(path: string)
    requires Strip(path) == path && path != ""
    ensures Normalize("./" + path) == Normalize(path)
  {
    StripKeeps(path);
    StripDotted(path);
    SlashesAfterDot(path);
    assert DropDots("./" + Slashes(path)) == DropDots(Slashes(path));
  }

  lemma StripDotted(path: string)
    requires path != "" && !IsSpace(path[|path| - 1])
    ensures Strip("./" + path) == "./" + path
  {
    var dotted := "./" + path;
    assert dotted[0] == '.' && dotted[|dotted| - 1] == path[|path| - 1];
  }

  lemma SlashesAfterDot(path: string)
    ensures Slashes("./" + path) == "./" + Slashes(path) && ("./" + Slashes(path))[2..] == Slashes(path)
  {
    assert forall i :: 0 <= i < |path| ==> ("./" + path)[i + 2] == path[i];
  }

  lemma {:induction false} StripKeeps(text: string)
    ensures |Strip(text)| <= |text|
    ensures Strip(text) == text && text != "" ==> !IsSpace(text[0]) && !IsSpace(text[|text| - 1])
    decreases |text|
  {
    if text != "" {
      StripKeeps(text[1..]);
      StripKeeps(text[..|text| - 1]);
    }
  }

  lemma {:induction false} TrailingBlank(text: string)
    ensures Strip(text + " ") == Strip(text)
    decreases |text|
  {
    var longer := text + " ";
    if text == "" {
      assert longer[1..] == "";
    } else if IsSpace(text[0]) {
      assert longer[1..] == text[1..] + " ";
      TrailingBlank(text[1..]);
    } else {
      assert longer[..|longer| - 1] == text;
    }
  }

  // ---------- The contours of one path ----------

  predicate IsRustPath(path: string) {
    |Parts(path)| >= 2 && (Parts(path)[0] == "crates" || "vendor/ureq/" <= path) && Suffix(Name(path)) == ".rs"
  }

  predicate IsToolchainPath(path: string) {
    || path in TOOLCHAIN_PATHS
    || path in VENDORED_TOOLCHAIN
    || ".cargo/" <= path
    || (|Parts(path)| >= 3 && Parts(path)[0] == "crates" && Name(path) == "Cargo.toml")
  }

  predicate IsPlatformPath(path: string) {
    var parts := Parts(path);
    || path in PLATFORM_CONTRACT_PATHS
    || path in PLATFORM_SOURCE_PATHS
    || INFRASTRUCTURE + "platform/" <= path
    || "crates/unica-bootstrap/src/platform/" <= path
    || (|parts| >= 5 && parts[0] == "crates" && parts[2] == "tests" && parts[3] == "platform")
    || (|parts| == 4 && parts[0] == "crates" && parts[2] == "tests" && "platform_" <= Name(path))
  }

  predicate IsCiContractPath(path: string) {
    WORKFLOWS <= path || path in CI_CONTRACT_PATHS || path in PLATFORM_CONTRACT_PATHS
  }

  predicate IsSearchPath(path: string) {
    || path in SEARCH_INTEGRATION_PATHS
    || (IsRustPath(path)
        && ("crates/unica-code-intelligence/" <= path || "crates/unica-configuration/" <= path
            || "crates/unica-source-contract/" <= path))
    || IsToolchainPath(path)
  }

  predicate IsPackagePath(path: string) {
    path in PACKAGE_PATHS || IsToolchainPath(path)
  }

  predicate IsPluginPath(path: string) {
    PLUGIN <= path
  }

  predicate IsAssessmentPath(path: string) {
    path in ASSESSMENT_PATHS
  }

  // ---------- The classification ----------

  datatype Classification = Classification(
    rust: bool, platform: bool, toolchain: bool, search: bool, package: bool, pluginContent: bool, ci: bool,
    release: bool, assessment: bool)

  const FULL := Classification(true, true, true, true, true, true, true, true, true)

  /** Some of the paths, normalized and not empty, is of the kind. */
  predicate Touches(paths: seq<string>, kind: string -> bool) {
    exists i | 0 <= i < |paths| :: Hits(paths[i], kind)
  }

  predicate Hits(raw: string, kind: string -> bool) {
    Normalize(raw) != "" && kind(Normalize(raw))
  }

  /** Some of the first `n` paths hits; what a flag of the loop says after `n` turns. */
  predicate HitBefore(paths: seq<string>, n: nat, kind: string -> bool)
    requires n <= |paths|
  {
    n > 0 && (HitBefore(paths, n - 1, kind) || Hits(paths[n - 1], kind))
  }

  lemma {:induction false} HitBeforeMeans(paths: seq<string>, n: nat, kind: string -> bool)
    requires n <= |paths|
    ensures HitBefore(paths, n, kind) <==> exists i | 0 <= i < n :: Hits(paths[i], kind)
  {
    if n > 0 {
      HitBeforeMeans(paths, n - 1, kind);
    }
  }

  /** The questions that the loop asks of a path. */
  datatype Kinds = Kinds(
    rust: string -> bool, platform: string -> bool, toolchain: string -> bool, search: string -> bool,
    package: string -> bool, pluginContent: string -> bool, ci: string -> bool, assessment: string -> bool)

  const KINDS := Kinds(IsRustPath, IsPlatformPath, IsToolchainPath, IsSearchPath, IsPackagePath, IsPluginPath,
                       IsCiContractPath, IsAssessmentPath)

  /** What `classify_paths` says of the paths, contour by contour. */
  function ClassifiedBy(kinds: Kinds, paths: seq<string>): Classification {
    var platform, toolchain := Touches(paths, kinds.platform), Touches(paths, kinds.toolchain);
    var rust := Touches(paths, kinds.rust) || platform || toolchain;
    var search, package := Touches(paths, kinds.search), Touches(paths, kinds.package);
    Classification(rust, platform, toolchain, search, package, Touches(paths, kinds.pluginContent),
                   Touches(paths, kinds.ci), rust || package, Touches(paths, kinds.assessment) || search)
  }

  function Classified(paths: seq<string>): Classification {
    ClassifiedBy(KINDS, paths)
  }

  /** The flags of the loop: what the first `n` paths touch. */
  predicate FlagsOf(kinds: Kinds, flags: Classification, paths: seq<string>, n: nat)
    requires n <= |paths|
  {
    && flags.rust == HitBefore(paths, n, kinds.rust)
    && flags.platform == HitBefore(paths, n, kinds.platform)
    && flags.toolchain == HitBefore(paths, n, kinds.toolchain)
    && flags.search == HitBefore(paths, n, kinds.search)
    && flags.package == HitBefore(paths, n, kinds.package)
    && flags.pluginContent == HitBefore(paths, n, kinds.pluginContent)
    && flags.ci == HitBefore(paths, n, kinds.ci)
    && flags.assessment == HitBefore(paths, n, kinds.assessment)
  }

  /** One turn of the loop. */
  function AddPath(kinds: Kinds, flags: Classification, raw: string): Classification {
    var path := Normalize(raw);
    if path == "" then flags
    else Classification(
      flags.rust || kinds.rust(path), flags.platform || kinds.platform(path), flags.toolchain || kinds.toolchain(path),
      flags.search || kinds.search(path), flags.package || kinds.package(path),
      flags.pluginContent || kinds.pluginContent(path), flags.ci || kinds.ci(path), flags.release,
      flags.assessment || kinds.assessment(path))
  }

  lemma AddPathKeeps(kinds: Kinds, flags: Classification, paths: seq<string>, i: nat)
    requires i < |paths| && FlagsOf(kinds, flags, paths, i)
    ensures FlagsOf(kinds, AddPath(kinds, flags, paths[i]), paths, i + 1)
  {
  }

  method CollectFlags(kinds: Kinds, paths: seq<string>) returns (flags: Classification)
    ensures FlagsOf(kinds, flags, paths, |paths|) && !flags.release
  {
    flags := Classification(false, false, false, false, false, false, false, false, false);
    var i := 0;
    while i < |paths|
      invariant 0 <= i <= |paths| && FlagsOf(kinds, flags, paths, i) && !flags.release
    {
      AddPathKeeps(kinds, flags, paths, i);
      flags := AddPath(kinds, flags, paths[i]);
      i := i + 1;
    }
  }

  lemma AllFlagsMean(kinds: Kinds, flags: Classification, paths: seq<string>)
    requires FlagsOf(kinds, flags, paths, |paths|)
    ensures ClassifiedBy(kinds, paths) == Derived(flags)
  {
    HitBeforeMeans(paths, |paths|, kinds.rust);
    HitBeforeMeans(paths, |paths|, kinds.platform);
    HitBeforeMeans(paths, |paths|, kinds.toolchain);
    HitBeforeMeans(paths, |paths|, kinds.search);
    HitBeforeMeans(paths, |paths|, kinds.package);
    HitBeforeMeans(paths, |paths|, kinds.pluginContent);
    HitBeforeMeans(paths, |paths|, kinds.ci);
    HitBeforeMeans(paths, |paths|, kinds.assessment);
  }

  /** The contours that follow from others, after the loop. */
  function Derived(flags: Classification): Classification {
    var rust := flags.rust || flags.platform || flags.toolchain;
    flags.(rust := rust, assessment := flags.assessment || flags.search, release := rust || flags.package)
  }

  method ClassifyBy(kinds: Kinds, paths: seq<string>) returns (r: Classification)
    ensures r == ClassifiedBy(kinds, paths)
  {
    var flags := CollectFlags(kinds, paths);
    AllFlagsMean(kinds, flags, paths);
    r := Derived(flags);
  }

  method ClassifyPathsBy(kinds: Kinds, paths: seq<string>, forceFull: bool) returns (r: Classification)
    ensures r == if forceFull then FULL else ClassifiedBy(kinds, paths)
  {
    if forceFull {
      r := FULL;
    } else {
      r := ClassifyBy(kinds, paths);
    }
  }

  /** `classify_paths`. */
  method ClassifyPaths(paths: seq<string>, forceFull: bool) returns (r: Classification)
    ensures r == if forceFull then FULL else Classified(paths)
  {
    r := ClassifyPathsBy(KINDS, paths, forceFull);
  }

  // ---------- Prose ----------

  /** `is_prose_path`. */
  predicate IsProsePath(path: string) {
    && Str(path) == path && Root(path) == "" && ".." !in Parts(path)
    && '\\' !in path && (forall i :: 0 <= i < |path| ==> path[i] >= ' ')
    && (path in PROSE_PATHS || ("arch/" <= path && Suffix(Name(path)) == ".md"))
  }

  /** A prose path is relative and printed as it is written, without a way up, a backslash or a control character, and
      names a Markdown file: one of the listed ones or one under `arch`. */
  lemma ProseIsPlain(path: string)
    requires IsProsePath(path)
    ensures path != "" && path[0] != '/' && Str(path) == path && ".." !in Parts(path)
    ensures forall c <- path :: c != '\\' && c >= ' '
    ensures path in PROSE_PATHS || ("arch/" <= path && Suffix(Name(path)) == ".md")
  {
  }

  predicate Last(path: string, c: char) {
    |path| > 0 && path[|path| - 1] == c
  }

  /** How a prose path looks from both ends; no routed file and no routed directory looks so. */
  predicate LooksLikeProse(path: string) {
    Last(path, 'd') && path[0] in {'R', 'C', 'A', 'd', 'a'}
  }

  lemma ListedProseLooksSo(path: string)
    requires path in PROSE_PATHS
    ensures LooksLikeProse(path)
  {
  }

  lemma ProseLooksSo(path: string)
    ensures IsProsePath(path) ==> LooksLikeProse(path) && Tail(path) != [] && Parts(path)[0] != "crates"
  {
    if IsProsePath(path) {
      ProseEnds(path);
    }
  }

  lemma ProseEnds(path: string)
    requires Str(path) == path && Root(path) == ""
             && (path in PROSE_PATHS || ("arch/" <= path && Suffix(Name(path)) == ".md"))
    ensures LooksLikeProse(path) && Tail(path) != [] && Parts(path)[0] != "crates"
  {
    assert path != "." by {
      if path in PROSE_PATHS {
        ListedProseLooksSo(path);
      }
    }
    CanonicalEnds(path);
    if path in PROSE_PATHS {
      ListedProseLooksSo(path);
    } else {
      var name := Name(path);
      assert name[|name| - 1] == Suffix(name)[2] == 'd';
      assert path[0] == "arch/"[0];
    }
  }

  lemma NormalProse(path: string)
    requires LooksLikeProse(path) && '\\' !in path
    ensures Normalize(path) == path
  {
    assert !IsSpace(path[0]) && !IsSpace(path[|path| - 1]);
    assert Strip(path) == path;
    assert Slashes(path) == path;
    assert !("./" <= path);
  }

  // None of the tables names a file that ends in 'd'.

  lemma ToolchainHasNoProse(path: string)
    requires Last(path, 'd')
    ensures path !in TOOLCHAIN_PATHS && path !in VENDORED_TOOLCHAIN
  {
  }

  lemma PackageHasNoProse(path: string)
    requires Last(path, 'd')
    ensures path !in PACKAGE_PATHS
  {
  }

  lemma CiContractHasNoProse(path: string)
    requires Last(path, 'd')
    ensures path !in CI_CONTRACT_PATHS
  {
    CiScriptsHaveNoProse(path);
    CiTestsHaveNoProse(path);
  }

  lemma CiScriptsHaveNoProse(path: string)
    requires Last(path, 'd')
    ensures path !in CI_CONTRACT_SCRIPTS && path !in CI_CONTRACT_OTHER
  {
  }

  lemma CiTestsHaveNoProse(path: string)
    requires Last(path, 'd')
    ensures path !in CI_CONTRACT_TESTS
  {
  }

  lemma PlatformHasNoProse(path: string)
    requires Last(path, 'd')
    ensures path !in PLATFORM_CONTRACT_PATHS && path !in PLATFORM_SOURCE_PATHS
  {
  }

  lemma SearchHasNoProse(path: string)
    requires Last(path, 'd')
    ensures path !in SEARCH_INTEGRATION_PATHS
  {
  }

  lemma AssessmentHasNoProse(path: string)
    requires Last(path, 'd')
    ensures path !in ASSESSMENT_PATHS
  {
  }

  lemma NotUnder(path: string, dir: string)
    requires LooksLikeProse(path) && |dir| > 0 && dir[0] !in {'R', 'C', 'A', 'd', 'a'}
    ensures !(dir <= path)
  {
  }

  lemma ProseIsNotSource(path: string)
    requires LooksLikeProse(path) && Tail(path) != [] && Parts(path)[0] != "crates"
    ensures !IsRustPath(path) && !IsToolchainPath(path)
  {
    NotUnder(path, "vendor/ureq/");
    NotUnder(path, ".cargo/");
    ToolchainHasNoProse(path);
  }

  lemma ProseIsNotPlatform(path: string)
    requires LooksLikeProse(path) && Tail(path) != [] && Parts(path)[0] != "crates"
    ensures !IsPlatformPath(path)
  {
    PlatformHasNoProse(path);
    NotUnder(path, INFRASTRUCTURE + "platform/");
    NotUnder(path, "crates/unica-bootstrap/src/platform/");
  }

  lemma ProseIsNotCi(path: string)
    requires LooksLikeProse(path)
    ensures !IsCiContractPath(path) && !IsPluginPath(path)
  {
    PlatformHasNoProse(path);
    CiContractHasNoProse(path);
    NotUnder(path, WORKFLOWS);
    NotUnder(path, PLUGIN);
  }

  /** Some contour claims the path. */
  predicate Claimed(path: string) {
    || IsRustPath(path) || IsPlatformPath(path) || IsToolchainPath(path) || IsSearchPath(path) || IsPackagePath(path)
    || IsPluginPath(path) || IsCiContractPath(path) || IsAssessmentPath(path)
  }

  /** A prose path is normal, and no contour claims it. */
  lemma ProseIsUnclaimed(path: string)
    ensures IsProsePath(path) ==> Normalize(path) == path && !Claimed(path)
  {
    ProseLooksSo(path);
    if IsProsePath(path) {
      NormalProse(path);
      ProseIsNotSource(path);
      ProseIsNotPlatform(path);
      ProseIsNotCi(path);
      SearchHasNoProse(path);
      PackageHasNoProse(path);
      AssessmentHasNoProse(path);
    }
  }

  // ---------- What the contours owe each other ----------

  predicate LooksLikeRust(path: string) {
    "crates/" <= path && |path| > 11 && EndsWith(path, ".rs") && path[|path| - 4] != '/'
  }

  lemma RustLooksSo(path: string)
    requires LooksLikeRust(path)
    ensures IsRustPath(path)
  {
    var rest, end := path[7..], path[|path| - 4..];
    assert path == "crates" + "/" + rest;
    assert end[1..] == ".rs" && rest[|rest| - 4..] == end;
    FileUnder("crates", rest, end);
  }

  lemma ApplicationSearchIsRust(path: string)
    requires path in SEARCH_INTEGRATION_APPLICATION
    ensures LooksLikeRust(path)
  {
  }

  lemma InfrastructureSearchIsRust(path: string)
    requires path in SEARCH_INTEGRATION_INFRASTRUCTURE
    ensures LooksLikeRust(path)
  {
  }

  lemma OtherSearchIsRust(path: string)
    requires path in SEARCH_INTEGRATION_OTHER
    ensures LooksLikeRust(path)
  {
  }

  lemma SearchIsBuilt(path: string)
    requires IsSearchPath(path)
    ensures IsRustPath(path) || IsToolchainPath(path)
  {
    if path in SEARCH_INTEGRATION_PATHS {
      if path in SEARCH_INTEGRATION_APPLICATION {
        ApplicationSearchIsRust(path);
      } else if path in SEARCH_INTEGRATION_INFRASTRUCTURE {
        InfrastructureSearchIsRust(path);
      } else {
        OtherSearchIsRust(path);
      }
      RustLooksSo(path);
    }
  }

  const PLUGIN_RUNTIME := INFRASTRUCTURE + "plugin_runtime.rs"

  lemma AssessmentIsListed(path: string)
    requires path in ASSESSMENT_PATHS
    ensures path in PACKAGE_PATHS || path in CI_CONTRACT_PATHS || path == WORKFLOWS + "release.yml"
            || path == PLUGIN_RUNTIME
  {
  }

  lemma PluginRuntimeIsRust()
    ensures IsRustPath(PLUGIN_RUNTIME)
  {
    assert LooksLikeRust(PLUGIN_RUNTIME);
    RustLooksSo(PLUGIN_RUNTIME);
  }

  /** A path of the assessment contour is packaged, built from Rust, or part of the pipeline itself. */
  lemma AssessmentIsRouted(path: string)
    requires IsAssessmentPath(path)
    ensures IsPackagePath(path) || IsRustPath(path) || IsCiContractPath(path)
  {
    AssessmentIsListed(path);
    if path == PLUGIN_RUNTIME {
      PluginRuntimeIsRust();
    }
  }

  /** What the gate demands of a classification (`_validated_classification`). */
  predicate Consistent(c: Classification, docsOnly: bool) {
    && (docsOnly ==> c == NOTHING)
    && (c.platform ==> c.rust || c.ci)
    && (c.toolchain ==> c.rust && c.package && c.release)
    && (c.package ==> c.release)
    && (c.assessment ==> c.release || c.ci)
  }

  const NOTHING := Classification(false, false, false, false, false, false, false, false, false)

  lemma TouchesMore(paths: seq<string>, a: string -> bool, b: string -> bool, c: string -> bool, d: string -> bool)
    requires forall path :: a(path) ==> b(path) || c(path) || d(path)
    ensures Touches(paths, a) ==> Touches(paths, b) || Touches(paths, c) || Touches(paths, d)
  {
    if Touches(paths, a) {
      var i :| 0 <= i < |paths| && Hits(paths[i], a);
      assert Hits(paths[i], b) || Hits(paths[i], c) || Hits(paths[i], d);
    }
  }

  /** The demands between contours hold for any list of paths. */
  lemma ClassifiedIsConsistent(paths: seq<string>)
    ensures Consistent(Classified(paths), false)
  {
    forall path | IsSearchPath(path) ensures IsRustPath(path) || IsToolchainPath(path) || IsToolchainPath(path) {
      SearchIsBuilt(path);
    }
    forall path | IsAssessmentPath(path) ensures IsPackagePath(path) || IsRustPath(path) || IsCiContractPath(path) {
      AssessmentIsRouted(path);
    }
    TouchesMore(paths, IsSearchPath, IsRustPath, IsToolchainPath, IsToolchainPath);
    TouchesMore(paths, IsAssessmentPath, IsPackagePath, IsRustPath, IsCiContractPath);
    TouchesMore(paths, IsToolchainPath, IsPackagePath, IsPackagePath, IsPackagePath);
  }

  /** Prose touches no contour at all. */
  lemma ProseTouchesNothing(paths: seq<string>)
    requires forall path <- paths :: IsProsePath(path)
    ensures Classified(paths) == NOTHING
  {
    forall i | 0 <= i < |paths| ensures Normalize(paths[i]) == paths[i] && !Claimed(paths[i]) {
      ProseIsUnclaimed(paths[i]);
    }
  }

  // ---------- The event ----------

  datatype Change = Change(path: string, status: string, oldMode: string, newMode: string)

  datatype Event = PullRequest | MergeGroup | Push(ref: string) | Dispatch | Schedule | OtherEvent(name: string)

  datatype Scope = Scope(classification: Classification, docsOnly: bool)

  const PLAIN := "100644"
  const ABSENT := "000000"

  /** `prose_only`. */
  predicate ProseOnly(changes: seq<Change>) {
    changes != [] && forall change <- changes :: IsProseChange(change)
  }

  predicate IsProseChange(change: Change) {
    && IsProsePath(change.path)
    && change.newMode == PLAIN
    && ((change.status == "M" && change.oldMode == PLAIN) || (change.status == "A" && change.oldMode == ABSENT))
  }

  /** A deletion, a type change or a change of mode. */
  predicate IsUncertain(change: Change) {
    || (change.status != "A" && change.status != "M")
    || change.newMode != PLAIN
    || (change.status == "M" && change.oldMode != change.newMode)
  }

  function PathsOf(changes: seq<Change>): (paths: seq<string>)
    ensures |paths| == |changes| && forall i :: 0 <= i < |paths| ==> paths[i] == changes[i].path
  {
    if changes == [] then [] else [changes[0].path] + PathsOf(changes[1..])
  }

  const MAIN := "refs/heads/main"

  predicate Compared(event: Event) {
    event.PullRequest? || event.MergeGroup? || event == Push(MAIN)
  }

  /** `classify_event`; `trusted` says that the checkout matches the immutable bounds of the event and nothing asked for
      the full contour, so that `changes` is its diff. */
  function Decide(event: Event, trusted: bool, changes: seq<Change>): Scope {
    DecideBy(KINDS, event, trusted, changes)
  }

  function DecideBy(kinds: Kinds, event: Event, trusted: bool, changes: seq<Change>): Scope {
    if !trusted || !Compared(event) || changes == [] then Scope(FULL, false)
    else
      var docs := (event.PullRequest? || event.MergeGroup?) && ProseOnly(changes);
      var force := (event.MergeGroup? && !docs) || exists change <- changes :: IsUncertain(change);
      Scope(if force then FULL else ClassifiedBy(kinds, PathsOf(changes)), docs)
  }

  method ClassifyEventBy(kinds: Kinds, event: Event, trusted: bool, changes: seq<Change>) returns (scope: Scope)
    ensures scope == DecideBy(kinds, event, trusted, changes)
  {
    scope := Scope(FULL, false);
    if trusted && Compared(event) && changes != [] {
      var docs := (event.PullRequest? || event.MergeGroup?) && ProseOnly(changes);
      var uncertain := exists change <- changes :: IsUncertain(change);
      var classification := ClassifyPathsBy(kinds, PathsOf(changes), (event.MergeGroup? && !docs) || uncertain);
      scope := Scope(classification, docs);
    }
  }

  /** `classify_event`, with the loop of `classify_paths`: the gate can trust the scope, and documentation is claimed
      exactly for a trusted pull request or merge group that changes prose only. */
  method ClassifyEvent(event: Event, trusted: bool, changes: seq<Change>) returns (scope: Scope)
    ensures scope == Decide(event, trusted, changes)
    ensures Consistent(scope.classification, scope.docsOnly)
    ensures scope.docsOnly <==> trusted && (event.PullRequest? || event.MergeGroup?) && ProseOnly(changes)
  {
    scope := ClassifyEventBy(KINDS, event, trusted, changes);
    EveryScopeIsConsistent(event, trusted, changes);
    DocsExactly(event, trusted, changes);
  }

  lemma ProseIsCertain(changes: seq<Change>)
    requires ProseOnly(changes)
    ensures forall change <- changes :: !IsUncertain(change)
    ensures Classified(PathsOf(changes)) == NOTHING
  {
    forall change | change in changes ensures !IsUncertain(change) {
      assert IsProseChange(change);
    }
    var paths := PathsOf(changes);
    forall path | path in paths ensures IsProsePath(path) {
      var i :| 0 <= i < |paths| && paths[i] == path;
      assert IsProseChange(changes[i]);
    }
    ProseTouchesNothing(paths);
  }

  /** Every scope the classifier can produce, for any event and any list of changes, is consistent for the gate. */
  lemma EveryScopeIsConsistent(event: Event, trusted: bool, changes: seq<Change>)
    ensures var scope := Decide(event, trusted, changes); Consistent(scope.classification, scope.docsOnly)
  {
    ClassifiedIsConsistent(PathsOf(changes));
    if ProseOnly(changes) {
      ProseIsCertain(changes);
    }
  }

  /** The documentation exception is claimed exactly for a trusted pull request or merge group that changes prose
      only. */
  lemma DocsExactly(event: Event, trusted: bool, changes: seq<Change>)
    ensures Decide(event, trusted, changes).docsOnly
        <==> trusted && (event.PullRequest? || event.MergeGroup?) && ProseOnly(changes)
  {
  }

  lemma ProseHasNoRust(changes: seq<Change>, k: nat)
    requires k < |changes| && Hits(changes[k].path, IsRustPath)
    ensures !ProseOnly(changes)
  {
    if IsProsePath(changes[k].path) {
      ProseIsUnclaimed(changes[k].path);
    }
    assert ProseOnly(changes) ==> IsProseChange(changes[k]);
  }

  lemma HitIsClassified(kinds: Kinds, event: Event, trusted: bool, changes: seq<Change>, k: nat)
    requires k < |changes| && Hits(changes[k].path, kinds.rust) && !ProseOnly(changes)
    ensures DecideBy(kinds, event, trusted, changes).classification.rust
            && !DecideBy(kinds, event, trusted, changes).docsOnly
  {
    var paths := PathsOf(changes);
    assert Hits(paths[k], kinds.rust);
    assert Touches(paths, kinds.rust);
  }

  /** Code is never routed as prose: a change of a Rust file enables the Rust contour of every scope. */
  lemma RustIsRouted(event: Event, trusted: bool, changes: seq<Change>, k: nat)
    requires k < |changes| && Hits(changes[k].path, IsRustPath)
    ensures Decide(event, trusted, changes).classification.rust && !Decide(event, trusted, changes).docsOnly
  {
    ProseHasNoRust(changes, k);
    HitIsClassified(KINDS, event, trusted, changes, k);
  }

  /** Nothing asks for the tables: the diff is not known, not compared or empty, a merge group carries more than
      prose, or some change is not a plain edit. */
  predicate NeedsEverything(event: Event, trusted: bool, changes: seq<Change>) {
    || !trusted || !Compared(event) || changes == []
    || (event.MergeGroup? && !ProseOnly(changes))
    || exists change <- changes :: IsUncertain(change)
  }

  /** Tables that claim no path. */
  const NO_KINDS := Kinds(_ => false, _ => false, _ => false, _ => false, _ => false, _ => false, _ => false,
                          _ => false)

  /** Only plain edits of plain files are classified by their paths: additions and modifications that keep the mode. */
  lemma CertainExactly(changes: seq<Change>)
    ensures (exists change <- changes :: IsUncertain(change)) <==>
              !(forall k :: 0 <= k < |changes| ==>
                  && changes[k].newMode == "100644"
                  && (changes[k].status == "A" || (changes[k].status == "M" && changes[k].oldMode == "100644")))
  {
    if change :| change in changes && IsUncertain(change) {
      var k :| 0 <= k < |changes| && changes[k] == change;
    }
    forall k | 0 <= k < |changes| && !IsUncertain(changes[k])
      ensures && changes[k].newMode == "100644"
              && (changes[k].status == "A" || (changes[k].status == "M" && changes[k].oldMode == "100644"))
    {
    }
  }

  lemma InDirectory(dir: string, rest: string)
    ensures dir <= dir + rest
  {
  }

  /** Whole directories belong to a contour: the workflows and the plugin, ... */
  lemma WorkflowsAreRouted(rest: string)
    ensures IsCiContractPath(WORKFLOWS + rest) && IsPluginPath(PLUGIN + rest)
  {
    InDirectory(WORKFLOWS, rest);
    InDirectory(PLUGIN, rest);
  }

  /** ... the settings of Cargo, ... */
  lemma CargoIsRouted(rest: string)
    ensures IsToolchainPath(".cargo/" + rest) && IsPackagePath(".cargo/" + rest) && IsSearchPath(".cargo/" + rest)
  {
    InDirectory(".cargo/", rest);
  }

  /** ... and the code for one platform. */
  lemma PlatformIsRouted(rest: string)
    ensures IsPlatformPath(INFRASTRUCTURE + "platform/" + rest)
    ensures IsPlatformPath("crates/unica-bootstrap/src/platform/" + rest)
  {
    InDirectory(INFRASTRUCTURE + "platform/", rest);
    InDirectory("crates/unica-bootstrap/src/platform/", rest);
  }

  /** The full scope is chosen whatever the path tables say in exactly these cases. */
  lemma FullExactly(event: Event, trusted: bool, changes: seq<Change>)
    ensures NeedsEverything(event, trusted, changes)
        <==> forall kinds :: DecideBy(kinds, event, trusted, changes).classification == FULL
  {
    if !NeedsEverything(event, trusted, changes) {
      assert DecideBy(NO_KINDS, event, trusted, changes).classification == NOTHING;
    }
  }

  /** What is not compared is routed in full, and so is a merge group that carries code. */
  lemma FullWhenNeeded(kinds: Kinds, event: Event, trusted: bool, changes: seq<Change>)
    ensures var scope := DecideBy(kinds, event, trusted, changes);
            && (!Compared(event) ==> scope == Scope(FULL, false))
            && (event.MergeGroup? && !scope.docsOnly ==> scope.classification == FULL)
  {
  }
}

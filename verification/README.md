# Unica CI and release scripts: a verified model

The repository's delivery rests on a set of Python scripts: guards that scan Rust sources, a probe that owns and
kills process trees, an accountant of test results, a classifier and a gate of changes, a reviewed refresh of donor
fixtures, alpha releases, and several small parsers and encoders. This project models those algorithms in Dafny and
proves what they are for. Files, Git, HTTP and the operating system appear as values or as oracles that may answer
anything at every call; a result that mentions a failure holds for every pattern of failures.

Each module follows one script:

- `SourceMask` - the lexer that blanks comments and literals (`check-rust-platform-boundary.py`)
- `WindowsJob`, `ProcessOwnership` - attach, roll back, and clean up process trees (`probe-unica-wire.py`)
- `RustLanes`, `TestInventory`, `MediumRun`, `UnionVerifier` - exactly-once test accounting (`ci_rust_lanes.py`)
- `ComponentCycles` - the shortest cycle through each dependency (`check-component-boundaries.py`)
- `ShadowSelector` - the closure of affected packages (`ci_shadow_selector.py`)
- `JavaProperties` - lines that `java.util.Properties` reads back (`collect-results.py`)
- `AlphaRelease` - numbering and pruning of alpha tags (`release-alpha.py`)
- `AtomicPublish`, `ParityRefresh`, `RefreshRuns` - the transaction, the optimistic protocol, and whole runs of both
  (`refresh-cc-1c-parity.py`, `donor_parity_contract.py`)
- `CfgPredicate` - cfg predicates and their test-only analysis (`check-resource-limits.py`)
- `SizeFilter` - size filters of tests (`allure_results.py`)
- `PackageFrame` - the byte frame of the package digest (`package-unica-plugin.py`)
- `AwaitJobs` - polling of job outcomes (`await_os_jobs.py`)
- `PosixPath`, `ChangeClassifier`, `CiGate` - routing of changes and the fail-closed gate
  (`classify-workflow-changes.py`, `evaluate-ci-gate.py`, `workflow_routing.py`)

Objects whose methods update fields are classes; loops are loops, proved against specifications that do not
mention them; pure code is functions with lemmas.

## What turned out false

Where a promise does not hold of the code, the model keeps the code and proves exactly when the promise holds.

- An attach that raises because the process has no handle requests no termination at all; with a handle it always does
  (`WindowsJob.Attach`).
- On Windows `complete` does not mean that every process was seen gone: a query that fails without naming anybody drops
  its identity (`ProcessOwnership.CompleteButUnseen` cleans up a healthy job that way, for any identity). A dropped
  identity was seen gone exactly when the query that dropped it did not fail so (`SeenUnlessBlind`; `QuiesceWindows`
  states it of every cleanup). On POSIX a failed read never shrinks the survivors.
- On Windows `complete` does not mean that the leader was found signaled: a cleanup that times out on the leader still
  releases its handle, the release writes a return code, and the next cleanup takes it for the leader's end
  (`CompleteButRunning`). It does mean that exactly when the leader still had its handle before the call or had not been
  released unseen (`LeaderClaim`).
- A pull request's medium run need not have run anything: the check trusts the `ignored` flags of the medium plan, so for
  every valid ordinary plan and shadow decision a result that ignores all and records nothing is accepted (`IdleIsAccepted`).
  Exactly the cases that the medium plan does not ignore are vouched for (`VouchedExactly`).
- `test_only` misses a double negation, an `any` of nothing and a contradiction (`TestOnlyIsIncomplete`); it is exact on
  predicates that negate single flags and values only, none of which but a test marker also occurs plainly, without
  undefined groups and an empty `any` (`TestOnlyIsExact`).
- An outcome known before the deadline can change in a later snapshot that only adds facts: a missing job can
  appear, an empty list of steps can be filled, a cancelled job can be given a runner. `StableIffSettled` is the exact
  condition.
- An interrupted backup copy of the snapshot makes the rollback install what was copied, for any state and publication
  (`RestoredButLost`); in every other case a completed rollback restores the snapshot (`PublishAtomically`).
- An exception of the publication does not mean that anything was put back: when the clean-up is the call that breaks,
  everything stands installed, for any state and publication (`RaisedButInstalled`). With at most one broken call it means
  a rollback exactly when the clean-up worked (`RaisedMeans`), and `ApplyAndPublish` tells its caller of either.
- The same core version spelled with leading zeros starts its alpha numbers again (`RespelledCoreStartsOver`), and so does
  a smaller version. A publication is newer than everything issued exactly when its core is greater than that of the
  newest issued tag, is spelled as there, or is respelled before any number was used (`NextIsNewestExactly`); over whole
  runs tags increase exactly when every publication met this (`RunsNeverReuse`).
- A refresh that is rolled back after an interrupted backup copy leaves the parity contract exactly when the copy differs
  from the snapshot (`OnlyHarmLeavesTheContract`).
- UTF-16 code units always come back from the properties file; the text itself does exactly when no lone high surrogate
  stands before a lone low one (`UnitsDecode`).

## Model

| member | source | states |
|---|---|---|
| `SourceMask.MaskNonCode` | scripts/ci/check-rust-platform-boundary.py:299-347 | the result is the source with exactly its tokens blanked, newlines kept, for the one lexing of the source by a declarative grammar |
| `SourceMask.NextToken` | scripts/ci/check-rust-platform-boundary.py:304-344 | the token that starts at an index, with its end, or a proof that none does |
| `SourceMask.BlockCommentEnd` | scripts/ci/check-rust-platform-boundary.py:311-325 | a block comment ends where its nesting closes, or at the end of the text |
| `SourceMask.RawStringEnd` | scripts/ci/check-rust-platform-boundary.py:226-244 | the end of a raw string with matching hashes, or a proof that none starts here |
| `SourceMask.DoubleQuotedEnd` | scripts/ci/check-rust-platform-boundary.py:247-259 | a string ends at the first quote behind an even run of backslashes |
| `SourceMask.CharLiteralEnd` | scripts/ci/check-rust-platform-boundary.py:262-296 | a char literal, and not a lifetime, decided for every text |
| `SourceMask.MaskRange` | scripts/ci/check-rust-platform-boundary.py:220-223 | blanks a range in place except its newlines and nothing else |
| `SourceMask.LexingIsUnique` | scripts/ci/check-rust-platform-boundary.py:299-347 | a text has one lexing, so masking is a function of the text |
| `SourceMask.TokenIsDetermined` | scripts/ci/check-rust-platform-boundary.py:226-345 | at most one token starts at an index, with one kind and one end |
| `SourceMask.MaskedTextIsPlainCode` | scripts/ci/check-rust-platform-boundary.py:299-347 | length and newlines stay, every other character is unchanged or blank, and no quote, `//`, `/*` or token of any kind is left |
| `SourceMask.CharLiteralSurvives` | scripts/ci/check-rust-platform-boundary.py:262-296 | a char literal in the masked text was one, uncovered, in the source |
| `SourceMask.MaskingIsIdempotent` | scripts/ci/check-rust-platform-boundary.py:299-347 | masking the masked text changes nothing, unterminated tokens included |
| `SourceMask.QuotedExactly` | scripts/ci/check-rust-platform-boundary.py:247-259 | a string token is a closed string, that is a quote, units (a plain character, or a backslash with any character) and a quote, or the rest of a text in which the quote opens no closed string |
| `SourceMask.WrittenStringIsToken` | scripts/ci/check-rust-platform-boundary.py:247-259 | wherever a closed string is written, its quote opens a token of exactly its length |
| `SourceMask.BlockCommentExactly` | scripts/ci/check-rust-platform-boundary.py:311-325 | a block comment ends right after the closing mark of its balanced body by the grammar of comments, or with a text that closes none |
| `SourceMask.InnerLiesInside` | scripts/ci/check-rust-platform-boundary.py:313-322 | a comment that opens inside a comment lies inside it |
| `SourceMask.WrittenCommentIsToken` | scripts/ci/check-rust-platform-boundary.py:311-325 | wherever a comment with any inner comments is written, its mark opens a token of exactly its length |
| `SourceMask.RawExactly` | scripts/ci/check-rust-platform-boundary.py:226-244 | a raw string token does not continue a word, and is an optional `b`, `r`, hashes, a quote, and a body up to the first closing mark with as many hashes, or an unclosed one |
| `SourceMask.WrittenRawIsToken` | scripts/ci/check-rust-platform-boundary.py:226-244 | wherever a raw string is written that does not continue a word, it is a token of exactly its length |
| `SourceMask.WrittenCharIsToken` | scripts/ci/check-rust-platform-boundary.py:262-296 | every spelling of a character literal is a token of exactly its length |
| `SourceMask.CharIsWritten` | scripts/ci/check-rust-platform-boundary.py:262-296 | and every character literal has such a spelling |
| `SourceMask.LifetimeIsCode` | scripts/ci/check-rust-platform-boundary.py:262-296 | an apostrophe, a character and no apostrophe behind it is code |
| `WindowsJob.Attach` | scripts/ci/probe-unica-wire.py:1274-1348 | for every pattern of failing calls: the thread resumes only in a kill-on-close job that holds the process; success leaves only the job handle newly open; an exception with a process handle means termination was requested, every opened handle got a close attempt, and some call did fail |
| `WindowsJob.TryAttach` | scripts/ci/probe-unica-wire.py:1292-1311 | the guarded block makes its calls in order, stops at the first failure, and knows what it opened |
| `WindowsJob.TryAndClose` | scripts/ci/probe-unica-wire.py:1292-1334 | either only the job stays open, or the rollback can account for everything opened |
| `WindowsJob.Rollback` | scripts/ci/probe-unica-wire.py:1230-1271 | terminate, wait, release, then one close attempt for each remaining handle, whatever fails |
| `WindowsJob.UndoneByRollback` | scripts/ci/probe-unica-wire.py:1230-1271 | after a rollback every handle opened by the attach got a close attempt and an assigned job was terminated |
| `WindowsJob.ScriptIsGuarded` | scripts/ci/probe-unica-wire.py:1297-1304 | no resume without kill-on-close and assignment before it |
| `WindowsJob.NeverClosedAgain` | scripts/ci/probe-unica-wire.py:1111-1348 | in a disciplined history a handle closed successfully is never closed again |
| `WindowsJob.ProcessJob.constructor` | scripts/ci/probe-unica-wire.py:1116-1125 | a new job owns its handle and no members |
| `WindowsJob.ProcessJob.HoldMembers` | scripts/ci/probe-unica-wire.py:1127-1147 | without errors every listed process is held or had left the job; nothing opened is lost; no errors exactly when the job is open and every call was answered well |
| `WindowsJob.ProcessJob.WaitForMembersAndRelease` | scripts/ci/probe-unica-wire.py:1149-1162 | every member handle gets one close attempt; no errors exactly when every wait found its member signaled and every close succeeded |
| `WindowsJob.ProcessJob.ReleaseMembers` | scripts/ci/probe-unica-wire.py:1164-1172 | exactly one close attempt for every member handle ever opened; no errors exactly when all succeeded |
| `WindowsJob.ProcessJob.Terminate` | scripts/ci/probe-unica-wire.py:1174-1181 | the job is asked to die; no error exactly when the call succeeded |
| `WindowsJob.ProcessJob.WaitForLeaderAndRelease` | scripts/ci/probe-unica-wire.py:1183-1202 | exactly one wait and one release are tried while the handle is there; handle, return code and errors afterwards follow from the two answers; no errors means the leader was signaled and released, or had a return code |
| `WindowsJob.ProcessJob.ActiveProcessCount` | scripts/ci/probe-unica-wire.py:1204-1210 | the count is the system's answer, or an error |
| `WindowsJob.ProcessJob.Close` | scripts/ci/probe-unica-wire.py:1212-1221 | members are released and the job handle closed; a failed close keeps it for a later attempt; no errors exactly when every call succeeded |
| `WindowsJob.KeptCounts` | scripts/ci/probe-unica-wire.py:1127-1172 | a member handle has no close attempt while it is held and one afterwards |
| `WindowsJob.RunAny` | scripts/ci/probe-unica-wire.py:1111-1221 | over any sequence of job methods with any failures, ended by a close, every member handle gets exactly one close attempt |
| `ProcessOwnership.Snapshot` | scripts/ci/probe-unica-wire.py:140-168 | the least set that holds the session members and the confirmed registered identities and is closed under children; an unreadable table is an error |
| `ProcessOwnership.OwnedAreTheDescendants` | scripts/ci/probe-unica-wire.py:140-168 | that least set is exactly what descends from its base |
| `ProcessOwnership.SendSignals` | scripts/ci/probe-unica-wire.py:182-196 | one signal to each identity confirmed by the table read of the same call, highest pid first, and to nobody else |
| `ProcessOwnership.Survivors` | scripts/ci/probe-unica-wire.py:198-208 | exactly the identities that the table just read still shows |
| `ProcessOwnership.Wait` | scripts/ci/probe-unica-wire.py:216-224 | whoever is not returned was seen gone; whoever is returned was alive in the last read, at or after the deadline |
| `ProcessOwnership.AskToStop` | scripts/ci/probe-unica-wire.py:280-289 | on readable tables every identity got SIGTERM and SIGKILL or was seen gone; signals only reach confirmed identities |
| `ProcessOwnership.Quiesce` | scripts/ci/probe-unica-wire.py:278-313 | `complete` only if every identity was seen gone in a readable table; a failed read never shrinks the survivors and always prevents the claim; then the leader was stopped or everybody had been told to stop |
| `ProcessOwnership.Terminate` | scripts/ci/probe-unica-wire.py:315-335 | failures are exactly failed reads; without any, every descendant of the owned session got SIGTERM and SIGKILL or was seen gone, and is a survivor or was seen gone; without a snapshot nothing is done but to stop the leader |
| `ProcessOwnership.SurvivorsWindows` | scripts/ci/probe-unica-wire.py:209-214 | exactly those are missing whom one query dropped, the answers are those of the host, and whoever stays was found running under its own identity |
| `ProcessOwnership.WaitWindows` | scripts/ci/probe-unica-wire.py:216-224 | the same up to the deadline |
| `ProcessOwnership.SeenUnlessBlind` | scripts/ci/probe-unica-wire.py:209-214 | a dropped identity was seen gone if and only if the query that dropped it did not fail without naming anybody |
| `ProcessOwnership.BlindHostSeesNobody` | scripts/ci/probe-unica-wire.py:209-224 | on a host where every query fails so, all identities are dropped and none was seen gone |
| `ProcessOwnership.CompleteButUnseen` | scripts/ci/probe-unica-wire.py:231-276 | the input: a cleanup of a healthy job on such a host claims `complete` for any identity, unseen |
| `ProcessOwnership.LeaderClaim` | scripts/ci/probe-unica-wire.py:244-268 | a claim that the leader is down goes back to a wait that found it signaled if and only if the handle was still there or had not been released unseen |
| `ProcessOwnership.CompleteButRunning` | scripts/ci/probe-unica-wire.py:231-276 | the input: after a timed-out wait and a failed close, a second cleanup claims `complete` and no wait ever found the leader signaled |
| `ProcessOwnership.AwaitIdle` | scripts/ci/probe-unica-wire.py:251-265 | no failure exactly when zero active processes were observed |
| `ProcessOwnership.StopTree` | scripts/ci/probe-unica-wire.py:244-250 | no failure exactly when the job was reachable and every call was answered well; then leader and all held or new members were signaled; the job is always asked to die |
| `ProcessOwnership.StopAndClose` | scripts/ci/probe-unica-wire.py:239-268 | every member handle is closed once, the job is asked to die, no failure means that every call was answered well and the tree is down; failures only through a bad answer or the deadline; in a job without members the calls are these, in this order |
| `ProcessOwnership.QuiesceWindows` | scripts/ci/probe-unica-wire.py:231-276 | `complete` only if every call of the cleanup was answered well, leader and members were signaled (or the leader had a return code), zero active processes were observed, the job closed and every identity dropped; exactly when that covers a leader found signaled and identities seen gone; a failure only through a bad answer or the deadline |
| `ProcessOwnership.ConfirmWindows` | scripts/ci/probe-unica-wire.py:161-168 | exactly the registered identities that a query does not confirm are left out, each dropped by that query |
| `ProcessOwnership.TerminateWindows` | scripts/ci/probe-unica-wire.py:315-335 | a clean claim covers the public identity and every registered one: each was dropped, and seen gone exactly when no blind query did so |
| `RustLanes.PartitionPlaces` | scripts/ci/ci_rust_lanes.py:222-228 | a valid partition puts every case of the inventory, with its ignored state, into exactly one shard |
| `RustLanes.IgnoredIds` | scripts/ci/ci_rust_lanes.py:196-210 | the archive's list of ignored cases agrees with every case of the inventory |
| `RustLanes.RecordCount` | scripts/ci/ci_rust_lanes.py:759-782 | a valid shard result records a case at most once and only from its plan |
| `RustLanes.OnlyItsShardRecords` | scripts/ci/ci_rust_lanes.py:759-782 | only the shard that holds a case records it |
| `RustLanes.StrayIdsAreUnrecorded` | scripts/ci/ci_rust_lanes.py:759-782 | no record lies outside the inventory |
| `RustLanes.AcceptedMeansExactlyOnce` | scripts/ci/ci_rust_lanes.py:388-395 | in an accepted lane every non-ignored case has exactly one record over all shards: passed, or skipped for a known capability the runner need not have |
| `RustLanes.SkipAllowedExactly` | scripts/ci/ci_rust_lanes.py:315-395 | a skip is admitted exactly when its reason is spelled for a known capability that, by the capability, this runner need not have |
| `RustLanes.OtherSkipsAreRefused` | scripts/ci/ci_rust_lanes.py:776-780 | a result with any other skip of a wanted case is refused |
| `TestInventory.BinaryOf` | scripts/ci/ci_rust_lanes.py:814-817 | the longest binary that owns a case |
| `TestInventory.OwnerIsUnique` | scripts/ci/ci_rust_lanes.py:814-817 | the longest owner is unique |
| `TestInventory.ExplainedIsExcused` | scripts/ci/ci_rust_lanes.py:820-827 | explained exactly when the owning binary vanished with a declaration or a declaration for that same binary matches the case |
| `TestInventory.TransitionIsInjective` | scripts/ci/ci_rust_lanes.py:888-906 | the runner transition merges no two configurations |
| `TestInventory.CompareInventory` | scripts/ci/ci_rust_lanes.py:865-947 | no problems exactly when the comparison is clean (without a reset) |
| `TestInventory.NothingIsLost` | scripts/ci/ci_rust_lanes.py:865-947 | after a clean comparison every previous case of a comparable host is present in its configuration's successor or excused |
| `TestInventory.NothingElseIsLost` | scripts/ci/ci_rust_lanes.py:888-929 | after a clean comparison every configuration, every test target that was not declared removed and every job is still there, under its own or its new name |
| `UnionVerifier.CheckJobs` | scripts/ci/ci_rust_lanes.py:972-990 | no problems exactly when the matrix is complete and every other runner's job succeeded |
| `UnionVerifier.CheckLane` | scripts/ci/ci_rust_lanes.py:997-1019 | without problems the lane is certified: one plan of this revision and run with its own results, each case accounted for exactly once, doctests green; red doctests of a valid plan are reported whether or not its shards fail |
| `UnionVerifier.VerifyUnion` | scripts/ci/ci_rust_lanes.py:963-1057 | a run is admitted exactly when every condition on hosts, jobs, lanes, shards, medium and previous inventory holds |
| `UnionVerifier.AdmittedIsCertified` | scripts/ci/ci_rust_lanes.py:963-1057 | an admitted run has, for every expected runner and lane, one plan of this revision, profile and run, each case accounted for exactly once by results of the same archive, and no plan and no result outside them |
| `UnionVerifier.AdmittedRunners` | scripts/ci/ci_rust_lanes.py:963-990 | the runners of an admitted run are known and distinct, in CI those of the profile, and all jobs but that of Linux succeeded |
| `UnionVerifier.AdmittedIsCompared` | scripts/ci/ci_rust_lanes.py:1020-1047 | in CI the plans were compared with the previous ones, without a reset nothing was lost, and only a pull request has a medium run |
| `UnionVerifier.CheckMedium` | scripts/ci/ci_rust_lanes.py:1020-1039 | a pull request of CI that passes has one medium run, which plans every case in scope and records what it does not ignore exactly once, even where the shards of its ordinary lane failed |
| `UnionVerifier.AdmittedCoversMedium` | scripts/ci/ci_rust_lanes.py:963-1057 | in an admitted pull request of CI every case that the shadow decision leaves in scope is in the medium plan, and what that plan does not ignore has exactly one admissible record |
| `MediumRun.ExpressionNamesItsPackages` | scripts/ci/ci_shadow_selector.py:137-146 | an expression is of one list of packages only |
| `MediumRun.SelectionMeans` | scripts/ci/ci_rust_lanes.py:680-696 | everything is selected unless a valid decision of this revision narrows it, and then exactly the affected packages that have a binary |
| `MediumRun.NarrowsExactly` | scripts/ci/ci_shadow_selector.py:137-146 | a decision narrows the run exactly when it is of this revision, leaves the mandatory set whole, claims no admission and names packages |
| `MediumRun.MediumCovers` | scripts/ci/ci_rust_lanes.py:734-756 | an accepted medium result plans every case in scope and records what it does not ignore exactly once |
| `MediumRun.VouchedExactly` | scripts/ci/ci_rust_lanes.py:1028-1035 | every result with a plan that the union verifier accepts records an id if and only if the plan holds it not ignored |
| `MediumRun.IdleIsAccepted` | scripts/ci/ci_rust_lanes.py:734-782 | the input: for every valid ordinary plan and shadow decision a medium result that ignores everything is accepted, and no wanted case is recorded |
| `ComponentCycles.Search` | scripts/ci/check-component-boundaries.py:170-177 | the search terminates, finds the owner exactly when it is reachable, at the least distance |
| `ComponentCycles.ShallowWalksAreSeen` | scripts/ci/check-component-boundaries.py:172-177 | the breadth-first invariant: every walk up to the current level ends at a node already seen |
| `ComponentCycles.PathBack` | scripts/ci/check-component-boundaries.py:178-181 | the reconstruction terminates with a real path of that length |
| `ComponentCycles.CycleThrough` | scripts/ci/check-component-boundaries.py:169-182 | a cycle is reported exactly when the owner is reachable from the edge's target, and no shorter cycle uses the edge |
| `ComponentCycles.CycleErrors` | scripts/ci/check-component-boundaries.py:163-183 | one report for each edge of the owner that lies on a cycle, each a shortest one |
| `ShadowSelector.Select` | scripts/ci/ci_shadow_selector.py:66-114 | `affected` exactly when every change is describable and the closure stays in head, and then with the least set holding the owners and closed under consumers of both graphs |
| `ShadowSelector.Close` | scripts/ci/ci_shadow_selector.py:102-107 | the worklist computes the least closed set |
| `ShadowSelector.CollectSeeds` | scripts/ci/ci_shadow_selector.py:85-101 | the seeds are the owners of the changed files |
| `ShadowSelector.ClosureIsUnique` | scripts/ci/ci_shadow_selector.py:102-107 | the result does not depend on the order of the worklist |
| `ShadowSelector.SelectionIsMonotone` | scripts/ci/ci_shadow_selector.py:66-114 | any nonempty part of affected changes is affected with a subset of packages; the order of changes does not matter |
| `ShadowSelector.DescribableExactly` | scripts/ci/ci_shadow_selector.py:66-114 | a change is described exactly when it adds or modifies a Rust source of one package other than the composition, which both graphs know with the same features |
| `JavaProperties.EscapeText` | scripts/ci/collect-results.py:481-498 | the loop escapes each character by its rule |
| `JavaProperties.PropertiesLine` | scripts/ci/collect-results.py:478-500 | one line of printable ASCII, which the reader takes back as exactly this key and this value |
| `JavaProperties.LoadReadsFile` | scripts/ci/collect-results.py:478-500 | for every list of keys and values, the reader of `java.util.Properties.load` returns exactly their UTF-16 code units, in order |
| `JavaProperties.LineStartsSolid` | scripts/ci/collect-results.py:478-500 | no written line is a comment or starts blank |
| `JavaProperties.UnitsDecode` | scripts/ci/collect-results.py:494-497 | decoding the code units (section 2.1 of RFC 2781) gives the text back exactly when it has no split surrogate pair |
| `AlphaRelease.SortedIsSorted` | scripts/ci/release-alpha.py:107-108 | the alpha tags of a listing in ascending order, each once |
| `AlphaRelease.StaleIffOutnumbered` | scripts/ci/release-alpha.py:178-189 | a tag is stale exactly when at least `keep` published tags are newer |
| `AlphaRelease.PruneOne` | scripts/ci/release-alpha.py:202-221 | an ordinary release is gone only when its tag is; without a refused call both are gone |
| `AlphaRelease.Prune` | scripts/ci/release-alpha.py:192-223 | only stale tags and their releases go, whatever fails; without a refused call all of them do |
| `AlphaRelease.PruneInRun` | scripts/ci/release-alpha.py:192-223 | every prune, even one that fails half-way, is a step of a run |
| `AlphaRelease.PlanIsPublication` | scripts/ci/release-alpha.py:123-130 | a planned tag is what a publication step issues |
| `AlphaRelease.PlanExactly` | scripts/ci/release-alpha.py:123-130 | a tag is planned exactly when the release is not out and, without force, no newest alpha is of this slice; it continues the numbers of its core without a gap |
| `AlphaRelease.NextIsNewestExactly` | scripts/ci/release-alpha.py:123-130 | the planned tag is newer than everything issued if and only if its core follows the newest issued tag |
| `AlphaRelease.PublishIsSoundExactly` | scripts/ci/release-alpha.py:123-130 | a publication of any core keeps the issued tags increasing exactly then |
| `AlphaRelease.StepIsSound` | scripts/ci/release-alpha.py:88-130 | publish, prune and foreign steps keep the issued tags strictly increasing, and the newest one in place, if and only if a published core follows the newest tag |
| `AlphaRelease.RunsNeverReuse` | scripts/ci/release-alpha.py:88-223 | over every run each issued tag is greater than all before it if and only if every publication followed the newest tag |
| `AlphaRelease.SteadyVersionsFollow` | scripts/ci/release-alpha.py:88-130 | versions that never decrease and are spelled alike always follow |
| `AlphaRelease.RespelledCoreStartsOver` | scripts/ci/release-alpha.py:123-130 | the input: the same version spelled differently gets a smaller tag than one already issued, and does not follow |
| `AtomicPublish.Install` | scripts/ci/refresh-cc-1c-parity.py:927-942 | success installs snapshot and files in a number of calls known beforehand; a failure is that of the last call made, and what it may have changed was saved |
| `AtomicPublish.RollBack` | scripts/ci/refresh-cc-1c-parity.py:943-954 | a completed rollback restores every file, absent targets included, and makes the backup the snapshot |
| `AtomicPublish.PublishAtomically` | scripts/ci/refresh-cc-1c-parity.py:914-958 | published exactly when no call of the guarded part breaks, otherwise restored exactly when only one does before the clean-up, cleaned exactly when the clean-up works; with the backup complete and one broken call an exception means everything put back, or everything installed exactly when the clean-up broke |
| `AtomicPublish.RaisedMeans` | scripts/ci/refresh-cc-1c-parity.py:926-958 | with at most one broken call the caller sees an exception exactly when one broke; rolled back if and only if the clean-up worked, installed if and only if it did not |
| `AtomicPublish.RaisedButInstalled` | scripts/ci/refresh-cc-1c-parity.py:956-958 | the input, for any state and publication: only the clean-up breaks, and the exception comes over an installed state |
| `AtomicPublish.RestoredButLost` | scripts/ci/refresh-cc-1c-parity.py:927-958 | the input, for any state and publication: only the backup copy breaks, and the rollback installs what had been copied |
| `ParityRefresh.CasesArePartitioned` | scripts/ci/refresh-cc-1c-parity.py:244-289 | added, removed, changed and unchanged cases partition both snapshots; every case is carried or reviewed |
| `ParityRefresh.UpdateRelations` | scripts/ci/refresh-cc-1c-parity.py:433-438 | removed cases leave the registry and reviewed ones get the reviewer's relation |
| `ParityRefresh.Apply` | scripts/ci/refresh-cc-1c-parity.py:345-454 | accepted exactly when fully reviewed, nothing moved, and the installed state satisfies the parity contract |
| `ParityRefresh.UnmovedMeansEqual` | scripts/ci/refresh-cc-1c-parity.py:372-420 | an unmoved review was prepared against the present baseline, relations and provenance, for the present candidate |
| `ParityRefresh.CoverageIsExact` | scripts/ci/refresh-cc-1c-parity.py:433-443 | the new relations cover exactly the candidate's cases if and only if no accepted relation names a case outside both snapshots |
| `ParityRefresh.CarriedDigestsMatch` | scripts/ci/donor_parity_contract.py:334-385 | a carried relation is the accepted one and its digest is that of the candidate's case |
| `ParityRefresh.OnlyReviewedRelationsCanFail` | scripts/ci/donor_parity_contract.py:334-385 | over a sound accepted state validation fails only for a relation the reviewer wrote |
| `ParityRefresh.CarriedIsKept` | scripts/ci/refresh-cc-1c-parity.py:433-438 | a carried case keeps the relation it had in the accepted state |
| `RefreshRuns.ApplyAndPublish` | scripts/ci/refresh-cc-1c-parity.py:345-475 | refused exactly by the checks, touching nothing; done exactly when no call broke; installed, put back, put back with a lost snapshot or wrecked exactly by which calls broke, and the disk holds that state of the model |
| `RefreshRuns.PublishedInOrder` | scripts/ci/refresh-cc-1c-parity.py:345-454 | from any accepted state a published review was prepared against the baseline, relations and provenance it replaces, with its candidate untouched and the target unmoved; what was carried stays, what needed a review is what the reviewer decided, and the contract is satisfied |
| `RefreshRuns.OnlyHarmLeavesTheContract` | scripts/ci/refresh-cc-1c-parity.py:914-958 | a restored publication is no step; the contract is left only through two broken calls or an interrupted backup, and then exactly when the copy differs from the snapshot |
| `RefreshRuns.RunsLoseNoUpdate` | scripts/ci/refresh-cc-1c-parity.py:244-475 | in every interleaving of prepare, review, tampering and apply, from any accepted state and through any broken publications, no published apply loses an update |
| `RefreshRuns.KeptRunsReplaceWhatTheySaw` | scripts/ci/refresh-cc-1c-parity.py:244-475 | a run that starts inside the contract and meets no harmful publication stays inside, and each published apply replaced exactly the state it was prepared against |
| `CfgPredicate.Parser.Parse` | scripts/ci/check-resource-limits.py:74-91 | the parser with its shared position terminates and agrees with the grammar's function, or a token is missing |
| `CfgPredicate.Parser.ParseItems` | scripts/ci/check-resource-limits.py:80-85 | the items of a group up to its closing parenthesis |
| `CfgPredicate.ParsedIsSpelled` | scripts/ci/check-resource-limits.py:74-91 | what is parsed is spelled by exactly the tokens consumed |
| `CfgPredicate.SpelledIsParsed` | scripts/ci/check-resource-limits.py:74-91 | every spelling of a predicate, with optional commas, parses back to it whatever follows |
| `CfgPredicate.PrintedIsParsed` | scripts/ci/check-resource-limits.py:66-96 | parsing the printed tokens of any predicate returns it |
| `CfgPredicate.TestOnlyIsSound` | scripts/ci/check-resource-limits.py:99-110 | every environment that satisfies a test-only predicate has `test` or a feature ending in `test-support` |
| `CfgPredicate.TestOnlyIsExact` | scripts/ci/check-resource-limits.py:99-110 | the converse holds too on predicates that negate single atoms only, where no atom but a test marker occurs both plainly and negated |
| `CfgPredicate.TestOnlyIsIncomplete` | scripts/ci/check-resource-limits.py:99-110 | three predicates that need a test build and are not recognized |
| `SizeFilter.Parser.ParseUnion` | scripts/ci/allure_results.py:195-199 | the loop over bars reads what the functional parser reads |
| `SizeFilter.Parser.ParseIntersection` | scripts/ci/allure_results.py:201-205 | the loop over `&` |
| `SizeFilter.Parser.ParsePrimary` | scripts/ci/allure_results.py:213-227 | groups and atoms, with every refusal |
| `SizeFilter.Parse` | scripts/ci/allure_results.py:190-193 | a filter is accepted only with all its tokens consumed |
| `SizeFilter.AcceptsExactlyTheGrammar` | scripts/ci/allure_results.py:190-227 | the parser yields a tree exactly when the grammar derives it from the whole token list |
| `SizeFilter.TreeIsUnique` | scripts/ci/allure_results.py:195-227 | the grammar is unambiguous |
| `SizeFilter.PrintedIsParsed` | scripts/ci/allure_results.py:190-227 | the printed form of any tree parses to that tree, so it matches alike |
| `SizeFilter.UnionIsPrintable` | scripts/ci/allure_results.py:195-227 | every parsed tree can be printed |
| `SizeFilter.AfterLastIsLast` | scripts/ci/allure_results.py:230-230 | the binary's name begins behind the rightmost `::` |
| `SizeFilter.BarMeansOr` | scripts/ci/allure_results.py:195-246 | two filters joined by a bar match what either matches |
| `SizeFilter.AmpMeansAnd` | scripts/ci/allure_results.py:201-246 | two conjunctive filters joined by `&` match what both match |
| `SizeFilter.GroupMeansTheSame` | scripts/ci/allure_results.py:213-246 | parentheses change no answer |
| `SizeFilter.AtomsMean` | scripts/ci/allure_results.py:229-246 | what a single operand asks, and that an empty filter matches nothing |
| `PackageFrame.Digest.UpdateFrom` | scripts/ci/package-unica-plugin.py:138-140 | the chunks of a file are its content |
| `PackageFrame.Digest.UpdateFile` | scripts/ci/package-unica-plugin.py:132-140 | a file adds exactly its frame |
| `PackageFrame.TreePreimage` | scripts/ci/package-unica-plugin.py:126-141 | the preimage is the frames of the regular files, refused exactly for a symbolic link or an oversized length |
| `PackageFrame.FramesDecode` | scripts/ci/package-unica-plugin.py:132-140 | decoding the frames gives every path, executable bit and content back |
| `PackageFrame.FramesAreInjective` | scripts/ci/package-unica-plugin.py:113-141 | different lists of files have different preimages |
| `PackageFrame.DecodedIsFramed` | scripts/ci/package-unica-plugin.py:132-140 | nothing else decodes |
| `PackageFrame.PreimageBindsTheTree` | scripts/ci/package-unica-plugin.py:113-141 | two trees digested alike hold the same files |
| `AwaitJobs.SuccessIsEarned` | scripts/ci/await_os_jobs.py:48-86 | `success` needs a completed job whose written step, or without one the job itself, succeeded |
| `AwaitJobs.FinalSuccessExactly` | scripts/ci/await_os_jobs.py:59-118 | at the deadline `success` is exactly that, for a job with a written conclusion that a runner took |
| `AwaitJobs.AbsentOutcome` | scripts/ci/await_os_jobs.py:70-77 | a job in no snapshot is missing exactly when nothing but the waiting job runs, and times out at the deadline |
| `AwaitJobs.UnstartedOutcome` | scripts/ci/await_os_jobs.py:48-86 | a job cancelled without a runner was not acquired, and one that has not ended has no outcome |
| `AwaitJobs.StableIffSettled` | scripts/ci/await_os_jobs.py:59-86 | an outcome is the outcome of every later snapshot that only adds facts if and only if it is settled |
| `AwaitJobs.SettledStays` | scripts/ci/await_os_jobs.py:59-86 | a settled outcome stays |
| `AwaitJobs.UnsettledCanChange` | scripts/ci/await_os_jobs.py:59-86 | an unsettled one has a later snapshot that changes it |
| `AwaitJobs.Wait` | scripts/ci/await_os_jobs.py:101-119 | the answers of the first conclusive read, or after the deadline the final outcomes of the last good snapshot; it ends for every interval while the clock advances, and the number of reads is bounded by the timeout |
| `AwaitJobs.SupportedIsHonest` | scripts/ci/await_os_jobs.py:89-119 | exactly one outcome for each awaited name, never an unearned `success` |
| `AwaitJobs.TimesIsProduct` | scripts/ci/await_os_jobs.py:119-119 | the waited time is the number of waits times the interval |
| `PosixPath.CanonicalEnds` | scripts/ci/classify-workflow-changes.py:339-344 | a path written as it prints begins with its first part and ends with its name |
| `PosixPath.FileUnder` | scripts/ci/classify-workflow-changes.py:224-230 | parts and suffix of a file under a directory of the root |
| `ChangeClassifier.ClassifyPaths` | scripts/ci/classify-workflow-changes.py:274-323 | every flag says whether some normalized path is of its kind, with the derived contours |
| `ChangeClassifier.NormalIsClean` | scripts/ci/classify-workflow-changes.py:217-221 | a normal path has no backslash and no leading `./` |
| `ChangeClassifier.BlanksAreIgnored` | scripts/ci/classify-workflow-changes.py:217-221 | blanks around a path make no difference |
| `ChangeClassifier.DotIsIgnored` | scripts/ci/classify-workflow-changes.py:217-221 | a leading `./` makes no difference |
| `ChangeClassifier.ClassifiedIsConsistent` | scripts/ci/classify-workflow-changes.py:287-312 | platform, toolchain, package and assessment imply what the gate demands, for any list of paths |
| `ChangeClassifier.ProseIsUnclaimed` | scripts/ci/classify-workflow-changes.py:339-344 | a prose path is normal and no contour claims it |
| `ChangeClassifier.ProseIsPlain` | scripts/ci/classify-workflow-changes.py:339-344 | a prose path is relative, printed as written, without a way up, a backslash or a control character, and is listed or a Markdown file under `arch` |
| `ChangeClassifier.SearchIsBuilt` | scripts/ci/classify-workflow-changes.py:149-168 | a search path is a Rust or a toolchain path |
| `ChangeClassifier.AssessmentIsRouted` | scripts/ci/classify-workflow-changes.py:173-194 | an assessment path is packaged, Rust or part of the pipeline |
| `ChangeClassifier.WorkflowsAreRouted` | scripts/ci/classify-workflow-changes.py:266-267 | every workflow is part of the pipeline and every file of the plugin is plugin content |
| `ChangeClassifier.CargoIsRouted` | scripts/ci/classify-workflow-changes.py:233-240 | every setting of Cargo is toolchain, package and search |
| `ChangeClassifier.PlatformIsRouted` | scripts/ci/classify-workflow-changes.py:243-263 | every file of the platform directories is platform code |
| `ChangeClassifier.ProseTouchesNothing` | scripts/ci/classify-workflow-changes.py:339-344 | prose enables no contour |
| `ChangeClassifier.ClassifyEvent` | scripts/ci/classify-workflow-changes.py:426-440 | the scope is consistent for the gate, and claims documentation exactly for a trusted pull request or merge group of prose |
| `ChangeClassifier.EveryScopeIsConsistent` | scripts/ci/classify-workflow-changes.py:370-440 | every scope, for any event and changes, is consistent |
| `ChangeClassifier.DocsExactly` | scripts/ci/classify-workflow-changes.py:370-440 | the documentation exception is claimed exactly for a trusted pull request or merge group of prose |
| `ChangeClassifier.RustIsRouted` | scripts/ci/classify-workflow-changes.py:426-440 | a change of a Rust file enables the Rust contour |
| `ChangeClassifier.FullExactly` | scripts/ci/classify-workflow-changes.py:386-440 | the full scope is chosen whatever the path tables say if and only if the diff is unknown, not compared or empty, a merge group carries more than prose, or some change is not a plain edit |
| `ChangeClassifier.CertainExactly` | scripts/ci/classify-workflow-changes.py:386-440 | paths are trusted exactly when every change adds a plain file or modifies one without a change of mode |
| `CiGate.CombinedMeans` | scripts/ci/evaluate-ci-gate.py:94-108 | success, skipped, missing and failure of a group, each exactly |
| `CiGate.AlternativeSucceeds` | scripts/ci/evaluate-ci-gate.py:130-135 | an alternative entry succeeds exactly when one alternative ran and all its steps succeeded |
| `CiGate.ValidationResults` | scripts/ci/evaluate-ci-gate.py:121-142 | one result for each entry and one for the other runners; each is a success exactly when all the steps, or all of the one place that ran, or all the jobs behind it succeeded |
| `CiGate.EntrySucceeds` | scripts/ci/evaluate-ci-gate.py:124-135 | an ordinary entry is green exactly when all its steps succeeded |
| `CiGate.AlternativeEntrySucceeds` | scripts/ci/evaluate-ci-gate.py:115-135 | Python and Clippy are green exactly when one of their two places ran and all of it succeeded |
| `CiGate.EmittedIsRead` | scripts/ci/evaluate-ci-gate.py:163-171 | the gate reads back the scope the classifier wrote |
| `CiGate.ExpectedResults` | scripts/ci/evaluate-ci-gate.py:192-349 | the dictionary updates, with the delivery tail taken out again for the gate's own job, build exactly the table of demanded verdicts |
| `CiGate.EvaluateGate` | scripts/ci/evaluate-ci-gate.py:352-392 | green exactly when no input is invalid and the results equal the expected table with no extra job; every difference is reported |
| `CiGate.AcceptedRuns` | scripts/ci/evaluate-ci-gate.py:192-349 | event by event, which jobs of an accepted run succeeded, and that all others were skipped |
| `CiGate.AcceptedInputs` | scripts/ci/evaluate-ci-gate.py:205-309 | an accepted run had consistent outputs, all contours where nothing may be left out, the profile and runners of its event and the routed Python suites |
| `CiGate.ClassifierPassesTheGate` | scripts/ci/evaluate-ci-gate.py:160-241 | whatever the event and the changes, the gate finds no fault with the classifier's outputs |
| `CiGate.RustChangesAreTested` | scripts/ci/evaluate-ci-gate.py:192-392 | a green gate has tested and linted every change of a Rust file |
| `CiGate.RustChangesRunMedium` | scripts/ci/evaluate-ci-gate.py:279-281 | an accepted pull request with a change of a Rust file ran its medium tests |
| `CiGate.JudgeRun` | scripts/ci/evaluate-ci-gate.py:439-490 | classifier, recorded steps and gate together: green on a Rust change means every step of the Rust tests and one whole Clippy place succeeded, and on a pull request the medium run |
| `CiGate.QueueSkipsOnlyProse` | scripts/ci/evaluate-ci-gate.py:192-392 | a green merge group ran the Rust tests unless it is trusted and changes only prose |

## Left out

- SHA-256: digests are values of an injective function in `ParityRefresh`; the hash of the package frame is not modelled.
- JSON, YAML and TOML shapes: documents are typed values, so errors about a field of the wrong type do not occur.
- `str.isalnum` in the lexer: a parameter; the results hold for every such predicate.
- Tokenizing regular expressions of `cfg_predicate` and `_SizeExpression`: the parsers start from token lists, and whether a test pattern finds something in a name is a parameter.
- Regular expressions, import aliases and diagnostics of the guards: heuristics over text without a crisp meaning.
- Win32 structures and the ctypes facade: only success, failure and the returned number of a call.
- Exceptions other than the ones the code catches (interrupts, memory): not modelled.
- Time: integers, every call may take any time; waits of the process object itself only pass time.
- Iteration order of Python sets: any order, since the loops take an arbitrary element.
- macOS runner transition evidence, `same_selection`, lane and shard tables: parameters of `TestInventory` and `RustLanes`.
- UnionVerifier.VerifyUnion: lost configurations of a runner that never started stay in the list of problems (the run is refused either way).
- The records of the inventory drift (`drift`) and of the verification report: only what decides is modelled.
- ParityRefresh.Apply: building the candidate from Git, the review identifier and the applied-review file; the reviewer edits decisions and status only.
- AtomicPublish.PublishAtomically: creating the backup directory before the guarded part.
- AwaitJobs.Wait: an interval of zero on a clock that stops for good, where the source polls without end.
- PackageFrame.TreePreimage: the size in the frame is the length of the content read, so a file that changes between the two calls is not modelled; paths are already encoded and sorted.
- ChangeClassifier.ClassifyEvent: whether the checkout matches the event's immutable bounds, and the `ci:full` label, are one boolean input; the raw diff is already parsed.
- CiGate.EvaluateGate: the Python matrix is compared with the routed one as an input, the faults are a set without their texts, and the contour name is not computed.
- The publication of an alpha tag (commit, tag and push commands): a publication step issues the planned tag.
- Site rendering, metrics, packaging manifests, attributions, version checks and the Rust stub files: flat checks or I/O that would only add easy members.

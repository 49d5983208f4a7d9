/**
 Exactly-once accounting of test cases over the shards of every runner and lane (`ci_rust_lanes.py`):
 the partition check, the check of one shard's result, and what an accepted lane guarantees.
 */
module RustLanes {
  import opened Wrappers

  datatype Case = Case(binary: string, name: string, ignored: bool)

  datatype Record = Record(id: string, status: string, reason: string)

  datatype Manifest = Manifest(
    schema: int, profile: string, runner: string, lane: string, sha: string,
    selection: seq<string>, nextestProfile: string, archive: string, runId: string, attempt: string,
    inventory: seq<Case>, shards: seq<seq<Case>>, ignoredInventory: seq<Case>, binaries: seq<string>,
    doctests: Option<int>)

  datatype ShardResult = ShardResult(
    schema: int, sha: string, profile: string, runner: string, lane: string, shard: nat, archive: string,
    plan: seq<Case>, records: seq<Record>, annotations: seq<Record>, exitCode: int, runId: string, attempt: string)

  /** What the profile tables of the runner say; the verifier is proved for every such table. */
  datatype Policy = Policy(
    lanes: (string, string) -> seq<string>,
    shards: (string, string, string) -> nat,
    selection: string -> seq<string>,
    nextestProfile: (string, string, string) -> string)

  function CaseId(c: Case): string {
    c.binary + "::" + c.name
  }

  function CaseIds(cases: seq<Case>): seq<string> {
    seq(|cases|, k requires 0 <= k < |cases| => CaseId(cases[k]))
  }

  function States(cases: seq<Case>): seq<(string, bool)> {
    seq(|cases|, k requires 0 <= k < |cases| => (CaseId(cases[k]), cases[k].ignored))
  }

  function RecordIds(records: seq<Record>): seq<string> {
    seq(|records|, k requires 0 <= k < |records| => records[k].id)
  }

  function Concat<T>(parts: seq<seq<T>>): seq<T> {
    if parts == [] then [] else Concat(parts[..|parts| - 1]) + parts[|parts| - 1]
  }

  // ---------- The checks ----------

  /** `validate_partition`. */
  predicate PartitionOk(full: seq<Case>, parts: seq<seq<Case>>) {
    var expected := multiset(CaseIds(full));
    && |full| > 0
    && (forall k :: 0 <= k < |full| ==> expected[CaseId(full[k])] == 1)
    && multiset(CaseIds(Concat(parts))) == expected
    && multiset(States(full)) == multiset(States(Concat(parts)))
  }

  function CaseIdSet(cases: seq<Case>): set<string> {
    set k | 0 <= k < |cases| :: CaseId(cases[k])
  }

  /** `ignored_ids`: the archive's own list of ignored cases, or `None` when it is malformed. */
  function IgnoredIds(m: Manifest): (r: Option<set<string>>)
    ensures r.Some? ==> forall k :: 0 <= k < |m.inventory| ==>
              (CaseId(m.inventory[k]) in r.value <==> m.inventory[k].ignored)
  {
    var known := CaseIdSet(m.ignoredInventory);
    if (exists k :: 0 <= k < |m.ignoredInventory| &&
          (!m.ignoredInventory[k].ignored || m.ignoredInventory[k].binary == ""
           || m.ignoredInventory[k].name == "")) then None
    else if |known| != |m.ignoredInventory|
         || exists k :: 0 <= k < |m.inventory| && ((CaseId(m.inventory[k]) in known) != m.inventory[k].ignored)
    then None
    else Some(known)
  }

  predicate ManifestOk(m: Manifest, policy: Policy, profile: string, host: string, lane: string, sha: string) {
    && m.schema == 1 && m.profile == profile && m.runner == host && m.lane == lane && m.sha == sha
    && m.selection == policy.selection(lane) && m.nextestProfile == policy.nextestProfile(profile, lane, host)
    && |m.shards| == policy.shards(profile, lane, host)
    && PartitionOk(m.inventory, m.shards)
    && IgnoredIds(m).Some?
    && (forall k :: 0 <= k < |m.binaries| ==> m.binaries[k] != "")
    && (forall j, k :: 0 <= j < k < |m.binaries| ==> m.binaries[j] != m.binaries[k])
    && (forall k :: 0 <= k < |m.inventory| ==> m.inventory[k].binary in m.binaries)
  }

  const PREFIX := "host capability "

  predicate IsCapabilityChar(c: char) {
    'a' <= c <= 'z' || '0' <= c <= '9' || c == '-'
  }

  function CapabilityEnd(reason: string, i: nat): (e: nat)
    requires i <= |reason|
    ensures i <= e <= |reason| && forall k :: i <= k < e ==> IsCapabilityChar(reason[k])
    ensures e < |reason| ==> !IsCapabilityChar(reason[e])
    decreases |reason| - i
  {
    if i < |reason| && IsCapabilityChar(reason[i]) then CapabilityEnd(reason, i + 1) else i
  }

  /** The capability a skip reason names: `host capability <name>: ...`. */
  function Capability(reason: string): Option<string> {
    if !(PREFIX <= reason) then None
    else
      var e := CapabilityEnd(reason, |PREFIX|);
      if |PREFIX| < e && e + 1 < |reason| && reason[e] == ':' && reason[e + 1] == ' ' then Some(reason[|PREFIX|..e])
         else None
  }

  const HOST_CAPABILITIES := {
    "symlink", "case-sensitive-filesystem", "case-insensitive-filesystem",
    "normalization-insensitive-filesystem", "enforced-permission-bits",
    "directory-mtime", "non-utf8-file-names", "rename-under-open-handle",
    "unix-process-groups", "unix-permission-bits", "windows-job-object", "windows-path-syntax",
    "archive-fixture-binary"
  }

  const UNIX_RUNNER_CAPABILITIES := {
    "symlink", "enforced-permission-bits", "directory-mtime", "rename-under-open-handle",
    "unix-process-groups", "unix-permission-bits"
  }

  function RequiredCapabilities(runner: string): set<string> {
    if runner == "ubuntu-latest" then UNIX_RUNNER_CAPABILITIES
       + {"archive-fixture-binary", "case-sensitive-filesystem", "non-utf8-file-names"}
    else if runner == "macos-15" then
      UNIX_RUNNER_CAPABILITIES
      + {"archive-fixture-binary", "case-insensitive-filesystem", "normalization-insensitive-filesystem"}
    else if runner == "windows-latest" then {"archive-fixture-binary"}
    else {}
  }

  /** `capability_skip_refusal` returns nothing: a known capability that this runner need not have. */
  predicate SkipAllowed(r: Record, runner: string) {
    match Capability(r.reason)
    case None => false
    case Some(c) => c in HOST_CAPABILITIES && c !in RequiredCapabilities(runner)
  }

  function Wanted(plan: seq<Case>): set<string> {
    set k | 0 <= k < |plan| && !plan[k].ignored :: CaseId(plan[k])
  }

  function RecordIdSet(records: seq<Record>): set<string> {
    set k | 0 <= k < |records| :: records[k].id
  }

  /** `validate_result` for the shard with this index. */
  predicate ResultOk(m: Manifest, r: ShardResult, index: nat)
    requires 1 <= index <= |m.shards|
  {
    && r.schema == 1
    && (r.sha, r.profile, r.runner, r.lane, r.shard, r.archive)
       == (m.sha, m.profile, m.runner, m.lane, index, m.archive)
    && r.plan == m.shards[index - 1]
    && r.runId == m.runId && r.attempt == m.attempt
    && var ignored := IgnoredIds(m);
       var observed := multiset(RecordIds(r.records + r.annotations));
    && ignored.Some?
    && (forall k :: 0 <= k < |r.annotations| ==>
          r.annotations[k].id !in CaseIdSet(r.plan) && r.annotations[k].id in ignored.value
          && r.annotations[k].status == "skipped")
    && (forall k :: 0 <= k < |r.records + r.annotations| ==> observed[(r.records + r.annotations)[k].id] == 1)
    && Wanted(r.plan) <= RecordIdSet(r.records) <= CaseIdSet(r.plan)
    && (forall k :: 0 <= k < |r.records| && r.records[k].status == "skipped" && r.records[k].id in Wanted(r.plan) ==>
          SkipAllowed(r.records[k], m.runner))
    && r.exitCode == 0
    && (forall k :: 0 <= k < |r.records| ==> r.records[k].status == "passed" || r.records[k].status == "skipped")
  }

  // ---------- What a skip may give as its reason ----------

  const LINUX_RUNNER := "ubuntu-latest"
  const MAC_RUNNER := "macos-15"
  const WINDOWS_RUNNER := "windows-latest"

  /** Which runners must have a capability. */
  predicate MustHave(runner: string, capability: string) {
    if capability == "archive-fixture-binary" then runner in {LINUX_RUNNER, MAC_RUNNER, WINDOWS_RUNNER}
    else if capability in {"symlink", "enforced-permission-bits", "directory-mtime"} then
      runner in {LINUX_RUNNER, MAC_RUNNER}
    else if capability in {"rename-under-open-handle", "unix-process-groups", "unix-permission-bits"} then
      runner in {LINUX_RUNNER, MAC_RUNNER}
    else if capability in {"case-sensitive-filesystem", "non-utf8-file-names"} then runner == LINUX_RUNNER
    else if capability in {"case-insensitive-filesystem", "normalization-insensitive-filesystem"} then
      runner == MAC_RUNNER
    else false
  }

  /** Known is what some Unix runner must have, and what only Windows can offer. */
  predicate IsKnown(capability: string) {
    || MustHave(LINUX_RUNNER, capability) || MustHave(MAC_RUNNER, capability)
    || capability in {"windows-job-object", "windows-path-syntax"}
  }

  function SkipReason(capability: string, text: string): string {
    PREFIX + capability + ": " + text
  }

  /** The reason names a known capability that this runner need not have. */
  ghost predicate SkippedForLack(reason: string, runner: string) {
    exists capability, text ::
      reason == SkipReason(capability, text) && IsKnown(capability) && !MustHave(runner, capability)
  }

  lemma RequiredIsMustHave(runner: string, capability: string)
    ensures capability in RequiredCapabilities(runner) <==> MustHave(runner, capability)
  {
  }

  lemma KnownIsListed(capability: string)
    ensures capability in HOST_CAPABILITIES <==> IsKnown(capability)
  {
  }

  predicate IsCapabilityName(name: string) {
    name != "" && forall k :: 0 <= k < |name| ==> IsCapabilityChar(name[k])
  }

  lemma FileNames(capability: string)
    requires capability in {"archive-fixture-binary", "symlink", "enforced-permission-bits", "directory-mtime"}
    ensures IsCapabilityName(capability)
  {
  }

  lemma UnixNames(capability: string)
    requires capability in {"rename-under-open-handle", "unix-process-groups", "unix-permission-bits"}
    ensures IsCapabilityName(capability)
  {
  }

  lemma LinuxNames(capability: string)
    requires capability in {"case-sensitive-filesystem", "non-utf8-file-names"}
    ensures IsCapabilityName(capability)
  {
  }

  lemma MacNames(capability: string)
    requires capability in {"case-insensitive-filesystem", "normalization-insensitive-filesystem"}
    ensures IsCapabilityName(capability)
  {
    if capability == "case-insensitive-filesystem" {
      CaseInsensitiveIsName();
    } else {
      NormalizationIsName();
    }
  }

  lemma CaseInsensitiveIsName()
    ensures IsCapabilityName("case-insensitive-filesystem")
  {
  }

  lemma NormalizationIsName()
    ensures IsCapabilityName("normalization-insensitive-filesystem")
  {
  }

  lemma WindowsNames(capability: string)
    requires capability in {"windows-job-object", "windows-path-syntax"}
    ensures IsCapabilityName(capability)
  {
  }

  lemma KnownIsName(capability: string)
    requires IsKnown(capability)
    ensures IsCapabilityName(capability)
  {
    if capability in {"archive-fixture-binary", "symlink", "enforced-permission-bits", "directory-mtime"} {
      FileNames(capability);
    } else if capability in {"rename-under-open-handle", "unix-process-groups", "unix-permission-bits"} {
      UnixNames(capability);
    } else if capability in {"windows-job-object", "windows-path-syntax"} {
      WindowsNames(capability);
    } else if capability in {"case-sensitive-filesystem", "non-utf8-file-names"} {
      LinuxNames(capability);
    } else {
      MacNames(capability);
    }
  }

  /** The name in a reason is found. */
  lemma NameIsFound(capability: string, text: string)
    requires IsCapabilityName(capability)
    ensures Capability(SkipReason(capability, text)) == Some(capability)
  {
    var reason := SkipReason(capability, text);
    var start, end := |PREFIX|, |PREFIX| + |capability|;
    assert reason[..start] == PREFIX;
    assert forall k :: start <= k < end ==> reason[k] == capability[k - start];
    assert reason[end] == ':' && reason[end + 1] == ' ';
    var e := CapabilityEnd(reason, start);
    assert e == end && reason[start..end] == capability;
  }

  lemma FoundIsNamed(reason: string)
    ensures Capability(reason).Some? ==>
              exists text :: reason == SkipReason(Capability(reason).value, text)
  {
    if Capability(reason).Some? {
      var e := CapabilityEnd(reason, |PREFIX|);
      var text := reason[e + 2..];
      assert reason == reason[..|PREFIX|] + reason[|PREFIX|..e] + reason[e..e + 2] + text;
      assert reason[e..e + 2] == ": ";
      assert reason == SkipReason(Capability(reason).value, text);
    }
  }

  /** A skip is admitted exactly for the lack of a known capability that the runner need not have. */
  lemma SkipAllowedExactly(r: Record, runner: string)
    ensures SkipAllowed(r, runner) <==> SkippedForLack(r.reason, runner)
  {
    FoundIsNamed(r.reason);
    if SkipAllowed(r, runner) {
      var capability := Capability(r.reason).value;
      KnownIsListed(capability);
      RequiredIsMustHave(runner, capability);
    }
    if SkippedForLack(r.reason, runner) {
      var capability, text :|
        r.reason == SkipReason(capability, text) && IsKnown(capability) && !MustHave(runner, capability);
      KnownIsName(capability);
      NameIsFound(capability, text);
      KnownIsListed(capability);
      RequiredIsMustHave(runner, capability);
    }
  }

  /** A wanted case that was skipped for any other reason refuses the result. */
  lemma OtherSkipsAreRefused(m: Manifest, r: ShardResult, index: nat, k: nat)
    requires 1 <= index <= |m.shards| && k < |r.records|
    requires r.records[k].status == "skipped" && r.records[k].id in Wanted(r.plan)
    requires !SkippedForLack(r.records[k].reason, m.runner)
    ensures !ResultOk(m, r, index)
  {
    SkipAllowedExactly(r.records[k], m.runner);
  }

  // ---------- Counting ----------

  /** How often an id occurs over all the lists together. */
  function Total(lists: seq<seq<string>>, id: string): nat {
    if lists == [] then 0 else Total(lists[..|lists| - 1], id) + multiset(lists[|lists| - 1])[id]
  }

  lemma TotalIsConcat(lists: seq<seq<string>>, id: string)
    ensures multiset(Concat(lists))[id] == Total(lists, id)
  {
    if lists != [] {
      TotalIsConcat(lists[..|lists| - 1], id);
    }
  }

  lemma TotalBounds(lists: seq<seq<string>>, id: string, j: nat)
    requires j < |lists|
    ensures multiset(lists[j])[id] <= Total(lists, id)
  {
    if j < |lists| - 1 {
      TotalBounds(lists[..|lists| - 1], id, j);
    }
  }

  /** When one occurrence is all there is, one list holds it. */
  lemma OneHolder(lists: seq<seq<string>>, id: string) returns (j: nat)
    requires Total(lists, id) == 1
    ensures j < |lists| && multiset(lists[j])[id] == 1
    ensures forall k :: 0 <= k < |lists| && k != j ==> multiset(lists[k])[id] == 0
  {
    var last := |lists| - 1;
    if multiset(lists[last])[id] == 1 {
      j := last;
      forall k | 0 <= k < last ensures multiset(lists[k])[id] == 0 {
        TotalBounds(lists[..last], id, k);
      }
    } else {
      j := OneHolder(lists[..last], id);
    }
  }

  /** When only one list mentions the id, the total is that list's count. */
  lemma {:induction false} OneContributor(lists: seq<seq<string>>, id: string, j: nat)
    requires j < |lists| && forall k :: 0 <= k < |lists| && k != j ==> multiset(lists[k])[id] == 0
    ensures Total(lists, id) == multiset(lists[j])[id]
  {
    var last := |lists| - 1;
    if j == last {
      NoContributor(lists[..last], id);
    } else {
      OneContributor(lists[..last], id, j);
    }
  }

  lemma NoContributor(lists: seq<seq<string>>, id: string)
    requires forall k :: 0 <= k < |lists| ==> multiset(lists[k])[id] == 0
    ensures Total(lists, id) == 0
  {
  }

  /** A value that a sequence holds once stands at exactly one place. */
  lemma OnePlace<T>(s: seq<T>, x: T) returns (i: nat)
    requires multiset(s)[x] == 1
    ensures i < |s| && s[i] == x && forall k :: 0 <= k < |s| && s[k] == x ==> k == i
  {
    i :| i < |s| && s[i] == x;
    assert s == s[..i] + [x] + s[i + 1..];
  }

  function IdLists(parts: seq<seq<Case>>): seq<seq<string>> {
    seq(|parts|, j requires 0 <= j < |parts| => CaseIds(parts[j]))
  }

  lemma {:induction false} IdsOfConcat(parts: seq<seq<Case>>)
    ensures CaseIds(Concat(parts)) == Concat(IdLists(parts))
  {
    if parts != [] {
      var last := |parts| - 1;
      IdsOfConcat(parts[..last]);
      assert IdLists(parts)[..last] == IdLists(parts[..last]);
      assert CaseIds(Concat(parts[..last]) + parts[last]) == CaseIds(Concat(parts[..last])) + CaseIds(parts[last]);
    }
  }

  lemma {:induction false} ConcatMember(parts: seq<seq<Case>>, c: Case) returns (j: nat)
    requires c in Concat(parts)
    ensures j < |parts| && c in parts[j]
  {
    var last := |parts| - 1;
    if c in parts[last] {
      j := last;
    } else {
      j := ConcatMember(parts[..last], c);
    }
  }

  lemma CountsAndMembers(cases: seq<Case>, id: string)
    ensures id in CaseIdSet(cases) <==> multiset(CaseIds(cases))[id] > 0
  {
    assert id in multiset(CaseIds(cases)) <==> id in CaseIds(cases);
    assert forall k :: 0 <= k < |cases| ==> CaseIds(cases)[k] == CaseId(cases[k]);
  }

  /** An accepted partition puts each case into one shard ... */
  lemma PartitionHolds(full: seq<Case>, parts: seq<seq<Case>>, id: string) returns (j: nat)
    requires PartitionOk(full, parts) && id in CaseIdSet(full)
    ensures j < |parts| && multiset(CaseIds(parts[j]))[id] == 1 && id in CaseIdSet(parts[j])
    ensures forall k :: 0 <= k < |parts| && k != j ==> id !in CaseIdSet(parts[k])
  {
    var lists := IdLists(parts);
    IdsOfConcat(parts);
    TotalIsConcat(lists, id);
    j := OneHolder(lists, id);
    forall k | 0 <= k < |parts| ensures id in CaseIdSet(parts[k]) <==> k == j {
      assert lists[k] == CaseIds(parts[k]);
      CountsAndMembers(parts[k], id);
    }
  }

  lemma StateTravels(full: seq<Case>, parts: seq<seq<Case>>, c: Case) returns (j: nat, p: nat)
    requires PartitionOk(full, parts) && c in full
    ensures j < |parts| && p < |parts[j]| && CaseId(parts[j][p]) == CaseId(c) && parts[j][p].ignored == c.ignored
  {
    var i :| 0 <= i < |full| && full[i] == c;
    var flat := Concat(parts);
    assert States(full)[i] in multiset(States(full));
    var m :| 0 <= m < |flat| && States(flat)[m] == States(full)[i];
    j := ConcatMember(parts, flat[m]);
    p :| 0 <= p < |parts[j]| && parts[j][p] == flat[m];
  }

  /** ... with the ignored state it has in the plan. */
  lemma PartitionPlaces(full: seq<Case>, parts: seq<seq<Case>>, c: Case) returns (j: nat)
    requires PartitionOk(full, parts) && c in full
    ensures j < |parts| && c.ignored == (CaseId(c) !in Wanted(parts[j])) && CaseId(c) in CaseIdSet(parts[j])
    ensures forall k :: 0 <= k < |parts| && k != j ==> CaseId(c) !in CaseIdSet(parts[k])
  {
    var id := CaseId(c);
    var home, p := StateTravels(full, parts, c);
    j := PartitionHolds(full, parts, id);
    assert home == j;
    if id in Wanted(parts[j]) {
      var q :| 0 <= q < |parts[j]| && !parts[j][q].ignored && CaseId(parts[j][q]) == id;
      SameId(parts[j], p, q);
    }
  }

  lemma SameId(cases: seq<Case>, p: nat, q: nat)
    requires p < |cases| && q < |cases| && CaseId(cases[p]) == CaseId(cases[q])
    requires multiset(CaseIds(cases))[CaseId(cases[p])] == 1
    ensures p == q
  {
    var i := OnePlace(CaseIds(cases), CaseId(cases[p]));
    assert CaseIds(cases)[p] == CaseIds(cases)[q];
  }

  // ---------- One runner and lane ----------

  function Numbers(rs: seq<ShardResult>): seq<nat> {
    seq(|rs|, k requires 0 <= k < |rs| => rs[k].shard)
  }

  function Range(n: nat): seq<nat> {
    seq(n, k => k + 1)
  }

  predicate Mine(runner: string, lane: string, host: string, wanted: string) {
    runner == host && lane == wanted
  }

  function MatchingManifests(ms: seq<Manifest>, host: string, lane: string): seq<Manifest> {
    if ms == [] then []
    else (if Mine(ms[0].runner, ms[0].lane, host, lane) then [ms[0]] else []) + MatchingManifests(ms[1..], host, lane)
  }

  function MatchingResults(rs: seq<ShardResult>, host: string, lane: string): seq<ShardResult> {
    if rs == [] then []
    else (if Mine(rs[0].runner, rs[0].lane, host, lane) then [rs[0]] else []) + MatchingResults(rs[1..], host, lane)
  }

  /** The shard results of one lane: every index once, every result valid. */
  predicate ShardsOk(m: Manifest, rs: seq<ShardResult>) {
    && |rs| == |m.shards|
    && multiset(Numbers(rs)) == multiset(Range(|m.shards|))
    && forall k :: 0 <= k < |rs| ==> 1 <= rs[k].shard <= |m.shards| && ResultOk(m, rs[k], rs[k].shard)
  }

  function RecordLists(rs: seq<ShardResult>): seq<seq<string>> {
    seq(|rs|, k requires 0 <= k < |rs| => RecordIds(rs[k].records))
  }

  /** The one record of a case says that it passed, or skipped for an admissible reason. */
  ghost predicate Answered(rs: seq<ShardResult>, id: string, runner: string) {
    exists j, k :: 0 <= j < |rs| && 0 <= k < |rs[j].records| && rs[j].records[k].id == id
                   && (rs[j].records[k].status == "passed"
                       || (rs[j].records[k].status == "skipped" && SkippedForLack(rs[j].records[k].reason, runner)))
  }

  /** Each case that must run has exactly one record over all shards, with an admissible outcome; no
      record lies outside its shard's plan, and no case has two. */
  ghost predicate ExactlyOnce(m: Manifest, rs: seq<ShardResult>) {
    && (forall c <- m.inventory :: !c.ignored ==>
          Total(RecordLists(rs), CaseId(c)) == 1 && Answered(rs, CaseId(c), m.runner))
    && (forall id :: Total(RecordLists(rs), id) <= 1)
    && (forall id :: Total(RecordLists(rs), id) > 0 ==> id in CaseIdSet(m.inventory))
    && (forall j, k :: 0 <= j < |rs| && 0 <= k < |rs[j].records| ==>
          1 <= rs[j].shard <= |m.shards| && rs[j].records[k].id in CaseIdSet(m.shards[rs[j].shard - 1]))
  }

  lemma RangeHoldsOnce(n: nat, x: nat)
    requires 1 <= x <= n
    ensures multiset(Range(n))[x] == 1
  {
    var s := Range(n);
    assert s == s[..x - 1] + [x] + s[x..];
    assert x !in s[..x - 1] && x !in s[x..];
  }

  lemma RecordCount(r: ShardResult, m: Manifest, index: nat, id: string)
    requires 1 <= index <= |m.shards| && ResultOk(m, r, index)
    ensures multiset(RecordIds(r.records))[id] <= 1
    ensures multiset(RecordIds(r.records))[id] == 1 <==> id in RecordIdSet(r.records)
    ensures id in RecordIdSet(r.records) ==> id in CaseIdSet(m.shards[index - 1])
  {
    var all := r.records + r.annotations;
    assert RecordIds(all) == RecordIds(r.records) + RecordIds(r.annotations);
    assert multiset(RecordIds(all)) == multiset(RecordIds(r.records)) + multiset(RecordIds(r.annotations));
    assert id in multiset(RecordIds(r.records)) <==> id in RecordIds(r.records);
    assert forall k :: 0 <= k < |r.records| ==> RecordIds(r.records)[k] == r.records[k].id == all[k].id;
  }

  lemma UnplannedIsUnrecorded(r: ShardResult, m: Manifest, id: string)
    requires 1 <= r.shard <= |m.shards| && ResultOk(m, r, r.shard) && id !in CaseIdSet(m.shards[r.shard - 1])
    ensures multiset(RecordIds(r.records))[id] == 0
  {
    RecordCount(r, m, r.shard, id);
  }

  /** Where a case may be recorded: only by the one result whose shard plans it. */
  lemma OnlyItsShardRecords(m: Manifest, rs: seq<ShardResult>, c: Case) returns (i: nat)
    requires PartitionOk(m.inventory, m.shards) && ShardsOk(m, rs) && c in m.inventory
    ensures i < |rs| && c.ignored == (CaseId(c) !in Wanted(rs[i].plan))
    ensures Total(RecordLists(rs), CaseId(c)) == multiset(RecordIds(rs[i].records))[CaseId(c)]
  {
    var id := CaseId(c);
    var j := PartitionPlaces(m.inventory, m.shards, c);
    i := ItsResult(m, rs, j);
    forall k | 0 <= k < |rs| && k != i ensures multiset(RecordLists(rs)[k])[id] == 0 {
      UnplannedIsUnrecorded(rs[k], m, id);
    }
    OneContributor(RecordLists(rs), id, i);
  }

  /** Each shard has exactly one result. */
  lemma ItsResult(m: Manifest, rs: seq<ShardResult>, j: nat) returns (i: nat)
    requires ShardsOk(m, rs) && j < |m.shards|
    ensures i < |rs| && rs[i].shard == j + 1 && forall k :: 0 <= k < |rs| && k != i ==> rs[k].shard != j + 1
  {
    RangeHoldsOnce(|m.shards|, j + 1);
    i := OnePlace(Numbers(rs), j + 1);
    assert forall k :: 0 <= k < |rs| ==> Numbers(rs)[k] == rs[k].shard;
  }

  lemma StrayIdsAreUnrecorded(m: Manifest, rs: seq<ShardResult>, id: string)
    requires PartitionOk(m.inventory, m.shards) && ShardsOk(m, rs) && id !in CaseIdSet(m.inventory)
    ensures Total(RecordLists(rs), id) == 0
  {
    IdsOfConcat(m.shards);
    TotalIsConcat(IdLists(m.shards), id);
    CountsAndMembers(m.inventory, id);
    forall k | 0 <= k < |rs| ensures multiset(RecordLists(rs)[k])[id] == 0 {
      assert IdLists(m.shards)[rs[k].shard - 1] == CaseIds(m.shards[rs[k].shard - 1]);
      TotalBounds(IdLists(m.shards), id, rs[k].shard - 1);
      CountsAndMembers(m.shards[rs[k].shard - 1], id);
      RecordCount(rs[k], m, rs[k].shard, id);
    }
    NoContributor(RecordLists(rs), id);
  }

  /** The central law of the lane verifier. */
  lemma AcceptedMeansExactlyOnce(m: Manifest, rs: seq<ShardResult>)
    requires PartitionOk(m.inventory, m.shards) && ShardsOk(m, rs)
    ensures ExactlyOnce(m, rs)
  {
    forall id
      ensures Total(RecordLists(rs), id) <= 1 && (Total(RecordLists(rs), id) > 0 ==> id in CaseIdSet(m.inventory))
    {
      if id in CaseIdSet(m.inventory) {
        var k :| 0 <= k < |m.inventory| && CaseId(m.inventory[k]) == id;
        var i := OnlyItsShardRecords(m, rs, m.inventory[k]);
        RecordCount(rs[i], m, rs[i].shard, id);
      } else {
        StrayIdsAreUnrecorded(m, rs, id);
      }
    }
    forall c | c in m.inventory && !c.ignored
      ensures Total(RecordLists(rs), CaseId(c)) == 1 && Answered(rs, CaseId(c), m.runner)
    {
      var i := OnlyItsShardRecords(m, rs, c);
      RecordCount(rs[i], m, rs[i].shard, CaseId(c));
      var k :| 0 <= k < |rs[i].records| && rs[i].records[k].id == CaseId(c);
      SkipAllowedExactly(rs[i].records[k], m.runner);
    }
  }
}

/**
 The additional medium run of a pull request (`ci_rust_lanes.py`): which packages it must cover according to the shadow
 decision, and what its accepted result vouches for.
 */
module MediumRun {
  import opened Wrappers
  import opened RustLanes

  const MEDIUM_RUNNER := "ubuntu-latest"
  const MEDIUM_PROFILE := "queue"
  const NO_TESTS := "affected packages have no tests in the ordinary archive"

  /** A shadow decision as it was published; an absent list of packages is empty. */
  datatype Shadow = Shadow(
    headSha: string, mandatoryMode: string, admission: Option<bool>, mode: string, packages: seq<string>)

  /** A nextest expression, where `None` selects every test, and the packages it names. */
  datatype Selection = Selection(expression: Option<string>, packages: seq<string>)

  /** A published medium result: a result of one shard with its own plan. */
  datatype Medium = Medium(result: ShardResult, nextestProfile: string, selection: Selection, reason: string)

  // ---------- The expression ----------

  predicate IsNameChar(c: char) {
    'a' <= c <= 'z' || 'A' <= c <= 'Z' || '0' <= c <= '9' || c == '_' || c == '-'
  }

  predicate IsName(name: string) {
    name != "" && forall k :: 0 <= k < |name| ==> IsNameChar(name[k])
  }

  predicate AreNames(names: seq<string>) {
    forall k :: 0 <= k < |names| ==> IsName(names[k])
  }

  const OPEN := "package(="
  const BAR := " | "

  function Joined(names: seq<string>): string
    decreases |names|, 0
  {
    if names == [] then "" else OPEN + (names[0] + ")" + Continued(names[1..]))
  }

  function Continued(names: seq<string>): string
    decreases |names|, 1
  {
    if names == [] then "" else BAR + Joined(names)
  }

  /** `filterset`: no expression for the full scope, and a refusal of anything but well-named packages. */
  function Filterset(d: Shadow): Result<Option<string>, string> {
    if d.mandatoryMode != "full" || d.admission != Some(false) then Err("cannot admit affected mandatory CI")
    else if d.mode == "full" then Ok(None)
    else if d.mode != "affected" || d.packages == [] || !AreNames(d.packages) then Err("invalid or empty selection")
    else Ok(Some(Joined(d.packages)))
  }

  lemma SameName(a: string, b: string, x: string, y: string)
    requires IsName(a) && IsName(b) && a + ")" + x == b + ")" + y
    ensures a == b && x == y
  {
    var s, t := a + ")" + x, b + ")" + y;
    assert s[|a|] == ')' && t[|b|] == ')';
    assert forall k :: 0 <= k < |a| ==> s[k] == a[k];
    assert forall k :: 0 <= k < |b| ==> t[k] == b[k];
    assert a == s[..|a|] && b == t[..|b|];
    assert x == s[|a| + 1..] && y == t[|b| + 1..];
  }

  lemma SameRest(prefix: string, x: string, y: string)
    requires prefix + x == prefix + y
    ensures x == y
  {
    assert x == (prefix + x)[|prefix|..] && y == (prefix + y)[|prefix|..];
  }

  /** An expression names exactly one list of packages. */
  lemma {:induction false} ExpressionNamesItsPackages(a: seq<string>, b: seq<string>)
    requires AreNames(a) && AreNames(b) && Joined(a) == Joined(b)
    ensures a == b
  {
    if a != [] && b != [] {
      SameRest(OPEN, a[0] + ")" + Continued(a[1..]), b[0] + ")" + Continued(b[1..]));
      SameName(a[0], b[0], Continued(a[1..]), Continued(b[1..]));
      if a[1..] != [] && b[1..] != [] {
        SameRest(BAR, Joined(a[1..]), Joined(b[1..]));
        ExpressionNamesItsPackages(a[1..], b[1..]);
      }
      assert a == [a[0]] + a[1..] && b == [b[0]] + b[1..];
    }
  }

  // ---------- The selection ----------

  predicate Separates(binary: string, k: nat) {
    k + 1 < |binary| && binary[k] == ':' && binary[k + 1] == ':'
  }

  function FirstSeparator(binary: string, k: nat): (e: nat)
    requires k <= |binary|
    ensures k <= e <= |binary| && (e < |binary| ==> Separates(binary, e))
    ensures forall i :: k <= i < e ==> !Separates(binary, i)
    decreases |binary| - k
  {
    if k == |binary| || Separates(binary, k) then k else FirstSeparator(binary, k + 1)
  }

  /** What stands before the first `::` of a binary id. */
  function PackageOf(binary: string): string {
    binary[..FirstSeparator(binary, 0)]
  }

  predicate Precedes(a: string, b: string) {
    b != "" && (a == "" || a[0] < b[0] || (a[0] == b[0] && Precedes(a[1..], b[1..])))
  }

  lemma {:induction false} OneOrTheOther(a: string, b: string)
    ensures a == b || Precedes(a, b) || Precedes(b, a)
  {
    if a != "" && b != "" && a[0] == b[0] {
      OneOrTheOther(a[1..], b[1..]);
      assert a == [a[0]] + a[1..] && b == [b[0]] + b[1..];
    }
  }

  lemma {:induction false} Onwards(a: string, b: string, c: string)
    requires Precedes(a, b) && Precedes(b, c)
    ensures Precedes(a, c)
  {
    if a != "" && a[0] == b[0] == c[0] {
      Onwards(a[1..], b[1..], c[1..]);
    }
  }

  predicate Ascending(names: seq<string>) {
    forall j, k :: 0 <= j < k < |names| ==> Precedes(names[j], names[k])
  }

  function Insert(name: string, names: seq<string>): (r: seq<string>)
    requires Ascending(names)
    ensures Ascending(r) && forall n :: n in r <==> n == name || n in names
  {
    if names == [] then [name]
    else if name == names[0] then names
    else if Precedes(name, names[0]) then
      assert forall k :: 1 <= k < |names| ==> Precedes(name, names[k]) by {
        forall k | 1 <= k < |names| ensures Precedes(name, names[k]) {
          Onwards(name, names[0], names[k]);
        }
      }
      [name] + names
    else
      OneOrTheOther(name, names[0]);
      var rest := Insert(name, names[1..]);
      assert forall n :: n in rest ==> Precedes(names[0], n);
      [names[0]] + rest
  }

  /** The sorted packages of a decision that have a binary in the archive. */
  function Archived(packages: seq<string>, available: set<string>): (r: seq<string>)
    ensures Ascending(r) && forall n :: n in r <==> n in packages && n in available
  {
    if packages == [] then []
    else
      var rest := Archived(packages[1..], available);
      if packages[0] in available then Insert(packages[0], rest) else rest
  }

  function Available(binaries: seq<string>): set<string> {
    set k | 0 <= k < |binaries| :: PackageOf(binaries[k])
  }

  /** The decision narrows the medium run: it is of this revision, valid and not full. */
  predicate Narrows(d: Option<Shadow>, sha: string) {
    d.Some? && d.value.headSha == sha && Filterset(d.value).Ok? && Filterset(d.value).value.Some?
  }

  /** The decision must be of this revision, leave the mandatory set whole, claim no admission, and name packages. */
  lemma NarrowsExactly(d: Option<Shadow>, sha: string)
    ensures Narrows(d, sha) <==>
              && d.Some? && d.value.headSha == sha
              && d.value.mandatoryMode == "full" && d.value.admission == Some(false)
              && d.value.mode == "affected" && d.value.packages != [] && forall name <- d.value.packages :: IsName(name)
  {
    if d.Some? {
      var names := d.value.packages;
      assert (forall name <- names :: IsName(name)) ==> forall k :: 0 <= k < |names| ==> names[k] in names;
    }
  }

  /** `medium_selection`. */
  function MediumSelection(d: Option<Shadow>, binaries: seq<string>, sha: string): Selection {
    if d.None? || d.value.headSha != sha then Selection(None, [])
    else
      match Filterset(d.value)
      case Err(_) => Selection(None, [])
      case Ok(None) => Selection(None, [])
      case Ok(Some(_)) =>
        var packages := Archived(d.value.packages, Available(binaries));
        if packages == [] then Selection(Some(""), [])
        else
          match Filterset(d.value.(packages := packages))
          case Err(_) => Selection(None, [])
          case Ok(expression) => Selection(expression, packages)
  }

  /** What the selection means: everything unless the decision narrows it, and then exactly the affected packages that
      the archive has tests of. */
  lemma SelectionMeans(d: Option<Shadow>, binaries: seq<string>, sha: string)
    ensures var s := MediumSelection(d, binaries, sha);
            && (s.expression.None? <==> !Narrows(d, sha))
            && (Narrows(d, sha) ==>
                  && s.expression == Some(Joined(s.packages))
                  && forall p :: p in s.packages <==> p in d.value.packages && p in Available(binaries))
  {
    if Narrows(d, sha) {
      var packages := Archived(d.value.packages, Available(binaries));
      forall k | 0 <= k < |packages| ensures IsName(packages[k]) {
        assert packages[k] in d.value.packages;
      }
    }
  }

  // ---------- The result ----------

  /** The recorded expression is the one that its packages imply. */
  predicate Implied(s: Selection) {
    if s.packages == [] then s.expression == None || s.expression == Some("")
    else AreNames(s.packages) && s.expression == Some(Joined(s.packages))
  }

  predicate Selects(s: Selection, c: Case) {
    s.expression.None? || PackageOf(c.binary) in s.packages
  }

  /** `validate_medium`. */
  predicate MediumOk(m: Manifest, x: Medium) {
    var plan := x.result.plan;
    && x.result.runner == MEDIUM_RUNNER && x.nextestProfile == MEDIUM_PROFILE
    && Implied(x.selection)
    && (plan == [] ==> x.reason == NO_TESTS && x.selection.expression.Some?)
    && (forall k :: 0 <= k < |m.inventory| && Selects(x.selection, m.inventory[k]) ==>
          CaseId(m.inventory[k]) in CaseIdSet(plan))
    && ResultOk(m.(shards := [plan]), x.result, 1)
  }

  /** The medium check of `verify_union` for the plan `m` of the ordinary lane. */
  predicate MediumAgrees(m: Manifest, x: Medium, d: Option<Shadow>, sha: string) {
    x.selection == MediumSelection(d, m.binaries, sha) && MediumOk(m, x)
  }

  /** The case must be covered: the decision does not narrow the run, or names the case's package. */
  predicate InScope(d: Option<Shadow>, sha: string, c: Case) {
    Narrows(d, sha) ==> PackageOf(c.binary) in d.value.packages
  }

  /** The result records the id exactly once, as passed or skipped for an admissible reason. */
  ghost predicate Recorded(x: Medium, id: string, runner: string) {
    multiset(RecordIds(x.result.records))[id] == 1 && Answered([x.result], id, runner)
  }

  /** Every case in scope that the ordinary plan holds is in the medium plan, and what the medium plan does not ignore
      has exactly one record with an admissible outcome. */
  lemma MediumCovers(m: Manifest, x: Medium, d: Option<Shadow>, sha: string)
    requires MediumAgrees(m, x, d, sha)
    requires forall k :: 0 <= k < |m.inventory| ==> m.inventory[k].binary in m.binaries
    ensures forall c <- m.inventory :: InScope(d, sha, c) ==> CaseId(c) in CaseIdSet(x.result.plan)
    ensures forall id <- Wanted(x.result.plan) :: Recorded(x, id, m.runner)
  {
    SelectionMeans(d, m.binaries, sha);
    forall c | c in m.inventory && InScope(d, sha, c) ensures CaseId(c) in CaseIdSet(x.result.plan) {
      var k :| 0 <= k < |m.inventory| && m.inventory[k] == c;
      assert PackageOf(c.binary) in Available(m.binaries);
      assert Selects(x.selection, m.inventory[k]);
    }
    forall id | id in Wanted(x.result.plan) ensures Recorded(x, id, m.runner) {
      WantedIsRecorded(m, x, id);
    }
  }

  lemma WantedIsRecorded(m: Manifest, x: Medium, id: string)
    requires MediumOk(m, x) && id in Wanted(x.result.plan)
    ensures Recorded(x, id, m.runner)
  {
    RecordCount(x.result, m.(shards := [x.result.plan]), 1, id);
    var k :| 0 <= k < |x.result.records| && x.result.records[k].id == id;
    assert [x.result][0].records[k].id == id;
    SkipAllowedExactly(x.result.records[k], m.runner);
  }

  // ---------- What the result does not vouch for ----------

  function Without(records: seq<Record>, id: string): (r: seq<Record>)
    ensures forall record :: record in r <==> record in records && record.id != id
    ensures forall other ::
              multiset(RecordIds(r))[other] == if other == id then 0 else multiset(RecordIds(records))[other]
  {
    if records == [] then []
    else
      var last := |records| - 1;
      assert records == records[..last] + [records[last]];
      assert RecordIds(records) == RecordIds(records[..last]) + [records[last].id];
      var before := Without(records[..last], id);
      var r := if records[last].id == id then before else before + [records[last]];
      assert records[last].id != id ==> RecordIds(r) == RecordIds(before) + [records[last].id];
      r
  }

  /** The same result without a record of the id. */
  function Silent(x: Medium, id: string): Medium {
    x.(result := x.result.(records := Without(x.result.records, id)))
  }

  predicate EachOnce(records: seq<Record>) {
    forall k :: 0 <= k < |records| ==> multiset(RecordIds(records))[records[k].id] == 1
  }

  lemma CountOfBoth(a: seq<Record>, b: seq<Record>, id: string)
    ensures multiset(RecordIds(a + b))[id] == multiset(RecordIds(a))[id] + multiset(RecordIds(b))[id]
  {
    assert RecordIds(a + b) == RecordIds(a) + RecordIds(b);
  }

  lemma SilenceStaysUnique(records: seq<Record>, annotations: seq<Record>, id: string)
    requires EachOnce(records + annotations)
    ensures EachOnce(Without(records, id) + annotations)
  {
    var kept := Without(records, id);
    var all, less := records + annotations, kept + annotations;
    forall k | 0 <= k < |less| ensures multiset(RecordIds(less))[less[k].id] == 1 {
      assert less[k] in all;
      var j :| 0 <= j < |all| && all[j] == less[k];
      CountOfBoth(records, annotations, less[k].id);
      CountOfBoth(kept, annotations, less[k].id);
      assert RecordIds(less)[k] in multiset(RecordIds(less));
    }
  }

  lemma SilenceStaysWithin(plan: seq<Case>, records: seq<Record>, id: string)
    requires id !in Wanted(plan) && Wanted(plan) <= RecordIdSet(records) <= CaseIdSet(plan)
    ensures Wanted(plan) <= RecordIdSet(Without(records, id)) <= CaseIdSet(plan)
  {
    var kept := Without(records, id);
    forall other | other in Wanted(plan) ensures other in RecordIdSet(kept) {
      var k :| 0 <= k < |records| && records[k].id == other;
      assert records[k] in kept;
    }
    forall other | other in RecordIdSet(kept) ensures other in CaseIdSet(plan) {
      var k :| 0 <= k < |kept| && kept[k].id == other;
      assert kept[k] in records;
    }
  }

  lemma SilenceIsAccepted(m: Manifest, r: ShardResult, id: string)
    requires |m.shards| == 1 && ResultOk(m, r, 1) && id !in Wanted(r.plan)
    ensures ResultOk(m, r.(records := Without(r.records, id)), 1)
  {
    var kept := Without(r.records, id);
    assert EachOnce(r.records + r.annotations);
    SilenceStaysUnique(r.records, r.annotations, id);
    SilenceStaysWithin(r.plan, r.records, id);
    assert forall k :: 0 <= k < |kept| ==> kept[k] in r.records;
  }

  /** Exactly the ids that the medium plan itself does not ignore are vouched for: every result with this plan that the
      union verifier accepts records them, and any other id may go unrecorded. */
  lemma VouchedExactly(m: Manifest, x: Medium, d: Option<Shadow>, sha: string, id: string)
    requires MediumAgrees(m, x, d, sha)
    ensures id in Wanted(x.result.plan)
        <==> forall y :: MediumAgrees(m, y, d, sha) && y.result.plan == x.result.plan ==> Recorded(y, id, m.runner)
  {
    forall y | id in Wanted(x.result.plan) && MediumAgrees(m, y, d, sha) && y.result.plan == x.result.plan
      ensures Recorded(y, id, m.runner)
    {
      WantedIsRecorded(m, y, id);
    }
    if id !in Wanted(x.result.plan) {
      SilenceIsAccepted(m.(shards := [x.result.plan]), x.result, id);
      var y := Silent(x, id);
      assert MediumAgrees(m, y, d, sha) && y.result.plan == x.result.plan && !Recorded(y, id, m.runner);
    }
  }

  function AllIgnored(cases: seq<Case>): seq<Case> {
    seq(|cases|, k requires 0 <= k < |cases| => cases[k].(ignored := true))
  }

  /** A medium result that plans the whole inventory as ignored and records nothing. */
  function Idle(m: Manifest, d: Option<Shadow>, sha: string): Medium {
    Medium(ShardResult(1, m.sha, m.profile, m.runner, m.lane, 1, m.archive, AllIgnored(m.inventory), [], [], 0, m.runId,
                       m.attempt),
           MEDIUM_PROFILE, MediumSelection(d, m.binaries, sha), "")
  }

  lemma IdleIsImplied(d: Option<Shadow>, binaries: seq<string>, sha: string)
    ensures Implied(MediumSelection(d, binaries, sha))
  {
    SelectionMeans(d, binaries, sha);
    if Narrows(d, sha) {
      var s := MediumSelection(d, binaries, sha);
      forall k | 0 <= k < |s.packages| ensures IsName(s.packages[k]) {
        assert s.packages[k] in d.value.packages;
      }
    }
  }

  /** The input at which the medium run vouches for nothing: whatever the ordinary plan and the shadow decision, the
      idle result is accepted, and no case that the ordinary plan wants is recorded. */
  lemma IdleIsAccepted(m: Manifest, d: Option<Shadow>, sha: string)
    requires m.runner == MEDIUM_RUNNER && m.inventory != [] && IgnoredIds(m).Some?
    ensures MediumAgrees(m, Idle(m, d, sha), d, sha)
    ensures forall id <- Wanted(m.inventory) :: !Recorded(Idle(m, d, sha), id, m.runner)
  {
    var x := Idle(m, d, sha);
    var plan := x.result.plan;
    IdleIsImplied(d, m.binaries, sha);
    forall k | 0 <= k < |m.inventory| ensures CaseId(m.inventory[k]) in CaseIdSet(plan) {
      assert CaseId(plan[k]) == CaseId(m.inventory[k]);
    }
    assert Wanted(plan) == {} && RecordIdSet([]) == {};
    assert x.result.records + x.result.annotations == [];
  }
}

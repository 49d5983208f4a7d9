/**
 The reviewed refresh of the donor parity snapshot (`refresh-cc-1c-parity.py`, with the contract of
 `donor_parity_contract.py`): prepare a candidate against the accepted state, review it, and apply it only
 if the accepted state has not moved meanwhile.

 Files are values; SHA-256 is a function `sha` of a document that is assumed injective. A snapshot is the
 map from its case ids to the digests of their contents.
 */
module ParityRefresh {
  import opened Wrappers

  type CaseId = string
  type Snapshot = map<CaseId, string>

  datatype Baseline = Baseline(cases: map<CaseId, string>, rest: string)

  datatype Relation = Relation(caseId: CaseId, digest: string, kind: string, rest: string)

  /** `retired` maps a retired case to its reason, stripped of surrounding white space. */
  datatype Registry = Registry(relations: map<CaseId, Relation>, retired: map<CaseId, string>)

  /** The accepted state. */
  datatype Repo = Repo(baseline: Option<Baseline>, registry: Option<Registry>, provenance: string, snapshot: Snapshot)

  datatype Candidate = Candidate(snapshot: Snapshot, baseline: Baseline, provenance: string)

  datatype Document =
    | BaselineFile(baseline: Baseline)
    | RegistryFile(registry: Registry)
    | ProvenanceFile(text: string)
    | SnapshotDirectory(snapshot: Snapshot)

  datatype Decision = Carried | Pending | Remove | Relate(relation: Relation)

  datatype Review = Review(
    reviewed: bool,
    added: set<CaseId>, removed: set<CaseId>, changed: set<CaseId>, intact: set<CaseId>,
    carried: set<CaseId>, needsReview: set<CaseId>,
    decisions: map<CaseId, Decision>,
    acceptedBaseline: Option<string>, acceptedRegistry: Option<string>, acceptedProvenance: string,
    candidateBaseline: string, candidateProvenance: string, candidateSnapshot: string)

  ghost predicate Injective(sha: Document -> string) {
    forall a, b :: sha(a) == sha(b) ==> a == b
  }

  // ---------- The contract ----------

  const ALLOWED_RELATIONS := {"exact", "compatible", "unica_extension", "platform_override", "donor_ahead",
                              "intentional_divergence"}

  /** The checks on a relation that do not concern its case: reason, evidence, observation, owner. */
  datatype Checks = Checks(relation: Relation -> bool, baseline: (Baseline, string) -> bool)

  predicate RelationOk(checks: Checks, snapshot: Snapshot, id: CaseId, r: Relation) {
    id in snapshot && r.caseId == id && r.kind in ALLOWED_RELATIONS && r.digest == snapshot[id] && checks.relation(r)
  }

  /** `validate_relations` has nothing to report. */
  predicate RegistryOk(checks: Checks, snapshot: Snapshot, registry: Registry) {
    && registry.retired.Keys * registry.relations.Keys == {}
    && registry.retired.Keys <= snapshot.Keys
    && (forall id <- registry.retired :: registry.retired[id] != "")
    && snapshot.Keys - registry.retired.Keys == registry.relations.Keys
    && (forall id <- registry.relations :: RelationOk(checks, snapshot, id, registry.relations[id]))
  }

  /** `validate_baseline` has nothing to report: the cases and their digests are those of the snapshot. */
  predicate BaselineOk(checks: Checks, snapshot: Snapshot, baseline: Baseline, provenance: string) {
    baseline.cases == snapshot && checks.baseline(baseline, provenance)
  }

  // ---------- Prepare ----------

  function OldDigest(repo: Repo, id: CaseId): Option<string> {
    if repo.baseline.Some? && id in repo.baseline.value.cases then Some(repo.baseline.value.cases[id]) else None
  }

  function NewDigest(c: Candidate, id: CaseId): Option<string> {
    if id in c.baseline.cases then Some(c.baseline.cases[id]) else None
  }

  function Relations(repo: Repo): map<CaseId, Relation> {
    if repo.registry.Some? then repo.registry.value.relations else map[]
  }

  function OptionalSha(sha: Document -> string, doc: Option<Document>): Option<string> {
    if doc.Some? then Some(sha(doc.value)) else None
  }

  function BaselineDoc(repo: Repo): Option<Document> {
    if repo.baseline.Some? then Some(BaselineFile(repo.baseline.value)) else None
  }

  function RegistryDoc(repo: Repo): Option<Document> {
    if repo.registry.Some? then Some(RegistryFile(repo.registry.value)) else None
  }

  /** The case sets and the review record of `prepare_refresh`. */
  function Prepare(sha: Document -> string, repo: Repo, c: Candidate): Review {
    var previous, next := repo.snapshot.Keys, c.snapshot.Keys;
    var added := next - previous;
    var removed := previous - next;
    var changed := set id | id in previous * next && OldDigest(repo, id) != NewDigest(c, id);
    var intact := set id | id in previous * next && OldDigest(repo, id) == NewDigest(c, id);
    var carried := set id | id in intact && id in Relations(repo);
    var needs := added + removed + changed + (intact - carried);
    Review(false, added, removed, changed, intact, carried, needs,
           map id | id in carried + needs :: if id in carried then Carried else Pending,
           OptionalSha(sha, BaselineDoc(repo)), OptionalSha(sha, RegistryDoc(repo)),
           sha(ProvenanceFile(repo.provenance)),
           sha(BaselineFile(c.baseline)), sha(ProvenanceFile(c.provenance)), sha(SnapshotDirectory(c.snapshot)))
  }

  /** The four case sets partition the cases of both snapshots, and each case is carried or reviewed. */
  lemma CasesArePartitioned(sha: Document -> string, repo: Repo, c: Candidate)
    ensures var r := Prepare(sha, repo, c);
            && r.added !! r.removed !! r.changed !! r.intact
            && r.added + r.removed + r.changed + r.intact == repo.snapshot.Keys + c.snapshot.Keys
            && r.added + r.changed + r.intact == c.snapshot.Keys
            && r.carried !! r.needsReview
            && r.carried + r.needsReview == repo.snapshot.Keys + c.snapshot.Keys
            && r.decisions.Keys == r.carried + r.needsReview
  {
  }

  // ---------- Apply ----------

  datatype Refusal = Unresolved | CandidateChanged | TargetMoved | AcceptedChanged | Invalid

  predicate Resolved(review: Review, id: CaseId) {
    && id in review.decisions
    && (if id in review.removed then review.decisions[id].Remove? else review.decisions[id].Relate?)
  }

  predicate FullyReviewed(review: Review) {
    review.reviewed && forall id <- review.needsReview :: Resolved(review, id)
  }

  /** `current` without the removed cases and with the relations of the reviewed cases in `done`. */
  function Put(review: Review, current: map<CaseId, Relation>, done: set<CaseId>): map<CaseId, Relation>
    requires FullyReviewed(review) && done <= review.needsReview
  {
    map id | id in (current.Keys - review.removed) + (done - review.removed) ::
      if id in done then assert Resolved(review, id); review.decisions[id].relation else current[id]
  }

  /** The relations after the decisions: removed cases leave, reviewed ones get their relation. */
  function Decided(review: Review, current: map<CaseId, Relation>): map<CaseId, Relation>
    requires FullyReviewed(review)
  {
    Put(review, current, review.needsReview)
  }

  lemma PutOneMore(review: Review, current: map<CaseId, Relation>, done: set<CaseId>, id: CaseId)
    requires FullyReviewed(review) && done <= review.needsReview && id in review.needsReview
    ensures id in review.removed ==> Put(review, current, done + {id}) == Put(review, current, done)
    ensures id !in review.removed ==>
              && Resolved(review, id)
              && Put(review, current, done + {id}) == Put(review, current, done)[id := review.decisions[id].relation]
  {
    assert Resolved(review, id);
  }

  method DropRemoved(removed: set<CaseId>, current: map<CaseId, Relation>) returns (relations: map<CaseId, Relation>)
    ensures relations == current - removed
  {
    relations := current;
    var rest := removed;
    while rest != {}
      invariant rest <= removed && relations == current - (removed - rest)
      decreases |rest|
    {
      var id :| id in rest;
      relations := relations - {id};
      rest := rest - {id};
    }
  }

  method AddReviewed(review: Review, ghost current: map<CaseId, Relation>, left: map<CaseId, Relation>)
    returns (relations: map<CaseId, Relation>)
    requires FullyReviewed(review) && left == Put(review, current, {})
    ensures relations == Decided(review, current)
  {
    relations := left;
    var rest := review.needsReview;
    ghost var done: set<CaseId> := {};
    while rest != {}
      invariant done + rest == review.needsReview
      invariant relations == Put(review, current, done)
      decreases |rest|
    {
      var id :| id in rest;
      PutOneMore(review, current, done, id);
      if id !in review.removed {
        relations := relations[id := review.decisions[id].relation];
      }
      rest, done := rest - {id}, done + {id};
    }
    assert done == review.needsReview;
  }

  /** The two loops of `apply_refresh` over the registry. */
  method UpdateRelations(review: Review, current: map<CaseId, Relation>) returns (relations: map<CaseId, Relation>)
    requires FullyReviewed(review)
    ensures relations == Decided(review, current)
  {
    relations := DropRemoved(review.removed, current);
    relations := AddReviewed(review, current, relations);
  }

  /** The candidate on disk is the one that was prepared, and the accepted files are the ones it was
      prepared against. */
  predicate Unmoved(sha: Document -> string, repo: Repo, review: Review, c: Candidate) {
    && sha(BaselineFile(c.baseline)) == review.candidateBaseline
    && sha(ProvenanceFile(c.provenance)) == review.candidateProvenance
    && sha(SnapshotDirectory(c.snapshot)) == review.candidateSnapshot
    && OptionalSha(sha, BaselineDoc(repo)) == review.acceptedBaseline
    && OptionalSha(sha, RegistryDoc(repo)) == review.acceptedRegistry
    && sha(ProvenanceFile(repo.provenance)) == review.acceptedProvenance
  }

  /** What a successful apply leaves behind. */
  function Installed(repo: Repo, review: Review, c: Candidate): Repo
    requires FullyReviewed(review)
  {
    Repo(Some(c.baseline), Some(Registry(Decided(review, Relations(repo)), map[])), c.provenance, c.snapshot)
  }

  /** The accepted state satisfies the parity contract. */
  predicate Kept(checks: Checks, repo: Repo) {
    && repo.baseline.Some? && repo.registry.Some?
    && BaselineOk(checks, repo.snapshot, repo.baseline.value, repo.provenance)
    && RegistryOk(checks, repo.snapshot, repo.registry.value)
  }

  predicate Accepts(sha: Document -> string, checks: Checks, repo: Repo, review: Review, c: Candidate,
                    targetMoved: bool) {
    FullyReviewed(review) && Unmoved(sha, repo, review, c) && !targetMoved && Kept(checks, Installed(repo, review, c))
  }

  /** `apply_refresh` up to the publication of the files. */
  method Apply(sha: Document -> string, checks: Checks, repo: Repo, review: Review, c: Candidate, targetMoved: bool)
    returns (r: Result<Repo, Refusal>)
    ensures r.Ok? <==> Accepts(sha, checks, repo, review, c, targetMoved)
    ensures r.Ok? ==> r.value == Installed(repo, review, c)
  {
    if !FullyReviewed(review) {
      return Err(Unresolved);
    }
    if sha(BaselineFile(c.baseline)) != review.candidateBaseline
       || sha(ProvenanceFile(c.provenance)) != review.candidateProvenance
       || sha(SnapshotDirectory(c.snapshot)) != review.candidateSnapshot {
      return Err(CandidateChanged);
    }
    if targetMoved {
      return Err(TargetMoved);
    }
    if OptionalSha(sha, BaselineDoc(repo)) != review.acceptedBaseline
       || OptionalSha(sha, RegistryDoc(repo)) != review.acceptedRegistry
       || sha(ProvenanceFile(repo.provenance)) != review.acceptedProvenance {
      return Err(AcceptedChanged);
    }
    var relations := UpdateRelations(review, Relations(repo));
    var registry := Registry(relations, map[]);
    if !BaselineOk(checks, c.snapshot, c.baseline, c.provenance) || !RegistryOk(checks, c.snapshot, registry) {
      return Err(Invalid);
    }
    return Ok(Repo(Some(c.baseline), Some(registry), c.provenance, c.snapshot));
  }

  // ---------- What an apply proves ----------

  /** A review file that was prepared for `c` against `repo`; the reviewer filled in the decisions and the status. */
  ghost predicate PreparedFrom(sha: Document -> string, review: Review, repo: Repo, c: Candidate) {
    review.(reviewed := false, decisions := Prepare(sha, repo, c).decisions) == Prepare(sha, repo, c)
  }

  /** No lost update: an unmoved review was prepared against the accepted files as they are now. */
  lemma UnmovedMeansEqual(sha: Document -> string, review: Review, against: Repo, prepared: Candidate, now: Repo,
                          c: Candidate)
    requires Injective(sha) && PreparedFrom(sha, review, against, prepared) && Unmoved(sha, now, review, c)
    ensures now.baseline == against.baseline && now.registry == against.registry && now.provenance == against.provenance
    ensures c == prepared
  {
    assert SnapshotDirectory(c.snapshot) == SnapshotDirectory(prepared.snapshot);
    assert BaselineFile(c.baseline) == BaselineFile(prepared.baseline);
    assert ProvenanceFile(c.provenance) == ProvenanceFile(prepared.provenance);
    assert ProvenanceFile(now.provenance) == ProvenanceFile(against.provenance);
    if now.baseline.Some? {
      assert BaselineFile(now.baseline.value) == BaselineFile(against.baseline.value);
    }
    if now.registry.Some? {
      assert RegistryFile(now.registry.value) == RegistryFile(against.registry.value);
    }
  }

  /** The new relations cover exactly the candidate's cases if and only if no accepted relation names a case
      that is in neither snapshot. */
  lemma CoverageIsExact(sha: Document -> string, review: Review, repo: Repo, c: Candidate)
    requires PreparedFrom(sha, review, repo, c) && FullyReviewed(review)
    ensures Decided(review, Relations(repo)).Keys == c.snapshot.Keys
        <==> Relations(repo).Keys <= repo.snapshot.Keys + c.snapshot.Keys
  {
    var r := Prepare(sha, repo, c);
    assert review.removed == r.removed && review.needsReview == r.needsReview;
    var decided := Decided(review, Relations(repo));
    assert c.snapshot.Keys <= decided.Keys;
    if id :| id in decided && id !in c.snapshot {
      assert id in Relations(repo) && id !in repo.snapshot.Keys + c.snapshot.Keys;
    }
    if id :| id in Relations(repo) && id !in repo.snapshot.Keys + c.snapshot.Keys {
      assert id in decided;
    }
  }

  /** A carried relation is the accepted one, whatever the accepted state. */
  lemma CarriedIsKept(sha: Document -> string, review: Review, repo: Repo, c: Candidate, id: CaseId)
    requires PreparedFrom(sha, review, repo, c) && FullyReviewed(review) && id in review.carried
    ensures id in Relations(repo) && id in Decided(review, Relations(repo))
    ensures Decided(review, Relations(repo))[id] == Relations(repo)[id]
  {
    assert id in Prepare(sha, repo, c).carried && id !in Prepare(sha, repo, c).needsReview;
  }

  /** Over a sound accepted state its digest is the digest of the candidate's case. */
  lemma CarriedDigestsMatch(sha: Document -> string, checks: Checks, review: Review, repo: Repo, c: Candidate,
                            id: CaseId)
    requires PreparedFrom(sha, review, repo, c) && FullyReviewed(review) && Kept(checks, repo)
    requires BaselineOk(checks, c.snapshot, c.baseline, c.provenance)
    requires id in review.carried
    ensures id in Decided(review, Relations(repo)) && id in Relations(repo)
    ensures Decided(review, Relations(repo))[id] == Relations(repo)[id]
    ensures RelationOk(checks, c.snapshot, id, Relations(repo)[id])
  {
    CarriedIsKept(sha, review, repo, c, id);
    assert OldDigest(repo, id) == NewDigest(c, id);
    assert RelationOk(checks, repo.snapshot, id, Relations(repo)[id]);
  }

  lemma ReviewedIsWritten(review: Review, current: map<CaseId, Relation>, id: CaseId)
    requires FullyReviewed(review) && id in review.needsReview && id !in review.removed
    ensures Resolved(review, id) && id in Decided(review, current)
    ensures Decided(review, current)[id] == review.decisions[id].relation
  {
    assert Resolved(review, id);
  }

  ghost predicate ReviewedRelationsOk(checks: Checks, review: Review, c: Candidate)
    requires FullyReviewed(review)
  {
    forall id <- review.needsReview - review.removed ::
      Resolved(review, id) && RelationOk(checks, c.snapshot, id, review.decisions[id].relation)
  }

  /** Every decided relation is carried or was written by the reviewer. */
  lemma DecidedIsSound(sha: Document -> string, checks: Checks, review: Review, repo: Repo, c: Candidate, id: CaseId)
    requires PreparedFrom(sha, review, repo, c) && FullyReviewed(review) && Kept(checks, repo)
    requires BaselineOk(checks, c.snapshot, c.baseline, c.provenance) && ReviewedRelationsOk(checks, review, c)
    requires id in Decided(review, Relations(repo)) && id in c.snapshot
    ensures RelationOk(checks, c.snapshot, id, Decided(review, Relations(repo))[id])
  {
    CasesArePartitioned(sha, repo, c);
    assert id in review.carried + review.needsReview && id !in review.removed;
    if id in review.carried {
      CarriedDigestsMatch(sha, checks, review, repo, c, id);
    } else {
      ReviewedIsWritten(review, Relations(repo), id);
    }
  }

  lemma SoundReviewIsInstalled(sha: Document -> string, checks: Checks, review: Review, repo: Repo, c: Candidate)
    requires PreparedFrom(sha, review, repo, c) && FullyReviewed(review) && Kept(checks, repo)
    requires BaselineOk(checks, c.snapshot, c.baseline, c.provenance) && ReviewedRelationsOk(checks, review, c)
    ensures Kept(checks, Installed(repo, review, c))
  {
    CoverageIsExact(sha, review, repo, c);
    var decided := Decided(review, Relations(repo));
    forall id | id in decided ensures RelationOk(checks, c.snapshot, id, decided[id]) {
      DecidedIsSound(sha, checks, review, repo, c, id);
    }
  }

  /** Over a sound accepted state, a fully reviewed candidate is refused only for what the reviewer wrote. */
  lemma OnlyReviewedRelationsCanFail(sha: Document -> string, checks: Checks, review: Review, repo: Repo, c: Candidate)
    requires PreparedFrom(sha, review, repo, c) && FullyReviewed(review) && Kept(checks, repo)
    requires BaselineOk(checks, c.snapshot, c.baseline, c.provenance)
    ensures Kept(checks, Installed(repo, review, c)) <==> ReviewedRelationsOk(checks, review, c)
  {
    if ReviewedRelationsOk(checks, review, c) {
      SoundReviewIsInstalled(sha, checks, review, repo, c);
    }
    if Kept(checks, Installed(repo, review, c)) {
      forall id | id in review.needsReview - review.removed
        ensures Resolved(review, id) && RelationOk(checks, c.snapshot, id, review.decisions[id].relation)
      {
        ReviewedIsWritten(review, Relations(repo), id);
      }
    }
  }
}

/**
 Whole runs of the donor parity refresh: any interleaving of prepare, review, tampering and apply, where an apply
 publishes through `_publish_atomically` and any file-system call may break.
 */
module RefreshRuns {
  import opened Wrappers
  import opened ParityRefresh
  import AtomicPublish

  // ---------- One apply with its publication ----------

  /** How a publication ends: everything installed; everything put back; files put back but the snapshot replaced by
      what an interrupted backup copy held; or two broken calls and no promise. */
  datatype Publication = Published | Restored | SnapshotLost(held: Snapshot) | Wrecked(repo: Repo)

  /** The accepted state that a publication of `installed` over `before` leaves. */
  function Publish(p: Publication, before: Repo, installed: Repo): Repo {
    match p
    case Published => installed
    case Restored => before
    case SnapshotLost(held) => before.(snapshot := held)
    case Wrecked(repo) => repo
  }

  const BASELINE := "baseline.json"
  const RELATIONS := "relations.json"
  const PROVENANCE := "skill-upstreams.json"
  const APPLIED := "applied-review.json"

  function Text(write: Document -> string, doc: Option<Document>): Option<string> {
    if doc.Some? then Some(write(doc.value)) else None
  }

  /** The directory and the files are those of the accepted state; a missing directory has no cases. */
  ghost predicate Represents(write: Document -> string, tree: Option<Snapshot>, files: map<string, string>,
                             repo: Repo) {
    && (tree == Some(repo.snapshot) || (tree.None? && repo.snapshot == map[]))
    && AtomicPublish.Lookup(files, BASELINE) == Text(write, BaselineDoc(repo))
    && AtomicPublish.Lookup(files, RELATIONS) == Text(write, RegistryDoc(repo))
    && AtomicPublish.Lookup(files, PROVENANCE) == Some(write(ProvenanceFile(repo.provenance)))
  }

  /** The four files of a publication. */
  function Targets(write: Document -> string, repo: Repo, applied: string): seq<(string, string)>
    requires repo.baseline.Some? && repo.registry.Some?
  {
    [(BASELINE, write(BaselineFile(repo.baseline.value))),
     (RELATIONS, write(RegistryFile(repo.registry.value))),
     (PROVENANCE, write(ProvenanceFile(repo.provenance))),
     (APPLIED, applied)]
  }

  lemma TargetsAreDistinct(write: Document -> string, repo: Repo, applied: string)
    requires repo.baseline.Some? && repo.registry.Some?
    ensures var targets := Targets(write, repo, applied);
            forall i, j :: 0 <= i < j < |targets| ==> targets[i].0 != targets[j].0
  {
    assert |BASELINE| == 13 && |RELATIONS| == 14 && |PROVENANCE| == 20 && |APPLIED| == 19;
  }

  ghost function HeldTree(held: Option<Snapshot>): Snapshot {
    if held.Some? then held.value else map[]
  }

  /** The publication that the outcome of the transaction amounts to. */
  ghost function PublicationOf(o: AtomicPublish.Outcome, backedUp: bool, held: Option<Snapshot>,
                               repo: Repo): Publication {
    if o.published then Published
    else if !o.restored then Wrecked(repo)
    else if backedUp then Restored
    else SnapshotLost(HeldTree(held))
  }

  /** What the caller of an apply sees: a refusal by the checks, a failure of the publication, or success. */
  datatype Reply = Refused(why: Refusal) | Raised | Done

  /** `apply_refresh` with its publication. A refusal touches nothing. What an accepted review leaves behind is a
      state of the model, unless two file-system calls broke; the snapshot is lost only if the backup copy broke. The
      caller sees a failure if anything broke, and then the new state stands exactly when only the clean-up did. */
  method ApplyAndPublish(sha: Document -> string, checks: Checks, write: Document -> string, disk: AtomicPublish.Disk,
                         repo: Repo, review: Review, c: Candidate, targetMoved: bool, applied: string)
    returns (r: Reply, ghost p: Publication)
    requires Represents(write, disk.snapshot, disk.files, repo) && disk.backup == None
    modifies disk
    ensures !r.Refused? <==> Accepts(sha, checks, repo, review, c, targetMoved)
    ensures r.Refused? ==>
              disk.snapshot == old(disk.snapshot) && disk.files == old(disk.files) && disk.steps == old(disk.steps)
    ensures r.Done? <==> !r.Refused? && AtomicPublish.Smooth(disk.faults, old(disk.steps), disk.steps)
    ensures !r.Refused? ==>
              && old(disk.steps) < disk.steps
              && (p.Published? <==> AtomicPublish.Smooth(disk.faults, old(disk.steps), disk.steps - 1))
              && (p.Wrecked? <==> AtomicPublish.TwoFaults(disk.faults, old(disk.steps), disk.steps - 1))
              && (p.SnapshotLost? <==>
                    && old(disk.snapshot).Some? && !disk.faults(old(disk.steps)).Fine?
                    && !AtomicPublish.TwoFaults(disk.faults, old(disk.steps), disk.steps - 1))
    ensures !r.Refused? && !p.Wrecked? ==>
              Represents(write, disk.snapshot, disk.files, Publish(p, repo, Installed(repo, review, c)))
    ensures disk.Healthy() ==> !r.Raised?
  {
    p := Restored;
    var result := Apply(sha, checks, repo, review, c, targetMoved);
    if result.Err? {
      return Refused(result.error), p;
    }
    var installed := result.value;
    TargetsAreDistinct(write, installed, applied);
    ghost var backedUp := disk.snapshot.None? || disk.faults(disk.steps).Fine?;
    ghost var calls := AtomicPublish.InstallCalls(disk.snapshot, disk.files, Targets(write, installed, applied));
    var o, held := AtomicPublish.PublishAtomically(disk, c.snapshot, Targets(write, installed, applied));
    p := PublicationOf(o, backedUp, held, repo);
    r := if o.Raised() then Raised else Done;
    OutcomeMeans(disk.faults, old(disk.steps), disk.steps, calls, o);
    if o.published {
      PublishedIsRepresented(write, disk.snapshot, disk.files, installed, applied);
    }
  }

  lemma OutcomeMeans(faults: nat -> AtomicPublish.Fault, from: nat, to: nat, calls: nat, o: AtomicPublish.Outcome)
    requires AtomicPublish.Decided(faults, from, to, calls, o)
    ensures o.published <==> AtomicPublish.Smooth(faults, from, to - 1)
    ensures !o.published && !o.restored <==> AtomicPublish.TwoFaults(faults, from, to - 1)
    ensures !o.Raised() <==> AtomicPublish.Smooth(faults, from, to)
  {
  }

  lemma PublishedIsRepresented(write: Document -> string, tree: Option<Snapshot>, files: map<string, string>,
                               repo: Repo, applied: string)
    requires repo.baseline.Some? && repo.registry.Some? && tree == Some(repo.snapshot)
    requires var targets := Targets(write, repo, applied);
             forall k :: 0 <= k < |targets| ==> AtomicPublish.Lookup(files, targets[k].0) == Some(targets[k].1)
    ensures Represents(write, tree, files, repo)
  {
    var targets := Targets(write, repo, applied);
    assert targets[0].0 == BASELINE && targets[1].0 == RELATIONS && targets[2].0 == PROVENANCE;
  }

  // ---------- Steps ----------

  /** A prepared refresh with the history that the safety statement speaks of. */
  datatype Ticket = Ticket(review: Review, candidate: Candidate, against: Repo, prepared: Candidate)

  datatype World = World(repo: Repo, tickets: seq<Ticket>)

  datatype Step =
    | PrepareStep(candidate: Candidate)
    | ReviewStep(ticket: nat, reviewed: bool, decisions: map<CaseId, Decision>)
    | TouchStep(ticket: nat, candidate: Candidate)
    | ApplyStep(ticket: nat, targetMoved: bool, publication: Publication)

  predicate Applies(sha: Document -> string, checks: Checks, w: World, step: Step) {
    && step.ApplyStep? && step.ticket < |w.tickets|
    && Accepts(sha, checks, w.repo, w.tickets[step.ticket].review, w.tickets[step.ticket].candidate, step.targetMoved)
  }

  function Reviewed(t: Ticket, reviewed: bool, decisions: map<CaseId, Decision>): Ticket {
    t.(review := t.review.(reviewed := reviewed, decisions := decisions))
  }

  /** One step of anybody; a refused step changes nothing. `TouchStep` is anyone editing a prepared candidate. */
  function Next(sha: Document -> string, checks: Checks, w: World, step: Step): World {
    match step
    case PrepareStep(c) =>
      if BaselineOk(checks, c.snapshot, c.baseline, c.provenance)
      then w.(tickets := w.tickets + [Ticket(Prepare(sha, w.repo, c), c, w.repo, c)])
      else w
    case ReviewStep(k, reviewed, decisions) =>
      if k < |w.tickets| then w.(tickets := w.tickets[k := Reviewed(w.tickets[k], reviewed, decisions)]) else w
    case TouchStep(k, c) =>
      if k < |w.tickets| then w.(tickets := w.tickets[k := w.tickets[k].(candidate := c)]) else w
    case ApplyStep(k, _, publication) =>
      if Applies(sha, checks, w, step)
      then w.(repo := Publish(publication, w.repo, Installed(w.repo, w.tickets[k].review, w.tickets[k].candidate)))
      else w
  }

  /** The review of the ticket was prepared from its history; nothing is said of the accepted state itself. */
  ghost predicate TicketOk(sha: Document -> string, checks: Checks, t: Ticket) {
    && PreparedFrom(sha, t.review, t.against, t.prepared)
    && BaselineOk(checks, t.prepared.snapshot, t.prepared.baseline, t.prepared.provenance)
  }

  ghost predicate Tracked(sha: Document -> string, checks: Checks, w: World) {
    forall t <- w.tickets :: TicketOk(sha, checks, t)
  }

  /** The accepted state, now and whenever a ticket was prepared, satisfies the parity contract. */
  ghost predicate AllKept(checks: Checks, w: World) {
    Kept(checks, w.repo) && forall t <- w.tickets :: Kept(checks, t.against)
  }

  /** An apply that was published: no accepted file had moved since its review was prepared, the candidate is the
      prepared one, the new state satisfies the contract and covers exactly the candidate's cases, what was carried is
      what was accepted, and what needed a review is what the reviewer decided. */
  ghost predicate AppliedInOrder(checks: Checks, before: World, t: Ticket, after: World) {
    && before.repo.baseline == t.against.baseline
    && before.repo.registry == t.against.registry
    && before.repo.provenance == t.against.provenance
    && t.candidate == t.prepared
    && Kept(checks, after.repo) && after.repo.snapshot == t.prepared.snapshot
    && after.repo.registry.value.retired == map[] && Relations(after.repo).Keys == t.prepared.snapshot.Keys
    && (forall id <- t.review.carried :: Carries(t.against, after.repo, id))
    && t.review.reviewed && forall id <- t.review.needsReview :: Settled(t.review, after.repo, id)
  }

  /** The reviewer decided about the case, and the decision is what holds now. */
  ghost predicate Settled(review: Review, after: Repo, id: CaseId) {
    && id in review.decisions
    && if id in review.removed then review.decisions[id].Remove? && id !in Relations(after)
       else
         && review.decisions[id].Relate? && id in Relations(after)
         && Relations(after)[id] == review.decisions[id].relation
  }

  ghost predicate Carries(before: Repo, after: Repo, id: CaseId) {
    id in Relations(before) && id in Relations(after) && Relations(after)[id] == Relations(before)[id]
  }

  /** The two endings that may leave the accepted state outside its contract. */
  predicate Harmful(step: Step) {
    step.ApplyStep? && (step.publication.SnapshotLost? || step.publication.Wrecked?)
  }

  lemma TicketsStayTracked(sha: Document -> string, checks: Checks, w: World, step: Step)
    requires Tracked(sha, checks, w)
    ensures Tracked(sha, checks, Next(sha, checks, w, step))
  {
    var after := Next(sha, checks, w, step);
    forall k | 0 <= k < |after.tickets| ensures TicketOk(sha, checks, after.tickets[k]) {
      if k < |w.tickets| {
        assert TicketOk(sha, checks, w.tickets[k]);
      }
    }
  }

  lemma HistoriesStayKept(sha: Document -> string, checks: Checks, w: World, step: Step)
    requires AllKept(checks, w)
    ensures forall t <- Next(sha, checks, w, step).tickets :: Kept(checks, t.against)
  {
    var after := Next(sha, checks, w, step);
    forall k | 0 <= k < |after.tickets| ensures Kept(checks, after.tickets[k].against) {
      if k < |w.tickets| {
        assert Kept(checks, w.tickets[k].against);
      }
    }
  }

  /** No lost update: whatever the accepted state, a review that is published was prepared against the accepted
      baseline, relations and provenance that it replaces. */
  lemma PublishedInOrder(sha: Document -> string, checks: Checks, w: World, step: Step)
    requires Injective(sha) && Tracked(sha, checks, w) && Applies(sha, checks, w, step) && step.publication.Published?
    ensures AppliedInOrder(checks, w, w.tickets[step.ticket], Next(sha, checks, w, step)) && !step.targetMoved
  {
    var t := w.tickets[step.ticket];
    assert TicketOk(sha, checks, t);
    UnmovedMeansEqual(sha, t.review, t.against, t.prepared, w.repo, t.candidate);
    var after := Next(sha, checks, w, step);
    forall id | id in t.review.carried ensures Carries(t.against, after.repo, id) {
      CarriedIsKept(sha, t.review, t.against, t.prepared, id);
    }
    forall id | id in t.review.needsReview ensures Settled(t.review, after.repo, id) {
      assert Resolved(t.review, id);
    }
  }

  /** Accepted files that satisfy the contract bind the snapshot, so that then the whole state is the one prepared
      against. */
  lemma KeptBindsTheSnapshot(checks: Checks, now: Repo, against: Repo)
    requires now.baseline == against.baseline && now.registry == against.registry
             && now.provenance == against.provenance
    requires Kept(checks, now) && Kept(checks, against)
    ensures now == against
  {
  }

  /** Only an interrupted backup copy or two broken calls leave the contract, and the first one exactly when the copy
      differs from the snapshot. */
  lemma OnlyHarmLeavesTheContract(sha: Document -> string, checks: Checks, w: World, step: Step)
    requires Kept(checks, w.repo)
    ensures !Harmful(step) ==> Kept(checks, Next(sha, checks, w, step).repo)
    ensures Applies(sha, checks, w, step) && step.publication.SnapshotLost? ==>
              (Kept(checks, Next(sha, checks, w, step).repo) <==> step.publication.held == w.repo.snapshot)
    ensures Applies(sha, checks, w, step) && step.publication.Restored? ==> Next(sha, checks, w, step) == w
  {
  }

  // ---------- Every run ----------

  function RunFrom(sha: Document -> string, checks: Checks, w: World, steps: seq<Step>): World
    decreases |steps|
  {
    if steps == [] then w else RunFrom(sha, checks, Next(sha, checks, w, steps[0]), steps[1..])
  }

  lemma {:induction false} RunsStayTracked(sha: Document -> string, checks: Checks, w: World, steps: seq<Step>)
    requires Tracked(sha, checks, w)
    ensures Tracked(sha, checks, RunFrom(sha, checks, w, steps))
    decreases |steps|
  {
    if steps != [] {
      TicketsStayTracked(sha, checks, w, steps[0]);
      RunsStayTracked(sha, checks, Next(sha, checks, w, steps[0]), steps[1..]);
    }
  }

  lemma {:induction false} RunsStayKept(sha: Document -> string, checks: Checks, w: World, steps: seq<Step>)
    requires AllKept(checks, w) && forall k :: 0 <= k < |steps| ==> !Harmful(steps[k])
    ensures AllKept(checks, RunFrom(sha, checks, w, steps))
    decreases |steps|
  {
    if steps != [] {
      OnlyHarmLeavesTheContract(sha, checks, w, steps[0]);
      HistoriesStayKept(sha, checks, w, steps[0]);
      RunsStayKept(sha, checks, Next(sha, checks, w, steps[0]), steps[1..]);
    }
  }

  /** In every interleaving of prepare, review, tampering and apply, from any accepted state (with or without a baseline
      and relations) and through any broken publications, every apply that was published lost no update. */
  lemma RunsLoseNoUpdate(sha: Document -> string, checks: Checks, w: World, steps: seq<Step>, step: Step)
    requires Injective(sha) && Tracked(sha, checks, w)
    ensures var before := RunFrom(sha, checks, w, steps);
            Applies(sha, checks, before, step) && step.publication.Published? ==>
              AppliedInOrder(checks, before, before.tickets[step.ticket], Next(sha, checks, before, step))
  {
    var before := RunFrom(sha, checks, w, steps);
    RunsStayTracked(sha, checks, w, steps);
    if Applies(sha, checks, before, step) && step.publication.Published? {
      PublishedInOrder(sha, checks, before, step);
    }
  }

  /** A run that starts inside the contract and meets no harmful publication stays inside, and every published apply
      replaced exactly the state it was prepared against, snapshot included. */
  lemma KeptRunsReplaceWhatTheySaw(sha: Document -> string, checks: Checks, w: World, steps: seq<Step>, step: Step)
    requires Injective(sha) && Tracked(sha, checks, w) && AllKept(checks, w)
    requires forall k :: 0 <= k < |steps| ==> !Harmful(steps[k])
    ensures var before := RunFrom(sha, checks, w, steps);
            && AllKept(checks, before)
            && (Applies(sha, checks, before, step) && step.publication.Published? ==>
                  before.repo == before.tickets[step.ticket].against)
  {
    var before := RunFrom(sha, checks, w, steps);
    RunsStayKept(sha, checks, w, steps);
    RunsLoseNoUpdate(sha, checks, w, steps, step);
    if Applies(sha, checks, before, step) && step.publication.Published? {
      KeptBindsTheSnapshot(checks, before.repo, before.tickets[step.ticket].against);
    }
  }
}

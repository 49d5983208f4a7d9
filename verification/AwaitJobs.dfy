/**
 `await_os_jobs.py`: the outcome of an awaited job or step in one snapshot of the jobs API, and the polling loop
 that reads snapshots until every outcome is known or a deadline passes.

 A null or empty field of a snapshot is "". Time is an integer; the answers of the API and the time every call
 takes come from an oracle.
 */
module AwaitJobs {
  import opened Wrappers

  datatype Step = Step(name: string, conclusion: string)

  datatype Job = Job(name: string, completed: bool, conclusion: string, runner: string, steps: seq<Step>)

  const NOT_ACQUIRED := "not_acquired"
  const MISSING := "missing"
  const TIMED_OUT := "timed_out"

  // ---------- One snapshot ----------

  predicate SeparatorAt(name: string, i: nat) {
    i + 2 <= |name| && name[i] == ':' && name[i + 1] == ':'
  }

  /** Where the first "::" begins; the length of the name when there is none. */
  function Separator(name: string, from: nat): (i: nat)
    requires from <= |name|
    ensures from <= i <= |name|
    ensures i < |name| ==> SeparatorAt(name, i)
    ensures forall k: nat :: from <= k < i ==> !SeparatorAt(name, k)
    decreases |name| - from
  {
    if from == |name| || SeparatorAt(name, from) then from else Separator(name, from + 1)
  }

  /** `name.partition("::")`. */
  function JobName(name: string): string {
    name[..Separator(name, 0)]
  }

  function StepName(name: string): string {
    var i := Separator(name, 0);
    if i == |name| then "" else name[i + 2..]
  }

  /** The place of the last job of that name: the one a dictionary keeps. */
  function Place(jobs: seq<Job>, name: string): (r: Option<nat>)
    ensures r.Some? ==> r.value < |jobs| && jobs[r.value].name == name
    ensures r.Some? ==> forall k :: r.value < k < |jobs| ==> jobs[k].name != name
    ensures r.None? ==> forall k :: 0 <= k < |jobs| ==> jobs[k].name != name
  {
    if jobs == [] then None
    else if jobs[|jobs| - 1].name == name then Some(|jobs| - 1)
    else Place(jobs[..|jobs| - 1], name)
  }

  function Found(jobs: seq<Job>, name: string): Option<Job> {
    var place := Place(jobs, name);
    if place.Some? then Some(jobs[place.value]) else None
  }

  function Conclusion(job: Job): string {
    if job.conclusion == "" then "unknown"
    else if job.conclusion == "cancelled" && job.runner == "" then NOT_ACQUIRED
    else job.conclusion
  }

  /** What is written of the first step of that name. */
  function Written(steps: seq<Step>, name: string): string {
    if steps == [] then "" else if steps[0].name == name then steps[0].conclusion else Written(steps[1..], name)
  }

  /** `outcome`: `None` while it may still change; `gate` is the name of the waiting job itself. */
  function Outcome(gate: string, jobs: seq<Job>, name: string, final: bool): Option<string> {
    var found := Found(jobs, JobName(name));
    if found.None? then
      if exists job <- jobs :: job.name != gate && !job.completed then None else Some(MISSING)
    else
      JobOutcome(found.value, StepName(name), final)
  }

  function JobOutcome(job: Job, step: string, final: bool): Option<string> {
    if !job.completed || job.conclusion == "" then None
    else if step != "" && Conclusion(job) != NOT_ACQUIRED && job.steps != [] then
      if Written(job.steps, step) != "" then Some(Written(job.steps, step))
      else if final then Some(Conclusion(job)) else None
    else Some(Conclusion(job))
  }

  /** `outcomes`. */
  function Outcomes(gate: string, jobs: seq<Job>, expected: seq<string>): Option<map<string, string>> {
    if forall name <- expected :: Outcome(gate, jobs, name, false).Some?
    then Some(map name | name in expected :: Outcome(gate, jobs, name, false).value)
    else None
  }

  /** The outcomes when the deadline has passed. */
  function FinalOutcome(gate: string, jobs: seq<Job>, name: string): string {
    if Found(jobs, JobName(name)).None? then TIMED_OUT
    else
      match Outcome(gate, jobs, name, true)
      case None => TIMED_OUT
      case Some(outcome) => if outcome == "" then TIMED_OUT else outcome
  }

  // ---------- The outcomes that are not conclusions ----------

  /** A job that is in no snapshot is missing once nothing but the waiting job itself still runs, and times out at the
      deadline. */
  lemma AbsentOutcome(gate: string, jobs: seq<Job>, name: string, final: bool)
    requires forall job <- jobs :: job.name != JobName(name)
    ensures Outcome(gate, jobs, name, final) == Some("missing") <==>
              forall job <- jobs :: job.name == gate || job.completed
    ensures Outcome(gate, jobs, name, final) == None <==> exists job <- jobs :: job.name != gate && !job.completed
    ensures FinalOutcome(gate, jobs, name) == "timed_out"
  {
    assert Found(jobs, JobName(name)).None? by {
      var place := Place(jobs, JobName(name));
      assert place.Some? ==> jobs[place.value] in jobs;
    }
  }

  /** A job that ended cancelled without a runner was never acquired, whatever step of it is asked for; a job that has
      not ended has no outcome, and times out at the deadline. */
  lemma UnstartedOutcome(gate: string, jobs: seq<Job>, name: string, final: bool)
    requires Found(jobs, JobName(name)).Some?
    ensures var job := Found(jobs, JobName(name)).value;
            && (job.completed && job.conclusion == "cancelled" && job.runner == "" ==>
                  && Outcome(gate, jobs, name, final) == Some("not_acquired")
                  && FinalOutcome(gate, jobs, name) == "not_acquired")
            && (!job.completed || job.conclusion == "" ==>
                  Outcome(gate, jobs, name, final) == None && FinalOutcome(gate, jobs, name) == "timed_out")
  {
  }

  // ---------- Success is earned ----------

  /** A completed job whose written step, or without one the job itself, succeeded. */
  ghost predicate Succeeded(jobs: seq<Job>, name: string) {
    var found := Found(jobs, JobName(name));
    && found.Some? && found.value.completed
    && if StepName(name) != "" && Written(found.value.steps, StepName(name)) != ""
       then Written(found.value.steps, StepName(name)) == "success"
       else found.value.conclusion == "success"
  }

  lemma SuccessIsEarned(gate: string, jobs: seq<Job>, name: string, final: bool)
    requires Outcome(gate, jobs, name, final) == Some("success")
    ensures Succeeded(jobs, name)
  {
    var job := Found(jobs, JobName(name)).value;
    if job.steps == [] {
      assert Written(job.steps, StepName(name)) == "";
    }
  }

  lemma FinalSuccessIsEarned(gate: string, jobs: seq<Job>, name: string)
    requires FinalOutcome(gate, jobs, name) == "success"
    ensures Succeeded(jobs, name)
  {
    SuccessIsEarned(gate, jobs, name, true);
  }

  /** At the deadline "success" is exactly a success of a job whose own conclusion is written and that a runner took. */
  lemma FinalSuccessExactly(gate: string, jobs: seq<Job>, name: string)
    ensures FinalOutcome(gate, jobs, name) == "success" <==>
              && Succeeded(jobs, name)
              && Found(jobs, JobName(name)).value.conclusion != ""
              && Conclusion(Found(jobs, JobName(name)).value) != NOT_ACQUIRED
  {
    if Succeeded(jobs, name) {
      var job := Found(jobs, JobName(name)).value;
      if job.steps == [] {
        assert Written(job.steps, StepName(name)) == "";
      }
    }
    if FinalOutcome(gate, jobs, name) == "success" {
      FinalSuccessIsEarned(gate, jobs, name);
    }
  }

  // ---------- Which outcomes are final ----------

  /** `after` only adds facts to `before`: what was written stays, steps are appended. */
  ghost predicate JobExtends(before: Job, after: Job) {
    && after.name == before.name
    && (before.completed ==> after.completed)
    && (before.conclusion != "" ==> after.conclusion == before.conclusion)
    && (before.runner != "" ==> after.runner == before.runner)
    && StepsExtend(before.steps, after.steps)
  }

  ghost predicate StepsExtend(before: seq<Step>, after: seq<Step>) {
    before == [] ||
    (&& after != [] && after[0].name == before[0].name
     && (before[0].conclusion != "" ==> after[0].conclusion == before[0].conclusion)
     && StepsExtend(before[1..], after[1..]))
  }

  ghost predicate Extends(before: seq<Job>, after: seq<Job>) {
    forall name: string :: Found(before, name).Some? ==>
      Found(after, name).Some? && JobExtends(Found(before, name).value, Found(after, name).value)
  }

  /** No later snapshot that only adds facts changes the outcome. */
  ghost predicate Stable(gate: string, jobs: seq<Job>, name: string) {
    forall after: seq<Job> :: Extends(jobs, after) ==>
      Outcome(gate, after, name, false) == Outcome(gate, jobs, name, false)
  }

  /** What a caller can see in the snapshot: the job is there, a runner took it, and if a step is awaited the
      list of steps is not empty. (The API never writes the text "not_acquired" itself; if it did, that would be
      settled too.) */
  predicate Settled(jobs: seq<Job>, name: string) {
    var found := Found(jobs, JobName(name));
    && found.Some?
    && if found.value.conclusion == "cancelled" && found.value.runner == ""
       then StepName(name) != "" && Written(found.value.steps, StepName(name)) == NOT_ACQUIRED
       else StepName(name) == "" || found.value.steps != [] || found.value.conclusion == NOT_ACQUIRED
  }

  lemma {:induction false} WrittenStays(before: seq<Step>, after: seq<Step>, name: string)
    requires StepsExtend(before, after) && Written(before, name) != ""
    ensures Written(after, name) == Written(before, name)
  {
    if before[0].name != name {
      WrittenStays(before[1..], after[1..], name);
    }
  }

  lemma SettledStays(gate: string, jobs: seq<Job>, after: seq<Job>, name: string)
    requires Outcome(gate, jobs, name, false).Some? && Settled(jobs, name) && Extends(jobs, after)
    ensures Outcome(gate, after, name, false) == Outcome(gate, jobs, name, false)
  {
    var job := Found(jobs, JobName(name)).value;
    var later := Found(after, JobName(name)).value;
    assert JobExtends(job, later);
    if Written(job.steps, StepName(name)) != "" {
      WrittenStays(job.steps, later.steps, StepName(name));
    }
  }

  lemma {:induction false} StepsExtendThemselves(steps: seq<Step>)
    ensures StepsExtend(steps, steps)
  {
    if steps != [] {
      StepsExtendThemselves(steps[1..]);
    }
  }

  lemma {:induction false} PlaceIs(jobs: seq<Job>, name: string, i: nat)
    requires i < |jobs| && jobs[i].name == name && forall k :: i < k < |jobs| ==> jobs[k].name != name
    ensures Place(jobs, name) == Some(i) && Found(jobs, name) == Some(jobs[i])
  {
    if i < |jobs| - 1 {
      assert jobs[|jobs| - 1].name != name;
      PlaceIs(jobs[..|jobs| - 1], name, i);
    }
  }

  lemma OneJobChanges(jobs: seq<Job>, place: nat, job: Job)
    requires place < |jobs| && Place(jobs, job.name) == Some(place) && JobExtends(jobs[place], job)
    ensures Extends(jobs, jobs[place := job]) && Found(jobs[place := job], job.name) == Some(job)
  {
    var after := jobs[place := job];
    PlaceIs(after, job.name, place);
    forall name | Found(jobs, name).Some?
      ensures Found(after, name).Some? && JobExtends(Found(jobs, name).value, Found(after, name).value)
    {
      var i := Place(jobs, name).value;
      PlaceIs(after, name, i);
      StepsExtendThemselves(jobs[i].steps);
    }
  }

  lemma NewJobAppears(jobs: seq<Job>, job: Job)
    requires Found(jobs, job.name).None?
    ensures Extends(jobs, jobs + [job]) && Found(jobs + [job], job.name) == Some(job)
  {
    var after := jobs + [job];
    PlaceIs(after, job.name, |jobs|);
    forall name | Found(jobs, name).Some?
      ensures Found(after, name).Some? && JobExtends(Found(jobs, name).value, Found(after, name).value)
    {
      var i := Place(jobs, name).value;
      assert name != job.name;
      PlaceIs(after, name, i);
      StepsExtendThemselves(jobs[i].steps);
    }
  }

  /** An unsettled outcome has a later snapshot that changes it. */
  lemma UnsettledCanChange(gate: string, jobs: seq<Job>, name: string) returns (after: seq<Job>)
    requires Outcome(gate, jobs, name, false).Some? && !Settled(jobs, name)
    ensures Extends(jobs, after) && Outcome(gate, after, name, false) != Outcome(gate, jobs, name, false)
  {
    var place := Place(jobs, JobName(name));
    if place.None? {
      var job := Job(JobName(name), false, "", "", []);
      NewJobAppears(jobs, job);
      after := jobs + [job];
    } else {
      var job := jobs[place.value];
      StepsExtendThemselves(job.steps);
      var changed := if job.conclusion == "cancelled" && job.runner == "" then job.(runner := "runner")
                     else job.(steps := [Step(StepName(name), "")]);
      OneJobChanges(jobs, place.value, changed);
      after := jobs[place.value := changed];
      assert Outcome(gate, after, name, false) == JobOutcome(changed, StepName(name), false);
    }
  }

  /** An outcome known before the deadline is the outcome of every later snapshot that only adds facts if and only
      if it is settled. */
  lemma StableIffSettled(gate: string, jobs: seq<Job>, name: string)
    requires Outcome(gate, jobs, name, false).Some?
    ensures Stable(gate, jobs, name) <==> Settled(jobs, name)
  {
    if Settled(jobs, name) {
      forall after | Extends(jobs, after)
        ensures Outcome(gate, after, name, false) == Outcome(gate, jobs, name, false)
      {
        SettledStays(gate, jobs, after, name);
      }
    } else {
      var after := UnsettledCanChange(gate, jobs, name);
    }
  }

  // ---------- Polling ----------

  /** The jobs API and the clock: every answer and every delay comes from the oracle. */
  class Api {
    const answers: nat -> Option<seq<Job>>
    const delays: nat -> nat
    var snapshots: nat
    var calls: nat
    var now: int

    constructor (answers: nat -> Option<seq<Job>>, delays: nat -> nat, now: int)
      ensures this.answers == answers && snapshots == 0 && this.now == now
    {
      this.answers, this.delays, this.snapshots, this.calls, this.now := answers, delays, 0, 0, now;
    }

    /** A failed command, malformed JSON or a missing key is `None`. */
    method Read() returns (jobs: Option<seq<Job>>)
      modifies this
      ensures jobs == answers(old(snapshots)) && snapshots == old(snapshots) + 1
      ensures calls == old(calls) + 1 && now == old(now) + delays(old(calls))
    {
      jobs := answers(snapshots);
      snapshots, calls, now := snapshots + 1, calls + 1, now + delays(calls);
    }

    method Clock() returns (time: int)
      modifies `calls, `now
      ensures calls == old(calls) + 1 && time == now == old(now) + delays(old(calls))
    {
      calls, now := calls + 1, now + delays(calls);
      time := now;
    }

    method Sleep(interval: nat)
      modifies `calls, `now
      ensures calls == old(calls) + 1 && now == old(now) + interval + delays(old(calls))
    {
      calls, now := calls + 1, now + interval + delays(calls);
    }
  }

  /** The last snapshot that was read, among the reads `first` to `end`. */
  function LastGood(answers: nat -> Option<seq<Job>>, first: nat, end: nat): seq<Job>
    requires first <= end
    decreases end
  {
    if first == end then []
    else if answers(end - 1).Some? then answers(end - 1).value
    else LastGood(answers, first, end - 1)
  }

  /** The read `k` answers every name. */
  predicate Conclusive(gate: string, expected: seq<string>, answers: nat -> Option<seq<Job>>, k: nat) {
    answers(k).Some? && Outcomes(gate, answers(k).value, expected).Some?
  }

  /** `r` is what the reads `first` to `end` support: the answers of the last one, which is the first conclusive one,
      or, when none was, the final outcomes of the last good snapshot. */
  ghost predicate Supported(gate: string, expected: seq<string>, answers: nat -> Option<seq<Job>>, first: nat, end: nat,
                            r: map<string, string>)
    requires first < end
  {
    && NoneConclusive(gate, expected, answers, first, end - 1)
    && r == if Conclusive(gate, expected, answers, end - 1)
            then Outcomes(gate, answers(end - 1).value, expected).value
            else map name | name in expected :: FinalOutcome(gate, LastGood(answers, first, end), name)
  }

  ghost predicate NoneConclusive(gate: string, expected: seq<string>, answers: nat -> Option<seq<Job>>, first: nat,
                                 end: nat) {
    forall k: nat :: first <= k < end ==> !Conclusive(gate, expected, answers, k)
  }

  /** The reads `first` to `end` answered nothing yet, and `jobs` is the last good snapshot. */
  ghost predicate Unanswered(gate: string, expected: seq<string>, answers: nat -> Option<seq<Job>>, first: nat,
                             end: nat, jobs: seq<Job>)
    requires first <= end
  {
    NoneConclusive(gate, expected, answers, first, end) && jobs == LastGood(answers, first, end)
  }

  /** One read: what it answers, and the last good snapshot after it. */
  method Poll(gate: string, expected: seq<string>, api: Api, ghost first: nat, jobs: seq<Job>)
    returns (latest: seq<Job>, current: Option<map<string, string>>)
    requires first <= api.snapshots && Unanswered(gate, expected, api.answers, first, api.snapshots, jobs)
    modifies api
    ensures api.snapshots == old(api.snapshots) + 1
    ensures api.calls == old(api.calls) + 1 && api.now == old(api.now) + api.delays(old(api.calls))
    ensures current.Some? ==>
              && Conclusive(gate, expected, api.answers, api.snapshots - 1)
              && Supported(gate, expected, api.answers, first, api.snapshots, current.value)
    ensures current.None? ==> Unanswered(gate, expected, api.answers, first, api.snapshots, latest)
  {
    latest, current := jobs, None;
    ghost var k := api.snapshots;
    var answer := api.Read();
    if answer.Some? {
      latest := answer.value;
      current := Outcomes(gate, latest, expected);
    }
    if current.Some? {
      AnswerIsSupported(gate, expected, api.answers, first, k);
    } else {
      StillUnanswered(gate, expected, api.answers, first, k, jobs);
    }
  }

  lemma AnswerIsSupported(gate: string, expected: seq<string>, answers: nat -> Option<seq<Job>>, first: nat, k: nat)
    requires first <= k && NoneConclusive(gate, expected, answers, first, k) && Conclusive(gate, expected, answers, k)
    ensures Supported(gate, expected, answers, first, k + 1, Outcomes(gate, answers(k).value, expected).value)
  {
  }

  lemma StillUnanswered(gate: string, expected: seq<string>, answers: nat -> Option<seq<Job>>, first: nat, k: nat,
                        jobs: seq<Job>)
    requires first <= k && Unanswered(gate, expected, answers, first, k, jobs)
             && !Conclusive(gate, expected, answers, k)
    ensures Unanswered(gate, expected, answers, first, k + 1, if answers(k).Some? then answers(k).value else jobs)
  {
  }

  /** What is left at the deadline is supported by the last good snapshot. */
  function GiveUp(gate: string, expected: seq<string>, jobs: seq<Job>, ghost answers: nat -> Option<seq<Job>>,
                  ghost first: nat, ghost end: nat): (r: map<string, string>)
    requires first < end && Unanswered(gate, expected, answers, first, end, jobs)
    ensures Supported(gate, expected, answers, first, end, r)
  {
    map name | name in expected :: FinalOutcome(gate, jobs, name)
  }

  /** `wait`. The number of reads is bounded by the timeout; without pauses the clock alone must end the waiting. */
  method Wait(gate: string, expected: seq<string>, api: Api, timeout: int, interval: nat)
    returns (r: map<string, string>)
    requires interval > 0 || NeverStops(api.delays)
    modifies api
    ensures api.snapshots > old(api.snapshots)
    ensures api.snapshots >= old(api.snapshots) + 2 ==>
              Times(api.snapshots - old(api.snapshots) - 2, interval) < timeout
    ensures Supported(gate, expected, api.answers, old(api.snapshots), api.snapshots, r)
    ensures Conclusive(gate, expected, api.answers, api.snapshots - 1) || api.now >= old(api.now) + timeout
  {
    var start := api.Clock();
    var jobs: seq<Job> := [];
    ghost var first, n: nat := api.snapshots, 0;
    ghost var tick: nat := NextTick(api.delays, api.calls, interval);
    while true
      invariant api.snapshots == first + n && api.now >= start + Times(n, interval)
      invariant n >= 1 ==> Times(n - 1, interval) < timeout
      invariant Unanswered(gate, expected, api.answers, first, api.snapshots, jobs)
      invariant AwaitsTick(api.delays, tick, api.calls, interval)
      decreases Max(0, start + timeout - api.now), Max(0, tick - api.calls)
    {
      ghost var calls, now := api.calls, api.now;
      var current;
      jobs, current := Poll(gate, expected, api, first, jobs);
      if current.Some? {
        return current.value;
      }
      var late;
      late, tick := Pause(api, start + timeout, interval, calls, now, tick);
      if late {
        return GiveUp(gate, expected, jobs, api.answers, first, api.snapshots);
      }
      n := n + 1;
    }
  }

  /** The end of a turn that began after `calls` calls at the time `now`: past the deadline it is late; otherwise it
      sleeps, and either the clock has advanced or its next advance has come closer. */
  method Pause(api: Api, deadline: int, interval: nat, ghost calls: nat, ghost now: int, ghost tick: nat)
    returns (late: bool, ghost next: nat)
    requires interval > 0 || NeverStops(api.delays)
    requires AwaitsTick(api.delays, tick, calls, interval)
    requires api.calls == calls + 1 && api.now == now + api.delays(calls)
    modifies api`calls, api`now
    ensures late ==> api.now >= deadline
    ensures !late ==> old(api.now) < deadline && api.now >= old(api.now) + interval
    ensures !late ==> AwaitsTick(api.delays, next, api.calls, interval)
    ensures !late ==>
              || Max(0, deadline - api.now) < Max(0, deadline - now)
              || (api.now == now && Max(0, next - api.calls) < Max(0, tick - calls))
  {
    var time := api.Clock();
    late, next := time >= deadline, tick;
    if !late {
      api.Sleep(interval);
      TimePasses(api.delays, tick, calls, now, interval);
      if tick < api.calls {
        next := NextTick(api.delays, api.calls, interval);
      }
    }
  }

  /** The clock advances again after `n` calls. */
  ghost predicate AdvancesAfter(delays: nat -> nat, n: nat) {
    exists k: nat :: k >= n && delays(k) > 0
  }

  ghost predicate NeverStops(delays: nat -> nat) {
    forall n: nat :: AdvancesAfter(delays, n)
  }

  /** Where the clock advances next, if that is what ends the waiting. */
  ghost function NextTick(delays: nat -> nat, n: nat, interval: nat): (k: nat)
    requires interval > 0 || NeverStops(delays)
    ensures interval == 0 ==> k >= n && delays(k) > 0
  {
    if interval > 0 then 0
    else
      assert AdvancesAfter(delays, n);
      var k: nat :| k >= n && delays(k) > 0;
      k
  }

  ghost predicate AwaitsTick(delays: nat -> nat, tick: nat, calls: nat, interval: nat) {
    interval == 0 ==> tick >= calls && delays(tick) > 0
  }

  /** In a turn of three calls either the clock advances or the next advance comes closer. */
  lemma TimePasses(delays: nat -> nat, tick: nat, calls: nat, now: int, interval: nat)
    requires AwaitsTick(delays, tick, calls, interval)
    ensures var later := now + delays(calls) + delays(calls + 1) + interval + delays(calls + 2);
            later > now || (calls + 3 <= tick && later == now)
  {
  }

  function Max(a: int, b: int): int {
    if a < b then b else a
  }

  /** `n` intervals. */
  function Times(n: nat, interval: nat): nat {
    if n == 0 then 0 else Times(n - 1, interval) + interval
  }

  lemma {:induction false} TimesIsProduct(n: nat, interval: nat)
    ensures Times(n, interval) == n * interval
  {
    if n > 0 {
      TimesIsProduct(n - 1, interval);
    }
  }

  /** Exactly one outcome per awaited name, and none is "success" unless the last good snapshot says so. */
  lemma SupportedIsHonest(gate: string, expected: seq<string>, answers: nat -> Option<seq<Job>>, first: nat, end: nat,
                          r: map<string, string>)
    requires first < end && Supported(gate, expected, answers, first, end, r)
    ensures r.Keys == set name | name in expected
    ensures forall name <- r :: r[name] == "success" ==> Succeeded(LastGood(answers, first, end), name)
  {
    var jobs := LastGood(answers, first, end);
    forall name | name in r && r[name] == "success" ensures Succeeded(jobs, name) {
      if Conclusive(gate, expected, answers, end - 1) {
        SuccessIsEarned(gate, jobs, name, false);
      } else {
        FinalSuccessIsEarned(gate, jobs, name);
      }
    }
  }
}

/**
 The Windows half of `probe-unica-wire.py`: attaching a suspended process to a kill-on-close Job Object,
 rolling the attach back, and the retained job with its member handles.

 Every Win32 call may fail. The operating system is an oracle that answers the n-th call, and the log of
 calls with their answers is the history the theorems speak about. A handle is named by the position in
 the log of the call that opened it, so two openings never share a name.
 */
module WindowsJob {
  import opened Wrappers

  type Handle = nat

  datatype Call =
    | CreateJob
    | SetKillOnClose(job: Handle)
    | AssignProcess(job: Handle)
    | CreateThreadSnapshot
    | OpenPrimaryThread(snapshot: Handle)
    | ResumeThread(thread: Handle)
    | TerminateProcess
    | TerminateJob(job: Handle)
    | WaitLeader
    | WaitMember(handle: Handle)
    | ClosePopen
    | CloseHandle(handle: Handle)
    | JobProcessIds(job: Handle)
    | OpenJobMember(job: Handle, pid: nat)
    | CountActive(job: Handle)

  /** `value` is the suspend count, the number of active processes, or non-zero for "is a member"; `signaled` is the
      result of a wait; `pids` is the process list of a job. */
  datatype Answer = Answer(ok: bool, value: int, signaled: bool, pids: seq<nat>)

  datatype Event = Event(call: Call, answer: Answer)

  type Log = seq<Event>

  datatype Problem =
    | NoProcessHandle
    | Failed(call: Call)
    | TimedOut(call: Call)
    | UnexpectedSuspendCount(count: int)
    | JobHandleClosed
    | LeaderHandleUnavailable

  // ---------- Histories ----------

  predicate Did(log: Log, k: nat, call: Call) {
    k < |log| && log[k].call == call
  }

  predicate DidOk(log: Log, k: nat, call: Call) {
    Did(log, k, call) && log[k].answer.ok
  }

  predicate IsMemberOpening(e: Event) {
    e.call.OpenJobMember? && e.answer.ok && e.answer.value != 0
  }

  predicate Opens(e: Event) {
    || (e.answer.ok && (e.call.CreateJob? || e.call.CreateThreadSnapshot? || e.call.OpenPrimaryThread?))
    || IsMemberOpening(e)
  }

  function CloseAttempts(log: Log, h: Handle): nat {
    if log == [] then 0
    else CloseAttempts(log[..|log| - 1], h) + (if log[|log| - 1].call == CloseHandle(h) then 1 else 0)
  }

  /** Each close is of a handle opened earlier and not yet closed successfully. */
  ghost predicate Disciplined(log: Log) {
    || log == []
    || var k := |log| - 1;
       && Disciplined(log[..k])
       && (log[k].call.CloseHandle? ==> log[k].call.handle < k && !ClosedOk(log[..k], log[k].call.handle))
  }

  /** So no handle is ever closed again after a successful close. */
  lemma {:induction false} NeverClosedAgain(log: Log, j: nat, k: nat)
    requires Disciplined(log) && j < k < |log| && log[j].call.CloseHandle? && log[j].answer.ok
    ensures log[k].call != log[j].call
  {
    var last := |log| - 1;
    if k < last {
      NeverClosedAgain(log[..last], j, k);
    } else {
      assert DidOk(log[..last], j, CloseHandle(log[j].call.handle));
    }
  }

  ghost predicate ClosedOk(log: Log, h: Handle) {
    exists k :: DidOk(log, k, CloseHandle(h))
  }

  ghost predicate CloseTried(log: Log, from: nat, h: Handle) {
    exists k: nat :: from <= k && Did(log, k, CloseHandle(h))
  }

  /** A thread resumes only after its process is in a job that is already set to die with its handle. */
  ghost predicate ResumeIsGuarded(log: Log, from: nat) {
    forall k :: from <= k < |log| && log[k].call.ResumeThread? ==>
      exists job: nat, a: nat, b: nat ::
        && from <= job < a < b < k
        && DidOk(log, job, CreateJob) && DidOk(log, a, SetKillOnClose(job)) && DidOk(log, b, AssignProcess(job))
  }

  /** `after` continues `before` by exactly these calls. */
  ghost predicate Grew(before: Log, after: Log, calls: seq<Call>) {
    && |after| == |before| + |calls|
    && before <= after
    && forall i :: |before| <= i < |after| ==> after[i].call == calls[i - |before|]
  }

  /** `after` continues `before` with answers of the system, by calls that do not concern the leader. */
  ghost predicate Continues(os: nat -> Answer, before: Log, after: Log) {
    && before <= after
    && forall k :: |before| <= k < |after| ==>
         after[k].answer == os(k) && !after[k].call.WaitLeader? && !after[k].call.ClosePopen?
  }

  lemma ContinuesTwice(os: nat -> Answer, a: Log, b: Log, c: Log)
    requires Continues(os, a, b) && Continues(os, b, c)
    ensures Continues(os, a, c)
  {
    assert forall i :: 0 <= i < |b| ==> c[i] == b[i];
  }

  lemma GrewTwice(a: Log, b: Log, c: Log, first: seq<Call>, second: seq<Call>)
    requires Grew(a, b, first) && Grew(b, c, second)
    ensures Grew(a, c, first + second)
  {
    assert forall i :: 0 <= i < |b| ==> c[i] == b[i];
  }

  // ---------- The operating system and the spawned process ----------

  class Api {
    const os: nat -> Answer
    var log: Log

    constructor (os: nat -> Answer)
      ensures this.os == os && log == []
    {
      this.os := os;
      log := [];
    }

    method Invoke(call: Call) returns (a: Answer)
      modifies this
      ensures a == os(|old(log)|) && log == old(log) + [Event(call, a)]
      ensures Grew(old(log), log, [call])
    {
      a := os(|log|);
      log := log + [Event(call, a)];
    }
  }

  class Leader {
    var handle: bool
    var returncode: Option<int>

    /** `close_popen_handle`: a closed handle leaves a return code behind. */
    method ClosePopenHandle(api: Api) returns (errors: seq<Problem>)
      modifies this, api
      ensures !old(handle) ==> errors == [] && api.log == old(api.log) && returncode == old(returncode) && !handle
      ensures old(handle) ==>
                && Grew(old(api.log), api.log, [ClosePopen])
                && api.log[|old(api.log)|].answer == api.os(|old(api.log)|)
                && handle == !api.log[|old(api.log)|].answer.ok
                && (errors == [] <==> !handle)
                && returncode == if handle || old(returncode).Some? then old(returncode) else Some(1)
    {
      errors := [];
      if handle {
        var a := api.Invoke(ClosePopen);
        if a.ok {
          handle := false;
          if returncode.None? {
            returncode := Some(1);
          }
        } else {
          errors := [Failed(ClosePopen)];
        }
      }
    }

    constructor (handle: bool, returncode: Option<int>)
      ensures this.handle == handle && this.returncode == returncode
    {
      this.handle := handle;
      this.returncode := returncode;
    }
  }

  // ---------- Attach and roll back ----------

  /** What the guarded block of the attach opened and reached. */
  datatype Attempt = Attempt(job: Option<Handle>, snapshot: Option<Handle>, thread: Option<Handle>,
                             inJob: bool, failure: Option<Problem>)
  {
    function Resources(): seq<Handle> {
      (if thread.Some? then [thread.value] else []) + (if snapshot.Some? then [snapshot.value] else [])
    }
  }

  /** The calls of the guarded block, in order, when the log has `n` entries. */
  function Script(n: nat): seq<Call> {
    [CreateJob, SetKillOnClose(n), AssignProcess(n), CreateThreadSnapshot, OpenPrimaryThread(n + 3),
     ResumeThread(n + 4)]
  }

  /** The first `done` calls of the block succeeded; the next one, if any, failed and was the last. */
  ghost predicate RanScript(log: Log, n: nat, done: nat) {
    && done <= 6 && |log| == n + (if done < 6 then done + 1 else 6)
    && (forall k :: n <= k < |log| ==> log[k].call == Script(n)[k - n])
    && (forall k :: n <= k < |log| ==> (log[k].answer.ok <==> k < n + done))
  }

  ghost predicate Passed(log: Log, n: nat, done: nat) {
    && done <= 6 && |log| == n + done
    && (forall k :: n <= k < |log| ==> log[k].call == Script(n)[k - n] && log[k].answer.ok)
  }

  lemma NextCall(before: Log, e: Event, n: nat, done: nat)
    requires Passed(before, n, done) && done < 6 && e.call == Script(n)[done]
    ensures e.answer.ok ==> Passed(before + [e], n, done + 1)
    ensures !e.answer.ok ==> RanScript(before + [e], n, done)
  {
  }

  ghost predicate Describes(t: Attempt, log: Log, n: nat, done: nat) {
    && t.job == (if done >= 1 then Some(n) else None)
    && t.snapshot == (if done >= 4 then Some(n + 3) else None)
    && t.thread == (if done >= 5 then Some(n + 4) else None)
    && t.inJob == (done >= 3)
    && (t.failure.None? <==> done == 6 && RanScript(log, n, 6) && log[n + 5].answer.value == 1)
  }

  method TryAttach(api: Api) returns (t: Attempt, ghost done: nat)
    modifies api
    ensures old(api.log) <= api.log
    ensures RanScript(api.log, |old(api.log)|, done) && Describes(t, api.log, |old(api.log)|, done)
  {
    t, done := TryAssign(api);
    if t.failure.None? {
      t, done := TryResume(api, t, |old(api.log)|);
    }
  }

  /** The first half: the process is in a job that dies with its handle. */
  method TryAssign(api: Api) returns (t: Attempt, ghost done: nat)
    modifies api
    ensures old(api.log) <= api.log && done <= 3
    ensures done == 3 ==> Passed(api.log, |old(api.log)|, 3)
                          && t == Attempt(Some(|old(api.log)|), None, None, true, None)
    ensures done < 3 ==> RanScript(api.log, |old(api.log)|, done) && Describes(t, api.log, |old(api.log)|, done)
                         && t.failure.Some?
  {
    t, done := Attempt(None, None, None, false, None), 0;
    ghost var log, n := api.log, |api.log|;
    var a := api.Invoke(CreateJob);
    NextCall(log, api.log[|log|], n, 0);
    if !a.ok {
      return t.(failure := Some(Failed(CreateJob))), 0;
    }
    var job := |api.log| - 1;
    t := t.(job := Some(job));
    log := api.log;
    a := api.Invoke(SetKillOnClose(job));
    NextCall(log, api.log[|log|], n, 1);
    if !a.ok {
      return t.(failure := Some(Failed(SetKillOnClose(job)))), 1;
    }
    log := api.log;
    a := api.Invoke(AssignProcess(job));
    NextCall(log, api.log[|log|], n, 2);
    if !a.ok {
      return t.(failure := Some(Failed(AssignProcess(job)))), 2;
    }
    return t.(inJob := true), 3;
  }

  /** The second half: find the primary thread and resume it. */
  method TryResume(api: Api, start: Attempt, ghost n: nat) returns (t: Attempt, ghost done: nat)
    requires Passed(api.log, n, 3) && start == Attempt(Some(n), None, None, true, None)
    modifies api
    ensures old(api.log) <= api.log
    ensures RanScript(api.log, n, done) && Describes(t, api.log, n, done)
  {
    t, done := start, 3;
    ghost var log := api.log;
    var a := api.Invoke(CreateThreadSnapshot);
    NextCall(log, api.log[|log|], n, 3);
    if !a.ok {
      return t.(failure := Some(Failed(CreateThreadSnapshot))), 3;
    }
    var snapshot := |api.log| - 1;
    t := t.(snapshot := Some(snapshot));
    log := api.log;
    a := api.Invoke(OpenPrimaryThread(snapshot));
    NextCall(log, api.log[|log|], n, 4);
    if !a.ok {
      return t.(failure := Some(Failed(OpenPrimaryThread(snapshot)))), 4;
    }
    var thread := |api.log| - 1;
    t := t.(thread := Some(thread));
    log := api.log;
    a := api.Invoke(ResumeThread(thread));
    NextCall(log, api.log[|log|], n, 5);
    if !a.ok {
      return t.(failure := Some(Failed(ResumeThread(thread)))), 5;
    }
    done := 6;
    if a.value != 1 {
      return t.(failure := Some(UnexpectedSuspendCount(a.value))), 6;
    }
  }

  /** Those of the first `i` handles whose close, logged from position `n` on, failed. */
  function Unclosed(handles: seq<Handle>, log: Log, n: nat, i: nat): seq<Handle>
    requires i <= |handles| && n + i <= |log|
  {
    if i == 0 then []
    else Unclosed(handles, log, n, i - 1) + (if log[n + i - 1].answer.ok then [] else [handles[i - 1]])
  }

  function Closes(handles: seq<Handle>): seq<Call> {
    seq(|handles|, i requires 0 <= i < |handles| => CloseHandle(handles[i]))
  }

  lemma UnclosedPrefix(handles: seq<Handle>, log: Log, e: Event, n: nat, i: nat)
    requires i <= |handles| && n + i <= |log|
    ensures Unclosed(handles, log + [e], n, i) == Unclosed(handles, log, n, i)
  {
  }

  /** Tries to close each handle once, in order. */
  method CloseEach(api: Api, handles: seq<Handle>) returns (unclosed: seq<Handle>)
    modifies api
    ensures Grew(old(api.log), api.log, Closes(handles))
    ensures unclosed == Unclosed(handles, api.log, |old(api.log)|, |handles|)
  {
    unclosed := [];
    ghost var n := |api.log|;
    for i := 0 to |handles|
      invariant Grew(old(api.log), api.log, Closes(handles[..i]))
      invariant unclosed == Unclosed(handles, api.log, n, i)
    {
      ghost var before := api.log;
      var a := api.Invoke(CloseHandle(handles[i]));
      UnclosedPrefix(handles, before, api.log[|before|], n, i);
      CloseOneMore(old(api.log), before, api.log, handles, i);
      if !a.ok {
        unclosed := unclosed + [handles[i]];
      }
    }
    assert handles[..|handles|] == handles;
  }

  lemma CloseOneMore(start: Log, before: Log, after: Log, handles: seq<Handle>, i: nat)
    requires i < |handles| && Grew(start, before, Closes(handles[..i]))
             && Grew(before, after, [CloseHandle(handles[i])])
    ensures Grew(start, after, Closes(handles[..i + 1]))
  {
    assert Closes(handles[..i + 1]) == Closes(handles[..i]) + [CloseHandle(handles[i])];
    GrewTwice(start, before, after, Closes(handles[..i]), [CloseHandle(handles[i])]);
  }

  /** The calls that stop the process when an attach is rolled back, in order. */
  function StopCalls(job: Option<Handle>, inJob: bool): seq<Call> {
    KillCalls(job, inJob) + [WaitLeader, ClosePopen]
  }

  function KillCalls(job: Option<Handle>, inJob: bool): seq<Call> {
    if job.Some? && inJob then [TerminateProcess, TerminateJob(job.value)] else [TerminateProcess]
  }

  method Kill(api: Api, job: Option<Handle>, inJob: bool) returns (errors: seq<Problem>)
    modifies api
    ensures Grew(old(api.log), api.log, KillCalls(job, inJob))
  {
    errors := [];
    var a := api.Invoke(TerminateProcess);
    if !a.ok {
      errors := errors + [Failed(TerminateProcess)];
    }
    if job.Some? && inJob {
      ghost var before := api.log;
      a := api.Invoke(TerminateJob(job.value));
      GrewTwice(old(api.log), before, api.log, [TerminateProcess], [TerminateJob(job.value)]);
      if !a.ok {
        errors := errors + [Failed(TerminateJob(job.value))];
      }
    }
  }

  method StopLeader(leader: Leader, api: Api, job: Option<Handle>, inJob: bool) returns (errors: seq<Problem>)
    requires leader.handle
    modifies leader, api
    ensures Grew(old(api.log), api.log, StopCalls(job, inJob))
    ensures leader.handle <==> !api.log[|api.log| - 1].answer.ok
  {
    errors := Kill(api, job, inJob);
    ghost var killed := api.log;
    var a := api.Invoke(WaitLeader);
    if !a.ok {
      errors := errors + [Failed(WaitLeader)];
    } else if !a.signaled {
      errors := errors + [TimedOut(WaitLeader)];
    }
    ghost var waited := api.log;
    var popen := leader.ClosePopenHandle(api);
    GrewTwice(killed, waited, api.log, [WaitLeader], [ClosePopen]);
    GrewTwice(old(api.log), killed, api.log, KillCalls(job, inJob), [WaitLeader, ClosePopen]);
    errors := errors + popen;
  }

  /** The handles a rollback closes, in order: the leftover resources, then the job. */
  function RollbackHandles(job: Option<Handle>, resources: seq<Handle>): seq<Handle> {
    resources + (if job.Some? then [job.value] else [])
  }

  method Rollback(leader: Leader, api: Api, job: Option<Handle>, inJob: bool, resources: seq<Handle>)
    returns (errors: seq<Problem>)
    requires leader.handle
    modifies leader, api
    ensures Grew(old(api.log), api.log, StopCalls(job, inJob) + Closes(RollbackHandles(job, resources)))
  {
    errors := StopLeader(leader, api, job, inJob);
    ghost var stopped := api.log;
    var unclosed := CloseEach(api, RollbackHandles(job, resources));
    GrewTwice(old(api.log), stopped, api.log, StopCalls(job, inJob), Closes(RollbackHandles(job, resources)));
    errors := errors + seq(|unclosed|, i requires 0 <= i < |unclosed| => Failed(CloseHandle(unclosed[i])));
  }

  /** Calls that close distinct, still open handles once each keep the discipline. */
  lemma {:induction false} ClosesKeepDiscipline(before: Log, after: Log, calls: seq<Call>)
    requires Disciplined(before) && Grew(before, after, calls)
    requires forall i :: 0 <= i < |calls| && calls[i].CloseHandle? ==>
               calls[i].handle < |before| && !ClosedOk(before, calls[i].handle)
    requires forall i, j :: 0 <= i < j < |calls| && calls[i].CloseHandle? ==> calls[i] != calls[j]
    ensures Disciplined(after)
    decreases |calls|
  {
    if calls == [] {
      assert after == before;
    } else {
      var k, c := |after| - 1, |calls| - 1;
      ClosesKeepDiscipline(before, after[..k], calls[..c]);
      assert after[k].call == calls[c];
      if calls[c].CloseHandle? {
        ClosedByEither(before, after[..k], calls[..c], calls[c].handle);
      }
    }
  }

  lemma UnopenedIsUnclosed(log: Log, h: Handle)
    requires Disciplined(log) && |log| <= h
    ensures !ClosedOk(log, h) && CloseAttempts(log, h) == 0
  {
    if log != [] {
      var last := |log| - 1;
      UnopenedIsUnclosed(log[..last], h);
      assert log == log[..last] + [log[last]];
      ClosedAfter(log[..last], log[last]);
    }
  }

  /** Which handles the first `done` calls of the block opened. */
  ghost predicate OpenedBy(log: Log, n: nat, done: nat) {
    forall h :: n <= h < |log| ==>
      (Opens(log[h]) <==> (h == n && done >= 1) || (h == n + 3 && done >= 4) || (h == n + 4 && done >= 5))
  }

  /** What a run of the guarded block proves, whichever call failed. */
  lemma ScriptFacts(before: Log, log: Log, n: nat, done: nat)
    requires n == |before| && before <= log && Disciplined(before) && RanScript(log, n, done)
    ensures ResumeIsGuarded(log, n)
    ensures OpenedBy(log, n, done)
    ensures Disciplined(log) && forall h :: n <= h ==> !ClosedOk(log, h)
  {
    ScriptIsGuarded(log, n, done);
    ScriptOpens(log, n, done);
    ScriptClosesNothing(before, log, n, done);
  }

  lemma ScriptOpens(log: Log, n: nat, done: nat)
    requires RanScript(log, n, done)
    ensures OpenedBy(log, n, done)
  {
  }

  lemma ScriptClosesNothing(before: Log, log: Log, n: nat, done: nat)
    requires n == |before| && before <= log && Disciplined(before) && RanScript(log, n, done)
    ensures Disciplined(log) && forall h :: n <= h ==> !ClosedOk(log, h)
  {
    ScriptGrows(before, log, n, done);
    ScriptCloses(before, log, Script(n)[..|log| - n]);
  }

  lemma ScriptIsGuarded(log: Log, n: nat, done: nat)
    requires RanScript(log, n, done)
    ensures ResumeIsGuarded(log, n)
  {
    if done >= 5 {
      assert DidOk(log, n, CreateJob) && DidOk(log, n + 1, SetKillOnClose(n)) && DidOk(log, n + 2, AssignProcess(n));
    }
  }

  lemma ScriptGrows(before: Log, log: Log, n: nat, done: nat)
    requires n == |before| && before <= log && RanScript(log, n, done)
    ensures Grew(before, log, Script(n)[..|log| - n])
    ensures forall c <- Script(n)[..|log| - n] :: !c.CloseHandle?
  {
  }

  /** Calls that close nothing leave every unopened handle unclosed. */
  lemma ScriptCloses(before: Log, log: Log, calls: seq<Call>)
    requires Disciplined(before) && Grew(before, log, calls) && forall c <- calls :: !c.CloseHandle?
    ensures Disciplined(log) && forall h :: |before| <= h ==> !ClosedOk(log, h)
  {
    ClosesKeepDiscipline(before, log, calls);
    forall h | |before| <= h ensures !ClosedOk(log, h) {
      UnopenedIsUnclosed(before, h);
      ClosedByEither(before, log, calls, h);
    }
  }

  /** Calls that neither open nor resume leave those facts alone. */
  lemma LaterCallsKeepGuard(before: Log, after: Log, calls: seq<Call>, n: nat)
    requires Grew(before, after, calls) && n <= |before| && ResumeIsGuarded(before, n)
    requires forall c <- calls ::
               c.CloseHandle? || c.TerminateProcess? || c.TerminateJob? || c.WaitLeader? || c.ClosePopen?
    ensures ResumeIsGuarded(after, n)
    ensures forall h :: |before| <= h < |after| ==> !Opens(after[h])
  {
    forall k | |before| <= k < |after| ensures !after[k].call.ResumeThread? && !Opens(after[k]) {
      assert after[k].call == calls[k - |before|] && calls[k - |before|] in calls;
    }
    forall k | n <= k < |after| && after[k].call.ResumeThread?
      ensures exists job: nat, a: nat, b: nat ::
                && n <= job < a < b < k
                && DidOk(after, job, CreateJob) && DidOk(after, a, SetKillOnClose(job))
                   && DidOk(after, b, AssignProcess(job))
    {
      assert before[k] == after[k];
      var job: nat, a: nat, b: nat :|
        && n <= job < a < b < k
        && DidOk(before, job, CreateJob) && DidOk(before, a, SetKillOnClose(job))
           && DidOk(before, b, AssignProcess(job));
      assert DidOk(after, job, CreateJob) && DidOk(after, a, SetKillOnClose(job))
             && DidOk(after, b, AssignProcess(job));
    }
  }

  /** Opened since `n` and not successfully closed. */
  ghost predicate LeftOpen(log: Log, n: nat, h: Handle) {
    n <= h < |log| && Opens(log[h]) && !ClosedOk(log, h)
  }

  ghost predicate Attached(log: Log, n: nat, job: Handle) {
    && n <= job && DidOk(log, job, CreateJob)
    && (forall h: nat :: LeftOpen(log, n, h) <==> h == job)
    && (exists k: nat :: n <= k && DidOk(log, k, SetKillOnClose(job)))
    && (exists k: nat :: n <= k && DidOk(log, k, AssignProcess(job)))
    && (exists k: nat, thread: nat :: n <= k && DidOk(log, k, ResumeThread(thread)) && log[k].answer.value == 1)
  }

  /** A failed attach asked for the process to die, and tried to close everything it opened. */
  ghost predicate Undone(log: Log, n: nat) {
    && (exists k: nat :: n <= k && Did(log, k, TerminateProcess))
    && (exists k: nat :: n <= k && Did(log, k, ClosePopen))
    && (forall h :: n <= h < |log| && Opens(log[h]) ==> CloseTried(log, n, h))
    && (forall k: nat, job :: n <= k && DidOk(log, k, AssignProcess(job)) ==>
          exists j: nat :: k < j && Did(log, j, TerminateJob(job)))
  }

  /** A call since `n` failed, or the thread was not suspended exactly once. */
  ghost predicate SomethingFailed(log: Log, n: nat) {
    exists k: nat :: n <= k < |log| && (!log[k].answer.ok || (log[k].call.ResumeThread? && log[k].answer.value != 1))
  }

  lemma FailureLasts(before: Log, after: Log, n: nat)
    requires before <= after && SomethingFailed(before, n)
    ensures SomethingFailed(after, n)
  {
    var k: nat :| n <= k < |before|
    && (!before[k].answer.ok || (before[k].call.ResumeThread? && before[k].answer.value != 1));
    assert after[k] == before[k];
  }

  lemma {:induction false} UnclosedFailed(handles: seq<Handle>, log: Log, n: nat, i: nat)
    requires i <= |handles| && n + i <= |log| && Unclosed(handles, log, n, i) != []
    ensures SomethingFailed(log, n)
  {
    if log[n + i - 1].answer.ok {
      UnclosedFailed(handles, log, n, i - 1);
    }
  }

  lemma FailedAttempt(t: Attempt, log: Log, n: nat, done: nat)
    requires RanScript(log, n, done) && Describes(t, log, n, done) && t.failure.Some?
    ensures SomethingFailed(log, n)
  {
    if done < 6 {
      assert !log[n + done].answer.ok;
    } else {
      assert log[n + 5].call == ResumeThread(n + 4);
    }
  }

  lemma AttachedWhenClosed(log: Log, after: Log, n: nat)
    requires RanScript(log, n, 6) && log[n + 5].answer.value == 1 && OpenedBy(log, n, 6)
    requires log <= after && forall h :: |log| <= h < |after| ==> !Opens(after[h])
    requires !ClosedOk(after, n) && ClosedOk(after, n + 3) && ClosedOk(after, n + 4)
    ensures Attached(after, n, n)
  {
    assert DidOk(after, n, CreateJob) && DidOk(after, n + 1, SetKillOnClose(n))
           && DidOk(after, n + 2, AssignProcess(n));
    assert DidOk(after, n + 5, ResumeThread(n + 4));
    assert forall h :: n <= h < |log| ==> after[h] == log[h];
  }

  /** After a rollback of the right resources everything the attempt opened has a close attempt. */
  lemma UndoneByRollback(log: Log, mid: Log, after: Log, n: nat, done: nat, job: Option<Handle>, resources: seq<Handle>)
    requires CanRollBack(log, mid, n, done, resources)
    requires job == if done >= 1 then Some(n) else None
    requires Grew(mid, after, StopCalls(job, done >= 3) + Closes(RollbackHandles(job, resources)))
    ensures Undone(after, n)
  {
    var handles := RollbackHandles(job, resources);
    assert done >= 1 ==> handles[|handles| - 1] == n;
    RollbackReaches(mid, after, job, done >= 3, handles);
    forall h | n <= h < |after| && Opens(after[h]) ensures CloseTried(after, n, h) {
      assert after[h] == mid[h];
      if h in handles {
      } else {
        assert h != n;
        var k: nat :| n <= k && Did(mid, k, CloseHandle(h));
        assert Did(after, k, CloseHandle(h));
      }
    }
    forall k: nat, j | n <= k && DidOk(after, k, AssignProcess(j))
      ensures exists i: nat :: k < i && Did(after, i, TerminateJob(j))
    {
      assert after[k] == mid[k] == log[k];
    }
  }

  /** Where the calls of a rollback stand in the log. */
  lemma RollbackReaches(mid: Log, after: Log, job: Option<Handle>, inJob: bool, handles: seq<Handle>)
    requires Grew(mid, after, StopCalls(job, inJob) + Closes(handles))
    ensures Did(after, |mid|, TerminateProcess)
    ensures job.Some? && inJob ==> Did(after, |mid| + 1, TerminateJob(job.value))
    ensures exists k: nat :: |mid| <= k && Did(after, k, ClosePopen)
    ensures forall h <- handles :: CloseTried(after, |mid|, h)
    ensures forall k :: |mid| <= k < |after| ==>
              !Opens(after[k]) && !after[k].call.AssignProcess? && !after[k].call.ResumeThread?
  {
    var stop := StopCalls(job, inJob);
    var m := |mid|;
    assert forall i :: 0 <= i < |stop| ==> (stop + Closes(handles))[i] == stop[i];
    assert Did(after, m + |stop| - 1, ClosePopen);
    forall i | 0 <= i < |handles| ensures CloseTried(after, m, handles[i]) {
      assert (stop + Closes(handles))[|stop| + i] == CloseHandle(handles[i]);
      assert Did(after, m + |stop| + i, CloseHandle(handles[i]));
    }
    forall k | m <= k < |after|
      ensures !Opens(after[k]) && !after[k].call.AssignProcess? && !after[k].call.ResumeThread?
    {
      assert after[k].call == (stop + Closes(handles))[k - m];
    }
  }

  /** Assign a suspended process to a kill-on-close job, then resume it. */
  method Attach(leader: Leader, api: Api) returns (r: Result<ProcessJob, seq<Problem>>)
    requires Disciplined(api.log)
    modifies leader, api
    ensures old(api.log) <= api.log && Disciplined(api.log)
    ensures ResumeIsGuarded(api.log, |old(api.log)|)
    ensures !old(leader.handle) ==> r == Err([NoProcessHandle]) && api.log == old(api.log)
    ensures r.Ok? ==>
              && fresh(r.value) && r.value.Valid() && r.value.api == api && r.value.leader == leader
              && r.value.handle.Some? && r.value.members == map[]
              && Attached(api.log, |old(api.log)|, r.value.handle.value) && leader.handle
    ensures r.Err? && old(leader.handle) ==> Undone(api.log, |old(api.log)|) && SomethingFailed(api.log, |old(api.log)|)
  {
    if leader.handle {
      r := AttachSuspended(leader, api);
    } else {
      r := Err([NoProcessHandle]);
    }
  }

  method AttachSuspended(leader: Leader, api: Api) returns (r: Result<ProcessJob, seq<Problem>>)
    requires Disciplined(api.log) && leader.handle
    modifies leader, api
    ensures old(api.log) <= api.log && Disciplined(api.log)
    ensures ResumeIsGuarded(api.log, |old(api.log)|)
    ensures r.Ok? ==>
              && fresh(r.value) && r.value.Valid() && r.value.api == api && r.value.leader == leader
              && r.value.handle.Some? && r.value.members == map[]
              && Attached(api.log, |old(api.log)|, r.value.handle.value) && leader.handle
    ensures r.Err? ==> Undone(api.log, |old(api.log)|) && SomethingFailed(api.log, |old(api.log)|)
  {
    ghost var n := |api.log|;
    ghost var tried, done;
    var t, resources, failures;
    t, resources, failures, tried, done := TryAndClose(api);
    if failures == [] {
      assert LeftOpen(api.log, n, n);
      var job := new ProcessJob(t.job.value, api, leader);
      r := Ok(job);
    } else {
      var errors := Abort(leader, api, t, resources, tried, n, done);
      r := Err(failures + errors);
    }
  }

  /** The guarded block and the closing of what only it needed. Without failures the job is all that stays open;
      otherwise `resources` is what the rollback has to close besides the job. */
  method TryAndClose(api: Api)
    returns (t: Attempt, resources: seq<Handle>, failures: seq<Problem>, ghost tried: Log, ghost done: nat)
    requires Disciplined(api.log)
    modifies api
    ensures old(api.log) <= api.log && Disciplined(api.log) && ResumeIsGuarded(api.log, |old(api.log)|)
    ensures failures == [] ==> t.job == Some(|old(api.log)|) && Attached(api.log, |old(api.log)|, |old(api.log)|)
    ensures failures != [] ==>
              && SomethingFailed(api.log, |old(api.log)|) && Describes(t, tried, |old(api.log)|, done)
              && CanRollBack(tried, api.log, |old(api.log)|, done, resources)
  {
    ghost var n := |api.log|;
    t, done := TryAttach(api);
    tried := api.log;
    resources := t.Resources();
    if t.failure.Some? {
      FailedTry(old(api.log), t, tried, done);
      failures := [t.failure.value];
    } else {
      resources := CloseResources(api, resources, old(api.log));
      failures := seq(|resources|, i requires 0 <= i < |resources| => Failed(CloseHandle(resources[i])));
    }
  }

  /** A failed block leaves what the rollback needs. */
  lemma FailedTry(before: Log, t: Attempt, tried: Log, done: nat)
    requires before <= tried && Disciplined(before) && RanScript(tried, |before|, done)
    requires Describes(t, tried, |before|, done) && t.failure.Some?
    ensures Disciplined(tried) && ResumeIsGuarded(tried, |before|) && SomethingFailed(tried, |before|)
    ensures CanRollBack(tried, tried, |before|, done, t.Resources())
  {
    ScriptFacts(before, tried, |before|, done);
    TriedCanRollBack(t, tried, |before|, done);
    FailedAttempt(t, tried, |before|, done);
  }

  lemma TriedCanRollBack(t: Attempt, tried: Log, n: nat, done: nat)
    requires RanScript(tried, n, done) && Describes(t, tried, n, done) && OpenedBy(tried, n, done)
    requires forall h :: n <= h ==> !ClosedOk(tried, h)
    ensures CanRollBack(tried, tried, n, done, t.Resources())
  {
  }

  /** The success path closes the thread and the snapshot: either the job is all that stays open, or
      what could not be closed is left to the rollback. */
  method CloseResources(api: Api, resources: seq<Handle>, ghost before: Log) returns (unclosed: seq<Handle>)
    requires before <= api.log && Disciplined(before) && resources == [|before| + 4, |before| + 3]
    requires RanScript(api.log, |before|, 6) && api.log[|before| + 5].answer.value == 1
    modifies api
    ensures old(api.log) <= api.log && Disciplined(api.log) && ResumeIsGuarded(api.log, |before|)
    ensures if unclosed == [] then Attached(api.log, |before|, |before|) else SomethingFailed(api.log, |before|)
    ensures CanRollBack(old(api.log), api.log, |before|, 6, unclosed)
  {
    ghost var n := |before|;
    ScriptFacts(before, api.log, n, 6);
    unclosed := CloseEach(api, resources);
    ClosePairKeeps(old(api.log), api.log, n);
    ClosePairCanRollBack(old(api.log), api.log, n, unclosed);
    if unclosed == [] {
      ClosePairLeaves(old(api.log), api.log, n, unclosed);
      AttachedWhenClosed(old(api.log), api.log, n);
    } else {
      UnclosedFailed(resources, api.log, n + 6, 2);
    }
  }

  lemma ClosePairCanRollBack(tried: Log, log: Log, n: nat, unclosed: seq<Handle>)
    requires RanScript(tried, n, 6) && OpenedBy(tried, n, 6)
    requires !ClosedOk(tried, n) && !ClosedOk(tried, n + 3) && !ClosedOk(tried, n + 4)
    requires Grew(tried, log, Closes([n + 4, n + 3]))
    requires forall h :: |tried| <= h < |log| ==> !Opens(log[h]) && log[h].call.CloseHandle?
    requires unclosed == Unclosed([n + 4, n + 3], log, n + 6, 2)
    ensures CanRollBack(tried, log, n, 6, unclosed)
  {
    ClosePairLeaves(tried, log, n, unclosed);
  }

  /** A rollback that closes `resources` and the job will account for everything the attempt opened. */
  ghost predicate CanRollBack(tried: Log, log: Log, n: nat, done: nat, resources: seq<Handle>) {
    && RanScript(tried, n, done) && OpenedBy(tried, n, done) && tried <= log
    && (forall h :: |tried| <= h < |log| ==> !Opens(log[h]) && !log[h].call.AssignProcess?)
    && (done >= 4 ==> n + 3 in resources || CloseTried(log, n, n + 3))
    && (done >= 5 ==> n + 4 in resources || CloseTried(log, n, n + 4))
    && (forall h <- resources :: n < h < |tried| && !ClosedOk(log, h)) && !ClosedOk(log, n)
    && (forall i, j :: 0 <= i < j < |resources| ==> resources[i] != resources[j])
  }

  method Abort(leader: Leader, api: Api, t: Attempt, resources: seq<Handle>, ghost tried: Log, ghost n: nat,
               ghost done: nat)
    returns (errors: seq<Problem>)
    requires leader.handle && Disciplined(api.log) && ResumeIsGuarded(api.log, n)
    requires Describes(t, tried, n, done) && CanRollBack(tried, api.log, n, done, resources)
    requires SomethingFailed(api.log, n)
    modifies leader, api
    ensures old(api.log) <= api.log && Disciplined(api.log) && ResumeIsGuarded(api.log, n) && Undone(api.log, n)
    ensures SomethingFailed(api.log, n)
  {
    errors := Rollback(leader, api, t.job, t.inJob, resources);
    UndoneByRollback(tried, old(api.log), api.log, n, done, t.job, resources);
    RollbackKeeps(old(api.log), api.log, n, t.job, t.inJob, resources);
    FailureLasts(old(api.log), api.log, n);
  }

  /** The success path closes the thread and the snapshot once. */
  lemma ClosePairKeeps(tried: Log, log: Log, n: nat)
    requires |tried| == n + 6 && Disciplined(tried) && ResumeIsGuarded(tried, n)
    requires !ClosedOk(tried, n + 3) && !ClosedOk(tried, n + 4)
    requires Grew(tried, log, Closes([n + 4, n + 3]))
    ensures Disciplined(log) && ResumeIsGuarded(log, n)
    ensures forall h :: |tried| <= h < |log| ==> !Opens(log[h]) && log[h].call.CloseHandle?
  {
    LaterCallsKeepGuard(tried, log, Closes([n + 4, n + 3]), n);
    ClosesKeepDiscipline(tried, log, Closes([n + 4, n + 3]));
  }

  lemma ClosePairLeaves(tried: Log, log: Log, n: nat, unclosed: seq<Handle>)
    requires |tried| == n + 6 && !ClosedOk(tried, n) && !ClosedOk(tried, n + 3) && !ClosedOk(tried, n + 4)
    requires Grew(tried, log, Closes([n + 4, n + 3]))
    requires unclosed == Unclosed([n + 4, n + 3], log, n + 6, 2)
    ensures CloseTried(log, n, n + 3) && CloseTried(log, n, n + 4)
    ensures unclosed == (if ClosedOk(log, n + 4) then [] else [n + 4]) + (if ClosedOk(log, n + 3) then [] else [n + 3])
    ensures !ClosedOk(log, n)
  {
    var calls := Closes([n + 4, n + 3]);
    assert calls == [CloseHandle(n + 4), CloseHandle(n + 3)];
    UnclosedPair(log, n + 6, n + 4, n + 3);
    ClosedByEither(tried, log, calls, n);
    ClosedByEither(tried, log, calls, n + 3);
    ClosedByEither(tried, log, calls, n + 4);
    assert Did(log, n + 6, CloseHandle(n + 4)) && Did(log, n + 7, CloseHandle(n + 3));
  }

  lemma RollbackKeeps(mid: Log, after: Log, n: nat, job: Option<Handle>, inJob: bool, resources: seq<Handle>)
    requires Disciplined(mid) && n <= |mid| && ResumeIsGuarded(mid, n)
    requires Grew(mid, after, StopCalls(job, inJob) + Closes(RollbackHandles(job, resources)))
    requires forall h <- RollbackHandles(job, resources) :: h < |mid| && !ClosedOk(mid, h)
    requires forall i, j :: 0 <= i < j < |RollbackHandles(job, resources)| ==>
               RollbackHandles(job, resources)[i] != RollbackHandles(job, resources)[j]
    ensures Disciplined(after) && ResumeIsGuarded(after, n)
  {
    var handles := RollbackHandles(job, resources);
    var stop, calls := StopCalls(job, inJob), StopCalls(job, inJob) + Closes(handles);
    forall i | 0 <= i < |calls| && calls[i].CloseHandle?
      ensures |stop| <= i && calls[i] == CloseHandle(handles[i - |stop|]) && handles[i - |stop|] in handles
    {
    }
    LaterCallsKeepGuard(mid, after, calls, n);
    ClosesKeepDiscipline(mid, after, calls);
  }

  /** A handle is closed by the log it was closed in, or by one of the new calls. */
  lemma ClosedByEither(before: Log, after: Log, calls: seq<Call>, h: Handle)
    requires Grew(before, after, calls)
    ensures ClosedOk(after, h) <==>
            ClosedOk(before, h)
            || exists i :: 0 <= i < |calls| && calls[i] == CloseHandle(h) && after[|before| + i].answer.ok
  {
    if k: nat :| DidOk(before, k, CloseHandle(h)) {
      assert DidOk(after, k, CloseHandle(h));
    }
    if i :| 0 <= i < |calls| && calls[i] == CloseHandle(h) && after[|before| + i].answer.ok {
      assert DidOk(after, |before| + i, CloseHandle(h));
    }
    if k: nat :| DidOk(after, k, CloseHandle(h)) {
      if k < |before| {
        assert DidOk(before, k, CloseHandle(h));
      } else {
        assert calls[k - |before|] == CloseHandle(h);
      }
    }
  }

  lemma ClosedAfter(log: Log, e: Event)
    ensures forall h :: ClosedOk(log + [e], h) <==> ClosedOk(log, h) || (e.answer.ok && e.call == CloseHandle(h))
  {
    forall h ensures ClosedOk(log + [e], h) <==> ClosedOk(log, h) || (e.answer.ok && e.call == CloseHandle(h)) {
      ClosedByEither(log, log + [e], [e.call], h);
      assert (log + [e])[|log| + 0] == e && [e.call][0] == e.call;
    }
  }

  lemma UnclosedPair(log: Log, m: nat, first: Handle, second: Handle)
    requires m + 2 <= |log|
    ensures Unclosed([first, second], log, m, 2)
            == (if log[m].answer.ok then [] else [first]) + (if log[m + 1].answer.ok then [] else [second])
  {
    assert Unclosed([first, second], log, m, 1) == if log[m].answer.ok then [] else [first];
  }

  // ---------- The retained job ----------

  ghost predicate Held(log: Log, members: map<nat, Handle>, h: Handle)
    requires h < |log| && log[h].call.OpenJobMember?
  {
    log[h].call.pid in members && members[log[h].call.pid] == h
  }

  /** `members` are the handles that the calls since `since` opened and have not tried to close: a member
      is opened only while its pid is not held, and closed only while it is held. */
  ghost predicate Kept(log: Log, since: nat, members: map<nat, Handle>)
    decreases |log|
  {
    if |log| <= since then |log| == since && members == map[]
    else
      var k := |log| - 1;
      var e := log[k];
      if IsMemberOpening(e) then
        e.call.pid in members && members[e.call.pid] == k && Kept(log[..k], since, members - {e.call.pid})
      else if e.call.CloseHandle? && since <= e.call.handle < k && IsMemberOpening(log[e.call.handle]) then
        var pid := log[e.call.handle].call.pid;
        pid !in members && Kept(log[..k], since, members[pid := e.call.handle])
      else
        Kept(log[..k], since, members)
  }

  /** Everything was released: each member handle ever opened got exactly one close attempt. */
  ghost predicate EachClosedOnce(log: Log, since: nat) {
    forall h :: since <= h < |log| && IsMemberOpening(log[h]) ==> CloseAttempts(log, h) == 1
  }

  /** A member handle that was opened is held and untouched, or got exactly one close attempt. */
  lemma {:induction false} KeptCounts(log: Log, since: nat, members: map<nat, Handle>, h: Handle)
    requires Disciplined(log) && Kept(log, since, members) && since <= h < |log| && IsMemberOpening(log[h])
    ensures CloseAttempts(log, h) == if Held(log, members, h) then 0 else 1
    decreases |log|
  {
    var k := |log| - 1;
    var e, before := log[k], log[..k];
    if h == k {
      UnopenedIsUnclosed(before, h);
    } else if IsMemberOpening(e) {
      KeptCounts(before, since, members - {e.call.pid}, h);
    } else if e.call.CloseHandle? && since <= e.call.handle < k && IsMemberOpening(log[e.call.handle]) {
      KeptCounts(before, since, members[log[e.call.handle].call.pid := e.call.handle], h);
    } else {
      KeptCounts(before, since, members, h);
    }
  }

  lemma {:induction false} KeptArePoints(log: Log, since: nat, members: map<nat, Handle>, pid: nat)
    requires Kept(log, since, members) && pid in members
    ensures since <= members[pid] < |log| && IsMemberOpening(log[members[pid]]) && log[members[pid]].call.pid == pid
    decreases |log|
  {
    var k := |log| - 1;
    var e, before := log[k], log[..k];
    if IsMemberOpening(e) {
      if pid != e.call.pid {
        KeptArePoints(before, since, members - {e.call.pid}, pid);
      }
    } else if e.call.CloseHandle? && since <= e.call.handle < k && IsMemberOpening(log[e.call.handle]) {
      KeptArePoints(before, since, members[log[e.call.handle].call.pid := e.call.handle], pid);
    } else {
      KeptArePoints(before, since, members, pid);
    }
  }

  lemma AllReleased(log: Log, since: nat)
    requires Disciplined(log) && Kept(log, since, map[])
    ensures EachClosedOnce(log, since)
  {
    forall h | since <= h < |log| && IsMemberOpening(log[h]) ensures CloseAttempts(log, h) == 1 {
      KeptCounts(log, since, map[], h);
    }
  }

  lemma AllReleasedWithout(log: Log, since: nat, members: map<nat, Handle>)
    requires Disciplined(log) && Kept(log, since, members)
    ensures members == map[] ==> EachClosedOnce(log, since)
  {
    if members == map[] {
      AllReleased(log, since);
    }
  }

  lemma AppendDiscipline(log: Log, e: Event)
    requires Disciplined(log) && (e.call.CloseHandle? ==> e.call.handle < |log| && !ClosedOk(log, e.call.handle))
    ensures Disciplined(log + [e])
  {
    assert (log + [e])[..|log|] == log;
  }

  /** A call that neither opens nor closes a member keeps the members. */
  lemma OtherCallsKeep(log: Log, since: nat, members: map<nat, Handle>, e: Event)
    requires Kept(log, since, members) && since <= |log|
    requires !IsMemberOpening(e) && (e.call.CloseHandle? ==> e.call.handle < since)
    ensures Kept(log + [e], since, members)
  {
    assert (log + [e])[..|log|] == log;
  }

  lemma HoldKeeps(log: Log, since: nat, members: map<nat, Handle>, e: Event)
    requires Kept(log, since, members) && since <= |log| && IsMemberOpening(e) && e.call.pid !in members
    ensures Kept(log + [e], since, members[e.call.pid := |log|])
  {
    assert (log + [e])[..|log|] == log;
    assert members[e.call.pid := |log|] - {e.call.pid} == members;
  }

  /** What a job knows of its handles: the log is disciplined, every member handle since `since` is in `rest` or was
      tried once, and the job handle is not closed. */
  ghost predicate Accounts(log: Log, since: nat, handle: Option<Handle>,
                           rest: map<nat, Handle>) {
    && Disciplined(log)
    && since <= |log| && Kept(log, since, rest)
    && (handle.Some? ==> handle.value < since && !ClosedOk(log, handle.value))
  }

  lemma OpenedIsHeld(log: Log, since: nat, handle: Option<Handle>,
                     members: map<nat, Handle>, e: Event)
    requires Accounts(log, since, handle, members)
    requires IsMemberOpening(e) && e.call.pid !in members
    ensures var held := members[e.call.pid := |log|];
            && Accounts(log + [e], since, handle, held)
            && OpeningsHeld(log + [e], |log|, held) && Retains(members, held)
  {
    AppendDiscipline(log, e);
    ClosedAfter(log, e);
    HoldKeeps(log, since, members, e);
  }

  lemma UnopenedIsNotHeld(log: Log, since: nat, handle: Option<Handle>,
                          members: map<nat, Handle>, e: Event)
    requires Accounts(log, since, handle, members)
    requires e.call.OpenJobMember? && !IsMemberOpening(e)
    ensures Accounts(log + [e], since, handle, members) && OpeningsHeld(log + [e], |log|, members)
  {
    OtherCallKeepsAccounts(log, since, handle, members, e);
  }

  /** A call that neither opens nor closes a handle. */
  lemma OtherCallKeepsAccounts(log: Log, since: nat, handle: Option<Handle>,
                               members: map<nat, Handle>, e: Event)
    requires Accounts(log, since, handle, members)
    requires !IsMemberOpening(e) && !e.call.CloseHandle?
    ensures Accounts(log + [e], since, handle, members)
  {
    AppendDiscipline(log, e);
    ClosedAfter(log, e);
    OtherCallsKeep(log, since, members, e);
  }

  /** The close of a member: its first attempt. */
  lemma ReleaseKeepsAccounts(log: Log, since: nat, handle: Option<Handle>,
                             rest: map<nat, Handle>, pid: nat, e: Event)
    requires Accounts(log, since, handle, rest)
    requires pid in rest && e.call == CloseHandle(rest[pid])
    ensures Accounts(log + [e], since, handle, rest - {pid})
  {
    KeptArePoints(log, since, rest, pid);
    KeptCounts(log, since, rest, rest[pid]);
    UntriedIsUnclosed(log, rest[pid]);
    AppendDiscipline(log, e);
    ReleaseKeeps(log, since, rest, e, pid);
    ClosedAfter(log, e);
  }

  /** The close of the job: a failed one keeps the handle. */
  lemma CloseKeepsAccounts(log: Log, since: nat, job: Handle, e: Event)
    requires Accounts(log, since, Some(job), map[]) && e.call == CloseHandle(job)
    ensures Accounts(log + [e], since, if e.answer.ok then None else Some(job), map[])
    ensures EachClosedOnce(log + [e], since) && (e.answer.ok ==> ClosedOk(log + [e], job))
  {
    AppendDiscipline(log, e);
    OtherCallsKeep(log, since, map[], e);
    AllReleased(log + [e], since);
    ClosedAfter(log, e);
  }

  lemma ReleaseKeeps(log: Log, since: nat, members: map<nat, Handle>, e: Event, pid: nat)
    requires Kept(log, since, members) && since <= |log|
    requires pid in members && e.call == CloseHandle(members[pid])
    ensures Kept(log + [e], since, members - {pid})
  {
    KeptArePoints(log, since, members, pid);
    assert (log + [e])[..|log|] == log;
    assert (members - {pid})[pid := members[pid]] == members;
  }

  lemma UntriedIsUnclosed(log: Log, h: Handle)
    requires CloseAttempts(log, h) == 0
    ensures !ClosedOk(log, h)
  {
    if log != [] {
      var last := |log| - 1;
      UntriedIsUnclosed(log[..last], h);
      assert log == log[..last] + [log[last]];
      ClosedAfter(log[..last], log[last]);
    }
  }

  ghost predicate SignaledIn(log: Log, n: nat, h: Handle) {
    exists k: nat :: n <= k && DidOk(log, k, WaitMember(h)) && log[k].answer.signaled
  }

  /** The members are visited in the order of their process ids. */
  method Least(s: set<nat>) returns (m: nat)
    requires s != {}
    ensures m in s && forall x <- s :: m <= x
  {
    m :| m in s;
    var rest := s - {m};
    while rest != {}
      invariant m in s && rest <= s && forall x <- s :: x in rest || m <= x
      decreases |rest|
    {
      var x :| x in rest;
      m := if x < m then x else m;
      rest := rest - {x};
    }
  }

  ghost predicate NoOpenings(log: Log, n: nat) {
    forall k :: n <= k < |log| ==> !IsMemberOpening(log[k])
  }

  ghost predicate Retains(before: map<nat, Handle>, after: map<nat, Handle>) {
    forall pid <- before :: pid in after && after[pid] == before[pid]
  }

  /** The member handles opened since `n` are all held. */
  ghost predicate OpeningsHeld(log: Log, n: nat, members: map<nat, Handle>) {
    forall h :: n <= h < |log| && IsMemberOpening(log[h]) ==> Held(log, members, h)
  }

  lemma OpeningsStayHeld(before: Log, after: Log, n: nat, m1: map<nat, Handle>, m2: map<nat, Handle>)
    requires before <= after && Retains(m1, m2) && OpeningsHeld(before, n, m1) && OpeningsHeld(after, |before|, m2)
    ensures OpeningsHeld(after, n, m2)
  {
    assert forall h :: 0 <= h < |before| ==> after[h] == before[h];
  }

  /** The call did what it was asked, and a wait ended with its object signaled. */
  predicate Good(e: Event) {
    e.answer.ok && (e.call.WaitMember? || e.call.WaitLeader? ==> e.answer.signaled)
  }

  ghost predicate AllGood(log: Log, n: nat) {
    forall k :: n <= k < |log| ==> Good(log[k])
  }

  lemma GoodBefore(before: Log, after: Log, n: nat)
    requires before <= after && n <= |before| && AllGood(after, n)
    ensures AllGood(before, n) && AllGood(after, |before|)
  {
    forall k | n <= k < |before| ensures Good(before[k]) {
      assert after[k] == before[k];
    }
  }

  lemma GoodParts(before: Log, after: Log, n: nat)
    requires before <= after && n <= |before|
    ensures AllGood(after, n) <==> AllGood(before, n) && AllGood(after, |before|)
  {
    if AllGood(after, n) {
      GoodBefore(before, after, n);
    }
    if AllGood(before, n) && AllGood(after, |before|) {
      forall k | n <= k < |after| ensures Good(after[k]) {
        if k < |before| {
          assert after[k] == before[k];
        }
      }
    }
  }

  // ---------- What is known of the leader ----------

  /** The leader's part of a history: a wait found it signaled; its handle was released; and it was released before any
      wait had found it signaled. */
  datatype LeaderFacts = LeaderFacts(signaled: bool, released: bool, unseen: bool)

  predicate SignalsLeader(e: Event) {
    e.call.WaitLeader? && e.answer.ok && e.answer.signaled
  }

  predicate ReleasesLeader(e: Event) {
    e.call.ClosePopen? && e.answer.ok
  }

  function Told(f: LeaderFacts, e: Event): LeaderFacts {
    if SignalsLeader(e) then f.(signaled := true)
    else if ReleasesLeader(e) then LeaderFacts(f.signaled, true, f.unseen || !f.signaled)
    else f
  }

  function FactsOf(log: Log, since: nat): LeaderFacts {
    if |log| <= since then LeaderFacts(false, false, false) else Told(FactsOf(log[..|log| - 1], since), log[|log| - 1])
  }

  /** Some wait since `since` found the leader signaled. */
  ghost predicate LeaderSignaled(log: Log, since: nat) {
    exists k: nat :: since <= k < |log| && SignalsLeader(log[k])
  }

  /** The leader's handle was released although no wait since `since` had found the leader signaled. */
  ghost predicate ReleasedUnseen(log: Log, since: nat) {
    exists k: nat :: since <= k < |log| && ReleasesLeader(log[k]) && !LeaderSignaled(log[..k], since)
  }

  lemma {:induction false} FactsMean(log: Log, since: nat)
    ensures FactsOf(log, since).signaled <==> LeaderSignaled(log, since)
    ensures FactsOf(log, since).unseen <==> ReleasedUnseen(log, since)
  {
    if |log| > since {
      var before, e := log[..|log| - 1], log[|log| - 1];
      FactsMean(before, since);
      assert log == before + [e];
      SignaledByEither(before, e, since);
      UnseenByEither(before, e, since);
    }
  }

  lemma UnseenByEither(log: Log, e: Event, since: nat)
    requires since <= |log|
    ensures ReleasedUnseen(log + [e], since)
        <==> ReleasedUnseen(log, since) || (ReleasesLeader(e) && !LeaderSignaled(log, since))
  {
    var after := log + [e];
    assert after[|log|] == e && after[..|log|] == log;
    if ReleasedUnseen(after, since) {
      var k: nat :| since <= k < |after| && ReleasesLeader(after[k]) && !LeaderSignaled(after[..k], since);
      assert k < |log| ==> after[..k] == log[..k];
    }
    if ReleasedUnseen(log, since) {
      var k: nat :| since <= k < |log| && ReleasesLeader(log[k]) && !LeaderSignaled(log[..k], since);
      assert after[..k] == log[..k];
    }
  }

  lemma WaitAndReleaseTell(before: Log, after: Log, since: nat)
    requires Grew(before, after, [WaitLeader, ClosePopen]) && since <= |before|
    ensures FactsOf(after, since) == Told(Told(FactsOf(before, since), after[|before|]), after[|before| + 1])
  {
    assert after[..|after| - 1][..|after| - 2] == before;
  }

  /** Calls that do not concern the leader tell nothing of it. */
  lemma {:induction false} FactsStay(os: nat -> Answer, before: Log, after: Log, since: nat)
    requires Continues(os, before, after) && since <= |before|
    ensures FactsOf(after, since) == FactsOf(before, since)
    decreases |after|
  {
    if |after| > |before| {
      FactsStay(os, before, after[..|after| - 1], since);
    } else {
      assert before == after;
    }
  }

  lemma SignaledByEither(log: Log, e: Event, since: nat)
    requires since <= |log|
    ensures LeaderSignaled(log + [e], since) <==> LeaderSignaled(log, since) || SignalsLeader(e)
  {
    assert (log + [e])[|log|] == e;
    if LeaderSignaled(log, since) {
      var k: nat :| since <= k < |log| && SignalsLeader(log[k]);
      assert (log + [e])[k] == log[k];
    }
  }

  /** For a leader attached with its handle and without a return code: the handle is there until it is released, a
      return code comes with the release, and nothing is learned of it afterwards. */
  predicate LeaderIs(told: LeaderFacts, handle: bool, returncode: Option<int>) {
    && handle == !told.released
    && returncode.Some? == told.released
    && (told.released ==> told.signaled == !told.unseen)
    && (told.unseen ==> told.released)
  }

  /** The calls since `before` open no member, and their errors are real. */
  ghost predicate Reported(os: nat -> Answer, before: Log, after: Log, errors: seq<Problem>) {
    Continues(os, before, after) && NoOpenings(after, |before|) && (errors == [] <==> AllGood(after, |before|))
  }

  lemma ReportOneMore(os: nat -> Answer, start: Log, before: Log, after: Log, errors: seq<Problem>,
                      failed: seq<Problem>)
    requires Reported(os, start, before, errors) && Continues(os, before, after) && |after| == |before| + 1
    requires !IsMemberOpening(after[|before|]) && (failed == [] <==> Good(after[|before|]))
    ensures Reported(os, start, after, errors + failed)
  {
    ContinuesTwice(os, start, before, after);
    assert forall k :: 0 <= k < |before| ==> after[k] == before[k];
    GoodParts(before, after, |start|);
  }

  class ProcessJob {
    const api: Api
    const leader: Leader
    ghost const since: nat
    /** The leader was attached with its handle and without a return code. */
    ghost const watched: bool
    var handle: Option<Handle>
    var members: map<nat, Handle>

    ghost predicate Valid()
      reads this, api
    {
      Releasing(members)
    }

    /** What the job has been told of a watched leader is how the leader is. */
    ghost predicate Informed()
      reads this, api, leader
    {
      watched ==> LeaderIs(FactsOf(api.log, since), leader.handle, leader.returncode)
    }

    constructor (job: Handle, api: Api, leader: Leader)
      requires Disciplined(api.log) && job < |api.log| && !ClosedOk(api.log, job)
      ensures Valid() && Informed() && this.api == api && this.leader == leader && handle == Some(job)
              && members == map[]
      ensures since == |api.log| && watched == (leader.handle && leader.returncode.None?)
    {
      this.api := api;
      this.leader := leader;
      handle := Some(job);
      members := map[];
      since := |api.log|;
      watched := leader.handle && leader.returncode.None?;
    }

    /** A call on the job that neither opens a member, closes a handle nor concerns the leader. */
    method Ask(call: Call) returns (a: Answer)
      requires Valid() && !call.CloseHandle? && !call.OpenJobMember? && !call.WaitLeader? && !call.ClosePopen?
      modifies api
      ensures Valid() && a == api.os(|old(api.log)|) && api.log == old(api.log) + [Event(call, a)]
      ensures Continues(api.os, old(api.log), api.log) && Grew(old(api.log), api.log, [call])
    {
      a := api.Invoke(call);
      OtherCallKeepsAccounts(old(api.log), since, handle, members, Event(call, a));
    }

    /** Retain a handle to every current member of the job. */
    method HoldMembers() returns (errors: seq<Problem>)
      requires Valid()
      modifies this`members, api
      ensures Valid() && Continues(api.os, old(api.log), api.log)
      ensures Retains(old(members), members) && OpeningsHeld(api.log, |old(api.log)|, members)
      ensures errors == [] ==>
                && handle.Some? && DidOk(api.log, |old(api.log)|, JobProcessIds(handle.value))
                && AllHeldOrGone(api.log, |old(api.log)|, handle.value, members, api.log[|old(api.log)|].answer.pids)
      ensures errors == [] <==> handle.Some? && AllGood(api.log, |old(api.log)|)
      ensures handle.Some? && api.os(|old(api.log)|).pids == [] ==>
                && Grew(old(api.log), api.log, [JobProcessIds(handle.value)]) && members == old(members)
                && (errors == [] <==> api.log[|old(api.log)|].answer.ok)
    {
      if handle.None? {
        return [JobHandleClosed];
      }
      var job := handle.value;
      var a := Ask(JobProcessIds(job));
      if !a.ok {
        return [Failed(JobProcessIds(job))];
      }
      ghost var listed := api.log;
      errors := HoldListed(job, a.pids, |old(api.log)|);
      GoodParts(listed, api.log, |old(api.log)|);
    }

    method HoldListed(job: Handle, pids: seq<nat>, ghost n: nat) returns (errors: seq<Problem>)
      requires Valid() && n <= |api.log| && OpeningsHeld(api.log, n, members)
      modifies this`members, api
      ensures Valid() && Continues(api.os, old(api.log), api.log)
      ensures Retains(old(members), members) && OpeningsHeld(api.log, n, members)
      ensures errors == [] ==> AllHeldOrGone(api.log, n, job, members, pids)
      ensures errors == [] <==> AllGood(api.log, |old(api.log)|)
      ensures pids == [] ==> errors == [] && api.log == old(api.log) && members == old(members)
    {
      errors := [];
      for i := 0 to |pids|
        invariant Valid() && Continues(api.os, old(api.log), api.log)
        invariant errors == [] <==> AllGood(api.log, |old(api.log)|)
        invariant i == 0 ==> errors == [] && api.log == old(api.log) && members == old(members)
        invariant Retains(old(members), members) && OpeningsHeld(api.log, n, members)
        invariant errors == [] ==> AllHeldOrGone(api.log, n, job, members, pids[..i])
      {
        ghost var before, held := api.log, members;
        var failed := HoldOne(job, pids[i]);
        LeavingLasts(before, api.log, n, job);
        OpeningsStayHeld(before, api.log, n, held, members);
        assert pids[..i + 1] == pids[..i] + [pids[i]];
        GoodParts(before, api.log, |old(api.log)|);
        errors := errors + failed;
      }
      assert pids[..|pids|] == pids;
    }

    method HoldOne(job: Handle, pid: nat) returns (errors: seq<Problem>)
      requires Valid()
      modifies this`members, api
      ensures Valid() && Continues(api.os, old(api.log), api.log)
      ensures Retains(old(members), members) && OpeningsHeld(api.log, |old(api.log)|, members)
      ensures errors == [] ==> pid in members || LeftTheJob(api.log, |old(api.log)|, job, pid)
      ensures errors == [] <==> AllGood(api.log, |old(api.log)|)
    {
      errors := [];
      if pid !in members {
        errors := OpenMember(job, pid);
      }
    }

    method OpenMember(job: Handle, pid: nat) returns (errors: seq<Problem>)
      requires Valid() && pid !in members
      modifies this`members, api
      ensures Valid() && Continues(api.os, old(api.log), api.log)
      ensures Retains(old(members), members) && OpeningsHeld(api.log, |old(api.log)|, members)
      ensures errors == [] ==> pid in members || LeftTheJob(api.log, |old(api.log)|, job, pid)
      ensures errors == [] <==> AllGood(api.log, |old(api.log)|)
    {
      var call := OpenJobMember(job, pid);
      var a := api.Invoke(call);
      var e := Event(call, a);
      errors := if a.ok then [] else [Failed(call)];
      if a.ok && a.value != 0 {
        OpenedIsHeld(old(api.log), since, handle, members, e);
        members := members[pid := |api.log| - 1];
      } else {
        UnopenedIsNotHeld(old(api.log), since, handle, members, e);
        assert a.ok ==> DidOk(api.log, |old(api.log)|, call);
      }
    }

    method WaitForMembersAndRelease() returns (errors: seq<Problem>)
      requires Valid()
      modifies this`members, api
      ensures Valid() && members == map[] && Continues(api.os, old(api.log), api.log)
              && NoOpenings(api.log, |old(api.log)|)
      ensures EachClosedOnce(api.log, since)
      ensures errors == [] ==> forall pid <- old(members) :: SignaledIn(api.log, |old(api.log)|, old(members)[pid])
      ensures errors == [] <==> AllGood(api.log, |old(api.log)|)
      ensures old(members) == map[] ==> errors == [] && api.log == old(api.log)
    {
      errors := WaitForMembers();
      ghost var waited := api.log;
      var failed := ReleaseMembers();
      SignalsLast(waited, api.log, |old(api.log)|);
      GoodParts(waited, api.log, |old(api.log)|);
      errors := errors + failed;
    }

    method WaitForMembers() returns (errors: seq<Problem>)
      requires Valid()
      modifies api
      ensures Valid() && Reported(api.os, old(api.log), api.log, errors)
      ensures errors == [] ==> forall pid <- members :: SignaledIn(api.log, |old(api.log)|, members[pid])
      ensures members == map[] ==> errors == [] && api.log == old(api.log)
    {
      errors := [];
      if members != map[] {
        errors := WaitForHeld();
      }
    }

    method WaitForHeld() returns (errors: seq<Problem>)
      requires Valid()
      modifies api
      ensures Valid() && Reported(api.os, old(api.log), api.log, errors)
      ensures errors == [] ==> forall pid <- members :: SignaledIn(api.log, |old(api.log)|, members[pid])
    {
      errors := [];
      var rest := members.Keys;
      ghost var n := |api.log|;
      while rest != {}
        invariant Valid() && rest <= members.Keys && Reported(api.os, old(api.log), api.log, errors)
        invariant errors == [] ==> forall pid <- members :: pid !in rest ==> SignaledIn(api.log, n, members[pid])
        decreases |rest|
      {
        var pid := Least(rest);
        ghost var before := api.log;
        var failed := WaitForOne(members[pid], n);
        SignalsLast(before, api.log, n);
        ReportOneMore(api.os, old(api.log), before, api.log, errors, failed);
        errors := errors + failed;
        rest := rest - {pid};
      }
    }

    method WaitForOne(member: Handle, ghost n: nat) returns (errors: seq<Problem>)
      requires Valid() && n <= |api.log|
      modifies api
      ensures Valid() && |api.log| == |old(api.log)| + 1 && Continues(api.os, old(api.log), api.log)
      ensures api.log[|old(api.log)|].call == WaitMember(member)
      ensures errors == [] ==> SignaledIn(api.log, n, member)
      ensures errors == [] <==> Good(api.log[|old(api.log)|])
    {
      var call := WaitMember(member);
      var a := Ask(call);
      assert Did(api.log, |old(api.log)|, call);
      return if !a.ok then [Failed(call)] else if !a.signaled then [TimedOut(call)] else [];
    }

    method ReleaseMembers() returns (errors: seq<Problem>)
      requires Valid()
      modifies this`members, api
      ensures Valid() && members == map[] && Continues(api.os, old(api.log), api.log)
              && NoOpenings(api.log, |old(api.log)|)
      ensures EachClosedOnce(api.log, since)
      ensures errors == [] <==> AllGood(api.log, |old(api.log)|)
      ensures old(members) == map[] ==> errors == [] && api.log == old(api.log)
    {
      errors := [];
      AllReleasedWithout(api.log, since, members);
      if members != map[] {
        errors := ReleaseHeld();
      }
    }

    method ReleaseHeld() returns (errors: seq<Problem>)
      requires Valid()
      modifies this`members, api
      ensures Valid() && members == map[] && Reported(api.os, old(api.log), api.log, errors)
      ensures EachClosedOnce(api.log, since)
    {
      errors := [];
      var rest := members;
      while rest.Keys != {}
        invariant Releasing(rest) && Reported(api.os, old(api.log), api.log, errors)
        decreases |rest|
      {
        var pid := Least(rest.Keys);
        ghost var before := api.log;
        var failed := ReleaseOne(rest, pid);
        ReportOneMore(api.os, old(api.log), before, api.log, errors, failed);
        errors := errors + failed;
        rest := rest - {pid};
      }
      assert rest == map[];
      AllReleased(api.log, since);
      members := map[];
    }

    /** The accounts while the members outside `rest` are being released. */
    ghost predicate Releasing(rest: map<nat, Handle>)
      reads this, api
    {
      Accounts(api.log, since, handle, rest)
    }

    method ReleaseOne(rest: map<nat, Handle>, pid: nat) returns (errors: seq<Problem>)
      requires Releasing(rest) && pid in rest
      modifies api
      ensures Releasing(rest - {pid}) && |api.log| == |old(api.log)| + 1 && Continues(api.os, old(api.log), api.log)
      ensures api.log[|old(api.log)|].call == CloseHandle(rest[pid])
      ensures errors == [] <==> Good(api.log[|old(api.log)|])
    {
      var call := CloseHandle(rest[pid]);
      var a := api.Invoke(call);
      ReleaseKeepsAccounts(old(api.log), since, handle, rest, pid, Event(call, a));
      return if a.ok then [] else [Failed(call)];
    }

    method Terminate() returns (errors: seq<Problem>)
      requires Valid()
      modifies api
      ensures Valid() && Continues(api.os, old(api.log), api.log) && NoOpenings(api.log, |old(api.log)|)
      ensures errors == [] <==> handle.Some? && |api.log| == |old(api.log)| + 1
                                && DidOk(api.log, |old(api.log)|, TerminateJob(handle.value))
      ensures handle.Some? ==>
                |api.log| == |old(api.log)| + 1 && Did(api.log, |old(api.log)|, TerminateJob(handle.value))
    {
      if handle.None? {
        return [JobHandleClosed];
      }
      var a := Ask(TerminateJob(handle.value));
      return if a.ok then [] else [Failed(TerminateJob(handle.value))];
    }

    /** Wait for the leader through its handle and let go of it. A released leader has a return code, its own or the one
        that the release writes. */
    method WaitForLeaderAndRelease() returns (errors: seq<Problem>)
      requires Valid()
      modifies leader, api
      ensures Valid() && old(api.log) <= api.log && NoOpenings(api.log, |old(api.log)|)
      ensures old(leader.handle) ==>
                && Grew(old(api.log), api.log, [WaitLeader, ClosePopen])
                && api.log[|old(api.log)|].answer == api.os(|old(api.log)|)
                && api.log[|old(api.log)| + 1].answer == api.os(|old(api.log)| + 1)
                && leader.handle == !api.log[|old(api.log)| + 1].answer.ok
                && leader.returncode == CodeAfter(old(leader.returncode), leader.handle)
                && (errors == [] <==> SignalsLeader(api.log[|old(api.log)|]) && !leader.handle)
      ensures !old(leader.handle) ==>
                && api.log == old(api.log)
                && !leader.handle && leader.returncode == old(leader.returncode)
                && (errors == [] <==> leader.returncode.Some?)
      ensures old(Informed()) ==> Informed()
    {
      errors := [];
      if leader.handle {
        errors := WaitForLeader();
        ghost var waited := api.log;
        var closed := ReleaseLeader();
        GrewTwice(old(api.log), waited, api.log, [WaitLeader], [ClosePopen]);
        assert [WaitLeader] + [ClosePopen] == [WaitLeader, ClosePopen];
        WaitAndReleaseTell(old(api.log), api.log, since);
        errors := errors + closed;
      } else if leader.returncode.None? {
        errors := [LeaderHandleUnavailable];
      }
    }

    method WaitForLeader() returns (errors: seq<Problem>)
      requires Valid() && leader.handle
      modifies api
      ensures Valid() && Grew(old(api.log), api.log, [WaitLeader])
      ensures api.log[|old(api.log)|].answer == api.os(|old(api.log)|)
      ensures errors == [] <==> SignalsLeader(api.log[|old(api.log)|])
    {
      var a := api.Invoke(WaitLeader);
      var e := Event(WaitLeader, a);
      OtherCallKeepsAccounts(old(api.log), since, handle, members, e);
      errors := if !a.ok then [Failed(WaitLeader)] else if !a.signaled then [TimedOut(WaitLeader)] else [];
    }

    method ReleaseLeader() returns (errors: seq<Problem>)
      requires Valid() && leader.handle
      modifies leader, api
      ensures Valid() && Grew(old(api.log), api.log, [ClosePopen])
      ensures api.log[|old(api.log)|].answer == api.os(|old(api.log)|)
      ensures leader.handle == !api.log[|old(api.log)|].answer.ok && (errors == [] <==> !leader.handle)
      ensures leader.returncode == CodeAfter(old(leader.returncode), leader.handle)
    {
      errors := leader.ClosePopenHandle(api);
      ghost var e := api.log[|old(api.log)|];
      assert api.log == old(api.log) + [e];
      OtherCallKeepsAccounts(old(api.log), since, handle, members, e);
    }

    method ActiveProcessCount() returns (r: Result<int, Problem>)
      requires Valid()
      modifies api
      ensures Valid() && Continues(api.os, old(api.log), api.log) && NoOpenings(api.log, |old(api.log)|)
      ensures r.Ok? <==> handle.Some? && |api.log| == |old(api.log)| + 1
                         && DidOk(api.log, |old(api.log)|, CountActive(handle.value))
      ensures r.Ok? ==> r.value == api.log[|old(api.log)|].answer.value
      ensures handle.Some? ==>
                |api.log| == |old(api.log)| + 1 && Did(api.log, |old(api.log)|, CountActive(handle.value))
      ensures handle.None? ==> api.log == old(api.log)
    {
      if handle.None? {
        return Err(JobHandleClosed);
      }
      var call := CountActive(handle.value);
      var a := Ask(call);
      return if a.ok then Ok(a.value) else Err(Failed(call));
    }

    /** Releases the members and closes the job; a failed close keeps the handle for a later attempt. */
    method Close() returns (errors: seq<Problem>)
      requires Valid()
      modifies this`handle, this`members, api
      ensures Valid() && members == map[] && Continues(api.os, old(api.log), api.log)
              && NoOpenings(api.log, |old(api.log)|)
      ensures EachClosedOnce(api.log, since)
      ensures handle.Some? ==> handle == old(handle)
      ensures errors == [] ==> handle.None?
      ensures old(members) == map[] && old(handle).None? ==> errors == [] && api.log == old(api.log)
      ensures old(handle).Some? && handle.None? ==> ClosedOk(api.log, old(handle).value)
      ensures errors == [] <==> AllGood(api.log, |old(api.log)|)
      ensures old(members) == map[] && old(handle).Some? ==>
                && Grew(old(api.log), api.log, [CloseHandle(old(handle).value)])
                && (errors == [] <==> handle.None?) && (handle.None? <==> api.log[|old(api.log)|].answer.ok)
    {
      errors := ReleaseMembers();
      if handle.Some? {
        ghost var before := api.log;
        var closed := CloseJob();
        GoodParts(before, api.log, |old(api.log)|);
        errors := errors + closed;
      }
    }

    method CloseJob() returns (errors: seq<Problem>)
      requires Valid() && handle.Some? && members == map[]
      modifies this`handle, api
      ensures Valid() && EachClosedOnce(api.log, since) && Continues(api.os, old(api.log), api.log)
      ensures Grew(old(api.log), api.log, [CloseHandle(old(handle).value)])
      ensures handle == if api.log[|old(api.log)|].answer.ok then None else old(handle)
      ensures errors == [] <==> handle.None?
      ensures handle.None? ==> ClosedOk(api.log, old(handle).value)
    {
      var call := CloseHandle(handle.value);
      var a := api.Invoke(call);
      CloseKeepsAccounts(old(api.log), since, handle.value, Event(call, a));
      errors := if a.ok then [] else [Failed(call)];
      if a.ok {
        handle := None;
      }
    }
  }

  /** The return code after a release: its own, or 1 when the release succeeded without one. */
  function CodeAfter(code: Option<int>, handle: bool): Option<int> {
    if handle || code.Some? then code else Some(1)
  }

  /** The member was already gone from the job when its handle was asked for. */
  ghost predicate LeftTheJob(log: Log, n: nat, job: Handle, pid: nat) {
    exists k: nat :: n <= k && DidOk(log, k, OpenJobMember(job, pid)) && log[k].answer.value == 0
  }

  /** Every listed process is held by a handle or had left the job. */
  ghost predicate AllHeldOrGone(log: Log, n: nat, job: Handle, members: map<nat, Handle>, pids: seq<nat>) {
    forall pid <- pids :: pid in members || LeftTheJob(log, n, job, pid)
  }

  lemma LeavingLasts(before: Log, after: Log, n: nat, job: Handle)
    requires before <= after
    ensures forall p :: LeftTheJob(before, n, job, p) ==> LeftTheJob(after, n, job, p)
  {
    forall p | LeftTheJob(before, n, job, p) ensures LeftTheJob(after, n, job, p) {
      var k: nat :| n <= k && DidOk(before, k, OpenJobMember(job, p)) && before[k].answer.value == 0;
      assert DidOk(after, k, OpenJobMember(job, p));
    }
  }

  lemma SignalsLast(before: Log, after: Log, n: nat)
    requires before <= after
    ensures forall h :: SignaledIn(before, n, h) ==> SignaledIn(after, n, h)
  {
    forall h | SignaledIn(before, n, h) ensures SignaledIn(after, n, h) {
      var k: nat :| n <= k && DidOk(before, k, WaitMember(h)) && before[k].answer.signaled;
      assert DidOk(after, k, WaitMember(h));
    }
  }

  // ---------- Any sequence of job methods ----------

  datatype Op = DoHold | DoTerminate | DoWaitLeader | DoWaitMembers | DoRelease | DoCount | DoClose

  /** Whatever methods run, in whatever order and with whatever failures, no member handle is leaked or
      closed twice; a final close (also run by the finaliser) leaves each with exactly one attempt. */
  method RunAny(job: ProcessJob, ops: seq<Op>)
    requires job.Valid() && job.Informed()
    modifies job`handle, job`members, job.api, job.leader
    ensures job.Valid() && job.Informed() && EachClosedOnce(job.api.log, job.since)
  {
    for i := 0 to |ops|
      invariant job.Valid() && job.Informed()
    {
      ghost var before := job.api.log;
      if ops[i].DoWaitLeader? {
        var _ := job.WaitForLeaderAndRelease();
      } else {
        RunQuiet(job, ops[i]);
        FactsStay(job.api.os, before, job.api.log, job.since);
      }
    }
    ghost var before := job.api.log;
    var _ := job.Close();
    FactsStay(job.api.os, before, job.api.log, job.since);
  }

  method RunQuiet(job: ProcessJob, op: Op)
    requires job.Valid() && !op.DoWaitLeader?
    modifies job`handle, job`members, job.api
    ensures job.Valid() && Continues(job.api.os, old(job.api.log), job.api.log)
  {
    match op
    case DoHold => var _ := job.HoldMembers();
    case DoTerminate => var _ := job.Terminate();
    case DoWaitMembers => var _ := job.WaitForMembersAndRelease();
    case DoRelease => var _ := job.ReleaseMembers();
    case DoCount => var _ := job.ActiveProcessCount();
    case DoClose => var _ := job.Close();
  }
}

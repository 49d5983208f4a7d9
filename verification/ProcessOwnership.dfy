/**
 Exact process identities, the owned session, and the cleanup that may claim `complete` only when every
 identity was seen to be gone (`probe-unica-wire.py`).

 The host is an oracle: the n-th read of the process table, the passage of time and the leader's state
 are given, and the log of reads and signals is what the cleanup claims are measured against.
 */
module ProcessOwnership {
  import opened Wrappers
  import opened WindowsJob

  datatype Identity = Identity(pid: nat, parent: Option<nat>, session: Option<nat>, start: string)
  {
    /** The parent is not part of who a process is: it changes when the parent dies. */
    predicate Identifies(other: Option<Identity>) {
      other.Some? && pid == other.value.pid && session == other.value.session && start == other.value.start
    }
  }

  type Table = map<nat, Identity>

  function Lookup(table: Table, pid: nat): Option<Identity> {
    if pid in table then Some(table[pid]) else None
  }

  predicate Alive(table: Table, i: Identity) {
    i.Identifies(Lookup(table, i.pid))
  }

  datatype HostEvent =
    | Read(table: Option<Table>)
    | Signal(target: Identity, number: nat)
    | KillLeader
    | Query(target: Identity, confirming: bool, state: WindowsState)

  type Events = seq<HostEvent>

  /** The answers of `_windows_process_state`: no such process, a process that has exited or runs, or a failed query,
      with the identity if it was read before the failure. */
  datatype WindowsState = Absent | Exited(who: Identity) | Running(who: Identity) | Failing(known: Option<Identity>)

  const SIGTERM: nat := 15
  const SIGKILL: nat := 9
  /** Ten milliseconds and a tenth of a second, in microseconds. */
  const STEP: nat := 10_000
  const TERM_GRACE: int := 100_000

  class Host {
    const tables: nat -> Option<Table>
    const delays: nat -> nat
    const leaderRuns: nat -> bool
    const queries: nat -> WindowsState
    var events: Events
    var now: int
    var clockReads: nat

    constructor (tables: nat -> Option<Table>, delays: nat -> nat, leaderRuns: nat -> bool,
                 queries: nat -> WindowsState)
      ensures events == [] && this.queries == queries
    {
      this.tables := tables;
      this.delays := delays;
      this.leaderRuns := leaderRuns;
      this.queries := queries;
      events, now, clockReads := [], 0, 0;
    }

    /** Reads the clock; any amount of time may have passed. */
    method Now() returns (t: int)
      modifies this
      ensures events == old(events) && t == now >= old(now)
    {
      now := now + delays(clockReads);
      clockReads := clockReads + 1;
      t := now;
    }

    method Sleep(d: nat)
      modifies this
      ensures events == old(events) && now >= old(now) + d
    {
      now := now + d + delays(clockReads);
      clockReads := clockReads + 1;
    }

    /** A read of the process table; `None` is an unreadable table. */
    method ReadTable() returns (table: Option<Table>)
      modifies this
      ensures events == old(events) + [Read(table)] && now == old(now)
    {
      table := tables(|events|);
      events := events + [Read(table)];
    }

    method Send(target: Identity, number: nat)
      modifies this
      ensures events == old(events) + [Signal(target, number)] && now == old(now)
    {
      events := events + [Signal(target, number)];
    }

    /** Stops the leader through its own handle, when it has not been reaped yet. */
    method StopLeader()
      modifies this
      ensures events == if leaderRuns(|old(events)|) then old(events) + [KillLeader] else old(events)
    {
      if leaderRuns(|events|) {
        events := events + [KillLeader];
      }
    }

    /** A query on behalf of an identity: who holds its pid, or whether that process may still run. */
    method Ask(i: Identity, confirming: bool) returns (state: WindowsState)
      modifies this
      ensures state == StateFor(i.pid, queries(|old(events)|))
      ensures events == old(events) + [Query(i, confirming, state)] && now == old(now)
    {
      state := StateFor(i.pid, queries(|events|));
      events := events + [Query(i, confirming, state)];
    }
  }

  /** Nobody has the pid 0. */
  function StateFor(pid: nat, state: WindowsState): WindowsState {
    if pid == 0 then Absent else state
  }

  // ---------- What is owned ----------

  /** The session members and the registered identities that the table still confirms. */
  function Base(table: Table, session: Option<nat>, additional: set<Identity>): set<Identity> {
    (set i | i in table.Values && session.Some? && i.session == session)
    + (set i | i in additional && Alive(table, i))
  }

  predicate ChildOf(child: Identity, owned: set<Identity>) {
    child.parent.Some? && exists o :: o in owned && o.pid == child.parent.value
  }

  ghost predicate ClosedUnderChildren(table: Table, owned: set<Identity>) {
    forall i :: i in table.Values && ChildOf(i, owned) ==> i in owned
  }

  ghost predicate IsLeastOwned(table: Table, base: set<Identity>, owned: set<Identity>) {
    && base <= owned
    && ClosedUnderChildren(table, owned)
    && forall other: set<Identity> :: base <= other && ClosedUnderChildren(table, other) ==> owned <= other
  }

  /** A line of descent in the table from a base identity. */
  ghost predicate Descent(table: Table, base: set<Identity>, line: seq<Identity>) {
    && line != [] && line[0] in base
    && forall k :: 1 <= k < |line| ==> line[k] in table.Values && line[k].parent == Some(line[k - 1].pid)
  }

  ghost predicate Descends(table: Table, base: set<Identity>, i: Identity) {
    exists line :: Descent(table, base, line) && line[|line| - 1] == i
  }

  /** The least closed set is exactly what descends from the base. */
  lemma OwnedAreTheDescendants(table: Table, base: set<Identity>, owned: set<Identity>)
    requires IsLeastOwned(table, base, owned)
    ensures forall i :: i in owned <==> Descends(table, base, i)
  {
    var all := set i | i in table.Values + base && Descends(table, base, i);
    forall i | i in base ensures i in all {
      assert Descent(table, base, [i]) && [i][|[i]| - 1] == i;
    }
    forall i | i in table.Values && ChildOf(i, all) ensures i in all {
      ChildrenDescend(table, base, i, all);
    }
    assert base <= all && ClosedUnderChildren(table, all);
    forall i | Descends(table, base, i) ensures i in owned {
      var line :| Descent(table, base, line) && line[|line| - 1] == i;
      LineIsOwned(table, base, owned, line);
    }
  }

  lemma ChildrenDescend(table: Table, base: set<Identity>, i: Identity, all: set<Identity>)
    requires i in table.Values && ChildOf(i, all) && forall o <- all :: Descends(table, base, o)
    ensures Descends(table, base, i)
  {
    var o :| o in all && o.pid == i.parent.value;
    var line :| Descent(table, base, line) && line[|line| - 1] == o;
    var longer := line + [i];
    assert Descent(table, base, longer) && longer[|longer| - 1] == i;
  }

  lemma {:induction false} LineIsOwned(table: Table, base: set<Identity>, owned: set<Identity>, line: seq<Identity>)
    requires base <= owned && ClosedUnderChildren(table, owned) && Descent(table, base, line)
    ensures line[|line| - 1] in owned
  {
    if |line| > 1 {
      var shorter := line[..|line| - 1];
      LineIsOwned(table, base, owned, shorter);
      assert ChildOf(line[|line| - 1], owned);
    }
  }

  /** `ProcessOwnership.snapshot` on POSIX: grows the owned set until no child is missing. */
  method Snapshot(host: Host, session: Option<nat>, additional: set<Identity>) returns (r: Option<set<Identity>>)
    modifies host
    ensures |host.events| == |old(host.events)| + 1 && old(host.events) <= host.events && host.now == old(host.now)
    ensures host.events[|old(host.events)|].Read?
    ensures r.Some? <==> host.events[|old(host.events)|].table.Some?
    ensures r.Some? ==>
              var table := host.events[|old(host.events)|].table.value;
              IsLeastOwned(table, Base(table, session, additional), r.value)
  {
    var read := host.ReadTable();
    if read.None? {
      return None;
    }
    var table := read.value;
    ghost var base := Base(table, session, additional);
    ghost var bound := table.Values + base;
    var owned := Base(table, session, additional);
    while true
      invariant base <= owned <= bound
      invariant forall other: set<Identity> :: base <= other && ClosedUnderChildren(table, other) ==> owned <= other
      decreases bound - owned
    {
      var descendants := set i | i in table.Values && ChildOf(i, owned);
      var expanded := owned + descendants;
      if expanded == owned {
        return Some(owned);
      }
      forall other: set<Identity> | base <= other && ClosedUnderChildren(table, other)
        ensures expanded <= other
      {
        forall i | i in descendants ensures i in other {
          assert ChildOf(i, other);
        }
      }
      var grown :| grown in expanded && grown !in owned;
      owned := expanded;
    }
  }

  // ---------- Signals, survivors and waiting (POSIX) ----------

  /** Some readable table read since `n` did not show this identity. */
  ghost predicate SeenGone(events: Events, n: nat, i: Identity) {
    exists k: nat :: n <= k < |events| && events[k].Read? && events[k].table.Some? && !Alive(events[k].table.value, i)
  }

  /** Every signal since `n` went to an identity that the table read of that same call confirmed. */
  ghost predicate SignalsAreGrounded(events: Events, n: nat) {
    forall k :: n <= k < |events| && events[k].Signal? ==>
      exists j :: n <= j < k && events[j].Read? && events[j].table.Some?
                  && Alive(events[j].table.value, events[k].target)
                  && forall m :: j < m < k ==> events[m].Signal?
  }

  ghost predicate NoFailedRead(events: Events, n: nat) {
    forall k :: n <= k < |events| && events[k].Read? ==> events[k].table.Some?
  }

  method Highest(ids: set<Identity>) returns (i: Identity)
    requires ids != {}
    ensures i in ids && forall j <- ids :: j.pid <= i.pid
  {
    i :| i in ids;
    var rest := ids - {i};
    while rest != {}
      invariant i in ids && rest <= ids && forall j <- ids :: j in rest || j.pid <= i.pid
      decreases |rest|
    {
      var j :| j in rest;
      i := if i.pid < j.pid then j else i;
      rest := rest - {j};
    }
  }

  function Confirmed(ids: set<Identity>, table: Table): set<Identity> {
    set i | i in ids && 0 < i.pid && Alive(table, i)
  }

  /** The events of sending one signal to each identity of `order`. */
  function Signals(order: seq<Identity>, number: nat): Events {
    seq(|order|, k requires 0 <= k < |order| => Signal(order[k], number))
  }

  /** Each target once, highest pid first. */
  ghost predicate InOrder(order: seq<Identity>, targets: set<Identity>) {
    && (forall i :: i in order <==> i in targets)
    && (forall j, k :: 0 <= j < k < |order| ==> order[k].pid <= order[j].pid && order[j] != order[k])
  }

  /** `ProcessOwnership.signal`; false when the table could not be read, and then nothing is signalled. */
  method SendSignals(host: Host, ids: set<Identity>, number: nat) returns (ok: bool, ghost order: seq<Identity>)
    modifies host
    ensures host.now == old(host.now)
    ensures ids == {} ==> ok && host.events == old(host.events)
    ensures ids != {} && !ok ==> host.events == old(host.events) + [Read(None)]
    ensures ids != {} && ok ==>
              exists table :: host.events == old(host.events) + [Read(Some(table))] + Signals(order, number)
                              && InOrder(order, Confirmed(ids, table))
  {
    order := [];
    if ids == {} {
      return true, [];
    }
    var read := host.ReadTable();
    if read.None? {
      return false, [];
    }
    order := SendEach(host, ids, read.value, number);
    return true, order;
  }

  method SendEach(host: Host, ids: set<Identity>, table: Table, number: nat) returns (ghost order: seq<Identity>)
    modifies host
    ensures host.now == old(host.now)
    ensures host.events == old(host.events) + Signals(order, number) && InOrder(order, Confirmed(ids, table))
  {
    var rest := ids;
    order := [];
    while rest != {}
      invariant rest <= ids && host.now == old(host.now)
      invariant host.events == old(host.events) + Signals(order, number)
      invariant InOrder(order, Confirmed(ids, table) - rest)
      invariant forall i, j :: i in rest && j in order ==> i.pid <= j.pid
      decreases |rest|
    {
      var i := Highest(rest);
      if 0 < i.pid && Alive(table, i) {
        host.Send(i, number);
        assert Signals(order, number) + [Signal(i, number)] == Signals(order + [i], number);
        order := order + [i];
      }
      rest := rest - {i};
    }
    assert Confirmed(ids, table) - rest == Confirmed(ids, table);
  }

  /** What is left of `ids` is part of it, and whatever was dropped had been seen gone. */
  ghost predicate Accounted(events: Events, n: nat, ids: set<Identity>, left: set<Identity>) {
    left <= ids && forall i <- ids :: i in left || SeenGone(events, n, i)
  }

  lemma SeenStays(before: Events, after: Events, n: nat, m: nat, i: Identity)
    requires before <= after && n <= m && SeenGone(before, m, i)
    ensures SeenGone(after, n, i)
  {
    var k: nat :| m <= k < |before| && before[k].Read? && before[k].table.Some? && !Alive(before[k].table.value, i);
    assert after[k] == before[k];
  }

  lemma AccountedTwice(e1: Events, e2: Events, n: nat, m: nat, a: set<Identity>, b: set<Identity>, c: set<Identity>)
    requires e1 <= e2 && n <= m && Accounted(e1, n, a, b) && Accounted(e2, m, b, c)
    ensures Accounted(e2, n, a, c)
  {
    forall i | i in a ensures i in c || SeenGone(e2, n, i) {
      if i !in b {
        SeenStays(e1, e2, n, n, i);
      } else if i !in c {
        SeenStays(e2, e2, n, m, i);
      }
    }
  }

  ghost predicate OnlyReads(events: Events, n: nat) {
    forall k :: n <= k < |events| ==> events[k].Read?
  }

  /** `ProcessOwnership.survivors` on POSIX: one table read decides for all. */
  method Survivors(host: Host, ids: set<Identity>) returns (r: Option<set<Identity>>)
    modifies host
    ensures host.now == old(host.now)
    ensures r.None? ==> host.events == old(host.events) + [Read(None)]
    ensures r.Some? ==> exists table :: host.events == old(host.events) + [Read(Some(table))]
                                        && r.value == set i | i in ids && Alive(table, i)
    ensures r.Some? ==> Accounted(host.events, |old(host.events)|, ids, r.value) && AliveAtLast(host.events, r.value)
  {
    var read := host.ReadTable();
    if read.None? {
      return None;
    }
    var table := read.value;
    var alive := set i | i in ids && Alive(table, i);
    ghost var n := |old(host.events)|;
    assert host.events[n].Read? && host.events[n].table == Some(table);
    return Some(alive);
  }

  function Max(a: int, b: int): int {
    if a < b then b else a
  }

  function Min(a: int, b: int): int {
    if a < b then a else b
  }

  /** The last event is a readable table that shows all of them. */
  ghost predicate AliveAtLast(events: Events, ids: set<Identity>) {
    && |events| > 0 && events[|events| - 1].Read? && events[|events| - 1].table.Some?
    && forall i <- ids :: Alive(events[|events| - 1].table.value, i)
  }

  /** `ProcessOwnership.wait`: poll until nobody is left or the deadline passes. It always returns, since
      every round either sleeps or finds the deadline reached. */
  method Wait(host: Host, ids: set<Identity>, timeout: int) returns (r: Option<set<Identity>>)
    modifies host
    ensures old(host.events) < host.events && OnlyReads(host.events, |old(host.events)|) && host.now >= old(host.now)
    ensures r.Some? <==> NoFailedRead(host.events, |old(host.events)|)
    ensures r.Some? ==> Accounted(host.events, |old(host.events)|, ids, r.value) && AliveAtLast(host.events, r.value)
    ensures r.Some? && r.value != {} ==> host.now >= old(host.now) + Max(0, timeout)
  {
    ghost var n := |host.events|;
    var start := host.Now();
    var deadline := start + Max(0, timeout);
    r := Survivors(host, ids);
    assert host.events[n].table.Some? <==> r.Some?;
    var now := host.Now();
    while r.Some? && r.value != {} && now < deadline
      invariant old(host.events) < host.events && OnlyReads(host.events, n)
      invariant r.Some? <==> NoFailedRead(host.events, n)
      invariant r.Some? ==> Accounted(host.events, n, ids, r.value) && AliveAtLast(host.events, r.value)
      invariant host.now == now >= start
      decreases r.Some?, deadline - now
    {
      var again := host.Now();
      host.Sleep(Min(STEP, Max(0, deadline - again)));
      ghost var before := host.events;
      var left := r.value;
      r := Survivors(host, left);
      assert host.events[|before|].table.Some? <==> r.Some?;
      if r.Some? {
        AccountedTwice(before, host.events, n, |before|, ids, left, r.value);
      }
      now := host.Now();
    }
  }

  // ---------- Cleanup (POSIX) ----------

  /** `ProcessCleanupResult`: who may still be there, and how many failures prevent a clean claim. */
  datatype Cleanup = Cleanup(survivors: set<Identity>, failures: nat) {
    predicate Complete() {
      survivors == {} && failures == 0
    }
  }

  lemma GroundedByReads(before: Events, after: Events, n: nat)
    requires before <= after && n <= |before| && SignalsAreGrounded(before, n)
    requires forall k :: |before| <= k < |after| ==> !after[k].Signal?
    ensures SignalsAreGrounded(after, n)
  {
    forall k | n <= k < |after| && after[k].Signal?
      ensures exists j :: n <= j < k && after[j].Read? && after[j].table.Some?
                          && Alive(after[j].table.value, after[k].target)
                          && forall m :: j < m < k ==> after[m].Signal?
    {
      assert before[k] == after[k];
      var j :| n <= j < k && before[j].Read? && before[j].table.Some? && Alive(before[j].table.value, before[k].target)
               && forall m :: j < m < k ==> before[m].Signal?;
      assert after[j] == before[j];
      assert forall m :: j < m < k ==> after[m] == before[m];
    }
  }

  lemma GroundedBySignals(before: Events, n: nat, table: Table, order: seq<Identity>, number: nat, ids: set<Identity>)
    requires n <= |before| && SignalsAreGrounded(before, n) && InOrder(order, Confirmed(ids, table))
    ensures SignalsAreGrounded(before + [Read(Some(table))] + Signals(order, number), n)
  {
    var read := before + [Read(Some(table))];
    var after := read + Signals(order, number);
    GroundedByReads(before, read, n);
    forall k | n <= k < |after| && after[k].Signal?
      ensures exists j :: n <= j < k && after[j].Read? && after[j].table.Some?
                          && Alive(after[j].table.value, after[k].target)
                          && forall m :: j < m < k ==> after[m].Signal?
    {
      if k < |read| {
        assert after[k] == read[k];
        var j :| n <= j < k && read[j].Read? && read[j].table.Some? && Alive(read[j].table.value, read[k].target)
                 && forall m :: j < m < k ==> read[m].Signal?;
        assert after[j] == read[j];
        assert forall m :: j < m < k ==> after[m] == read[m];
      } else {
        assert after[|before|] == Read(Some(table));
        assert after[k].target == order[k - |read|] && order[k - |read|] in order;
        assert forall m :: |before| < m < k ==> after[m] == Signals(order, number)[m - |read|];
      }
    }
  }

  /** The identity got the signal, or a readable table showed that it was gone. */
  ghost predicate Stopped(events: Events, n: nat, i: Identity, number: nat) {
    (exists k: nat :: n <= k < |events| && events[k] == Signal(i, number)) || SeenGone(events, n, i)
  }

  ghost predicate AllStopped(events: Events, n: nat, ids: set<Identity>, number: nat) {
    forall i <- ids :: 0 < i.pid ==> Stopped(events, n, i, number)
  }

  lemma AllStoppedLater(before: Events, after: Events, n: nat, ids: set<Identity>, number: nat)
    requires before <= after && AllStopped(before, n, ids, number)
    ensures AllStopped(after, n, ids, number)
  {
    forall i | i in ids && 0 < i.pid ensures Stopped(after, n, i, number) {
      if SeenGone(before, n, i) {
        SeenStays(before, after, n, n, i);
      } else {
        var k: nat :| n <= k < |before| && before[k] == Signal(i, number);
        assert after[k] == before[k];
      }
    }
  }

  lemma DroppedAreStopped(events: Events, n: nat, ids: set<Identity>, left: set<Identity>, number: nat)
    requires Accounted(events, n, ids, left) && AllStopped(events, n, left, number)
    ensures AllStopped(events, n, ids, number)
  {
  }

  lemma SentAreStopped(before: Events, n: nat, table: Table, order: seq<Identity>, number: nat, ids: set<Identity>)
    requires n <= |before| && InOrder(order, Confirmed(ids, table))
    ensures AllStopped(before + [Read(Some(table))] + Signals(order, number), n, ids, number)
  {
    var after := before + [Read(Some(table))] + Signals(order, number);
    assert after[|before|] == Read(Some(table));
    forall i | i in ids && 0 < i.pid ensures Stopped(after, n, i, number) {
      if i in order {
        var k :| 0 <= k < |order| && order[k] == i;
        assert after[|before| + 1 + k] == Signals(order, number)[k];
      }
    }
  }

  /** One signal call inside a cleanup keeps the evidence and stays grounded. */
  method SignalGrounded(host: Host, ids: set<Identity>, number: nat, ghost n: nat) returns (ok: bool)
    requires n <= |host.events| && SignalsAreGrounded(host.events, n) && NoFailedRead(host.events, n)
    modifies host
    ensures old(host.events) <= host.events && SignalsAreGrounded(host.events, n)
    ensures ok <==> NoFailedRead(host.events, n)
    ensures ok ==> AllStopped(host.events, n, ids, number)
  {
    ghost var order;
    ok, order := SendSignals(host, ids, number);
    if ids != {} && ok {
      ghost var table :| host.events == old(host.events) + [Read(Some(table))] + Signals(order, number)
                         && InOrder(order, Confirmed(ids, table));
      GroundedBySignals(old(host.events), n, table, order, number, ids);
      SentAreStopped(old(host.events), n, table, order, number, ids);
      assert NoFailedRead(host.events, n);
    } else {
      GroundedByReads(old(host.events), host.events, n);
      assert !ok ==> host.events[|old(host.events)|] == Read(None);
    }
  }

  /** The guarded part of `quiesce`: ask politely, wait, insist. On an unreadable table it stops with the
      survivors of the last completed step. */
  method AskToStop(host: Host, ids: set<Identity>, cleanupDeadline: int) returns (left: set<Identity>, ok: bool)
    modifies host
    ensures old(host.events) <= host.events && SignalsAreGrounded(host.events, |old(host.events)|)
    ensures Accounted(host.events, |old(host.events)|, ids, left)
    ensures ok <==> NoFailedRead(host.events, |old(host.events)|)
    ensures ok ==>
              && AllStopped(host.events, |old(host.events)|, ids, SIGTERM)
              && AllStopped(host.events, |old(host.events)|, ids, SIGKILL)
  {
    ghost var n := |host.events|;
    left := ids;
    var r := Survivors(host, ids);
    GroundedByReads(old(host.events), host.events, n);
    if r.None? {
      assert host.events[n] == Read(None);
      return ids, false;
    }
    left := r.value;
    if left == {} {
      return left, true;
    }
    ghost var seen := host.events;
    ok := SignalGrounded(host, left, SIGTERM, n);
    AccountedLater(seen, host.events, n, ids, left);
    if !ok {
      return;
    }
    DroppedAreStopped(host.events, n, ids, left, SIGTERM);
    var now := host.Now();
    ghost var asked := host.events;
    r := Wait(host, left, Min(TERM_GRACE, Max(0, cleanupDeadline - now)));
    GroundedByReads(asked, host.events, n);
    ReadsCompose(asked, host.events, n);
    if r.None? {
      AccountedLater(asked, host.events, n, ids, left);
      return left, false;
    }
    AccountedTwice(asked, host.events, n, |asked|, ids, left, r.value);
    left := r.value;
    ghost var waited := host.events;
    if left != {} {
      ok := SignalGrounded(host, left, SIGKILL, n);
      AccountedLater(waited, host.events, n, ids, left);
    }
    AllStoppedLater(asked, host.events, n, ids, SIGTERM);
    if ok {
      DroppedAreStopped(host.events, n, ids, left, SIGKILL);
    }
  }

  lemma AccountedLater(before: Events, after: Events, n: nat, ids: set<Identity>, left: set<Identity>)
    requires before <= after && Accounted(before, n, ids, left)
    ensures Accounted(after, n, ids, left)
  {
    forall i | i in ids && i !in left ensures SeenGone(after, n, i) {
      SeenStays(before, after, n, n, i);
    }
  }

  lemma ReadsCompose(before: Events, after: Events, n: nat)
    requires before <= after && n <= |before| && NoFailedRead(before, n)
    ensures NoFailedRead(after, n) <==> NoFailedRead(after, |before|)
  {
    assert forall k :: 0 <= k < |before| ==> after[k] == before[k];
  }

  /** The last thing done was to stop the leader through its own handle, or it ran no longer. */
  ghost predicate LeaderStopped(leaderRuns: nat -> bool, events: Events) {
    (events != [] && events[|events| - 1].KillLeader?) || !leaderRuns(|events|)
  }

  /** `ProcessOwnership.quiesce` on POSIX. Whoever is not reported as a survivor was seen gone in a
      readable table; a failed read never shrinks the survivors and always prevents the clean claim. */
  method Quiesce(host: Host, ids: set<Identity>, timeout: int) returns (c: Cleanup)
    modifies host
    ensures old(host.events) <= host.events && SignalsAreGrounded(host.events, |old(host.events)|)
    ensures Accounted(host.events, |old(host.events)|, ids, c.survivors)
    ensures c.failures == 0 <==> NoFailedRead(host.events, |old(host.events)|)
    ensures c.Complete() ==> forall i <- ids :: SeenGone(host.events, |old(host.events)|, i)
    ensures c.failures == 0 ==>
              && AllStopped(host.events, |old(host.events)|, ids, SIGTERM)
              && AllStopped(host.events, |old(host.events)|, ids, SIGKILL)
              && AliveAtLast(host.events, c.survivors)
    ensures c.failures == 0 && !c.Complete() ==> host.now >= old(host.now) + Max(0, timeout)
    ensures c.failures != 0 ==>
              || LeaderStopped(host.leaderRuns, host.events)
              || (AllStopped(host.events, |old(host.events)|, ids, SIGTERM)
                  && AllStopped(host.events, |old(host.events)|, ids, SIGKILL))
  {
    ghost var n := |host.events|;
    var now := host.Now();
    var cleanupDeadline := now + Max(0, timeout);
    var left, ok := AskToStop(host, ids, cleanupDeadline);
    ghost var asked := host.events;
    if !ok {
      host.StopLeader();
      GroundedByReads(asked, host.events, n);
      AccountedLater(asked, host.events, n, ids, left);
      FailureStays(asked, host.events, n);
      return Cleanup(left, 1);
    }
    now := host.Now();
    var r := Wait(host, left, Max(0, cleanupDeadline - now));
    GroundedByReads(asked, host.events, n);
    ReadsCompose(asked, host.events, n);
    AllStoppedLater(asked, host.events, n, ids, SIGTERM);
    AllStoppedLater(asked, host.events, n, ids, SIGKILL);
    if r.None? {
      AccountedLater(asked, host.events, n, ids, left);
      return Cleanup(left, 1);
    }
    AccountedTwice(asked, host.events, n, |asked|, ids, left, r.value);
    return Cleanup(r.value, 0);
  }

  lemma FailureStays(before: Events, after: Events, n: nat)
    requires before <= after && !NoFailedRead(before, n)
    ensures !NoFailedRead(after, n)
  {
    var k :| n <= k < |before| && before[k].Read? && before[k].table.None?;
    assert after[k] == before[k];
  }

  /** `ProcessOwnership.terminate` on POSIX: a clean claim covers everything that descended from the owned
      session and the confirmed registered identities when the cleanup began. */
  method Terminate(host: Host, session: Option<nat>, additional: set<Identity>, timeout: int) returns (c: Cleanup)
    modifies host
    ensures |old(host.events)| < |host.events| && old(host.events) <= host.events
    ensures host.events[|old(host.events)|].Read?
    ensures host.events[|old(host.events)|].table.None? ==>
              && c == Cleanup({}, 1) && LeaderStopped(host.leaderRuns, host.events)
              && forall k :: |old(host.events)| < k < |host.events| ==> host.events[k].KillLeader?
    ensures host.events[|old(host.events)|].table.Some? ==>
              var table := host.events[|old(host.events)|].table.value;
              Terminated(host.leaderRuns, host.events, |old(host.events)| + 1, table,
                         Base(table, session, additional), c)
    ensures c.failures == 0 && !c.Complete() ==> host.now >= old(host.now) + Max(0, timeout)
  {
    var owned := Snapshot(host, session, additional);
    if owned.None? {
      host.StopLeader();
      return Cleanup({}, 1);
    }
    ghost var table := host.events[|old(host.events)|].table.value;
    c := StopOwned(host, owned.value, timeout, table, Base(table, session, additional));
  }

  method StopOwned(host: Host, owned: set<Identity>, timeout: int, ghost table: Table, ghost base: set<Identity>)
    returns (c: Cleanup)
    requires IsLeastOwned(table, base, owned)
    modifies host
    ensures old(host.events) <= host.events
    ensures Terminated(host.leaderRuns, host.events, |old(host.events)|, table, base, c)
    ensures c.failures == 0 && !c.Complete() ==> host.now >= old(host.now) + Max(0, timeout)
  {
    OwnedAreTheDescendants(table, base, owned);
    c := Quiesce(host, owned, timeout);
    DescendantsAreTerminated(host.leaderRuns, host.events, |old(host.events)|, table, base, owned, c);
  }

  /** What a cleanup since `n` did with everything that descends from the base: failures are failed reads; without any
      each descendant was told to stop twice or seen gone, and is reported as a survivor or was seen gone; survivors
      are descendants; and with a failure the leader was stopped, or the descendants were. */
  ghost predicate Terminated(leaderRuns: nat -> bool, events: Events, n: nat, table: Table, base: set<Identity>,
                             c: Cleanup) {
    && (c.failures == 0 <==> NoFailedRead(events, n))
    && SignalsAreGrounded(events, n)
    && (forall i <- c.survivors :: Descends(table, base, i))
    && (forall i :: Descends(table, base, i) ==> i in c.survivors || SeenGone(events, n, i))
    && (c.failures == 0 ==> DescendantsStopped(events, n, table, base) && AliveAtLast(events, c.survivors))
    && (c.failures != 0 ==> LeaderStopped(leaderRuns, events) || DescendantsStopped(events, n, table, base))
  }

  ghost predicate DescendantsStopped(events: Events, n: nat, table: Table, base: set<Identity>) {
    forall i :: Descends(table, base, i) && 0 < i.pid ==>
      Stopped(events, n, i, SIGTERM) && Stopped(events, n, i, SIGKILL)
  }

  lemma DescendantsAreTerminated(leaderRuns: nat -> bool, events: Events, n: nat, table: Table, base: set<Identity>,
                                 owned: set<Identity>, c: Cleanup)
    requires forall i :: i in owned <==> Descends(table, base, i)
    requires SignalsAreGrounded(events, n) && Accounted(events, n, owned, c.survivors)
    requires c.failures == 0 <==> NoFailedRead(events, n)
    requires c.failures == 0 ==>
               && AllStopped(events, n, owned, SIGTERM) && AllStopped(events, n, owned, SIGKILL)
               && AliveAtLast(events, c.survivors)
    requires c.failures != 0 ==>
               || LeaderStopped(leaderRuns, events)
               || (AllStopped(events, n, owned, SIGTERM) && AllStopped(events, n, owned, SIGKILL))
    ensures Terminated(leaderRuns, events, n, table, base, c)
  {
  }

  // ---------- Survivors (Windows) ----------

  function IdentityIn(state: WindowsState): Option<Identity> {
    match state
    case Absent => None
    case Exited(who) => Some(who)
    case Running(who) => Some(who)
    case Failing(known) => known
  }

  predicate MayRun(state: WindowsState) {
    state.Running? || state.Failing?
  }

  /** The query on whose answer an identity is dropped: somebody else or nobody holds its pid, or it no longer runs. */
  predicate Drops(i: Identity, e: HostEvent) {
    && e.Query? && e.target == i
    && (if e.confirming then !MayRun(e.state) else !i.Identifies(IdentityIn(e.state)))
  }

  /** A failed identity query that names nobody (access denied, say) drops as well, though it shows nothing. */
  predicate IsBlind(e: HostEvent) {
    e.Query? && !e.confirming && e.state == Failing(None)
  }

  ghost predicate Dropped(events: Events, n: nat, i: Identity) {
    exists k: nat :: n <= k < |events| && Drops(i, events[k])
  }

  /** The answer shows that the process is gone: its pid is free, it has exited, or another process holds the pid. */
  predicate ShowsGone(i: Identity, state: WindowsState) {
    state.Absent? || state.Exited? || (IdentityIn(state).Some? && !i.Identifies(IdentityIn(state)))
  }

  /** Dropped on an answer that shows it gone. */
  ghost predicate SeenGoneWindows(events: Events, n: nat, i: Identity) {
    exists k: nat :: n <= k < |events| && Drops(i, events[k]) && ShowsGone(i, events[k].state)
  }

  ghost predicate BlindlyDropped(events: Events, n: nat, i: Identity) {
    exists k: nat :: n <= k < |events| && Drops(i, events[k]) && IsBlind(events[k])
  }

  /** A query that drops an identity shows it gone if and only if it is not blind. */
  lemma ShowsUnlessBlind(i: Identity, e: HostEvent)
    requires Drops(i, e)
    ensures ShowsGone(i, e.state) <==> !IsBlind(e)
  {
  }

  function DropCount(events: Events, n: nat, i: Identity): nat {
    if |events| <= n then 0
    else DropCount(events[..|events| - 1], n, i) + (if Drops(i, events[|events| - 1]) then 1 else 0)
  }

  lemma {:induction false} CountedIsDropped(events: Events, n: nat, i: Identity)
    ensures DropCount(events, n, i) > 0 <==> Dropped(events, n, i)
  {
    if |events| > n {
      var before, last := events[..|events| - 1], |events| - 1;
      CountedIsDropped(before, n, i);
      if Dropped(before, n, i) {
        var k: nat :| n <= k < |before| && Drops(i, before[k]);
        assert events[k] == before[k];
      }
      if k: nat :| n <= k < |events| && Drops(i, events[k]) {
        assert k < last ==> before[k] == events[k];
      }
    }
  }

  lemma {:induction false} CountTwice(before: Events, after: Events, n: nat, i: Identity)
    requires before <= after && n <= |before|
    ensures DropCount(after, n, i) == DropCount(before, n, i) + DropCount(after, |before|, i)
    decreases |after|
  {
    if |after| > |before| {
      CountTwice(before, after[..|after| - 1], n, i);
    } else {
      assert before == after;
    }
  }

  lemma {:induction false} TwoDropsCount(events: Events, n: nat, i: Identity, j: nat, k: nat)
    requires n <= j < k < |events| && Drops(i, events[j]) && Drops(i, events[k])
    ensures DropCount(events, n, i) >= 2
    decreases |events|
  {
    var before := events[..|events| - 1];
    if k < |events| - 1 {
      TwoDropsCount(before, n, i, j, k);
    } else {
      assert before[j] == events[j];
      CountedIsDropped(before, n, i);
    }
  }

  /** An identity that was dropped once was seen gone if and only if the query that dropped it was not blind. */
  lemma SeenUnlessBlind(events: Events, n: nat, i: Identity)
    requires DropCount(events, n, i) == 1
    ensures SeenGoneWindows(events, n, i) <==> !BlindlyDropped(events, n, i)
  {
    CountedIsDropped(events, n, i);
    var k: nat :| n <= k < |events| && Drops(i, events[k]);
    forall j: nat | n <= j < |events| && Drops(i, events[j]) ensures j == k {
      if j < k {
        TwoDropsCount(events, n, i, j, k);
      } else if k < j {
        TwoDropsCount(events, n, i, k, j);
      }
    }
    ShowsUnlessBlind(i, events[k]);
  }

  /** Every query since `n` was answered by the host. */
  ghost predicate Honest(queries: nat -> WindowsState, events: Events, n: nat) {
    forall k: nat :: n <= k < |events| && events[k].Query? ==>
      events[k].state == StateFor(events[k].target.pid, queries(k))
  }

  /** Two queries in a row found this very process, and found that it may run. */
  ghost predicate SeenRunning(events: Events, n: nat, i: Identity) {
    exists k: nat :: n <= k && RunningAt(events, k, i)
  }

  ghost predicate RunningAt(events: Events, k: nat, i: Identity) {
    && k + 1 < |events|
    && events[k].Query? && !events[k].confirming && events[k].target == i && i.Identifies(IdentityIn(events[k].state))
    && events[k + 1].Query? && events[k + 1].confirming && events[k + 1].target == i && MayRun(events[k + 1].state)
  }

  lemma RunningStays(before: Events, after: Events, m: nat, n: nat, i: Identity)
    requires before <= after && n <= m && SeenRunning(before, m, i)
    ensures SeenRunning(after, n, i)
  {
    var k: nat :| m <= k && RunningAt(before, k, i);
    assert after[k] == before[k] && after[k + 1] == before[k + 1];
    assert RunningAt(after, k, i);
  }

  /** Exactly the dropped identities are missing from `left`, each dropped by one query, and whoever is left was found
      running. */
  ghost predicate Sifted(events: Events, n: nat, ids: set<Identity>, left: set<Identity>) {
    && left <= ids
    && (forall i :: DropCount(events, n, i) == if i in ids && i !in left then 1 else 0)
    && (forall i <- left :: SeenRunning(events, n, i))
  }

  /** The same while `rest` has not been asked about. */
  ghost predicate SiftedSoFar(events: Events, n: nat, ids: set<Identity>, left: set<Identity>, rest: set<Identity>) {
    && left <= ids - rest
    && (forall i :: DropCount(events, n, i) == if i in ids && i !in left && i !in rest then 1 else 0)
    && (forall i <- left :: SeenRunning(events, n, i))
  }

  /** One identity is asked about: who holds its pid, and if it is itself whether it may run. */
  method IsRunning(host: Host, i: Identity) returns (runs: bool)
    modifies host
    ensures old(host.events) <= host.events && host.now == old(host.now)
    ensures Honest(host.queries, host.events, |old(host.events)|)
    ensures runs <==> i.Identifies(IdentityIn(StateFor(i.pid, host.queries(|old(host.events)|))))
                      && MayRun(StateFor(i.pid, host.queries(|old(host.events)| + 1)))
    ensures runs ==> SeenRunning(host.events, |old(host.events)|, i)
    ensures forall j :: DropCount(host.events, |old(host.events)|, j) == if j == i && !runs then 1 else 0
  {
    var state := host.Ask(i, false);
    ghost var one := host.events;
    assert one[..|one| - 1] == old(host.events);
    if !i.Identifies(IdentityIn(state)) {
      return false;
    }
    var second := host.Ask(i, true);
    assert host.events[..|host.events| - 1] == one;
    assert MayRun(second) ==> RunningAt(host.events, |old(host.events)|, i);
    return MayRun(second);
  }

  lemma SiftOneMore(before: Events, after: Events, n: nat, ids: set<Identity>, left: set<Identity>, rest: set<Identity>,
                    i: Identity, runs: bool)
    requires before <= after && n <= |before| && i in rest && i !in left && rest <= ids
    requires SiftedSoFar(before, n, ids, left, rest)
    requires runs ==> SeenRunning(after, |before|, i)
    requires forall j :: DropCount(after, |before|, j) == if j == i && !runs then 1 else 0
    ensures SiftedSoFar(after, n, ids, if runs then left + {i} else left, rest - {i})
  {
    forall j ensures DropCount(after, n, j) == DropCount(before, n, j) + DropCount(after, |before|, j) {
      CountTwice(before, after, n, j);
    }
    forall j | j in left ensures SeenRunning(after, n, j) {
      RunningStays(before, after, n, n, j);
    }
    if runs {
      RunningStays(after, after, |before|, n, i);
    }
  }

  /** `survivors` on Windows. */
  method SurvivorsWindows(host: Host, ids: set<Identity>) returns (left: set<Identity>)
    modifies host
    ensures old(host.events) <= host.events && host.now == old(host.now)
    ensures Honest(host.queries, host.events, |old(host.events)|)
    ensures Sifted(host.events, |old(host.events)|, ids, left)
  {
    left := {};
    var rest := ids;
    while rest != {}
      invariant rest <= ids && host.now == old(host.now) && old(host.events) <= host.events
      invariant Honest(host.queries, host.events, |old(host.events)|)
      invariant SiftedSoFar(host.events, |old(host.events)|, ids, left, rest)
      decreases |rest|
    {
      var i :| i in rest;
      ghost var before := host.events;
      var runs := IsRunning(host, i);
      SiftOneMore(before, host.events, |old(host.events)|, ids, left, rest, i, runs);
      HonestTwice(host.queries, before, host.events, |old(host.events)|);
      left := if runs then left + {i} else left;
      rest := rest - {i};
    }
  }

  lemma HonestTwice(queries: nat -> WindowsState, before: Events, after: Events, n: nat)
    requires before <= after && Honest(queries, before, n) && Honest(queries, after, |before|)
    ensures Honest(queries, after, n)
  {
    assert forall k :: 0 <= k < |before| ==> after[k] == before[k];
  }

  lemma SiftTwice(before: Events, after: Events, n: nat, ids: set<Identity>, some: set<Identity>, fewer: set<Identity>)
    requires before <= after && n <= |before| && Sifted(before, n, ids, some) && Sifted(after, |before|, some, fewer)
    ensures Sifted(after, n, ids, fewer)
  {
    forall j ensures DropCount(after, n, j) == DropCount(before, n, j) + DropCount(after, |before|, j) {
      CountTwice(before, after, n, j);
    }
    forall j | j in fewer ensures SeenRunning(after, n, j) {
      RunningStays(after, after, |before|, n, j);
    }
  }

  /** `wait` on Windows. */
  method WaitWindows(host: Host, ids: set<Identity>, timeout: int) returns (left: set<Identity>)
    modifies host
    ensures old(host.events) <= host.events && Honest(host.queries, host.events, |old(host.events)|)
    ensures Sifted(host.events, |old(host.events)|, ids, left) && host.now >= old(host.now)
    ensures left != {} ==> host.now >= old(host.now) + Max(0, timeout)
  {
    ghost var n := |host.events|;
    var start := host.Now();
    var deadline := start + Max(0, timeout);
    left := SurvivorsWindows(host, ids);
    var now := host.Now();
    while left != {} && now < deadline
      invariant old(host.events) <= host.events && host.now == now >= old(host.now)
      invariant Honest(host.queries, host.events, n) && Sifted(host.events, n, ids, left)
      decreases deadline - now
    {
      var again := host.Now();
      host.Sleep(Min(STEP, Max(0, deadline - again)));
      ghost var before, was := host.events, left;
      left := SurvivorsWindows(host, left);
      SiftTwice(before, host.events, n, ids, was, left);
      HonestTwice(host.queries, before, host.events, n);
      now := host.Now();
    }
  }

  /** What is dropped and what is seen, for each identity of a finished wait. */
  ghost predicate Evidence(events: Events, n: nat, ids: set<Identity>, left: set<Identity>) {
    forall i <- ids ::
      && (i in left <==> !Dropped(events, n, i))
      && (i !in left ==> (SeenGoneWindows(events, n, i) <==> !BlindlyDropped(events, n, i)))
  }

  lemma SiftedIsEvidence(events: Events, n: nat, ids: set<Identity>, left: set<Identity>)
    requires Sifted(events, n, ids, left)
    ensures Evidence(events, n, ids, left)
  {
    forall i | i in ids
      ensures i in left <==> !Dropped(events, n, i)
      ensures i !in left ==> (SeenGoneWindows(events, n, i) <==> !BlindlyDropped(events, n, i))
    {
      assert DropCount(events, n, i) == if i in left then 0 else 1;
      CountedIsDropped(events, n, i);
      if i !in left {
        SeenUnlessBlind(events, n, i);
      }
    }
  }

  /** A host on which every query fails without naming anybody. */
  ghost predicate AlwaysBlind(queries: nat -> WindowsState) {
    forall k: nat :: queries(k) == Failing(None)
  }

  lemma NobodyIsSeenRunning(queries: nat -> WindowsState, events: Events, n: nat, i: Identity)
    requires AlwaysBlind(queries) && Honest(queries, events, n) && i.pid > 0
    ensures !SeenRunning(events, n, i)
  {
    forall k: nat | n <= k ensures !RunningAt(events, k, i) {
      if k < |events| && events[k].Query? && events[k].target == i {
        assert events[k].state == Failing(None);
      }
    }
  }

  /** On such a host every identity is dropped and none was seen gone. */
  lemma BlindHostSeesNobody(queries: nat -> WindowsState, events: Events, n: nat, ids: set<Identity>,
                            left: set<Identity>)
    requires AlwaysBlind(queries) && Honest(queries, events, n) && Sifted(events, n, ids, left)
    requires forall i <- ids :: i.pid > 0
    ensures left == {} && forall i <- ids :: Dropped(events, n, i) && !SeenGoneWindows(events, n, i)
  {
    forall i | i in ids ensures !SeenRunning(events, n, i) {
      NobodyIsSeenRunning(queries, events, n, i);
    }
    SiftedIsEvidence(events, n, ids, left);
    forall i | i in ids ensures !SeenGoneWindows(events, n, i) {
      forall k: nat | n <= k < |events| && Drops(i, events[k]) ensures !ShowsGone(i, events[k].state) {
        assert events[k].state == Failing(None);
      }
    }
  }

  // ---------- Cleanup (Windows) ----------

  /** Everything a clean Windows claim rests on, in the history of Win32 calls since `n`. */
  ghost predicate TreeIsDown(log: Log, n: nat, since: nat, held: map<nat, Handle>, hadHandle: bool, code: Option<int>) {
    && (if hadHandle then LeaderSignaled(log, n) else code.Some?)
    && MembersSignaled(log, n, since, held)
    && NobodyActive(log, n)
  }

  /** Every member handle held at `n` or opened since was waited for and found signaled. */
  ghost predicate MembersSignaled(log: Log, n: nat, since: nat, held: map<nat, Handle>) {
    forall h :: since <= h < |log| && IsMemberOpening(log[h]) && (n <= h || Held(log, held, h)) ==>
      SignaledIn(log, n, h)
  }

  lemma MembersStaySignaled(before: Log, after: Log, n: nat, since: nat, held: map<nat, Handle>)
    requires before <= after && NoOpenings(after, |before|) && MembersSignaled(before, n, since, held)
    ensures MembersSignaled(after, n, since, held)
  {
    SignalsLast(before, after, n);
    assert forall h :: 0 <= h < |before| ==> after[h] == before[h];
  }

  ghost predicate NobodyActive(log: Log, n: nat) {
    exists k: nat, job: nat :: n <= k && DidOk(log, k, CountActive(job)) && log[k].answer.value == 0
  }

  lemma EvidenceStays(before: Log, after: Log, n: nat)
    requires before <= after
    ensures LeaderSignaled(before, n) ==> LeaderSignaled(after, n)
    ensures NobodyActive(before, n) ==> NobodyActive(after, n)
  {
    if LeaderSignaled(before, n) {
      var k: nat :| n <= k < |before| && SignalsLeader(before[k]);
      assert after[k] == before[k];
    }
    if NobodyActive(before, n) {
      var k: nat, job: nat :| n <= k && DidOk(before, k, CountActive(job)) && before[k].answer.value == 0;
      assert DidOk(after, k, CountActive(job)) && after[k].answer.value == 0;
    }
  }

  /** Every answer since `n` is the system's. */
  ghost predicate Answered(os: nat -> Answer, log: Log, n: nat) {
    forall k :: n <= k < |log| ==> log[k].answer == os(k)
  }

  lemma AnsweredTwice(os: nat -> Answer, before: Log, after: Log, n: nat)
    requires before <= after && Answered(os, before, n) && Answered(os, after, |before|)
    ensures Answered(os, after, n)
  {
    assert forall k :: 0 <= k < |before| ==> after[k] == before[k];
  }

  /** The system lists no process of the job and counts none. */
  ghost predicate Deserted(os: nat -> Answer) {
    forall k: nat :: os(k).pids == [] && os(k).value == 0
  }

  /** The job handle is open, and the leader has a handle or was reaped. */
  ghost predicate Reachable(job: JobView) {
    job.handle.Some? && (job.leader || job.code.Some?)
  }

  /** The job was asked to die. */
  ghost predicate JobTerminated(log: Log, n: nat, job: Handle) {
    exists k: nat :: n <= k && Did(log, k, TerminateJob(job))
  }

  lemma TerminationStays(before: Log, after: Log, n: nat, job: Handle)
    requires before <= after && JobTerminated(before, n, job)
    ensures JobTerminated(after, n, job)
  {
    var k: nat :| n <= k && Did(before, k, TerminateJob(job));
    assert Did(after, k, TerminateJob(job));
  }

  /** Hold the members and kill the job. */
  method HoldThenKill(job: ProcessJob) returns (failures: nat)
    requires job.Valid()
    modifies job`members, job.api
    ensures job.Valid() && Continues(job.api.os, old(job.api.log), job.api.log)
    ensures Retains(old(job.members), job.members) && OpeningsHeld(job.api.log, |old(job.api.log)|, job.members)
    ensures failures == 0 <==> job.handle.Some? && AllGood(job.api.log, |old(job.api.log)|)
    ensures job.handle.Some? ==> JobTerminated(job.api.log, |old(job.api.log)|, job.handle.value)
    ensures job.handle.Some? && Deserted(job.api.os) ==>
              && Grew(old(job.api.log), job.api.log, [JobProcessIds(job.handle.value), TerminateJob(job.handle.value)])
              && job.members == old(job.members)
  {
    ghost var start := job.api.log;
    var first := job.HoldMembers();
    ghost var one := job.api.log;
    var stop := job.Terminate();
    HoldLog(job.api.os, start, one, job.api.log, job.members, job.members);
    if job.handle.Some? {
      assert Did(job.api.log, |one|, TerminateJob(job.handle.value));
      var h := job.handle.value;
      GrowsBoth(start, one, job.api.log, [JobProcessIds(h)], [TerminateJob(h)]);
      assert [JobProcessIds(h)] + [TerminateJob(h)] == [JobProcessIds(h), TerminateJob(h)];
    }
    failures := |first| + |stop|;
  }

  lemma HoldLog(os: nat -> Answer, start: Log, one: Log, two: Log, held: map<nat, Handle>, members: map<nat, Handle>)
    requires Continues(os, start, one) && Continues(os, one, two) && Retains(held, members)
    requires OpeningsHeld(one, |start|, held) && OpeningsHeld(two, |one|, members)
    ensures Continues(os, start, two) && OpeningsHeld(two, |start|, members)
    ensures AllGood(two, |start|) <==> AllGood(one, |start|) && AllGood(two, |one|)
  {
    ContinuesTwice(os, start, one, two);
    OpeningsStayHeld(one, two, |start|, held, members);
    GoodParts(one, two, |start|);
  }

  lemma GrowsBoth(a: Log, b: Log, c: Log, first: seq<Call>, second: seq<Call>)
    ensures Grew(a, b, first) && Grew(b, c, second) ==> Grew(a, c, first + second)
  {
    if Grew(a, b, first) && Grew(b, c, second) {
      GrewTwice(a, b, c, first, second);
    }
  }

  function KillTree(job: Handle): seq<Call> {
    [JobProcessIds(job), TerminateJob(job), JobProcessIds(job)]
  }

  /** Hold the members, kill the job, and hold those that appeared meanwhile. */
  method HoldAndTerminate(job: ProcessJob) returns (failures: nat)
    requires job.Valid()
    modifies job`members, job.api
    ensures job.Valid() && Continues(job.api.os, old(job.api.log), job.api.log)
    ensures Retains(old(job.members), job.members) && OpeningsHeld(job.api.log, |old(job.api.log)|, job.members)
    ensures failures == 0 <==> job.handle.Some? && AllGood(job.api.log, |old(job.api.log)|)
    ensures job.handle.Some? ==> JobTerminated(job.api.log, |old(job.api.log)|, job.handle.value)
    ensures job.handle.Some? && Deserted(job.api.os) ==>
              && Grew(old(job.api.log), job.api.log, KillTree(job.handle.value)) && job.members == old(job.members)
  {
    ghost var start := job.api.log;
    var first := HoldThenKill(job);
    ghost var two, held := job.api.log, job.members;
    var second := job.HoldMembers();
    HoldLog(job.api.os, start, two, job.api.log, held, job.members);
    if job.handle.Some? {
      var h := job.handle.value;
      TerminationStays(two, job.api.log, |start|, h);
      GrowsBoth(start, two, job.api.log, [JobProcessIds(h), TerminateJob(h)], [JobProcessIds(h)]);
      assert [JobProcessIds(h), TerminateJob(h)] + [JobProcessIds(h)] == KillTree(h);
    }
    failures := first + |second|;
  }

  function WaitCalls(leader: bool): seq<Call> {
    if leader then [WaitLeader, ClosePopen] else []
  }

  /** The leader was found signaled since `n`, or had no handle to wait on but a return code. */
  ghost predicate LeaderIsDown(log: Log, n: nat, hadHandle: bool, code: Option<int>) {
    if hadHandle then LeaderSignaled(log, n) else code.Some?
  }

  /** Wait for the leader and let go of it. */
  method AwaitLeader(job: ProcessJob) returns (failures: nat)
    requires job.Valid() && job.Informed()
    modifies job.api, job.leader
    ensures job.Valid() && job.Informed()
    ensures Grew(old(job.api.log), job.api.log, WaitCalls(old(job.leader.handle)))
    ensures Answered(job.api.os, job.api.log, |old(job.api.log)|)
    ensures failures == 0 ==>
              LeaderIsDown(job.api.log, |old(job.api.log)|, old(job.leader.handle), old(job.leader.returncode))
    ensures failures == 0 <==>
              && (old(job.leader.handle) || old(job.leader.returncode).Some?)
              && AllGood(job.api.log, |old(job.api.log)|)
  {
    var errors := job.WaitForLeaderAndRelease();
    failures := |errors|;
  }

  /** The log of waiting for the leader, up to `one`, and then for the members. */
  lemma AwaitLog(os: nat -> Answer, start: Log, one: Log, after: Log, hadHandle: bool, code: Option<int>)
    requires Grew(start, one, WaitCalls(hadHandle)) && Answered(os, one, |start|)
    requires Continues(os, one, after) && NoOpenings(after, |one|)
    ensures start <= after && Answered(os, after, |start|) && NoOpenings(after, |start|)
    ensures LeaderIsDown(one, |start|, hadHandle, code) ==> LeaderIsDown(after, |start|, hadHandle, code)
    ensures AllGood(after, |start|) <==> AllGood(one, |start|) && AllGood(after, |one|)
    ensures !hadHandle ==> Continues(os, start, after)
  {
    AnsweredTwice(os, one, after, |start|);
    EvidenceStays(one, after, |start|);
    assert forall k :: 0 <= k < |one| ==> after[k] == one[k];
    GoodParts(one, after, |start|);
  }

  /** Wait for the leader and for every held member, and let go of them. */
  method AwaitTree(job: ProcessJob) returns (failures: nat)
    requires job.Valid() && job.Informed()
    modifies job`members, job.api, job.leader
    ensures job.Valid() && job.Informed() && job.members == map[]
    ensures old(job.api.log) <= job.api.log && Answered(job.api.os, job.api.log, |old(job.api.log)|)
    ensures NoOpenings(job.api.log, |old(job.api.log)|)
    ensures failures == 0 ==>
              && LeaderIsDown(job.api.log, |old(job.api.log)|, old(job.leader.handle), old(job.leader.returncode))
              && (forall pid <- old(job.members) :: SignaledIn(job.api.log, |old(job.api.log)|, old(job.members)[pid]))
    ensures failures == 0 <==>
              && (old(job.leader.handle) || old(job.leader.returncode).Some?)
              && AllGood(job.api.log, |old(job.api.log)|)
    ensures old(job.members) == map[] ==> Grew(old(job.api.log), job.api.log, WaitCalls(old(job.leader.handle)))
    ensures !old(job.leader.handle) ==> Continues(job.api.os, old(job.api.log), job.api.log)
  {
    ghost var start := job.api.log;
    var leader := AwaitLeader(job);
    ghost var one := job.api.log;
    var waited := job.WaitForMembersAndRelease();
    FactsStay(job.api.os, one, job.api.log, job.since);
    AwaitLog(job.api.os, start, one, job.api.log, old(job.leader.handle), old(job.leader.returncode));
    MembersSignaledSince(job.api.log, |start|, |one|, old(job.members));
    failures := leader + |waited|;
  }

  lemma MembersSignaledSince(log: Log, n: nat, m: nat, members: map<nat, Handle>)
    requires n <= m
    ensures (forall pid <- members :: SignaledIn(log, m, members[pid])) ==>
              forall pid <- members :: SignaledIn(log, n, members[pid])
  {
    if forall pid <- members :: SignaledIn(log, m, members[pid]) {
      forall pid | pid in members ensures SignaledIn(log, n, members[pid]) {
        assert SignaledIn(log, m, members[pid]);
      }
    }
  }

  /** A job at one moment. */
  datatype JobView = JobView(log: Log, handle: Option<Handle>, members: map<nat, Handle>, leader: bool,
                             code: Option<int>)

  ghost function ViewOf(job: ProcessJob): JobView
    reads job, job.api, job.leader
  {
    JobView(job.api.log, job.handle, job.members, job.leader.handle, job.leader.returncode)
  }

  /** The first half: the job was told to die, and its leader and members were waited for. */
  ghost predicate TreeStopped(os: nat -> Answer, since: nat, before: JobView, after: JobView, failures: nat) {
    && before.log <= after.log && Answered(os, after.log, |before.log|)
    && after.members == map[] && after.handle == before.handle
    && (after.handle.Some? ==> JobTerminated(after.log, |before.log|, after.handle.value))
    && (failures == 0 ==>
          && after.handle.Some?
          && LeaderIsDown(after.log, |before.log|, before.leader, before.code)
          && MembersSignaled(after.log, |before.log|, since, before.members))
    && (failures == 0 <==> Reachable(before) && AllGood(after.log, |before.log|))
    && (!before.leader ==> Continues(os, before.log, after.log))
    && (before.handle.Some? && Deserted(os) && before.members == map[] ==>
          Grew(before.log, after.log, KillTree(before.handle.value) + WaitCalls(before.leader)))
  }

  /** Stop the job and wait for its leader and members; the first half of `quiesce` on Windows. */
  method StopTree(job: ProcessJob) returns (failures: nat)
    requires job.Valid() && job.Informed()
    modifies job`members, job.api, job.leader
    ensures job.Valid() && job.Informed() && job.members == map[]
    ensures TreeStopped(job.api.os, job.since, old(ViewOf(job)), ViewOf(job), failures)
  {
    ghost var start := job.api.log;
    var hold := HoldAndTerminate(job);
    ghost var held, members := job.api.log, job.members;
    FactsStay(job.api.os, start, held, job.since);
    var wait := AwaitTree(job);
    failures := hold + wait;
    StopLog(job.api.os, start, held, job.api.log, old(job.leader.handle), old(job.leader.returncode));
    AllMembersSignaled(start, held, job.api.log, job.since, old(job.members), members);
    if job.handle.Some? {
      TerminationStays(held, job.api.log, |start|, job.handle.value);
      GrowsBoth(start, held, job.api.log, KillTree(job.handle.value), WaitCalls(old(job.leader.handle)));
    }
  }

  /** The log of killing the tree, up to `held`, and then waiting for it. */
  lemma StopLog(os: nat -> Answer, start: Log, held: Log, after: Log, hadHandle: bool, code: Option<int>)
    requires Continues(os, start, held) && held <= after && Answered(os, after, |held|)
    ensures start <= after && Answered(os, after, |start|)
    ensures LeaderIsDown(after, |held|, hadHandle, code) ==> LeaderIsDown(after, |start|, hadHandle, code)
    ensures AllGood(after, |start|) <==> AllGood(held, |start|) && AllGood(after, |held|)
    ensures Continues(os, held, after) ==> Continues(os, start, after)
  {
    AnsweredTwice(os, held, after, |start|);
    if LeaderIsDown(after, |held|, hadHandle, code) {
      LeaderStaysDown(after, |start|, |held|, hadHandle, code);
    }
    GoodParts(held, after, |start|);
    if Continues(os, held, after) {
      ContinuesTwice(os, start, held, after);
    }
  }

  lemma LeaderStaysDown(log: Log, n: nat, m: nat, hadHandle: bool, code: Option<int>)
    requires n <= m && LeaderIsDown(log, m, hadHandle, code)
    ensures LeaderIsDown(log, n, hadHandle, code)
  {
    if hadHandle {
      var k: nat :| m <= k < |log| && SignalsLeader(log[k]);
    }
  }

  /** The members held when the waiting began are all that were held or opened before, and each was found signaled. */
  lemma AllMembersSignaled(start: Log, held: Log, after: Log, since: nat, before: map<nat, Handle>,
                           members: map<nat, Handle>)
    requires start <= held <= after && Retains(before, members) && OpeningsHeld(held, |start|, members)
    requires NoOpenings(after, |held|)
    ensures (forall pid <- members :: SignaledIn(after, |held|, members[pid])) ==>
              MembersSignaled(after, |start|, since, before)
  {
    assert forall h :: 0 <= h < |held| ==> after[h] == held[h];
    if forall pid <- members :: SignaledIn(after, |held|, members[pid]) {
      forall h | since <= h < |after| && IsMemberOpening(after[h]) && (|start| <= h || Held(after, before, h))
        ensures SignaledIn(after, |start|, h)
      {
        assert Held(held, members, h);
        assert SignaledIn(after, |held|, members[after[h].call.pid]);
      }
    }
  }

  lemma StillActive(before: Log, after: Log, n: nat)
    requires n <= |before| <= |after| <= |before| + 1 && before <= after && !NobodyActive(before, n)
    requires |after| > |before| ==> !(after[|before|].answer.ok && after[|before|].answer.value == 0)
    ensures !NobodyActive(after, n)
  {
    if NobodyActive(after, n) {
      var k: nat, job: nat :| n <= k && DidOk(after, k, CountActive(job)) && after[k].answer.value == 0;
      assert DidOk(before, k, CountActive(job));
    }
  }

  /** What polling did: no failure exactly when zero was observed; `late` is a deadline that has passed. */
  ghost predicate Idled(os: nat -> Answer, before: Log, after: Log, handle: Option<Handle>, failures: nat, late: bool) {
    && Continues(os, before, after) && NoOpenings(after, |before|)
    && (failures == 0 <==> NobodyActive(after, |before|))
    && (failures == 0 ==> handle.Some? && AllGood(after, |before|))
    && (handle.Some? && AllGood(after, |before|) ==> failures == 0 || late)
    && (handle.Some? && Deserted(os) ==>
          && Grew(before, after, [CountActive(handle.value)])
          && (failures == 0 <==> after[|before|].answer.ok))
  }

  /** Poll the number of active processes until it is zero, the query fails, or the deadline passes. */
  method AwaitIdle(job: ProcessJob, host: Host, deadline: int) returns (failures: nat)
    requires job.Valid()
    modifies job.api, host
    ensures job.Valid() && host.events == old(host.events)
    ensures Idled(job.api.os, old(job.api.log), job.api.log, job.handle, failures, host.now >= deadline)
  {
    ghost var start := job.api.log;
    while true
      invariant job.Valid() && Continues(job.api.os, start, job.api.log) && NoOpenings(job.api.log, |start|)
      invariant host.events == old(host.events) && !NobodyActive(job.api.log, |start|) && AllGood(job.api.log, |start|)
      invariant job.handle.Some? && Deserted(job.api.os) ==> job.api.log == start
      decreases Max(0, deadline - host.now)
    {
      ghost var before := job.api.log;
      var active := job.ActiveProcessCount();
      ContinuesTwice(job.api.os, start, before, job.api.log);
      if active.Err? {
        StillActive(before, job.api.log, |start|);
        return 1;
      }
      assert job.api.log[|before|].answer == job.api.os(|before|);
      if active.value == 0 {
        assert DidOk(job.api.log, |before|, CountActive(job.handle.value));
        return 0;
      }
      StillActive(before, job.api.log, |start|);
      var now := host.Now();
      if deadline - now <= 0 {
        return 1;
      }
      host.Sleep(Min(STEP, deadline - now));
    }
  }

  function CloseCalls(job: Handle): seq<Call> {
    [CountActive(job), CloseHandle(job)]
  }

  /** The calls of a cleanup of a job that nobody else is in, in order. */
  function QuiesceCalls(job: Handle, leader: bool): seq<Call> {
    KillTree(job) + WaitCalls(leader) + CloseCalls(job)
  }

  /** The log of the whole cleanup: stopping the tree up to `stopped`, then counting and closing. */
  lemma QuiesceLog(os: nat -> Answer, start: Log, stopped: Log, after: Log, since: nat, held: map<nat, Handle>,
                   hadHandle: bool, code: Option<int>)
    requires start <= stopped && Answered(os, stopped, |start|) && Continues(os, stopped, after)
    requires NoOpenings(after, |stopped|)
    ensures start <= after && Answered(os, after, |start|)
    ensures AllGood(after, |start|) <==> AllGood(stopped, |start|) && AllGood(after, |stopped|)
    ensures StoppedBy(stopped, after, |start|, since, held, hadHandle, code) ==>
              TreeIsDown(after, |start|, since, held, hadHandle, code)
    ensures Continues(os, start, stopped) ==> Continues(os, start, after)
  {
    AnsweredTwice(os, stopped, after, |start|);
    EvidenceStays(stopped, after, |start|);
    GoodParts(stopped, after, |start|);
    if StoppedBy(stopped, after, |start|, since, held, hadHandle, code) {
      MembersStaySignaled(stopped, after, |start|, since, held);
      var k: nat, job: nat :| |stopped| <= k && DidOk(after, k, CountActive(job)) && after[k].answer.value == 0;
    }
    if Continues(os, start, stopped) {
      ContinuesTwice(os, start, stopped, after);
    }
  }

  ghost predicate StoppedBy(stopped: Log, after: Log, n: nat, since: nat, held: map<nat, Handle>, hadHandle: bool,
                            code: Option<int>) {
    && LeaderIsDown(stopped, n, hadHandle, code) && MembersSignaled(stopped, n, since, held)
    && NobodyActive(after, |stopped|)
  }

  lemma TwoParts(os: nat -> Answer, start: Log, one: Log, after: Log)
    requires Continues(os, start, one) && Continues(os, one, after)
    requires NoOpenings(one, |start|) && NoOpenings(after, |one|)
    ensures Continues(os, start, after) && NoOpenings(after, |start|)
    ensures AllGood(after, |start|) <==> AllGood(one, |start|) && AllGood(after, |one|)
    ensures NobodyActive(one, |start|) ==> NobodyActive(after, |start|)
  {
    ContinuesTwice(os, start, one, after);
    EvidenceStays(one, after, |start|);
    assert forall k :: 0 <= k < |one| ==> after[k] == one[k];
    GoodParts(one, after, |start|);
  }

  /** One attempt to close the handle of the job, if it still has one. */
  ghost predicate JobShut(os: nat -> Answer, before: Log, after: Log, had: Option<Handle>, has: Option<Handle>,
                          failures: nat) {
    && Continues(os, before, after) && NoOpenings(after, |before|)
    && (had.Some? ==>
          && Grew(before, after, [CloseHandle(had.value)])
          && has == if after[|before|].answer.ok then None else had)
    && (had.None? ==> has.None? && after == before)
    && (failures == 0 <==> has.None?)
  }

  /** Polling and then closing is the second half of a cleanup. */
  lemma PartsClose(os: nat -> Answer, since: nat, before: JobView, idle: Log, after: JobView, f1: nat, f2: nat,
                   late: bool)
    requires Idled(os, before.log, idle, before.handle, f1, late)
    requires JobShut(os, idle, after.log, before.handle, after.handle, f2)
    requires EachClosedOnce(after.log, since) && after.members == map[]
    ensures Closed(os, since, before, after, f1 + f2, late)
  {
    TwoParts(os, before.log, idle, after.log);
    CloseIsGood(os, idle, after.log, before.handle, after.handle, f2);
    if before.handle.Some? && Deserted(os) {
      DesertedParts(os, before, idle, after, f1, f2, late);
    }
  }

  lemma CloseIsGood(os: nat -> Answer, before: Log, after: Log, had: Option<Handle>, has: Option<Handle>, failures: nat)
    requires JobShut(os, before, after, had, has, failures)
    ensures failures == 0 <==> AllGood(after, |before|)
  {
    if had.Some? {
      assert AllGood(after, |before|) <==> Good(after[|before|]);
    }
  }

  lemma DesertedParts(os: nat -> Answer, before: JobView, idle: Log, after: JobView, f1: nat, f2: nat, late: bool)
    requires before.handle.Some? && Deserted(os)
    requires Idled(os, before.log, idle, before.handle, f1, late)
    requires JobShut(os, idle, after.log, before.handle, after.handle, f2)
    ensures Grew(before.log, after.log, CloseCalls(before.handle.value))
    ensures AllGood(after.log, |before.log|) ==> f1 + f2 == 0
    ensures after.handle.None? <==> after.log[|after.log| - 1].answer.ok
  {
    var h := before.handle.value;
    GrowsBoth(before.log, idle, after.log, [CountActive(h)], [CloseHandle(h)]);
    assert [CountActive(h)] + [CloseHandle(h)] == CloseCalls(h);
    assert after.log[|before.log|] == idle[|before.log|];
  }

  /** Close a job without members. */
  method CloseEmpty(job: ProcessJob) returns (failures: nat)
    requires job.Valid() && job.members == map[]
    modifies job`handle, job`members, job.api
    ensures job.Valid() && EachClosedOnce(job.api.log, job.since) && job.members == map[]
    ensures JobShut(job.api.os, old(job.api.log), job.api.log, old(job.handle), job.handle, failures)
  {
    var errors := job.Close();
    failures := |errors|;
  }

  /** The second half: nobody is active and the job is closed; `late` is a deadline that has passed. */
  ghost predicate Closed(os: nat -> Answer, since: nat, before: JobView, after: JobView, failures: nat, late: bool) {
    && Continues(os, before.log, after.log) && NoOpenings(after.log, |before.log|)
    && EachClosedOnce(after.log, since) && after.members == map[]
    && (after.handle.Some? ==> after.handle == before.handle)
    && (failures == 0 ==>
          && NobodyActive(after.log, |before.log|) && after.handle.None?
          && before.handle.Some? && AllGood(after.log, |before.log|))
    && (before.handle.Some? && AllGood(after.log, |before.log|) ==> failures == 0 || late)
    && (before.handle.Some? && Deserted(os) ==>
          && Grew(before.log, after.log, CloseCalls(before.handle.value))
          && (AllGood(after.log, |before.log|) ==> failures == 0)
          && (after.handle.None? <==> after.log[|after.log| - 1].answer.ok))
  }

  /** Wait until nobody is active, then close the job. */
  method CountAndClose(job: ProcessJob, host: Host, deadline: int) returns (failures: nat)
    requires job.Valid() && job.members == map[]
    modifies host, job`handle, job`members, job.api
    ensures host.events == old(host.events) && job.Valid()
    ensures Closed(job.api.os, job.since, old(ViewOf(job)), ViewOf(job), failures, host.now >= deadline)
  {
    var idling := AwaitIdle(job, host, deadline);
    ghost var idle := job.api.log;
    var closing := CloseEmpty(job);
    PartsClose(job.api.os, job.since, old(ViewOf(job)), idle, ViewOf(job), idling, closing, host.now >= deadline);
    failures := idling + closing;
  }

  /** What the job half of a cleanup did between two moments. */
  ghost predicate TornDown(os: nat -> Answer, since: nat, before: JobView, after: JobView, failures: nat) {
    && before.log <= after.log && Answered(os, after.log, |before.log|)
    && EachClosedOnce(after.log, since) && after.members == map[]
    && (before.handle.Some? ==> JobTerminated(after.log, |before.log|, before.handle.value))
    && (!before.leader ==> Continues(os, before.log, after.log))
    && (failures == 0 ==>
          && Reachable(before) && after.handle.None? && AllGood(after.log, |before.log|)
          && TreeIsDown(after.log, |before.log|, since, before.members, before.leader, before.code))
  }

  /** In a deserted job the calls are these, in this order, and only a bad answer is a failure. */
  ghost predicate PlayedOut(os: nat -> Answer, before: JobView, after: JobView, failures: nat) {
    before.handle.Some? && Deserted(os) && before.members == map[] ==>
      && Grew(before.log, after.log, QuiesceCalls(before.handle.value, before.leader))
      && (Reachable(before) && AllGood(after.log, |before.log|) ==> failures == 0)
      && (after.handle.None? <==> after.log[|after.log| - 1].answer.ok)
      && (after.handle.Some? ==> after.handle == before.handle)
  }

  lemma HalvesMeet(os: nat -> Answer, since: nat, before: JobView, mid: JobView, after: JobView, f1: nat, f2: nat,
                   late: bool)
    requires TreeStopped(os, since, before, mid, f1) && Closed(os, since, mid, after, f2, late)
    ensures TornDown(os, since, before, after, f1 + f2)
    ensures PlayedOut(os, before, after, f1 + f2)
    ensures Reachable(before) && AllGood(after.log, |before.log|) ==> f1 + f2 == 0 || late
  {
    QuiesceLog(os, before.log, mid.log, after.log, since, before.members, before.leader, before.code);
    if before.handle.Some? {
      var h := before.handle.value;
      TerminationStays(mid.log, after.log, |before.log|, h);
      GrowsBoth(before.log, mid.log, after.log, KillTree(h) + WaitCalls(before.leader), CloseCalls(h));
    }
  }

  /** The job half of `quiesce` on Windows. */
  method StopAndClose(job: ProcessJob, host: Host, deadline: int) returns (failures: nat)
    requires job.Valid() && job.Informed()
    modifies host, job`handle, job`members, job.api, job.leader
    ensures host.events == old(host.events) && job.Valid() && job.Informed()
    ensures TornDown(job.api.os, job.since, old(ViewOf(job)), ViewOf(job), failures)
    ensures PlayedOut(job.api.os, old(ViewOf(job)), ViewOf(job), failures)
    ensures Reachable(old(ViewOf(job))) && AllGood(job.api.log, |old(job.api.log)|) ==>
              failures == 0 || host.now >= deadline
  {
    var stopping := StopTree(job);
    ghost var mid := ViewOf(job);
    var closing := CountAndClose(job, host, deadline);
    FactsStay(job.api.os, mid.log, job.api.log, job.since);
    HalvesMeet(job.api.os, job.since, old(ViewOf(job)), mid, ViewOf(job), stopping, closing, host.now >= deadline);
    failures := stopping + closing;
  }

  /** Whether a claim that the leader is down goes back to a wait that found it signaled: it does when the leader still
      had its handle, and otherwise if and only if it was not released unseen. */
  lemma LeaderClaim(os: nat -> Answer, before: Log, after: Log, since: nat, handle: bool, code: Option<int>)
    requires since <= |before| <= |after| && LeaderIs(FactsOf(before, since), handle, code)
    requires LeaderIsDown(after, |before|, handle, code) && (!handle ==> Continues(os, before, after))
    ensures LeaderSignaled(after, since) <==> handle || !ReleasedUnseen(before, since)
  {
    if handle {
      LeaderStaysDown(after, since, |before|, handle, code);
    } else {
      FactsStay(os, before, after, since);
      FactsMean(before, since);
      FactsMean(after, since);
    }
  }

  /** A complete claim goes back to a wait that found the leader signaled exactly when the leader still had its handle
      or had not been released unseen. */
  ghost predicate LeaderWasSeen(since: nat, before: JobView, after: JobView) {
    LeaderSignaled(after.log, since) <==> before.leader || !ReleasedUnseen(before.log, since)
  }

  /** `ProcessOwnership.quiesce` on Windows. `complete` rests on signaled members, zero active processes and dropped
      identities. It also means that the leader was found signaled, unless its handle had been released unseen before
      the call; and that every identity was seen gone, except exactly those that a blind query dropped. */
  method QuiesceWindows(job: ProcessJob?, host: Host, ids: set<Identity>, timeout: int) returns (c: Cleanup)
    requires job != null ==> job.Valid() && job.Informed()
    modifies host, if job == null then {} else {job, job.api, job.leader}
    ensures old(host.events) <= host.events && Honest(host.queries, host.events, |old(host.events)|)
    ensures Sifted(host.events, |old(host.events)|, ids, c.survivors)
    ensures Evidence(host.events, |old(host.events)|, ids, c.survivors)
    ensures job == null ==> !c.Complete()
    ensures job != null ==>
              && job.Valid() && job.Informed()
              && TornDown(job.api.os, job.since, old(ViewOf(job)), ViewOf(job), c.failures)
              && PlayedOut(job.api.os, old(ViewOf(job)), ViewOf(job), c.failures)
              && (c.Complete() && job.watched ==> LeaderWasSeen(job.since, old(ViewOf(job)), ViewOf(job)))
              && (Reachable(old(ViewOf(job))) && AllGood(job.api.log, |old(job.api.log)|) ==>
                    c.failures == 0 || host.now >= old(host.now) + Max(0, timeout))
  {
    var now := host.Now();
    var deadline := now + Max(0, timeout);
    var failures: nat := 1;
    if job != null {
      failures := TearDown(job, host, deadline);
    }
    now := host.Now();
    var left := WaitWindows(host, ids, Max(0, deadline - now));
    SiftedIsEvidence(host.events, |old(host.events)|, ids, left);
    c := Cleanup(left, failures);
  }

  method TearDown(job: ProcessJob, host: Host, deadline: int) returns (failures: nat)
    requires job.Valid() && job.Informed()
    modifies host, job`handle, job`members, job.api, job.leader
    ensures host.events == old(host.events) && job.Valid() && job.Informed()
    ensures TornDown(job.api.os, job.since, old(ViewOf(job)), ViewOf(job), failures)
    ensures PlayedOut(job.api.os, old(ViewOf(job)), ViewOf(job), failures)
    ensures failures == 0 && job.watched ==> LeaderWasSeen(job.since, old(ViewOf(job)), ViewOf(job))
    ensures Reachable(old(ViewOf(job))) && AllGood(job.api.log, |old(job.api.log)|) ==>
              failures == 0 || host.now >= deadline
  {
    failures := StopAndClose(job, host, deadline);
    if failures == 0 && job.watched {
      LeaderClaim(job.api.os, old(job.api.log), job.api.log, job.since, old(job.leader.handle),
                  old(job.leader.returncode));
    }
  }

  // ---------- Snapshot and termination (Windows) ----------

  /** Exactly the registered identities that are not in `owned` were dropped, each by one query. */
  ghost predicate ConfirmedByQuery(events: Events, n: nat, asked: set<Identity>, owned: set<Identity>) {
    owned <= asked && forall i :: DropCount(events, n, i) == if i in asked && i !in owned then 1 else 0
  }

  /** Whether the process that holds the pid of the identity is the identity itself. */
  method IsConfirmed(host: Host, i: Identity) returns (confirmed: bool)
    modifies host
    ensures old(host.events) <= host.events && Honest(host.queries, host.events, |old(host.events)|)
    ensures confirmed <==> i.Identifies(IdentityIn(StateFor(i.pid, host.queries(|old(host.events)|))))
    ensures forall j :: DropCount(host.events, |old(host.events)|, j) == if j == i && !confirmed then 1 else 0
  {
    var state := host.Ask(i, false);
    assert host.events[..|host.events| - 1] == old(host.events);
    confirmed := i.Identifies(IdentityIn(state));
  }

  lemma ConfirmOneMore(before: Events, after: Events, n: nat, asked: set<Identity>, owned: set<Identity>, i: Identity,
                       confirmed: bool)
    requires before <= after && n <= |before| && i !in asked && ConfirmedByQuery(before, n, asked, owned)
    requires forall j :: DropCount(after, |before|, j) == if j == i && !confirmed then 1 else 0
    ensures ConfirmedByQuery(after, n, asked + {i}, if confirmed then owned + {i} else owned)
  {
    forall j ensures DropCount(after, n, j) == DropCount(before, n, j) + DropCount(after, |before|, j) {
      CountTwice(before, after, n, j);
    }
  }

  /** `ProcessOwnership.snapshot` on Windows: the registered identities that a query confirms. */
  method ConfirmWindows(host: Host, additional: set<Identity>) returns (owned: set<Identity>)
    modifies host
    ensures old(host.events) <= host.events && Honest(host.queries, host.events, |old(host.events)|)
    ensures ConfirmedByQuery(host.events, |old(host.events)|, additional, owned)
  {
    owned := {};
    var rest := additional;
    while rest != {}
      invariant rest <= additional && old(host.events) <= host.events
      invariant Honest(host.queries, host.events, |old(host.events)|)
      invariant ConfirmedByQuery(host.events, |old(host.events)|, additional - rest, owned)
      decreases |rest|
    {
      var i :| i in rest;
      ghost var before := host.events;
      var confirmed := IsConfirmed(host, i);
      ConfirmOneMore(before, host.events, |old(host.events)|, additional - rest, owned, i, confirmed);
      HonestTwice(host.queries, before, host.events, |old(host.events)|);
      assert additional - (rest - {i}) == additional - rest + {i};
      owned := if confirmed then owned + {i} else owned;
      rest := rest - {i};
    }
    assert additional - rest == additional;
  }

  /** Dropped, and seen gone unless a blind query did it. */
  ghost predicate DropIsExplained(events: Events, n: nat, i: Identity) {
    Dropped(events, n, i) && (SeenGoneWindows(events, n, i) <==> !BlindlyDropped(events, n, i))
  }

  /** An identity that the snapshot or the cleanup after it dropped, once in all, is accounted for. */
  lemma DroppedOnce(before: Events, after: Events, n: nat, additional: set<Identity>, confirmed: set<Identity>,
                    ids: set<Identity>, i: Identity)
    requires before <= after && n <= |before| && ConfirmedByQuery(before, n, additional, confirmed)
    requires Sifted(after, |before|, ids, {}) && i in additional && (i in ids <==> i in confirmed)
    ensures DropIsExplained(after, n, i)
  {
    CountTwice(before, after, n, i);
    CountedIsDropped(after, n, i);
    SeenUnlessBlind(after, n, i);
  }

  /** `ProcessOwnership.terminate` on Windows. A clean claim covers the public identity and every registered one: the
      snapshot or the cleanup after it, which begins at `cleanup`, dropped it, and it was seen gone exactly when no
      blind query did so. The public identity counts as owned without being asked about. */
  method TerminateWindows(job: ProcessJob?, host: Host, public: Option<Identity>, additional: set<Identity>,
                          timeout: int)
    returns (c: Cleanup, ghost cleanup: nat)
    requires job != null ==> job.Valid() && job.Informed()
    modifies host, if job == null then {} else {job, job.api, job.leader}
    ensures |old(host.events)| <= cleanup <= |host.events| && old(host.events) <= host.events
    ensures c.Complete() ==>
              && job != null
              && (public.Some? ==> DropIsExplained(host.events, cleanup, public.value))
              && (forall i <- additional :: Some(i) == public || DropIsExplained(host.events, |old(host.events)|, i))
    ensures job != null ==>
              && TornDown(job.api.os, job.since, old(ViewOf(job)), ViewOf(job), c.failures)
              && (c.Complete() && job.watched ==> LeaderWasSeen(job.since, old(ViewOf(job)), ViewOf(job)))
  {
    var confirmed := ConfirmWindows(host, additional);
    ghost var before := host.events;
    cleanup := |before|;
    var owned := if public.Some? then confirmed + {public.value} else confirmed;
    c := QuiesceWindows(job, host, owned, timeout);
    if c.Complete() {
      TerminatedIsAccounted(before, host.events, |old(host.events)|, additional, confirmed, public, owned);
    }
  }

  lemma TerminatedIsAccounted(before: Events, after: Events, n: nat, additional: set<Identity>,
                              confirmed: set<Identity>, public: Option<Identity>, ids: set<Identity>)
    requires before <= after && n <= |before| && ConfirmedByQuery(before, n, additional, confirmed)
    requires ids == if public.Some? then confirmed + {public.value} else confirmed
    requires Sifted(after, |before|, ids, {})
    ensures public.Some? ==> DropIsExplained(after, |before|, public.value)
    ensures forall i <- additional :: Some(i) == public || DropIsExplained(after, n, i)
  {
    SiftedIsEvidence(after, |before|, ids, {});
    forall i | i in additional && Some(i) != public ensures DropIsExplained(after, n, i) {
      DroppedOnce(before, after, n, additional, confirmed, ids, i);
    }
  }

  // ---------- Where the claims fall short ----------

  /** Answers of an API on which nothing goes wrong, in a job without members. */
  const Healthy := Answer(true, 0, true, [])

  lemma FirstCall(a: Answer)
    ensures Disciplined([Event(CreateJob, a)]) && !ClosedOk([Event(CreateJob, a)], 0)
  {
    assert [Event(CreateJob, a)][..0] == [];
  }

  /** A job that has just been created, with its leader attached. */
  method NewJob(os: nat -> Answer) returns (job: ProcessJob)
    ensures fresh(job) && fresh(job.api) && fresh(job.leader) && job.Valid() && job.Informed() && job.watched
    ensures job.since == 1 && job.api.os == os && |job.api.log| == 1
    ensures ViewOf(job) == JobView(job.api.log, Some(0), map[], true, None)
  {
    var api := new Api(os);
    var a := api.Invoke(CreateJob);
    assert api.log == [Event(CreateJob, a)];
    FirstCall(a);
    var leader := new Leader(true, None);
    job := new ProcessJob(0, api, leader);
  }

  lemma HealthyIsGood(os: nat -> Answer, before: JobView, after: JobView, failures: nat)
    requires PlayedOut(os, before, after, failures) && Answered(os, after.log, |before.log|)
    requires Reachable(before) && before.members == map[]
    requires Deserted(os) && forall k: nat :: |before.log| <= k < |after.log| ==> os(k) == Healthy
    ensures failures == 0
  {
  }

  /** A cleanup on a host where every query fails without naming anybody. */
  method CleanUpBlindly(job: ProcessJob, host: Host, ids: set<Identity>, timeout: int) returns (c: Cleanup)
    requires job.Valid() && job.Informed() && AlwaysBlind(host.queries) && forall i <- ids :: i.pid > 0
    modifies host, job, job.api, job.leader
    ensures TornDown(job.api.os, job.since, old(ViewOf(job)), ViewOf(job), c.failures)
    ensures PlayedOut(job.api.os, old(ViewOf(job)), ViewOf(job), c.failures)
    ensures c.survivors == {} && old(host.events) <= host.events
    ensures forall i <- ids ::
              Dropped(host.events, |old(host.events)|, i) && !SeenGoneWindows(host.events, |old(host.events)|, i)
  {
    c := QuiesceWindows(job, host, ids, timeout);
    BlindHostSeesNobody(host.queries, host.events, |old(host.events)|, ids, c.survivors);
  }

  /** The input at which `complete` does not mean that an identity was seen gone: on such a host a healthy job is
      cleaned up, and the identity is dropped unseen. */
  method CompleteButUnseen(i: Identity, timeout: int) returns (c: Cleanup, events: Events)
    requires i.pid > 0
    ensures c.Complete() && Dropped(events, 0, i) && !SeenGoneWindows(events, 0, i)
  {
    var job := NewJob(_ => Healthy);
    var host := new Host(_ => None, _ => 0, _ => false, _ => Failing(None));
    ghost var before := ViewOf(job);
    c := CleanUpBlindly(job, host, {i}, timeout);
    HealthyIsGood(job.api.os, before, ViewOf(job), c.failures);
    events := host.events;
  }

  /** The wait for the leader times out, its handle is released all the same, and the job cannot be closed. */
  function TimesOutOnce(k: nat): Answer {
    if k == 4 then Answer(true, 0, false, []) else if k == 7 then Answer(false, 0, true, []) else Healthy
  }

  /** What the first cleanup leaves behind there: a job to close, and a leader that was released unseen. */
  lemma ReleasedAfterTimeout(before: JobView, after: JobView, failures: nat)
    requires before.handle == Some(0) && before.members == map[] && before.leader && |before.log| == 1
    requires Answered(TimesOutOnce, after.log, 1) && PlayedOut(TimesOutOnce, before, after, failures)
    requires LeaderIs(FactsOf(after.log, 1), after.leader, after.code)
    ensures |after.log| == 8 && after.handle == Some(0) && !after.leader && after.code.Some?
    ensures ReleasedUnseen(after.log, 1)
  {
    assert Grew(before.log, after.log, QuiesceCalls(0, true));
    var log := after.log;
    assert forall k :: 1 <= k < 5 ==> log[..5][k] == log[k];
    assert ReleasesLeader(log[5]) && !LeaderSignaled(log[..5], 1);
    FactsMean(log, 1);
  }

  /** The second cleanup finds nothing left to wait for. */
  lemma ClaimedAfterTimeout(before: JobView, after: JobView, failures: nat)
    requires |before.log| == 8 && before.handle == Some(0) && before.members == map[]
    requires !before.leader && before.code.Some? && ReleasedUnseen(before.log, 1)
    requires Answered(TimesOutOnce, after.log, 8) && PlayedOut(TimesOutOnce, before, after, failures)
    ensures failures == 0 && |after.log| == 13
    ensures LeaderWasSeen(1, before, after) ==> !LeaderSignaled(after.log, 1)
  {
    HealthyIsGood(TimesOutOnce, before, after, failures);
    assert Grew(before.log, after.log, QuiesceCalls(0, false));
  }

  /** A cleanup without registered identities. */
  method CleanUpAlone(job: ProcessJob, host: Host, timeout: int) returns (c: Cleanup)
    requires job.Valid() && job.Informed()
    modifies host, job, job.api, job.leader
    ensures job.Valid() && job.Informed()
    ensures TornDown(job.api.os, job.since, old(ViewOf(job)), ViewOf(job), c.failures)
    ensures PlayedOut(job.api.os, old(ViewOf(job)), ViewOf(job), c.failures)
    ensures c.Complete() <==> c.failures == 0
    ensures c.Complete() && job.watched ==> LeaderWasSeen(job.since, old(ViewOf(job)), ViewOf(job))
  {
    c := QuiesceWindows(job, host, {}, timeout);
  }

  /** The input at which `complete` does not mean that the leader was found signaled: a first cleanup times out on the
      leader and fails to close the job, and a second one takes the return code that the release left for its end. */
  method CompleteButRunning(first: int, second: int) returns (one: Cleanup, two: Cleanup, log: Log)
    ensures !one.Complete() && two.Complete()
    ensures |log| == 13 && !LeaderSignaled(log, 1)
  {
    var job := NewJob(TimesOutOnce);
    var host := new Host(_ => None, _ => 0, _ => false, _ => Absent);
    ghost var start := ViewOf(job);
    one := CleanUpAlone(job, host, first);
    ghost var mid := ViewOf(job);
    ReleasedAfterTimeout(start, mid, one.failures);
    two := CleanUpAlone(job, host, second);
    ClaimedAfterTimeout(mid, ViewOf(job), two.failures);
    log := job.api.log;
  }
}

/**
 `_publish_atomically` of `refresh-cc-1c-parity.py`: install a snapshot directory and a set of JSON files,
 or put everything back. Every file-system call may fail, a failing removal or directory copy may leave
 anything behind, and the rollback itself may fail.
 */
module AtomicPublish {
  import opened Wrappers

  type Tree = map<string, string>

  /** `Broken` carries what an interrupted directory operation leaves at its destination, and what an
      interrupted file copy leaves in the file. */
  datatype Fault = Fine | Broken(tree: Option<Tree>, content: string)

  /** None of the calls from `from` up to `to` breaks. */
  ghost predicate Smooth(faults: nat -> Fault, from: nat, to: nat) {
    forall k: nat :: from <= k < to ==> faults(k).Fine?
  }

  class Disk {
    const faults: nat -> Fault
    var steps: nat
    var snapshot: Option<Tree>
    var files: map<string, string>
    var backup: Option<Tree>

    constructor (faults: nat -> Fault, snapshot: Option<Tree>, files: map<string, string>)
      ensures this.faults == faults && this.snapshot == snapshot && this.files == files && backup == None && steps == 0
    {
      this.faults, this.snapshot, this.files, backup, steps := faults, snapshot, files, None, 0;
    }

    /** Nothing ever fails. */
    ghost predicate Healthy() {
      forall n: nat :: faults(n).Fine?
    }

    /** The calls since `from` went well, or only the last of them broke. */
    ghost predicate Went(ok: bool, from: nat)
      reads `steps
    {
      if ok then from <= steps && Smooth(faults, from, steps)
      else from < steps && Smooth(faults, from, steps - 1) && !faults(steps - 1).Fine?
    }

    /** There are `calls` calls to make; a broken one ends them early. */
    ghost predicate Took(ok: bool, from: nat, calls: nat)
      reads `steps
    {
      if ok then steps == from + calls else steps <= from + calls
    }

    /** A call that changes nothing the caller can see (making a directory, copying a file to the backup). */
    method Attempt() returns (ok: bool)
      modifies this`steps
      ensures steps == old(steps) + 1 && (ok <==> faults(old(steps)).Fine?)
    {
      ok := faults(steps).Fine?;
      steps := steps + 1;
    }

    /** Remove the snapshot directory, if it exists. */
    method RemoveSnapshot() returns (ok: bool)
      modifies this`steps, this`snapshot
      ensures ok ==> snapshot == None
      ensures Went(ok, old(steps)) && Took(ok, old(steps), if old(snapshot).Some? then 1 else 0)
    {
      if snapshot.None? {
        return true;
      }
      var fault := faults(steps);
      steps := steps + 1;
      snapshot := if fault.Fine? then None else fault.tree;
      return fault.Fine?;
    }

    method InstallSnapshot(tree: Tree) returns (ok: bool)
      modifies this`steps, this`snapshot
      ensures ok ==> snapshot == Some(tree)
      ensures Went(ok, old(steps)) && Took(ok, old(steps), 1)
    {
      var fault := faults(steps);
      steps := steps + 1;
      snapshot := if fault.Fine? then Some(tree) else fault.tree;
      return fault.Fine?;
    }

    method BackUpSnapshot() returns (ok: bool)
      modifies this`steps, this`backup
      ensures old(snapshot).None? ==> ok && backup == old(backup)
      ensures old(snapshot).Some? ==> (ok <==> faults(old(steps)).Fine?)
      ensures old(snapshot).Some? ==> backup == if ok then old(snapshot) else faults(old(steps)).tree
      ensures Went(ok, old(steps)) && Took(ok, old(steps), if old(snapshot).Some? then 1 else 0)
    {
      if snapshot.None? {
        return true;
      }
      var fault := faults(steps);
      steps := steps + 1;
      backup := if fault.Fine? then snapshot else fault.tree;
      return fault.Fine?;
    }

    /** A file is replaced in one step by renaming a finished temporary file over it. */
    method WriteAtomically(path: string, content: string) returns (ok: bool)
      modifies this`steps, this`files
      ensures files == if ok then old(files)[path := content] else old(files)
      ensures Went(ok, old(steps)) && Took(ok, old(steps), 1)
    {
      ok := Attempt();
      if ok {
        files := files[path := content];
      }
    }

    /** Put a file back: its old content, or its absence. */
    method RestoreFile(path: string, content: Option<string>) returns (ok: bool)
      modifies this`steps, this`files
      ensures ok ==> files == if content.Some? then old(files)[path := content.value] else old(files) - {path}
      ensures Went(ok, old(steps))
    {
      var fault := faults(steps);
      steps := steps + 1;
      if content.None? {
        files := if fault.Fine? then files - {path} else files;
      } else {
        files := files[path := if fault.Fine? then content.value else fault.content];
      }
      return fault.Fine?;
    }
  }

  function Lookup(files: map<string, string>, path: string): Option<string> {
    if path in files then Some(files[path]) else None
  }

  type Saved = seq<(string, Option<string>)>

  /** The first targets, with what they held before. */
  ghost predicate SavesFirst(saved: Saved, targets: seq<(string, string)>, files: map<string, string>) {
    |saved| <= |targets| && forall k :: 0 <= k < |saved| ==> saved[k] == (targets[k].0, Lookup(files, targets[k].0))
  }

  ghost function Paths(saved: Saved): set<string> {
    set k | 0 <= k < |saved| :: saved[k].0
  }

  ghost predicate SameExcept(a: map<string, string>, b: map<string, string>, paths: set<string>) {
    forall path :: path !in paths ==> Lookup(a, path) == Lookup(b, path)
  }

  /** How many of the targets exist: each is copied by one call. */
  function Present(files: map<string, string>, targets: seq<(string, string)>): nat {
    if targets == [] then 0
    else
      var last := |targets| - 1;
      Present(files, targets[..last]) + (if targets[last].0 in files then 1 else 0)
  }

  lemma OneMoreTarget(files: map<string, string>, targets: seq<(string, string)>, k: nat)
    requires k < |targets|
    ensures Present(files, targets[..k + 1])
         == Present(files, targets[..k]) + (if targets[k].0 in files then 1 else 0)
  {
    assert targets[..k + 1][..k] == targets[..k];
  }

  lemma {:induction false} PresentGrows(files: map<string, string>, targets: seq<(string, string)>, k: nat)
    requires k <= |targets|
    ensures Present(files, targets[..k]) <= Present(files, targets)
    decreases |targets| - k
  {
    if k < |targets| {
      OneMoreTarget(files, targets, k);
      PresentGrows(files, targets, k + 1);
    } else {
      assert targets[..k] == targets;
    }
  }

  method BackUpFiles(disk: Disk, targets: seq<(string, string)>) returns (ok: bool, saved: Saved)
    modifies disk`steps
    ensures SavesFirst(saved, targets, disk.files) && (ok ==> |saved| == |targets|)
    ensures disk.Went(ok, old(disk.steps)) && disk.Took(ok, old(disk.steps), Present(disk.files, targets))
  {
    saved := [];
    for k := 0 to |targets|
      invariant |saved| == k && SavesFirst(saved, targets, disk.files) && disk.Went(true, old(disk.steps))
      invariant disk.steps == old(disk.steps) + Present(disk.files, targets[..k])
    {
      OneMoreTarget(disk.files, targets, k);
      PresentGrows(disk.files, targets, k + 1);
      var path := targets[k].0;
      if path in disk.files {
        var copied := disk.Attempt();
        if !copied {
          return false, saved;
        }
      }
      saved := saved + [(path, Lookup(disk.files, path))];
    }
    assert targets[..|targets|] == targets;
    return true, saved;
  }

  method WriteFiles(disk: Disk, targets: seq<(string, string)>, ghost saved: Saved) returns (ok: bool)
    requires SavesFirst(saved, targets, disk.files) && |saved| == |targets|
    requires forall i, j :: 0 <= i < j < |targets| ==> targets[i].0 != targets[j].0
    modifies disk`steps, disk`files
    ensures SameExcept(disk.files, old(disk.files), Paths(saved))
    ensures ok ==> forall k :: 0 <= k < |targets| ==> Lookup(disk.files, targets[k].0) == Some(targets[k].1)
    ensures disk.Went(ok, old(disk.steps)) && disk.Took(ok, old(disk.steps), |targets|)
  {
    for k := 0 to |targets|
      invariant SameExcept(disk.files, old(disk.files), Paths(saved))
      invariant disk.Went(true, old(disk.steps)) && disk.steps == old(disk.steps) + k
      invariant forall i :: 0 <= i < k ==> Lookup(disk.files, targets[i].0) == Some(targets[i].1)
    {
      assert saved[k].0 == targets[k].0 && saved[k].0 in Paths(saved);
      var written := disk.WriteAtomically(targets[k].0, targets[k].1);
      if !written {
        return false;
      }
    }
    return true;
  }

  method RestoreFiles(disk: Disk, saved: Saved, ghost before: map<string, string>) returns (ok: bool)
    requires SameExcept(disk.files, before, Paths(saved))
    requires forall k :: 0 <= k < |saved| ==> saved[k].1 == Lookup(before, saved[k].0)
    modifies disk`steps, disk`files
    ensures ok ==> disk.files == before
    ensures disk.Went(ok, old(disk.steps))
  {
    ghost var left := Paths(saved);
    for k := 0 to |saved|
      invariant SameExcept(disk.files, before, left) && disk.Went(true, old(disk.steps))
      invariant forall path <- left :: exists i :: k <= i < |saved| && saved[i].0 == path
    {
      var restored := disk.RestoreFile(saved[k].0, saved[k].1);
      if !restored {
        return false;
      }
      left := left - {saved[k].0};
    }
    assert left == {};
    SameEverywhere(disk.files, before);
    return true;
  }

  lemma SameEverywhere(a: map<string, string>, b: map<string, string>)
    requires SameExcept(a, b, {})
    ensures a == b
  {
    forall path | path in a.Keys + b.Keys ensures path in a && path in b && a[path] == b[path] {
      assert Lookup(a, path) == Lookup(b, path);
    }
  }

  // ---------- The transaction ----------

  /** `published`: everything was installed. `restored`: it was not, and the rollback ran to its end. `cleaned`: the
      backup directory was removed afterwards. */
  datatype Outcome = Outcome(published: bool, restored: bool, cleaned: bool)
  {
    /** What the caller sees: the failure of the guarded part, of the rollback or of the clean-up. */
    predicate Raised() {
      !(published && cleaned)
    }
  }

  /** The calls of the guarded part when none breaks: the copy and the removal of the snapshot if there is one, the
      copies of the files that exist, the parent directory, the new snapshot and the new files. */
  function InstallCalls(snapshot: Option<Tree>, files: map<string, string>, targets: seq<(string, string)>): nat {
    (if snapshot.Some? then 2 else 0) + Present(files, targets) + 2 + |targets|
  }

  /** The guarded part: back everything up, then replace snapshot and files. */
  method Install(disk: Disk, candidate: Tree, targets: seq<(string, string)>) returns (ok: bool, saved: Saved)
    requires forall i, j :: 0 <= i < j < |targets| ==> targets[i].0 != targets[j].0
    requires disk.backup == None
    modifies disk
    ensures SavesFirst(saved, targets, old(disk.files)) && SameExcept(disk.files, old(disk.files), Paths(saved))
    ensures old(disk.snapshot).None? ==> disk.backup == None
    ensures old(disk.snapshot).Some? && disk.faults(old(disk.steps)).Fine? ==> disk.backup == old(disk.snapshot)
    ensures old(disk.snapshot).Some? && !disk.faults(old(disk.steps)).Fine? ==>
              !ok && disk.backup == disk.faults(old(disk.steps)).tree
    ensures ok ==> |saved| == |targets| && disk.snapshot == Some(candidate)
    ensures ok ==> forall k :: 0 <= k < |targets| ==> Lookup(disk.files, targets[k].0) == Some(targets[k].1)
    ensures disk.Went(ok, old(disk.steps))
    ensures disk.Took(ok, old(disk.steps), InstallCalls(old(disk.snapshot), old(disk.files), targets))
  {
    saved := [];
    ok := disk.BackUpSnapshot();
    if !ok {
      return;
    }
    ok, saved := BackUpFiles(disk, targets);
    if !ok {
      return;
    }
    ok := Replace(disk, candidate, targets, saved);
  }

  /** The second half of the guarded part, which changes what is accepted. */
  method Replace(disk: Disk, candidate: Tree, targets: seq<(string, string)>, ghost saved: Saved) returns (ok: bool)
    requires forall i, j :: 0 <= i < j < |targets| ==> targets[i].0 != targets[j].0
    requires SavesFirst(saved, targets, disk.files) && |saved| == |targets|
    modifies disk`steps, disk`snapshot, disk`files
    ensures SameExcept(disk.files, old(disk.files), Paths(saved))
    ensures ok ==> disk.snapshot == Some(candidate)
    ensures ok ==> forall k :: 0 <= k < |targets| ==> Lookup(disk.files, targets[k].0) == Some(targets[k].1)
    ensures disk.Went(ok, old(disk.steps))
    ensures disk.Took(ok, old(disk.steps), (if old(disk.snapshot).Some? then 1 else 0) + 2 + |targets|)
  {
    ok := disk.RemoveSnapshot();
    if !ok {
      return;
    }
    ok := disk.Attempt();
    if !ok {
      return;
    }
    ok := disk.InstallSnapshot(candidate);
    if !ok {
      return;
    }
    ok := WriteFiles(disk, targets, saved);
  }

  /** The handler: whatever the backup holds becomes the snapshot, and every saved file is put back. */
  method RollBack(disk: Disk, saved: Saved, ghost before: map<string, string>) returns (ok: bool)
    requires SameExcept(disk.files, before, Paths(saved))
    requires forall k :: 0 <= k < |saved| ==> saved[k].1 == Lookup(before, saved[k].0)
    modifies disk
    ensures disk.backup == old(disk.backup)
    ensures ok ==> disk.snapshot == disk.backup && disk.files == before
    ensures disk.Went(ok, old(disk.steps))
  {
    ok := disk.RemoveSnapshot();
    if !ok {
      return;
    }
    if disk.backup.Some? {
      ok := disk.InstallSnapshot(disk.backup.value);
      if !ok {
        return;
      }
    }
    ok := RestoreFiles(disk, saved, before);
  }

  /** Two of the calls broke. */
  ghost predicate TwoFaults(faults: nat -> Fault, from: nat, to: nat) {
    exists i: nat, j: nat :: from <= i < j < to && !faults(i).Fine? && !faults(j).Fine?
  }

  lemma OneFault(faults: nat -> Fault, from: nat, at: nat, to: nat)
    requires from <= at < to && Smooth(faults, from, at) && !faults(at).Fine?
    ensures !Smooth(faults, from, to) && (TwoFaults(faults, from, to) <==> !Smooth(faults, at + 1, to))
  {
    if !Smooth(faults, at + 1, to) {
      var j: nat :| at + 1 <= j < to && !faults(j).Fine?;
    }
  }

  /** The snapshot and every target are the new ones, and no other file changed. */
  ghost predicate InstalledAll(candidate: Tree, targets: seq<(string, string)>, before: map<string, string>,
                               snapshot: Option<Tree>, files: map<string, string>) {
    && snapshot == Some(candidate)
    && (forall k :: 0 <= k < |targets| ==> Lookup(files, targets[k].0) == Some(targets[k].1))
    && SameExcept(files, before, set k | 0 <= k < |targets| :: targets[k].0)
  }

  /** Which calls broke decides the outcome: published exactly when none of the guarded part did, otherwise restored
      exactly when only one did before the clean-up, and cleaned exactly when the last one did not. */
  ghost predicate Decided(faults: nat -> Fault, from: nat, to: nat, calls: nat, o: Outcome) {
    && from + 1 <= to
    && (o.published <==> Smooth(faults, from, from + calls))
    && (if o.published then to == from + calls + 1 else !Smooth(faults, from, to - 1))
    && (o.restored <==> !o.published && !TwoFaults(faults, from, to - 1))
    && (o.cleaned <==> faults(to - 1).Fine?)
  }

  /** All or nothing. A rollback that ran to its end restored every file, and made the snapshot what the backup held:
      the old snapshot, unless the backup copy itself was the call that broke. */
  method PublishAtomically(disk: Disk, candidate: Tree, targets: seq<(string, string)>)
    returns (o: Outcome, ghost held: Option<Tree>)
    requires forall i, j :: 0 <= i < j < |targets| ==> targets[i].0 != targets[j].0
    requires disk.backup == None
    modifies disk
    ensures o.published ==> InstalledAll(candidate, targets, old(disk.files), disk.snapshot, disk.files)
    ensures o.restored ==> disk.files == old(disk.files) && disk.snapshot == held
    ensures old(disk.snapshot).None? || disk.faults(old(disk.steps)).Fine? ==> held == old(disk.snapshot)
    ensures old(disk.snapshot).Some? && !disk.faults(old(disk.steps)).Fine? ==>
              held == disk.faults(old(disk.steps)).tree
    ensures Decided(disk.faults, old(disk.steps), disk.steps,
                    InstallCalls(old(disk.snapshot), old(disk.files), targets), o)
    ensures disk.Healthy() ==> !o.Raised()
    ensures o.Raised() && !TwoFaults(disk.faults, old(disk.steps), disk.steps) && held == old(disk.snapshot) ==>
              if disk.faults(disk.steps - 1).Fine?
              then disk.snapshot == old(disk.snapshot) && disk.files == old(disk.files)
              else InstalledAll(candidate, targets, old(disk.files), disk.snapshot, disk.files)
  {
    var ok, saved := Install(disk, candidate, targets);
    held := disk.backup;
    o := Outcome(ok, false, false);
    if ok {
      assert Paths(saved) == set k | 0 <= k < |targets| :: targets[k].0;
    } else {
      ghost var broken := disk.steps - 1;
      var restored := RollBack(disk, saved, old(disk.files));
      OneFault(disk.faults, old(disk.steps), broken, disk.steps);
      o := o.(restored := restored);
    }
    var cleaned := disk.Attempt();
    disk.backup := None;
    o := o.(cleaned := cleaned);
    if !TwoFaults(disk.faults, old(disk.steps), disk.steps) {
      RaisedMeans(disk.faults, old(disk.steps), disk.steps,
                  InstallCalls(old(disk.snapshot), old(disk.files), targets), o);
    }
  }

  // ---------- What an exception means ----------

  /** The law of an exception, with at most one broken call: everything was rolled back if and only if the clean-up
      worked, and everything stands installed if and only if the clean-up is the call that broke. */
  lemma RaisedMeans(faults: nat -> Fault, from: nat, to: nat, calls: nat, o: Outcome)
    requires Decided(faults, from, to, calls, o) && !TwoFaults(faults, from, to)
    ensures o.Raised() <==> !Smooth(faults, from, to)
    ensures o.Raised() ==> (o.restored <==> faults(to - 1).Fine?) && (o.published <==> !faults(to - 1).Fine?)
  {
    if !o.published {
      var k: nat :| from <= k < to - 1 && !faults(k).Fine?;
      assert faults(to - 1).Fine?;
    }
  }

  /** Every call works but one. */
  function BreaksOnly(at: nat, tree: Option<Tree>): nat -> Fault {
    k => if k == at then Broken(tree, "") else Fine
  }

  lemma BreaksOnce(at: nat, tree: Option<Tree>, from: nat, to: nat)
    ensures !TwoFaults(BreaksOnly(at, tree), from, to)
  {
  }

  /** The input at which an exception does not mean that anything was put back, for any state and any publication: the
      clean-up is the one call that breaks, and everything stands installed. */
  method RaisedButInstalled(was: Option<Tree>, files: map<string, string>, candidate: Tree,
                            targets: seq<(string, string)>)
    returns (o: Outcome, snapshot: Option<Tree>, now: map<string, string>)
    requires forall i, j :: 0 <= i < j < |targets| ==> targets[i].0 != targets[j].0
    ensures o.Raised() && InstalledAll(candidate, targets, files, snapshot, now)
  {
    var disk := new Disk(BreaksOnly(InstallCalls(was, files, targets), None), was, files);
    ghost var held;
    o, held := PublishAtomically(disk, candidate, targets);
    snapshot, now := disk.snapshot, disk.files;
  }

  /** The input at which a completed rollback does not restore the snapshot: the backup copy is the one call that
      breaks, and what it had copied so far is installed. */
  method RestoredButLost(was: Tree, copied: Tree, files: map<string, string>, candidate: Tree,
                         targets: seq<(string, string)>)
    returns (o: Outcome, snapshot: Option<Tree>, now: map<string, string>)
    requires forall i, j :: 0 <= i < j < |targets| ==> targets[i].0 != targets[j].0
    ensures o == Outcome(false, true, true) && snapshot == Some(copied) && now == files
  {
    var disk := new Disk(BreaksOnly(0, Some(copied)), Some(was), files);
    ghost var held;
    o, held := PublishAtomically(disk, candidate, targets);
    snapshot, now := disk.snapshot, disk.files;
    BreaksOnce(0, Some(copied), 0, disk.steps - 1);
    assert !disk.faults(0).Fine? && 0 < InstallCalls(Some(was), files, targets);
    RaisedMeans(disk.faults, 0, disk.steps, InstallCalls(Some(was), files, targets), o);
  }
}

/**
 The candidate selection of `ci_shadow_selector.py`: the packages whose sources changed and everything
 that consumes them, in the union of the base and the head dependency graphs.

 A graph is the list of the workspace's packages. A decision other than `Affected` runs everything.
 */
module ShadowSelector {
  import opened Wrappers

  /** A package record; a missing root or dependency list is an incomplete graph. */
  datatype Package = Package(name: string, root: Option<string>, dependencies: Option<seq<string>>, features: string)

  type Graph = seq<Package>

  datatype Change = Change(path: string, status: string)

  datatype Decision = Full(reason: string) | Affected(packages: set<string>)

  const COMPOSITION := "unica-coder"

  function Names(g: Graph): set<string> {
    set k | 0 <= k < |g| :: g[k].name
  }

  predicate EndsWith(s: string, suffix: string) {
    |suffix| <= |s| && s[|s| - |suffix|..] == suffix
  }

  // ---------- What the decision means ----------

  predicate PackageOk(g: Graph, p: Package) {
    p.root.Some? && p.dependencies.Some? && forall k :: 0 <= k < |p.dependencies.value| ==>
      p.dependencies.value[k] in Names(g)
  }

  predicate GraphOk(g: Graph) {
    forall k :: 0 <= k < |g| ==> PackageOk(g, g[k])
  }

  /** In one of the graphs, `consumer` depends on `package`. */
  predicate Consumes(base: Graph, head: Graph, consumer: string, package: string) {
    ConsumesIn(base, consumer, package) || ConsumesIn(head, consumer, package)
  }

  predicate ConsumesIn(g: Graph, consumer: string, package: string) {
    exists k :: 0 <= k < |g| && g[k].name == consumer && g[k].dependencies.Some? && package in g[k].dependencies.value
  }

  function OwnersIn(g: Graph, path: string): set<string> {
    set k | 0 <= k < |g| && g[k].root.Some? && g[k].root.value + "/src/" <= path :: g[k].name
  }

  /** The packages whose source directory holds the path. */
  function Owners(base: Graph, head: Graph, path: string): set<string> {
    OwnersIn(base, path) + OwnersIn(head, path)
  }

  /** The features of a package are those of its record (the records of a graph have distinct names). */
  predicate SameFeatures(base: Graph, head: Graph, name: string) {
    forall j, k :: 0 <= j < |base| && 0 <= k < |head| && base[j].name == name && head[k].name == name ==>
      base[j].features == head[k].features
  }

  /** A change that the candidate graph describes: new or modified Rust source of one ordinary package
      that both graphs have, with unchanged features. */
  predicate Describable(base: Graph, head: Graph, c: Change) {
    && (c.status == "A" || c.status == "M")
    && EndsWith(c.path, ".rs")
    && |Owners(base, head, c.path)| == 1
    && forall owner <- Owners(base, head, c.path) ::
         owner != COMPOSITION && owner in Names(base) && owner in Names(head) && SameFeatures(base, head, owner)
  }

  /** The owners of the changed files. */
  function Seeds(base: Graph, head: Graph, changes: set<Change>): set<string> {
    set c, n | c in changes && n in Owners(base, head, c.path) :: n
  }

  ghost predicate Closed(base: Graph, head: Graph, s: set<string>) {
    forall p, c :: p in s && Consumes(base, head, c, p) ==> c in s
  }

  /** The least set that holds the seeds and all consumers of its members. */
  ghost predicate IsClosure(base: Graph, head: Graph, seeds: set<string>, s: set<string>) {
    && seeds <= s && Closed(base, head, s)
    && forall other: set<string> :: seeds <= other && Closed(base, head, other) ==> s <= other
  }

  ghost predicate Candidate(base: Graph, head: Graph, changes: set<Change>, s: set<string>) {
    && base != [] && head != [] && changes != {}
    && GraphOk(base) && GraphOk(head)
    && (forall c <- changes :: Describable(base, head, c))
    && IsClosure(base, head, Seeds(base, head, changes), s)
    && s <= Names(head)
  }

  function ChangeSet(changes: seq<Change>): set<Change> {
    set c | c in changes
  }

  /** The decision is `Affected` exactly for a candidate, and then it is that closure. */
  ghost predicate Decides(base: Graph, head: Graph, changes: seq<Change>, d: Decision) {
    && (d.Affected? ==> Candidate(base, head, ChangeSet(changes), d.packages))
    && (forall s :: Candidate(base, head, ChangeSet(changes), s) ==> d == Affected(s))
  }

  // ---------- Theorems ----------

  lemma ClosureIsUnique(base: Graph, head: Graph, seeds: set<string>, a: set<string>, b: set<string>)
    requires IsClosure(base, head, seeds, a) && IsClosure(base, head, seeds, b)
    ensures a == b
  {
  }

  /** Fewer seeds have a closure too, inside the larger one. */
  lemma SmallerClosure(base: Graph, head: Graph, fewer: set<string>, more: set<string>, s: set<string>)
    returns (r: set<string>)
    requires fewer <= more && IsClosure(base, head, more, s)
    ensures IsClosure(base, head, fewer, r) && r <= s
  {
    r := set x | x in s && InEvery(base, head, fewer, x);
    forall x | x in fewer ensures x in r {
      assert x in s && InEvery(base, head, fewer, x);
    }
    forall p, c | p in r && Consumes(base, head, c, p) ensures c in r {
      assert InEvery(base, head, fewer, c);
    }
  }

  ghost predicate InEvery(base: Graph, head: Graph, seeds: set<string>, x: string) {
    forall t: set<string> :: seeds <= t && Closed(base, head, t) ==> x in t
  }

  lemma PartIsCandidate(base: Graph, head: Graph, changes: set<Change>, part: set<Change>, s: set<string>)
    returns (r: set<string>)
    requires Candidate(base, head, changes, s) && part != {} && part <= changes
    ensures Candidate(base, head, part, r) && r <= s
  {
    r := SmallerClosure(base, head, Seeds(base, head, part), Seeds(base, head, changes), s);
  }

  /** Any nonempty part of an affected change list is affected, by a subset of the packages; the order and
      the repetition of changes do not matter. */
  lemma SelectionIsMonotone(base: Graph, head: Graph, changes: seq<Change>, part: seq<Change>, d: Decision, e: Decision)
    requires Decides(base, head, changes, d) && Decides(base, head, part, e)
    requires d.Affected? && part != [] && ChangeSet(part) <= ChangeSet(changes)
    ensures e.Affected? && e.packages <= d.packages
    ensures ChangeSet(part) == ChangeSet(changes) ==> e == d
  {
    assert part[0] in ChangeSet(part);
    var r := PartIsCandidate(base, head, ChangeSet(changes), ChangeSet(part), d.packages);
    assert e == Affected(r);
  }

  // ---------- The algorithm ----------

  type Reverse = map<string, set<string>>

  predicate Lists(reverse: Reverse, package: string, consumer: string) {
    package in reverse && consumer in reverse[package]
  }

  /** Adds the edges of one graph, reversed; refuses an incomplete or dangling one. */
  method AddEdges(g: Graph, start: Reverse) returns (ok: bool, reverse: Reverse)
    ensures ok <==> GraphOk(g)
    ensures ok ==> forall p, c :: Lists(reverse, p, c) <==> Lists(start, p, c) || ConsumesIn(g, c, p)
  {
    reverse := start;
    for k := 0 to |g|
      invariant forall i :: 0 <= i < k ==> PackageOk(g, g[i])
      invariant forall p, c :: Lists(reverse, p, c) <==> Lists(start, p, c) || ConsumesIn(g[..k], c, p)
    {
      if !PackageOk(g, g[k]) {
        return false, reverse;
      }
      reverse := AddPackage(g[k], reverse);
      ConsumersExtend(g, k);
    }
    assert g[..|g|] == g;
    return true, reverse;
  }

  lemma ConsumersExtend(g: Graph, k: nat)
    requires k < |g| && g[k].dependencies.Some?
    ensures forall p, c :: ConsumesIn(g[..k + 1], c, p) <==>
              ConsumesIn(g[..k], c, p) || (c == g[k].name && p in g[k].dependencies.value)
  {
    var shorter, longer := g[..k], g[..k + 1];
    assert longer == shorter + [g[k]];
    forall p, c
      ensures ConsumesIn(longer, c, p)
              <==> ConsumesIn(shorter, c, p) || (c == g[k].name && p in g[k].dependencies.value)
    {
      if ConsumesIn(shorter, c, p) {
        var j :| 0 <= j < |shorter| && shorter[j].name == c && shorter[j].dependencies.Some?
                 && p in shorter[j].dependencies.value;
        assert longer[j] == shorter[j];
      }
      if c == g[k].name && p in g[k].dependencies.value {
        assert longer[k] == g[k];
      }
      if ConsumesIn(longer, c, p) {
        var j :| 0 <= j < |longer| && longer[j].name == c && longer[j].dependencies.Some?
                 && p in longer[j].dependencies.value;
        assert j < k ==> shorter[j] == longer[j];
      }
    }
  }

  method AddPackage(package: Package, start: Reverse) returns (reverse: Reverse)
    requires package.dependencies.Some?
    ensures forall p, c :: Lists(reverse, p, c) <==>
              Lists(start, p, c) || (c == package.name && p in package.dependencies.value)
  {
    reverse := start;
    var deps := package.dependencies.value;
    for i := 0 to |deps|
      invariant forall p, c :: Lists(reverse, p, c) <==> Lists(start, p, c) || (c == package.name && p in deps[..i])
    {
      var consumers := if deps[i] in reverse then reverse[deps[i]] else {};
      reverse := reverse[deps[i] := consumers + {package.name}];
      assert forall p :: p in deps[..i + 1] <==> p in deps[..i] || p == deps[i];
    }
    assert deps[..|deps|] == deps;
  }

  /** The worklist: every package is visited once, and what consumes it is selected. */
  method Close(ghost base: Graph, ghost head: Graph, seeds: set<string>, reverse: Reverse)
    returns (selected: set<string>)
    requires forall p, c :: Lists(reverse, p, c) <==> Consumes(base, head, c, p)
    ensures IsClosure(base, head, seeds, selected)
  {
    selected := seeds;
    var pending := seeds;
    ghost var universe := seeds + Names(base) + Names(head);
    while pending != {}
      invariant seeds <= selected <= universe && pending <= selected
      invariant forall p, c :: p in selected - pending && Consumes(base, head, c, p) ==> c in selected
      invariant forall other: set<string> :: seeds <= other && Closed(base, head, other) ==> selected <= other
      decreases universe - selected, pending
    {
      var package :| package in pending;
      var consumers := if package in reverse then reverse[package] else {};
      assert forall c :: c in consumers <==> Consumes(base, head, c, package);
      var fresh' := consumers - selected;
      pending := pending - {package} + fresh';
      selected := selected + fresh';
    }
  }

  lemma ChangesAdd(changes: seq<Change>, k: nat)
    requires k < |changes|
    ensures ChangeSet(changes[..k + 1]) == ChangeSet(changes[..k]) + {changes[k]}
  {
    var more := changes[..k + 1];
    assert more == changes[..k] + [changes[k]];
    assert forall c :: c in more <==> c in changes[..k] || c == changes[k];
  }

  lemma SeedsAdd(base: Graph, head: Graph, changes: set<Change>, c: Change)
    ensures Seeds(base, head, changes + {c}) == Seeds(base, head, changes) + Owners(base, head, c.path)
  {
  }

  /** The owners of the changes, or the reason why the candidate graph does not describe them. */
  method CollectSeeds(base: Graph, head: Graph, changes: seq<Change>) returns (r: Result<set<string>, string>)
    ensures r.Ok? <==> forall c <- ChangeSet(changes) :: Describable(base, head, c)
    ensures r.Ok? ==> r.value == Seeds(base, head, ChangeSet(changes))
  {
    var seeds := {};
    ghost var seen: set<Change> := {};
    for k := 0 to |changes|
      invariant seen == ChangeSet(changes[..k])
      invariant forall c <- seen :: Describable(base, head, c)
      invariant seeds == Seeds(base, head, seen)
    {
      var c := changes[k];
      if !Describable(base, head, c) {
        assert c in ChangeSet(changes);
        return Err("full input, composition, changed membership or changed features");
      }
      SeedsAdd(base, head, seen, c);
      ChangesAdd(changes, k);
      seen := seen + {c};
      seeds := seeds + Owners(base, head, c.path);
    }
    assert changes[..|changes|] == changes;
    return Ok(seeds);
  }

  method Select(base: Graph, head: Graph, changes: seq<Change>) returns (d: Decision)
    ensures Decides(base, head, changes, d)
  {
    if base == [] || head == [] || changes == [] {
      return Full("missing graph or empty/unknown diff");
    }
    assert changes[0] in ChangeSet(changes);
    var baseOk, partial := AddEdges(base, map[]);
    if !baseOk {
      return Full("incomplete package graph or unresolved consumer edge");
    }
    var headOk, reverse := AddEdges(head, partial);
    if !headOk {
      return Full("incomplete package graph or unresolved consumer edge");
    }
    var seeds := CollectSeeds(base, head, changes);
    if seeds.Err? {
      return Full(seeds.error);
    }
    var selected := Close(base, head, seeds.value, reverse);
    forall s | Candidate(base, head, ChangeSet(changes), s) ensures s == selected {
      ClosureIsUnique(base, head, seeds.value, s, selected);
    }
    if selected == {} || !(selected <= Names(head)) {
      SeedsExist(base, head, changes);
      return Full("empty candidate or deleted consumer");
    }
    return Affected(selected);
  }

  lemma SeedsExist(base: Graph, head: Graph, changes: seq<Change>)
    requires changes != [] && forall c <- ChangeSet(changes) :: Describable(base, head, c)
    ensures Seeds(base, head, ChangeSet(changes)) != {}
  {
    var c := changes[0];
    assert c in ChangeSet(changes);
    var n :| n in Owners(base, head, c.path);
    assert n in Seeds(base, head, ChangeSet(changes));
  }

  // ---------- What a described change is ----------

  ghost predicate Holds(p: Package, path: string) {
    p.root.Some? && p.root.value + "/src/" <= path
  }

  /** Among all records of both graphs only those of this name hold the path, and some does. */
  ghost predicate OwnedOnlyBy(base: Graph, head: Graph, path: string, name: string) {
    && (exists p :: (p in base || p in head) && p.name == name && Holds(p, path))
    && forall p :: (p in base || p in head) && Holds(p, path) ==> p.name == name
  }

  /** A new or modified Rust source of one package other than the composition, which both graphs know with the same
      features. */
  ghost predicate Describes(base: Graph, head: Graph, c: Change, name: string) {
    && (c.status == "A" || c.status == "M") && EndsWith(c.path, ".rs")
    && OwnedOnlyBy(base, head, c.path, name) && name != "unica-coder"
    && (exists p :: p in base && p.name == name) && (exists q :: q in head && q.name == name)
    && forall p, q :: p in base && q in head && p.name == name && q.name == name ==> p.features == q.features
  }

  lemma OwnersAre(base: Graph, head: Graph, path: string, name: string)
    ensures name in Owners(base, head, path) <==>
              exists p :: (p in base || p in head) && p.name == name && Holds(p, path)
  {
    if p :| (p in base || p in head) && p.name == name && Holds(p, path) {
      if p in base {
        var k :| 0 <= k < |base| && base[k] == p;
        assert name in OwnersIn(base, path);
      } else {
        var k :| 0 <= k < |head| && head[k] == p;
        assert name in OwnersIn(head, path);
      }
    }
  }

  lemma OneOwner(base: Graph, head: Graph, path: string, name: string)
    ensures OwnedOnlyBy(base, head, path, name) <==> Owners(base, head, path) == {name}
  {
    OwnersAre(base, head, path, name);
    if OwnedOnlyBy(base, head, path, name) {
      forall n | n in Owners(base, head, path) ensures n == name {
        OwnersAre(base, head, path, n);
      }
    }
    if Owners(base, head, path) == {name} {
      forall p | (p in base || p in head) && Holds(p, path) ensures p.name == name {
        OwnersAre(base, head, path, p.name);
      }
    }
  }

  lemma NameIsThere(g: Graph, name: string)
    ensures name in Names(g) <==> exists p :: p in g && p.name == name
  {
    if p :| p in g && p.name == name {
      var k :| 0 <= k < |g| && g[k] == p;
    }
  }

  lemma FeaturesAgree(base: Graph, head: Graph, name: string)
    ensures SameFeatures(base, head, name)
        <==> forall p, q :: p in base && q in head && p.name == name && q.name == name ==> p.features == q.features
  {
    if SameFeatures(base, head, name) {
      forall p, q | p in base && q in head && p.name == name && q.name == name ensures p.features == q.features {
        var j :| 0 <= j < |base| && base[j] == p;
        var k :| 0 <= k < |head| && head[k] == q;
      }
    }
  }

  /** The candidate graph describes a change exactly when it is one of these. */
  lemma DescribableExactly(base: Graph, head: Graph, c: Change)
    ensures Describable(base, head, c) <==> exists name :: Describes(base, head, c, name)
  {
    if Describable(base, head, c) {
      var name :| name in Owners(base, head, c.path);
      assert Owners(base, head, c.path) == {name} by {
        OnlyOne(Owners(base, head, c.path), name);
      }
      DescribedBy(base, head, c, name);
    }
    if name :| Describes(base, head, c, name) {
      OneOwner(base, head, c.path, name);
      DescribedBy(base, head, c, name);
    }
  }

  lemma OnlyOne(s: set<string>, x: string)
    requires |s| == 1 && x in s
    ensures s == {x}
  {
    assert |s - {x}| == 0;
  }

  lemma DescribedBy(base: Graph, head: Graph, c: Change, name: string)
    requires Owners(base, head, c.path) == {name}
    ensures Describable(base, head, c) <==> Describes(base, head, c, name)
  {
    OneOwner(base, head, c.path, name);
    NameIsThere(base, name);
    NameIsThere(head, name);
    FeaturesAgree(base, head, name);
  }
}

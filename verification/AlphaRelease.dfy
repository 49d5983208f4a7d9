/**
 Nightly alpha tags (`release-alpha.py`): the next tag, what may be pruned, the pruning itself with every
 call able to fail, and the law over whole runs that no alpha number is ever issued twice.
 */
module AlphaRelease {
  import opened Wrappers

  /** A core version `X.Y.Z`. `spelling` tells apart texts with the same numbers (leading zeros). */
  datatype Core = Core(major: nat, minor: nat, patch: nat, spelling: nat)

  datatype Tag = Alpha(core: Core, number: nat) | ReleaseTag(core: Core) | OtherTag(name: string)

  datatype Release = Release(draft: bool, immutable: bool)

  predicate CoreLt(a: Core, b: Core) {
    || a.major < b.major
    || (a.major == b.major && (a.minor < b.minor || (a.minor == b.minor && a.patch < b.patch)))
  }

  predicate SameCore(a: Core, b: Core) {
    a.major == b.major && a.minor == b.minor && a.patch == b.patch
  }

  /** The order of `alpha_key`: by core numbers, then by alpha number. */
  predicate KeyLt(a: Tag, b: Tag)
    requires a.Alpha? && b.Alpha?
  {
    CoreLt(a.core, b.core) || (SameCore(a.core, b.core) && a.number < b.number)
  }

  // ---------- Sorting by key ----------

  predicate AllAlpha(s: seq<Tag>) {
    forall k :: 0 <= k < |s| ==> s[k].Alpha?
  }

  predicate Ascending(s: seq<Tag>)
    requires AllAlpha(s)
  {
    forall j, k :: 0 <= j < k < |s| ==> !KeyLt(s[k], s[j])
  }

  predicate Distinct(s: seq<Tag>) {
    forall j, k :: 0 <= j < k < |s| ==> s[j] != s[k]
  }

  /** Where a tag goes: behind every tag that is not newer. */
  function Place(t: Tag, s: seq<Tag>): (i: nat)
    requires t.Alpha? && AllAlpha(s)
    ensures i <= |s| && (i > 0 ==> !KeyLt(t, s[i - 1])) && forall k :: i <= k < |s| ==> KeyLt(t, s[k])
  {
    if s == [] || !KeyLt(t, s[|s| - 1]) then |s| else Place(t, s[..|s| - 1])
  }

  function Insert(t: Tag, s: seq<Tag>): (r: seq<Tag>)
    requires t.Alpha? && AllAlpha(s)
    ensures AllAlpha(r) && forall x :: x in r <==> x in s || x == t
  {
    var i := Place(t, s);
    assert s == s[..i] + s[i..];
    s[..i] + [t] + s[i..]
  }

  lemma InsertKeepsOrder(t: Tag, s: seq<Tag>)
    requires t.Alpha? && AllAlpha(s) && Ascending(s)
    ensures Ascending(Insert(t, s))
    ensures Distinct(s) && t !in s ==> Distinct(Insert(t, s))
  {
    var i, r := Place(t, s), Insert(t, s);
    forall j, k | 0 <= j < k < |r| ensures !KeyLt(r[k], r[j]) && (Distinct(s) && t !in s ==> r[j] != r[k]) {
      var a, b := if j < i then j else j - 1, if k < i then k else k - 1;
      if j != i && k != i {
        assert r[j] == s[a] && r[k] == s[b];
      } else if k == i {
        assert r[j] == s[j] && r[k] == t;
        assert j < i - 1 ==> !KeyLt(s[i - 1], s[j]);
      } else {
        assert r[j] == t && r[k] == s[b];
      }
    }
  }

  /** `alpha_tags`: the alpha tags in ascending order of their key. */
  function Sorted(tags: seq<Tag>): (r: seq<Tag>)
    ensures AllAlpha(r) && forall t :: t in r <==> t in tags && t.Alpha?
  {
    if tags == [] then []
    else
      var last := |tags| - 1;
      assert tags == tags[..last] + [tags[last]];
      var r := Sorted(tags[..last]);
      if tags[last].Alpha? then Insert(tags[last], r) else r
  }

  lemma {:induction false} SortedIsSorted(tags: seq<Tag>)
    ensures Ascending(Sorted(tags))
    ensures Distinct(tags) ==> Distinct(Sorted(tags))
  {
    if tags != [] {
      var last := |tags| - 1;
      SortedIsSorted(tags[..last]);
      if tags[last].Alpha? {
        InsertKeepsOrder(tags[last], Sorted(tags[..last]));
      }
    }
  }

  // ---------- The next tag ----------

  /** The highest number among the alpha tags that spell this core, 0 when there is none. */
  function MaxNumber(tags: seq<Tag>, core: Core): (m: nat)
    ensures forall t <- tags :: t.Alpha? && t.core == core ==> t.number <= m
    ensures m == 0 || Alpha(core, m) in tags
  {
    if tags == [] then 0
    else
      var last := |tags| - 1;
      assert tags == tags[..last] + [tags[last]];
      var m := MaxNumber(tags[..last], core);
      if tags[last].Alpha? && tags[last].core == core && tags[last].number > m then tags[last].number else m
  }

  /** `plan_next`: nothing after the release of this core, nothing for a slice that is already out. */
  function PlanNext(core: Core, head: string, tags: seq<Tag>, parentOf: Tag -> Option<string>,
                    force: bool): Option<Tag> {
    var alphas := Sorted(tags);
    if ReleaseTag(core) in tags then None
    else if alphas != [] && !force && parentOf(alphas[|alphas| - 1]) == Some(head) then None
    else Some(Alpha(core, MaxNumber(alphas, core) + 1))
  }

  /** No alpha tag of the listing is newer. */
  ghost predicate IsNewest(tags: seq<Tag>, t: Tag) {
    t in tags && t.Alpha? && forall u <- tags :: u.Alpha? ==> !KeyLt(t, u)
  }

  lemma LastIsNewest(tags: seq<Tag>)
    requires Sorted(tags) != []
    ensures IsNewest(tags, Sorted(tags)[|Sorted(tags)| - 1])
  {
    SortedIsSorted(tags);
    var s := Sorted(tags);
    var t := s[|s| - 1];
    assert t in s;
    forall u | u in tags && u.Alpha? ensures !KeyLt(t, u) {
      var k :| 0 <= k < |s| && s[k] == u;
    }
  }

  /** A tag is planned exactly when the release of this core is not out and, without force, no newest alpha is of this
      very slice; it continues the numbers of its core without a gap. (Tags that spell one version differently can be
      newest together.) */
  lemma PlanExactly(core: Core, head: string, tags: seq<Tag>, parentOf: Tag -> Option<string>, force: bool)
    ensures var plan := PlanNext(core, head, tags, parentOf, force);
            && (ReleaseTag(core) in tags ==> plan.None?)
            && (ReleaseTag(core) !in tags && (force || forall t :: IsNewest(tags, t) ==> parentOf(t) != Some(head)) ==>
                  plan.Some?)
            && (!force && (exists t <- tags :: t.Alpha?) ==>
                  (forall t :: IsNewest(tags, t) ==> parentOf(t) == Some(head)) ==> plan.None?)
            && (plan.Some? ==> Continues(tags, core, plan.value))
  {
    var s := Sorted(tags);
    if s != [] {
      LastIsNewest(tags);
    } else {
      forall t | t in tags ensures !t.Alpha? {
        assert t !in s;
      }
    }
    var m := MaxNumber(s, core);
    assert m != 0 ==> Alpha(core, m) in tags;
    forall t | t in tags && t.Alpha? && t.core == core ensures t.number <= m {
      assert t in s;
    }
  }

  /** One more than every number of the core, and the number before it is in use. */
  ghost predicate Continues(tags: seq<Tag>, core: Core, tag: Tag) {
    && tag.Alpha? && tag.core == core
    && (forall t <- tags :: t.Alpha? && t.core == core ==> t.number < tag.number)
    && (tag.number == 1 || (tag.number > 1 && Alpha(core, tag.number - 1) in tags))
  }

  // ---------- What may be pruned ----------

  /** Python's `s[-keep:]`. */
  function LastOf(s: seq<Tag>, keep: int): seq<Tag> {
    if keep > 0 then (if keep >= |s| then s else s[|s| - keep..])
    else (if -keep >= |s| then [] else s[-keep..])
  }

  function Filtered(s: seq<Tag>, published: set<Tag>): (r: seq<Tag>)
    requires AllAlpha(s)
    ensures AllAlpha(r) && forall t :: t in r <==> t in s && t in published
  {
    if s == [] then []
    else
      var last := |s| - 1;
      assert s == s[..last] + [s[last]];
      Filtered(s[..last], published) + (if s[last] in published then [s[last]] else [])
  }

  lemma {:induction false} FilteredKeepsOrder(s: seq<Tag>, published: set<Tag>)
    requires AllAlpha(s) && Ascending(s)
    ensures Ascending(Filtered(s, published))
    ensures Distinct(s) ==> Distinct(Filtered(s, published))
  {
    if s != [] {
      var last := |s| - 1;
      var rest := Filtered(s[..last], published);
      FilteredKeepsOrder(s[..last], published);
      forall x | x in rest ensures !KeyLt(s[last], x) && (Distinct(s) ==> x != s[last]) {
        var i :| 0 <= i < last && s[..last][i] == x;
      }
      if s[last] in published {
        AppendKeepsOrder(rest, s[last], Distinct(s));
      }
    }
  }

  lemma AppendKeepsOrder(s: seq<Tag>, t: Tag, distinct: bool)
    requires AllAlpha(s) && Ascending(s) && t.Alpha? && forall x <- s :: !KeyLt(t, x)
    requires distinct ==> Distinct(s) && t !in s
    ensures Ascending(s + [t]) && (distinct ==> Distinct(s + [t]))
  {
    forall k | 0 <= k < |s| ensures !KeyLt(t, s[k]) && (distinct ==> s[k] != t) {
      assert s[k] in s;
    }
  }

  function OlderThan(s: seq<Tag>, t: Tag): (r: seq<Tag>)
    requires AllAlpha(s) && t.Alpha?
    ensures forall x :: x in r <==> x in s && KeyLt(x, t)
  {
    if s == [] then []
    else
      var last := |s| - 1;
      assert s == s[..last] + [s[last]];
      OlderThan(s[..last], t) + (if KeyLt(s[last], t) then [s[last]] else [])
  }

  /** `stale_alphas`; `None` is the index error of an empty slice, which a positive `keep` never meets. */
  function Stale(tags: seq<Tag>, published: set<Tag>, keep: int): (r: Option<seq<Tag>>)
    ensures r.Some? ==> forall t <- r.value :: t in tags && t.Alpha? && exists k <- tags :: k.Alpha? && KeyLt(t, k)
    ensures keep >= 1 ==> r.Some?
  {
    var alphas := Sorted(tags);
    var kept := LastOf(Filtered(alphas, published), keep);
    if |kept| < keep || alphas == [] then Some([])
    else if kept == [] then None
    else
      assert kept[0] in kept && forall k <- kept :: k in Filtered(alphas, published);
      Some(OlderThan(alphas, kept[0]))
  }

  function Elements(s: seq<Tag>): set<Tag> {
    set t | t in s
  }

  lemma {:induction false} ElementsSize(s: seq<Tag>)
    ensures |Elements(s)| <= |s| && (Distinct(s) ==> |Elements(s)| == |s|)
  {
    if s != [] {
      var last := |s| - 1;
      ElementsSize(s[..last]);
      assert s == s[..last] + [s[last]];
      assert Elements(s) == Elements(s[..last]) + {s[last]};
    }
  }

  /** `keep` published alpha tags that are all newer than `t`. */
  ghost predicate Outnumbered(tags: seq<Tag>, published: set<Tag>, keep: nat, t: Tag)
    requires t.Alpha?
  {
    exists newer: set<Tag> :: AllNewer(tags, published, newer, t) && |newer| == keep
  }

  ghost predicate AllNewer(tags: seq<Tag>, published: set<Tag>, newer: set<Tag>, t: Tag)
    requires t.Alpha?
  {
    forall n <- newer :: n in tags && n.Alpha? && n in published && KeyLt(t, n)
  }

  lemma KeyLtTransitive(a: Tag, b: Tag, c: Tag)
    requires a.Alpha? && b.Alpha? && c.Alpha?
    ensures KeyLt(a, b) && !KeyLt(c, b) ==> KeyLt(a, c)
    ensures !KeyLt(a, b) && !KeyLt(c, a) ==> !KeyLt(c, b)
  {
  }

  /** A tag may be pruned exactly when `keep` published alpha tags are newer: none of the newest `keep`
      published ones goes, nor anything as new as the oldest of them. */
  lemma StaleIffOutnumbered(tags: seq<Tag>, published: set<Tag>, keep: nat, t: Tag)
    requires keep >= 1 && Distinct(tags) && t in tags && t.Alpha?
    ensures t in Stale(tags, published, keep).value <==> Outnumbered(tags, published, keep, t)
  {
    var alphas := Sorted(tags);
    var list := Filtered(alphas, published);
    SortedIsSorted(tags);
    FilteredKeepsOrder(alphas, published);
    if t in Stale(tags, published, keep).value {
      StaleIsOutnumbered(list, keep, t);
      assert Elements(list[|list| - keep..]) <= Elements(list);
      assert AllNewer(tags, published, Elements(list[|list| - keep..]), t);
    }
    if Outnumbered(tags, published, keep, t) {
      var newer: set<Tag> :| AllNewer(tags, published, newer, t) && |newer| == keep;
      assert newer <= Elements(list);
      OutnumberedIsStale(list, newer, t);
      assert list[|list| - keep] in list;
      assert alphas != [];
    }
  }

  lemma StaleIsOutnumbered(list: seq<Tag>, keep: nat, t: Tag)
    requires AllAlpha(list) && Ascending(list) && Distinct(list) && t.Alpha?
    requires 1 <= keep <= |list| && KeyLt(t, list[|list| - keep])
    ensures |Elements(list[|list| - keep..])| == keep
    ensures forall n <- Elements(list[|list| - keep..]) :: KeyLt(t, n)
  {
    var m := |list| - keep;
    var tail := list[m..];
    ElementsSize(tail);
    forall n | n in tail ensures KeyLt(t, n) {
      var i :| 0 <= i < |tail| && tail[i] == n;
      assert tail[i] == list[m + i];
      KeyLtTransitive(t, list[m], list[m + i]);
    }
  }

  lemma OutnumberedIsStale(list: seq<Tag>, newer: set<Tag>, t: Tag)
    requires AllAlpha(list) && Ascending(list) && t.Alpha?
    requires newer != {} && newer <= Elements(list) && forall n <- newer :: n.Alpha? && KeyLt(t, n)
    ensures |newer| <= |list| && KeyLt(t, list[|list| - |newer|])
  {
    ElementsSize(list);
    SubsetSize(newer, Elements(list));
    var m := |list| - |newer|;
    if !KeyLt(t, list[m]) {
      var tail := list[m + 1..];
      forall n | n in newer ensures n in Elements(tail) {
        var i :| 0 <= i < |list| && list[i] == n;
        if i < m {
          KeyLtTransitive(t, list[i], list[m]);
        }
        assert tail[i - m - 1] == n;
      }
      ElementsSize(tail);
      SubsetSize(newer, Elements(tail));
    }
  }

  lemma SubsetSize(a: set<Tag>, b: set<Tag>)
    requires a <= b
    ensures |a| <= |b|
  {
    assert |b| == |a| + |b - a| by {
      assert b == a + (b - a);
    }
  }

  // ---------- Pruning ----------

  datatype Answer = Done | Refused | Unavailable

  datatype PruneError = EmptySlice | CallFailed(tag: Tag, answer: Answer)

  /** The repository on the server: its tags and releases, and what it will answer to the n-th deletion. */
  class Remote {
    const answers: nat -> Answer
    var tags: set<Tag>
    var releases: map<Tag, Release>
    var calls: nat

    constructor (answers: nat -> Answer, tags: set<Tag>, releases: map<Tag, Release>)
      ensures this.answers == answers && this.tags == tags && this.releases == releases && calls == 0
    {
      this.answers, this.tags, this.releases, calls := answers, tags, releases, 0;
    }

    method DeleteTag(t: Tag) returns (a: Answer)
      modifies this`tags, this`calls
      ensures tags == if a.Done? then old(tags) - {t} else old(tags)
      ensures a == answers(old(calls)) && calls == old(calls) + 1
    {
      a := answers(calls);
      calls := calls + 1;
      if a.Done? {
        tags := tags - {t};
      }
    }

    method DeleteRelease(t: Tag) returns (a: Answer)
      modifies this`releases, this`calls
      ensures releases == if a.Done? then old(releases) - {t} else old(releases)
      ensures a == answers(old(calls)) && calls == old(calls) + 1
    {
      a := answers(calls);
      calls := calls + 1;
      if a.Done? {
        releases := releases - {t};
      }
    }

    /** The tags in the order the server lists them. */
    method Listing() returns (list: seq<Tag>)
      ensures Distinct(list) && Elements(list) == tags
    {
      list := [];
      var rest := tags;
      while rest != {}
        invariant rest <= tags && Distinct(list) && Elements(list) == tags - rest
        decreases |rest|
      {
        var t :| t in rest;
        ListOneMore(list, t);
        list := list + [t];
        rest := rest - {t};
      }
    }
  }

  lemma ListOneMore(list: seq<Tag>, t: Tag)
    ensures Elements(list + [t]) == Elements(list) + {t}
    ensures Distinct(list) && t !in Elements(list) ==> Distinct(list + [t])
  {
    assert forall x :: x in list + [t] <==> x in list || x == t;
    if t !in Elements(list) {
      assert forall k :: 0 <= k < |list| ==> list[k] in Elements(list);
    }
  }

  function Published(releases: map<Tag, Release>): set<Tag> {
    set t | t in releases && !releases[t].draft
  }

  /** No call of the stretch was refused. */
  ghost predicate AllDone(answers: nat -> Answer, from: nat, to: nat) {
    forall k: nat :: from <= k < to ==> answers(k).Done?
  }

  /** The deletions of one stale tag, in the order that never leaves an ordinary release without its tag
      being gone first; the release of an immutable one goes first. */
  method PruneOne(remote: Remote, tag: Tag, release: Option<Release>) returns (r: Result<(), PruneError>)
    modifies remote
    ensures old(remote.tags) - {tag} <= remote.tags <= old(remote.tags)
    ensures remote.releases == old(remote.releases) || remote.releases == old(remote.releases) - {tag}
    ensures release.Some? && !release.value.immutable && remote.releases != old(remote.releases) ==> tag !in remote.tags
    ensures release.None? ==> remote.releases == old(remote.releases)
    ensures r.Ok? && release.Some? ==> tag !in remote.releases
    ensures r.Ok? && release.Some? && !release.value.immutable ==> tag !in remote.tags
    ensures remote.calls >= old(remote.calls)
    ensures AllDone(remote.answers, old(remote.calls), remote.calls) ==> r.Ok? && tag !in remote.tags
  {
    var immutable := release.Some? && release.value.immutable;
    if immutable {
      var a := remote.DeleteRelease(tag);
      if !a.Done? {
        return Err(CallFailed(tag, a));
      }
    }
    var a := remote.DeleteTag(tag);
    if !a.Done? {
      if release.Some? && !immutable {
        return Err(CallFailed(tag, a));
      }
      return Ok(());
    }
    if release.Some? && !immutable {
      a := remote.DeleteRelease(tag);
      if !a.Done? {
        return Err(CallFailed(tag, a));
      }
    }
    return Ok(());
  }

  /** `prune`: whatever fails on the way, only stale tags and their releases are gone, and an ordinary
      release is gone only when its tag is. */
  method Prune(remote: Remote, keep: int, dryRun: bool)
    returns (r: Result<seq<Tag>, PruneError>, ghost listing: seq<Tag>)
    modifies remote
    ensures Distinct(listing) && Elements(listing) == old(remote.tags)
    ensures remote.tags <= old(remote.tags)
    ensures Stale(listing, Published(old(remote.releases)), keep).None? ==> r == Err(EmptySlice)
    ensures Stale(listing, Published(old(remote.releases)), keep).None? || dryRun ==>
              remote.tags == old(remote.tags) && remote.releases == old(remote.releases)
    ensures Stale(listing, Published(old(remote.releases)), keep).Some? ==>
              var stale := Stale(listing, Published(old(remote.releases)), keep).value;
              && (forall t <- old(remote.tags) :: t !in remote.tags ==> t in stale)
              && (forall t <- old(remote.releases) :: t !in remote.releases ==> t in stale)
              && (forall t <- old(remote.releases) :: t !in remote.releases && !old(remote.releases)[t].immutable ==>
                    t !in remote.tags)
              && (r.Ok? && !dryRun ==>
                    && r.value == stale
                    && (forall t <- stale :: t !in remote.releases)
                    && (forall t <- stale :: t in old(remote.releases) && !old(remote.releases)[t].immutable ==>
                          t !in remote.tags))
              && (AllDone(remote.answers, old(remote.calls), remote.calls) && !dryRun ==>
                    r.Ok? && forall t <- stale :: t !in remote.tags)
  {
    var list := remote.Listing();
    listing := list;
    var stale := Stale(list, Published(remote.releases), keep);
    if stale.None? {
      return Err(EmptySlice), listing;
    }
    if dryRun {
      return Ok([]), listing;
    }
    var failed := PruneEach(remote, stale.value);
    r := if failed.Some? then Err(failed.value) else Ok(stale.value);
  }

  method PruneEach(remote: Remote, stale: seq<Tag>) returns (failed: Option<PruneError>)
    modifies remote
    ensures remote.tags <= old(remote.tags)
    ensures forall t <- old(remote.tags) :: t !in remote.tags ==> t in stale
    ensures remote.releases.Keys <= old(remote.releases).Keys
    ensures forall t <- old(remote.releases) :: t !in remote.releases ==> t in stale
    ensures forall t <- old(remote.releases) :: t !in remote.releases && !old(remote.releases)[t].immutable ==>
              t !in remote.tags
    ensures failed.None? ==>
              && (forall t <- stale :: t !in remote.releases)
              && (forall t <- stale :: t in old(remote.releases) && !old(remote.releases)[t].immutable ==>
                    t !in remote.tags)
    ensures AllDone(remote.answers, old(remote.calls), remote.calls) ==>
              failed.None? && forall t <- stale :: t !in remote.tags
  {
    var releases := remote.releases;
    for k := 0 to |stale|
      invariant remote.tags <= old(remote.tags) && remote.releases.Keys <= releases.Keys
      invariant forall t <- old(remote.tags) :: t !in remote.tags ==> t in stale[..k]
      invariant forall t <- releases :: t !in remote.releases ==> t in stale[..k]
      invariant forall t <- releases :: t !in remote.releases && !releases[t].immutable ==> t !in remote.tags
      invariant forall i :: 0 <= i < k ==> stale[i] !in remote.releases
      invariant remote.calls >= old(remote.calls)
      invariant AllDone(remote.answers, old(remote.calls), remote.calls) ==>
                  forall i :: 0 <= i < k ==> stale[i] !in remote.tags
      invariant forall i :: 0 <= i < k && stale[i] in releases && !releases[stale[i]].immutable ==>
                  stale[i] !in remote.tags
    {
      var tag := stale[k];
      var release := if tag in releases then Some(releases[tag]) else None;
      assert stale[..k + 1] == stale[..k] + [tag];
      var r := PruneOne(remote, tag, release);
      if r.Err? {
        return Some(r.error);
      }
    }
    return None;
  }

  // ---------- Whole runs ----------

  /** The tags on the server and every alpha tag issued so far, oldest first. */
  datatype World = World(tags: set<Tag>, issued: seq<Tag>)

  /** The tag that `plan_next` gives to a core when it finds this listing. */
  function NextTag(listing: seq<Tag>, core: Core): Tag {
    Alpha(core, MaxNumber(Sorted(listing), core) + 1)
  }

  /** A publication of any core, with no premise on it. */
  ghost predicate PublishStep(w: World, next: World, core: Core) {
    exists listing: seq<Tag> :: Elements(listing) == w.tags && Issues(w, next, NextTag(listing, core))
  }

  ghost predicate Issues(w: World, next: World, tag: Tag) {
    next == World(w.tags + {tag}, w.issued + [tag])
  }

  /** What a publisher can check on the newest issued tag: the core is greater, or it is that very core, or it is the
      same version spelled differently and no number of it has been used. */
  predicate Follows(issued: seq<Tag>, core: Core)
    requires AllAlpha(issued)
  {
    issued == [] ||
    var newest := issued[|issued| - 1];
    CoreLt(newest.core, core) || newest.core == core || (SameCore(newest.core, core) && newest.number == 0)
  }

  /** A pruning with any `keep`, which may have failed half way. */
  ghost predicate PruneStep(w: World, next: World) {
    exists listing: seq<Tag>, published: set<Tag>, keep: int ::
      && Elements(listing) == w.tags && next.issued == w.issued
      && Stale(listing, published, keep).Some?
      && next.tags <= w.tags && forall t <- w.tags :: t !in next.tags ==> t in Stale(listing, published, keep).value
  }

  /** Tags other than alpha tags come and go. */
  ghost predicate OtherStep(w: World, next: World) {
    next.issued == w.issued && forall t: Tag :: t.Alpha? ==> (t in w.tags <==> t in next.tags)
  }

  ghost predicate Step(w: World, next: World) {
    (exists core :: PublishStep(w, next, core)) || PruneStep(w, next) || OtherStep(w, next)
  }

  /** Every tag is newer than all tags issued before it. */
  ghost predicate Increasing(issued: seq<Tag>) {
    AllAlpha(issued) && forall j, k :: 0 <= j < k < |issued| ==> KeyLt(issued[j], issued[k])
  }

  /** The newest issued tag is always still there, and no alpha tag came from elsewhere. */
  ghost predicate Sound(w: World) {
    && Increasing(w.issued)
    && (w.issued != [] ==> w.issued[|w.issued| - 1] in w.tags)
    && forall t <- w.tags :: t.Alpha? ==> t in w.issued
  }

  /** Any call of `Prune` is a step of a run. */
  method PruneInRun(remote: Remote, keep: int, dryRun: bool, ghost issued: seq<Tag>)
    returns (r: Result<seq<Tag>, PruneError>)
    modifies remote
    ensures Step(World(old(remote.tags), issued), World(remote.tags, issued))
  {
    ghost var listing;
    r, listing := Prune(remote, keep, dryRun);
    if Stale(listing, Published(old(remote.releases)), keep).Some? {
      assert PruneStep(World(old(remote.tags), issued), World(remote.tags, issued));
    }
  }

  /** What `plan_next` answers is what a publication issues. */
  lemma PlanIsPublication(w: World, core: Core, head: string, listing: seq<Tag>, parentOf: Tag -> Option<string>,
                          force: bool)
    requires Elements(listing) == w.tags && PlanNext(core, head, listing, parentOf, force).Some?
    ensures var tag := PlanNext(core, head, listing, parentOf, force).value;
            PublishStep(w, World(w.tags + {tag}, w.issued + [tag]), core)
  {
    assert Issues(w, World(w.tags + {NextTag(listing, core)}, w.issued + [NextTag(listing, core)]),
                  NextTag(listing, core));
  }

  lemma NewestIsLast(w: World, t: Tag)
    requires Sound(w) && t in w.tags && t.Alpha?
    ensures !KeyLt(w.issued[|w.issued| - 1], t)
  {
    var k :| 0 <= k < |w.issued| && w.issued[k] == t;
  }

  /** A publication keeps the issued tags increasing exactly when its core follows the newest one. */
  lemma PublishIsSoundExactly(w: World, next: World, core: Core)
    requires Sound(w) && PublishStep(w, next, core)
    ensures Increasing(next.issued) <==> Follows(w.issued, core)
    ensures Increasing(next.issued) ==> Sound(next)
  {
    var listing :| Elements(listing) == w.tags && Issues(w, next, NextTag(listing, core));
    var tag := NextTag(listing, core);
    NextIsNewestExactly(w, listing, core);
    if Follows(w.issued, core) {
      IssueOneMore(w, tag);
    }
    if Increasing(next.issued) {
      forall t | t in w.issued ensures t.Alpha? && KeyLt(t, tag) {
        var k :| 0 <= k < |w.issued| && w.issued[k] == t;
        assert next.issued[k] == t && next.issued[|w.issued|] == tag;
      }
    }
  }

  lemma IssueOneMore(w: World, tag: Tag)
    requires Sound(w) && tag.Alpha? && forall t <- w.issued :: t.Alpha? && KeyLt(t, tag)
    ensures Sound(World(w.tags + {tag}, w.issued + [tag]))
  {
    var issued := w.issued + [tag];
    assert forall t :: t in issued <==> t in w.issued || t == tag;
    assert forall k :: 0 <= k < |w.issued| ==> w.issued[k] in w.issued;
  }

  ghost predicate NewerThanAll(issued: seq<Tag>, tag: Tag)
    requires tag.Alpha?
  {
    forall t <- issued :: t.Alpha? && KeyLt(t, tag)
  }

  /** The planned tag is newer than everything ever issued if and only if its core follows the newest issued tag:
      that one is still there to be counted. */
  lemma NextIsNewestExactly(w: World, listing: seq<Tag>, core: Core)
    requires Sound(w) && Elements(listing) == w.tags
    ensures NewerThanAll(w.issued, NextTag(listing, core)) <==> Follows(w.issued, core)
  {
    if w.issued != [] {
      var newest := w.issued[|w.issued| - 1];
      assert newest in w.issued && newest in Elements(listing) && newest in Sorted(listing);
      NewestDecides(w.issued, NextTag(listing, core));
      CountedNumber(w, listing, core);
    }
  }

  /** Newer than the newest is newer than all. */
  lemma NewestDecides(issued: seq<Tag>, tag: Tag)
    requires Increasing(issued) && issued != [] && tag.Alpha?
    ensures NewerThanAll(issued, tag) <==> KeyLt(issued[|issued| - 1], tag)
  {
    var newest := issued[|issued| - 1];
    assert newest in issued;
    if KeyLt(newest, tag) {
      forall t | t in issued ensures t.Alpha? && KeyLt(t, tag) {
        var k :| 0 <= k < |issued| && issued[k] == t;
        if k < |issued| - 1 {
          KeyLtTransitive(t, newest, tag);
        }
      }
    }
  }

  /** A respelled version counts only tags older than the newest one, or nothing. */
  lemma CountedNumber(w: World, listing: seq<Tag>, core: Core)
    requires Sound(w) && Elements(listing) == w.tags && w.issued != []
    ensures var newest, m := w.issued[|w.issued| - 1], MaxNumber(Sorted(listing), core);
            SameCore(newest.core, core) && newest.core != core ==> m == 0 || m < newest.number
  {
    var newest, m := w.issued[|w.issued| - 1], MaxNumber(Sorted(listing), core);
    if m != 0 && SameCore(newest.core, core) && newest.core != core {
      assert Alpha(core, m) in Sorted(listing) && Alpha(core, m) in Elements(listing);
      var k :| 0 <= k < |w.issued| && w.issued[k] == Alpha(core, m);
      assert k < |w.issued| - 1;
    }
  }

  lemma PruneIsSound(w: World, next: World)
    requires Sound(w) && PruneStep(w, next)
    ensures Sound(next)
  {
    var listing: seq<Tag>, published: set<Tag>, keep: int :|
      && Elements(listing) == w.tags && next.issued == w.issued
      && Stale(listing, published, keep).Some?
      && next.tags <= w.tags && forall t <- w.tags :: t !in next.tags ==> t in Stale(listing, published, keep).value;
    if w.issued != [] {
      var newest := w.issued[|w.issued| - 1];
      if newest !in next.tags {
        var k :| k in listing && k.Alpha? && KeyLt(newest, k);
        assert k in Elements(listing);
        NewestIsLast(w, k);
      }
    }
  }

  /** If the step is a publication, its core follows the newest issued tag. */
  ghost predicate StepFollows(w: World, next: World) {
    AllAlpha(w.issued) && forall core :: PublishStep(w, next, core) ==> Follows(w.issued, core)
  }

  lemma StepIsSound(w: World, next: World)
    requires Sound(w) && Step(w, next)
    ensures Increasing(next.issued) <==> StepFollows(w, next)
    ensures Increasing(next.issued) ==> Sound(next)
  {
    if core :| PublishStep(w, next, core) {
      PublishIsSoundExactly(w, next, core);
      forall other | PublishStep(w, next, other) ensures Follows(w.issued, other) <==> Follows(w.issued, core) {
        PublishIsSoundExactly(w, next, other);
      }
    } else if PruneStep(w, next) {
      PruneIsSound(w, next);
    }
  }

  /** Issued tags are never taken back. */
  lemma StepsOnlyAdd(w: World, next: World)
    requires Step(w, next) && Increasing(next.issued)
    ensures Increasing(w.issued)
  {
    if core :| PublishStep(w, next, core) {
      var listing :| Elements(listing) == w.tags && Issues(w, next, NextTag(listing, core));
      assert forall k :: 0 <= k < |w.issued| ==> w.issued[k] == next.issued[k];
    }
  }

  ghost predicate IsRun(run: seq<World>) {
    |run| == 1 || (|run| > 1 && IsRun(run[..|run| - 1]) && Step(run[|run| - 2], run[|run| - 1]))
  }

  /** Every publication of the run followed the newest tag issued before it. */
  ghost predicate RunFollows(run: seq<World>)
    requires run != []
  {
    |run| == 1 || (RunFollows(run[..|run| - 1]) && StepFollows(run[|run| - 2], run[|run| - 1]))
  }

  /** Over any run, whatever is published and pruned, each issued tag is newer than all issued before it, so that no
      alpha number is ever used twice, if and only if every publication followed the newest issued tag. */
  lemma {:induction false} RunsNeverReuse(run: seq<World>)
    requires IsRun(run) && Sound(run[0])
    ensures Increasing(run[|run| - 1].issued) <==> RunFollows(run)
    ensures Increasing(run[|run| - 1].issued) ==> Sound(run[|run| - 1])
  {
    if |run| > 1 {
      var before, after := run[|run| - 2], run[|run| - 1];
      RunsNeverReuse(run[..|run| - 1]);
      if Increasing(after.issued) {
        StepsOnlyAdd(before, after);
      }
      if Increasing(before.issued) {
        StepIsSound(before, after);
      }
    }
  }

  /** Versions that never decrease and are spelled alike always follow. */
  lemma SteadyVersionsFollow(issued: seq<Tag>, core: Core)
    requires AllAlpha(issued)
    requires forall t <- issued :: t.Alpha? && !CoreLt(core, t.core) && (SameCore(core, t.core) ==> core == t.core)
    ensures Follows(issued, core)
  {
    if issued != [] {
      assert issued[|issued| - 1] in issued;
    }
  }

  /** The same version written differently starts over at 1. */
  lemma RespelledCoreStartsOver()
    ensures var old3, new3 := Core(1, 2, 3, 0), Core(1, 2, 3, 1);
            var next := PlanNext(new3, "head", [Alpha(old3, 5)], _ => None, false);
            next.Some? && KeyLt(next.value, Alpha(old3, 5)) && !Follows([Alpha(old3, 5)], new3)
  {
    var tags := [Alpha(Core(1, 2, 3, 0), 5)];
    assert tags[..0] == [];
    assert Sorted(tags) == tags;
    assert MaxNumber(tags, Core(1, 2, 3, 1)) == 0;
  }
}

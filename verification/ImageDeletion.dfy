/** Deleting images as the daemon does it (daemon/image_delete.go): check, untag, delete and recurse,
    changing the stores as it goes. Every delete is shown to carry out the plan fixed beforehand. */
module ImageDeletion {
  import opened Wrappers
  import opened ImageModel
  import opened ImageStore
  import opened ImageDeletePlan

  /** isSingleReference. */
  method IsSingleReference(repoRefs: seq<Ref>, ghost refs: set<Ref>) returns (single: bool)
    requires Enumerates(repoRefs, refs)
    ensures single <==> SingleReference(refs)
  {
    hide Scanned;
    if |repoRefs| <= 1 {
      return |repoRefs| == 1;
    }
    var singleRef: Option<Ref> := None;
    var canonicalRefs: set<string> := {};
    var i := 0;
    ScanNothing();
    while i < |repoRefs|
      invariant i <= |repoRefs|
      invariant singleRef.Some? ==> singleRef.value in repoRefs[..i] && singleRef.value.Tag?
      invariant Scanned(repoRefs[..i], singleRef, canonicalRefs)
    {
      ScanOneMore(repoRefs[..i], singleRef, canonicalRefs, repoRefs[i]);
      assert repoRefs[..i + 1] == repoRefs[..i] + [repoRefs[i]];
      if repoRefs[i].Digest? {
        canonicalRefs := canonicalRefs + {repoRefs[i].repo};
      } else if singleRef.None? {
        singleRef := Some(repoRefs[i]);
      } else {
        TwoTags(repoRefs, refs, i, singleRef.value);
        return false;
      }
      i := i + 1;
    }
    assert repoRefs[..i] == repoRefs;
    ScannedIsSingle(repoRefs, refs, singleRef, canonicalRefs);
    if singleRef.None? {
      singleRef := Some(repoRefs[0]);
    }
    OneName(canonicalRefs, singleRef.value.repo);
    single := |canonicalRefs| == 1 && singleRef.value.repo in canonicalRefs;
  }

  /** What the scan has learnt: the only tag so far, and the repositories of the digests. */
  ghost predicate Scanned(rs: seq<Ref>, tag: Option<Ref>, names: set<string>) {
    && (tag.Some? ==> tag.value in rs && tag.value.Tag?)
    && (forall r :: r in rs && r.Tag? ==> tag == Some(r))
    && (forall r :: r in rs && r.Digest? ==> r.repo in names)
    && (forall n :: n in names ==> exists r :: r in rs && r.Digest? && r.repo == n)
  }

  lemma ScanNothing()
    ensures Scanned([], None, {})
  {
  }

  lemma ScanOneMore(rs: seq<Ref>, tag: Option<Ref>, names: set<string>, r: Ref)
    requires Scanned(rs, tag, names)
    ensures r.Digest? ==> Scanned(rs + [r], tag, names + {r.repo})
    ensures r.Tag? && tag.None? ==> Scanned(rs + [r], Some(r), names)
  {
    var all := rs + [r];
    assert all[|rs|] == r;
    forall n | n in names ensures exists x :: x in all && x.Digest? && x.repo == n {
      var x :| x in rs && x.Digest? && x.repo == n;
      assert x in all;
    }
  }

  lemma TwoTags(rs: seq<Ref>, refs: set<Ref>, i: nat, tag: Ref)
    requires Enumerates(rs, refs) && i < |rs| && rs[i].Tag? && tag.Tag? && tag in rs[..i]
    ensures !SingleReference(refs)
  {
    assert tag in refs && rs[i] in refs && tag != rs[i];
  }

  lemma ScannedIsSingle(rs: seq<Ref>, refs: set<Ref>, tag: Option<Ref>, names: set<string>)
    requires Enumerates(rs, refs) && |rs| > 1 && Scanned(rs, tag, names)
    ensures SingleReference(refs) <==> names == {(if tag.Some? then tag.value else rs[0]).repo}
  {
    var first := if tag.Some? then tag.value else rs[0];
    assert first in refs;
    if names == {first.repo} {
      forall r | r in refs ensures r.repo == first.repo {
        assert r in rs;
      }
    }
    if SingleReference(refs) {
      var r := if rs[0] == first then rs[1] else rs[0];
      assert r in rs && r in refs && r != first;
      if tag.Some? { assert r.Digest?; } else { assert rs[0] in rs; }
      forall n | n in names ensures n == first.repo {}
    }
  }

  lemma OneName(names: set<string>, n: string)
    ensures |names| == 1 && n in names <==> names == {n}
  {
    if |names| == 1 && n in names {
      assert |names - {n}| == 0;
    }
  }

  datatype Record = UntaggedRef(ref: Ref) | DeletedImage(id: ImageID)

  function UntagRecords(rs: seq<Ref>): seq<Record> {
    seq(|rs|, i requires 0 <= i < |rs| => UntaggedRef(rs[i]))
  }

  function DeleteRecords(ids: seq<ImageID>): seq<Record> {
    seq(|ids|, i requires 0 <= i < |ids| => DeletedImage(ids[i]))
  }

  method RemoveAllReferences(d: Daemon, id: ImageID, records: seq<Record>) returns (out: seq<Record>, ghost rs: seq<Ref>)
    modifies d`refs
    ensures d.refs == old(d.refs) - RefsOf(old(d.refs), id)
    ensures Enumerates(rs, RefsOf(old(d.refs), id))
    ensures out == records + UntagRecords(rs)
  {
    var imageRefs := d.References(id);
    out := records;
    for i := 0 to |imageRefs|
      invariant d.refs == old(d.refs) - ToSet(imageRefs[..i])
      invariant out == records + UntagRecords(imageRefs[..i])
    {
      var _ := d.RemoveReference(imageRefs[i]);
      out := out + [UntaggedRef(imageRefs[i])];
      assert imageRefs[..i + 1] == imageRefs[..i] + [imageRefs[i]];
      assert ToSet(imageRefs[..i + 1]) == ToSet(imageRefs[..i]) + {imageRefs[i]};
    }
    assert imageRefs[..|imageRefs|] == imageRefs;
    assert ToSet(imageRefs) == RefsOf(old(d.refs), id);
    rs := imageRefs;
  }

  /** The part of imageDeleteHelper that changes the stores: references first, then the image. */
  method DeleteOne(d: Daemon, id: ImageID, records: seq<Record>) returns (out: seq<Record>, ghost rs: seq<Ref>)
    requires Inv(d.View()) && id in d.images && d.children[id] == {}
    modifies d
    ensures Inv(d.View())
    ensures d.View() == Apply(old(d.View()), Plan(id, RefsOf(old(d.refs), id), [id]))
    ensures Enumerates(rs, RefsOf(old(d.refs), id))
    ensures out == records + UntagRecords(rs) + [DeletedImage(id)]
  {
    ApplyOne(d.View(), id);
    out, rs := RemoveAllReferences(d, id, records);
    var _ := d.Delete(id);
    out := out + [DeletedImage(id)];
  }

  /** What a helper call does, given the state it starts in. */
  ghost predicate HelperOutcome(s: State, s': State, id: ImageID, records: seq<Record>, force: bool, prune: bool, quiet: bool,
                                out: seq<Record>, err: Option<ConflictKind>, rs: seq<Ref>)
  {
    var conflict := Conflict(s, id, FullMask(force));
    if conflict.Some? then
      s' == s && out == records && rs == [] && err == if quiet then None else conflict
    else
      && err.None?
      && s' == Apply(s, Plan(id, RefsOf(s.refs, id), Run(s, id, prune)))
      && Enumerates(rs, RefsOf(s.refs, id))
      && out == records + UntagRecords(rs) + DeleteRecords(Run(s, id, prune))
  }

  /** The records of a recursive call that removed no reference. */
  lemma RecordsJoin(records: seq<Record>, rs: seq<Ref>, id: ImageID, mid: seq<Record>, rs2: seq<Ref>, run: seq<ImageID>)
    requires mid == records + UntagRecords(rs) + [DeletedImage(id)] && Enumerates<Ref>(rs2, {})
    ensures mid + UntagRecords(rs2) + DeleteRecords(run) == records + UntagRecords(rs) + DeleteRecords([id] + run)
  {
    DeleteRecordsJoin(id, run);
  }

  /** Deleting the target and then whatever the recursive call did is the planned run. */
  lemma HelperStep(s: State, s2: State, s3: State, id: ImageID, records: seq<Record>, force: bool, quiet: bool,
                   mid: seq<Record>, rs: seq<Ref>, out: seq<Record>, err: Option<ConflictKind>, rs2: seq<Ref>)
    requires Inv(s) && id in s.images && id in s.parents && s.children[id] == {}
    requires s2 == Apply(s, Plan(id, RefsOf(s.refs, id), [id]))
    requires mid == records + UntagRecords(rs) + [DeletedImage(id)]
    requires HelperOutcome(s2, s3, s.parents[id], mid, false, true, true, out, err, rs2)
    ensures err.None?
    ensures s3 == Apply(s, Plan(id, RefsOf(s.refs, id), Run(s, id, true)))
    ensures out == records + UntagRecords(rs) + DeleteRecords(Run(s, id, true))
  {
    var p := s.parents[id];
    PruneDecision(s, id);
    PruneStep(s, id);
    if Conflict(s2, p, FullMask(false)).Some? {
      DeleteRecordsJoin(id, []);
    } else {
      RecordsJoin(records, rs, id, mid, rs2, Run(s2, p, true));
    }
  }

  lemma DeleteRecordsJoin(id: ImageID, run: seq<ImageID>)
    ensures DeleteRecords([id] + run) == [DeletedImage(id)] + DeleteRecords(run)
    ensures run == [] ==> DeleteRecords([id]) == [DeletedImage(id)]
  {
  }

  /** imageDeleteHelper: checks, deletes, and recurses to the parent when pruning. */
  method ImageDeleteHelper(d: Daemon, id: ImageID, records: seq<Record>, force: bool, prune: bool, quiet: bool)
    returns (out: seq<Record>, err: Option<ConflictKind>, ghost rs: seq<Ref>)
    requires Inv(d.View()) && id in d.images
    modifies d
    ensures Inv(d.View())
    ensures HelperOutcome(old(d.View()), d.View(), id, records, force, prune, quiet, out, err, rs)
    decreases d.images
  {
    ghost var s := d.View();
    var conflict := Conflict(d.View(), id, FullMask(force));
    if conflict.Some? {
      if quiet && (!Dangling(d.View(), id) || MarkedUsed(conflict.value)) {
        return records, None, [];
      }
      QuietDeleteNeverReports(s, id, FullMask(force));
      return records, conflict, [];
    }
    var parent := if id in d.parents then Some(d.parents[id]) else None;
    var mid;
    mid, rs := DeleteOne(d, id, records);
    if !prune || parent.None? {
      DeleteRecordsJoin(id, []);
      assert Run(s, id, prune) == [id];
      return mid, None, rs;
    }
    PruneDecision(s, id);
    ghost var s2 := d.View();
    assert d.images < s.images;
    ghost var rs2;
    out, err, rs2 := ImageDeleteHelper(d, parent.value, mid, false, true, true);
    HelperStep(s, s2, d.View(), id, records, force, quiet, mid, rs, out, err, rs2);
  }

  // ---------------------------------------------------------------- ImageDelete

  /** The digests of one repository, in order. */
  function DigestsOf(rs: seq<Ref>, repo: string): seq<Ref> {
    if rs == [] then []
    else DigestsOf(rs[..|rs| - 1], repo)
         + if rs[|rs| - 1].Digest? && rs[|rs| - 1].repo == repo then [rs[|rs| - 1]] else []
  }

  function RepoDigests(refs: set<Ref>, repo: string): set<Ref> {
    set r | r in refs && r.Digest? && r.repo == repo
  }

  lemma RepoDigestsGrow(refs: set<Ref>, r: Ref, repo: string)
    requires r !in refs
    ensures RepoDigests(refs + {r}, repo) == RepoDigests(refs, repo) + if r.Digest? && r.repo == repo then {r} else {}
  {
  }

  lemma EnumeratesFront(rs: seq<Ref>)
    requires rs != [] && Enumerates(rs, ToSet(rs))
    ensures var front, last := rs[..|rs| - 1], rs[|rs| - 1];
            last !in ToSet(front) && Enumerates(front, ToSet(front)) && ToSet(rs) == ToSet(front) + {last}
  {
    var front, last := rs[..|rs| - 1], rs[|rs| - 1];
    assert rs == front + [last];
    assert last !in front;
    assert ToSet(rs) == ToSet(front) + {last};
  }

  lemma {:induction false} DigestsOfEnumerates(rs: seq<Ref>, repo: string)
    requires Enumerates(rs, ToSet(rs))
    ensures Enumerates(DigestsOf(rs, repo), RepoDigests(ToSet(rs), repo))
    decreases |rs|
  {
    if rs != [] {
      var front, last := rs[..|rs| - 1], rs[|rs| - 1];
      EnumeratesFront(rs);
      DigestsOfEnumerates(front, repo);
      RepoDigestsGrow(ToSet(front), last, repo);
      if last.Digest? && last.repo == repo {
        EnumerateOneMore(DigestsOf(front, repo), RepoDigests(ToSet(front), repo), last);
      }
    }
  }

  lemma DigestsOneMore(rs: seq<Ref>, i: nat, repo: string)
    requires i < |rs|
    ensures var done, next := DigestsOf(rs[..i], repo), DigestsOf(rs[..i + 1], repo);
            if rs[i].Digest? && rs[i].repo == repo
            then |next| == |done| + 1 && ToSet(next) == ToSet(done) + {rs[i]} && UntagRecords(next) == UntagRecords(done) + [UntaggedRef(rs[i])]
            else next == done
  {
    var done := DigestsOf(rs[..i], repo);
    assert rs[..i + 1][..i] == rs[..i];
    assert ToSet(done + [rs[i]]) == ToSet(done) + {rs[i]};
    assert UntagRecords(done + [rs[i]]) == UntagRecords(done) + [UntaggedRef(rs[i])];
  }

  /** The loop that drops one repository's digests and counts what it keeps. */
  method RemoveDigests(d: Daemon, repoRefs: seq<Ref>, repo: string, records: seq<Record>)
    returns (out: seq<Record>, kept: nat)
    modifies d`refs
    ensures d.refs == old(d.refs) - ToSet(DigestsOf(repoRefs, repo))
    ensures out == records + UntagRecords(DigestsOf(repoRefs, repo))
    ensures kept == |repoRefs| - |DigestsOf(repoRefs, repo)|
  {
    out, kept := records, 0;
    assert ToSet<Ref>([]) == {};
    for i := 0 to |repoRefs|
      invariant kept == i - |DigestsOf(repoRefs[..i], repo)|
      invariant d.refs == old(d.refs) - ToSet(DigestsOf(repoRefs[..i], repo))
      invariant out == records + UntagRecords(DigestsOf(repoRefs[..i], repo))
    {
      hide DigestsOf, ToSet, UntagRecords;
      var r := repoRefs[i];
      DigestsOneMore(repoRefs, i, repo);
      if r.Digest? && r.repo == repo {
        var _ := d.RemoveReference(r);
        out := out + [UntaggedRef(r)];
      } else {
        kept := kept + 1;
      }
    }
    assert repoRefs[..|repoRefs|] == repoRefs;
  }

  lemma EnumeratedSet<T>(xs: seq<T>, all: set<T>)
    requires Enumerates(xs, all)
    ensures ToSet(xs) == all
  {
  }

  lemma SubsetOfEqualSize<T>(a: set<T>, b: set<T>)
    requires a <= b
    ensures |b - a| == |b| - |a|
  {
  }

  /** What the clean-up after a tag removes from the references that are left: the digests of the tag's
      repository, if no tag of it is left. */
  function Cleaned(left: set<Ref>, ref: Ref): set<Ref> {
    if exists r :: r in left && r.Tag? && r.repo == ref.repo then {} else RepoDigests(left, ref.repo)
  }

  lemma UntaggedIsCleaned(refs: set<Ref>, ref: Ref)
    requires ref.Tag? && ref in refs
    ensures Untagged(refs, ref) == {ref} + Cleaned(refs - {ref}, ref)
    ensures refs - Untagged(refs, ref) == refs - {ref} - Cleaned(refs - {ref}, ref)
  {
    var others := exists r :: r in refs && r != ref && r.Tag? && r.repo == ref.repo;
    assert others <==> exists r :: r in refs - {ref} && r.Tag? && r.repo == ref.repo;
    assert RepoDigests(refs - {ref}, ref.repo) == RepoDigests(refs, ref.repo);
  }

  lemma NothingCleaned(repoRefs: seq<Ref>, left: set<Ref>)
    requires Enumerates(repoRefs, left)
    ensures Enumerates<Ref>([], {}) && (|repoRefs| == 0 <==> left - {} == {})
  {
  }

  lemma DigestsCleaned(repoRefs: seq<Ref>, left: set<Ref>, repo: string)
    requires Enumerates(repoRefs, left)
    ensures var rs := DigestsOf(repoRefs, repo);
            && Enumerates(rs, RepoDigests(left, repo)) && ToSet(rs) == RepoDigests(left, repo)
            && (|repoRefs| - |rs| == 0 <==> left - RepoDigests(left, repo) == {})
  {
    EnumeratedSet(repoRefs, left);
    DigestsOfEnumerates(repoRefs, repo);
    EnumeratedSet(DigestsOf(repoRefs, repo), RepoDigests(left, repo));
    hide Enumerates, DigestsOf, ToSet;
    SubsetOfEqualSize(RepoDigests(left, repo), left);
  }

  lemma SomeListed(repoRefs: seq<Ref>, left: set<Ref>, repo: string)
    requires Enumerates(repoRefs, left)
    ensures (exists r :: r in repoRefs && r.Tag? && r.repo == repo) <==> (exists r :: r in left && r.Tag? && r.repo == repo)
  {
    EnumeratedSet(repoRefs, left);
    assert forall r :: r in repoRefs <==> r in ToSet(repoRefs);
  }

  /** After a tag is gone: drop its repository's digests if no tag of that repository is left. */
  method CleanupDigests(d: Daemon, id: ImageID, ref: Ref, records: seq<Record>)
    returns (out: seq<Record>, remaining: nat, ghost rs: seq<Ref>)
    modifies d`refs
    ensures var left := RefsOf(old(d.refs), id);
            && d.refs == old(d.refs) - Cleaned(left, ref)
            && Enumerates(rs, Cleaned(left, ref))
            && out == records + UntagRecords(rs)
            && (remaining == 0 <==> left - Cleaned(left, ref) == {})
  {
    hide RefsOf, Enumerates, RepoDigests, DigestsOf, ToSet;
    ghost var left := RefsOf(d.refs, id);
    var repoRefs := d.References(id);
    var foundRepoTagRef := exists r :: r in repoRefs && r.Tag? && r.repo == ref.repo;
    SomeListed(repoRefs, left, ref.repo);
    if foundRepoTagRef {
      NothingCleaned(repoRefs, left);
      assert d.refs - {} == d.refs;
      return records, |repoRefs|, [];
    }
    DigestsCleaned(repoRefs, left, ref.repo);
    rs := DigestsOf(repoRefs, ref.repo);
    out, remaining := RemoveDigests(d, repoRefs, ref.repo, records);
  }

  /** ImageDelete: for every way of naming the image, with or without force and prune, the daemon
      either refuses and changes nothing or carries out exactly the plan, and its records are the
      removed references, each once, followed by the removed images from the target upwards. */
  method ImageDelete(d: Daemon, t: Target, force: bool, prune: bool)
    returns (r: Result<seq<Record>, DeleteError>, ghost rs: seq<Ref>)
    requires Inv(d.View())
    modifies d
    ensures Inv(d.View())
    ensures d.View() == Apply(old(d.View()), DeletePlan(old(d.View()), t, force, prune))
    ensures match DeletePlan(old(d.View()), t, force, prune)
            case Refused(e) => r == Err(e) && d.View() == old(d.View())
            case Plan(_, untag, remove) =>
              Enumerates(rs, untag) && r == Ok(UntagRecords(rs) + DeleteRecords(remove))
    ensures r.Err? ==> Explains(old(d.View()), t, force, r.error)
  {
    if DeletePlan(d.View(), t, force, prune).Refused? {
      RefusalIsExplained(d.View(), t, force, prune);
    }
    hide Explains;
    rs := [];
    var found := Resolve(d.View(), t);
    if found.None? {
      return Err(NoSuchImage), rs;
    }
    if t.ByRef? && !t.spellsPrefix {
      r, rs := DeleteByRef(d, found.value, t.ref, force, prune);
    } else {
      r, rs := DeleteByID(d, found.value, force, prune);
    }
  }

  ghost predicate Performs(s: State, s': State, plan: Plan, r: Result<seq<Record>, DeleteError>, rs: seq<Ref>) {
    && s' == Apply(s, plan)
    && match plan
       case Refused(e) => r == Err(e)
       case Plan(_, untag, remove) => Enumerates(rs, untag) && r == Ok(UntagRecords(rs) + DeleteRecords(remove))
  }

  /** Once all references are gone, a helper call finishes the plan; quiet ones only stay silent. */
  method DeleteUntagged(d: Daemon, ghost s: State, id: ImageID, records: seq<Record>, force: bool, prune: bool, quiet: bool)
    returns (out: seq<Record>, err: Option<ConflictKind>)
    requires Inv(d.View()) && id in d.images
    requires d.View() == s.(refs := s.refs - RefsOf(s.refs, id))
    modifies d
    ensures Inv(d.View())
    ensures var conflict := Conflict(s, id, FullMask(force) - {ActiveReference});
            if conflict.Some? then
              d.View() == old(d.View()) && out == records && err == if quiet then None else conflict
            else
              && err.None? && out == records + DeleteRecords(Run(s, id, prune))
              && d.View() == Apply(s, Plan(id, RefsOf(s.refs, id), Run(s, id, prune)))
  {
    ConflictAfterUntag(s, id, force);
    UntagThenDelete(s, id, prune);
    ghost var rs;
    out, err, rs := ImageDeleteHelper(d, id, records, force, prune, quiet);
    assert rs == [];
    assert records + UntagRecords([]) == records;
  }

  method DeleteByID(d: Daemon, id: ImageID, force: bool, prune: bool)
    returns (r: Result<seq<Record>, DeleteError>, ghost rs: seq<Ref>)
    requires Inv(d.View()) && id in d.images
    modifies d
    ensures Inv(d.View())
    ensures Performs(old(d.View()), d.View(), PlanByID(old(d.View()), id, force, prune), r, rs)
  {
    ghost var s := d.View();
    var repoRefs := d.References(id);
    var single := IsSingleReference(repoRefs, RefsOf(d.refs, id));
    rs := [];
    if single {
      var c := Conflict(d.View(), id, FullMask(force) - {ActiveReference});
      if c.Some? {
        return Err(InConflict(c.value)), rs;
      }
      var records;
      records, rs := RemoveAllReferences(d, id, []);
      assert records == UntagRecords(rs);
      var out, err := DeleteUntagged(d, s, id, records, force, prune, false);
      return Ok(out), rs;
    }
    var out, err, rs2 := ImageDeleteHelper(d, id, [], force, prune, false);
    rs := rs2;
    assert [] + UntagRecords(rs) == UntagRecords(rs);
    r := if err.Some? then Err(InConflict(err.value)) else Ok(out);
  }

  lemma EnumerateOne(ref: Ref)
    ensures Enumerates([ref], {ref})
  {
  }

  method CountReferences(d: Daemon, id: ImageID) returns (n: nat)
    ensures n == |RefsOf(d.refs, id)|
  {
    var repoRefs := d.References(id);
    return |repoRefs|;
  }

  lemma RemoveTwice(m: map<Ref, ImageID>, x: Ref, rest: set<Ref>)
    ensures m - {x} - rest == m - ({x} + rest)
  {
  }

  lemma RefsOfWithout(m: map<Ref, ImageID>, id: ImageID, ref: Ref)
    requires ref in m && m[ref] == id
    ensures RefsOf(m - {ref}, id) == RefsOf(m, id) - {ref} && ref in RefsOf(m, id)
  {
  }

  /** What untagging has done. */
  ghost predicate UntagOutcome(before: map<Ref, ImageID>, after: map<Ref, ImageID>, id: ImageID, ref: Ref,
                               records: seq<Record>, left: nat, rs: seq<Ref>)
  {
    var refs := RefsOf(before, id);
    && after == before - Untagged(refs, ref)
    && Enumerates(rs, Untagged(refs, ref))
    && records == UntagRecords(rs)
    && (left == 0 <==> refs - Untagged(refs, ref) == {})
  }

  lemma UntagTagOutcome(before: map<Ref, ImageID>, after: map<Ref, ImageID>, id: ImageID, ref: Ref,
                        records: seq<Record>, left: nat, rs: seq<Ref>)
    requires ref.Tag? && ref in before && before[ref] == id
    requires var others := RefsOf(before - {ref}, id);
             && after == before - {ref} - Cleaned(others, ref) && Enumerates(rs, Cleaned(others, ref))
             && records == [UntaggedRef(ref)] + UntagRecords(rs)
             && (left == 0 <==> others - Cleaned(others, ref) == {})
    ensures UntagOutcome(before, after, id, ref, records, left, [ref] + rs)
  {
    var others := RefsOf(before - {ref}, id);
    RefsOfWithout(before, id, ref);
    assert ref !in Cleaned(others, ref);
    UntaggedIsCleaned(RefsOf(before, id), ref);
    hide RefsOf, Cleaned, Untagged;
    RemoveTwice(before, ref, Cleaned(others, ref));
    EnumerateCons(ref, rs, Cleaned(others, ref));
    hide Enumerates;
    assert UntagRecords([ref] + rs) == [UntaggedRef(ref)] + UntagRecords(rs);
  }

  lemma UntagDigestOutcome(before: map<Ref, ImageID>, id: ImageID, ref: Ref, left: nat)
    requires ref.Digest? && ref in before && before[ref] == id && left == |RefsOf(before - {ref}, id)|
    ensures UntagOutcome(before, before - {ref}, id, ref, [UntaggedRef(ref)], left, [ref])
  {
    RefsOfWithout(before, id, ref);
    assert Untagged(RefsOf(before, id), ref) == {ref};
    hide RefsOf, Untagged;
    EnumerateOne(ref);
  }

  /** Removing one stored reference and the digests cleaned up with it. */
  method Untag(d: Daemon, id: ImageID, ref: Ref) returns (records: seq<Record>, left: nat, ghost rs: seq<Ref>)
    requires ref in d.refs && d.refs[ref] == id
    modifies d`refs
    ensures UntagOutcome(old(d.refs), d.refs, id, ref, records, left, rs)
  {
    hide RefsOf, Enumerates, Cleaned, UntagOutcome;
    var _ := d.RemoveReference(ref);
    records := [UntaggedRef(ref)];
    if ref.Tag? {
      records, left, rs := CleanupDigests(d, id, ref, records);
      UntagTagOutcome(old(d.refs), d.refs, id, ref, records, left, rs);
      rs := [ref] + rs;
    } else {
      left := CountReferences(d, id);
      rs := [ref];
      UntagDigestOutcome(old(d.refs), id, ref, left);
    }
  }

  lemma UntaggedWithin(s: State, id: ImageID, ref: Ref)
    requires ref in s.refs && s.refs[ref] == id
    ensures var refs := RefsOf(s.refs, id);
            refs - Untagged(refs, ref) == {} ==> Untagged(refs, ref) == refs
  {
  }

  method DeleteByRef(d: Daemon, id: ImageID, ref: Ref, force: bool, prune: bool)
    returns (r: Result<seq<Record>, DeleteError>, ghost rs: seq<Ref>)
    requires Inv(d.View()) && id in d.images && (ref in d.refs ==> d.refs[ref] == id)
    modifies d
    ensures Inv(d.View())
    ensures Performs(old(d.View()), d.View(), PlanByRef(old(d.View()), id, ref, force, prune), r, rs)
  {
    hide Inv, Run, SingleReference, Conflict, ChildrenWithout, RefsOf, Used, ToSet, Enumerates, Untagged;
    ghost var s := d.View();
    var repoRefs := d.References(id);
    var single := IsSingleReference(repoRefs, RefsOf(d.refs, id));
    if !force && single && Used(d.View(), id) {
      return Err(ReferenceInUse), [];
    }
    if ref !in d.refs {
      return Err(NoSuchReference), [];
    }
    var records, left;
    UntagKeepsInv(s, Untagged(RefsOf(s.refs, id), ref));
    records, left, rs := Untag(d, id, ref);
    assert records == UntagRecords(rs) + DeleteRecords([]);
    if left > 0 {
      ApplyNoRemoval(s, id, Untagged(RefsOf(s.refs, id), ref));
      return Ok(records), rs;
    }
    UntaggedWithin(s, id, ref);
    var out, _ := DeleteUntagged(d, s, id, records, force, prune, true);
    ApplyNoRemoval(s, id, RefsOf(s.refs, id));
    r := Ok(out);
  }

  lemma EnumerateCons(x: Ref, xs: seq<Ref>, all: set<Ref>)
    requires x !in all && Enumerates(xs, all)
    ensures Enumerates([x] + xs, {x} + all)
  {
    hide Enumerates;
    EnumerateInserted(xs, all, x, 0);
    assert xs[..0] + [x] + xs[0..] == [x] + xs && all + {x} == {x} + all;
  }
}

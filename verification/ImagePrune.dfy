/** `docker image prune` (daemon/prune.go, ImagesPrune) as a client of ImageDelete. */
module ImagePrune {
  import opened Wrappers
  import opened ImageModel
  import opened ImageStore
  import opened ImageDeletePlan
  import opened ImageDeletion
  import opened PruneExact

  /** A series of unforced deletes, each pruning upwards. */
  function Deletes(s: State, ts: seq<Target>): State {
    if ts == [] then s
    else
      var s' := Deletes(s, ts[..|ts| - 1]);
      Apply(s', DeletePlan(s', ts[|ts| - 1], false, true))
  }

  /** No series of unforced deletes removes an image that any container uses, and none touches a container. */
  lemma {:induction false} DeletesSpareUsedImages(s: State, ts: seq<Target>)
    requires Inv(s)
    ensures Inv(Deletes(s, ts))
    ensures Deletes(s, ts).images <= s.images && Deletes(s, ts).containers == s.containers
    ensures forall x :: x in s.images && x !in Deletes(s, ts).images ==> !Used(s, x)
    decreases |ts|
  {
    hide Inv, DeletePlan;
    if ts != [] {
      var s', t := Deletes(s, ts[..|ts| - 1]), ts[|ts| - 1];
      DeletesSpareUsedImages(s, ts[..|ts| - 1]);
      PlanKeepsInv(s', t, false, true);
      forall x | x in s'.images && x !in Deletes(s, ts).images ensures !Used(s, x) {
        PlanSparesUsedImages(s', t, false, true, x);
      }
    }
  }

  lemma DeletesOneMore(s: State, ts: seq<Target>, t: Target)
    ensures Deletes(s, ts + [t]) == Apply(Deletes(s, ts), DeletePlan(Deletes(s, ts), t, false, true))
  {
    assert (ts + [t])[..|ts|] == ts;
  }

  // ---------------------------------------------------------------- the report

  /** What is in `s` and no longer in `cur`. */
  ghost function Gone(s: State, cur: State): set<Record> {
    (set r | r in s.refs && r !in cur.refs :: UntaggedRef(r)) + (set i | i in s.images && i !in cur.images :: DeletedImage(i))
  }

  lemma GoneAddsUp(s: State, a: State, b: State)
    requires Shrunk(s, a) && Shrunk(a, b)
    ensures Gone(s, b) == Gone(s, a) + Gone(a, b) && Gone(s, a) !! Gone(a, b)
  {
  }

  lemma EnumerateBoth<T>(xs: seq<T>, ys: seq<T>, a: set<T>, b: set<T>)
    requires Enumerates(xs, a) && Enumerates(ys, b) && a !! b
    ensures Enumerates(xs + ys, a + b)
  {
    forall x | x in a + b ensures x in xs + ys {}
    assert |a + b| == |a| + |b|;
  }

  lemma EnumeratesRecords(rs: seq<Ref>, refs: set<Ref>, ids: seq<ImageID>, images: set<ImageID>)
    requires Enumerates(rs, refs) && Enumerates(ids, images)
    ensures Enumerates(UntagRecords(rs) + DeleteRecords(ids), (set r | r in refs :: UntaggedRef(r)) + (set i | i in images :: DeletedImage(i)))
  {
    var us, ds := UntagRecords(rs), DeleteRecords(ids);
    DistinctIsEnumerated(us);
    DistinctIsEnumerated(ds);
    forall r | r in refs ensures UntaggedRef(r) in ToSet(us) {
      var i :| 0 <= i < |rs| && rs[i] == r;
      assert us[i] == UntaggedRef(r);
    }
    forall x | x in images ensures DeletedImage(x) in ToSet(ds) {
      var i :| 0 <= i < |ids| && ids[i] == x;
      assert ds[i] == DeletedImage(x);
    }
    assert ToSet(us) == set r | r in refs :: UntaggedRef(r);
    assert ToSet(ds) == set i | i in images :: DeletedImage(i);
    EnumerateBoth(us, ds, ToSet(us), ToSet(ds));
  }

  lemma {:induction false} ChainIsDistinct(s: State, run: seq<ImageID>, i: nat, j: nat)
    requires Inv(s) && Chain(s, run) && i < j < |run|
    ensures |run[j].image.history| < |run[i].image.history|
    decreases j
  {
    hide Admissible;
    var k := j - 1;
    assert run[k] in s.parents && s.parents[run[k]] == run[k + 1];
    assert run[k] in s.children[run[k + 1]];
    if i < k {
      ChainIsDistinct(s, run, i, k);
    }
  }

  lemma {:induction false} DistinctIsEnumerated<T>(xs: seq<T>)
    requires forall i, j :: 0 <= i < j < |xs| ==> xs[i] != xs[j]
    ensures Enumerates(xs, ToSet(xs))
    decreases |xs|
  {
    if xs != [] {
      var front, last := xs[..|xs| - 1], xs[|xs| - 1];
      DistinctIsEnumerated(front);
      assert last !in front;
      EnumerateOneMore(front, ToSet(front), last);
      hide Enumerates;
      assert xs == front + [last];
      assert ToSet(front + [last]) == ToSet(front) + {last};
    }
  }

  /** The records of one delete list exactly what it took away. */
  lemma PlanRecords(s: State, t: Target, rs: seq<Ref>)
    requires Inv(s) && DeletePlan(s, t, false, true).Plan? && Enumerates(rs, DeletePlan(s, t, false, true).untag)
    ensures var plan := DeletePlan(s, t, false, true);
            Enumerates(UntagRecords(rs) + DeleteRecords(plan.remove), Gone(s, Apply(s, plan)))
  {
    hide DeletePlan, Inv, RefsOf, Enumerates, Prunable;
    var plan := DeletePlan(s, t, false, true);
    PlanUntagsOwn(s, t, false, true);
    PlanIsChain(s, t, false, true);
    forall i, j | 0 <= i < j < |plan.remove| ensures plan.remove[i] != plan.remove[j] {
      ChainIsDistinct(s, plan.remove, i, j);
    }
    forall x | x in plan.remove ensures x in s.images { PlanSparesUsedImages(s, t, false, true, x); }
    DistinctIsEnumerated(plan.remove);
    EnumeratesRecords(rs, plan.untag, plan.remove, ToSet(plan.remove));
    GoneIs(s, plan);
  }

  lemma GoneIs(s: State, plan: Plan)
    requires plan.Plan? && plan.untag <= RefsOf(s.refs, plan.id) && ToSet(plan.remove) <= s.images
    ensures Gone(s, Apply(s, plan)) == (set r | r in plan.untag :: UntaggedRef(r)) + (set i | i in ToSet(plan.remove) :: DeletedImage(i))
  {
    var next := Apply(s, plan);
    assert forall r :: r in s.refs && r !in next.refs <==> r in plan.untag;
    assert forall i :: i in s.images && i !in next.images <==> i in ToSet(plan.remove);
  }

  // ---------------------------------------------------------------- the progress of a prune

  /** The images the prune starts from: the heads, or all images that are not bare intermediates. */
  function TopImages(s: State, danglingOnly: bool): set<ImageID> {
    set id | id in s.images && (danglingOnly ==> !HasChildren(s, id)) && !(RefsOf(s.refs, id) == {} && HasChildren(s, id))
  }

  /** The references an image has after the prune. Dangling prunes and skipped images keep all of them.
      Otherwise lonely digests stay and all others go, except that a used image never loses its last
      reference: without lonely digests, its last tag and that tag's digests stay. */
  ghost predicate Leaves(w: Sweep, x: ImageID, left: set<Ref>) {
    var refs := RefsOf(w.s.refs, x);
    if w.dangling || x in w.shadowed then left == refs
    else if Used(w.s, x) && Lonelies(refs) == {} && exists t :: t in refs && t.Tag? then
      exists t :: t in refs && t.Tag? && (forall u :: u in refs && u.Tag? ==> !Before(t, u)) && left == {t} + RepoDigests(refs, t.repo)
    else if Used(w.s, x) && Lonelies(refs) == {} then left == refs
    else left == Lonelies(refs)
  }

  /** So a used image that had a reference keeps one. */
  lemma UsedKeepsAReference(w: Sweep, x: ImageID, left: set<Ref>)
    requires Leaves(w, x, left) && Used(w.s, x) && RefsOf(w.s.refs, x) != {}
    ensures left != {}
  {
    hide Used;
    if t :| t in RefsOf(w.s.refs, x) && t.Tag? && left == {t} + RepoDigests(RefsOf(w.s.refs, x), t.repo) {
      assert t in left;
    }
  }

  /** Where a prune stands. Of an image still to come in `todo` no reference has gone, of an image not `open` exactly
      those that have to go; every loose image is a skipped one or open; the index follows, and nothing with
      something kept below it has gone. */
  ghost predicate Progress(w: Sweep, cur: State, todo: set<ImageID>, open: set<ImageID>) {
    && Shrunk(w.s, cur) && PinsStand(w, cur) && IndexFollows(w.s, cur) && SparesKept(w, cur)
    && (forall y :: y in todo ==> RefsOf(cur.refs, y) == RefsOf(w.s.refs, y))
    && (forall y :: y !in open ==> Leaves(w, y, RefsOf(cur.refs, y)))
    && (forall x :: Loose(cur, x) ==> x in open || Keeper(w, x))
  }

  lemma ProgressAtStart(w: Sweep)
    requires Inv(w.s)
    ensures Progress(w, w.s, TopImages(w.s, w.dangling), TopImages(w.s, w.dangling))
  {
    ShrunkRefl(w.s);
    IndexFollowsRefl(w.s);
    forall y | y !in TopImages(w.s, w.dangling) ensures Leaves(w, y, RefsOf(w.s.refs, y)) {
      NotTopLeaves(w, y);
    }
    KeptIsStored(w);
    hide Inv, Shrunk, HasChildren, Keeper, Lonely, Leaves, IndexFollows;
  }

  lemma KeptIsStored(w: Sweep)
    ensures SparesKept(w, w.s)
  {
  }

  lemma NothingLeaves(w: Sweep, y: ImageID)
    requires RefsOf(w.s.refs, y) == {}
    ensures Leaves(w, y, {})
  {
    hide Used;
    assert Lonelies({}) == {};
  }

  /** Images that are not looked at have no references, or the prune is a dangling one. */
  lemma NotTopLeaves(w: Sweep, y: ImageID)
    requires ValidRefs(w.s) && y !in TopImages(w.s, w.dangling)
    ensures Leaves(w, y, RefsOf(w.s.refs, y))
  {
    hide Used, HasChildren;
    if !w.dangling {
      NothingLeaves(w, y);
    }
  }

  /** Pruning makes no image loose: an ancestor that lost its last child is gone as well or is still kept
      by something else. A loose target goes. */
  lemma PruneLoosensNothing(s: State, t: Target, x: ImageID)
    requires Inv(s)
    ensures var plan := DeletePlan(s, t, false, true);
            && (Loose(Apply(s, plan), x) ==> Loose(s, x) && !(plan.Plan? && x == plan.id))
            && (t == ByID(x) ==> !Loose(Apply(s, plan), x))
  {
    var plan := DeletePlan(s, t, false, true);
    if t == ByID(x) && Loose(s, x) {
      LooseHasNoConflict(s, x);
    }
    if plan.Plan? {
      if plan.remove == [] {
        ApplyNoRemoval(s, plan.id, plan.untag);
        UntagLoosensNothing(s, t, x);
      } else {
        hide DeletePlan;
        InvParts(s);
        PlanTargetIsFree(s, t, false, true);
        RunLoosensNothing(s, plan.id, x);
      }
    }
  }

  lemma LooseHasNoConflict(s: State, id: ImageID)
    requires Loose(s, id)
    ensures DeletePlan(s, ByID(id), false, true) == Plan(id, {}, Run(s, id, true))
  {
  }

  lemma UntagLoosensNothing(s: State, t: Target, x: ImageID)
    requires DeletePlan(s, t, false, true).Plan? && DeletePlan(s, t, false, true).remove == []
    ensures var plan := DeletePlan(s, t, false, true);
            Loose(s.(refs := s.refs - plan.untag), x) ==> Loose(s, x) && x != plan.id
  {
    var plan := DeletePlan(s, t, false, true);
    var s' := s.(refs := s.refs - plan.untag);
    PlanUntagsOwn(s, t, false, true);
    UntagRemovesImageIff(s, t, false, true);
    hide DeletePlan, UsedRunning, HasChildren;
    if Loose(s', x) {
      if x == plan.id {
        UsedRunningIsUsed(s, x);
      } else {
        assert RefsOf(s.refs, x) == RefsOf(s'.refs, x);
      }
    }
  }

  lemma UsedRunningIsUsed(s: State, x: ImageID)
    ensures UsedRunning(s, x) ==> Used(s, x)
  {
  }

  lemma RunLoosensNothing(s: State, id: ImageID, x: ImageID)
    requires Inv(s) && id in s.images
    ensures Loose(Apply(s, Plan(id, RefsOf(s.refs, id), Run(s, id, true))), x) ==> Loose(s, x) && x != id
  {
    var run := Run(s, id, true);
    var s' := Apply(s, Plan(id, RefsOf(s.refs, id), run));
    if Loose(s', x) {
      assert x !in run && x != id;
      assert RefsOf(s.refs, x) == RefsOf(s'.refs, x);
      var last := run[|run| - 1];
      PruneTailIsLongest(s, id);
      assert last in s.images by {
        if last != id { PruneTailShape(s, id, last); }
      }
    }
  }

  /** One delete of the prune keeps the progress, if it belongs to an open image that is not skipped and
      takes no pinned reference. */
  lemma ProgressStep(w: Sweep, cur: State, todo: set<ImageID>, open: set<ImageID>, t: Target)
    requires Inv(w.s) && Inv(cur) && Progress(w, cur, todo, open)
    requires var plan := DeletePlan(cur, t, false, true);
             plan.Plan? ==>
               && plan.id in open && plan.id !in todo && plan.id !in w.shadowed
               && forall r :: r in plan.untag ==> !Pinned(w, r)
    ensures Progress(w, Apply(cur, DeletePlan(cur, t, false, true)), todo, open)
  {
    hide Inv, DeletePlan, SparesKept, IndexFollows, Leaves, Pinned, Used, Loose, Keeper;
    var plan := DeletePlan(cur, t, false, true);
    var next := Apply(cur, plan);
    PlanUntagsOwn(cur, t, false, true);
    PlanShrinks(cur, plan);
    ShrunkTrans(w.s, cur, next);
    PlanLeavesIndex(cur, t);
    IndexFollowsTrans(w.s, cur, next);
    hide Shrunk;
    assert PinsStand(w, next);
    PruneSparesKept(w, cur, t);
    forall x ensures Loose(next, x) ==> Loose(cur, x) {
      PruneLoosensNothing(cur, t, x);
    }
    forall y | y in todo || y !in open ensures RefsOf(next.refs, y) == RefsOf(cur.refs, y) {}
  }

  /** An image can be closed once it is not loose and has exactly the references that stay. */
  lemma ProgressClose(w: Sweep, cur: State, todo: set<ImageID>, id: ImageID)
    requires Progress(w, cur, todo - {id}, todo)
    requires Loose(cur, id) ==> Keeper(w, id)
    requires Leaves(w, id, RefsOf(cur.refs, id))
    ensures Progress(w, cur, todo - {id}, todo - {id})
  {
    hide Shrunk, PinsStand, Loose, Keeper, Leaves, SparesKept, IndexFollows;
  }

  lemma ProgressOpen(w: Sweep, cur: State, todo: set<ImageID>, id: ImageID)
    requires Progress(w, cur, todo, todo)
    ensures Progress(w, cur, todo - {id}, todo)
  {
    hide Shrunk, PinsStand, Loose, Keeper, Leaves, SparesKept, IndexFollows;
  }

  /** An image the prune passes over. */
  lemma ProgressSkip(w: Sweep, cur: State, todo: set<ImageID>, id: ImageID)
    requires Progress(w, cur, todo, todo) && id in todo && todo <= TopImages(w.s, w.dangling)
    requires id in w.shadowed || (w.dangling && RefsOf(cur.refs, id) != {})
    ensures Progress(w, cur, todo - {id}, todo - {id})
  {
    ProgressOpen(w, cur, todo, id);
    SkippedIsKept(w, cur, id);
    ProgressClose(w, cur, todo, id);
  }

  lemma SkippedIsKept(w: Sweep, cur: State, id: ImageID)
    requires RefsOf(cur.refs, id) == RefsOf(w.s.refs, id) && id in TopImages(w.s, w.dangling)
    requires id in w.shadowed || (w.dangling && RefsOf(cur.refs, id) != {})
    ensures Loose(cur, id) ==> Keeper(w, id)
    ensures Leaves(w, id, RefsOf(cur.refs, id))
  {
  }

  /** What a prune leaves, once no image is open. */
  lemma ProgressAtEnd(w: Sweep, cur: State)
    requires Inv(w.s) && Inv(cur) && Progress(w, cur, {}, {})
    ensures forall x :: x in w.s.images ==> (x in cur.images <==> KeptBelow(w, x))
  {
    forall z | z in cur.images && RefsOf(cur.refs, z) != {} ensures Keeper(w, z) {
      LeftIsKeeper(w, cur, z);
    }
    hide Inv, Keeper, KeptBelow, Loose, Leaves, IndexFollows;
    forall x | x in cur.images ensures KeptBelow(w, x) {
      SurvivorIsKept(w, cur, x);
    }
  }

  lemma LeftIsKeeper(w: Sweep, cur: State, z: ImageID)
    requires Shrunk(w.s, cur) && z in cur.images && RefsOf(cur.refs, z) != {} && Leaves(w, z, RefsOf(cur.refs, z))
    ensures Keeper(w, z)
  {
    hide Used;
    if !Used(w.s, z) {
      var r :| r in RefsOf(cur.refs, z);
      assert r in RefsOf(w.s.refs, z) && Pinned(w, r);
    }
  }

  // ---------------------------------------------------------------- the prune itself

  /** One delete of the prune, and its part of the report. */
  method PruneOne(d: Daemon, ghost s: State, ghost ts: seq<Target>, t: Target, deleted: seq<Record>) returns (out: seq<Record>)
    requires Inv(d.View()) && d.View() == Deletes(s, ts) && Shrunk(s, d.View()) && Enumerates(deleted, Gone(s, d.View()))
    modifies d
    ensures Inv(d.View()) && d.View() == Deletes(s, ts + [t]) && Enumerates(out, Gone(s, d.View()))
    ensures d.View() == Apply(old(d.View()), DeletePlan(old(d.View()), t, false, true))
  {
    hide Inv, DeletePlan, Deletes, Enumerates, Gone, Shrunk;
    ghost var cur := d.View();
    ghost var plan := DeletePlan(cur, t, false, true);
    DeletesOneMore(s, ts, t);
    var r, rs := ImageDelete(d, t, false, true);
    if r.Err? {
      return deleted;
    }
    PlanRecords(cur, t, rs);
    PlanShrinks(cur, plan);
    GoneAddsUp(s, cur, d.View());
    EnumerateBoth(deleted, r.value, Gone(s, cur), Gone(cur, d.View()));
    return deleted + r.value;
  }

  /** The last tag of an image stays if the image is used and has no lonely digest. */
  predicate LastStays(s: State, id: ImageID) {
    Used(s, id) && Lonelies(RefsOf(s.refs, id)) == {}
  }

  function TagsFrom(refs: seq<Ref>, i: nat): set<Ref>
    requires i <= |refs|
  {
    set r | r in refs[i..] && r.Tag?
  }

  /** Of an image's references, those tags, and the digests that are lonely or of one of those tags' repositories. */
  ghost function WithTags(all: set<Ref>, tags: set<Ref>): set<Ref> {
    set r | r in all && if r.Tag? then r in tags else LonelyIn(all, r) || exists t :: t in tags && t.repo == r.repo
  }

  /** The references left when the first i have been worked through. */
  ghost function Rest(refs: seq<Ref>, all: set<Ref>, i: nat): set<Ref>
    requires i <= |refs|
  {
    WithTags(all, TagsFrom(refs, i))
  }

  /** The position of the last tag. */
  predicate LastTagAt(refs: seq<Ref>, m: nat) {
    m < |refs| && refs[m].Tag? && forall j :: m < j < |refs| ==> refs[j].Digest?
  }

  /** What is left of the references of an image that the prune is deleting by its references. */
  ghost predicate Swept(s: State, left: set<Ref>, id: ImageID, refs: seq<Ref>, i: nat)
    requires i <= |refs|
  {
    var all := RefsOf(s.refs, id);
    if |refs| == 1 then left == if i == 0 || Used(s, id) then all else {}
    else if LastStays(s, id) then exists m: nat :: LastTagAt(refs, m) && left == Rest(refs, all, Min(i, m))
    else left == Rest(refs, all, i)
  }

  lemma {:induction false} SomeLastTag(refs: seq<Ref>, n: nat) returns (m: nat)
    requires n <= |refs| && (exists j :: 0 <= j < n && refs[j].Tag?) && forall j :: n <= j < |refs| ==> refs[j].Digest?
    ensures LastTagAt(refs, m)
  {
    if refs[n - 1].Tag? {
      m := n - 1;
    } else {
      m := SomeLastTag(refs, n - 1);
    }
  }

  lemma RestOfAll(refs: seq<Ref>, all: set<Ref>)
    requires Enumerates(refs, all) && |refs| > 1
    ensures Rest(refs, all, 0) == all
    ensures Lonelies(all) == {} ==> exists j :: 0 <= j < |refs| && refs[j].Tag?
  {
    assert refs[0..] == refs && refs[0] in all && refs[1] in all;
    forall r | r in all && r.Digest? && !LonelyIn(all, r) ensures exists t :: t in TagsFrom(refs, 0) && t.repo == r.repo {
      var t :| t in all && t.Tag? && t.repo == r.repo;
      assert t in TagsFrom(refs, 0);
    }
    assert Rest(refs, all, 0) <= all;
    if Lonelies(all) == {} {
      assert refs[0] !in Lonelies(all);
      if refs[0].Digest? {
        var t :| t in all && t.Tag? && t.repo == refs[0].repo;
        assert t in refs;
      }
    }
  }

  lemma SweptAtStart(s: State, id: ImageID, refs: seq<Ref>)
    requires Enumerates(refs, RefsOf(s.refs, id)) && refs != []
    ensures Swept(s, RefsOf(s.refs, id), id, refs, 0)
  {
    hide Used;
    if |refs| > 1 {
      RestOfAll(refs, RefsOf(s.refs, id));
      if LastStays(s, id) {
        var m := SomeLastTag(refs, |refs|);
        assert Min(0, m) == 0;
      }
    }
  }

  /** A digest is passed over: no tag has been worked through with it. */
  lemma RestSkipsDigest(refs: seq<Ref>, all: set<Ref>, i: nat)
    requires i < |refs| && refs[i].Digest?
    ensures Rest(refs, all, i + 1) == Rest(refs, all, i)
  {
    assert refs[i..] == [refs[i]] + refs[i + 1..];
    assert TagsFrom(refs, i + 1) == TagsFrom(refs, i);
  }

  lemma SweptDigest(s: State, left: set<Ref>, id: ImageID, refs: seq<Ref>, i: nat)
    requires i < |refs| && refs[i].Digest? && |refs| > 1 && Swept(s, left, id, refs, i)
    ensures Swept(s, left, id, refs, i + 1)
  {
    hide LastStays, Used;
    RestSkipsDigest(refs, RefsOf(s.refs, id), i);
    hide Rest;
    if LastStays(s, id) {
      var m: nat :| LastTagAt(refs, m) && left == Rest(refs, RefsOf(s.refs, id), Min(i, m));
      assert i != m;
    }
  }

  lemma NextTag(refs: seq<Ref>, all: set<Ref>, i: nat)
    requires Enumerates(refs, all) && i < |refs| && refs[i].Tag?
    ensures var tags := TagsFrom(refs, i);
            && tags <= all && refs[i] in tags && TagsFrom(refs, i + 1) == tags - {refs[i]}
            && (forall t :: t in tags ==> t.Tag?)
            && (LastTagAt(refs, i) <==> tags == {refs[i]})
  {
    assert refs[i..] == [refs[i]] + refs[i + 1..];
    assert refs[i] !in refs[i + 1..];
    if j :| i < j < |refs| && refs[j].Tag? {
      assert refs[j] == refs[i..][j - i] && refs[j] in TagsFrom(refs, i) && refs[j] != refs[i];
    }
    if LastTagAt(refs, i) {
      forall t | t in TagsFrom(refs, i) ensures t == refs[i] {
        var j :| i <= j < |refs| && refs[j] == t;
      }
    }
  }

  /** Untagging one of those tags. */
  lemma WithTagsUntagged(all: set<Ref>, tags: set<Ref>, ref: Ref)
    requires tags <= all && ref in tags && forall t :: t in tags ==> t.Tag?
    ensures var left := WithTags(all, tags);
            ref in left && left - Untagged(left, ref) == WithTags(all, tags - {ref})
  {
    var left := WithTags(all, tags);
    assert forall u :: u in left && u.Tag? <==> u in tags;
    forall r ensures r in left - Untagged(left, ref) <==> r in WithTags(all, tags - {ref}) {
      if r.Tag? { TagStays(all, tags, ref, r); } else { DigestStays(all, tags, ref, r); }
    }
  }

  lemma TagStays(all: set<Ref>, tags: set<Ref>, ref: Ref, r: Ref)
    requires r.Tag?
    ensures r in WithTags(all, tags) - Untagged(WithTags(all, tags), ref) <==> r in WithTags(all, tags - {ref})
  {
  }

  lemma DigestStays(all: set<Ref>, tags: set<Ref>, ref: Ref, r: Ref)
    requires r.Digest? && tags <= all && ref in tags && forall t :: t in tags ==> t.Tag?
    requires forall u :: u in WithTags(all, tags) && u.Tag? <==> u in tags
    ensures r in WithTags(all, tags) - Untagged(WithTags(all, tags), ref) <==> r in WithTags(all, tags - {ref})
  {
    var left := WithTags(all, tags);
    hide LonelyIn;
    if LonelyIn(all, r) { LonelyElsewhere(all, r, ref); }
    if t :| t in tags && t != ref && t.repo == ref.repo {
      assert t in left && t in tags - {ref};
    }
    if u :| u in left && u != ref && u.Tag? && u.repo == ref.repo {
      assert u in tags - {ref};
    }
    if t :| t in tags && t.repo == r.repo && t != ref {
      assert t in tags - {ref};
    }
  }

  lemma LonelyElsewhere(all: set<Ref>, l: Ref, t: Ref)
    requires LonelyIn(all, l) && t in all && t.Tag?
    ensures l.repo != t.repo
  {
  }

  /** When the delete by a tag is refused for a used image: it is the only tag left, and no digest is lonely. */
  lemma WithTagsSingleIff(all: set<Ref>, tags: set<Ref>, ref: Ref)
    requires tags <= all && ref in tags && forall t :: t in tags ==> t.Tag?
    ensures SingleReference(WithTags(all, tags)) <==> Lonelies(all) == {} && tags == {ref}
  {
    var left := WithTags(all, tags);
    assert ref in left;
    if l :| l in Lonelies(all) {
      assert l in left && l.repo != ref.repo;
    }
    if t :| t in tags && t != ref {
      assert t in left;
    }
    if Lonelies(all) == {} && tags == {ref} {
      forall r | r in left ensures r.repo == ref.repo && (r.Tag? ==> r == ref) {
        assert r !in Lonelies(all);
      }
    }
  }

  lemma SweptOneMore(s: State, cur: State, id: ImageID, refs: seq<Ref>, i: nat)
    requires Shrunk(s, cur) && Enumerates(refs, RefsOf(s.refs, id)) && i < |refs|
    requires Swept(s, RefsOf(cur.refs, id), id, refs, i)
    requires refs[i].Tag? || |refs| == 1
    ensures var next := Apply(cur, DeletePlan(cur, ByRef(refs[i], None, false), false, true));
            Swept(s, RefsOf(next.refs, id), id, refs, i + 1)
  {
    var ref, left := refs[i], RefsOf(cur.refs, id);
    var next := Apply(cur, DeletePlan(cur, ByRef(ref, None, false), false, true));
    DeleteByRefLeaves(s, cur, id, ref);
    hide DeletePlan, Apply, Shrunk, SingleReference, Used, Untagged, Swept;
    if |refs| == 1 {
      SweptSingle(s, left, RefsOf(next.refs, id), id, refs);
    } else {
      SweptTag(s, left, RefsOf(next.refs, id), id, refs, i);
    }
  }

  /** What a delete by `ref` leaves of an image's references. */
  ghost predicate LeftAfter(s: State, left: set<Ref>, next: set<Ref>, id: ImageID, ref: Ref) {
    next == if ref !in left || (SingleReference(left) && Used(s, id)) then left else left - Untagged(left, ref)
  }

  lemma SweptSingle(s: State, left: set<Ref>, next: set<Ref>, id: ImageID, refs: seq<Ref>)
    requires Enumerates(refs, RefsOf(s.refs, id)) && |refs| == 1
    requires Swept(s, left, id, refs, 0) && LeftAfter(s, left, next, id, refs[0])
    ensures Swept(s, next, id, refs, 1)
  {
    SingleEnumerated(refs, RefsOf(s.refs, id), refs[0]);
    hide SingleReference, Used, Untagged, RefsOf, Enumerates;
  }

  lemma SweptTag(s: State, left: set<Ref>, next: set<Ref>, id: ImageID, refs: seq<Ref>, i: nat)
    requires Enumerates(refs, RefsOf(s.refs, id)) && |refs| > 1 && i < |refs| && refs[i].Tag?
    requires Swept(s, left, id, refs, i) && LeftAfter(s, left, next, id, refs[i])
    ensures Swept(s, next, id, refs, i + 1)
  {
    hide SingleReference, Used, Untagged, RefsOf, Lonelies, Enumerates, TagsFrom, WithTags;
    var all, ref := RefsOf(s.refs, id), refs[i];
    NextTag(refs, all, i);
    WithTagsUntagged(all, TagsFrom(refs, i), ref);
    WithTagsSingleIff(all, TagsFrom(refs, i), ref);
    if LastStays(s, id) {
      var m: nat :| LastTagAt(refs, m) && left == Rest(refs, all, Min(i, m));
      assert i <= m;
      assert LastTagAt(refs, i) <==> i == m;
      assert next == Rest(refs, all, Min(i + 1, m));
    } else {
      assert next == Rest(refs, all, i + 1);
    }
  }

  lemma SingleEnumerated(refs: seq<Ref>, all: set<Ref>, ref: Ref)
    requires Enumerates(refs, all) && |refs| == 1 && ref in refs
    ensures all == {ref} && SingleReference(all) && all - Untagged(all, ref) == {}
  {
  }

  /** What an unforced delete by a reference leaves of the references of its image. */
  lemma DeleteByRefLeaves(s: State, cur: State, id: ImageID, ref: Ref)
    requires Shrunk(s, cur) && ref in RefsOf(s.refs, id)
    ensures var left := RefsOf(cur.refs, id);
            var next := Apply(cur, DeletePlan(cur, ByRef(ref, None, false), false, true));
            LeftAfter(s, left, RefsOf(next.refs, id), id, ref)
  {
    hide Conflict, Run, SingleReference, Untagged, ChildrenWithout;
    var left := RefsOf(cur.refs, id);
    assert Used(cur, id) <==> Used(s, id);
    var plan := DeletePlan(cur, ByRef(ref, None, false), false, true);
    if plan.Plan? {
      assert plan.id == id && plan.untag == Untagged(left, ref);
    }
  }

  /** A delete by one of these references takes no pinned one. */
  lemma UntagsNoPinned(w: Sweep, cur: State, id: ImageID, refs: seq<Ref>, ref: Ref)
    requires Shrunk(w.s, cur) && Enumerates(refs, RefsOf(w.s.refs, id)) && ref in refs
    requires !w.dangling && id !in w.shadowed && (ref.Tag? || |refs| == 1)
    ensures var plan := DeletePlan(cur, ByRef(ref, None, false), false, true);
            plan.Plan? ==> plan.id == id && forall r :: r in plan.untag ==> !Pinned(w, r)
  {
    var plan := DeletePlan(cur, ByRef(ref, None, false), false, true);
    PlanUntagsOwn(cur, ByRef(ref, None, false), false, true);
    hide DeletePlan;
    if plan.Plan? {
      assert ref in RefsOf(w.s.refs, id) && cur.refs[ref] == id;
      forall r | r in plan.untag ensures !Lonely(w.s, r) && w.s.refs[r] == id {
        if r == ref && ref.Digest? {
          SingleEnumerated(refs, RefsOf(w.s.refs, id), ref);
        }
      }
    }
  }

  lemma RestOfLast(refs: seq<Ref>, all: set<Ref>, m: nat)
    requires Enumerates(refs, all) && InOrder(refs) && Lonelies(all) == {} && LastTagAt(refs, m)
    ensures Rest(refs, all, m) == {refs[m]} + RepoDigests(all, refs[m].repo)
    ensures refs[m] in all && forall u :: u in all && u.Tag? ==> !Before(refs[m], u)
  {
    hide Before;
    NextTag(refs, all, m);
    forall r | r in all ensures !LonelyIn(all, r) { assert r !in Lonelies(all); }
    forall u | u in all && u.Tag? ensures !Before(refs[m], u) {
      var j :| 0 <= j < |refs| && refs[j] == u;
      if j == m { NotBeforeItself(u); }
    }
  }

  lemma NotBeforeItself(u: Ref)
    ensures !Before(u, u)
  {
    BeforeIsStrict(u, u);
  }

  /** When all have been worked through, exactly the references that stay are left. */
  lemma SweptAtEnd(w: Sweep, left: set<Ref>, id: ImageID, refs: seq<Ref>)
    requires Enumerates(refs, RefsOf(w.s.refs, id)) && InOrder(refs) && refs != [] && !w.dangling && id !in w.shadowed
    requires Swept(w.s, left, id, refs, |refs|)
    ensures Leaves(w, id, left)
  {
    hide Used;
    var all := RefsOf(w.s.refs, id);
    if |refs| == 1 {
      hide InOrder;
      SingleEnumerated(refs, all, refs[0]);
      assert Lonelies(all) == {};
      if refs[0].Tag? {
        NotBeforeItself(refs[0]);
        assert all == {refs[0]} + RepoDigests(all, refs[0].repo);
      }
    } else {
      hide Enumerates, InOrder, RefsOf;
      if LastStays(w.s, id) {
        var m: nat :| LastTagAt(refs, m) && left == Rest(refs, all, Min(|refs|, m));
        RestOfLast(refs, all, m);
        hide Rest;
        assert refs[m] in all && refs[m].Tag?;
      } else {
        RestOfNothing(refs, all);
        if Used(w.s, id) { assert Lonelies(all) != {}; }
      }
    }
  }

  lemma RestOfNothing(refs: seq<Ref>, all: set<Ref>)
    ensures Rest(refs, all, |refs|) == Lonelies(all)
  {
    assert TagsFrom(refs, |refs|) == {};
  }

  /** Deleting a referenced image by each of its references; digests only go on their own. */
  method PruneReferences(d: Daemon, ghost w: Sweep, ghost todo: set<ImageID>, id: ImageID, refs: seq<Ref>,
                         ghost ts: seq<Target>, deleted: seq<Record>)
    returns (out: seq<Record>, ghost ts': seq<Target>)
    requires Inv(w.s) && Inv(d.View()) && d.View() == Deletes(w.s, ts)
    requires Enumerates(deleted, Gone(w.s, d.View()))
    requires !w.dangling && id in todo && id !in w.shadowed && Progress(w, d.View(), todo - {id}, todo)
    requires Enumerates(refs, RefsOf(w.s.refs, id)) && InOrder(refs) && refs != []
    requires RefsOf(d.refs, id) == RefsOf(w.s.refs, id)
    modifies d
    ensures Inv(d.View()) && d.View() == Deletes(w.s, ts') && Enumerates(out, Gone(w.s, d.View()))
    ensures Progress(w, d.View(), todo - {id}, todo - {id})
  {
    hide Inv, DeletePlan, Deletes, Progress, Enumerates, InOrder, Gone, Swept, Loose, Apply;
    out, ts' := deleted, ts;
    StartVisit(w, d.View(), todo, id, refs);
    for i := 0 to |refs|
      invariant Inv(d.View()) && d.View() == Deletes(w.s, ts') && Enumerates(out, Gone(w.s, d.View()))
      invariant Visit(w, d.View(), todo, id, refs, i)
    {
      if refs[i].Digest? && |refs| > 1 {
        VisitDigest(w, d.View(), todo, id, refs, i);
        continue;
      }
      var t := ByRef(refs[i], None, false);
      VisitOneMore(w, d.View(), todo, id, refs, i);
      out := PruneOne(d, w.s, ts', t, out);
      ts' := ts' + [t];
    }
    EndVisit(w, d.View(), todo, id, refs);
  }

  /** In the middle of PruneReferences. */
  ghost predicate Visit(w: Sweep, cur: State, todo: set<ImageID>, id: ImageID, refs: seq<Ref>, i: nat)
    requires i <= |refs|
  {
    && Shrunk(w.s, cur) && Progress(w, cur, todo - {id}, todo) && !Loose(cur, id)
    && Swept(w.s, RefsOf(cur.refs, id), id, refs, i)
  }

  lemma StartVisit(w: Sweep, cur: State, todo: set<ImageID>, id: ImageID, refs: seq<Ref>)
    requires Progress(w, cur, todo - {id}, todo) && refs != []
    requires Enumerates(refs, RefsOf(w.s.refs, id)) && RefsOf(cur.refs, id) == RefsOf(w.s.refs, id)
    ensures Visit(w, cur, todo, id, refs, 0)
  {
    hide Shrunk, PinsStand, SparesKept, Keeper, IndexFollows, Leaves, Used, Swept;
    SweptAtStart(w.s, id, refs);
    assert refs[0] in RefsOf(cur.refs, id);
  }

  lemma VisitDigest(w: Sweep, cur: State, todo: set<ImageID>, id: ImageID, refs: seq<Ref>, i: nat)
    requires i < |refs| && refs[i].Digest? && |refs| > 1 && Visit(w, cur, todo, id, refs, i)
    ensures Visit(w, cur, todo, id, refs, i + 1)
  {
    hide Shrunk, Progress, Loose, Swept;
    SweptDigest(w.s, RefsOf(cur.refs, id), id, refs, i);
  }

  lemma VisitOneMore(w: Sweep, cur: State, todo: set<ImageID>, id: ImageID, refs: seq<Ref>, i: nat)
    requires Inv(w.s) && Inv(cur) && i < |refs| && (refs[i].Tag? || |refs| == 1) && Visit(w, cur, todo, id, refs, i)
    requires !w.dangling && id in todo && id !in w.shadowed && Enumerates(refs, RefsOf(w.s.refs, id))
    ensures Visit(w, Apply(cur, DeletePlan(cur, ByRef(refs[i], None, false), false, true)), todo, id, refs, i + 1)
  {
    hide Inv, DeletePlan, Progress, Loose, Used, Swept, Enumerates, Apply, Shrunk, Pinned;
    var t := ByRef(refs[i], None, false);
    UntagsNoPinned(w, cur, id, refs, refs[i]);
    ProgressStep(w, cur, todo - {id}, todo, t);
    PruneLoosensNothing(cur, t, id);
    PlanShrinks(cur, DeletePlan(cur, t, false, true));
    ShrunkTrans(w.s, cur, Apply(cur, DeletePlan(cur, t, false, true)));
    SweptOneMore(w.s, cur, id, refs, i);
  }

  lemma EndVisit(w: Sweep, cur: State, todo: set<ImageID>, id: ImageID, refs: seq<Ref>)
    requires Visit(w, cur, todo, id, refs, |refs|) && Enumerates(refs, RefsOf(w.s.refs, id)) && InOrder(refs)
    requires refs != [] && !w.dangling && id !in w.shadowed
    ensures Progress(w, cur, todo - {id}, todo - {id})
  {
    hide Progress, Loose, Swept, Enumerates, InOrder, Leaves;
    SweptAtEnd(w, RefsOf(cur.refs, id), id, refs);
    ProgressClose(w, cur, todo, id);
  }

  /** Deleting an unreferenced image by its ID. */
  lemma VisitUnreferenced(w: Sweep, cur: State, todo: set<ImageID>, id: ImageID)
    requires Inv(w.s) && Inv(cur) && Progress(w, cur, todo, todo) && id in todo && id !in w.shadowed
    requires RefsOf(cur.refs, id) == {} && RefsOf(w.s.refs, id) == {}
    ensures Progress(w, Apply(cur, DeletePlan(cur, ByID(id), false, true)), todo - {id}, todo - {id})
  {
    hide Inv, DeletePlan, Progress, Loose, Pinned, Keeper, Leaves;
    var plan := DeletePlan(cur, ByID(id), false, true);
    PlanUntagsOwn(cur, ByID(id), false, true);
    ProgressOpen(w, cur, todo, id);
    ProgressStep(w, cur, todo - {id}, todo, ByID(id));
    PruneLoosensNothing(cur, ByID(id), id);
    assert RefsOf(Apply(cur, plan).refs, id) == {};
    NothingLeaves(w, id);
    ProgressClose(w, Apply(cur, plan), todo, id);
  }

  /** ImagesPrune. The report lists exactly the references and images that have gone, each once; which
      references each image keeps, `Leaves` says; and an image survives exactly when something is kept
      below it: itself or a descendant is used, a skipped head, pinned by a reference, or stuck under a
      stale index entry. */
  method ImagesPrune(d: Daemon, danglingOnly: bool, shadowed: set<ImageID>)
    returns (deleted: seq<Record>, ghost ts: seq<Target>)
    requires Inv(d.View())
    modifies d
    ensures Inv(d.View())
    ensures d.View() == Deletes(old(d.View()), ts)
    ensures d.images <= old(d.images) && d.containers == old(d.containers)
    ensures forall x :: x in old(d.images) && x !in d.images ==> !Used(old(d.View()), x)
    ensures Enumerates(deleted, Gone(old(d.View()), d.View()))
    ensures forall r :: r in d.refs ==> r in old(d.refs) && d.refs[r] == old(d.refs)[r]
    ensures var w := Sweep(old(d.View()), danglingOnly, shadowed);
            && (forall x :: Leaves(w, x, RefsOf(d.refs, x)))
            && (forall x :: x in old(d.images) ==> (x in d.images <==> KeptBelow(w, x)))
  {
    hide Inv, DeletePlan, Apply, Deletes, Progress, Enumerates, InOrder, Gone, Leaves, Used, KeptBelow, Shrunk;
    ghost var s := d.View();
    ghost var w := Sweep(s, danglingOnly, shadowed);
    var todo := TopImages(d.View(), danglingOnly);
    deleted, ts := [], [];
    ProgressAtStart(w);
    NothingGone(s);
    while todo != {}
      invariant todo <= TopImages(s, danglingOnly)
      invariant Inv(d.View()) && d.View() == Deletes(s, ts) && Enumerates(deleted, Gone(s, d.View()))
      invariant Progress(w, d.View(), todo, todo)
      decreases todo
    {
      var id :| id in todo;
      ghost var before, cur := todo, d.View();
      ProgressParts(w, cur, before);
      todo := todo - {id};
      if id in shadowed {
        ProgressSkip(w, cur, before, id);
        continue;
      }
      var refs := d.References(id);
      SomeReferences(refs, RefsOf(d.refs, id));
      if |refs| > 0 {
        if danglingOnly {
          ProgressSkip(w, cur, before, id);
          continue;
        }
        ProgressOpen(w, cur, before, id);
        deleted, ts := PruneReferences(d, w, before, id, refs, ts, deleted);
      } else {
        VisitUnreferenced(w, cur, before, id);
        deleted := PruneOne(d, s, ts, ByID(id), deleted);
        ts := ts + [ByID(id)];
      }
    }
    DeletesSpareUsedImages(s, ts);
    ProgressAtEnd(w, d.View());
    ProgressParts(w, d.View(), {});
  }

  lemma NothingGone(s: State)
    ensures Enumerates([], Gone(s, s)) && s == Deletes(s, [])
  {
  }

  lemma SomeReferences(refs: seq<Ref>, all: set<Ref>)
    requires Enumerates(refs, all)
    ensures |refs| > 0 <==> all != {}
  {
  }

  lemma ProgressParts(w: Sweep, cur: State, todo: set<ImageID>)
    requires Progress(w, cur, todo, todo)
    ensures Shrunk(w.s, cur)
    ensures forall r :: r in cur.refs ==> r in w.s.refs && cur.refs[r] == w.s.refs[r]
    ensures forall y :: y in todo ==> RefsOf(cur.refs, y) == RefsOf(w.s.refs, y)
    ensures forall y :: y !in todo ==> Leaves(w, y, RefsOf(cur.refs, y))
  {
    hide SparesKept, IndexFollows, Loose, Keeper, Leaves;
  }
}

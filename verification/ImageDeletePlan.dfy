/** What deleting an image may remove (daemon/image_delete.go): conflicts, references, the upward
    prune, and the plan these add up to, all judged in the state before anything changes. */
module ImageDeletePlan {
  import opened Wrappers
  import opened ImageModel
  import opened ImageStore

  // ---------------------------------------------------------------- conflicts

  datatype ConflictKind = DependentChild | RunningContainer | ActiveReference | StoppedContainer

  const HARD := {DependentChild, RunningContainer}
  const SOFT := {ActiveReference, StoppedContainer}

  function FullMask(force: bool): set<ConflictKind> {
    if force then HARD else HARD + SOFT
  }

  /** Conflicts that arise because a container uses the image. */
  predicate MarkedUsed(k: ConflictKind) {
    k.RunningContainer? || k.StoppedContainer?
  }

  predicate HasChildren(s: State, id: ImageID) {
    id in s.children && s.children[id] != {}
  }

  /** checkImageDeleteConflict: the first conflict in the mask, in the daemon's order. */
  function Conflict(s: State, id: ImageID, mask: set<ConflictKind>): Option<ConflictKind> {
    if DependentChild in mask && HasChildren(s, id) then Some(DependentChild)
    else if RunningContainer in mask && UsedRunning(s, id) then Some(RunningContainer)
    else if ActiveReference in mask && RefsOf(s.refs, id) != {} then Some(ActiveReference)
    else if StoppedContainer in mask && (exists c :: c in s.containers && UsedBy(s.containers[c], id) && !s.containers[c].running)
    then Some(StoppedContainer)
    else None
  }

  predicate Dangling(s: State, id: ImageID) {
    !(RefsOf(s.refs, id) != {} || HasChildren(s, id))
  }

  /** A quiet delete never reports: each conflict is marked used or rules out a dangling image, so
      the daemon's exception for dangling images is never taken. */
  lemma QuietDeleteNeverReports(s: State, id: ImageID, mask: set<ConflictKind>)
    ensures Conflict(s, id, mask).Some? ==> !Dangling(s, id) || MarkedUsed(Conflict(s, id, mask).value)
  {
  }

  // ---------------------------------------------------------------- references

  /** All references come from one repository and at most one is a tag. */
  predicate SingleReference(refs: set<Ref>) {
    && refs != {}
    && (forall a, b :: a in refs && b in refs ==> a.repo == b.repo)
    && (forall a, b :: a in refs && b in refs && a.Tag? && b.Tag? ==> a == b)
  }

  /** What untagging `ref` removes: the reference, and when it was its repository's last tag, that
      repository's digests as well. */
  function Untagged(refs: set<Ref>, ref: Ref): set<Ref> {
    {ref} +
    if ref.Tag? && !(exists r :: r in refs && r != ref && r.Tag? && r.repo == ref.repo)
    then set r | r in refs && r.Digest? && r.repo == ref.repo
    else {}
  }

  /** Removing a tag leaves nothing exactly when the references are a single one in the daemon's
      sense; removing a digest leaves nothing exactly when it was the only reference. */
  lemma UntagLeavesNothingIff(refs: set<Ref>, ref: Ref)
    requires ref in refs
    ensures refs - Untagged(refs, ref) == {} <==> if ref.Tag? then SingleReference(refs) else refs == {ref}
    ensures !SingleReference(refs) ==> refs - Untagged(refs, ref) != {}
  {
    var left := refs - Untagged(refs, ref);
    if ref.Tag? {
      if SingleReference(refs) {
        forall r | r in refs ensures r in Untagged(refs, ref) {}
      } else {
        assert exists r :: r in refs && (r.repo != ref.repo || (r.Tag? && r != ref));
        var r :| r in refs && (r.repo != ref.repo || (r.Tag? && r != ref));
        assert r in left;
      }
    } else {
      assert Untagged(refs, ref) == {ref};
      if refs == {ref} { assert SingleReference(refs); }
    }
  }

  // ---------------------------------------------------------------- the upward prune

  /** Nothing but `child` keeps `p`: no other child, no reference, no container. */
  predicate Prunable(s: State, p: ImageID, child: ImageID) {
    && p in s.children && s.children[p] - {child} == {}
    && RefsOf(s.refs, p) == {}
    && !Used(s, p)
  }

  /** The longest run of consecutive ancestors of `x` that are each prunable in `s`. */
  function PruneTail(s: State, x: ImageID): (run: seq<ImageID>)
    decreases |x.image.history|
  {
    if x in s.parents && |s.parents[x].image.history| < |x.image.history| && Prunable(s, s.parents[x], x)
    then [s.parents[x]] + PruneTail(s, s.parents[x])
    else []
  }

  function Run(s: State, id: ImageID, prune: bool): seq<ImageID> {
    [id] + if prune then PruneTail(s, id) else []
  }

  /** The run follows parent edges, every image above the target is prunable, and it stops only at a
      root or at an ancestor that something else keeps. */
  lemma {:induction false} PruneTailIsLongest(s: State, x: ImageID)
    requires Inv(s) && x in s.images
    ensures var run := [x] + PruneTail(s, x);
            && (forall i :: 0 <= i < |run| - 1 ==>
                  && run[i] in s.parents && s.parents[run[i]] == run[i + 1]
                  && Prunable(s, run[i + 1], run[i]))
            && (run[|run| - 1] in s.parents ==> !Prunable(s, s.parents[run[|run| - 1]], run[|run| - 1]))
    decreases |x.image.history|
  {
    hide Prunable, Admissible;
    if PruneTail(s, x) != [] {
      var p := s.parents[x];
      PruneTailIsLongest(s, p);
      var run, up := [x] + PruneTail(s, x), [p] + PruneTail(s, p);
      assert run == [x] + up;
      forall i | 0 <= i < |run| - 1
        ensures run[i] in s.parents && s.parents[run[i]] == run[i + 1] && Prunable(s, run[i + 1], run[i])
      {
        if i > 0 {
          assert run[i] == up[i - 1] && run[i + 1] == up[i];
        }
      }
    } else if x in s.parents {
      assert x in s.children[s.parents[x]];
    }
  }

  /** Every image of the run above the target is stored and has a shorter history. */
  lemma {:induction false} PruneTailShape(s: State, x: ImageID, y: ImageID)
    requires Inv(s) && y in PruneTail(s, x)
    ensures y in s.images && |y.image.history| < |x.image.history|
    ensures RefsOf(s.refs, y) == {} && !Used(s, y)
    decreases |x.image.history|
  {
    if y != s.parents[x] {
      PruneTailShape(s, s.parents[x], y);
    }
  }

  // ---------------------------------------------------------------- plans

  datatype DeleteError = NoSuchImage | InConflict(kind: ConflictKind) | ReferenceInUse | NoSuchReference

  datatype Plan =
    | Refused(error: DeleteError)
    | Plan(id: ImageID, untag: set<Ref>, remove: seq<ImageID>)

  /** How the caller names the image (daemon/image.go, GetImageID): by ID or a prefix of it, or by a
      reference. A reference that is not stored may still resolve through the legacy repo:shortid form,
      and a stored one may happen to spell a prefix of its image's ID. */
  datatype Target =
    | ByID(id: ImageID)
    | ByRef(ref: Ref, shortID: Option<ImageID>, spellsPrefix: bool)

  function Resolve(s: State, t: Target): Option<ImageID> {
    match t
    case ByID(id) => if id in s.images then Some(id) else None
    case ByRef(ref, shortID, _) =>
      if ref in s.refs then Some(s.refs[ref])
      else if shortID.Some? && shortID.value in s.images && (exists r :: r in RefsOf(s.refs, shortID.value) && r.repo == ref.repo)
      then shortID
      else None
  }

  /** What a name means: an ID, the image it is stored for, or, for a reference that is not stored, the image with
      that short ID if it has a reference of the same repository. */
  lemma ResolvesIff(s: State, t: Target, id: ImageID)
    requires ValidRefs(s)
    ensures Resolve(s, t) == Some(id) <==>
            && id in s.images
            && (t.ByID? ==> t.id == id)
            && (t.ByRef? ==> if t.ref in s.refs then t.ref in RefsOf(s.refs, id)
                             else t.shortID == Some(id) && exists r :: r in s.refs && s.refs[r] == id && r.repo == t.ref.repo)
  {
    if t.ByRef? && t.ref !in s.refs && t.shortID == Some(id) {
      if r :| r in s.refs && s.refs[r] == id && r.repo == t.ref.repo { assert r in RefsOf(s.refs, id); }
    }
  }

  function PlanByID(s: State, id: ImageID, force: bool, prune: bool): Plan {
    var refs := RefsOf(s.refs, id);
    var mask := if SingleReference(refs) then FullMask(force) - {ActiveReference} else FullMask(force);
    match Conflict(s, id, mask)
    case Some(kind) => Refused(InConflict(kind))
    case None => Plan(id, refs, Run(s, id, prune))
  }

  function PlanByRef(s: State, id: ImageID, ref: Ref, force: bool, prune: bool): Plan {
    var refs := RefsOf(s.refs, id);
    if !force && SingleReference(refs) && Used(s, id) then Refused(ReferenceInUse)
    else if ref !in s.refs then Refused(NoSuchReference)
    else
      var untag := Untagged(refs, ref);
      Plan(id, untag,
           if refs - untag == {} && Conflict(s, id, FullMask(force) - {ActiveReference}).None?
           then Run(s, id, prune) else [])
  }

  function DeletePlan(s: State, t: Target, force: bool, prune: bool): Plan {
    match Resolve(s, t)
    case None => Refused(NoSuchImage)
    case Some(id) =>
      if t.ByRef? && !t.spellsPrefix then PlanByRef(s, id, t.ref, force, prune)
      else PlanByID(s, id, force, prune)
  }

  function ToSet<T>(xs: seq<T>): set<T> {
    set x | x in xs
  }

  /** The child index once the images of a run are gone: only the last one's parent loses a child. */
  function ChildrenWithout(s: State, remove: seq<ImageID>): map<ImageID, set<ImageID>> {
    map p | p in s.children && p !in remove ::
      if remove != [] && remove[|remove| - 1] in s.parents && s.parents[remove[|remove| - 1]] == p
      then s.children[p] - {remove[|remove| - 1]} else s.children[p]
  }

  /** Carrying out a plan in one step. */
  function Apply(s: State, plan: Plan): State {
    match plan
    case Refused(_) => s
    case Plan(_, untag, remove) =>
      State(s.images - ToSet(remove),
            s.parents - ToSet(remove),
            ChildrenWithout(s, remove),
            s.refs - untag,
            s.containers)
  }

  lemma ApplyNoRemoval(s: State, id: ImageID, untag: set<Ref>)
    ensures Apply(s, Plan(id, untag, [])) == s.(refs := s.refs - untag)
  {
    assert ToSet<ImageID>([]) == {};
    assert ChildrenWithout(s, []) == s.children;
  }

  /** Deleting one image without indexed children, after its references. */
  lemma ApplyOneIsDelete(s: State, id: ImageID)
    requires s.children.Keys == s.images && id in s.images && s.children[id] == {}
    requires id in s.parents ==> s.parents[id] != id && s.parents[id] in s.images
    ensures StoreDelete(s.(refs := s.refs - RefsOf(s.refs, id)), id) == Apply(s, Plan(id, RefsOf(s.refs, id), [id]))
  {
    var s1 := s.(refs := s.refs - RefsOf(s.refs, id));
    assert ToSet([id]) == {id};
    assert s1.parents - s1.children[id] == s1.parents;
    assert StoreDelete(s1, id).children == ChildrenWithout(s, [id]);
  }

  lemma ApplyOne(s: State, id: ImageID)
    requires Inv(s) && id in s.images && s.children[id] == {}
    ensures var s1 := s.(refs := s.refs - RefsOf(s.refs, id));
            && StoreDelete(s1, id) == Apply(s, Plan(id, RefsOf(s.refs, id), [id]))
            && Inv(StoreDelete(s1, id))
  {
    var s1 := s.(refs := s.refs - RefsOf(s.refs, id));
    assert RefsOf(s1.refs, id) == {};
    assert Inv(s1);
    DeleteKeepsInv(s1, id);
    assert id in s.parents ==> id in s.children[s.parents[id]];
    ApplyOneIsDelete(s, id);
  }

  lemma ParentIsShorter(s: State, x: ImageID)
    requires Inv(s) && x in s.parents
    ensures s.parents[x] in s.images && x in s.children[s.parents[x]] && |s.parents[x].image.history| + 1 == |x.image.history|
  {
    hide Admissible;
  }

  lemma AfterOne(s: State, id: ImageID)
    ensures var s2 := Apply(s, Plan(id, RefsOf(s.refs, id), [id]));
            && s2.images == s.images - {id} && s2.parents == s.parents - {id} && s2.refs == s.refs - RefsOf(s.refs, id)
            && forall p :: p in s.children && p != id ==>
                 p in s2.children && s2.children[p] == if id in s.parents && s.parents[id] == p then s.children[p] - {id} else s.children[p]
  {
    assert ToSet([id]) == {id};
  }

  /** Deleting a longer-history image does not change what can be pruned above a shorter one. */
  lemma {:induction false} PruneTailFrame(s: State, id: ImageID, x: ImageID)
    requires Inv(s) && id in s.images && x in s.images && |x.image.history| < |id.image.history|
    ensures PruneTail(Apply(s, Plan(id, RefsOf(s.refs, id), [id])), x) == PruneTail(s, x)
    decreases |x.image.history|
  {
    hide Prunable, Inv, Apply;
    AfterOne(s, id);
    if x in s.parents {
      var p := s.parents[x];
      ParentIsShorter(s, x);
      if id in s.parents { ParentIsShorter(s, id); }
      PrunableFrame(s, id, p, x);
      PruneTailFrame(s, id, p);
    }
  }

  /** Whether p is prunable is judged the same before and after `id`, or after `id` as p's child. */
  lemma PrunableFrame(s: State, id: ImageID, p: ImageID, child: ImageID)
    requires Inv(s) && id in s.images && p in s.images && p != id
    requires id in s.parents && s.parents[id] == p ==> child == id
    ensures Prunable(Apply(s, Plan(id, RefsOf(s.refs, id), [id])), p, child) <==> Prunable(s, p, child)
  {
    var s2 := Apply(s, Plan(id, RefsOf(s.refs, id), [id]));
    assert RefsOf(s2.refs, p) == RefsOf(s.refs, p);
    assert s2.children[p] - {child} == s.children[p] - {child};
  }

  /** An unforced check finds no conflict exactly when nothing keeps the image. */
  lemma NoConflictIffPrunable(s: State, p: ImageID)
    requires Inv(s) && p in s.images
    ensures Conflict(s, p, FullMask(false)).None? <==> Prunable(s, p, p)
    ensures Conflict(s, p, FullMask(false)).None? <==> s.children[p] == {} && RefsOf(s.refs, p) == {} && !Used(s, p)
  {
    assert p !in s.children[p];
    assert s.children[p] - {p} == s.children[p];
  }

  lemma ChildrenJoin(s: State, id: ImageID, run: seq<ImageID>)
    requires id !in run && run != [] && id in s.parents && s.parents[id] == run[0]
    ensures var s2 := Apply(s, Plan(id, RefsOf(s.refs, id), [id]));
            ChildrenWithout(s2, run) == ChildrenWithout(s, [id] + run)
  {
    var s2 := Apply(s, Plan(id, RefsOf(s.refs, id), [id]));
    var all := [id] + run;
    assert all[|all| - 1] == run[|run| - 1];
    assert ToSet([id]) == {id};
    var a, b := ChildrenWithout(s2, run), ChildrenWithout(s, all);
    assert a.Keys == b.Keys;
    forall p | p in a ensures a[p] == b[p] {
      assert p != run[0];
    }
  }

  /** Deleting `id` and then a run that starts at its parent is deleting the joined run. */
  lemma ApplyJoin(s: State, id: ImageID, run: seq<ImageID>)
    requires id !in run && run != [] && id in s.parents && s.parents[id] == run[0]
    ensures Apply(Apply(s, Plan(id, RefsOf(s.refs, id), [id])), Plan(run[0], {}, run))
            == Apply(s, Plan(id, RefsOf(s.refs, id), [id] + run))
  {
    assert ToSet([id] + run) == ToSet([id]) + ToSet(run);
    ChildrenJoin(s, id, run);
  }

  lemma KeysOf(s: State)
    requires Inv(s)
    ensures s.children.Keys == s.images
  {
  }

  lemma NotOwnChild(s: State, p: ImageID)
    requires Inv(s) && p in s.children
    ensures p !in s.children[p]
  {
    hide Admissible;
  }

  /** The check on the parent after `id` is gone decides whether the parent was prunable before. */
  lemma PruneDecision(s: State, id: ImageID)
    requires Inv(s) && id in s.images && s.children[id] == {} && id in s.parents
    ensures var s2 := Apply(s, Plan(id, RefsOf(s.refs, id), [id]));
            var p := s.parents[id];
            && Inv(s2) && p in s2.images && p in s.images && |p.image.history| < |id.image.history|
            && (Conflict(s2, p, FullMask(false)).None? <==> Prunable(s, p, id))
            && (Conflict(s2, p, FullMask(false)).None? ==> RefsOf(s2.refs, p) == {})
  {
    var s2 := Apply(s, Plan(id, RefsOf(s.refs, id), [id]));
    var p := s.parents[id];
    hide Inv, Apply, Conflict, Used, RefsOf;
    ApplyOne(s, id);
    AfterOne(s, id);
    ParentIsShorter(s, id);
    assert p != id && p in s.children by { KeysOf(s); }
    PrunableFrame(s, id, p, id);
    NoConflictIffPrunable(s2, p);
    assert p !in s2.children[p] by { NotOwnChild(s2, p); }
    assert s2.children[p] - {id} == s2.children[p] && s2.children[p] - {p} == s2.children[p];
  }

  /** One step of the upward prune: what the daemon decides in the state without `id` is what the
      plan decided in the state with it. */
  lemma PruneStep(s: State, id: ImageID)
    requires Inv(s) && id in s.images && s.children[id] == {} && id in s.parents
    ensures var s2 := Apply(s, Plan(id, RefsOf(s.refs, id), [id]));
            var p := s.parents[id];
            if Conflict(s2, p, FullMask(false)).Some? then Run(s, id, true) == [id]
            else
              && Run(s, id, true) == [id] + Run(s2, p, true)
              && Apply(s2, Plan(p, {}, Run(s2, p, true))) == Apply(s, Plan(id, RefsOf(s.refs, id), Run(s, id, true)))
  {
    var s2 := Apply(s, Plan(id, RefsOf(s.refs, id), [id]));
    var p := s.parents[id];
    PruneDecision(s, id);
    if Conflict(s2, p, FullMask(false)).None? {
      PruneTailFrame(s, id, p);
      if id in PruneTail(s, p) { PruneTailShape(s, p, id); }
      ApplyJoin(s, id, Run(s2, p, true));
    }
  }

  // ---------------------------------------------------------------- untagging first

  /** Once its references are gone, the full check sees what the check without references saw. */
  lemma ConflictAfterUntag(s: State, id: ImageID, force: bool)
    ensures Conflict(s.(refs := s.refs - RefsOf(s.refs, id)), id, FullMask(force))
            == Conflict(s, id, FullMask(force) - {ActiveReference})
  {
    var s1 := s.(refs := s.refs - RefsOf(s.refs, id));
    assert RefsOf(s1.refs, id) == {};
  }

  /** Dropping references to an image leaves the run above it as it was. */
  lemma {:induction false} PruneTailUntag(s: State, id: ImageID, untag: set<Ref>, x: ImageID)
    requires untag <= RefsOf(s.refs, id) && |x.image.history| <= |id.image.history|
    ensures PruneTail(s.(refs := s.refs - untag), x) == PruneTail(s, x)
    decreases |x.image.history|
  {
    var s1 := s.(refs := s.refs - untag);
    if x in s.parents && |s.parents[x].image.history| < |x.image.history| {
      var p := s.parents[x];
      assert RefsOf(s1.refs, p) == RefsOf(s.refs, p);
      PruneTailUntag(s, id, untag, p);
    }
  }

  /** Untagging an image and then deleting it is one planned step. */
  lemma UntagThenDelete(s: State, id: ImageID, prune: bool)
    ensures var s1 := s.(refs := s.refs - RefsOf(s.refs, id));
            && RefsOf(s1.refs, id) == {} && Run(s1, id, prune) == Run(s, id, prune)
            && Apply(s1, Plan(id, {}, Run(s1, id, prune))) == Apply(s, Plan(id, RefsOf(s.refs, id), Run(s, id, prune)))
  {
    var s1 := s.(refs := s.refs - RefsOf(s.refs, id));
    assert RefsOf(s1.refs, id) == {};
    PruneTailUntag(s, id, RefsOf(s.refs, id), id);
    assert ChildrenWithout(s1, Run(s, id, prune)) == ChildrenWithout(s, Run(s, id, prune));
  }

  // ---------------------------------------------------------------- what every plan respects

  lemma UntagKeepsInv(s: State, untag: set<Ref>)
    requires Inv(s)
    ensures Inv(s.(refs := s.refs - untag))
  {
    hide Extends, Admissible;
  }

  /** An image that passes the check is free of what the check looks for. */
  lemma NoConflictMeans(s: State, id: ImageID, force: bool, mask: set<ConflictKind>)
    requires FullMask(force) - {ActiveReference} <= mask && Conflict(s, id, mask).None?
    ensures !HasChildren(s, id) && !UsedRunning(s, id)
    ensures !force ==> !Used(s, id)
  {
  }

  /** Every plan that removes anything found the target free, and drops all its references. */
  lemma PlanTargetIsFree(s: State, t: Target, force: bool, prune: bool)
    requires ValidRefs(s)
    requires var plan := DeletePlan(s, t, force, prune); plan.Plan? && plan.remove != []
    ensures var plan := DeletePlan(s, t, force, prune);
            && plan.id in s.images && plan.remove == Run(s, plan.id, prune) && plan.untag == RefsOf(s.refs, plan.id)
            && !HasChildren(s, plan.id) && !UsedRunning(s, plan.id) && (!force ==> !Used(s, plan.id))
  {
    hide Conflict, Used, UsedRunning, HasChildren, Run, SingleReference;
    var plan := DeletePlan(s, t, force, prune);
    var mask := if t.ByRef? && !t.spellsPrefix then FullMask(force) - {ActiveReference}
                else if SingleReference(RefsOf(s.refs, plan.id)) then FullMask(force) - {ActiveReference} else FullMask(force);
    NoConflictMeans(s, plan.id, force, mask);
  }

  /** A plan removes only images that nothing else needs: no running container uses any of them, no
      container at all uses a pruned ancestor, and without force none uses the target either. */
  lemma PlanSparesUsedImages(s: State, t: Target, force: bool, prune: bool, x: ImageID)
    requires Inv(s)
    requires var plan := DeletePlan(s, t, force, prune); plan.Plan? && x in plan.remove
    ensures x in s.images && !UsedRunning(s, x)
    ensures !force ==> !Used(s, x)
    ensures x != DeletePlan(s, t, force, prune).id ==> !Used(s, x) && RefsOf(s.refs, x) == {}
  {
    hide DeletePlan;
    var plan := DeletePlan(s, t, force, prune);
    PlanTargetIsFree(s, t, force, prune);
    if x != plan.id {
      PruneTailShape(s, plan.id, x);
    }
  }

  lemma ConflictIff(s: State, id: ImageID, force: bool, withRefs: bool)
    ensures var mask := if withRefs then FullMask(force) else FullMask(force) - {ActiveReference};
            Conflict(s, id, mask).Some? <==>
            || HasChildren(s, id) || UsedRunning(s, id)
            || (!force && (Used(s, id) || (withRefs && RefsOf(s.refs, id) != {})))
  {
    if c :| c in s.containers && UsedBy(s.containers[c], id) {
      assert UsedRunning(s, id) || !s.containers[c].running;
    }
  }

  /** When a delete is refused. By ID: a child or a running container always refuses, and without force
      so does any container, and references unless they are a single one. By a stored reference: only
      without force, when it is the single reference of a used image. */
  lemma RefusedIff(s: State, t: Target, force: bool, prune: bool)
    requires Resolve(s, t).Some? && (t.ByRef? ==> t.ref in s.refs)
    ensures var id := Resolve(s, t).value;
            var refs := RefsOf(s.refs, id);
            DeletePlan(s, t, force, prune).Refused? <==>
            if t.ByRef? && !t.spellsPrefix then !force && SingleReference(refs) && Used(s, id)
            else
              || HasChildren(s, id) || UsedRunning(s, id)
              || (!force && (Used(s, id) || (refs != {} && !SingleReference(refs))))
  {
    var id := Resolve(s, t).value;
    ConflictIff(s, id, force, true);
    ConflictIff(s, id, force, false);
    hide Conflict, Used, UsedRunning, HasChildren, SingleReference;
    assert SingleReference(RefsOf(s.refs, id)) ==> RefsOf(s.refs, id) != {} by { SingleIsSome(RefsOf(s.refs, id)); }
  }

  lemma SingleIsSome(refs: set<Ref>)
    ensures SingleReference(refs) ==> refs != {}
  {
  }

  /** What each refusal says, in terms of the stores. By ID, the first of these that holds: a child is
      indexed; a container with this image runs; without force, references that are not a single one;
      without force, a container that does not run. By reference: without force, the single
      reference of a used image; or the reference is not there. */
  ghost predicate Explains(s: State, t: Target, force: bool, error: DeleteError) {
    match Resolve(s, t)
    case None => error == NoSuchImage
    case Some(id) =>
      if t.ByRef? && !t.spellsPrefix then
        if !force && SingleReference(RefsOf(s.refs, id)) && exists c :: c in s.containers && s.containers[c].image == Some(id)
        then error == ReferenceInUse
        else error == NoSuchReference && t.ref !in s.refs
      else if exists k :: id in s.children && k in s.children[id] then error == InConflict(DependentChild)
      else if exists c :: c in s.containers && s.containers[c].image == Some(id) && s.containers[c].running
      then error == InConflict(RunningContainer)
      else if RefsOf(s.refs, id) != {} && !SingleReference(RefsOf(s.refs, id)) then !force && error == InConflict(ActiveReference)
      else
        && !force && error == InConflict(StoppedContainer)
        && exists c :: c in s.containers && s.containers[c].image == Some(id) && !s.containers[c].running
  }

  /** Every refusal is explained so; in particular a forced one is never a soft conflict. */
  lemma RefusalIsExplained(s: State, t: Target, force: bool, prune: bool)
    requires DeletePlan(s, t, force, prune).Refused?
    ensures Explains(s, t, force, DeletePlan(s, t, force, prune).error)
    ensures force ==> !DeletePlan(s, t, force, prune).error.ReferenceInUse?
                      && DeletePlan(s, t, force, prune).error !in {InConflict(ActiveReference), InConflict(StoppedContainer)}
  {
    if Resolve(s, t).Some? {
      var id := Resolve(s, t).value;
      UsedIs(s, id);
      ChildrenAre(s, id);
      hide SingleReference, Run, HasChildren, Used, UsedRunning, Resolve;
      if !(t.ByRef? && !t.spellsPrefix) {
        SingleIsSome(RefsOf(s.refs, id));
      }
    }
  }

  lemma UsedIs(s: State, id: ImageID)
    ensures Used(s, id) <==> exists c :: c in s.containers && s.containers[c].image == Some(id)
    ensures UsedRunning(s, id) <==> exists c :: c in s.containers && s.containers[c].image == Some(id) && s.containers[c].running
    ensures (exists c :: c in s.containers && UsedBy(s.containers[c], id) && !s.containers[c].running) <==>
            exists c :: c in s.containers && s.containers[c].image == Some(id) && !s.containers[c].running
  {
    if c :| c in s.containers && s.containers[c].image == Some(id) {
      assert UsedBy(s.containers[c], id);
    }
    forall c | c in s.containers ensures UsedBy(s.containers[c], id) <==> s.containers[c].image == Some(id) {}
  }

  lemma ChildrenAre(s: State, id: ImageID)
    ensures HasChildren(s, id) <==> exists k :: id in s.children && k in s.children[id]
  {
  }

  /** When untagging goes on to remove the image: no reference is left, and no child, no running
      container and, without force, no container at all needs it. */
  lemma UntagRemovesImageIff(s: State, t: Target, force: bool, prune: bool)
    requires t.ByRef? && !t.spellsPrefix && DeletePlan(s, t, force, prune).Plan?
    ensures var plan := DeletePlan(s, t, force, prune);
            plan.remove != [] <==>
            RefsOf(s.refs, plan.id) <= plan.untag
            && !HasChildren(s, plan.id) && !UsedRunning(s, plan.id) && (force || !Used(s, plan.id))
  {
    ConflictIff(s, DeletePlan(s, t, force, prune).id, force, false);
    hide Conflict, Used, UsedRunning, HasChildren, SingleReference, Untagged;
  }

  /** Without force, untagging by a stored reference never takes the last reference away from an
      image that some container uses. */
  lemma UnforcedUntagKeepsAReference(s: State, t: Target, prune: bool)
    requires t.ByRef? && !t.spellsPrefix
    requires var plan := DeletePlan(s, t, false, prune); plan.Plan? && Used(s, plan.id)
    ensures var plan := DeletePlan(s, t, false, prune);
            RefsOf(Apply(s, plan).refs, plan.id) != {}
  {
    var plan := DeletePlan(s, t, false, prune);
    var refs := RefsOf(s.refs, plan.id);
    UntagLeavesNothingIff(refs, t.ref);
    var r :| r in refs - plan.untag;
    assert r in RefsOf(Apply(s, plan).refs, plan.id);
  }

  /** By ID, an unforced delete of a used image is refused outright. */
  lemma UnforcedDeleteByIDRefusesUsed(s: State, t: Target, prune: bool)
    requires Resolve(s, t).Some? && (t.ByID? || t.spellsPrefix) && Used(s, Resolve(s, t).value)
    ensures DeletePlan(s, t, false, prune).Refused?
  {
    var id := Resolve(s, t).value;
    var c :| c in s.containers && UsedBy(s.containers[c], id);
    if !s.containers[c].running {
      assert UsedBy(s.containers[c], id) && !s.containers[c].running;
    }
  }

  /** Carrying out any plan keeps the stores well formed. */
  lemma PlanKeepsInv(s: State, t: Target, force: bool, prune: bool)
    requires Inv(s)
    ensures Inv(Apply(s, DeletePlan(s, t, force, prune)))
  {
    var plan := DeletePlan(s, t, force, prune);
    if plan.Plan? {
      hide DeletePlan, Inv;
      if plan.remove == [] {
        UntagKeepsInv(s, plan.untag);
        ApplyNoRemoval(s, plan.id, plan.untag);
      } else {
        assert ValidRefs(s) && ValidEdges(s) by { InvParts(s); }
        PlanTargetIsFree(s, t, force, prune);
        RunKeepsInv(s, plan.id, prune);
      }
    }
  }

  lemma InvParts(s: State)
    requires Inv(s)
    ensures ValidRefs(s) && ValidEdges(s)
  {
  }

  lemma {:induction false} RunKeepsInv(s: State, id: ImageID, prune: bool)
    requires Inv(s) && id in s.images && s.children[id] == {}
    ensures Inv(Apply(s, Plan(id, RefsOf(s.refs, id), Run(s, id, prune))))
    decreases |id.image.history|
  {
    ApplyOne(s, id);
    if prune && PruneTail(s, id) != [] {
      var p := s.parents[id];
      var s2 := Apply(s, Plan(id, RefsOf(s.refs, id), [id]));
      PruneDecision(s, id);
      PruneStep(s, id);
      NoConflictIffPrunable(s2, p);
      RunKeepsInv(s2, p, true);
    } else {
      assert Run(s, id, prune) == [id];
    }
  }

  // ---------------------------------------------------------------- the child index

  /** A run along parent edges. */
  ghost predicate Chain(s: State, run: seq<ImageID>) {
    && run != []
    && forall i :: 0 <= i < |run| - 1 ==> run[i] in s.parents && s.parents[run[i]] == run[i + 1]
  }

  lemma NextInChain(s: State, run: seq<ImageID>, i: nat)
    requires Chain(s, run) && i < |run|
    ensures i < |run| - 1 ==> s.parents[run[i]] in run
  {
    if i < |run| - 1 {
      assert s.parents[run[i]] == run[i + 1];
    }
  }

  lemma RemoveKeepsIndexExact(s: State, id: ImageID, untag: set<Ref>, run: seq<ImageID>)
    requires IndexExact(s) && Chain(s, run)
    ensures IndexExact(Apply(s, Plan(id, untag, run)))
  {
    var s' := Apply(s, Plan(id, untag, run));
    forall p, k | p in s'.children && k in s'.children[p] ensures k in s'.parents && s'.parents[k] == p {
      assert k in s.children[p] && s.parents[k] == p;
      if k in run {
        var i :| 0 <= i < |run| && run[i] == k;
        NextInChain(s, run, i);
      }
    }
  }

  /** Every plan that removes anything removes a run along parent edges from a childless target, each
      image above the target being prunable. */
  lemma PlanIsChain(s: State, t: Target, force: bool, prune: bool)
    requires Inv(s)
    ensures var plan := DeletePlan(s, t, force, prune);
            plan.Plan? && plan.remove != [] ==>
              && plan.id in s.images && Chain(s, plan.remove) && plan.remove[0] == plan.id
              && !HasChildren(s, plan.id) && (!force ==> !Used(s, plan.id))
              && forall i :: 0 <= i < |plan.remove| - 1 ==> Prunable(s, plan.remove[i + 1], plan.remove[i])
  {
    hide DeletePlan, Prunable, Used, HasChildren, Inv;
    var plan := DeletePlan(s, t, force, prune);
    if plan.Plan? && plan.remove != [] {
      InvParts(s);
      PlanTargetIsFree(s, t, force, prune);
      PruneTailIsLongest(s, plan.id);
    }
  }

  /** Every delete keeps the child index exact. */
  lemma PlanKeepsIndexExact(s: State, t: Target, force: bool, prune: bool)
    requires Inv(s) && IndexExact(s)
    ensures IndexExact(Apply(s, DeletePlan(s, t, force, prune)))
  {
    hide DeletePlan, Chain, Inv, IndexExact, Prunable;
    var plan := DeletePlan(s, t, force, prune);
    PlanIsChain(s, t, force, prune);
    if plan.Plan? {
      if plan.remove == [] {
        ApplyNoRemoval(s, plan.id, plan.untag);
        UntagKeepsIndexExact(s, plan.untag);
      } else {
        RemoveKeepsIndexExact(s, plan.id, plan.untag, plan.remove);
      }
    }
  }

  lemma UntagKeepsIndexExact(s: State, untag: set<Ref>)
    requires IndexExact(s)
    ensures IndexExact(s.(refs := s.refs - untag))
  {
  }

  /** A plan only drops references to its own image. */
  lemma PlanUntagsOwn(s: State, t: Target, force: bool, prune: bool)
    ensures var plan := DeletePlan(s, t, force, prune);
            && (plan.Plan? ==> Resolve(s, t) == Some(plan.id) && plan.untag <= RefsOf(s.refs, plan.id))
            && (plan.Plan? && t.ByRef? && !t.spellsPrefix ==>
                  t.ref in s.refs && s.refs[t.ref] == plan.id && plan.untag == Untagged(RefsOf(s.refs, plan.id), t.ref))
  {
    hide Conflict, Run, SingleReference, Used;
  }
}

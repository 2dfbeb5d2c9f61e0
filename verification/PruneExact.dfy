/** Exactly what a prune removes (daemon/prune.go, ImagesPrune): the images below which nothing is kept. */
module PruneExact {
  import opened ImageModel
  import opened ImageStore
  import opened ImageDeletePlan
  import opened AncestorFilter

  /** A prune: the state it starts in, whether it only takes dangling images, and the images whose
      hexadecimal digest equals some container's ID, which it skips. */
  datatype Sweep = Sweep(s: State, dangling: bool, shadowed: set<ImageID>)

  /** Nothing at all keeps this image. */
  predicate Loose(s: State, id: ImageID) {
    && id in s.images && !HasChildren(s, id)
    && RefsOf(s.refs, id) == {} && !Used(s, id)
  }

  /** A digest, not the only reference to its image, from a repository without a tag of that image: a
      full prune deletes by each tag, which takes the digests of the tag's repository along, and
      passes over digests. */
  predicate LonelyIn(refs: set<Ref>, r: Ref) {
    r in refs && r.Digest? && refs != {r} && forall t :: t in refs && t.Tag? ==> t.repo != r.repo
  }

  function Lonelies(refs: set<Ref>): set<Ref> {
    set r | r in refs && LonelyIn(refs, r)
  }

  predicate Lonely(s: State, r: Ref) {
    r in s.refs && LonelyIn(RefsOf(s.refs, s.refs[r]), r)
  }

  /** A reference the prune never removes. */
  predicate Pinned(w: Sweep, r: Ref) {
    r in w.s.refs && (w.dangling || w.s.refs[r] in w.shadowed || Lonely(w.s, r))
  }

  /** The index lists k under p, and p is k's recorded parent. */
  predicate TrueChild(s: State, p: ImageID, k: ImageID) {
    k in s.parents && s.parents[k] == p
  }

  /** An image that the prune keeps for its own sake: used, a head it skips, pinned by a reference, or with
      an indexed child that is not its child, an entry which nothing takes away. */
  predicate Keeper(w: Sweep, y: ImageID) {
    && y in w.s.images
    && (|| Used(w.s, y) || (y in w.shadowed && !HasChildren(w.s, y))
        || (exists r :: r in RefsOf(w.s.refs, y) && Pinned(w, r))
        || exists k :: k in ChildrenOf(w.s, y) && !TrueChild(w.s, y, k))
  }

  /** The image or a descendant of it is kept. */
  ghost predicate KeptBelow(w: Sweep, x: ImageID) {
    exists y :: Descends(w.s, x, y) && Keeper(w, y)
  }

  // ---------------------------------------------------------------- taking away

  /** `cur` is `s` with some images and references taken away and nothing else changed. */
  ghost predicate Shrunk(s: State, cur: State) {
    && cur.containers == s.containers && cur.images <= s.images
    && (forall k :: k in cur.parents <==> k in s.parents && k in cur.images)
    && (forall k :: k in cur.parents ==> cur.parents[k] == s.parents[k])
    && (forall p :: p in cur.children ==> p in s.children && cur.children[p] <= s.children[p])
    && (forall r :: r in cur.refs ==> r in s.refs && cur.refs[r] == s.refs[r])
  }

  lemma ShrunkRefl(s: State)
    requires Inv(s)
    ensures Shrunk(s, s)
  {
  }

  lemma ShrunkTrans(s: State, a: State, b: State)
    requires Shrunk(s, a) && Shrunk(a, b)
    ensures Shrunk(s, b)
  {
  }

  /** Carrying out a plan only takes things away. */
  lemma PlanShrinks(s: State, plan: Plan)
    requires Inv(s)
    ensures Shrunk(s, Apply(s, plan))
  {
    hide Extends, Admissible;
  }

  /** Of each image that is left, exactly the true children that have gone have left the index. */
  ghost predicate IndexFollows(s: State, cur: State) {
    forall p, k :: p in cur.children ==>
      (k in cur.children[p] <==> p in s.children && k in s.children[p] && (TrueChild(s, p, k) ==> k in cur.images))
  }

  lemma IndexFollowsRefl(s: State)
    requires Inv(s)
    ensures IndexFollows(s, s)
  {
    hide Extends, Admissible;
  }

  lemma IndexFollowsTrans(s: State, a: State, b: State)
    requires Shrunk(s, a) && Shrunk(a, b) && IndexFollows(s, a) && IndexFollows(a, b)
    ensures IndexFollows(s, b)
  {
    forall p, k ensures TrueChild(a, p, k) <==> TrueChild(s, p, k) && k in a.images {}
  }

  lemma RunLeavesIndex(s: State, id: ImageID, untag: set<Ref>, run: seq<ImageID>)
    requires Inv(s) && Chain(s, run)
    ensures IndexFollows(s, Apply(s, Plan(id, untag, run)))
  {
    hide Extends, Admissible;
    var s' := Apply(s, Plan(id, untag, run));
    forall p, k | p in s'.children
      ensures k in s'.children[p] <==> k in s.children[p] && (TrueChild(s, p, k) ==> k in s'.images)
    {
      if TrueChild(s, p, k) && k in run {
        var i :| 0 <= i < |run| && run[i] == k;
        NextInChain(s, run, i);
      }
    }
  }

  /** Every plan takes the images it removes out of the index, and nothing else. */
  lemma PlanLeavesIndex(s: State, t: Target)
    requires Inv(s)
    ensures IndexFollows(s, Apply(s, DeletePlan(s, t, false, true)))
  {
    hide Inv, DeletePlan, Chain, Prunable, Used, HasChildren, IndexFollows, ChildrenWithout;
    var plan := DeletePlan(s, t, false, true);
    IndexFollowsRefl(s);
    if plan.Plan? {
      if plan.remove == [] {
        ApplyNoRemoval(s, plan.id, plan.untag);
        SameIndexFollows(s, s.(refs := s.refs - plan.untag));
      } else {
        PlanIsChain(s, t, false, true);
        RunLeavesIndex(s, plan.id, plan.untag, plan.remove);
      }
    }
  }

  lemma SameIndexFollows(s: State, s': State)
    requires IndexFollows(s, s) && s'.children == s.children && s'.images == s.images
    ensures IndexFollows(s, s')
  {
  }

  /** The pinned references are all there. */
  ghost predicate PinsStand(w: Sweep, cur: State) {
    forall r :: Pinned(w, r) ==> r in cur.refs
  }

  /** All that is kept below some image is still there. */
  ghost predicate SparesKept(w: Sweep, cur: State) {
    forall x :: x in w.s.images && KeptBelow(w, x) ==> x in cur.images
  }

  /** An image kept only from below has, in the shrunken state too, a child with something kept below. */
  lemma KeptHasKeptChild(w: Sweep, cur: State, x: ImageID) returns (c: ImageID)
    requires Inv(w.s) && Inv(cur) && Shrunk(w.s, cur) && IndexFollows(w.s, cur) && SparesKept(w, cur)
    requires KeptBelow(w, x) && !Keeper(w, x) && x in cur.images
    ensures x in cur.children && c in cur.children[x] && KeptBelow(w, c)
  {
    hide Extends, Admissible, Keeper, Descends;
    var y :| Descends(w.s, x, y) && Keeper(w, y);
    DescendsSplit(w.s, x, y);
    c :| c in ChildrenOf(w.s, x) && Descends(w.s, c, y);
    assert KeptBelow(w, c);
    hide KeptBelow;
    assert TrueChild(w.s, x, c) by { NoKeeperHasTrueChildren(w, x, c); }
    assert c in cur.images && c in cur.parents && cur.parents[c] == x;
    hide SparesKept, IndexFollows, Shrunk;
  }

  lemma NoKeeperHasTrueChildren(w: Sweep, x: ImageID, c: ImageID)
    requires x in w.s.images && !Keeper(w, x) && c in ChildrenOf(w.s, x)
    ensures TrueChild(w.s, x, c)
  {
  }

  /** An image without references in a later state has no pinned one. */
  lemma UnreferencedIsUnpinned(w: Sweep, cur: State, x: ImageID)
    requires Shrunk(w.s, cur) && PinsStand(w, cur) && RefsOf(cur.refs, x) == {}
    ensures forall r :: r in RefsOf(w.s.refs, x) ==> !Pinned(w, r)
  {
    hide Pinned;
    assert forall r :: r in RefsOf(w.s.refs, x) && r in cur.refs ==> r in RefsOf(cur.refs, x);
  }

  lemma OnlyChild(children: set<ImageID>, child: ImageID)
    requires children - {child} == {}
    ensures forall k :: k in children ==> k == child
  {
    assert forall k :: k in children && k != child ==> k in children - {child};
  }

  lemma ParentIndexed(s: State, k: ImageID)
    requires Inv(s) && k in s.parents
    ensures HasChildren(s, s.parents[k])
  {
  }

  /** A pruned ancestor is no keeper: it had the child it was pruned above. */
  lemma PrunedIsNoKeeper(w: Sweep, cur: State, x: ImageID, child: ImageID)
    requires Inv(w.s) && Shrunk(w.s, cur) && IndexFollows(w.s, cur) && PinsStand(w, cur)
    requires Prunable(cur, x, child) && child in cur.parents && cur.parents[child] == x
    ensures !Keeper(w, x)
  {
    UnreferencedIsUnpinned(w, cur, x);
    hide Extends, Admissible, Pinned, PinsStand, Inv;
    OnlyChild(cur.children[x], child);
    assert TrueChild(w.s, x, child);
    assert forall k :: k in ChildrenOf(w.s, x) ==> TrueChild(w.s, x, k) || k in cur.children[x];
    assert HasChildren(w.s, x) by { ParentIndexed(w.s, child); }
  }

  /** Nothing of a pruned run has anything kept below it: going down the run, kept-ness would reach the
      target, which has no child and is no keeper. */
  lemma {:induction false} RunIsNotKept(w: Sweep, cur: State, run: seq<ImageID>, i: nat)
    requires Inv(w.s) && Inv(cur) && Shrunk(w.s, cur) && IndexFollows(w.s, cur) && SparesKept(w, cur) && PinsStand(w, cur)
    requires Chain(cur, run) && i < |run| && run[i] in cur.images
    requires !HasChildren(cur, run[0]) && !Keeper(w, run[0])
    requires forall j :: 0 <= j < |run| - 1 ==> Prunable(cur, run[j + 1], run[j])
    ensures !KeptBelow(w, run[i])
    decreases i
  {
    hide Inv, Shrunk, SparesKept, KeptBelow, Keeper, IndexFollows, PinsStand;
    if KeptBelow(w, run[i]) {
      if i > 0 {
        assert Prunable(cur, run[i - 1 + 1], run[i - 1]);
        PrunedIsNoKeeper(w, cur, run[i], run[i - 1]);
      }
      var c := KeptHasKeptChild(w, cur, run[i]);
      if i > 0 {
        var others := cur.children[run[i]] - {run[i - 1]};
        assert c in others || c == run[i - 1];
        ParentStored(cur, run[i - 1]);
        RunIsNotKept(w, cur, run, i - 1);
      }
    }
  }

  lemma ParentStored(s: State, k: ImageID)
    requires Inv(s) && k in s.parents
    ensures k in s.images
  {
  }

  /** The target of a plan that removes it is no keeper. */
  lemma TargetIsNoKeeper(w: Sweep, cur: State, t: Target)
    requires Inv(cur) && Shrunk(w.s, cur) && IndexFollows(w.s, cur)
    requires var plan := DeletePlan(cur, t, false, true);
             plan.Plan? && plan.remove != [] && plan.id !in w.shadowed && PinsStand(w, Apply(cur, plan))
    ensures !Keeper(w, DeletePlan(cur, t, false, true).id)
  {
    hide DeletePlan, Inv, Pinned, PinsStand, Run;
    InvParts(cur);
    PlanTargetIsFree(cur, t, false, true);
    var plan := DeletePlan(cur, t, false, true);
    assert plan.id in cur.children && forall k :: k in ChildrenOf(w.s, plan.id) ==> TrueChild(w.s, plan.id, k);
    hide IndexFollows;
    var next := Apply(cur, plan);
    assert RefsOf(next.refs, plan.id) == {};
    PlanShrinks(cur, plan);
    ShrunkTrans(w.s, cur, next);
    UnreferencedIsUnpinned(w, next, plan.id);
    hide Apply;
  }

  /** So one prune step takes no image that has something kept below it. */
  lemma PruneSparesKept(w: Sweep, cur: State, t: Target)
    requires Inv(w.s) && Inv(cur) && Shrunk(w.s, cur) && IndexFollows(w.s, cur) && SparesKept(w, cur) && PinsStand(w, cur)
    requires var plan := DeletePlan(cur, t, false, true);
             plan.Plan? ==> plan.id !in w.shadowed && PinsStand(w, Apply(cur, plan))
    ensures SparesKept(w, Apply(cur, DeletePlan(cur, t, false, true)))
  {
    hide DeletePlan, Inv, IndexFollows, KeptBelow, HasChildren, Keeper, Pinned, PinsStand;
    var plan := DeletePlan(cur, t, false, true);
    if plan.Plan? && plan.remove != [] {
      PlanIsChain(cur, t, false, true);
      TargetIsNoKeeper(w, cur, t);
      forall x | x in w.s.images && KeptBelow(w, x) ensures x !in plan.remove {
        if x in plan.remove {
          var i :| 0 <= i < |plan.remove| && plan.remove[i] == x;
          hide Shrunk, SparesKept, Chain, Prunable;
          RunIsNotKept(w, cur, plan.remove, i);
          assert false;
        }
      }
    }
  }

  /** And whatever survives, with no loose or referenced image left but keepers, has something kept below it. */
  lemma {:induction false} SurvivorIsKept(w: Sweep, cur: State, x: ImageID)
    requires Inv(w.s) && Inv(cur) && Shrunk(w.s, cur) && IndexFollows(w.s, cur) && x in cur.images
    requires forall z :: Loose(cur, z) ==> Keeper(w, z)
    requires forall z :: z in cur.images && RefsOf(cur.refs, z) != {} ==> Keeper(w, z)
    ensures KeptBelow(w, x)
    decreases Longer(cur, x)
  {
    hide Extends, Admissible;
    if Keeper(w, x) {
      DescendsRefl(w.s, x);
    } else {
      assert HasChildren(cur, x);
      hide Keeper, Loose, Descends;
      var c :| c in cur.children[x];
      NoKeeperHasTrueChildren(w, x, c);
      assert c in cur.images && c in ChildrenOf(w.s, x);
      LongerShrinks(cur, x, c);
      SurvivorIsKept(w, cur, c);
      var y :| Descends(w.s, c, y) && Keeper(w, y);
      DescendsVia(w.s, x, c, y);
    }
  }
}

/** Whole runs of the image daemon: any interleaving of image and container operations, each taken as
    one atomic step with the effect its method is proved to have. */
module ImageRuns {
  import opened Wrappers
  import opened ImageModel
  import opened ImageStore
  import opened ImageDeletePlan
  import ImageDeletion
  import opened ImageBuild
  import opened BuildCache

  datatype Event =
    | Import(diffID: DiffID, created: int, msg: string, config: RunConfig, platform: string)
    | Commit(base: Option<ImageID>, diffID: DiffID, entry: History, config: RunConfig, containerConfig: RunConfig,
             platform: string, ref: Option<Ref>)
    | Squash(id: ImageID, parent: Option<ImageID>, merged: DiffID, now: int, comment: string)
    /** A build uses a cache source, which may have been deleted since it was loaded. */
    | UseCache(target: Image, parentID: Option<ImageID>, cfg: RunConfig)
    | AddTag(tag: Ref, id: ImageID)
    | AddDigest(digest: Ref, id: ImageID)
    /** Also one step of an ImagesPrune, with force false and prune true. */
    | Delete(which: Target, force: bool, prune: bool)
    | CreateContainer(name: string, image: Option<ImageID>)
    | SetRunning(name: string, running: bool)
    | RemoveContainer(name: string)

  function Step(s: State, e: Event): State {
    match e
    case Import(diffID, created, msg, config, platform) => StoreCreate(s, Imported(diffID, created, msg, config, platform))
    case Commit(base, diffID, entry, config, containerConfig, platform, ref) =>
      CommitEffect(s, base, Committed(BaseOf(base), diffID, entry, config, containerConfig, platform), ref)
    case Squash(id, parent, merged, now, comment) =>
      if SquashSucceeds(s, id, parent)
      then StoreCreate(s, SquashedImage(id.image, BaseOf(parent), merged, now, comment)) else s
    case UseCache(target, parentID, cfg) =>
      if Admissible(target) && (parentID.Some? ==> parentID.value in s.images) && Serves(target, ImageOf(parentID), cfg)
      then UseEffect(s, target, parentID, cfg) else s
    case AddTag(ref, id) => if ref.Tag? && id in s.images then Tagged(s, ref, id) else s
    case AddDigest(ref, id) => if ref.Digest? && ref !in s.refs && id in s.images then Tagged(s, ref, id) else s
    case Delete(t, force, prune) => Apply(s, DeletePlan(s, t, force, prune))
    case CreateContainer(name, image) =>
      if name !in s.containers && (image.Some? ==> image.value in s.images)
      then s.(containers := s.containers[name := Container(image, false)]) else s
    case SetRunning(name, running) =>
      if name in s.containers then s.(containers := s.containers[name := s.containers[name].(running := running)]) else s
    case RemoveContainer(name) => s.(containers := s.containers - {name})
  }

  /** Each step is what the daemon's operations do. */
  method Perform(d: Daemon, e: Event)
    requires Inv(d.View())
    requires e.Import? || e.Commit? || e.Squash? || e.UseCache? || e.AddTag? || e.AddDigest? || e.Delete?
    requires e.Commit? && e.ref.Some? ==> e.ref.value.Tag?
    modifies d
    ensures d.View() == Step(old(d.View()), e) && Inv(d.View())
  {
    hide Inv, Admissible, Serves, CommitEffect, UseEffect, DeletePlan, Apply, Imported, Committed, SquashedImage, StoreCreate;
    StepKeepsInv(d.View(), e);
    match e {
      case Import(diffID, created, msg, config, platform) =>
        var _ := ImportImage(d, diffID, created, msg, config, platform, None);
      case Commit(base, diffID, entry, config, containerConfig, platform, ref) =>
        var _ := ImageBuild.Commit(d, base, diffID, entry, config, containerConfig, platform, ref);
      case Squash(id, parent, merged, now, comment) =>
        var _ := SquashImage(d, id, parent, merged, now, comment);
      case UseCache(target, parentID, cfg) =>
        if Admissible(target) && (parentID.Some? ==> parentID.value in d.images) && Serves(target, ImageOf(parentID), cfg) {
          var cache := new ImageCache(d, (a: RunConfig, b: RunConfig) => a == b, [target]);
          var _ := cache.Use(target, parentID, cfg);
        }
      case AddTag(ref, id) =>
        if ref.Tag? && id in d.images {
          var _ := d.AddReference(ref, id, true);
        }
      case AddDigest(ref, id) =>
        if ref.Digest? && id in d.images {
          var _ := d.AddReference(ref, id, false);
        }
      case Delete(t, force, prune) =>
        var _, _ := ImageDeletion.ImageDelete(d, t, force, prune);
    }
  }

  function Exec(s: State, es: seq<Event>): State {
    if es == [] then s else Step(Exec(s, es[..|es| - 1]), es[|es| - 1])
  }

  // ---------------------------------------------------------------- the invariant of all runs

  lemma StepKeepsInv(s: State, e: Event)
    requires Inv(s)
    ensures Inv(Step(s, e))
  {
    hide Inv;
    match e
    case Import(diffID, created, msg, config, platform) => CreateKeepsInv(s, Imported(diffID, created, msg, config, platform));
    case Commit(base, diffID, entry, config, containerConfig, platform, ref) =>
      if base.None? || base.value in s.images {
        BaseIsAdmissible(s, base);
        CommitKeepsInv(s, base, Committed(BaseOf(base), diffID, entry, config, containerConfig, platform), ref);
      }
    case Squash(id, parent, merged, now, comment) =>
      CreateKeepsInv(s, SquashedImage(id.image, BaseOf(parent), merged, now, comment));
    case UseCache(target, parentID, cfg) =>
      if Admissible(target) && (parentID.Some? ==> parentID.value in s.images) && Serves(target, ImageOf(parentID), cfg) {
        UseKeepsInv(s, target, parentID, cfg);
      }
    case AddTag(ref, id) => if id in s.images { TaggedKeepsInv(s, ref, id); }
    case AddDigest(ref, id) => if id in s.images { TaggedKeepsInv(s, ref, id); }
    case Delete(t, force, prune) => PlanKeepsInv(s, t, force, prune);
    case CreateContainer(name, image) => ContainersDoNotMatter(s, s.containers[name := Container(image, false)]);
    case SetRunning(name, running) =>
      if name in s.containers { ContainersDoNotMatter(s, s.containers[name := s.containers[name].(running := running)]); }
    case RemoveContainer(name) => ContainersDoNotMatter(s, s.containers - {name});
  }

  lemma ContainersDoNotMatter(s: State, containers: map<string, Container>)
    requires Inv(s)
    ensures Inv(s.(containers := containers))
  {
    hide Extends, Admissible;
  }

  /** In every run, every reference and every parent edge points at a stored image, every edge ever set
      adds one history entry, and no history names more layers than its image has. */
  lemma {:induction false} RunKeepsInv(es: seq<Event>)
    ensures Inv(Exec(EMPTY, es))
    decreases |es|
  {
    if es != [] {
      RunKeepsInv(es[..|es| - 1]);
      StepKeepsInv(Exec(EMPTY, es[..|es| - 1]), es[|es| - 1]);
    }
  }

  /** So in every run the parent graph is acyclic. */
  lemma RunIsAcyclic(es: seq<Event>, id: ImageID, k: nat)
    requires k > 0
    ensures Ancestor(Exec(EMPTY, es), id, k) != Some(id)
  {
    RunKeepsInv(es);
    var s := Exec(EMPTY, es);
    if Ancestor(s, id, k).Some? {
      AncestorHistory(s, id, k);
    }
  }

  // ---------------------------------------------------------------- the child index

  /** The last step of a cache use whose source has been deleted meanwhile: SetParent indexes the source as
      a child and then fails. */
  predicate Drifts(s: State, e: Event) {
    && e.UseCache? && Admissible(e.target) && e.parentID.Some? && e.parentID.value in s.images
    && Serves(e.target, ImageOf(e.parentID), e.cfg)
    && |e.target.history| == |e.parentID.value.image.history| + 1
    && Sha256(e.target) !in s.images
  }

  lemma CreateKeepsIndexExact(s: State, img: Image)
    requires IndexExact(s)
    ensures IndexExact(StoreCreate(s, img))
  {
    hide Admissible;
  }

  lemma CreateUnderKeepsIndexExact(s: State, img: Image, base: Option<ImageID>)
    requires Inv(s) && IndexExact(s) && Admissible(img) && (base.Some? ==> base.value in s.images)
    ensures IndexExact(CreateUnder(s, img, base))
  {
    CreateKeepsInv(s, img);
    CreateKeepsIndexExact(s, img);
    KeysAgree(s);
    hide Inv, IndexExact, Admissible;
    if base.Some? {
      SetParentIndexExactIff(StoreCreate(s, img), Sha256(img), base.value);
    }
  }

  lemma UseKeepsIndexExactIff(s: State, target: Image, parentID: Option<ImageID>, cfg: RunConfig)
    requires Inv(s) && IndexExact(s) && Admissible(target) && Serves(target, ImageOf(parentID), cfg)
    requires parentID.Some? ==> parentID.value in s.images
    ensures IndexExact(UseEffect(s, target, parentID, cfg)) <==> !Drifts(s, UseCache(target, parentID, cfg))
  {
    hide Inv, IndexExact, Admissible, NextImage, CreateUnder, StoreSetParent;
    assert HistoryLength(ImageOf(parentID)) < |target.history|;
    hide Serves;
    ParentAdmissible(s, parentID);
    NextImageExtends(target, ImageOf(parentID), cfg);
    if HistoryLength(ImageOf(parentID)) == |target.history| - 1 {
      if parentID.Some? {
        SetParentIndexExactIff(s, Sha256(target), parentID.value);
      }
    } else {
      CreateUnderKeepsIndexExact(s, NextImage(target, ImageOf(parentID), cfg), parentID);
    }
  }

  lemma SameIndex(s: State, s': State)
    requires IndexExact(s) && s'.parents == s.parents && s'.children == s.children
    ensures IndexExact(s')
  {
  }

  /** A step keeps the child index exact exactly when it does not drift. */
  lemma StepKeepsIndexExactIff(s: State, e: Event)
    requires Inv(s) && IndexExact(s)
    ensures IndexExact(Step(s, e)) <==> !Drifts(s, e)
  {
    hide Inv, IndexExact, Admissible, Serves, CreateUnder, UseEffect, DeletePlan, Apply, Imported, Committed, SquashedImage, StoreCreate;
    match e
    case Import(diffID, created, msg, config, platform) =>
      CreateKeepsIndexExact(s, Imported(diffID, created, msg, config, platform));
    case Commit(base, diffID, entry, config, containerConfig, platform, ref) =>
      if base.None? || base.value in s.images {
        var img := Committed(BaseOf(base), diffID, entry, config, containerConfig, platform);
        BaseIsAdmissible(s, base);
        CreateUnderKeepsIndexExact(s, img, base);
        SameIndex(CreateUnder(s, img, base), Step(s, e));
      }
    case Squash(id, parent, merged, now, comment) =>
      CreateKeepsIndexExact(s, SquashedImage(id.image, BaseOf(parent), merged, now, comment));
    case UseCache(target, parentID, cfg) =>
      if Admissible(target) && (parentID.Some? ==> parentID.value in s.images) && Serves(target, ImageOf(parentID), cfg) {
        UseKeepsIndexExactIff(s, target, parentID, cfg);
      }
    case Delete(t, force, prune) => PlanKeepsIndexExact(s, t, force, prune);
    case _ => SameIndex(s, Step(s, e));
  }

  /** So in every run whose cache uses still find their source stored, the child index is exact: the
      hypothesis under which a prune is exact and descendants are the inverse of ancestors. */
  lemma {:induction false} RunKeepsIndexExact(es: seq<Event>)
    requires forall i :: 0 <= i < |es| ==> !Drifts(Exec(EMPTY, es[..i]), es[i])
    ensures IndexExact(Exec(EMPTY, es))
    decreases |es|
  {
    hide Step, Drifts;
    if es != [] {
      var n := |es| - 1;
      assert forall i :: 0 <= i < n ==> es[..n][..i] == es[..i];
      RunKeepsIndexExact(es[..n]);
      RunKeepsInv(es[..n]);
      StepKeepsIndexExactIff(Exec(EMPTY, es[..n]), es[n]);
    }
  }

  function PlainCommit(base: Option<ImageID>, diffID: DiffID, entry: History): Event {
    Commit(base, diffID, entry, NO_CONFIG, NO_CONFIG, "", None)
  }

  /** A run that drifts: commit A, commit T on A, delete T, and let a build that had loaded T as its
      cache source use it on A. A then has an indexed child that is not stored, so a local lookup on A fails. */
  lemma DriftingRun(entry: History, a: DiffID, b: DiffID)
    requires entry.createdBy == "" && b != EMPTY_TAR
    ensures var A := Sha256(Committed(SCRATCH, a, entry, NO_CONFIG, NO_CONFIG, ""));
            var T := Sha256(Committed(A.image, b, entry, NO_CONFIG, NO_CONFIG, ""));
            var s := Exec(EMPTY, [PlainCommit(None, a, entry), PlainCommit(Some(A), b, entry), Delete(ByID(T), false, false),
                                  UseCache(T.image, Some(A), NO_CONFIG)]);
            !IndexExact(s) && A in s.children && T in s.children[A] && T !in s.images
  {
    var A := Sha256(Committed(SCRATCH, a, entry, NO_CONFIG, NO_CONFIG, ""));
    var T := Sha256(Committed(A.image, b, entry, NO_CONFIG, NO_CONFIG, ""));
    var e1, e2 := PlainCommit(None, a, entry), PlainCommit(Some(A), b, entry);
    var e3, e4 := Delete(ByID(T), false, false), UseCache(T.image, Some(A), NO_CONFIG);
    hide Committed, Admissible, Serves, Extends, DeletePlan, Apply, UseEffect, CommitEffect;
    DriftImages(entry, a, b);
    CreateThenChild(A, T);
    DeleteChild(A, T);
    UseDeleted(A, T);
    assert Step(EMPTY, e1) == Alone(A);
    assert Step(Alone(A), e2) == WithChild(A, T);
    assert Step(WithChild(A, T), e3) == Alone(A);
    assert Step(Alone(A), e4) == Alone(A).(children := map[A := {T}]);
    ExecFour(EMPTY, e1, e2, e3, e4);
    var s := Exec(EMPTY, [e1, e2, e3, e4]);
    assert s == Alone(A).(children := map[A := {T}]);
    assert T in s.children[A] && T !in s.parents && T !in s.images;
  }

  lemma DriftImages(entry: History, a: DiffID, b: DiffID)
    requires entry.createdBy == "" && b != EMPTY_TAR
    ensures var A := Committed(SCRATCH, a, entry, NO_CONFIG, NO_CONFIG, "");
            var T := Committed(A, b, entry, NO_CONFIG, NO_CONFIG, "");
            && Admissible(A) && Admissible(T) && Extends(T, A) && T != A
            && Serves(T, Some(A), NO_CONFIG)
  {
    ScratchIsConsistent();
    hide LayerCount;
  }

  /** A alone, and A with its child T. */
  function Alone(A: ImageID): State {
    State({A}, map[], map[A := {}], map[], map[])
  }

  function WithChild(A: ImageID, T: ImageID): State {
    State({A, T}, map[T := A], map[A := {T}, T := {}], map[], map[])
  }

  lemma CreateThenChild(A: ImageID, T: ImageID)
    requires Admissible(A.image) && Admissible(T.image) && Extends(T.image, A.image)
    ensures CommitEffect(EMPTY, None, A.image, None) == Alone(A)
    ensures CommitEffect(Alone(A), Some(A), T.image, None) == WithChild(A, T)
  {
    hide Admissible;
    assert StoreCreate(Alone(A), T.image) == State({A, T}, map[], map[A := {}, T := {}], map[], map[]);
    IndexOne(T);
    var both: map<ImageID, set<ImageID>> := map[A := {}, T := {}];
    assert both[A := {T}] == map[A := {T}, T := {}];
  }

  lemma DeleteChild(A: ImageID, T: ImageID)
    requires A != T
    ensures Apply(WithChild(A, T), DeletePlan(WithChild(A, T), ByID(T), false, false)) == Alone(A)
  {
    var s := WithChild(A, T);
    assert RefsOf(s.refs, T) == {} && s.children[T] == {};
    assert DeletePlan(s, ByID(T), false, false) == Plan(T, {}, [T]);
    assert ToSet([T]) == {T};
    IndexOne(T);
    var without := ChildrenWithout(s, [T]);
    assert without.Keys == {A} && without[A] == {};
  }

  lemma UseDeleted(A: ImageID, T: ImageID)
    requires Admissible(T.image) && Extends(T.image, A.image) && Serves(T.image, ImageOf(Some(A)), NO_CONFIG)
    ensures UseEffect(Alone(A), T.image, Some(A), NO_CONFIG) == Alone(A).(children := map[A := {T}])
  {
    hide Admissible, Serves;
    IndexOne(T);
    var one: map<ImageID, set<ImageID>> := map[A := {}];
    assert one[A := {T}] == map[A := {T}];
  }

  lemma IndexOne(T: ImageID)
    ensures {} + {T} == {T} && {T} - {T} == {}
  {
  }

  lemma ExecFour(s: State, e1: Event, e2: Event, e3: Event, e4: Event)
    ensures Exec(s, [e1, e2, e3, e4]) == Step(Step(Step(Step(s, e1), e2), e3), e4)
  {
    hide Step;
    assert [e1, e2, e3, e4][..3] == [e1, e2, e3] && [e1, e2, e3][..2] == [e1, e2] && [e1, e2][..1] == [e1] && [e1][..0] == [];
    assert Exec(s, [e1]) == Step(s, e1);
    assert Exec(s, [e1, e2]) == Step(Step(s, e1), e2);
    assert Exec(s, [e1, e2, e3]) == Step(Step(Step(s, e1), e2), e3);
  }

  // ---------------------------------------------------------------- images in use

  /** No step of any kind removes an image that a running container uses, nor, unless it is a forced
      delete, one that any container uses. */
  lemma StepSparesUsedImages(s: State, e: Event, x: ImageID)
    requires Inv(s) && x in s.images
    ensures x !in Step(s, e).images ==> e.Delete? && !UsedRunning(s, x) && (!e.force ==> !Used(s, x))
  {
    hide Inv, DeletePlan, CreateUnder, UseEffect, Serves, LayerCount, UsedRunning, Used;
    match e
    case Commit(base, diffID, entry, config, containerConfig, platform, ref) =>
      CreateUnderOnlyAdds(s, Committed(BaseOf(base), diffID, entry, config, containerConfig, platform), base);
    case UseCache(target, parentID, cfg) =>
      if Admissible(target) && Serves(target, ImageOf(parentID), cfg) {
        UseOnlyAdds(s, target, parentID, cfg);
      }
    case Delete(t, force, prune) =>
      if x !in Step(s, e).images {
        PlanSparesUsedImages(s, t, force, prune, x);
      }
    case _ =>
  }

  /** Every container's image is stored. */
  ghost predicate Backed(s: State) {
    forall c :: c in s.containers && s.containers[c].image.Some? ==> s.containers[c].image.value in s.images
  }

  lemma StepKeepsBacked(s: State, e: Event)
    requires Inv(s) && Backed(s) && !(e.Delete? && e.force)
    ensures Backed(Step(s, e))
  {
    hide Inv;
    var s' := Step(s, e);
    forall c | c in s'.containers && s'.containers[c].image.Some? ensures s'.containers[c].image.value in s'.images {
      var i := s'.containers[c].image.value;
      StepKeepsImageOfContainer(s, e, c);
      if i !in s'.images {
        assert UsedBy(s.containers[c], i);
        StepSparesUsedImages(s, e, i);
        assert false;
      }
    }
  }

  /** A container keeps the image it was created from, which was stored then. */
  lemma StepKeepsImageOfContainer(s: State, e: Event, c: string)
    requires Backed(s) && c in Step(s, e).containers && Step(s, e).containers[c].image.Some?
    ensures Step(s, e).containers[c].image.value in s.images
    ensures e.Delete? ==> c in s.containers && s.containers[c] == Step(s, e).containers[c]
    ensures !e.CreateContainer? ==> c in s.containers && s.containers[c].image == Step(s, e).containers[c].image
  {
    hide DeletePlan, Serves, CreateUnder, UseEffect, LayerCount, SquashedImage, Imported, Committed;
    match e
    case Commit(base, diffID, entry, config, containerConfig, platform, ref) =>
      CreateUnderOnlyAdds(s, Committed(BaseOf(base), diffID, entry, config, containerConfig, platform), base);
    case UseCache(target, parentID, cfg) =>
      if Admissible(target) && Serves(target, ImageOf(parentID), cfg) {
        UseOnlyAdds(s, target, parentID, cfg);
      }
    case _ =>
  }

  /** In every run without forced deletes, however images are committed, squashed, tagged, deleted and
      pruned, every container's image stays stored. */
  lemma {:induction false} UnforcedRunsKeepContainersBacked(es: seq<Event>)
    requires forall i :: 0 <= i < |es| ==> !(es[i].Delete? && es[i].force)
    ensures Backed(Exec(EMPTY, es))
    decreases |es|
  {
    if es != [] {
      UnforcedRunsKeepContainersBacked(es[..|es| - 1]);
      RunKeepsInv(es[..|es| - 1]);
      StepKeepsBacked(Exec(EMPTY, es[..|es| - 1]), es[|es| - 1]);
    }
  }

  // ---------------------------------------------------------------- history and layers

  /** Which steps keep one layer per non-empty history entry: all but a squash that does not fit. */
  predicate Fits(s: State, e: Event) {
    e.Squash? && Step(s, e) != s ==> SquashFits(e.id.image, BaseOf(e.parent))
  }

  /** A cache source is itself such an image. */
  predicate ConsistentSource(e: Event) {
    e.UseCache? ==> Consistent(e.target)
  }

  lemma AddConsistent(s: State, s': State, img: Image)
    requires AllConsistent(s) && s'.images <= s.images + {Sha256(img)} && Consistent(img)
    ensures AllConsistent(s')
  {
  }

  lemma CommitKeepsConsistent(s: State, base: Option<ImageID>, diffID: DiffID, entry: History,
                              config: RunConfig, containerConfig: RunConfig, platform: string, ref: Option<Ref>)
    requires AllConsistent(s)
    ensures AllConsistent(CommitEffect(s, base, Committed(BaseOf(base), diffID, entry, config, containerConfig, platform), ref))
  {
    var img := Committed(BaseOf(base), diffID, entry, config, containerConfig, platform);
    if base.None? || base.value in s.images {
      if base.None? { ScratchIsConsistent(); }
      hide Committed, CreateUnder, LayerCount, AllConsistent;
      CreateUnderOnlyAdds(s, img, base);
      AddConsistent(s, CommitEffect(s, base, img, ref), img);
    }
  }

  lemma SquashKeepsConsistentIff(s: State, e: Event)
    requires AllConsistent(s) && e.Squash?
    ensures AllConsistent(Step(s, e)) <==> Fits(s, e)
  {
    var img := SquashedImage(e.id.image, BaseOf(e.parent), e.merged, e.now, e.comment);
    SquashedImageConsistentIff(e.id.image, BaseOf(e.parent), e.merged, e.now, e.comment);
    hide SquashedImage, LayerCount, LayerBelow, SquashFits;
    if Step(s, e) != s {
      assert Sha256(img) in Step(s, e).images;
    }
  }

  lemma CacheKeepsConsistent(s: State, target: Image, parentID: Option<ImageID>, cfg: RunConfig)
    requires AllConsistent(s) && Consistent(target) && Admissible(target) && Serves(target, ImageOf(parentID), cfg)
    requires parentID.Some? ==> parentID.value in s.images
    ensures AllConsistent(UseEffect(s, target, parentID, cfg))
  {
    NextImageLayers(target, ImageOf(parentID), cfg);
    hide CreateUnder, Serves, NextImage, LayerCount;
    CreateUnderOnlyAdds(s, NextImage(target, ImageOf(parentID), cfg), parentID);
    AddConsistent(s, UseEffect(s, target, parentID, cfg), NextImage(target, ImageOf(parentID), cfg));
  }

  /** A step keeps that property exactly when it fits. */
  lemma StepKeepsConsistentIff(s: State, e: Event)
    requires AllConsistent(s) && ConsistentSource(e)
    ensures AllConsistent(Step(s, e)) <==> Fits(s, e)
  {
    hide CommitEffect, UseEffect, LayerCount, DeletePlan, SquashFits, SquashedImage, Imported, Committed, Serves;
    match e
    case Commit(base, diffID, entry, config, containerConfig, platform, ref) =>
      CommitKeepsConsistent(s, base, diffID, entry, config, containerConfig, platform, ref);
    case Squash(_, _, _, _, _) =>
      SquashKeepsConsistentIff(s, e);
    case UseCache(target, parentID, cfg) =>
      if Admissible(target) && (parentID.Some? ==> parentID.value in s.images) && Serves(target, ImageOf(parentID), cfg) {
        CacheKeepsConsistent(s, target, parentID, cfg);
      }
    case _ =>
  }

  lemma ScratchIsConsistent()
    ensures Consistent(SCRATCH)
  {
  }

  /** The cache source that step i uses was loaded from the store earlier in the run. */
  ghost predicate SourceWasStored(es: seq<Event>, i: nat)
    requires i < |es|
  {
    es[i].UseCache? ==> exists j :: 0 <= j <= i && Sha256(es[i].target) in Exec(EMPTY, es[..j]).images
  }

  /** In every run whose squashes all fit, every stored image has exactly one layer per non-empty
      history entry. */
  lemma {:induction false} FittingRunsStayConsistent(es: seq<Event>)
    requires forall i :: 0 <= i < |es| ==> SourceWasStored(es, i) && Fits(Exec(EMPTY, es[..i]), es[i])
    ensures AllConsistent(Exec(EMPTY, es))
    decreases |es|
  {
    if es != [] {
      var n := |es| - 1;
      PrefixFits(es, n);
      FittingRunsStayConsistent(es[..n]);
      if es[n].UseCache? {
        assert SourceWasStored(es, n);
        var j :| 0 <= j <= n && Sha256(es[n].target) in Exec(EMPTY, es[..j]).images;
        PrefixFits(es, j);
        FittingRunsStayConsistent(es[..j]);
      }
      hide Step, Fits;
      StepKeepsConsistentIff(Exec(EMPTY, es[..n]), es[n]);
    }
  }

  lemma PrefixFits(es: seq<Event>, n: nat)
    requires n <= |es|
    requires forall i :: 0 <= i < |es| ==> SourceWasStored(es, i) && Fits(Exec(EMPTY, es[..i]), es[i])
    ensures forall i :: 0 <= i < n ==> SourceWasStored(es[..n], i) && Fits(Exec(EMPTY, es[..n][..i]), es[..n][i])
  {
    hide Fits, Step, Exec;
    forall i | 0 <= i < n ensures SourceWasStored(es[..n], i) && Fits(Exec(EMPTY, es[..n][..i]), es[..n][i]) {
      assert es[..n][..i] == es[..i];
      assert SourceWasStored(es, i);
      if es[i].UseCache? {
        var j :| 0 <= j <= i && Sha256(es[i].target) in Exec(EMPTY, es[..j]).images;
        assert es[..n][..j] == es[..j];
      }
    }
  }
}

/** Replaying the commands of a cache source, one GetCache call per command, each on top of the image
    the previous call returned (builder/dockerfile/internals.go, probeCache). */
module CacheReplay {
  import opened Wrappers
  import opened ImageModel
  import opened ImageStore
  import opened ImageBuild
  import opened BuildCache

  /** Every indexed child is stored. */
  ghost predicate NoStaleChildren(s: State) {
    forall p, k :: p in s.children && k in s.children[p] ==> k in s.images
  }

  /** Nothing a lookup needs has been deleted: the source is stored, and so is every indexed child. */
  ghost predicate Supported(s: State, target: Image) {
    NoStaleChildren(s) && Sha256(target) in s.images
  }

  /** From scratch the local lookup also offers parentless images that were pulled with a whole history.
      Here no such ancestor of the source was made by the command, so that a hit holds a single entry. */
  ghost predicate RootsFit(s: State, compare: (RunConfig, RunConfig) -> bool, cfg: RunConfig, target: Image)
    requires ValidEdges(s)
  {
    forall i :: i in s.images && i !in s.parents && compare(i.image.containerConfig, cfg) && IsParent(s, Sha256(target), i) ==>
      |i.image.history| == 1
  }

  /** `ids` are the target's prefixes of lengths b + 1, b + 2, ... in order, with their layers. */
  ghost predicate Prefixes(target: Image, b: nat, ids: seq<ImageID>)
    requires Admissible(target)
  {
    forall k :: 0 <= k < |ids| ==> PrefixOf(target, b + k + 1, ids[k].image)
  }

  /** The image to build on after the given ones. */
  function Last(base: Option<ImageID>, ids: seq<ImageID>): Option<ImageID> {
    if ids == [] then base else Some(ids[|ids| - 1])
  }

  /** What a source can answer on top of its first k entries. */
  predicate CanAnswer(target: Image, k: nat) {
    k == 0 || LayerToCome(target, k)
  }

  /** The local lookup matches nothing from the m-th command on: no child of an image that holds the
      source's first b + j entries was made by command j, and without a base no parentless image was. */
  ghost predicate Misses(s: State, compare: (RunConfig, RunConfig) -> bool, target: Image, b: nat, cfgs: seq<RunConfig>, m: nat)
    requires b + |cfgs| <= |target.history|
  {
    forall j, p, c :: m <= j < |cfgs| && p in s.children && p.image.history == target.history[..b + j] && c in s.children[p] ==>
      !compare(c.image.containerConfig, cfgs[j])
  }

  ghost predicate NoRootMatches(s: State, compare: (RunConfig, RunConfig) -> bool, cfg: RunConfig) {
    forall i :: i in s.images && i !in s.parents ==> !compare(i.image.containerConfig, cfg)
  }

  // ---------------------------------------------------------------- what a step does to the stores

  /** Children appear under images whose history is `len` long and nowhere else. */
  ghost predicate ChildrenOnlyAt(s: State, s': State, len: nat) {
    forall p, c :: p in s'.children && c in s'.children[p] && |p.image.history| != len ==> p in s.children && c in s.children[p]
  }

  lemma SetParentKeepsIndex(s: State, id: ImageID, parent: ImageID)
    requires s.children.Keys == s.images && parent in s.images
    ensures NoStaleChildren(s) && id in s.images ==> NoStaleChildren(StoreSetParent(s, id, parent))
    ensures ChildrenOnlyAt(s, StoreSetParent(s, id, parent), |parent.image.history|)
  {
    var s' := StoreSetParent(s, id, parent);
    forall p, k | p in s'.children && k in s'.children[p]
      ensures k == id || k in s.children[p]
      ensures p == parent || k in s.children[p]
    {
      SetParentChildren(s, id, parent, p, k);
    }
  }

  lemma CreateUnderKeepsIndex(s: State, img: Image, base: Option<ImageID>)
    requires s.children.Keys == s.images && Admissible(img)
    requires base.Some? ==> base.value in s.images
    ensures var s' := CreateUnder(s, img, base);
            && (NoStaleChildren(s) ==> NoStaleChildren(s')) && Sha256(img) in s'.images
            && ChildrenOnlyAt(s, s', HistoryLength(ImageOf(base)))
  {
    hide Admissible;
    if base.Some? {
      SetParentKeepsIndex(StoreCreate(s, img), Sha256(img), base.value);
    }
  }

  lemma UseKeepsIndex(s: State, target: Image, parentID: Option<ImageID>, cfg: RunConfig)
    requires Inv(s) && Serves(target, ImageOf(parentID), cfg) && Admissible(target)
    requires parentID.Some? ==> parentID.value in s.images
    ensures var s', next := UseEffect(s, target, parentID, cfg), Sha256(NextImage(target, ImageOf(parentID), cfg));
            && (Supported(s, target) ==> Supported(s', target) && next in s'.images)
            && ChildrenOnlyAt(s, s', HistoryLength(ImageOf(parentID)))
            && (HistoryLength(ImageOf(parentID)) + 1 < |target.history| ==> next in s'.images)
  {
    ParentAdmissible(s, parentID);
    NextImageExtends(target, ImageOf(parentID), cfg);
    KeysAgree(s);
    NextOfLastEntry(target, ImageOf(parentID), cfg);
    hide Inv, NextImage, Admissible;
    var next := NextImage(target, ImageOf(parentID), cfg);
    if HistoryLength(ImageOf(parentID)) == |target.history| - 1 {
      if parentID.Some? { SetParentKeepsIndex(s, Sha256(target), parentID.value); }
    } else {
      hide Serves, CreateUnder;
      CreateUnderOnlyAdds(s, next, parentID);
      CreateUnderKeepsIndex(s, next, parentID);
    }
  }

  lemma NextOfLastEntry(target: Image, parent: Option<Image>, cfg: RunConfig)
    requires Serves(target, parent, cfg) && Admissible(target)
    ensures HistoryLength(parent) + 1 == |target.history| ==> NextImage(target, parent, cfg) == target
  {
    hide LayerCount;
  }

  // ---------------------------------------------------------------- one step

  /** The image a step builds on. */
  ghost predicate Standing(s: State, target: Image, parentID: Option<ImageID>)
    requires Admissible(target)
  {
    parentID.Some? ==> parentID.value in s.images && PrefixOf(target, |parentID.value.image.history|, parentID.value.image)
  }

  lemma SingleSource(target: Image, parent: Option<Image>, cfg: RunConfig)
    ensures FirstServing([target], parent, cfg) == if Serves(target, parent, cfg) then Some(target) else None
  {
    assert FirstServing([target][1..], parent, cfg) == None;
  }

  /** What the source yields when no local image is accepted. */
  lemma ServesNext(target: Image, parentID: Option<ImageID>, cfg: RunConfig)
    requires Consistent(target) && HistoryLength(ImageOf(parentID)) < |target.history|
    requires ValidConfig(cfg, target.history[HistoryLength(ImageOf(parentID))])
    requires parentID.Some? ==> PrefixOf(target, |parentID.value.image.history|, parentID.value.image)
    ensures Serves(target, ImageOf(parentID), cfg) <==> CanAnswer(target, HistoryLength(ImageOf(parentID)))
    ensures Serves(target, ImageOf(parentID), cfg) ==>
              PrefixOf(target, HistoryLength(ImageOf(parentID)) + 1, NextImage(target, ImageOf(parentID), cfg))
  {
    hide NextImage, LayersOf, LayerToCome;
    var parent := ImageOf(parentID);
    ServesIff(target, parent, cfg);
    if parent.Some? {
      PrefixIsConsistent(target, |parent.value.history|, parent.value);
    }
    hide LayerCount;
    if Serves(target, parent, cfg) {
      NextImageExtends(target, parent, cfg);
      NextImageLayers(target, parent, cfg);
    }
  }

  /** The images a lookup compares with. */
  ghost function SiblingsIn(s: State, parentID: Option<ImageID>): set<ImageID> {
    if parentID.None? then set i | i in s.images && i !in s.parents
    else if parentID.value in s.children then s.children[parentID.value] else {}
  }

  /** The command is the source's next one, and from scratch no longer ancestor of the source matches it. */
  ghost predicate StepFits(s: State, compare: (RunConfig, RunConfig) -> bool, target: Image, parentID: Option<ImageID>, cfg: RunConfig)
    requires ValidEdges(s)
  {
    && HistoryLength(ImageOf(parentID)) < |target.history|
    && ValidConfig(cfg, target.history[HistoryLength(ImageOf(parentID))])
    && (parentID.None? ==> RootsFit(s, compare, cfg, target))
  }

  /** An accepted local image is a prefix and never the source itself; on a parent, or if the step fits, the next one. */
  lemma LocalHitIsNext(s: State, compare: (RunConfig, RunConfig) -> bool, target: Image, parentID: Option<ImageID>,
                       cfg: RunConfig, hit: ImageID)
    requires Inv(s) && Consistent(target) && Accepted(s, [target], hit)
    requires hit in SiblingsIn(s, parentID) && compare(hit.image.containerConfig, cfg)
    ensures PrefixOf(target, |hit.image.history|, hit.image) && |hit.image.history| < |target.history|
    ensures parentID.Some? || StepFits(s, compare, target, parentID, cfg) ==>
              |hit.image.history| == HistoryLength(ImageOf(parentID)) + 1
  {
    hide LayerCount, LayersOf, IsParent, ValidConfig;
    assert IsParent(s, Sha256(target), hit);
    AcceptedIsPrefix(s, target, hit);
    assert parentID.Some? ==> Extends(hit.image, parentID.value.image);
  }

  /** The outcome of a step that no local image answers. */
  lemma SourceAnswers(s: State, s': State, sources: seq<Image>, target: Image, parentID: Option<ImageID>, cfg: RunConfig,
                      r: Result<Option<ImageID>, CacheError>)
    requires Inv(s) && Consistent(target) && Standing(s, target, parentID)
    requires Determined([target], sources, s, s', parentID, cfg, r)
    ensures var k := HistoryLength(ImageOf(parentID));
            && ChildrenOnlyAt(s, s', k)
            && (r.Ok? && r.value.Some? ==>
                  && CanAnswer(target, k) && PrefixOf(target, k + 1, r.value.value.image)
                  && (r.value.value in s'.images || (parentID.None? && |target.history| == 1))
                  && (k + 1 == |target.history| ==> r.value.value == Sha256(target)))
            && (Supported(s, target) ==> Supported(s', target) && r.Ok?)
            && (Supported(s, target) && k < |target.history| && ValidConfig(cfg, target.history[k]) && CanAnswer(target, k) ==> r.value.Some?)
  {
    var parent := ImageOf(parentID);
    SingleSource(target, parent, cfg);
    if HistoryLength(parent) < |target.history| && ValidConfig(cfg, target.history[HistoryLength(parent)]) {
      ServesNext(target, parentID, cfg);
    }
    if Serves(target, parent, cfg) {
      UseKeepsIndex(s, target, parentID, cfg);
      NextOfLastEntry(target, parent, cfg);
    }
    hide Inv, Serves, NextImage, UseEffect, FirstServing, PrefixOf, CanAnswer, ValidConfig, LayerCount;
  }

  /** One lookup on a prefix of the source. A hit is a prefix of the source with its layers, one entry
      further than the parent. If the step fits and nothing has been deleted there is a hit whenever
      the prefix is empty or a layer is to come, and only then if no local image matches or this is the
      source's last entry. */
  method ReplayStep(cache: ImageCache, target: Image, parentID: Option<ImageID>, cfg: RunConfig)
    returns (r: Result<Option<ImageID>, CacheError>)
    requires cache.Valid() && cache.sources == [target] && Consistent(target)
    requires Standing(cache.d.View(), target, parentID)
    modifies cache`sources, cache.d
    ensures cache.Valid() && cache.sources == [target]
    ensures ChildrenOnlyAt(old(cache.d.View()), cache.d.View(), HistoryLength(ImageOf(parentID)))
    ensures r.Ok? && r.value.Some? ==>
              && PrefixOf(target, |r.value.value.image.history|, r.value.value.image)
              && (parentID.Some? ==> |r.value.value.image.history| == HistoryLength(ImageOf(parentID)) + 1)
              && (r.value.value in cache.d.images || (parentID.None? && |target.history| == 1))
    ensures old(Supported(cache.d.View(), target)) ==> Supported(cache.d.View(), target) && r.Ok?
    ensures var k := HistoryLength(ImageOf(parentID));
            old(StepFits(cache.d.View(), cache.compare, target, parentID, cfg)) ==>
              && (r.Ok? && r.value.Some? ==>
                    && |r.value.value.image.history| == k + 1
                    && (k + 1 == |target.history| ==> r.value.value == Sha256(target) && CanAnswer(target, k))
                    && (CanAnswer(target, k) || Matching(SiblingsIn(old(cache.d.View()), parentID), cache.compare, cfg) != {}))
              && (old(Supported(cache.d.View(), target)) && CanAnswer(target, k) ==> r.value.Some?)
  {
    ghost var s := cache.d.View();
    KeysAgree(s);
    hide Inv, Consistent, Admissible, Standing, LookupSays, ChildrenOnlyAt, Supported, StepFits, PrefixOf, CanAnswer, Matching, SiblingsIn, ValidEdges;
    r := Lookup(cache, target, parentID, cfg);
    StepFollows(s, cache.d.View(), cache.sources, cache.compare, target, parentID, cfg, r);
  }

  /** What a lookup with a single source may answer. */
  ghost predicate LookupSays(s: State, s': State, sources: seq<Image>, compare: (RunConfig, RunConfig) -> bool, target: Image,
                             parentID: Option<ImageID>, cfg: RunConfig, r: Result<Option<ImageID>, CacheError>)
    requires ValidEdges(s)
  {
    if !(SiblingsIn(s, parentID) <= s.images) then r == Err(StaleChild) && s' == s
    else
      || (r.Ok? && r.value.Some? && Newest(SiblingsIn(s, parentID), compare, cfg, r.value.value)
          && Accepted(s, [target], r.value.value) && s' == s)
      || Determined([target], sources, s, s', parentID, cfg, r)
  }

  method Lookup(cache: ImageCache, target: Image, parentID: Option<ImageID>, cfg: RunConfig)
    returns (r: Result<Option<ImageID>, CacheError>)
    requires cache.Valid() && cache.sources == [target]
    modifies cache`sources, cache.d
    ensures cache.Valid() && cache.sources == [target]
    ensures ValidEdges(old(cache.d.View()))
    ensures LookupSays(old(cache.d.View()), cache.d.View(), cache.sources, cache.compare, target, parentID, cfg, r)
  {
    ghost var s := cache.d.View();
    assert ValidEdges(s);
    assert cache.Siblings(parentID) == SiblingsIn(s, parentID);
    hide Inv, Admissible, Determined, Along, Accepted, Newest, RestoredFrom, Matching, SiblingsIn, ValidEdges;
    r := cache.GetCache(parentID, cfg);
  }

  lemma StepFollows(s: State, s': State, sources: seq<Image>, compare: (RunConfig, RunConfig) -> bool, target: Image,
                    parentID: Option<ImageID>, cfg: RunConfig, r: Result<Option<ImageID>, CacheError>)
    requires Inv(s) && Consistent(target) && Standing(s, target, parentID)
    requires LookupSays(s, s', sources, compare, target, parentID, cfg, r)
    ensures ChildrenOnlyAt(s, s', HistoryLength(ImageOf(parentID)))
    ensures r.Ok? && r.value.Some? ==>
              && PrefixOf(target, |r.value.value.image.history|, r.value.value.image)
              && (parentID.Some? ==> |r.value.value.image.history| == HistoryLength(ImageOf(parentID)) + 1)
              && (r.value.value in s'.images || (parentID.None? && |target.history| == 1))
    ensures Supported(s, target) ==> Supported(s', target) && r.Ok?
    ensures var k := HistoryLength(ImageOf(parentID));
            StepFits(s, compare, target, parentID, cfg) ==>
              && (r.Ok? && r.value.Some? ==>
                    && |r.value.value.image.history| == k + 1
                    && (k + 1 == |target.history| ==> r.value.value == Sha256(target) && CanAnswer(target, k))
                    && (CanAnswer(target, k) || Matching(SiblingsIn(s, parentID), compare, cfg) != {}))
              && (Supported(s, target) && CanAnswer(target, k) ==> r.value.Some?)
  {
    hide Inv, Admissible, Serves, Determined, CanAnswer, ValidConfig, LayerCount, LayersOf, Accepted, RootsFit, ValidEdges;
    if !(SiblingsIn(s, parentID) <= s.images) {
      StaleIsUnsupported(s, target, parentID);
    } else if Determined([target], sources, s, s', parentID, cfg, r) {
      SourceAnswers(s, s', sources, target, parentID, cfg, r);
    } else {
      LocalHitIsNext(s, compare, target, parentID, cfg, r.value.value);
    }
  }

  lemma StaleIsUnsupported(s: State, target: Image, parentID: Option<ImageID>)
    requires !(SiblingsIn(s, parentID) <= s.images)
    ensures !Supported(s, target)
  {
  }

  // ---------------------------------------------------------------- the whole replay

  /** No local image matches a command of the replay. */
  ghost predicate NothingLocal(s: State, compare: (RunConfig, RunConfig) -> bool, target: Image, base: Option<ImageID>, cfgs: seq<RunConfig>)
    requires HistoryLength(ImageOf(base)) + |cfgs| <= |target.history|
  {
    && Misses(s, compare, target, HistoryLength(ImageOf(base)), cfgs, 0)
    && (base.None? && cfgs != [] ==> NoRootMatches(s, compare, cfgs[0]))
  }

  /** Every answer is a prefix of the source with its layers, one entry further than the one before. */
  ghost predicate Climbs(target: Image, base: Option<ImageID>, ids: seq<ImageID>)
    requires Admissible(target)
  {
    forall k :: 0 <= k < |ids| ==>
      && PrefixOf(target, |ids[k].image.history|, ids[k].image)
      && (k > 0 ==> |ids[k].image.history| == |ids[k - 1].image.history| + 1)
      && (k == 0 && base.Some? ==> |ids[k].image.history| == |base.value.image.history| + 1)
  }

  /** From scratch, no longer ancestor of the source matches the first command. */
  ghost predicate Fits(s: State, compare: (RunConfig, RunConfig) -> bool, target: Image, base: Option<ImageID>, cfgs: seq<RunConfig>)
    requires ValidEdges(s)
  {
    base.None? && cfgs != [] ==> RootsFit(s, compare, cfgs[0], target)
  }

  /** How far a replay that began in state s0 has come in state s. */
  ghost predicate Track(s0: State, s: State, compare: (RunConfig, RunConfig) -> bool, target: Image, base: Option<ImageID>,
                        cfgs: seq<RunConfig>, ids: seq<ImageID>)
    requires Admissible(target) && HistoryLength(ImageOf(base)) + |cfgs| == |target.history|
  {
    var b := HistoryLength(ImageOf(base));
    && |ids| <= |cfgs| && Prefixes(target, b, ids)
    && (|ids| < |cfgs| ==> Standing(s, target, Last(base, ids)) && HistoryLength(ImageOf(Last(base, ids))) == b + |ids|)
    && (ids == [] ==> s == s0)
    && (Supported(s0, target) ==> Supported(s, target))
    && (|ids| == |cfgs| > 0 ==> ids[|ids| - 1] == Sha256(target) && CanAnswer(target, |target.history| - 1))
    && (NothingLocal(s0, compare, target, base, cfgs) ==>
          && Misses(s, compare, target, b, cfgs, |ids|)
          && forall k :: b <= k < b + |ids| ==> CanAnswer(target, k))
  }

  lemma TrackOneMore(s0: State, s: State, s': State, compare: (RunConfig, RunConfig) -> bool, target: Image, base: Option<ImageID>,
                     cfgs: seq<RunConfig>, ids: seq<ImageID>, hit: ImageID)
    requires Admissible(target) && HistoryLength(ImageOf(base)) + |cfgs| == |target.history|
    requires Track(s0, s, compare, target, base, cfgs, ids) && |ids| < |cfgs|
    requires var k := HistoryLength(ImageOf(base)) + |ids|;
             && ChildrenOnlyAt(s, s', k)
             && PrefixOf(target, k + 1, hit.image)
             && (k + 1 < |target.history| ==> hit in s'.images)
             && (k + 1 == |target.history| ==> hit == Sha256(target) && CanAnswer(target, k))
             && (Supported(s, target) ==> Supported(s', target))
             && (CanAnswer(target, k) || Matching(SiblingsIn(s, Last(base, ids)), compare, cfgs[|ids|]) != {})
    ensures Track(s0, s', compare, target, base, cfgs, ids + [hit])
  {
    hide CanAnswer, LayersOf, Supported, LayerCount, Matching, ChildrenOnlyAt;
    var b := HistoryLength(ImageOf(base));
    assert ImageOf(Some(hit)) == Some(hit.image) && |hit.image.history| == b + |ids| + 1;
    hide PrefixOf;
    if NothingLocal(s0, compare, target, base, cfgs) {
      NoMatchNow(s, compare, target, base, cfgs, ids);
      hide Misses;
      MissesGoOn(s, s', compare, target, b, cfgs, |ids|);
    }
  }

  /** Where a replay stands, and if it fits its track. */
  ghost predicate Stands(s0: State, s: State, compare: (RunConfig, RunConfig) -> bool, target: Image, base: Option<ImageID>,
                         cfgs: seq<RunConfig>, ids: seq<ImageID>)
    requires ValidEdges(s0) && Admissible(target) && HistoryLength(ImageOf(base)) + |cfgs| == |target.history|
  {
    && |ids| <= |cfgs| && Climbs(target, base, ids)
    && (|ids| < |cfgs| ==> Standing(s, target, Last(base, ids)))
    && (ids == [] ==> s == s0)
    && (Fits(s0, compare, target, base, cfgs) ==> Track(s0, s, compare, target, base, cfgs, ids))
  }

  /** The body of the replay loop: one probe, and its hit is the next image to build on. */
  method Probe(cache: ImageCache, target: Image, base: Option<ImageID>, cfgs: seq<RunConfig>, ids: seq<ImageID>, ghost s0: State)
    returns (hit: Option<ImageID>)
    requires cache.Valid() && cache.sources == [target] && Consistent(target) && ValidEdges(s0)
    requires HistoryLength(ImageOf(base)) + |cfgs| == |target.history| && |ids| < |cfgs|
    requires Stands(s0, cache.d.View(), cache.compare, target, base, cfgs, ids)
    requires ValidConfig(cfgs[|ids|], target.history[HistoryLength(ImageOf(base)) + |ids|])
    modifies cache`sources, cache.d
    ensures cache.Valid() && cache.sources == [target]
    ensures hit.Some? ==> Stands(s0, cache.d.View(), cache.compare, target, base, cfgs, ids + [hit.value])
    ensures hit.None? && Supported(s0, target) && Fits(s0, cache.compare, target, base, cfgs) ==>
              !CanAnswer(target, HistoryLength(ImageOf(base)) + |ids|)
  {
    ghost var s := cache.d.View();
    ghost var parentID := Last(base, ids);
    assert Admissible(target) && Standing(s, target, parentID);
    StepFitsHere(s0, s, cache.compare, target, base, cfgs, ids);
    hide Inv, CanAnswer, Consistent, Admissible, StepFits, Fits, ValidConfig, PrefixOf, Standing, Supported, Track, ChildrenOnlyAt, Matching,
         SiblingsIn, ValidEdges, Stands, Climbs;
    var r := ReplayStep(cache, target, Last(base, ids), cfgs[|ids|]);
    if r.Err? || r.value.None? {
      return None;
    }
    StandsOneMore(s0, s, cache.d.View(), cache.compare, target, base, cfgs, ids, r.value.value);
    return r.value;
  }

  lemma StepFitsHere(s0: State, s: State, compare: (RunConfig, RunConfig) -> bool, target: Image, base: Option<ImageID>,
                     cfgs: seq<RunConfig>, ids: seq<ImageID>)
    requires ValidEdges(s0) && ValidEdges(s) && Admissible(target) && HistoryLength(ImageOf(base)) + |cfgs| == |target.history|
    requires Stands(s0, s, compare, target, base, cfgs, ids) && |ids| < |cfgs|
    requires ValidConfig(cfgs[|ids|], target.history[HistoryLength(ImageOf(base)) + |ids|])
    ensures Fits(s0, compare, target, base, cfgs) ==>
              && StepFits(s, compare, target, Last(base, ids), cfgs[|ids|])
              && HistoryLength(ImageOf(Last(base, ids))) == HistoryLength(ImageOf(base)) + |ids|
              && (Supported(s0, target) ==> Supported(s, target))
  {
    hide LayerCount, LayersOf, Misses, CanAnswer, Supported, RootsFit, PrefixOf, ValidConfig, NothingLocal;
  }

  lemma StandsOneMore(s0: State, s: State, s': State, compare: (RunConfig, RunConfig) -> bool, target: Image, base: Option<ImageID>,
                      cfgs: seq<RunConfig>, ids: seq<ImageID>, hit: ImageID)
    requires ValidEdges(s0) && Admissible(target) && HistoryLength(ImageOf(base)) + |cfgs| == |target.history|
    requires Stands(s0, s, compare, target, base, cfgs, ids) && |ids| < |cfgs|
    requires PrefixOf(target, |hit.image.history|, hit.image)
    requires Last(base, ids).Some? ==> |hit.image.history| == HistoryLength(ImageOf(Last(base, ids))) + 1
    requires hit in s'.images || (Last(base, ids).None? && |target.history| == 1)
    requires Fits(s0, compare, target, base, cfgs) ==>
               var k := HistoryLength(ImageOf(base)) + |ids|;
               && ChildrenOnlyAt(s, s', k)
               && |hit.image.history| == k + 1
               && (k + 1 == |target.history| ==> hit == Sha256(target) && CanAnswer(target, k))
               && (Supported(s, target) ==> Supported(s', target))
               && (CanAnswer(target, k) || Matching(SiblingsIn(s, Last(base, ids)), compare, cfgs[|ids|]) != {})
    ensures Stands(s0, s', compare, target, base, cfgs, ids + [hit])
  {
    hide LayerCount, LayersOf, CanAnswer, Supported, PrefixOf, Matching, SiblingsIn, ChildrenOnlyAt, Fits, Track;
    if Fits(s0, compare, target, base, cfgs) {
      TrackOneMore(s0, s, s', compare, target, base, cfgs, ids, hit);
    }
    ClimbsOneMore(target, base, ids, hit);
    assert Last(base, ids + [hit]) == Some(hit);
    hide Climbs;
  }

  lemma ClimbsOneMore(target: Image, base: Option<ImageID>, ids: seq<ImageID>, hit: ImageID)
    requires Admissible(target) && Climbs(target, base, ids) && PrefixOf(target, |hit.image.history|, hit.image)
    requires Last(base, ids).Some? ==> |hit.image.history| == HistoryLength(ImageOf(Last(base, ids))) + 1
    ensures Climbs(target, base, ids + [hit])
  {
    hide PrefixOf;
  }

  /** What a replay that fits achieves. */
  ghost predicate Outcome(s0: State, compare: (RunConfig, RunConfig) -> bool, target: Image, base: Option<ImageID>,
                          cfgs: seq<RunConfig>, ids: seq<ImageID>)
    requires Admissible(target) && HistoryLength(ImageOf(base)) + |cfgs| == |target.history|
  {
    var b := HistoryLength(ImageOf(base));
    && Prefixes(target, b, ids)
    && (|ids| == |cfgs| > 0 ==> ids[|ids| - 1] == Sha256(target))
    && (Supported(s0, target) ==>
          && (forall k :: b <= k < |target.history| && CanAnswer(target, k) ==> k < b + |ids|)
          && (|cfgs| > 0 ==> (|ids| == |cfgs| <==> |target.history| == 1 || !target.history[|target.history| - 1].emptyLayer)))
    && (NothingLocal(s0, compare, target, base, cfgs) ==> forall k :: b <= k < b + |ids| ==> CanAnswer(target, k))
  }

  /** The whole replay, from scratch or from any stored prefix of the source. The answers are ever longer
      prefixes of the source with their layers, whatever is found locally. If the replay fits, the last one is the
      source itself; and while nothing has been deleted, step k answers if the prefix is empty or a layer
      is to come, and only then if no local image matches; and the source is reached, local matches or
      not, exactly when it has a single entry or its last entry carries a layer. */
  method Replay(cache: ImageCache, target: Image, base: Option<ImageID>, cfgs: seq<RunConfig>) returns (ids: seq<ImageID>)
    requires cache.Valid() && cache.sources == [target] && Consistent(target)
    requires Standing(cache.d.View(), target, base)
    requires HistoryLength(ImageOf(base)) + |cfgs| == |target.history|
    requires forall k :: 0 <= k < |cfgs| ==> ValidConfig(cfgs[k], target.history[HistoryLength(ImageOf(base)) + k])
    modifies cache`sources, cache.d
    ensures |ids| <= |cfgs| && Climbs(target, base, ids)
    ensures old(Fits(cache.d.View(), cache.compare, target, base, cfgs)) ==>
              Outcome(old(cache.d.View()), cache.compare, target, base, cfgs, ids)
  {
    ghost var s0 := cache.d.View();
    ids := [];
    TrackStarts(s0, cache.compare, target, base, cfgs);
    assert Admissible(target) && ValidEdges(s0);
    assert Stands(s0, s0, cache.compare, target, base, cfgs, ids);
    hide Inv, Consistent, Admissible, Standing, CanAnswer, Fits, ValidConfig, Climbs, Outcome, Supported, Stands, ValidEdges;
    while |ids| < |cfgs|
      invariant |ids| <= |cfgs|
      invariant cache.Valid() && cache.sources == [target]
      invariant Stands(s0, cache.d.View(), cache.compare, target, base, cfgs, ids)
      decreases |cfgs| - |ids|
    {
      ghost var s := cache.d.View();
      var hit := Probe(cache, target, base, cfgs, ids, s0);
      if hit.None? {
        StandsAtEnd(s0, s, cache.compare, target, base, cfgs, ids);
        return;
      }
      ids := ids + [hit.value];
    }
    StandsAtEnd(s0, cache.d.View(), cache.compare, target, base, cfgs, ids);
  }

  lemma StandsAtEnd(s0: State, s: State, compare: (RunConfig, RunConfig) -> bool, target: Image, base: Option<ImageID>,
                    cfgs: seq<RunConfig>, ids: seq<ImageID>)
    requires ValidEdges(s0) && Admissible(target) && HistoryLength(ImageOf(base)) + |cfgs| == |target.history|
    requires Stands(s0, s, compare, target, base, cfgs, ids)
    requires |ids| < |cfgs| && Supported(s0, target) && Fits(s0, compare, target, base, cfgs) ==>
               !CanAnswer(target, HistoryLength(ImageOf(base)) + |ids|)
    ensures |ids| <= |cfgs| && Climbs(target, base, ids)
    ensures Fits(s0, compare, target, base, cfgs) ==> Outcome(s0, compare, target, base, cfgs, ids)
  {
    hide Climbs, Fits, Supported, CanAnswer, Track, Outcome;
    if Fits(s0, compare, target, base, cfgs) {
      TrackEnds(s0, s, compare, target, base, cfgs, ids);
    }
  }

  lemma TrackStarts(s: State, compare: (RunConfig, RunConfig) -> bool, target: Image, base: Option<ImageID>, cfgs: seq<RunConfig>)
    requires Admissible(target) && HistoryLength(ImageOf(base)) + |cfgs| == |target.history| && Standing(s, target, base)
    ensures Track(s, s, compare, target, base, cfgs, [])
  {
    hide LayerCount, Misses, CanAnswer, Supported;
  }

  /** What holds when a replay stops, because a step did not answer or all have. */
  lemma TrackEnds(s0: State, s: State, compare: (RunConfig, RunConfig) -> bool, target: Image, base: Option<ImageID>,
                  cfgs: seq<RunConfig>, ids: seq<ImageID>)
    requires Admissible(target) && HistoryLength(ImageOf(base)) + |cfgs| == |target.history|
    requires Track(s0, s, compare, target, base, cfgs, ids)
    requires |ids| < |cfgs| && Supported(s0, target) ==> !CanAnswer(target, HistoryLength(ImageOf(base)) + |ids|)
    ensures Outcome(s0, compare, target, base, cfgs, ids)
  {
    StopsWhere(target, HistoryLength(ImageOf(base)) + |ids|);
    if |cfgs| > 0 {
      LastAnswers(target);
    }
    hide LayerCount, Misses, CanAnswer, Supported, PrefixOf;
  }

  /** If a step can answer, so can every step before it. */
  lemma StopsWhere(target: Image, j: nat)
    ensures forall k: nat :: k >= j && CanAnswer(target, k) ==> CanAnswer(target, j)
  {
  }

  lemma LastAnswers(target: Image)
    requires target.history != []
    ensures CanAnswer(target, |target.history| - 1) <==> |target.history| == 1 || !target.history[|target.history| - 1].emptyLayer
  {
  }

  lemma NoMatchNow(s: State, compare: (RunConfig, RunConfig) -> bool, target: Image, base: Option<ImageID>, cfgs: seq<RunConfig>,
                   ids: seq<ImageID>)
    requires HistoryLength(ImageOf(base)) + |cfgs| <= |target.history| && |ids| < |cfgs|
    requires Misses(s, compare, target, HistoryLength(ImageOf(base)), cfgs, |ids|)
    requires base.None? && ids == [] ==> NoRootMatches(s, compare, cfgs[0])
    requires Last(base, ids).Some? ==> Last(base, ids).value.image.history == target.history[..HistoryLength(ImageOf(base)) + |ids|]
    ensures Matching(SiblingsIn(s, Last(base, ids)), compare, cfgs[|ids|]) == {}
  {
  }

  lemma MissesGoOn(s: State, s': State, compare: (RunConfig, RunConfig) -> bool, target: Image, b: nat, cfgs: seq<RunConfig>, m: nat)
    requires b + |cfgs| <= |target.history| && m < |cfgs| && Misses(s, compare, target, b, cfgs, m)
    requires ChildrenOnlyAt(s, s', b + m)
    ensures Misses(s', compare, target, b, cfgs, m + 1)
  {
    forall j, p, c | m + 1 <= j < |cfgs| && p in s'.children && p.image.history == target.history[..b + j] && c in s'.children[p]
      ensures !compare(c.image.containerConfig, cfgs[j])
    {
      assert |p.image.history| == b + j;
    }
  }

  // ---------------------------------------------------------------- a replay that does not fit

  function Command(cmd: string): RunConfig {
    RunConfig([cmd], "")
  }

  function Entry(cmd: string): History {
    History(0, "", cmd, "", false)
  }

  const SOME_LAYER: DiffID :=
    var d := "sha256:1";
    d

  /** The image with these commands, each of which added a layer; it was committed by the last one. */
  function Built(cmds: seq<string>): Image
    requires cmds != []
  {
    Image(seq(|cmds|, i requires 0 <= i < |cmds| => Entry(cmds[i])), seq(|cmds|, i requires 0 <= i < |cmds| => SOME_LAYER),
          0, Command(cmds[|cmds| - 1]), Command(cmds[|cmds| - 1]), "")
  }

  lemma {:induction false} BuiltIsConsistent(cmds: seq<string>)
    requires cmds != []
    ensures Consistent(Built(cmds))
    decreases |cmds|
  {
    var h := Built(cmds).history;
    if |cmds| == 1 {
      assert h == [] + [Entry(cmds[0])];
      LayerCountAppend([], Entry(cmds[0]));
    } else {
      var front := cmds[..|cmds| - 1];
      BuiltIsConsistent(front);
      assert h == Built(front).history + [Entry(cmds[|cmds| - 1])];
      LayerCountAppend(Built(front).history, Entry(cmds[|cmds| - 1]));
    }
  }

  /** A stored image with a single stored child. */
  function Pair(p: ImageID, t: ImageID): State {
    State({p, t}, map[t := p], map[p := {t}, t := {}], map[], map[])
  }

  predicate Equal(x: RunConfig, y: RunConfig) {
    x == y
  }

  lemma BuiltExtends(a: string, b: string)
    ensures Extends(Built([a, a, b]), Built([a, a])) && Consistent(Built([a, a])) && Consistent(Built([a, a, b]))
  {
    BuiltIsConsistent([a, a]);
    BuiltIsConsistent([a, a, b]);
    var p, t := Built([a, a]), Built([a, a, b]);
    assert p.history == t.history[..2] && p.diffIDs == t.diffIDs[..2];
  }

  lemma PairIsValid(p: ImageID, t: ImageID)
    requires Extends(t.image, p.image) && Admissible(t.image) && Admissible(p.image)
    ensures Inv(Pair(p, t))
  {
    hide Admissible;
  }

  /** The daemon with these two images, and a cache whose source is the child. */
  method PairCache(p: Image, t: Image) returns (cache: ImageCache)
    requires Extends(t, p) && Admissible(t) && Admissible(p)
    ensures cache.sources == [t] && cache.compare == Equal && cache.d.View() == Pair(Sha256(p), Sha256(t)) && cache.Valid()
    ensures fresh(cache) && fresh(cache.d)
  {
    PairIsValid(Sha256(p), Sha256(t));
    hide Inv, Admissible;
    var d := new Daemon();
    var _ := d.Create(p);
    var _ := d.Create(t);
    assert d.View() == State({Sha256(p), Sha256(t)}, map[], map[Sha256(p) := {}, Sha256(t) := {}], map[], map[]);
    var _ := d.SetParent(Sha256(t), Sha256(p));
    PairChildren(Sha256(p), Sha256(t));
    cache := new ImageCache(d, Equal, [t]);
  }

  lemma PairChildren(p: ImageID, t: ImageID)
    requires p != t
    ensures StoreSetParent(State({p, t}, map[], map[p := {}, t := {}], map[], map[]), t, p) == Pair(p, t)
  {
    assert {} + {t} == {t};
    var both: map<ImageID, set<ImageID>> := map[p := {}, t := {}];
    assert both[p := {t}] == map[p := {t}, t := {}];
  }

  /** From scratch the parent is the only local match for its own last command, and it is accepted. */
  lemma PulledAnswers(p: ImageID, t: ImageID, cfg: RunConfig)
    requires Extends(t.image, p.image) && Inv(Pair(p, t)) && p.image.containerConfig == cfg
    ensures SiblingsIn(Pair(p, t), None) == {p} && Matching({p}, Equal, cfg) == {p}
    ensures Accepted(Pair(p, t), [t.image], p)
  {
    hide Inv;
    InvHasEdges(Pair(p, t));
    assert t.image in [t.image] && IsParent(Pair(p, t), Sha256(t.image), p);
  }

  lemma InvHasEdges(s: State)
    requires Inv(s)
    ensures ValidEdges(s)
  {
  }

  /** On the parent neither its child nor the source answers a command that is not the child's last one. */
  lemma PulledMisses(p: ImageID, t: ImageID, cfg: RunConfig)
    requires Extends(t.image, p.image) && t.image.containerConfig != cfg && !ValidConfig(cfg, t.image.history[|p.image.history|])
    ensures SiblingsIn(Pair(p, t), Some(p)) == {t} && Matching({t}, Equal, cfg) == {}
    ensures FirstServing([t.image], Some(p.image), cfg) == None
  {
    SingleSource(t.image, Some(p.image), cfg);
  }

  /** Commands a, a, b; the image of the first two was pulled as a whole, the source is built on it.
      From scratch the first lookup answers with that image, two entries long, since its last command was a
      too. The second lookup then asks for a where the source goes on with b, and misses: the replay
      ends after one answer although the source's last entry carries a layer. */
  method LosesItsPlace(a: string, b: string) returns (first: Result<Option<ImageID>, CacheError>, second: Result<Option<ImageID>, CacheError>)
    requires a != b
    ensures first == Ok(Some(Sha256(Built([a, a])))) && second == Ok(None)
  {
    var pulled, target := Sha256(Built([a, a])), Sha256(Built([a, a, b]));
    BuiltExtends(a, b);
    assert pulled.image.containerConfig == Command(a) && target.image.containerConfig == Command(b);
    assert target.image.history[2] == Entry(b) && |pulled.image.history| == 2 && Join([a]) == a;
    hide Built, Inv, Admissible, Accepted, Matching, IsParent, FirstServing;
    var cache := PairCache(pulled.image, target.image);
    PulledAnswers(pulled, target, Command(a));
    PulledMisses(pulled, target, Command(a));
    assert cache.Siblings(None) == SiblingsIn(Pair(pulled, target), None);
    first := cache.GetCache(None, Command(a));
    assert cache.Siblings(Some(pulled)) == SiblingsIn(Pair(pulled, target), Some(pulled));
    second := cache.GetCache(Some(pulled), Command(a));
  }
}

/** Creating images: import, commit, squash and tagging (daemon/import.go, daemon/commit.go,
    daemon/images.go, daemon/image_tag.go). */
module ImageBuild {
  import opened Wrappers
  import opened ImageModel
  import opened ImageStore

  datatype BuildError = NoSuchImage | NoSuchLayer | NotAParentLayer | StoreFailed(why: StoreError)

  /** Creating an image and, when it has a base, recording the base as its parent. */
  function CreateUnder(s: State, img: Image, base: Option<ImageID>): State {
    var s' := StoreCreate(s, img);
    if base.None? then s' else StoreSetParent(s', Sha256(img), base.value)
  }

  /** reference/store.go, AddTag with force: the tag moves, unless its name is the digest algorithm's. */
  function Tagged(s: State, ref: Ref, id: ImageID): State {
    if ref.repo == "sha256" then s else s.(refs := s.refs[ref := id])
  }

  /** The image a container's commit starts from. */
  function BaseOf(base: Option<ImageID>): Image {
    if base.Some? then base.value.image else SCRATCH
  }

  lemma CreateUnderKeepsInv(s: State, img: Image, base: Option<ImageID>)
    requires Inv(s)
    requires base.Some? ==> base.value in s.images && Extends(img, base.value.image)
    ensures Inv(CreateUnder(s, img, base))
  {
    hide Inv;
    CreateKeepsInv(s, img);
    if base.Some? {
      SetParentKeepsInv(StoreCreate(s, img), Sha256(img), base.value);
    }
  }

  lemma CreateUnderOnlyAdds(s: State, img: Image, base: Option<ImageID>)
    ensures s.images <= CreateUnder(s, img, base).images
    ensures CreateUnder(s, img, base).images <= s.images + {Sha256(img)}
    ensures CreateUnder(s, img, base).refs == s.refs && CreateUnder(s, img, base).containers == s.containers
  {
    hide Admissible;
  }

  lemma CreateUnderShape(s: State, img: Image, base: Option<ImageID>)
    requires Inv(s) && Admissible(img)
    requires base.Some? ==> base.value in s.images
    ensures var s' := CreateUnder(s, img, base);
            && Sha256(img) in s'.images
            && (base.Some? ==> Sha256(img) in s'.parents && s'.parents[Sha256(img)] == base.value)
  {
    assert s.children.Keys == s.images;
    hide Inv, Extends, Admissible;
  }

  lemma TaggedKeepsInv(s: State, ref: Ref, id: ImageID)
    requires Inv(s) && id in s.images
    ensures Inv(Tagged(s, ref, id))
  {
    hide Extends, Admissible;
  }

  method ImportImage(d: Daemon, diffID: DiffID, created: int, msg: string, config: RunConfig, platform: string, ref: Option<Ref>)
    returns (r: Result<ImageID, BuildError>)
    requires Inv(d.View()) && (ref.Some? ==> ref.value.Tag?)
    modifies d
    ensures Inv(d.View())
    ensures var s, img := old(d.View()), Imported(diffID, created, msg, config, platform);
            && Sha256(img) in d.images && Consistent(img)
            && img == Image([History(created, "", "", msg, false)], [diffID], created, config, RunConfig([], ""), platform)
            && d.View() == (if ref.None? then StoreCreate(s, img) else Tagged(StoreCreate(s, img), ref.value, Sha256(img)))
            && r == if ref.Some? && ref.value.repo == "sha256" then Err(StoreFailed(AmbiguousName)) else Ok(Sha256(img))
  {
    var img := Imported(diffID, created, msg, config, platform);
    CreateKeepsInv(d.View(), img);
    var id := d.Create(img);
    if ref.Some? {
      TaggedKeepsInv(d.View(), ref.value, id.value);
      var err := d.AddReference(ref.value, id.value, true);
      if err.Some? {
        return Err(StoreFailed(AmbiguousName));
      }
    }
    return Ok(id.value);
  }

  /** What committing leaves behind. */
  function CommitEffect(s: State, base: Option<ImageID>, img: Image, ref: Option<Ref>): State {
    if base.Some? && base.value !in s.images then s
    else
      var s' := CreateUnder(s, img, base);
      if ref.None? then s' else Tagged(s', ref.value, Sha256(img))
  }

  lemma CommitKeepsInv(s: State, base: Option<ImageID>, img: Image, ref: Option<Ref>)
    requires Inv(s) && Admissible(img) && Extends(img, BaseOf(base))
    ensures Inv(CommitEffect(s, base, img, ref))
    ensures base.None? || base.value in s.images ==>
              var s' := CommitEffect(s, base, img, ref);
              && Sha256(img) in s'.images
              && (base.Some? ==> Sha256(img) in s'.parents && s'.parents[Sha256(img)] == base.value)
  {
    if base.None? || base.value in s.images {
      CreateUnderShape(s, img, base);
      hide Inv, Extends, CreateUnder;
      CreateUnderKeepsInv(s, img, base);
      if ref.Some? {
        TaggedKeepsInv(CreateUnder(s, img, base), ref.value, Sha256(img));
      }
    }
  }

  /** Commit: the new image has the base's history plus one entry and the base as its parent, and it
      has a layer more exactly when the container changed something. */
  method Commit(d: Daemon, base: Option<ImageID>, diffID: DiffID, entry: History,
                config: RunConfig, containerConfig: RunConfig, platform: string, ref: Option<Ref>)
    returns (r: Result<ImageID, BuildError>)
    requires Inv(d.View()) && (ref.Some? ==> ref.value.Tag?)
    modifies d
    ensures Inv(d.View())
    ensures d.View() == CommitEffect(old(d.View()), base,
                                     Committed(BaseOf(base), diffID, entry, config, containerConfig, platform), ref)
    ensures r == Err(NoSuchImage) <==> base.Some? && base.value !in old(d.images)
    ensures r.Ok? ==>
              && r.value in d.images && Extends(r.value.image, BaseOf(base))
              && (base.Some? ==> r.value in d.parents && d.parents[r.value] == base.value)
              && (ref.Some? ==> ref.value in d.refs && d.refs[ref.value] == r.value)
              && r.value.image.history == BaseOf(base).history + [entry.(emptyLayer := diffID == EMPTY_TAR)]
              && (r.value.image.diffIDs == BaseOf(base).diffIDs <==> diffID == EMPTY_TAR)
              && (diffID != EMPTY_TAR ==> r.value.image.diffIDs == BaseOf(base).diffIDs + [diffID])
              && r.value.image.config == config && r.value.image.containerConfig == containerConfig
              && r.value.image.platform == platform && r.value.image.created == entry.created
    ensures r.Err? ==> r.error == NoSuchImage || r.error == StoreFailed(AmbiguousName)
    ensures r == Err(StoreFailed(AmbiguousName)) <==>
              (base.None? || base.value in old(d.images)) && ref.Some? && ref.value.repo == "sha256"
  {
    if base.Some? && base.value !in d.images {
      return Err(NoSuchImage);
    }
    var img := Committed(BaseOf(base), diffID, entry, config, containerConfig, platform);
    BaseIsAdmissible(d.View(), base);
    assert Admissible(img) && Extends(img, BaseOf(base));
    assert img.diffIDs == BaseOf(base).diffIDs <==> diffID == EMPTY_TAR;
    assert diffID != EMPTY_TAR ==> img.diffIDs == BaseOf(base).diffIDs + [diffID];
    assert img.history == BaseOf(base).history + [entry.(emptyLayer := diffID == EMPTY_TAR)];
    CommitKeepsInv(d.View(), base, img, ref);
    hide Inv, Extends, Committed, Admissible;
    var id := CreateWithParent(d, img, base);
    if ref.Some? {
      var err := d.AddReference(ref.value, id, true);
      if err.Some? {
        return Err(StoreFailed(AmbiguousName));
      }
    }
    return Ok(id);
  }

  lemma BaseIsAdmissible(s: State, base: Option<ImageID>)
    requires Inv(s) && (base.Some? ==> base.value in s.images)
    ensures Admissible(BaseOf(base))
  {
  }

  /** imageStore.Create followed by SetParent. */
  method CreateWithParent(d: Daemon, img: Image, base: Option<ImageID>) returns (id: ImageID)
    requires Inv(d.View()) && Admissible(img)
    requires base.Some? ==> base.value in d.images
    modifies d`images, d`children, d`parents
    ensures d.View() == CreateUnder(old(d.View()), img, base) && id == Sha256(img)
  {
    var created := d.Create(img);
    id := created.value;
    if base.Some? {
      var _ := d.SetParent(id, base.value);
    }
  }

  /** layer/ro_layer.go, TarStreamFrom: a diff exists only to the empty layer or a layer strictly below. */
  predicate LayerBelow(parent: seq<DiffID>, own: seq<DiffID>) {
    parent == [] || parent < own
  }

  /** The squashed image of two stored ones. */
  function SquashedImage(img: Image, parent: Image, merged: DiffID, now: int, comment: string): Image {
    var h := img.history;
    var rewritten := seq(|h|, i requires 0 <= i < |h| =>
      if i >= |parent.history| then h[i].(emptyLayer := true) else h[i]);
    Squashed(img, parent, rewritten, merged, now, comment)
  }

  /** When the outcome of a squash has one layer per non-empty history entry: a check on the inputs. */
  predicate SquashFits(img: Image, parent: Image) {
    LayerCount(img.history[..Min(|parent.history|, |img.history|)]) == |parent.diffIDs|
  }

  lemma SquashedImageConsistentIff(img: Image, parent: Image, merged: DiffID, now: int, comment: string)
    ensures Consistent(SquashedImage(img, parent, merged, now, comment)) <==> SquashFits(img, parent)
    ensures Admissible(SquashedImage(img, parent, merged, now, comment))
            <==> LayerCount(img.history[..Min(|parent.history|, |img.history|)]) <= |parent.diffIDs|
  {
    var h := img.history;
    var rewritten := seq(|h|, i requires 0 <= i < |h| =>
      if i >= |parent.history| then h[i].(emptyLayer := true) else h[i]);
    SquashConsistentIff(img, parent, rewritten, merged, now, comment);
  }

  /** Two stored images, both consistent, with the parent's layer strictly below the source's, whose
      squash the store accepts although a layer is left without a history entry. */
  lemma SquashCanLoseAnEntry(a: DiffID, b: DiffID, m: DiffID)
    ensures var e := (empty: bool) => History(0, "", "", "", empty);
            var img := Image([e(true), e(false), e(false)], [a, b], 0, NO_CONFIG, NO_CONFIG, "");
            var parent := Image([e(false)], [a], 0, NO_CONFIG, NO_CONFIG, "");
            && Consistent(img) && Consistent(parent) && LayerBelow(parent.diffIDs, img.diffIDs)
            && Admissible(SquashedImage(img, parent, m, 0, ""))
            && !Consistent(SquashedImage(img, parent, m, 0, ""))
  {
    var e := (empty: bool) => History(0, "", "", "", empty);
    var img := Image([e(true), e(false), e(false)], [a, b], 0, NO_CONFIG, NO_CONFIG, "");
    var parent := Image([e(false)], [a], 0, NO_CONFIG, NO_CONFIG, "");
    assert img.history[..2] == [e(true), e(false)] && img.history[..2][..1] == [e(true)];
    assert img.history[..1] == [e(true)] && [e(true)][..0] == [] && [e(false)][..0] == [];
    LayerCountStep(img.history, 0);
    LayerCountStep(img.history, 1);
    LayerCountStep(img.history, 2);
    assert img.history[..3] == img.history && img.history[..0] == [];
    assert LayerCount([e(false)]) == 1;
    SquashedImageConsistentIff(img, parent, m, 0, "");
  }

  /** The parent's layers and one more; the source's entries, those the parent does not cover emptied, and one more. */
  predicate SquashOf(squashed: Image, img: Image, parent: Image, merged: DiffID, now: int, comment: string) {
    var n := |img.history|;
    && squashed.diffIDs == parent.diffIDs + [merged]
    && |squashed.history| == n + 1 && squashed.history[n] == History(now, "", "", comment, false)
    && (forall i :: 0 <= i < n ==>
          squashed.history[i] == if i < |parent.history| then img.history[i] else img.history[i].(emptyLayer := true))
    && squashed.created == now && squashed.config == img.config && squashed.containerConfig == img.containerConfig
    && squashed.platform == img.platform
  }

  lemma SquashedIsSquash(img: Image, parent: Image, merged: DiffID, now: int, comment: string)
    ensures SquashOf(SquashedImage(img, parent, merged, now, comment), img, parent, merged, now, comment)
  {
  }

  lemma LayerBelowIs(below: seq<DiffID>, own: seq<DiffID>)
    ensures own != [] ==> (LayerBelow(below, own) <==> FirstLayers(below, own))
    ensures own == [] ==> !FirstLayers(below, own)
  {
    if FirstLayers(below, own) { assert below == own[..|below|]; }
  }

  predicate FirstLayers(below: seq<DiffID>, own: seq<DiffID>) {
    |below| < |own| && forall i :: 0 <= i < |below| ==> below[i] == own[i]
  }

  /** The store does not admit the squashed image: its history names more layers than the parent has. */
  predicate SquashOverflows(img: Image, parent: Image) {
    LayerCount(img.history[..Min(|parent.history|, |img.history|)]) > |parent.diffIDs|
  }

  /** When a squash succeeds: both images are stored; the parent has fewer layers than the source, and they
      are the source's first ones; and the store admits the result. */
  predicate SquashSucceeds(s: State, id: ImageID, parent: Option<ImageID>) {
    && id in s.images && (parent.Some? ==> parent.value in s.images)
    && FirstLayers(BaseOf(parent).diffIDs, id.image.diffIDs)
    && !SquashOverflows(id.image, BaseOf(parent))
  }

  /** SquashImage: no edge is recorded; the new image is consistent exactly when the squash fits. */
  method SquashImage(d: Daemon, id: ImageID, parent: Option<ImageID>, merged: DiffID, now: int, comment: string)
    returns (r: Result<ImageID, BuildError>)
    requires Inv(d.View())
    modifies d
    ensures Inv(d.View())
    ensures r.Ok? <==> SquashSucceeds(old(d.View()), id, parent)
    ensures r.Ok? ==>
              && r.value == Sha256(SquashedImage(id.image, BaseOf(parent), merged, now, comment))
              && d.View() == StoreCreate(old(d.View()), r.value.image) && r.value in d.images
              && (Consistent(r.value.image) <==> SquashFits(id.image, BaseOf(parent)))
    ensures r.Ok? ==> SquashOf(r.value.image, id.image, BaseOf(parent), merged, now, comment)
    ensures r.Err? ==> d.View() == old(d.View())
    ensures r.Err? ==>
              r.error == if id !in d.images || (parent.Some? && parent.value !in d.images) then NoSuchImage
                         else if id.image.diffIDs == [] then NoSuchLayer
                         else if !FirstLayers(BaseOf(parent).diffIDs, id.image.diffIDs) then NotAParentLayer
                         else StoreFailed(TooManyLayers)
  {
    if id !in d.images || (parent.Some? && parent.value !in d.images) {
      return Err(NoSuchImage);
    }
    var img, parentImg := id.image, BaseOf(parent);
    LayerBelowIs(parentImg.diffIDs, img.diffIDs);
    hide LayerBelow, FirstLayers;
    if img.diffIDs == [] {
      return Err(NoSuchLayer);
    }
    if !LayerBelow(parentImg.diffIDs, img.diffIDs) {
      return Err(NotAParentLayer);
    }
    var rewritten := SquashHistory(img.history, |parentImg.history|);
    var squashed := Squashed(img, parentImg, rewritten, merged, now, comment);
    assert squashed == SquashedImage(img, parentImg, merged, now, comment);
    SquashedImageConsistentIff(img, parentImg, merged, now, comment);
    SquashedIsSquash(img, parentImg, merged, now, comment);
    CreateKeepsInv(d.View(), squashed);
    assert d.children.Keys == d.images;
    hide Inv, SquashedImage, Squashed, SquashOf, Consistent, LayerCount;
    var created := d.Create(squashed);
    if created.Err? {
      return Err(StoreFailed(created.error));
    }
    return Ok(created.value);
  }
}

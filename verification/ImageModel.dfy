/** Image configurations as the image store keeps them (image/image.go, image/rootfs.go),
    and the pure rewriting that import, commit, cache restore and squash apply to them. */
module ImageModel {
  import opened Wrappers

  /** The digest of an uncompressed layer; a digest is never the empty string. */
  type DiffID = d: string | d != "" witness "sha256:"

  /** layer/empty.go: the digest of an empty tar. */
  const EMPTY_TAR: DiffID :=
    var d := "sha256:5f70bf18a086007016e948b04aed3b82103a36bea41755b6cddfaf10ace3c6ef";
    d

  datatype History = History(created: int, author: string, createdBy: string, comment: string, emptyLayer: bool)

  /** A container configuration: the command, and everything else it holds. */
  datatype RunConfig = RunConfig(cmd: seq<string>, rest: string)

  const NO_CONFIG := RunConfig([], "")

  datatype Image = Image(
    history: seq<History>,
    diffIDs: seq<DiffID>,
    created: int,
    config: RunConfig,
    containerConfig: RunConfig,
    platform: string)

  /** Image IDs are digests of the configuration; SHA-256 is modelled as collision free. */
  datatype ImageID = Sha256(image: Image)

  /** The number of history entries that carry a layer. */
  function LayerCount(h: seq<History>): nat {
    if h == [] then 0
    else LayerCount(h[..|h| - 1]) + if h[|h| - 1].emptyLayer then 0 else 1
  }

  /** History and layer list agree entry for entry. */
  predicate Consistent(img: Image) {
    LayerCount(img.history) == |img.diffIDs|
  }

  /** What `Create` checks: the history names no more layers than there are. */
  predicate Admissible(img: Image) {
    LayerCount(img.history) <= |img.diffIDs|
  }

  /** The shape of a parent edge: the child's history is the parent's plus one entry, and the parent's
      layers are the child's first layers, followed by another one if that entry carries a layer. */
  predicate Extends(child: Image, parent: Image) {
    && |child.history| == |parent.history| + 1
    && parent.history <= child.history
    && parent.diffIDs <= child.diffIDs
    && (!child.history[|parent.history|].emptyLayer ==> |parent.diffIDs| < |child.diffIDs|)
  }

  /** So what the store admits below a consistent image is consistent too. */
  lemma ParentOfConsistent(child: Image, parent: Image)
    requires Extends(child, parent) && Consistent(child) && Admissible(parent)
    ensures Consistent(parent)
  {
    assert child.history[..|parent.history|] == parent.history;
    LayerCountStep(child.history, |parent.history|);
    assert child.history[..|child.history|] == child.history;
  }

  /** The layers that belong to the first k history entries. */
  function LayersOf(img: Image, k: nat): seq<DiffID>
    requires k <= |img.history| && Admissible(img)
  {
    LayerCountOfPrefix(img.history, k);
    img.diffIDs[..LayerCount(img.history[..k])]
  }

  lemma {:induction false} LayerCountOfPrefix(h: seq<History>, k: nat)
    requires k <= |h|
    ensures LayerCount(h[..k]) <= LayerCount(h)
    ensures LayerCount(h) - LayerCount(h[..k]) <= |h| - k
    decreases |h|
  {
    if k < |h| {
      LayerCountOfPrefix(h[..|h| - 1], k);
      assert h[..|h| - 1][..k] == h[..k];
    } else {
      assert h[..k] == h;
    }
  }

  /** Entry k carries a layer exactly when the count grows there. */
  lemma LayerCountStep(h: seq<History>, k: nat)
    requires k < |h|
    ensures LayerCount(h[..k + 1]) == LayerCount(h[..k]) + if h[k].emptyLayer then 0 else 1
    ensures LayerCount(h[..k + 1]) <= LayerCount(h)
  {
    assert h[..k + 1][..k] == h[..k];
    LayerCountOfPrefix(h, k + 1);
  }

  lemma LayerCountAppend(h: seq<History>, e: History)
    ensures LayerCount(h + [e]) == LayerCount(h) + if e.emptyLayer then 0 else 1
  {
    assert (h + [e])[..|h|] == h;
  }

  /** No entry of h[k..] carries a layer exactly when the count does not grow after k. */
  lemma {:induction false} LayerCountTail(h: seq<History>, k: nat)
    requires k <= |h|
    ensures LayerCount(h[..k]) == LayerCount(h) <==> forall i :: k <= i < |h| ==> h[i].emptyLayer
    decreases |h| - k
  {
    if k == |h| {
      assert h[..k] == h;
    } else {
      LayerCountStep(h, k);
      LayerCountTail(h, k + 1);
    }
  }

  /** Layer lookup by history index (daemon/cache.go, getLayerForHistoryIndex): entry `index`
      owns the layer that follows the layers of all earlier entries, and the lookup is in bounds. */
  method LayerForHistoryIndex(img: Image, index: nat) returns (layer: Option<DiffID>)
    requires index < |img.history| && Admissible(img)
    ensures layer.None? <==> img.history[index].emptyLayer
    ensures LayersOf(img, index + 1) == LayersOf(img, index) + if layer.Some? then [layer.value] else []
  {
    LayerCountStep(img.history, index);
    var layerIndex := 0;
    var i := 0;
    while i < |img.history|
      invariant i <= index
      invariant layerIndex == LayerCount(img.history[..i])
    {
      LayerCountStep(img.history, i);
      var h := img.history[i];
      if i == index {
        if h.emptyLayer {
          return None;
        }
        break;
      }
      if !h.emptyLayer {
        layerIndex := layerIndex + 1;
      }
      i := i + 1;
    }
    return Some(img.diffIDs[layerIndex]);
  }

  // ---------------------------------------------------------------- builders

  /** daemon/import.go: one layer, one history entry. */
  function Imported(diffID: DiffID, created: int, msg: string, config: RunConfig, platform: string): (img: Image)
    ensures Consistent(img)
  {
    LayerCountAppend([], History(created, "", "", msg, false));
    assert [] + [History(created, "", "", msg, false)] == [History(created, "", "", msg, false)];
    Image([History(created, "", "", msg, false)], [diffID], created, config, NO_CONFIG, platform)
  }

  /** The image a commit starts from when the container has none. */
  const SCRATCH := Image([], [], 0, NO_CONFIG, NO_CONFIG, "")

  /** daemon/commit.go: one more history entry, and one more layer unless the diff is empty. */
  function Committed(base: Image, diffID: DiffID, entry: History, config: RunConfig, containerConfig: RunConfig,
                     platform: string): (img: Image)
    ensures Extends(img, base)
    ensures img.config == config && img.containerConfig == containerConfig && img.platform == platform
    ensures img.created == entry.created == img.history[|img.history| - 1].created
    ensures Consistent(base) ==> Consistent(img)
    ensures Admissible(base) ==> Admissible(img)
  {
    var empty := diffID == EMPTY_TAR;
    var h := entry.(emptyLayer := empty);
    LayerCountAppend(base.history, h);
    Image(base.history + [h], if empty then base.diffIDs else base.diffIDs + [diffID],
          entry.created, config, containerConfig, platform)
  }

  /** A commit adds no layer exactly for the empty tar. */
  lemma CommitAddsNoLayerIff(base: Image, diffID: DiffID, entry: History, config: RunConfig, containerConfig: RunConfig, platform: string)
    ensures Committed(base, diffID, entry, config, containerConfig, platform).diffIDs == base.diffIDs <==>
            diffID == "sha256:5f70bf18a086007016e948b04aed3b82103a36bea41755b6cddfaf10ace3c6ef"
  {
    assert |base.diffIDs + [diffID]| != |base.diffIDs|;
  }

  /** daemon/cache.go, restoreCachedImage: the parent plus the target's next entry and its layer. */
  function Restored(parent: Image, target: Image, layer: Option<DiffID>, cfg: RunConfig): (img: Image)
    requires |parent.history| < |target.history|
    ensures layer.Some? || target.history[|parent.history|].emptyLayer ==> Extends(img, parent)
    ensures |img.history| > 0 && img.created == img.history[|img.history| - 1].created
    ensures img.config == cfg && img.containerConfig == NO_CONFIG && img.platform == target.platform
  {
    var h := target.history[|parent.history|];
    Image(parent.history + [h], if layer.Some? then parent.diffIDs + [layer.value] else parent.diffIDs,
          h.created, cfg, NO_CONFIG, target.platform)
  }

  /** daemon/images.go, SquashImage: the history loop. Entries the parent does not cover lose their layer. */
  method SquashHistory(history: seq<History>, covered: nat) returns (out: seq<History>)
    ensures |out| == |history|
    ensures forall i :: 0 <= i < |history| ==>
              out[i] == if i >= covered then history[i].(emptyLayer := true) else history[i]
  {
    out := history;
    for i := 0 to |history|
      invariant |out| == |history|
      invariant forall j :: 0 <= j < i ==>
                  out[j] == if j >= covered then history[j].(emptyLayer := true) else history[j]
      invariant forall j :: i <= j < |history| ==> out[j] == history[j]
    {
      var hi := out[i];
      if i >= covered {
        hi := hi.(emptyLayer := true);
      }
      out := out[i := hi];
    }
  }

  function Min(a: nat, b: nat): nat { if a <= b then a else b }

  /** The whole squashed image, given the rewritten history and the merged layer. */
  function Squashed(img: Image, parent: Image, rewritten: seq<History>, merged: DiffID, now: int, comment: string): Image
  {
    img.(history := rewritten + [History(now, "", "", comment, false)],
         diffIDs := parent.diffIDs + [merged],
         created := now)
  }

  /** Rewriting keeps the layer count of the covered prefix and drops all the rest. */
  lemma {:induction false} SquashedLayerCount(h: seq<History>, out: seq<History>, covered: nat)
    requires |out| == |h|
    requires forall i :: 0 <= i < |h| ==> out[i] == if i >= covered then h[i].(emptyLayer := true) else h[i]
    ensures LayerCount(out) == LayerCount(h[..Min(covered, |h|)])
  {
    var k := Min(covered, |h|);
    assert out[..k] == h[..k];
    LayerCountTail(out, k);
  }

  /** A squash yields a consistent image exactly when the source's first entries, as many as the
      parent has, carry as many layers as the parent has: a check on the two inputs alone. */
  lemma SquashConsistentIff(img: Image, parent: Image, rewritten: seq<History>, merged: DiffID, now: int, comment: string)
    requires |rewritten| == |img.history|
    requires forall i :: 0 <= i < |img.history| ==>
               rewritten[i] == if i >= |parent.history| then img.history[i].(emptyLayer := true) else img.history[i]
    ensures Consistent(Squashed(img, parent, rewritten, merged, now, comment))
            <==> LayerCount(img.history[..Min(|parent.history|, |img.history|)]) == |parent.diffIDs|
    ensures Admissible(Squashed(img, parent, rewritten, merged, now, comment))
            <==> LayerCount(img.history[..Min(|parent.history|, |img.history|)]) <= |parent.diffIDs|
  {
    SquashedLayerCount(img.history, rewritten, |parent.history|);
    LayerCountAppend(rewritten, History(now, "", "", comment, false));
  }

  /** In particular it does when the parent is consistent and its history is a prefix of the source's. */
  lemma SquashOntoPrefixIsConsistent(img: Image, parent: Image)
    requires Consistent(parent) && parent.history <= img.history
    ensures LayerCount(img.history[..Min(|parent.history|, |img.history|)]) == |parent.diffIDs|
  {
    assert img.history[..Min(|parent.history|, |img.history|)] == parent.history;
  }

  /** Consistent images whose histories and layers are prefixes of one another have exactly the
      layers of those entries. */
  lemma PrefixLayers(p: Image, t: Image)
    requires Consistent(p) && Admissible(t)
    requires p.history <= t.history && p.diffIDs <= t.diffIDs
    ensures p.diffIDs == LayersOf(t, |p.history|)
  {
    assert t.history[..|p.history|] == p.history;
  }
}

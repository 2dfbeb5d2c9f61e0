/** The build cache over image histories (daemon/cache.go). */
module BuildCache {
  import opened Wrappers
  import opened ImageModel
  import opened ImageStore
  import opened ImageBuild

  /** strings.Join(cmd, " ") */
  function Join(cmd: seq<string>): string {
    if cmd == [] then "" else if |cmd| == 1 then cmd[0] else cmd[0] + " " + Join(cmd[1..])
  }

  /** The words of a text: what stands between blanks. */
  function Words(text: string): seq<string> {
    if text == "" then [""]
    else if text[0] == ' ' then [""] + Words(text[1..])
    else
      var rest := Words(text[1..]);
      [[text[0]] + rest[0]] + rest[1..]
  }

  lemma {:induction false} WordThenRest(word: string, text: string)
    requires ' ' !in word
    ensures Words(word) == [word] && Words(word + " " + text) == [word] + Words(text)
    decreases word
  {
    var all := word + " " + text;
    if word == "" {
      assert all == " " + text && all[1..] == text;
    } else {
      assert all[1..] == word[1..] + " " + text && all[0] == word[0] && word == [word[0]] + word[1..];
      WordThenRest(word[1..], text);
    }
  }

  /** A joined command gives its words back, if none of them is split itself: equal texts are equal commands. */
  lemma {:induction false} JoinedWords(cmd: seq<string>)
    requires cmd != [] && forall w :: w in cmd ==> ' ' !in w
    ensures Words(Join(cmd)) == cmd
    decreases |cmd|
  {
    if |cmd| == 1 {
      WordThenRest(cmd[0], "");
    } else {
      JoinedWords(cmd[1..]);
      WordThenRest(cmd[0], Join(cmd[1..]));
      assert cmd == [cmd[0]] + cmd[1..];
    }
  }

  predicate ValidConfig(cfg: RunConfig, h: History) {
    Join(cfg.cmd) == h.createdBy
  }

  // ---------------------------------------------------------------- walking parent edges

  /** The ancestor k edges up, if there is one. */
  function Ancestor(s: State, id: ImageID, k: nat): Option<ImageID>
    decreases k
  {
    if k == 0 then Some(id)
    else if id in s.parents then Ancestor(s, s.parents[id], k - 1) else None
  }

  /** isParent: it terminates because each edge leads to a shorter history. */
  predicate IsParent(s: State, id: ImageID, ancestor: ImageID)
    requires ValidEdges(s)
    decreases |id.image.history|
  {
    if id !in s.parents then false
    else
      assert id in s.children[s.parents[id]];
      s.parents[id] == ancestor || IsParent(s, s.parents[id], ancestor)
  }

  lemma {:induction false} AncestorIsParent(s: State, id: ImageID, k: nat)
    requires ValidEdges(s) && k > 0 && Ancestor(s, id, k).Some?
    ensures IsParent(s, id, Ancestor(s, id, k).value)
    decreases k
  {
    if k > 1 {
      AncestorIsParent(s, s.parents[id], k - 1);
    }
  }

  lemma {:induction false} ParentIsAncestor(s: State, id: ImageID, ancestor: ImageID) returns (k: nat)
    requires ValidEdges(s) && IsParent(s, id, ancestor)
    ensures k > 0 && Ancestor(s, id, k) == Some(ancestor)
    decreases |id.image.history|
  {
    var p := s.parents[id];
    assert id in s.children[p];
    if p == ancestor {
      assert Ancestor(s, p, 0) == Some(p);
      k := 1;
    } else {
      k := ParentIsAncestor(s, p, ancestor);
      k := k + 1;
    }
  }

  /** isParent finds exactly the proper ancestors. */
  lemma IsParentIff(s: State, id: ImageID, ancestor: ImageID)
    requires ValidEdges(s)
    ensures IsParent(s, id, ancestor) <==> exists k: nat :: k > 0 && Ancestor(s, id, k) == Some(ancestor)
  {
    if IsParent(s, id, ancestor) {
      var k := ParentIsAncestor(s, id, ancestor);
    }
    forall k: nat | k > 0 && Ancestor(s, id, k) == Some(ancestor) ensures IsParent(s, id, ancestor) {
      AncestorIsParent(s, id, k);
    }
  }

  /** The ancestor k edges up has exactly the history without its last k entries, so no image is its
      own proper ancestor. */
  lemma {:induction false} AncestorHistory(s: State, id: ImageID, k: nat)
    requires ValidEdges(s) && Ancestor(s, id, k).Some?
    ensures var a := Ancestor(s, id, k).value.image;
            && k <= |id.image.history| && a.history == id.image.history[..|id.image.history| - k]
            && a.diffIDs <= id.image.diffIDs
    ensures k > 0 ==> Ancestor(s, id, k).value != id
    decreases k
  {
    if k > 0 {
      var p := s.parents[id];
      assert id in s.children[p];
      AncestorHistory(s, p, k - 1);
    }
  }

  /** Every ancestor of a consistent image is consistent. */
  lemma {:induction false} AncestorOfConsistent(s: State, id: ImageID, k: nat)
    requires Inv(s) && Ancestor(s, id, k).Some? && Consistent(id.image)
    ensures Consistent(Ancestor(s, id, k).value.image)
    decreases k
  {
    hide LayerCount;
    if k > 0 {
      var p := s.parents[id];
      assert id in s.children[p];
      ParentOfConsistent(id.image, p.image);
      AncestorOfConsistent(s, p, k - 1);
    }
  }

  // ---------------------------------------------------------------- choosing a source

  /** What isValidParent accepts: no parent, an empty one, or one whose history and layers are
      proper prefixes of the image's. */
  predicate ValidParent(img: Image, parent: Option<Image>) {
    && img.history != []
    && (parent.None?
        || (parent.value.history == [] && parent.value.diffIDs == [])
        || (parent.value.history < img.history && parent.value.diffIDs < img.diffIDs))
  }

  method IsValidParent(img: Image, parent: Option<Image>) returns (ok: bool)
    ensures ok <==> ValidParent(img, parent)
  {
    if |img.history| == 0 {
      return false;
    }
    if parent.None? || (|parent.value.history| == 0 && |parent.value.diffIDs| == 0) {
      return true;
    }
    var p := parent.value;
    if |p.history| >= |img.history| {
      return false;
    }
    if |p.diffIDs| >= |img.diffIDs| {
      return false;
    }
    for i := 0 to |p.history|
      invariant p.history[..i] == img.history[..i]
    {
      if p.history[i] != img.history[i] {
        return false;
      }
    }
    for i := 0 to |p.diffIDs|
      invariant p.diffIDs[..i] == img.diffIDs[..i]
    {
      if p.diffIDs[i] != img.diffIDs[i] {
        return false;
      }
    }
    assert p.history[..|p.history|] == p.history && p.diffIDs[..|p.diffIDs|] == p.diffIDs;
    return true;
  }

  function HistoryLength(parent: Option<Image>): nat {
    if parent.Some? then |parent.value.history| else 0
  }

  /** A source that can serve the next command on top of `parent`. */
  predicate Serves(target: Image, parent: Option<Image>, cfg: RunConfig) {
    ValidParent(target, parent) && ValidConfig(cfg, target.history[HistoryLength(parent)])
  }

  /** The image a lookup on top of `parent` yields from `target`, which serves it: the target itself
      when this was its last entry, a restored prefix of it otherwise. */
  function NextImage(target: Image, parent: Option<Image>, cfg: RunConfig): Image
    requires Serves(target, parent, cfg) && Admissible(target)
  {
    var k := HistoryLength(parent);
    if k == |target.history| - 1 then target
    else
      var base := if parent.Some? then parent.value else SCRATCH;
      LayerCountStep(target.history, k);
      Restored(base, target, if target.history[k].emptyLayer then None else Some(target.diffIDs[LayerCount(target.history[..k])]), cfg)
  }

  /** Every image a lookup yields extends the parent by the target's next entry, and is admissible. */
  lemma NextImageExtends(target: Image, parent: Option<Image>, cfg: RunConfig)
    requires Serves(target, parent, cfg) && Admissible(target)
    requires parent.Some? ==> Admissible(parent.value)
    ensures var next, k := NextImage(target, parent, cfg), HistoryLength(parent);
            && next.history == target.history[..k + 1]
            && (parent.Some? ==> Extends(next, parent.value))
            && Admissible(next)
  {
    var next, k := NextImage(target, parent, cfg), HistoryLength(parent);
    var base := if parent.Some? then parent.value else SCRATCH;
    assert base.history == target.history[..k];
    if k == |target.history| - 1 {
      assert target.history[..k + 1] == target.history;
    } else {
      assert target.history[..k + 1] == target.history[..k] + [target.history[k]];
      LayerCountAppend(base.history, target.history[k]);
      assert Admissible(base);
      hide LayerCount;
    }
  }

  lemma LayersOfNext(target: Image, k: nat)
    requires k < |target.history| && Admissible(target)
    ensures LayerCount(target.history[..k + 1]) == LayerCount(target.history[..k]) + if target.history[k].emptyLayer then 0 else 1
    ensures LayerCount(target.history[..k + 1]) <= |target.diffIDs|
    ensures LayersOf(target, k + 1) == LayersOf(target, k)
            + if target.history[k].emptyLayer then [] else [target.diffIDs[LayerCount(target.history[..k])]]
    ensures |LayersOf(target, k + 1)| == LayerCount(target.history[..k + 1])
  {
    LayerCountStep(target.history, k);
  }

  /** On a consistent parent, the yielded image has exactly the layers of the target's first entries. */
  lemma NextImageLayers(target: Image, parent: Option<Image>, cfg: RunConfig)
    requires Serves(target, parent, cfg) && Consistent(target)
    requires parent.Some? ==> Consistent(parent.value)
    ensures var next, k := NextImage(target, parent, cfg), HistoryLength(parent);
            next.diffIDs == LayersOf(target, k + 1) && Consistent(next)
  {
    var next, k := NextImage(target, parent, cfg), HistoryLength(parent);
    NextImageExtends(target, parent, cfg);
    LayersOfNext(target, k);
    if k == |target.history| - 1 {
      assert target.history[..k + 1] == target.history;
    } else {
      var base := if parent.Some? then parent.value else SCRATCH;
      assert Consistent(base) && base.history <= target.history && base.diffIDs <= target.diffIDs;
      PrefixLayers(base, target);
      hide LayerCount, Serves, LayersOf;
    }
  }

  /** `img` holds the source's first k entries and exactly their layers. */
  predicate PrefixOf(target: Image, k: nat, img: Image)
    requires Admissible(target)
  {
    k <= |target.history| && img.history == target.history[..k] && img.diffIDs == LayersOf(target, k)
  }

  lemma PrefixIsConsistent(target: Image, k: nat, img: Image)
    requires Admissible(target) && PrefixOf(target, k, img)
    ensures Consistent(img) && |img.history| == k && img.history <= target.history
  {
    LayerCountOfPrefix(target.history, k);
  }

  predicate LayerToCome(target: Image, k: nat) {
    exists i :: k <= i < |target.history| && !target.history[i].emptyLayer
  }

  /** A prefix of a source serves the source's next command exactly when it is empty or the source
      still has a layer to come. */
  lemma ServesIff(target: Image, parent: Option<Image>, cfg: RunConfig)
    requires Consistent(target)
    requires var k := HistoryLength(parent);
             && k < |target.history| && ValidConfig(cfg, target.history[k])
             && (parent.Some? ==> PrefixOf(target, k, parent.value))
    ensures Serves(target, parent, cfg) <==> HistoryLength(parent) == 0 || LayerToCome(target, HistoryLength(parent))
  {
    LayerCountTail(target.history, HistoryLength(parent));
    LayerCountOfPrefix(target.history, HistoryLength(parent));
  }

  // ---------------------------------------------------------------- the cache object

  datatype CacheError = NoSuchParent | StaleChild | SetParentFailed

  class ImageCache {
    var sources: seq<Image>
    const d: Daemon
    /** runconfig.Compare */
    const compare: (RunConfig, RunConfig) -> bool

    constructor (d: Daemon, compare: (RunConfig, RunConfig) -> bool, sources: seq<Image>)
      ensures this.d == d && this.compare == compare && this.sources == sources
    {
      this.d, this.compare, this.sources := d, compare, sources;
    }

    /** Sources were loaded from the store, which admits no other images. */
    ghost predicate Valid()
      reads this, d
    {
      Inv(d.View()) && forall t :: t in sources ==> Admissible(t)
    }

    /** getLocalCachedImage: the children of the parent, or the images without one. */
    function Siblings(parentID: Option<ImageID>): set<ImageID>
      reads d
    {
      if parentID.None? then set i | i in d.images && i !in d.parents
      else if parentID.value in d.children then d.children[parentID.value] else {}
    }

    /** The most recently created sibling with the same configuration; an index entry whose image is
        gone makes the whole lookup fail. */
    method LocalCachedImage(parentID: Option<ImageID>, cfg: RunConfig) returns (r: Result<Option<ImageID>, CacheError>)
      ensures r.Err? <==> !(Siblings(parentID) <= d.images)
      ensures r.Err? ==> r.error == StaleChild
      ensures r.Ok? && r.value.None? ==> Matching(Siblings(parentID), compare, cfg) == {}
      ensures r.Ok? && r.value.Some? ==> Newest(Siblings(parentID), compare, cfg, r.value.value)
      ensures r.Ok? && r.value.Some? ==>
                forall i :: i in Siblings(parentID) && compare(i.image.containerConfig, cfg) ==>
                  i.image.created <= r.value.value.image.created
    {
      var match_: Option<ImageID> := None;
      var todo := Siblings(parentID);
      while todo != {}
        invariant todo <= Siblings(parentID)
        invariant Siblings(parentID) - todo <= d.images
        invariant match_.None? ==> forall i :: i in Siblings(parentID) - todo ==> !compare(i.image.containerConfig, cfg)
        invariant match_.Some? ==>
                    && match_.value in Siblings(parentID) && compare(match_.value.image.containerConfig, cfg)
                    && forall i :: i in Siblings(parentID) - todo && compare(i.image.containerConfig, cfg) ==>
                         i.image.created <= match_.value.image.created
        decreases todo
      {
        var i :| i in todo;
        if i !in d.images {
          return Err(StaleChild);
        }
        if compare(i.image.containerConfig, cfg) && (match_.None? || match_.value.image.created < i.image.created) {
          match_ := Some(i);
        }
        todo := todo - {i};
      }
      return Ok(match_);
    }

    /** GetCache. A local hit must be an ancestor of a source. Otherwise the first source that serves
        the command is used: its next image is stored under the parent, and unless that is the source
        itself the cache is locked on it. */
    method GetCache(parentID: Option<ImageID>, cfg: RunConfig) returns (r: Result<Option<ImageID>, CacheError>)
      requires Valid()
      modifies this`sources, d
      ensures Valid()
      ensures sources == old(sources) || (exists t :: t in old(sources) && sources == [t])
      ensures d.images >= old(d.images) && d.refs == old(d.refs) && d.containers == old(d.containers)
      // Whatever the local lookup finds, a hit is a prefix of some source, one entry further than the parent.
      ensures r.Ok? && r.value.Some? ==> Along(old(sources), parentID, r.value.value.image)
      // A hit is an accepted local image, a source, or a new image that runs with the command's
      // configuration and that no later local lookup mistakes for one committed from a container.
      ensures r.Ok? && r.value.Some? ==>
                || (r.value.value in old(Siblings(parentID)) && compare(r.value.value.image.containerConfig, cfg)
                    && Accepted(old(d.View()), old(sources), r.value.value))
                || r.value.value.image in old(sources)
                || (exists t :: t in old(sources) && sources == [t] && RestoredFrom(t, cfg, r.value.value.image))
      // The outcome, up to the choice between equally new local images.
      ensures !(old(Siblings(parentID)) <= old(d.images)) ==>
                r == Err(StaleChild) && d.View() == old(d.View()) && sources == old(sources)
      ensures old(Siblings(parentID)) <= old(d.images) ==>
                || (&& r.Ok? && r.value.Some? && Newest(old(Siblings(parentID)), compare, cfg, r.value.value)
                    && Accepted(old(d.View()), old(sources), r.value.value)
                    && d.View() == old(d.View()) && sources == old(sources))
                || (&& (|| Matching(old(Siblings(parentID)), compare, cfg) == {}
                        || exists m :: Newest(old(Siblings(parentID)), compare, cfg, m) && !Accepted(old(d.View()), old(sources), m))
                    && Determined(old(sources), sources, old(d.View()), d.View(), parentID, cfg, r))
    {
      ghost var s := d.View();
      var local := LocalCachedImage(parentID, cfg);
      if local.Err? {
        return Err(local.error);
      }
      if local.value.Some? {
        var along := AncestorOfSource(local.value.value);
        if along {
          LocalHitIsAlong(s, sources, local.value.value, parentID);
          return Ok(local.value);
        }
      }
      if parentID.Some? && parentID.value !in d.images {
        return Err(NoSuchParent);
      }
      hide Inv, Along, Determined, Accepted, RestoredFrom;
      r := FromSources(parentID, cfg);
    }

    /** The second half of GetCache, when no local image was accepted. */
    method FromSources(parentID: Option<ImageID>, cfg: RunConfig) returns (r: Result<Option<ImageID>, CacheError>)
      requires Valid() && (parentID.Some? ==> parentID.value in d.images)
      modifies this`sources, d`images, d`children, d`parents
      ensures Valid()
      ensures sources == old(sources) || (exists t :: t in old(sources) && sources == [t])
      ensures d.images >= old(d.images)
      ensures r.Ok? && r.value.Some? ==> Along(old(sources), parentID, r.value.value.image)
      ensures r.Ok? && r.value.Some? ==>
                || r.value.value.image in old(sources)
                || (exists t :: t in old(sources) && sources == [t] && RestoredFrom(t, cfg, r.value.value.image))
      ensures Determined(old(sources), sources, old(d.View()), d.View(), parentID, cfg, r)
    {
      hide Inv, Admissible, Serves, NextImage, Along, FirstServing, UseEffect, RestoredFrom;
      ghost var s := d.View();
      var parent := ImageOf(parentID);
      var found := FirstSource(sources, parent, cfg);
      if found.None? {
        return Ok(None);
      }
      FirstServes(sources, parent, cfg);
      NextIsAlong(s, sources, found.value, parentID, cfg);
      NextIsRestored(found.value, parent, cfg);
      UseOnlyAdds(s, found.value, parentID, cfg);
      r := Use(found.value, parentID, cfg);
    }

    /** The loop over the sources that accepts a local image. */
    method AncestorOfSource(hit: ImageID) returns (found: bool)
      requires Inv(d.View())
      ensures found <==> Accepted(d.View(), sources, hit)
    {
      hide IsParent;
      assert ValidEdges(d.View());
      hide Inv, ValidEdges;
      for n := 0 to |sources|
        invariant forall j :: 0 <= j < n ==> !IsParent(d.View(), Sha256(sources[j]), hit)
      {
        if IsParent(d.View(), Sha256(sources[n]), hit) {
          return true;
        }
      }
      return false;
    }

    /** The loop over the sources that looks for one to use. */
    static method FirstSource(sources: seq<Image>, parent: Option<Image>, cfg: RunConfig) returns (t: Option<Image>)
      ensures t == FirstServing(sources, parent, cfg)
    {
      for n := 0 to |sources|
        invariant forall j :: 0 <= j < n ==> !Serves(sources[j], parent, cfg)
      {
        var target := sources[n];
        var ok := IsValidParent(target, parent);
        if !ok || !ValidConfig(cfg, target.history[HistoryLength(parent)]) {
          continue;
        }
        FirstIs(sources, parent, cfg, n);
        return Some(target);
      }
      FirstIsNone(sources, parent, cfg);
      return None;
    }

    /** The part of GetCache that acts on the chosen source. */
    method Use(target: Image, parentID: Option<ImageID>, cfg: RunConfig) returns (r: Result<Option<ImageID>, CacheError>)
      requires Valid() && Admissible(target) && (parentID.Some? ==> parentID.value in d.images)
      requires Serves(target, ImageOf(parentID), cfg)
      modifies this`sources, d`images, d`children, d`parents
      ensures Valid()
      ensures d.View() == UseEffect(old(d.View()), target, parentID, cfg)
      ensures sources == if HistoryLength(ImageOf(parentID)) == |target.history| - 1 then old(sources) else [target]
      ensures r == if parentID.Some? && Sha256(NextImage(target, ImageOf(parentID), cfg)) !in d.images
                   then Err(SetParentFailed)
                   else Ok(Some(Sha256(NextImage(target, ImageOf(parentID), cfg))))
    {
      hide Inv, Extends, NextImage, UseEffect;
      if HistoryLength(ImageOf(parentID)) == |target.history| - 1 {
        r := UseLast(target, parentID, cfg);
      } else {
        r := UseEarlier(target, parentID, cfg);
      }
    }

    /** The last entry of the source: the source itself, with the parent as its parent. */
    method UseLast(target: Image, parentID: Option<ImageID>, cfg: RunConfig) returns (r: Result<Option<ImageID>, CacheError>)
      requires Valid() && Admissible(target) && (parentID.Some? ==> parentID.value in d.images)
      requires Serves(target, ImageOf(parentID), cfg) && HistoryLength(ImageOf(parentID)) == |target.history| - 1
      modifies d`children, d`parents
      ensures Valid()
      ensures d.View() == UseEffect(old(d.View()), target, parentID, cfg)
      ensures r == if parentID.Some? && Sha256(NextImage(target, ImageOf(parentID), cfg)) !in d.images
                   then Err(SetParentFailed)
                   else Ok(Some(Sha256(NextImage(target, ImageOf(parentID), cfg))))
    {
      ghost var s := d.View();
      UseKeepsInv(s, target, parentID, cfg);
      KeysAgree(s);
      hide Inv, Extends;
      if parentID.Some? {
        var err := d.SetParent(Sha256(target), parentID.value);
        if err.Some? {
          return Err(SetParentFailed);
        }
      }
      return Ok(Some(Sha256(target)));
    }

    /** An earlier entry: a restored prefix of the source, and the cache is locked on that source. */
    method UseEarlier(target: Image, parentID: Option<ImageID>, cfg: RunConfig) returns (r: Result<Option<ImageID>, CacheError>)
      requires Valid() && Admissible(target) && (parentID.Some? ==> parentID.value in d.images)
      requires Serves(target, ImageOf(parentID), cfg) && HistoryLength(ImageOf(parentID)) != |target.history| - 1
      modifies this`sources, d`images, d`children, d`parents
      ensures Valid() && sources == [target]
      ensures d.View() == UseEffect(old(d.View()), target, parentID, cfg)
      ensures Sha256(NextImage(target, ImageOf(parentID), cfg)) in d.images
      ensures r == Ok(Some(Sha256(NextImage(target, ImageOf(parentID), cfg))))
    {
      var parent := ImageOf(parentID);
      var lenHistory := HistoryLength(parent);
      ghost var s := d.View();
      assert lenHistory < |target.history|;
      var base := if parent.Some? then parent.value else SCRATCH;
      var layer := LayerForHistoryIndex(target, lenHistory);
      var img := Restored(base, target, layer, cfg);
      RestoredIsNext(s, target, parentID, cfg, layer);
      UseKeepsInv(s, target, parentID, cfg);
      hide Inv, Admissible, Extends, NextImage, Serves, CreateUnder, UseEffect, LayersOf;
      var id := CreateWithParent(d, img, parentID);
      sources := [target];
      return Ok(Some(id));
    }
  }

  lemma KeysAgree(s: State)
    requires Inv(s)
    ensures s.children.Keys == s.images
  {
  }

  lemma ParentAdmissible(s: State, parentID: Option<ImageID>)
    requires Inv(s) && (parentID.Some? ==> parentID.value in s.images)
    ensures parentID.Some? ==> Admissible(parentID.value.image)
  {
  }

  function ImageOf(id: Option<ImageID>): Option<Image> {
    if id.Some? then Some(id.value.image) else None
  }

  /** The layer found by walking the history is the one at the count of the earlier entries. */
  lemma NextLayer(target: Image, k: nat, layer: Option<DiffID>)
    requires k < |target.history| && Admissible(target)
    requires layer.None? <==> target.history[k].emptyLayer
    requires LayersOf(target, k + 1) == LayersOf(target, k) + if layer.Some? then [layer.value] else []
    ensures LayerCount(target.history[..k]) < |target.diffIDs| || layer.None?
    ensures layer.Some? ==> layer.value == target.diffIDs[LayerCount(target.history[..k])]
  {
    LayerCountStep(target.history, k);
    if layer.Some? {
      assert LayersOf(target, k + 1)[LayerCount(target.history[..k])] == layer.value;
    }
  }

  /** What restoring the source's next entry creates. */
  lemma RestoredIsNext(s: State, target: Image, parentID: Option<ImageID>, cfg: RunConfig, layer: Option<DiffID>)
    requires Inv(s) && (parentID.Some? ==> parentID.value in s.images) && Admissible(target)
    requires Serves(target, ImageOf(parentID), cfg) && HistoryLength(ImageOf(parentID)) < |target.history| - 1
    requires var k := HistoryLength(ImageOf(parentID));
             && (layer.None? <==> target.history[k].emptyLayer)
             && LayersOf(target, k + 1) == LayersOf(target, k) + if layer.Some? then [layer.value] else []
    ensures var img := Restored(BaseOf(parentID), target, layer, cfg);
            && img == NextImage(target, ImageOf(parentID), cfg) && Admissible(img)
            && UseEffect(s, target, parentID, cfg) == CreateUnder(s, img, parentID)
            && Sha256(img) in CreateUnder(s, img, parentID).images
  {
    NextLayer(target, HistoryLength(ImageOf(parentID)), layer);
    ParentAdmissible(s, parentID);
    NextImageExtends(target, ImageOf(parentID), cfg);
    CreateUnderShape(s, NextImage(target, ImageOf(parentID), cfg), parentID);
    hide Inv, Admissible, CreateUnder, LayerCount, LayersOf;
  }

  /** An image holding some but not all of the source's entries, made for the command. */
  predicate RestoredFrom(t: Image, cfg: RunConfig, img: Image) {
    && 0 < |img.history| < |t.history| && img.history <= t.history
    && img.config == cfg && img.containerConfig == NO_CONFIG
    && img.platform == t.platform && img.created == t.history[|img.history| - 1].created
  }

  lemma NextIsRestored(target: Image, parent: Option<Image>, cfg: RunConfig)
    requires Serves(target, parent, cfg) && Admissible(target)
    ensures var next := NextImage(target, parent, cfg);
            if HistoryLength(parent) + 1 == |target.history| then next == target else RestoredFrom(target, cfg, next)
  {
    hide LayerCount;
  }

  /** So a later local lookup matches such an image exactly when it would match no configuration at all. */
  lemma RestoredMatchesIff(t: Image, cfg: RunConfig, img: Image, siblings: set<ImageID>, compare: (RunConfig, RunConfig) -> bool, later: RunConfig)
    requires RestoredFrom(t, cfg, img) && Sha256(img) in siblings
    ensures Sha256(img) in Matching(siblings, compare, later) <==> compare(RunConfig([], ""), later)
  {
  }

  /** The siblings with the wanted configuration. */
  ghost function Matching(siblings: set<ImageID>, compare: (RunConfig, RunConfig) -> bool, cfg: RunConfig): set<ImageID> {
    set i | i in siblings && compare(i.image.containerConfig, cfg)
  }

  /** One of the most recently created of these. */
  ghost predicate Newest(siblings: set<ImageID>, compare: (RunConfig, RunConfig) -> bool, cfg: RunConfig, m: ImageID) {
    && m in Matching(siblings, compare, cfg)
    && forall i :: i in Matching(siblings, compare, cfg) ==> i.image.created <= m.image.created
  }

  /** Some source descends from the local image. */
  ghost predicate Accepted(s: State, sources: seq<Image>, hit: ImageID)
    requires ValidEdges(s)
  {
    exists t :: t in sources && IsParent(s, Sha256(t), hit)
  }

  /** `hit` is a prefix of some source, one entry further than the parent if there is one. Its layers
      are those of its entries, when source and parent have one layer for each of theirs. */
  ghost predicate Along(sources: seq<Image>, parentID: Option<ImageID>, hit: Image) {
    && (parentID.Some? ==>
          |hit.history| == |parentID.value.image.history| + 1 && parentID.value.image.history <= hit.history)
    && exists t :: t in sources && hit.history <= t.history
         && (Consistent(t) && (parentID.Some? ==> Consistent(parentID.value.image)) ==> PrefixOf(t, |hit.history|, hit))
  }

  /** A local hit is a sibling that some source descends from. */
  lemma LocalHitIsAlong(s: State, sources: seq<Image>, hit: ImageID, parentID: Option<ImageID>)
    requires Inv(s) && Accepted(s, sources, hit)
    requires parentID.Some? ==> parentID.value in s.children && hit in s.children[parentID.value]
    ensures Along(sources, parentID, hit.image)
  {
    hide LayerCount, IsParent, Ancestor, LayersOf;
    var t :| t in sources && IsParent(s, Sha256(t), hit);
    AcceptedIsPrefix(s, t, hit);
    assert parentID.Some? ==> Extends(hit.image, parentID.value.image);
  }

  lemma AcceptedIsPrefix(s: State, t: Image, hit: ImageID)
    requires Inv(s) && IsParent(s, Sha256(t), hit)
    ensures |hit.image.history| < |t.history| && hit.image.history <= t.history
    ensures Consistent(t) ==> PrefixOf(t, |hit.image.history|, hit.image)
  {
    IsParentIff(s, Sha256(t), hit);
    var k: nat :| k > 0 && Ancestor(s, Sha256(t), k) == Some(hit);
    AncestorHistory(s, Sha256(t), k);
    if Consistent(t) {
      AncestorOfConsistent(s, Sha256(t), k);
      PrefixLayers(hit.image, t);
    }
  }

  lemma NextIsAlong(s: State, sources: seq<Image>, target: Image, parentID: Option<ImageID>, cfg: RunConfig)
    requires Inv(s) && (parentID.Some? ==> parentID.value in s.images)
    requires target in sources && Admissible(target) && Serves(target, ImageOf(parentID), cfg)
    ensures Along(sources, parentID, NextImage(target, ImageOf(parentID), cfg))
  {
    hide NextImage, LayerCount, Inv;
    assert parentID.Some? ==> parentID.value.image.history <= target.history;
    hide Serves;
    ParentAdmissible(s, parentID);
    NextImageExtends(target, ImageOf(parentID), cfg);
    if Consistent(target) && (parentID.Some? ==> Consistent(parentID.value.image)) {
      NextImageLayers(target, ImageOf(parentID), cfg);
    }
  }

  /** The stores after a source is used on a parent. */
  function UseEffect(s: State, target: Image, parentID: Option<ImageID>, cfg: RunConfig): State
    requires Serves(target, ImageOf(parentID), cfg) && Admissible(target)
  {
    if HistoryLength(ImageOf(parentID)) == |target.history| - 1
    then if parentID.Some? then StoreSetParent(s, Sha256(target), parentID.value) else s
    else CreateUnder(s, NextImage(target, ImageOf(parentID), cfg), parentID)
  }

  lemma UseOnlyAdds(s: State, target: Image, parentID: Option<ImageID>, cfg: RunConfig)
    requires Serves(target, ImageOf(parentID), cfg) && Admissible(target)
    ensures UseEffect(s, target, parentID, cfg).images >= s.images
    ensures UseEffect(s, target, parentID, cfg).containers == s.containers
  {
    hide Serves, NextImage, Admissible, CreateUnder;
    CreateUnderOnlyAdds(s, NextImage(target, ImageOf(parentID), cfg), parentID);
  }

  lemma UseKeepsInv(s: State, target: Image, parentID: Option<ImageID>, cfg: RunConfig)
    requires Inv(s) && Serves(target, ImageOf(parentID), cfg) && Admissible(target)
    requires parentID.Some? ==> parentID.value in s.images
    ensures Inv(UseEffect(s, target, parentID, cfg))
  {
    ParentAdmissible(s, parentID);
    NextImageExtends(target, ImageOf(parentID), cfg);
    if HistoryLength(ImageOf(parentID)) < |target.history| - 1 {
      CreateUnderKeepsInv(s, NextImage(target, ImageOf(parentID), cfg), parentID);
    } else if parentID.Some? {
      SetParentKeepsInv(s, Sha256(target), parentID.value);
    }
  }

  /** The first source that serves a command, if any. */
  function FirstServing(sources: seq<Image>, parent: Option<Image>, cfg: RunConfig): Option<Image> {
    if sources == [] then None
    else if Serves(sources[0], parent, cfg) then Some(sources[0])
    else FirstServing(sources[1..], parent, cfg)
  }

  lemma {:induction false} FirstIs(sources: seq<Image>, parent: Option<Image>, cfg: RunConfig, n: nat)
    requires n < |sources| && Serves(sources[n], parent, cfg)
    requires forall j :: 0 <= j < n ==> !Serves(sources[j], parent, cfg)
    ensures FirstServing(sources, parent, cfg) == Some(sources[n])
  {
    if n > 0 {
      FirstIs(sources[1..], parent, cfg, n - 1);
    }
  }

  lemma {:induction false} FirstIsNone(sources: seq<Image>, parent: Option<Image>, cfg: RunConfig)
    requires forall j :: 0 <= j < |sources| ==> !Serves(sources[j], parent, cfg)
    ensures FirstServing(sources, parent, cfg) == None
  {
    if sources != [] {
      FirstIsNone(sources[1..], parent, cfg);
    }
  }

  lemma {:induction false} FirstServes(sources: seq<Image>, parent: Option<Image>, cfg: RunConfig)
    ensures FirstServing(sources, parent, cfg).Some? ==>
              FirstServing(sources, parent, cfg).value in sources && Serves(FirstServing(sources, parent, cfg).value, parent, cfg)
  {
    if sources != [] && !Serves(sources[0], parent, cfg) {
      FirstServes(sources[1..], parent, cfg);
    }
  }

  /** The outcome of a lookup that no local image answers. */
  ghost predicate Determined(sources: seq<Image>, sources': seq<Image>, s: State, s': State,
                             parentID: Option<ImageID>, cfg: RunConfig, r: Result<Option<ImageID>, CacheError>)
  {
    if parentID.Some? && parentID.value !in s.images then s' == s && sources' == sources && r == Err(NoSuchParent)
    else
      match FirstServing(sources, ImageOf(parentID), cfg)
      case None => s' == s && sources' == sources && r == Ok(None)
      case Some(t) =>
        && Serves(t, ImageOf(parentID), cfg) && Admissible(t)
        && s' == UseEffect(s, t, parentID, cfg)
        && sources' == (if HistoryLength(ImageOf(parentID)) == |t.history| - 1 then sources else [t])
        && r == if parentID.Some? && Sha256(NextImage(t, ImageOf(parentID), cfg)) !in s'.images then Err(SetParentFailed)
                else Ok(Some(Sha256(NextImage(t, ImageOf(parentID), cfg))))
  }
}

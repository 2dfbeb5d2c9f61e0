/** `docker history` (daemon/image_history.go): pairing history entries with layers, and with the
    images along the parent chain. */
module ImageHistory {
  import opened Wrappers
  import opened ImageModel
  import opened ImageStore
  import opened BuildCache

  datatype HistoryError = NoSuchImage | TooManyNonEmptyLayers

  /** One row. `chain` is the layer whose size is shown, named by all layers up to it; `id` is the
      image shown for the row, or None for "<missing>". */
  datatype Row = Row(entry: History, chain: Option<seq<DiffID>>, id: Option<ImageID>, tags: seq<Ref>)

  /** The row for history entry j, before images are filled in. */
  predicate RowFor(img: Image, row: Row, j: nat)
    requires j < |img.history| && Admissible(img)
  {
    && row.entry == img.history[j]
    && row.chain == if img.history[j].emptyLayer then None else Some(LayersOf(img, j + 1))
  }

  function TagsOf(refs: map<Ref, ImageID>, id: ImageID): set<Ref> {
    set r | r in RefsOf(refs, id) && r.Tag?
  }

  /** The layer-counting loop; newest entry first. Its error branch is dead on admissible images. */
  method LayerRows(img: Image) returns (r: Result<seq<Row>, HistoryError>)
    requires Admissible(img)
    ensures r.Ok? && |r.value| == |img.history|
    ensures forall i :: 0 <= i < |r.value| ==>
              RowFor(img, r.value[i], |img.history| - 1 - i) && r.value[i].id.None? && r.value[i].tags == []
  {
    var rows: seq<Row> := [];
    var layerCounter := 0;
    var rootFS: seq<DiffID> := [];
    for j := 0 to |img.history|
      invariant layerCounter == LayerCount(img.history[..j]) <= |img.diffIDs|
      invariant rootFS == img.diffIDs[..layerCounter]
      invariant |rows| == j
      invariant forall i :: 0 <= i < j ==> RowFor(img, rows[i], j - 1 - i) && rows[i].id.None? && rows[i].tags == []
    {
      LayerCountStep(img.history, j);
      var h := img.history[j];
      var chain: Option<seq<DiffID>> := None;
      if !h.emptyLayer {
        if |img.diffIDs| <= layerCounter {
          return Err(TooManyNonEmptyLayers);
        }
        rootFS := rootFS + [img.diffIDs[layerCounter]];
        chain := Some(rootFS);
        layerCounter := layerCounter + 1;
      }
      rows := [Row(h, chain, None, [])] + rows;
    }
    return Ok(rows);
  }

  /** The ancestor k edges up, as far as every image on the way is stored. */
  function StoredAncestor(s: State, id: ImageID, k: nat): Option<ImageID> {
    if k == 0 then Some(id)
    else
      match StoredAncestor(s, id, k - 1)
      case Some(a) => if a in s.parents && s.parents[a] in s.images then Some(s.parents[a]) else None
      case None => None
  }

  /** What the row at position i shows: that ancestor and its tags in order, while there is one. */
  ghost predicate Filled(s: State, id: ImageID, row: Row, i: nat) {
    && row.id == StoredAncestor(s, id, i)
    && match StoredAncestor(s, id, i)
       case Some(a) => Enumerates(row.tags, TagsOf(s.refs, a)) && InOrder(row.tags)
       case None => row.tags == []
  }

  lemma AncestorStep(s: State, id: ImageID, k: nat)
    ensures Ancestor(s, id, k + 1) ==
            match Ancestor(s, id, k)
            case Some(a) => if a in s.parents then Some(s.parents[a]) else None
            case None => None
    decreases k
  {
    if k > 0 && id in s.parents {
      AncestorStep(s, s.parents[id], k - 1);
    }
  }

  /** While all edges point at stored images, that is every ancestor. */
  lemma {:induction false} StoredAncestorIsAncestor(s: State, id: ImageID, k: nat)
    requires ValidEdges(s)
    ensures StoredAncestor(s, id, k) == Ancestor(s, id, k)
    decreases k
  {
    if k > 0 {
      StoredAncestorIsAncestor(s, id, k - 1);
      AncestorStep(s, id, k - 1);
    }
  }

  lemma {:induction false} NoneFurtherUp(s: State, id: ImageID, k: nat, m: nat)
    requires k <= m && StoredAncestor(s, id, k).None?
    ensures StoredAncestor(s, id, m).None?
    decreases m
  {
    if k < m {
      NoneFurtherUp(s, id, k, m - 1);
    }
  }

  /** The inner loop: the references that are tags. */
  method Tags(d: Daemon, id: ImageID) returns (tags: seq<Ref>)
    ensures Enumerates(tags, TagsOf(d.refs, id)) && InOrder(tags)
  {
    var refs := d.References(id);
    tags := [];
    ghost var from: seq<nat> := [];
    for i := 0 to |refs|
      invariant |from| == |tags|
      invariant forall j :: 0 <= j < |tags| ==> from[j] < i && refs[from[j]] == tags[j] && tags[j].Tag?
      invariant forall j, k :: 0 <= j < k < |tags| ==> from[j] < from[k]
      invariant forall j :: 0 <= j < i && refs[j].Tag? ==> refs[j] in tags
    {
      if refs[i].Tag? {
        tags, from := tags + [refs[i]], from + [i];
        assert tags[|tags| - 1] == refs[i];
      }
    }
    TagsEnumerated(refs, tags, from, RefsOf(d.refs, id), TagsOf(d.refs, id));
  }

  lemma TagsEnumerated(refs: seq<Ref>, tags: seq<Ref>, from: seq<nat>, all: set<Ref>, some: set<Ref>)
    requires Enumerates(refs, all) && InOrder(refs) && some == set r | r in all && r.Tag?
    requires |from| == |tags|
    requires forall j :: 0 <= j < |tags| ==> from[j] < |refs| && refs[from[j]] == tags[j] && tags[j].Tag?
    requires forall j, k :: 0 <= j < k < |tags| ==> from[j] < from[k]
    requires forall j :: 0 <= j < |refs| && refs[j].Tag? ==> refs[j] in tags
    ensures Enumerates(tags, some) && InOrder(tags)
  {
    hide Before;
    forall j, k | 0 <= j < k < |tags| ensures tags[j] != tags[k] && !Before(tags[k], tags[j]) {
      assert from[j] < from[k];
    }
    forall r | r in some ensures r in tags {
      var j :| 0 <= j < |refs| && refs[j] == r;
    }
    DistinctSize(tags, some);
  }

  lemma {:induction false} DistinctSize<T>(xs: seq<T>, all: set<T>)
    requires forall i, j :: 0 <= i < j < |xs| ==> xs[i] != xs[j]
    requires forall x :: x in all <==> x in xs
    ensures |xs| == |all|
    decreases |xs|
  {
    if xs == [] {
      assert all == {};
    } else {
      var front, last := xs[..|xs| - 1], xs[|xs| - 1];
      forall x ensures x in all - {last} <==> x in front {
        if x in all - {last} {
          var i :| 0 <= i < |xs| && xs[i] == x;
          assert front[i] == x;
        }
      }
      DistinctSize(front, all - {last});
    }
  }

  /** The loop that fills in images and tags along the parent chain; it stops at an image without a
      parent, or with one that is not stored. */
  method FillImages(d: Daemon, id: ImageID, rows: seq<Row>) returns (out: seq<Row>)
    requires forall i :: 0 <= i < |rows| ==> rows[i].id.None? && rows[i].tags == []
    ensures |out| == |rows|
    ensures forall i :: 0 <= i < |rows| ==>
              Filled(d.View(), id, out[i], i) && out[i].entry == rows[i].entry && out[i].chain == rows[i].chain
  {
    hide Enumerates, InOrder, TagsOf;
    out := rows;
    var current := id;
    var i := 0;
    while i < |rows|
      invariant 0 <= i <= |rows| == |out|
      invariant StoredAncestor(d.View(), id, i) == Some(current)
      invariant forall j :: 0 <= j < i ==>
                  Filled(d.View(), id, out[j], j) && out[j].entry == rows[j].entry && out[j].chain == rows[j].chain
      invariant forall j :: i <= j < |rows| ==> out[j] == rows[j]
    {
      var tags := Tags(d, current);
      out := out[i := out[i].(id := Some(current), tags := tags)];
      i := i + 1;
      if current !in d.parents || d.parents[current] !in d.images {
        forall j | i <= j < |rows| ensures Filled(d.View(), id, out[j], j) {
          NoneFurtherUp(d.View(), id, i, j);
        }
        break;
      }
      current := d.parents[current];
    }
  }

  /** ImageHistory: it fails only for an unknown image. Every row shows its entry's own layer on top of
      the layers of all earlier entries; the image shown for a row is the one whose whole history
      ends with that row. */
  method History(d: Daemon, id: ImageID) returns (r: Result<seq<Row>, HistoryError>)
    requires Inv(d.View())
    ensures r.Err? <==> id !in d.images
    ensures r.Err? ==> r.error == NoSuchImage
    ensures r.Ok? ==>
              && |r.value| == |id.image.history|
              && Admissible(id.image)
              && forall i :: 0 <= i < |r.value| ==>
                   && RowFor(id.image, r.value[i], |r.value| - 1 - i)
                   && Filled(d.View(), id, r.value[i], i) && r.value[i].id == Ancestor(d.View(), id, i)
                   && (r.value[i].id.Some? ==> r.value[i].id.value.image.history == id.image.history[..|r.value| - i])
  {
    if id !in d.images {
      return Err(NoSuchImage);
    }
    var rows := LayerRows(id.image);
    if rows.Err? {
      return rows;
    }
    var out := FillImages(d, id, rows.value);
    forall i | 0 <= i < |out|
      ensures out[i].id == Ancestor(d.View(), id, i)
      ensures out[i].id.Some? ==> out[i].id.value.image.history == id.image.history[..|out| - i]
    {
      assert Filled(d.View(), id, out[i], i);
      StoredAncestorIsAncestor(d.View(), id, i);
      if out[i].id.Some? { AncestorHistory(d.View(), id, i); }
    }
    return Ok(out);
  }
}

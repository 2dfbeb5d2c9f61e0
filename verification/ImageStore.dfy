/** The stores the daemon keeps about images (image/store.go, image/fs.go, reference/store.go,
    container/memory_store.go), and the invariant that all image operations rely on. */
module ImageStore {
  import opened Wrappers
  import opened Strings
  import opened ImageModel

  /** A repository reference; a name alone has already been given the tag "latest". */
  datatype Ref =
    | Tag(repo: string, tag: string)
    | Digest(repo: string, digest: string)

  datatype Container = Container(image: Option<ImageID>, running: bool)

  /** `parents` is the "parent" metadata on disk and `children` the index held in memory; the two
      are updated separately and can drift apart. */
  datatype State = State(
    images: set<ImageID>,
    parents: map<ImageID, ImageID>,
    children: map<ImageID, set<ImageID>>,
    refs: map<Ref, ImageID>,
    containers: map<string, Container>)

  const EMPTY := State({}, map[], map[], map[], map[])

  ghost predicate ValidEdges(s: State) {
    && s.children.Keys == s.images
    && (forall k :: k in s.parents ==>
          k in s.images && s.parents[k] in s.images && k in s.children[s.parents[k]])
    && (forall p, k :: p in s.children && k in s.children[p] ==> Extends(k.image, p.image))
  }

  ghost predicate ValidRefs(s: State) {
    forall r :: r in s.refs ==> s.refs[r] in s.images
  }

  /** What holds in every reachable state: edges and references point at stored images, every
      parent edge adds one history entry, and no history names more layers than there are. */
  ghost predicate Inv(s: State) {
    && ValidEdges(s)
    && ValidRefs(s)
    && (forall i :: i in s.images ==> Admissible(i.image))
  }

  /** The child index holds nothing but true children. */
  ghost predicate IndexExact(s: State) {
    forall p, k :: p in s.children && k in s.children[p] ==> k in s.parents && s.parents[k] == p
  }

  /** Every stored image has exactly one layer per non-empty history entry. */
  ghost predicate AllConsistent(s: State) {
    forall i :: i in s.images ==> Consistent(i.image)
  }

  function RefsOf(refs: map<Ref, ImageID>, id: ImageID): set<Ref> {
    set r | r in refs && refs[r] == id
  }

  predicate UsedBy(c: Container, id: ImageID) {
    c.image == Some(id)
  }

  predicate Used(s: State, id: ImageID) {
    exists c :: c in s.containers && UsedBy(s.containers[c], id)
  }

  predicate UsedRunning(s: State, id: ImageID) {
    exists c :: c in s.containers && UsedBy(s.containers[c], id) && s.containers[c].running
  }

  // ---------------------------------------------------------------- image store operations

  /** image/store.go, Create: content addressed, so creating an image twice changes nothing. */
  function StoreCreate(s: State, img: Image): State {
    var id := Sha256(img);
    if !Admissible(img) || id in s.images then s
    else s.(images := s.images + {id}, children := s.children[id := {}])
  }

  /** The child index after `id` is taken from under its recorded parent. */
  function Detached(s: State, id: ImageID): map<ImageID, set<ImageID>> {
    if id in s.parents && s.parents[id] in s.children
    then s.children[s.parents[id] := s.children[s.parents[id]] - {id}]
    else s.children
  }

  /** image/store.go, SetParent. The in-memory index is updated before the metadata write, which
      fails when `id` has no stored configuration. */
  function StoreSetParent(s: State, id: ImageID, parent: ImageID): State {
    if parent !in s.images || parent !in s.children then s
    else
      var d := Detached(s, id);
      var indexed := s.(children := d[parent := d[parent] + {id}]);
      if id in s.images then indexed.(parents := s.parents[id := parent]) else indexed
  }

  /** image/store.go, Delete: children lose their parent metadata, the parent loses its child. */
  function StoreDelete(s: State, id: ImageID): State {
    if id !in s.images || id !in s.children then s
    else
      var orphaned := s.(parents := s.parents - s.children[id]);
      orphaned.(images := s.images - {id},
                parents := orphaned.parents - {id},
                children := Detached(orphaned, id) - {id})
  }

  // ---------------------------------------------------------------- the daemon object

  datatype StoreError = UnknownParent | UnknownImage | TooManyLayers | AmbiguousName | DigestExists | TagExists | NoSuchRef

  class Daemon {
    var images: set<ImageID>
    var parents: map<ImageID, ImageID>
    var children: map<ImageID, set<ImageID>>
    var refs: map<Ref, ImageID>
    var containers: map<string, Container>

    function View(): State
      reads this
    {
      State(images, parents, children, refs, containers)
    }

    constructor ()
      ensures View() == EMPTY && Inv(View())
    {
      images, parents, children, refs, containers := {}, map[], map[], map[], map[];
    }

    method Create(img: Image) returns (r: Result<ImageID, StoreError>)
      modifies this`images, this`children
      ensures View() == StoreCreate(old(View()), img)
      ensures r == if Admissible(img) then Ok(Sha256(img)) else Err(TooManyLayers)
      ensures r.Ok? && old(children.Keys) == old(images) ==> r.value in images
    {
      var layerCounter := 0;
      for i := 0 to |img.history|
        invariant layerCounter == LayerCount(img.history[..i])
        invariant View() == old(View())
      {
        LayerCountStep(img.history, i);
        if !img.history[i].emptyLayer {
          layerCounter := layerCounter + 1;
        }
      }
      assert img.history[..|img.history|] == img.history;
      if layerCounter > |img.diffIDs| {
        return Err(TooManyLayers);
      }
      var id := Sha256(img);
      if id in images {
        return Ok(id);
      }
      images := images + {id};
      children := children[id := {}];
      return Ok(id);
    }

    method SetParent(id: ImageID, parent: ImageID) returns (r: Option<StoreError>)
      requires children.Keys == images
      modifies this`parents, this`children
      ensures View() == StoreSetParent(old(View()), id, parent)
      ensures r == if parent !in images then Some(UnknownParent) else if id !in images then Some(UnknownImage) else None
    {
      if parent !in images {
        return Some(UnknownParent);
      }
      if id in parents && parents[id] in images {
        children := children[parents[id] := children[parents[id]] - {id}];
      }
      children := children[parent := children[parent] + {id}];
      if id !in images {
        return Some(UnknownImage);
      }
      parents := parents[id := parent];
      return None;
    }

    method Delete(id: ImageID) returns (r: Option<StoreError>)
      requires children.Keys == images
      modifies this`images, this`parents, this`children
      ensures View() == StoreDelete(old(View()), id)
      ensures r == if id in old(images) then None else Some(UnknownImage)
    {
      if id !in images {
        return Some(UnknownImage);
      }
      parents := parents - children[id];
      if id in parents && parents[id] in images {
        children := children[parents[id] := children[parents[id]] - {id}];
      }
      images := images - {id};
      children := children - {id};
      parents := parents - {id};
      return None;
    }

    /** reference/store.go, addReference: a digest is never overwritten, a tag only by force. */
    method AddReference(ref: Ref, id: ImageID, force: bool) returns (r: Option<StoreError>)
      modifies this`refs
      ensures r == if ref.repo == "sha256" then Some(AmbiguousName)
                   else if ref in old(refs) && ref.Digest? then Some(DigestExists)
                   else if ref in old(refs) && !force then Some(TagExists)
                   else None
      ensures refs == if r.None? then old(refs)[ref := id] else old(refs)
    {
      if ref.repo == "sha256" {
        return Some(AmbiguousName);
      }
      if ref in refs {
        if ref.Digest? {
          return Some(DigestExists);
        }
        if !force {
          return Some(TagExists);
        }
      }
      refs := refs[ref := id];
      return None;
    }

    /** reference/store.go, Delete. */
    method RemoveReference(ref: Ref) returns (r: Option<StoreError>)
      modifies this`refs
      ensures refs == old(refs) - {ref}
      ensures r == if ref in old(refs) then None else Some(NoSuchRef)
    {
      if ref !in refs {
        return Some(NoSuchRef);
      }
      refs := refs - {ref};
      return None;
    }

    /** reference/store.go, References: every reference to the image, each once, in lexical order. */
    method References(id: ImageID) returns (rs: seq<Ref>)
      ensures Enumerates(rs, RefsOf(refs, id)) && InOrder(rs)
    {
      rs := [];
      var todo := RefsOf(refs, id);
      while todo != {}
        invariant todo <= RefsOf(refs, id)
        invariant Enumerates(rs, RefsOf(refs, id) - todo) && InOrder(rs)
        decreases todo
      {
        hide InOrder, Enumerates;
        var r :| r in todo;
        assert RefsOf(refs, id) - (todo - {r}) == RefsOf(refs, id) - todo + {r};
        rs := InsertRef(rs, RefsOf(refs, id) - todo, r);
        todo := todo - {r};
      }
    }
  }

  /** The text of a reference. */
  function RefText(r: Ref): string {
    match r
    case Tag(repo, tag) => repo + ":" + tag
    case Digest(repo, digest) => repo + "@" + digest
  }

  /** The text can be taken apart: a tag stands behind the last colon, a digest behind the last at sign. */
  lemma TextsSplit(r: Ref, k: nat)
    requires k < |RefText(r)|
    ensures r.Tag? && ':' !in r.tag && RefText(r)[k] == ':' && ':' !in RefText(r)[k + 1..] ==>
              r.repo == RefText(r)[..k] && r.tag == RefText(r)[k + 1..]
    ensures r.Digest? && '@' !in r.digest && RefText(r)[k] == '@' && '@' !in RefText(r)[k + 1..] ==>
              r.repo == RefText(r)[..k] && r.digest == RefText(r)[k + 1..]
    ensures r.Tag? ==> RefText(r)[|RefText(r)| - |r.tag| - 1] == ':'
    ensures r.Digest? ==> RefText(r)[|RefText(r)| - |r.digest| - 1] == '@'
  {
    var text, n := RefText(r), |r.repo|;
    if r.Tag? {
      assert text[n] == ':' && text[n + 1..] == r.tag && text[..n] == r.repo;
      if k > n { assert text[k] == r.tag[k - n - 1]; }
      if k < n { assert text[k + 1..][n - k - 1] == ':'; }
    } else {
      assert text[n] == '@' && text[n + 1..] == r.digest && text[..n] == r.repo;
      if k > n { assert text[k] == r.digest[k - n - 1]; }
      if k < n { assert text[k + 1..][n - k - 1] == '@'; }
    }
  }

  predicate Before(a: Ref, b: Ref) {
    Lex(RefText(a), RefText(b))
  }

  ghost predicate InOrder(rs: seq<Ref>) {
    forall i, j :: 0 <= i < j < |rs| ==> !Before(rs[j], rs[i])
  }

  lemma NotAfterTransitive(a: Ref, b: Ref, c: Ref)
    requires !Before(b, a) && !Before(c, b)
    ensures !Before(c, a)
  {
    LexTrichotomy(RefText(a), RefText(b));
    LexTrichotomy(RefText(b), RefText(c));
    LexTrichotomy(RefText(a), RefText(c));
    if Before(a, b) && Before(b, c) { LexTransitive(RefText(a), RefText(b), RefText(c)); }
  }

  lemma BeforeIsStrict(a: Ref, b: Ref)
    ensures Before(a, b) ==> !Before(b, a)
  {
    LexTrichotomy(RefText(a), RefText(b));
  }

  /** One step of the sort. */
  method InsertRef(rs: seq<Ref>, ghost all: set<Ref>, r: Ref) returns (out: seq<Ref>)
    requires Enumerates(rs, all) && InOrder(rs) && r !in all
    ensures Enumerates(out, all + {r}) && InOrder(out)
  {
    hide Before, Enumerates;
    var k := |rs|;
    while k > 0 && Before(r, rs[k - 1])
      invariant 0 <= k <= |rs|
      invariant forall j :: k <= j < |rs| ==> !Before(rs[j], r)
    {
      BeforeIsStrict(r, rs[k - 1]);
      k := k - 1;
    }
    forall i | 0 <= i < k ensures !Before(r, rs[i]) {
      if i < k - 1 { NotAfterTransitive(rs[i], rs[k - 1], r); }
    }
    out := rs[..k] + [r] + rs[k..];
    InsertedInOrder(rs, r, k);
    EnumerateInserted(rs, all, r, k);
  }

  lemma InsertedInOrder(rs: seq<Ref>, r: Ref, k: nat)
    requires InOrder(rs) && k <= |rs|
    requires forall i :: 0 <= i < k ==> !Before(r, rs[i])
    requires forall j :: k <= j < |rs| ==> !Before(rs[j], r)
    ensures InOrder(rs[..k] + [r] + rs[k..])
  {
    hide Before;
    var out := rs[..k] + [r] + rs[k..];
    assert forall i :: 0 <= i < k ==> out[i] == rs[i];
    assert out[k] == r;
    assert forall i :: k < i < |out| ==> out[i] == rs[i - 1];
  }

  lemma EnumerateInserted<T>(xs: seq<T>, all: set<T>, x: T, k: nat)
    requires Enumerates(xs, all) && x !in all && k <= |xs|
    ensures Enumerates(xs[..k] + [x] + xs[k..], all + {x})
  {
    var out := xs[..k] + [x] + xs[k..];
    DistinctInserted(xs, x, k);
    forall y ensures y in out <==> y in all + {x} {
      InsertedMembers(xs, x, k, y);
    }
    assert |all + {x}| == |all| + 1;
  }

  lemma InsertedMembers<T>(xs: seq<T>, x: T, k: nat, y: T)
    requires k <= |xs|
    ensures y in xs[..k] + [x] + xs[k..] <==> y in xs || y == x
  {
    assert xs == xs[..k] + xs[k..];
  }

  lemma DistinctInserted<T>(xs: seq<T>, x: T, k: nat)
    requires k <= |xs| && x !in xs && forall i, j :: 0 <= i < j < |xs| ==> xs[i] != xs[j]
    ensures var out := xs[..k] + [x] + xs[k..]; forall i, j :: 0 <= i < j < |out| ==> out[i] != out[j]
  {
    var out := xs[..k] + [x] + xs[k..];
    forall i, j | 0 <= i < j < |out| ensures out[i] != out[j] {
      assert out[i] == if i < k then xs[i] else if i == k then x else xs[i - 1];
      assert out[j] == if j < k then xs[j] else if j == k then x else xs[j - 1];
    }
  }

  /** `xs` lists every element of `all` exactly once. */
  predicate Enumerates<T(==)>(xs: seq<T>, all: set<T>) {
    && |xs| == |all|
    && (forall i, j :: 0 <= i < j < |xs| ==> xs[i] != xs[j])
    && (forall x :: x in all ==> x in xs)
    && (forall i :: 0 <= i < |xs| ==> xs[i] in all)
  }

  lemma EnumerateOneMore<T>(xs: seq<T>, all: set<T>, x: T)
    requires Enumerates(xs, all) && x !in all
    ensures Enumerates(xs + [x], all + {x})
  {
    forall y | y in all + {x} ensures y in xs + [x] {
      if y == x { assert (xs + [x])[|xs|] == x; }
    }
  }

  // ---------------------------------------------------------------- the store keeps the invariant

  lemma CreateKeepsInv(s: State, img: Image)
    requires Inv(s)
    ensures Inv(StoreCreate(s, img))
  {
    hide Extends, Admissible;
  }

  /** The child index after SetParent, entry by entry. */
  lemma SetParentChildren(s: State, id: ImageID, parent: ImageID, p: ImageID, k: ImageID)
    requires s.children.Keys == s.images && parent in s.images && p in s.images
    ensures var s' := StoreSetParent(s, id, parent);
            && s'.children.Keys == s.images
            && (k in s'.children[p] <==>
                if k == id then p == parent || (p in s.children && id in s.children[p] && !(id in s.parents && s.parents[id] == p))
                else k in s.children[p])
  {
  }

  /** Parent edges stay well formed whenever the new edge adds one history entry, whether or not the
      child is still stored. */
  lemma SetParentKeepsInv(s: State, id: ImageID, parent: ImageID)
    requires Inv(s)
    requires parent in s.images ==> Extends(id.image, parent.image)
    ensures Inv(StoreSetParent(s, id, parent))
  {
    if parent in s.images {
      var s' := StoreSetParent(s, id, parent);
      SetParentChildren(s, id, parent, parent, id);
      forall k | k in s'.parents
        ensures k in s'.images && s'.parents[k] in s'.images && k in s'.children[s'.parents[k]]
      {
        SetParentChildren(s, id, parent, s'.parents[k], k);
      }
      forall p, k | p in s'.children && k in s'.children[p] ensures Extends(k.image, p.image) {
        SetParentChildren(s, id, parent, p, k);
      }
    }
  }

  /** The child index stays exact exactly when the child handed to SetParent is still stored. */
  lemma SetParentIndexExactIff(s: State, id: ImageID, parent: ImageID)
    requires Inv(s) && IndexExact(s)
    ensures IndexExact(StoreSetParent(s, id, parent)) <==> parent !in s.images || id in s.images
  {
    assert s.children.Keys == s.images;
    hide Inv;
    if parent in s.images {
      var s' := StoreSetParent(s, id, parent);
      SetParentChildren(s, id, parent, parent, id);
      if id in s.images {
        forall p, k | p in s'.children && k in s'.children[p]
          ensures k in s'.parents && s'.parents[k] == p
        {
          SetParentChildren(s, id, parent, p, k);
        }
      }
    }
  }

  /** Deleting an image: exactly it goes, its children lose their parent, and its parent loses it as a child. */
  lemma DeleteIs(s: State, id: ImageID)
    requires ValidEdges(s) && id in s.images
    ensures var s' := StoreDelete(s, id);
            && s'.images == s.images - {id} && s'.children.Keys == s'.images && s'.refs == s.refs && s'.containers == s.containers
            && (forall k :: k in s'.parents <==> k in s.parents && k != id && k !in s.children[id])
            && (forall k :: k in s'.parents ==> s'.parents[k] == s.parents[k] != id)
            && forall p, k :: p in s'.children ==>
                 (k in s'.children[p] <==> k in s.children[p] && !(k == id && id in s.parents && s.parents[id] == p))
  {
    hide Extends;
    assert id !in s.children[id] by { NotItsOwnChild(s, id); }
  }

  lemma NotItsOwnChild(s: State, id: ImageID)
    requires ValidEdges(s) && id in s.children
    ensures id !in s.children[id]
  {
  }

  /** Deleting an image keeps the invariant once its references are gone, whether or not it has children. */
  lemma DeleteKeepsInv(s: State, id: ImageID)
    requires Inv(s) && id in s.images && RefsOf(s.refs, id) == {}
    ensures Inv(StoreDelete(s, id))
  {
    hide Extends, Admissible, StoreDelete;
    DeleteIs(s, id);
    var s' := StoreDelete(s, id);
    forall k | k in s'.parents ensures k in s'.images && s'.parents[k] in s'.images && k in s'.children[s'.parents[k]] {
      assert k in s.children[s.parents[k]];
    }
    forall r | r in s'.refs ensures s'.refs[r] in s'.images {
      assert r !in RefsOf(s.refs, id);
    }
    hide RefsOf;
    forall p, k | p in s'.children && k in s'.children[p] ensures Extends(k.image, p.image) {
      assert k in s.children[p];
    }
  }

  /** And it keeps the child index exact. */
  lemma DeleteKeepsIndexExact(s: State, id: ImageID)
    requires ValidEdges(s) && IndexExact(s) && id in s.images
    ensures IndexExact(StoreDelete(s, id))
  {
    DeleteIs(s, id);
    var s' := StoreDelete(s, id);
    assert id in s.children && s'.children.Keys == s.images - {id};
    hide ValidEdges, StoreDelete, IndexExact;
    forall p, k | p in s'.children && k in s'.children[p] ensures k in s'.parents && s'.parents[k] == p {
      ParentOf(s, p, k);
      if k in s.children[id] { ParentOf(s, id, k); }
    }
    assert IndexExact(s') by { IsExact(s'); }
  }

  lemma ParentOf(s: State, p: ImageID, k: ImageID)
    requires IndexExact(s) && p in s.children && k in s.children[p]
    ensures k in s.parents && s.parents[k] == p
  {
  }

  lemma IsExact(s: State)
    requires forall p, k :: p in s.children && k in s.children[p] ==> k in s.parents && s.parents[k] == p
    ensures IndexExact(s)
  {
  }
}

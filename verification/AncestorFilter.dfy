/** The ancestor filter of `docker ps` (daemon/list.go, populateImageFilterByParents and the part of
    foldFilter that calls it): walking the child index downwards. */
module AncestorFilter {
  import opened Wrappers
  import opened ImageModel
  import opened ImageStore
  import opened BuildCache

  /** A walk down the child index. */
  ghost predicate Path(s: State, path: seq<ImageID>) {
    && path != []
    && forall i :: 0 <= i < |path| - 1 ==> path[i] in s.children && path[i + 1] in s.children[path[i]]
  }

  ghost predicate Descends(s: State, from: ImageID, to: ImageID) {
    exists path :: Path(s, path) && path[0] == from && path[|path| - 1] == to
  }

  function ChildrenOf(s: State, id: ImageID): set<ImageID> {
    if id in s.children then s.children[id] else {}
  }

  lemma DescendsRefl(s: State, id: ImageID)
    ensures Descends(s, id, id)
  {
    assert Path(s, [id]);
  }

  lemma DescendsVia(s: State, id: ImageID, child: ImageID, x: ImageID)
    requires child in ChildrenOf(s, id) && Descends(s, child, x)
    ensures Descends(s, id, x)
  {
    var path :| Path(s, path) && path[0] == child && path[|path| - 1] == x;
    assert Path(s, [id] + path);
  }

  lemma DescendsSplit(s: State, id: ImageID, x: ImageID)
    requires Descends(s, id, x)
    ensures x == id || exists child :: child in ChildrenOf(s, id) && Descends(s, child, x)
  {
    var path :| Path(s, path) && path[0] == id && path[|path| - 1] == x;
    if |path| > 1 {
      assert Path(s, path[1..]);
      assert path[1] in ChildrenOf(s, id) && Descends(s, path[1], x);
    }
  }

  /** Everything below a marked image is marked. */
  ghost predicate Closed(s: State, marked: set<ImageID>) {
    forall m, c :: m in marked && c in ChildrenOf(s, m) ==> c in marked
  }

  lemma {:induction false} ClosedUnderDescent(s: State, marked: set<ImageID>, path: seq<ImageID>)
    requires Closed(s, marked) && Path(s, path) && path[0] in marked
    ensures path[|path| - 1] in marked
    decreases |path|
  {
    if |path| > 1 {
      assert path[1] in ChildrenOf(s, path[0]);
      assert Path(s, path[1..]);
      ClosedUnderDescent(s, marked, path[1..]);
    }
  }

  /** All images the index knows. */
  function Universe(s: State): set<ImageID> {
    s.images + set p, k | p in s.children && k in s.children[p] :: k
  }

  /** Images with a longer history than `id`: what is left to descend into. */
  function Longer(s: State, id: ImageID): set<ImageID> {
    set x | x in Universe(s) && |x.image.history| > |id.image.history|
  }

  lemma LongerShrinks(s: State, id: ImageID, child: ImageID)
    requires ValidEdges(s) && child in ChildrenOf(s, id)
    ensures Longer(s, child) < Longer(s, id)
  {
    assert child in Universe(s);
    assert child in Longer(s, id) && child !in Longer(s, child);
  }

  /** populateImageFilterByParents: marks exactly the image and its descendants. The recursion ends
      because every child has a longer history. */
  method Populate(d: Daemon, marked: set<ImageID>, id: ImageID) returns (out: set<ImageID>)
    requires ValidEdges(d.View()) && Closed(d.View(), marked)
    ensures Closed(d.View(), out)
    ensures forall x :: x in out <==> x in marked || Descends(d.View(), id, x)
    decreases Longer(d.View(), id), 1
  {
    ghost var s := d.View();
    out := marked;
    if id in marked {
      forall x | Descends(s, id, x) ensures x in marked {
        var path :| Path(s, path) && path[0] == id && path[|path| - 1] == x;
        ClosedUnderDescent(s, marked, path);
      }
      return;
    }
    out := PopulateChildren(d, marked, id);
    DescendsRefl(s, id);
    forall x ensures x in out + {id} <==> x in marked || Descends(s, id, x) {
      if Descends(s, id, x) { DescendsSplit(s, id, x); }
      if x in out && x !in marked {
        var c :| c in ChildrenOf(s, id) && Descends(s, c, x);
        DescendsVia(s, id, c, x);
      }
    }
    forall c | c in ChildrenOf(s, id) ensures c in out { DescendsRefl(s, c); }
    out := out + {id};
  }

  /** The loop over the children. */
  method PopulateChildren(d: Daemon, marked: set<ImageID>, id: ImageID) returns (out: set<ImageID>)
    requires ValidEdges(d.View()) && Closed(d.View(), marked)
    ensures Closed(d.View(), out)
    ensures forall x :: x in out <==> x in marked || exists c :: c in ChildrenOf(d.View(), id) && Descends(d.View(), c, x)
    decreases Longer(d.View(), id), 0
  {
    ghost var s := d.View();
    out := marked;
    var todo := ChildrenOf(d.View(), id);
    while todo != {}
      invariant todo <= ChildrenOf(s, id)
      invariant Closed(s, out)
      invariant forall x :: x in out <==> x in marked || exists c :: c in ChildrenOf(s, id) - todo && Descends(s, c, x)
      decreases todo
    {
      var c :| c in todo;
      LongerShrinks(s, id, c);
      var next := Populate(d, out, c);
      forall x ensures x in next <==> x in marked || exists k :: k in ChildrenOf(s, id) - (todo - {c}) && Descends(s, k, x) {
        if x in out && x !in marked {
          var k :| k in ChildrenOf(s, id) - todo && Descends(s, k, x);
          assert k in ChildrenOf(s, id) - (todo - {c});
        }
        if Descends(s, c, x) { assert c in ChildrenOf(s, id) - (todo - {c}); }
        if k :| k in ChildrenOf(s, id) - (todo - {c}) && Descends(s, k, x) {
          if k != c { assert k in ChildrenOf(s, id) - todo; }
        }
      }
      out, todo := next, todo - {c};
    }
  }

  /** foldFilter's loop: the filter holds exactly the given images and all their descendants. */
  method AncestorImages(d: Daemon, ancestors: seq<ImageID>) returns (filter: set<ImageID>)
    requires ValidEdges(d.View())
    ensures forall x :: x in filter <==> exists a :: a in ancestors && Descends(d.View(), a, x)
  {
    ghost var s := d.View();
    filter := {};
    for i := 0 to |ancestors|
      invariant Closed(s, filter)
      invariant forall x :: x in filter <==> exists j :: 0 <= j < i && Descends(s, ancestors[j], x)
    {
      var before := filter;
      if ancestors[i] !in filter {
        filter := Populate(d, filter, ancestors[i]);
      } else {
        forall x | Descends(s, ancestors[i], x) ensures x in filter {
          var path :| Path(s, path) && path[0] == ancestors[i] && path[|path| - 1] == x;
          ClosedUnderDescent(s, filter, path);
        }
      }
      forall x ensures x in filter <==> exists j :: 0 <= j < i + 1 && Descends(s, ancestors[j], x) {
        if x in filter && x in before {
          var j :| 0 <= j < i && Descends(s, ancestors[j], x);
        }
      }
    }
    forall x ensures x in filter <==> exists a :: a in ancestors && Descends(s, a, x) {
      if x in filter {
        var j :| 0 <= j < |ancestors| && Descends(s, ancestors[j], x);
        assert ancestors[j] in ancestors;
      }
      if a :| a in ancestors && Descends(s, a, x) {
        var j :| 0 <= j < |ancestors| && ancestors[j] == a;
      }
    }
  }

  lemma {:induction false} AncestorDescends(s: State, x: ImageID, k: nat)
    requires ValidEdges(s) && Ancestor(s, x, k).Some?
    ensures Descends(s, Ancestor(s, x, k).value, x)
    decreases k
  {
    if k == 0 {
      DescendsRefl(s, x);
    } else {
      var p := s.parents[x];
      AncestorDescends(s, p, k - 1);
      var path :| Path(s, path) && path[0] == Ancestor(s, x, k).value && path[|path| - 1] == p;
      var longer := path + [x];
      forall i | 0 <= i < |longer| - 1 ensures longer[i] in s.children && longer[i + 1] in s.children[longer[i]] {
        if i == |path| - 1 { assert x in s.children[p]; }
      }
      assert Path(s, longer);
    }
  }

  lemma {:induction false} PathIsAncestry(s: State, path: seq<ImageID>)
    requires IndexExact(s) && Path(s, path)
    ensures Ancestor(s, path[|path| - 1], |path| - 1) == Some(path[0])
    decreases |path|
  {
    if |path| > 1 {
      var front, x, p := path[..|path| - 1], path[|path| - 1], path[|path| - 2];
      assert path[|path| - 2 + 1] in s.children[p];
      assert Path(s, front);
      PathIsAncestry(s, front);
    }
  }

  /** While the child index is exact, walking it down is the inverse of following parent edges up. */
  lemma DescendsIffAncestor(s: State, a: ImageID, x: ImageID)
    requires ValidEdges(s) && IndexExact(s)
    ensures Descends(s, a, x) <==> exists k: nat :: Ancestor(s, x, k) == Some(a)
  {
    if Descends(s, a, x) {
      var path :| Path(s, path) && path[0] == a && path[|path| - 1] == x;
      PathIsAncestry(s, path);
      var k: nat := |path| - 1;
      assert Ancestor(s, x, k) == Some(a);
    }
    if k: nat :| Ancestor(s, x, k) == Some(a) {
      AncestorDescends(s, x, k);
    }
  }
}

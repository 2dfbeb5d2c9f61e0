/** The index of container links (daemon/links.go). */
module LinkIndex {
  /** A container, known by identity. */
  datatype ContainerID = ContainerID(id: string)

  type Alias = string

  /** `idx` maps parent and alias to the child; `childIdx` maps child and parent to the aliases. */
  datatype Links = Links(
    idx: map<ContainerID, map<Alias, ContainerID>>,
    childIdx: map<ContainerID, map<ContainerID, set<Alias>>>)

  const NO_LINKS := Links(map[], map[])

  function ChildrenOf(l: Links, parent: ContainerID): map<Alias, ContainerID> {
    if parent in l.idx then l.idx[parent] else map[]
  }

  function AliasMap(l: Links, child: ContainerID): map<ContainerID, set<Alias>> {
    if child in l.childIdx then l.childIdx[child] else map[]
  }

  /** The child index lists `alias` of `parent` for `child`. */
  predicate Listed(l: Links, parent: ContainerID, alias: Alias, child: ContainerID) {
    parent in AliasMap(l, child) && alias in AliasMap(l, child)[parent]
  }

  predicate Bound(l: Links, parent: ContainerID, alias: Alias, child: ContainerID) {
    alias in ChildrenOf(l, parent) && ChildrenOf(l, parent)[alias] == child
  }

  function Linked(l: Links, parent: ContainerID, child: ContainerID, alias: Alias): Links {
    var aliases := AliasMap(l, child);
    var mine := if parent in aliases then aliases[parent] else {};
    Links(l.idx[parent := ChildrenOf(l, parent)[alias := child]],
          l.childIdx[child := aliases[parent := mine + {alias}]])
  }

  /** The whole entry of the parent goes from the child's index, with all its aliases. */
  function Unlinked(l: Links, alias: Alias, child: ContainerID, parent: ContainerID): Links {
    Links(if parent in l.idx then l.idx[parent := l.idx[parent] - {alias}] else l.idx,
          if child in l.childIdx then l.childIdx[child := l.childIdx[child] - {parent}] else l.childIdx)
  }

  function Deleted(l: Links, c: ContainerID): Links {
    var children := ChildrenOf(l, c).Values;
    Links(l.idx - {c},
          map k | k in l.childIdx && k != c :: if k in children then l.childIdx[k] - {c} else l.childIdx[k])
  }

  class Index {
    var idx: map<ContainerID, map<Alias, ContainerID>>
    var childIdx: map<ContainerID, map<ContainerID, set<Alias>>>

    function View(): Links
      reads this
    {
      Links(idx, childIdx)
    }

    constructor ()
      ensures View() == NO_LINKS
    {
      idx, childIdx := map[], map[];
    }

    method Link(parent: ContainerID, child: ContainerID, alias: Alias)
      modifies this
      ensures View() == Linked(old(View()), parent, child, alias)
    {
      var children := if parent in idx then idx[parent] else map[];
      idx := idx[parent := children[alias := child]];
      var aliases := if child in childIdx then childIdx[child] else map[];
      ghost var before := aliases;
      if parent !in aliases {
        aliases := aliases[parent := {}];
      }
      assert aliases[parent := aliases[parent] + {alias}] == before[parent := aliases[parent] + {alias}];
      childIdx := childIdx[child := aliases[parent := aliases[parent] + {alias}]];
    }

    method Unlink(alias: Alias, child: ContainerID, parent: ContainerID)
      modifies this
      ensures View() == Unlinked(old(View()), alias, child, parent)
    {
      if parent in idx {
        idx := idx[parent := idx[parent] - {alias}];
      }
      if child in childIdx {
        childIdx := childIdx[child := childIdx[child] - {parent}];
      }
    }

    /** children: exactly the bound pairs. */
    method Children(parent: ContainerID) returns (children: map<Alias, ContainerID>)
      ensures forall a, c :: a in children && children[a] == c <==> Bound(View(), parent, a, c)
    {
      children := if parent in idx then idx[parent] else map[];
    }

    /** parents: every reported pair is listed, and every listed alias is reported, with one of the
        parents that use it. */
    method Parents(child: ContainerID) returns (parents: map<Alias, ContainerID>)
      ensures forall a :: a in parents ==> Listed(View(), parents[a], a, child)
      ensures forall p, a :: Listed(View(), p, a, child) ==> a in parents
    {
      parents := map[];
      var aliases := if child in childIdx then childIdx[child] else map[];
      var todo := aliases.Keys;
      while todo != {}
        invariant todo <= aliases.Keys
        invariant forall a :: a in parents ==> Listed(View(), parents[a], a, child)
        invariant forall p, a :: p in aliases && p !in todo && a in aliases[p] ==> a in parents
        decreases todo
      {
        var p :| p in todo;
        todo := todo - {p};
        parents := parents + map a | a in aliases[p] :: p;
      }
    }

    method Delete(c: ContainerID)
      modifies this
      ensures View() == Deleted(old(View()), c)
    {
      ghost var l := View();
      var todo := if c in idx then idx[c].Values else {};
      ghost var done: set<ContainerID> := {};
      while todo != {}
        invariant done + todo == ChildrenOf(l, c).Values && idx == l.idx
        invariant childIdx.Keys == l.childIdx.Keys
        invariant forall k :: k in childIdx ==> childIdx[k] == if k in done then l.childIdx[k] - {c} else l.childIdx[k]
        decreases todo
      {
        var child :| child in todo;
        if child in childIdx {
          childIdx := childIdx[child := childIdx[child] - {c}];
        }
        todo, done := todo - {child}, done + {child};
      }
      idx := idx - {c};
      childIdx := childIdx - {c};
    }
  }

  // ---------------------------------------------------------------- agreement of the two maps

  /** Whatever parents() can report, children() reports as well, for the same child. */
  ghost predicate Agree(l: Links) {
    forall p, a, c :: Listed(l, p, a, c) ==> Bound(l, p, a, c)
  }

  lemma LinkedLists(l: Links, parent: ContainerID, child: ContainerID, alias: Alias, p: ContainerID, a: Alias, c: ContainerID)
    ensures var l' := Linked(l, parent, child, alias);
            && (Listed(l', p, a, c) <==> Listed(l, p, a, c) || (p == parent && a == alias && c == child))
            && (Bound(l', p, a, c) <==> if p == parent && a == alias then c == child else Bound(l, p, a, c))
  {
  }

  /** Linking keeps the agreement exactly when the alias is not listed for another child of this parent. */
  lemma LinkKeepsAgreementIff(l: Links, parent: ContainerID, child: ContainerID, alias: Alias)
    requires Agree(l)
    ensures Agree(Linked(l, parent, child, alias)) <==> forall c :: Listed(l, parent, alias, c) ==> c == child
  {
    var l' := Linked(l, parent, child, alias);
    forall p, a, c ensures
        && (Listed(l', p, a, c) <==> Listed(l, p, a, c) || (p == parent && a == alias && c == child))
        && (Bound(l', p, a, c) <==> if p == parent && a == alias then c == child else Bound(l, p, a, c))
    {
      LinkedLists(l, parent, child, alias, p, a, c);
    }
    hide Linked, Listed, Bound;
    if c :| Listed(l, parent, alias, c) && c != child {
      assert Listed(l', parent, alias, c) && !Bound(l', parent, alias, c);
    }
  }

  lemma UnlinkedLists(l: Links, alias: Alias, child: ContainerID, parent: ContainerID, p: ContainerID, a: Alias, c: ContainerID)
    ensures var l' := Unlinked(l, alias, child, parent);
            && (Listed(l', p, a, c) <==> Listed(l, p, a, c) && !(c == child && p == parent))
            && (Bound(l', p, a, c) <==> Bound(l, p, a, c) && !(p == parent && a == alias))
  {
  }

  /** So does unlinking, exactly when the alias is not listed for a child other than the one named. */
  lemma UnlinkKeepsAgreementIff(l: Links, alias: Alias, child: ContainerID, parent: ContainerID)
    requires Agree(l)
    ensures Agree(Unlinked(l, alias, child, parent)) <==> forall c :: Listed(l, parent, alias, c) ==> c == child
  {
    var l' := Unlinked(l, alias, child, parent);
    forall p, a, c ensures
        && (Listed(l', p, a, c) <==> Listed(l, p, a, c) && !(c == child && p == parent))
        && (Bound(l', p, a, c) <==> Bound(l, p, a, c) && !(p == parent && a == alias))
    {
      UnlinkedLists(l, alias, child, parent, p, a, c);
    }
    hide Unlinked, Listed, Bound;
    if c :| Listed(l, parent, alias, c) && c != child {
      assert Listed(l', parent, alias, c) && !Bound(l', parent, alias, c);
    }
  }

  lemma DeletedLists(l: Links, x: ContainerID, p: ContainerID, a: Alias, c: ContainerID)
    ensures var l' := Deleted(l, x);
            && (Listed(l', p, a, c) <==> Listed(l, p, a, c) && c != x && !(p == x && c in ChildrenOf(l, x).Values))
            && (Bound(l', p, a, c) <==> Bound(l, p, a, c) && p != x)
  {
  }

  /** Deleting a container forgets it as parent and as child: children(x) and parents(x) are empty. No parents(c)
      mentions x either exactly if every child that listed x was among x's children. Where the two maps
      agree that is so, and they still agree. */
  lemma DeleteForgets(l: Links, x: ContainerID)
    ensures ChildrenOf(Deleted(l, x), x) == map[] && AliasMap(Deleted(l, x), x) == map[]
    ensures (forall p, a, c :: Listed(Deleted(l, x), p, a, c) ==> p != x && c != x) <==>
            (forall a, c :: Listed(l, x, a, c) && c != x ==> c in ChildrenOf(l, x).Values)
    ensures Agree(l) ==> Agree(Deleted(l, x)) && forall a, c :: Listed(l, x, a, c) ==> c in ChildrenOf(l, x).Values
  {
    var l' := Deleted(l, x);
    forall p, a, c ensures
        && (Listed(l', p, a, c) <==> Listed(l, p, a, c) && c != x && !(p == x && c in ChildrenOf(l, x).Values))
        && (Bound(l', p, a, c) <==> Bound(l, p, a, c) && p != x)
        && (Bound(l, x, a, c) ==> c in ChildrenOf(l, x).Values)
    {
      DeletedLists(l, x, p, a, c);
    }
    hide Listed, Bound;
  }

  // ---------------------------------------------------------------- runs

  datatype Event =
    | Link(parent: ContainerID, child: ContainerID, alias: Alias)
    | Unlink(alias: Alias, child: ContainerID, parent: ContainerID)
    | Delete(c: ContainerID)

  function Step(l: Links, e: Event): Links {
    match e
    case Link(parent, child, alias) => Linked(l, parent, child, alias)
    case Unlink(alias, child, parent) => Unlinked(l, alias, child, parent)
    case Delete(c) => Deleted(l, c)
  }

  function Run(es: seq<Event>): Links {
    if es == [] then NO_LINKS else Step(Run(es[..|es| - 1]), es[|es| - 1])
  }

  /** Links do not rebind an alias listed for another child, and unlinks name the child it is listed for. */
  ghost predicate Careful(l: Links, e: Event) {
    match e
    case Link(parent, child, alias) => forall c :: Listed(l, parent, alias, c) ==> c == child
    case Unlink(alias, child, parent) => forall c :: Listed(l, parent, alias, c) ==> c == child
    case Delete(_) => true
  }

  /** In every run of careful events the two maps agree; and a single careless one breaks the agreement. */
  lemma {:induction false} CarefulRunsAgree(es: seq<Event>)
    requires forall i :: 0 <= i < |es| ==> Careful(Run(es[..i]), es[i])
    ensures Agree(Run(es))
    decreases |es|
  {
    if es != [] {
      var front := es[..|es| - 1];
      assert forall i :: 0 <= i < |front| ==> front[..i] == es[..i];
      CarefulRunsAgree(front);
      StepAgreesIff(Run(front), es[|es| - 1]);
      assert Careful(Run(es[..|front|]), es[|front|]);
    }
  }

  lemma StepAgreesIff(l: Links, e: Event)
    requires Agree(l)
    ensures Agree(Step(l, e)) <==> Careful(l, e)
  {
    match e
    case Link(parent, child, alias) => LinkKeepsAgreementIff(l, parent, child, alias);
    case Unlink(alias, child, parent) => UnlinkKeepsAgreementIff(l, alias, child, parent);
    case Delete(c) => DeleteForgets(l, c);
  }

  /** The event takes the alias away from the parent. */
  predicate Unbinds(e: Event, parent: ContainerID, alias: Alias) {
    match e
    case Link(p, _, a) => p == parent && a == alias
    case Unlink(a, _, p) => p == parent && a == alias
    case Delete(c) => c == parent
  }

  /** The last thing that happened to the parent's alias is that it was linked to the child. */
  ghost predicate LastLinked(es: seq<Event>, parent: ContainerID, alias: Alias, child: ContainerID) {
    exists i :: 0 <= i < |es| && es[i] == Link(parent, child, alias) && forall j :: i < j < |es| ==> !Unbinds(es[j], parent, alias)
  }

  lemma LastLinkedStep(es: seq<Event>, e: Event, parent: ContainerID, alias: Alias, child: ContainerID)
    ensures LastLinked(es + [e], parent, alias, child) <==>
            e == Link(parent, child, alias) || (LastLinked(es, parent, alias, child) && !Unbinds(e, parent, alias))
  {
    var all := es + [e];
    assert all[|es|] == e && forall j :: 0 <= j < |es| ==> all[j] == es[j];
    if LastLinked(all, parent, alias, child) && e != Link(parent, child, alias) {
      var i :| 0 <= i < |all| && all[i] == Link(parent, child, alias) && forall j :: i < j < |all| ==> !Unbinds(all[j], parent, alias);
      assert i < |es| && es[i] == Link(parent, child, alias);
      forall j | i < j < |es| ensures !Unbinds(es[j], parent, alias) { assert all[j] == es[j]; }
    }
    if LastLinked(es, parent, alias, child) && !Unbinds(e, parent, alias) {
      var i :| 0 <= i < |es| && es[i] == Link(parent, child, alias) && forall j :: i < j < |es| ==> !Unbinds(es[j], parent, alias);
      assert all[i] == Link(parent, child, alias);
    }
    if e == Link(parent, child, alias) {
      assert |all| == |es| + 1 && all[|es|] == Link(parent, child, alias);
      assert LastLinked(all, parent, alias, child);
    }
  }

  /** In every run, children(p) reports alias a for container c exactly when a was linked to c and since then
      neither linked anew nor unlinked, and p not deleted. Deleting c does not take it away. */
  lemma {:induction false} ChildrenReportTheLastLink(es: seq<Event>, parent: ContainerID, alias: Alias, child: ContainerID)
    ensures Bound(Run(es), parent, alias, child) <==> LastLinked(es, parent, alias, child)
    decreases |es|
  {
    if es != [] {
      var front, e := es[..|es| - 1], es[|es| - 1];
      assert es == front + [e];
      ChildrenReportTheLastLink(front, parent, alias, child);
      LastLinkedStep(front, e, parent, alias, child);
      hide LastLinked;
      match e {
        case Link(p, c, a) => LinkedLists(Run(front), p, c, a, parent, alias, child);
        case Unlink(a, c, p) => UnlinkedLists(Run(front), a, c, p, parent, alias, child);
        case Delete(c) => DeletedLists(Run(front), c, parent, alias, child);
      }
    }
  }

  // ---------------------------------------------------------------- renaming

  /** daemon/rename.go, one linked child: link under the new alias, then unlink the old one. The child
      no longer knows this parent under any alias, although the parent still reaches it by the new one. */
  lemma RenameForgetsTheParent(l: Links, parent: ContainerID, child: ContainerID, oldAlias: Alias, newAlias: Alias)
    requires oldAlias != newAlias
    ensures var l' := Unlinked(Linked(l, parent, child, newAlias), oldAlias, child, parent);
            && Bound(l', parent, newAlias, child)
            && forall a :: !Listed(l', parent, a, child)
  {
    var l1 := Linked(l, parent, child, newAlias);
    LinkedLists(l, parent, child, newAlias, parent, newAlias, child);
    forall a ensures !Listed(Unlinked(l1, oldAlias, child, parent), parent, a, child) {
      UnlinkedLists(l1, oldAlias, child, parent, parent, a, child);
    }
    UnlinkedLists(l1, oldAlias, child, parent, parent, newAlias, child);
  }
}

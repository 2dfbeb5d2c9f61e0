/** The container list of `docker ps` (daemon/list.go, reduceContainers and includeContainerInList). */
module ContainerList {
  import opened Wrappers
  import opened ImageModel

  datatype Container = Container(
    id: string,
    running: bool,
    managed: bool,
    started: bool,
    exitCode: int,
    image: Option<ImageID>)

  /** The filters whose matching is left to packages outside the list code. */
  datatype Filter = Name | ID | Label | Isolation | Status | Health | Volume | Network

  /** What the user asked for. `match_` decides the filters above. */
  datatype Options = Options(
    all: bool,
    limit: int,
    before: Option<string>,
    since: Option<string>,
    taskFilter: bool,
    isTask: bool,
    exitAllowed: seq<int>,
    ancestorFilter: bool,
    images: set<ImageID>,
    match_: (Filter, Container) -> bool)

  datatype Action = Include | Exclude | Stop

  // ---------------------------------------------------------------- what should be listed

  /** The checks before the limit is looked at. */
  predicate MatchesEarly(o: Options, c: Container) {
    && (c.running || o.all || o.limit > 0)
    && o.match_(Name, c) && o.match_(ID, c)
    && (o.taskFilter ==> o.isTask == c.managed)
    && o.match_(Label, c) && o.match_(Isolation, c)
  }

  predicate MatchesLate(o: Options, c: Container) {
    && (o.exitAllowed == [] || (c.exitCode in o.exitAllowed && !c.running && c.started))
    && o.match_(Status, c) && o.match_(Health, c) && o.match_(Volume, c)
    && (o.ancestorFilter ==> c.image.Some? && c.image.value in o.images)
    && o.match_(Network, c)
  }

  predicate Matches(o: Options, c: Container) {
    MatchesEarly(o, c) && MatchesLate(o, c)
  }

  /** The part of the list strictly after the container with this ID. */
  function After(cs: seq<Container>, id: string): seq<Container> {
    if cs == [] then [] else if cs[0].id == id then cs[1..] else After(cs[1..], id)
  }

  /** The part of the list before the first container with this ID. */
  function UpTo(cs: seq<Container>, id: string): seq<Container> {
    if cs == [] || cs[0].id == id then [] else [cs[0]] + UpTo(cs[1..], id)
  }

  function Window(o: Options, cs: seq<Container>): seq<Container> {
    var tail := if o.before.Some? then After(cs, o.before.value) else cs;
    if o.since.Some? then UpTo(tail, o.since.value) else tail
  }

  function Filtered(o: Options, cs: seq<Container>): seq<Container> {
    if cs == [] then [] else (if Matches(o, cs[0]) then [cs[0]] else []) + Filtered(o, cs[1..])
  }

  function FirstN(cs: seq<Container>, limit: int): seq<Container> {
    if limit > 0 && limit < |cs| then cs[..limit] else cs
  }

  /** The containers to list: the first `limit` matching ones of the window. */
  function Selected(o: Options, cs: seq<Container>): seq<Container> {
    FirstN(Filtered(o, Window(o, cs)), o.limit)
  }

  /** Who matches: a container that runs, unless stopped ones are asked for by `all` or a positive limit;
      that meets every filter; and of the special filters, whether it is a task, its exit code, which
      asks for a stopped container that has been started, and its image. */
  lemma MatchesIff(o: Options, c: Container)
    ensures Matches(o, c) <==>
            && (!c.running ==> o.all || o.limit > 0)
            && (forall f: Filter :: o.match_(f, c))
            && (o.taskFilter ==> (c.managed <==> o.isTask))
            && (o.exitAllowed != [] ==> !c.running && c.started && exists i :: 0 <= i < |o.exitAllowed| && o.exitAllowed[i] == c.exitCode)
            && (o.ancestorFilter ==> exists id :: id in o.images && c.image == Some(id))
  {
    forall f: Filter | Matches(o, c) ensures o.match_(f, c) {
      match f case Name => case ID => case Label => case Isolation => case Status => case Health => case Volume => case Network =>
    }
  }

  lemma {:induction false} FilteredHolds(o: Options, cs: seq<Container>, c: Container)
    ensures c in Filtered(o, cs) <==> c in cs && Matches(o, c)
    decreases |cs|
  {
    hide Matches;
    if cs != [] {
      FilteredHolds(o, cs[1..], c);
    }
  }

  /** Everything listed stands in the window and matches; at most `limit` rows are listed if it is
      positive; and if it is not, or is not reached, everything in the window that matches is listed. */
  lemma SelectedHolds(o: Options, cs: seq<Container>, c: Container)
    ensures c in Selected(o, cs) ==> c in Window(o, cs) && Matches(o, c)
    ensures o.limit > 0 ==> |Selected(o, cs)| <= o.limit
    ensures c in Window(o, cs) && Matches(o, c) && (o.limit <= 0 || |Selected(o, cs)| < o.limit) ==> c in Selected(o, cs)
  {
    hide Matches, Filtered, Window;
    FilteredHolds(o, Window(o, cs), c);
  }

  // ---------------------------------------------------------------- how the daemon decides

  class ListContext {
    const o: Options
    var idx: nat
    var beforeFilter: Option<string>

    constructor (o: Options)
      ensures this.o == o && idx == 0 && beforeFilter == o.before
    {
      this.o, idx, beforeFilter := o, 0, o.before;
    }

    /** The exit code loop. */
    method ExitAllowed(c: Container) returns (ok: bool)
      ensures ok <==> c.exitCode in o.exitAllowed && !c.running && c.started
    {
      for i := 0 to |o.exitAllowed|
        invariant forall j :: 0 <= j < i ==> !(o.exitAllowed[j] == c.exitCode && !c.running && c.started)
      {
        if o.exitAllowed[i] == c.exitCode && !c.running && c.started {
          return true;
        }
      }
      return false;
    }

    /** includeContainerInList: while the before container has not been met everything is skipped,
        the since container included. */
    method IncludeContainer(c: Container) returns (a: Action)
      modifies this`beforeFilter
      ensures beforeFilter == if old(beforeFilter) == Some(c.id) then None else old(beforeFilter)
      ensures old(beforeFilter).Some? ==> a == Exclude
      ensures old(beforeFilter).None? ==>
                a == if o.since == Some(c.id) then Stop
                     else if !MatchesEarly(o, c) then Exclude
                     else if o.limit > 0 && idx == o.limit then Stop
                     else if MatchesLate(o, c) then Include else Exclude
    {
      if beforeFilter.Some? {
        if c.id == beforeFilter.value {
          beforeFilter := None;
        }
        return Exclude;
      }
      if o.since.Some? {
        if c.id == o.since.value {
          return Stop;
        }
      }
      if !c.running && !o.all && o.limit <= 0 {
        return Exclude;
      }
      if !o.match_(Name, c) {
        return Exclude;
      }
      if !o.match_(ID, c) {
        return Exclude;
      }
      if o.taskFilter {
        if o.isTask != c.managed {
          return Exclude;
        }
      }
      if !o.match_(Label, c) || !o.match_(Isolation, c) {
        return Exclude;
      }
      if o.limit > 0 && idx == o.limit {
        return Stop;
      }
      if |o.exitAllowed| > 0 {
        var ok := ExitAllowed(c);
        if !ok {
          return Exclude;
        }
      }
      if !o.match_(Status, c) || !o.match_(Health, c) || !o.match_(Volume, c) {
        return Exclude;
      }
      if o.ancestorFilter {
        if |o.images| == 0 {
          return Exclude;
        }
        if c.image.None? || c.image.value !in o.images {
          return Exclude;
        }
      }
      if !o.match_(Network, c) {
        return Exclude;
      }
      return Include;
    }
  }

  /** What is still to be listed when `idx` rows are out and the loop stands at the head of `cs`. */
  function Remaining(o: Options, before: Option<string>, idx: nat, cs: seq<Container>): seq<Container> {
    var rest := Filtered(o, Window(o.(before := before), cs));
    if o.limit > 0 then (if idx >= o.limit then [] else if o.limit - idx < |rest| then rest[..o.limit - idx] else rest)
    else rest
  }

  lemma RemainingStep(o: Options, before: Option<string>, idx: nat, cs: seq<Container>)
    requires cs != [] && (o.limit > 0 ==> idx <= o.limit)
    ensures before.Some? ==>
              Remaining(o, before, idx, cs) == Remaining(o, if before == Some(cs[0].id) then None else before, idx, cs[1..])
    ensures before.None? && o.since == Some(cs[0].id) ==> Remaining(o, before, idx, cs) == []
    ensures before.None? && o.since != Some(cs[0].id) ==>
              && (o.limit > 0 && idx == o.limit ==> Remaining(o, before, idx, cs) == [])
              && (!Matches(o, cs[0]) ==> Remaining(o, before, idx, cs) == Remaining(o, None, idx, cs[1..]))
              && (Matches(o, cs[0]) && (o.limit > 0 ==> idx < o.limit) ==>
                    Remaining(o, before, idx, cs) == [cs[0]] + Remaining(o, None, idx + 1, cs[1..]))
  {
    hide Matches;
    FilteredIgnoresBefore(o, before, cs);
  }

  lemma FilteredIgnoresBefore(o: Options, before: Option<string>, cs: seq<Container>)
    ensures Window(o.(before := None), cs) == if o.since.Some? then UpTo(cs, o.since.value) else cs
  {
  }

  /** reduceContainers over the whole list: the rows are the selected containers in order, each turned
      into its row by `reduce`; the list fails exactly when some selected container's row does. */
  method ReduceContainers<Row>(o: Options, cs: seq<Container>, reduce: Container -> Option<Row>) returns (rows: Option<seq<Row>>)
    ensures rows.Some? <==> forall c :: c in Selected(o, cs) ==> reduce(c).Some?
    ensures rows.Some? ==>
              && |rows.value| == |Selected(o, cs)|
              && forall i :: 0 <= i < |rows.value| ==> reduce(Selected(o, cs)[i]) == Some(rows.value[i])
  {
    var ctx := new ListContext(o);
    var out: seq<Row> := [];
    ghost var taken: seq<Container> := [];
    var i := 0;
    hide Remaining, MatchesEarly, MatchesLate, Selected, Filtered, Window;
    assert Remaining(o, o.before, 0, cs[0..]) == Selected(o, cs) by { RemainingAll(o, cs); }
    while i < |cs|
      invariant 0 <= i <= |cs| && ctx.o == o && ctx.idx == |out| == |taken| && fresh(ctx)
      invariant o.limit > 0 ==> ctx.idx <= o.limit
      invariant taken + Remaining(o, ctx.beforeFilter, ctx.idx, cs[i..]) == Selected(o, cs)
      invariant forall j :: 0 <= j < |taken| ==> reduce(taken[j]) == Some(out[j])
    {
      var c := cs[i];
      RemainingStep(o, ctx.beforeFilter, ctx.idx, cs[i..]);
      assert cs[i..][0] == c && cs[i..][1..] == cs[i + 1..];
      var a := ctx.IncludeContainer(c);
      if a == Stop {
        assert taken == Selected(o, cs);
        return Some(out);
      }
      if a == Include {
        var t := reduce(c);
        if t.None? {
          assert c == Selected(o, cs)[|taken|];
          return None;
        }
        out, taken := out + [t.value], taken + [c];
        ctx.idx := ctx.idx + 1;
      }
      i := i + 1;
    }
    NothingRemains(o, ctx.beforeFilter, ctx.idx);
    assert cs[i..] == [];
    return Some(out);
  }

  lemma RemainingAll(o: Options, cs: seq<Container>)
    ensures Remaining(o, o.before, 0, cs[0..]) == Selected(o, cs)
  {
    assert cs[0..] == cs;
  }

  lemma NothingRemains(o: Options, before: Option<string>, idx: nat)
    ensures Remaining(o, before, idx, []) == []
  {
  }

  // ---------------------------------------------------------------- the window, by position

  /** The window is a stretch of the list: after the first occurrence of `before`, nothing if there is
      none, and up to the first occurrence of `since` after that. */
  lemma {:induction false} AfterIs(cs: seq<Container>, id: string, k: nat)
    requires k <= |cs| && (forall j :: 0 <= j < k ==> cs[j].id != id) && (k < |cs| ==> cs[k].id == id)
    ensures After(cs, id) == if k < |cs| then cs[k + 1..] else []
    decreases k
  {
    if k > 0 {
      AfterIs(cs[1..], id, k - 1);
    }
  }

  lemma {:induction false} UpToIs(cs: seq<Container>, id: string, k: nat)
    requires k <= |cs| && (forall j :: 0 <= j < k ==> cs[j].id != id) && (k < |cs| ==> cs[k].id == id)
    ensures UpTo(cs, id) == cs[..k]
    decreases k
  {
    if k > 0 {
      UpToIs(cs[1..], id, k - 1);
      assert cs[..k] == [cs[0]] + cs[1..][..k - 1];
    }
  }
}

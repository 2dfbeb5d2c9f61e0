/** Exec commands (daemon/exec.go, daemon/exec/exec.go, and their exit in daemon/monitor.go): two
    stores, the start guard, and the garbage collector, as a protocol over atomic steps. */
module ExecStore {
  import opened Wrappers

  type ExecID = nat
  type ContainerID = nat

  /** An exec record; it lives on after it has left the stores. */
  datatype Exec = Exec(running: bool, exitCode: Option<int>, canRemove: bool)

  /** `stores` are the containers' own exec stores; `pending` are the execs added to their container's
      store and not yet to the daemon's; `passes` counts how often an exec got through the
      start guard; `failing` are the execs whose failed start has cleared Running but not yet set the
      exit code; `snapshot` is the garbage collector's list of live execs between its two steps. */
  datatype State = State(
    execs: map<ExecID, Exec>,
    daemonStore: set<ExecID>,
    stores: map<ContainerID, set<ExecID>>,
    registered: set<ContainerID>,
    pending: set<ExecID>,
    passes: map<ExecID, nat>,
    failing: set<ExecID>,
    snapshot: Option<set<ExecID>>)

  const EMPTY := State(map[], {}, map[], {}, {}, map[], {}, None)

  datatype Event =
    | AddContainer(c: ContainerID)
    | RemoveContainer(c: ContainerID)
    /** registerExecCommand adds to the container's store first and to the daemon's store second. */
    | RegisterInContainer(c: ContainerID, id: ExecID)
    | RegisterInDaemon(id: ExecID)
    /** Also each step of Cleanup's loop over a container's execs. */
    | Unregister(c: ContainerID, id: ExecID)
    | Start(id: ExecID)
    /** The deferred error path of a start, two unlocked writes: Running first, the exit code second. */
    | FailRunning(id: ExecID)
    | FailExitCode(id: ExecID)
    | ExitProcess(c: ContainerID, id: ExecID, code: int)
    | Snapshot
    | Sweep

  /** containerExecIds: everything in the store of a registered container. */
  function Live(s: State): set<ExecID> {
    set c, id | c in s.registered && c in s.stores && id in s.stores[c] :: id
  }

  function Without(s: State, c: ContainerID, id: ExecID): map<ContainerID, set<ExecID>> {
    if c in s.stores then s.stores[c := s.stores[c] - {id}] else s.stores
  }

  /** The start guard: not running and no exit code. */
  predicate PassesGuard(s: State, id: ExecID) {
    id in s.daemonStore && id in s.execs && !s.execs[id].running && s.execs[id].exitCode.None?
  }

  /** One garbage collection scan against the list of live execs: execs marked before go, execs that
      are not live are marked. */
  function Swept(s: State, live: set<ExecID>): State {
    s.(daemonStore := (set id | id in s.daemonStore && !(id in s.execs && s.execs[id].canRemove)),
       execs := (map id | id in s.execs ::
                   if id in s.daemonStore && id !in live then s.execs[id].(canRemove := true) else s.execs[id]),
       snapshot := None)
  }

  function Step(s: State, e: Event): State {
    match e
    case AddContainer(c) =>
      if c in s.stores then s else s.(stores := s.stores[c := {}], registered := s.registered + {c})
    case RemoveContainer(c) => s.(registered := s.registered - {c})
    case RegisterInContainer(c, id) =>
      if id in s.execs || c !in s.stores then s
      else s.(execs := s.execs[id := Exec(false, None, false)],
              passes := s.passes[id := 0],
              stores := s.stores[c := s.stores[c] + {id}],
              pending := s.pending + {id})
    case RegisterInDaemon(id) =>
      if id in s.pending then s.(daemonStore := s.daemonStore + {id}, pending := s.pending - {id}) else s
    case Unregister(c, id) => s.(stores := Without(s, c, id), daemonStore := s.daemonStore - {id})
    case Start(id) =>
      if PassesGuard(s, id) && id in s.passes
      then s.(execs := s.execs[id := s.execs[id].(running := true)], passes := s.passes[id := s.passes[id] + 1])
      else s
    case FailRunning(id) =>
      if id in s.execs && id in s.passes && s.passes[id] > 0
      then s.(execs := s.execs[id := s.execs[id].(running := false)], failing := s.failing + {id}) else s
    case FailExitCode(id) =>
      if id in s.failing && id in s.execs
      then s.(execs := s.execs[id := s.execs[id].(exitCode := Some(126))], failing := s.failing - {id}) else s
    case ExitProcess(c, id, code) =>
      if c in s.stores && id in s.stores[c] && id in s.execs
      then s.(execs := s.execs[id := s.execs[id].(running := false, exitCode := Some(code))], stores := Without(s, c, id))
      else s
    case Snapshot => s.(snapshot := Some(Live(s)))
    case Sweep => if s.snapshot.Some? then Swept(s, s.snapshot.value) else s
  }

  function Run(es: seq<Event>): State {
    if es == [] then EMPTY else Step(Run(es[..|es| - 1]), es[|es| - 1])
  }

  // ---------------------------------------------------------------- the collector's loop

  /** execCommandGC's scan over a copy of the daemon's store, deleting and marking as it goes. */
  class Collector {
    var execs: map<ExecID, Exec>
    var daemonStore: set<ExecID>

    method Scan(live: set<ExecID>) returns (cleaned: nat)
      modifies this
      ensures forall s: State :: s.execs == old(execs) && s.daemonStore == old(daemonStore) ==>
                execs == Swept(s, live).execs && daemonStore == Swept(s, live).daemonStore
    {
      cleaned := 0;
      var commands := daemonStore;
      while commands != {}
        invariant commands <= old(daemonStore)
        invariant execs.Keys == old(execs).Keys
        invariant daemonStore == set id | id in old(daemonStore) && (id in commands || !(id in old(execs) && old(execs)[id].canRemove))
        invariant forall id :: id in execs ==>
                    execs[id] == if id in old(daemonStore) && id !in commands && id !in live then old(execs)[id].(canRemove := true)
                                 else old(execs)[id]
        decreases commands
      {
        var id :| id in commands;
        commands := commands - {id};
        if id in execs {
          if execs[id].canRemove {
            cleaned := cleaned + 1;
            daemonStore := daemonStore - {id};
          } else if id !in live {
            execs := execs[id := execs[id].(canRemove := true)];
          }
        }
      }
    }
  }

  // ---------------------------------------------------------------- containment and collection

  /** Every registered container's execs are in the daemon's store or about to be, none of them is
      marked for removal, and an open snapshot covers those in the daemon's store. */
  ghost predicate Contained(s: State) {
    && Live(s) <= s.daemonStore + s.pending
    && (forall id :: id in Live(s) && id in s.execs ==> !s.execs[id].canRemove)
    && (s.snapshot.Some? ==> Live(s) * s.daemonStore <= s.snapshot.value)
  }

  /** The bookkeeping of the stores. */
  ghost predicate ValidStores(s: State) {
    && s.registered <= s.stores.Keys
    && (forall c, id :: c in s.stores && id in s.stores[c] ==> id in s.execs)
    && (forall c, d, id :: c in s.stores && d in s.stores && id in s.stores[c] && id in s.stores[d] ==> c == d)
    && s.daemonStore + s.pending <= s.execs.Keys && s.daemonStore !! s.pending
  }

  /** A live exec is unregistered only from the container it belongs to. */
  predicate OwnContainer(s: State, e: Event) {
    e.Unregister? && e.id in Live(s) && e.id in s.daemonStore ==> e.c in s.stores && e.id in s.stores[e.c]
  }

  /** No live exec enters the daemon's store between a snapshot that missed it and the scan. */
  predicate Timely(s: State, e: Event) {
    e.RegisterInDaemon? && e.id in s.pending && e.id in Live(s) && s.snapshot.Some? ==> e.id in s.snapshot.value
  }

  lemma StepKeepsStores(s: State, e: Event)
    requires ValidStores(s)
    ensures ValidStores(Step(s, e))
  {
  }

  /** How a step changes the live execs. */
  lemma LiveStep(s: State, e: Event)
    requires ValidStores(s)
    ensures forall id :: id in Live(Step(s, e)) <==> LiveAfter(s, e, id)
  {
    hide Step, Live, ValidStores, LiveAfter;
    forall id ensures id in Live(Step(s, e)) <==> LiveAfter(s, e, id) {
      if id in Live(Step(s, e)) { LiveBecause(s, e, id); }
      if LiveAfter(s, e, id) { LiveThen(s, e, id); }
    }
  }

  lemma LiveBecause(s: State, e: Event, id: ExecID)
    requires ValidStores(s) && id in Live(Step(s, e))
    ensures LiveAfter(s, e, id)
  {
    var s' := Step(s, e);
    var c :| c in s'.registered && c in s'.stores && id in s'.stores[c];
    assert (c in s.stores && id in s.stores[c]) || e == RegisterInContainer(c, id);
  }

  lemma LiveThen(s: State, e: Event, id: ExecID)
    requires ValidStores(s) && LiveAfter(s, e, id)
    ensures id in Live(Step(s, e))
  {
    var s' := Step(s, e);
    if id in Live(s) {
      var c :| c in s.registered && c in s.stores && id in s.stores[c];
      assert c in s'.registered && c in s'.stores && id in s'.stores[c];
    } else {
      assert e.c in s'.registered && e.c in s'.stores && id in s'.stores[e.c];
    }
  }

  predicate LiveAfter(s: State, e: Event, id: ExecID) {
    match e
    case RegisterInContainer(c, x) => id in Live(s) || (x == id && id !in s.execs && c in s.registered)
    case RemoveContainer(c) => id in Live(s) && !(c in s.stores && id in s.stores[c])
    case Unregister(c, x) => id in Live(s) && !(x == id && c in s.stores && id in s.stores[c])
    case ExitProcess(c, x, _) => id in Live(s) && !(x == id && c in s.stores && id in s.stores[c])
    case _ => id in Live(s)
  }

  /** An event keeps the containment exactly when it is such a one. */
  lemma StepKeepsContainedIff(s: State, e: Event)
    requires ValidStores(s) && Contained(s)
    ensures Contained(Step(s, e)) <==> OwnContainer(s, e) && Timely(s, e)
  {
    LiveStep(s, e);
    LiveHasRecord(s);
    hide Live, ValidStores;
  }

  lemma LiveHasRecord(s: State)
    requires ValidStores(s)
    ensures Live(s) <= s.execs.Keys && s.daemonStore !! s.pending
  {
  }

  /** In every run in which no live exec enters the daemon's store between a snapshot that missed it and
      the scan, each registered container's execs stay in the daemon's store, and the collector never
      deletes one of them. */
  lemma {:induction false} TimelyRunsStayContained(es: seq<Event>)
    requires forall i :: 0 <= i < |es| ==> OwnContainer(Run(es[..i]), es[i]) && Timely(Run(es[..i]), es[i])
    ensures ValidStores(Run(es)) && Contained(Run(es))
    decreases |es|
  {
    hide Step, Contained, ValidStores, OwnContainer, Timely;
    if es == [] {
      EmptyContained();
    } else {
      var front := es[..|es| - 1];
      assert forall i :: 0 <= i < |front| ==> front[..i] == es[..i];
      TimelyRunsStayContained(front);
      StepKeepsStores(Run(front), es[|es| - 1]);
      StepKeepsContainedIff(Run(front), es[|es| - 1]);
    }
  }

  lemma EmptyContained()
    ensures ValidStores(EMPTY) && Contained(EMPTY)
  {
  }

  /** A scan marks a live exec exactly when the exec was not in the snapshot. */
  lemma SweepMarksLiveIff(s: State, id: ExecID)
    requires s.snapshot.Some? && id in Live(s) && id in s.daemonStore && id in s.execs && !s.execs[id].canRemove
    ensures Step(s, Sweep).execs[id].canRemove <==> id !in s.snapshot.value
  {
  }

  lemma {:induction false} RunJoin(es: seq<Event>, e: Event)
    ensures Run(es + [e]) == Step(Run(es), e)
  {
    assert (es + [e])[..|es|] == es;
  }

  lemma RunFive(a: Event, b: Event, c: Event, d: Event, e: Event)
    ensures Run([a, b, c, d, e]) == Step(Step(Step(Step(Step(EMPTY, a), b), c), d), e)
  {
    hide Step;
    RunJoin([], a);
    RunJoin([a], b);
    RunJoin([a, b], c);
    RunJoin([a, b, c], d);
    RunJoin([a, b, c, d], e);
    assert [] + [a] == [a] && [a] + [b] == [a, b] && [a, b] + [c] == [a, b, c];
    assert [a, b, c] + [d] == [a, b, c, d] && [a, b, c, d] + [e] == [a, b, c, d, e];
  }

  /** And that loses it: an exec registered between snapshot and scan is deleted by the next collection
      while its container still runs it. */
  lemma LateRegistrationIsCollected(c: ContainerID, id: ExecID)
    ensures var es := [AddContainer(c), Snapshot, RegisterInContainer(c, id), RegisterInDaemon(id), Sweep] + [Snapshot] + [Sweep];
            id in Live(Run(es)) && id !in Run(es).daemonStore
  {
    var es := [AddContainer(c), Snapshot, RegisterInContainer(c, id), RegisterInDaemon(id), Sweep];
    var s2 := Step(Step(EMPTY, AddContainer(c)), Snapshot);
    var s4 := Step(Step(s2, RegisterInContainer(c, id)), RegisterInDaemon(id));
    var s5 := Step(s4, Sweep);
    RunFive(AddContainer(c), Snapshot, RegisterInContainer(c, id), RegisterInDaemon(id), Sweep);
    RunJoin(es, Snapshot);
    RunJoin(es + [Snapshot], Sweep);
    assert s4.stores[c] == {id} && c in s4.registered && id in s4.daemonStore;
    assert id !in s4.snapshot.value;
    assert s5.execs[id].canRemove;
  }

  // ---------------------------------------------------------------- the start guard

  /** Once an exec has passed the guard it is running, has an exit code, or is in the gap of a failed
      start. */
  ghost predicate GuardHolds(s: State) {
    && s.passes.Keys == s.execs.Keys && s.daemonStore + s.pending <= s.execs.Keys
    && forall id :: id in s.execs && s.passes[id] > 0 ==>
         s.execs[id].running || s.execs[id].exitCode.Some? || id in s.failing
  }

  lemma StepKeepsGuard(s: State, e: Event)
    requires GuardHolds(s)
    ensures GuardHolds(Step(s, e))
    ensures forall id :: id in s.execs ==> id in Step(s, e).execs
  {
  }

  /** An exec gets through the guard in step i although its failed start is still under way: Running is
      cleared, and the exit code is still to come. */
  predicate PassesInGap(es: seq<Event>, i: nat, id: ExecID)
    requires i < |es|
  {
    es[i] == Start(id) && id in Run(es[..i]).failing && PassesGuard(Run(es[..i]), id)
  }

  ghost predicate GapIsEntered(s: State) {
    forall id :: id in s.failing ==> id in s.passes && s.passes[id] > 0
  }

  lemma GapStep(s: State, e: Event, id: ExecID)
    requires GuardHolds(s) && GapIsEntered(s)
    ensures GapIsEntered(Step(s, e))
    ensures var before, after := if id in s.passes then s.passes[id] else 0,
                                 if id in Step(s, e).passes then Step(s, e).passes[id] else 0;
            && before <= after
            && (after >= 2 <==> before >= 2 || (e == Start(id) && id in s.failing && PassesGuard(s, id)))
  {
  }

  /** In every run, an exec passes the guard twice exactly if some start of it falls into the gap of an
      earlier, failed one. */
  lemma {:induction false} TwoPassesIff(es: seq<Event>, id: ExecID)
    ensures GuardHolds(Run(es)) && GapIsEntered(Run(es))
    ensures id in Run(es).passes && Run(es).passes[id] >= 2 <==> exists i :: 0 <= i < |es| && PassesInGap(es, i, id)
    decreases |es|
  {
    hide Step, GuardHolds, GapIsEntered, PassesGuard;
    if es == [] {
      NoPasses();
    } else {
      var front, e := es[..|es| - 1], es[|es| - 1];
      TwoPassesIff(front, id);
      StepKeepsGuard(Run(front), e);
      GapStep(Run(front), e, id);
      forall i | 0 <= i < |front| ensures PassesInGap(es, i, id) <==> PassesInGap(front, i, id) {
        assert front[..i] == es[..i];
      }
      assert PassesInGap(es, |front|, id) <==> e == Start(id) && id in Run(front).failing && PassesGuard(Run(front), id);
    }
  }

  lemma NoPasses()
    ensures GuardHolds(EMPTY) && GapIsEntered(EMPTY)
  {
  }

  /** A failed start leaves the exec not running, with exit code 126. */
  lemma FailedStartEnds(s: State, id: ExecID)
    requires GuardHolds(s) && id in s.execs && s.passes[id] > 0
    ensures var s' := Step(Step(s, FailRunning(id)), FailExitCode(id));
            !s'.execs[id].running && s'.execs[id].exitCode == Some(126) && !PassesGuard(s', id) && id !in s'.failing
  {
  }

  /** Starts that do not fall into the gap. */
  predicate OutsideGap(s: State, e: Event) {
    e.Start? ==> e.id !in s.failing
  }

  /** In every run whose starts all avoid the gap, each exec passes the guard at most once. */
  lemma {:induction false} GuardPassesOnce(es: seq<Event>, id: ExecID)
    requires forall i :: 0 <= i < |es| ==> OutsideGap(Run(es[..i]), es[i])
    ensures GuardHolds(Run(es))
    ensures id in Run(es).passes ==> Run(es).passes[id] <= 1
    decreases |es|
  {
    if es != [] {
      var front := es[..|es| - 1];
      assert forall i :: 0 <= i < |front| ==> front[..i] == es[..i];
      GuardPassesOnce(front, id);
      assert OutsideGap(Run(es[..|front|]), es[|front|]);
      hide GuardHolds;
      StepKeepsGuard(Run(front), es[|es| - 1]);
      PassStep(Run(front), es[|es| - 1], id);
    }
  }

  lemma PassStep(s: State, e: Event, id: ExecID)
    requires GuardHolds(s) && OutsideGap(s, e) && (id in s.passes ==> s.passes[id] <= 1)
    ensures id in Step(s, e).passes ==> Step(s, e).passes[id] <= 1
  {
  }

  /** In the gap the guard does let an exec through twice. */
  lemma GapLetsASecondStartIn(c: ContainerID, id: ExecID)
    ensures var es := [AddContainer(c), RegisterInContainer(c, id), RegisterInDaemon(id), Start(id), FailRunning(id)] + [Start(id)];
            id in Run(es).passes && Run(es).passes[id] == 2
  {
    RunFive(AddContainer(c), RegisterInContainer(c, id), RegisterInDaemon(id), Start(id), FailRunning(id));
    RunJoin([AddContainer(c), RegisterInContainer(c, id), RegisterInDaemon(id), Start(id), FailRunning(id)], Start(id));
  }
}

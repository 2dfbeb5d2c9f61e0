/** Concurrent removal of one container (daemon/delete.go, ContainerRm and cleanupContainer;
    container/state.go, SetRemovalInProgress), as a protocol over its atomic steps. */
module ContainerRemoval {
  /** Where a ContainerRm call stands. `Unindexing(k)` has done the first k of: name index, link index,
      ID index, container store; its next step after the fourth is the destroy event. */
  datatype PC = Looking | Got | Flagged | Cleaning | Stopping | Removing | Unindexing(k: nat) | Resetting | Done

  datatype Call = Call(pc: PC, force: bool, removeLink: bool)

  /** Where the daemon knows the container from; a lookup needs the container store. */
  datatype Index = Names | Links | IDs | Store

  /** The k-th index to let go. */
  function IndexAt(k: nat): Index {
    if k == 0 then Names else if k == 1 then Links else if k == 2 then IDs else Store
  }

  datatype State = State(
    inProgress: bool,
    dead: bool,
    running: bool,
    indexes: set<Index>,
    destroyed: nat,
    calls: map<nat, Call>)

  const REGISTERED := State(false, false, false, {Names, Links, IDs, Store}, 0, map[])

  predicate Registered(s: State) {
    Store in s.indexes
  }

  datatype Event =
    | Begin(t: nat, force: bool, removeLink: bool)
    /** The next step of call t; `ok` is whether the operation it attempts succeeds. */
    | Advance(t: nat, ok: bool)
    /** The container is started, or its process ends. */
    | SetRunning(running: bool)

  /** Where a call goes next. */
  function NextPC(s: State, c: Call, ok: bool): PC {
    match c.pc
    case Looking => if Registered(s) then Got else Done
    case Got => if s.inProgress then Done else Flagged
    case Flagged => if !Registered(s) || c.removeLink then Resetting else Cleaning
    case Cleaning => if s.running && !(c.force && ok) then Resetting else Stopping
    case Stopping => if ok then Removing else Resetting
    case Removing => if ok || c.force then Unindexing(0) else Resetting
    case Unindexing(k) => if k < 4 then Unindexing(k + 1) else Resetting
    case Resetting => Done
    case Done => Done
  }

  /** What a call's next step does to the container. */
  function Effect(s: State, c: Call, ok: bool): State {
    match c.pc
    case Got => s.(inProgress := true)
    case Cleaning => if s.running && !(c.force && ok) then s else s.(running := false)
    case Stopping => if ok then s.(running := false, dead := true) else s
    case Unindexing(k) =>
      if k < 4 then s.(indexes := s.indexes - {IndexAt(k)}) else s.(destroyed := s.destroyed + 1)
    case Resetting => s.(inProgress := false)
    case _ => s
  }

  /** One atomic step of one call. */
  function CallStep(s: State, t: nat, ok: bool): State
    requires t in s.calls
  {
    var c := s.calls[t];
    Effect(s, c, ok).(calls := s.calls[t := c.(pc := NextPC(s, c, ok))])
  }

  function Step(s: State, e: Event): State {
    match e
    case Begin(t, force, removeLink) =>
      if t in s.calls then s else s.(calls := s.calls[t := Call(Looking, force, removeLink)])
    case Advance(t, ok) => if t in s.calls then CallStep(s, t, ok) else s
    // containerStart refuses a container that is being removed or is dead
    case SetRunning(running) => if running && (s.inProgress || s.dead) then s else s.(running := running)
  }

  function ExecFrom(s: State, es: seq<Event>): State {
    if es == [] then s else Step(ExecFrom(s, es[..|es| - 1]), es[|es| - 1])
  }

  function Exec(es: seq<Event>): State {
    ExecFrom(REGISTERED, es)
  }

  /** Between setting the flag and resetting it. */
  predicate Guarded(pc: PC) {
    !pc.Looking? && !pc.Got? && !pc.Done?
  }

  /** Inside cleanupContainer. */
  predicate InCleanup(pc: PC) {
    pc.Cleaning? || pc.Stopping? || pc.Removing? || pc.Unindexing?
  }

  /** What a guarded call has seen or done holds. */
  predicate Fits(s: State, pc: PC) {
    match pc
    case Cleaning => Registered(s) && s.destroyed == 0
    case Stopping => Registered(s) && s.destroyed == 0
    case Removing => Registered(s) && s.destroyed == 0 && s.dead
    case Unindexing(k) =>
      && k <= 4 && s.destroyed == 0 && s.dead
      && (forall j :: 0 <= j < k ==> IndexAt(j) !in s.indexes) && (Registered(s) <==> k <= 3)
    case _ => true
  }

  /** `owner` is the call between setting and resetting the flag, -1 when there is none. */
  ghost predicate OwnedBy(s: State, owner: int) {
    && (s.inProgress <==> owner >= 0)
    && (owner >= 0 ==> owner in s.calls && Guarded(s.calls[owner].pc) && Fits(s, s.calls[owner].pc))
    && (forall t :: t in s.calls && Guarded(s.calls[t].pc) ==> t == owner)
    && s.destroyed <= 1
    && (s.destroyed == 1 ==> s.indexes == {})
    && (!Registered(s) ==> s.destroyed == 1 || (owner >= 0 && s.calls[owner].pc == Unindexing(4)))
    && (s.dead ==> !s.running)
  }

  ghost predicate Inv(s: State) {
    exists owner :: OwnedBy(s, owner)
  }

  /** A call that is not the owner. */
  lemma BystanderStep(s: State, t: nat, ok: bool, owner: int)
    requires OwnedBy(s, owner) && t in s.calls && t != owner
    ensures OwnedBy(CallStep(s, t, ok), if s.calls[t].pc.Got? && !s.inProgress then t else owner)
  {
    assert !Guarded(s.calls[t].pc);
    match s.calls[t].pc
    case Looking =>
    case Got =>
    case Done =>
  }

  /** The owner's own step. */
  lemma OwnerStep(s: State, t: nat, ok: bool)
    requires OwnedBy(s, t) && t in s.calls
    ensures OwnedBy(CallStep(s, t, ok), if s.calls[t].pc.Resetting? then -1 else t)
  {
    match s.calls[t].pc
    case Flagged =>
    case Cleaning =>
    case Stopping =>
    case Removing =>
    case Unindexing(k) =>
      if k == 4 { AllGone(s.indexes); }
    case Resetting =>
  }

  lemma AllGone(indexes: set<Index>)
    requires forall j :: 0 <= j < 4 ==> IndexAt(j) !in indexes
    ensures indexes == {}
  {
    assert IndexAt(0) !in indexes && IndexAt(1) !in indexes && IndexAt(2) !in indexes && IndexAt(3) !in indexes;
    forall i | i in indexes ensures false {
      match i case Names => case Links => case IDs => case Store =>
    }
  }

  lemma StepKeepsInv(s: State, e: Event)
    requires Inv(s)
    ensures Inv(Step(s, e))
  {
    hide CallStep;
    var owner :| OwnedBy(s, owner);
    if e.Advance? && e.t in s.calls {
      hide OwnedBy;
      if e.t == owner {
        OwnerStep(s, e.t, e.ok);
      } else {
        BystanderStep(s, e.t, e.ok, owner);
      }
    } else {
      assert OwnedBy(Step(s, e), owner);
    }
  }

  /** However any number of removals interleave: at most one is in cleanup at a time, the container
      leaves the indexes and its destroy event is sent at most once, the event is sent only after all
      four indexes have let go, and a container marked dead never runs again. */
  lemma {:induction false} RemovalIsExclusive(es: seq<Event>)
    ensures Inv(Exec(es))
    ensures var s := Exec(es);
            && (forall t, u :: t in s.calls && u in s.calls && InCleanup(s.calls[t].pc) && InCleanup(s.calls[u].pc) ==> t == u)
            && s.destroyed <= 1
            && (s.destroyed == 1 ==> s.indexes == {})
            && (s.dead ==> !s.running)
    decreases |es|
  {
    hide Step;
    if es == [] {
      assert OwnedBy(Exec(es), -1);
    } else {
      RemovalIsExclusive(es[..|es| - 1]);
      StepKeepsInv(Exec(es[..|es| - 1]), es[|es| - 1]);
    }
  }

  lemma EffectIsFinal(s: State, c: Call, ok: bool)
    ensures !Registered(s) ==> !Registered(Effect(s, c, ok))
    ensures s.destroyed <= Effect(s, c, ok).destroyed
  {
  }

  lemma StepIsFinal(s: State, e: Event)
    ensures !Registered(s) ==> !Registered(Step(s, e))
    ensures s.destroyed <= Step(s, e).destroyed
  {
    hide NextPC, Effect;
    if e.Advance? && e.t in s.calls { EffectIsFinal(s, s.calls[e.t], e.ok); }
  }

  /** Once the store has lost the container it never comes back, and a sent event is never unsent. */
  lemma {:induction false} RemovalIsFinal(es: seq<Event>, more: seq<Event>)
    ensures !Registered(Exec(es)) ==> !Registered(Exec(es + more))
    ensures Exec(es).destroyed <= Exec(es + more).destroyed <= 1
    decreases |more|
  {
    hide Step, Inv;
    RemovalIsExclusive(es + more);
    if more == [] {
      assert es + more == es;
    } else {
      var front := more[..|more| - 1];
      RemovalIsFinal(es, front);
      assert (es + more)[..|es + more| - 1] == es + front;
      StepIsFinal(Exec(es + front), more[|more| - 1]);
    }
  }

  // ---------------------------------------------------------------- a removal does remove

  /** How many steps of its own a call still has at most. */
  function StepsLeft(pc: PC): nat {
    match pc
    case Looking => 12
    case Got => 11
    case Flagged => 10
    case Cleaning => 9
    case Stopping => 8
    case Removing => 7
    case Unindexing(k) => if k < 5 then 6 - k else 2
    case Resetting => 1
    case Done => 0
  }

  /** The steps of one call in a run. */
  function OwnSteps(es: seq<Event>, t: nat): nat {
    if es == [] then 0
    else OwnSteps(es[..|es| - 1], t) + if es[|es| - 1].Advance? && es[|es| - 1].t == t then 1 else 0
  }

  lemma StepsRunDown(s: State, e: Event, t: nat)
    requires t in s.calls
    ensures t in Step(s, e).calls
    ensures StepsLeft(Step(s, e).calls[t].pc) <=
            if e.Advance? && e.t == t && !s.calls[t].pc.Done? then StepsLeft(s.calls[t].pc) - 1 else StepsLeft(s.calls[t].pc)
  {
  }

  /** However removals interleave and whatever fails, a call is done after at most twelve steps of its own. */
  lemma {:induction false} CallIsDoneInTwelveSteps(s: State, es: seq<Event>, t: nat)
    requires t in s.calls
    ensures t in ExecFrom(s, es).calls
    ensures var pc := ExecFrom(s, es).calls[t].pc;
            && (pc.Done? || StepsLeft(pc) + OwnSteps(es, t) <= 12)
            && (OwnSteps(es, t) >= 12 ==> pc.Done?)
    decreases |es|
  {
    hide Step;
    if es != [] {
      CallIsDoneInTwelveSteps(s, es[..|es| - 1], t);
      StepsRunDown(ExecFrom(s, es[..|es| - 1]), es[|es| - 1], t);
    } else {
      AtMostTwelve(s.calls[t].pc);
    }
  }

  lemma AtMostTwelve(pc: PC)
    ensures StepsLeft(pc) <= 12 && (StepsLeft(pc) == 0 <==> pc.Done?)
  {
  }

  /** A call that runs alone: the steps of t, with the outcomes of what they attempt. */
  function Alone(s: State, t: nat, oks: seq<bool>): State
    requires t in s.calls
    decreases |oks|
  {
    if oks == [] then s else Alone(CallStep(s, t, oks[0]), t, oks[1..])
  }

  function Advances(t: nat, oks: seq<bool>): seq<Event> {
    seq(|oks|, i requires 0 <= i < |oks| => Advance(t, oks[i]))
  }

  lemma {:induction false} AloneIsARun(s: State, t: nat, oks: seq<bool>)
    requires t in s.calls
    ensures ExecFrom(s, Advances(t, oks)) == Alone(s, t, oks)
    decreases |oks|
  {
    if oks != [] {
      hide CallStep;
      var e := Advance(t, oks[0]);
      AloneIsARun(CallStep(s, t, oks[0]), t, oks[1..]);
      assert Advances(t, oks) == [e] + Advances(t, oks[1..]);
      StepFirst(s, e, Advances(t, oks[1..]));
    }
  }

  lemma {:induction false} StepFirst(s: State, e: Event, es: seq<Event>)
    ensures ExecFrom(s, [e] + es) == ExecFrom(Step(s, e), es)
    decreases |es|
  {
    hide Step;
    var all := [e] + es;
    if es == [] {
      assert all == [e] && [e][..0] == [];
      assert ExecFrom(s, [e]) == Step(ExecFrom(s, []), e);
    } else {
      assert all[..|all| - 1] == [e] + es[..|es| - 1] && all[|all| - 1] == es[|es| - 1];
      StepFirst(s, e, es[..|es| - 1]);
    }
  }

  lemma {:induction false} AloneLeavesOthers(s: State, t: nat, oks: seq<bool>)
    requires t in s.calls
    ensures t in Alone(s, t, oks).calls
    ensures forall u :: u in s.calls && u != t ==> u in Alone(s, t, oks).calls && Alone(s, t, oks).calls[u] == s.calls[u]
    decreases |oks|
  {
    if oks != [] {
      AloneLeavesOthers(CallStep(s, t, oks[0]), t, oks[1..]);
    }
  }

  lemma {:induction false} AloneDone(s: State, t: nat, oks: seq<bool>)
    requires t in s.calls && s.calls[t].pc.Done?
    ensures Alone(s, t, oks) == s
    decreases |oks|
  {
    if oks != [] {
      assert s.calls[t := s.calls[t]] == s.calls;
      AloneDone(s, t, oks[1..]);
    }
  }

  /** How a guarded call ends. */
  ghost predicate Ends(s: State, s': State, t: nat, removed: bool) {
    && t in s'.calls && s'.calls[t].pc == Done && !s'.inProgress
    && if removed then s'.indexes == {} && s'.destroyed == s.destroyed + 1 && s'.dead && !s'.running
       else s'.indexes == s.indexes && s'.destroyed == s.destroyed
  }

  lemma AloneResets(s: State, t: nat, oks: seq<bool>)
    requires t in s.calls && s.calls[t].pc.Resetting? && |oks| >= 1
    ensures Ends(s, Alone(s, t, oks), t, false)
  {
    AloneDone(CallStep(s, t, oks[0]), t, oks[1..]);
  }

  lemma {:induction false} AloneUnindexes(s: State, t: nat, k: nat, oks: seq<bool>)
    requires t in s.calls && s.calls[t].pc == Unindexing(k) && k <= 4 && |oks| >= 6 - k && s.dead && !s.running
    requires forall j :: 0 <= j < k ==> IndexAt(j) !in s.indexes
    ensures Ends(s, Alone(s, t, oks), t, true)
    decreases |oks|
  {
    var s1 := CallStep(s, t, oks[0]);
    if k < 4 {
      AloneUnindexes(s1, t, k + 1, oks[1..]);
    } else {
      AllGone(s.indexes);
      AloneDone(CallStep(s1, t, oks[1..][0]), t, oks[1..][1..]);
    }
  }

  lemma AloneRemoves(s: State, t: nat, oks: seq<bool>)
    requires t in s.calls && s.calls[t].pc.Removing? && |oks| >= 7 && s.dead && !s.running
    ensures Ends(s, Alone(s, t, oks), t, oks[0] || s.calls[t].force)
  {
    var s1 := CallStep(s, t, oks[0]);
    if oks[0] || s.calls[t].force {
      AloneUnindexes(s1, t, 0, oks[1..]);
    } else {
      AloneResets(s1, t, oks[1..]);
    }
  }

  lemma AloneStops(s: State, t: nat, oks: seq<bool>)
    requires t in s.calls && s.calls[t].pc.Stopping? && |oks| >= 8
    ensures Ends(s, Alone(s, t, oks), t, oks[0] && (oks[1] || s.calls[t].force))
  {
    var s1 := CallStep(s, t, oks[0]);
    if oks[0] {
      AloneRemoves(s1, t, oks[1..]);
    } else {
      AloneResets(s1, t, oks[1..]);
    }
  }

  lemma AloneCleans(s: State, t: nat, oks: seq<bool>)
    requires t in s.calls && s.calls[t].pc.Cleaning? && |oks| >= 9
    ensures Ends(s, Alone(s, t, oks), t,
                 (!s.running || (s.calls[t].force && oks[0])) && oks[1] && (oks[2] || s.calls[t].force))
  {
    var s1 := CallStep(s, t, oks[0]);
    if s.running && !(s.calls[t].force && oks[0]) {
      AloneResets(s1, t, oks[1..]);
    } else {
      AloneStops(s1, t, oks[1..]);
    }
  }

  /** When a call that runs alone removes the container: it is known and nobody else is removing it; it
      does not run, or force is given and the kill succeeds; the stop succeeds; and so does removing the
      files, or force is given. The fourth, fifth and sixth steps attempt these. */
  predicate Removes(s: State, force: bool, removeLink: bool, oks: seq<bool>)
    requires |oks| == 12
  {
    && Store in s.indexes && !s.inProgress && !removeLink
    && (!s.running || (force && oks[3])) && oks[4] && (oks[5] || force)
  }

  /** A removal that nothing interleaves takes the container out of all four indexes and sends one destroy
      event exactly then; otherwise indexes and events stay as they were. Either way the call is done and
      the flag is as before. */
  lemma LoneRemoval(s: State, t: nat, force: bool, removeLink: bool, oks: seq<bool>)
    requires t !in s.calls && |oks| == 12
    ensures var s' := ExecFrom(Step(s, Begin(t, force, removeLink)), Advances(t, oks));
            && t in s'.calls && s'.calls[t].pc == Done && s'.inProgress == s.inProgress
            && (Removes(s, force, removeLink, oks) ==>
                  s'.indexes == {} && s'.destroyed == s.destroyed + 1 && s'.dead && !s'.running)
            && (!Removes(s, force, removeLink, oks) ==> s'.indexes == s.indexes && s'.destroyed == s.destroyed)
            && forall u :: u in s.calls ==> u in s'.calls && s'.calls[u] == s.calls[u]
  {
    var s0 := Step(s, Begin(t, force, removeLink));
    AloneIsARun(s0, t, oks);
    AloneLeavesOthers(s0, t, oks);
    var s1 := CallStep(s0, t, oks[0]);
    if Store !in s.indexes {
      AloneDone(s1, t, oks[1..]);
    } else {
      var s2 := CallStep(s1, t, oks[1..][0]);
      assert Alone(s0, t, oks) == Alone(s2, t, oks[1..][1..]);
      if s.inProgress {
        AloneDone(s2, t, oks[1..][1..]);
      } else {
        FlaggedEnds(s2, t, oks[1..][1..]);
      }
    }
  }

  lemma FlaggedEnds(s: State, t: nat, oks: seq<bool>)
    requires t in s.calls && s.calls[t].pc.Flagged? && |oks| == 10 && Store in s.indexes
    ensures Ends(s, Alone(s, t, oks), t,
                 !s.calls[t].removeLink && (!s.running || (s.calls[t].force && oks[1])) && oks[2] && (oks[3] || s.calls[t].force))
  {
    var s1 := CallStep(s, t, oks[0]);
    if s.calls[t].removeLink {
      AloneResets(s1, t, oks[1..]);
    } else {
      AloneCleans(s1, t, oks[1..]);
    }
  }
}

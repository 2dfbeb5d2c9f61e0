/** A container's run state and health checks (container/state.go, container/health.go,
    daemon/health.go, and the event handler in daemon/monitor.go). */
module ContainerState {
  import opened Wrappers

  datatype Status = Starting | Healthy | Unhealthy

  datatype ProbeResult = ProbeResult(exitCode: int, output: string)

  /** `stop` is the channel of the current monitor. */
  datatype Health = Health(status: Status, failingStreak: nat, log: seq<ProbeResult>, stop: Option<nat>)

  const MAX_LOG := 5
  const DEFAULT_RETRIES := 3

  /** What the container was created with: whether it has a probe, and how many failures it allows. */
  datatype Config = Config(hasProbe: bool, retries: int)

  function Retries(cfg: Config): (n: nat)
    ensures n > 0
  {
    if cfg.retries <= 0 then DEFAULT_RETRIES else cfg.retries
  }

  /** Channels are numbered in the order they are made; `closed` holds those that have been closed. */
  datatype Channels = Channels(made: nat, closed: set<nat>)

  predicate IsOpen(ch: Channels, c: nat) {
    c < ch.made && c !in ch.closed
  }

  /** How far a call on the monitor channel has come that proceeds by single steps: it has decided whether
      it wants a monitor, or has found a channel to close, or has closed it, or has found none. */
  datatype Call = Decided(want: bool) | Closing | Clearing | Opening

  /** `calls` are the calls in progress, and `panicked` tells that a closed or missing channel has
      been closed. (A run of the daemon ends there; here it just goes on.) */
  datatype State = State(
    running: bool,
    paused: bool,
    restarting: bool,
    pid: int,
    exitCode: int,
    waitChan: nat,
    waits: Channels,
    health: Option<Health>,
    stops: Channels,
    calls: map<nat, Call>,
    panicked: bool)

  const CREATED := State(false, false, false, 0, 0, 0, Channels(1, {}), None, Channels(0, {}), map[], false)

  // ---------------------------------------------------------------- state.go

  function Running(s: State, pid: int): State {
    s.(running := true, restarting := false, exitCode := 0, pid := pid)
  }

  /** Closing the wait channel and making a new one. */
  function FireWaiters(s: State): State {
    s.(waitChan := s.waits.made, waits := Channels(s.waits.made + 1, s.waits.closed + {s.waitChan}))
  }

  function Stopped(s: State, code: int): State {
    FireWaiters(s.(running := false, paused := false, restarting := false, pid := 0, exitCode := code))
  }

  function Restarting(s: State, code: int): State {
    FireWaiters(s.(running := true, restarting := true, pid := 0, exitCode := code))
  }

  // ---------------------------------------------------------------- health.go

  /** The stored channel. */
  function Stored(s: State): Option<nat> {
    if s.health.Some? then s.health.value.stop else None
  }

  function WithStored(s: State, stop: Option<nat>): State
    requires s.health.Some?
  {
    s.(health := Some(s.health.value.(stop := stop)))
  }

  /** close(s.stop): there has to be a channel, and it has to be open. */
  function CloseStored(s: State): State {
    if Stored(s).Some? && Stored(s).value !in s.stops.closed
    then s.(stops := s.stops.(closed := s.stops.closed + {Stored(s).value}))
    else s.(panicked := true)
  }

  /** CloseMonitorChannel, undisturbed. */
  function CloseMonitor(s: State): State {
    if Stored(s).None? then s
    else if Stored(s).value in s.stops.closed then CloseStored(s)
    else WithStored(CloseStored(s), None)
  }

  /** s.stop = make(chan struct{}) */
  function MakeStored(s: State): State
    requires s.health.Some?
  {
    WithStored(s.(stops := s.stops.(made := s.stops.made + 1)), Some(s.stops.made))
  }

  /** OpenMonitorChannel, undisturbed. */
  function OpenMonitor(s: State): State {
    if s.health.Some? && Stored(s).None? then MakeStored(s) else s
  }

  predicate WantsMonitor(cfg: Config, s: State) {
    s.running && !s.paused && cfg.hasProbe
  }

  function UpdateMonitor(cfg: Config, s: State): State {
    if WantsMonitor(cfg, s) then OpenMonitor(s) else CloseMonitor(s)
  }

  function FreshHealth(s: State): Health {
    if s.health.Some? then s.health.value.(status := Status.Starting, failingStreak := 0)
    else Health(Status.Starting, 0, [], None)
  }

  function InitMonitor(cfg: Config, s: State): State {
    if !cfg.hasProbe then s
    else
      var closed := CloseMonitor(s);
      UpdateMonitor(cfg, closed.(health := Some(FreshHealth(closed))))
  }

  /** Keeping the last five results. */
  function Logged(log: seq<ProbeResult>, r: ProbeResult): seq<ProbeResult> {
    if |log| >= MAX_LOG then log[|log| + 1 - MAX_LOG..] + [r] else log + [r]
  }

  function Judge(cfg: Config, h: Health, r: ProbeResult): Health {
    var logged := h.(log := Logged(h.log, r));
    if r.exitCode == 0 then logged.(failingStreak := 0, status := Healthy)
    else logged.(failingStreak := h.failingStreak + 1,
                 status := if h.failingStreak + 1 >= Retries(cfg) then Unhealthy else h.status)
  }

  /** Whether a result from the monitor with this channel still counts. */
  predicate Accepted(s: State, channel: nat) {
    s.health.Some? && IsOpen(s.stops, channel)
  }

  // ---------------------------------------------------------------- events

  /** Why a start failed, as far as it decides the exit code. */
  datatype StartError = CommandNotFound | CannotInvoke | OtherFailure

  function ErrorCode(why: StartError): Option<int> {
    match why
    case CommandNotFound => Some(127)
    case CannotInvoke => Some(126)
    case OtherFailure => None
  }

  const START_FAILED := 128

  /** daemon/start.go: the error's own code, or the one that is there, but not zero. */
  function FailedCode(s: State, why: StartError): int {
    var code := if ErrorCode(why).Some? then ErrorCode(why).value else s.exitCode;
    if code == 0 then START_FAILED else code
  }

  datatype Event =
    | Start(pid: int)
    /** containerStart fails before the container runs. */
    | StartFailed(why: StartError)
    | Exit(code: int, restart: bool)
    /** An announced restart is cancelled or fails: the waiting goroutine marks the container stopped. */
    | RestartFailed(code: int)
    | Pause
    | Resume
    /** containerStop calls stopHealthchecks, and the out-of-memory event updateHealthMonitor, without the
        container's lock: the call named k proceeds by single steps. */
    | BeginStop(k: nat)
    | BeginUpdate(k: nat)
    | Advance(k: nat)
    /** Steps of such a call may fall into what a holder of the lock does. Its calls on the channel then go by
        steps, too, and these are its own writes in between. */
    | StartFlags(pid: int)
    | ExitFlags(code: int, restart: bool)
    | PauseFlag(paused: bool)
    | ResetHealth
    | Probe(channel: nat, result: ProbeResult)

  function Begun(s: State, k: nat, want: bool): State {
    if k in s.calls || s.health.None? then s else s.(calls := s.calls[k := Decided(want)])
  }

  /** The next step of such a call. */
  function Advanced(s: State, k: nat): State {
    if k !in s.calls || s.health.None? then s
    else
      match s.calls[k]
      case Decided(want) =>
        if want && Stored(s).None? then s.(calls := s.calls[k := Opening])
        else if !want && Stored(s).Some? then s.(calls := s.calls[k := Closing])
        else s.(calls := s.calls - {k})
      case Opening => MakeStored(s.(calls := s.calls - {k}))
      case Closing => CloseStored(s.(calls := s.calls[k := Clearing]))
      case Clearing => WithStored(s.(calls := s.calls - {k}), None)
  }

  function Step(cfg: Config, s: State, e: Event): State {
    match e
    case Start(pid) => InitMonitor(cfg, Running(s, pid))
    case StartFailed(why) => s.(exitCode := FailedCode(s, why))
    case Exit(code, restart) => UpdateMonitor(cfg, if restart then Restarting(s, code) else Stopped(s, code))
    case RestartFailed(code) => Stopped(s, code)
    case Pause => UpdateMonitor(cfg, s.(paused := true))
    case Resume => UpdateMonitor(cfg, s.(paused := false))
    case BeginStop(k) => Begun(s, k, false)
    case BeginUpdate(k) => Begun(s, k, WantsMonitor(cfg, s))
    case Advance(k) => Advanced(s, k)
    case StartFlags(pid) => Running(s, pid)
    case ExitFlags(code, restart) => if restart then Restarting(s, code) else Stopped(s, code)
    case PauseFlag(paused) => s.(paused := paused)
    case ResetHealth => if cfg.hasProbe then s.(health := Some(FreshHealth(s))) else s
    case Probe(channel, result) =>
      if Accepted(s, channel) then s.(health := Some(Judge(cfg, s.health.value, result))) else s
  }

  function Exec(cfg: Config, s: State, es: seq<Event>): State {
    if es == [] then s else Step(cfg, Exec(cfg, s, es[..|es| - 1]), es[|es| - 1])
  }

  // ---------------------------------------------------------------- the object

  class Container {
    const cfg: Config
    var running: bool
    var paused: bool
    var restarting: bool
    var pid: int
    var exitCode: int
    var waitChan: nat
    var waits: Channels
    var health: Option<Health>
    var stops: Channels
    var calls: map<nat, Call>
    var panicked: bool

    function View(): State
      reads this
    {
      State(running, paused, restarting, pid, exitCode, waitChan, waits, health, stops, calls, panicked)
    }

    constructor (cfg: Config)
      ensures this.cfg == cfg && View() == CREATED && ValidChannels(View())
    {
      this.cfg, running, paused, restarting, pid, exitCode := cfg, false, false, false, 0, 0;
      waitChan, waits, health, stops, calls, panicked := 0, Channels(1, {}), None, Channels(0, {}), map[], false;
    }

    method SetRunning(pid: int)
      modifies this`running, this`restarting, this`exitCode, this`pid
      ensures View() == Running(old(View()), pid)
    {
      running, restarting, exitCode := true, false, 0;
      this.pid := pid;
    }

    /** close(waitChan): closing a closed channel would panic. */
    method CloseWaitChan()
      requires IsOpen(waits, waitChan)
      modifies this`waitChan, this`waits
      ensures View() == FireWaiters(old(View()))
    {
      waits := waits.(closed := waits.closed + {waitChan});
      waitChan := waits.made;
      waits := waits.(made := waits.made + 1);
    }

    method SetStopped(code: int)
      requires IsOpen(waits, waitChan)
      modifies this
      ensures View() == Stopped(old(View()), code)
    {
      running, paused, restarting, pid, exitCode := false, false, false, 0, code;
      CloseWaitChan();
    }

    method SetRestarting(code: int)
      requires IsOpen(waits, waitChan)
      modifies this
      ensures View() == Restarting(old(View()), code)
    {
      running, restarting, pid, exitCode := true, true, 0, code;
      CloseWaitChan();
    }

    /** The exit code part of containerStart's error path. */
    method SetStartFailed(why: StartError)
      modifies this`exitCode
      ensures View() == Step(cfg, old(View()), StartFailed(why))
    {
      if why.CommandNotFound? {
        exitCode := 127;
      } else if why.CannotInvoke? {
        exitCode := 126;
      }
      if exitCode == 0 {
        exitCode := START_FAILED;
      }
    }

    method OpenMonitorChannel() returns (channel: Option<nat>)
      requires health.Some?
      modifies this`health, this`stops
      ensures View() == OpenMonitor(old(View()))
      ensures channel == if old(health.value.stop).None? then health.value.stop else None
    {
      if health.value.stop.None? {
        MakeChannel();
        return health.value.stop;
      }
      return None;
    }

    method MakeChannel()
      requires health.Some?
      modifies this`health, this`stops
      ensures View() == MakeStored(old(View()))
    {
      health := Some(health.value.(stop := Some(stops.made)));
      stops := stops.(made := stops.made + 1);
    }

    /** close(stop): closing a closed or missing channel panics. */
    method CloseChannel() returns (ok: bool)
      requires health.Some?
      modifies this`stops, this`panicked
      ensures View() == CloseStored(old(View()))
      ensures ok <==> old(health.value.stop).Some? && old(health.value.stop).value !in old(stops.closed)
    {
      ok := health.value.stop.Some? && health.value.stop.value !in stops.closed;
      if ok {
        stops := stops.(closed := stops.closed + {health.value.stop.value});
      } else {
        panicked := true;
      }
    }

    /** CloseMonitorChannel: it never panics while the stored channel is open. */
    method CloseMonitorChannel()
      requires health.Some?
      modifies this`health, this`stops, this`panicked
      ensures View() == CloseMonitor(old(View()))
      ensures panicked <==> old(panicked) || (old(health.value.stop).Some? && old(health.value.stop).value in old(stops.closed))
    {
      if health.value.stop.Some? {
        var ok := CloseChannel();
        if ok {
          health := Some(health.value.(stop := None));
        }
      }
    }

    method UpdateHealthMonitor()
      modifies this`health, this`stops, this`panicked
      ensures View() == UpdateMonitor(cfg, old(View()))
    {
      if health.None? {
        return;
      }
      var wantRunning := running && !paused && cfg.hasProbe;
      if wantRunning {
        var _ := OpenMonitorChannel();
      } else {
        CloseMonitorChannel();
      }
    }

    method InitHealthMonitor()
      modifies this`health, this`stops, this`panicked
      ensures View() == InitMonitor(cfg, old(View()))
    {
      if !cfg.hasProbe {
        return;
      }
      if health.Some? {
        CloseMonitorChannel();
      }
      Reset();
      UpdateHealthMonitor();
    }

    method Reset()
      modifies this`health
      ensures View() == old(View()).(health := Some(FreshHealth(old(View()))))
    {
      if health.Some? {
        health := Some(health.value.(status := Status.Starting, failingStreak := 0));
      } else {
        health := Some(Health(Status.Starting, 0, [], None));
      }
    }

    /** The start of a call that goes by steps, with what it has decided. */
    method Begin(k: nat, want: bool)
      modifies this`calls
      ensures View() == Begun(old(View()), k, want)
    {
      if k !in calls && health.Some? {
        calls := calls[k := Decided(want)];
      }
    }

    /** One step of such a call. */
    method AdvanceCall(k: nat)
      modifies this`calls, this`health, this`stops, this`panicked
      ensures View() == Advanced(old(View()), k)
    {
      if k !in calls || health.None? {
        return;
      }
      match calls[k] {
        case Decided(want) =>
          if want && health.value.stop.None? {
            calls := calls[k := Opening];
          } else if !want && health.value.stop.Some? {
            calls := calls[k := Closing];
          } else {
            calls := calls - {k};
          }
        case Opening =>
          calls := calls - {k};
          MakeChannel();
        case Closing =>
          calls := calls[k := Clearing];
          var _ := CloseChannel();
        case Clearing =>
          calls := calls - {k};
          health := Some(health.value.(stop := None));
      }
    }

    method HandleProbeResult(channel: nat, result: ProbeResult)
      modifies this`health
      ensures View() == Step(cfg, old(View()), Probe(channel, result))
    {
      if health.None? || !IsOpen(stops, channel) {
        return;
      }
      var retries := cfg.retries;
      if retries <= 0 {
        retries := DEFAULT_RETRIES;
      }
      var h := health.value;
      if |h.log| >= MAX_LOG {
        h := h.(log := h.log[|h.log| + 1 - MAX_LOG..] + [result]);
      } else {
        h := h.(log := h.log + [result]);
      }
      if result.exitCode == 0 {
        h := h.(failingStreak := 0, status := Healthy);
      } else {
        h := h.(failingStreak := h.failingStreak + 1);
        if h.failingStreak >= retries {
          h := h.(status := Unhealthy);
        }
      }
      health := Some(h);
    }

    /** StateChanged and the other calls that change this state, event by event. */
    method StateChanged(e: Event)
      requires IsOpen(waits, waitChan)
      modifies this
      ensures View() == Step(cfg, old(View()), e)
    {
      hide InitMonitor, UpdateMonitor, Begun, Advanced, FreshHealth, Judge;
      match e {
        case Start(p) =>
          SetRunning(p);
          InitHealthMonitor();
        case StartFailed(why) =>
          SetStartFailed(why);
        case Exit(code, restart) =>
          if restart {
            SetRestarting(code);
          } else {
            SetStopped(code);
          }
          UpdateHealthMonitor();
        case RestartFailed(code) =>
          SetStopped(code);
        case Pause =>
          paused := true;
          UpdateHealthMonitor();
        case Resume =>
          paused := false;
          UpdateHealthMonitor();
        case BeginStop(k) =>
          Begin(k, false);
        case BeginUpdate(k) =>
          Begin(k, running && !paused && cfg.hasProbe);
        case Advance(k) =>
          AdvanceCall(k);
        case StartFlags(p) =>
          SetRunning(p);
        case ExitFlags(code, restart) =>
          if restart {
            SetRestarting(code);
          } else {
            SetStopped(code);
          }
        case PauseFlag(b) =>
          paused := b;
        case ResetHealth =>
          if cfg.hasProbe {
            Reset();
          }
        case Probe(channel, result) =>
          HandleProbeResult(channel, result);
      }
    }
  }

  // ---------------------------------------------------------------- what a step leaves alone

  /** What an event does to the flags, the exit code and the wait channel. */
  function Core(s: State, e: Event): State {
    match e
    case Start(pid) => Running(s, pid)
    case StartFailed(why) => s.(exitCode := FailedCode(s, why))
    case Exit(code, restart) => if restart then Restarting(s, code) else Stopped(s, code)
    case RestartFailed(code) => Stopped(s, code)
    case Pause => s.(paused := true)
    case Resume => s.(paused := false)
    case StartFlags(pid) => Running(s, pid)
    case ExitFlags(code, restart) => if restart then Restarting(s, code) else Stopped(s, code)
    case PauseFlag(paused) => s.(paused := paused)
    case _ => s
  }

  /** The events that begin the health status anew, for a container with a probe. */
  predicate Resets(e: Event) {
    e.Start? || e.ResetHealth?
  }

  /** From c to s' only the monitor's channel has changed and, if `reset`, the health begins anew. */
  predicate MonitorOnly(c: State, s': State, reset: bool) {
    && s' == c.(health := s'.health, stops := s'.stops, calls := s'.calls, panicked := s'.panicked)
    && c.stops.closed <= s'.stops.closed
    && (s'.health.Some? <==> c.health.Some? || reset)
    && (reset ==> s'.health == Some(Health(Status.Starting, 0, if c.health.Some? then c.health.value.log else [], Stored(s'))))
    && (!reset && c.health.Some? ==> s'.health == Some(c.health.value.(stop := Stored(s'))))
  }

  lemma CloseShape(c: State)
    ensures MonitorOnly(c, CloseMonitor(c), false)
  {
  }

  lemma OpenShape(c: State)
    ensures MonitorOnly(c, OpenMonitor(c), false)
  {
  }

  lemma ResetShape(c: State, closed: State, s': State, h: Health)
    requires MonitorOnly(c, closed, false) && MonitorOnly(closed.(health := Some(h)), s', false)
    requires h.status == Status.Starting && h.failingStreak == 0 && h.log == if c.health.Some? then c.health.value.log else []
    ensures MonitorOnly(c, s', true)
  {
  }

  lemma UpdateShape(cfg: Config, c: State)
    ensures MonitorOnly(c, UpdateMonitor(cfg, c), false)
  {
    hide CloseMonitor, OpenMonitor, MonitorOnly;
    CloseShape(c);
    OpenShape(c);
  }

  lemma InitShape(cfg: Config, c: State)
    ensures MonitorOnly(c, InitMonitor(cfg, c), cfg.hasProbe)
  {
    if cfg.hasProbe {
      CloseShape(c);
      var closed := CloseMonitor(c);
      var h := FreshHealth(closed);
      assert c.health.Some? ==> h.log == c.health.value.log;
      hide CloseMonitor, UpdateMonitor, MonitorOnly;
      UpdateShape(cfg, closed.(health := Some(h)));
      ResetShape(c, closed, InitMonitor(cfg, c), h);
    } else {
      SameShape(c);
    }
  }

  lemma BeginShape(s: State, k: nat, want: bool)
    ensures MonitorOnly(s, Begun(s, k, want), false)
  {
  }

  lemma AdvanceShape(s: State, k: nat)
    ensures MonitorOnly(s, Advanced(s, k), false)
  {
    hide MonitorOnly, MakeStored, CloseStored, WithStored;
    if k in s.calls && s.health.Some? {
      match s.calls[k] {
        case Decided(_) => CallsShape(s, s.calls[k := Opening]); CallsShape(s, s.calls[k := Closing]); CallsShape(s, s.calls - {k});
        case Opening => MakeShape(s, s.calls - {k});
        case Closing => CloseStoredShape(s, s.calls[k := Clearing]);
        case Clearing => ClearShape(s, s.calls - {k});
      }
    } else {
      SameShape(s);
    }
  }

  lemma CallsShape(s: State, calls: map<nat, Call>)
    ensures MonitorOnly(s, s.(calls := calls), false)
  {
  }

  lemma ClearShape(s: State, calls: map<nat, Call>)
    requires s.health.Some?
    ensures MonitorOnly(s, WithStored(s.(calls := calls), None), false)
  {
  }

  lemma MakeShape(s: State, calls: map<nat, Call>)
    requires s.health.Some?
    ensures MonitorOnly(s, MakeStored(s.(calls := calls)), false)
  {
  }

  lemma CloseStoredShape(s: State, calls: map<nat, Call>)
    ensures MonitorOnly(s, CloseStored(s.(calls := calls)), false)
  {
  }

  /** Beyond that, an event changes nothing but the monitor's channel, unless it is a probe result. */
  lemma StepShape(cfg: Config, s: State, e: Event)
    ensures !e.Probe? ==> MonitorOnly(Core(s, e), Step(cfg, s, e), Resets(e) && cfg.hasProbe)
    ensures e.Probe? ==> var s' := Step(cfg, s, e);
                         s' == s.(health := s'.health) && (s'.health.Some? <==> s.health.Some?) && Stored(s') == Stored(s)
  {
    hide UpdateMonitor, InitMonitor, Begun, Advanced, MonitorOnly;
    UpdateShape(cfg, Core(s, e));
    InitShape(cfg, Core(s, e));
    match e
    case StartFailed(_) => SameShape(Core(s, e));
    case RestartFailed(_) => SameShape(Core(s, e));
    case BeginStop(k) => BeginShape(s, k, false);
    case BeginUpdate(k) => BeginShape(s, k, WantsMonitor(cfg, s));
    case Advance(k) => AdvanceShape(s, k);
    case StartFlags(_) => SameShape(Core(s, e));
    case ExitFlags(_, _) => SameShape(Core(s, e));
    case PauseFlag(_) => SameShape(Core(s, e));
    case ResetHealth => SameShape(s); SameShape(s.(health := Some(FreshHealth(s)))); if cfg.hasProbe { ResetShape(s, s, Step(cfg, s, e), FreshHealth(s)); }
    case _ =>
  }

  lemma SameShape(s: State)
    ensures MonitorOnly(s, s, false)
  {
  }

  // ---------------------------------------------------------------- channels

  /** The calls that have closed the stored channel and not yet cleared it. */
  function Clearers(s: State): set<nat> {
    set k | k in s.calls && s.calls[k].Clearing?
  }

  /** At most one stop channel is open, the stored one; it is open unless a single call has just
      closed it. Nothing has been closed twice. */
  ghost predicate OneMonitor(s: State) {
    && !s.panicked
    && (forall c: nat :: IsOpen(s.stops, c) ==> Stored(s) == Some(c))
    && (Clearers(s) == {} <==> Stored(s).None? || IsOpen(s.stops, Stored(s).value))
    && (forall j, k :: j in Clearers(s) && k in Clearers(s) ==> j == k)
  }

  /** The wait channel is open: closing it, which only lock holders and a failed restart do, never panics. */
  ghost predicate ValidWaits(s: State) {
    IsOpen(s.waits, s.waitChan) && forall c :: c in s.waits.closed ==> c < s.waits.made
  }

  ghost predicate ValidChannels(s: State) {
    && ValidWaits(s)
    && (forall c :: c in s.stops.closed ==> c < s.stops.made)
    && (Stored(s).Some? ==> Stored(s).value < s.stops.made)
    && (s.health.None? ==> s.calls == map[])
    && OneMonitor(s)
  }

  /** The events of the lock's holders that close the stored channel. */
  predicate Closes(cfg: Config, s: State, e: Event) {
    match e
    case Start(_) => cfg.hasProbe
    case Exit(_, restart) => !(restart && !s.paused && cfg.hasProbe)
    case Pause => true
    case Resume => !(s.running && cfg.hasProbe)
    case _ => false
  }

  /** An event that does no harm to the channels: nobody closes what a call has closed and not
      yet cleared, or what has been cleared since the call looked; and none opens what has been opened since. */
  predicate Safe(cfg: Config, s: State, e: Event) {
    if e.Advance? && e.k in s.calls && s.calls[e.k].Closing? then Stored(s).Some? && Clearers(s) == {}
    else if e.Advance? && e.k in s.calls && s.calls[e.k].Opening? then Stored(s).None?
    else Closes(cfg, s, e) ==> Clearers(s) == {}
  }

  lemma CloseKeepsChannels(s: State)
    requires ValidChannels(s)
    ensures ValidChannels(CloseMonitor(s)) <==> Clearers(s) == {}
  {
    assert Clearers(CloseMonitor(s)) == Clearers(s);
  }

  lemma OpenKeepsChannels(s: State)
    requires ValidChannels(s)
    ensures ValidChannels(OpenMonitor(s)) && Clearers(OpenMonitor(s)) == Clearers(s)
  {
    assert Clearers(OpenMonitor(s)) == Clearers(s);
  }

  lemma FlagsKeepChannels(s: State)
    requires ValidChannels(s)
    ensures forall pid :: ValidChannels(Running(s, pid)) && Clearers(Running(s, pid)) == Clearers(s)
    ensures forall code :: ValidChannels(Stopped(s, code)) && Clearers(Stopped(s, code)) == Clearers(s)
    ensures forall code :: ValidChannels(Restarting(s, code)) && Clearers(Restarting(s, code)) == Clearers(s)
    ensures forall paused :: ValidChannels(s.(paused := paused)) && Clearers(s.(paused := paused)) == Clearers(s)
  {
  }

  lemma UpdateKeepsChannelsIff(cfg: Config, s: State)
    requires ValidChannels(s)
    ensures ValidChannels(UpdateMonitor(cfg, s)) <==> WantsMonitor(cfg, s) || Clearers(s) == {}
  {
    hide ValidChannels, OpenMonitor, CloseMonitor, Clearers;
    OpenKeepsChannels(s);
    CloseKeepsChannels(s);
  }

  lemma InitKeepsChannelsIff(cfg: Config, s: State)
    requires ValidChannels(s)
    ensures ValidChannels(InitMonitor(cfg, s)) <==> !cfg.hasProbe || Clearers(s) == {}
  {
    CloseKeepsChannels(s);
    if cfg.hasProbe {
      var closed := CloseMonitor(s);
      if Clearers(s) == {} {
        var s1 := closed.(health := Some(FreshHealth(closed)));
        assert Clearers(s1) == Clearers(s) && ValidChannels(s1);
        UpdateKeepsChannelsIff(cfg, s1);
      } else {
        assert closed.panicked;
      }
    }
  }

  lemma AdvanceKeepsChannelsIff(cfg: Config, s: State, k: nat)
    requires ValidChannels(s)
    ensures ValidChannels(Advanced(s, k)) <==> Safe(cfg, s, Advance(k))
  {
    if k in s.calls && s.health.Some? {
      match s.calls[k] {
        case Decided(want) => OtherCallsKeepChannels(s, s.calls[k := Opening]); OtherCallsKeepChannels(s, s.calls[k := Closing]);
                              OtherCallsKeepChannels(s, s.calls - {k});
        case Opening => OpenStepIff(s, k);
        case Closing => CloseStepIff(s, k);
        case Clearing => ClearStep(s, k);
      }
    }
  }

  lemma OtherCallsKeepChannels(s: State, calls: map<nat, Call>)
    requires ValidChannels(s) && s.health.Some? && Clearers(s.(calls := calls)) == Clearers(s)
    ensures ValidChannels(s.(calls := calls))
  {
  }

  lemma OpenStepIff(s: State, k: nat)
    requires ValidChannels(s) && k in s.calls && s.calls[k].Opening?
    ensures ValidChannels(Advanced(s, k)) <==> Stored(s).None?
  {
    assert Clearers(Advanced(s, k)) == Clearers(s);
    assert Stored(Advanced(s, k)) == Some(s.stops.made);
    if Stored(s).Some? && IsOpen(s.stops, Stored(s).value) {
      assert IsOpen(Advanced(s, k).stops, Stored(s).value);
    }
  }

  lemma CloseStepIff(s: State, k: nat)
    requires ValidChannels(s) && k in s.calls && s.calls[k].Closing?
    ensures ValidChannels(Advanced(s, k)) <==> Stored(s).Some? && Clearers(s) == {}
  {
    assert Clearers(Advanced(s, k)) == Clearers(s) + {k};
  }

  lemma ClearStep(s: State, k: nat)
    requires ValidChannels(s) && k in s.calls && s.calls[k].Clearing?
    ensures ValidChannels(Advanced(s, k))
  {
    assert k in Clearers(s);
    assert forall j :: j in Clearers(Advanced(s, k)) ==> j in Clearers(s) && j != k;
  }

  lemma BeginKeepsChannels(s: State, k: nat, want: bool)
    requires ValidChannels(s)
    ensures ValidChannels(Begun(s, k, want))
  {
    assert Clearers(Begun(s, k, want)) == Clearers(s);
  }

  lemma WholeEventKeepsChannelsIff(cfg: Config, s: State, e: Event)
    requires ValidChannels(s) && (e.Start? || e.Exit? || e.Pause? || e.Resume?)
    ensures ValidChannels(Step(cfg, s, e)) <==> Safe(cfg, s, e)
  {
    CoreKeepsChannels(s, e);
    hide ValidChannels, UpdateMonitor, InitMonitor, Clearers, FireWaiters;
    if e.Start? {
      InitKeepsChannelsIff(cfg, Core(s, e));
    } else {
      UpdateKeepsChannelsIff(cfg, Core(s, e));
    }
  }

  lemma CoreKeepsChannels(s: State, e: Event)
    requires ValidChannels(s)
    ensures ValidChannels(Core(s, e)) && Clearers(Core(s, e)) == Clearers(s)
  {
    FlagsKeepChannels(s);
    hide ValidChannels, Clearers, Running, Stopped, Restarting;
    match e
    case StartFailed(why) => CodeKeepsChannels(s, FailedCode(s, why));
    case _ =>
  }

  /** Which events keep the channels in order. */
  lemma StepKeepsChannelsIff(cfg: Config, s: State, e: Event)
    requires ValidChannels(s)
    ensures ValidChannels(Step(cfg, s, e)) <==> Safe(cfg, s, e)
  {
    if e.Start? || e.Exit? || e.Pause? || e.Resume? {
      WholeEventKeepsChannelsIff(cfg, s, e);
    } else {
      CoreKeepsChannels(s, e);
      hide ValidChannels, Begun, Advanced, Clearers, Running, Stopped, Restarting;
      match e
      case BeginStop(k) => BeginKeepsChannels(s, k, false);
      case BeginUpdate(k) => BeginKeepsChannels(s, k, WantsMonitor(cfg, s));
      case Advance(k) => AdvanceKeepsChannelsIff(cfg, s, k);
      case ResetHealth => ResetKeepsChannels(s);
      case Probe(channel, result) =>
        if Accepted(s, channel) { JudgeKeepsChannels(cfg, s, result); }
      case _ =>
    }
  }

  lemma ResetKeepsChannels(s: State)
    requires ValidChannels(s)
    ensures ValidChannels(s.(health := Some(FreshHealth(s))))
  {
    assert Clearers(s.(health := Some(FreshHealth(s)))) == Clearers(s);
  }

  lemma CodeKeepsChannels(s: State, code: int)
    requires ValidChannels(s)
    ensures ValidChannels(s.(exitCode := code)) && Clearers(s.(exitCode := code)) == Clearers(s)
  {
    assert Clearers(s.(exitCode := code)) == Clearers(s);
  }

  lemma JudgeKeepsChannels(cfg: Config, s: State, r: ProbeResult)
    requires ValidChannels(s) && s.health.Some?
    ensures ValidChannels(s.(health := Some(Judge(cfg, s.health.value, r))))
  {
    assert Clearers(s.(health := Some(Judge(cfg, s.health.value, r)))) == Clearers(s);
  }

  /** Every event of the run is safe. */
  ghost predicate SafeRun(cfg: Config, s: State, es: seq<Event>) {
    forall i :: 0 <= i < |es| ==> Safe(cfg, Exec(cfg, s, es[..i]), es[i])
  }

  lemma SafeFront(cfg: Config, s: State, es: seq<Event>)
    requires es != []
    ensures SafeRun(cfg, s, es) <==>
            SafeRun(cfg, s, es[..|es| - 1]) && Safe(cfg, Exec(cfg, s, es[..|es| - 1]), es[|es| - 1])
  {
    hide Safe, Exec;
    var front := es[..|es| - 1];
    assert es[..|front|] == front;
    forall i | 0 <= i < |front|
      ensures Safe(cfg, Exec(cfg, s, es[..i]), es[i]) <==> Safe(cfg, Exec(cfg, s, front[..i]), front[i])
    {
      FrontPrefix(es, i);
    }
  }

  /** A run keeps the channels in order at all times exactly when all its events are safe. */
  lemma {:induction false} RunKeepsChannelsIff(cfg: Config, s: State, es: seq<Event>)
    requires ValidChannels(s)
    ensures SafeRun(cfg, s, es) <==> forall n :: 0 <= n <= |es| ==> ValidChannels(Exec(cfg, s, es[..n]))
    decreases |es|
  {
    hide ValidChannels, Step, Safe, SafeRun;
    assert es[..|es|] == es;
    if es == [] {
      assert SafeRun(cfg, s, es) by { NoEvents(cfg, s); }
    } else {
      var front := es[..|es| - 1];
      SafeFront(cfg, s, es);
      RunKeepsChannelsIff(cfg, s, front);
      forall n | 0 <= n <= |front| ensures front[..n] == es[..n] { FrontPrefix(es, n); }
      assert front[..|front|] == front;
      if ValidChannels(Exec(cfg, s, front)) {
        StepKeepsChannelsIff(cfg, Exec(cfg, s, front), es[|es| - 1]);
      }
    }
  }

  lemma NoEvents(cfg: Config, s: State)
    ensures SafeRun(cfg, s, [])
  {
  }

  lemma CreatedIsValid()
    ensures ValidChannels(CREATED)
  {
    assert Clearers(CREATED) == {};
  }

  /** In every run of safe events no channel is closed twice, at most one monitor has an open stop channel,
      and it is the one stored in Health. */
  lemma OneMonitorInSafeRuns(cfg: Config, es: seq<Event>)
    requires SafeRun(cfg, CREATED, es)
    ensures var s := Exec(cfg, CREATED, es);
            !s.panicked && forall c: nat :: IsOpen(s.stops, c) ==> Stored(s) == Some(c)
  {
    SafeRunIsValid(cfg, es);
  }

  lemma SafeRunIsValid(cfg: Config, es: seq<Event>)
    requires SafeRun(cfg, CREATED, es)
    ensures ValidChannels(Exec(cfg, CREATED, es))
  {
    hide ValidChannels, Safe, SafeRun, Exec;
    CreatedIsValid();
    RunKeepsChannelsIff(cfg, CREATED, es);
    assert es[..|es|] == es;
    assert ValidChannels(Exec(cfg, CREATED, es[..|es|]));
  }

  // ---------------------------------------------------------------- calls that go by steps

  lemma ExecOneMore(cfg: Config, s: State, es: seq<Event>, e: Event)
    ensures Exec(cfg, s, es + [e]) == Step(cfg, Exec(cfg, s, es), e)
  {
    assert (es + [e])[..|es|] == es;
  }

  lemma ExecFour(cfg: Config, s: State, a: Event, b: Event, c: Event, d: Event)
    ensures Exec(cfg, s, [a] + [b] + [c] + [d]) == Step(cfg, Step(cfg, Step(cfg, Step(cfg, s, a), b), c), d)
  {
    hide Step;
    ExecOneMore(cfg, s, [], a);
    assert [] + [a] == [a];
    ExecOneMore(cfg, s, [a], b);
    ExecOneMore(cfg, s, [a] + [b], c);
    ExecOneMore(cfg, s, [a] + [b] + [c], d);
    assert Exec(cfg, s, []) == s;
    hide Exec;
  }

  /** The steps of a call that nothing disturbs add up to what it is meant to do. */
  lemma UndisturbedCalls(cfg: Config, s: State, k: nat)
    requires ValidChannels(s) && k !in s.calls && Clearers(s) == {}
    ensures Exec(cfg, s, [BeginStop(k)] + [Advance(k)] + [Advance(k)] + [Advance(k)]) == CloseMonitor(s)
    ensures s.health.Some? ==>
              Exec(cfg, s, [BeginUpdate(k)] + [Advance(k)] + [Advance(k)] + [Advance(k)]) == UpdateMonitor(cfg, s)
  {
    ExecFour(cfg, s, BeginStop(k), Advance(k), Advance(k), Advance(k));
    ExecFour(cfg, s, BeginUpdate(k), Advance(k), Advance(k), Advance(k));
    AllSteps(s, k, WantsMonitor(cfg, s));
    AllSteps(s, k, false);
    hide Begun, Advanced, OpenMonitor, CloseMonitor, ValidChannels, Clearers, Exec;
  }

  lemma AllSteps(s: State, k: nat, want: bool)
    requires ValidChannels(s) && k !in s.calls && Clearers(s) == {}
    ensures Advanced(Advanced(Advanced(Begun(s, k, want), k), k), k) == if want then OpenMonitor(s) else CloseMonitor(s)
  {
    if s.health.Some? {
      var s1 := Begun(s, k, want);
      var next := if want then Opening else Closing;
      CallsBack(s.calls, k, Decided(want), next);
      if want == Stored(s).None? {
        assert Advanced(s1, k) == s.(calls := s.calls[k := next]);
        hide ValidChannels, Begun;
        if want { OpenSteps(s, k); } else { CloseSteps(s, k); }
      } else {
        assert Advanced(s1, k) == s;
      }
    }
  }

  lemma CallsBack(calls: map<nat, Call>, k: nat, a: Call, b: Call)
    requires k !in calls
    ensures calls[k := a] - {k} == calls && calls[k := a][k := b] == calls[k := b]
  {
  }

  lemma OpenSteps(s: State, k: nat)
    requires k !in s.calls && s.health.Some? && Stored(s).None?
    ensures Advanced(Advanced(s.(calls := s.calls[k := Opening]), k), k) == OpenMonitor(s)
  {
    CallsBack(s.calls, k, Opening, Opening);
    assert Advanced(s.(calls := s.calls[k := Opening]), k) == MakeStored(s);
  }

  lemma CloseSteps(s: State, k: nat)
    requires k !in s.calls && Stored(s).Some? && Stored(s).value !in s.stops.closed
    ensures Advanced(Advanced(s.(calls := s.calls[k := Closing]), k), k) == CloseMonitor(s)
  {
    CallsBack(s.calls, k, Closing, Clearing);
    CallsBack(s.calls, k, Clearing, Clearing);
  }

  /** So what a lock holder does by steps is the whole event, if nothing falls into it. */
  lemma UndisturbedEvents(cfg: Config, s: State, k: nat, code: int, restart: bool, paused: bool)
    requires ValidChannels(s) && k !in s.calls && Clearers(s) == {} && s.health.Some?
    ensures var update := [BeginUpdate(k)] + [Advance(k)] + [Advance(k)] + [Advance(k)];
            && Exec(cfg, Step(cfg, s, ExitFlags(code, restart)), update) == Step(cfg, s, Exit(code, restart))
            && Exec(cfg, Step(cfg, s, PauseFlag(paused)), update) == Step(cfg, s, if paused then Pause else Resume)
  {
    hide ValidChannels, UpdateMonitor, Exec, Clearers;
    FlagsKeepChannels(s);
    UndisturbedCalls(cfg, Step(cfg, s, ExitFlags(code, restart)), k);
    UndisturbedCalls(cfg, Step(cfg, s, PauseFlag(paused)), k);
  }

  /** A container with a probe has been started, and containerStop has found its monitor's channel. */
  function Stopping(pid: int, k: nat): seq<Event> {
    [Start(pid)] + [BeginStop(k)] + [Advance(k)]
  }

  lemma StoppingState(cfg: Config, pid: int, k: nat)
    requires cfg.hasProbe
    ensures Exec(cfg, CREATED, Stopping(pid, k)) ==
            State(true, false, false, pid, 0, 0, Channels(1, {}), Some(Health(Status.Starting, 0, [], Some(0))),
                  Channels(1, {}), map[k := Closing], false)
  {
    hide Step;
    ExecOneMore(cfg, CREATED, [], Start(pid));
    assert [] + [Start(pid)] == [Start(pid)];
    ExecOneMore(cfg, CREATED, [Start(pid)], BeginStop(k));
    ExecOneMore(cfg, CREATED, [Start(pid)] + [BeginStop(k)], Advance(k));
    assert Exec(cfg, CREATED, []) == CREATED;
    hide Exec;
    StoppingSteps(cfg, pid, k);
  }

  lemma StoppingSteps(cfg: Config, pid: int, k: nat)
    requires cfg.hasProbe
    ensures Step(cfg, Step(cfg, Step(cfg, CREATED, Start(pid)), BeginStop(k)), Advance(k)) ==
            State(true, false, false, pid, 0, 0, Channels(1, {}), Some(Health(Status.Starting, 0, [], Some(0))),
                  Channels(1, {}), map[k := Closing], false)
  {
  }

  /** Four ways in which it goes wrong. The process exits on its own before containerStop closes the
      channel: it closes none. It exits before containerStop clears the channel: the locked update
      closes it again. It exits, and the update finds the channel, before containerStop closes and clears
      it: the update closes none. An out-of-memory event in the same place still finds a channel: the container
      runs on unmonitored although the update was to leave a monitor. */
  lemma DisturbedStops(cfg: Config, pid: int, k: nat, j: nat, code: int)
    requires cfg.hasProbe && j != k
    ensures Exec(cfg, CREATED, Stopping(pid, k) + [Exit(code, false)] + [Advance(k)]).panicked
    ensures Exec(cfg, CREATED, Stopping(pid, k) + [Advance(k)] + [Exit(code, false)]).panicked
    ensures Exec(cfg, CREATED, Stopping(pid, k) + [ExitFlags(code, false)] + [BeginUpdate(j)] + [Advance(j)]
                               + [Advance(k)] + [Advance(k)] + [Advance(j)]).panicked
    ensures var s := Exec(cfg, CREATED, Stopping(pid, k) + [Advance(k)] + [BeginUpdate(j)] + [Advance(j)] + [Advance(k)]);
            WantsMonitor(cfg, s) && Stored(s).None? && s.calls == map[] && !s.panicked
  {
    StoppingState(cfg, pid, k);
    var es := Stopping(pid, k);
    hide Stopping;
    ExecOneMore(cfg, CREATED, es, Exit(code, false));
    ExecOneMore(cfg, CREATED, es + [Exit(code, false)], Advance(k));
    ExecOneMore(cfg, CREATED, es, Advance(k));
    ExecOneMore(cfg, CREATED, es + [Advance(k)], Exit(code, false));
    ExecOneMore(cfg, CREATED, es + [Advance(k)], BeginUpdate(j));
    ExecOneMore(cfg, CREATED, es + [Advance(k)] + [BeginUpdate(j)], Advance(j));
    ExecOneMore(cfg, CREATED, es + [Advance(k)] + [BeginUpdate(j)] + [Advance(j)], Advance(k));
    hide Exec;
    DisturbedUpdate(cfg, es, k, j, code);
  }

  lemma DisturbedUpdate(cfg: Config, es: seq<Event>, k: nat, j: nat, code: int)
    requires j != k && cfg.hasProbe
    requires var s := Exec(cfg, CREATED, es);
             && s.health.Some? && Stored(s) == Some(0) && s.stops == Channels(1, {}) && s.calls == map[k := Closing] && !s.panicked
    ensures Exec(cfg, CREATED, es + [ExitFlags(code, false)] + [BeginUpdate(j)] + [Advance(j)]
                               + [Advance(k)] + [Advance(k)] + [Advance(j)]).panicked
  {
    DisturbedSteps(cfg, Exec(cfg, CREATED, es), k, j, code);
    hide Step;
    var e1 := es + [ExitFlags(code, false)];
    ExecOneMore(cfg, CREATED, es, ExitFlags(code, false));
    ExecOneMore(cfg, CREATED, e1, BeginUpdate(j));
    ExecOneMore(cfg, CREATED, e1 + [BeginUpdate(j)], Advance(j));
    ExecOneMore(cfg, CREATED, e1 + [BeginUpdate(j)] + [Advance(j)], Advance(k));
    ExecOneMore(cfg, CREATED, e1 + [BeginUpdate(j)] + [Advance(j)] + [Advance(k)], Advance(k));
    ExecOneMore(cfg, CREATED, e1 + [BeginUpdate(j)] + [Advance(j)] + [Advance(k)] + [Advance(k)], Advance(j));
    hide Exec;
  }

  lemma DisturbedSteps(cfg: Config, s: State, k: nat, j: nat, code: int)
    requires j != k && cfg.hasProbe
    requires s.health.Some? && Stored(s) == Some(0) && s.stops == Channels(1, {}) && s.calls == map[k := Closing] && !s.panicked
    ensures var s2 := Step(cfg, Step(cfg, Step(cfg, s, ExitFlags(code, false)), BeginUpdate(j)), Advance(j));
            Step(cfg, Step(cfg, Step(cfg, s2, Advance(k)), Advance(k)), Advance(j)).panicked
  {
    var s1 := Step(cfg, s, ExitFlags(code, false));
    var s2 := Step(cfg, Step(cfg, s1, BeginUpdate(j)), Advance(j));
    assert s2.calls[j] == Closing && s2.calls[k] == Closing && Stored(s2) == Some(0);
    var s4 := Step(cfg, Step(cfg, s2, Advance(k)), Advance(k));
    assert j in s4.calls && s4.calls[j] == Closing && Stored(s4) == None;
  }

  lemma ClosedStaysClosedStep(cfg: Config, s: State, e: Event)
    ensures s.stops.closed <= Step(cfg, s, e).stops.closed
  {
    StepShape(cfg, s, e);
    hide Step;
  }

  lemma {:induction false} ClosedStaysClosed(cfg: Config, s: State, es: seq<Event>)
    ensures s.stops.closed <= Exec(cfg, s, es).stops.closed
    decreases |es|
  {
    hide Step;
    if es != [] {
      ClosedStaysClosed(cfg, s, es[..|es| - 1]);
      ClosedStaysClosedStep(cfg, Exec(cfg, s, es[..|es| - 1]), es[|es| - 1]);
    }
  }

  /** Once a monitor's channel is closed, no result of it ever changes anything, however late it comes. */
  lemma StaleResultsIgnored(cfg: Config, s: State, es: seq<Event>, channel: nat, r: ProbeResult)
    requires channel in s.stops.closed
    ensures Step(cfg, Exec(cfg, s, es), Probe(channel, r)) == Exec(cfg, s, es)
  {
    ClosedStaysClosed(cfg, s, es);
  }

  // ---------------------------------------------------------------- when a monitor runs

  /** A monitor runs only for a running, unpaused container with a probe. */
  predicate MonitorWanted(cfg: Config, s: State) {
    Stored(s).Some? ==> WantsMonitor(cfg, s)
  }

  /** The stored channel is an open one. */
  predicate Monitored(s: State) {
    Stored(s).Some? && IsOpen(s.stops, Stored(s).value)
  }

  /** Every locked event that updates the monitor leaves it running exactly when it is wanted, and no unlocked
      call is about to clear the channel. */
  lemma UpdateDecides(cfg: Config, s: State, e: Event)
    requires ValidChannels(s) && Safe(cfg, s, e)
    requires e.Exit? || e.Pause? || e.Resume? || (e.Start? && cfg.hasProbe)
    ensures var s' := Step(cfg, s, e);
            s'.health.Some? ==> (Monitored(s') <==> s'.running && !s'.paused && cfg.hasProbe && Clearers(s) == {})
  {
    StepKeepsChannelsIff(cfg, s, e);
    assert Clearers(Step(cfg, s, e)) == Clearers(s);
  }

  /** The events that leave an unwanted monitor behind: a failed restart with an open monitor, since the
      restarting container counted as running and nobody updates the monitor after it is marked stopped;
      a call that opens one which is no longer wanted; and, until its own call has closed the monitor, a lock
      holder that stops or pauses the container. */
  predicate LeavesUnwanted(cfg: Config, s: State, e: Event) {
    || (e.RestartFailed? && Stored(s).Some?)
    || ((e.StartFlags? || e.ExitFlags? || e.PauseFlag?) && Stored(s).Some? && !WantsMonitor(cfg, Core(s, e)))
    || (e.Advance? && e.k in s.calls && s.calls[e.k].Opening? && !WantsMonitor(cfg, s))
  }

  lemma MonitorWantedIff(cfg: Config, s: State, e: Event)
    requires ValidChannels(s) && Safe(cfg, s, e) && MonitorWanted(cfg, s) && (s.health.Some? ==> cfg.hasProbe)
    ensures MonitorWanted(cfg, Step(cfg, s, e)) <==> !LeavesUnwanted(cfg, s, e)
    ensures Step(cfg, s, e).health.Some? ==> cfg.hasProbe
  {
    StepKeepsChannelsIff(cfg, s, e);
  }

  ghost predicate WantedThroughout(cfg: Config, es: seq<Event>) {
    forall n :: 0 <= n <= |es| ==> MonitorWanted(cfg, Exec(cfg, CREATED, es[..n]))
  }

  ghost predicate NoneLeavesUnwanted(cfg: Config, es: seq<Event>) {
    forall i :: 0 <= i < |es| ==> !LeavesUnwanted(cfg, Exec(cfg, CREATED, es[..i]), es[i])
  }

  lemma WantedFront(cfg: Config, es: seq<Event>)
    requires es != []
    ensures WantedThroughout(cfg, es) <==> WantedThroughout(cfg, es[..|es| - 1]) && MonitorWanted(cfg, Exec(cfg, CREATED, es))
  {
    hide MonitorWanted, Exec;
    var front := es[..|es| - 1];
    assert es[..|es|] == es;
    forall n | 0 <= n <= |front| ensures front[..n] == es[..n] { FrontPrefix(es, n); }
  }

  lemma FrontPrefix(es: seq<Event>, n: nat)
    requires n < |es|
    ensures es[..|es| - 1][..n] == es[..n]
  {
  }

  lemma NoneLeavesFront(cfg: Config, es: seq<Event>)
    requires es != []
    ensures NoneLeavesUnwanted(cfg, es) <==>
            NoneLeavesUnwanted(cfg, es[..|es| - 1]) && !LeavesUnwanted(cfg, Exec(cfg, CREATED, es[..|es| - 1]), es[|es| - 1])
  {
    hide LeavesUnwanted, Exec;
    var front := es[..|es| - 1];
    assert es[..|front|] == front;
    forall i | 0 <= i < |front| ensures front[..i] == es[..i] && front[i] == es[i] { FrontPrefix(es, i); }
  }

  /** In every run of safe events, a monitor only ever runs where it is wanted exactly when no event leaves
      an unwanted one behind. */
  lemma {:induction false} RunKeepsMonitorWantedIff(cfg: Config, es: seq<Event>)
    requires SafeRun(cfg, CREATED, es)
    ensures WantedThroughout(cfg, es) <==> NoneLeavesUnwanted(cfg, es)
    ensures Exec(cfg, CREATED, es).health.Some? ==> cfg.hasProbe
    decreases |es|
  {
    hide ValidChannels, Step, Safe, SafeRun, LeavesUnwanted, MonitorWanted, WantedThroughout, NoneLeavesUnwanted;
    if es == [] {
      NoMonitorYet(cfg);
    } else {
      var front := es[..|es| - 1];
      var s := Exec(cfg, CREATED, front);
      SafeFront(cfg, CREATED, es);
      WantedFront(cfg, es);
      NoneLeavesFront(cfg, es);
      RunKeepsMonitorWantedIff(cfg, front);
      SafeRunIsValid(cfg, front);
      HealthNeedsProbe(cfg, s, es[|es| - 1]);
      WantedAtLast(cfg, front);
      if MonitorWanted(cfg, s) {
        MonitorWantedIff(cfg, s, es[|es| - 1]);
      }
    }
  }

  lemma WantedAtLast(cfg: Config, es: seq<Event>)
    ensures WantedThroughout(cfg, es) ==> MonitorWanted(cfg, Exec(cfg, CREATED, es))
  {
    hide Exec, MonitorWanted;
    assert es[..|es|] == es;
  }

  lemma NoMonitorYet(cfg: Config)
    ensures WantedThroughout(cfg, []) && NoneLeavesUnwanted(cfg, [])
  {
  }

  lemma HealthNeedsProbe(cfg: Config, s: State, e: Event)
    requires s.health.Some? ==> cfg.hasProbe
    ensures Step(cfg, s, e).health.Some? ==> cfg.hasProbe
  {
    StepShape(cfg, s, e);
    hide Step;
  }

  /** It does happen: a container with a probe dies, is to be restarted, and the restart fails. */
  lemma FailedRestartLeavesMonitor(pid: int, code: int, retries: int)
    ensures var cfg := Config(true, retries);
            var s := Exec(cfg, CREATED, [Start(pid), Exit(code, true), RestartFailed(code)]);
            !s.running && s.health.Some? && s.health.value.stop.Some?
  {
    var cfg := Config(true, retries);
    var es := [Start(pid), Exit(code, true), RestartFailed(code)];
    assert es[..2] == [Start(pid), Exit(code, true)] && es[..2][..1] == [Start(pid)];
    assert Exec(cfg, CREATED, [Start(pid)]) == Step(cfg, CREATED, Start(pid)) by { assert [Start(pid)][..0] == []; }
    assert Exec(cfg, CREATED, es[..2]) == Step(cfg, Exec(cfg, CREATED, [Start(pid)]), Exit(code, true));
  }

  /** Restarting keeps the paused flag: a paused container that exits and is restarted is marked paused
      while its new process runs, and its health is not monitored. */
  lemma RestartKeepsPaused(cfg: Config, s: State, code: int, pid: int)
    ensures var s' := Step(cfg, Step(cfg, s, Exit(code, true)), Start(pid));
            && s'.running && s'.paused == s.paused
            && (s.paused && cfg.hasProbe ==> !Monitored(s'))
  {
  }

  // ---------------------------------------------------------------- flags

  /** A container that is not running is not paused or restarting and has no process; a restarting one
      counts as running and has no process either. */
  predicate FlagsAgree(s: State) {
    && (!s.running ==> !s.paused && !s.restarting && s.pid == 0)
    && (s.restarting ==> s.running && s.pid == 0)
  }

  predicate Pauses(e: Event) {
    e.Pause? || e == PauseFlag(true)
  }

  /** Every event keeps the flags in agreement, except a pause of a container that is not running. */
  lemma StepKeepsFlagsIff(cfg: Config, s: State, e: Event)
    requires FlagsAgree(s)
    ensures FlagsAgree(Step(cfg, s, e)) <==> (Pauses(e) ==> s.running)
  {
    StepShape(cfg, s, e);
    hide Step;
  }

  /** containerPause's checks. */
  predicate PauseChecked(s: State) {
    s.running && !s.paused && !s.restarting
  }

  lemma {:induction false} RunKeepsFlags(cfg: Config, es: seq<Event>)
    requires forall i :: 0 <= i < |es| && Pauses(es[i]) ==> PauseChecked(Exec(cfg, CREATED, es[..i]))
    ensures FlagsAgree(Exec(cfg, CREATED, es))
    decreases |es|
  {
    hide Step;
    if es != [] {
      var front := es[..|es| - 1];
      assert forall i :: 0 <= i < |front| ==> front[..i] == es[..i];
      RunKeepsFlags(cfg, front);
      StepKeepsFlagsIff(cfg, Exec(cfg, CREATED, front), es[|es| - 1]);
    }
  }

  /** The events that decide whether a container runs, is restarting, and which process it has. */
  predicate DecidesRunning(e: Event) {
    e.Start? || e.StartFlags? || e.Exit? || e.ExitFlags? || e.RestartFailed?
  }

  /** Those that decide whether it is marked paused. */
  predicate DecidesPaused(e: Event) {
    e.Pause? || e.Resume? || e.PauseFlag? || ((e.Exit? || e.ExitFlags?) && !e.restart) || e.RestartFailed?
  }

  /** The last event of the kind. */
  function LastOf(es: seq<Event>, kind: Event -> bool): Option<Event> {
    if es == [] then None
    else if kind(es[|es| - 1]) then Some(es[|es| - 1])
    else LastOf(es[..|es| - 1], kind)
  }

  lemma FlagsStep(cfg: Config, s: State, e: Event)
    ensures var s' := Step(cfg, s, e);
            && s'.restarting == (if DecidesRunning(e) then (e.Exit? || e.ExitFlags?) && e.restart else s.restarting)
            && s'.running == (if DecidesRunning(e) then e.Start? || e.StartFlags? || ((e.Exit? || e.ExitFlags?) && e.restart) else s.running)
            && s'.pid == (if DecidesRunning(e) then if e.Start? || e.StartFlags? then e.pid else 0 else s.pid)
            && s'.paused == (if DecidesPaused(e) then e.Pause? || e == PauseFlag(true) else s.paused)
  {
    StepShape(cfg, s, e);
    hide Step;
  }

  /** In every run the flags tell the last event that decided them: restarting holds exactly after an exit
      that is to be restarted, running exactly after that or a start, and the process is the started one
      exactly after a start; paused holds exactly after a pause. */
  lemma {:induction false} FlagsTellTheLastEvent(cfg: Config, es: seq<Event>)
    ensures var s, last, mark := Exec(cfg, CREATED, es), LastOf(es, DecidesRunning), LastOf(es, DecidesPaused);
            && (s.restarting <==> last.Some? && (last.value.Exit? || last.value.ExitFlags?) && last.value.restart)
            && (s.running <==> last.Some? && (last.value.Start? || last.value.StartFlags?
                                              || ((last.value.Exit? || last.value.ExitFlags?) && last.value.restart)))
            && s.pid == (if last.Some? && (last.value.Start? || last.value.StartFlags?) then last.value.pid else 0)
            && (s.paused <==> mark.Some? && (mark.value.Pause? || mark.value == PauseFlag(true)))
    decreases |es|
  {
    if es != [] {
      FlagsTellTheLastEvent(cfg, es[..|es| - 1]);
      FlagsStep(cfg, Exec(cfg, CREATED, es[..|es| - 1]), es[|es| - 1]);
      hide Step;
    }
  }

  // ---------------------------------------------------------------- waiters

  /** The events that fire waiters. */
  predicate Fires(e: Event) {
    e.Exit? || e.ExitFlags? || e.RestartFailed?
  }

  lemma WaitStep(cfg: Config, s: State, e: Event)
    ensures var s' := Step(cfg, s, e);
            if Fires(e) then s'.waits == Channels(s.waits.made + 1, s.waits.closed + {s.waitChan}) && s'.waitChan == s.waits.made
            else s'.waits == s.waits && s'.waitChan == s.waitChan
  {
    StepShape(cfg, s, e);
    hide Step;
  }

  lemma {:induction false} RunKeepsWaits(cfg: Config, s: State, es: seq<Event>)
    requires ValidWaits(s)
    ensures ValidWaits(Exec(cfg, s, es))
    decreases |es|
  {
    hide Step;
    if es != [] {
      RunKeepsWaits(cfg, s, es[..|es| - 1]);
      WaitStep(cfg, Exec(cfg, s, es[..|es| - 1]), es[|es| - 1]);
    }
  }

  /** A waiter that took the channel is released by the next stop or restart and by nothing else:
      until then the channel stays open and current. */
  lemma {:induction false} WaiterReleasedIff(cfg: Config, s: State, es: seq<Event>)
    requires ValidWaits(s)
    ensures var s' := Exec(cfg, s, es);
            && (s.waitChan in s'.waits.closed <==> exists i :: 0 <= i < |es| && Fires(es[i]))
            && (s.waitChan !in s'.waits.closed ==> s'.waitChan == s.waitChan)
    decreases |es|
  {
    hide Step, Fires;
    if es != [] {
      var front, e := es[..|es| - 1], es[|es| - 1];
      WaiterReleasedIff(cfg, s, front);
      WaitStep(cfg, Exec(cfg, s, front), e);
      RunKeepsWaits(cfg, s, front);
      if i :| 0 <= i < |es| && Fires(es[i]) {
        if i < |front| { assert Fires(front[i]); }
      }
      if i :| 0 <= i < |front| && Fires(front[i]) {
        assert Fires(es[i]);
      }
    }
  }

  /** The exit code an event sets, whatever it was before. */
  function CodeSet(e: Event): Option<int> {
    match e
    case Start(_) => Some(0)
    case StartFailed(why) => ErrorCode(why)
    case StartFlags(_) => Some(0)
    case Exit(c, _) => Some(c)
    case ExitFlags(c, _) => Some(c)
    case RestartFailed(c) => Some(c)
    case _ => None
  }

  /** Event m is the last to set the exit code, and `code` is what is left of that in the end: a failed
      start without a code of its own leaves no zero. */
  ghost predicate LastSets(es: seq<Event>, m: nat, code: int) {
    && m < |es| && CodeSet(es[m]).Some?
    && (forall k :: m < k < |es| ==> CodeSet(es[k]).None?)
    && code == if CodeSet(es[m]).value == 0 && exists k :: m < k < |es| && es[k].StartFailed? then START_FAILED
               else CodeSet(es[m]).value
  }

  lemma CodeStep(cfg: Config, s: State, e: Event)
    ensures Step(cfg, s, e).exitCode == if CodeSet(e).Some? then CodeSet(e).value
                                        else if e.StartFailed? && s.exitCode == 0 then START_FAILED else s.exitCode
  {
    StepShape(cfg, s, e);
    hide Step;
  }

  lemma {:induction false} LastSetDecides(cfg: Config, s: State, es: seq<Event>, m: nat, code: int)
    requires LastSets(es, m, code)
    ensures Exec(cfg, s, es).exitCode == code
    decreases |es|
  {
    hide Step;
    var n := |es| - 1;
    var front := es[..n];
    CodeStep(cfg, Exec(cfg, s, front), es[n]);
    if m < n {
      assert forall k :: m < k < n ==> front[k] == es[k];
      var v := CodeSet(es[m]).value;
      if v == 0 && exists k :: m < k < n && front[k].StartFailed? {
        var k :| m < k < n && front[k].StartFailed?;
        assert es[k].StartFailed?;
        LastSetDecides(cfg, s, front, m, START_FAILED);
      } else {
        LastSetDecides(cfg, s, front, m, v);
      }
    }
  }

  lemma {:induction false} SomeLastSets(es: seq<Event>, i: nat) returns (m: nat, code: int)
    requires i < |es| && CodeSet(es[i]).Some?
    ensures i <= m && LastSets(es, m, code)
    decreases |es| - i
  {
    if k :| i < k < |es| && CodeSet(es[k]).Some? {
      m, code := SomeLastSets(es, k);
    } else {
      m := i;
      var v := CodeSet(es[i]).value;
      code := if v == 0 && (exists k :: m < k < |es| && es[k].StartFailed?) then START_FAILED else v;
    }
  }

  /** The code a stop or restart is given. */
  function CodeOf(e: Event): int
    requires Fires(e)
  {
    e.code
  }

  /** The codes of failed starts: 127 without the command, 126 if it cannot be invoked, otherwise the one that was
      there, or 128 in place of none. */
  lemma StartFailureCodes(cfg: Config, s: State)
    ensures Step(cfg, s, StartFailed(CommandNotFound)).exitCode == 127
    ensures Step(cfg, s, StartFailed(CannotInvoke)).exitCode == 126
    ensures Step(cfg, s, StartFailed(OtherFailure)).exitCode == if s.exitCode == 0 then 128 else s.exitCode
  {
  }

  /** A waiter that took the channel is released by the first stop or restart, and reads the code then
      or at any time later. It gets the code that event was given if and only if the last event from
      there on to set an exit code left that code. */
  lemma WaiterReadsIff(cfg: Config, s: State, es: seq<Event>, i: nat)
    requires ValidWaits(s)
    requires i < |es| && Fires(es[i]) && forall k :: 0 <= k < i ==> !Fires(es[k])
    ensures s.waitChan !in Exec(cfg, s, es[..i]).waits.closed && s.waitChan in Exec(cfg, s, es[..i + 1]).waits.closed
    ensures Exec(cfg, s, es).exitCode == CodeOf(es[i]) <==> exists m :: i <= m && LastSets(es, m, CodeOf(es[i]))
  {
    WaiterReleasedIff(cfg, s, es[..i]);
    WaiterReleasedIff(cfg, s, es[..i + 1]);
    assert Fires(es[..i + 1][i]);
    assert forall k :: 0 <= k < i ==> es[..i][k] == es[k];
    hide Exec;
    var m, code := SomeLastSets(es, i);
    LastSetDecides(cfg, s, es, m, code);
    forall n | i <= n && LastSets(es, n, CodeOf(es[i])) ensures Exec(cfg, s, es).exitCode == CodeOf(es[i]) {
      LastSetDecides(cfg, s, es, n, CodeOf(es[i]));
    }
  }

  /** In particular when no event after it touches the exit code. */
  lemma UndisturbedWaiterReads(cfg: Config, s: State, es: seq<Event>, i: nat)
    requires i < |es| && Fires(es[i]) && forall k :: i < k < |es| ==> CodeSet(es[k]).None? && !es[k].StartFailed?
    ensures Exec(cfg, s, es).exitCode == CodeOf(es[i])
  {
    assert LastSets(es, i, CodeOf(es[i]));
    LastSetDecides(cfg, s, es, i, CodeOf(es[i]));
  }

  /** But a container that is restarted before the waiter looks shows it a zero, and one whose restart
      cannot find the command shows 127. */
  lemma WaiterMissesTheCode(cfg: Config, s: State, code: int, restart: bool, pid: int)
    requires ValidWaits(s)
    ensures var s' := Exec(cfg, s, [Exit(code, restart), Start(pid)]);
            s.waitChan in s'.waits.closed && s'.exitCode == 0
    ensures var s' := Exec(cfg, s, [Exit(code, restart), StartFailed(CommandNotFound)]);
            s.waitChan in s'.waits.closed && s'.exitCode == 127
  {
    var start, fail := [Exit(code, restart), Start(pid)], [Exit(code, restart), StartFailed(CommandNotFound)];
    assert Fires(start[0]) && Fires(fail[0]);
    WaiterReleasedIff(cfg, s, start);
    WaiterReleasedIff(cfg, s, fail);
    assert LastSets(start, 1, 0) && LastSets(fail, 1, 127);
    LastSetDecides(cfg, s, start, 1, 0);
    LastSetDecides(cfg, s, fail, 1, 127);
  }

  // ---------------------------------------------------------------- what the health status means

  /** The results accepted since the last (re)start, and over the life of the Health object. */
  function Results(cfg: Config, es: seq<Event>, sinceInit: bool): seq<ProbeResult> {
    if es == [] then []
    else
      var front := es[..|es| - 1];
      match es[|es| - 1]
      case Start(_) => if sinceInit && cfg.hasProbe then [] else Results(cfg, front, sinceInit)
      case ResetHealth => if sinceInit && cfg.hasProbe then [] else Results(cfg, front, sinceInit)
      case Probe(channel, r) =>
        Results(cfg, front, sinceInit) + if Accepted(Exec(cfg, CREATED, front), channel) then [r] else []
      case _ => Results(cfg, front, sinceInit)
  }

  /** The length of the final run of failures. */
  function TrailingFailures(rs: seq<ProbeResult>): nat {
    if rs == [] || rs[|rs| - 1].exitCode == 0 then 0 else 1 + TrailingFailures(rs[..|rs| - 1])
  }

  predicate AnySuccess(rs: seq<ProbeResult>) {
    exists i :: 0 <= i < |rs| && rs[i].exitCode == 0
  }

  /** The status that a list of results stands for. */
  function StatusOf(cfg: Config, rs: seq<ProbeResult>): Status {
    if TrailingFailures(rs) >= Retries(cfg) then Unhealthy
    else if AnySuccess(rs) then Healthy
    else Status.Starting
  }

  function LastFive(rs: seq<ProbeResult>): seq<ProbeResult> {
    if |rs| <= MAX_LOG then rs else rs[|rs| - MAX_LOG..]
  }

  predicate Reflects(cfg: Config, h: Health, since: seq<ProbeResult>, life: seq<ProbeResult>) {
    && h.failingStreak == TrailingFailures(since)
    && h.status == StatusOf(cfg, since)
    && h.log == LastFive(life)
  }

  lemma TrailingAppend(rs: seq<ProbeResult>, r: ProbeResult)
    ensures TrailingFailures(rs + [r]) == if r.exitCode == 0 then 0 else TrailingFailures(rs) + 1
    ensures AnySuccess(rs + [r]) <==> AnySuccess(rs) || r.exitCode == 0
  {
    var all := rs + [r];
    assert all[..|rs|] == rs && all[|rs|] == r;
    if i :| 0 <= i < |rs| && rs[i].exitCode == 0 { assert all[i].exitCode == 0; }
  }

  lemma LastFiveAppend(rs: seq<ProbeResult>, r: ProbeResult)
    ensures Logged(LastFive(rs), r) == LastFive(rs + [r])
  {
  }

  lemma JudgeReflects(cfg: Config, h: Health, since: seq<ProbeResult>, life: seq<ProbeResult>, r: ProbeResult)
    requires Reflects(cfg, h, since, life)
    ensures Reflects(cfg, Judge(cfg, h, r), since + [r], life + [r])
  {
    TrailingAppend(since, r);
    LastFiveAppend(life, r);
    hide TrailingFailures, AnySuccess, LastFive, Logged, Retries;
  }

  /** In every run, the health status is a function of the results accepted since the last start: the
      streak is the final run of failures, Unhealthy means it has reached the limit, Starting means no
      success yet and the limit not reached; and the log is the last five results ever accepted. */
  lemma {:induction false} HealthReflectsResults(cfg: Config, es: seq<Event>)
    ensures var s := Exec(cfg, CREATED, es);
            if s.health.Some? then cfg.hasProbe && Reflects(cfg, s.health.value, Results(cfg, es, true), Results(cfg, es, false))
            else Results(cfg, es, true) == [] && Results(cfg, es, false) == []
    decreases |es|
  {
    if es != [] {
      var front, e := es[..|es| - 1], es[|es| - 1];
      var s := Exec(cfg, CREATED, front);
      HealthReflectsResults(cfg, front);
      if e.Probe? && Accepted(s, e.channel) {
        JudgeReflects(cfg, s.health.value, Results(cfg, front, true), Results(cfg, front, false), e.result);
      } else {
        OtherEvents(cfg, s, e);
        if Resets(e) && cfg.hasProbe { NothingYet(cfg); }
        if e.Probe? { assert Results(cfg, front, true) + [] == Results(cfg, front, true); }
        hide Step, Reflects;
        if s.health.Some? { SameReflection(cfg, s.health.value, Step(cfg, s, e).health.value, Results(cfg, front, true), Results(cfg, front, false)); }
      }
    }
  }

  lemma {:induction false} TrailingIsLength(rs: seq<ProbeResult>, n: nat)
    ensures TrailingFailures(rs) >= n <==> n <= |rs| && forall i :: |rs| - n <= i < |rs| ==> rs[i].exitCode != 0
    decreases |rs|
  {
    if rs != [] && n > 0 {
      var front := rs[..|rs| - 1];
      TrailingIsLength(front, n - 1);
      assert forall i :: 0 <= i < |front| ==> front[i] == rs[i];
      if n <= |rs| && forall i :: |rs| - n <= i < |rs| ==> rs[i].exitCode != 0 {
        assert forall i :: |front| - (n - 1) <= i < |front| ==> front[i].exitCode != 0;
      }
      if TrailingFailures(rs) >= n {
        assert forall i :: |front| - (n - 1) <= i < |front| ==> rs[i].exitCode != 0;
      }
    }
  }

  /** What the status says, in every run: Unhealthy exactly if the last results, as many as the configured
      retries, or three without any, were failures; Healthy exactly if not and one succeeded. The log is
      what came last, five at most. */
  lemma HealthMeans(cfg: Config, es: seq<Event>)
    requires Exec(cfg, CREATED, es).health.Some?
    ensures var h, since, life := Exec(cfg, CREATED, es).health.value, Results(cfg, es, true), Results(cfg, es, false);
            var n := if cfg.retries > 0 then cfg.retries else 3;
            && (h.status == Unhealthy <==> n <= |since| && forall i :: |since| - n <= i < |since| ==> since[i].exitCode != 0)
            && (h.status == Healthy <==> h.status != Unhealthy && exists i :: 0 <= i < |since| && since[i].exitCode == 0)
            && |h.log| <= 5 && (|h.log| < 5 ==> h.log == life) && |h.log| <= |life| && h.log == life[|life| - |h.log|..]
  {
    HealthReflectsResults(cfg, es);
    hide Exec, Results, Reflects;
    StatusMeans(cfg, Exec(cfg, CREATED, es).health.value, Results(cfg, es, true), Results(cfg, es, false));
    LogMeans(cfg, Exec(cfg, CREATED, es).health.value, Results(cfg, es, true), Results(cfg, es, false));
  }

  lemma StatusMeans(cfg: Config, h: Health, since: seq<ProbeResult>, life: seq<ProbeResult>)
    requires Reflects(cfg, h, since, life)
    ensures var n := if cfg.retries > 0 then cfg.retries else 3;
            && (h.status == Unhealthy <==> n <= |since| && forall i :: |since| - n <= i < |since| ==> since[i].exitCode != 0)
            && (h.status == Healthy <==> h.status != Unhealthy && exists i :: 0 <= i < |since| && since[i].exitCode == 0)
  {
    TrailingIsLength(since, if cfg.retries > 0 then cfg.retries else 3);
    hide TrailingFailures, LastFive;
  }

  lemma LogMeans(cfg: Config, h: Health, since: seq<ProbeResult>, life: seq<ProbeResult>)
    requires Reflects(cfg, h, since, life)
    ensures |h.log| <= 5 && (|h.log| < 5 ==> h.log == life) && |h.log| <= |life| && h.log == life[|life| - |h.log|..]
  {
    hide TrailingFailures, StatusOf;
  }

  lemma NothingYet(cfg: Config)
    ensures TrailingFailures([]) == 0 && StatusOf(cfg, []) == Status.Starting && LastFive([]) == []
  {
  }

  lemma SameReflection(cfg: Config, h: Health, h': Health, since: seq<ProbeResult>, life: seq<ProbeResult>)
    requires Reflects(cfg, h, since, life)
    ensures h'.status == h.status && h'.failingStreak == h.failingStreak && h'.log == h.log ==> Reflects(cfg, h', since, life)
    ensures h'.status == Status.Starting && h'.failingStreak == 0 && h'.log == h.log ==> Reflects(cfg, h', [], life)
  {
    NothingYet(cfg);
  }

  /** What events other than accepted results do to the status, the streak and the log. */
  lemma OtherEvents(cfg: Config, s: State, e: Event)
    requires !(e.Probe? && Accepted(s, e.channel)) && (s.health.Some? ==> cfg.hasProbe)
    ensures var s' := Step(cfg, s, e);
            && (s'.health.Some? <==> s.health.Some? || (Resets(e) && cfg.hasProbe))
            && (s.health.Some? ==>
                  && s'.health.value.log == s.health.value.log
                  && if Resets(e) then s'.health.value.status == Status.Starting && s'.health.value.failingStreak == 0
                     else s'.health.value.status == s.health.value.status && s'.health.value.failingStreak == s.health.value.failingStreak)
            && (s.health.None? && s'.health.Some? ==> Reflects(cfg, s'.health.value, [], []))
  {
    NothingYet(cfg);
    if !e.Probe? {
      StepShape(cfg, s, e);
      hide Step;
    }
  }
}

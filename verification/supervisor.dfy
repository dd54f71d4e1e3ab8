/**
 The Minecraft process supervisor (internal/mc/instance.go).

 `Inst` is the part of the instance that its mutex guards, and the functions
 ending in `Block` are its critical sections. The class `Instance` holds the
 same fields and is proved to run exactly these sections. `Sys` puts an
 instance among its actors: the child processes, one waiter goroutine per
 process, and the Stop and Kill calls that are under way. Every interleaving
 is a sequence of events, and the invariant below holds after each of them.
 Times are milliseconds.
 */
module Supervisor {
  import opened Prelude
  import opened Windows

  datatype State = Stopped | Starting | Running | Stopping | Crashed

  datatype LastExit = NotExited | Clean | Crash

  /** Index of a process among all that were ever started; also names its `exited` channel. */
  type Gen = nat

  datatype Inst = Inst(
    state: State,
    proc: Option<Gen>,
    exited: Gen,
    stopRequested: bool,
    lastExit: LastExit,
    restartTimes: seq<int>,
    players: set<string>,
    version: string,
    software: string,
    autoRestart: bool)

  /** What the regular expressions and substring tests find in one console line. */
  datatype Line = Line(
    version: Option<string>,
    software: Option<string>,
    done: bool,
    stopping: bool,
    joined: Option<string>,
    left: Option<string>)

  const RESTART_WINDOW := 600_000
  const MAX_RESTARTS := 3
  const RESTART_DELAY := 10_000

  predicate Idle(st: State) { st.Stopped? || st.Crashed? }

  // --- critical sections ------------------------------------------------------

  /** Start. `ready` stands for everything that can refuse after the state check: EULA, argv, port, pipes, spawn. */
  function StartBlock(i: Inst, ready: bool, gen: Gen): (Inst, bool) {
    if !Idle(i.state) || !ready then (i, false)
    else (i.(state := Starting, proc := Some(gen), exited := gen, stopRequested := false,
             lastExit := NotExited, players := {}), true)
  }

  function VersionFields(i: Inst, l: Line): Inst {
    var named := if l.version.Some? then i.(version := l.version.value, software := "Vanilla") else i;
    if l.software.Some? then named.(software := l.software.value) else named
  }

  function AfterDone(st: State, l: Line): State {
    if st.Starting? && l.done then Running else st
  }

  function AfterStopping(st: State, l: Line): State {
    if st.Running? && l.stopping then Stopping else st
  }

  function PlayersAfter(players: set<string>, l: Line): set<string> {
    var joined := if l.joined.Some? then players + {l.joined.value} else players;
    if l.left.Some? then joined - {l.left.value} else joined
  }

  /** handleLine, with whether the change is announced. */
  function LineBlock(i: Inst, l: Line): (Inst, bool) {
    var mid := AfterDone(i.state, l);
    var end := AfterStopping(mid, l);
    (VersionFields(i, l).(state := end, players := PlayersAfter(i.players, l)),
     l.version.Some? || l.software.Some? || mid != i.state || end != mid || l.joined.Some? || l.left.Some?)
  }

  predicate CrashedExit(i: Inst, failed: bool) {
    !i.stopRequested && (failed || i.state.Starting? || i.state.Running?)
  }

  predicate MayRestart(i: Inst, failed: bool, now: int) {
    CrashedExit(i, failed) && i.autoRestart && CountAfter(i.restartTimes, now - RESTART_WINDOW) < MAX_RESTARTS
  }

  /** The locked part of waitForExit. The clock is read for the cutoff (`now`) and again for the record (`stamp`). */
  function ExitBlock(i: Inst, failed: bool, now: int, stamp: int): (Inst, bool) {
    var crashed := CrashedExit(i, failed);
    var again := MayRestart(i, failed, now);
    (i.(state := if crashed then Crashed else Stopped,
        lastExit := if crashed then Crash else Clean,
        proc := None,
        players := {},
        restartTimes := if again then i.restartTimes + [stamp] else i.restartTimes), again)
  }

  /** Stop, returning the generation whose channel the caller then waits on. */
  function StopBlock(i: Inst): (Inst, Option<Gen>) {
    if i.state.Running? || i.state.Starting? then (i.(stopRequested := true, state := Stopping), Some(i.exited))
    else (i, None)
  }

  function KillBlock(i: Inst): (Inst, Option<Gen>) {
    if i.proc.None? then (i, None) else (i.(stopRequested := true), Some(i.exited))
  }

  // --- the instance object ----------------------------------------------------

  class Instance {
    var state: State
    var proc: Option<Gen>
    var exited: Gen
    var stopRequested: bool
    var lastExit: LastExit
    var restartTimes: seq<int>
    var players: set<string>
    var version: string
    var software: string
    var autoRestart: bool

    ghost function Fields(): Inst reads this {
      Inst(state, proc, exited, stopRequested, lastExit, restartTimes, players, version, software, autoRestart)
    }

    constructor (autoRestart: bool)
      ensures Fields() == InitialInst(autoRestart)
    {
      state, proc, exited, stopRequested, lastExit := Stopped, None, 0, false, NotExited;
      restartTimes, players, version, software := [], {}, "", "";
      this.autoRestart := autoRestart;
    }

    method Start(ready: bool, gen: Gen) returns (ok: bool)
      modifies this
      ensures (Fields(), ok) == StartBlock(old(Fields()), ready, gen)
    {
      if !state.Stopped? && !state.Crashed? {
        return false;
      }
      if !ready {
        return false;
      }
      proc := Some(gen);
      state := Starting;
      stopRequested := false;
      lastExit := NotExited;
      players := {};
      exited := gen;
      return true;
    }

    method HandleLine(l: Line) returns (changed: bool)
      modifies this
      ensures (Fields(), changed) == LineBlock(old(Fields()), l)
    {
      changed := false;
      if l.version.Some? {
        version := l.version.value;
        software := "Vanilla";
        changed := true;
      }
      if l.software.Some? {
        software := l.software.value;
        changed := true;
      }
      if state.Starting? && l.done {
        state := Running;
        changed := true;
      }
      if state.Running? && l.stopping {
        state := Stopping;
        changed := true;
      }
      if l.joined.Some? {
        players := players + {l.joined.value};
        changed := true;
      }
      if l.left.Some? {
        players := players - {l.left.value};
        changed := true;
      }
    }

    method RecentRestarts(now: int) returns (n: nat)
      ensures n == CountAfter(restartTimes, now - RESTART_WINDOW)
    {
      n := 0;
      for k := 0 to |restartTimes|
        invariant n == CountAfter(restartTimes[..k], now - RESTART_WINDOW)
      {
        assert restartTimes[..k + 1][..k] == restartTimes[..k];
        if restartTimes[k] > now - RESTART_WINDOW {
          n := n + 1;
        }
      }
      assert restartTimes[..|restartTimes|] == restartTimes;
    }

    method HandleExit(failed: bool, now: int, stamp: int) returns (again: bool)
      modifies this
      ensures (Fields(), again) == ExitBlock(old(Fields()), failed, now, stamp)
    {
      var wasRequested, prevState := stopRequested, state;
      proc := None;
      players := {};
      var crashed := !wasRequested && (failed || prevState.Starting? || prevState.Running?);
      if crashed {
        state, lastExit := Crashed, Crash;
      } else {
        state, lastExit := Stopped, Clean;
      }
      var recent := RecentRestarts(now);
      again := crashed && autoRestart && recent < MAX_RESTARTS;
      if again {
        restartTimes := restartTimes + [stamp];
      }
    }

    method Stop() returns (waitOn: Option<Gen>)
      modifies this
      ensures (Fields(), waitOn) == StopBlock(old(Fields()))
    {
      if !state.Running? && !state.Starting? {
        return None;
      }
      stopRequested := true;
      state := Stopping;
      return Some(exited);
    }

    method Kill() returns (waitOn: Option<Gen>)
      modifies this
      ensures (Fields(), waitOn) == KillBlock(old(Fields()))
    {
      if proc.None? {
        return None;
      }
      stopRequested := true;
      return Some(exited);
    }
  }

  function InitialInst(autoRestart: bool): Inst {
    Inst(Stopped, None, 0, false, NotExited, [], {}, "", "", autoRestart)
  }

  // --- the instance among its actors --------------------------------------------

  /** The operating system's view of a child: it is reaped when Wait collects it. */
  datatype Child = Alive | Zombie(failed: bool) | Reaped(failed: bool)

  /** Program counter of the goroutine that runs waitForExit for one process. */
  datatype Waiter = InWait | ChannelClosed | Sleeping(until: int) | Finished

  /** `requested` and `recorded` are history: a Stop or Kill captured it; its exit recorded an auto-restart. */
  datatype Process = Process(child: Child, waiter: Waiter, requested: bool, recorded: bool)

  datatype Phase = Graceful | Interrupted | Killing | Returned

  /** A Stop or Kill call that got past its checks and waits on the channel of `gen`. */
  datatype Call = Call(gen: Gen, phase: Phase)

  datatype Sys = Sys(inst: Inst, clock: int, procs: seq<Process>, calls: seq<Call>)

  datatype Event =
    | StartCalled(ready: bool)
    | Printed(from: Gen, line: Line)
    | ChildExits(gen: Gen, failed: bool)
    | WaitReturns(gen: Gen)
    | ExitHandled(gen: Gen, lag: nat)
    | RestartFires(gen: Gen, ready: bool)
    | StopCalled
    | KillCalled
    | CallTimesOut(call: nat)
    | CallReturns(call: nat)
    | Configured(autoRestart: bool)
    | ClockMoves(elapsed: nat)

  function Initial(autoRestart: bool, clock: int): Sys {
    Sys(InitialInst(autoRestart), clock, [], [])
  }

  /** Which events can happen. The pump of any process, however old, may still print. */
  predicate Enabled(s: Sys, e: Event) {
    match e
    case StartCalled(_) => true
    case Printed(from, _) => from < |s.procs|
    case ChildExits(g, _) => g < |s.procs| && s.procs[g].child.Alive?
    case WaitReturns(g) => g < |s.procs| && s.procs[g].child.Zombie? && s.procs[g].waiter.InWait?
    case ExitHandled(g, _) => g < |s.procs| && s.procs[g].waiter.ChannelClosed? && s.procs[g].child.Reaped?
    case RestartFires(g, _) => g < |s.procs| && s.procs[g].waiter.Sleeping? && s.procs[g].waiter.until <= s.clock
    case StopCalled => true
    case KillCalled => true
    case CallTimesOut(c) => c < |s.calls| && (s.calls[c].phase.Graceful? || s.calls[c].phase.Interrupted?)
    case CallReturns(c) =>
      c < |s.calls| && s.calls[c].gen < |s.procs| && !s.calls[c].phase.Returned? &&
      ChannelIsClosed(s.procs[s.calls[c].gen])
    case Configured(_) => true
    case ClockMoves(_) => true
  }

  predicate ChannelIsClosed(p: Process) { !p.waiter.InWait? }

  function Launch(s: Sys, ready: bool): Sys {
    var (inst, ok) := StartBlock(s.inst, ready, |s.procs|);
    s.(inst := inst, procs := if ok then s.procs + [Process(Alive, InWait, false, false)] else s.procs)
  }

  function Capture(s: Sys, r: (Inst, Option<Gen>), phase: Phase): Sys {
    if r.1.None? || r.1.value >= |s.procs| then s.(inst := r.0)
    else s.(inst := r.0,
            procs := s.procs[r.1.value := s.procs[r.1.value].(requested := true)],
            calls := s.calls + [Call(r.1.value, phase)])
  }

  function Next(s: Sys, e: Event): Sys
    requires Enabled(s, e)
  {
    match e
    case StartCalled(ready) => Launch(s, ready)
    case Printed(_, line) => s.(inst := LineBlock(s.inst, line).0)
    case ChildExits(g, failed) => s.(procs := s.procs[g := s.procs[g].(child := Zombie(failed))])
    case WaitReturns(g) =>
      s.(procs := s.procs[g := s.procs[g].(child := Reaped(s.procs[g].child.failed), waiter := ChannelClosed)])
    case ExitHandled(g, lag) =>
      var stamp := s.clock + lag;
      var (inst, again) := ExitBlock(s.inst, s.procs[g].child.failed, s.clock, stamp);
      var waiter := if again then Sleeping(stamp + RESTART_DELAY) else Finished;
      s.(inst := inst, clock := stamp, procs := s.procs[g := s.procs[g].(waiter := waiter, recorded := again)])
    case RestartFires(g, ready) =>
      Launch(s.(procs := s.procs[g := s.procs[g].(waiter := Finished)]), ready)
    case StopCalled => Capture(s, StopBlock(s.inst), Graceful)
    case KillCalled => Capture(s, KillBlock(s.inst), Killing)
    case CallTimesOut(c) =>
      s.(calls := s.calls[c := s.calls[c].(phase := if s.calls[c].phase.Graceful? then Interrupted else Killing)])
    case CallReturns(c) => s.(calls := s.calls[c := s.calls[c].(phase := Returned)])
    case Configured(auto) => s.(inst := s.inst.(autoRestart := auto))
    case ClockMoves(elapsed) => s.(clock := s.clock + elapsed)
  }

  predicate Legal(s: Sys, events: seq<Event>)
    decreases |events|
  {
    events == [] || (Enabled(s, events[0]) && Legal(Next(s, events[0]), events[1..]))
  }

  function Run(s: Sys, events: seq<Event>): Sys
    requires Legal(s, events)
    decreases |events|
  {
    if events == [] then s else Run(Next(s, events[0]), events[1..])
  }

  // --- the invariant ------------------------------------------------------------

  predicate Held(p: Process) { p.waiter.InWait? || p.waiter.ChannelClosed? }

  /** The state names an active server exactly while a process is held, and it is the newest one. */
  predicate HolderAgrees(s: Sys) {
    && (s.inst.proc.Some? <==> !Idle(s.inst.state))
    && (s.inst.proc.Some? ==> s.inst.proc.value + 1 == |s.procs| && s.inst.exited == s.inst.proc.value)
    && forall g: nat :: g < |s.procs| ==> (Held(s.procs[g]) <==> s.inst.proc == Some(g))
  }

  predicate ReapedOnceWaitReturned(s: Sys) {
    forall g: nat :: g < |s.procs| ==> (s.procs[g].child.Reaped? <==> ChannelIsClosed(s.procs[g]))
  }

  predicate RequestsAgree(s: Sys) {
    && (forall g: nat :: s.inst.proc == Some(g) && g < |s.procs| ==> s.inst.stopRequested == s.procs[g].requested)
    && forall g: nat :: g < |s.procs| ==> !(s.procs[g].requested && s.procs[g].recorded)
  }

  predicate RecordsAgree(s: Sys) {
    forall g: nat :: g < |s.procs| && Held(s.procs[g]) ==> !s.procs[g].recorded
  }

  predicate CallsSound(s: Sys) {
    forall c: nat :: c < |s.calls| ==>
      && s.calls[c].gen < |s.procs|
      && s.procs[s.calls[c].gen].requested
      && (s.calls[c].phase.Returned? ==> s.procs[s.calls[c].gen].child.Reaped?)
  }

  predicate Inv(s: Sys) {
    && HolderAgrees(s)
    && ReapedOnceWaitReturned(s)
    && RequestsAgree(s)
    && RecordsAgree(s)
    && CallsSound(s)
    && Metered(s.inst.restartTimes, RESTART_WINDOW, MAX_RESTARTS)
  }

  lemma InitialInv(autoRestart: bool, clock: int)
    ensures Inv(Initial(autoRestart, clock))
  {
  }

  lemma LaunchKeepsInv(s: Sys, ready: bool)
    requires Inv(s)
    ensures Inv(Launch(s, ready))
  {
  }

  /** A console line, whichever process printed it, cannot make the state idle or end idleness. */
  lemma LineKeepsHolding(i: Inst, l: Line)
    ensures Idle(LineBlock(i, l).0.state) <==> Idle(i.state)
    ensures Idle(i.state) ==> LineBlock(i, l).0.state == i.state
    ensures LineBlock(i, l).0 == i.(version := LineBlock(i, l).0.version, software := LineBlock(i, l).0.software,
                                    state := LineBlock(i, l).0.state, players := PlayersAfter(i.players, l))
  {
  }

  lemma PrintedKeepsInv(s: Sys, from: Gen, line: Line)
    requires Inv(s) && Enabled(s, Printed(from, line))
    ensures Inv(Next(s, Printed(from, line)))
  {
    LineKeepsHolding(s.inst, line);
  }

  lemma ExitKeepsMeter(s: Sys, g: Gen, lag: nat)
    requires Inv(s) && Enabled(s, ExitHandled(g, lag))
    ensures Metered(Next(s, ExitHandled(g, lag)).inst.restartTimes, RESTART_WINDOW, MAX_RESTARTS)
  {
    if MayRestart(s.inst, s.procs[g].child.failed, s.clock) {
      MeteredExtends(s.inst.restartTimes, s.clock, s.clock + lag, RESTART_WINDOW, MAX_RESTARTS);
    }
  }

  lemma ExitKeepsHolder(s: Sys, g: Gen, lag: nat)
    requires HolderAgrees(s) && ReapedOnceWaitReturned(s) && Enabled(s, ExitHandled(g, lag))
    ensures s.inst.proc == Some(g)
    ensures HolderAgrees(Next(s, ExitHandled(g, lag))) && ReapedOnceWaitReturned(Next(s, ExitHandled(g, lag)))
  {
    assert Held(s.procs[g]);
  }

  lemma ExitKeepsRequests(s: Sys, g: Gen, lag: nat)
    requires Inv(s) && Enabled(s, ExitHandled(g, lag)) && s.inst.proc == Some(g)
    ensures RequestsAgree(Next(s, ExitHandled(g, lag))) && CallsSound(Next(s, ExitHandled(g, lag)))
  {
  }

  lemma ExitKeepsInv(s: Sys, g: Gen, lag: nat)
    requires Inv(s) && Enabled(s, ExitHandled(g, lag))
    ensures Inv(Next(s, ExitHandled(g, lag)))
  {
    ExitKeepsHolder(s, g, lag);
    ExitKeepsRequests(s, g, lag);
    ExitKeepsMeter(s, g, lag);
    var t := Next(s, ExitHandled(g, lag));
    assert forall h: nat :: h < |t.procs| ==> !Held(t.procs[h]);
  }

  lemma CaptureKeepsInv(s: Sys, e: Event)
    requires Inv(s) && (e.StopCalled? || e.KillCalled?)
    ensures Inv(Next(s, e))
  {
    if s.inst.proc.Some? {
      assert Held(s.procs[s.inst.proc.value]);
    }
  }

  lemma ChildStepKeepsInv(s: Sys, e: Event)
    requires Inv(s) && Enabled(s, e) && (e.ChildExits? || e.WaitReturns?)
    ensures Inv(Next(s, e))
  {
  }

  lemma RestartKeepsInv(s: Sys, g: Gen, ready: bool)
    requires Inv(s) && Enabled(s, RestartFires(g, ready))
    ensures Inv(Next(s, RestartFires(g, ready)))
  {
    var woken := s.(procs := s.procs[g := s.procs[g].(waiter := Finished)]);
    assert Inv(woken);
    LaunchKeepsInv(woken, ready);
  }

  lemma StepKeepsInv(s: Sys, e: Event)
    requires Inv(s) && Enabled(s, e)
    ensures Inv(Next(s, e))
  {
    match e
    case StartCalled(ready) => LaunchKeepsInv(s, ready);
    case Printed(from, line) => PrintedKeepsInv(s, from, line);
    case ChildExits(_, _) => ChildStepKeepsInv(s, e);
    case WaitReturns(_) => ChildStepKeepsInv(s, e);
    case ExitHandled(g, lag) => ExitKeepsInv(s, g, lag);
    case RestartFires(g, ready) => RestartKeepsInv(s, g, ready);
    case StopCalled => CaptureKeepsInv(s, e);
    case KillCalled => CaptureKeepsInv(s, e);
    case _ =>
  }

  lemma {:induction false} RunKeepsInv(s: Sys, events: seq<Event>)
    requires Inv(s) && Legal(s, events)
    ensures Inv(Run(s, events))
    decreases |events|
  {
    if events != [] {
      StepKeepsInv(s, events[0]);
      RunKeepsInv(Next(s, events[0]), events[1..]);
    }
  }

  // --- what every run keeps ---------------------------------------------------

  /** A process is held exactly while the server counts as active, and no two children are ever unreaped. */
  lemma AtMostOneUnreapedChild(autoRestart: bool, clock: int, events: seq<Event>)
    requires Legal(Initial(autoRestart, clock), events)
    ensures var s := Run(Initial(autoRestart, clock), events);
            && (s.inst.proc.Some? <==> s.inst.state.Starting? || s.inst.state.Running? || s.inst.state.Stopping?)
            && forall g: nat, h: nat ::
                 (g < |s.procs| && h < |s.procs| && !s.procs[g].child.Reaped? && !s.procs[h].child.Reaped?)
                 ==> g == h && s.inst.proc == Some(g)
  {
    InitialInv(autoRestart, clock);
    RunKeepsInv(Initial(autoRestart, clock), events);
  }

  /** A Stop or Kill that has returned captured a generation whose process is reaped. */
  lemma ReturnedCallsSawTheirProcessReaped(autoRestart: bool, clock: int, events: seq<Event>, c: nat)
    requires Legal(Initial(autoRestart, clock), events)
    requires c < |Run(Initial(autoRestart, clock), events).calls|
    requires Run(Initial(autoRestart, clock), events).calls[c].phase.Returned?
    ensures var s := Run(Initial(autoRestart, clock), events);
            s.calls[c].gen < |s.procs| && s.procs[s.calls[c].gen].child.Reaped?
  {
    InitialInv(autoRestart, clock);
    RunKeepsInv(Initial(autoRestart, clock), events);
  }

  /** No half-open ten-minute window holds more than three recorded auto-restarts. */
  lemma RestartBudgetHolds(autoRestart: bool, clock: int, events: seq<Event>, from: int)
    requires Legal(Initial(autoRestart, clock), events)
    ensures CountIn(Run(Initial(autoRestart, clock), events).inst.restartTimes, from, RESTART_WINDOW) <= MAX_RESTARTS
  {
    InitialInv(autoRestart, clock);
    RunKeepsInv(Initial(autoRestart, clock), events);
    MeteredBoundsEveryWindow(Run(Initial(autoRestart, clock), events).inst.restartTimes,
                             from, RESTART_WINDOW, MAX_RESTARTS);
  }

  /** A generation that a Stop or Kill captured never records an auto-restart. */
  lemma RequestedStopsAreNotRestarted(autoRestart: bool, clock: int, events: seq<Event>, g: Gen)
    requires Legal(Initial(autoRestart, clock), events)
    requires g < |Run(Initial(autoRestart, clock), events).procs|
    requires Run(Initial(autoRestart, clock), events).procs[g].requested
    ensures !Run(Initial(autoRestart, clock), events).procs[g].recorded
  {
    InitialInv(autoRestart, clock);
    RunKeepsInv(Initial(autoRestart, clock), events);
  }

  predicate Edge(a: State, b: State) {
    match a
    case Stopped => b.Starting?
    case Crashed => b.Starting?
    case Starting => !b.Starting?
    case Running => b.Stopping? || b.Stopped? || b.Crashed?
    case Stopping => b.Stopped? || b.Crashed?
  }

  /** Which event may take which edge: launches leave idleness, exits enter it, lines and Stop move between. */
  predicate Causes(e: Event, a: State, b: State) {
    match e
    case StartCalled(ready) => ready && Idle(a)
    case RestartFires(_, ready) => ready && Idle(a)
    case ExitHandled(_, _) => Idle(b)
    case Printed(_, l) => (a.Starting? && l.done) || (a.Running? && b.Stopping? && l.stopping)
    case StopCalled => b.Stopping?
    case _ => false
  }

  lemma StepsFollowTheGraph(s: Sys, e: Event)
    requires Inv(s) && Enabled(s, e)
    ensures var t := Next(s, e);
            s.inst.state == t.inst.state || (Edge(s.inst.state, t.inst.state) && Causes(e, s.inst.state, t.inst.state))
  {
    if e.ExitHandled? {
      assert Held(s.procs[e.gen]);
    }
  }

  /** How an exit is judged, in terms of what happened to that generation rather than of the fields. */
  lemma ExitVerdict(s: Sys, g: Gen, lag: nat)
    requires Inv(s) && Enabled(s, ExitHandled(g, lag))
    ensures var t := Next(s, ExitHandled(g, lag));
            && (t.inst.state.Crashed? <==>
                 !s.procs[g].requested && (s.procs[g].child.failed || !s.inst.state.Stopping?))
            && (t.inst.state.Stopped? <==> t.inst.lastExit.Clean?)
            && t.inst.proc.None? && t.inst.players == {}
            && (t.procs[g].recorded <==> t.inst.restartTimes == s.inst.restartTimes + [t.clock])
            && (!t.procs[g].recorded ==> t.inst.restartTimes == s.inst.restartTimes)
            && (t.procs[g].recorded ==> t.inst.state.Crashed? && s.inst.autoRestart)
  {
  }

  /** A launched server starts with a clean slate and nobody's stop request. */
  lemma LaunchStartsClean(s: Sys, e: Event)
    requires Inv(s) && Enabled(s, e) && |Next(s, e).procs| > |s.procs|
    ensures var t := Next(s, e);
            && t.inst.state.Starting? && t.inst.proc == Some(|s.procs|) && t.inst.players == {}
            && !t.inst.stopRequested && t.inst.lastExit.NotExited?
            && t.inst.restartTimes == s.inst.restartTimes
            && (forall g: nat :: g < |s.procs| ==> t.procs[g].child.Reaped?)
  {
  }

  function PlayersAfterLines(players: set<string>, lines: seq<Line>): set<string> {
    if lines == [] then players
    else PlayersAfter(PlayersAfterLines(players, lines[..|lines| - 1]), lines[|lines| - 1])
  }

  /** The last thing the console said about a player: a join (true), a departure (false) or nothing. */
  function LastMention(lines: seq<Line>, p: string): Option<bool> {
    if lines == [] then None
    else
      var l := lines[|lines| - 1];
      if l.left == Some(p) then Some(false)
      else if l.joined == Some(p) then Some(true)
      else LastMention(lines[..|lines| - 1], p)
  }

  lemma {:induction false} OnlineIffLastMentionIsAJoin(players: set<string>, lines: seq<Line>, p: string)
    ensures p in PlayersAfterLines(players, lines) <==>
              LastMention(lines, p) == Some(true) || (LastMention(lines, p).None? && p in players)
  {
    if lines != [] {
      OnlineIffLastMentionIsAJoin(players, lines[..|lines| - 1], p);
    }
  }

  /** Reaping is final: later steps neither revive a reaped child nor reopen its channel. */
  lemma {:induction false} ReapedStaysReaped(s: Sys, events: seq<Event>, g: Gen)
    requires Inv(s) && Legal(s, events)
    requires g < |s.procs| && s.procs[g].child.Reaped?
    ensures g < |Run(s, events).procs| && Run(s, events).procs[g].child == s.procs[g].child
    decreases |events|
  {
    if events != [] {
      StepKeepsInv(s, events[0]);
      assert Next(s, events[0]).procs[g].child == s.procs[g].child;
      ReapedStaysReaped(Next(s, events[0]), events[1..], g);
    }
  }

  // --- three races the code leaves open, with their exact conditions -------------

  /**
   Restart runs Start right after Stop returned (manager.go:315-324). Start gets
   past its state check exactly when the newest process is no longer held; if
   nothing was launched since the Stop, exactly when waitForExit has finished
   its locked part.
   */
  lemma RestartPassesIffExitWasHandled(s: Sys, c: nat)
    requires Inv(s) && c < |s.calls| && s.calls[c].phase.Returned?
    ensures StartBlock(s.inst, true, |s.procs|).1 <==> !Held(s.procs[|s.procs| - 1])
    ensures s.calls[c].gen + 1 == |s.procs| ==>
              (Held(s.procs[|s.procs| - 1]) <==> s.procs[s.calls[c].gen].waiter.ChannelClosed?)
  {
  }

  /** A sleeping auto-restart launches a process exactly when the server is idle as it wakes, whoever made it so. */
  lemma PendingRestartFiresIffIdle(s: Sys, g: Gen, ready: bool)
    requires Inv(s) && Enabled(s, RestartFires(g, ready))
    ensures |Next(s, RestartFires(g, ready)).procs| > |s.procs| <==> ready && Idle(s.inst.state)
  {
  }

  /**
   In any run a line moves the state exactly if it says that a starting server
   is done or that a running one is stopping, whether the newest process or an
   older one printed it; and the state it moves is that of the newest.
   */
  lemma LinesCarryNoGeneration(autoRestart: bool, clock: int, events: seq<Event>, from: Gen, line: Line)
    requires Legal(Initial(autoRestart, clock), events)
    requires from < |Run(Initial(autoRestart, clock), events).procs|
    ensures var s := Run(Initial(autoRestart, clock), events);
            var t := Next(s, Printed(from, line));
            && (t.inst.state != s.inst.state <==>
                 (s.inst.state.Starting? && line.done) || (s.inst.state.Running? && line.stopping))
            && (t.inst.state != s.inst.state ==>
                 s.inst.proc == Some(|s.procs| - 1)
                 && t.inst.state == (if s.inst.state.Running? || line.stopping then Stopping else Running))
  {
    InitialInv(autoRestart, clock);
    RunKeepsInv(Initial(autoRestart, clock), events);
  }

  /** A printed line with the process that printed it. */
  datatype Print = Print(from: Gen, line: Line)

  function LinesOf(prints: seq<Print>): seq<Line> {
    seq(|prints|, i requires 0 <= i < |prints| => prints[i].line)
  }

  /** The player list starts anew when an exit is handled and when a process is launched. */
  predicate Resets(s: Sys, e: Event)
    requires Enabled(s, e)
  {
    e.ExitHandled? || |Next(s, e).procs| > |s.procs|
  }

  /** What was printed, by any process, since the player list last started anew; `before` is what came earlier. */
  function PrintsSinceReset(s: Sys, events: seq<Event>, before: seq<Print>): seq<Print>
    requires Legal(s, events)
    decreases |events|
  {
    if events == [] then before
    else
      var e := events[0];
      PrintsSinceReset(Next(s, e), events[1..],
                       if Resets(s, e) then [] else if e.Printed? then before + [Print(e.from, e.line)] else before)
  }

  /** The same, read off the events alone: what was printed since an exit was last handled. */
  function PrintsSinceExit(events: seq<Event>, before: seq<Print>): seq<Print>
    decreases |events|
  {
    if events == [] then before
    else
      var e := events[0];
      PrintsSinceExit(events[1..],
                      if e.ExitHandled? then [] else if e.Printed? then before + [Print(e.from, e.line)] else before)
  }

  lemma PlayersAfterOneMore(prints: seq<Print>, p: Print)
    ensures PlayersAfterLines({}, LinesOf(prints + [p])) == PlayersAfter(PlayersAfterLines({}, LinesOf(prints)), p.line)
  {
    assert LinesOf(prints + [p])[..|prints|] == LinesOf(prints);
  }

  lemma PlayersStep(s: Sys, e: Event)
    requires Inv(s) && Enabled(s, e)
    ensures Next(s, e).inst.players
         == if Resets(s, e) then {} else if e.Printed? then PlayersAfter(s.inst.players, e.line) else s.inst.players
  {
  }

  lemma {:induction false} PlayersFollowPrints(s: Sys, events: seq<Event>, before: seq<Print>)
    requires Inv(s) && Legal(s, events)
    requires s.inst.players == PlayersAfterLines({}, LinesOf(before))
    ensures Run(s, events).inst.players == PlayersAfterLines({}, LinesOf(PrintsSinceReset(s, events, before)))
    decreases |events|
  {
    if events != [] {
      var e := events[0];
      StepKeepsInv(s, e);
      PlayersStep(s, e);
      if e.Printed? {
        PlayersAfterOneMore(before, Print(e.from, e.line));
        PlayersFollowPrints(Next(s, e), events[1..], before + [Print(e.from, e.line)]);
      } else if Resets(s, e) {
        PlayersFollowPrints(Next(s, e), events[1..], []);
      } else {
        PlayersFollowPrints(Next(s, e), events[1..], before);
      }
    }
  }

  function By(g: Gen, prints: seq<Print>): seq<Print> {
    if prints == [] then []
    else
      var last := prints[|prints| - 1];
      By(g, prints[..|prints| - 1]) + (if last.from == g then [last] else [])
  }

  /**
   In any run the player list is what the lines printed since the last launch or
   handled exit say; it is what one process itself said exactly if no line of
   another process changes the last word about any player.
   */
  lemma PlayersAreOwnIff(autoRestart: bool, clock: int, events: seq<Event>, g: Gen)
    requires Legal(Initial(autoRestart, clock), events)
    ensures var prints := PrintsSinceReset(Initial(autoRestart, clock), events, []);
            var all, own := LinesOf(prints), LinesOf(By(g, prints));
            var players := Run(Initial(autoRestart, clock), events).inst.players;
            && (forall p :: p in players <==> LastMention(all, p) == Some(true))
            && (players == PlayersAfterLines({}, own) <==>
                 forall p :: LastMention(all, p) == Some(true) <==> LastMention(own, p) == Some(true))
  {
    var s := Initial(autoRestart, clock);
    InitialInv(autoRestart, clock);
    PlayersFollowPrints(s, events, []);
    var prints := PrintsSinceReset(s, events, []);
    var all, own := LinesOf(prints), LinesOf(By(g, prints));
    forall p ensures p in PlayersAfterLines({}, all) <==> LastMention(all, p) == Some(true) {
      OnlineIffLastMentionIsAJoin({}, all, p);
    }
    forall p ensures p in PlayersAfterLines({}, own) <==> LastMention(own, p) == Some(true) {
      OnlineIffLastMentionIsAJoin({}, own, p);
    }
  }

  lemma {:induction false} IdlePlayersFollowPrints(s: Sys, events: seq<Event>, before: seq<Print>)
    requires Inv(s) && Legal(s, events)
    requires Idle(s.inst.state) ==> s.inst.players == PlayersAfterLines({}, LinesOf(before))
    ensures Idle(Run(s, events).inst.state) ==>
              Run(s, events).inst.players == PlayersAfterLines({}, LinesOf(PrintsSinceExit(events, before)))
    decreases |events|
  {
    if events != [] {
      var e := events[0];
      StepKeepsInv(s, e);
      StepsFollowTheGraph(s, e);
      if e.Printed? {
        LineKeepsHolding(s.inst, e.line);
        PlayersAfterOneMore(before, Print(e.from, e.line));
        IdlePlayersFollowPrints(Next(s, e), events[1..], before + [Print(e.from, e.line)]);
      } else if e.ExitHandled? {
        IdlePlayersFollowPrints(Next(s, e), events[1..], []);
      } else {
        IdlePlayersFollowPrints(Next(s, e), events[1..], before);
      }
    }
  }

  /**
   While a server is idle its player list is exactly what the lines printed
   since the last handled exit say, so it is empty exactly if none of them
   leaves a join standing.
   */
  lemma IdlePlayersAreLateJoins(autoRestart: bool, clock: int, events: seq<Event>)
    requires Legal(Initial(autoRestart, clock), events)
    requires Idle(Run(Initial(autoRestart, clock), events).inst.state)
    ensures var late := LinesOf(PrintsSinceExit(events, []));
            var players := Run(Initial(autoRestart, clock), events).inst.players;
            && players == PlayersAfterLines({}, late)
            && (players == {} <==> forall p :: LastMention(late, p) != Some(true))
  {
    InitialInv(autoRestart, clock);
    IdlePlayersFollowPrints(Initial(autoRestart, clock), events, []);
    var late := LinesOf(PrintsSinceExit(events, []));
    forall p ensures p in PlayersAfterLines({}, late) <==> LastMention(late, p) == Some(true) {
      OnlineIffLastMentionIsAJoin({}, late, p);
    }
    if PlayersAfterLines({}, late) != {} {
      var p :| p in PlayersAfterLines({}, late);
      assert LastMention(late, p) == Some(true);
    }
  }

  function Plain(): Line { Line(None, None, false, false, None, None) }

  function DoneLine(): Line { Plain().(done := true) }

  function JoinLine(player: string): Line { Plain().(joined := Some(player)) }

  predicate Reaches(s: Sys, events: seq<Event>, t: Sys) {
    Legal(s, events) && Run(s, events) == t
  }

  lemma Prepend(s: Sys, e: Event, events: seq<Event>, t: Sys)
    requires Enabled(s, e) && Reaches(Next(s, e), events, t)
    ensures Reaches(s, [e] + events, t)
  {
  }

  /** Process 0 starts, dies with an error, and its exit is handled. */
  function CrashRun(): seq<Event> {
    [StartCalled(true), ChildExits(0, true), WaitReturns(0), ExitHandled(0, 0)]
  }

  function CrashedSys(auto: bool): Sys {
    Sys(InitialInst(auto).(state := Crashed, lastExit := Crash, restartTimes := if auto then [0] else []), 0,
        [Process(Reaped(true), if auto then Sleeping(RESTART_DELAY) else Finished, false, auto)], [])
  }

  lemma CrashRunEndsCrashed(auto: bool)
    ensures Reaches(Initial(auto, 0), CrashRun(), CrashedSys(auto))
  {
    var s1 := Next(Initial(auto, 0), StartCalled(true));
    var s2 := Next(s1, ChildExits(0, true));
    var s3 := Next(s2, WaitReturns(0));
    assert Next(s3, ExitHandled(0, 0)) == CrashedSys(auto);
    Prepend(s3, ExitHandled(0, 0), [], CrashedSys(auto));
    Prepend(s2, WaitReturns(0), [ExitHandled(0, 0)], CrashedSys(auto));
    Prepend(s1, ChildExits(0, true), [WaitReturns(0), ExitHandled(0, 0)], CrashedSys(auto));
  }

  lemma {:induction false} ReachesTransitive(s: Sys, first: seq<Event>, t: Sys, second: seq<Event>, u: Sys)
    requires Reaches(s, first, t) && Reaches(t, second, u)
    ensures Reaches(s, first + second, u)
    decreases |first|
  {
    if first == [] {
      assert first + second == second;
    } else {
      ReachesTransitive(Next(s, first[0]), first[1..], t, second, u);
      assert first + second == [first[0]] + (first[1..] + second);
      Prepend(s, first[0], first[1..] + second, u);
    }
  }

  /**
   A late line of the dead process 0 marks process 1 as running, and another one
   fills the player list of an idle server.
   */
  lemma LateLinesReachTheNextRun()
    ensures exists late: Sys, idle: Sys ::
              && Reaches(Initial(false, 0), CrashRun() + [StartCalled(true), Printed(0, DoneLine())], late)
              && late.inst.state.Running? && late.inst.proc == Some(1)
              && Reaches(Initial(false, 0), CrashRun() + [Printed(0, JoinLine("steve"))], idle)
              && Idle(idle.inst.state) && idle.inst.players == {"steve"}
  {
    CrashRunEndsCrashed(false);
    var crashed := CrashedSys(false);
    var started := Next(crashed, StartCalled(true));
    var late := Next(started, Printed(0, DoneLine()));
    Prepend(started, Printed(0, DoneLine()), [], late);
    Prepend(crashed, StartCalled(true), [Printed(0, DoneLine())], late);
    ReachesTransitive(Initial(false, 0), CrashRun(), crashed, [StartCalled(true), Printed(0, DoneLine())], late);
    var idle := Next(crashed, Printed(0, JoinLine("steve")));
    Prepend(crashed, Printed(0, JoinLine("steve")), [], idle);
    ReachesTransitive(Initial(false, 0), CrashRun(), crashed, [Printed(0, JoinLine("steve"))], idle);
  }

  /** After the crash, the user starts the server inside the ten-second pause and asks it to stop. */
  function StoppingSys(): Sys {
    var inst := CrashedSys(true).inst.(state := Stopping, proc := Some(1), exited := 1, stopRequested := true,
                                       lastExit := NotExited);
    Sys(inst, 0, CrashedSys(true).procs + [Process(Alive, InWait, true, false)], [Call(1, Graceful)])
  }

  lemma StartAndStopInsideThePause()
    ensures Reaches(CrashedSys(true), [StartCalled(true), StopCalled], StoppingSys())
  {
  }

  /** The child is gone, Stop has returned and the exit is handled. */
  function StoppedSys(): Sys {
    var inst := CrashedSys(true).inst.(state := Stopped, exited := 1, stopRequested := true, lastExit := Clean);
    Sys(inst, 0, CrashedSys(true).procs + [Process(Reaped(false), Finished, true, false)], [Call(1, Returned)])
  }

  lemma TheStopCompletes()
    ensures Reaches(StoppingSys(), [ChildExits(1, false), WaitReturns(1), CallReturns(0), ExitHandled(1, 0)],
                    StoppedSys())
  {
    var s1 := Next(StoppingSys(), ChildExits(1, false));
    var s2 := Next(s1, WaitReturns(1));
    var s3 := Next(s2, CallReturns(0));
    assert Next(s3, ExitHandled(1, 0)) == StoppedSys();
    Prepend(s3, ExitHandled(1, 0), [], StoppedSys());
    Prepend(s2, CallReturns(0), [ExitHandled(1, 0)], StoppedSys());
    Prepend(s1, WaitReturns(1), [CallReturns(0), ExitHandled(1, 0)], StoppedSys());
    Prepend(StoppingSys(), ChildExits(1, false), [WaitReturns(1), CallReturns(0), ExitHandled(1, 0)], StoppedSys());
  }

  /**
   A restart pending from an old crash is still pending when the last user
   request, a Stop, has returned; once its pause is over it starts the server.
   */
  lemma PendingRestartUndoesAStop()
    ensures exists t: Sys, events: seq<Event> ::
              && Reaches(Initial(true, 0), events, t)
              && events == CrashRun() + [StartCalled(true), StopCalled]
                           + [ChildExits(1, false), WaitReturns(1), CallReturns(0), ExitHandled(1, 0)]
              && t.inst.state.Stopped? && |t.calls| == 1 && t.calls[0].phase.Returned?
              && var later := Next(t, ClockMoves(RESTART_DELAY));
                 Enabled(later, RestartFires(0, true)) && Next(later, RestartFires(0, true)).inst.state.Starting?
  {
    CrashRunEndsCrashed(true);
    StartAndStopInsideThePause();
    ReachesTransitive(Initial(true, 0), CrashRun(), CrashedSys(true), [StartCalled(true), StopCalled], StoppingSys());
    TheStopCompletes();
    ReachesTransitive(Initial(true, 0), CrashRun() + [StartCalled(true), StopCalled], StoppingSys(),
                      [ChildExits(1, false), WaitReturns(1), CallReturns(0), ExitHandled(1, 0)], StoppedSys());
    PendingRestartFires();
  }

  lemma PendingRestartFires()
    ensures var later := Next(StoppedSys(), ClockMoves(RESTART_DELAY));
            Enabled(later, RestartFires(0, true)) && Next(later, RestartFires(0, true)).inst.state.Starting?
  {
  }

  lemma StopReturnsEarly(s: Sys) returns (t: Sys)
    requires s.inst.state.Stopping? && s.calls == [Call(0, Graceful)]
    requires |s.procs| == 1 && s.procs[0].child.Alive? && s.procs[0].waiter.InWait?
    ensures Reaches(s, [ChildExits(0, false), WaitReturns(0), CallReturns(0)], t)
    ensures t.inst == s.inst && t.calls == [Call(0, Returned)] && |t.procs| == 1
  {
    var s1 := Next(s, ChildExits(0, false));
    var s2 := Next(s1, WaitReturns(0));
    t := Next(s2, CallReturns(0));
    Prepend(s2, CallReturns(0), [], t);
    Prepend(s1, WaitReturns(0), [CallReturns(0)], t);
    Prepend(s, ChildExits(0, false), [WaitReturns(0), CallReturns(0)], t);
  }

  /** Stop returns as soon as the channel is closed; until the exit is handled, Start is refused. */
  lemma RestartCanBeRefused()
    ensures exists t: Sys ::
              && Reaches(Initial(false, 0),
                         [StartCalled(true), StopCalled, ChildExits(0, false), WaitReturns(0), CallReturns(0)], t)
              && |t.calls| == 1 && t.calls[0].phase.Returned? && !StartBlock(t.inst, true, |t.procs|).1
  {
    var started := Next(Initial(false, 0), StartCalled(true));
    var stopping := Next(started, StopCalled);
    var t := StopReturnsEarly(stopping);
    var rest := [ChildExits(0, false), WaitReturns(0), CallReturns(0)];
    Prepend(started, StopCalled, rest, t);
    Prepend(Initial(false, 0), StartCalled(true), [StopCalled] + rest, t);
    assert [StartCalled(true)] + ([StopCalled] + rest)
        == [StartCalled(true), StopCalled, ChildExits(0, false), WaitReturns(0), CallReturns(0)];
  }
}

/**
 Executions on an interval across restarts of the panel
 (internal/sched/engine.go:77-131, 197-201, 248-279): what schedules.json must
 hold for their distance to survive a restart, and two runs in which it does not.
 */
module SchedulerRestarts {
  import opened Prelude
  import opened Calendar
  import opened Scheduler
  import opened SchedulerRuns

  /** Every execution of the item that was collected because of the time started at least five minutes before `t`. */
  predicate TimedSpaced(log: seq<Entry>, id: Id, t: int) {
    forall i :: 0 <= i < |log| && log[i].Started? && log[i].job.timed && log[i].job.id == id ==>
      log[i].at + Millis(MIN_INTERVAL) <= t
  }

  predicate LogTimedSpaced(log: seq<Entry>) {
    forall j :: 0 <= j < |log| && log[j].Started? && log[j].job.timed && log[j].job.interval ==>
      TimedSpaced(log[..j], log[j].job.id, log[j].at)
  }

  /** Due already, or far enough from every earlier execution. */
  predicate Safe(log: seq<Entry>, id: Id, s: Schedule, nowMs: int) {
    s.when.Every? ==> s.nextRun <= nowMs || TimedSpaced(log, id, s.nextRun)
  }

  predicate InTimedExecution(s: Sys, id: Id) {
    s.running.Some? && s.running.value.id == id && s.running.value.timed
  }

  /** The item in memory. */
  predicate LiveOk(s: Sys, id: Id)
    requires id in s.heap
  {
    s.heap[id].when.Every? ==>
      TimedSpaced(s.log, id, s.heap[id].nextRun) ||
      (InTimedExecution(s, id) && s.heap[id].nextRun <= Millis(s.clock))
  }

  /** The item in the file: safe to load, and no further ahead than the one in memory unless due. */
  predicate FileOk(s: Sys, id: Id)
    requires id in s.file.heap
  {
    && Safe(s.log, id, s.file.heap[id], Millis(s.clock))
    && (id in s.heap ==>
         s.file.heap[id].nextRun <= Millis(s.clock) || s.file.heap[id].nextRun == s.heap[id].nextRun)
  }

  /** A waiting job that was collected because of the time: its item is due, in memory and in the file. */
  predicate WaitingOk(s: Sys, job: Job) {
    job.timed ==>
      && (job.interval ==> TimedSpaced(s.log, job.id, Millis(s.clock)))
      && (job.id in s.heap ==> s.heap[job.id].nextRun <= Millis(s.clock))
      && (job.id in s.file.heap ==> s.file.heap[job.id].nextRun <= Millis(s.clock))
  }

  predicate Durable(s: Sys) {
    && LogTimedSpaced(s.log) && Past(s.log, Millis(s.clock))
    && (forall id :: id in s.heap ==> LiveOk(s, id))
    && (forall id :: id in s.file.heap ==> FileOk(s, id))
    && (forall i :: 0 <= i < |s.queue| ==> WaitingOk(s, s.queue[i]))
  }

  /** The step saves what it changes, and changes no item that waits in the queue. */
  predicate Careful(s: Sys, e: Event) {
    match e
    case Finish(_, written) => written
    case Create(_, _, _, when, targetOk, written) => IsValid(when) && targetOk ==> written
    case Delete(id, written) => id in s.items ==> written
    case Update(id, _, _, when, targetOk, written) =>
      IsValid(when) && targetOk && id in s.items ==> written && id !in JobIds(s.queue)
    case _ => true
  }

  lemma TimedAppend(log: seq<Entry>, e: Entry, id: Id, t: int)
    requires TimedSpaced(log, id, t)
    requires e.Started? && e.job.timed && e.job.id == id ==> e.at + Millis(MIN_INTERVAL) <= t
    ensures TimedSpaced(log + [e], id, t)
  {
  }

  lemma TimedLater(log: seq<Entry>, id: Id, t: int, u: int)
    requires TimedSpaced(log, id, t) && t <= u
    ensures TimedSpaced(log, id, u)
  {
  }

  lemma FarAheadIsSpaced(log: seq<Entry>, id: Id, nowMs: int, t: int)
    requires Past(log, nowMs) && nowMs + Millis(MIN_INTERVAL) <= t
    ensures TimedSpaced(log, id, t)
  {
  }

  lemma LogTimedAppend(log: seq<Entry>, e: Entry)
    requires LogTimedSpaced(log)
    requires e.Started? && e.job.timed && e.job.interval ==> TimedSpaced(log, e.job.id, e.at)
    ensures LogTimedSpaced(log + [e])
  {
    var after := log + [e];
    forall j | 0 <= j < |after| && after[j].Started? && after[j].job.timed && after[j].job.interval
      ensures TimedSpaced(after[..j], after[j].job.id, after[j].at)
    {
      if j < |log| {
        assert after[..j] == log[..j];
        assert TimedSpaced(log[..j], log[j].job.id, log[j].at);
      } else {
        assert after[..j] == log;
      }
    }
  }

  // --- every step --------------------------------------------------------------------

  lemma WaitKeepsDurable(s: Sys, ns: nat)
    requires Inv(s) && Durable(s)
    ensures Durable(s.(clock := s.clock + ns))
  {
    var t := s.(clock := s.clock + ns);
    assert Millis(s.clock) <= Millis(t.clock);
    forall id | id in t.heap ensures LiveOk(t, id) {
      assert LiveOk(s, id);
    }
    forall id | id in t.file.heap ensures FileOk(t, id) {
      assert FileOk(s, id);
    }
    forall i | 0 <= i < |t.queue| ensures WaitingOk(t, t.queue[i]) {
      var job := t.queue[i];
      assert WaitingOk(s, s.queue[i]);
      if job.timed && job.interval {
        TimedLater(s.log, job.id, Millis(s.clock), Millis(t.clock));
      }
    }
  }

  lemma TickKeepsDurable(z: Zone, s: Sys)
    requires Inv(s) && Durable(s) && Enabled(s, Tick)
    ensures Durable(Next(z, s, Tick))
  {
    var t, nowMs := Next(z, s, Tick), Millis(s.clock);
    JobsAreTheDueItems(s.items, s.heap, nowMs);
    forall id | id in t.heap ensures LiveOk(t, id) {
      assert LiveOk(s, id);
    }
    forall id | id in t.file.heap ensures FileOk(t, id) {
      assert FileOk(s, id);
    }
    forall i | 0 <= i < |t.queue| ensures WaitingOk(t, t.queue[i]) {
      var job := t.queue[i];
      assert JobIds(t.queue)[i] == job.id;
      assert LiveOk(s, job.id);
      assert job.id in s.file.heap ==> FileOk(s, job.id);
      if job.timed && job.interval {
        TimedLater(s.log, job.id, s.heap[job.id].nextRun, nowMs);
      }
    }
  }

  lemma BeginKeepsDurable(z: Zone, s: Sys)
    requires Inv(s) && Durable(s) && Enabled(s, Begin)
    ensures Durable(Next(z, s, Begin))
  {
    var t, job := Next(z, s, Begin), s.queue[0];
    var entry := Started(job, Millis(s.clock));
    assert WaitingOk(s, s.queue[0]) && JobIds(s.queue)[0] == job.id;
    LogTimedAppend(s.log, entry);
    forall id | id in t.heap ensures LiveOk(t, id) {
      assert LiveOk(s, id);
      if s.heap[id].when.Every? && !(job.timed && id == job.id) {
        TimedAppend(s.log, entry, id, s.heap[id].nextRun);
      }
    }
    forall id | id in t.file.heap ensures FileOk(t, id) {
      assert FileOk(s, id);
      if TimedSpaced(s.log, id, s.file.heap[id].nextRun) && !(job.timed && id == job.id) {
        TimedAppend(s.log, entry, id, s.file.heap[id].nextRun);
      }
    }
    forall i | 0 <= i < |t.queue| ensures WaitingOk(t, t.queue[i]) {
      assert WaitingOk(s, s.queue[i + 1]);
      assert JobIds(s.queue)[0] != JobIds(s.queue)[i + 1];
      if t.queue[i].timed && t.queue[i].interval {
        TimedAppend(s.log, entry, t.queue[i].id, Millis(t.clock));
      }
    }
  }

  /** Steps that change one item, far ahead of now or on a calendar, and save everything. */
  lemma ChangeKeepsDurable(s: Sys, id: Id, v: Schedule, entry: Entry, t: Sys)
    requires Inv(s) && Durable(s) && !entry.Started?
    requires t.clock == s.clock && t.heap == s.heap[id := v] && t.log == s.log + [entry] && t.queue == s.queue
    requires t.file.heap == t.heap && id !in JobIds(s.queue)
    requires v.when.Every? ==> Millis(s.clock) + Millis(MIN_INTERVAL) <= v.nextRun
    requires t.running == s.running || (s.running.Some? && s.running.value.id == id && t.running.None?)
    ensures Durable(t)
  {
    LogTimedAppend(s.log, entry);
    forall i | i in t.heap ensures LiveOk(t, i) {
      if i == id {
        if v.when.Every? {
          FarAheadIsSpaced(t.log, id, Millis(s.clock), v.nextRun);
        }
      } else {
        assert LiveOk(s, i);
        if TimedSpaced(s.log, i, s.heap[i].nextRun) {
          TimedAppend(s.log, entry, i, s.heap[i].nextRun);
        }
      }
    }
    forall i | i in t.file.heap ensures FileOk(t, i) {
      assert LiveOk(t, i);
    }
    forall i | 0 <= i < |t.queue| ensures WaitingOk(t, t.queue[i]) {
      var job := t.queue[i];
      assert WaitingOk(s, s.queue[i]) && JobIds(s.queue)[i] == job.id;
      if job.timed && job.interval {
        TimedAppend(s.log, entry, job.id, Millis(t.clock));
      }
    }
  }

  lemma FinishKeepsDurable(z: Zone, s: Sys, ok: bool)
    requires Regular(z) && Inv(s) && Durable(s) && Enabled(s, Finish(ok, true))
    ensures Durable(Next(z, s, Finish(ok, true)))
  {
    var id := s.running.value.id;
    NextIsLater(z, s.heap[id].when, s.clock);
    ChangeKeepsDurable(s, id, FinishBlock(z, s.heap[id], s.clock, ok), Ended(id, ok), Next(z, s, Finish(ok, true)));
  }

  lemma EditKeepsDurable(z: Zone, s: Sys, e: Event)
    requires Regular(z) && Inv(s) && Durable(s) && Enabled(s, e) && (e.Create? || e.Update?) && Careful(s, e)
    ensures Durable(Next(z, s, e))
  {
    if IsValid(e.when) && e.targetOk && (e.Create? || e.id in s.items) {
      NextIsLater(z, e.when, s.clock);
      assert e.Create? ==> e.id !in JobIds(s.queue);
      ChangeKeepsDurable(s, e.id, Next(z, s, e).heap[e.id], Replaced(e.id), Next(z, s, e));
    }
  }

  lemma DeleteKeepsDurable(z: Zone, s: Sys, id: Id, written: bool)
    requires Inv(s) && Durable(s) && Careful(s, Delete(id, written))
    ensures Durable(Next(z, s, Delete(id, written)))
  {
    var t := Next(z, s, Delete(id, written));
    forall i | i in t.heap ensures LiveOk(t, i) {
      assert LiveOk(s, i);
    }
    forall i | i in t.file.heap ensures FileOk(t, i) {
      assert i in s.file.heap ==> FileOk(s, i);
      assert i in s.heap ==> LiveOk(s, i);
    }
    forall i | 0 <= i < |t.queue| ensures WaitingOk(t, t.queue[i]) {
      assert WaitingOk(s, s.queue[i]) && JobIds(s.queue)[i] == s.queue[i].id;
    }
  }

  /** Steps that leave clock, log, file, executions and next runs alone, and shorten the queue at most. */
  lemma QuietStepKeepsDurable(s: Sys, t: Sys)
    requires Inv(s) && Durable(s)
    requires t.clock == s.clock && t.log == s.log && t.running == s.running && (t.queue == s.queue || t.queue == [])
    requires t.heap.Keys == s.heap.Keys && t.file == s.file
    requires forall id :: id in s.heap ==>
               t.heap[id].when == s.heap[id].when && t.heap[id].nextRun == s.heap[id].nextRun
    ensures Durable(t)
  {
    forall id | id in t.heap ensures LiveOk(t, id) {
      assert LiveOk(s, id);
    }
    forall id | id in t.file.heap ensures FileOk(t, id) {
      assert FileOk(s, id);
    }
    forall i | 0 <= i < |t.queue| ensures WaitingOk(t, t.queue[i]) {
      assert WaitingOk(s, s.queue[i]);
    }
  }

  lemma RestartKeepsDurable(z: Zone, s: Sys)
    requires Regular(z) && Inv(s) && Durable(s)
    ensures Durable(Next(z, s, Restart))
  {
    var t, nowMs := Next(z, s, Restart), Millis(s.clock);
    LogTimedAppend(s.log, Booted);
    forall id | id in t.heap ensures LiveOk(t, id) {
      var saved := s.file.heap[id];
      assert FileOk(s, id);
      if saved.when.Every? {
        if saved.nextRun <= nowMs {
          NextIsLater(z, saved.when, s.clock);
          FarAheadIsSpaced(t.log, id, nowMs, t.heap[id].nextRun);
        } else {
          TimedAppend(s.log, Booted, id, saved.nextRun);
        }
      }
    }
    forall id | id in t.file.heap ensures FileOk(t, id) {
      var saved := s.file.heap[id];
      assert FileOk(s, id);
      if saved.when.Every? && saved.nextRun > nowMs {
        TimedAppend(s.log, Booted, id, saved.nextRun);
      }
    }
  }

  lemma StepKeepsDurable(z: Zone, s: Sys, e: Event)
    requires Regular(z) && Inv(s) && Durable(s) && Enabled(s, e) && Careful(s, e)
    ensures Durable(Next(z, s, e))
  {
    match e
    case Wait(ns) => WaitKeepsDurable(s, ns);
    case Tick => TickKeepsDurable(z, s);
    case Begin => BeginKeepsDurable(z, s);
    case Finish(ok, _) => FinishKeepsDurable(z, s, ok);
    case Create(_, _, _, _, _, _) => EditKeepsDurable(z, s, e);
    case Update(_, _, _, _, _, _) => EditKeepsDurable(z, s, e);
    case Delete(id, written) => DeleteKeepsDurable(z, s, id, written);
    case Abandon => QuietStepKeepsDurable(s, Next(z, s, e));
    case RunNow(_) => QuietStepKeepsDurable(s, Next(z, s, e));
    case Restart => RestartKeepsDurable(z, s);
  }

  // --- runs ------------------------------------------------------------------------------

  predicate AllCareful(z: Zone, s: Sys, events: seq<Event>)
    requires Inv(s) && Legal(z, s, events)
    decreases |events|
  {
    events == [] ||
    (Careful(s, events[0]) && (StepKeepsInv(z, s, events[0]); AllCareful(z, Next(z, s, events[0]), events[1..])))
  }

  lemma {:induction false} RunsKeepDurable(z: Zone, s: Sys, events: seq<Event>)
    requires Regular(z) && Inv(s) && Durable(s) && Legal(z, s, events) && AllCareful(z, s, events)
    ensures Durable(Run(z, s, events))
    decreases |events|
  {
    if events != [] {
      StepKeepsInv(z, s, events[0]);
      StepKeepsDurable(z, s, events[0]);
      RunsKeepDurable(z, Next(z, s, events[0]), events[1..]);
    }
  }

  /**
   Across any number of restarts, at any moment: if every change was saved and
   no item was updated while it waited in the queue, then an execution that was
   collected because of the time, on an interval, starts at least five minutes
   after every earlier execution of the item that was.
   */
  lemma TimedRunsKeepTheirDistance(z: Zone, s: Sys, events: seq<Event>, i: nat, j: nat)
    requires Regular(z) && Initial(s) && Legal(z, s, events) && AllCareful(z, s, events)
    requires i < j < |Run(z, s, events).log|
    requires var log := Run(z, s, events).log;
             log[i].Started? && log[j].Started? && log[i].job.id == log[j].job.id
             && log[i].job.timed && log[j].job.timed && log[j].job.interval
    ensures var log := Run(z, s, events).log; log[i].at + 300_000 <= log[j].at
  {
    InitialHasInv(s);
    RunsKeepDurable(z, s, events);
    var log := Run(z, s, events).log;
    assert TimedSpaced(log[..j], log[j].job.id, log[j].at);
    assert log[..j][i] == log[i];
  }

  // --- two runs that end with an unsafe file -------------------------------------------------

  function Start(): Sys { Sys(0, map[], [], File([], map[]), [], None, []) }

  ghost predicate Reachable(z: Zone, t: Sys) {
    Inv(Start()) && exists events: seq<Event> :: Legal(z, Start(), events) && Run(z, Start(), events) == t
  }

  lemma {:induction false} RunConcat(z: Zone, s: Sys, a: seq<Event>, b: seq<Event>)
    requires Inv(s) && Legal(z, s, a) && Inv(Run(z, s, a)) && Legal(z, Run(z, s, a), b)
    ensures Legal(z, s, a + b) && Run(z, s, a + b) == Run(z, Run(z, s, a), b)
    decreases |a|
  {
    if a == [] {
      assert a + b == b;
    } else {
      assert (a + b)[0] == a[0] && (a + b)[1..] == a[1..] + b;
      StepKeepsInv(z, s, a[0]);
      RunConcat(z, Next(z, s, a[0]), a[1..], b);
    }
  }

  lemma ReachableRuns(z: Zone, s: Sys, events: seq<Event>)
    requires Reachable(z, s) && Inv(s) && Legal(z, s, events)
    ensures Reachable(z, Run(z, s, events))
  {
    var before: seq<Event> :| Legal(z, Start(), before) && Run(z, Start(), before) == s;
    RunConcat(z, Start(), before, events);
  }

  lemma ReachableStep(z: Zone, s: Sys, e: Event)
    requires Reachable(z, s) && Inv(s) && Enabled(s, e)
    ensures Inv(Next(z, s, e)) && Reachable(z, Next(z, s, e))
  {
    StepKeepsInv(z, s, e);
    var t := Next(z, s, e);
    assert Legal(z, t, []) && Run(z, t, []) == t;
    assert [e][0] == e && [e][1..] == [];
    assert Legal(z, s, [e]);
    assert Run(z, s, [e]) == Run(z, t, []);
    ReachableRuns(z, s, [e]);
  }

  /** A single item on an interval, which nobody asked to run. */
  function Item(interval: int, nextRun: int): Schedule {
    Schedule("", true, Every(interval), nextRun, 0, NoRunYet, 0, false)
  }

  function One(
    clock: int, live: Schedule, saved: Schedule, queue: seq<Job>, running: Option<Job>, log: seq<Entry>): Sys
  {
    Sys(clock, map[1 := live], [1], File([1], map[1 := saved]), queue, running, log)
  }

  const JOB := Job(1, true, true)
  const TEN_MINUTES := 10 * MINUTE
  const FIVE_MINUTES := 5 * MINUTE

  lemma CreateOne(z: Zone, interval: int)
    requires IsValid(Every(interval))
    ensures var item := Item(interval, Millis(interval));
            var t := One(0, item, item, [], None, [Replaced(1)]);
            Inv(t) && Reachable(z, t)
  {
    var item := Item(interval, Millis(interval));
    InitialHasInv(Start());
    assert Legal(z, Start(), []) && Run(z, Start(), []) == Start();
    var e := Create(1, "", true, Every(interval), true, true);
    assert Next(z, Start(), e) == One(0, item, item, [], None, [Replaced(1)]);
    ReachableStep(z, Start(), e);
  }

  lemma WaitOne(z: Zone, s: Sys, ns: nat)
    requires Inv(s) && Reachable(z, s)
    ensures var t := s.(clock := s.clock + ns); Inv(t) && Reachable(z, t)
  {
    ReachableStep(z, s, Wait(ns));
  }

  lemma UpdateOne(z: Zone, s: Sys, live: Schedule, saved: Schedule, interval: int, written: bool)
    requires IsValid(Every(interval)) && Inv(s) && Reachable(z, s)
    requires live.outcome.NoRunYet? && live.lastRun == 0 && s == One(s.clock, live, saved, s.queue, s.running, s.log)
    ensures var item := Item(interval, Millis(s.clock + interval));
            var t := One(s.clock, item, if written then item else saved, s.queue, s.running, s.log + [Replaced(1)]);
            Inv(t) && Reachable(z, t)
  {
    var item := Item(interval, Millis(s.clock + interval));
    var e := Update(1, "", true, Every(interval), true, written);
    assert s.heap[1 := item] == map[1 := item];
    ReachableStep(z, s, e);
  }

  lemma TickOne(z: Zone, s: Sys, live: Schedule, saved: Schedule)
    requires Inv(s) && Reachable(z, s) && s == One(s.clock, live, saved, [], None, s.log)
    requires DueByTime(live, Millis(s.clock)) && live.when.Every? && !live.runNow
    ensures var t := One(s.clock, live, saved, [JOB], None, s.log); Inv(t) && Reachable(z, t)
  {
    assert s.items[1..] == [];
    assert JobsOf(s.items[1..], s.heap, Millis(s.clock)) == [];
    assert JobsOf(s.items, s.heap, Millis(s.clock)) == [JOB];
    assert Collected(s).heap == s.heap;
    ReachableStep(z, s, Tick);
  }

  lemma BeginOne(z: Zone, s: Sys, live: Schedule, saved: Schedule)
    requires Inv(s) && Reachable(z, s) && s == One(s.clock, live, saved, [JOB], None, s.log)
    ensures var t := One(s.clock, live, saved, [], Some(JOB), s.log + [Started(JOB, Millis(s.clock))]);
            Inv(t) && Reachable(z, t)
  {
    assert s.queue[1..] == [];
    ReachableStep(z, s, Begin);
  }

  /** A reachable state with an unsafe item: a restart and a wait later it is collected too soon. */
  lemma UnsafeStateBreaksTheDistance(z: Zone, s: Sys, id: Id)
    requires Regular(z) && Inv(s) && Reachable(z, s) && id in s.file.items && !SafeItem(s, id)
    ensures exists t: Sys ::
              Reachable(z, t) && Job(id, true, true) in t.queue && !SpacedFrom(t.log, id, Millis(t.clock))
  {
    UnsafeRestartBreaksTheDistance(z, s, id);
    ReachableRuns(z, s, Reload(s, id));
  }

  /**
   An item on ten minutes is changed to five, which cannot be saved, and starts
   after six: the file still lets it start after ten.
   */
  function UnsavedSys(): Sys {
    One(6 * MINUTE, Item(FIVE_MINUTES, 360_000), Item(TEN_MINUTES, 600_000), [], Some(JOB),
        [Replaced(1)] + [Replaced(1)] + [Started(JOB, 360_000)])
  }

  lemma UnsavedUpdateIsUnsafe(z: Zone)
    ensures Inv(UnsavedSys()) && Reachable(z, UnsavedSys())
    ensures 1 in UnsavedSys().file.items && !SafeItem(UnsavedSys(), 1)
  {
    var old10, new5 := Item(TEN_MINUTES, 600_000), Item(FIVE_MINUTES, 360_000);
    CreateOne(z, TEN_MINUTES);
    WaitOne(z, One(0, old10, old10, [], None, [Replaced(1)]), MINUTE);
    UpdateOne(z, One(MINUTE, old10, old10, [], None, [Replaced(1)]), old10, old10, FIVE_MINUTES, false);
    var log := [Replaced(1)] + [Replaced(1)];
    WaitOne(z, One(MINUTE, new5, old10, [], None, log), 5 * MINUTE);
    TickOne(z, One(6 * MINUTE, new5, old10, [], None, log), new5, old10);
    BeginOne(z, One(6 * MINUTE, new5, old10, [JOB], None, log), new5, old10);
    assert UnsavedSys().log[2].at + Millis(MIN_INTERVAL) > 600_000;
  }

  /**
   An item on five minutes is collected, updated while it waits, and starts four
   minutes later: the file, though written, lets it start again a minute after.
   */
  function WaitingSys(): Sys {
    One(9 * MINUTE, Item(FIVE_MINUTES, 600_000), Item(FIVE_MINUTES, 600_000), [], Some(JOB),
        [Replaced(1)] + [Replaced(1)] + [Started(JOB, 540_000)])
  }

  lemma UpdateOfWaitingItemIsUnsafe(z: Zone)
    ensures Inv(WaitingSys()) && Reachable(z, WaitingSys())
    ensures 1 in WaitingSys().file.items && !SafeItem(WaitingSys(), 1)
  {
    var first, second := Item(FIVE_MINUTES, 300_000), Item(FIVE_MINUTES, 600_000);
    CreateOne(z, FIVE_MINUTES);
    WaitOne(z, One(0, first, first, [], None, [Replaced(1)]), 5 * MINUTE);
    TickOne(z, One(5 * MINUTE, first, first, [], None, [Replaced(1)]), first, first);
    UpdateOne(z, One(5 * MINUTE, first, first, [JOB], None, [Replaced(1)]), first, first, FIVE_MINUTES, true);
    var log := [Replaced(1)] + [Replaced(1)];
    WaitOne(z, One(5 * MINUTE, second, second, [JOB], None, log), 4 * MINUTE);
    BeginOne(z, One(9 * MINUTE, second, second, [JOB], None, log), second, second);
    assert WaitingSys().log[2].at + Millis(MIN_INTERVAL) > 600_000;
  }
}

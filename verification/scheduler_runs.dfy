/**
 Runs of the scheduler: the single loop that collects and executes due
 schedules, the requests that change them meanwhile, and restarts of the
 panel (internal/sched/engine.go:55-139, 165-266).
 */
module SchedulerRuns {
  import opened Prelude
  import opened Calendar
  import opened Scheduler

  type Id = nat

  /** An item waiting for, or in, its execution: was it collected because of the time, and on an interval? */
  datatype Job = Job(id: Id, timed: bool, interval: bool)

  datatype Entry =
    | Started(job: Job, at: int)
    | Ended(id: Id, ok: bool)
    | Replaced(id: Id)
    | Booted

  /** schedules.json: the listed items and their contents when it was last written. */
  datatype File = File(items: seq<Id>, heap: map<Id, Schedule>)

  /** `heap` holds every item that something still refers to, `items` those in the engine's list. */
  datatype Sys = Sys(
    clock: int, heap: map<Id, Schedule>, items: seq<Id>, file: File,
    queue: seq<Job>, running: Option<Job>, log: seq<Entry>)

  datatype Event =
    | Wait(ns: nat)
    | Tick
    | Begin
    | Finish(ok: bool, written: bool)
    | Abandon
    | Create(id: Id, task: string, enabled: bool, when: Recurrence, targetOk: bool, written: bool)
    | Update(id: Id, task: string, enabled: bool, when: Recurrence, targetOk: bool, written: bool)
    | Delete(id: Id, written: bool)
    | RunNow(id: Id)
    | Restart

  function JobsOf(items: seq<Id>, heap: map<Id, Schedule>, nowMs: int): seq<Job>
    requires forall i :: 0 <= i < |items| ==> items[i] in heap
  {
    if items == [] then []
    else
      var s := heap[items[0]];
      (if Due(s, nowMs) then [Job(items[0], DueByTime(s, nowMs), s.when.Every?)] else [])
      + JobsOf(items[1..], heap, nowMs)
  }

  function Without(items: seq<Id>, id: Id): seq<Id> {
    if items == [] then [] else if items[0] == id then items[1..] else [items[0]] + Without(items[1..], id)
  }

  function Write(s: Sys, written: bool): Sys {
    if written then s.(file := File(s.items, s.heap)) else s
  }

  predicate Enabled(s: Sys, e: Event) {
    match e
    case Tick => s.running.None? && s.queue == []
    case Begin => s.running.None? && s.queue != []
    case Finish(_, _) => s.running.Some?
    case Abandon => s.running.None?
    case Create(id, _, _, _, _, _) => id !in s.heap
    case _ => true
  }

  function Collected(s: Sys): Sys
    requires Inv(s)
  {
    var nowMs := Millis(s.clock);
    s.(queue := JobsOf(s.items, s.heap, nowMs),
       heap := map id | id in s.heap :: if id in s.items then CollectBlock(s.heap[id], nowMs) else s.heap[id])
  }

  function Loaded(z: Zone, s: Sys): Sys
    requires Inv(s)
  {
    s.(items := s.file.items, queue := [], running := None, log := s.log + [Booted],
       heap := map id | id in s.file.heap :: LoadBlock(z, Saved(s.file.heap[id]), s.clock))
  }

  function Next(z: Zone, s: Sys, e: Event): Sys
    requires Inv(s) && Enabled(s, e)
  {
    match e
    case Wait(ns) => s.(clock := s.clock + ns)
    case Tick => Collected(s)
    case Begin =>
      s.(queue := s.queue[1..], running := Some(s.queue[0]), log := s.log + [Started(s.queue[0], Millis(s.clock))])
    case Finish(ok, written) =>
      var id := s.running.value.id;
      Write(s.(running := None, heap := s.heap[id := FinishBlock(z, s.heap[id], s.clock, ok)],
               log := s.log + [Ended(id, ok)]), written)
    case Abandon => s.(queue := [])
    case Create(id, task, enabled, when, targetOk, written) =>
      if IsValid(when) && targetOk then
        Write(s.(items := s.items + [id], heap := s.heap[id := CreateBlock(z, task, enabled, when, s.clock)],
                 log := s.log + [Replaced(id)]), written)
      else s
    case Update(id, task, enabled, when, targetOk, written) =>
      if IsValid(when) && targetOk && id in s.items then
        Write(s.(heap := s.heap[id := UpdateBlock(z, s.heap[id], task, enabled, when, s.clock)],
                 log := s.log + [Replaced(id)]), written)
      else s
    case Delete(id, written) =>
      if id in s.items then Write(s.(items := Without(s.items, id)), written) else s
    case RunNow(id) =>
      if id in s.items then s.(heap := s.heap[id := s.heap[id].(runNow := true)]) else s
    case Restart => Loaded(z, s)
  }

  // --- the invariant of every run ---------------------------------------------------

  predicate Distinct(items: seq<Id>) { forall i, j :: 0 <= i < j < |items| ==> items[i] != items[j] }

  predicate AllIn(items: seq<Id>, heap: map<Id, Schedule>) { forall i :: 0 <= i < |items| ==> items[i] in heap }

  predicate AllValid(heap: map<Id, Schedule>) { forall id :: id in heap ==> IsValid(heap[id].when) }

  function JobIds(queue: seq<Job>): seq<Id> { seq(|queue|, i requires 0 <= i < |queue| => queue[i].id) }

  /** Consecutive failures of an item since it last succeeded, was replaced or was loaded. */
  function Streak(log: seq<Entry>, id: Id): nat {
    if log == [] then 0
    else
      var before := log[..|log| - 1];
      match log[|log| - 1]
      case Started(_, _) => Streak(before, id)
      case Ended(i, ok) => if i != id then Streak(before, id) else if ok then 0 else 1 + Streak(before, id)
      case Replaced(i) => if i == id then 0 else Streak(before, id)
      case Booted => 0
  }

  lemma StreakAppend(log: seq<Entry>, e: Entry, id: Id)
    ensures Streak(log + [e], id)
         == match e
            case Started(_, _) => Streak(log, id)
            case Ended(i, ok) => if i != id then Streak(log, id) else if ok then 0 else 1 + Streak(log, id)
            case Replaced(i) => if i == id then 0 else Streak(log, id)
            case Booted => 0
  {
  }

  predicate CountsStreak(s: Schedule, log: seq<Entry>, id: Id) { s.retries == Streak(log, id) % (MAX_RETRIES + 1) }

  predicate RetriesCount(heap: map<Id, Schedule>, log: seq<Entry>) {
    forall id :: id in heap ==> CountsStreak(heap[id], log, id)
  }

  predicate Inv(s: Sys) {
    && Distinct(s.items) && AllIn(s.items, s.heap) && AllValid(s.heap)
    && Distinct(s.file.items) && AllIn(s.file.items, s.file.heap) && AllValid(s.file.heap)
    && Distinct(JobIds(s.queue)) && AllIn(JobIds(s.queue), s.heap)
    && (s.running.Some? ==> s.running.value.id in s.heap && s.running.value.id !in JobIds(s.queue))
    && RetriesCount(s.heap, s.log)
  }

  /** A first start: no schedules.json, nothing loaded. */
  predicate Initial(s: Sys) {
    s.heap == map[] && s.items == [] && s.file == File([], map[]) && s.queue == [] && s.running.None? && s.log == []
  }

  lemma InitialHasInv(s: Sys)
    requires Initial(s)
    ensures Inv(s)
  {
  }

  lemma {:induction false} WithoutIsSublist(items: seq<Id>, id: Id)
    requires Distinct(items)
    ensures Distinct(Without(items, id))
    ensures forall x :: x in Without(items, id) <==> x in items && x != id
  {
    if items != [] {
      WithoutIsSublist(items[1..], id);
      assert items == [items[0]] + items[1..];
      assert forall i :: 0 < i < |items| ==> items[i] != items[0];
      assert items[0] !in items[1..];
    }
  }

  /** What a tick collects: exactly the listed items that are due, in their order. */
  lemma {:induction false} JobsAreTheDueItems(items: seq<Id>, heap: map<Id, Schedule>, nowMs: int)
    requires Distinct(items) && AllIn(items, heap)
    ensures var jobs := JobsOf(items, heap, nowMs);
            && Distinct(JobIds(jobs))
            && (forall id :: id in JobIds(jobs) <==> id in items && Due(heap[id], nowMs))
            && (forall i :: 0 <= i < |jobs| ==>
                 jobs[i].id in heap &&
                 jobs[i] == Job(jobs[i].id, DueByTime(heap[jobs[i].id], nowMs), heap[jobs[i].id].when.Every?))
  {
    if items != [] {
      JobsAreTheDueItems(items[1..], heap, nowMs);
      var s, rest := heap[items[0]], JobsOf(items[1..], heap, nowMs);
      assert items == [items[0]] + items[1..];
      if Due(s, nowMs) {
        var first := Job(items[0], DueByTime(s, nowMs), s.when.Every?);
        assert JobsOf(items, heap, nowMs) == [first] + rest;
        assert JobIds([first] + rest) == [items[0]] + JobIds(rest);
      } else {
        assert JobsOf(items, heap, nowMs) == rest;
      }
    }
  }

  /** One item was changed and the log grew by an entry about it. */
  lemma RetriesAfterEntry(heap: map<Id, Schedule>, log: seq<Entry>, e: Entry, id: Id, s: Schedule)
    requires RetriesCount(heap, log) && CountsStreak(s, log + [e], id)
    requires e.Started? || e == Replaced(id) || (e.Ended? && e.id == id)
    ensures RetriesCount(heap[id := s], log + [e])
  {
  }

  lemma FinishCounts(z: Zone, s: Schedule, now: int, ok: bool, log: seq<Entry>, id: Id)
    requires IsValid(s.when) && CountsStreak(s, log, id)
    ensures CountsStreak(FinishBlock(z, s, now, ok), log + [Ended(id, ok)], id)
  {
  }

  lemma TickKeepsInv(z: Zone, s: Sys)
    requires Inv(s) && Enabled(s, Tick)
    ensures Inv(Next(z, s, Tick))
  {
    JobsAreTheDueItems(s.items, s.heap, Millis(s.clock));
    forall i | i in Collected(s).heap ensures CountsStreak(Collected(s).heap[i], s.log, i) {
      assert CountsStreak(s.heap[i], s.log, i);
    }
  }

  lemma BeginKeepsInv(z: Zone, s: Sys)
    requires Inv(s) && Enabled(s, Begin)
    ensures Inv(Next(z, s, Begin))
  {
    var job, entry := s.queue[0], Started(s.queue[0], Millis(s.clock));
    assert JobIds(s.queue)[0] == job.id;
    assert JobIds(s.queue[1..]) == JobIds(s.queue)[1..];
    assert CountsStreak(s.heap[job.id], s.log, job.id);
    StreakAppend(s.log, entry, job.id);
    RetriesAfterEntry(s.heap, s.log, entry, job.id, s.heap[job.id]);
    assert s.heap[job.id := s.heap[job.id]] == s.heap;
  }

  /** Steps that replace one item's contents and say so in the log. */
  lemma ChangeKeepsInv(s: Sys, id: Id, v: Schedule, entry: Entry, t: Sys)
    requires Inv(s) && IsValid(v.when) && CountsStreak(v, s.log + [entry], id)
    requires entry == Replaced(id) || (entry.Ended? && entry.id == id)
    requires t.heap == s.heap[id := v] && t.log == s.log + [entry] && t.queue == s.queue
    requires t.items == s.items || (id !in s.heap && t.items == s.items + [id])
    requires t.running == s.running || t.running.None?
    requires t.file == s.file || t.file == File(t.items, t.heap)
    ensures Inv(t)
  {
  }

  lemma RestartKeepsInv(z: Zone, s: Sys)
    requires Inv(s)
    ensures Inv(Next(z, s, Restart))
  {
    var t := Next(z, s, Restart);
    forall i | i in t.heap ensures CountsStreak(t.heap[i], t.log, i) {
      StreakAppend(s.log, Booted, i);
    }
  }

  lemma RunNowKeepsInv(z: Zone, s: Sys, id: Id)
    requires Inv(s)
    ensures Inv(Next(z, s, RunNow(id)))
  {
  }

  lemma FinishKeepsInv(z: Zone, s: Sys, ok: bool, written: bool)
    requires Inv(s) && Enabled(s, Finish(ok, written))
    ensures Inv(Next(z, s, Finish(ok, written)))
  {
    var id := s.running.value.id;
    assert CountsStreak(s.heap[id], s.log, id);
    FinishCounts(z, s.heap[id], s.clock, ok, s.log, id);
    ChangeKeepsInv(s, id, FinishBlock(z, s.heap[id], s.clock, ok), Ended(id, ok), Next(z, s, Finish(ok, written)));
  }

  lemma EditKeepsInv(z: Zone, s: Sys, e: Event)
    requires Inv(s) && Enabled(s, e) && (e.Create? || e.Update?)
    ensures Inv(Next(z, s, e))
  {
    if IsValid(e.when) && e.targetOk && (e.Create? || e.id in s.items) {
      StreakAppend(s.log, Replaced(e.id), e.id);
      ChangeKeepsInv(s, e.id, Next(z, s, e).heap[e.id], Replaced(e.id), Next(z, s, e));
    }
  }

  lemma DeleteKeepsInv(z: Zone, s: Sys, id: Id, written: bool)
    requires Inv(s)
    ensures Inv(Next(z, s, Delete(id, written)))
  {
    var rest := Without(s.items, id);
    WithoutIsSublist(s.items, id);
    forall i | 0 <= i < |rest| ensures rest[i] in s.heap {
      assert rest[i] in rest;
    }
  }

  lemma StepKeepsInv(z: Zone, s: Sys, e: Event)
    requires Inv(s) && Enabled(s, e)
    ensures Inv(Next(z, s, e))
  {
    match e
    case Wait(_) =>
    case Tick => TickKeepsInv(z, s);
    case Begin => BeginKeepsInv(z, s);
    case Finish(ok, written) => FinishKeepsInv(z, s, ok, written);
    case Abandon =>
    case Create(_, _, _, _, _, _) => EditKeepsInv(z, s, e);
    case Update(_, _, _, _, _, _) => EditKeepsInv(z, s, e);
    case Delete(id, written) => DeleteKeepsInv(z, s, id, written);
    case RunNow(id) => RunNowKeepsInv(z, s, id);
    case Restart => RestartKeepsInv(z, s);
  }

  predicate Legal(z: Zone, s: Sys, events: seq<Event>)
    requires Inv(s)
    decreases |events|
  {
    events == [] ||
    (Enabled(s, events[0]) && (StepKeepsInv(z, s, events[0]); Legal(z, Next(z, s, events[0]), events[1..])))
  }

  function Run(z: Zone, s: Sys, events: seq<Event>): Sys
    requires Inv(s) && Legal(z, s, events)
    decreases |events|
  {
    if events == [] then s
    else StepKeepsInv(z, s, events[0]); Run(z, Next(z, s, events[0]), events[1..])
  }

  lemma {:induction false} RunsKeepInv(z: Zone, s: Sys, events: seq<Event>)
    requires Inv(s) && Legal(z, s, events)
    ensures Inv(Run(z, s, events))
    decreases |events|
  {
    if events != [] {
      StepKeepsInv(z, s, events[0]);
      RunsKeepInv(z, Next(z, s, events[0]), events[1..]);
    }
  }

  // --- what runs keep -------------------------------------------------------------------

  /** In any run an item's retries are 0 to 2: its consecutive failures, counted modulo three. */
  lemma RetriesStayBounded(z: Zone, s: Sys, events: seq<Event>, id: Id)
    requires Initial(s) && Legal(z, s, events) && id in Run(z, s, events).heap
    ensures var t := Run(z, s, events);
            t.heap[id].retries == Streak(t.log, id) % 3 && t.heap[id].retries <= MAX_RETRIES
  {
    InitialHasInv(s);
    RunsKeepInv(z, s, events);
    var t := Run(z, s, events);
    assert CountsStreak(t.heap[id], t.log, id);
  }

  /**
   After a failed execution the item is tried again five minutes later, except
   after every third failure in a row, which falls back to the regular cadence.
   A success always does.
   */
  lemma ThirdFailureFallsBack(z: Zone, s: Sys, ok: bool, written: bool)
    requires Inv(s) && Enabled(s, Finish(ok, written))
    ensures var id, t := s.running.value.id, Next(z, s, Finish(ok, written));
            t.heap[id].nextRun
              == if ok || Streak(t.log, id) % 3 == 0 then Millis(NextTime(z, s.heap[id].when, s.clock))
                 else Millis(s.clock + RETRY_DELAY)
  {
    var id := s.running.value.id;
    assert CountsStreak(s.heap[id], s.log, id);
    StreakAppend(s.log, Ended(id, ok), id);
    AnotherFailure(s.heap[id].retries, Streak(s.log, id));
  }

  lemma AnotherFailure(retries: nat, streak: nat)
    requires retries == streak % 3
    ensures (streak + 1) % 3 == 0 <==> retries == 2
  {
  }

  /**
   After an execution its item, and after a load every item, is next due strictly
   after the clock; what was to come stays.
   */
  lemma NothingIsBackfilled(z: Zone, s: Sys, e: Event)
    requires Regular(z) && Inv(s) && Enabled(s, e)
    ensures e.Finish? ==> Millis(s.clock) < Next(z, s, e).heap[s.running.value.id].nextRun
    ensures e.Restart? ==> forall id :: id in Next(z, s, e).heap ==> Millis(s.clock) < Next(z, s, e).heap[id].nextRun
    ensures e.Restart? ==> forall id :: id in s.file.heap && Millis(s.clock) < s.file.heap[id].nextRun ==>
                             Next(z, s, e).heap[id].nextRun == s.file.heap[id].nextRun
  {
    if e.Finish? {
      NextIsLater(z, s.heap[s.running.value.id].when, s.clock);
    } else if e.Restart? {
      forall id | id in Next(z, s, e).heap ensures Millis(s.clock) < Next(z, s, e).heap[id].nextRun {
        NextIsLater(z, s.file.heap[id].when, s.clock);
      }
    }
  }

  /** A tick right after a restart finds nothing to do. */
  lemma RestartedPanelIsIdle(z: Zone, s: Sys)
    requires Regular(z) && Inv(s)
    ensures Inv(Next(z, s, Restart)) && Next(z, Next(z, s, Restart), Tick).queue == []
  {
    var t := Next(z, s, Restart);
    StepKeepsInv(z, s, Restart);
    NothingIsBackfilled(z, s, Restart);
    NothingDue(t.items, t.heap, Millis(t.clock));
  }

  lemma {:induction false} NothingDue(items: seq<Id>, heap: map<Id, Schedule>, nowMs: int)
    requires AllIn(items, heap) && forall i :: 0 <= i < |items| ==> !Due(heap[items[i]], nowMs)
    ensures JobsOf(items, heap, nowMs) == []
  {
    if items != [] {
      NothingDue(items[1..], heap, nowMs);
    }
  }

  /** An item is collected exactly if it is listed and either asked for or enabled and due. */
  lemma CollectedIffAskedForOrDue(z: Zone, s: Sys, id: Id)
    requires Inv(s) && Enabled(s, Tick)
    ensures id in JobIds(Next(z, s, Tick).queue) <==>
              id in s.items &&
              (s.heap[id].runNow || (s.heap[id].enabled && 0 < s.heap[id].nextRun <= Millis(s.clock)))
    ensures id in s.items ==> !Next(z, s, Tick).heap[id].runNow
  {
    JobsAreTheDueItems(s.items, s.heap, Millis(s.clock));
  }

  // --- executions on an interval keep their distance ------------------------------------

  /** Every execution of the item started at least five minutes before `t`. */
  predicate SpacedFrom(log: seq<Entry>, id: Id, t: int) {
    forall i :: 0 <= i < |log| && log[i].Started? && log[i].job.id == id ==> log[i].at + Millis(MIN_INTERVAL) <= t
  }

  predicate LogSpaced(log: seq<Entry>) {
    forall j :: 0 <= j < |log| && log[j].Started? && log[j].job.timed && log[j].job.interval ==>
      SpacedFrom(log[..j], log[j].job.id, log[j].at)
  }

  predicate Past(log: seq<Entry>, nowMs: int) {
    forall i :: 0 <= i < |log| && log[i].Started? ==> log[i].at <= nowMs
  }

  predicate Busy(s: Sys, id: Id) { s.running.Some? && s.running.value.id == id }

  /** Its time can come, on an interval. */
  predicate Timed(s: Schedule) { s.when.Every? && s.enabled && 0 < s.nextRun }

  predicate ItemSpaced(s: Sys, id: Id)
    requires id in s.heap
  {
    id in s.items && Timed(s.heap[id]) && !Busy(s, id) ==> SpacedFrom(s.log, id, s.heap[id].nextRun)
  }

  predicate JobSpaced(s: Sys, job: Job) {
    job.timed && job.interval ==> SpacedFrom(s.log, job.id, Millis(s.clock))
  }

  predicate Spaced(s: Sys) {
    && LogSpaced(s.log) && Past(s.log, Millis(s.clock))
    && (forall id :: id in s.heap ==> ItemSpaced(s, id))
    && (forall i :: 0 <= i < |s.queue| ==> JobSpaced(s, s.queue[i]))
  }

  lemma SpacedAppend(log: seq<Entry>, e: Entry, id: Id, t: int)
    requires SpacedFrom(log, id, t)
    requires e.Started? && e.job.id == id ==> e.at + Millis(MIN_INTERVAL) <= t
    ensures SpacedFrom(log + [e], id, t)
  {
  }

  lemma SpacedLater(log: seq<Entry>, id: Id, t: int, u: int)
    requires SpacedFrom(log, id, t) && t <= u
    ensures SpacedFrom(log, id, u)
  {
  }

  lemma LogSpacedAppend(log: seq<Entry>, e: Entry)
    requires LogSpaced(log)
    requires e.Started? && e.job.timed && e.job.interval ==> SpacedFrom(log, e.job.id, e.at)
    ensures LogSpaced(log + [e])
  {
  }

  lemma TickKeepsSpaced(z: Zone, s: Sys)
    requires Inv(s) && Spaced(s) && Enabled(s, Tick)
    ensures Spaced(Next(z, s, Tick))
  {
    var t, nowMs := Next(z, s, Tick), Millis(s.clock);
    JobsAreTheDueItems(s.items, s.heap, nowMs);
    forall i | 0 <= i < |t.queue| ensures JobSpaced(t, t.queue[i]) {
      var job := t.queue[i];
      assert JobIds(t.queue)[i] == job.id;
      assert ItemSpaced(s, job.id);
      if job.timed && job.interval {
        SpacedLater(s.log, job.id, s.heap[job.id].nextRun, nowMs);
      }
    }
    forall id | id in t.heap ensures ItemSpaced(t, id) {
      assert ItemSpaced(s, id);
    }
  }

  lemma BeginKeepsSpaced(z: Zone, s: Sys)
    requires Inv(s) && Spaced(s) && Enabled(s, Begin)
    ensures Spaced(Next(z, s, Begin))
  {
    var t, job := Next(z, s, Begin), s.queue[0];
    var entry := Started(job, Millis(s.clock));
    assert JobSpaced(s, s.queue[0]);
    LogSpacedAppend(s.log, entry);
    forall id | id in t.heap ensures ItemSpaced(t, id) {
      assert ItemSpaced(s, id);
      if id != job.id && id in t.items && Timed(t.heap[id]) {
        SpacedAppend(s.log, entry, id, t.heap[id].nextRun);
      }
    }
    forall i | 0 <= i < |t.queue| ensures JobSpaced(t, t.queue[i]) {
      assert JobSpaced(s, s.queue[i + 1]);
      assert JobIds(s.queue)[0] != JobIds(s.queue)[i + 1];
      if t.queue[i].timed && t.queue[i].interval {
        SpacedAppend(s.log, entry, t.queue[i].id, Millis(t.clock));
      }
    }
  }

  /** Steps that give one item a next run at least five minutes away, or put it on a calendar. */
  lemma ChangeKeepsSpaced(s: Sys, id: Id, v: Schedule, entry: Entry, t: Sys)
    requires Inv(s) && Spaced(s) && !entry.Started?
    requires t.clock == s.clock && t.heap == s.heap[id := v] && t.log == s.log + [entry] && t.queue == s.queue
    requires t.items == s.items || t.items == s.items + [id]
    requires v.when.Every? ==> Millis(s.clock) + Millis(MIN_INTERVAL) <= v.nextRun
    requires t.running == s.running || (Busy(s, id) && t.running.None?)
    ensures Spaced(t)
  {
  }

  lemma WaitKeepsSpaced(s: Sys, ns: nat)
    requires Inv(s) && Spaced(s)
    ensures Spaced(s.(clock := s.clock + ns))
  {
  }

  /** Steps that leave clock, log, next runs and executions alone, and shorten the queue at most. */
  lemma QuietStepKeepsSpaced(s: Sys, t: Sys)
    requires Inv(s) && Spaced(s)
    requires t.clock == s.clock && t.log == s.log && t.running == s.running && (t.queue == s.queue || t.queue == [])
    requires t.heap.Keys == s.heap.Keys && forall id :: id in t.items ==> id in s.items
    requires forall id :: id in s.heap ==>
               Timed(t.heap[id]) == Timed(s.heap[id]) && t.heap[id].nextRun == s.heap[id].nextRun
    ensures Spaced(t)
  {
  }

  lemma FinishKeepsSpaced(z: Zone, s: Sys, ok: bool, written: bool)
    requires Regular(z) && Inv(s) && Spaced(s) && Enabled(s, Finish(ok, written))
    ensures Spaced(Next(z, s, Finish(ok, written)))
  {
    var id := s.running.value.id;
    NextIsLater(z, s.heap[id].when, s.clock);
    ChangeKeepsSpaced(s, id, FinishBlock(z, s.heap[id], s.clock, ok), Ended(id, ok), Next(z, s, Finish(ok, written)));
  }

  lemma EditKeepsSpaced(z: Zone, s: Sys, e: Event)
    requires Regular(z) && Inv(s) && Spaced(s) && Enabled(s, e) && (e.Create? || e.Update?)
    ensures Spaced(Next(z, s, e))
  {
    if IsValid(e.when) && e.targetOk && (e.Create? || e.id in s.items) {
      NextIsLater(z, e.when, s.clock);
      ChangeKeepsSpaced(s, e.id, Next(z, s, e).heap[e.id], Replaced(e.id), Next(z, s, e));
    }
  }

  /**
   Every enabled interval item listed in the file is due, and so will be moved
   on, or is far enough from every execution of it.
   */
  predicate SafeFile(s: Sys)
    requires AllIn(s.file.items, s.file.heap)
  {
    forall i :: 0 <= i < |s.file.items| ==> SafeItem(s, s.file.items[i])
  }

  predicate SafeItem(s: Sys, id: Id)
    requires id in s.file.heap
  {
    Timed(s.file.heap[id]) ==>
      s.file.heap[id].nextRun <= Millis(s.clock) || SpacedFrom(s.log, id, s.file.heap[id].nextRun)
  }

  lemma RestartKeepsSpaced(z: Zone, s: Sys)
    requires Regular(z) && Inv(s) && Spaced(s) && SafeFile(s)
    ensures Spaced(Next(z, s, Restart))
  {
    var t := Next(z, s, Restart);
    LogSpacedAppend(s.log, Booted);
    forall id | id in t.heap ensures ItemSpaced(t, id) {
      if id in t.items {
        var i :| 0 <= i < |s.file.items| && s.file.items[i] == id;
        assert SafeItem(s, s.file.items[i]);
      }
      NextIsLater(z, s.file.heap[id].when, s.clock);
    }
  }

  lemma StepKeepsSpaced(z: Zone, s: Sys, e: Event)
    requires Regular(z) && Inv(s) && Spaced(s) && Enabled(s, e) && (e.Restart? ==> SafeFile(s))
    ensures Spaced(Next(z, s, e))
  {
    match e
    case Wait(ns) => WaitKeepsSpaced(s, ns);
    case Tick => TickKeepsSpaced(z, s);
    case Begin => BeginKeepsSpaced(z, s);
    case Finish(ok, written) => FinishKeepsSpaced(z, s, ok, written);
    case Create(_, _, _, _, _, _) => EditKeepsSpaced(z, s, e);
    case Update(_, _, _, _, _, _) => EditKeepsSpaced(z, s, e);
    case Abandon => QuietStepKeepsSpaced(s, Next(z, s, e));
    case Delete(id, _) =>
      WithoutIsSublist(s.items, id);
      QuietStepKeepsSpaced(s, Next(z, s, e));
    case RunNow(_) => QuietStepKeepsSpaced(s, Next(z, s, e));
    case Restart => RestartKeepsSpaced(z, s);
  }

  /** Every restart in the run finds a file that is safe to load. */
  predicate SafeRestarts(z: Zone, s: Sys, events: seq<Event>)
    requires Inv(s) && Legal(z, s, events)
    decreases |events|
  {
    events == [] ||
    (&& (events[0].Restart? ==> SafeFile(s))
     && (StepKeepsInv(z, s, events[0]); SafeRestarts(z, Next(z, s, events[0]), events[1..])))
  }

  lemma {:induction false} RunsKeepSpaced(z: Zone, s: Sys, events: seq<Event>)
    requires Regular(z) && Inv(s) && Spaced(s) && Legal(z, s, events) && SafeRestarts(z, s, events)
    ensures Spaced(Run(z, s, events))
    decreases |events|
  {
    if events != [] {
      StepKeepsInv(z, s, events[0]);
      StepKeepsSpaced(z, s, events[0]);
      RunsKeepSpaced(z, Next(z, s, events[0]), events[1..]);
    }
  }

  /**
   An execution of an item that was collected because of the time, on an
   interval, starts at least five minutes after every earlier execution of that
   item, however the item was edited, retried or run by hand in between, as long
   as every restart of the panel finds a safe file; without restarts, always.
   Times are the milliseconds the scheduler compares.
   */
  lemma IntervalRunsKeepTheirDistance(z: Zone, s: Sys, events: seq<Event>, i: nat, j: nat)
    requires Regular(z) && Initial(s) && Legal(z, s, events) && SafeRestarts(z, s, events)
    requires i < j < |Run(z, s, events).log|
    requires var log := Run(z, s, events).log;
             log[i].Started? && log[j].Started? && log[i].job.id == log[j].job.id
             && log[j].job.timed && log[j].job.interval
    ensures var log := Run(z, s, events).log; log[i].at + 300_000 <= log[j].at
  {
    RunsKeepSpaced(z, s, events);
    var log := Run(z, s, events).log;
    assert SpacedFrom(log[..j], log[j].job.id, log[j].at);
    assert log[..j][i] == log[i];
  }

  predicate NoRestart(events: seq<Event>) { forall i :: 0 <= i < |events| ==> !events[i].Restart? }

  lemma {:induction false} NoRestartIsSafe(z: Zone, s: Sys, events: seq<Event>)
    requires Inv(s) && Legal(z, s, events) && NoRestart(events)
    ensures SafeRestarts(z, s, events)
    decreases |events|
  {
    if events != [] {
      StepKeepsInv(z, s, events[0]);
      NoRestartIsSafe(z, Next(z, s, events[0]), events[1..]);
    }
  }

  /** What breaks the distance: waiting for the next run in the file after a restart, and collecting. */
  function Reload(s: Sys, id: Id): seq<Event>
    requires id in s.file.heap && Millis(s.clock) < s.file.heap[id].nextRun
  {
    [Restart, Wait(s.file.heap[id].nextRun * MILLI - s.clock), Tick]
  }

  /**
   The condition is exact: a restart with an item that is not safe can be
   followed by a tick that collects the item because of the time, less than five
   minutes after an execution of it started.
   */
  lemma UnsafeRestartBreaksTheDistance(z: Zone, s: Sys, id: Id)
    requires Regular(z) && Inv(s) && id in s.file.items && !SafeItem(s, id)
    ensures Millis(s.clock) < s.file.heap[id].nextRun && Legal(z, s, Reload(s, id))
    ensures var t := Run(z, s, Reload(s, id));
            Job(id, true, true) in t.queue && !SpacedFrom(t.log, id, Millis(t.clock))
  {
    var loaded := Next(z, s, Restart);
    StepKeepsInv(z, s, Restart);
    var due := Next(z, loaded, Reload(s, id)[1]);
    StepKeepsInv(z, loaded, Reload(s, id)[1]);
    StepKeepsInv(z, due, Tick);
    ReloadedIsDue(z, s, id, loaded, due);
    TickCollects(due, id);
    ReloadRuns(z, s, id, loaded, due, Next(z, due, Tick));
    StillTooClose(s.log, Booted, id, s.file.heap[id].nextRun);
  }

  lemma StillTooClose(log: seq<Entry>, e: Entry, id: Id, t: int)
    requires !SpacedFrom(log, id, t)
    ensures !SpacedFrom(log + [e], id, t)
  {
    var i :| 0 <= i < |log| && log[i].Started? && log[i].job.id == id && log[i].at + Millis(MIN_INTERVAL) > t;
    assert (log + [e])[i] == log[i];
  }

  lemma ReloadedIsDue(z: Zone, s: Sys, id: Id, loaded: Sys, due: Sys)
    requires Inv(s) && id in s.file.items && !SafeItem(s, id)
    requires loaded == Next(z, s, Restart) && Inv(loaded) && due == Next(z, loaded, Reload(s, id)[1])
    ensures id in due.items && id in due.heap && Millis(due.clock) == s.file.heap[id].nextRun
    ensures due.heap[id].when.Every? && DueByTime(due.heap[id], Millis(due.clock)) && due.log == s.log + [Booted]
    ensures due.queue == [] && due.running.None?
  {
  }

  lemma TickCollects(s: Sys, id: Id)
    requires Inv(s) && id in s.items && DueByTime(s.heap[id], Millis(s.clock)) && s.heap[id].when.Every?
    ensures Job(id, true, true) in Collected(s).queue
  {
    JobsAreTheDueItems(s.items, s.heap, Millis(s.clock));
    var queue := Collected(s).queue;
    assert id in JobIds(queue);
    var k :| 0 <= k < |JobIds(queue)| && JobIds(queue)[k] == id;
    assert queue[k] == Job(id, true, true);
  }

  lemma ReloadRuns(z: Zone, s: Sys, id: Id, loaded: Sys, due: Sys, t: Sys)
    requires Inv(s) && id in s.file.heap && Millis(s.clock) < s.file.heap[id].nextRun
    requires loaded == Next(z, s, Restart) && Inv(loaded)
    requires due == Next(z, loaded, Reload(s, id)[1]) && Inv(due)
    requires Enabled(due, Tick) && t == Next(z, due, Tick) && Inv(t)
    ensures Legal(z, s, Reload(s, id)) && Run(z, s, Reload(s, id)) == t
  {
    assert Reload(s, id)[1..][1..] == [Tick] && [Tick][1..] == [];
    assert Legal(z, due, [Tick]) && Run(z, due, [Tick]) == t;
    assert Legal(z, loaded, Reload(s, id)[1..]) && Run(z, loaded, Reload(s, id)[1..]) == t;
  }

  // --- what the engine does not check ------------------------------------------------------

  /** An update forgets that an execution was asked for: the next tick passes the item by. */
  lemma UpdateDropsRequest(z: Zone, s: Sys, id: Id, task: string, enabled: bool, when: Recurrence, written: bool)
    requires Regular(z) && Inv(s) && Enabled(s, Tick) && id in s.items && IsValid(when)
    ensures var asked := Next(z, s, RunNow(id));
            Inv(asked) && id in JobIds(Next(z, asked, Tick).queue) &&
            var edited := Next(z, asked, Update(id, task, enabled, when, true, written));
            Inv(edited) && id !in JobIds(Next(z, edited, Tick).queue) && edited.heap[id].retries == 0
  {
    var asked := Next(z, s, RunNow(id));
    StepKeepsInv(z, s, RunNow(id));
    CollectedIffAskedForOrDue(z, asked, id);
    var update := Update(id, task, enabled, when, true, written);
    StepKeepsInv(z, asked, update);
    NextIsLater(z, when, s.clock);
    CollectedIffAskedForOrDue(z, Next(z, asked, update), id);
  }

  /** What was collected is not looked at again: no edit, deletion or request takes a job out of the queue. */
  lemma CollectedJobsGoAhead(z: Zone, s: Sys, e: Event)
    requires Inv(s) && Enabled(s, e) && s.queue != [] && !e.Begin? && !e.Abandon? && !e.Restart?
    ensures Next(z, s, e).queue == s.queue
  {
  }

  /** So a schedule that was deleted, or disabled, after it was collected still runs. */
  lemma DeletedItemStillRuns(z: Zone, s: Sys, written: bool)
    requires Inv(s) && Enabled(s, Begin) && s.queue[0].id in s.items
    ensures var id := s.queue[0].id;
            var t := Next(z, s, Delete(id, written));
            Inv(t) && id !in t.items && Enabled(t, Begin)
            && Next(z, t, Begin).running == Some(s.queue[0]) && Next(z, t, Begin).log[|s.log|].Started?
  {
    StepKeepsInv(z, s, Delete(s.queue[0].id, written));
    WithoutIsSublist(s.items, s.queue[0].id);
  }
}

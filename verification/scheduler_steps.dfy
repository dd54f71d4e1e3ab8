/**
 What each step of the scheduler does to the items and to the file, told without
 the blocks of the engine (internal/sched/engine.go:78-279, internal/sched/sched.go:130-158).
 */
module SchedulerSteps {
  import opened Prelude
  import opened Calendar
  import opened Scheduler
  import opened SchedulerRuns

  /** Day 0 is a Thursday, and the weekdays go round. */
  lemma WeekdaysGoRound(day: int)
    ensures Weekday(0) == 4 && Weekday(day + 1) == (Weekday(day) + 1) % 7 && 0 <= Weekday(day) < 7
  {
  }

  /** Sundays at four, asked for at the beginning of 1970, a Thursday: three days and four hours later. */
  lemma SundayAtFour()
    ensures NextTime(Utc(), Weekly(0, 240), 0) == 3 * DAY + 240 * MINUTE
  {
    UtcIsRegular();
    NextTimeIsDueNext(Utc(), Weekly(0, 240), 0);
    var t := NextTime(Utc(), Weekly(0, 240), 0);
    assert Utc().at(3, 240) == 3 * DAY + 240 * MINUTE;
    assert Fits(3, OnlyOn(0)) && t <= Utc().at(3, 240);
    assert 0 <= Utc().dayOf(t) <= 3;
  }

  /** The item is due again at such a time, in milliseconds. */
  ghost predicate FollowsCadence(z: Zone, s: Schedule, when: Recurrence, now: int) {
    exists t :: IsDueNext(z, when, now, t) && s.nextRun == Millis(t)
  }

  lemma NextTimeFollowsCadence(z: Zone, s: Schedule, when: Recurrence, now: int)
    requires Regular(z) && IsValid(when) && s.nextRun == Millis(NextTime(z, when, now))
    ensures FollowsCadence(z, s, when, now)
  {
    NextTimeIsDueNext(z, when, now);
  }

  /** The step changed the contents of one item at most, and the file is as before or holds everything listed now. */
  predicate OnlyItem(s: Sys, t: Sys, id: Id, written: bool) {
    && t.heap.Keys == s.heap.Keys + {id} && (forall i :: i in s.heap && i != id ==> t.heap[i] == s.heap[i])
    && t.clock == s.clock && t.queue == s.queue
    && t.file == if written then File(t.items, t.heap) else s.file
  }

  /** A created schedule is new, at the end of the list, due by its cadence, and has not run. */
  lemma CreateActs(
    z: Zone, s: Sys, id: Id, task: string, enabled: bool, when: Recurrence, targetOk: bool, written: bool)
    requires Regular(z) && Inv(s) && id !in s.heap
    ensures var t := Next(z, s, Create(id, task, enabled, when, targetOk, written));
            if IsValid(when) && targetOk then
              && t.items == s.items + [id] && OnlyItem(s, t, id, written) && t.running == s.running
              && FollowsCadence(z, t.heap[id], when, s.clock)
              && t.heap[id] == Schedule(task, enabled, when, t.heap[id].nextRun, 0, NoRunYet, 0, false)
            else t == s
  {
    if IsValid(when) && targetOk {
      var t := Next(z, s, Create(id, task, enabled, when, targetOk, written));
      NextTimeFollowsCadence(z, t.heap[id], when, s.clock);
    }
  }

  /** An update replaces what was asked for, keeps the last run and its result, and starts the cadence anew. */
  lemma UpdateActs(
    z: Zone, s: Sys, id: Id, task: string, enabled: bool, when: Recurrence, targetOk: bool, written: bool)
    requires Regular(z) && Inv(s)
    ensures var t := Next(z, s, Update(id, task, enabled, when, targetOk, written));
            if IsValid(when) && targetOk && id in s.items then
              && t.items == s.items && OnlyItem(s, t, id, written) && t.running == s.running
              && FollowsCadence(z, t.heap[id], when, s.clock)
              && t.heap[id] == Schedule(task, enabled, when, t.heap[id].nextRun, s.heap[id].lastRun, s.heap[id].outcome,
                                        0, false)
            else t == s
  {
    if IsValid(when) && targetOk && id in s.items {
      var t := Next(z, s, Update(id, task, enabled, when, targetOk, written));
      NextTimeFollowsCadence(z, t.heap[id], when, s.clock);
    }
  }

  /**
   An execution that ends is the item's last run. After a success, and after the
   third failure in a row, the item goes back to its cadence; after another
   failure it is tried again in five minutes.
   */
  lemma FinishActs(z: Zone, s: Sys, ok: bool, written: bool)
    requires Regular(z) && Inv(s) && s.running.Some?
    ensures var t, id := Next(z, s, Finish(ok, written)), s.running.value.id;
            var again := !ok && s.heap[id].retries < 2;
            && id in s.heap && t.items == s.items && OnlyItem(s, t, id, written) && t.running.None?
            && (again ==> t.heap[id].nextRun == Millis(s.clock + 300_000_000_000))
            && (!again ==> FollowsCadence(z, t.heap[id], s.heap[id].when, s.clock))
            && t.heap[id] == s.heap[id].(lastRun := Millis(s.clock), nextRun := t.heap[id].nextRun,
                                         retries := if again then s.heap[id].retries + 1 else 0,
                                         outcome := if ok then Succeeded else if again then FailedWillRetry else Failed)
  {
    var t, id := Next(z, s, Finish(ok, written)), s.running.value.id;
    if ok || s.heap[id].retries >= 2 {
      NextTimeFollowsCadence(z, t.heap[id], s.heap[id].when, s.clock);
    }
  }

  /** Deleting takes the item off the list and nothing else; a request marks it and nothing else. */
  lemma DeleteAndRunNowAct(z: Zone, s: Sys, id: Id, written: bool)
    requires Inv(s)
    ensures var t := Next(z, s, Delete(id, written));
            if id in s.items then
              && (forall i :: i in t.items <==> i in s.items && i != id) && Distinct(t.items)
              && OnlyItem(s, t, id, written) && t.heap == s.heap && t.running == s.running && t.log == s.log
            else t == s
    ensures var t := Next(z, s, RunNow(id));
            if id in s.items then
              && t.items == s.items && OnlyItem(s, t, id, false) && t.running == s.running && t.log == s.log
              && t.heap[id] == s.heap[id].(runNow := true)
            else t == s
  {
    WithoutIsSublist(s.items, id);
  }

  /** A tick takes back the requests it collected and changes nothing else of any item. */
  lemma TickActs(z: Zone, s: Sys, id: Id)
    requires Inv(s) && Enabled(s, Tick) && id in s.heap
    ensures var t := Next(z, s, Tick);
            && t.heap.Keys == s.heap.Keys && t.items == s.items && t.file == s.file && t.log == s.log
            && t.heap[id] == (if id in s.items then s.heap[id].(runNow := false) else s.heap[id])
  {
  }

  /**
   A start of the panel lists what the file holds. Missed occurrences are moved
   on to the cadence; all else is as in the file, without retries and requests.
   */
  lemma RestartActs(z: Zone, s: Sys, id: Id)
    requires Regular(z) && Inv(s) && id in s.file.heap
    ensures var t, saved := Next(z, s, Restart), s.file.heap[id];
            && t.items == s.file.items && t.heap.Keys == s.file.heap.Keys && t.file == s.file
            && t.queue == [] && t.running.None?
            && t.heap[id] == saved.(nextRun := t.heap[id].nextRun, retries := 0, runNow := false)
            && (saved.nextRun > Millis(s.clock) ==> t.heap[id].nextRun == saved.nextRun)
            && (saved.nextRun <= Millis(s.clock) ==> FollowsCadence(z, t.heap[id], saved.when, s.clock))
  {
    var t, saved := Next(z, s, Restart), s.file.heap[id];
    if saved.nextRun <= Millis(s.clock) {
      NextTimeFollowsCadence(z, t.heap[id], saved.when, s.clock);
    }
  }
}

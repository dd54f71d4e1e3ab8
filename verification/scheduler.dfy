/**
 Scheduled tasks (internal/sched/engine.go, internal/sched/sched.go): each
 mutex-held block as a function on one schedule, and the engine whose methods
 change schedules in place. Times given by the clock are nanoseconds, stored
 times milliseconds.
 */
module Scheduler {
  import opened Calendar

  const RETRY_DELAY := 5 * MINUTE
  const MAX_RETRIES := 2
  const MIN_INTERVAL := 5 * MINUTE
  const MAX_INTERVAL := 720 * 60 * MINUTE

  datatype Recurrence = Every(interval: int) | Daily(minute: int) | Weekly(weekday: int, minute: int)

  /** What Validate asks of a recurrence. */
  predicate IsValid(when: Recurrence) {
    match when
    case Every(d) => MIN_INTERVAL <= d <= MAX_INTERVAL
    case Daily(m) => IsMinute(m)
    case Weekly(w, m) => 0 <= w < 7 && IsMinute(m)
  }

  function NextTime(z: Zone, when: Recurrence, now: int): int
    requires IsValid(when)
  {
    match when
    case Every(d) => now + d
    case Daily(m) => NextInstant(z, now, m, AnyDay)
    case Weekly(w, m) => NextInstant(z, now, m, OnlyOn(w))
  }

  lemma NextIsLater(z: Zone, when: Recurrence, now: int)
    requires Regular(z) && IsValid(when)
    ensures now < NextTime(z, when, now) && Millis(now) < Millis(NextTime(z, when, now))
    ensures when.Every? ==> Millis(now) + Millis(MIN_INTERVAL) <= Millis(NextTime(z, when, now))
  {
  }

  /** `t` is when a schedule is next due after `now`: so much later, or the first such time of day on a fitting day. */
  ghost predicate IsDueNext(z: Zone, when: Recurrence, now: int, t: int) {
    match when
    case Every(d) => t == now + d
    case Daily(m) => IsNext(z, now, m, AnyDay, t)
    case Weekly(w, m) => IsNext(z, now, m, OnlyOn(w), t)
  }

  lemma NextTimeIsDueNext(z: Zone, when: Recurrence, now: int)
    requires Regular(z) && IsValid(when)
    ensures IsDueNext(z, when, now, NextTime(z, when, now))
  {
    match when
    case Every(_) =>
    case Daily(m) => NextInstantIsNext(z, now, m, AnyDay);
    case Weekly(w, m) => NextInstantIsNext(z, now, m, OnlyOn(w));
  }

  lemma IsDueNextIsUnique(z: Zone, when: Recurrence, now: int, t: int, u: int)
    requires IsDueNext(z, when, now, t) && IsDueNext(z, when, now, u)
    ensures t == u
  {
  }

  datatype Outcome = NoRunYet | Succeeded | FailedWillRetry | Failed

  /** One schedule; `task` stands for its name, action and the action's parameters. */
  datatype Schedule = Schedule(
    task: string, enabled: bool, when: Recurrence,
    nextRun: int, lastRun: int, outcome: Outcome, retries: nat, runNow: bool)

  // --- the mutex-held blocks ----------------------------------------------------------

  predicate DueByTime(s: Schedule, nowMs: int) { s.enabled && 0 < s.nextRun <= nowMs }

  predicate Due(s: Schedule, nowMs: int) { s.runNow || DueByTime(s, nowMs) }

  function CollectBlock(s: Schedule, nowMs: int): Schedule {
    if Due(s, nowMs) then s.(runNow := false) else s
  }

  function FinishBlock(z: Zone, s: Schedule, now: int, ok: bool): Schedule
    requires IsValid(s.when)
  {
    var regular := Millis(NextTime(z, s.when, now));
    if ok then
      s.(lastRun := Millis(now), retries := 0, outcome := Succeeded, nextRun := regular)
    else if s.retries + 1 <= MAX_RETRIES then
      s.(lastRun := Millis(now), retries := s.retries + 1, outcome := FailedWillRetry,
         nextRun := Millis(now + RETRY_DELAY))
    else
      s.(lastRun := Millis(now), retries := 0, outcome := Failed, nextRun := regular)
  }

  function CreateBlock(z: Zone, task: string, enabled: bool, when: Recurrence, now: int): Schedule
    requires IsValid(when)
  {
    Schedule(task, enabled, when, Millis(NextTime(z, when, now)), 0, NoRunYet, 0, false)
  }

  /** The request body replaces everything but the last run and its result. */
  function UpdateBlock(z: Zone, s: Schedule, task: string, enabled: bool, when: Recurrence, now: int): Schedule
    requires IsValid(when)
  {
    Schedule(task, enabled, when, Millis(NextTime(z, when, now)), s.lastRun, s.outcome, 0, false)
  }

  /** What schedules.json keeps of a schedule: retries and runNow are not written. */
  function Saved(s: Schedule): Schedule { s.(retries := 0, runNow := false) }

  function LoadBlock(z: Zone, saved: Schedule, now: int): Schedule
    requires IsValid(saved.when)
  {
    if saved.nextRun <= Millis(now) then saved.(nextRun := Millis(NextTime(z, saved.when, now))) else saved
  }

  // --- the engine ----------------------------------------------------------------------

  class Item {
    const id: string
    var task: string
    var enabled: bool
    var when: Recurrence
    var nextRun: int
    var lastRun: int
    var outcome: Outcome
    var retries: nat
    var runNow: bool

    constructor (id: string, s: Schedule)
      ensures this.id == id && Value() == s
    {
      this.id := id;
      task, enabled, when := s.task, s.enabled, s.when;
      nextRun, lastRun, outcome, retries, runNow := s.nextRun, s.lastRun, s.outcome, s.retries, s.runNow;
    }

    function Value(): Schedule
      reads this
    {
      Schedule(task, enabled, when, nextRun, lastRun, outcome, retries, runNow)
    }
  }

  function Values(items: seq<Item>): seq<Schedule>
    reads items
  {
    seq(|items|, i requires 0 <= i < |items| reads items => items[i].Value())
  }

  /** The items whose schedule is due, in collection order. */
  function DueItems(items: seq<Item>, values: seq<Schedule>, nowMs: int): seq<Item>
    requires |items| == |values|
  {
    if items == [] then []
    else (if Due(values[0], nowMs) then [items[0]] else []) + DueItems(items[1..], values[1..], nowMs)
  }

  lemma DueStep(items: seq<Item>, values: seq<Schedule>, i: nat, due: seq<Item>, nowMs: int)
    requires i < |items| == |values|
    ensures due + DueItems(items[i..], values[i..], nowMs)
         == (if Due(values[i], nowMs) then due + [items[i]] else due) + DueItems(items[i + 1..], values[i + 1..], nowMs)
  {
  }

  /** Which items are due, and in which order: exactly those asked for, or enabled with their time come, as listed. */
  lemma {:induction false} DueItemsIff(items: seq<Item>, values: seq<Schedule>, nowMs: int, item: Item)
    requires |items| == |values| && forall i, j :: 0 <= i < j < |items| ==> items[i] != items[j]
    ensures item in DueItems(items, values, nowMs) <==>
              exists i :: 0 <= i < |items| && items[i] == item &&
                (values[i].runNow || (values[i].enabled && 0 < values[i].nextRun <= nowMs))
  {
    if items != [] {
      DueItemsIff(items[1..], values[1..], nowMs, item);
      if item in DueItems(items[1..], values[1..], nowMs) {
        var i :| 0 <= i < |items[1..]| && items[1..][i] == item &&
                 (values[1..][i].runNow || (values[1..][i].enabled && 0 < values[1..][i].nextRun <= nowMs));
        assert items[i + 1] == item && values[i + 1] == values[1..][i];
      }
      assert forall i :: 0 < i < |items| ==> items[1..][i - 1] == items[i] && values[1..][i - 1] == values[i];
    }
  }

  /** They are collected in the order of the list. */
  lemma {:induction false} DueItemsKeepTheOrder(items: seq<Item>, values: seq<Schedule>, nowMs: int)
      returns (at: seq<nat>)
    requires |items| == |values|
    ensures |at| == |DueItems(items, values, nowMs)|
    ensures forall k :: 0 <= k < |at| ==> at[k] < |items| && DueItems(items, values, nowMs)[k] == items[at[k]]
    ensures forall k, l :: 0 <= k < l < |at| ==> at[k] < at[l]
  {
    at := [];
    if items != [] {
      var rest := DueItemsKeepTheOrder(items[1..], values[1..], nowMs);
      var shifted := seq(|rest|, k requires 0 <= k < |rest| => rest[k] + 1);
      at := if Due(values[0], nowMs) then [0] + shifted else shifted;
    }
  }

  /** Position of the first item with the id, or the length. */
  function Position(items: seq<Item>, id: string): (i: nat)
    ensures i <= |items|
    ensures forall k :: 0 <= k < i ==> items[k].id != id
    ensures i < |items| ==> items[i].id == id
  {
    if items == [] || items[0].id == id then 0 else 1 + Position(items[1..], id)
  }

  class Engine {
    const zone: Zone
    var items: seq<Item>

    ghost predicate Valid()
      reads this, items
    {
      && (forall i, j :: 0 <= i < j < |items| ==> items[i] != items[j])
      && (forall i :: 0 <= i < |items| ==> IsValid(items[i].when))
    }

    constructor (zone: Zone)
      ensures Valid() && items == [] && this.zone == zone
    {
      this.zone := zone;
      items := [];
    }

    /** The loop of tick under the lock; the items it returns are run after the lock is released. */
    method Collect(now: int) returns (due: seq<Item>)
      requires Valid()
      modifies items
      ensures Valid() && due == DueItems(items, old(Values(items)), Millis(now))
      ensures forall i :: 0 <= i < |items| ==> items[i].Value() == CollectBlock(old(items[i].Value()), Millis(now))
    {
      due := [];
      ghost var values := Values(items);
      for i := 0 to |items|
        invariant DueItems(items, values, Millis(now)) == due + DueItems(items[i..], values[i..], Millis(now))
        invariant forall k :: 0 <= k < i ==> items[k].Value() == CollectBlock(values[k], Millis(now))
        invariant forall k :: i <= k < |items| ==> items[k].Value() == values[k]
      {
        DueStep(items, values, i, due, Millis(now));
        var s := items[i];
        assert s.Value() == values[i];
        if s.runNow || (s.enabled && s.nextRun > 0 && s.nextRun <= Millis(now)) {
          s.runNow := false;
          due := due + [s];
        }
      }
    }

    /** next, which calls nextAtTime for a time of day. */
    method NextOf(when: Recurrence, now: int) returns (t: int)
      requires Regular(zone) && IsValid(when)
      ensures t == NextTime(zone, when, now) && IsDueNext(zone, when, now, t)
    {
      match when {
        case Every(d) =>
          t := now + d;
        case Daily(m) =>
          t := NextAtTime(zone, now, m, AnyDay);
          NextInstantIsNext(zone, now, m, AnyDay);
          NextIsUnique(zone, now, m, AnyDay, t, NextTime(zone, when, now));
        case Weekly(w, m) =>
          t := NextAtTime(zone, now, m, OnlyOn(w));
          NextInstantIsNext(zone, now, m, OnlyOn(w));
          NextIsUnique(zone, now, m, OnlyOn(w), t, NextTime(zone, when, now));
      }
    }

    /** The second half of runOne: the execution ended at `now`; the item may have been deleted meanwhile. */
    method Finish(s: Item, now: int, ok: bool)
      requires Regular(zone) && IsValid(s.when)
      modifies s
      ensures s.Value() == FinishBlock(zone, old(s.Value()), now, ok)
    {
      s.lastRun := Millis(now);
      if ok {
        s.retries := 0;
        s.outcome := Succeeded;
        var t := NextOf(s.when, now);
        s.nextRun := Millis(t);
      } else {
        s.retries := s.retries + 1;
        if s.retries <= MAX_RETRIES {
          s.outcome := FailedWillRetry;
          s.nextRun := Millis(now + RETRY_DELAY);
        } else {
          s.retries := 0;
          s.outcome := Failed;
          var t := NextOf(s.when, now);
          s.nextRun := Millis(t);
        }
      }
    }

    /** An accepted schedule is in the list even when saving the list fails, which is reported. */
    method Create(id: string, task: string, enabled: bool, when: Recurrence, targetOk: bool, now: int, saved: bool)
      returns (ok: bool)
      requires Valid() && Regular(zone)
      modifies this
      ensures Valid() && ok == (IsValid(when) && targetOk && saved)
      ensures !(IsValid(when) && targetOk) ==> items == old(items)
      ensures IsValid(when) && targetOk ==>
                && |items| == |old(items)| + 1 && items[..|old(items)|] == old(items)
                && var s := items[|old(items)|];
                   fresh(s) && s.id == id && s.Value() == CreateBlock(zone, task, enabled, when, now)
    {
      if !IsValid(when) || !targetOk {
        return false;
      }
      var t := NextOf(when, now);
      var item := new Item(id, Schedule(task, enabled, when, Millis(t), 0, NoRunYet, 0, false));
      items := items + [item];
      return saved;
    }

    method Update(id: string, task: string, enabled: bool, when: Recurrence, targetOk: bool, now: int, saved: bool)
      returns (ok: bool)
      requires Valid() && Regular(zone)
      modifies items
      ensures Valid() && ok == (IsValid(when) && targetOk && Position(items, id) < |items| && saved)
      ensures forall i :: 0 <= i < |items| ==>
                items[i].Value() == if IsValid(when) && targetOk && i == Position(items, id)
                                    then UpdateBlock(zone, old(items[i].Value()), task, enabled, when, now)
                                    else old(items[i].Value())
    {
      if !IsValid(when) || !targetOk {
        return false;
      }
      for i := 0 to |items|
        invariant Position(items, id) >= i && unchanged(items)
      {
        var cur := items[i];
        if cur.id == id {
          var t := NextOf(when, now);
          cur.task, cur.enabled, cur.when := task, enabled, when;
          cur.nextRun, cur.retries, cur.runNow := Millis(t), 0, false;
          return saved;
        }
      }
      return false;
    }

    method Delete(id: string, saved: bool) returns (ok: bool)
      requires Valid()
      modifies this`items
      ensures Valid() && ok == (Position(old(items), id) < |old(items)| && saved)
      ensures var i := Position(old(items), id);
              items == if i < |old(items)| then old(items)[..i] + old(items)[i + 1..] else old(items)
    {
      for i := 0 to |items|
        invariant Position(items, id) >= i && items == old(items)
      {
        if items[i].id == id {
          items := items[..i] + items[i + 1..];
          return saved;
        }
      }
      return false;
    }

    method RunNow(id: string) returns (found: bool)
      requires Valid()
      modifies items
      ensures Valid() && found == (Position(items, id) < |items|)
      ensures forall i :: 0 <= i < |items| ==>
                items[i].Value() == if i == Position(items, id) then old(items[i].Value()).(runNow := true)
                                    else old(items[i].Value())
    {
      for i := 0 to |items|
        invariant Position(items, id) >= i && unchanged(items)
      {
        if items[i].id == id {
          items[i].runNow := true;
          return true;
        }
      }
      return false;
    }

    /** load: missed occurrences are not made up for. */
    method Load(file: seq<(string, Schedule)>, now: int)
      requires Regular(zone) && forall i :: 0 <= i < |file| ==> IsValid(file[i].1.when)
      modifies this
      ensures Valid() && |items| == |file|
      ensures forall i :: 0 <= i < |items| ==>
                fresh(items[i]) && items[i].id == file[i].0
                && items[i].Value() == LoadBlock(zone, Saved(file[i].1), now)
    {
      var loaded: seq<Item> := [];
      for i := 0 to |file|
        invariant |loaded| == i
        invariant forall k :: 0 <= k < i ==> fresh(loaded[k]) && allocated(loaded[k])
        invariant forall k, l :: 0 <= k < l < i ==> loaded[k] != loaded[l]
        invariant forall k :: 0 <= k < i ==>
                    loaded[k].id == file[k].0 && loaded[k].Value() == LoadBlock(zone, Saved(file[k].1), now)
      {
        var s := new Item(file[i].0, Saved(file[i].1));
        if s.nextRun <= Millis(now) {
          var t := NextOf(s.when, now);
          s.nextRun := Millis(t);
        }
        loaded := loaded + [s];
      }
      items := loaded;
    }
  }
}

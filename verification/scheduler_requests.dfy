/**
 What becomes of requests and of collected items in runs of the scheduler
 (internal/sched/engine.go:77-98, 184-240).
 */
module SchedulerRequests {
  import opened Calendar
  import opened Scheduler
  import opened SchedulerRuns

  predicate NoTick(events: seq<Event>) { forall i :: 0 <= i < |events| ==> !events[i].Tick? }

  // --- requests to run now ----------------------------------------------------------

  predicate Asked(s: Sys, id: Id) { id in s.items && id in s.heap && s.heap[id].runNow }

  /** An accepted update, a deletion or a restart of the panel: what makes it forget a request. */
  predicate Forgets(s: Sys, e: Event, id: Id) {
    || (e.Update? && e.id == id && id in s.items && IsValid(e.when) && e.targetOk)
    || (e.Delete? && e.id == id && id in s.items)
    || e.Restart?
  }

  /** Whether a request stands after some events, told from the last of them that makes or forgets one. */
  predicate StillAsked(z: Zone, s: Sys, events: seq<Event>, id: Id, asked: bool)
    requires Inv(s) && Legal(z, s, events)
    decreases |events|
  {
    if events == [] then asked
    else
      var e := events[0];
      StepKeepsInv(z, s, e);
      StillAsked(z, Next(z, s, e), events[1..], id,
                 if Forgets(s, e, id) then false else asked || (e == RunNow(id) && id in s.items))
  }

  predicate ForgetsIn(z: Zone, s: Sys, events: seq<Event>, id: Id)
    requires Inv(s) && Legal(z, s, events)
    decreases |events|
  {
    events != [] &&
    (Forgets(s, events[0], id) || (StepKeepsInv(z, s, events[0]); ForgetsIn(z, Next(z, s, events[0]), events[1..], id)))
  }

  lemma AskedStep(z: Zone, s: Sys, e: Event, id: Id)
    requires Inv(s) && Enabled(s, e) && !e.Tick?
    ensures Asked(Next(z, s, e), id) <==>
              !Forgets(s, e, id) && (Asked(s, id) || (e == RunNow(id) && id in s.items))
  {
    match e
    case Delete(i, _) => WithoutIsSublist(s.items, i);
    case Create(i, _, _, _, _, _) => CreateAsksNothing(z, s, e, id);
    case _ =>
  }

  lemma CreateAsksNothing(z: Zone, s: Sys, e: Event, id: Id)
    requires Inv(s) && e.Create? && Enabled(s, e)
    ensures Asked(Next(z, s, e), id) <==> Asked(s, id)
  {
    assert e.id !in s.items;
  }

  lemma {:induction false} AskedFollows(z: Zone, s: Sys, events: seq<Event>, id: Id)
    requires Inv(s) && Legal(z, s, events) && NoTick(events)
    ensures Asked(Run(z, s, events), id) <==> StillAsked(z, s, events, id, Asked(s, id))
    decreases |events|
  {
    if events != [] {
      StepKeepsInv(z, s, events[0]);
      AskedStep(z, s, events[0], id);
      AskedFollows(z, Next(z, s, events[0]), events[1..], id);
    }
  }

  /**
   Whatever happens up to the next tick, that tick collects an item exactly if
   a request for it still stands, or it is listed, enabled and due.
   */
  lemma RequestIsHonouredIff(z: Zone, s: Sys, events: seq<Event>, id: Id)
    requires Inv(s) && Legal(z, s, events) && NoTick(events) && Enabled(Run(z, s, events), Tick)
    ensures var t := Run(z, s, events);
            Inv(t) &&
            (id in JobIds(Next(z, t, Tick).queue) <==>
              || StillAsked(z, s, events, id, Asked(s, id))
              || (id in t.items && DueByTime(t.heap[id], Millis(t.clock))))
  {
    var t := Run(z, s, events);
    RunsKeepInv(z, s, events);
    AskedFollows(z, s, events, id);
    CollectedIffAskedForOrDue(z, t, id);
  }

  lemma {:induction false} AskedUnlessForgotten(z: Zone, s: Sys, events: seq<Event>, id: Id)
    requires Inv(s) && Legal(z, s, events) && RunNow(id) !in events
    ensures StillAsked(z, s, events, id, true) <==> !ForgetsIn(z, s, events, id)
    ensures !StillAsked(z, s, events, id, false)
    decreases |events|
  {
    if events != [] {
      StepKeepsInv(z, s, events[0]);
      AskedUnlessForgotten(z, Next(z, s, events[0]), events[1..], id);
    }
  }

  /**
   So one request is honoured at the next tick exactly if no accepted update, no
   deletion and no restart came first, or the item is due anyway.
   */
  lemma OneRequestIsHonouredIff(z: Zone, s: Sys, events: seq<Event>, id: Id)
    requires Inv(s) && id in s.items && Inv(Next(z, s, RunNow(id)))
    requires Legal(z, Next(z, s, RunNow(id)), events) && NoTick(events) && RunNow(id) !in events
    requires Enabled(Run(z, Next(z, s, RunNow(id)), events), Tick)
    ensures var asked := Next(z, s, RunNow(id));
            var t := Run(z, asked, events);
            Inv(t) &&
            (id in JobIds(Next(z, t, Tick).queue) <==>
              || !ForgetsIn(z, asked, events, id)
              || (id in t.items && DueByTime(t.heap[id], Millis(t.clock))))
  {
    var asked := Next(z, s, RunNow(id));
    RequestIsHonouredIff(z, asked, events, id);
    AskedUnlessForgotten(z, asked, events, id);
  }

  // --- collected items -----------------------------------------------------------------

  /** The jobs whose executions started, in order. */
  function Starts(log: seq<Entry>): seq<Job> {
    if log == [] then []
    else
      var last := log[|log| - 1];
      Starts(log[..|log| - 1]) + (if last.Started? then [last.job] else [])
  }

  lemma StartsAppend(log: seq<Entry>, e: Entry)
    ensures Starts(log + [e]) == Starts(log) + (if e.Started? then [e.job] else [])
  {
    assert (log + [e])[..|log|] == log;
  }

  /** The loop returning early or the panel restarting: what empties the queue. */
  predicate Drops(e: Event) { e.Abandon? || e.Restart? }

  predicate DropsIn(events: seq<Event>) { exists i :: 0 <= i < |events| && Drops(events[i]) }

  function BeginsBeforeDrop(events: seq<Event>): nat {
    if events == [] || Drops(events[0]) then 0
    else (if events[0].Begin? then 1 else 0) + BeginsBeforeDrop(events[1..])
  }

  lemma NotAStart(log: seq<Entry>, e: Entry)
    requires !e.Started?
    ensures Starts(log + [e]) == Starts(log)
  {
    StartsAppend(log, e);
    assert Starts(log) + [] == Starts(log);
  }

  lemma NothingBegins(z: Zone, s: Sys, e: Event)
    requires Inv(s) && Enabled(s, e) && !e.Tick? && !e.Begin?
    ensures Starts(Next(z, s, e).log) == Starts(s.log)
  {
    match e
    case Finish(ok, _) => NotAStart(s.log, Ended(s.running.value.id, ok));
    case Create(id, _, _, _, _, _) => NotAStart(s.log, Replaced(id));
    case Update(id, _, _, _, _, _) => NotAStart(s.log, Replaced(id));
    case Restart => NotAStart(s.log, Booted);
    case _ =>
  }

  lemma QueueStep(z: Zone, s: Sys, e: Event)
    requires Inv(s) && Enabled(s, e) && !e.Tick?
    ensures Next(z, s, e).queue == if Drops(e) then [] else if e.Begin? then s.queue[1..] else s.queue
  {
  }

  lemma StartsStep(z: Zone, s: Sys, e: Event)
    requires Inv(s) && Enabled(s, e) && !e.Tick?
    ensures Starts(Next(z, s, e).log) == Starts(s.log) + (if e.Begin? then [s.queue[0]] else [])
    ensures Next(z, s, e).queue == if Drops(e) then [] else if e.Begin? then s.queue[1..] else s.queue
  {
    QueueStep(z, s, e);
    if e.Begin? {
      StartsAppend(s.log, Started(s.queue[0], Millis(s.clock)));
    } else {
      NothingBegins(z, s, e);
      assert Starts(s.log) + [] == Starts(s.log);
    }
  }

  /**
   From `started` and `queue` to `starts` and `left`: the first `n` jobs started;
   the others wait, or were dropped.
   */
  predicate InOrder(started: seq<Job>, queue: seq<Job>, n: nat, dropped: bool, starts: seq<Job>, left: seq<Job>) {
    n <= |queue| && starts == started + queue[..n] && left == if dropped then [] else queue[n..]
  }

  lemma OneStarts(started: seq<Job>, queue: seq<Job>, n: nat, dropped: bool, starts: seq<Job>, left: seq<Job>)
    requires queue != [] && InOrder(started + [queue[0]], queue[1..], n, dropped, starts, left)
    ensures InOrder(started, queue, n + 1, dropped, starts, left)
  {
    assert (started + [queue[0]]) + queue[1..][..n] == started + queue[..n + 1];
  }

  lemma NothingStarts(started: seq<Job>, queue: seq<Job>)
    ensures InOrder(started, queue, 0, false, started, queue)
  {
    assert queue[..0] == [] && queue[0..] == queue && started + [] == started;
  }

  lemma AllDropped(started: seq<Job>, queue: seq<Job>, n: nat, dropped: bool, starts: seq<Job>, left: seq<Job>)
    requires InOrder(started, [], n, dropped, starts, left)
    ensures InOrder(started, queue, 0, true, starts, left)
  {
    assert queue[..0] == [];
  }

  /**
   Up to the next tick, what starts is exactly the queue in its order: as many
   jobs as executions began before the queue was dropped. The others are still
   queued, unless it was dropped. No edit, deletion or request matters.
   */
  lemma {:induction false} CollectedJobsStartInOrder(z: Zone, s: Sys, events: seq<Event>)
    requires Inv(s) && Legal(z, s, events) && NoTick(events)
    ensures InOrder(Starts(s.log), s.queue, BeginsBeforeDrop(events), DropsIn(events),
                    Starts(Run(z, s, events).log), Run(z, s, events).queue)
    decreases |events|
  {
    if events == [] {
      NothingStarts(Starts(s.log), s.queue);
    } else {
      var e := events[0];
      var next := Next(z, s, e);
      StepKeepsInv(z, s, e);
      StartsStep(z, s, e);
      CollectedJobsStartInOrder(z, next, events[1..]);
      DropsSplit(events);
      var t := Run(z, next, events[1..]);
      OneStep(e, Starts(s.log), s.queue, Starts(next.log), next.queue,
              BeginsBeforeDrop(events[1..]), DropsIn(events[1..]), Starts(t.log), t.queue);
    }
  }

  lemma OneStep(e: Event, started: seq<Job>, queue: seq<Job>, startedNext: seq<Job>, queueNext: seq<Job>,
                n: nat, dropped: bool, starts: seq<Job>, left: seq<Job>)
    requires e.Begin? ==> queue != []
    requires startedNext == started + (if e.Begin? then [queue[0]] else [])
    requires queueNext == if Drops(e) then [] else if e.Begin? then queue[1..] else queue
    requires InOrder(startedNext, queueNext, n, dropped, starts, left)
    ensures InOrder(started, queue, if Drops(e) then 0 else if e.Begin? then n + 1 else n, Drops(e) || dropped,
                    starts, left)
  {
    if e.Begin? {
      OneStarts(started, queue, n, dropped, starts, left);
    } else {
      assert started + [] == started;
      if Drops(e) {
        AllDropped(started, queue, n, dropped, starts, left);
      }
    }
  }

  lemma DropsSplit(events: seq<Event>)
    requires events != []
    ensures DropsIn(events) <==> Drops(events[0]) || DropsIn(events[1..])
  {
    if DropsIn(events) && !Drops(events[0]) {
      var i :| 0 <= i < |events| && Drops(events[i]);
      assert Drops(events[1..][i - 1]);
    }
    if DropsIn(events[1..]) {
      var i :| 0 <= i < |events[1..]| && Drops(events[1..][i]);
      assert Drops(events[i + 1]);
    }
  }

  /** What has become of the i-th job: started in its turn, still waiting, or dropped. */
  predicate FateOf(started: seq<Job>, queue: seq<Job>, n: nat, dropped: bool, starts: seq<Job>, left: seq<Job>, i: nat)
    requires i < |queue|
  {
    && |starts| == |started| + n
    && (i < n ==> starts[|started| + i] == queue[i])
    && (n <= i && !dropped ==> |left| == |queue| - n && left[i - n] == queue[i])
    && (n <= i && dropped ==> left == [])
  }

  lemma TurnOf(started: seq<Job>, queue: seq<Job>, n: nat, dropped: bool, starts: seq<Job>, left: seq<Job>, i: nat)
    requires InOrder(started, queue, n, dropped, starts, left) && i < |queue|
    ensures FateOf(started, queue, n, dropped, starts, left, i)
  {
  }

  /**
   So a collected job starts exactly if its turn comes before the queue is
   dropped; before that it waits, and once the queue is dropped it is lost.
   */
  lemma CollectedJobStartsIff(z: Zone, s: Sys, events: seq<Event>, i: nat)
    requires Inv(s) && Legal(z, s, events) && NoTick(events) && i < |s.queue|
    ensures FateOf(Starts(s.log), s.queue, BeginsBeforeDrop(events), DropsIn(events),
                   Starts(Run(z, s, events).log), Run(z, s, events).queue, i)
  {
    CollectedJobsStartInOrder(z, s, events);
    TurnOf(Starts(s.log), s.queue, BeginsBeforeDrop(events), DropsIn(events),
           Starts(Run(z, s, events).log), Run(z, s, events).queue, i);
  }
}

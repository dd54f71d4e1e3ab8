/**
 Remembering running servers across a shutdown (internal/mc/manager.go:175-254,
 646-663, internal/mc/instance.go:416-428). GracefulShutdown writes the list of
 running servers and then stops them. But every stop, every console line that
 changes something, every handled exit and a timer make the manager publish,
 and each publish writes the list again.
 */
module Shutdown {
  import opened Prelude

  type Id = string

  /**
   One execution of publish. It reads the states one by one, `todo` being the
   servers it has not looked at yet, writes its list to the temporary file, and
   then renames that file.
   */
  datatype Publish =
    | Spawned
    | Reading(todo: set<Id>, list: set<Id>)
    | Wrote(list: set<Id>)
    | Finished(list: set<Id>)

  /**
   `up` are the servers that are starting or running, `file` is mc-running.json.
   All publishes share one temporary file; `tmp` tells whose list is in it.
   */
  datatype Sys = Sys(instances: set<Id>, up: set<Id>, file: set<Id>, tmp: Option<nat>, publishes: seq<Publish>)

  datatype Event =
    | GoesDown(id: Id)
    | ComesUp(id: Id)
    | Spawn
    | StartReading(k: nat)
    | ReadOne(k: nat, id: Id)
    | Write(k: nat)
    | Rename(k: nat)

  /**
   GracefulShutdown has just saved its list, so the file lists every server that
   is still up. Any publishes may be under way, at any point and with any list.
   */
  predicate Initial(s: Sys) { s.up <= s.file <= s.instances && TmpFits(s) }

  /** The temporary file is there only until the publish that wrote it, at the latest, renames it. */
  predicate TmpFits(s: Sys) {
    s.tmp.Some? ==> s.tmp.value < |s.publishes| && s.publishes[s.tmp.value].Wrote?
  }

  /** The manager's mutex is held from the first to the last reading of a publish. */
  predicate NobodyReads(s: Sys) {
    forall k :: 0 <= k < |s.publishes| && s.publishes[k].Reading? ==> s.publishes[k].todo == {}
  }

  predicate Enabled(s: Sys, e: Event) {
    match e
    case GoesDown(id) => id in s.up
    case ComesUp(id) => id in s.instances && id !in s.up
    case Spawn => true
    case StartReading(k) => k < |s.publishes| && s.publishes[k].Spawned? && NobodyReads(s)
    case ReadOne(k, id) => k < |s.publishes| && s.publishes[k].Reading? && id in s.publishes[k].todo
    case Write(k) => k < |s.publishes| && s.publishes[k].Reading? && s.publishes[k].todo == {}
    case Rename(k) => k < |s.publishes| && s.publishes[k].Wrote?
  }

  /**
   A server goes down by the locked block of Stop, a console line or a handled
   exit, and comes up by Start or an automatic restart; all of these publish.
   */
  function Next(s: Sys, e: Event): Sys
    requires Enabled(s, e)
  {
    match e
    case GoesDown(id) => s.(up := s.up - {id}, publishes := s.publishes + [Spawned])
    case ComesUp(id) => s.(up := s.up + {id}, publishes := s.publishes + [Spawned])
    case Spawn => s.(publishes := s.publishes + [Spawned])
    case StartReading(k) => s.(publishes := s.publishes[k := Reading(s.instances, {})])
    case ReadOne(k, id) =>
      var p := s.publishes[k];
      s.(publishes := s.publishes[k := Reading(p.todo - {id}, if id in s.up then p.list + {id} else p.list)])
    case Write(k) => s.(tmp := Some(k), publishes := s.publishes[k := Wrote(s.publishes[k].list)])
    case Rename(k) =>
      s.(file := if s.tmp.Some? && s.tmp.value < |s.publishes| then ListOf(s.publishes[s.tmp.value]) else s.file,
         tmp := None, publishes := s.publishes[k := Finished(s.publishes[k].list)])
  }

  function ListOf(p: Publish): set<Id> { if p.Spawned? then {} else p.list }

  predicate Legal(s: Sys, events: seq<Event>)
    decreases |events|, 0
  {
    events == [] ||
    (var front := events[..|events| - 1];
     Legal(s, front) && Enabled(Run(s, front), events[|events| - 1]))
  }

  function Run(s: Sys, events: seq<Event>): Sys
    requires Legal(s, events)
    decreases |events|, 1
  {
    if events == [] then s else Next(Run(s, events[..|events| - 1]), events[|events| - 1])
  }

  // --- what is in the file, told from the events alone ---------------------------------

  /** What happened to the server last, if anything did, was that it came up. */
  predicate IsUp(s: Sys, events: seq<Event>, id: Id) {
    if events == [] then id in s.up
    else
      var e := events[|events| - 1];
      e == ComesUp(id) || (e != GoesDown(id) && IsUp(s, events[..|events| - 1], id))
  }

  /** A publish read the server while it was up, before the shutdown or in the run. */
  predicate FoundUp(s: Sys, events: seq<Event>, k: nat, id: Id) {
    (k < |s.publishes| && id in ListOf(s.publishes[k])) ||
    (exists i :: 0 <= i < |events| && events[i] == ReadOne(k, id) && IsUp(s, events[..i], id))
  }

  /** The publish that wrote the temporary file, unless it has been renamed since. */
  function Pending(s: Sys, events: seq<Event>): Option<nat> {
    if events == [] then s.tmp
    else
      var e := events[|events| - 1];
      if e.Write? then Some(e.k) else if e.Rename? then None else Pending(s, events[..|events| - 1])
  }

  /** The publish whose list was renamed into place last, by itself or by another. */
  function LastInstalled(s: Sys, events: seq<Event>): Option<nat> {
    if events == [] then None
    else
      var e, front := events[|events| - 1], events[..|events| - 1];
      if e.Rename? && Pending(s, front).Some? then Pending(s, front) else LastInstalled(s, front)
  }

  lemma {:induction false} UpIffIsUp(s: Sys, events: seq<Event>, id: Id)
    requires Legal(s, events)
    ensures id in Run(s, events).up <==> IsUp(s, events, id)
  {
    if events != [] {
      UpIffIsUp(s, events[..|events| - 1], id);
    }
  }

  lemma FoundUpGrows(s: Sys, front: seq<Event>, e: Event, k: nat, id: Id)
    ensures FoundUp(s, front + [e], k, id) <==> FoundUp(s, front, k, id) || (e == ReadOne(k, id) && IsUp(s, front, id))
  {
    var events := front + [e];
    forall i | 0 <= i <= |front| ensures events[..i] == front[..i] {
    }
    assert front[..|front|] == front;
    if FoundUp(s, front, k, id) && !(k < |s.publishes| && id in ListOf(s.publishes[k])) {
      var i :| 0 <= i < |front| && front[i] == ReadOne(k, id) && IsUp(s, front[..i], id);
      assert events[i] == ReadOne(k, id);
    }
    if e == ReadOne(k, id) && IsUp(s, front, id) {
      assert events[|front|] == ReadOne(k, id);
    }
  }

  /** What a publish has listed so far are the servers it found up. */
  lemma {:induction false} ListsWereFoundUp(s: Sys, events: seq<Event>, k: nat, id: Id)
    requires Legal(s, events) && k < |Run(s, events).publishes|
    ensures id in ListOf(Run(s, events).publishes[k]) <==> FoundUp(s, events, k, id)
  {
    if events != [] {
      var front, e := events[..|events| - 1], events[|events| - 1];
      assert events == front + [e];
      FoundUpGrows(s, front, e, k, id);
      UpIffIsUp(s, front, id);
      if k < |Run(s, front).publishes| {
        ListsWereFoundUp(s, front, k, id);
      } else {
        NotThereNotFound(s, front, k, id);
      }
    }
  }

  lemma {:induction false} NotThereNotFound(s: Sys, events: seq<Event>, k: nat, id: Id)
    requires Legal(s, events) && k >= |Run(s, events).publishes|
    ensures !FoundUp(s, events, k, id) && |Run(s, events).publishes| >= |s.publishes|
  {
    if events != [] {
      var front, e := events[..|events| - 1], events[|events| - 1];
      assert events == front + [e];
      NotThereNotFound(s, front, k, id);
      FoundUpGrows(s, front, e, k, id);
    }
  }

  predicate Settled(p: Publish) { p.Wrote? || p.Finished? }

  lemma {:induction false} TmpFollowsPending(s: Sys, events: seq<Event>)
    requires TmpFits(s) && Legal(s, events)
    ensures Run(s, events).tmp == Pending(s, events) && TmpFits(Run(s, events))
  {
    if events != [] {
      TmpFollowsPending(s, events[..|events| - 1]);
    }
  }

  /** The file holds the list of the publish that replaced it last, or is still the saved one. */
  predicate FileFits(s: Sys, saved: set<Id>, last: Option<nat>) {
    match last
    case None => s.file == saved
    case Some(k) => k < |s.publishes| && Settled(s.publishes[k]) && s.file == s.publishes[k].list
  }

  lemma StepKeepsFileFits(s: Sys, e: Event, saved: set<Id>, last: Option<nat>)
    requires TmpFits(s) && Enabled(s, e) && FileFits(s, saved, last)
    ensures FileFits(Next(s, e), saved, if e.Rename? && s.tmp.Some? then s.tmp else last)
  {
  }

  lemma {:induction false} FileIsTheLastList(s: Sys, events: seq<Event>)
    requires TmpFits(s) && Legal(s, events)
    ensures FileFits(Run(s, events), s.file, LastInstalled(s, events))
  {
    if events != [] {
      var front, e := events[..|events| - 1], events[|events| - 1];
      FileIsTheLastList(s, front);
      TmpFollowsPending(s, front);
      StepKeepsFileFits(Run(s, front), e, s.file, LastInstalled(s, front));
    }
  }

  // --- what every run ends with ---------------------------------------------------------

  /**
   In any run, with publishes of any cause, some perhaps under way before the
   shutdown: the file lists a server exactly if the publish whose list replaced
   it last had found the server up. Without a replacement it is the saved list.
   */
  lemma FileListsThoseFoundUp(s: Sys, events: seq<Event>, id: Id)
    requires TmpFits(s) && Legal(s, events)
    ensures id in Run(s, events).file <==>
              match LastInstalled(s, events)
              case None => id in s.file
              case Some(k) => FoundUp(s, events, k, id)
  {
    FileIsTheLastList(s, events);
    if LastInstalled(s, events).Some? {
      ListsWereFoundUp(s, events, LastInstalled(s, events).value, id);
    }
  }

  /**
   The saved list is in the file exactly if nothing replaced it, or what did last
   had found up exactly the servers on it.
   */
  lemma RememberedIff(s: Sys, events: seq<Event>)
    requires TmpFits(s) && Legal(s, events)
    ensures Run(s, events).file == s.file <==>
              match LastInstalled(s, events)
              case None => true
              case Some(k) => forall id :: FoundUp(s, events, k, id) <==> id in s.file
  {
    forall id ensures id in Run(s, events).file <==>
                        match LastInstalled(s, events)
                        case None => id in s.file
                        case Some(k) => FoundUp(s, events, k, id)
    {
      FileListsThoseFoundUp(s, events, id);
    }
  }

  /**
   A publish that began in the run and whose list replaced the file last has read
   every server, and forgets one exactly if it was down when read.
   */
  lemma ForgottenIffReadTooLate(s: Sys, events: seq<Event>, k: nat, id: Id)
    requires TmpFits(s) && Legal(s, events) && LastInstalled(s, events) == Some(k)
    requires k >= |s.publishes| || s.publishes[k].Spawned?
    requires id in s.instances
    ensures id !in Run(s, events).file <==>
              forall i :: 0 <= i < |events| && events[i] == ReadOne(k, id) ==> !IsUp(s, events[..i], id)
    ensures exists i :: 0 <= i < |events| && events[i] == ReadOne(k, id)
  {
    FileListsThoseFoundUp(s, events, id);
    FileIsTheLastList(s, events);
    WrittenHasReadAll(s, events, k, id);
  }

  /** What a publish still has to read, and that it has read everything else. */
  lemma {:induction false} WrittenHasReadAll(s: Sys, events: seq<Event>, k: nat, id: Id)
    requires Legal(s, events) && id in s.instances && k < |Run(s, events).publishes|
    requires k >= |s.publishes| || s.publishes[k].Spawned?
    ensures Run(s, events).instances == s.instances
    ensures var p := Run(s, events).publishes[k];
            !p.Spawned? && !(p.Reading? && id in p.todo) ==> ReadOne(k, id) in events
  {
    if events != [] {
      var front, e := events[..|events| - 1], events[|events| - 1];
      assert events == front + [e];
      if k < |Run(s, front).publishes| {
        WrittenHasReadAll(s, front, k, id);
      } else {
        InstancesStay(s, front);
      }
    }
  }

  lemma {:induction false} InstancesStay(s: Sys, events: seq<Event>)
    requires Legal(s, events)
    ensures Run(s, events).instances == s.instances
  {
    if events != [] {
      InstancesStay(s, events[..|events| - 1]);
    }
  }

  /** What StartupResume starts: the servers marked for it and, if asked to resume, those in the file. */
  function Resumed(instances: set<Id>, autoStart: set<Id>, resume: bool, file: set<Id>): set<Id> {
    set id | id in instances && (id in autoStart || (resume && id in file))
  }

  /**
   The next start of the panel resumes a server that is not marked exactly if the
   last replacement had found it up.
   */
  lemma ResumedIff(s: Sys, events: seq<Event>, autoStart: set<Id>, id: Id)
    requires TmpFits(s) && Legal(s, events) && id in s.instances && id !in autoStart
    ensures id in Resumed(s.instances, autoStart, true, Run(s, events).file) <==>
              match LastInstalled(s, events)
              case None => id in s.file
              case Some(k) => FoundUp(s, events, k, id)
  {
    FileListsThoseFoundUp(s, events, id);
  }

  // --- completed shutdowns ----------------------------------------------------------------

  /** Every server is down and every publish is through. */
  predicate Completed(s: Sys) {
    s.up == {} && forall k :: 0 <= k < |s.publishes| ==> s.publishes[k].Finished?
  }

  predicate NoneComesUp(events: seq<Event>) { forall i :: 0 <= i < |events| ==> !events[i].ComesUp? }

  /**
   A publish that starts reading once every server is down, and before any comes
   up again, lists nothing; so the file is empty if it comes last.
   */
  lemma LateReaderForgetsAll(s: Sys, before: seq<Event>, after: seq<Event>, k: nat)
    requires TmpFits(s) && Legal(s, before + [StartReading(k)] + after)
    requires Legal(s, before) && Run(s, before).up == {}
    requires LastInstalled(s, before + [StartReading(k)] + after) == Some(k) && NoneComesUp(after)
    ensures Run(s, before + [StartReading(k)] + after).file == {}
  {
    var start := before + [StartReading(k)];
    LegalPrefix(s, start, after);
    StaysEmpty(s, start, after, k);
    FileIsTheLastList(s, start + after);
  }

  lemma {:induction false} LegalPrefix(s: Sys, a: seq<Event>, b: seq<Event>)
    requires Legal(s, a + b)
    ensures Legal(s, a)
  {
    if b == [] {
      assert a + b == a;
    } else {
      assert (a + b)[..|a + b| - 1] == a + b[..|b| - 1];
      LegalPrefix(s, a, b[..|b| - 1]);
    }
  }

  /** Every server is down, and the publish has begun to read and lists nothing. */
  predicate FoundNothing(s: Sys, k: nat) {
    s.up == {} && k < |s.publishes| && !s.publishes[k].Spawned? && s.publishes[k].list == {}
  }

  lemma StepFindsNothing(s: Sys, e: Event, k: nat)
    requires FoundNothing(s, k) && Enabled(s, e) && !e.ComesUp?
    ensures FoundNothing(Next(s, e), k)
  {
  }

  lemma {:induction false} StaysEmpty(s: Sys, a: seq<Event>, b: seq<Event>, k: nat)
    requires Legal(s, a) && Legal(s, a + b) && FoundNothing(Run(s, a), k) && NoneComesUp(b)
    ensures FoundNothing(Run(s, a + b), k)
  {
    if b == [] {
      assert a + b == a;
    } else {
      var front, e := b[..|b| - 1], b[|b| - 1];
      assert (a + b)[..|a + b| - 1] == a + front && (a + b)[|a + b| - 1] == e;
      StaysEmpty(s, a, front, k);
      StepFindsNothing(Run(s, a + front), e, k);
    }
  }

  lemma {:induction false} StopsPublish(s: Sys, events: seq<Event>, id: Id)
    requires Legal(s, events)
    ensures |s.publishes| <= |Run(s, events).publishes|
    ensures id in s.up && !IsUp(s, events, id) ==> |s.publishes| < |Run(s, events).publishes|
  {
    if events != [] {
      StopsPublish(s, events[..|events| - 1], id);
    }
  }

  /** What a publish of the run has written is in the temporary file or has been renamed. */
  lemma {:induction false} WrittenIsPendingOrInstalled(s: Sys, events: seq<Event>, k: nat)
    requires Legal(s, events) && |s.publishes| <= k < |Run(s, events).publishes|
    requires Settled(Run(s, events).publishes[k])
    ensures Pending(s, events).Some? || LastInstalled(s, events).Some?
  {
    if events != [] {
      var front := events[..|events| - 1];
      if k < |Run(s, front).publishes| && Settled(Run(s, front).publishes[k]) {
        WrittenIsPendingOrInstalled(s, front, k);
      }
    }
  }

  /**
   Every stop publishes, so a completed shutdown of at least one server has
   replaced the file. It forgets one of the saved servers exactly if the publish
   that came last had not found that server up.
   */
  lemma CompletedShutdownForgetsIff(s: Sys, events: seq<Event>)
    requires Initial(s) && s.up != {} && Legal(s, events) && Completed(Run(s, events))
    ensures LastInstalled(s, events).Some?
    ensures s.file <= Run(s, events).file <==>
              forall id :: id in s.file ==> FoundUp(s, events, LastInstalled(s, events).value, id)
  {
    var down :| down in s.up;
    UpIffIsUp(s, events, down);
    StopsPublish(s, events, down);
    WrittenIsPendingOrInstalled(s, events, |s.publishes|);
    TmpFollowsPending(s, events);
    forall id ensures id in Run(s, events).file <==> FoundUp(s, events, LastInstalled(s, events).value, id) {
      FileListsThoseFoundUp(s, events, id);
    }
  }

  // --- three completed shutdowns ---------------------------------------------------------

  ghost predicate Reaches(s: Sys, t: Sys) { exists events: seq<Event> :: Legal(s, events) && Run(s, events) == t }

  lemma ReachesItself(s: Sys)
    ensures Reaches(s, s)
  {
    assert Legal(s, []) && Run(s, []) == s;
  }

  lemma Append(s: Sys, t: Sys, e: Event)
    requires Reaches(s, t) && Enabled(t, e)
    ensures Reaches(s, Next(t, e))
  {
    var events: seq<Event> :| Legal(s, events) && Run(s, events) == t;
    assert (events + [e])[..|events|] == events;
    assert Legal(s, events + [e]) && Run(s, events + [e]) == Next(t, e);
  }

  function With(t: Sys, k: nat, p: Publish): Sys
    requires k < |t.publishes|
  {
    t.(publishes := t.publishes[k := p])
  }

  lemma ReadsOneMore(s: Sys, t: Sys, k: nat, todo: set<Id>, list: set<Id>, id: Id)
    requires Reaches(s, t) && k < |t.publishes| && t.publishes[k] == Reading(todo, list) && id in todo
    ensures Reaches(s, With(t, k, Reading(todo - {id}, if id in t.up then list + {id} else list)))
  {
    Append(s, t, ReadOne(k, id));
  }

  lemma ReadingSplits(todo: set<Id>, list: set<Id>, up: set<Id>, id: Id)
    requires id in todo
    ensures (if id in up then list + {id} else list) + (todo - {id}) * up == list + todo * up
  {
  }

  lemma WithTwice(t: Sys, k: nat, p: Publish, q: Publish)
    requires k < |t.publishes|
    ensures With(With(t, k, p), k, q) == With(t, k, q)
  {
  }

  lemma {:induction false} ReadsTheRest(s: Sys, t: Sys, k: nat, todo: set<Id>, list: set<Id>)
    requires Reaches(s, t) && k < |t.publishes| && t.publishes[k] == Reading(todo, list)
    ensures Reaches(s, With(t, k, Reading({}, list + todo * t.up)))
    decreases |todo|
  {
    if todo == {} {
      assert list + todo * t.up == list;
      assert With(t, k, Reading({}, list)) == t;
    } else {
      var id :| id in todo;
      var more := if id in t.up then list + {id} else list;
      ReadsOneMore(s, t, k, todo, list, id);
      ReadsTheRest(s, With(t, k, Reading(todo - {id}, more)), k, todo - {id}, more);
      ReadingSplits(todo, list, t.up, id);
      WithTwice(t, k, Reading(todo - {id}, more), Reading({}, list + todo * t.up));
    }
  }

  /** A publish that has not begun reads every state in turn. */
  lemma Reads(s: Sys, t: Sys, k: nat)
    requires Reaches(s, t) && k < |t.publishes| && t.publishes[k].Spawned? && NobodyReads(t)
    ensures Reaches(s, With(t, k, Reading({}, t.instances * t.up)))
  {
    var begun := With(t, k, Reading(t.instances, {}));
    assert Next(t, StartReading(k)) == begun;
    Append(s, t, StartReading(k));
    ReadsTheRest(s, begun, k, t.instances, {});
    assert {} + t.instances * t.up == t.instances * t.up;
    WithTwice(t, k, Reading(t.instances, {}), Reading({}, t.instances * t.up));
  }

  /** A publish that has read everything writes and renames its list, undisturbed. */
  lemma Finishes(s: Sys, t: Sys, k: nat, list: set<Id>)
    requires Reaches(s, t) && k < |t.publishes| && t.publishes[k] == Reading({}, list)
    ensures Reaches(s, With(t, k, Finished(list)).(file := list, tmp := None))
  {
    var written := With(t, k, Wrote(list)).(tmp := Some(k));
    assert Next(t, Write(k)) == written;
    Append(s, t, Write(k));
    assert Next(written, Rename(k)) == With(t, k, Finished(list)).(file := list, tmp := None);
    Append(s, written, Rename(k));
  }

  lemma Stops(s: Sys, t: Sys, id: Id, up: set<Id>)
    requires Reaches(s, t) && id in t.up && up == t.up - {id}
    ensures Reaches(s, t.(up := up, publishes := t.publishes + [Spawned]))
  {
    Append(s, t, GoesDown(id));
  }

  lemma FirstSpawn(s: Sys, id: Id, up: set<Id>)
    requires |s.publishes| == 0 && id in s.up && up == s.up - {id}
    ensures Reaches(s, s.(up := up, publishes := [Spawned]))
  {
    ReachesItself(s);
    Stops(s, s, id, up);
    assert s.publishes + [Spawned] == [Spawned];
  }

  lemma OnlyOneReads(s: Sys, t: Sys, p: Publish)
    requires Reaches(s, t) && t.publishes == [Spawned] && p == Reading({}, t.instances * t.up)
    ensures Reaches(s, t.(publishes := [p]))
  {
    Reads(s, t, 0);
    assert t.publishes[0 := p] == [p];
  }

  /** The first stop: its publish reads the states once the server is down. */
  lemma FirstStop(s: Sys, id: Id, up: set<Id>)
    requires |s.publishes| == 0 && id in s.up && up == s.up - {id}
    ensures Reaches(s, s.(up := up, publishes := [Reading({}, s.instances * up)]))
  {
    FirstSpawn(s, id, up);
    OnlyOneReads(s, s.(up := up, publishes := [Spawned]), Reading({}, s.instances * up));
  }

  function One(up: set<Id>, file: set<Id>, publishes: seq<Publish>): Sys { Sys({"a"}, up, file, None, publishes) }

  /** One server, one stop, its publish: the server is forgotten. */
  lemma StopForgets()
    ensures Reaches(One({"a"}, {"a"}, []), One({}, {}, [Finished({})]))
    ensures Completed(One({}, {}, [Finished({})]))
  {
    var a, none: set<Id> := {"a"}, {};
    var s := One(a, a, []);
    assert a - a == none && a * none == none;
    FirstStop(s, "a", none);
    Finishes(s, One(none, a, [Reading(none, none)]), 0, none);
  }

  /** A publish that had read before the shutdown and writes last brings the saved list back. */
  lemma OldPublishRemembers()
    ensures Reaches(One({"a"}, {"a"}, [Reading({}, {"a"})]), One({}, {"a"}, [Finished({"a"}), Finished({})]))
    ensures Completed(One({}, {"a"}, [Finished({"a"}), Finished({})]))
  {
    var a, none: set<Id> := {"a"}, {};
    var early := Reading(none, a);
    var s := One(a, a, [early]);
    ReachesItself(s);
    assert a - a == none && a * none == none && s.publishes + [Spawned] == [early, Spawned];
    Stops(s, s, "a", none);
    Reads(s, One(none, a, [early, Spawned]), 1);
    Finishes(s, One(none, a, [early, Reading(none, none)]), 1, none);
    Finishes(s, One(none, none, [early, Finished(none)]), 0, a);
  }

  function Two(up: set<Id>, file: set<Id>, publishes: seq<Publish>): Sys { Sys({"a", "b"}, up, file, None, publishes) }

  lemma TwoSets()
    ensures var both, b, none: set<Id> := {"a", "b"}, {"b"}, {};
            both - {"a"} == b && b - b == none && both * b == b && both * none == none
  {
    assert "a"[0] != "b"[0];
  }

  /**
   Two servers are stopped. If the publish of the first stop, which still finds
   the second server up, writes last, that one is resumed and the first is not.
   */
  lemma EarlyReaderRemembersSome()
    ensures Reaches(Two({"a", "b"}, {"a", "b"}, []), Two({}, {"b"}, [Finished({"b"}), Finished({})]))
    ensures Completed(Two({}, {"b"}, [Finished({"b"}), Finished({})]))
    ensures Resumed({"a", "b"}, {}, true, {"b"}) == {"b"}
  {
    TwoSets();
    var both, b, none: set<Id> := {"a", "b"}, {"b"}, {};
    var s := Two(both, both, []);
    FirstStop(s, "a", b);
    assert [Reading(none, b)] + [Spawned] == [Reading(none, b), Spawned];
    Stops(s, Two(b, both, [Reading(none, b)]), "b", none);
    Reads(s, Two(none, both, [Reading(none, b), Spawned]), 1);
    Finishes(s, Two(none, both, [Reading(none, b), Reading(none, none)]), 1, none);
    Finishes(s, Two(none, none, [Reading(none, b), Finished(none)]), 0, b);
  }
}

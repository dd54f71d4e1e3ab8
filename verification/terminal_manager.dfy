/**
 The session cap of the terminal manager (internal/term/term.go:125-192).

 Create checks the cap in one critical section, launches the shell outside the
 lock, and inserts the session in a second section. The cap therefore bounds
 the sessions only together with the launches that overlap.
 */
module TerminalManager {
  /** `launching` counts the Create calls between their two critical sections. */
  datatype Mgr = Mgr(max: nat, sessions: set<nat>, stopped: bool, launching: nat)

  datatype Event = Admit | Insert(id: nat) | LaunchFails | Remove(id: nat) | CloseAll

  /** NewManager replaces a cap that is not positive by 2. */
  function InitialMgr(maxSessions: int): Mgr {
    Mgr(if maxSessions <= 0 then 2 else maxSessions, {}, false, 0)
  }

  predicate Admits(m: Mgr) { !m.stopped && |m.sessions| < m.max }

  predicate Enabled(m: Mgr, e: Event) {
    match e
    case Insert(id) => m.launching > 0 && id !in m.sessions
    case LaunchFails => m.launching > 0
    case _ => true
  }

  function Next(m: Mgr, e: Event): Mgr
    requires Enabled(m, e)
  {
    match e
    case Admit => if Admits(m) then m.(launching := m.launching + 1) else m
    case Insert(id) => m.(sessions := m.sessions + {id}, launching := m.launching - 1)
    case LaunchFails => m.(launching := m.launching - 1)
    case Remove(id) => m.(sessions := m.sessions - {id})
    case CloseAll => m.(stopped := true)
  }

  /** A run in which at most `overlap` launches are ever under way at once. */
  predicate LegalWithOverlap(m: Mgr, events: seq<Event>, overlap: nat)
    decreases |events|
  {
    m.launching <= overlap &&
    (events == [] || (Enabled(m, events[0]) && LegalWithOverlap(Next(m, events[0]), events[1..], overlap)))
  }

  function Run(m: Mgr, events: seq<Event>, overlap: nat): Mgr
    requires LegalWithOverlap(m, events, overlap)
    decreases |events|
  {
    if events == [] then m else Run(Next(m, events[0]), events[1..], overlap)
  }

  predicate Bounded(m: Mgr, overlap: nat) {
    m.max > 0 && |m.sessions| + m.launching <= m.max + overlap - 1
  }

  lemma RemovalShrinks(sessions: set<nat>, id: nat)
    ensures |sessions - {id}| <= |sessions|
  {
  }

  lemma {:induction false} OverlapBoundsRun(m: Mgr, events: seq<Event>, overlap: nat)
    requires Bounded(m, overlap) && LegalWithOverlap(m, events, overlap)
    ensures Bounded(Run(m, events, overlap), overlap)
    decreases |events|
  {
    if events != [] {
      if events[0].Remove? {
        RemovalShrinks(m.sessions, events[0].id);
      }
      OverlapBoundsRun(Next(m, events[0]), events[1..], overlap);
    }
  }

  /**
   With at most `overlap` launches at once, sessions and launches together never
   exceed max + overlap - 1; without overlap the cap holds.
   */
  lemma SessionsBoundedByOverlap(maxSessions: int, events: seq<Event>, overlap: nat)
    requires overlap >= 1 && LegalWithOverlap(InitialMgr(maxSessions), events, overlap)
    ensures var t := Run(InitialMgr(maxSessions), events, overlap);
            |t.sessions| + t.launching <= (if maxSessions <= 0 then 2 else maxSessions) + overlap - 1
  {
    OverlapBoundsRun(InitialMgr(maxSessions), events, overlap);
    assert Run(InitialMgr(maxSessions), events, overlap).max == InitialMgr(maxSessions).max by {
      MaxNeverChanges(InitialMgr(maxSessions), events, overlap);
    }
  }

  lemma {:induction false} MaxNeverChanges(m: Mgr, events: seq<Event>, overlap: nat)
    requires LegalWithOverlap(m, events, overlap)
    ensures Run(m, events, overlap).max == m.max
    decreases |events|
  {
    if events != [] {
      MaxNeverChanges(Next(m, events[0]), events[1..], overlap);
    }
  }

  predicate Reaches(m: Mgr, events: seq<Event>, overlap: nat, t: Mgr) {
    LegalWithOverlap(m, events, overlap) && Run(m, events, overlap) == t
  }

  lemma Prepend(m: Mgr, e: Event, events: seq<Event>, overlap: nat, t: Mgr)
    requires m.launching <= overlap && Enabled(m, e) && Reaches(Next(m, e), events, overlap, t)
    ensures Reaches(m, [e] + events, overlap, t)
  {
  }

  /** The set {0, .., n - 1}. */
  function Below(n: nat): (s: set<nat>)
    ensures |s| == n && forall x: nat :: x in s <==> x < n
  {
    if n == 0 then {} else Below(n - 1) + {n - 1}
  }

  /** Every launch that is under way inserts its session. */
  lemma {:induction false} InsertAll(m: Mgr, base: nat, overlap: nat) returns (events: seq<Event>, t: Mgr)
    requires m.sessions == Below(base) && m.launching <= overlap
    ensures Reaches(m, events, overlap, t) && t.sessions == Below(base + m.launching) && t.launching == 0
    decreases m.launching
  {
    if m.launching == 0 {
      events, t := [], m;
    } else {
      var rest;
      rest, t := InsertAll(Next(m, Insert(base)), base + 1, overlap);
      events := [Insert(base)] + rest;
      Prepend(m, Insert(base), rest, overlap, t);
    }
  }

  /** While the cap has room, more calls are admitted before any of them inserts. */
  lemma {:induction false} AdmitThenInsert(m: Mgr, base: nat, overlap: nat) returns (events: seq<Event>, t: Mgr)
    requires m.sessions == Below(base) && Admits(m) && m.launching <= overlap
    ensures Reaches(m, events, overlap, t) && t.sessions == Below(base + overlap) && t.launching == 0
    decreases overlap - m.launching
  {
    if m.launching == overlap {
      events, t := InsertAll(m, base, overlap);
    } else {
      var rest;
      rest, t := AdmitThenInsert(Next(m, Admit), base, overlap);
      events := [Admit] + rest;
      Prepend(m, Admit, rest, overlap, t);
    }
  }

  /** One call after the other up to one session below the cap, then `overlap` calls at once. */
  lemma {:induction false} FillThenOverlap(max: nat, base: nat, overlap: nat) returns (events: seq<Event>, t: Mgr)
    requires base < max && overlap >= 1
    ensures Reaches(Mgr(max, Below(base), false, 0), events, overlap, t)
    ensures t.sessions == Below(max - 1 + overlap) && t.launching == 0
    decreases max - base
  {
    var m := Mgr(max, Below(base), false, 0);
    if base == max - 1 {
      events, t := AdmitThenInsert(m, base, overlap);
    } else {
      var rest;
      rest, t := FillThenOverlap(max, base + 1, overlap);
      var admitted := Next(m, Admit);
      assert Next(admitted, Insert(base)) == Mgr(max, Below(base + 1), false, 0);
      Prepend(admitted, Insert(base), rest, overlap, t);
      events := [Admit] + ([Insert(base)] + rest);
      Prepend(m, Admit, [Insert(base)] + rest, overlap, t);
    }
  }

  /**
   The bound is attained from the start, by sessions alone: the last `overlap`
   calls are admitted before any of them inserts.
   */
  lemma OverlapBoundIsAttained(maxSessions: int, overlap: nat) returns (events: seq<Event>, t: Mgr)
    requires overlap >= 1
    ensures Reaches(InitialMgr(maxSessions), events, overlap, t)
    ensures |t.sessions| == (if maxSessions <= 0 then 2 else maxSessions) + overlap - 1 && t.launching == 0
  {
    assert InitialMgr(maxSessions).sessions == Below(0);
    events, t := FillThenOverlap(InitialMgr(maxSessions).max, 0, overlap);
  }

  /** After CloseAll nothing more is admitted: only launches already under way can still add a session. */
  lemma {:induction false} ShutdownAdmitsNothing(m: Mgr, events: seq<Event>, overlap: nat)
    requires m.stopped && LegalWithOverlap(m, events, overlap)
    ensures var t := Run(m, events, overlap);
            t.stopped && |t.sessions| + t.launching <= |m.sessions| + m.launching
    decreases |events|
  {
    if events != [] {
      if events[0].Remove? {
        RemovalShrinks(m.sessions, events[0].id);
      }
      ShutdownAdmitsNothing(Next(m, events[0]), events[1..], overlap);
    }
  }

  class Manager {
    const max: nat
    var sessions: set<nat>
    var stopped: bool
    ghost var launching: nat

    ghost function Fields(): Mgr reads this { Mgr(max, sessions, stopped, launching) }

    constructor (maxSessions: int)
      ensures Fields() == InitialMgr(maxSessions)
    {
      max := if maxSessions <= 0 then 2 else maxSessions;
      sessions, stopped, launching := {}, false, 0;
    }

    /** First section of Create. */
    method CheckCap() returns (admitted: bool)
      modifies this`launching
      ensures admitted == Admits(old(Fields())) && Fields() == Next(old(Fields()), Admit)
    {
      if stopped {
        return false;
      }
      if |sessions| >= max {
        return false;
      }
      launching := launching + 1;
      return true;
    }

    /** Second section of Create. */
    method Register(id: nat)
      requires Enabled(Fields(), Insert(id))
      modifies this`sessions, this`launching
      ensures Fields() == Next(old(Fields()), Insert(id))
    {
      sessions := sessions + {id};
      launching := launching - 1;
    }
  }
}

/**
 The login limiter (internal/auth/limiter.go): it forgets failures as it goes,
 and still answers as if it remembered all of them.
 */
module LoginLimiter {
  import opened Windows

  /** The instants strictly after a cutoff, in order. */
  function After(times: seq<int>, cutoff: int): seq<int> {
    if times == [] then []
    else
      var front, last := times[..|times| - 1], times[|times| - 1];
      After(front, cutoff) + (if last > cutoff then [last] else [])
  }

  lemma {:induction false} AfterCounts(times: seq<int>, cutoff: int)
    ensures |After(times, cutoff)| == CountAfter(times, cutoff)
  {
    if times != [] {
      AfterCounts(times[..|times| - 1], cutoff);
    }
  }

  lemma {:induction false} AfterAfter(times: seq<int>, early: int, late: int)
    requires early <= late
    ensures After(After(times, early), late) == After(times, late)
  {
    if times != [] {
      var front, last := times[..|times| - 1], times[|times| - 1];
      AfterAfter(front, early, late);
      if last > early {
        AfterAppend(After(front, early), last, late);
      } else {
        assert After(times, early) == After(front, early) && After(times, late) == After(front, late);
      }
    }
  }

  lemma AfterAppend(times: seq<int>, t: int, cutoff: int)
    ensures After(times + [t], cutoff) == After(times, cutoff) + (if t > cutoff then [t] else [])
  {
  }

  /** No cutoff that can still be asked about tells the two lists apart. */
  ghost predicate Agree(kept: seq<int>, history: seq<int>, from: int) {
    forall cutoff :: from <= cutoff ==> After(kept, cutoff) == After(history, cutoff)
  }

  lemma PrunedAgrees(kept: seq<int>, history: seq<int>, from: int, cutoff: int)
    requires Agree(kept, history, from) && from <= cutoff
    ensures Agree(After(kept, cutoff), history, cutoff)
    ensures |After(kept, cutoff)| == CountAfter(history, cutoff)
  {
    forall late | cutoff <= late ensures After(After(kept, cutoff), late) == After(history, late) {
      AfterAfter(kept, cutoff, late);
    }
    AfterCounts(history, cutoff);
  }

  lemma AppendAgrees(kept: seq<int>, history: seq<int>, from: int, t: int)
    requires Agree(kept, history, from)
    ensures Agree(kept + [t], history + [t], from)
  {
  }

  lemma LaterAgrees(kept: seq<int>, history: seq<int>, from: int, later: int)
    requires Agree(kept, history, from) && from <= later
    ensures Agree(kept, history, later)
  {
  }

  function At(lists: map<string, seq<int>>, ip: string): seq<int> { if ip in lists then lists[ip] else [] }

  ghost predicate AllAgree(failures: map<string, seq<int>>, history: map<string, seq<int>>, from: int) {
    forall ip :: Agree(At(failures, ip), At(history, ip), from)
  }

  function Replace(failures: map<string, seq<int>>, ip: string, kept: seq<int>): map<string, seq<int>> {
    if kept == [] then failures - {ip} else failures[ip := kept]
  }

  predicate NoEmptyLists(failures: map<string, seq<int>>) { forall ip :: ip in failures ==> failures[ip] != [] }

  lemma PruneKeepsAgreement(
    failures: map<string, seq<int>>, history: map<string, seq<int>>, from: int, ip: string, kept: seq<int>, cutoff: int)
    requires AllAgree(failures, history, from) && NoEmptyLists(failures) && from <= cutoff
    requires kept == After(At(failures, ip), cutoff)
    ensures AllAgree(Replace(failures, ip, kept), history, cutoff) && NoEmptyLists(Replace(failures, ip, kept))
    ensures |kept| == CountAfter(At(history, ip), cutoff) && Agree(kept, At(history, ip), cutoff)
  {
    PrunedAgrees(At(failures, ip), At(history, ip), from, cutoff);
    forall other ensures Agree(At(Replace(failures, ip, kept), other), At(history, other), cutoff) {
      if other != ip {
        LaterAgrees(At(failures, other), At(history, other), from, cutoff);
      }
    }
  }

  lemma FailKeepsAgreement(
    failures: map<string, seq<int>>, history: map<string, seq<int>>, from: int, ip: string,
    kept: seq<int>, t: int, later: int)
    requires AllAgree(failures, history, from) && NoEmptyLists(failures)
    requires Agree(kept, At(history, ip), from) && from <= later
    ensures AllAgree(failures[ip := kept + [t]], history[ip := At(history, ip) + [t]], later)
    ensures NoEmptyLists(failures[ip := kept + [t]])
  {
    AppendAgrees(kept, At(history, ip), from, t);
    var f, h := failures[ip := kept + [t]], history[ip := At(history, ip) + [t]];
    forall other ensures Agree(At(f, other), At(h, other), later) {
      assert other != ip ==> Agree(At(failures, other), At(history, other), from);
      LaterAgrees(At(f, other), At(h, other), from, later);
    }
  }

  lemma ResetKeepsAgreement(failures: map<string, seq<int>>, history: map<string, seq<int>>, from: int, ip: string)
    requires AllAgree(failures, history, from) && NoEmptyLists(failures)
    ensures AllAgree(failures - {ip}, history - {ip}, from) && NoEmptyLists(failures - {ip})
  {
    var f, h := failures - {ip}, history - {ip};
    forall other ensures Agree(At(f, other), At(h, other), from) {
      assert other != ip ==> Agree(At(failures, other), At(history, other), from);
    }
  }

  /** The loop of recentLocked. */
  method Prune(times: seq<int>, cutoff: int) returns (kept: seq<int>)
    ensures kept == After(times, cutoff)
  {
    kept := [];
    for i := 0 to |times|
      invariant kept == After(times[..i], cutoff)
    {
      assert times[..i + 1] == times[..i] + [times[i]];
      AfterAppend(times[..i], times[i], cutoff);
      if times[i] > cutoff {
        kept := kept + [times[i]];
      }
    }
    assert times[..|times|] == times;
  }

  class Limiter {
    const window: int
    const max: int
    var failures: map<string, seq<int>>
    /** The latest clock reading, and every failure of an address since its last Reset. */
    ghost var clock: int
    ghost var history: map<string, seq<int>>

    ghost predicate Valid()
      reads this
    {
      && AllAgree(failures, history, clock - window)
      && NoEmptyLists(failures)
    }

    constructor (max: int, window: int, ghost now: int)
      ensures Valid() && this.max == max && this.window == window && history == map[] && clock == now
    {
      this.max, this.window := max, window;
      failures, history, clock := map[], map[], now;
    }

    method RecentLocked(ip: string, now: int) returns (kept: seq<int>)
      requires Valid() && clock <= now
      modifies this`failures, this`clock
      ensures Valid() && clock == now
      ensures |kept| == CountAfter(At(history, ip), now - window) && Agree(kept, At(history, ip), now - window)
    {
      kept := Prune(At(failures, ip), now - window);
      PruneKeepsAgreement(failures, history, clock - window, ip, kept, now - window);
      failures := Replace(failures, ip, kept);
      clock := now;
    }

    /** An attempt is allowed exactly if fewer than `max` of all failures since the last Reset are within the window. */
    method Allow(ip: string, now: int) returns (ok: bool)
      requires Valid() && clock <= now
      modifies this`failures, this`clock
      ensures Valid() && clock == now
      ensures ok <==> CountAfter(At(history, ip), now - window) < max
    {
      var recent := RecentLocked(ip, now);
      return |recent| < max;
    }

    /** The clock is read twice: for pruning and for the record. */
    method Fail(ip: string, now: int, recorded: int)
      requires Valid() && clock <= now <= recorded
      modifies this
      ensures Valid() && clock == recorded
      ensures history == old(history)[ip := At(old(history), ip) + [recorded]]
    {
      var recent := RecentLocked(ip, now);
      FailKeepsAgreement(failures, history, clock - window, ip, recent, recorded, recorded - window);
      failures := failures[ip := recent + [recorded]];
      history := history[ip := At(history, ip) + [recorded]];
      clock := recorded;
    }

    method Reset(ip: string)
      requires Valid()
      modifies this`failures, this`history
      ensures Valid() && history == old(history) - {ip}
    {
      ResetKeepsAgreement(failures, history, clock - window, ip);
      failures, history := failures - {ip}, history - {ip};
    }
  }
}

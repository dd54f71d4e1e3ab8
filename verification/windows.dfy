/**
 Sliding windows over recorded instants. The crash-restart budget of the
 supervisor and the login limiter both count the instants that lie after a
 moving cutoff; this module holds what is true of such counts.
 */
module Windows {

  /** How many instants lie strictly after `cutoff`. */
  function CountAfter(times: seq<int>, cutoff: int): nat {
    if times == [] then 0
    else CountAfter(times[..|times| - 1], cutoff) + (if times[|times| - 1] > cutoff then 1 else 0)
  }

  lemma OneMoreAfter(times: seq<int>, cutoff: int)
    requires times != []
    ensures var front, last := times[..|times| - 1], times[|times| - 1];
            |set k | 0 <= k < |times| && times[k] > cutoff|
            == |set k | 0 <= k < |front| && front[k] > cutoff| + (if last > cutoff then 1 else 0)
  {
    var front := times[..|times| - 1];
    var counted := set k | 0 <= k < |front| && front[k] > cutoff;
    var all := set k | 0 <= k < |times| && times[k] > cutoff;
    assert all == if times[|times| - 1] > cutoff then counted + {|front|} else counted;
  }

  /** That is the number of places in the list. */
  lemma {:induction false} CountAfterIsCardinality(times: seq<int>, cutoff: int)
    ensures CountAfter(times, cutoff) == |set k | 0 <= k < |times| && times[k] > cutoff|
  {
    var all := set k | 0 <= k < |times| && times[k] > cutoff;
    if times == [] {
      assert all == {};
    } else {
      CountAfterIsCardinality(times[..|times| - 1], cutoff);
      OneMoreAfter(times, cutoff);
    }
  }

  /** How many instants lie in the half-open window that starts at `from`. */
  function CountIn(times: seq<int>, from: int, width: int): nat {
    if times == [] then 0
    else
      var last := times[|times| - 1];
      CountIn(times[..|times| - 1], from, width) + (if from <= last < from + width then 1 else 0)
  }

  /** Each instant was recorded while fewer than `max` earlier ones lay within `width` before it. */
  predicate Metered(times: seq<int>, width: int, max: nat) {
    times == [] ||
    (var front, last := times[..|times| - 1], times[|times| - 1];
     Metered(front, width, max) && CountAfter(front, last - width) < max)
  }

  lemma {:induction false} CountAfterMonotone(times: seq<int>, early: int, late: int)
    requires early <= late
    ensures CountAfter(times, late) <= CountAfter(times, early)
  {
    if times != [] {
      CountAfterMonotone(times[..|times| - 1], early, late);
    }
  }

  lemma {:induction false} CountInBelowCountAfter(times: seq<int>, from: int, width: int, cutoff: int)
    requires cutoff < from
    ensures CountIn(times, from, width) <= CountAfter(times, cutoff)
  {
    if times != [] {
      CountInBelowCountAfter(times[..|times| - 1], from, width, cutoff);
    }
  }

  /** A metered list never puts more than `max` instants into one half-open window. */
  lemma {:induction false} MeteredBoundsEveryWindow(times: seq<int>, from: int, width: int, max: nat)
    requires Metered(times, width, max)
    ensures CountIn(times, from, width) <= max
  {
    if times != [] {
      var front, last := times[..|times| - 1], times[|times| - 1];
      MeteredBoundsEveryWindow(front, from, width, max);
      if from <= last < from + width {
        CountInBelowCountAfter(front, from, width, last - width);
      }
    }
  }

  /** Recording one more instant keeps the list metered when the count allowed it. */
  lemma MeteredExtends(times: seq<int>, now: int, recorded: int, width: int, max: nat)
    requires Metered(times, width, max)
    requires CountAfter(times, now - width) < max && now <= recorded
    ensures Metered(times + [recorded], width, max)
  {
    CountAfterMonotone(times, now - width, recorded - width);
    assert (times + [recorded])[..|times|] == times;
  }
}

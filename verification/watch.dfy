/**
 "Can I start watching now?" (internal/qbit/types.go:96-164): whether playback
 from the start would catch up with an in-order download that goes on at its
 current rate. Computed without rounding error.
 */
module Watching {
  datatype Torrent = Torrent(progress: real, left: int, state: string, speed: int, sequential: bool)

  datatype Verdict = Ready | Paused | Queued | Stalled | Unknown | Now | Wait

  datatype Watch = Watch(verdict: Verdict, eta: int, wait: int, runtime: int, sequential: bool)

  predicate IsStopped(state: string) { state in {"pausedDL", "pausedUP", "stoppedDL", "stoppedUP"} }

  predicate IsQueued(state: string) { state in {"queuedDL", "queuedUP"} }

  /** Nine tenths of the runtime, in whole seconds. */
  function Budget(runtime: int): int
    requires runtime > 0
  {
    9 * runtime / 10
  }

  /** Seconds until `left` bytes have arrived, rounded up. */
  function Eta(left: int, speed: int): int
    requires speed > 0
  {
    (left + speed - 1) / speed
  }

  function Watchability(t: Torrent, runtime: int): Watch {
    var w := Watch(Unknown, 0, 0, runtime, t.sequential);
    if t.progress >= 1.0 || t.left <= 0 then w.(verdict := Ready)
    else if IsStopped(t.state) then w.(verdict := Paused)
    else if IsQueued(t.state) then w.(verdict := Queued)
    else if t.speed <= 0 then w.(verdict := Stalled)
    else
      var eta := Eta(t.left, t.speed);
      if runtime <= 0 then w.(eta := eta)
      else if eta <= Budget(runtime) then w.(eta := eta, verdict := Now)
      else w.(eta := eta, verdict := Wait, wait := eta - Budget(runtime))
  }

  /** The estimate is the least number of seconds in which the rest arrives. */
  lemma EtaIsLeast(left: int, speed: int, k: int)
    requires speed > 0
    ensures Eta(left, speed) <= k <==> left <= k * speed
  {
    var q, n := Eta(left, speed), left + speed - 1;
    assert n == q * speed + n % speed;
    if q <= k {
      MulLeq(q, k, speed);
    } else {
      MulLeq(k + 1, q, speed);
      assert (k + 1) * speed == k * speed + speed;
    }
  }

  lemma MulLeq(a: int, b: int, c: int)
    requires a <= b && c > 0
    ensures a * c <= b * c
  {
  }

  /** The download after some seconds at its current rate. */
  function After(t: Torrent, seconds: nat): Torrent { t.(left := t.left - seconds * t.speed) }

  lemma EtaAfter(left: int, speed: int, seconds: nat)
    requires speed > 0
    ensures Eta(left - seconds * speed, speed) == Eta(left, speed) - seconds
  {
    var now, later := Eta(left, speed), Eta(left - seconds * speed, speed);
    EtaIsLeast(left, speed, later + seconds);
    EtaIsLeast(left - seconds * speed, speed, later);
    assert (later + seconds) * speed == later * speed + seconds * speed;
    EtaIsLeast(left, speed, now);
    EtaIsLeast(left - seconds * speed, speed, now - seconds);
    assert (now - seconds) * speed == now * speed - seconds * speed;
  }

  /** "now" means: going on like this, everything has arrived before nine tenths of the film are played. */
  lemma NowIffInTime(t: Torrent, runtime: int)
    ensures Watchability(t, runtime).verdict.Now? <==>
              t.progress < 1.0 && t.left > 0 && !IsStopped(t.state) && !IsQueued(t.state) && t.speed > 0 && runtime > 0
              && t.left <= Budget(runtime) * t.speed
  {
    if t.speed > 0 && runtime > 0 {
      EtaIsLeast(t.left, t.speed, Budget(runtime));
    }
  }

  /** Unfinished, neither paused nor queued, and something arrives. */
  predicate Downloading(t: Torrent) {
    && t.progress < 1.0 && t.left > 0 && t.speed > 0
    && t.state !in {"pausedDL", "pausedUP", "stoppedDL", "stoppedUP", "queuedDL", "queuedUP"}
  }

  /**
   Which verdict is given when; a finished download is "ready" whatever else it
   is, a paused one "paused" and so on.
   */
  lemma VerdictIff(t: Torrent, runtime: int)
    ensures var w, done := Watchability(t, runtime), t.progress >= 1.0 || t.left <= 0;
            var paused, queued := t.state in {"pausedDL", "pausedUP", "stoppedDL", "stoppedUP"},
                                  t.state in {"queuedDL", "queuedUP"};
            && (w.verdict.Ready? <==> done)
            && (w.verdict.Paused? <==> !done && paused)
            && (w.verdict.Queued? <==> !done && !paused && queued)
            && (w.verdict.Stalled? <==> !done && !paused && !queued && t.speed <= 0)
            && (w.verdict.Unknown? <==> Downloading(t) && runtime <= 0)
            && (w.verdict.Now? || w.verdict.Wait? <==> Downloading(t) && runtime > 0)
            && w.runtime == runtime && w.sequential == t.sequential
            && (!Downloading(t) ==> w.eta == 0) && (!w.verdict.Wait? ==> w.wait == 0)
  {
  }

  /**
   The numbers, without the formulas: the estimate is the least number of seconds
   in which the rest arrives; "now" is said exactly if some whole number of
   seconds within nine tenths of the runtime is enough; and "wait" tells how many
   seconds are too many.
   */
  lemma NumbersOfTheVerdict(t: Torrent, runtime: int, k: int)
    requires Downloading(t)
    ensures var w := Watchability(t, runtime);
            && (w.eta <= k <==> t.left <= k * t.speed)
            && (runtime > 0 && 10 * k <= 9 * runtime && t.left <= k * t.speed ==> w.verdict.Now?)
            && (w.verdict.Now? ==> 10 * w.eta <= 9 * runtime)
            && (w.verdict.Wait? ==> 10 * (w.eta - w.wait) <= 9 * runtime < 10 * (w.eta - w.wait + 1))
  {
    EtaIsLeast(t.left, t.speed, k);
    if runtime > 0 {
      EtaIsLeast(t.left, t.speed, Budget(runtime));
    }
  }

  /**
   "wait" counts down: some seconds later the answer is still "wait" with that
   much less to wait, exactly until the announced time has passed; from then
   on it is "now", or "ready" once nothing is left.
   */
  lemma WaitCountsDown(t: Torrent, runtime: int, seconds: nat)
    requires Watchability(t, runtime).verdict.Wait?
    ensures var w, later := Watchability(t, runtime), Watchability(After(t, seconds), runtime);
            && w.wait > 0
            && (later.verdict.Wait? <==> seconds < w.wait)
            && (later.verdict.Wait? ==> later.wait == w.wait - seconds)
            && (later.verdict.Now? <==> w.wait <= seconds < w.eta)
            && (later.verdict.Ready? <==> w.eta <= seconds)
  {
    EtaAfter(t.left, t.speed, seconds);
    EtaIsLeast(t.left, t.speed, seconds);
    assert After(t, seconds).left <= 0 <==> Watchability(t, runtime).eta <= seconds;
  }

  /**
   So the announced wait is the least number of seconds after which the answer
   is "now"; except for a runtime of one second, whose budget is no second at
   all, where it is the least after which the download is complete.
   */
  lemma WaitIsLeast(t: Torrent, runtime: int)
    requires Watchability(t, runtime).verdict.Wait?
    ensures var wait := Watchability(t, runtime).wait;
            && Watchability(After(t, wait), runtime).verdict == (if runtime == 1 then Ready else Now)
            && forall earlier: nat :: earlier < wait ==> Watchability(After(t, earlier), runtime).verdict.Wait?
  {
    var wait := Watchability(t, runtime).wait;
    WaitCountsDown(t, runtime, wait);
    forall earlier: nat | earlier < wait ensures Watchability(After(t, earlier), runtime).verdict.Wait? {
      WaitCountsDown(t, runtime, earlier);
    }
  }

  /** The part of `size` bytes that has arrived after `time` seconds, when `left` are missing at first. */
  function ArrivedPart(size: real, left: real, speed: real, time: real): real
    requires size > 0.0
  {
    var bytes := size - left + speed * time;
    if bytes >= size then 1.0 else bytes / size
  }

  function Arrived(size: int, t: Torrent, time: real): real
    requires size > 0
  {
    ArrivedPart(size as real, t.left as real, t.speed as real, time)
  }

  lemma ProductLeq(a: real, b: real, c: real)
    requires a <= b && c >= 0.0
    ensures a * c <= b * c
  {
  }

  lemma Cancel(c: real, a: real, b: real)
    requires c * a <= c * b && c > 0.0
    ensures a <= b
  {
  }

  /** Arriving bytes keep ahead of a player that needs `budget` seconds for everything. */
  lemma KeepsAhead(size: real, left: real, speed: real, budget: real, time: real)
    requires 0.0 < left <= size && speed > 0.0 && left <= speed * budget && time >= 0.0 && speed * time <= left
    ensures time * size <= (size - left + speed * time) * budget
  {
    assert speed * time <= left <= speed * budget;
    Cancel(speed, time, budget);
    ProductLeq(left, speed * budget, time);
    ProductLeq(left, size, budget - time);
    assert (size - left + speed * time) * budget - time * size
        == (size - left) * (budget - time) + time * (speed * budget - left);
    assert (size - left) * (budget - time) == size * (budget - time) - left * (budget - time);
    assert time * (speed * budget - left) == speed * budget * time - left * time;
  }

  /** The same, as a part of the whole. */
  lemma PartKeepsAhead(size: real, bytes: real, budget: real, runtime: real, time: real)
    requires size > 0.0 && bytes >= 0.0 && time * size <= bytes * budget
    requires 10.0 * budget <= 9.0 * runtime && runtime > 0.0
    ensures 10.0 * time <= 9.0 * runtime * (bytes / size)
    ensures 10.0 * time <= 10.0 * runtime * (bytes / size)
  {
  }

  lemma QuotientAtMost(a: real, b: real, q: real)
    requires b > 0.0 && a <= b * q
    ensures a / b <= q
  {
  }

  /**
   Under "now", playback never catches up: at every moment of in-order
   playback the part that has arrived is at least the part that was played,
   and even ten ninths of it until everything is there.
   */
  lemma PlaybackNeverCatchesUp(size: int, t: Torrent, runtime: int, time: real)
    requires Watchability(t, runtime).verdict.Now? && t.left <= size && 0.0 <= time <= runtime as real
    ensures time / runtime as real <= Arrived(size, t, time)
    ensures Arrived(size, t, time) == 1.0 || 10.0 * time <= 9.0 * runtime as real * Arrived(size, t, time)
  {
    NowIffInTime(t, runtime);
    BudgetAsReal(t.left, Budget(runtime), t.speed);
    PartIsAhead(size as real, t.left as real, t.speed as real, Budget(runtime) as real, runtime as real, time);
  }

  lemma BudgetAsReal(left: int, budget: int, speed: int)
    requires left <= budget * speed
    ensures left as real <= speed as real * budget as real
  {
  }

  lemma PartIsAhead(size: real, left: real, speed: real, budget: real, runtime: real, time: real)
    requires 0.0 < left <= size && speed > 0.0 && left <= speed * budget && 10.0 * budget <= 9.0 * runtime
    requires 0.0 <= time <= runtime && runtime > 0.0
    ensures time / runtime <= ArrivedPart(size, left, speed, time)
    ensures ArrivedPart(size, left, speed, time) == 1.0 ||
            10.0 * time <= 9.0 * runtime * ArrivedPart(size, left, speed, time)
  {
    var bytes := size - left + speed * time;
    if bytes >= size {
      QuotientAtMost(time, runtime, 1.0);
    } else {
      KeepsAhead(size, left, speed, budget, time);
      ProductLeq(0.0, speed, time);
      PartKeepsAhead(size, bytes, budget, runtime, time);
      QuotientAtMost(time, runtime, bytes / size);
    }
  }
}

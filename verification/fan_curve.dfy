/**
 Fan curves: validation and evaluation on the server (internal/fans/fans.go)
 and the curve editor of the browser (web/src/pages/Fans.tsx). Temperatures
 and duties are reals; floating-point rounding is not modelled.
 */
module FanCurve {
  import opened Prelude

  datatype Point = Point(tempC: real, dutyPct: real)

  datatype Mode = Auto | Manual | Curve | OtherMode

  datatype Settings = Settings(mode: Mode, manualPct: real, sensor: string, points: seq<Point>)

  const MAX_POINTS := 12

  predicate InRange(p: Point) { 0.0 <= p.tempC <= 120.0 && 0.0 <= p.dutyPct <= 100.0 }

  predicate Increasing(points: seq<Point>) {
    forall i, j :: 0 <= i < j < |points| ==> points[i].tempC < points[j].tempC
  }

  predicate ValidCurve(points: seq<Point>) {
    2 <= |points| <= MAX_POINTS && Increasing(points) && forall i :: 0 <= i < |points| ==> InRange(points[i])
  }

  predicate ValidSettings(s: Settings, sensors: set<string>) {
    match s.mode
    case Auto => true
    case Manual => 0.0 <= s.manualPct <= 100.0
    case Curve => s.sensor != "" && s.sensor in sensors && ValidCurve(s.points)
    case OtherMode => false
  }

  method Validate(s: Settings, sensors: set<string>) returns (ok: bool)
    ensures ok == ValidSettings(s, sensors)
  {
    match s.mode {
      case Auto => return true;
      case Manual =>
        if s.manualPct < 0.0 || s.manualPct > 100.0 {
          return false;
        }
        return true;
      case Curve =>
        if s.sensor == "" || s.sensor !in sensors || |s.points| < 2 || |s.points| > MAX_POINTS {
          return false;
        }
        var prev := -1.0;
        for i := 0 to |s.points|
          invariant prev == if i == 0 then -1.0 else s.points[i - 1].tempC
          invariant Increasing(s.points[..i])
          invariant forall k :: 0 <= k < i ==> InRange(s.points[k])
        {
          var p := s.points[i];
          if p.tempC < 0.0 || p.tempC > 120.0 {
            return false;
          }
          if p.dutyPct < 0.0 || p.dutyPct > 100.0 {
            return false;
          }
          if p.tempC <= prev {
            assert i > 0 && !(s.points[i - 1].tempC < s.points[i].tempC);
            return false;
          }
          assert forall k :: 0 <= k < i ==> s.points[..i][k].tempC <= prev;
          prev := p.tempC;
        }
        assert s.points[..|s.points|] == s.points;
        return true;
      case OtherMode => return false;
    }
  }

  // --- evaluation ------------------------------------------------------------------

  function Interpolate(a: Point, b: Point, temp: real): real
    requires a.tempC < b.tempC
  {
    a.dutyPct + (temp - a.tempC) / (b.tempC - a.tempC) * (b.dutyPct - a.dutyPct)
  }

  function Min(a: real, b: real): real { if a <= b then a else b }

  function Max(a: real, b: real): real { if a >= b then a else b }

  lemma FractionScales(f: real, g: real, d: real)
    requires f <= g
    ensures d >= 0.0 ==> f * d <= g * d
    ensures d <= 0.0 ==> f * d >= g * d
  {
  }

  lemma FractionInUnit(x: real, w: real)
    requires 0.0 <= x <= w && w > 0.0
    ensures 0.0 <= x / w <= 1.0
  {
  }

  lemma InterpolateBetween(a: Point, b: Point, temp: real)
    requires a.tempC < temp <= b.tempC
    ensures Min(a.dutyPct, b.dutyPct) <= Interpolate(a, b, temp) <= Max(a.dutyPct, b.dutyPct)
    ensures temp == b.tempC ==> Interpolate(a, b, temp) == b.dutyPct
  {
    var w, d := b.tempC - a.tempC, b.dutyPct - a.dutyPct;
    var f := (temp - a.tempC) / w;
    FractionInUnit(temp - a.tempC, w);
    if d >= 0.0 {
      FractionScales(0.0, f, d);
      FractionScales(f, 1.0, d);
      assert 0.0 <= f * d <= d;
    } else {
      FractionScales(0.0, f, d);
      FractionScales(f, 1.0, d);
      assert d <= f * d <= 0.0;
    }
    assert Interpolate(a, b, temp) == a.dutyPct + f * d;
  }

  lemma InterpolateMonotone(a: Point, b: Point, s: real, t: real)
    requires a.tempC < b.tempC && a.dutyPct <= b.dutyPct && s <= t
    ensures Interpolate(a, b, s) <= Interpolate(a, b, t)
  {
  }

  /** The first point at or above `temp`, found by the editor one point after the other. */
  function FirstAtOrAbove(points: seq<Point>, temp: real): (i: nat)
    ensures i <= |points|
    ensures forall k :: 0 <= k < i ==> points[k].tempC < temp
    ensures i < |points| ==> points[i].tempC >= temp
  {
    if points == [] || points[0].tempC >= temp then 0 else 1 + FirstAtOrAbove(points[1..], temp)
  }

  /** liveDuty of the editor. */
  function Preview(points: seq<Point>, temp: real): Option<real> {
    if points == [] then None
    else if temp <= points[0].tempC then Some(points[0].dutyPct)
    else if temp >= points[|points| - 1].tempC then Some(points[|points| - 1].dutyPct)
    else
      var i := FirstAtOrAbove(points, temp);
      Some(Interpolate(points[i - 1], points[i], temp))
  }

  /** sort.Search over "points[i].tempC >= temp" inside [lo, hi): no assumption on the order of the points. */
  function SearchIn(points: seq<Point>, temp: real, lo: nat, hi: nat): (i: nat)
    requires lo <= hi <= |points|
    ensures lo <= i <= hi
    decreases hi - lo
  {
    if lo == hi then lo
    else
      var mid := (lo + hi) / 2;
      if points[mid].tempC < temp then SearchIn(points, temp, mid + 1, hi) else SearchIn(points, temp, lo, mid)
  }

  lemma {:induction false} SearchStopsAfterABelow(points: seq<Point>, temp: real, lo: nat, hi: nat)
    requires lo <= hi <= |points| && (lo > 0 ==> points[lo - 1].tempC < temp)
    ensures var i := SearchIn(points, temp, lo, hi); i > 0 ==> points[i - 1].tempC < temp
    decreases hi - lo
  {
    if lo < hi {
      var mid := (lo + hi) / 2;
      if points[mid].tempC < temp {
        SearchStopsAfterABelow(points, temp, mid + 1, hi);
      } else {
        SearchStopsAfterABelow(points, temp, lo, mid);
      }
    }
  }

  lemma {:induction false} SearchStopsBeforeAnAbove(points: seq<Point>, temp: real, lo: nat, hi: nat)
    requires lo <= hi <= |points| && (hi < |points| ==> points[hi].tempC >= temp)
    ensures var i := SearchIn(points, temp, lo, hi); i < |points| ==> points[i].tempC >= temp
    decreases hi - lo
  {
    if lo < hi {
      var mid := (lo + hi) / 2;
      if points[mid].tempC < temp {
        SearchStopsBeforeAnAbove(points, temp, mid + 1, hi);
      } else {
        SearchStopsBeforeAnAbove(points, temp, lo, mid);
      }
    }
  }

  /** The search always stops between a point below the temperature and one at or above it. */
  lemma SearchStopsAtTheCrossing(points: seq<Point>, temp: real)
    ensures var i := SearchIn(points, temp, 0, |points|);
            && (i > 0 ==> points[i - 1].tempC < temp)
            && (i < |points| ==> points[i].tempC >= temp)
  {
    SearchStopsAfterABelow(points, temp, 0, |points|);
    SearchStopsBeforeAnAbove(points, temp, 0, |points|);
  }

  method Search(points: seq<Point>, temp: real) returns (i: nat)
    ensures i == SearchIn(points, temp, 0, |points|)
  {
    var lo, hi := 0, |points|;
    while lo < hi
      invariant 0 <= lo <= hi <= |points|
      invariant SearchIn(points, temp, lo, hi) == SearchIn(points, temp, 0, |points|)
    {
      var mid := (lo + hi) / 2;
      if points[mid].tempC < temp {
        lo := mid + 1;
      } else {
        hi := mid;
      }
    }
    i := lo;
  }

  /** CurveDuty as a value; it is defined for any list of points, sorted or not. */
  function CurveValue(points: seq<Point>, temp: real): real {
    if points == [] then 100.0
    else if temp <= points[0].tempC then points[0].dutyPct
    else if temp >= points[|points| - 1].tempC then points[|points| - 1].dutyPct
    else
      SearchStopsAtTheCrossing(points, temp);
      var i := SearchIn(points, temp, 0, |points|);
      Interpolate(points[i - 1], points[i], temp)
  }

  /** Between two neighbours that enclose `temp`, and on the line through them. */
  predicate OnSegment(points: seq<Point>, i: nat, temp: real, duty: real) {
    && 0 < i < |points| && points[i - 1].tempC < temp <= points[i].tempC
    && Min(points[i - 1].dutyPct, points[i].dutyPct) <= duty <= Max(points[i - 1].dutyPct, points[i].dutyPct)
    && duty == Interpolate(points[i - 1], points[i], temp)
  }

  /** Inside its range any curve is evaluated on the segment between two neighbours that enclose the temperature. */
  lemma CurveValueIsOnASegment(points: seq<Point>, temp: real)
    requires points != [] && points[0].tempC < temp < points[|points| - 1].tempC
    ensures OnSegment(points, SearchIn(points, temp, 0, |points|), temp, CurveValue(points, temp))
  {
    SearchStopsAtTheCrossing(points, temp);
    var i := SearchIn(points, temp, 0, |points|);
    InterpolateBetween(points[i - 1], points[i], temp);
  }

  lemma WarmerIsLater(points: seq<Point>, a: nat, b: nat)
    requires Increasing(points) && a < |points| && b < |points| && points[a].tempC < points[b].tempC
    ensures a < b
  {
  }

  /** On increasing temperatures the server's binary search and the editor's linear search agree. */
  lemma CurveValueIsThePreview(points: seq<Point>, temp: real)
    requires points != [] && Increasing(points)
    ensures Preview(points, temp) == Some(CurveValue(points, temp))
  {
    if points[0].tempC < temp < points[|points| - 1].tempC {
      SearchStopsAtTheCrossing(points, temp);
      var i, f := SearchIn(points, temp, 0, |points|), FirstAtOrAbove(points, temp);
      assert !(i < f);
      WarmerIsLater(points, i - 1, f);
    }
  }

  method CurveDuty(points: seq<Point>, temp: real) returns (duty: real)
    ensures duty == CurveValue(points, temp)
  {
    if |points| == 0 {
      return 100.0;
    }
    if temp <= points[0].tempC {
      return points[0].dutyPct;
    }
    var last := points[|points| - 1];
    if temp >= last.tempC {
      return last.dutyPct;
    }
    var i := Search(points, temp);
    SearchStopsAtTheCrossing(points, temp);
    var a, b := points[i - 1], points[i];
    var frac := (temp - a.tempC) / (b.tempC - a.tempC);
    duty := a.dutyPct + frac * (b.dutyPct - a.dutyPct);
  }

  /** The duty lies between the duties of the two points that bracket the temperature. */
  lemma DutyStaysInBracket(points: seq<Point>, temp: real, i: nat)
    requires Increasing(points) && i + 1 < |points| && points[i].tempC <= temp <= points[i + 1].tempC
    ensures Min(points[i].dutyPct, points[i + 1].dutyPct) <= CurveValue(points, temp)
              <= Max(points[i].dutyPct, points[i + 1].dutyPct)
  {
    if temp == points[i].tempC {
      DutyHitsPoints(points, i);
    } else if temp == points[i + 1].tempC {
      DutyHitsPoints(points, i + 1);
    } else {
      CurveValueIsOnASegment(points, temp);
      assert SearchIn(points, temp, 0, |points|) == i + 1;
    }
  }

  lemma DutyHitsPoints(points: seq<Point>, i: nat)
    requires Increasing(points) && i < |points|
    ensures CurveValue(points, points[i].tempC) == points[i].dutyPct
  {
    if 0 < i < |points| - 1 {
      CurveValueIsOnASegment(points, points[i].tempC);
      assert SearchIn(points, points[i].tempC, 0, |points|) == i;
      InterpolateBetween(points[i - 1], points[i], points[i].tempC);
    }
  }

  lemma QuotientTimes(x: real, w: real, d: real)
    requires w > 0.0
    ensures (x / w * d) * w == x * d
  {
    var q := x / w;
    assert q * w == x;
    Swap(q, d, w);
  }

  lemma Swap(q: real, d: real, w: real)
    ensures (q * d) * w == (q * w) * d
  {
  }

  /** The point lies on the straight line through two others. */
  predicate OnLine(a: Point, b: Point, temp: real, duty: real) {
    (duty - a.dutyPct) * (b.tempC - a.tempC) == (temp - a.tempC) * (b.dutyPct - a.dutyPct)
  }

  lemma InterpolateIsOnLine(a: Point, b: Point, temp: real)
    requires a.tempC < b.tempC
    ensures OnLine(a, b, temp, Interpolate(a, b, temp))
  {
    QuotientTimes(temp - a.tempC, b.tempC - a.tempC, b.dutyPct - a.dutyPct);
  }

  lemma EndsAreOnLine(a: Point, b: Point)
    ensures OnLine(a, b, a.tempC, a.dutyPct) && OnLine(a, b, b.tempC, b.dutyPct)
  {
  }

  /** Between two neighbouring points the duty grows in proportion to the temperature. */
  lemma DutyIsLinear(points: seq<Point>, temp: real, i: nat)
    requires Increasing(points) && i + 1 < |points| && points[i].tempC <= temp <= points[i + 1].tempC
    ensures OnLine(points[i], points[i + 1], temp, CurveValue(points, temp))
  {
    EndsAreOnLine(points[i], points[i + 1]);
    if temp == points[i].tempC {
      DutyHitsPoints(points, i);
    } else if temp == points[i + 1].tempC {
      DutyHitsPoints(points, i + 1);
    } else {
      CurveValueIsOnASegment(points, temp);
      assert SearchIn(points, temp, 0, |points|) == i + 1;
      InterpolateIsOnLine(points[i], points[i + 1], temp);
    }
  }

  /** Half way between two points the duty is half way between theirs; the default curve gives 50 at 57.5 degrees. */
  lemma DefaultCurveAtHalfWay()
    ensures CurveValue(DefaultCurve(), 57.5) == 50.0
  {
    DutyIsLinear(DefaultCurve(), 57.5, 1);
  }

  lemma DutyOutsideIsFlat(points: seq<Point>, temp: real)
    requires Increasing(points) && points != []
    ensures temp <= points[0].tempC ==> CurveValue(points, temp) == points[0].dutyPct
    ensures temp >= points[|points| - 1].tempC ==> CurveValue(points, temp) == points[|points| - 1].dutyPct
  {
  }

  predicate NeverSlower(points: seq<Point>) {
    forall i, j :: 0 <= i <= j < |points| ==> points[i].dutyPct <= points[j].dutyPct
  }

  /** A curve whose duties never fall never slows the fan as it gets hotter. */
  lemma DutyMonotone(points: seq<Point>, s: real, t: real)
    requires Increasing(points) && NeverSlower(points) && points != [] && s <= t
    ensures CurveValue(points, s) <= CurveValue(points, t)
  {
    var n := |points|;
    if points[0].tempC < s && t < points[n - 1].tempC {
      var i, j := SearchIn(points, s, 0, n), SearchIn(points, t, 0, n);
      CurveValueIsOnASegment(points, s);
      CurveValueIsOnASegment(points, t);
      if i == j {
        InterpolateMonotone(points[i - 1], points[i], s, t);
      } else {
        assert points[i - 1].tempC < points[j].tempC;
        WarmerIsLater(points, i - 1, j);
        assert i <= j - 1;
      }
    } else if points[0].tempC < s < points[n - 1].tempC {
      CurveValueIsOnASegment(points, s);
    } else if points[0].tempC < t < points[n - 1].tempC {
      CurveValueIsOnASegment(points, t);
    }
  }

  /** On a curve the server accepts, the duty is a percentage whatever the temperature. */
  lemma ValidDutyIsAPercentage(points: seq<Point>, temp: real)
    requires ValidCurve(points)
    ensures 0.0 <= CurveValue(points, temp) <= 100.0
  {
    if points[0].tempC < temp < points[|points| - 1].tempC {
      CurveValueIsOnASegment(points, temp);
      var i := SearchIn(points, temp, 0, |points|);
      assert InRange(points[i - 1]) && InRange(points[i]);
    }
  }

  // --- the curve editor -----------------------------------------------------------

  const X_MAX := 100.0

  function Round(x: real): real { (x + 0.5).Floor as real }

  /** tempAt: the mouse's horizontal position as a whole temperature. */
  function TempAt(x: real, plotW: real): (t: real)
    ensures 0.0 <= t <= X_MAX && t == t.Floor as real
  {
    Round(Min(X_MAX, Max(0.0, x / Max(plotW, 1.0) * X_MAX)))
  }

  /** dutyAt: the mouse's height above the bottom of the plot as a whole percentage. */
  function DutyAt(y: real, plotH: real): (d: real)
    ensures 0.0 <= d <= 100.0 && d == d.Floor as real
  {
    Round(Min(100.0, Max(0.0, y / Max(plotH, 1.0) * 100.0)))
  }

  predicate Whole(x: real) { x == x.Floor as real }

  predicate OnGrid(t: real) { 0.0 <= t <= X_MAX && Whole(t) }

  function MovedTemp(points: seq<Point>, idx: nat, t: real): real
    requires idx < |points|
  {
    var lo := if idx > 0 then points[idx - 1].tempC + 1.0 else 0.0;
    var hi := if idx < |points| - 1 then points[idx + 1].tempC - 1.0 else X_MAX;
    Min(hi, Max(lo, t))
  }

  function Move(points: seq<Point>, idx: nat, t: real, d: real): seq<Point>
    requires idx < |points|
  {
    points[idx := Point(MovedTemp(points, idx, t), d)]
  }

  method MoveTo(points: array<Point>, idx: nat, t: real, d: real) returns (next: array<Point>)
    requires idx < points.Length
    ensures fresh(next) && next[..] == Move(points[..], idx, t, d)
  {
    next := new Point[points.Length](k requires 0 <= k < points.Length reads points => points[k]);
    var lo := if idx > 0 then points[idx - 1].tempC + 1.0 else 0.0;
    var hi := if idx < points.Length - 1 then points[idx + 1].tempC - 1.0 else X_MAX;
    next[idx] := next[idx].(tempC := Min(hi, Max(lo, t)));
    next[idx] := next[idx].(dutyPct := d);
  }

  function Insert(points: seq<Point>, p: Point): seq<Point> {
    if points == [] || p.tempC < points[0].tempC then [p] + points
    else [points[0]] + Insert(points[1..], p)
  }

  predicate TooClose(points: seq<Point>, t: real) {
    exists i :: 0 <= i < |points| && -1.0 < points[i].tempC - t < 1.0
  }

  function Add(points: seq<Point>, t: real, d: real): seq<Point> {
    if |points| >= MAX_POINTS || TooClose(points, t) then points else Insert(points, Point(t, d))
  }

  function Remove(points: seq<Point>, idx: nat): seq<Point>
    requires idx < |points|
  {
    if |points| <= 2 then points else points[..idx] + points[idx + 1..]
  }

  /** Insert stands for sorting after appending: it is a permutation of the longer list. */
  lemma {:induction false} InsertPermutes(points: seq<Point>, p: Point)
    ensures multiset(Insert(points, p)) == multiset(points + [p])
    ensures |Insert(points, p)| == |points| + 1
  {
    if points == [] || p.tempC < points[0].tempC {
    } else {
      InsertPermutes(points[1..], p);
      assert points == [points[0]] + points[1..];
    }
  }

  lemma InsertElements(points: seq<Point>, p: Point, i: nat)
    requires i < |Insert(points, p)|
    ensures Insert(points, p)[i] == p || Insert(points, p)[i] in points
  {
    InsertPermutes(points, p);
    assert Insert(points, p)[i] in multiset(points + [p]);
  }

  /** It is in order when no two temperatures are equal. */
  lemma {:induction false} InsertSorts(points: seq<Point>, p: Point)
    requires Increasing(points) && forall i :: 0 <= i < |points| ==> points[i].tempC != p.tempC
    ensures Increasing(Insert(points, p))
  {
    if points == [] || p.tempC < points[0].tempC {
    } else {
      InsertSorts(points[1..], p);
      var tail := Insert(points[1..], p);
      forall j | 0 <= j < |tail| ensures points[0].tempC < tail[j].tempC {
        InsertElements(points[1..], p, j);
      }
    }
  }

  datatype Edit = MoveEdit(idx: nat, t: real, d: real) | AddEdit(t: real, d: real) | RemoveEdit(idx: nat)

  predicate Possible(points: seq<Point>, e: Edit) {
    match e
    case MoveEdit(idx, t, d) => idx < |points| && OnGrid(t) && 0.0 <= d <= 100.0
    case AddEdit(t, d) => OnGrid(t) && 0.0 <= d <= 100.0
    case RemoveEdit(idx) => idx < |points|
  }

  function Apply(points: seq<Point>, e: Edit): seq<Point>
    requires Possible(points, e)
  {
    match e
    case MoveEdit(idx, t, d) => Move(points, idx, t, d)
    case AddEdit(t, d) => Add(points, t, d)
    case RemoveEdit(idx) => Remove(points, idx)
  }

  predicate PossibleAll(points: seq<Point>, edits: seq<Edit>)
    decreases |edits|
  {
    edits == [] || (Possible(points, edits[0]) && PossibleAll(Apply(points, edits[0]), edits[1..]))
  }

  function ApplyAll(points: seq<Point>, edits: seq<Edit>): seq<Point>
    requires PossibleAll(points, edits)
    decreases |edits|
  {
    if edits == [] then points else ApplyAll(Apply(points, edits[0]), edits[1..])
  }

  /** What the editor keeps: a valid curve whose temperatures are whole and on the plot. */
  predicate Editable(points: seq<Point>) {
    ValidCurve(points) && forall i :: 0 <= i < |points| ==> OnGrid(points[i].tempC)
  }

  function DefaultCurve(): seq<Point> {
    [Point(35.0, 20.0), Point(50.0, 35.0), Point(65.0, 65.0), Point(78.0, 100.0)]
  }

  lemma WholeGap(a: real, b: real)
    requires Whole(a) && Whole(b) && a < b
    ensures a + 1.0 <= b && Whole(a + 1.0) && Whole(b - 1.0)
  {
    var m, n := a.Floor, b.Floor;
    assert m < n;
    assert a + 1.0 == (m + 1) as real && b - 1.0 == (n - 1) as real;
    assert ((m + 1) as real).Floor == m + 1 && ((n - 1) as real).Floor == n - 1;
  }

  lemma NeighboursSuffice(points: seq<Point>, idx: nat, p: Point)
    requires Increasing(points) && idx < |points|
    requires idx > 0 ==> points[idx - 1].tempC < p.tempC
    requires idx < |points| - 1 ==> p.tempC < points[idx + 1].tempC
    ensures Increasing(points[idx := p])
  {
  }

  lemma MoveKeepsEditable(points: seq<Point>, idx: nat, t: real, d: real)
    requires Editable(points) && Possible(points, MoveEdit(idx, t, d))
    ensures Editable(Move(points, idx, t, d))
  {
    if idx > 0 {
      WholeGap(points[idx - 1].tempC, points[idx].tempC);
    }
    if idx < |points| - 1 {
      WholeGap(points[idx].tempC, points[idx + 1].tempC);
    }
    NeighboursSuffice(points, idx, Move(points, idx, t, d)[idx]);
  }

  lemma AddKeepsEditable(points: seq<Point>, t: real, d: real)
    requires Editable(points) && Possible(points, AddEdit(t, d))
    ensures Editable(Add(points, t, d))
  {
    if |points| < MAX_POINTS && !TooClose(points, t) {
      InsertSorts(points, Point(t, d));
      InsertPermutes(points, Point(t, d));
      forall i | 0 <= i < |points| + 1 {
        InsertElements(points, Point(t, d), i);
      }
    }
  }

  lemma RemoveKeepsEditable(points: seq<Point>, idx: nat)
    requires Editable(points) && idx < |points|
    ensures Editable(Remove(points, idx))
  {
  }

  /**
   Every sequence of edits from an editable curve, the default one for instance,
   ends in one that Validate accepts.
   */
  lemma {:induction false} EditsKeepCurveValid(points: seq<Point>, edits: seq<Edit>)
    requires Editable(points) && PossibleAll(points, edits)
    ensures ValidCurve(ApplyAll(points, edits)) && Editable(ApplyAll(points, edits))
    decreases |edits|
  {
    if edits != [] {
      match edits[0] {
        case MoveEdit(idx, t, d) => MoveKeepsEditable(points, idx, t, d);
        case AddEdit(t, d) => AddKeepsEditable(points, t, d);
        case RemoveEdit(idx) => RemoveKeepsEditable(points, idx);
      }
      EditsKeepCurveValid(Apply(points, edits[0]), edits[1..]);
    }
  }

  lemma DefaultCurveIsEditable()
    ensures Editable(DefaultCurve())
  {
  }

  /** Room for a drag: the neighbours are more than one degree apart, and the last point's neighbour is on the plot. */
  predicate RoomToMove(points: seq<Point>, idx: nat)
    requires idx < |points|
  {
    && (0 < idx < |points| - 1 ==> points[idx + 1].tempC - points[idx - 1].tempC > 1.0)
    && (idx == 0 && |points| > 1 ==> points[1].tempC >= 1.0)
    && (idx > 0 && idx == |points| - 1 ==> points[idx - 1].tempC < X_MAX)
  }

  /**
   A curve saved by other means need not be on the editor's grid. On any valid
   curve a drag gives a valid curve exactly when there is room for it; where it
   lands does not matter.
   */
  lemma DragKeepsCurveValidIff(points: seq<Point>, idx: nat, t: real, d: real)
    requires ValidCurve(points) && Possible(points, MoveEdit(idx, t, d))
    ensures ValidCurve(Move(points, idx, t, d)) <==> RoomToMove(points, idx)
  {
    var r := Move(points, idx, t, d);
    assert forall i :: 0 <= i < |points| ==> InRange(points[i]);
    if RoomToMove(points, idx) {
      NeighboursSuffice(points, idx, r[idx]);
    } else {
      assert InRange(r[idx]) ==> idx > 0 && r[idx].tempC <= r[idx - 1].tempC;
    }
  }

  /** Three valid points on neighbouring half degrees: wherever the middle one is dragged, the curve becomes invalid. */
  lemma DragBreaksACloseCurve(t: real, d: real)
    requires OnGrid(t) && 0.0 <= d <= 100.0
    ensures var points := [Point(50.0, 20.0), Point(50.5, 40.0), Point(51.0, 60.0)];
            ValidCurve(points) && !ValidCurve(Move(points, 1, t, d))
  {
    var points := [Point(50.0, 20.0), Point(50.5, 40.0), Point(51.0, 60.0)];
    assert ValidCurve(points);
    DragKeepsCurveValidIff(points, 1, t, d);
  }

  /** On a plot of at least one pixel the mouse is read off to the nearest degree and percent. */
  lemma MouseIsReadToTheNearest(x: real, extent: real)
    requires extent >= 1.0
    ensures 0.0 <= x <= extent ==>
              && -0.5 <= TempAt(x, extent) - x / extent * 100.0 <= 0.5
              && -0.5 <= DutyAt(x, extent) - x / extent * 100.0 <= 0.5
    ensures x <= 0.0 ==> TempAt(x, extent) == 0.0 && DutyAt(x, extent) == 0.0
    ensures x >= extent ==> TempAt(x, extent) == 100.0 && DutyAt(x, extent) == 100.0
  {
    ShareOf(x, extent);
  }

  lemma ShareOf(x: real, extent: real)
    requires extent >= 1.0
    ensures 0.0 <= x <= extent ==> 0.0 <= x / extent * 100.0 <= 100.0
    ensures x <= 0.0 ==> x / extent * 100.0 <= 0.0
    ensures x >= extent ==> x / extent * 100.0 >= 100.0
  {
  }

  /** At least one degree from both neighbours. */
  predicate FreeOfNeighbours(points: seq<Point>, idx: nat, t: real)
    requires idx < |points|
  {
    (idx > 0 ==> points[idx - 1].tempC + 1.0 <= t) && (idx < |points| - 1 ==> t <= points[idx + 1].tempC - 1.0)
  }

  /**
   A dragged point goes where the mouse is, or one degree from the neighbour that
   is in the way; no other point moves.
   */
  lemma DragFollowsTheMouse(points: seq<Point>, idx: nat, t: real, d: real)
    requires ValidCurve(points) && Possible(points, MoveEdit(idx, t, d)) && RoomToMove(points, idx)
    ensures var r := Move(points, idx, t, d);
            && |r| == |points| && r[idx].dutyPct == d
            && (forall j :: 0 <= j < |points| && j != idx ==> r[j] == points[j])
            && (FreeOfNeighbours(points, idx, t) ==> r[idx].tempC == t)
            && (idx > 0 && t < points[idx - 1].tempC + 1.0 <= 100.0 &&
                FreeOfNeighbours(points, idx, points[idx - 1].tempC + 1.0) ==>
                  r[idx].tempC == points[idx - 1].tempC + 1.0)
            && (idx < |points| - 1 && t > points[idx + 1].tempC - 1.0 ==> r[idx].tempC == points[idx + 1].tempC - 1.0)
  {
  }

  /** An added point is there, unless the curve is full or has a point less than a degree away; nothing is lost. */
  lemma AddedPointIsThere(points: seq<Point>, t: real, d: real)
    ensures var full := |points| >= 12 || exists i :: 0 <= i < |points| && -1.0 < points[i].tempC - t < 1.0;
            if full then Add(points, t, d) == points
            else multiset(Add(points, t, d)) == multiset(points) + multiset{Point(t, d)}
  {
    InsertPermutes(points, Point(t, d));
  }

  /** A removed point is gone and the others keep their order; two points always stay. */
  lemma RemovedPointIsGone(points: seq<Point>, idx: nat)
    requires idx < |points|
    ensures |points| <= 2 ==> Remove(points, idx) == points
    ensures |points| > 2 ==>
              var r := Remove(points, idx);
              && |r| == |points| - 1
              && (forall j :: 0 <= j < idx ==> r[j] == points[j])
              && (forall j :: idx <= j < |r| ==> r[j] == points[j + 1])
  {
  }
}

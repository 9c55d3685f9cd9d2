/** The cells of a grid tile a polygon
    (services/simulation-server/src/scenario/grid.rs, volume_weights). */
module Tiling {
  import opened Sums
  import opened Clipping

  // ---------------------------------------------------------------- cutting twice on the same side

  /** The slope of an edge that is not upright. */
  predicate HasSlope(p: Point, q: Point, slope: real) {
    Times(slope, q.x - p.x) == q.y - p.y
  }

  lemma SlopeExists(p: Point, q: Point) returns (slope: real)
    requires p.x != q.x
    ensures HasSlope(p, q, slope)
  {
    slope := (q.y - p.y) / (q.x - p.x);
    QuotientTimes(q.y - p.y, q.x - p.x);
  }

  lemma MeetingOnSlope(p: Point, q: Point, c: real, slope: real)
    requires p.x != q.x && HasSlope(p, q, slope)
    ensures Meeting(p, q, 0, c) == Point(c, p.y + Times(slope, c - p.x))
  {
    hide Times;
    var fraction := (c - p.x) / (q.x - p.x);
    QuotientTimes(c - p.x, q.x - p.x);
    Swap(fraction, slope, q.x - p.x);
  }

  lemma Swap(a: real, b: real, c: real)
    ensures Times(a, Times(b, c)) == Times(b, Times(a, c))
  {
  }

  lemma SlopeOfParts(p: Point, q: Point, a: real, slope: real)
    requires p.x != q.x && HasSlope(p, q, slope)
    ensures HasSlope(Meeting(p, q, 0, a), q, slope) && HasSlope(p, Meeting(p, q, 0, a), slope)
    ensures Meeting(p, q, 0, a).x == a
  {
    hide Times;
    MeetingOnSlope(p, q, a, slope);
    TimesSum(slope, q.x - p.x, a - p.x);
  }

  /** Where an edge meets a line does not depend on a cut before it. */
  lemma MeetingAfterCut(p: Point, q: Point, a: real, b: real)
    requires p.x != q.x
    ensures var m := Meeting(p, q, 0, a);
            && (m.x != q.x ==> Meeting(m, q, 0, b) == Meeting(p, q, 0, b))
            && (p.x != m.x ==> Meeting(p, m, 0, b) == Meeting(p, q, 0, b))
  {
    hide Times, HasSlope, Meeting;
    var slope := SlopeExists(p, q);
    var m := Meeting(p, q, 0, a);
    SlopeOfParts(p, q, a, slope);
    MeetingOnSlope(p, q, a, slope);
    MeetingOnSlope(p, q, b, slope);
    if m.x != q.x {
      MeetingOnSlope(m, q, b, slope);
      TimesSum(slope, a - p.x, b - a);
      TimesSum(slope, b - p.x, a - p.x);
    }
    if p.x != m.x {
      MeetingOnSlope(p, m, b, slope);
    }
  }

  lemma LinePart(pen: Point, m: Point, a: real, b: real)
    requires a <= b && pen.x == a && m.x == a
    ensures PartBand(pen, m, b, true) == 0.0
  {
    hide Band, Meeting;
    if a == b {
      OnTheLine(pen, m, b);
    }
  }

  /** The part beyond b of an edge that was cut at a. */
  lemma PartAfterCut(p: Point, q: Point, a: real, b: real)
    requires a <= b && p.x != q.x && Inside(p.x, a, true) != Inside(q.x, a, true)
    ensures var m := Meeting(p, q, 0, a);
            && (q.x >= a ==> PartBand(m, q, b, true) == PartBand(p, q, b, true))
            && (p.x >= a ==> PartBand(p, m, b, true) == PartBand(p, q, b, true))
  {
    hide Band, Meeting;
    var m := Meeting(p, q, 0, a);
    MeetingIsOnTheLine(p, q, a);
    MeetingAfterCut(p, q, a, b);
    if q.x == a {
      MeetingAtEnd(p, q, a);
      OnTheLine(q, q, a);
    }
    if p.x == a {
      MeetingAtStart(p, q, a);
      OnTheLine(p, p, a);
    }
    if a == b {
      OnTheLine(m, m, a);
    }
  }

  lemma PartOfOne(pen: Point, m: Point, c: real)
    ensures PartSum(pen, [m], c, true) == PartBand(pen, m, c, true)
  {
    hide PartBand;
    assert [m][1..] == [];
  }

  lemma PartOfTwo(pen: Point, m: Point, q: Point, c: real)
    ensures PartSum(pen, [m, q], c, true) == PartBand(pen, m, c, true) + PartBand(m, q, c, true)
  {
    hide PartBand;
    assert [m, q][1..] == [q];
    PartOfOne(m, q, c);
  }

  lemma EdgeCutAgain(pen: Point, p: Point, q: Point, a: real, b: real)
    requires a <= b && PenAt(pen, p, a, true)
    ensures PartSum(pen, EdgeOutput(p, q, 0, a, true), b, true) == PartBand(p, q, b, true)
  {
    hide PartBand, Meeting;
    var output := EdgeOutput(p, q, 0, a, true);
    var before, after := Inside(p.x, a, true), Inside(q.x, a, true);
    if before != after {
      var m := Meeting(p, q, 0, a);
      MeetingIsOnTheLine(p, q, a);
      PartAfterCut(p, q, a, b);
      if after {
        assert output == [m, q];
        LinePart(pen, m, a, b);
        PartOfTwo(pen, m, q, b);
      } else {
        assert output == [m];
        PartOfOne(pen, m, b);
      }
    } else if after {
      assert output == [q];
      PartOfOne(pen, q, b);
    } else {
      OutsideBoth(p, q, b);
    }
  }

  lemma OutsideBoth(p: Point, q: Point, b: real)
    ensures p.x < b && q.x < b ==> PartBand(p, q, b, true) == 0.0
  {
  }

  lemma {:induction false} PartSumOfBoth(pen: Point, s: seq<Point>, t: seq<Point>, c: real)
    ensures PartSum(pen, s + t, c, true) == PartSum(pen, s, c, true) + PartSum(LastOf(pen, s), t, c, true)
    decreases |s|
  {
    hide PartBand;
    if s == [] {
      assert s + t == t;
    } else {
      PartSumOfBoth(s[0], s[1..], t, c);
      assert (s + t)[1..] == s[1..] + t;
    }
  }

  lemma {:induction false} PathCutAgain(pen: Point, p: Point, s: seq<Point>, a: real, b: real)
    requires a <= b && PenAt(pen, p, a, true)
    ensures PartSum(pen, Outputs(p, s, 0, a, true), b, true) == PartSum(p, s, b, true)
    decreases |s|
  {
    hide PartBand, EdgeOutput, BandSum;
    if s != [] {
      var first := EdgeOutput(p, s[0], 0, a, true);
      EdgeKeepsPen(pen, p, s[0], a, true);
      EdgeCutAgain(pen, p, s[0], a, b);
      PathCutAgain(LastOf(pen, first), s[0], s[1..], a, b);
      PartSumOfBoth(pen, first, Outputs(s[0], s[1..], 0, a, true), b);
    }
  }

  /** Cutting at a and then at a later b leaves the same area as cutting at b alone. */
  lemma CutTwice(polygon: seq<Point>, a: real, b: real)
    requires a <= b && polygon != []
    ensures DoubledArea(Clip(Clip(polygon, 0, a, true), 0, b, true)) == DoubledArea(Clip(polygon, 0, b, true))
  {
    hide Outputs, PartSum, CrossSum, BandSum;
    var last := polygon[|polygon| - 1];
    var once := Clip(polygon, 0, a, true);
    var start := if Inside(last.x, a, true) then last else Point(a, 0.0);
    ClippedArea(polygon, b, true);
    PathKeepsPen(start, last, polygon, a, true);
    PathCutAgain(start, last, polygon, a, b);
    if once != [] {
      PathKeepsPen(once[|once| - 1], last, polygon, a, true);
      PathCutAgain(once[|once| - 1], last, polygon, a, b);
      ClippedArea(once, b, true);
    } else {
      NoParts(start, once, b);
    }
  }

  lemma NoParts(pen: Point, s: seq<Point>, c: real)
    requires s == []
    ensures PartSum(pen, s, c, true) == 0.0
  {
  }

  // ---------------------------------------------------------------- strips

  ghost predicate Between(s: seq<Point>, axis: nat, low: real, high: real) {
    forall k | 0 <= k < |s| :: low <= s[k].Coordinate(axis) <= high
  }

  ghost predicate Rising(lines: seq<real>) {
    |lines| > 0 && forall k | 0 < k < |lines| :: lines[k - 1] <= lines[k]
  }

  function Strip(polygon: seq<Point>, axis: nat, low: real, high: real): seq<Point> {
    Clip(Clip(polygon, axis, low, true), axis, high, false)
  }

  /** The areas of the first k strips between neighbouring lines. */
  function StripSum(polygon: seq<Point>, axis: nat, lines: seq<real>, k: nat): real
    requires k < |lines|
  {
    if k == 0 then 0.0
    else StripSum(polygon, axis, lines, k - 1) + DoubledArea(Strip(polygon, axis, lines[k - 1], lines[k]))
  }

  lemma {:induction false} StripsSoFar(polygon: seq<Point>, lines: seq<real>, k: nat)
    requires polygon != [] && Rising(lines) && k < |lines|
    ensures StripSum(polygon, 0, lines, k)
         == DoubledArea(Clip(polygon, 0, lines[0], true)) - DoubledArea(Clip(polygon, 0, lines[k], true))
  {
    hide Clip, DoubledArea;
    if k > 0 {
      StripsSoFar(polygon, lines, k - 1);
      ClipKeepsArea(Clip(polygon, 0, lines[k - 1], true), 0, lines[k]);
      CutTwice(polygon, lines[k - 1], lines[k]);
    }
  }

  lemma {:induction false} AllInside(pen: Point, s: seq<Point>, c: real)
    requires pen.x >= c && forall k | 0 <= k < |s| :: s[k].x >= c
    ensures PartSum(pen, s, c, true) == BandSum(pen, s, c)
    decreases |s|
  {
    hide Band, Meeting;
    if s != [] {
      AllInside(s[0], s[1..], c);
    }
  }

  lemma {:induction false} NothingBeyond(pen: Point, s: seq<Point>, c: real)
    requires pen.x <= c && forall k | 0 <= k < |s| :: s[k].x <= c
    ensures PartSum(pen, s, c, true) == 0.0
    decreases |s|
  {
    hide Band;
    if s != [] {
      NothingBeyond(s[0], s[1..], c);
      EdgeNotBeyond(pen, s[0], c);
    }
  }

  lemma EdgeNotBeyond(p: Point, q: Point, c: real)
    requires p.x <= c && q.x <= c
    ensures PartBand(p, q, c, true) == 0.0
  {
    hide Band, Meeting;
    if p.x == c && q.x == c {
      OnTheLine(p, q, c);
    } else if p.x == c {
      MeetingAtStart(p, q, c);
      OnTheLine(p, p, c);
    } else if q.x == c {
      MeetingAtEnd(p, q, c);
      OnTheLine(q, q, c);
    }
  }

  lemma StripsTileAcross(polygon: seq<Point>, lines: seq<real>)
    requires polygon != [] && Rising(lines) && Between(polygon, 0, lines[0], lines[|lines| - 1])
    ensures StripSum(polygon, 0, lines, |lines| - 1) == DoubledArea(polygon)
  {
    hide Clip, DoubledArea, PartSum, BandSum;
    var last, n := polygon[|polygon| - 1], |lines| - 1;
    StripsSoFar(polygon, lines, n);
    ClippedArea(polygon, lines[0], true);
    ClippedArea(polygon, lines[n], true);
    AllInside(last, polygon, lines[0]);
    NothingBeyond(last, polygon, lines[n]);
    BandsOfPolygon(polygon, lines[0]);
  }

  lemma SwappedClip(polygon: seq<Point>, bound: real, greater: bool)
    ensures Swapped(Clip(polygon, 1, bound, greater)) == Clip(Swapped(polygon), 0, bound, greater)
  {
    hide Outputs;
    if polygon != [] {
      SwappedOutputs(polygon[|polygon| - 1], polygon, bound, greater);
    }
  }

  lemma SwappedStrip(polygon: seq<Point>, low: real, high: real)
    ensures DoubledArea(Strip(polygon, 1, low, high)) == -DoubledArea(Strip(Swapped(polygon), 0, low, high))
  {
    hide Clip, DoubledArea, Swapped;
    SwappedClip(polygon, low, true);
    SwappedClip(Clip(polygon, 1, low, true), high, false);
    SwappedArea(Strip(polygon, 1, low, high));
  }

  lemma {:induction false} SwappedStripSum(polygon: seq<Point>, lines: seq<real>, k: nat)
    requires k < |lines|
    ensures StripSum(polygon, 1, lines, k) == -StripSum(Swapped(polygon), 0, lines, k)
  {
    hide Clip, DoubledArea, Swapped, Strip;
    if k > 0 {
      SwappedStripSum(polygon, lines, k - 1);
      SwappedStrip(polygon, lines[k - 1], lines[k]);
    }
  }

  /** The strips between neighbouring lines tile every polygon that lies between the first and the last line. */
  lemma StripsTile(polygon: seq<Point>, axis: nat, lines: seq<real>)
    requires axis <= 1 && polygon != [] && Rising(lines) && Between(polygon, axis, lines[0], lines[|lines| - 1])
    ensures StripSum(polygon, axis, lines, |lines| - 1) == DoubledArea(polygon)
  {
    hide Clip, DoubledArea;
    if axis == 0 {
      StripsTileAcross(polygon, lines);
    } else {
      SwappedStripSum(polygon, lines, |lines| - 1);
      StripsTileAcross(Swapped(polygon), lines);
      SwappedArea(polygon);
    }
  }

  // ---------------------------------------------------------------- cells

  lemma MeetingBetween(p: Point, q: Point, c: real, low: real, high: real)
    requires (p.x <= c <= q.x || q.x <= c <= p.x) && p.x != q.x && low <= p.y <= high && low <= q.y <= high
    ensures low <= Meeting(p, q, 0, c).y <= high
  {
    hide Times;
    var t := (c - p.x) / (q.x - p.x);
    if q.x > p.x {
      QuotientRange(c - p.x, q.x - p.x);
    } else {
      QuotientRange(p.x - c, p.x - q.x);
      NegatedQuotient(c - p.x, q.x - p.x);
    }
    Weighted(p.y, q.y, t);
    Mean(p.y, q.y, t, low, high);
  }

  lemma NegatedQuotient(a: real, b: real)
    requires b != 0.0
    ensures a / b == (-a) / (-b)
  {
  }

  lemma Weighted(a: real, b: real, t: real)
    ensures a + Times(t, b - a) == Times(1.0 - t, a) + Times(t, b)
  {
  }

  lemma Mean(a: real, b: real, t: real, low: real, high: real)
    requires 0.0 <= t <= 1.0 && low <= a <= high && low <= b <= high
    ensures low <= Times(1.0 - t, a) + Times(t, b) <= high
  {
    TimesOrder(1.0 - t, low, a);
    TimesOrder(t, low, b);
    TimesOrder(1.0 - t, a, high);
    TimesOrder(t, b, high);
    assert Times(1.0 - t, low) + Times(t, low) == low;
    assert Times(1.0 - t, high) + Times(t, high) == high;
  }

  lemma {:induction false} OutputsBetween(pen: Point, s: seq<Point>, c: real, greater: bool, low: real, high: real)
    requires low <= pen.y <= high && Between(s, 1, low, high)
    ensures Between(Outputs(pen, s, 0, c, greater), 1, low, high)
    decreases |s|
  {
    hide Meeting;
    if s != [] {
      OutputsBetween(s[0], s[1..], c, greater, low, high);
      if Inside(pen.x, c, greater) != Inside(s[0].x, c, greater) {
        MeetingBetween(pen, s[0], c, low, high);
      }
    }
  }

  lemma StripBetween(polygon: seq<Point>, a: real, b: real, low: real, high: real)
    requires Between(polygon, 1, low, high)
    ensures Between(Strip(polygon, 0, a, b), 1, low, high)
  {
    hide Outputs;
    if polygon != [] {
      OutputsBetween(polygon[|polygon| - 1], polygon, a, true, low, high);
      var once := Clip(polygon, 0, a, true);
      if once != [] {
        OutputsBetween(once[|once| - 1], once, b, false, low, high);
      }
    }
  }

  /** The areas of all cells in the first k columns, each cut out by its four sides. */
  function CellSum(polygon: seq<Point>, xs: seq<real>, ys: seq<real>, k: nat): real
    requires k < |xs| && |ys| > 0
  {
    if k == 0 then 0.0
    else CellSum(polygon, xs, ys, k - 1) + StripSum(Strip(polygon, 0, xs[k - 1], xs[k]), 1, ys, |ys| - 1)
  }

  lemma EmptyStrips(axis: nat, lines: seq<real>, k: nat)
    requires k < |lines|
    ensures StripSum([], axis, lines, k) == 0.0
  {
    if k > 0 {
      EmptyStrips(axis, lines, k - 1);
    }
  }

  lemma {:induction false} ColumnsAreStrips(polygon: seq<Point>, xs: seq<real>, ys: seq<real>, k: nat)
    requires k < |xs| && Rising(xs) && Rising(ys) && Between(polygon, 1, ys[0], ys[|ys| - 1])
    ensures CellSum(polygon, xs, ys, k) == StripSum(polygon, 0, xs, k)
  {
    hide Clip, Between;
    if k > 0 {
      ColumnsAreStrips(polygon, xs, ys, k - 1);
      var column := Strip(polygon, 0, xs[k - 1], xs[k]);
      StripBetween(polygon, xs[k - 1], xs[k], ys[0], ys[|ys| - 1]);
      if column != [] {
        StripsTile(column, 1, ys);
      } else {
        EmptyStrips(1, ys, |ys| - 1);
      }
    }
  }

  /** The cells of a grid over a polygon cut it into parts whose areas add up to its own. */
  lemma CellsTile(polygon: seq<Point>, xs: seq<real>, ys: seq<real>)
    requires polygon != [] && Rising(xs) && Rising(ys)
    requires Between(polygon, 0, xs[0], xs[|xs| - 1]) && Between(polygon, 1, ys[0], ys[|ys| - 1])
    ensures CellSum(polygon, xs, ys, |xs| - 1) == DoubledArea(polygon)
  {
    hide CellSum, StripSum, DoubledArea, Between;
    ColumnsAreStrips(polygon, xs, ys, |xs| - 1);
    StripsTile(polygon, 0, xs);
  }
}

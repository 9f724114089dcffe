/** The frame a StatsView draws, as a pure function of its inputs, and what
    that frame is proved to look like.  Angles are in degrees, measured
    clockwise from three o'clock as on an Android canvas; the ring starts at
    the top (-90 degrees). */
module RingChart {

  /** A point in view coordinates (android.graphics.PointF). */
  datatype Point = Point(x: real, y: real)

  /** An axis-aligned rectangle (android.graphics.RectF). */
  datatype Rect = Rect(left: real, top: real, right: real, bottom: real)

  /** Radius, centre and bounding oval of the ring for one view size. */
  datatype Geometry = Geometry(radius: real, center: Point, oval: Rect)

  /** One canvas call of a frame. */
  datatype Command =
    | BgArc(oval: Rect, start: real, sweep: real)            // the empty track, drawn with paintEmpty
    | Arc(oval: Rect, start: real, sweep: real, color: int)  // a segment or the closing cap, drawn with paint
    | Label(percent: real, x: real, y: real)                 // the text "%.2f%%" of percent

  /** Colour assignment: the configured slots, then a fallback colour for
      every index beyond them (the source draws a fresh random colour, see
      RandomFallback). */
  datatype Palette = Palette(slots: seq<int>, fallback: nat -> int) {
    /** colors.getOrElse(index) { generateRandomColor() } */
    function ColorAt(i: nat): int
    {
      if i < |slots| then slots[i] else fallback(i)
    }

    /** Every colour the fallback supplies lies in the range of generateRandomColor. */
    ghost predicate RandomFallback()
    {
      forall i: nat :: |slots| <= i ==> RandomColorRange(fallback(i))
    }
  }

  const FullCircle: real := 360.0
  const TopAngle: real := -90.0

  /** The range Random.nextInt(0xFF000000.toInt(), 0xFFFFFFFF.toInt()) draws
      from, as signed 32-bit ARGB values. */
  predicate RandomColorRange(c: int)
  {
    -0x100_0000 <= c < -1
  }

  /** The alpha byte of a signed 32-bit ARGB colour. */
  function Alpha(c: int): int
  {
    (c % 0x1_0000_0000) / 0x100_0000
  }

  /** Every random fallback colour is fully opaque, and none of them is opaque white. */
  lemma {:induction false} RandomColorIsOpaque(c: int)
    requires RandomColorRange(c)
    ensures Alpha(c) == 0xFF
    ensures c % 0x1_0000_0000 != 0xFFFF_FFFF
  {
    assert c % 0x1_0000_0000 == c + 0x1_0000_0000;
  }

  function Min(a: real, b: real): real
  {
    if a <= b then a else b
  }

  /** data.sum() */
  function Sum(s: seq<real>): real
  {
    if s == [] then 0.0 else Sum(s[..|s| - 1]) + s[|s| - 1]
  }

  /** data.maxOrNull()!! */
  function Max(s: seq<real>): (m: real)
    requires s != []
    ensures m in s
    ensures forall i :: 0 <= i < |s| ==> s[i] <= m
  {
    if |s| == 1 then s[0]
    else
      var m := Max(s[..|s| - 1]);
      assert m in s[..|s| - 1];
      if m < s[|s| - 1] then s[|s| - 1] else m
  }

  predicate NonNegative(s: seq<real>)
  {
    forall i :: 0 <= i < |s| ==> 0.0 <= s[i]
  }

  /** Every value equals m. */
  predicate AllEqual(s: seq<real>, m: real)
  {
    forall i :: 0 <= i < |s| ==> s[i] == m
  }

  /** Normalisation base max(data) * count(data): the amount that fills the ring. */
  function Base(data: seq<real>): real
    requires data != []
  {
    Max(data) * (|data| as real)
  }

  /** The data can be normalised: it is non-empty and its maximum is not zero. */
  predicate Scalable(data: seq<real>)
  {
    data != [] && Max(data) != 0.0
  }

  lemma {:induction false} BaseNonZero(data: seq<real>)
    requires Scalable(data)
    ensures Base(data) != 0.0
    ensures Max(data) > 0.0 ==> Base(data) > 0.0
  {
    var n := |data| as real;
    assert n >= 1.0;
    if Max(data) > 0.0 {
      assert Max(data) * n >= Max(data) * 1.0;
    } else {
      assert Max(data) * n <= Max(data) * 1.0;
    }
  }

  /** The full (unclipped) sweep of segment i. */
  function Sweep(data: seq<real>, i: nat): real
    requires Scalable(data) && i < |data|
  {
    assert Base(data) != 0.0 by { BaseNonZero(data); }
    data[i] / Base(data) * FullCircle
  }

  /** Where segment i starts: the top of the ring plus the full sweeps of all
      earlier segments.  It does not depend on the animation progress. */
  function StartAngle(data: seq<real>, i: nat): real
    requires Scalable(data) && i <= |data|
  {
    if i == 0 then TopAngle else StartAngle(data, i - 1) + Sweep(data, i - 1)
  }

  /** The angle up to which the ring is revealed at progress move. */
  function RevealEnd(move: real): real
  {
    FullCircle * move + TopAngle
  }

  /** The reveal stops after segment i: its end passes the reveal angle. */
  predicate StopsAfter(data: seq<real>, limit: real, i: nat)
    requires Scalable(data) && i < |data|
  {
    StartAngle(data, i + 1) > limit
  }

  /** The first segment at or after from whose end passes the reveal angle,
      or |data| when there is none. */
  function StopIndex(data: seq<real>, limit: real, from: nat): (k: nat)
    requires Scalable(data) && from <= |data|
    ensures from <= k <= |data|
    ensures k < |data| ==> StopsAfter(data, limit, k)
    ensures forall j :: from <= j < k ==> !StopsAfter(data, limit, j)
    decreases |data| - from
  {
    if from == |data| then from
    else if StopsAfter(data, limit, from) then from
    else StopIndex(data, limit, from + 1)
  }

  /** The loop over the segments ran to its end without stopping early. */
  predicate Finished(data: seq<real>, limit: real)
    requires Scalable(data)
  {
    StopIndex(data, limit, 0) == |data|
  }

  /** How many segment arcs a frame draws: all of them, or up to and
      including the one where the reveal stopped. */
  function DrawnCount(data: seq<real>, limit: real): nat
    requires Scalable(data)
  {
    var k := StopIndex(data, limit, 0);
    if k < |data| then k + 1 else |data|
  }

  /** The drawn part of segment i: its full sweep, clipped at the reveal angle. */
  function VisibleSweep(data: seq<real>, limit: real, i: nat): real
    requires Scalable(data) && i < |data|
  {
    Min(Sweep(data, i), limit - StartAngle(data, i))
  }

  /** The arc commands of the first n segments, in input order. */
  function SegmentArcs(data: seq<real>, palette: Palette, limit: real, oval: Rect, n: nat): (r: seq<Command>)
    requires Scalable(data) && n <= |data|
    ensures |r| == n
    ensures forall j :: 0 <= j < n ==>
              r[j] == Arc(oval, StartAngle(data, j), VisibleSweep(data, limit, j), palette.ColorAt(j))
  {
    if n == 0 then []
    else
      SegmentArcs(data, palette, limit, oval, n - 1)
      + [Arc(oval, StartAngle(data, n - 1), VisibleSweep(data, limit, n - 1), palette.ColorAt(n - 1))]
  }

  /** The aggregate percentage sum(data) / base * 100 shown in the centre. */
  function Percent(data: seq<real>): real
    requires Scalable(data)
  {
    assert Base(data) != 0.0 by { BaseNonZero(data); }
    Sum(data) / Base(data) * 100.0
  }

  /** The label, then the 1-degree closing cap when the ring is exactly full. */
  function Closing(data: seq<real>, palette: Palette, rotation: real, oval: Rect, center: Point, textSize: real): seq<Command>
    requires Scalable(data) && |palette.slots| > 0
  {
    [Label(Percent(data), center.x, center.y + textSize / 4.0)]
    + (if Percent(data) == 100.0
       then [Arc(oval, StartAngle(data, |data|) + rotation, 1.0, palette.slots[0])]
       else [])
  }

  /** Every command of one frame at progress move, in drawing order. */
  function Frame(data: seq<real>, palette: Palette, move: real, rotation: real,
                 oval: Rect, center: Point, textSize: real): (r: seq<Command>)
    requires data == [] || Scalable(data)
    requires |palette.slots| > 0
    ensures data == [] <==> r == []
    ensures data != [] ==> r[0] == BgArc(oval, TopAngle, FullCircle)
  {
    if data == [] then []
    else
      var limit := RevealEnd(move);
      [BgArc(oval, TopAngle, FullCircle)]
      + SegmentArcs(data, palette, limit, oval, DrawnCount(data, limit))
      + (if Finished(data, limit) then Closing(data, palette, rotation, oval, center, textSize) else [])
  }

  /** A frame whose loop stops after segment k ends with that segment. */
  lemma {:induction false} FrameStoppedAt(data: seq<real>, palette: Palette, move: real, rotation: real,
                                          oval: Rect, center: Point, textSize: real, k: nat)
    requires Scalable(data) && |palette.slots| > 0 && k < |data|
    requires k <= StopIndex(data, RevealEnd(move), 0) && StopsAfter(data, RevealEnd(move), k)
    ensures Frame(data, palette, move, rotation, oval, center, textSize)
            == [BgArc(oval, TopAngle, FullCircle)] + SegmentArcs(data, palette, RevealEnd(move), oval, k + 1)
  {
    assert StopIndex(data, RevealEnd(move), 0) == k;
  }

  /** A frame whose loop runs through every segment ends with the label and
      possibly the cap. */
  lemma {:induction false} FrameRanThrough(data: seq<real>, palette: Palette, move: real, rotation: real,
                                           oval: Rect, center: Point, textSize: real)
    requires Scalable(data) && |palette.slots| > 0
    requires StopIndex(data, RevealEnd(move), 0) == |data|
    ensures Frame(data, palette, move, rotation, oval, center, textSize)
            == [BgArc(oval, TopAngle, FullCircle)] + SegmentArcs(data, palette, RevealEnd(move), oval, |data|)
               + Closing(data, palette, rotation, oval, center, textSize)
  {
  }

  /** The frame holds the percentage label somewhere. */
  predicate LabelShown(frame: seq<Command>)
  {
    exists i :: 0 <= i < |frame| && frame[i].Label?
  }

  predicate SquareAround(oval: Rect, center: Point, radius: real)
  {
    oval == Rect(center.x - radius, center.y - radius, center.x + radius, center.y + radius)
  }

  /** The ring geometry StatsView.onSizeChanged computes for a w x h view:
      a square oval of side 2 * radius centred in the view, inset by exactly
      lineWidth from the nearer pair of edges, so that the stroke of width
      lineWidth stays inside the view. */
  function RingGeometry(w: int, h: int, lineWidth: int): (g: Geometry)
    ensures SquareAround(g.oval, g.center, g.radius)
    ensures g.center == Point(w as real / 2.0, h as real / 2.0)
    ensures g.oval.right - g.oval.left == g.oval.bottom - g.oval.top == 2.0 * g.radius
    ensures Min(g.oval.left, g.oval.top) == lineWidth as real
    ensures lineWidth >= 0 ==>
              0.0 <= g.oval.left - lineWidth as real / 2.0 && g.oval.right + lineWidth as real / 2.0 <= w as real &&
              0.0 <= g.oval.top - lineWidth as real / 2.0 && g.oval.bottom + lineWidth as real / 2.0 <= h as real
  {
    var radius := (if w <= h then w else h) as real / 2.0 - lineWidth as real;
    var center := Point(w as real / 2.0, h as real / 2.0);
    Geometry(radius, center, Rect(center.x - radius, center.y - radius, center.x + radius, center.y + radius))
  }

  /** A segment beyond the configured slots is drawn in a random colour, and
      with a fallback from generateRandomColor's range that colour is opaque
      and never opaque white; a segment within the slots takes its slot. */
  lemma {:induction false} SegmentColor(palette: Palette, i: nat)
    requires palette.RandomFallback()
    ensures i < |palette.slots| ==> palette.ColorAt(i) == palette.slots[i]
    ensures |palette.slots| <= i ==>
              RandomColorRange(palette.ColorAt(i)) && Alpha(palette.ColorAt(i)) == 0xFF
              && palette.ColorAt(i) % 0x1_0000_0000 != 0xFFFF_FFFF
  {
    if |palette.slots| <= i {
      RandomColorIsOpaque(palette.fallback(i));
    }
  }

  // ---------------------------------------------------------------------
  // Sums and maxima

  lemma {:induction false} ShareOfSum(a: real, x: real, b: real, c: real)
    requires b != 0.0
    ensures (a + x) / b * c == a / b * c + x / b * c
  {
    var q1 := a / b;
    var q2 := x / b;
    assert (q1 + q2) * b == a + x;
  }

  lemma {:induction false} ShareAtMostWhole(s: real, b: real, p: real)
    requires 0.0 < b && s <= b && p == s / b * 100.0
    ensures p <= 100.0
    ensures p == 100.0 <==> s == b
    ensures 0.0 <= s ==> 0.0 <= p
  {
    var q := s / b;
    assert q * b == s;
  }

  lemma {:induction false} SumAtMost(s: seq<real>, m: real)
    requires forall i :: 0 <= i < |s| ==> s[i] <= m
    ensures Sum(s) <= m * (|s| as real)
    ensures Sum(s) == m * (|s| as real) <==> AllEqual(s, m)
  {
    if s != [] {
      var t := s[..|s| - 1];
      assert forall i :: 0 <= i < |t| ==> t[i] == s[i];
      SumAtMost(t, m);
      assert m * (|s| as real) == m * (|t| as real) + m;
      if Sum(s) == m * (|s| as real) {
        assert Sum(t) == m * (|t| as real) && s[|s| - 1] == m;
        forall i | 0 <= i < |s| ensures s[i] == m {
          if i < |t| { assert t[i] == m; }
        }
      }
    }
  }

  lemma {:induction false} SumNonNegative(s: seq<real>)
    requires NonNegative(s)
    ensures 0.0 <= Sum(s)
  {
    if s != [] {
      var t := s[..|s| - 1];
      assert forall i :: 0 <= i < |t| ==> t[i] == s[i];
      SumNonNegative(t);
    }
  }

  // ---------------------------------------------------------------------
  // Segment layout

  /** Segment i starts at the top plus the share of the data before it. */
  lemma {:induction false} StartAngleIsPrefixShare(data: seq<real>, i: nat)
    requires Scalable(data) && i <= |data|
    ensures StartAngle(data, i) == TopAngle + Sum(data[..i]) / Base(data) * FullCircle
  {
    BaseNonZero(data);
    if i == 0 {
      assert data[..0] == [];
    } else {
      StartAngleIsPrefixShare(data, i - 1);
      assert data[..i][..i - 1] == data[..i - 1];
      assert Sum(data[..i]) == Sum(data[..i - 1]) + data[i - 1];
      ShareOfSum(Sum(data[..i - 1]), data[i - 1], Base(data), FullCircle);
    }
  }

  /** For non-negative data no segment has a negative sweep. */
  lemma {:induction false} SweepNonNegative(data: seq<real>, i: nat)
    requires Scalable(data) && NonNegative(data) && i < |data|
    ensures 0.0 <= Sweep(data, i)
  {
    assert 0.0 <= data[0] <= Max(data);
    BaseNonZero(data);
    assert 0.0 <= data[i] / Base(data);
  }

  /** For non-negative data the segments advance clockwise. */
  lemma {:induction false} StartAngleMonotone(data: seq<real>, i: nat, j: nat)
    requires Scalable(data) && NonNegative(data) && i <= j <= |data|
    ensures StartAngle(data, i) <= StartAngle(data, j)
  {
    if i < j {
      StartAngleMonotone(data, i, j - 1);
      SweepNonNegative(data, j - 1);
    }
  }

  /** The full sweeps together make up the aggregate percentage of the ring;
      with a positive maximum they never exceed the full circle, and they
      fill it exactly when every value equals the maximum. */
  lemma {:induction false} SegmentsFillAtMostCircle(data: seq<real>)
    requires Scalable(data)
    ensures StartAngle(data, |data|) == TopAngle + Percent(data) / 100.0 * FullCircle
    ensures Max(data) > 0.0 ==>
              StartAngle(data, |data|) <= TopAngle + FullCircle &&
              (StartAngle(data, |data|) == TopAngle + FullCircle <==> AllEqual(data, Max(data)))
  {
    StartAngleIsPrefixShare(data, |data|);
    assert data[..|data|] == data;
    BaseNonZero(data);
    if Max(data) > 0.0 {
      PercentAtMostHundred(data);
    }
  }

  /** With a positive maximum the percentage is at most 100, and exactly 100
      when every value equals the maximum; with non-negative data it is not
      negative. */
  lemma {:induction false} PercentAtMostHundred(data: seq<real>)
    requires Scalable(data) && Max(data) > 0.0
    ensures Percent(data) <= 100.0
    ensures Percent(data) == 100.0 <==> AllEqual(data, Max(data))
    ensures NonNegative(data) ==> 0.0 <= Percent(data)
  {
    var m, sum, b, p := Max(data), Sum(data), Base(data), Percent(data);
    BaseNonZero(data);
    assert p == sum / b * 100.0;
    assert b == m * (|data| as real);
    SumAtMost(data, m);
    assert sum <= b;
    assert sum == b <==> AllEqual(data, m);
    ShareAtMostWhole(sum, b, p);
    if NonNegative(data) {
      SumNonNegative(data);
    }
  }

  // ---------------------------------------------------------------------
  // Clipping by the reveal angle

  /** Each segment before the one where the reveal stops is drawn in full. */
  lemma {:induction false} EarlierSegmentsDrawnInFull(data: seq<real>, limit: real, j: nat)
    requires Scalable(data) && j < StopIndex(data, limit, 0)
    ensures VisibleSweep(data, limit, j) == Sweep(data, j)
  {
    assert !StopsAfter(data, limit, j);
  }

  /** At progress move >= 0 every drawn segment shows between nothing and its
      full sweep; all but the segment the reveal stopped in show their full
      sweep, and that one is cut exactly at the reveal angle. */
  lemma {:induction false} VisibleSweepWithinFull(data: seq<real>, move: real, j: nat)
    requires Scalable(data) && NonNegative(data) && 0.0 <= move
    requires j < DrawnCount(data, RevealEnd(move))
    ensures 0.0 <= VisibleSweep(data, RevealEnd(move), j) <= Sweep(data, j)
    ensures j < StopIndex(data, RevealEnd(move), 0) ==> VisibleSweep(data, RevealEnd(move), j) == Sweep(data, j)
    ensures j == StopIndex(data, RevealEnd(move), 0) ==>
              StartAngle(data, j) + VisibleSweep(data, RevealEnd(move), j) == RevealEnd(move)
  {
    var limit := RevealEnd(move);
    SweepNonNegative(data, j);
    if j > 0 {
      assert !StopsAfter(data, limit, j - 1);
    }
    assert StartAngle(data, j) <= limit;
    if j < StopIndex(data, limit, 0) {
      EarlierSegmentsDrawnInFull(data, limit, j);
    }
  }

  /** Total drawn sweep of the first n segments. */
  function RevealedSweep(data: seq<real>, limit: real, n: nat): real
    requires Scalable(data) && n <= |data|
  {
    if n == 0 then 0.0 else RevealedSweep(data, limit, n - 1) + VisibleSweep(data, limit, n - 1)
  }

  lemma {:induction false} RevealedPrefix(data: seq<real>, limit: real, n: nat)
    requires Scalable(data) && n <= StopIndex(data, limit, 0)
    ensures RevealedSweep(data, limit, n) == StartAngle(data, n) - TopAngle
  {
    if n > 0 {
      RevealedPrefix(data, limit, n - 1);
      EarlierSegmentsDrawnInFull(data, limit, n - 1);
    }
  }

  /** The arcs of one frame together cover 360 * move degrees of the ring, or
      the whole filled part of it once that is smaller. */
  lemma {:induction false} RevealedSweepMatchesProgress(data: seq<real>, move: real)
    requires Scalable(data) && NonNegative(data) && 0.0 <= move
    ensures RevealedSweep(data, RevealEnd(move), DrawnCount(data, RevealEnd(move)))
            == Min(FullCircle * move, StartAngle(data, |data|) - TopAngle)
  {
    var limit := RevealEnd(move);
    var k := StopIndex(data, limit, 0);
    RevealedPrefix(data, limit, k);
    if k < |data| {
      StartAngleMonotone(data, k + 1, |data|);
    } else {
      assert !StopsAfter(data, limit, |data| - 1);
    }
  }

  /** The frame reaches the label exactly when the end of the last segment
      lies within the reveal angle. */
  lemma {:induction false} FinishedIffFilledWithinReveal(data: seq<real>, limit: real)
    requires Scalable(data) && NonNegative(data)
    ensures Finished(data, limit) <==> StartAngle(data, |data|) <= limit
  {
    var k := StopIndex(data, limit, 0);
    if k < |data| {
      StartAngleMonotone(data, k + 1, |data|);
    } else {
      assert !StopsAfter(data, limit, |data| - 1);
    }
  }

  /** Once the animation is complete the frame always reaches the label. */
  lemma {:induction false} CompleteRevealFinishes(data: seq<real>, move: real)
    requires Scalable(data) && NonNegative(data) && 1.0 <= move
    ensures Finished(data, RevealEnd(move))
  {
    SegmentsFillAtMostCircle(data);
    assert 0.0 <= data[0] <= Max(data);
    FinishedIffFilledWithinReveal(data, RevealEnd(move));
  }

  // ---------------------------------------------------------------------
  // The frame as a whole

  /** Where the loop over the segments stops: every drawn segment but the
      first starts within the reveal angle; when the loop finishes, all
      segments are drawn and the last one ends within that angle, and
      otherwise the last drawn one ends beyond it. */
  lemma {:induction false} StopPoint(data: seq<real>, limit: real)
    requires Scalable(data)
    ensures var d := DrawnCount(data, limit);
            && 1 <= d <= |data|
            && (forall j :: 0 < j < d ==> StartAngle(data, j) <= limit)
            && (Finished(data, limit) ==> d == |data| && StartAngle(data, |data|) <= limit)
            && (!Finished(data, limit) ==> StartAngle(data, d) > limit)
  {
    var d := DrawnCount(data, limit);
    var k := StopIndex(data, limit, 0);
    forall j | 0 < j < d ensures StartAngle(data, j) <= limit {
      assert !StopsAfter(data, limit, j - 1);
    }
    if k == |data| {
      assert !StopsAfter(data, limit, |data| - 1);
    } else {
      assert StopsAfter(data, limit, k);
    }
  }

  /** A non-empty frame starts with the track and continues with the drawn
      segments in input order, each at its start angle, clipped at the
      reveal angle, and coloured by its slot or, beyond the slots, by the
      fallback; after them come one command (the label) or two (label and
      cap) when the loop finished, and nothing otherwise. */
  lemma {:induction false} FrameSegments(data: seq<real>, palette: Palette, move: real, rotation: real,
                                         oval: Rect, center: Point, textSize: real)
    requires Scalable(data) && |palette.slots| > 0
    ensures var f := Frame(data, palette, move, rotation, oval, center, textSize);
            var limit := RevealEnd(move);
            var d := DrawnCount(data, limit);
            && (forall j :: 0 <= j < d ==>
                  f[1 + j] == Arc(oval, StartAngle(data, j), VisibleSweep(data, limit, j), palette.ColorAt(j)))
            && |f| == 1 + d + (if Finished(data, limit) then (if Percent(data) == 100.0 then 2 else 1) else 0)
            && f[0] == BgArc(oval, TopAngle, FullCircle)
  {
    var f := Frame(data, palette, move, rotation, oval, center, textSize);
    var limit := RevealEnd(move);
    var d := DrawnCount(data, limit);
    var arcs := SegmentArcs(data, palette, limit, oval, d);
    assert f == [BgArc(oval, TopAngle, FullCircle)] + arcs
                + (if Finished(data, limit) then Closing(data, palette, rotation, oval, center, textSize) else []);
    forall j | 0 <= j < d
      ensures f[1 + j] == Arc(oval, StartAngle(data, j), VisibleSweep(data, limit, j), palette.ColorAt(j))
    {
      assert f[1 + j] == arcs[j];
    }
  }

  /** The label, and after it the cap, close a frame exactly when the loop
      finished; the cap only at 100 percent, in the first slot's colour, one
      degree wide, at the end of the last segment shifted by the view's
      rotation. */
  lemma {:induction false} FrameClosing(data: seq<real>, palette: Palette, move: real, rotation: real,
                                        oval: Rect, center: Point, textSize: real)
    requires Scalable(data) && |palette.slots| > 0
    ensures var f := Frame(data, palette, move, rotation, oval, center, textSize);
            var limit := RevealEnd(move);
            var d := DrawnCount(data, limit);
            && (LabelShown(f) <==> Finished(data, limit))
            && (Finished(data, limit) ==> f[1 + d] == Label(Percent(data), center.x, center.y + textSize / 4.0))
            && (Finished(data, limit) && Percent(data) == 100.0 ==>
                  f[2 + d] == Arc(oval, StartAngle(data, |data|) + rotation, 1.0, palette.slots[0]))
  {
    var f := Frame(data, palette, move, rotation, oval, center, textSize);
    var limit := RevealEnd(move);
    var d := DrawnCount(data, limit);
    var arcs := SegmentArcs(data, palette, limit, oval, d);
    assert f == [BgArc(oval, TopAngle, FullCircle)] + arcs
                + (if Finished(data, limit) then Closing(data, palette, rotation, oval, center, textSize) else []);
    if Finished(data, limit) {
      assert f[1 + d].Label?;
    } else {
      assert f == [BgArc(oval, TopAngle, FullCircle)] + arcs;
      forall i | 0 <= i < |f| ensures !f[i].Label? {
        if i > 0 { assert f[i] == arcs[i - 1]; }
      }
    }
  }

  /** The example data [500, 500, 500, 0]: quarter-circle segments, 75
      percent, and at the end of the animation the label without a cap. */
  lemma {:induction false} ThreeQuartersExample(palette: Palette, rotation: real, oval: Rect, center: Point, textSize: real)
    requires |palette.slots| == 4
    ensures var data := [500.0, 500.0, 500.0, 0.0];
            && Scalable(data)
            && Sweep(data, 0) == 90.0 && Sweep(data, 1) == 90.0 && Sweep(data, 2) == 90.0 && Sweep(data, 3) == 0.0
            && Percent(data) == 75.0
            && Frame(data, palette, 1.0, rotation, oval, center, textSize)
               == [BgArc(oval, -90.0, 360.0),
                   Arc(oval, -90.0, 90.0, palette.slots[0]),
                   Arc(oval, 0.0, 90.0, palette.slots[1]),
                   Arc(oval, 90.0, 90.0, palette.slots[2]),
                   Arc(oval, 180.0, 0.0, palette.slots[3]),
                   Label(75.0, center.x, center.y + textSize / 4.0)]
  {
    var data := [500.0, 500.0, 500.0, 0.0];
    assert data[..1] == [500.0];
    assert data[..2] == [500.0, 500.0];
    assert data[..3] == [500.0, 500.0, 500.0];
    assert Max(data) == 500.0;
    assert Base(data) == 2000.0;
    assert Sum(data[..1]) == 500.0;
    assert data[..2][..1] == data[..1];
    assert Sum(data[..2]) == 1000.0;
    assert data[..3][..2] == data[..2];
    assert Sum(data[..3]) == 1500.0;
    assert data[..3] == data[..|data| - 1];
    assert Sum(data) == 1500.0;
    var limit := RevealEnd(1.0);
    assert StartAngle(data, 4) == 180.0;
    FinishedIffFilledWithinReveal(data, limit);
    StopPoint(data, limit);
    FrameSegments(data, palette, 1.0, rotation, oval, center, textSize);
    FrameClosing(data, palette, 1.0, rotation, oval, center, textSize);
  }

  /** The data [1, 1, 1, 1] fills the ring: at the end of the animation the
      frame shows 100 percent and the closing cap at the seam. */
  lemma {:induction false} FullRingExample(palette: Palette, rotation: real, oval: Rect, center: Point, textSize: real)
    requires |palette.slots| == 4
    ensures var data := [1.0, 1.0, 1.0, 1.0];
            && Scalable(data)
            && Percent(data) == 100.0
            && Frame(data, palette, 1.0, rotation, oval, center, textSize)
               == [BgArc(oval, -90.0, 360.0),
                   Arc(oval, -90.0, 90.0, palette.slots[0]),
                   Arc(oval, 0.0, 90.0, palette.slots[1]),
                   Arc(oval, 90.0, 90.0, palette.slots[2]),
                   Arc(oval, 180.0, 90.0, palette.slots[3]),
                   Label(100.0, center.x, center.y + textSize / 4.0),
                   Arc(oval, 270.0 + rotation, 1.0, palette.slots[0])]
  {
    var data := [1.0, 1.0, 1.0, 1.0];
    assert data[..1] == [1.0];
    assert data[..2] == [1.0, 1.0];
    assert data[..3] == [1.0, 1.0, 1.0];
    assert Max(data) == 1.0;
    assert Base(data) == 4.0;
    assert Sum(data[..1]) == 1.0;
    assert data[..2][..1] == data[..1];
    assert Sum(data[..2]) == 2.0;
    assert data[..3][..2] == data[..2];
    assert Sum(data[..3]) == 3.0;
    assert data[..3] == data[..|data| - 1];
    assert Sum(data) == 4.0;
    var limit := RevealEnd(1.0);
    assert StartAngle(data, 4) == 270.0;
    FinishedIffFilledWithinReveal(data, limit);
    StopPoint(data, limit);
    FrameSegments(data, palette, 1.0, rotation, oval, center, textSize);
    FrameClosing(data, palette, 1.0, rotation, oval, center, textSize);
  }
}

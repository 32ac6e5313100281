/** The numbers behind one category-tab chart: which pairs get a significance
    marker, where the markers go, the y-axis range, and the companion
    Yes/No table. Figure construction itself is not modelled. */
module Markers {
  import opened Records
  import opened Seqs
  import opened Strings

  const BASE_MARGIN: real := 0.05
  const STACK_STEP: real := 0.03

  // ---------------------------------------------------------------------------
  // Significant pairs

  function IsFlagged(r: Feature): Pair -> bool
  {
    (p: Pair) => r.FlaggedFor(p)
  }

  predicate PairOrderBefore(p: Pair, q: Pair)
  {
    PairIndex(p) < PairIndex(q)
  }

  lemma PairsInKeyOrder()
    ensures Sorted(PAIRS, PairOrderBefore)
    ensures forall p :: p in PAIRS
  {
    forall i, j | 0 <= i < j < |PAIRS| ensures PairOrderBefore(PAIRS[i], PAIRS[j]) {
      PairIndexOf(i);
      PairIndexOf(j);
    }
    forall p ensures p in PAIRS {
      assert PAIRS[PairIndex(p)] == p;
    }
  }

  lemma FlaggedPairs(r: Feature)
    ensures var ps := Filter(PAIRS, IsFlagged(r));
      && (forall p :: p in ps <==> r.flags.Of(p) == 1)
      && (forall i, j :: 0 <= i < j < |ps| ==> PairIndex(ps[i]) < PairIndex(ps[j]))
  {
    var ps := Filter(PAIRS, IsFlagged(r));
    PairsInKeyOrder();
    FilterSorted(PAIRS, PairOrderBefore, IsFlagged(r));
    forall i, j | 0 <= i < j < |ps| ensures PairIndex(ps[i]) < PairIndex(ps[j]) {
      assert PairOrderBefore(ps[i], ps[j]);
    }
    forall p ensures p in ps <==> r.flags.Of(p) == 1 {
      var k := PairIndex(p);
      if r.flags.Of(p) == 1 {
        assert IsFlagged(r)(PAIRS[k]);
      }
      if p in ps {
        var i :| 0 <= i < |ps| && ps[i] == p;
        assert IsFlagged(r)(ps[i]);
      }
    }
  }

  /** `significant_pairs`: exactly the pairs whose flag is 1, each once, in `pair_keys` order. */
  function SignificantPairs(r: Feature): (ps: seq<Pair>)
    ensures forall p :: p in ps <==> r.flags.Of(p) == 1
    ensures forall i, j :: 0 <= i < j < |ps| ==> PairIndex(ps[i]) < PairIndex(ps[j])
  {
    FlaggedPairs(r);
    Filter(PAIRS, IsFlagged(r))
  }

  // ---------------------------------------------------------------------------
  // Extent of the bars

  function MinOf(s: seq<real>): (m: real)
    requires |s| > 0
    ensures m in s && forall i :: 0 <= i < |s| ==> m <= s[i]
  {
    if |s| == 1 then s[0]
    else
      var rest := MinOf(s[1..]);
      if s[0] <= rest then s[0] else rest
  }

  function MaxOf(s: seq<real>): (m: real)
    requires |s| > 0
    ensures m in s && forall i :: 0 <= i < |s| ==> s[i] <= m
  {
    if |s| == 1 then s[0]
    else
      var rest := MaxOf(s[1..]);
      if s[0] >= rest then s[0] else rest
  }

  /** `[m - s for m, s in zip(means, stds)]`, groups in `group_names` order. */
  function Lows(r: Feature): seq<real>
  {
    seq(|GROUPS|, i requires 0 <= i < |GROUPS| => r.mean.Of(GROUPS[i]) - r.std.Of(GROUPS[i]))
  }

  /** `[m + s for m, s in zip(means, stds)]`. */
  function Highs(r: Feature): seq<real>
  {
    seq(|GROUPS|, i requires 0 <= i < |GROUPS| => r.mean.Of(GROUPS[i]) + r.std.Of(GROUPS[i]))
  }

  /** `y_min`: the lowest end of the four error bars, reached by one of them. */
  function YMin(r: Feature): (y: real)
    ensures forall i :: 0 <= i < |GROUPS| ==> y <= r.mean.Of(GROUPS[i]) - r.std.Of(GROUPS[i])
    ensures exists i :: 0 <= i < |GROUPS| && y == r.mean.Of(GROUPS[i]) - r.std.Of(GROUPS[i])
  {
    var lows := Lows(r);
    assert forall i :: 0 <= i < |GROUPS| ==> lows[i] == r.mean.Of(GROUPS[i]) - r.std.Of(GROUPS[i]);
    MinOf(lows)
  }

  /** `y_max`: the highest end of the four error bars, reached by one of them. */
  function YMax(r: Feature): (y: real)
    ensures forall i :: 0 <= i < |GROUPS| ==> r.mean.Of(GROUPS[i]) + r.std.Of(GROUPS[i]) <= y
    ensures exists i :: 0 <= i < |GROUPS| && y == r.mean.Of(GROUPS[i]) + r.std.Of(GROUPS[i])
  {
    var highs := Highs(r);
    assert forall i :: 0 <= i < |GROUPS| ==> highs[i] == r.mean.Of(GROUPS[i]) + r.std.Of(GROUPS[i]);
    MaxOf(highs)
  }

  /** With non-negative standard deviations the bars span an ordered interval. */
  lemma ExtentOrdered(r: Feature)
    requires forall g :: r.std.Of(g) >= 0.0
    ensures YMin(r) <= YMax(r)
    ensures forall g :: YMin(r) <= r.mean.Of(g) - r.std.Of(g) && r.mean.Of(g) + r.std.Of(g) <= YMax(r)
  {
    assert Lows(r)[0] <= Highs(r)[0];
    forall g ensures YMin(r) <= r.mean.Of(g) - r.std.Of(g) && r.mean.Of(g) + r.std.Of(g) <= YMax(r) {
      var i := GroupIndex(g);
      assert Lows(r)[i] == r.mean.Of(g) - r.std.Of(g);
      assert Highs(r)[i] == r.mean.Of(g) + r.std.Of(g);
    }
  }

  // ---------------------------------------------------------------------------
  // Marker placement

  function Abs(x: real): real
  {
    if x < 0.0 then -x else x
  }

  datatype Placement = Placement(base: real, offset: real)

  /** `base_y` and `y_offset` from the three-way branch on the signs of the extent. */
  function MarkerPlacement(yMin: real, yMax: real): (pl: Placement)
    ensures pl.offset == STACK_STEP * Abs(yMax - yMin) && pl.offset >= 0.0
    ensures yMax > 0.0 ==> pl.base == yMax + BASE_MARGIN * Abs(yMax - yMin)
    ensures yMax <= 0.0 && yMin < 0.0 ==> pl.base == yMin - BASE_MARGIN * Abs(yMax - yMin)
    ensures yMax <= 0.0 && yMin >= 0.0 ==> pl.base == yMax + BASE_MARGIN * Abs(yMax - yMin)
  {
    var span := Abs(yMax - yMin);
    if yMax > 0.0 && yMin >= 0.0 then Placement(yMax + span * BASE_MARGIN, span * STACK_STEP)
    else if yMax <= 0.0 && yMin < 0.0 then Placement(yMin - span * BASE_MARGIN, span * STACK_STEP)
    else Placement(yMax + span * BASE_MARGIN, span * STACK_STEP)
  }

  /** `y_line` of the i-th significant pair: stacked upward when y_max > 0, downward otherwise. */
  function MarkerY(yMin: real, yMax: real, i: nat): real
  {
    var pl := MarkerPlacement(yMin, yMax);
    if yMax > 0.0 then pl.base + (i as real) * pl.offset else pl.base - (i as real) * pl.offset
  }

  /** A marker line from group `left` to group `right` at height `y`, named after its pair. */
  datatype Marker = Marker(pair: string, left: string, right: string, y: real)

  /** The marker of pair `p` when it is the i-th significant pair. */
  function MarkerAt(p: Pair, yMin: real, yMax: real, i: nat): Marker
  {
    Marker(Key(p), GroupName(Members(p).0), GroupName(Members(p).1), MarkerY(yMin, yMax, i))
  }

  /** `pair.split("_")` gives the two member names the marker joins. */
  lemma StepParts(p: Pair, parts: seq<string>)
    requires parts == Split(Key(p), '_')
    ensures |parts| == 2 && parts[0] == GroupName(Members(p).0) && parts[1] == GroupName(Members(p).1)
  {
    KeySplits(p);
  }

  /** Line 160 as the loop runs it: `y_line` from the `base_y` and `y_offset`
      worked out once before the loop (`pl`), rather than recomputed from the
      extent as MarkerY does. The marker never lands inside the bars: above
      y_max when it stacks upward, below y_min when it stacks downward. */
  method LineHeight(yMin: real, yMax: real, pl: Placement, i: nat) returns (yLine: real)
    requires pl == MarkerPlacement(yMin, yMax)
    ensures yLine == MarkerY(yMin, yMax, i)
    ensures yMax > 0.0 ==> yLine >= yMax
    ensures yMax <= 0.0 && yMin < 0.0 ==> yLine <= yMin
  {
    StepNonNegative(i, pl.offset);
    if yMax > 0.0 {
      yLine := pl.base + (i as real) * pl.offset;
    } else {
      yLine := pl.base - (i as real) * pl.offset;
    }
  }

  /** One pass of the marker loop: split the key into its two groups and put
      the line at the stacked height for position `i`. */
  method DrawMarker(p: Pair, yMin: real, yMax: real, pl: Placement, i: nat) returns (marker: Marker)
    requires pl == MarkerPlacement(yMin, yMax)
    ensures marker == MarkerAt(p, yMin, yMax, i)
  {
    var key := Key(p);
    var parts := Split(key, '_');
    StepParts(p, parts);
    var g1, g2 := parts[0], parts[1];
    var yLine := LineHeight(yMin, yMax, pl, i);
    marker := Marker(key, g1, g2, yLine);
  }

  /** The marker loop over the significant pairs of a row whose extent is
      `yMin`..`yMax`: one line per pair, in order. */
  method PlaceMarkersFor(pairs: seq<Pair>, yMin: real, yMax: real) returns (markers: seq<Marker>)
    ensures |markers| == |pairs|
    ensures forall i :: 0 <= i < |markers| ==> markers[i] == MarkerAt(pairs[i], yMin, yMax, i)
  {
    var pl := MarkerPlacement(yMin, yMax);
    markers := [];
    for i := 0 to |pairs|
      invariant |markers| == i
      invariant forall k :: 0 <= k < i ==> markers[k] == MarkerAt(pairs[k], yMin, yMax, k)
    {
      var marker := DrawMarker(pairs[i], yMin, yMax, pl, i);
      markers := markers + [marker];
    }
  }

  /** The markers of one feature row's chart. */
  method PlaceMarkers(r: Feature) returns (markers: seq<Marker>)
    ensures |markers| == |SignificantPairs(r)|
    ensures forall i :: 0 <= i < |markers| ==> markers[i] == MarkerAt(SignificantPairs(r)[i], YMin(r), YMax(r), i)
  {
    markers := PlaceMarkersFor(SignificantPairs(r), YMin(r), YMax(r));
  }

  lemma ScaleMonotone(a: real, b: real, c: real)
    requires a <= b && c >= 0.0
    ensures a * c <= b * c
  {
    assert b * c - a * c == (b - a) * c;
  }

  lemma StepNonNegative(i: nat, offset: real)
    requires offset >= 0.0
    ensures (i as real) * offset >= 0.0
    ensures ((i + 1) as real) * offset == (i as real) * offset + offset
  {
  }

  /** When y_max > 0 the i-th marker sits at y_max + 5% + i * 3% of the span:
      never below the bars, and each one at least as high as the one before. */
  lemma MarkersStackUpward(yMin: real, yMax: real, i: nat)
    requires yMax > 0.0
    ensures MarkerY(yMin, yMax, i)
         == yMax + BASE_MARGIN * Abs(yMax - yMin) + (i as real) * (STACK_STEP * Abs(yMax - yMin))
    ensures MarkerY(yMin, yMax, i) >= yMax
    ensures MarkerY(yMin, yMax, i) <= MarkerY(yMin, yMax, i + 1)
  {
    StepNonNegative(i, MarkerPlacement(yMin, yMax).offset);
  }

  // ---------------------------------------------------------------------------
  // Axis range

  /** The y-axis range of `update_layout`, for k markers. */
  function AxisRange(yMin: real, yMax: real, k: nat): (range: (real, real))
    ensures range.0 <= yMin
  {
    var pl := MarkerPlacement(yMin, yMax);
    StepNonNegative(k, pl.offset);
    (yMin - (k as real) * pl.offset, pl.base + (k as real) * pl.offset)
  }

  /** When the markers stack upward, all k of them and all the bars lie inside the axis range. */
  lemma MarkersInsideAxis(yMin: real, yMax: real, k: nat, i: nat)
    requires yMax > 0.0 && yMin <= yMax && i < k
    ensures AxisRange(yMin, yMax, k).0 <= yMin
    ensures yMax <= AxisRange(yMin, yMax, k).1
    ensures AxisRange(yMin, yMax, k).0 <= MarkerY(yMin, yMax, i) <= AxisRange(yMin, yMax, k).1
  {
    var off := MarkerPlacement(yMin, yMax).offset;
    MarkersStackUpward(yMin, yMax, i);
    StepNonNegative(k, off);
    assert (i as real) * off <= (k as real) * off;
  }

  /** With all bars below zero the markers stack downward from below y_min,
      while the range still reaches only k offsets below y_min and ends near
      the markers above: the lowest marker falls under the range and the top
      of the bars above it. */
  lemma AxisMissesDownwardMarkers(yMin: real, yMax: real, k: nat)
    requires yMin < yMax <= 0.0 && 1 <= k <= |PAIRS|
    ensures MarkerY(yMin, yMax, k - 1) < AxisRange(yMin, yMax, k).0
    ensures AxisRange(yMin, yMax, k).1 < yMax
  {
    var off := MarkerPlacement(yMin, yMax).offset;
    StepNonNegative(k - 1, off);
    assert (k as real) * off == ((k - 1) as real) * off + off;
    assert |PAIRS| == 6;
    ScaleMonotone(k as real, 6.0, off);
    var d := yMax - yMin;
    assert Abs(yMax - yMin) == d;
    assert AxisRange(yMin, yMax, k).1 == yMin - BASE_MARGIN * d + (k as real) * off;
    assert off == 0.03 * d;
    assert (k as real) * off <= 6.0 * off == 0.18 * d;
    assert AxisRange(yMin, yMax, k).1 <= yMin + 0.13 * d;
  }

  lemma MinIs(s: seq<real>, i: nat)
    requires i < |s| && forall j :: 0 <= j < |s| ==> s[i] <= s[j]
    ensures MinOf(s) == s[i]
  {
  }

  lemma MaxIs(s: seq<real>, i: nat)
    requires i < |s| && forall j :: 0 <= j < |s| ==> s[j] <= s[i]
    ensures MaxOf(s) == s[i]
  {
  }

  /** A row whose bars lie wholly below zero, with only HC_RBD flagged. */
  const NEGATIVE_EXAMPLE: Feature :=
    Feature("f", 2, PerGroup(-10.0, -8.0, -6.0, -4.0), PerGroup(1.0, 1.0, 1.0, 1.0),
            0.01, 0.01, 0.5, PairFlags(1, 0, 0, 0, 0, 0))

  lemma NegativeExampleExtent()
    ensures YMin(NEGATIVE_EXAMPLE) == -11.0 && YMax(NEGATIVE_EXAMPLE) == -3.0
  {
    var lows, highs := Lows(NEGATIVE_EXAMPLE), Highs(NEGATIVE_EXAMPLE);
    assert lows[0] == -11.0 && lows[1] == -9.0 && lows[2] == -7.0 && lows[3] == -5.0;
    assert highs[0] == -9.0 && highs[1] == -7.0 && highs[2] == -5.0 && highs[3] == -3.0;
    MinIs(lows, 0);
    MaxIs(highs, 3);
  }

  lemma NegativeExamplePairs()
    ensures SignificantPairs(NEGATIVE_EXAMPLE) == [HcRbd]
  {
    var f := IsFlagged(NEGATIVE_EXAMPLE);
    assert f(PAIRS[0]);
    forall i | 0 <= i < |PAIRS[1..]| ensures !f(PAIRS[1..][i]) {
      assert PAIRS[1..][i] == PAIRS[i + 1];
    }
    FilterKeepsNone(PAIRS[1..], f);
  }

  /** In the example the only marker sits at -11.4, below the axis range [-11.24, -11.16],
      and the range ends far below the top of the bars at -3. */
  lemma NegativeExample()
    ensures var r := NEGATIVE_EXAMPLE;
      && |SignificantPairs(r)| == 1
      && MarkerY(YMin(r), YMax(r), 0) == -11.4
      && AxisRange(YMin(r), YMax(r), 1) == (-11.24, -11.16)
      && YMax(r) == -3.0
  {
    NegativeExampleExtent();
    NegativeExamplePairs();
  }

  /** The range the layout evidently intends: k offsets of room on the side the
      markers stack toward, and the bars kept whole. */
  function CoveringAxisRange(yMin: real, yMax: real, k: nat): (range: (real, real))
    requires yMin <= yMax
    ensures range.0 <= yMin && yMax <= range.1
    ensures forall i :: 0 <= i < k ==> range.0 <= MarkerY(yMin, yMax, i) <= range.1
  {
    var pl := MarkerPlacement(yMin, yMax);
    if yMax > 0.0 then
      UpwardMarkersCovered(yMin, yMax, k);
      AxisRange(yMin, yMax, k)
    else
      DownwardMarkersCovered(yMin, yMax, k);
      (pl.base - (k as real) * pl.offset, yMax + (k as real) * pl.offset)
  }

  lemma UpwardMarkersCovered(yMin: real, yMax: real, k: nat)
    requires 0.0 < yMax && yMin <= yMax
    ensures AxisRange(yMin, yMax, k).0 <= yMin && yMax <= AxisRange(yMin, yMax, k).1
    ensures forall i :: 0 <= i < k ==>
      AxisRange(yMin, yMax, k).0 <= MarkerY(yMin, yMax, i) <= AxisRange(yMin, yMax, k).1
  {
    if k > 0 {
      MarkersInsideAxis(yMin, yMax, k, 0);
    } else {
      var pl := MarkerPlacement(yMin, yMax);
      assert AxisRange(yMin, yMax, k) == (yMin, pl.base);
    }
    forall i | 0 <= i < k
      ensures AxisRange(yMin, yMax, k).0 <= MarkerY(yMin, yMax, i) <= AxisRange(yMin, yMax, k).1
    {
      MarkersInsideAxis(yMin, yMax, k, i);
    }
  }

  lemma DownwardMarkersCovered(yMin: real, yMax: real, k: nat)
    requires yMin <= yMax <= 0.0
    ensures var pl := MarkerPlacement(yMin, yMax);
      && pl.base - (k as real) * pl.offset <= yMin
      && yMax <= yMax + (k as real) * pl.offset
      && forall i :: 0 <= i < k ==>
           pl.base - (k as real) * pl.offset <= MarkerY(yMin, yMax, i) <= yMax + (k as real) * pl.offset
  {
    var pl := MarkerPlacement(yMin, yMax);
    StepNonNegative(k, pl.offset);
    forall i | 0 <= i < k
      ensures pl.base - (k as real) * pl.offset <= MarkerY(yMin, yMax, i) <= yMax + (k as real) * pl.offset
    {
      StepNonNegative(i, pl.offset);
      assert (i as real) * pl.offset <= (k as real) * pl.offset;
    }
  }

  /** A row with means 10, 12, 15, 20 and deviations 1,
      every pair but HC_RBD flagged. */
  const FIVE_MARKER_EXAMPLE: Feature :=
    Feature("f", 3, PerGroup(10.0, 12.0, 15.0, 20.0), PerGroup(1.0, 1.0, 1.0, 1.0),
            0.01, 0.01, 0.5, PairFlags(0, 1, 1, 1, 1, 1))

  lemma FiveMarkerExtent()
    ensures YMin(FIVE_MARKER_EXAMPLE) == 9.0 && YMax(FIVE_MARKER_EXAMPLE) == 21.0
  {
    var lows, highs := Lows(FIVE_MARKER_EXAMPLE), Highs(FIVE_MARKER_EXAMPLE);
    assert lows[0] == 9.0 && lows[1] == 11.0 && lows[2] == 14.0 && lows[3] == 19.0;
    assert highs[0] == 11.0 && highs[1] == 13.0 && highs[2] == 16.0 && highs[3] == 21.0;
    MinIs(lows, 0);
    MaxIs(highs, 3);
  }

  lemma FiveMarkerPairs()
    ensures SignificantPairs(FIVE_MARKER_EXAMPLE) == PAIRS[1..]
  {
    var f := IsFlagged(FIVE_MARKER_EXAMPLE);
    assert !f(PAIRS[0]);
    forall i | 0 <= i < |PAIRS[1..]| ensures f(PAIRS[1..][i]) {
      assert PAIRS[1..][i] == PAIRS[i + 1];
    }
    FilterKeepsAll(PAIRS[1..], f);
  }

  /** Five stacked markers; the axis runs from 7.2 up to 23.4. */
  lemma FiveMarkerExample()
    ensures var r := FIVE_MARKER_EXAMPLE;
      && |SignificantPairs(r)| == 5
      && YMin(r) == 9.0 && YMax(r) == 21.0
      && AxisRange(YMin(r), YMax(r), 5) == (7.2, 23.4)
  {
    FiveMarkerExtent();
    FiveMarkerPairs();
  }

  // ---------------------------------------------------------------------------
  // Companion table

  datatype StatRow = StatRow(comparison: string, significant: string, anovaP: real, kruskalP: real, eta: real)

  /** `stat_table`: one row per pair in `pair_keys` order, "Yes" exactly for the
      pairs that get a marker, and the feature's three statistics on every row. */
  function StatTable(r: Feature): (table: seq<StatRow>)
    ensures |table| == |PAIR_KEYS|
    ensures forall i :: 0 <= i < |table| ==>
      && table[i].comparison == PAIR_KEYS[i]
      && (table[i].significant == "Yes" || table[i].significant == "No")
      && (table[i].significant == "Yes" <==> PAIRS[i] in SignificantPairs(r))
      && table[i].anovaP == r.anovaP && table[i].kruskalP == r.kruskalP && table[i].eta == r.eta
  {
    KeysInOrder();
    seq(|PAIRS|, i requires 0 <= i < |PAIRS| =>
      StatRow(Key(PAIRS[i]), if r.flags.Of(PAIRS[i]) == 1 then "Yes" else "No", r.anovaP, r.kruskalP, r.eta))
  }
}

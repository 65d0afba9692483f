/**
 * Variable-height list virtualization: a height ledger (row index to measured
 * pixel height, with a fixed estimate for rows not yet measured) and the window
 * selector that picks the rows to realize for a scroll position and viewport.
 */
module Virtualization {

  import opened Types

  const DEFAULT_ROW_HEIGHT: int := 28
  const DEFAULT_OVERSCAN: nat := 5

  function Max(a: int, b: int): int { if a >= b then a else b }
  function Min(a: int, b: int): int { if a <= b then a else b }

  // ---------------------------------------------------------------------------
  // Specification functions over the ledger's value
  // ---------------------------------------------------------------------------

  /** Height of row i: the measured height when there is one, else the estimate. */
  function RowHeight(heights: map<int, int>, estimate: int, i: int): (h: int)
    ensures NonNegative(heights, estimate) ==> h >= 0
  {
    if i in heights then heights[i] else estimate
  }

  /** Pixel offset of the top edge of row n: the heights of rows 0 .. n-1 added up. */
  function Offset(heights: map<int, int>, estimate: int, n: nat): (o: int)
    ensures NonNegative(heights, estimate) ==> o >= 0
  {
    if n == 0 then 0 else Offset(heights, estimate, n - 1) + RowHeight(heights, estimate, n - 1)
  }

  /** Pixel offset of the bottom edge of row i. */
  function Bottom(heights: map<int, int>, estimate: int, i: nat): int {
    Offset(heights, estimate, i) + RowHeight(heights, estimate, i)
  }

  /** The ledger's invariant: no height, measured or estimated, is negative. */
  ghost predicate NonNegative(heights: map<int, int>, estimate: int) {
    estimate >= 0 && forall i :: i in heights ==> heights[i] >= 0
  }

  /** Row i shares at least one pixel row with the viewport [scrollTop, scrollTop + viewport]. */
  ghost predicate OverlapsViewport(heights: map<int, int>, estimate: int, i: nat, scrollTop: int, viewport: int) {
    Bottom(heights, estimate, i) > scrollTop && Offset(heights, estimate, i) <= scrollTop + viewport
  }

  /** The first row at or after `from` whose bottom edge lies below scrollTop; count when none does. */
  function FirstVisibleFrom(heights: map<int, int>, estimate: int, count: nat, scrollTop: int, from: nat): (f: nat)
    requires from <= count
    ensures from <= f <= count
    ensures forall j :: from <= j < f ==> Bottom(heights, estimate, j) <= scrollTop
    ensures f < count ==> Bottom(heights, estimate, f) > scrollTop
    decreases count - from
  {
    if from == count then count
    else if Bottom(heights, estimate, from) > scrollTop then from
    else FirstVisibleFrom(heights, estimate, count, scrollTop, from + 1)
  }

  /** The first row at or after `from` whose top edge lies below `limit`; count when none does. */
  function FirstBelowFrom(heights: map<int, int>, estimate: int, count: nat, limit: int, from: nat): (e: nat)
    ensures e <= count
    ensures from <= count ==> from <= e
    ensures forall j :: from <= j < e ==> Offset(heights, estimate, j) <= limit
    ensures e < count ==> Offset(heights, estimate, e) > limit
    decreases count - from
  {
    if from >= count then count
    else if Offset(heights, estimate, from) > limit then from
    else FirstBelowFrom(heights, estimate, count, limit, from + 1)
  }

  /** First rendered row: the first visible row less the overscan, or the last row when none is visible. */
  function StartIndex(heights: map<int, int>, estimate: int, count: nat, scrollTop: int, overscan: nat): (s: nat)
    ensures s <= Max(0, count - 1)
    ensures count == 0 ==> s == 0
  {
    var f := FirstVisibleFrom(heights, estimate, count, scrollTop, 0);
    if f < count then Max(0, f - overscan) else Max(0, count - 1)
  }

  /**
   * One past the last rendered row: the first row from `start` on whose top lies
   * below the viewport, plus the overscan, capped at count; count when there is none.
   */
  function EndIndex(heights: map<int, int>, estimate: int, count: nat, scrollTop: int, viewport: int,
                    overscan: nat, start: nat): (r: nat)
    ensures r <= count
    ensures start <= count ==> start <= r
  {
    var e := FirstBelowFrom(heights, estimate, count, scrollTop + viewport, start);
    if e < count then Min(count, e + overscan) else count
  }

  // ---------------------------------------------------------------------------
  // The engine: the height map is the state the source mutates in place
  // ---------------------------------------------------------------------------

  class Virtualizer {
    var heightMap: map<int, int>
    const estimatedRowHeight: int
    const overscan: nat

    /** The hook's options, defaulting to DEFAULT_ROW_HEIGHT and DEFAULT_OVERSCAN. */
    constructor (estimatedRowHeight: int := DEFAULT_ROW_HEIGHT, overscan: nat := DEFAULT_OVERSCAN)
      ensures heightMap == map[]
      ensures this.estimatedRowHeight == estimatedRowHeight && this.overscan == overscan
    {
      heightMap := map[];
      this.estimatedRowHeight := estimatedRowHeight;
      this.overscan := overscan;
    }

    /** The offset of row `index`: the sum of the heights of the rows above it. */
    method GetRowOffset(index: nat) returns (offset: int)
      ensures offset == Offset(heightMap, estimatedRowHeight, index)
      ensures index == 0 ==> offset == 0
      ensures NonNegative(heightMap, estimatedRowHeight) ==> offset >= 0
    {
      offset := 0;
      var i := 0;
      while i < index
        invariant 0 <= i <= index
        invariant offset == Offset(heightMap, estimatedRowHeight, i)
        invariant NonNegative(heightMap, estimatedRowHeight) ==> offset >= 0
      {
        offset := offset + RowHeight(heightMap, estimatedRowHeight, i);
        i := i + 1;
      }
    }

    /** The height of the whole list: the offset of the row just past the last one. */
    method TotalHeight(itemCount: nat) returns (height: int)
      ensures height == Offset(heightMap, estimatedRowHeight, itemCount)
      ensures itemCount == 0 ==> height == 0
      ensures NonNegative(heightMap, estimatedRowHeight) ==> height >= 0
    {
      height := 0;
      var i := 0;
      while i < itemCount
        invariant 0 <= i <= itemCount
        invariant height == Offset(heightMap, estimatedRowHeight, i)
        invariant NonNegative(heightMap, estimatedRowHeight) ==> height >= 0
      {
        height := height + RowHeight(heightMap, estimatedRowHeight, i);
        i := i + 1;
      }
    }

    /** The first row to render for the scroll position `scrollTop`. */
    method FindStartIndex(itemCount: nat, scrollTop: int) returns (start: nat)
      ensures start == StartIndex(heightMap, estimatedRowHeight, itemCount, scrollTop, overscan)
    {
      var offset := 0;
      var i := 0;
      while i < itemCount
        invariant 0 <= i <= itemCount
        invariant offset == Offset(heightMap, estimatedRowHeight, i)
        invariant FirstVisibleFrom(heightMap, estimatedRowHeight, itemCount, scrollTop, 0)
               == FirstVisibleFrom(heightMap, estimatedRowHeight, itemCount, scrollTop, i)
      {
        var rowHeight := RowHeight(heightMap, estimatedRowHeight, i);
        if offset + rowHeight > scrollTop {
          return Max(0, i - overscan);
        }
        offset := offset + rowHeight;
        i := i + 1;
      }
      return Max(0, itemCount - 1);
    }

    /** One past the last row to render, scanning from `startIndex`. */
    method FindEndIndex(itemCount: nat, scrollTop: int, containerHeight: int, startIndex: nat) returns (end: nat)
      ensures end == EndIndex(heightMap, estimatedRowHeight, itemCount, scrollTop, containerHeight, overscan, startIndex)
    {
      var viewportBottom := scrollTop + containerHeight;
      var offset := GetRowOffset(startIndex);
      var heights, estimate := heightMap, estimatedRowHeight;
      var i := startIndex;
      while i < itemCount && offset <= viewportBottom
        invariant startIndex <= i
        invariant i <= itemCount || i == startIndex
        invariant offset == Offset(heights, estimate, i)
        invariant FirstBelowFrom(heights, estimate, itemCount, viewportBottom, startIndex)
               == FirstBelowFrom(heights, estimate, itemCount, viewportBottom, i)
      {
        assert FirstBelowFrom(heights, estimate, itemCount, viewportBottom, i)
            == FirstBelowFrom(heights, estimate, itemCount, viewportBottom, i + 1);
        offset := offset + RowHeight(heights, estimate, i);
        i := i + 1;
      }
      if i < itemCount {
        assert FirstBelowFrom(heights, estimate, itemCount, viewportBottom, i) == i;
        return Min(itemCount, i + overscan);
      }
      return itemCount;
    }

    /** Records a measured height; an equal measurement leaves the map as it was. */
    method SetRowHeight(index: int, height: int)
      modifies this
      ensures heightMap == old(heightMap)[index := height]
      ensures index in heightMap && heightMap[index] == height
      ensures forall j :: j != index ==>
                RowHeight(heightMap, estimatedRowHeight, j) == RowHeight(old(heightMap), estimatedRowHeight, j)
      ensures index in old(heightMap) && old(heightMap)[index] == height ==> heightMap == old(heightMap)
    {
      var current := if index in heightMap then Some(heightMap[index]) else None;
      if current != Some(height) {
        heightMap := heightMap[index := height];
      }
    }

    /** The derived window of one render: the rows to realize, their offset and the list's height. */
    method Window(itemCount: nat, scrollTop: int, containerHeight: int)
      returns (startIndex: nat, endIndex: nat, offsetY: int, totalHeight: int)
      ensures startIndex == StartIndex(heightMap, estimatedRowHeight, itemCount, scrollTop, overscan)
      ensures endIndex == EndIndex(heightMap, estimatedRowHeight, itemCount, scrollTop, containerHeight, overscan, startIndex)
      ensures offsetY == Offset(heightMap, estimatedRowHeight, startIndex)
      ensures totalHeight == Offset(heightMap, estimatedRowHeight, itemCount)
      ensures startIndex <= endIndex <= itemCount
      ensures itemCount == 0 ==> startIndex == 0 && endIndex == 0 && totalHeight == 0
      ensures NonNegative(heightMap, estimatedRowHeight) ==> 0 <= offsetY <= totalHeight
      ensures NonNegative(heightMap, estimatedRowHeight) ==>
        forall i :: 0 <= i < itemCount && OverlapsViewport(heightMap, estimatedRowHeight, i, scrollTop, containerHeight)
          ==> startIndex <= i < endIndex
    {
      startIndex := FindStartIndex(itemCount, scrollTop);
      endIndex := FindEndIndex(itemCount, scrollTop, containerHeight, startIndex);
      offsetY := GetRowOffset(startIndex);
      totalHeight := TotalHeight(itemCount);
      if NonNegative(heightMap, estimatedRowHeight) {
        OffsetYWithinTotal(heightMap, estimatedRowHeight, itemCount, scrollTop, overscan);
        forall i | 0 <= i < itemCount && OverlapsViewport(heightMap, estimatedRowHeight, i, scrollTop, containerHeight)
          ensures startIndex <= i < endIndex
        {
          WindowCoversViewport(heightMap, estimatedRowHeight, itemCount, scrollTop, containerHeight, overscan, i);
        }
      }
    }
  }

  // ---------------------------------------------------------------------------
  // Lemmas
  // ---------------------------------------------------------------------------

  /** With no negative height, offsets only grow down the list. */
  lemma {:induction false} OffsetMonotone(heights: map<int, int>, estimate: int, i: nat, j: nat)
    requires NonNegative(heights, estimate)
    requires i <= j
    ensures Offset(heights, estimate, i) <= Offset(heights, estimate, j)
    decreases j - i
  {
    if i < j {
      OffsetMonotone(heights, estimate, i, j - 1);
    }
  }

  /** The rendered window lies inside the list, and an empty list renders nothing. */
  lemma WindowBounds(heights: map<int, int>, estimate: int, count: nat, scrollTop: int, viewport: int, overscan: nat)
    ensures (var s := StartIndex(heights, estimate, count, scrollTop, overscan);
             0 <= s <= EndIndex(heights, estimate, count, scrollTop, viewport, overscan, s) <= count)
    ensures count == 0 ==> (StartIndex(heights, estimate, count, scrollTop, overscan) == 0
                         && EndIndex(heights, estimate, count, scrollTop, viewport, overscan, 0) == 0)
  {
  }

  /** The translation of the rendered window never exceeds the height of the list. */
  lemma OffsetYWithinTotal(heights: map<int, int>, estimate: int, count: nat, scrollTop: int, overscan: nat)
    requires NonNegative(heights, estimate)
    ensures 0 <= Offset(heights, estimate, StartIndex(heights, estimate, count, scrollTop, overscan))
              <= Offset(heights, estimate, count)
  {
    var s := StartIndex(heights, estimate, count, scrollTop, overscan);
    OffsetMonotone(heights, estimate, 0, s);
    OffsetMonotone(heights, estimate, s, count);
  }

  /** Every row that overlaps the viewport is inside the rendered window. */
  lemma WindowCoversViewport(heights: map<int, int>, estimate: int, count: nat, scrollTop: int, viewport: int,
                             overscan: nat, i: nat)
    requires NonNegative(heights, estimate)
    requires i < count && OverlapsViewport(heights, estimate, i, scrollTop, viewport)
    ensures var s := StartIndex(heights, estimate, count, scrollTop, overscan);
            s <= i < EndIndex(heights, estimate, count, scrollTop, viewport, overscan, s)
  {
    var f := FirstVisibleFrom(heights, estimate, count, scrollTop, 0);
    var s := StartIndex(heights, estimate, count, scrollTop, overscan);
    assert f <= i;
    var e := FirstBelowFrom(heights, estimate, count, scrollTop + viewport, s);
    if e <= i {
      OffsetMonotone(heights, estimate, e, i);
      assert false;
    }
  }

  /**
   * Measuring row k at height x leaves every offset at or above row k unchanged
   * and shifts every offset below it by the difference.
   */
  lemma {:induction false} OffsetAfterSetRowHeight(heights: map<int, int>, estimate: int, k: int, x: int, n: nat)
    ensures Offset(heights[k := x], estimate, n)
         == Offset(heights, estimate, n) + (if 0 <= k < n then x - RowHeight(heights, estimate, k) else 0)
  {
    if n > 0 {
      OffsetAfterSetRowHeight(heights, estimate, k, x, n - 1);
    }
  }

  /** Setting a height keeps the ledger's invariant when the new height is not negative. */
  lemma SetRowHeightKeepsNonNegative(heights: map<int, int>, estimate: int, k: int, x: int)
    requires NonNegative(heights, estimate) && x >= 0
    ensures NonNegative(heights[k := x], estimate)
  {
  }

  /** With nothing measured, every row has the estimated height. */
  lemma {:induction false} UniformOffset(estimate: int, n: nat)
    ensures Offset(map[], estimate, n) == n * estimate
  {
    if n > 0 {
      UniformOffset(estimate, n - 1);
    }
  }

  /** The first visible row is the one row k before which no row reaches scrollTop and which itself does. */
  lemma FirstVisibleUnique(heights: map<int, int>, estimate: int, count: nat, scrollTop: int, k: nat)
    requires k <= count
    requires forall j :: 0 <= j < k ==> Bottom(heights, estimate, j) <= scrollTop
    requires k < count ==> Bottom(heights, estimate, k) > scrollTop
    ensures FirstVisibleFrom(heights, estimate, count, scrollTop, 0) == k
  {
    var f := FirstVisibleFrom(heights, estimate, count, scrollTop, 0);
    // mentioning both bottoms lets the two characterizations meet
    var bottomF, bottomK := Bottom(heights, estimate, f), Bottom(heights, estimate, k);
  }

  /** The first row from s whose top passes limit is the one row k with no such row in [s, k). */
  lemma FirstBelowUnique(heights: map<int, int>, estimate: int, count: nat, limit: int, s: nat, k: nat)
    requires s <= k <= count
    requires forall j :: s <= j < k ==> Offset(heights, estimate, j) <= limit
    requires k < count ==> Offset(heights, estimate, k) > limit
    ensures FirstBelowFrom(heights, estimate, count, limit, s) == k
  {
    var e := FirstBelowFrom(heights, estimate, count, limit, s);
    var topE, topK := Offset(heights, estimate, e), Offset(heights, estimate, k);
  }

  /** With nothing measured, a pixel y >= 0 lies in row y / H. */
  lemma UniformRowOf(estimate: int, y: int)
    requires estimate > 0 && y >= 0
    ensures Offset(map[], estimate, y / estimate) <= y < Offset(map[], estimate, y / estimate + 1)
  {
    var q := y / estimate;
    UniformOffset(estimate, q);
    UniformOffset(estimate, q + 1);
    assert (q + 1) * estimate == q * estimate + estimate;
  }

  /** With nothing measured, the rows before k all end at or above the top of row q >= k. */
  lemma UniformBottomsUpTo(estimate: int, k: nat, q: nat)
    requires estimate > 0 && k <= q
    ensures forall j :: 0 <= j < k ==> Bottom(map[], estimate, j) <= Offset(map[], estimate, q)
  {
    assert NonNegative(map[], estimate);
    forall j | 0 <= j < k
      ensures Bottom(map[], estimate, j) <= Offset(map[], estimate, q)
    {
      OffsetMonotone(map[], estimate, j + 1, q);
    }
  }

  /** With nothing measured, the rows before k all start at or above the top of row q >= k - 1. */
  lemma UniformTopsUpTo(estimate: int, k: nat, q: nat)
    requires estimate > 0 && k <= q + 1
    ensures forall j :: 0 <= j < k ==> Offset(map[], estimate, j) <= Offset(map[], estimate, q)
  {
    assert NonNegative(map[], estimate);
    forall j | 0 <= j < k
      ensures Offset(map[], estimate, j) <= Offset(map[], estimate, q)
    {
      OffsetMonotone(map[], estimate, j, q);
    }
  }

  /** With nothing measured and row height H > 0, the first visible row is scrollTop / H. */
  lemma UniformFirstVisible(count: nat, estimate: int, scrollTop: int)
    requires estimate > 0 && scrollTop >= 0
    ensures FirstVisibleFrom(map[], estimate, count, scrollTop, 0) == Min(count, scrollTop / estimate)
  {
    var h: map<int, int> := map[];
    var q := scrollTop / estimate;
    var k := Min(count, q);
    UniformRowOf(estimate, scrollTop);
    UniformBottomsUpTo(estimate, k, q);
    assert Bottom(h, estimate, q) == Offset(h, estimate, q + 1);
    FirstVisibleUnique(h, estimate, count, scrollTop, k);
  }

  /** With nothing measured and row height H > 0, the first row from s whose top passes limit is limit / H + 1. */
  lemma UniformFirstBelow(count: nat, estimate: int, limit: int, s: nat)
    requires estimate > 0 && limit >= 0 && s < count
    ensures FirstBelowFrom(map[], estimate, count, limit, s) == Min(count, Max(s, limit / estimate + 1))
  {
    var h: map<int, int> := map[];
    var p := limit / estimate + 1;
    var k := Min(count, Max(s, p));
    UniformRowOf(estimate, limit);
    if s < p {
      UniformTopsUpTo(estimate, k, p - 1);
    }
    if k < count {
      OffsetMonotone(h, estimate, p, k);
    }
    FirstBelowUnique(h, estimate, count, limit, s, k);
  }

  /**
   * With nothing measured and a row height H > 0, the window starts at
   * scrollTop / H less the overscan and ends at (scrollTop + viewport) / H + 1
   * plus the overscan, both clamped to the list.
   */
  lemma UniformWindow(count: nat, estimate: int, scrollTop: int, viewport: int, overscan: nat)
    requires estimate > 0 && scrollTop >= 0 && viewport >= 0
    ensures StartIndex(map[], estimate, count, scrollTop, overscan)
         == if scrollTop / estimate < count then Max(0, scrollTop / estimate - overscan) else Max(0, count - 1)
    ensures (var s := StartIndex(map[], estimate, count, scrollTop, overscan);
             EndIndex(map[], estimate, count, scrollTop, viewport, overscan, s)
             == if (scrollTop + viewport) / estimate + 1 < count
                then Min(count, (scrollTop + viewport) / estimate + 1 + overscan) else count)
  {
    var q := scrollTop / estimate;
    var p := (scrollTop + viewport) / estimate + 1;
    UniformFirstVisible(count, estimate, scrollTop);
    DivMonotone(scrollTop, scrollTop + viewport, estimate);
    var s := StartIndex(map[], estimate, count, scrollTop, overscan);
    if s < count {
      UniformFirstBelow(count, estimate, scrollTop + viewport, s);
      assert s <= p;
    }
  }

  lemma DivMonotone(a: int, b: int, d: int)
    requires 0 <= a <= b && d > 0
    ensures a / d <= b / d
  {
    if a / d > b / d {
      assert (b / d + 1) * d <= (a / d) * d by {
        MulMonotone(b / d + 1, a / d, d);
      }
    }
  }

  lemma MulMonotone(x: int, y: int, d: int)
    requires x <= y && d > 0
    ensures x * d <= y * d
  {
  }
}

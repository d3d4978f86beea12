/** The hook src/hooks/useVirtualScroll.js: which rows of a long list to render for the
    current scroll position, with a buffer of five rows on each side. */
module VirtualScroll {

  /** The `visibleRange` state. */
  datatype Range = Range(start: int, end: int)

  /** The rows rendered above and below the viewport. */
  const Buffer: int := 5

  /** The range before the container is measured. */
  const InitialRange: Range := Range(0, 50)

  function Max(a: int, b: int): int { if a < b then b else a }
  function Min(a: int, b: int): int { if a < b then a else b }

  /** `Math.ceil`: the least integer not below `x`. */
  function Ceil(x: real): (r: int)
    ensures x <= r as real < x + 1.0
  {
    -((-x).Floor)
  }

  /** `calculateVisibleItems`: the index of the first row the viewport touches, less the
      buffer and not below 0, and the index past the last row it touches, plus the buffer
      and not past the list. Heights are in pixels; `itemHeight` must be positive. */
  function Recalculate(n: nat, scrollTop: real, clientHeight: real, itemHeight: real): (r: Range)
    requires itemHeight > 0.0
    ensures 0 <= r.start && r.end <= n
  {
    Range(Max(0, (scrollTop / itemHeight).Floor - Buffer),
          Min(n, Ceil((scrollTop + clientHeight) / itemHeight) + Buffer))
  }

  /** Row `i` occupies the pixels `[i * itemHeight, (i + 1) * itemHeight)`; it is on screen
      when that band meets the viewport `[scrollTop, scrollTop + clientHeight)`. */
  predicate OnScreen(i: int, scrollTop: real, clientHeight: real, itemHeight: real)
  {
    i as real * itemHeight < scrollTop + clientHeight && (i + 1) as real * itemHeight > scrollTop
  }

  /** Every row on screen is within the computed range, so none is left unrendered. */
  lemma RangeCoversScreen(n: nat, scrollTop: real, clientHeight: real, itemHeight: real, i: int)
    requires itemHeight > 0.0 && 0 <= i < n
    requires OnScreen(i, scrollTop, clientHeight, itemHeight)
    ensures var r := Recalculate(n, scrollTop, clientHeight, itemHeight);
      r.start <= i < r.end
  {
    var top := scrollTop / itemHeight;
    var bottom := (scrollTop + clientHeight) / itemHeight;
    assert top * itemHeight == scrollTop;
    assert bottom * itemHeight == scrollTop + clientHeight;
    BelowByScale(top, (i + 1) as real, itemHeight);
    BelowByScale(i as real, bottom, itemHeight);
    assert top.Floor <= i;
    assert Ceil(bottom) > i;
  }

  /** Dividing both sides of `a * h < b * h` by a positive `h`. */
  lemma BelowByScale(a: real, b: real, h: real)
    requires h > 0.0 && a * h < b * h
    ensures a < b
  {
  }

  /** A relative index of `Array.prototype.slice`: negative counts from the end. */
  function SliceIndex(i: int, len: nat): (k: nat)
    ensures k <= len
    ensures 0 <= i ==> k == Min(i, len)
  {
    if i < 0 then Max(len + i, 0) else Min(i, len)
  }

  /** `items.slice(start, end)`. */
  function JsSlice<T>(items: seq<T>, start: int, end: int): (r: seq<T>)
    ensures |r| <= |items|
    ensures 0 <= end <= start ==> r == []
    ensures 0 <= start <= end <= |items| ==> r == items[start..end]
    ensures 0 <= start && |items| <= end ==> r == items[Min(start, |items|)..]
  {
    var from := SliceIndex(start, |items|);
    var to := SliceIndex(end, |items|);
    if from < to then items[from..to] else []
  }

  /** What the hook returns. */
  datatype View<T> = View(visibleItems: seq<T>, startIndex: int, totalHeight: real)

  function Render<T>(items: seq<T>, range: Range, itemHeight: real): (v: View<T>)
    ensures v.startIndex == range.start && v.totalHeight == |items| as real * itemHeight
    ensures |v.visibleItems| <= |items|
  {
    View(JsSlice(items, range.start, range.end), range.start, |items| as real * itemHeight)
  }

  /** Before measuring, the first fifty rows (or all, for a shorter list) are rendered. */
  lemma InitialView<T>(items: seq<T>, itemHeight: real)
    ensures Render(items, InitialRange, itemHeight).visibleItems == items[..Min(50, |items|)]
    ensures Render(items, InitialRange, itemHeight).startIndex == 0
  {
  }

  /** After a measurement of a list scrolled to a non-negative position the rendered rows
      are exactly the rows of the range, each at its own index counted from `startIndex`,
      and none when the range is empty. */
  lemma MeasuredView<T>(items: seq<T>, scrollTop: real, clientHeight: real, itemHeight: real)
    requires itemHeight > 0.0 && scrollTop >= 0.0 && clientHeight >= 0.0
    ensures var r := Recalculate(|items|, scrollTop, clientHeight, itemHeight);
      var v := Render(items, r, itemHeight);
      (r.start < r.end ==> v.visibleItems == items[r.start..r.end]) &&
      (r.end <= r.start ==> v.visibleItems == []) &&
      forall k :: 0 <= k < |v.visibleItems| ==> v.visibleItems[k] == items[v.startIndex + k]
  {
    var r := Recalculate(|items|, scrollTop, clientHeight, itemHeight);
    assert (scrollTop + clientHeight) / itemHeight >= 0.0;
    assert 0 <= r.end;
  }
}

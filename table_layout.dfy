/** The example app's prototype layout (CollectionViewTableLayout). Like the grid
    layout it places items by (x, y) table positions, but its column widths and
    row heights are rebuilt from fresh maxima on every pass, column and row 0 are
    real tracks, there is no padding, an item's centre is the leading edge of its
    cell, and hidden items are placed and reported like any other. */
module TableLayout {
  import opened Geometry
  import opened GridLayout

  /** The prototype's stored state: the record table, the position table, the
      table bounds, the dense column widths and row heights, and the content size. */
  datatype TableState = TableState(attributes: map<nat, Attributes>,
                                   positions: map<nat, GridPosition>,
                                   bounds: GridPosition,
                                   columnWidths: seq<real>,
                                   rowHeights: seq<real>,
                                   totalSize: Size)

  /** The size an item is given: the uniform size when one is set, otherwise the
      delegate's answer. */
  function ItemSize(uniform: Option<Size>, d: LayoutDelegate, k: nat): Size
  {
    if uniform.Some? then uniform.value else d.sizeFor(k)
  }

  /** The records after the measuring loop: each sized, and hidden exactly when
      its delegate position is off the table. */
  function TableMeasured(attrs: map<nat, Attributes>, uniform: Option<Size>, d: LayoutDelegate): map<nat, Attributes>
  {
    map k | k in attrs :: attrs[k].(size := ItemSize(uniform, d, k), hidden := OffGrid(d.positionFor(k)))
  }

  /** What the items in `keys` contribute along x: their column and their width. */
  function XEntries(keys: set<nat>, uniform: Option<Size>, d: LayoutDelegate): map<nat, (int, real)>
  {
    map k | k in keys :: (d.positionFor(k).x, ItemSize(uniform, d, k).width)
  }

  /** What the items in `keys` contribute along y: their row and their height. */
  function YEntries(keys: set<nat>, uniform: Option<Size>, d: LayoutDelegate): map<nat, (int, real)>
  {
    map k | k in keys :: (d.positionFor(k).y, ItemSize(uniform, d, k).height)
  }

  /** The maxima of one pass: a fresh table, left empty when a uniform size is set. */
  ghost function PassMaxima(entries: map<nat, (int, real)>, uniform: Option<Size>): map<int, real>
  {
    if uniform.Some? then map[] else Widened(map[], entries)
  }

  /** The dense track for indices 0 ..< bound, with 0 where no maximum was recorded. */
  function DenseTrack(bound: int, sizes: map<int, real>): seq<real>
  {
    seq(if bound > 0 then bound else 0, i => Lookup(sizes, i, 0.0))
  }

  /** `sizes[0...x].reduce(0, +) - sizes[x]`: the sum of the tracks before x. */
  function Edge(sizes: seq<real>, x: nat): real
    requires x < |sizes|
  {
    Sum(sizes[..x + 1]) - sizes[x]
  }

  /** The closed range 0...x, and 0...y, can be cut from the tracks. */
  predicate Fits(columns: seq<real>, rows: seq<real>, p: GridPosition)
  {
    0 <= p.x < |columns| && 0 <= p.y < |rows|
  }

  /** Some record with a position, hidden or not, lies outside the tracks, so its
      slice would be out of range and stop the program. */
  ghost predicate TableTraps(columns: seq<real>, rows: seq<real>, attrs: map<nat, Attributes>,
                             positions: map<nat, GridPosition>)
  {
    exists k :: k in attrs && k in positions && !Fits(columns, rows, positions[k])
  }

  /** Every record with a position moved to the leading edges of its column and row. */
  ghost function TableLaid(columns: seq<real>, rows: seq<real>, attrs: map<nat, Attributes>,
                           positions: map<nat, GridPosition>): map<nat, Attributes>
    requires !TableTraps(columns, rows, attrs, positions)
  {
    map k | k in attrs :: if k in positions then
                            attrs[k].(center := Point(Edge(columns, positions[k].x), Edge(rows, positions[k].y)))
                          else attrs[k]
  }

  /** The state after `calculateColumnAndRowSizes` over the records `a0`. */
  ghost function SizedTable(s0: TableState, a0: map<nat, Attributes>, itemCount: Option<nat>,
                            delegate: Option<LayoutDelegate>, uniform: Option<Size>): TableState
  {
    if itemCount.Some? && delegate.Some? then
      var d := delegate.value;
      var xs, ys := XEntries(a0.Keys, uniform, d), YEntries(a0.Keys, uniform, d);
      var b := GridPosition(Stretched(s0.bounds.x, xs), Stretched(s0.bounds.y, ys));
      s0.(attributes := TableMeasured(a0, uniform, d),
          positions := Recorded(s0.positions, a0, itemCount, delegate),
          bounds := b,
          columnWidths := DenseTrack(b.x, PassMaxima(xs, uniform)),
          rowHeights := DenseTrack(b.y, PassMaxima(ys, uniform)))
    else
      s0.(attributes := a0)
  }

  /** `s1` is what one `prepare` of the prototype makes of `s0`; `trapped` says a
      slice was out of range (then only the sizes and the total are known). */
  ghost predicate TablePass(s0: TableState, s1: TableState, itemCount: Option<nat>,
                            delegate: Option<LayoutDelegate>, uniform: Option<Size>, trapped: bool)
  {
    var sB := SizedTable(s0, Built(s0.attributes, itemCount), itemCount, delegate, uniform);
    && s1.positions == sB.positions && s1.bounds == sB.bounds
    && s1.columnWidths == sB.columnWidths && s1.rowHeights == sB.rowHeights
    && s1.totalSize == Size(Sum(sB.columnWidths), Sum(sB.rowHeights))
    && trapped == TableTraps(sB.columnWidths, sB.rowHeights, sB.attributes, sB.positions)
    && (!trapped ==> s1.attributes == TableLaid(sB.columnWidths, sB.rowHeights, sB.attributes, sB.positions))
    && (trapped ==> s1.attributes.Keys == sB.attributes.Keys)
  }

  /** Valid prototype state: the bounds are never negative and cover every
      recorded position. */
  ghost predicate TableValid(s: TableState)
  {
    && s.bounds.x >= 0 && s.bounds.y >= 0
    && forall k :: k in s.positions ==> s.positions[k].x <= s.bounds.x && s.positions[k].y <= s.bounds.y
  }

  // ---------------------------------------------------------------------------
  // Properties of a pass

  /** Each item is hidden exactly when its position is off the table, and gets
      the uniform size when one is set, the delegate's size otherwise. */
  lemma TableHidesOffGrid(a0: map<nat, Attributes>, uniform: Option<Size>, d: LayoutDelegate)
    ensures TableMeasured(a0, uniform, d).Keys == a0.Keys
    ensures forall k :: k in a0 ==>
              && TableMeasured(a0, uniform, d)[k].hidden == OffGrid(d.positionFor(k))
              && TableMeasured(a0, uniform, d)[k].size == (if uniform.Some? then uniform.value else d.sizeFor(k))
  {
  }

  /** With a uniform size no maxima are recorded, so every column width and row
      height of the pass is 0. */
  lemma UniformMeansZeroTracks(s0: TableState, a0: map<nat, Attributes>, itemCount: Option<nat>,
                               delegate: Option<LayoutDelegate>, uniform: Option<Size>)
    requires itemCount.Some? && delegate.Some? && uniform.Some?
    ensures var sB := SizedTable(s0, a0, itemCount, delegate, uniform);
      && (forall i :: 0 <= i < |sB.columnWidths| ==> sB.columnWidths[i] == 0.0)
      && (forall i :: 0 <= i < |sB.rowHeights| ==> sB.rowHeights[i] == 0.0)
  {
  }

  /** Without a uniform size, every dense column width is the largest width of the
      items in that column, and 0 for a column without items. */
  lemma ColumnIsWidest(keys: set<nat>, d: LayoutDelegate, bound: int, i: nat)
    requires i < |DenseTrack(bound, PassMaxima(XEntries(keys, None, d), None))|
    ensures var w := DenseTrack(bound, PassMaxima(XEntries(keys, None, d), None))[i];
      && w >= 0.0
      && (forall k :: k in keys && d.positionFor(k).x == i ==> w >= d.sizeFor(k).width)
      && (w == 0.0 || exists k :: k in keys && d.positionFor(k).x == i && w == d.sizeFor(k).width)
  {
    var xs := XEntries(keys, None, d);
    var w := DenseTrack(bound, PassMaxima(xs, None))[i];
    assert w == Lookup(Widened(map[], xs), i, 0.0);
    if i in Widened(map[], xs) {
      assert w == MaxAt(xs, i, 0.0);
    } else {
      WidenedKeys(map[], xs);
      MaxAtAbsent(xs, i, 0.0);
    }
    MaxAtIsMax(xs, i, 0.0);
    forall k | k in keys && d.positionFor(k).x == i
      ensures w >= d.sizeFor(k).width
    {
      assert xs[k] == (i, d.sizeFor(k).width);
    }
    if w != 0.0 {
      var k :| k in xs && xs[k].0 == i && w == xs[k].1;
      assert k in keys && d.positionFor(k).x == i && w == d.sizeFor(k).width;
    }
  }

  /** Without a uniform size, every dense row height is the largest height of the
      items in that row, and 0 for a row without items. */
  lemma RowIsTallest(keys: set<nat>, d: LayoutDelegate, bound: int, i: nat)
    requires i < |DenseTrack(bound, PassMaxima(YEntries(keys, None, d), None))|
    ensures var h := DenseTrack(bound, PassMaxima(YEntries(keys, None, d), None))[i];
      && h >= 0.0
      && (forall k :: k in keys && d.positionFor(k).y == i ==> h >= d.sizeFor(k).height)
      && (h == 0.0 || exists k :: k in keys && d.positionFor(k).y == i && h == d.sizeFor(k).height)
  {
    var ys := YEntries(keys, None, d);
    var h := DenseTrack(bound, PassMaxima(ys, None))[i];
    assert h == Lookup(Widened(map[], ys), i, 0.0);
    if i in Widened(map[], ys) {
      assert h == MaxAt(ys, i, 0.0);
    } else {
      WidenedKeys(map[], ys);
      MaxAtAbsent(ys, i, 0.0);
    }
    MaxAtIsMax(ys, i, 0.0);
    forall k | k in keys && d.positionFor(k).y == i
      ensures h >= d.sizeFor(k).height
    {
      assert ys[k] == (i, d.sizeFor(k).height);
    }
    if h != 0.0 {
      var k :| k in ys && ys[k].0 == i && h == ys[k].1;
      assert k in keys && d.positionFor(k).y == i && h == d.sizeFor(k).height;
    }
  }

  /** The bounds never shrink, and after a pass they reach every item's position. */
  lemma TableBoundsGrow(s0: TableState, a0: map<nat, Attributes>, itemCount: Option<nat>,
                        delegate: Option<LayoutDelegate>, uniform: Option<Size>)
    requires itemCount.Some? && delegate.Some?
    ensures var b := SizedTable(s0, a0, itemCount, delegate, uniform).bounds;
      && b.x >= s0.bounds.x && b.y >= s0.bounds.y
      && forall k :: k in a0 ==> delegate.value.positionFor(k).x <= b.x && delegate.value.positionFor(k).y <= b.y
  {
    var d := delegate.value;
    var xs, ys := XEntries(a0.Keys, uniform, d), YEntries(a0.Keys, uniform, d);
    StretchedIsMax(s0.bounds.x, xs);
    StretchedIsMax(s0.bounds.y, ys);
    forall k | k in a0
      ensures d.positionFor(k).x <= Stretched(s0.bounds.x, xs) && d.positionFor(k).y <= Stretched(s0.bounds.y, ys)
    {
      assert xs[k].0 == d.positionFor(k).x && ys[k].0 == d.positionFor(k).y;
    }
  }

  /** With a delegate and a collection view, a pass keeps the state valid. */
  lemma TablePassKeepsValid(s0: TableState, a0: map<nat, Attributes>, itemCount: Option<nat>,
                            delegate: Option<LayoutDelegate>, uniform: Option<Size>)
    requires TableValid(s0)
    ensures TableValid(SizedTable(s0, a0, itemCount, delegate, uniform))
  {
    if itemCount.Some? && delegate.Some? {
      TableBoundsGrow(s0, a0, itemCount, delegate, uniform);
    }
  }

  /** An item's centre is the leading edge of its cell: the sum of the tracks
      before it. */
  lemma EdgeIsLeading(sizes: seq<real>, x: nat)
    requires x < |sizes|
    ensures Edge(sizes, x) == Sum(sizes[..x])
  {
    SumPrefixStep(sizes, x);
  }

  /** With non-negative tracks, edges never decrease with the index. */
  lemma EdgesMonotone(sizes: seq<real>, i: nat, j: nat)
    requires NonNegative(sizes) && i <= j < |sizes|
    ensures Edge(sizes, i) <= Edge(sizes, j)
  {
    EdgeIsLeading(sizes, i);
    EdgeIsLeading(sizes, j);
    SumPrefixMonotone(sizes, i, j);
  }

  /** On a layout whose bounds are still 0 across, a pass over a non-empty table
      always stops: the widest item's column x equals the bound, one past the last
      track, and with bound 0 there is no track at all. */
  lemma FreshPassTraps(s0: TableState, itemCount: Option<nat>, delegate: Option<LayoutDelegate>,
                       uniform: Option<Size>)
    requires itemCount.Some? && delegate.Some?
    requires s0.bounds.x == 0
    requires |Built(s0.attributes, itemCount)| > 0
    ensures var sB := SizedTable(s0, Built(s0.attributes, itemCount), itemCount, delegate, uniform);
      TableTraps(sB.columnWidths, sB.rowHeights, sB.attributes, sB.positions)
  {
    var a0 := Built(s0.attributes, itemCount);
    var d := delegate.value;
    var sB := SizedTable(s0, a0, itemCount, delegate, uniform);
    var xs := XEntries(a0.Keys, uniform, d);
    var b := Stretched(0, xs);
    StretchedIsMax(0, xs);
    assert |sB.columnWidths| == b;
    if b == 0 {
      var k :| k in a0;
      assert k in sB.attributes && k in sB.positions && !Fits(sB.columnWidths, sB.rowHeights, sB.positions[k]);
    } else {
      var k :| k in xs && b == xs[k].0;
      assert sB.positions[k] == d.positionFor(k);
      assert k in sB.attributes && k in sB.positions && !Fits(sB.columnWidths, sB.rowHeights, sB.positions[k]);
    }
  }

  /** The evidently intended track: one entry for every index 0 ... bound, so that
      the furthest column is included. */
  function CorrectedTrack(bound: int, sizes: map<int, real>): seq<real>
  {
    seq((if bound > 0 then bound else 0) + 1, i => Lookup(sizes, i, 0.0))
  }

  /** With the corrected tracks, a pass never stops when the delegate gives no
      negative position. */
  lemma CorrectedPassFits(s0: TableState, itemCount: Option<nat>, delegate: Option<LayoutDelegate>,
                          uniform: Option<Size>)
    requires itemCount.Some? && delegate.Some?
    requires forall k :: k in Built(s0.attributes, itemCount) ==>
               delegate.value.positionFor(k).x >= 0 && delegate.value.positionFor(k).y >= 0
    ensures var a0 := Built(s0.attributes, itemCount);
      var sB := SizedTable(s0, a0, itemCount, delegate, uniform);
      var xs, ys := XEntries(a0.Keys, uniform, delegate.value), YEntries(a0.Keys, uniform, delegate.value);
      !TableTraps(CorrectedTrack(sB.bounds.x, PassMaxima(xs, uniform)),
                  CorrectedTrack(sB.bounds.y, PassMaxima(ys, uniform)), sB.attributes, sB.positions)
  {
    var a0 := Built(s0.attributes, itemCount);
    TableBoundsGrow(s0, a0, itemCount, delegate, uniform);
  }

  /** The prototype layout. Its private stored properties are held together in
      `stored`; each step replaces it in one assignment. */
  class Table {
    var stored: TableState
    var uniformItemSize: Option<Size>

    ghost predicate Valid()
      reads this
    {
      TableValid(stored)
    }

    constructor ()
      ensures Valid()
      ensures stored == TableState(map[], map[], NoPosition, [], [], ZeroSize)
      ensures uniformItemSize == None
    {
      stored := TableState(map[], map[], NoPosition, [], [], ZeroSize);
      uniformItemSize := None;
    }

    /** The content size the layout reports. */
    function ContentSize(): Size
      reads this
    {
      stored.totalSize
    }

    /** Empties the record table and zeroes the content size; positions, bounds
        and tracks are kept. */
    method InvalidateLayout()
      requires Valid()
      modifies this
      ensures Valid()
      ensures stored == old(stored).(attributes := map[], totalSize := ZeroSize)
      ensures uniformItemSize == old(uniformItemSize)
    {
      stored := stored.(attributes := map[], totalSize := ZeroSize);
    }

    /** One layout pass (`prepare` / `calculateLayout`); `trapped` reports an
        out-of-range slice in the centre computation. */
    method Prepare(itemCount: Option<nat>, delegate: Option<LayoutDelegate>) returns (trapped: bool)
      requires Valid()
      modifies this
      ensures Valid()
      ensures TablePass(old(stored), stored, itemCount, delegate, uniformItemSize, trapped)
      ensures uniformItemSize == old(uniformItemSize)
    {
      ghost var s0 := stored;
      if |stored.attributes| == 0 {
        BuildLayoutAttributes(itemCount);
      }
      ghost var sA := stored;
      assert sA.attributes == Built(s0.attributes, itemCount);
      CalculateColumnAndRowSizes(itemCount, delegate);
      ghost var sB := stored;
      CalculateTotalSize();
      trapped := CalculateItemLayout();
      TablePassKeepsValid(sA, sA.attributes, itemCount, delegate, uniformItemSize);
      assert sB == SizedTable(s0, Built(s0.attributes, itemCount), itemCount, delegate, uniformItemSize);
    }

    /** One fresh record per item id when the collection view is known. */
    method BuildLayoutAttributes(itemCount: Option<nat>)
      modifies this
      ensures stored == old(stored).(attributes := if itemCount.Some? then FreshTable(itemCount.value)
                                                    else old(stored).attributes)
      ensures uniformItemSize == old(uniformItemSize)
    {
      if itemCount.Some? {
        var records := map[];
        var item := 0;
        while item < itemCount.value
          invariant 0 <= item <= itemCount.value
          invariant records == FreshTable(item)
        {
          records := records[item := FreshAttributes];
          item := item + 1;
        }
        stored := stored.(attributes := records);
      }
    }

    /** Records positions, visibility and sizes, stretches the bounds, and rebuilds
        the column widths and row heights from this pass's maxima. */
    method CalculateColumnAndRowSizes(itemCount: Option<nat>, delegate: Option<LayoutDelegate>)
      requires Valid()
      modifies this
      ensures stored == SizedTable(old(stored), old(stored).attributes, itemCount, delegate, uniformItemSize)
      ensures uniformItemSize == old(uniformItemSize)
    {
      if itemCount.Some? && delegate.Some? {
        var records, recorded, widths, heights, maxX, maxY :=
          MeasureTable(stored.attributes, stored.positions, stored.bounds, uniformItemSize, delegate.value);
        ghost var xs := XEntries(stored.attributes.Keys, uniformItemSize, delegate.value);
        StretchedIsMax(stored.bounds.x, xs);
        StretchedIsMax(stored.bounds.y, YEntries(stored.attributes.Keys, uniformItemSize, delegate.value));
        var columns := FillTrack(maxX, widths);
        var rows := FillTrack(maxY, heights);
        stored := stored.(attributes := records, positions := recorded, bounds := GridPosition(maxX, maxY),
                          columnWidths := columns, rowHeights := rows);
      }
    }

    /** The measuring loop: for each record in turn, its position is recorded, the
        bounds stretched, its visibility and size set and, without a uniform size,
        its column and row maxima raised. */
    static method MeasureTable(attrs: map<nat, Attributes>, positions: map<nat, GridPosition>,
                               bounds0: GridPosition, uniform: Option<Size>, d: LayoutDelegate)
      returns (records: map<nat, Attributes>, recorded: map<nat, GridPosition>,
               widths: map<int, real>, heights: map<int, real>, maxX: int, maxY: int)
      ensures records == TableMeasured(attrs, uniform, d)
      ensures recorded == Recorded(positions, attrs, Some(0), Some(d))
      ensures widths == PassMaxima(XEntries(attrs.Keys, uniform, d), uniform)
      ensures heights == PassMaxima(YEntries(attrs.Keys, uniform, d), uniform)
      ensures maxX == Stretched(bounds0.x, XEntries(attrs.Keys, uniform, d))
      ensures maxY == Stretched(bounds0.y, YEntries(attrs.Keys, uniform, d))
    {
      records, recorded := attrs, positions;
      widths, heights := map[], map[];
      maxX, maxY := bounds0.x, bounds0.y;
      var todo := attrs.Keys;
      TableSoFarStart(attrs, positions, bounds0, uniform, d);
      while todo != {}
        invariant todo <= attrs.Keys
        invariant TableSoFar(attrs, positions, bounds0, uniform, d, todo,
                             records, recorded, widths, heights, maxX, maxY)
        decreases todo
      {
        var k :| k in todo;
        TableSoFarNext(attrs, positions, bounds0, uniform, d, todo,
                       records, recorded, widths, heights, maxX, maxY, k);
        var layoutPosition := d.positionFor(k);
        recorded := recorded[k := layoutPosition];
        maxX, maxY := MaxInt(maxX, layoutPosition.x), MaxInt(maxY, layoutPosition.y);
        var item := records[k];
        if layoutPosition.x <= 0 || layoutPosition.y <= 0 {
          item := item.(hidden := true);
        } else {
          item := item.(hidden := false);
        }
        if uniform.Some? {
          item := item.(size := uniform.value);
        } else {
          item := item.(size := d.sizeFor(k));
          var itemPosition := if k in recorded then recorded[k] else NoPosition;
          var columnWidth := Max(Lookup(widths, itemPosition.x, 0.0), item.size.width);
          widths := widths[itemPosition.x := columnWidth];
          var rowHeight := Max(Lookup(heights, itemPosition.y, 0.0), item.size.height);
          heights := heights[itemPosition.y := rowHeight];
        }
        records := records[k := item];
        todo := todo - {k};
      }
      TableSoFarEnd(attrs, positions, bounds0, uniform, d, records, recorded, widths, heights, maxX, maxY);
    }

    /** Fills one dense track for indices 0 ..< bound, as the `append` loop does;
        the range cannot be formed for a negative bound. */
    static method FillTrack(bound: int, sizes: map<int, real>) returns (dense: seq<real>)
      requires bound >= 0
      ensures dense == DenseTrack(bound, sizes)
    {
      dense := [];
      var i := 0;
      while i < bound
        invariant 0 <= i <= bound
        invariant |dense| == i
        invariant forall j :: 0 <= j < i ==> dense[j] == Lookup(sizes, j, 0.0)
      {
        var width := Lookup(sizes, i, 0.0);
        dense := dense + [width];
        i := i + 1;
      }
    }

    /** The content size: the sum of the column widths by the sum of the row
        heights, with no padding. */
    method CalculateTotalSize()
      modifies this
      ensures stored == old(stored).(totalSize := Size(Sum(old(stored).columnWidths), Sum(old(stored).rowHeights)))
      ensures uniformItemSize == old(uniformItemSize)
    {
      var totalWidth := Sum(stored.columnWidths);
      var totalHeight := Sum(stored.rowHeights);
      stored := stored.(totalSize := Size(totalWidth, totalHeight));
    }

    /** Moves every record with a position to the leading edges of its cell;
        reports a trap when a slice is out of range. */
    method CalculateItemLayout() returns (trapped: bool)
      modifies this
      ensures trapped == TableTraps(old(stored).columnWidths, old(stored).rowHeights,
                                    old(stored).attributes, old(stored).positions)
      ensures !trapped ==> stored == old(stored).(attributes := TableLaid(old(stored).columnWidths,
                             old(stored).rowHeights, old(stored).attributes, old(stored).positions))
      ensures trapped ==> stored == old(stored).(attributes := stored.attributes) &&
                          stored.attributes.Keys == old(stored).attributes.Keys
      ensures uniformItemSize == old(uniformItemSize)
    {
      var records;
      records, trapped := PlaceTable(stored.columnWidths, stored.rowHeights, stored.attributes, stored.positions);
      stored := stored.(attributes := records);
    }

    /** The centre loop over values. */
    static method PlaceTable(columns: seq<real>, rows: seq<real>, attrs: map<nat, Attributes>,
                             positions: map<nat, GridPosition>)
      returns (records: map<nat, Attributes>, trapped: bool)
      ensures trapped == TableTraps(columns, rows, attrs, positions)
      ensures !trapped ==> records == TableLaid(columns, rows, attrs, positions)
      ensures records.Keys == attrs.Keys
    {
      records := attrs;
      var todo := attrs.Keys;
      while todo != {}
        invariant todo <= records.Keys == attrs.Keys
        invariant forall k :: k in todo ==> records[k] == attrs[k]
        invariant forall k :: k in attrs && k !in todo && k in positions ==> Fits(columns, rows, positions[k])
        invariant forall k :: k in attrs && k !in todo ==>
                    records[k] == if k in positions then
                                    attrs[k].(center := Point(Edge(columns, positions[k].x), Edge(rows, positions[k].y)))
                                  else attrs[k]
        decreases todo
      {
        var k :| k in todo;
        if k in positions {
          var position := positions[k];
          if !Fits(columns, rows, position) {
            return records, true;
          }
          var widths := columns[..position.x + 1];
          var centerX := Sum(widths) - widths[position.x];
          var heights := rows[..position.y + 1];
          var centerY := Sum(heights) - heights[position.y];
          records := records[k := records[k].(center := Point(centerX, centerY))];
        }
        todo := todo - {k};
      }
      assert !TableTraps(columns, rows, attrs, positions);
      trapped := false;
    }

    /** The stored record of one item, if any. */
    function LayoutAttributesForItem(k: nat): Option<Attributes>
      reads this
    {
      if k in stored.attributes then Some(stored.attributes[k]) else None
    }

    /** The ids of the records whose frame meets the query rectangle, hidden ones
        included; `intersects` stands for `frame.intersects(rect)`. */
    method LayoutAttributesForElements(intersects: Attributes -> bool) returns (ids: seq<nat>)
      ensures forall i, j :: 0 <= i < j < |ids| ==> ids[i] != ids[j]
      ensures forall k :: k in ids <==> k in stored.attributes && intersects(stored.attributes[k])
    {
      var records := stored.attributes;
      ids := [];
      var todo := records.Keys;
      while todo != {}
        invariant todo <= records.Keys
        invariant forall i, j :: 0 <= i < j < |ids| ==> ids[i] != ids[j]
        invariant forall k :: k in ids ==> k !in todo
        invariant forall k :: k in ids <==> k in records && k !in todo && intersects(records[k])
        decreases todo
      {
        var k :| k in todo;
        if intersects(records[k]) {
          ids := ids + [k];
        }
        todo := todo - {k};
      }
    }
  }

  // ---------------------------------------------------------------------------
  // The measuring loop's account

  /** The records while the measuring loop runs. */
  ghost function TableMeasuredSoFar(attrs: map<nat, Attributes>, todo: set<nat>, uniform: Option<Size>,
                                    d: LayoutDelegate): map<nat, Attributes>
  {
    map k | k in attrs :: if k in todo then attrs[k]
                          else attrs[k].(size := ItemSize(uniform, d, k), hidden := OffGrid(d.positionFor(k)))
  }

  /** Everything the measuring loop has built after handling all records but `todo`. */
  ghost predicate TableSoFar(attrs: map<nat, Attributes>, positions: map<nat, GridPosition>, bounds0: GridPosition,
                             uniform: Option<Size>, d: LayoutDelegate, todo: set<nat>,
                             records: map<nat, Attributes>, recorded: map<nat, GridPosition>,
                             widths: map<int, real>, heights: map<int, real>, maxX: int, maxY: int)
  {
    var done := attrs.Keys - todo;
    && records == TableMeasuredSoFar(attrs, todo, uniform, d)
    && recorded == RecordedSoFar(positions, attrs, todo, d)
    && widths == PassMaxima(XEntries(done, uniform, d), uniform)
    && heights == PassMaxima(YEntries(done, uniform, d), uniform)
    && maxX == Stretched(bounds0.x, XEntries(done, uniform, d))
    && maxY == Stretched(bounds0.y, YEntries(done, uniform, d))
  }

  lemma TableSoFarStart(attrs: map<nat, Attributes>, positions: map<nat, GridPosition>, bounds0: GridPosition,
                        uniform: Option<Size>, d: LayoutDelegate)
    ensures TableSoFar(attrs, positions, bounds0, uniform, d, attrs.Keys,
                       attrs, positions, map[], map[], bounds0.x, bounds0.y)
  {
    assert attrs.Keys - attrs.Keys == {};
    assert XEntries({}, uniform, d) == map[] && YEntries({}, uniform, d) == map[];
    assert Widened(map[], map[]) == map[];
    assert TableMeasuredSoFar(attrs, attrs.Keys, uniform, d) == attrs;
    assert RecordedSoFar(positions, attrs, attrs.Keys, d) == positions;
  }

  lemma XEntriesInsert(keys: set<nat>, uniform: Option<Size>, d: LayoutDelegate, k: nat)
    ensures XEntries(keys + {k}, uniform, d) ==
            XEntries(keys, uniform, d)[k := (d.positionFor(k).x, ItemSize(uniform, d, k).width)]
    ensures YEntries(keys + {k}, uniform, d) ==
            YEntries(keys, uniform, d)[k := (d.positionFor(k).y, ItemSize(uniform, d, k).height)]
  {
  }

  /** A maxima table after one more item at index `c` with extent `v`: raised
      there unless a uniform size is set. */
  function Raised(m: map<int, real>, uniform: Option<Size>, c: int, v: real): map<int, real>
  {
    if uniform.Some? then m else m[c := Max(Lookup(m, c, 0.0), v)]
  }

  /** Handling record `k` next, out of the records still to do, keeps the account. */
  lemma TableSoFarNext(attrs: map<nat, Attributes>, positions: map<nat, GridPosition>, bounds0: GridPosition,
                       uniform: Option<Size>, d: LayoutDelegate, todo: set<nat>,
                       records: map<nat, Attributes>, recorded: map<nat, GridPosition>,
                       widths: map<int, real>, heights: map<int, real>, maxX: int, maxY: int, k: nat)
    requires k in todo && todo <= attrs.Keys
    requires TableSoFar(attrs, positions, bounds0, uniform, d, todo, records, recorded, widths, heights, maxX, maxY)
    ensures var p, s := d.positionFor(k), ItemSize(uniform, d, k);
      TableSoFar(attrs, positions, bounds0, uniform, d, todo - {k},
                 records[k := records[k].(size := s, hidden := OffGrid(p))], recorded[k := p],
                 Raised(widths, uniform, p.x, s.width), Raised(heights, uniform, p.y, s.height),
                 MaxInt(maxX, p.x), MaxInt(maxY, p.y))
  {
    var done := attrs.Keys - todo;
    assert attrs.Keys - (todo - {k}) == done + {k};
    ColumnsStep(done, uniform, d, k, bounds0.x);
    RowsStep(done, uniform, d, k, bounds0.y);
    MeasuredSoFarNext(attrs, positions, todo, d, k);
    TableMeasuredNext(attrs, todo, uniform, d, k);
  }

  lemma TableMeasuredNext(attrs: map<nat, Attributes>, todo: set<nat>, uniform: Option<Size>, d: LayoutDelegate, k: nat)
    requires k in todo && todo <= attrs.Keys
    ensures var r := TableMeasuredSoFar(attrs, todo, uniform, d);
      TableMeasuredSoFar(attrs, todo - {k}, uniform, d) ==
      r[k := r[k].(size := ItemSize(uniform, d, k), hidden := OffGrid(d.positionFor(k)))]
  {
    var r := TableMeasuredSoFar(attrs, todo, uniform, d);
    assert r[k] == attrs[k];
  }

  /** One more item raises its column's maximum and stretches the x bound. */
  lemma ColumnsStep(done: set<nat>, uniform: Option<Size>, d: LayoutDelegate, k: nat, b: int)
    requires k !in done
    ensures var p, s := d.positionFor(k), ItemSize(uniform, d, k);
      && PassMaxima(XEntries(done + {k}, uniform, d), uniform) ==
         Raised(PassMaxima(XEntries(done, uniform, d), uniform), uniform, p.x, s.width)
      && Stretched(b, XEntries(done + {k}, uniform, d)) == MaxInt(Stretched(b, XEntries(done, uniform, d)), p.x)
  {
    var p, s := d.positionFor(k), ItemSize(uniform, d, k);
    var xs := XEntries(done, uniform, d);
    XEntriesInsert(done, uniform, d, k);
    if uniform.None? {
      WidenedStep(map[], xs, k, (p.x, s.width));
    }
    StretchedStep(b, xs, k, (p.x, s.width));
  }

  /** One more item raises its row's maximum and stretches the y bound. */
  lemma RowsStep(done: set<nat>, uniform: Option<Size>, d: LayoutDelegate, k: nat, b: int)
    requires k !in done
    ensures var p, s := d.positionFor(k), ItemSize(uniform, d, k);
      && PassMaxima(YEntries(done + {k}, uniform, d), uniform) ==
         Raised(PassMaxima(YEntries(done, uniform, d), uniform), uniform, p.y, s.height)
      && Stretched(b, YEntries(done + {k}, uniform, d)) == MaxInt(Stretched(b, YEntries(done, uniform, d)), p.y)
  {
    var p, s := d.positionFor(k), ItemSize(uniform, d, k);
    var ys := YEntries(done, uniform, d);
    XEntriesInsert(done, uniform, d, k);
    if uniform.None? {
      WidenedStep(map[], ys, k, (p.y, s.height));
    }
    StretchedStep(b, ys, k, (p.y, s.height));
  }

  /** When nothing is left to do, the account is the measured pass. */
  lemma TableSoFarEnd(attrs: map<nat, Attributes>, positions: map<nat, GridPosition>, bounds0: GridPosition,
                      uniform: Option<Size>, d: LayoutDelegate,
                      records: map<nat, Attributes>, recorded: map<nat, GridPosition>,
                      widths: map<int, real>, heights: map<int, real>, maxX: int, maxY: int)
    requires TableSoFar(attrs, positions, bounds0, uniform, d, {}, records, recorded, widths, heights, maxX, maxY)
    ensures records == TableMeasured(attrs, uniform, d)
    ensures recorded == Recorded(positions, attrs, Some(0), Some(d))
    ensures widths == PassMaxima(XEntries(attrs.Keys, uniform, d), uniform)
    ensures heights == PassMaxima(YEntries(attrs.Keys, uniform, d), uniform)
    ensures maxX == Stretched(bounds0.x, XEntries(attrs.Keys, uniform, d))
    ensures maxY == Stretched(bounds0.y, YEntries(attrs.Keys, uniform, d))
  {
    assert attrs.Keys - {} == attrs.Keys;
    MeasuredSoFarEnd(attrs, positions, d);
  }
}

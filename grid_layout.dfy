/** The sparse-grid collection-view layout (DDCollectionViewGridLayout): each item
    has a grid position (x, y) and a measured size; every layout pass widens the
    recorded column widths and row heights to the largest item seen in them,
    packs the columns and rows into dense arrays with padding, and places every
    visible item at the centre of its cell and every off-grid item at one shared
    parking point below the grid. */
module GridLayout {
  import opened Geometry

  /** The parts of `UICollectionViewLayoutAttributes` the layout writes. */
  datatype Attributes = Attributes(size: Size, center: Point, hidden: bool)

  /** A freshly created attributes record: zero size, at the origin, shown. */
  const FreshAttributes := Attributes(ZeroSize, Origin, false)

  /** The layout delegate's two answers, per item id. */
  datatype LayoutDelegate = LayoutDelegate(positionFor: nat -> GridPosition, sizeFor: nat -> Size)

  /** The packed geometry of one pass: dense column widths and row heights, each
      with its padding array; index 0 is the leading edge. */
  datatype Tracks = Tracks(columns: seq<real>, columnPadding: seq<real>,
                           rows: seq<real>, rowPadding: seq<real>)

  /** The layout's stored state. */
  datatype GridState = GridState(attributes: map<nat, Attributes>,
                                 positions: map<nat, GridPosition>,
                                 bounds: GridPosition,
                                 widths: map<int, real>,
                                 heights: map<int, real>,
                                 totalSize: Size)

  /** An item is off the grid, and hidden, when either coordinate is not positive. */
  predicate OffGrid(p: GridPosition)
  {
    p.x <= 0 || p.y <= 0
  }

  function Lookup(m: map<int, real>, c: int, default: real): real
  {
    if c in m then m[c] else default
  }

  /** The recorded position of an item, or (0, 0) when none was recorded. */
  function PositionOf(positions: map<nat, GridPosition>, k: nat): GridPosition
  {
    if k in positions then positions[k] else NoPosition
  }

  // ---------------------------------------------------------------------------
  // Column and row maxima

  /** What each item contributes to the column maxima: its column and its width. */
  function ColumnEntries(attrs: map<nat, Attributes>, positions: map<nat, GridPosition>): map<nat, (int, real)>
  {
    map k | k in attrs :: (PositionOf(positions, k).x, attrs[k].size.width)
  }

  /** What each item contributes to the row maxima: its row and its height. */
  function RowEntries(attrs: map<nat, Attributes>, positions: map<nat, GridPosition>): map<nat, (int, real)>
  {
    map k | k in attrs :: (PositionOf(positions, k).y, attrs[k].size.height)
  }

  /** The columns (or rows) the entries name. */
  function Indices(entries: map<nat, (int, real)>): set<int>
  {
    set k | k in entries :: entries[k].0
  }

  /** The largest of `floor` and the sizes the entries give to index `c`. */
  ghost function MaxAt(entries: map<nat, (int, real)>, c: int, floor: real): real
    decreases |entries|
  {
    if entries == map[] then floor
    else
      var k :| k in entries;
      assert |entries - {k}| < |entries| by { assert (entries - {k}).Keys == entries.Keys - {k}; }
      var rest := MaxAt(entries - {k}, c, floor);
      if entries[k].0 == c then Max(entries[k].1, rest) else rest
  }

  /** `MaxAt` is an upper bound of `floor` and of every size at `c`, and is one of them. */
  lemma {:induction false} MaxAtIsMax(entries: map<nat, (int, real)>, c: int, floor: real)
    ensures MaxAt(entries, c, floor) >= floor
    ensures forall k :: k in entries && entries[k].0 == c ==> MaxAt(entries, c, floor) >= entries[k].1
    ensures MaxAt(entries, c, floor) == floor ||
            exists k :: k in entries && entries[k].0 == c && MaxAt(entries, c, floor) == entries[k].1
    decreases |entries|
  {
    if entries != map[] {
      var k :| k in entries && MaxAt(entries, c, floor) ==
        (if entries[k].0 == c then Max(entries[k].1, MaxAt(entries - {k}, c, floor))
         else MaxAt(entries - {k}, c, floor));
      var rest := entries - {k};
      var top := Max(entries[k].1, MaxAt(rest, c, floor));
      assert MaxAt(entries, c, floor) == if entries[k].0 == c then top else MaxAt(rest, c, floor);
      assert rest.Keys == entries.Keys - {k};
      MaxAtIsMax(rest, c, floor);
      forall j | j in entries && entries[j].0 == c
        ensures MaxAt(entries, c, floor) >= entries[j].1
      {
        if j != k {
          assert j in rest && rest[j] == entries[j];
        }
      }
      if MaxAt(entries, c, floor) != floor && MaxAt(entries, c, floor) != MaxAt(rest, c, floor) {
        assert entries[k].0 == c && MaxAt(entries, c, floor) == entries[k].1;
      } else if MaxAt(entries, c, floor) != floor {
        var j :| j in rest && rest[j].0 == c && MaxAt(rest, c, floor) == rest[j].1;
        assert j in entries && entries[j] == rest[j];
      }
    }
  }

  /** Any upper bound that is `floor` or one of the sizes at `c` is the maximum. */
  lemma MaxAtUnique(entries: map<nat, (int, real)>, c: int, floor: real, m: real)
    requires m >= floor
    requires forall k :: k in entries && entries[k].0 == c ==> m >= entries[k].1
    requires m == floor || exists k :: k in entries && entries[k].0 == c && m == entries[k].1
    ensures m == MaxAt(entries, c, floor)
  {
    MaxAtIsMax(entries, c, floor);
  }

  /** One more entry raises the maximum at its own index only. */
  lemma MaxAtInsert(done: map<nat, (int, real)>, k: nat, e: (int, real), c: int, floor: real)
    requires k !in done
    ensures MaxAt(done[k := e], c, floor) ==
            if e.0 == c then Max(MaxAt(done, c, floor), e.1) else MaxAt(done, c, floor)
  {
    var m := MaxAt(done, c, floor);
    MaxAtIsMax(done, c, floor);
    var done' := done[k := e];
    if e.0 == c {
      if m >= e.1 {
        if m != floor {
          var j :| j in done && done[j].0 == c && m == done[j].1;
          assert j in done' && done'[j].0 == c && m == done'[j].1;
        }
      } else {
        assert done'[k].0 == c && done'[k].1 == e.1;
      }
      MaxAtUnique(done', c, floor, Max(m, e.1));
    } else {
      if m != floor {
        var j :| j in done && done[j].0 == c && m == done[j].1;
        assert j in done' && done'[j].0 == c && m == done'[j].1;
      }
      MaxAtUnique(done', c, floor, m);
    }
  }

  /** With no entry at `c` the maximum is the floor. */
  lemma MaxAtAbsent(entries: map<nat, (int, real)>, c: int, floor: real)
    requires c !in Indices(entries)
    ensures MaxAt(entries, c, floor) == floor
  {
    MaxAtIsMax(entries, c, floor);
    forall j | j in entries
      ensures entries[j].0 != c
    {
      assert entries[j].0 in Indices(entries);
    }
  }

  /** Raising the floor to the maximum changes nothing. */
  lemma MaxAtTwice(entries: map<nat, (int, real)>, c: int, floor: real)
    ensures MaxAt(entries, c, MaxAt(entries, c, floor)) == MaxAt(entries, c, floor)
  {
    MaxAtIsMax(entries, c, floor);
    MaxAtUnique(entries, c, MaxAt(entries, c, floor), MaxAt(entries, c, floor));
  }

  /** The maxima table after a pass: every index already recorded or named by an
      entry, raised to the largest of its old value (0 when absent) and all entry
      sizes at that index. */
  ghost function Widened(before: map<int, real>, entries: map<nat, (int, real)>): map<int, real>
  {
    map c | c in before.Keys + Indices(entries) :: MaxAt(entries, c, Lookup(before, c, 0.0))
  }

  /** The bound after a pass: the largest of the old bound and every entry's index. */
  ghost function Stretched(before: int, entries: map<nat, (int, real)>): int
    decreases |entries|
  {
    if entries == map[] then before
    else
      var k :| k in entries;
      assert |entries - {k}| < |entries| by { assert (entries - {k}).Keys == entries.Keys - {k}; }
      MaxInt(entries[k].0, Stretched(before, entries - {k}))
  }

  /** The widened table holds exactly the old indices and the entries' indices. */
  lemma WidenedKeys(before: map<int, real>, entries: map<nat, (int, real)>)
    ensures Widened(before, entries).Keys == before.Keys + Indices(entries)
  {
  }

  /** The widened table covers every entry and never lowers a recorded value. */
  lemma WidenedCovers(before: map<int, real>, entries: map<nat, (int, real)>)
    ensures forall k :: k in entries ==>
              entries[k].0 in Widened(before, entries) && Widened(before, entries)[entries[k].0] >= entries[k].1
    ensures forall c :: c in Widened(before, entries) ==> Widened(before, entries)[c] >= Lookup(before, c, 0.0)
  {
    var after := Widened(before, entries);
    forall k | k in entries
      ensures entries[k].0 in after && after[entries[k].0] >= entries[k].1
    {
      var c := entries[k].0;
      assert c in Indices(entries);
      MaxAtIsMax(entries, c, Lookup(before, c, 0.0));
    }
    forall c | c in after
      ensures after[c] >= Lookup(before, c, 0.0)
    {
      MaxAtIsMax(entries, c, Lookup(before, c, 0.0));
    }
  }

  /** Each widened value is the old one (0 when absent) or some entry's size. */
  lemma WidenedAttained(before: map<int, real>, entries: map<nat, (int, real)>)
    ensures forall c :: c in Widened(before, entries) ==>
              Widened(before, entries)[c] == Lookup(before, c, 0.0) ||
              exists k :: k in entries && entries[k].0 == c && Widened(before, entries)[c] == entries[k].1
  {
    var after := Widened(before, entries);
    forall c | c in after
      ensures after[c] == Lookup(before, c, 0.0) ||
              exists k :: k in entries && entries[k].0 == c && after[c] == entries[k].1
    {
      MaxAtIsMax(entries, c, Lookup(before, c, 0.0));
    }
  }

  /** The stretched bound is at least the old bound and every entry's index, and
      is one of them. */
  lemma {:induction false} StretchedIsMax(before: int, entries: map<nat, (int, real)>)
    ensures Stretched(before, entries) >= before
    ensures forall k :: k in entries ==> Stretched(before, entries) >= entries[k].0
    ensures Stretched(before, entries) == before ||
            exists k :: k in entries && Stretched(before, entries) == entries[k].0
    decreases |entries|
  {
    if entries != map[] {
      var k :| k in entries &&
        Stretched(before, entries) == MaxInt(entries[k].0, Stretched(before, entries - {k}));
      var rest := entries - {k};
      var top := MaxInt(entries[k].0, Stretched(before, rest));
      assert Stretched(before, entries) == top;
      assert rest.Keys == entries.Keys - {k};
      StretchedIsMax(before, rest);
      forall j | j in entries
        ensures Stretched(before, entries) >= entries[j].0
      {
        if j != k {
          assert j in rest && rest[j] == entries[j];
        }
      }
      if Stretched(before, entries) != before && Stretched(before, entries) != Stretched(before, rest) {
        assert Stretched(before, entries) == entries[k].0;
      } else if Stretched(before, entries) != before {
        var j :| j in rest && Stretched(before, rest) == rest[j].0;
        assert j in entries && entries[j] == rest[j];
      }
    }
  }

  lemma StretchedUnique(before: int, entries: map<nat, (int, real)>, m: int)
    requires m >= before && forall k :: k in entries ==> m >= entries[k].0
    requires m == before || exists k :: k in entries && m == entries[k].0
    ensures m == Stretched(before, entries)
  {
    StretchedIsMax(before, entries);
  }

  lemma IndicesInsert(done: map<nat, (int, real)>, k: nat, e: (int, real))
    requires k !in done
    ensures Indices(done[k := e]) == Indices(done) + {e.0}
  {
    var done' := done[k := e];
    forall c | c in Indices(done')
      ensures c in Indices(done) + {e.0}
    {
      var j :| j in done' && done'[j].0 == c;
      if j != k {
        assert j in done && done[j].0 == c;
      }
    }
    forall c | c in Indices(done)
      ensures c in Indices(done')
    {
      var j :| j in done && done[j].0 == c;
      assert j in done' && done'[j].0 == c;
    }
    assert done'[k].0 == e.0;
  }

  /** Handling one more record updates the widened table at that record's index
      only, as the loop body does. */
  lemma WidenedStep(before: map<int, real>, done: map<nat, (int, real)>, k: nat, e: (int, real))
    requires k !in done
    ensures var cur := Widened(before, done);
      Widened(before, done[k := e]) == cur[e.0 := Max(Lookup(cur, e.0, 0.0), e.1)]
  {
    var cur := Widened(before, done);
    var lhs := Widened(before, done[k := e]);
    var rhs := cur[e.0 := Max(Lookup(cur, e.0, 0.0), e.1)];
    IndicesInsert(done, k, e);
    assert lhs.Keys == rhs.Keys;
    forall c | c in lhs
      ensures lhs[c] == rhs[c]
    {
      MaxAtInsert(done, k, e, c, Lookup(before, c, 0.0));
      if c == e.0 && c !in cur {
        MaxAtAbsent(done, c, 0.0);
      }
    }
  }

  lemma StretchedStep(before: int, done: map<nat, (int, real)>, k: nat, e: (int, real))
    requires k !in done
    ensures Stretched(before, done[k := e]) == MaxInt(Stretched(before, done), e.0)
  {
    var m := Stretched(before, done);
    var done' := done[k := e];
    StretchedIsMax(before, done);
    if MaxInt(m, e.0) != before {
      if MaxInt(m, e.0) == e.0 {
        assert done'[k].0 == e.0;
      } else {
        var j :| j in done && m == done[j].0;
        assert j in done' && m == done'[j].0;
      }
    }
    StretchedUnique(before, done', MaxInt(m, e.0));
  }

  /** A second pass over the same entries leaves the maxima as the first left them. */
  lemma WidenedIdempotent(before: map<int, real>, entries: map<nat, (int, real)>)
    ensures Widened(Widened(before, entries), entries) == Widened(before, entries)
  {
    var m1 := Widened(before, entries);
    var m2 := Widened(m1, entries);
    assert m2.Keys == m1.Keys;
    forall c | c in m1
      ensures m2[c] == m1[c]
    {
      MaxAtTwice(entries, c, Lookup(before, c, 0.0));
    }
  }

  lemma StretchedIdempotent(before: int, entries: map<nat, (int, real)>)
    ensures Stretched(Stretched(before, entries), entries) == Stretched(before, entries)
  {
    StretchedIsMax(before, entries);
    StretchedUnique(Stretched(before, entries), entries, Stretched(before, entries));
  }

  // ---------------------------------------------------------------------------
  // Dense tracks, centres and the total size

  /** Column widths (or row heights) for indices 0 ..= bound: 0 at index 0, the
      recorded size where there is one and the default size elsewhere. */
  function DenseSizes(bound: int, sizes: map<int, real>, default: real): seq<real>
  {
    [0.0] + seq(if bound > 0 then bound else 0, i => Lookup(sizes, i + 1, default))
  }

  /** The padding after each dense entry: the outside padding at index 0, then the
      padding for every non-empty column (or row) and 0 for an empty one. */
  function Paddings(dense: seq<real>, pad: real): seq<real>
  {
    seq(|dense|, i requires 0 <= i < |dense| => if i == 0 || dense[i] > 0.0 then pad else 0.0)
  }

  function TracksOf(bounds: GridPosition, widths: map<int, real>, heights: map<int, real>,
                    defaultSize: Size, padding: Size): Tracks
  {
    var columns := DenseSizes(bounds.x, widths, defaultSize.width);
    var rows := DenseSizes(bounds.y, heights, defaultSize.height);
    Tracks(columns, Paddings(columns, padding.width), rows, Paddings(rows, padding.height))
  }

  /** The space taken by the entries before index i and their paddings. */
  function Leading(sizes: seq<real>, pads: seq<real>, i: nat): real
    requires i <= |sizes| && i <= |pads|
  {
    Sum(sizes[..i]) + Sum(pads[..i])
  }

  /** The centre coordinate of cell i along one axis. */
  function CellCentre(sizes: seq<real>, pads: seq<real>, i: nat): real
    requires i < |sizes| && i <= |pads|
  {
    Leading(sizes, pads, i) + sizes[i] / 2.0
  }

  /** The one point where every off-grid item is parked: centred horizontally,
      100 points below the laid-out content. */
  function Parking(t: Tracks): Point
  {
    Point((Sum(t.columns) + Sum(t.columnPadding)) / 2.0,
          Sum(t.rows) + Sum(t.rowPadding) + 100.0)
  }

  function TotalSize(t: Tracks, padding: Size): Size
  {
    Size(Sum(t.columns) + Sum(t.columnPadding) + padding.width,
         Sum(t.rows) + Sum(t.rowPadding) + padding.height)
  }

  /** The subscripts a visible item's centre needs are all in range. */
  predicate InRange(t: Tracks, p: GridPosition)
  {
    0 <= p.x < |t.columns| && p.x <= |t.columnPadding| &&
    0 <= p.y < |t.rows| && p.y <= |t.rowPadding|
  }

  /** Some visible item with a recorded position lies outside the tracks, so the
      centre computation would subscript out of range and stop the program. */
  ghost predicate Traps(t: Tracks, attrs: map<nat, Attributes>, positions: map<nat, GridPosition>)
  {
    exists k :: k in attrs && k in positions && !attrs[k].hidden && !InRange(t, positions[k])
  }

  function ItemCentre(t: Tracks, positions: map<nat, GridPosition>, k: nat, a: Attributes): Point
    requires k in positions && !a.hidden ==> InRange(t, positions[k])
  {
    if k in positions && !a.hidden then
      Point(CellCentre(t.columns, t.columnPadding, positions[k].x),
            CellCentre(t.rows, t.rowPadding, positions[k].y))
    else
      Parking(t)
  }

  /** Every record with its centre placed. */
  ghost function Laid(t: Tracks, attrs: map<nat, Attributes>, positions: map<nat, GridPosition>): map<nat, Attributes>
    requires !Traps(t, attrs, positions)
  {
    map k | k in attrs :: attrs[k].(center := ItemCentre(t, positions, k, attrs[k]))
  }

  // ---------------------------------------------------------------------------
  // One pass of `prepare`

  /** The record table after `buildLayoutAttributes`, which runs only on an empty
      table: one fresh record per item when the collection view is known. */
  function Built(attrs: map<nat, Attributes>, itemCount: Option<nat>): map<nat, Attributes>
  {
    if |attrs| != 0 then attrs
    else match itemCount
      case None => attrs
      case Some(n) => FreshTable(n)
  }

  /** One fresh record for each item id below n. */
  function FreshTable(n: nat): (m: map<nat, Attributes>)
    ensures forall k: nat :: k in m <==> k < n
    ensures forall k :: k in m ==> m[k] == FreshAttributes
  {
    if n == 0 then map[] else FreshTable(n - 1)[n - 1 := FreshAttributes]
  }

  /** The records after `getItemPositionsAndSizes`: each is given its delegate size
      and is hidden exactly when its delegate position is off the grid. */
  function Measured(attrs: map<nat, Attributes>, itemCount: Option<nat>, delegate: Option<LayoutDelegate>): map<nat, Attributes>
  {
    if itemCount.Some? && delegate.Some? then
      map k | k in attrs :: attrs[k].(size := delegate.value.sizeFor(k),
                                      hidden := OffGrid(delegate.value.positionFor(k)))
    else attrs
  }

  /** The position table after `getItemPositionsAndSizes`: entries are added or
      replaced for the current items and never removed. */
  function Recorded(positions: map<nat, GridPosition>, attrs: map<nat, Attributes>,
                    itemCount: Option<nat>, delegate: Option<LayoutDelegate>): map<nat, GridPosition>
  {
    if itemCount.Some? && delegate.Some? then
      positions + map k | k in attrs :: delegate.value.positionFor(k)
    else positions
  }

  /** The column and row maxima and the bounds after the size pass over the
      measured records `a1` at positions `p1`. */
  ghost predicate Sized(s0: GridState, s1: GridState, a1: map<nat, Attributes>, p1: map<nat, GridPosition>)
  {
    && s1.widths == Widened(s0.widths, ColumnEntries(a1, p1))
    && s1.heights == Widened(s0.heights, RowEntries(a1, p1))
    && s1.bounds == GridPosition(Stretched(s0.bounds.x, ColumnEntries(a1, p1)),
                                 Stretched(s0.bounds.y, RowEntries(a1, p1)))
  }

  /** The records and the content size after the centre pass over the tracks of
      `s1`; `trapped` says a subscript was out of range (then only the sizes are known). */
  ghost predicate Placed(s0: GridState, s1: GridState, a1: map<nat, Attributes>, p1: map<nat, GridPosition>,
                         padding: Size, defaultSize: Size, trapped: bool)
  {
    var t := TracksOf(s1.bounds, s1.widths, s1.heights, defaultSize, padding);
    && trapped == Traps(t, a1, p1)
    && (!trapped ==> s1.attributes == Laid(t, a1, p1) && s1.totalSize == TotalSize(t, padding))
    && (trapped ==> s1.attributes.Keys == a1.Keys && s1.totalSize == s0.totalSize)
  }

  /** `s1` is what one `prepare` makes of `s0`. */
  ghost predicate PreparePass(s0: GridState, s1: GridState, itemCount: Option<nat>,
                              delegate: Option<LayoutDelegate>, padding: Size,
                              defaultSize: Size, trapped: bool)
  {
    var a0 := Built(s0.attributes, itemCount);
    var a1 := Measured(a0, itemCount, delegate);
    var p1 := Recorded(s0.positions, a0, itemCount, delegate);
    && s1.positions == p1
    && Sized(s0, s1, a1, p1)
    && Placed(s0, s1, a1, p1, padding, defaultSize, trapped)
  }

  // ---------------------------------------------------------------------------
  // Properties of a pass

  /** `getItemPositionsAndSizes` gives each record its delegate size and hides it
      exactly when its delegate position is off the grid; without the delegate or
      the collection view the records are untouched. */
  lemma MeasuredHidesOffGrid(a: map<nat, Attributes>, itemCount: Option<nat>, delegate: Option<LayoutDelegate>)
    ensures Measured(a, itemCount, delegate).Keys == a.Keys
    ensures itemCount.Some? && delegate.Some? ==>
              forall k :: k in a ==>
                && Measured(a, itemCount, delegate)[k].hidden == OffGrid(delegate.value.positionFor(k))
                && Measured(a, itemCount, delegate)[k].size == delegate.value.sizeFor(k)
                && Measured(a, itemCount, delegate)[k].center == a[k].center
    ensures itemCount.None? || delegate.None? ==> Measured(a, itemCount, delegate) == a
  {
  }

  /** The dense arrays of one axis: one entry per index 0 ..= bound, 0 at index 0
      with the outside padding, then the recorded or default size with the padding
      for a non-empty track and 0 for an empty one. */
  lemma DenseShape(bound: int, sizes: map<int, real>, default: real, pad: real)
    ensures var dense := DenseSizes(bound, sizes, default);
      var pads := Paddings(dense, pad);
      && |dense| == |pads| == (if bound > 0 then bound else 0) + 1
      && dense[0] == 0.0 && pads[0] == pad
      && forall k :: 1 <= k < |dense| ==>
           dense[k] == Lookup(sizes, k, default) && pads[k] == (if dense[k] > 0.0 then pad else 0.0)
  {
  }

  /** A size pass never shrinks a recorded maximum, never forgets one and never
      lowers the bounds. */
  lemma SizedNeverShrinks(s0: GridState, s1: GridState, a1: map<nat, Attributes>, p1: map<nat, GridPosition>)
    requires Sized(s0, s1, a1, p1)
    ensures s0.widths.Keys <= s1.widths.Keys && s0.heights.Keys <= s1.heights.Keys
    ensures forall c :: c in s0.widths ==> s1.widths[c] >= s0.widths[c]
    ensures forall c :: c in s0.heights ==> s1.heights[c] >= s0.heights[c]
    ensures s1.bounds.x >= s0.bounds.x && s1.bounds.y >= s0.bounds.y
  {
    WidenedKeys(s0.widths, ColumnEntries(a1, p1));
    WidenedKeys(s0.heights, RowEntries(a1, p1));
    WidenedCovers(s0.widths, ColumnEntries(a1, p1));
    WidenedCovers(s0.heights, RowEntries(a1, p1));
    StretchedIsMax(s0.bounds.x, ColumnEntries(a1, p1));
    StretchedIsMax(s0.bounds.y, RowEntries(a1, p1));
  }

  /** After a pass every item's column is at least as wide as the item and every
      row as tall, hidden items included. */
  lemma SizedCoversItems(s0: GridState, s1: GridState, a1: map<nat, Attributes>, p1: map<nat, GridPosition>)
    requires Sized(s0, s1, a1, p1)
    ensures forall k :: k in a1 ==>
              PositionOf(p1, k).x in s1.widths && s1.widths[PositionOf(p1, k).x] >= a1[k].size.width
    ensures forall k :: k in a1 ==>
              PositionOf(p1, k).y in s1.heights && s1.heights[PositionOf(p1, k).y] >= a1[k].size.height
  {
    ColumnsCover(s0.widths, a1, p1);
    RowsCover(s0.heights, a1, p1);
  }

  lemma ColumnsCover(before: map<int, real>, a1: map<nat, Attributes>, p1: map<nat, GridPosition>)
    ensures var after := Widened(before, ColumnEntries(a1, p1));
      forall k :: k in a1 ==> PositionOf(p1, k).x in after && after[PositionOf(p1, k).x] >= a1[k].size.width
  {
    var columns := ColumnEntries(a1, p1);
    WidenedCovers(before, columns);
    forall k | k in a1
      ensures columns[k] == (PositionOf(p1, k).x, a1[k].size.width)
    {
    }
  }

  lemma RowsCover(before: map<int, real>, a1: map<nat, Attributes>, p1: map<nat, GridPosition>)
    ensures var after := Widened(before, RowEntries(a1, p1));
      forall k :: k in a1 ==> PositionOf(p1, k).y in after && after[PositionOf(p1, k).y] >= a1[k].size.height
  {
    var rows := RowEntries(a1, p1);
    WidenedCovers(before, rows);
    forall k | k in a1
      ensures rows[k] == (PositionOf(p1, k).y, a1[k].size.height)
    {
    }
  }

  /** After a pass each column width is its old value (0 when absent) or the width
      of some item in that column: the maximum is attained. */
  lemma SizedWidthAttained(s0: GridState, s1: GridState, a1: map<nat, Attributes>, p1: map<nat, GridPosition>)
    requires Sized(s0, s1, a1, p1)
    ensures forall c :: c in s1.widths ==>
              s1.widths[c] == Lookup(s0.widths, c, 0.0) ||
              exists k :: k in a1 && PositionOf(p1, k).x == c && s1.widths[c] == a1[k].size.width
  {
    var columns := ColumnEntries(a1, p1);
    WidenedAttained(s0.widths, columns);
    forall c | c in s1.widths && s1.widths[c] != Lookup(s0.widths, c, 0.0)
      ensures exists k :: k in a1 && PositionOf(p1, k).x == c && s1.widths[c] == a1[k].size.width
    {
      var k :| k in columns && columns[k].0 == c && s1.widths[c] == columns[k].1;
      assert k in a1;
    }
  }

  /** After a pass each row height is its old value (0 when absent) or the height
      of some item in that row: the maximum is attained. */
  lemma SizedHeightAttained(s0: GridState, s1: GridState, a1: map<nat, Attributes>, p1: map<nat, GridPosition>)
    requires Sized(s0, s1, a1, p1)
    ensures forall r :: r in s1.heights ==>
              s1.heights[r] == Lookup(s0.heights, r, 0.0) ||
              exists k :: k in a1 && PositionOf(p1, k).y == r && s1.heights[r] == a1[k].size.height
  {
    var rows := RowEntries(a1, p1);
    WidenedAttained(s0.heights, rows);
    forall r | r in s1.heights && s1.heights[r] != Lookup(s0.heights, r, 0.0)
      ensures exists k :: k in a1 && PositionOf(p1, k).y == r && s1.heights[r] == a1[k].size.height
    {
      var k :| k in rows && rows[k].0 == r && s1.heights[r] == rows[k].1;
      assert k in a1;
    }
  }

  /** The tracks are non-negative when the recorded sizes, the default size and
      the padding are. */
  lemma TracksNonNegative(bounds: GridPosition, widths: map<int, real>, heights: map<int, real>,
                          defaultSize: Size, padding: Size)
    requires forall c :: c in widths ==> widths[c] >= 0.0
    requires forall c :: c in heights ==> heights[c] >= 0.0
    requires defaultSize.width >= 0.0 && defaultSize.height >= 0.0
    requires padding.width >= 0.0 && padding.height >= 0.0
    ensures var t := TracksOf(bounds, widths, heights, defaultSize, padding);
      NonNegative(t.columns) && NonNegative(t.columnPadding) &&
      NonNegative(t.rows) && NonNegative(t.rowPadding)
  {
  }

  /** With non-negative tracks, centres never decrease with the cell index. */
  lemma CentresMonotone(sizes: seq<real>, pads: seq<real>, i: nat, j: nat)
    requires NonNegative(sizes) && NonNegative(pads) && |pads| == |sizes|
    requires i <= j < |sizes|
    ensures CellCentre(sizes, pads, i) <= CellCentre(sizes, pads, j)
  {
    if i < j {
      SumPrefixStep(sizes, i);
      SumPrefixMonotone(sizes, i + 1, j);
      SumPrefixMonotone(pads, i, j);
    }
  }

  /** With non-negative tracks, every cell centre lies above the parking row. */
  lemma CentreAboveParking(sizes: seq<real>, pads: seq<real>, i: nat)
    requires NonNegative(sizes) && NonNegative(pads) && |pads| == |sizes|
    requires i < |sizes|
    ensures CellCentre(sizes, pads, i) < Sum(sizes) + Sum(pads) + 100.0
  {
    SumPrefixStep(sizes, i);
    SumPrefixMonotone(sizes, i + 1, |sizes|);
    SumPrefixMonotone(pads, i, |pads|);
    assert sizes[..|sizes|] == sizes && pads[..|pads|] == pads;
  }

  /** With non-negative tracks, cell i ends within the laid-out extent, and that
      extent is not negative. */
  lemma CellWithinExtent(sizes: seq<real>, pads: seq<real>, i: nat)
    requires NonNegative(sizes) && NonNegative(pads) && |pads| == |sizes|
    requires i < |sizes|
    ensures CellCentre(sizes, pads, i) + sizes[i] / 2.0 <= Sum(sizes) + Sum(pads)
    ensures Sum(sizes) + Sum(pads) >= 0.0
  {
    SumPrefixStep(sizes, i);
    SumPrefixMonotone(sizes, i + 1, |sizes|);
    SumPrefixMonotone(pads, i, |pads|);
    assert sizes[..|sizes|] == sizes && pads[..|pads|] == pads;
    SumNonNegative(sizes);
    SumNonNegative(pads);
  }

  /** With non-negative tracks and padding, the total size holds the outside
      padding on both axes, and every visible record's cell ends at least one
      padding before the far edge of the total size. */
  lemma TotalCoversCells(t: Tracks, attrs: map<nat, Attributes>, positions: map<nat, GridPosition>, padding: Size)
    requires !Traps(t, attrs, positions)
    requires NonNegative(t.columns) && NonNegative(t.columnPadding) && |t.columns| == |t.columnPadding|
    requires NonNegative(t.rows) && NonNegative(t.rowPadding) && |t.rows| == |t.rowPadding|
    ensures TotalSize(t, padding).width >= padding.width && TotalSize(t, padding).height >= padding.height
    ensures forall k :: k in attrs && !attrs[k].hidden && k in positions ==>
              0 <= positions[k].x < |t.columns| && 0 <= positions[k].y < |t.rows| &&
              Laid(t, attrs, positions)[k].center.x + t.columns[positions[k].x] / 2.0
                <= TotalSize(t, padding).width - padding.width &&
              Laid(t, attrs, positions)[k].center.y + t.rows[positions[k].y] / 2.0
                <= TotalSize(t, padding).height - padding.height
  {
    SumNonNegative(t.columns);
    SumNonNegative(t.columnPadding);
    SumNonNegative(t.rows);
    SumNonNegative(t.rowPadding);
    forall k | k in attrs && !attrs[k].hidden && k in positions
      ensures 0 <= positions[k].x < |t.columns| && 0 <= positions[k].y < |t.rows| &&
              Laid(t, attrs, positions)[k].center.x + t.columns[positions[k].x] / 2.0
                <= TotalSize(t, padding).width - padding.width &&
              Laid(t, attrs, positions)[k].center.y + t.rows[positions[k].y] / 2.0
                <= TotalSize(t, padding).height - padding.height
    {
      assert InRange(t, positions[k]);
      CellWithinExtent(t.columns, t.columnPadding, positions[k].x);
      CellWithinExtent(t.rows, t.rowPadding, positions[k].y);
    }
  }

  /** Once placed, every hidden or unplaced record sits at one shared point, and
      with non-negative row heights and padding that point is below every visible
      record. */
  lemma ParkingIsShared(t: Tracks, attrs: map<nat, Attributes>, positions: map<nat, GridPosition>)
    requires !Traps(t, attrs, positions)
    requires NonNegative(t.rows) && NonNegative(t.rowPadding) && |t.rows| == |t.rowPadding|
    ensures forall k :: k in attrs && (attrs[k].hidden || k !in positions) ==>
              Laid(t, attrs, positions)[k].center == Parking(t)
    ensures forall k :: k in attrs && !attrs[k].hidden && k in positions ==>
              Laid(t, attrs, positions)[k].center.y < Parking(t).y
  {
    forall k | k in attrs && !attrs[k].hidden && k in positions
      ensures Laid(t, attrs, positions)[k].center.y < Parking(t).y
    {
      CentreAboveParking(t.rows, t.rowPadding, positions[k].y);
    }
  }

  /** Two visible records in the same column get the same centre x, and two in
      the same row the same centre y; with non-negative tracks a record in a
      later column is never left of one in an earlier column. */
  lemma SharedTracksShareCentres(t: Tracks, attrs: map<nat, Attributes>, positions: map<nat, GridPosition>,
                                 j: nat, k: nat)
    requires !Traps(t, attrs, positions)
    requires j in attrs && k in attrs && j in positions && k in positions
    requires !attrs[j].hidden && !attrs[k].hidden
    ensures positions[j].x == positions[k].x ==>
              Laid(t, attrs, positions)[j].center.x == Laid(t, attrs, positions)[k].center.x
    ensures positions[j].y == positions[k].y ==>
              Laid(t, attrs, positions)[j].center.y == Laid(t, attrs, positions)[k].center.y
    ensures NonNegative(t.columns) && NonNegative(t.columnPadding) && |t.columnPadding| == |t.columns| &&
            positions[j].x <= positions[k].x ==>
              Laid(t, attrs, positions)[j].center.x <= Laid(t, attrs, positions)[k].center.x
  {
    var l := Laid(t, attrs, positions);
    assert InRange(t, positions[j]) && InRange(t, positions[k]);
    assert l[j].center.x == CellCentre(t.columns, t.columnPadding, positions[j].x);
    assert l[k].center.x == CellCentre(t.columns, t.columnPadding, positions[k].x);
    if NonNegative(t.columns) && NonNegative(t.columnPadding) && |t.columnPadding| == |t.columns| &&
       positions[j].x <= positions[k].x {
      CentresMonotone(t.columns, t.columnPadding, positions[j].x, positions[k].x);
    }
  }

  /** With a delegate and a collection view, every visible record is on the grid
      and inside the bounds, so the centre computation stays in range. */
  lemma MeasuredInRange(a0: map<nat, Attributes>, positions: map<nat, GridPosition>,
                        itemCount: Option<nat>, delegate: Option<LayoutDelegate>,
                        b0: GridPosition, bounds: GridPosition, t: Tracks)
    requires itemCount.Some? && delegate.Some?
    requires var a1 := Measured(a0, itemCount, delegate);
      var p1 := Recorded(positions, a0, itemCount, delegate);
      bounds.x == Stretched(b0.x, ColumnEntries(a1, p1)) &&
      bounds.y == Stretched(b0.y, RowEntries(a1, p1))
    requires |t.columns| == |t.columnPadding| == (if bounds.x > 0 then bounds.x else 0) + 1
    requires |t.rows| == |t.rowPadding| == (if bounds.y > 0 then bounds.y else 0) + 1
    ensures !Traps(t, Measured(a0, itemCount, delegate), Recorded(positions, a0, itemCount, delegate))
  {
    var a1 := Measured(a0, itemCount, delegate);
    var p1 := Recorded(positions, a0, itemCount, delegate);
    StretchedIsMax(b0.x, ColumnEntries(a1, p1));
    StretchedIsMax(b0.y, RowEntries(a1, p1));
    forall k | k in a1 && k in p1 && !a1[k].hidden
      ensures InRange(t, p1[k])
    {
      var p := delegate.value.positionFor(k);
      assert p1[k] == p && a1[k].hidden == OffGrid(p);
      assert ColumnEntries(a1, p1)[k].0 == p.x;
      assert RowEntries(a1, p1)[k].0 == p.y;
    }
  }

  /** With a delegate and a collection view, a pass never traps. */
  lemma NoTrapWithDelegate(s0: GridState, s1: GridState, itemCount: Option<nat>,
                           delegate: Option<LayoutDelegate>, padding: Size, defaultSize: Size,
                           trapped: bool)
    requires PreparePass(s0, s1, itemCount, delegate, padding, defaultSize, trapped)
    requires itemCount.Some? && delegate.Some?
    ensures !trapped
  {
    var a0 := Built(s0.attributes, itemCount);
    var t := TracksOf(s1.bounds, s1.widths, s1.heights, defaultSize, padding);
    MeasuredInRange(a0, s0.positions, itemCount, delegate, s0.bounds, s1.bounds, t);
  }

  /** Two record tables that agree on everything but the centres. */
  ghost predicate SameButCentres(b: map<nat, Attributes>, a: map<nat, Attributes>)
  {
    b.Keys == a.Keys &&
    forall k :: k in b ==> b[k].size == a[k].size && b[k].hidden == a[k].hidden
  }

  /** A table that was just built or kept is kept by the next pass. */
  lemma BuiltStable(a: map<nat, Attributes>, b: map<nat, Attributes>, itemCount: Option<nat>)
    requires b.Keys == Built(a, itemCount).Keys
    ensures Built(b, itemCount) == b
  {
    if |b| == 0 {
      assert Built(a, itemCount).Keys == {};
      assert |a| == 0;
      assert a == b;
    }
  }

  /** Measuring again with the same delegate changes only what the centre pass
      overwrites. */
  lemma MeasuredAgain(a: map<nat, Attributes>, t: Tracks, p: map<nat, GridPosition>,
                      itemCount: Option<nat>, delegate: Option<LayoutDelegate>)
    requires !Traps(t, Measured(a, itemCount, delegate), p)
    ensures SameButCentres(Measured(Laid(t, Measured(a, itemCount, delegate), p), itemCount, delegate),
                           Measured(a, itemCount, delegate))
  {
  }

  /** Recording the same delegate positions again changes nothing. */
  lemma RecordedAgain(positions: map<nat, GridPosition>, a: map<nat, Attributes>, b: map<nat, Attributes>,
                      itemCount: Option<nat>, delegate: Option<LayoutDelegate>)
    requires b.Keys == a.Keys
    ensures Recorded(Recorded(positions, a, itemCount, delegate), b, itemCount, delegate)
            == Recorded(positions, a, itemCount, delegate)
  {
  }

  /** What the size pass and the centre pass read does not include the centres. */
  lemma CentresNotRead(t: Tracks, b: map<nat, Attributes>, a: map<nat, Attributes>, p: map<nat, GridPosition>)
    requires SameButCentres(b, a)
    ensures ColumnEntries(b, p) == ColumnEntries(a, p) && RowEntries(b, p) == RowEntries(a, p)
    ensures Traps(t, b, p) == Traps(t, a, p)
    ensures !Traps(t, a, p) ==> Laid(t, b, p) == Laid(t, a, p)
  {
    if Traps(t, b, p) {
      var k :| k in b && k in p && !b[k].hidden && !InRange(t, p[k]);
      assert k in a && !a[k].hidden;
    }
    if Traps(t, a, p) {
      var k :| k in a && k in p && !a[k].hidden && !InRange(t, p[k]);
      assert k in b && !b[k].hidden;
    }
  }

  /** What the second pass starts from: the records and positions the first pass
      left, measured again to the same sizes and visibility. */
  lemma PassInputsAgain(attrs0: map<nat, Attributes>, positions0: map<nat, GridPosition>,
                        attrs1: map<nat, Attributes>, positions1: map<nat, GridPosition>, t: Tracks,
                        itemCount: Option<nat>, delegate: Option<LayoutDelegate>)
    requires var a0 := Built(attrs0, itemCount);
      && positions1 == Recorded(positions0, a0, itemCount, delegate)
      && !Traps(t, Measured(a0, itemCount, delegate), positions1)
      && attrs1 == Laid(t, Measured(a0, itemCount, delegate), positions1)
    ensures var a0 := Built(attrs0, itemCount);
      var b0 := Built(attrs1, itemCount);
      && b0 == attrs1
      && Recorded(positions1, b0, itemCount, delegate) == positions1
      && SameButCentres(Measured(b0, itemCount, delegate), Measured(a0, itemCount, delegate))
  {
    var a0 := Built(attrs0, itemCount);
    BuiltStable(attrs0, attrs1, itemCount);
    RecordedAgain(positions0, a0, attrs1, itemCount, delegate);
    MeasuredAgain(a0, t, positions1, itemCount, delegate);
  }

  /** A second size pass over the same entries changes no maximum and no bound. */
  lemma SizedAgain(s0: GridState, s1: GridState, s2: GridState, a: map<nat, Attributes>, p: map<nat, GridPosition>)
    requires Sized(s0, s1, a, p) && Sized(s1, s2, a, p)
    ensures s2.widths == s1.widths && s2.heights == s1.heights && s2.bounds == s1.bounds
  {
    WidenedIdempotent(s0.widths, ColumnEntries(a, p));
    WidenedIdempotent(s0.heights, RowEntries(a, p));
    StretchedIdempotent(s0.bounds.x, ColumnEntries(a, p));
    StretchedIdempotent(s0.bounds.y, RowEntries(a, p));
  }

  /** Running `prepare` twice with the same delegate answers changes nothing the
      second time: same records, centres, positions, maxima, bounds and size. */
  lemma PrepareIdempotent(s0: GridState, s1: GridState, s2: GridState, itemCount: Option<nat>,
                          delegate: Option<LayoutDelegate>, padding: Size, defaultSize: Size,
                          trapped: bool)
    requires PreparePass(s0, s1, itemCount, delegate, padding, defaultSize, false)
    requires PreparePass(s1, s2, itemCount, delegate, padding, defaultSize, trapped)
    ensures !trapped && s2 == s1
  {
    var a0 := Built(s0.attributes, itemCount);
    var a1 := Measured(a0, itemCount, delegate);
    var p1 := Recorded(s0.positions, a0, itemCount, delegate);
    var t := TracksOf(s1.bounds, s1.widths, s1.heights, defaultSize, padding);
    assert Placed(s0, s1, a1, p1, padding, defaultSize, false);
    PassInputsAgain(s0.attributes, s0.positions, s1.attributes, s1.positions, t, itemCount, delegate);
    var b1 := Measured(s1.attributes, itemCount, delegate);
    CentresNotRead(t, b1, a1, p1);
    assert Sized(s1, s2, a1, p1) by {
      assert Sized(s1, s2, b1, p1);
    }
    SizedAgain(s0, s1, s2, a1, p1);
    assert TracksOf(s2.bounds, s2.widths, s2.heights, defaultSize, padding) == t;
    assert Placed(s1, s2, b1, p1, padding, defaultSize, trapped);
    assert s2.attributes == s1.attributes;
  }

  /** The records while the measuring loop runs: those still in `todo` as they
      were, the others measured. */
  ghost function MeasuredSoFar(attrs: map<nat, Attributes>, todo: set<nat>, d: LayoutDelegate): map<nat, Attributes>
  {
    map k | k in attrs :: if k in todo then attrs[k]
                          else attrs[k].(size := d.sizeFor(k), hidden := OffGrid(d.positionFor(k)))
  }

  /** The position table while the measuring loop runs. */
  ghost function RecordedSoFar(positions: map<nat, GridPosition>, attrs: map<nat, Attributes>,
                               todo: set<nat>, d: LayoutDelegate): map<nat, GridPosition>
  {
    positions + map k | k in attrs.Keys - todo :: d.positionFor(k)
  }

  lemma MeasuredSoFarStart(attrs: map<nat, Attributes>, positions: map<nat, GridPosition>, d: LayoutDelegate)
    ensures MeasuredSoFar(attrs, attrs.Keys, d) == attrs
    ensures RecordedSoFar(positions, attrs, attrs.Keys, d) == positions
  {
  }

  lemma MeasuredSoFarNext(attrs: map<nat, Attributes>, positions: map<nat, GridPosition>,
                          todo: set<nat>, d: LayoutDelegate, k: nat)
    requires k in todo && todo <= attrs.Keys
    ensures MeasuredSoFar(attrs, todo - {k}, d) ==
            MeasuredSoFar(attrs, todo, d)[k := attrs[k].(size := d.sizeFor(k), hidden := OffGrid(d.positionFor(k)))]
    ensures RecordedSoFar(positions, attrs, todo - {k}, d) ==
            RecordedSoFar(positions, attrs, todo, d)[k := d.positionFor(k)]
  {
  }

  lemma MeasuredSoFarEnd(attrs: map<nat, Attributes>, positions: map<nat, GridPosition>, d: LayoutDelegate)
    ensures MeasuredSoFar(attrs, {}, d) == Measured(attrs, Some(0), Some(d))
    ensures RecordedSoFar(positions, attrs, {}, d) == Recorded(positions, attrs, Some(0), Some(d))
  {
  }

  /** The size loop's account after handling the records in `handled`. */
  ghost predicate SizedSoFar(widths0: map<int, real>, heights0: map<int, real>, bounds0: GridPosition,
                             handled: map<nat, Attributes>, positions: map<nat, GridPosition>,
                             widths: map<int, real>, heights: map<int, real>, maxX: int, maxY: int)
  {
    && widths == Widened(widths0, ColumnEntries(handled, positions))
    && heights == Widened(heights0, RowEntries(handled, positions))
    && maxX == Stretched(bounds0.x, ColumnEntries(handled, positions))
    && maxY == Stretched(bounds0.y, RowEntries(handled, positions))
  }

  /** Adding a record adds its entries and changes no other. */
  lemma EntriesInsert(handled: map<nat, Attributes>, positions: map<nat, GridPosition>, k: nat, a: Attributes)
    ensures ColumnEntries(handled[k := a], positions) ==
            ColumnEntries(handled, positions)[k := (PositionOf(positions, k).x, a.size.width)]
    ensures RowEntries(handled[k := a], positions) ==
            RowEntries(handled, positions)[k := (PositionOf(positions, k).y, a.size.height)]
  {
  }

  /** One iteration of the size loop, over record `k` with attributes `a`, keeps its account. */
  lemma SizedSoFarStep(widths0: map<int, real>, heights0: map<int, real>, bounds0: GridPosition,
                       handled: map<nat, Attributes>, positions: map<nat, GridPosition>,
                       widths: map<int, real>, heights: map<int, real>, maxX: int, maxY: int,
                       k: nat, a: Attributes)
    requires k !in handled
    requires SizedSoFar(widths0, heights0, bounds0, handled, positions, widths, heights, maxX, maxY)
    ensures var p := PositionOf(positions, k);
      SizedSoFar(widths0, heights0, bounds0, handled[k := a], positions,
                 widths[p.x := Max(Lookup(widths, p.x, 0.0), a.size.width)],
                 heights[p.y := Max(Lookup(heights, p.y, 0.0), a.size.height)],
                 MaxInt(maxX, p.x), MaxInt(maxY, p.y))
  {
    var p := PositionOf(positions, k);
    var columns, rows := ColumnEntries(handled, positions), RowEntries(handled, positions);
    var column, row := (p.x, a.size.width), (p.y, a.size.height);
    EntriesInsert(handled, positions, k, a);
    WidenedStep(widths0, columns, k, column);
    WidenedStep(heights0, rows, k, row);
    StretchedStep(bounds0.x, columns, k, column);
    StretchedStep(bounds0.y, rows, k, row);
  }

  /** Before the size loop nothing is handled and the tables are as stored. */
  lemma SizedSoFarStart(widths0: map<int, real>, heights0: map<int, real>, bounds0: GridPosition,
                        attrs: map<nat, Attributes>, positions: map<nat, GridPosition>)
    ensures SizedSoFar(widths0, heights0, bounds0, attrs - attrs.Keys, positions,
                       widths0, heights0, bounds0.x, bounds0.y)
  {
    assert attrs - attrs.Keys == map[];
    assert ColumnEntries(map[], positions) == map[] && RowEntries(map[], positions) == map[];
    assert Widened(widths0, map[]) == widths0 && Widened(heights0, map[]) == heights0;
  }

  /** Handling record `k` next, out of the records still to do, keeps the account. */
  lemma SizedSoFarNext(widths0: map<int, real>, heights0: map<int, real>, bounds0: GridPosition,
                       attrs: map<nat, Attributes>, todo: set<nat>, positions: map<nat, GridPosition>,
                       widths: map<int, real>, heights: map<int, real>, maxX: int, maxY: int, k: nat)
    requires k in todo && todo <= attrs.Keys
    requires SizedSoFar(widths0, heights0, bounds0, attrs - todo, positions, widths, heights, maxX, maxY)
    ensures var p, a := PositionOf(positions, k), attrs[k];
      SizedSoFar(widths0, heights0, bounds0, attrs - (todo - {k}), positions,
                 widths[p.x := Max(Lookup(widths, p.x, 0.0), a.size.width)],
                 heights[p.y := Max(Lookup(heights, p.y, 0.0), a.size.height)],
                 MaxInt(maxX, p.x), MaxInt(maxY, p.y))
  {
    assert (attrs - todo)[k := attrs[k]] == attrs - (todo - {k});
    SizedSoFarStep(widths0, heights0, bounds0, attrs - todo, positions, widths, heights, maxX, maxY, k, attrs[k]);
  }

  // ---------------------------------------------------------------------------
  // The layout object

  /** Valid stored state: the bounds are never negative and cover every recorded
      position, and the recorded maxima are never negative (each starts from
      max(0, size)). */
  ghost predicate ValidState(s: GridState)
  {
    && s.bounds.x >= 0 && s.bounds.y >= 0
    && (forall k :: k in s.positions ==> s.positions[k].x <= s.bounds.x && s.positions[k].y <= s.bounds.y)
    && (forall c :: c in s.widths ==> s.widths[c] >= 0.0)
    && (forall c :: c in s.heights ==> s.heights[c] >= 0.0)
  }

  /** Widening a table of non-negative maxima keeps them non-negative. */
  lemma WidenedNonNegative(before: map<int, real>, entries: map<nat, (int, real)>)
    requires forall c :: c in before ==> before[c] >= 0.0
    ensures forall c :: c in Widened(before, entries) ==> Widened(before, entries)[c] >= 0.0
  {
    WidenedCovers(before, entries);
  }

  /** Every position recorded by a pass lies within the stretched bounds. */
  lemma RecordedWithinBounds(positions: map<nat, GridPosition>, bounds: GridPosition,
                             a1: map<nat, Attributes>, p1: map<nat, GridPosition>)
    requires forall k :: k in positions ==> positions[k].x <= bounds.x && positions[k].y <= bounds.y
    requires forall k :: k in p1 ==> (k in positions && p1[k] == positions[k]) || k in a1
    ensures var right, bottom := Stretched(bounds.x, ColumnEntries(a1, p1)), Stretched(bounds.y, RowEntries(a1, p1));
      forall k :: k in p1 ==> p1[k].x <= right && p1[k].y <= bottom
  {
    var columns, rows := ColumnEntries(a1, p1), RowEntries(a1, p1);
    StretchedIsMax(bounds.x, columns);
    StretchedIsMax(bounds.y, rows);
    forall k | k in p1
      ensures p1[k].x <= Stretched(bounds.x, columns) && p1[k].y <= Stretched(bounds.y, rows)
    {
      if k in a1 {
        assert columns[k].0 == p1[k].x && rows[k].0 == p1[k].y;
      }
    }
  }

  /** A pass keeps the stored state valid. */
  lemma PassKeepsValid(s0: GridState, s1: GridState, itemCount: Option<nat>, delegate: Option<LayoutDelegate>)
    requires ValidState(s0)
    requires var a0 := Built(s0.attributes, itemCount);
      var a1, p1 := Measured(a0, itemCount, delegate), Recorded(s0.positions, a0, itemCount, delegate);
      s1.positions == p1 && Sized(s0, s1, a1, p1)
    ensures ValidState(s1)
  {
    var a0 := Built(s0.attributes, itemCount);
    var a1 := Measured(a0, itemCount, delegate);
    var p1 := Recorded(s0.positions, a0, itemCount, delegate);
    assert a1.Keys == a0.Keys;
    StretchedIsMax(s0.bounds.x, ColumnEntries(a1, p1));
    StretchedIsMax(s0.bounds.y, RowEntries(a1, p1));
    RecordedWithinBounds(s0.positions, s0.bounds, a1, p1);
    WidenedNonNegative(s0.widths, ColumnEntries(a1, p1));
    WidenedNonNegative(s0.heights, RowEntries(a1, p1));
  }

  /** The four steps of `calculateLayout`, composed, make one pass. */
  lemma StepsMakePass(s0: GridState, sA: GridState, sB: GridState, sC: GridState, sD: GridState,
                      itemCount: Option<nat>, delegate: Option<LayoutDelegate>,
                      padding: Size, defaultSize: Size, trapped: bool)
    requires sA == s0.(attributes := Built(s0.attributes, itemCount))
    requires sB == sA.(attributes := Measured(sA.attributes, itemCount, delegate),
                       positions := Recorded(sA.positions, sA.attributes, itemCount, delegate))
    requires sC.attributes == sB.attributes && sC.positions == sB.positions && sC.totalSize == sB.totalSize
    requires Sized(sB, sC, sB.attributes, sB.positions)
    requires sD.positions == sC.positions && sD.widths == sC.widths && sD.heights == sC.heights
    requires sD.bounds == sC.bounds
    requires Placed(sC, sD, sC.attributes, sC.positions, padding, defaultSize, trapped)
    ensures PreparePass(s0, sD, itemCount, delegate, padding, defaultSize, trapped)
  {
    assert Sized(s0, sD, sB.attributes, sB.positions);
  }

  /** What the centre pass computes, stored, is the `Placed` state. */
  lemma PlacedBy(s0: GridState, t: Tracks, records: map<nat, Attributes>, trapped: bool,
                 total: Size, padding: Size, defaultSize: Size)
    requires t == TracksOf(s0.bounds, s0.widths, s0.heights, defaultSize, padding)
    requires trapped == Traps(t, s0.attributes, s0.positions)
    requires records.Keys == s0.attributes.Keys
    requires !trapped ==> records == Laid(t, s0.attributes, s0.positions) && total == TotalSize(t, padding)
    requires trapped ==> total == s0.totalSize
    ensures Placed(s0, s0.(attributes := records, totalSize := total), s0.attributes, s0.positions,
                   padding, defaultSize, trapped)
  {
  }

  /** The layout. Its six private stored properties (the record table, the
      position table, the grid bounds, the two maxima tables and the content
      size) are held together in `stored`; each step replaces it in one
      assignment. */
  class Layout {
    var stored: GridState
    var padding: Size
    var defaultItemSize: Size

    ghost predicate Valid()
      reads this
    {
      ValidState(stored)
    }

    constructor ()
      ensures Valid()
      ensures stored == GridState(map[], map[], NoPosition, map[], map[], ZeroSize)
      ensures padding == Size(8.0, 8.0) && defaultItemSize == ZeroSize
    {
      stored := GridState(map[], map[], NoPosition, map[], map[], ZeroSize);
      padding := Size(8.0, 8.0);
      defaultItemSize := ZeroSize;
    }

    /** The content size the layout reports. */
    function ContentSize(): Size
      reads this
    {
      stored.totalSize
    }

    /** Empties the record table and zeroes the content size; positions, maxima
        and bounds are kept. */
    method InvalidateLayout()
      requires Valid()
      modifies this
      ensures Valid()
      ensures stored == old(stored).(attributes := map[], totalSize := ZeroSize)
      ensures padding == old(padding) && defaultItemSize == old(defaultItemSize)
    {
      stored := stored.(attributes := map[], totalSize := ZeroSize);
    }

    /** One layout pass (`prepare` / `calculateLayout`). `itemCount` is the number
        of items of the collection view, None when the layout has none;
        `trapped` reports an out-of-range subscript in the centre computation. */
    method Prepare(itemCount: Option<nat>, delegate: Option<LayoutDelegate>) returns (trapped: bool)
      requires Valid()
      modifies this
      ensures Valid()
      ensures PreparePass(old(stored), stored, itemCount, delegate, padding, defaultItemSize, trapped)
      ensures padding == old(padding) && defaultItemSize == old(defaultItemSize)
      ensures itemCount.Some? && delegate.Some? ==> !trapped
    {
      ghost var s0 := stored;
      if |stored.attributes| == 0 {
        BuildLayoutAttributes(itemCount);
      }
      ghost var sA := stored;
      GetItemPositionsAndSizes(itemCount, delegate);
      ghost var sB := stored;
      CalculateColumnAndRowSizes();
      ghost var sC := stored;
      trapped := CalculateItemLayout();
      StepsMakePass(s0, sA, sB, sC, stored, itemCount, delegate, padding, defaultItemSize, trapped);
      PassKeepsValid(s0, stored, itemCount, delegate);
      if itemCount.Some? && delegate.Some? {
        NoTrapWithDelegate(s0, stored, itemCount, delegate, padding, defaultItemSize, trapped);
      }
    }

    /** One fresh record per item id when the collection view is known. */
    method BuildLayoutAttributes(itemCount: Option<nat>)
      modifies this
      ensures stored == old(stored).(attributes := if itemCount.Some? then FreshTable(itemCount.value)
                                                    else old(stored).attributes)
      ensures padding == old(padding) && defaultItemSize == old(defaultItemSize)
    {
      if itemCount.Some? {
        var records := map[];
        var item := 0;
        while item < itemCount.value
          invariant 0 <= item <= itemCount.value
          invariant records == FreshTable(item)
        {
          records := records[item := FreshAttributes];
          item := item + 1;
        }
        stored := stored.(attributes := records);
      }
    }

    /** Asks the delegate for every record's position and size and hides the
        records whose position is off the grid. */
    method GetItemPositionsAndSizes(itemCount: Option<nat>, delegate: Option<LayoutDelegate>)
      modifies this
      ensures stored == old(stored).(attributes := Measured(old(stored).attributes, itemCount, delegate),
                                     positions := Recorded(old(stored).positions, old(stored).attributes,
                                                           itemCount, delegate))
      ensures padding == old(padding) && defaultItemSize == old(defaultItemSize)
    {
      if itemCount.Some? && delegate.Some? {
        var records, recorded := MeasureRecords(stored.attributes, stored.positions, delegate.value);
        stored := stored.(attributes := records, positions := recorded);
      }
    }

    /** The loop of `getItemPositionsAndSizes`, over the tables it starts from. */
    static method MeasureRecords(attrs: map<nat, Attributes>, positions: map<nat, GridPosition>, d: LayoutDelegate)
      returns (records: map<nat, Attributes>, recorded: map<nat, GridPosition>)
      ensures records == Measured(attrs, Some(0), Some(d))
      ensures recorded == Recorded(positions, attrs, Some(0), Some(d))
    {
      records, recorded := attrs, positions;
      var todo := attrs.Keys;
      MeasuredSoFarStart(attrs, positions, d);
      while todo != {}
        invariant todo <= attrs.Keys
        invariant records == MeasuredSoFar(attrs, todo, d) && recorded == RecordedSoFar(positions, attrs, todo, d)
        decreases todo
      {
        var k :| k in todo;
        var layoutPosition := d.positionFor(k);
        recorded := recorded[k := layoutPosition];
        var item := records[k].(size := d.sizeFor(k));
        if layoutPosition.x <= 0 || layoutPosition.y <= 0 {
          item := item.(hidden := true);
        } else {
          item := item.(hidden := false);
        }
        MeasuredSoFarNext(attrs, positions, todo, d, k);
        records := records[k := item];
        todo := todo - {k};
      }
      MeasuredSoFarEnd(attrs, positions, d);
    }
    /** Widens each record's column and row to its size and stretches the bounds
        to its position; records without a position count as (0, 0). */
    method CalculateColumnAndRowSizes()
      modifies this
      ensures Sized(old(stored), stored, stored.attributes, stored.positions)
      ensures stored.attributes == old(stored).attributes && stored.positions == old(stored).positions
      ensures stored.totalSize == old(stored).totalSize
      ensures padding == old(padding) && defaultItemSize == old(defaultItemSize)
    {
      var widths, heights, maxX, maxY :=
        WidenTracks(stored.attributes, stored.positions, stored.widths, stored.heights, stored.bounds);
      stored := stored.(widths := widths, heights := heights, bounds := GridPosition(maxX, maxY));
    }

    /** The loop of the size pass, over the maxima and bounds it starts from. */
    static method WidenTracks(attrs: map<nat, Attributes>, positions: map<nat, GridPosition>,
                              widths0: map<int, real>, heights0: map<int, real>, bounds0: GridPosition)
      returns (widths: map<int, real>, heights: map<int, real>, maxX: int, maxY: int)
      ensures widths == Widened(widths0, ColumnEntries(attrs, positions))
      ensures heights == Widened(heights0, RowEntries(attrs, positions))
      ensures maxX == Stretched(bounds0.x, ColumnEntries(attrs, positions))
      ensures maxY == Stretched(bounds0.y, RowEntries(attrs, positions))
    {
      widths, heights, maxX, maxY := widths0, heights0, bounds0.x, bounds0.y;
      var todo := attrs.Keys;
      SizedSoFarStart(widths0, heights0, bounds0, attrs, positions);
      while todo != {}
        invariant todo <= attrs.Keys
        invariant SizedSoFar(widths0, heights0, bounds0, attrs - todo, positions, widths, heights, maxX, maxY)
        decreases todo
      {
        var k :| k in todo;
        var layoutPosition := if k in positions then positions[k] else NoPosition;
        var item := attrs[k];
        SizedSoFarNext(widths0, heights0, bounds0, attrs, todo, positions, widths, heights, maxX, maxY, k);

        var newWidth := Max(Lookup(widths, layoutPosition.x, 0.0), item.size.width);
        widths := widths[layoutPosition.x := newWidth];
        var newHeight := Max(Lookup(heights, layoutPosition.y, 0.0), item.size.height);
        heights := heights[layoutPosition.y := newHeight];
        maxX, maxY := MaxInt(maxX, layoutPosition.x), MaxInt(maxY, layoutPosition.y);

        todo := todo - {k};
      }
      assert attrs - todo == attrs;
    }

    /** Builds the dense tracks, places every record and sets the content size;
        reports a trap when a visible record's position is outside the tracks. */
    method CalculateItemLayout() returns (trapped: bool)
      modifies this
      ensures Placed(old(stored), stored, old(stored).attributes, old(stored).positions,
                     padding, defaultItemSize, trapped)
      ensures stored.positions == old(stored).positions && stored.widths == old(stored).widths
      ensures stored.heights == old(stored).heights && stored.bounds == old(stored).bounds
      ensures padding == old(padding) && defaultItemSize == old(defaultItemSize)
    {
      var records, total;
      records, total, trapped := PlaceAll(stored, padding, defaultItemSize);
      stored := stored.(attributes := records, totalSize := total);
    }

    /** The centre pass over a stored state, as values. */
    static method PlaceAll(s0: GridState, padding: Size, defaultSize: Size)
      returns (records: map<nat, Attributes>, total: Size, trapped: bool)
      ensures Placed(s0, s0.(attributes := records, totalSize := total), s0.attributes, s0.positions,
                     padding, defaultSize, trapped)
    {
      var columnWidths, paddingWidths := FillTracks(s0.bounds.x, s0.widths, defaultSize.width, padding.width);
      var rowHeights, paddingHeights := FillTracks(s0.bounds.y, s0.heights, defaultSize.height, padding.height);
      var t := Tracks(columnWidths, paddingWidths, rowHeights, paddingHeights);
      records, trapped := PlaceRecords(t, s0.attributes, s0.positions);
      total := s0.totalSize;
      if !trapped {
        var totalWidth := Sum(columnWidths) + Sum(paddingWidths) + padding.width;
        var totalHeight := Sum(rowHeights) + Sum(paddingHeights) + padding.height;
        total := Size(totalWidth, totalHeight);
      }
      PlacedBy(s0, t, records, trapped, total, padding, defaultSize);
    }

    /** The loop of the centre pass: a visible record with a position goes to the
        centre of its cell, every other record to the parking point; the loop stops
        at the first visible record whose position is outside the tracks. */
    static method PlaceRecords(t: Tracks, attrs: map<nat, Attributes>, positions: map<nat, GridPosition>)
      returns (records: map<nat, Attributes>, trapped: bool)
      requires |t.columns| == |t.columnPadding| && |t.rows| == |t.rowPadding|
      ensures trapped == Traps(t, attrs, positions)
      ensures !trapped ==> records == Laid(t, attrs, positions)
      ensures records.Keys == attrs.Keys
    {
      records := attrs;
      var todo := records.Keys;
      while todo != {}
        invariant todo <= records.Keys == attrs.Keys
        invariant forall k :: k in todo ==> records[k] == attrs[k]
        invariant forall k :: k in attrs && k !in todo ==>
                    (k in positions && !attrs[k].hidden ==> InRange(t, positions[k]))
        invariant forall k :: k in records && k !in todo ==>
                    records[k] == attrs[k].(center := ItemCentre(t, positions, k, attrs[k]))
        decreases todo
      {
        var k :| k in todo;
        var item := records[k];
        var center, outside := CentreOf(t, positions, k, item);
        if outside {
          return records, true;
        }
        records := records[k := item.(center := center)];
        todo := todo - {k};
      }
      assert !Traps(t, attrs, positions);
      assert records == Laid(t, attrs, positions);
      trapped := false;
    }

    /** The body of the centre loop for one record: the centre of its cell when it
        is visible and has a position, the parking point otherwise; `outside` when
        its cell is outside the tracks. */
    static method CentreOf(t: Tracks, positions: map<nat, GridPosition>, k: nat, item: Attributes)
      returns (center: Point, outside: bool)
      requires |t.columns| == |t.columnPadding| && |t.rows| == |t.rowPadding|
      ensures outside <==> k in positions && !item.hidden && !InRange(t, positions[k])
      ensures !outside ==> center == ItemCentre(t, positions, k, item)
    {
      if k in positions && !item.hidden {
        var position := positions[k];
        if !(0 <= position.x < |t.columns| && 0 <= position.y < |t.rows|) {
          return Origin, true;
        }
        var leadingPaddingWidths := Sum(t.columnPadding[..position.x]);
        var leadingTotalWidth := Sum(t.columns[..position.x]) + leadingPaddingWidths;
        var leadingPaddingHeights := Sum(t.rowPadding[..position.y]);
        var leadingTotalHeight := Sum(t.rows[..position.y]) + leadingPaddingHeights;
        var centerX := leadingTotalWidth + t.columns[position.x] / 2.0;
        var centerY := leadingTotalHeight + t.rows[position.y] / 2.0;
        center, outside := Point(centerX, centerY), false;
      } else {
        var centerX := (Sum(t.columns) + Sum(t.columnPadding)) / 2.0;
        var centerY := Sum(t.rows) + Sum(t.rowPadding) + 100.0;
        center, outside := Point(centerX, centerY), false;
      }
    }

    /** Fills one axis's dense sizes and paddings, as the two `append` loops do. */
    static method FillTracks(bound: int, sizes: map<int, real>, default: real, pad: real)
      returns (dense: seq<real>, pads: seq<real>)
      ensures dense == DenseSizes(bound, sizes, default) && pads == Paddings(dense, pad)
    {
      dense := [0.0];
      pads := [pad];
      if bound > 0 {
        var position := 1;
        while position <= bound
          invariant 1 <= position <= bound + 1
          invariant |dense| == |pads| == position
          invariant dense[0] == 0.0 && pads[0] == pad
          invariant forall k :: 1 <= k < position ==>
                      dense[k] == Lookup(sizes, k, default) && pads[k] == (if dense[k] > 0.0 then pad else 0.0)
        {
          var width := Lookup(sizes, position, default);
          dense := dense + [width];
          var padding := if width > 0.0 then pad else 0.0;
          pads := pads + [padding];
          position := position + 1;
        }
      }
    }

    /** The stored record of one item, if any. */
    function LayoutAttributesForItem(k: nat): Option<Attributes>
      reads this
    {
      if k in stored.attributes then Some(stored.attributes[k]) else None
    }

    /** The ids of the visible records whose frame meets the query rectangle;
        `intersects` stands for `frame.intersects(rect)`. */
    method LayoutAttributesForElements(intersects: Attributes -> bool) returns (ids: seq<nat>)
      ensures forall i, j :: 0 <= i < j < |ids| ==> ids[i] != ids[j]
      ensures forall k :: k in ids <==>
                k in stored.attributes && !stored.attributes[k].hidden && intersects(stored.attributes[k])
    {
      var records := stored.attributes;
      ids := [];
      var todo := records.Keys;
      while todo != {}
        invariant todo <= records.Keys
        invariant forall i, j :: 0 <= i < j < |ids| ==> ids[i] != ids[j]
        invariant forall k :: k in ids ==> k !in todo
        invariant forall k :: k in ids <==>
                    k in records && k !in todo && !records[k].hidden && intersects(records[k])
        decreases todo
      {
        var k :| k in todo;
        var item := records[k];
        if intersects(item) && !item.hidden {
          ids := ids + [k];
        }
        todo := todo - {k};
      }
    }
  }
}

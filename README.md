# DragAndDrop, modelled in Dafny

A model of the logic inside DragAndDropPod, a UIKit drag-and-drop library, with proofs about the model. UIKit itself is not modelled; its results enter as inputs. The model covers three parts:

- **The sparse-grid layout** (`DDCollectionViewGridLayout`) and its earlier prototype in the example app (`CollectionViewTableLayout`). Each item has an `(x, y)` grid position and a size. A layout pass does the following:
  - widens per-column and per-row maxima;
  - packs them into dense width and padding arrays;
  - puts every visible item at the centre of its cell;
  - parks every off-grid item at one shared point below the grid;
  - sets the content size.
- **The auto-scroll controller** of `DDCollectionView`: start-of-drag lock flags, the last known touch, and a per-axis signed speed. That speed comes from edge thresholds, a proximity factor, a `min` throttle and a stretch-limit cut-off. The content offset then advances by speed / frame rate.
- **The drag lifecycle** of `DDItem` and the host dispatch around it (`DDView`, `DDCollectionView.gestureUpdate`):
  - gesture phases, animation completions and display-link ticks;
  - the single display link;
  - the host's one optional active item;
  - the `rootSuperviewFor` walk up the superview chain.

Modules, one per source file, plus shared geometry:

| file | module | models |
|---|---|---|
| `geometry.dfy` | `Geometry` | points, sizes, insets, grid positions, `max`/`min`/`abs`, and `reduce(0, +)` as `Sum`, with prefix-sum lemmas |
| `grid_layout.dfy` | `GridLayout` | `DDCollectionViewGridLayout.swift` |
| `table_layout.dfy` | `TableLayout` | `CollectionViewTableLayout.swift` |
| `drag_item.dfy` | `DragItem` | `DDItem.swift` |
| `drag_view.dfy` | `DragView` | `DDView.swift` |
| `collection_view.dfy` | `CollectionView` | `DDCollectionView.swift` |

How the Swift maps to Dafny:

- `CGFloat` is `real`. `CGPoint`, `CGSize`, `UIEdgeInsets` and the two layout-position structs are datatypes. An `IndexPath` is a natural-number item id.
- The objects whose fields the source updates are classes:
  - `GridLayout.Layout` and `TableLayout.Table`;
  - `DragItem.Item`;
  - `DragView.Host` and `CollectionView.Host`.
- Each class method is specified against a function of the old state (`State() == OnGesture(old(State()), ...)`, `PreparePass(old(stored), stored, ...)`), and the properties are proved about those functions.
- The layout's loops over dictionaries are loops over the key set. They take keys in an unspecified order (`var k :| k in todo`), as Swift's dictionary iteration does.
- A layout attributes object is a datatype value (`Attributes`: size, centre, hidden) in a map.
- A Swift array subscript out of range stops the program. The layout methods report that case as `trapped == true`.

Animations and the display link are events:

- Starting an animation sets its final centre at once and appends the animation to `pending`.
- `Item.Complete(i)` runs the completion of the i-th pending animation.
- The display link is the flag `linked` plus `liveLinks`, the number of links registered and not yet invalidated.
- `Item.UpdateDisplay(duration, hypot)` is one tick.
- Calls into the item's delegate are appended to `notices`.

`hypot` is an abstract function, constrained only by `HypotLaws`: it is 0 at the origin and gives the same value for opposite arguments.

Each class method models the code as written. Where verifying showed a defect, the same module also states the evidently intended behaviour and proves it (see "## Findings").

## Model

| member | source | states |
|---|---|---|
| GridLayout.MaxAtIsMax | DragAndDrop/Classes/DDCollectionViewGridLayout.swift:118-127 | The per-column maximum is at least the starting value and every size entered at that column, and equals the starting value or one of those sizes. |
| GridLayout.WidenedCovers | DragAndDrop/Classes/DDCollectionViewGridLayout.swift:118-127 | After widening, every entry's column is present with a value at least the entry's size, and no recorded value is lowered. |
| GridLayout.WidenedAttained | DragAndDrop/Classes/DDCollectionViewGridLayout.swift:118-127 | Every widened value is the old value (0 when absent) or the size of some entry in that column. |
| GridLayout.WidenedIdempotent | DragAndDrop/Classes/DDCollectionViewGridLayout.swift:118-127 | Widening twice with the same entries gives what widening once gives. |
| GridLayout.StretchedIsMax | DragAndDrop/Classes/DDCollectionViewGridLayout.swift:129-130 | The stretched bound is at least the old bound and every entry's index, and is one of them. |
| GridLayout.StretchedIdempotent | DragAndDrop/Classes/DDCollectionViewGridLayout.swift:129-130 | Stretching twice with the same entries gives what stretching once gives. |
| GridLayout.FreshTable | DragAndDrop/Classes/DDCollectionViewGridLayout.swift:79-93 | The built table has exactly the ids below the item count, each holding a fresh record. |
| GridLayout.MeasuredHidesOffGrid | DragAndDrop/Classes/DDCollectionViewGridLayout.swift:95-114 | With a delegate and a collection view, each record gets the delegate's size and is hidden exactly when x <= 0 or y <= 0. Otherwise the records are untouched and no key is ever added or lost. |
| GridLayout.DenseShape | DragAndDrop/Classes/DDCollectionViewGridLayout.swift:138-166 | The dense track and its padding each have bound + 1 entries. Entry 0 is 0 with the outside padding. Entry k >= 1 is the recorded size, or the default size when none is recorded; its padding is the padding when that size is positive and 0 otherwise. |
| GridLayout.SizedNeverShrinks | DragAndDrop/Classes/DDCollectionViewGridLayout.swift:116-132 | A size pass never forgets or lowers a recorded column width or row height and never lowers the grid bounds. |
| GridLayout.SizedCoversItems | DragAndDrop/Classes/DDCollectionViewGridLayout.swift:118-127 | After a size pass, every record's column is at least as wide as the record and its row at least as tall. Hidden records count too. |
| GridLayout.SizedWidthAttained | DragAndDrop/Classes/DDCollectionViewGridLayout.swift:118-124 | After a size pass, each column width is the old width (0 when absent) or the width of a record in that column. |
| GridLayout.SizedHeightAttained | DragAndDrop/Classes/DDCollectionViewGridLayout.swift:118-126 | After a size pass, each row height is the old height (0 when absent) or the height of a record in that row. |
| GridLayout.TracksNonNegative | DragAndDrop/Classes/DDCollectionViewGridLayout.swift:138-166 | With non-negative recorded sizes, default size and padding, every dense track and padding entry is non-negative. |
| GridLayout.CentresMonotone | DragAndDrop/Classes/DDCollectionViewGridLayout.swift:174-181 | With non-negative tracks, the cell centre never decreases as the cell index grows. |
| GridLayout.SharedTracksShareCentres | DragAndDrop/Classes/DDCollectionViewGridLayout.swift:171-183 | Two visible records in the same column get the same centre x, and two in the same row the same centre y. With non-negative tracks, a record in an earlier column is never to the right of one in a later column. |
| GridLayout.CentreAboveParking | DragAndDrop/Classes/DDCollectionViewGridLayout.swift:180-189 | With non-negative tracks, every cell centre lies strictly above the parking row. |
| GridLayout.CellWithinExtent | DragAndDrop/Classes/DDCollectionViewGridLayout.swift:174-181 | With non-negative tracks, a cell's far edge (its centre plus half its size) lies within the summed tracks and paddings, and that sum is not negative. |
| GridLayout.TotalCoversCells | DragAndDrop/Classes/DDCollectionViewGridLayout.swift:168-199 | With non-negative tracks, the total size is at least the outside padding on both axes, and every visible record's cell ends at least one padding before the far edge of the total size. |
| GridLayout.ParkingIsShared | DragAndDrop/Classes/DDCollectionViewGridLayout.swift:185-192 | Every hidden or unpositioned record is placed at the one parking point. With non-negative rows, that point is below every visible record. |
| GridLayout.MeasuredInRange | DragAndDrop/Classes/DDCollectionViewGridLayout.swift:171-181 | With a delegate, every visible record has 1 <= x <= bounds.x and 1 <= y <= bounds.y, so every subscript of the centre computation is in range. |
| GridLayout.NoTrapWithDelegate | DragAndDrop/Classes/DDCollectionViewGridLayout.swift:171-183 | A pass with a delegate and a collection view never subscripts out of range. |
| GridLayout.BuiltStable | DragAndDrop/Classes/DDCollectionViewGridLayout.swift:70-73 | The record table is rebuilt only when empty: a table that was just built or kept is kept by the next pass. |
| GridLayout.PassKeepsValid | DragAndDrop/Classes/DDCollectionViewGridLayout.swift:116-132 | A pass keeps the stored state valid: bounds non-negative and covering every recorded position, maxima non-negative. |
| GridLayout.PrepareIdempotent | DragAndDrop/Classes/DDCollectionViewGridLayout.swift:65-77 | A second `prepare` with the same delegate answers changes nothing: same records, centres, positions, maxima, bounds and content size. |
| GridLayout.Layout.constructor | DragAndDrop/Classes/DDCollectionViewGridLayout.swift:41-51 | A new layout has empty tables, zero bounds, zero content size, 8-point padding and a zero default item size. |
| GridLayout.Layout.InvalidateLayout | DragAndDrop/Classes/DDCollectionViewGridLayout.swift:59-63 | Empties the record table and zeroes the content size. Positions, maxima and bounds are kept. |
| GridLayout.Layout.Prepare | DragAndDrop/Classes/DDCollectionViewGridLayout.swift:65-77 | One pass: build when empty, measure, size, place. It keeps the state valid and never traps when the delegate and collection view are present. |
| GridLayout.Layout.BuildLayoutAttributes | DragAndDrop/Classes/DDCollectionViewGridLayout.swift:79-93 | With a collection view, the record table becomes one fresh record per item. Without one, nothing changes. |
| GridLayout.Layout.GetItemPositionsAndSizes | DragAndDrop/Classes/DDCollectionViewGridLayout.swift:95-114 | The records become the measured records and the position table the recorded one; nothing else changes. |
| GridLayout.Layout.MeasureRecords | DragAndDrop/Classes/DDCollectionViewGridLayout.swift:99-112 | The loop, in any key order, yields exactly the measured records and the recorded positions. |
| GridLayout.Layout.CalculateColumnAndRowSizes | DragAndDrop/Classes/DDCollectionViewGridLayout.swift:116-132 | Maxima and bounds become the widened and stretched ones over the current records, with missing positions read as (0, 0). Records, positions and size are kept. |
| GridLayout.Layout.WidenTracks | DragAndDrop/Classes/DDCollectionViewGridLayout.swift:118-131 | The size loop, in any key order, yields the widened maxima and the stretched bounds. |
| GridLayout.Layout.CalculateItemLayout | DragAndDrop/Classes/DDCollectionViewGridLayout.swift:134-200 | `trapped` exactly when a visible record lies outside the tracks. Otherwise the records are laid out and the content size is the column sum plus padding sum plus outer padding on each axis. |
| GridLayout.Layout.PlaceAll | DragAndDrop/Classes/DDCollectionViewGridLayout.swift:136-199 | The centre pass over values meets the `Placed` relation. |
| GridLayout.Layout.PlaceRecords | DragAndDrop/Classes/DDCollectionViewGridLayout.swift:169-193 | The loop traps exactly when some visible record is out of range; otherwise every record is laid out. Keys are kept. |
| GridLayout.Layout.CentreOf | DragAndDrop/Classes/DDCollectionViewGridLayout.swift:171-192 | A visible positioned record gets the cell centre (prefix sums plus half its track); any other record gets the parking point. It reports an out-of-range cell. |
| GridLayout.Layout.FillTracks | DragAndDrop/Classes/DDCollectionViewGridLayout.swift:144-166 | The `append` loops yield exactly the dense sizes and their paddings. |
| GridLayout.Layout.LayoutAttributesForElements | DragAndDrop/Classes/DDCollectionViewGridLayout.swift:207-212 | Returns each id at most once, and an id is returned exactly when its record is stored, not hidden and meets the rectangle. |
| TableLayout.TableHidesOffGrid | Example/DragAndDrop/CollectionViewTableLayout.swift:96-108 | Each record is hidden exactly when x <= 0 or y <= 0. It gets the uniform size when one is set and the delegate's size otherwise. |
| TableLayout.UniformMeansZeroTracks | Example/DragAndDrop/CollectionViewTableLayout.swift:104-131 | With a uniform size, no maxima are recorded, so every column width and row height of the pass is 0. |
| TableLayout.ColumnIsWidest | Example/DragAndDrop/CollectionViewTableLayout.swift:111-124 | Without a uniform size, each dense column width is non-negative, at least every width in its column, and 0 or one of those widths. The maxima are fresh every pass. |
| TableLayout.RowIsTallest | Example/DragAndDrop/CollectionViewTableLayout.swift:111-124 | Without a uniform size, each dense row height is non-negative, at least every height in its row, and 0 or one of those heights. |
| TableLayout.TableBoundsGrow | Example/DragAndDrop/CollectionViewTableLayout.swift:89-95 | The bounds never shrink, and after a pass they reach every item's position. |
| TableLayout.TablePassKeepsValid | Example/DragAndDrop/CollectionViewTableLayout.swift:82-133 | A size pass keeps the bounds non-negative and covering every recorded position. |
| TableLayout.EdgeIsLeading | Example/DragAndDrop/CollectionViewTableLayout.swift:155-158 | `sizes[0...x].reduce(0, +) - sizes[x]` is the sum of the tracks before x: the leading edge. |
| TableLayout.EdgesMonotone | Example/DragAndDrop/CollectionViewTableLayout.swift:155-158 | With non-negative tracks, leading edges never decrease with the index. |
| TableLayout.FreshPassTraps | Example/DragAndDrop/CollectionViewTableLayout.swift:119-158 | As written: on a layout whose x bound is still 0, every pass over a non-empty table with a delegate subscripts out of range. |
| TableLayout.CorrectedPassFits | Example/DragAndDrop/CollectionViewTableLayout.swift:119-158 | With tracks covering 0 ... bound, a pass never traps when no delegate position is negative. |
| TableLayout.Table.constructor | Example/DragAndDrop/CollectionViewTableLayout.swift:28-41 | A new layout has empty tables and tracks, zero bounds and size, and no uniform size. |
| TableLayout.Table.InvalidateLayout | Example/DragAndDrop/CollectionViewTableLayout.swift:47-51 | Empties the record table and zeroes the content size. Positions, bounds and tracks are kept. |
| TableLayout.Table.Prepare | Example/DragAndDrop/CollectionViewTableLayout.swift:53-65 | One pass: build when empty, size, total, place. It meets `TablePass` and keeps the state valid. |
| TableLayout.Table.BuildLayoutAttributes | Example/DragAndDrop/CollectionViewTableLayout.swift:67-80 | With a collection view, the record table becomes one fresh record per item. Without one, nothing changes. |
| TableLayout.Table.CalculateColumnAndRowSizes | Example/DragAndDrop/CollectionViewTableLayout.swift:82-133 | The state becomes `SizedTable`: positions recorded, records measured, bounds stretched, tracks rebuilt over 0 ..< bound. Without a delegate or a collection view, nothing changes. |
| TableLayout.Table.MeasureTable | Example/DragAndDrop/CollectionViewTableLayout.swift:89-117 | The loop, in any key order, yields the measured records, recorded positions, fresh maxima and stretched bounds. |
| TableLayout.Table.FillTrack | Example/DragAndDrop/CollectionViewTableLayout.swift:119-131 | The `append` loop yields one entry per index 0 ..< bound, 0 where no maximum is recorded. |
| TableLayout.Table.CalculateTotalSize | Example/DragAndDrop/CollectionViewTableLayout.swift:135-144 | The content size becomes (sum of column widths, sum of row heights), with no padding. |
| TableLayout.Table.CalculateItemLayout | Example/DragAndDrop/CollectionViewTableLayout.swift:146-163 | `trapped` exactly when some positioned record, hidden or not, lies outside the tracks. Otherwise every positioned record moves to the leading edges of its cell. |
| TableLayout.Table.PlaceTable | Example/DragAndDrop/CollectionViewTableLayout.swift:148-162 | The centre loop over values traps exactly as `TableTraps` says; otherwise it gives `TableLaid`. |
| TableLayout.Table.LayoutAttributesForElements | Example/DragAndDrop/CollectionViewTableLayout.swift:169-173 | Returns each id at most once, and exactly the stored records that meet the rectangle, hidden ones included. |
| DragItem.DistanceNonNegative | DragAndDrop/Classes/DDItem.swift:169-171 | The distance is never negative. |
| DragItem.DistanceToSelf | DragAndDrop/Classes/DDItem.swift:169-171 | The distance from a point to itself is 0. |
| DragItem.DistanceSymmetric | DragAndDrop/Classes/DDItem.swift:169-171 | The distance is symmetric. |
| DragItem.BeganLifts | DragAndDrop/Classes/DDItem.swift:64-72 | On `began`, the origin is the pre-lift centre and the touch and centre become the gesture location. The view joins the shared superview and a pickup is in flight. The display link is untouched until the pickup completes. |
| DragItem.ChangedMovesTouchOnly | DragAndDrop/Classes/DDItem.swift:74-77 | On `changed`, only the touch location moves. |
| DragItem.EndedStopsTicks | DragAndDrop/Classes/DDItem.swift:79-96 | On `ended`, no display link remains. With a delegate, exactly one drop (to centre plus drop offset) or cancel (to the origin) starts, as the delegate answers. Without one, nothing else happens. |
| DragItem.EndedReportsOnce | DragAndDrop/Classes/DDItem.swift:83-95 | With a delegate, an `ended` and its completion make exactly one `ddItemDidDrop(success: canDrop)` and set `isCompleted` in that completion. |
| DragItem.PickupAfterEndedRestarts | DragAndDrop/Classes/DDItem.swift:69-71 | A pickup still in flight when the gesture ends restarts the display link when it completes. |
| DragItem.ApplyKeepsSingleLink | DragAndDrop/Classes/DDItem.swift:145-156 | Every event keeps at most one registered display link: the one the field holds. |
| DragItem.RunKeepsSingleLink | DragAndDrop/Classes/DDItem.swift:145-156 | The same holds over any sequence of events. |
| DragItem.NoDelegateNeverCompletes | DragAndDrop/Classes/DDItem.swift:83-95 | Without a delegate, no sequence of events completes the item or calls a delegate, and a lifted transit view is never removed. |
| DragItem.TickRate | DragAndDrop/Classes/DDItem.swift:158-163 | A tick's frame rate is 1 / duration. The transit view moves to the touch and the previous touch becomes the touch. |
| DragItem.SecondTickIsStill | DragAndDrop/Classes/DDItem.swift:158-164 | Two ticks with no touch movement between them report velocity 0 on the second. |
| DragItem.Item.constructor | DragAndDrop/Classes/DDItem.swift:48-59 | A new item is at the given centre, completed false, with no link, no animation and no delegate call. |
| DragItem.Item.UpdateWithGesture | DragAndDrop/Classes/DDItem.swift:61-101 | The new state is `OnGesture` of the old one, and the single-link invariant is kept. |
| DragItem.Item.AnimatePickup | DragAndDrop/Classes/DDItem.swift:103-116 | Joins the shared superview, targets the touch, and puts a pickup in flight. |
| DragItem.Item.AnimateDrop | DragAndDrop/Classes/DDItem.swift:118-129 | Targets the current centre plus the drop offset and puts a drop in flight. |
| DragItem.Item.AnimateCancel | DragAndDrop/Classes/DDItem.swift:131-140 | Targets the origin and puts a cancel in flight. |
| DragItem.Item.Complete | DragAndDrop/Classes/DDItem.swift:69-139 | The new state is `OnComplete`: a pickup starts the display updates, and a drop or cancel removes the view, completes the item and reports the outcome. The invariant is kept. |
| DragItem.Item.BeginDisplayUpdates | DragAndDrop/Classes/DDItem.swift:145-150 | Invalidates the current link, if any, then registers a new one. |
| DragItem.Item.EndDisplayUpdates | DragAndDrop/Classes/DDItem.swift:152-156 | Invalidates the current link, if any, and clears the field. |
| DragItem.Item.UpdateDisplay | DragAndDrop/Classes/DDItem.swift:158-167 | The new state is `OnTick`, and the invariant is kept. |
| DragView.RootIsAncestor | DragAndDrop/Classes/DDView.swift:77-87 | The walk returns v when v has no superview or the superview is not a plain view. Otherwise it returns an ancestor, every view passed from v's superview up to it is plain, and its own superview is absent or not plain. |
| DragView.RootIsFixed | DragAndDrop/Classes/DDView.swift:77-87 | Walking again from the result goes nowhere. |
| DragView.DispatchFacts | DragAndDrop/Classes/DDView.swift:42-54 | After `ended`, no item is kept. An approved `began` gives the new item that same `began`. Otherwise the active item gets the phase. |
| DragView.ApprovedDragLifts | DragAndDrop/Classes/DDView.swift:44-49 | An approved drag keeps the lifted item with its origin at the host's centre, and its display link runs, alone, only once the pickup completes. |
| DragView.Host.constructor | DragAndDrop/Classes/DDView.swift:19-21 | A new host has no active item. |
| DragView.Host.GestureUpdate | DragAndDrop/Classes/DDView.swift:42-54 | The active item is nil after `ended`. An approved `began` makes a fresh item and forwards the phase to it, and the item it displaces is left unchanged. Otherwise the phase goes to the old active item. |
| DragView.Host.BeginPossibleDragAndDrop | DragAndDrop/Classes/DDView.swift:56-68 | The active item is replaced exactly when `Offer` gives one, and is untouched otherwise. |
| CollectionView.ThrottleBounds | DragAndDrop/Classes/DDCollectionView.swift:336-338 | The throttled speed never exceeds the limit. For a non-negative limit and a factor in [0, 1], it is limit × factor, which is non-negative. |
| CollectionView.ThrottleMonotone | DragAndDrop/Classes/DDCollectionView.swift:336-338 | For a non-negative limit, a larger factor never gives a smaller speed. |
| CollectionView.BandFactor | DragAndDrop/Classes/DDCollectionView.swift:135-140 | Strictly inside an edge band, the factor distance / zone lies in (0, 1). |
| CollectionView.AxisSpeedShape | DragAndDrop/Classes/DDCollectionView.swift:124-206 | An axis speed is non-zero only strictly inside an edge band. Left and top speeds are <= 0, right and bottom speeds >= 0, each at most its limit in size. |
| CollectionView.AxisSpeedProportional | DragAndDrop/Classes/DDCollectionView.swift:135-165 | Inside a band and below the stretch limit, the speed is the limit times the proximity factor, negated at the low edge. |
| CollectionView.AxisStretchCutoff | DragAndDrop/Classes/DDCollectionView.swift:143-163 | Once the overscroll reaches the stretch limit, that edge gives speed 0. |
| CollectionView.AxisCentre | DragAndDrop/Classes/DDCollectionView.swift:166-169 | An axis unlocks exactly when the touch is within the thresholds, ends included, and then has speed 0. |
| CollectionView.DeeperIsFaster | DragAndDrop/Classes/DDCollectionView.swift:135-141 | Deeper into the low band, the scroll towards the low edge is at least as fast. |
| CollectionView.CompletedChangesNothing | DragAndDrop/Classes/DDCollectionView.swift:85-88 | For a completed item, the step changes nothing. |
| CollectionView.OffsetRule | DragAndDrop/Classes/DDCollectionView.swift:226-282 | The offset stays for a velocity above the cut-off, at frame rate 0, and on a locked axis. Otherwise each axis moves by speed / frame rate. Nothing but the offset changes. |
| CollectionView.SpeedOnlyOnMove | DragAndDrop/Classes/DDCollectionView.swift:112-115 | Afterwards the known touch is the new one. Speed and locks are recomputed only when the touch moved. |
| CollectionView.LocksRule | DragAndDrop/Classes/DDCollectionView.swift:92-117 | Both directions hold: an axis is locked after a step exactly when it was locked, or no touch was known and the touch is outside the start zone on that axis, unless the touch moved into the axis's centre region, thresholds included. A set lock therefore stays set while the touch stays outside the centre region, and an unmoved touch keeps both locks. |
| CollectionView.CentreStopsScroll | DragAndDrop/Classes/DDCollectionView.swift:166-206 | A moved touch in the centre region of both axes gives speed 0 and leaves the offset. |
| CollectionView.FirstTouchLocks | DragAndDrop/Classes/DDCollectionView.swift:92-109 | On a view's first touch, a touch beyond the start zone at any of the four edges locks that axis, and nothing scrolls along it on that step. This holds without condition at the right and bottom edges, and at the left and top edges when that edge's content inset is non-negative. |
| CollectionView.InsetStartNotLocked | DragAndDrop/Classes/DDCollectionView.swift:96-102 | The left start test ignores `contentInset.left`, but the left threshold includes it. So with a positive left inset, a first touch between the zone and the threshold is outside the centre region yet unlocked, and inside the band it scrolls left on that first step. |
| CollectionView.KnownTouchStays | DragAndDrop/Classes/DDCollectionView.swift:112-113 | As written, once a touch is known it stays known over any run of steps. |
| CollectionView.LaterDragNotLocked | DragAndDrop/Classes/DDCollectionView.swift:92-117 | As written, once a touch is known, a later drag starting inside the left band is not locked and scrolls left on its first step. |
| CollectionView.SecondDragNotLocked | DragAndDrop/Classes/DDCollectionView.swift:85-117 | A concrete run: a second drag at (10, 240) on a 320 × 480 view scrolls left at once, while the same touch on a fresh view is locked. |
| CollectionView.ResettingLocksEveryDrag | DragAndDrop/Classes/DDCollectionView.swift:85-110 | With the known touch cleared on completion, and a non-negative left inset, every following drag that starts left of the zone is locked and does not scroll sideways. The reset is on the completed-item path, so this holds only when the client passes the completed item to `autoScrollForDragItem`. |
| CollectionView.Host.constructor | DragAndDrop/Classes/DDCollectionView.swift:13-27 | A new view has the default tuning (zone 50, cut-off 500, speed limit 100, stretch limit 50), no known touch, zero speed and no locks. |
| CollectionView.Host.GestureUpdate | DragAndDrop/Classes/DDCollectionView.swift:48-60 | The item is nil after `ended`. An approved `began` forwards the phase to the fresh item, and the item it displaces is left unchanged; otherwise the phase goes to the old item. The scroll state is untouched. |
| CollectionView.Host.BeginPossibleDragAndDrop | DragAndDrop/Classes/DDCollectionView.swift:62-81 | The item is replaced exactly when `CellOffer` gives one, and is untouched otherwise. |
| CollectionView.Host.AutoScrollForDragItem | DragAndDrop/Classes/DDCollectionView.swift:83-118 | The scroll state becomes `AutoScrolled` of the old one, with the item's completion, velocity and frame rate. |
| CollectionView.Host.RecalculateAutoScrollSpeedAndDirection | DragAndDrop/Classes/DDCollectionView.swift:120-209 | The scroll state becomes `Recalculated`: both axis speeds afresh, and each lock cleared in that axis's centre region. |
| CollectionView.Host.AxisSpeedOf | DragAndDrop/Classes/DDCollectionView.swift:124-169 | One axis's speed and unlock, computed by the branches of the source, equal `AxisSpeed`. |
| CollectionView.Host.UpdateContentOffset | DragAndDrop/Classes/DDCollectionView.swift:211-286 | The scroll state becomes `OffsetUpdated`, whose rule `OffsetRule` states. |

The getters `ContentSize` and `LayoutAttributesForItem` of both layouts have no row. They are plain reads of `stored`, and what `stored` holds is specified by `Prepare` (through `PreparePass` and `TablePass`) and proved in lemmas such as `GridLayout.TotalCoversCells` and `GridLayout.ParkingIsShared`, and in the placement function `GridLayout.Laid`.

## Left out

- UIKit plumbing is not modelled:
  - gesture-recogniser setup, the minimum press duration and `snapshotView`;
  - `indexPathForItem`, `cellForItem`, `layoutAttributesForItem` inside `beginPossibleDragAndDrop`;
  - `convert(_:to:)` and `gesture.location(in:)`.

  Their results are inputs: the touch location, `snapshot`, `canDrag`, `canDrop`, the converted centre `center`/`frameCenter`, and the touch `local` in the collection view.
- `rootSuperviewFor` is modelled and proved on its own. The hosts take the shared superview implicitly, through the converted centre they are given.
- Animations are reduced to their final centre and their completion. Durations, easing, `transform`, `alpha`, `pickupScale` and the unused `pickupOffset` are not observable in the model.
- `hypot` is abstract, constrained only by `HypotLaws`. Square roots are not modelled.
- `CGFloat` is a mathematical real: no IEEE rounding, infinities or NaN.
- DragItem.Item.UpdateDisplay: requires a positive tick duration. The source would divide by a zero duration, which has no real-number meaning; a tick with non-positive duration is ignored by `Apply`.
- `IndexPath` sections are flattened: item ids 0 ..< n stand for every (section, item) pair. `itemCount` is None when the layout has no collection view.
- Layout attributes objects are values in a map. Aliasing between the object `layoutAttributesForItem` returns and the stored one is not modelled. `frame` is not derived from size and centre, and `frame.intersects(rect)` is a parameter.
- The delegates' answers are total functions, fixed during a pass. The item's delegate is a flag plus the recorded `notices`, and delegate identity is not modelled.
- GridLayout.Layout.Prepare: after a trapped pass, only the record keys and the content size are specified. The program has stopped there, so the nondeterministic partial update of the centres is left open.
- TableLayout.Table.Prepare: after a trapped pass, only the record keys are specified, for the same reason.
- TableLayout.Table.FillTrack: requires a non-negative bound. The bounds start at 0 and only grow, so the source's `0..<bound` never sees a negative bound.
- `paddingBetweenItems`, `defaultItemSize`, `uniformItemSize` and the tuning properties are public variables with no logic. Their values are fields, set by the constructors and read by the passes.
- Not modelled:
  - `maximizeItemSize`, which nothing reads;
  - `shouldInvalidateLayout(forBoundsChange:)` and `invalidationContext(forBoundsChange:)`;
  - `super.prepare`, `super.invalidateLayout` and `hashValue`;
  - the empty `DDAnimationDelegate` and `DDView.activeDragUpdate`;
  - the opaque `payload`.
- Commented-out code has no behaviour and is not modelled: the Objective-C block in `updateContentOffsetForDragItem`, the body of `resetToBounds`, and the commented delegate protocol in `DDView.swift`.
- `Example/DragAndDrop/ViewController.swift` is not part of this model. It is view-controller glue that reads a coordinator that is not shown.
- There is no concurrency. Gesture updates, animation completions and ticks arrive one at a time, as an event sequence.

## Findings

| source | as written | input that shows it | evidently intended | confidence | as-written member | corrected member |
|---|---|---|---|---|---|---|
| Example/DragAndDrop/CollectionViewTableLayout.swift:119-158 | `columnWidths` gets entries for `0..<bounds.x`. The centre slices `columnWidths[0...position.x]`, so the item whose x set the bound subscripts one past the end. | A fresh layout with a delegate and one item at (1, 1): the bound becomes 1, `columnWidths` has one entry, and `columnWidths[0...1]` is out of range. | Tracks for `0...bound` (bound + 1 entries), so every non-negative position fits. | high; not executed | TableLayout.FreshPassTraps | TableLayout.CorrectedPassFits |
| DragAndDrop/Classes/DDCollectionView.swift:92-117 | `lastKnownTouchLocation` is set at line 113 and never cleared. The "new drag" lock check at line 92 therefore runs only for the view's first drag. | A 320 × 480 view with default tuning. A first drag is held at (160, 240), then completed. A second drag begins at (10, 240): it is not locked and scrolls left at once, while the same touch starting a first drag is locked. | Clear the known touch when the item completes (the place of `resetToBounds`), so that every drag gets the start locks. That path runs only when a client passes a completed item to `autoScrollForDragItem`; the item's ticks stop at `ended`, and no file in this model makes that call. A client that never does would need the same reset when a drag begins. | medium; not executed | CollectionView.SecondDragNotLocked | CollectionView.ResettingLocksEveryDrag |

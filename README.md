# qctools plots panel: zoom window, row layout, column widths and y-axis cache

This project models the bookkeeping core of the `Plots` widget of qctools
(`Source/GUI/Plots.cpp`). The panel stacks one row per plot type in a vertical
layout. Each row holds a padding widget, a Qwt plot and a legend; the axis row
has the x-axis-kind combo box where the other rows have a legend. The model
covers five rules of that widget.

- **Zoom window** (`ZoomWindow`). `Zoom_Move` derives the width of the zoom
  window from the frame count and the zoom scale, and clamps the window's start
  so the window ends inside the video. `on_XAxis_Kind_currentIndexChanged`
  centres the window on the current frame, stopping at frame 0.
- **Row layout** (`RowLayout`, and `Plots.RefreshDisplay`). `refreshDisplay`
  walks the plot types in order. A wanted row without a layout gets one. That
  layout is inserted at a position equal to the number of wanted rows before
  it, and the row is shown. An unwanted row is hidden and its layout removed.
  The vertical layout is modelled as the sequence of plot types it holds.
- **Column widths** (`ColumnWidth`, and `Plots.RefreshDisplayAxis`).
  `refreshDisplay_Axis` pads every row up to the widest y-axis so that the
  canvases line up. It pins every legend off the axis row, and the combo box,
  to the widest entry of the legend column; the axis row's own legend is left
  alone. Off Windows the combo box is corrected by 3 pixels.
- **Y-axis cache** (`YAxis`, and `Plots.CreateDataUpdateType`). The cached
  maximum `plots_YMax` is overwritten, and the plot given the scale `[0, max]`,
  only when the statistics buffer's maximum exceeds it and the step is nonzero
  or the cap applies. On difference plots that maximum is capped at 255. A
  zero buffer maximum resets the plot to the unit scale `[0, 1]` on every
  call. `Zoom_Move` zeroes the cache before rescaling every visible plot.
- **The widget state** (`PlotsWidget.Plots`). A class holding `Status`, the
  per-row layout flag and widgets, the vertical layout's contents, the combo
  box, `plots_YMax`, and each plot's y scale and x view. Its methods are the
  constructor, `createData_Update`, `Zoom_Move`,
  `on_XAxis_Kind_currentIndexChanged`, `refreshDisplay` and
  `refreshDisplay_Axis`.

The class invariant `Valid` says three things:
- The vertical layout holds exactly the rows that have a layout, in type order.
- A row's padding, plot and legend are visible exactly when it has a layout. The axis row's legend is never shown.
- The combo box is visible whenever the axis row is laid out.

The constructor establishes `Valid`. `ZoomMove`, `OnXAxisKindCurrentIndexChanged`, `RefreshDisplay` and `RefreshDisplayAxis` require and keep it.
The steps they are built from need only the array sizes and the cache bounds: `CreateDataUpdateType`, `CreateDataUpdate`, `WalkRows`, `WalkNext`, `WalkRow`, `AlignPaddings` and `AlignLegends`.
`WalkRow` breaks the layout part of `Valid` between rows, and `WalkedTo` states what holds there instead.

Inputs that come from outside the widget are method parameters:
- the statistics buffer's per-type maxima (`Glue->y_Max`), as the array `glueY`;
- the frame count and the current frame;
- the widths the toolkit reports for the y-axis widgets, legends and combo box;
- whether the build targets Windows;
- the y-axis step chosen for each row.

`PlotType_Y` is taken to be 0, `PlotType_Max` is `count` and `PlotType_Axis` is
`axis`. The difference plot types are given by the flags `isDiff`.

## Model

| member | source | states |
|---|---|---|
| ZoomWindow.WindowWidth | Source/GUI/Plots.cpp:311 | With a zoom scale of at least 1, the window width `VideoFrameCount / ZoomScale` is at most the frame count. It is the floor quotient: `w * scale <= frames < (w + 1) * scale`. |
| ZoomWindow.ClampedBegin | Source/GUI/Plots.cpp:312-313 | The clamped start keeps the window inside the video (`b + w <= frames`, no underflow). It never exceeds the requested start. It is unchanged when the window already fits; otherwise it is exactly `frames - w`. |
| ZoomWindow.CentredBegin | Source/GUI/Plots.cpp:515-520 | The centred start never exceeds the current frame and is at most half a window before it. It is either 0 or exactly `pos - w/2`. |
| ZoomWindow.WindowShowsFrame | Source/GUI/Plots.cpp:311-313 | After centring and clamping, the window lies inside the video and contains the current frame. |
| ColumnWidth.ColumnMax | Source/GUI/Plots.cpp:418-424 | The running maximum starting from 0 is non-negative and at least every width. It is 0 or one of the widths. |
| ColumnWidth.WidestOf | Source/GUI/Plots.cpp:418-424 | The loop over the rows computes exactly `ColumnMax` of the widths. |
| ColumnWidth.LegendColumnFits | Source/GUI/Plots.cpp:433-467 | The legend column (`LegendColumn`: each non-axis row's legend width, and for the axis row the combo box's width, less 3 off Windows) has a maximum that no non-axis legend exceeds. The combo box's pin, 3 wider off Windows, is at least its own width. So nothing is pinned narrower than it reports. |
| RowLayout.Selected | Source/GUI/Plots.cpp:350-397 | The rows a walk over a range of types leaves in the vertical layout: no more than the types in the range (`SelectedExactly` characterises them). |
| RowLayout.SelectedExactly | Source/GUI/Plots.cpp:350-397 | The sequence of shown rows lists, in increasing order, exactly the indices in range whose flag is set. |
| RowLayout.SelectedBelow | Source/GUI/Plots.cpp:350-397 | A row is not among the shown rows before it. |
| RowLayout.SelectedAbove | Source/GUI/Plots.cpp:350-408 | A row is not among the rows laid out after it, so the one being removed occurs once. |
| RowLayout.SelectedSplit | Source/GUI/Plots.cpp:350-397 | The shown rows of a range are those of its two halves, in order. |
| RowLayout.SelectedSnoc | Source/GUI/Plots.cpp:396 | Extending the walk by one row appends that row exactly when it is wanted. |
| RowLayout.ShownPosition | Source/GUI/Plots.cpp:385-396 | A wanted row sits in the final layout at the index `Pos` held when it was reached: the number of wanted rows before it. |
| RowLayout.InsertAt | Source/GUI/Plots.cpp:385 | `insertLayout(Pos, …)`: the new row sits at `Pos`; the rows before it keep their places, and those from `Pos` on move down by one. |
| RowLayout.RemoveItem | Source/GUI/Plots.cpp:406 | `removeItem`: every occurrence of the row leaves the layout, every other row stays, and the layout does not grow. |
| RowLayout.RemoveAbsent | Source/GUI/Plots.cpp:406 | Removing a row the layout does not hold leaves it unchanged. |
| RowLayout.RemoveItemAfter | Source/GUI/Plots.cpp:406 | Removing a row that occurs once splices it out and leaves the others in order. |
| RowLayout.RowsAfterStep | Source/GUI/Plots.cpp:352-408 | One row's effect on the vertical layout. Only that row can come or go. A wanted row without a layout goes in at `Pos`. An unwanted row with a layout leaves. Otherwise the layout is unchanged. |
| RowLayout.WalkStep | Source/GUI/Plots.cpp:350-408 | One step of the walk keeps two invariants. The rows seen so far appear as the wanted ones, followed by the old layout's remaining rows. `Pos` counts the wanted rows seen, and the insertion index is in range. |
| YAxis.Update | Source/GUI/Plots.cpp:229-301 | A nonzero buffer maximum that exceeds the cache, with a nonzero step or the cap applying, becomes the new cache (capped at 255 on difference plots). The scale then becomes `[0, max]` with the chosen step (83 when capped). With a zero step and no cap, cache and scale are kept. Otherwise the cache is unchanged. The cache never decreases unless a difference cache was already above 255. A zero maximum sets the unit scale and changes nothing else. |
| YAxis.UpdateIdempotent | Source/GUI/Plots.cpp:241-295 | Rerunning the rule on its own result changes nothing. |
| YAxis.CacheNeverDecreases | Source/GUI/Plots.cpp:241-295 | Over any sequence of published maxima, the cache never ends below where it started. On difference plots it stays within 255. |
| YAxis.Replay | Source/GUI/Plots.cpp:229-301 | Repeated `createData_Update(Type)` calls, one per published maximum. With none, nothing changes. Otherwise the buffer ends holding the last published maximum, capped at 255 on difference plots. |
| PlotsWidget.ZoomedView | Source/GUI/Plots.cpp:319-330 | The zoom rectangle per x kind. For kinds 0 and 1 it spans from the clamped start over the window width, in seconds for kind 0 and in frames for kind 1. Any other kind keeps the zoomer's base. |
| PlotsWidget.Walked | Source/GUI/Plots.cpp:352-408 | One row through the walk. Afterwards it is laid out exactly when wanted. A wanted laid-out row is untouched. A newly laid-out row shows its padding, plot and (off the axis row) legend. An unwanted row hides all three. Only visibility changes, never width bounds. |
| PlotsWidget.Plots.constructor | Source/GUI/Plots.cpp:37-73 | The initial state: zoom scale 1, x kind 0, every row wanted, no layouts, every widget hidden, every cache 0, empty vertical layout, and the invariant holds. |
| PlotsWidget.Plots.CreateDataUpdateType | Source/GUI/Plots.cpp:229-301 | The row's cache, buffer maximum and scale become `Update` of their old values. No other row changes. Caches stay within bounds. |
| PlotsWidget.Plots.CreateDataUpdate | Source/GUI/Plots.cpp:220-226 | Every visible plot gets `Update`. The hidden ones are unchanged. |
| PlotsWidget.Plots.ZoomMove | Source/GUI/Plots.cpp:309-337 | Every plot's x view becomes the clamped window, in seconds or frames according to the x kind, or stays as it was for any other kind. Every cache is reset to 0, visible plots are rescaled from the reset state, and the invariant holds. |
| PlotsWidget.Plots.OnXAxisKindCurrentIndexChanged | Source/GUI/Plots.cpp:497-522 | The x kind becomes `index`. The plots then zoom to the window centred on the current frame and clamped to the video, with the cache reset. |
| PlotsWidget.Plots.RefreshDisplay | Source/GUI/Plots.cpp:340-412 | Afterwards the rows laid out are exactly the wanted ones, and the vertical layout holds them in type order. Each row's padding and plot are visible exactly when it is wanted, and so is its legend off the axis row. The combo box is shown when the axis row is wanted. Wanted rows are rescaled once. The invariant holds. |
| PlotsWidget.Plots.WalkRows | Source/GUI/Plots.cpp:350-408 | The loop leaves every row as one walk step from its old state, and the layout as the wanted rows in order. Only newly laid-out rows are rescaled. |
| PlotsWidget.Plots.WalkNext | Source/GUI/Plots.cpp:351-408 | One turn of the loop advances the loop invariant `WalkedTo` from row t to row t+1. |
| PlotsWidget.Plots.WalkRow | Source/GUI/Plots.cpp:352-408 | One row of the walk. A wanted row without a layout is rescaled, inserted at `Pos` and shown, legend or combo box included. A wanted laid-out row is untouched. An unwanted row is hidden and removed from the layout. Nothing else changes. |
| PlotsWidget.Plots.RefreshDisplayAxis | Source/GUI/Plots.cpp:415-467 | Every padding is pinned to the widest y-axis minus the row's own, so it is non-negative and y-axis plus padding is equal on every row. Every non-axis legend is pinned to the widest legend-column entry, at least its own width. The combo box is pinned to that width, plus 3 off Windows, at least its own width. Visibility and layouts are unchanged, and the invariant holds. |
| PlotsWidget.Plots.AlignPaddings | Source/GUI/Plots.cpp:418-430 | The padding pass: every padding's minimum and maximum width become the same padding width. All else is unchanged. |
| PlotsWidget.Plots.AlignLegends | Source/GUI/Plots.cpp:433-467 | The legend pass: non-axis legends, and the combo box, pinned to the column width. The axis row's legend is left alone. |
| PlotsWidget.SelectedNone | Source/GUI/Plots.cpp:54 | With no layout set, the vertical layout is empty. |

## Left out

- YAxis.Update: the step passed in is a parameter. The `floor` chain that computes it from the buffer's maximum (Source/GUI/Plots.cpp:237-267) is floating-point numerics and is not modelled. Doubles are modelled as mathematical reals.
- The dead branch that turns a zero maximum into 1 (Source/GUI/Plots.cpp:285-289) is modelled. It cannot be reached, since the outer test already excludes a zero maximum.
- PlotsWidget.Plots.ZoomMove:
  - the seconds-mode rectangle, `VideoDuration*Begin/VideoFrameCount`, is kept abstract as the frame window it is computed from, because that conversion is floating point.
  - `size_t` wrap-around of `Begin + Increment` is not modelled; naturals are unbounded.
  - `ZoomScale == 0` (a division by zero) is excluded by a precondition.
- PlotsWidget.Plots.OnXAxisKindCurrentIndexChanged:
  - resetting the x scale to the whole range and reloading the curve samples are toolkit calls; the zoom that follows replaces the x scale.
  - the current frame is a natural, so the signed/unsigned comparison of a negative `Pos` is not modelled.
- PlotsWidget.Plots.CreateDataUpdate: Qt's `isVisible()` also depends on the parent widgets. The model uses the plot's own visibility flag.
- PlotsWidget.Plots.RefreshDisplay: when the axis row is hidden, the combo box's visibility is left as it was, as the code does. The widget is only taken out of the row's layout.
- The effects of the layout and widget API are reduced to visibility and width bounds. That covers spacing, margins, stretch factors and the axis plot's height limit.
- Width bounds are read from the toolkit as parameters: the y-axis widths, legend widths and combo-box width.
- These are left out because they do not touch the modelled state:
  - widget construction in `Plots_Create` (grid, curves, pens, fonts, pickers, signal connections);
  - `createData_Init`;
  - `plot_moved`, which converts a picked point to a frame in floating point;
  - `replot` and `setRawSamples` calls;
  - the destructor and memory ownership.
- Writes to `Status` are made by the surrounding application; the model only reads it.

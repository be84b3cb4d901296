// The plots panel: one row per plot type (a padding, a plot and a legend, the
// axis row holding the x-axis-kind combo box instead of a legend), stacked in
// one vertical layout.

module PlotsWidget {
  import opened ZoomWindow
  import opened RowLayout
  import opened ColumnWidth
  import opened YAxis

  /** Qt's default maximum width of a widget (QWIDGETSIZE_MAX). */
  const WidgetSizeMax: int := 16777215

  /** What the model keeps of a child widget: its visibility and its width bounds. */
  datatype Widget = Widget(visible: bool, minWidth: int, maxWidth: int)

  /** A freshly created, hidden widget. */
  const HiddenWidget := Widget(false, 0, WidgetSizeMax)

  /** The toolkit objects of one plot type: whether Layouts[Type] is set, and
      paddings[Type], plots[Type] and legends[Type]. */
  datatype Row = Row(laidOut: bool, padding: Widget, plot: Widget, legend: Widget)

  /** A row as Plots_Create leaves it: no layout, every widget hidden. */
  const FreshRow := Row(false, HiddenWidget, HiddenWidget, HiddenWidget)

  /** What one step of refreshDisplay does to a row: a wanted row without a
      layout gets one and its padding, plot and (off the axis row) legend are
      shown; a wanted row with a layout is left alone; an unwanted row loses
      its layout and its padding, plot and legend are hidden. */
  function Walked(r: Row, shown: bool, isAxis: bool): (w: Row)
    ensures w.laidOut == shown
    ensures shown && r.laidOut ==> w == r
    ensures shown && !r.laidOut ==>
              w.padding.visible && w.plot.visible && w.legend.visible == (!isAxis || r.legend.visible)
    ensures !shown ==> !w.padding.visible && !w.plot.visible && !w.legend.visible
    ensures w.padding == r.padding.(visible := w.padding.visible) && w.plot == r.plot.(visible := w.plot.visible) &&
            w.legend == r.legend.(visible := w.legend.visible)
  {
    if shown then
      if r.laidOut then r
      else Row(true, r.padding.(visible := true), r.plot.(visible := true),
               if isAxis then r.legend else r.legend.(visible := true))
    else Row(false, r.padding.(visible := false), r.plot.(visible := false), r.legend.(visible := false))
  }

  /** The x range a plot shows: the whole video, or the zoom window of
      Zoom_Move in frames, shown in seconds (kind 0) or in frames (kind 1). */
  datatype XView = WholeRange | SecondsWindow(first: nat, width: nat) | FrameWindow(first: nat, width: nat)

  /** The rectangle Zoom_Move gives a plot's zoomer: `Begin` to `Begin + Increment`
      in the chosen unit; for any other kind the zoomer's base, which is what
      the plot already shows. */
  function ZoomedView(kind: int, first: nat, width: nat, was: XView): (v: XView)
    ensures kind == 0 || kind == 1 ==> !v.WholeRange? && v.first == first && v.width == width
    ensures v.SecondsWindow? != v.FrameWindow? || v == was
    ensures kind == 0 ==> v.SecondsWindow?
    ensures kind == 1 ==> v.FrameWindow?
    ensures kind != 0 && kind != 1 ==> v == was
  {
    if kind == 0 then SecondsWindow(first, width)
    else if kind == 1 then FrameWindow(first, width)
    else was
  }

  class Plots {
    /** PlotType_Max, PlotType_Axis, and which types are difference plots. */
    const count: nat
    const axis: nat
    const isDiff: seq<bool>

    var zoomScale: nat
    var xAxisKindIndex: int

    /** Status[]: which rows the user wants shown. */
    const status: array<bool>
    /** The layout and widgets of each plot type. */
    const widgets: array<Row>
    /** The plot types whose row layouts the vertical layout holds, top to bottom. */
    var rows: seq<nat>
    /** The x-axis-kind combo box. */
    var xAxisKind: Widget

    /** plots_YMax[], and the y scale and x view of each plot. */
    const yMax: array<real>
    const yScales: array<Scale>
    const xViews: array<XView>

    /** Array sizes and the plot-type constants. */
    ghost predicate Shape()
    {
      axis < count && |isDiff| == count &&
      status.Length == count && widgets.Length == count &&
      yMax.Length == count && yScales.Length == count && xViews.Length == count
    }

    /** The cached maxima are never negative, and stay within the cap on difference plots. */
    ghost predicate CacheBounded()
      reads yMax
      requires Shape()
    {
      forall t :: 0 <= t < count ==> 0.0 <= yMax[t] && (isDiff[t] ==> yMax[t] <= DiffCap)
    }

    /** The layout flags of the rows, in type order. */
    function LaidOut(): (flags: seq<bool>)
      reads widgets
      ensures |flags| == widgets.Length
      ensures forall t :: 0 <= t < widgets.Length ==> flags[t] == widgets[t].laidOut
    {
      seq(widgets.Length, t reads widgets requires 0 <= t < widgets.Length => widgets[t].laidOut)
    }

    /** A row is in the vertical layout, in type order, exactly when it has a
        layout, and then its padding, plot and legend (or, on the axis row,
        the combo box) are visible; the axis row's own legend is never shown. */
    ghost predicate Coherent()
      reads this, widgets
      requires Shape()
    {
      rows == Selected(LaidOut(), 0, count) &&
      (forall t :: 0 <= t < count ==>
         widgets[t].padding.visible == widgets[t].laidOut && widgets[t].plot.visible == widgets[t].laidOut &&
         widgets[t].legend.visible == (widgets[t].laidOut && t != axis)) &&
      (widgets[axis].laidOut ==> xAxisKind.visible)
    }

    ghost predicate Valid()
      reads this, widgets, yMax
    {
      Shape() && CacheBounded() && Coherent()
    }

    /** One row's y-axis state, with the buffer's maxima `glueY`. */
    function RowY(glueY: array<real>, t: nat): YState
      reads yMax, glueY, yScales
      requires t < yMax.Length && t < glueY.Length && t < yScales.Length
    {
      YState(yMax[t], glueY[t], yScales[t])
    }

    /** The constructor and Plots_Create: every row wanted, none laid out,
        every widget hidden, zoom scale 1, x axis in seconds, caches at 0. */
    constructor (count: nat, axis: nat, isDiff: seq<bool>)
      requires axis < count && |isDiff| == count
      ensures Valid()
      ensures this.count == count && this.axis == axis && this.isDiff == isDiff
      ensures zoomScale == 1 && xAxisKindIndex == 0 && rows == [] && xAxisKind == HiddenWidget
      ensures forall t :: 0 <= t < count ==> status[t] && widgets[t] == FreshRow
      ensures forall t :: 0 <= t < count ==> yMax[t] == 0.0 && yScales[t] == AutoScale && xViews[t] == WholeRange
      ensures fresh(status) && fresh(widgets) && fresh(yMax) && fresh(yScales) && fresh(xViews)
    {
      this.count := count;
      this.axis := axis;
      this.isDiff := isDiff;
      zoomScale := 1;
      xAxisKindIndex := 0;
      var flags := Filled(count, true);
      var rowWidgets := Filled(count, FreshRow);
      var maxima := Filled(count, 0.0);
      var scales := Filled(count, AutoScale);
      var views := Filled(count, WholeRange);
      status := flags;
      widgets := rowWidgets;
      rows := [];
      xAxisKind := HiddenWidget;
      yMax := maxima;
      yScales := scales;
      xViews := views;
      new;
      SelectedNone(LaidOut(), 0, count);
    }

    /** createData_Update(Type): the y-axis rule on row t; nothing else changes. */
    method CreateDataUpdateType(t: nat, glueY: array<real>, steps: seq<real>)
      requires Shape() && CacheBounded()
      requires t < count && glueY.Length == count && |steps| == count && glueY != yMax
      modifies yMax, glueY, yScales
      ensures CacheBounded()
      ensures RowY(glueY, t) == Update(old(RowY(glueY, t)), isDiff[t], steps[t])
      ensures forall u :: 0 <= u < count && u != t ==> RowY(glueY, u) == old(RowY(glueY, u))
    {
      var st := Update(RowY(glueY, t), isDiff[t], steps[t]);
      yMax[t] := st.cache;
      glueY[t] := st.glue;
      yScales[t] := st.scale;
    }

    /** createData_Update(): the y-axis rule on every visible plot. */
    method CreateDataUpdate(glueY: array<real>, steps: seq<real>)
      requires Shape() && CacheBounded()
      requires glueY.Length == count && |steps| == count && glueY != yMax
      modifies yMax, glueY, yScales
      ensures CacheBounded()
      ensures forall t :: 0 <= t < count ==>
                RowY(glueY, t) == if widgets[t].plot.visible then Update(old(RowY(glueY, t)), isDiff[t], steps[t])
                                  else old(RowY(glueY, t))
    {
      var t := 0;
      while t < count
        invariant 0 <= t <= count
        invariant CacheBounded()
        invariant forall u :: 0 <= u < t ==>
                    RowY(glueY, u) == if widgets[u].plot.visible then Update(old(RowY(glueY, u)), isDiff[u], steps[u])
                                      else old(RowY(glueY, u))
        invariant forall u :: t <= u < count ==> RowY(glueY, u) == old(RowY(glueY, u))
      {
        if widgets[t].plot.visible {
          CreateDataUpdateType(t, glueY, steps);
        }
        t := t + 1;
      }
    }

    /** Zoom_Move(Begin): every plot zooms to the clamped window in the current
        unit, then the y caches are zeroed and the visible plots rescaled. */
    method ZoomMove(begin: nat, frameCount: nat, glueY: array<real>, steps: seq<real>)
      requires Valid() && zoomScale >= 1
      requires glueY.Length == count && |steps| == count && glueY != yMax
      modifies xViews, yMax, glueY, yScales
      ensures Valid()
      ensures var w := WindowWidth(frameCount, zoomScale);
              var b := ClampedBegin(begin, frameCount, w);
              forall t :: 0 <= t < count ==> xViews[t] == ZoomedView(xAxisKindIndex, b, w, old(xViews[t]))
      ensures forall t :: 0 <= t < count ==>
                RowY(glueY, t) == var reset := old(RowY(glueY, t)).(cache := 0.0);
                                  if widgets[t].plot.visible then Update(reset, isDiff[t], steps[t]) else reset
    {
      var increment := WindowWidth(frameCount, zoomScale);
      var first := ClampedBegin(begin, frameCount, increment);
      var t := 0;
      while t < count
        modifies xViews
        invariant 0 <= t <= count
        invariant forall u :: 0 <= u < t ==> xViews[u] == ZoomedView(xAxisKindIndex, first, increment, old(xViews[u]))
        invariant forall u :: t <= u < count ==> xViews[u] == old(xViews[u])
      {
        xViews[t] := ZoomedView(xAxisKindIndex, first, increment, xViews[t]);
        t := t + 1;
      }
      // resetting the y axes
      forall u | 0 <= u < count {
        yMax[u] := 0.0;
      }
      CreateDataUpdate(glueY, steps);
    }

    /** on_XAxis_Kind_currentIndexChanged(index): switch the x unit and zoom
        to a window centred on the current frame. */
    method OnXAxisKindCurrentIndexChanged(index: int, frameCount: nat, framePos: nat,
                                          glueY: array<real>, steps: seq<real>)
      requires Valid() && zoomScale >= 1
      requires glueY.Length == count && |steps| == count && glueY != yMax
      modifies this`xAxisKindIndex, xViews, yMax, glueY, yScales
      ensures Valid() && xAxisKindIndex == index
      ensures var w := WindowWidth(frameCount, zoomScale);
              var b := ClampedBegin(CentredBegin(framePos, w), frameCount, w);
              forall t :: 0 <= t < count ==> xViews[t] == ZoomedView(index, b, w, old(xViews[t]))
      ensures forall t :: 0 <= t < count ==>
                RowY(glueY, t) == var reset := old(RowY(glueY, t)).(cache := 0.0);
                                  if widgets[t].plot.visible then Update(reset, isDiff[t], steps[t]) else reset
    {
      xAxisKindIndex := index;
      // the whole-range x scales set here for kinds 0 and 1 are replaced by the zoom below
      var increment := WindowWidth(frameCount, zoomScale);
      var pos := CentredBegin(framePos, increment);
      ZoomMove(pos, frameCount, glueY, steps);
    }

    /** refreshDisplay(): walk the types in order; a wanted row without a
        layout gets one, inserted after the wanted rows before it, is rescaled
        and shown; an unwanted row is hidden and its layout removed. Then the
        visible plots are rescaled. */
    method RefreshDisplay(glueY: array<real>, steps: seq<real>)
      requires Valid()
      requires glueY.Length == count && |steps| == count && glueY != yMax
      modifies this`rows, this`xAxisKind, widgets, yMax, glueY, yScales
      ensures Valid()
      ensures LaidOut() == status[..]
      ensures rows == Selected(status[..], 0, count)
      ensures forall t :: 0 <= t < count ==>
                var was := old(widgets[t]);
                widgets[t] == Row(status[t], was.padding.(visible := status[t]), was.plot.(visible := status[t]),
                                  was.legend.(visible := status[t] && t != axis))
      ensures xAxisKind == if status[axis] then old(xAxisKind).(visible := true) else old(xAxisKind)
      ensures forall t :: 0 <= t < count ==>
                RowY(glueY, t) == if status[t] then Update(old(RowY(glueY, t)), isDiff[t], steps[t])
                                  else old(RowY(glueY, t))
    {
      WalkRows(glueY, steps);
      assert LaidOut() == status[..];
      CreateDataUpdate(glueY, steps);
      forall u | 0 <= u < count
        ensures RowY(glueY, u) == if status[u] then Update(old(RowY(glueY, u)), isDiff[u], steps[u])
                                  else old(RowY(glueY, u))
      {
        UpdateIdempotent(old(RowY(glueY, u)), isDiff[u], steps[u]);
      }
    }

    /** The walk of refreshDisplay over the plot types, before the final rescale. */
    method WalkRows(glueY: array<real>, steps: seq<real>)
      requires Shape() && CacheBounded() && rows == Selected(LaidOut(), 0, count)
      requires glueY.Length == count && |steps| == count && glueY != yMax
      modifies this`rows, this`xAxisKind, widgets, yMax, glueY, yScales
      ensures CacheBounded()
      ensures rows == Selected(status[..], 0, count)
      ensures forall u :: 0 <= u < count ==> widgets[u] == Walked(old(widgets[u]), status[u], u == axis)
      ensures xAxisKind == if status[axis] && !old(widgets[axis].laidOut) then old(xAxisKind).(visible := true)
                           else old(xAxisKind)
      ensures forall u :: 0 <= u < count ==>
                RowY(glueY, u) == if status[u] && !old(widgets[u].laidOut) then Update(old(RowY(glueY, u)), isDiff[u], steps[u])
                                  else old(RowY(glueY, u))
    {
      ghost var had := LaidOut();
      ghost var shown := status[..];
      ghost var before := widgets[..];
      ghost var combo := xAxisKind;
      ghost var ys := seq(count, u requires 0 <= u < count reads yMax, glueY, yScales => RowY(glueY, u));
      assert rows == Selected(shown, 0, 0) + Selected(had, 0, count);
      var pos := 0;
      var t := 0;
      while t < count
        invariant 0 <= t <= count
        invariant CacheBounded()
        invariant WalkedTo(t, pos, glueY, steps, shown, had, before, combo, ys)
      {
        pos := WalkNext(t, pos, glueY, steps, shown, had, before, combo, ys);
        t := t + 1;
      }
    }

    /** The state of the walk of refreshDisplay after the first t types, from
        the wanted flags `shown`, the layout flags `had`, the rows `before`,
        the combo box `combo` and the y states `ys` it started from. */
    ghost predicate WalkedTo(t: nat, pos: nat, glueY: array<real>, steps: seq<real>, shown: seq<bool>, had: seq<bool>,
                             before: seq<Row>, combo: Widget, ys: seq<YState>)
      reads this, status, widgets, yMax, glueY, yScales
      requires Shape() && glueY.Length == count
    {
      t <= count && shown == status[..] && |had| == count && |before| == count && |ys| == count && |steps| == count &&
      (forall u :: 0 <= u < count ==> had[u] == before[u].laidOut) &&
      pos == |Selected(shown, 0, t)| &&
      rows == Selected(shown, 0, t) + Selected(had, t, count) &&
      (forall u :: 0 <= u < count ==>
         widgets[u] == if u < t then Walked(before[u], shown[u], u == axis) else before[u]) &&
      xAxisKind == (if axis < t && shown[axis] && !had[axis] then combo.(visible := true) else combo) &&
      (forall u :: 0 <= u < count ==>
         RowY(glueY, u) == if u < t && shown[u] && !had[u] then Update(ys[u], isDiff[u], steps[u]) else ys[u])
    }

    /** One turn of the walk of refreshDisplay: row t is walked and, if it is
        wanted, counted among the rows before the next one. */
    method WalkNext(t: nat, pos: nat, glueY: array<real>, steps: seq<real>, ghost shown: seq<bool>, ghost had: seq<bool>,
                    ghost before: seq<Row>, ghost combo: Widget, ghost ys: seq<YState>) returns (next: nat)
      requires Shape() && CacheBounded() && t < count
      requires glueY.Length == count && glueY != yMax
      requires WalkedTo(t, pos, glueY, steps, shown, had, before, combo, ys)
      modifies this`rows, this`xAxisKind, widgets, yMax, glueY, yScales
      ensures CacheBounded()
      ensures WalkedTo(t + 1, next, glueY, steps, shown, had, before, combo, ys)
    {
      WalkStep(shown, had, t, rows, pos);
      WalkRow(t, pos, glueY, steps);
      next := if status[t] then pos + 1 else pos;
    }

    /** One step of the walk of refreshDisplay, on row t with `pos` wanted rows before it. */
    method WalkRow(t: nat, pos: nat, glueY: array<real>, steps: seq<real>)
      requires Shape() && CacheBounded()
      requires t < count && pos <= |rows|
      requires glueY.Length == count && |steps| == count && glueY != yMax
      modifies this`rows, this`xAxisKind, widgets, yMax, glueY, yScales
      ensures CacheBounded()
      ensures rows == RowsAfterStep(old(rows), pos, t, status[t], old(widgets[t].laidOut))
      ensures widgets[t] == Walked(old(widgets[t]), status[t], t == axis)
      ensures forall u :: 0 <= u < count && u != t ==> widgets[u] == old(widgets[u])
      ensures xAxisKind == if t == axis && status[t] && !old(widgets[t].laidOut) then old(xAxisKind).(visible := true)
                           else old(xAxisKind)
      ensures RowY(glueY, t) == if status[t] && !old(widgets[t].laidOut) then Update(old(RowY(glueY, t)), isDiff[t], steps[t])
                                else old(RowY(glueY, t))
      ensures forall u :: 0 <= u < count && u != t ==> RowY(glueY, u) == old(RowY(glueY, u))
    {
      var row := widgets[t];
      if status[t] {
        if !row.laidOut {
          CreateDataUpdateType(t, glueY, steps);
          rows := InsertAt(rows, pos, t);
          var legend := row.legend;
          if t != axis {
            legend := legend.(visible := true);
          } else {
            xAxisKind := xAxisKind.(visible := true);
          }
          widgets[t] := Row(true, row.padding.(visible := true), row.plot.(visible := true), legend);
        }
      } else {
        if row.laidOut {
          rows := RemoveItem(rows, t);
        }
        widgets[t] := Row(false, row.padding.(visible := false), row.plot.(visible := false),
                          row.legend.(visible := false));
      }
    }

    /** refreshDisplay_Axis(): pad every row so that the plot canvases start
        at the same x, and pin the legend column (with the combo box on the
        axis row) to one width. The widths the toolkit reports for the y-axis
        widgets, the legends and the combo box are parameters. */
    method RefreshDisplayAxis(axisWidths: seq<int>, legendWidths: seq<int>, comboWidth: int, win32: bool)
      requires Valid()
      requires |axisWidths| == count && |legendWidths| == count
      modifies this`xAxisKind, widgets
      ensures Valid()
      ensures forall t :: 0 <= t < count ==>
                var pad := ColumnMax(axisWidths) - axisWidths[t];
                widgets[t].padding == old(widgets[t].padding).(minWidth := pad, maxWidth := pad)
      ensures var m := ColumnMax(LegendColumn(legendWidths, comboWidth, axis, win32));
              forall t :: 0 <= t < count ==>
                widgets[t].legend == if t == axis then old(widgets[t].legend)
                                     else old(widgets[t].legend).(minWidth := m, maxWidth := m)
      ensures var m := ColumnMax(LegendColumn(legendWidths, comboWidth, axis, win32));
              var pin := if win32 then m else m + ComboOverlap;
              xAxisKind == old(xAxisKind).(minWidth := pin, maxWidth := pin)
      ensures forall t :: 0 <= t < count ==>
                widgets[t].laidOut == old(widgets[t].laidOut) && widgets[t].plot == old(widgets[t].plot)
      ensures forall t, u :: 0 <= t < count && 0 <= u < count ==>
                axisWidths[t] + widgets[t].padding.minWidth == axisWidths[u] + widgets[u].padding.minWidth
      ensures forall t :: 0 <= t < count ==> widgets[t].padding.minWidth >= 0
      ensures forall t :: 0 <= t < count && t != axis ==> widgets[t].legend.minWidth >= legendWidths[t]
      ensures xAxisKind.minWidth >= comboWidth
    {
      AlignPaddings(axisWidths);
      AlignLegends(legendWidths, comboWidth, win32);
      LegendColumnFits(legendWidths, comboWidth, axis, win32);
      assert LaidOut() == old(LaidOut());
    }

    /** The padding pass of refreshDisplay_Axis. */
    method AlignPaddings(axisWidths: seq<int>)
      requires Shape() && |axisWidths| == count
      modifies widgets
      ensures forall t :: 0 <= t < count ==>
                var pad := ColumnMax(axisWidths) - axisWidths[t];
                widgets[t] == old(widgets[t]).(padding := old(widgets[t].padding).(minWidth := pad, maxWidth := pad))
    {
      var widthMax := WidestOf(axisWidths);
      var t := 0;
      while t < count
        invariant 0 <= t <= count
        invariant forall u :: 0 <= u < count ==>
                    var pad := widthMax - axisWidths[u];
                    widgets[u] == if u < t then old(widgets[u]).(padding := old(widgets[u].padding).(minWidth := pad, maxWidth := pad))
                                  else old(widgets[u])
      {
        var padding := widthMax - axisWidths[t];
        widgets[t] := widgets[t].(padding := widgets[t].padding.(minWidth := padding, maxWidth := padding));
        t := t + 1;
      }
    }

    /** The legend pass of refreshDisplay_Axis. */
    method AlignLegends(legendWidths: seq<int>, comboWidth: int, win32: bool)
      requires Shape() && |legendWidths| == count
      modifies this`xAxisKind, widgets
      ensures var m := ColumnMax(LegendColumn(legendWidths, comboWidth, axis, win32));
              forall t :: 0 <= t < count ==>
                widgets[t] == if t == axis then old(widgets[t])
                              else old(widgets[t]).(legend := old(widgets[t].legend).(minWidth := m, maxWidth := m))
      ensures var m := ColumnMax(LegendColumn(legendWidths, comboWidth, axis, win32));
              var pin := if win32 then m else m + ComboOverlap;
              xAxisKind == old(xAxisKind).(minWidth := pin, maxWidth := pin)
    {
      var widthMax := WidestOf(LegendColumn(legendWidths, comboWidth, axis, win32));
      var comboPin := if win32 then widthMax else widthMax + ComboOverlap;
      var t := 0;
      while t < count
        invariant 0 <= t <= count
        invariant forall u :: 0 <= u < count ==>
                    widgets[u] == if u < t && u != axis
                                  then old(widgets[u]).(legend := old(widgets[u].legend).(minWidth := widthMax, maxWidth := widthMax))
                                  else old(widgets[u])
        invariant xAxisKind == if axis < t then old(xAxisKind).(minWidth := comboPin, maxWidth := comboPin) else old(xAxisKind)
      {
        if t == axis {
          if win32 {
            xAxisKind := xAxisKind.(minWidth := widthMax, maxWidth := widthMax);
          } else {
            xAxisKind := xAxisKind.(minWidth := widthMax + ComboOverlap, maxWidth := widthMax + ComboOverlap);
          }
        } else {
          widgets[t] := widgets[t].(legend := widgets[t].legend.(minWidth := widthMax, maxWidth := widthMax));
        }
        t := t + 1;
      }
    }
  }

  /** A fresh array of n copies of v. */
  method Filled<T>(n: nat, v: T) returns (a: array<T>)
    ensures fresh(a) && a.Length == n
    ensures forall i :: 0 <= i < n ==> a[i] == v
  {
    a := new T[n](_ => v);
  }

  /** No index is selected from flags that are all unset. */
  lemma {:induction false} SelectedNone(flags: seq<bool>, lo: nat, hi: nat)
    requires hi <= |flags|
    requires forall i :: 0 <= i < |flags| ==> !flags[i]
    ensures Selected(flags, lo, hi) == []
    decreases hi - lo
  {
    if lo < hi {
      SelectedNone(flags, lo + 1, hi);
    }
  }
}

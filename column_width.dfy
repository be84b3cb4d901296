// The width bookkeeping of refreshDisplay_Axis: the widest entry of a column
// of widgets, measured from 0 as the source's running maximum starts there.

module ColumnWidth {

  /** The platform correction of the x-axis-kind combo box outside Windows:
      it takes part in the legend column 3 pixels narrower than it is, and is
      pinned 3 pixels wider than the column. */
  const ComboOverlap: int := 3

  /** The running maximum of the widths, starting from 0 (`Width_Max`). */
  function ColumnMax(ws: seq<int>): (m: int)
    ensures m >= 0
    ensures forall i :: 0 <= i < |ws| ==> ws[i] <= m
    ensures m == 0 || exists i :: 0 <= i < |ws| && ws[i] == m
  {
    if ws == [] then 0
    else
      var rest := ColumnMax(ws[..|ws| - 1]);
      if ws[|ws| - 1] > rest then ws[|ws| - 1] else rest
  }

  /** The first pass of refreshDisplay_Axis: one walk over the column keeping
      the widest width seen so far. */
  method WidestOf(ws: seq<int>) returns (m: int)
    ensures m == ColumnMax(ws)
  {
    m := 0;
    var i := 0;
    while i < |ws|
      invariant 0 <= i <= |ws|
      invariant m == ColumnMax(ws[..i])
    {
      assert ws[..i + 1][..i] == ws[..i];
      if ws[i] > m {
        m := ws[i];
      }
      i := i + 1;
    }
    assert ws[..|ws|] == ws;
  }

  /** The widths the legend pass compares: every row's legend, except that the
      axis row contributes the combo box (narrowed by ComboOverlap off Windows). */
  function LegendColumn(legendWidths: seq<int>, comboWidth: int, axis: nat, win32: bool): (c: seq<int>)
    requires axis < |legendWidths|
    ensures |c| == |legendWidths|
    ensures forall t :: 0 <= t < |c| && t != axis ==> c[t] == legendWidths[t]
    ensures c[axis] == if win32 then comboWidth else comboWidth - ComboOverlap
  {
    legendWidths[axis := if win32 then comboWidth else comboWidth - ComboOverlap]
  }

  /** Nothing in the legend column is pinned narrower than it reports: every
      legend off the axis row fits the column width, and the combo box fits
      its pin, the 3-pixel correction off Windows included. */
  lemma LegendColumnFits(legendWidths: seq<int>, comboWidth: int, axis: nat, win32: bool)
    requires axis < |legendWidths|
    ensures var m := ColumnMax(LegendColumn(legendWidths, comboWidth, axis, win32));
            (if win32 then m else m + ComboOverlap) >= comboWidth &&
            forall t :: 0 <= t < |legendWidths| && t != axis ==> m >= legendWidths[t]
  {
  }
}

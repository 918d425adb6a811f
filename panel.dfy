/**
 * The script that ties the layout together: it reads the panel and row
 * settings, derives the ideal window count, and lays out one set of row
 * centres and two rows of x-positions, one for the desired count and one
 * for the ideal count.
 */
module Panel {
  import opened Fourier
  import opened Rows
  import opened Placement

  /** The width of every window, in metres. */
  const WindowWidth: real := 2.0

  /**
   * The input minimums the settings form enforces: a panel at least 10 m
   * wide and 3 m high, at least one desired window, a row spacing of at
   * least 1 m and a non-negative offset.
   */
  predicate SettingsInRange(panelWidth: real, panelHeight: real, desiredWindows: int, rowSpacing: real, offset: real)
  {
    panelWidth >= 10.0 && panelHeight >= 3.0 && desiredWindows >= 1 && rowSpacing >= 1.0 && offset >= 0.0
  }

  /**
   * The whole layout for settings within the form's minimums. The ideal
   * count is at least 2, so neither row divides by zero; each row has
   * exactly as many positions as its count, position j is window j's, and
   * every window lies wholly inside the panel.
   */
  method Layout(trig: Trig, panelWidth: real, panelHeight: real, desiredWindows: int, rowSpacing: real, offset: real)
    returns (rows: seq<real>, idealWindows: int, desiredXs: seq<real>, idealXs: seq<real>)
    requires trig.Valid()
    requires SettingsInRange(panelWidth, panelHeight, desiredWindows, rowSpacing, offset)
    ensures rows == RowCenters(panelHeight, rowSpacing, offset) && |rows| >= 1
    ensures forall y :: y in rows ==> y >= 0.0
    ensures idealWindows == IdealWindows(panelWidth) && idealWindows >= 2
    ensures |desiredXs| == desiredWindows && |idealXs| == idealWindows
    ensures forall j :: 0 <= j < desiredWindows ==>
      desiredXs[j] == XPosition(trig, j, desiredWindows, panelWidth, WindowWidth)
    ensures forall j :: 0 <= j < idealWindows ==>
      idealXs[j] == XPosition(trig, j, idealWindows, panelWidth, WindowWidth)
    ensures forall x :: x in desiredXs + idealXs ==> 1.0 <= x <= panelWidth - 1.0
  {
    idealWindows := IdealWindows(panelWidth);
    IdealWindowsPositive(panelWidth);
    rows := RowCenters(panelHeight, rowSpacing, offset);
    RowsNonNegative(panelHeight, rowSpacing, offset);
    desiredXs := ComputeXPositions(trig, panelWidth, WindowWidth, desiredWindows);
    idealXs := ComputeXPositions(trig, panelWidth, WindowWidth, idealWindows);
  }
}

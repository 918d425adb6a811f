/**
 * The horizontal layout of one row: num windows, each centred in its own
 * equal cell of the panel width, shifted by the normalised series sampled
 * at the matching point of one period, then clamped so that the window
 * body stays inside the panel.
 */
module Placement {
  import opened Fourier

  /** How far, in metres, one unit of the normalised series moves a window. */
  const DisplacementFactor: real := 1.0

  /**
   * The centre of cell j when span is cut into num equal cells. It is the
   * base position of window j (span = panel width) and its modulation
   * parameter u (span = one period, 2 pi).
   */
  function CellCentre(j: int, num: int, span: real): real
    requires num >= 1
  {
    (j as real + 0.5) * (span / num as real)
  }

  /** Cell centre j lies strictly inside cell j, hence strictly inside (0, span). */
  lemma CellCentreInCell(j: int, num: int, span: real)
    requires num >= 1 && span > 0.0 && 0 <= j < num
    ensures j as real * (span / num as real) < CellCentre(j, num, span) < (j + 1) as real * (span / num as real)
    ensures 0.0 < CellCentre(j, num, span) < span
  {
    var w := span / num as real;
    assert w > 0.0;
    assert CellCentre(j, num, span) - j as real * w == 0.5 * w;
    assert (j + 1) as real * w - CellCentre(j, num, span) == 0.5 * w;
    assert num as real * w == span;
    assert num as real * w - (j + 1) as real * w == (num - j - 1) as real * w;
    assert (num - j - 1) as real * w >= 0.0;
    assert j as real * w >= 0.0;
  }

  /** Cell centres are strictly increasing, at least one cell width apart. */
  lemma CellCentreAscending(j: int, k: int, num: int, span: real)
    requires num >= 1 && span > 0.0 && 0 <= j < k < num
    ensures CellCentre(k, num, span) - CellCentre(j, num, span) >= span / num as real
    ensures CellCentre(j, num, span) < CellCentre(k, num, span)
  {
    var w := span / num as real;
    assert w > 0.0;
    assert CellCentre(k, num, span) - CellCentre(j, num, span) == (k - j) as real * w;
    assert (k - j) as real * w - w == (k - j - 1) as real * w;
    assert (k - j - 1) as real * w >= 0.0;
  }

  /** The default row of five windows on a 50 m panel has its cells centred at 5, 15, 25, 35 and 45 m. */
  lemma DefaultBasePositions()
    ensures forall j :: 0 <= j < 5 ==> CellCentre(j, 5, 50.0) == 10.0 * j as real + 5.0
  {
  }

  /** The modulation parameter u of every window lies strictly inside (0, 2 pi). */
  lemma ModulationParameterInPeriod(j: int, num: int)
    requires num >= 1 && 0 <= j < num
    ensures 0.0 < CellCentre(j, num, Period) < Period
  {
    CellCentreInCell(j, num, Period);
  }

  /**
   * The clamp in compute_x_positions: below half a window width the position is
   * raised to it, otherwise above the panel width less half a window it is
   * lowered to that. The result is the input or one of the two bounds; it
   * lies within the bounds whenever the window fits the panel, and it is
   * the input itself whenever the input already lies within them.
   */
  function Clamp(x: real, windowWidth: real, panelWidth: real): (r: real)
    ensures r == x || r == windowWidth / 2.0 || r == panelWidth - windowWidth / 2.0
    ensures windowWidth <= panelWidth ==> windowWidth / 2.0 <= r <= panelWidth - windowWidth / 2.0
    ensures windowWidth / 2.0 <= x <= panelWidth - windowWidth / 2.0 ==> r == x
    ensures x < windowWidth / 2.0 ==> r == windowWidth / 2.0
    ensures windowWidth / 2.0 <= x && x > panelWidth - windowWidth / 2.0 ==> r == panelWidth - windowWidth / 2.0
  {
    var halfW := windowWidth / 2.0;
    if x < halfW then halfW
    else if x > panelWidth - halfW then panelWidth - halfW
    else x
  }

  /**
   * A window wider than the panel: whatever the clamp returns, the window
   * body sticks out of the panel on one side.
   */
  lemma ClampWideWindow(x: real, windowWidth: real, panelWidth: real)
    requires windowWidth > panelWidth
    ensures var r := Clamp(x, windowWidth, panelWidth);
      r - windowWidth / 2.0 < 0.0 || r + windowWidth / 2.0 > panelWidth
  {
  }

  /** The clamp never reverses the order of two positions. */
  lemma ClampMonotone(x: real, y: real, windowWidth: real, panelWidth: real)
    requires windowWidth <= panelWidth && x <= y
    ensures Clamp(x, windowWidth, panelWidth) <= Clamp(y, windowWidth, panelWidth)
  {
  }

  /**
   * x_modulated of window j before clamping: its base position shifted by
   * the displacement factor times the normalised series at u. It stays
   * within MaxModulation (about 1.03 m) of the base position.
   */
  function ModulatedX(trig: Trig, j: int, num: int, panelWidth: real): (x: real)
    requires trig.Valid() && num >= 1
    ensures -MaxModulation <= x - CellCentre(j, num, panelWidth) <= MaxModulation
  {
    CellCentre(j, num, panelWidth) + DisplacementFactor * NormalizedF(trig, CellCentre(j, num, Period))
  }

  /** The final x-coordinate of window j of num: its modulated position, clamped. */
  function XPosition(trig: Trig, j: int, num: int, panelWidth: real, windowWidth: real): real
    requires trig.Valid() && num >= 1
  {
    Clamp(ModulatedX(trig, j, num, panelWidth), windowWidth, panelWidth)
  }

  /**
   * The body of the loop in compute_x_positions: base position, modulation
   * parameter, modulated position, then the clamp, for window j of num.
   */
  method PlaceWindow(trig: Trig, j: int, num: int, panelWidth: real, windowWidth: real)
    returns (x: real)
    requires trig.Valid() && num >= 1
    ensures x == XPosition(trig, j, num, panelWidth, windowWidth)
  {
    var baseX := (j as real + 0.5) * (panelWidth / num as real);
    var u := (j as real + 0.5) * (2.0 * Pi / num as real);
    assert baseX == CellCentre(j, num, panelWidth);
    assert u == CellCentre(j, num, Period);
    var modulation := NormalizedF(trig, u);
    x := baseX + DisplacementFactor * modulation;
    assert x == ModulatedX(trig, j, num, panelWidth);
    var halfW := windowWidth / 2.0;
    if x < halfW {
      x := halfW;
    } else if x > panelWidth - halfW {
      x := panelWidth - halfW;
    }
  }

  /**
   * compute_x_positions: one position per window, in window order. The
   * loop runs over range(num), so a count of zero or less yields no
   * position and divides by nothing.
   */
  method ComputeXPositions(trig: Trig, panelWidth: real, windowWidth: real, num: int)
    returns (positions: seq<real>)
    requires trig.Valid()
    ensures |positions| == (if num < 0 then 0 else num) && forall j :: 0 <= j < |positions| ==>
      positions[j] == XPosition(trig, j, num, panelWidth, windowWidth)
    ensures windowWidth <= panelWidth ==> forall j :: 0 <= j < |positions| ==>
      windowWidth / 2.0 <= positions[j] <= panelWidth - windowWidth / 2.0
  {
    positions := [];
    var j := 0;
    while j < num
      invariant 0 <= j <= if num < 0 then 0 else num
      invariant |positions| == j
      invariant forall k :: 0 <= k < j ==> positions[k] == XPosition(trig, k, num, panelWidth, windowWidth)
    {
      var x := PlaceWindow(trig, j, num, panelWidth, windowWidth);
      positions := positions + [x];
      j := j + 1;
    }
  }

  /**
   * Two windows of one row keep their order when the cells are wider than
   * twice the largest shift (2 * 1.0301 m): modulation and clamp never
   * make windows cross.
   */
  lemma XPositionOrdered(trig: Trig, j: int, k: int, num: int, panelWidth: real, windowWidth: real)
    requires trig.Valid() && num >= 1 && 0 <= j < k < num
    requires windowWidth <= panelWidth && panelWidth / num as real >= 2.0602
    ensures XPosition(trig, j, num, panelWidth, windowWidth) <= XPosition(trig, k, num, panelWidth, windowWidth)
  {
    CellCentreAscending(j, k, num, panelWidth);
    var xj, xk := ModulatedX(trig, j, num, panelWidth), ModulatedX(trig, k, num, panelWidth);
    assert MaxModulation < 1.0301;
    ClampMonotone(xj, xk, windowWidth, panelWidth);
  }
}

# Window placement on a panel, modulated by a mean Fourier series

This project models the layout engine of a small panel-design app. The app
places rows of windows on a rectangular panel. Vertically, row centres start
at a floor offset and repeat every row spacing up to the panel height.
Horizontally, each row of `num` windows divides the panel width into `num`
equal cells. Each window sits at its cell centre, shifted by a fixed
three-term trigonometric series (the "mean Fourier series") sampled at the
matching point of one period. The shifted position is then clamped so that
the window body stays inside the panel. The app draws two panels, each using
one x-position list on every row: one list for the count the user asks for,
and one for the "ideal" count, `round(panel width / 2π)`.

The model has four modules, one per part of the script:

- `Fourier` (`fourier.dfy`): the series `f`, its normalisation
  `normalized_f`, Python's `round`, and the ideal window count.
- `Rows` (`rows.dfy`): the row-centre block, lifted into the function
  `RowCenters(panelHeight, rowSpacing, offset)`.
- `Placement` (`placement.dfy`): `compute_x_positions` as a loop method
  (`ComputeXPositions`) whose body is `PlaceWindow`. It is proved against `XPosition`, the per-window
  specification built from `CellCentre`, `ModulatedX` and `Clamp`.
- `Panel` (`panel.dfy`): the script's composition (`Layout`). The settings
  form's minimum values become its precondition.

Modelling choices:

- Numbers are Dafny `real`s, so every statement is exact.
- Cosine and sine are not interpreted. They are passed in as a `Trig` pair
  of real functions, and `Trig.Valid()` requires their values to lie in
  [-1, 1]. Every property holds for any such pair.
- π is the 16-digit decimal printout of `np.pi`, 3.141592653589793, not
  the exact binary double; the two differ by less than 1e-15. `PiBounds`
  proves that it lies between 3.14 and 3.15.
- `round` is Python 3's round-half-to-even, modelled exactly.

Two behaviours of the code worth noting:

- When the panel is lower than the offset (and at least one spacing high),
  app22.py:48-53 yields the single row `[offset]`, which lies above the
  panel (`RowsAbovePanel`).
- `compute_x_positions(0)` does not divide by zero: the division at
  app22.py:62 is inside the loop over `range(num)` at line 61, so a count of
  zero (or less) returns an empty list (`ComputeXPositions`). For panels at least 10 m wide the ideal count
  is at least 2 anyway (`IdealWindowsPositive`).

## Model

| member | source | states |
|---|---|---|
| `Fourier.PiBounds` | app22.py:37 | The π used for the period lies in (3.14, 3.15), so the period 2π lies in (6.28, 6.3). |
| `Fourier.F` | app22.py:12-16 | For any cosine and sine with values in [-1, 1], f(x) stays within 0.07663636 + 0.17145455 + 1.8216 of its constant term 2.79909091. |
| `Fourier.NormalizedF` | app22.py:18-20 | normalized_f is bounded in magnitude by (0.07663636 + 0.17145455 + 1.8216) / 2.00938, below 1.0301. This is the precise form of "roughly in [-1, 1]". |
| `Fourier.RoundHalfEven` | app22.py:38 | The result of round is an integer within 0.5 of its argument, and it is even on an exact tie. |
| `Fourier.RoundHalfEvenUnique` | app22.py:38 | Those two properties determine round's result uniquely. |
| `Fourier.IdealWindowsPositive` | app22.py:37-38 | With the form's minimum width of 10 m (line 26), ideal_windows is at least 2. So `compute_x_positions(ideal_windows)` divides by a non-zero count at line 62. |
| `Fourier.IdealWindowsMinimumPanel` | app22.py:37-38 | A 10 m panel gets exactly 2 ideal windows. |
| `Fourier.IdealWindowsWholePeriods` | app22.py:36-38 | A panel exactly k periods wide (k ≥ 0) gets exactly k ideal windows. |
| `Fourier.IdealWindowsNarrow` | app22.py:37-38 | A panel at most π wide gets 0 ideal windows. This is the latent edge case that the 10 m minimum excludes. |
| `Rows.RowCenters` | app22.py:47-53 | For a positive row spacing, the row list is never empty and is strictly ascending. |
| `Rows.RowsRegular` | app22.py:48-51 | Suppose spacing ≤ height and offset ≤ height. Then there are floor((height − offset)/spacing) + 1 rows, and row i is offset + i·spacing. Every row lies in [offset, height]. |
| `Rows.RowsFallbackCentred` | app22.py:52-53 | A panel lower than one spacing gets exactly `[height/2]`, whatever the offset. This override wins over the one at line 49. |
| `Rows.RowsAbovePanel` | app22.py:48-51 | A panel at least one spacing high but lower than the offset gets exactly `[offset]`. That single row lies above the panel height. |
| `Rows.RowsNonNegative` | app22.py:48-53 | With a non-negative height and offset, every row centre is non-negative. |
| `Rows.RowsDefault` | app22.py:48-53 | The default inputs (height 15, spacing 3.2, offset 2.3) give the rows [2.3, 5.5, 8.7, 11.9]. |
| `Placement.CellCentreInCell` | app22.py:62 | For num ≥ 1, base_x of window j lies strictly inside cell j, (j·w, (j+1)·w) with w = panel_width/num. So it lies strictly inside (0, panel_width). |
| `Placement.CellCentreAscending` | app22.py:62 | Base positions are strictly increasing in j, at least one cell width apart. |
| `Placement.DefaultBasePositions` | app22.py:62 | Five windows on a 50 m panel have base positions 5, 15, 25, 35 and 45 m. |
| `Placement.ModulationParameterInPeriod` | app22.py:64 | The modulation parameter u of every window lies strictly inside (0, 2π). |
| `Placement.Clamp` | app22.py:67-72 | The clamp returns its input or one of the two bounds. It lies in [window_width/2, panel_width − window_width/2] whenever window_width ≤ panel_width. It returns its input unchanged when the input is already within those bounds. Below window_width/2 it returns window_width/2; otherwise, above panel_width − window_width/2 it returns panel_width − window_width/2, whatever the window width. |
| `Placement.ClampWideWindow` | app22.py:68-72 | When the window is wider than the panel, the clamp guarantees nothing: the clamped window body always sticks out of [0, panel_width]. |
| `Placement.ClampMonotone` | app22.py:68-72 | For a window that fits the panel, the clamp preserves the order of positions. |
| `Placement.ModulatedX` | app22.py:62-66 | x_modulated is within (0.07663636 + 0.17145455 + 1.8216) / 2.00938 m of base_x. |
| `Placement.PlaceWindow` | app22.py:62-72 | One pass of the loop body (base_x, u, mod, x_modulated and the clamp) yields exactly the specified clamped, modulated position of window j. |
| `Placement.ComputeXPositions` | app22.py:58-74 | Returns exactly max(num, 0) positions. Position j is the clamped, modulated position of window j, in index order. For a window no wider than the panel, every position lies in [window_width/2, panel_width − window_width/2]. |
| `Placement.XPositionOrdered` | app22.py:61-73 | When cells are at least 2.0602 m wide, modulation and clamping never swap two windows of a row. |
| `Panel.Layout` | app22.py:26-77 | For settings within the form's minimums, ideal_windows ≥ 2 and the row list is non-empty and non-negative. Both x-position lists have their counts, and every position lies in [1, panel_width − 1], so each 2 m window fits inside the panel. |

## Left out

- The Streamlit page, title and sidebar (lines 6-7, 25-31, 39) are user-interface input collection. The sidebar minimums become the precondition `SettingsInRange` of `Panel.Layout`.
- `draw_panel` and the matplotlib figure (lines 79-110) only draw the computed positions. The window height (line 45) is used only there.
- Floating-point arithmetic is not modelled. All arithmetic is on exact reals, so rounding in `floor`, in the division by `row_spacing` and in the sums of the series can differ from IEEE doubles near boundaries.
- numpy's actual `cos` and `sin` values are not modelled. Every property is stated for any cosine and sine bounded by [-1, 1], so the tighter range that the real trigonometric functions give `normalized_f` is not captured.
- π is the 16-digit decimal printout of `np.pi`, not the exact binary double. The two differ by less than 1e-15.
- Fourier.F: states only the range of f, not its periodicity. Periodicity would need interpreted trigonometric functions.

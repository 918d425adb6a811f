/**
 * The vertical layout: the centres of the window rows, from the panel
 * height, the spacing between rows and the offset of the first row from
 * the floor.
 */
module Rows {

  /**
   * The row centres. The row count is the number of spacings that fit
   * between the offset and the panel height, plus one; it is overridden
   * to 1 when the panel is lower than the offset, and the whole list is
   * then replaced by a single centred row when the panel is lower than one
   * spacing. The second override is tested last, so it wins over the first.
   */
  function RowCenters(panelHeight: real, rowSpacing: real, offset: real): (rows: seq<real>)
    requires rowSpacing > 0.0
    ensures |rows| >= 1
    ensures forall i, k :: 0 <= i < k < |rows| ==> rows[i] < rows[k]
  {
    var counted := ((panelHeight - offset) / rowSpacing).Floor + 1;
    var numRows := if panelHeight < offset then 1 else counted;
    assert numRows >= 1 by {
      if panelHeight >= offset {
        assert (panelHeight - offset) / rowSpacing >= 0.0;
      }
    }
    var regular := seq(numRows, i => offset + i as real * rowSpacing);
    assert forall i, k :: 0 <= i < k < numRows ==> regular[i] < regular[k] by {
      forall i, k | 0 <= i < k < numRows ensures regular[i] < regular[k] {
        var below, above := i as real * rowSpacing, k as real * rowSpacing;
        ScaleStrict(i as real, k as real, rowSpacing);
        assert regular[i] == offset + below && regular[k] == offset + above;
      }
    }
    if panelHeight < rowSpacing then [panelHeight / 2.0] else regular
  }

  /** Multiplying by a positive factor keeps a strict order. */
  lemma ScaleStrict(a: real, b: real, s: real)
    requires a < b && s > 0.0
    ensures a * s < b * s
  {
    assert b * s - a * s == (b - a) * s;
  }

  /** The integral part of a quotient, scaled back, does not exceed the dividend. */
  lemma FloorScaledBack(d: real, s: real)
    requires d >= 0.0 && s > 0.0
    ensures (d / s).Floor as real * s <= d
  {
    var q := d / s;
    assert q * s == d;
    var fl := q.Floor as real;
    assert fl <= q;
    assert q * s - fl * s == (q - fl) * s;
  }

  /**
   * The regular case: when the panel is at least one spacing high and not
   * lower than the offset, there are floor((height - offset) / spacing) + 1
   * rows, row i is centred at offset + i * spacing, and every centre lies
   * between the offset and the panel height.
   */
  lemma RowsRegular(panelHeight: real, rowSpacing: real, offset: real)
    requires rowSpacing > 0.0
    requires rowSpacing <= panelHeight && offset <= panelHeight
    ensures var rows := RowCenters(panelHeight, rowSpacing, offset);
      && |rows| == ((panelHeight - offset) / rowSpacing).Floor + 1
      && (forall i :: 0 <= i < |rows| ==> rows[i] == offset + i as real * rowSpacing)
      && (forall i :: 0 <= i < |rows| ==> offset <= rows[i] <= panelHeight)
  {
    var rows := RowCenters(panelHeight, rowSpacing, offset);
    var last := ((panelHeight - offset) / rowSpacing).Floor;
    FloorScaledBack(panelHeight - offset, rowSpacing);
    assert |rows| == last + 1;
    forall i | 0 <= i < |rows|
      ensures offset <= rows[i] <= panelHeight
    {
      assert rows[i] == offset + i as real * rowSpacing;
      if i < last {
        ScaleStrict(i as real, last as real, rowSpacing);
      }
    }
  }

  /** A panel lower than one spacing gets one row at half its height, whatever the offset. */
  lemma RowsFallbackCentred(panelHeight: real, rowSpacing: real, offset: real)
    requires rowSpacing > 0.0 && panelHeight < rowSpacing
    ensures RowCenters(panelHeight, rowSpacing, offset) == [panelHeight / 2.0]
  {
  }

  /**
   * A panel at least one spacing high but lower than the offset gets a
   * single row at the offset, which lies above the panel.
   */
  lemma RowsAbovePanel(panelHeight: real, rowSpacing: real, offset: real)
    requires rowSpacing > 0.0 && rowSpacing <= panelHeight < offset
    ensures RowCenters(panelHeight, rowSpacing, offset) == [offset]
    ensures RowCenters(panelHeight, rowSpacing, offset)[0] > panelHeight
  {
  }

  /** With a non-negative height and offset, no row centre is below the floor. */
  lemma RowsNonNegative(panelHeight: real, rowSpacing: real, offset: real)
    requires rowSpacing > 0.0 && panelHeight >= 0.0 && offset >= 0.0
    ensures forall y :: y in RowCenters(panelHeight, rowSpacing, offset) ==> y >= 0.0
  {
    if rowSpacing <= panelHeight && offset <= panelHeight {
      RowsRegular(panelHeight, rowSpacing, offset);
    }
  }

  /** The default inputs (15 m panel, 3.2 m spacing, 2.3 m offset) give four rows. */
  lemma RowsDefault()
    ensures RowCenters(15.0, 3.2, 2.3) == [2.3, 5.5, 8.7, 11.9]
  {
    assert ((15.0 - 2.3) / 3.2).Floor == 3;
  }
}

/**
 * The mean Fourier series that modulates the window positions, its
 * normalisation, and the "ideal" window count derived from its period.
 *
 * The trigonometric functions are not interpreted: cosine and sine are
 * passed in as a pair of arbitrary real functions whose values lie in
 * [-1, 1], and every property below holds for any such pair.
 */
module Fourier {

  /** The cosine and sine the series is evaluated with. */
  datatype Trig = Trig(cos: real -> real, sin: real -> real) {
    /** Both functions take their values in [-1, 1]. */
    ghost predicate Valid() {
      (forall x :: -1.0 <= cos(x) <= 1.0) && (forall x :: -1.0 <= sin(x) <= 1.0)
    }
  }

  /** The constant term of the series; the normalisation subtracts it. */
  const Mean: real := 2.79909091
  /** The sum of the absolute values of the three trigonometric coefficients. */
  const Amplitude: real := 0.07663636 + 0.17145455 + 1.8216
  /** The largest magnitude of the normalised series: Amplitude over the divisor 2.00938. */
  const MaxModulation: real := (0.07663636 + 0.17145455 + 1.8216) / 2.00938

  /**
   * The 16-digit decimal printout of the floating-point pi the series is
   * evaluated with; it differs from that binary double by less than 1e-15.
   */
  const Pi: real := 3.141592653589793

  /** The period of the series, 2 pi. */
  const Period: real := 2.0 * Pi

  /** The modelled pi and period lie where pi and 2 pi lie; the ideal-count lemmas rest on these bounds. */
  lemma PiBounds()
    ensures 3.14 < Pi < 3.15
    ensures 6.28 < Period < 6.3
  {
  }

  /** The three-term series f(x); it stays within Amplitude of its mean. */
  function F(trig: Trig, x: real): (r: real)
    requires trig.Valid()
    ensures Mean - Amplitude <= r <= Mean + Amplitude
  {
    var c1, s1, c2 := trig.cos(x), trig.sin(x), trig.cos(2.0 * x);
    Mean + 0.07663636 * c1 - 0.17145455 * s1 + 1.8216 * c2
  }

  /**
   * normalized_f: f shifted by its mean and divided by 2.00938. Its
   * magnitude is at most MaxModulation, slightly above 1 (about 1.03).
   */
  function NormalizedF(trig: Trig, x: real): (r: real)
    requires trig.Valid()
    ensures -MaxModulation <= r <= MaxModulation
    ensures -1.0301 < r < 1.0301
  {
    (F(trig, x) - Mean) / 2.00938
  }

  /**
   * Python's built-in round on a float: the nearest integer, and on an
   * exact tie between two integers the even one.
   */
  function RoundHalfEven(r: real): (n: int)
    ensures -0.5 <= n as real - r <= 0.5
    ensures (n as real - r == 0.5 || r - n as real == 0.5) ==> n % 2 == 0
  {
    var fl := r.Floor;
    var frac := r - fl as real;
    if frac < 0.5 then fl
    else if frac > 0.5 then fl + 1
    else if fl % 2 == 0 then fl
    else fl + 1
  }

  /** The contract of RoundHalfEven determines its result uniquely. */
  lemma RoundHalfEvenUnique(r: real, m: int)
    requires -0.5 <= m as real - r <= 0.5
    requires (m as real - r == 0.5 || r - m as real == 0.5) ==> m % 2 == 0
    ensures m == RoundHalfEven(r)
  {
  }

  /** ideal_windows: the panel width measured in periods of the series, rounded. */
  function IdealWindows(panelWidth: real): (n: int)
  {
    RoundHalfEven(panelWidth / Period)
  }

  /**
   * With the input minimum panel width of 10 m the ideal count is positive
   * (in fact at least 2), so laying out that many windows divides by a
   * non-zero count.
   */
  lemma IdealWindowsPositive(panelWidth: real)
    requires panelWidth >= 10.0
    ensures IdealWindows(panelWidth) >= 2
  {
    PiBounds();
    var q := panelWidth / Period;
    assert q * Period == panelWidth;
    assert q > 1.5;
  }

  /** The narrowest panel the inputs allow, 10 m, gets two windows. */
  lemma IdealWindowsMinimumPanel()
    ensures IdealWindows(10.0) == 2
  {
    PiBounds();
    var q := 10.0 / Period;
    assert q * Period == 10.0;
    assert 1.5 < q < 2.5;
    RoundHalfEvenUnique(q, 2);
  }

  /** A panel exactly k periods wide gets exactly k windows. */
  lemma IdealWindowsWholePeriods(k: nat)
    ensures IdealWindows(Period * k as real) == k
  {
    assert Period * k as real / Period == k as real;
    RoundHalfEvenUnique(k as real, k);
  }

  /**
   * A panel at most pi wide would get no window at all: the latent edge
   * case that the 10 m input minimum keeps out of reach.
   */
  lemma IdealWindowsNarrow(panelWidth: real)
    requires 0.0 <= panelWidth <= Pi
    ensures IdealWindows(panelWidth) == 0
  {
    var q := panelWidth / Period;
    assert q * Period == panelWidth;
    assert 0.0 <= q <= 0.5;
    RoundHalfEvenUnique(q, 0);
  }
}

/** The duty-cycle curve that `loop` applies to each temperature: clamp
    below and above the curve's temperature range, interpolate in between.
    Temperatures are exact integers of millidegrees Celsius. */
module Curve {

  /** The fixed duty range the interpolation scales to (`p * 255`). */
  const FullScale: int := 255

  /** One channel's configuration: `*_MIN_TEMP`, `*_MAX_TEMP` (°C),
      `*_MIN_FAN`, `*_MAX_FAN` (duty). */
  datatype FanCurve = FanCurve(minTemp: int, maxTemp: int, minFan: int, maxFan: int) {
    predicate WellFormed() {
      minTemp < maxTemp
    }

    /** Both clamp values are themselves duties. */
    predicate ClampsInRange() {
      0 <= minFan <= FullScale && 0 <= maxFan <= FullScale
    }
  }

  /** CPU_MIN_TEMP, CPU_MAX_TEMP, CPU_MIN_FAN, CPU_MAX_FAN. */
  const CpuCurve := FanCurve(45, 75, 0, 255)
  /** GPU_MIN_TEMP, GPU_MAX_TEMP, GPU_MIN_FAN, GPU_MAX_FAN. */
  const GpuCurve := FanCurve(40, 75, 0, 255)

  /** The duty for temperature `milli` / 1000 °C. The middle branch is
      `int((t - MIN) / (MAX - MIN) * 255)` computed exactly: its operand is
      never negative there, so truncation is floor division. It scales to
      0..255 and ignores `minFan` and `maxFan`, as the script does. Where
      255·(t - MIN)/(MAX - MIN) is a whole number, the script's float
      product may lie just below it, and `int()` then gives one less than
      this exact floor. */
  function Duty(c: FanCurve, milli: int): int
    requires c.WellFormed()
  {
    if milli < 1000 * c.minTemp then c.minFan
    else if milli > 1000 * c.maxTemp then c.maxFan
    else ((milli - 1000 * c.minTemp) * FullScale) / (1000 * (c.maxTemp - c.minTemp))
  }

  /** Floor division is characterised by its two bounds. */
  lemma FloorDivBounds(x: int, d: int)
    requires d > 0
    ensures (x / d) * d <= x < (x / d + 1) * d
  {
  }

  lemma FloorDivUnique(x: int, d: int, q: int)
    requires d > 0 && q * d <= x < (q + 1) * d
    ensures q == x / d
  {
    FloorDivBounds(x, d);
  }

  lemma FloorDivMonotone(x: int, y: int, d: int)
    requires d > 0 && x <= y
    ensures x / d <= y / d
  {
    FloorDivBounds(x, d);
    FloorDivBounds(y, d);
  }

  lemma DutyBelowRange(c: FanCurve, milli: int)
    requires c.WellFormed() && milli < 1000 * c.minTemp
    ensures Duty(c, milli) == c.minFan
  {
  }

  lemma DutyAboveRange(c: FanCurve, milli: int)
    requires c.WellFormed() && milli > 1000 * c.maxTemp
    ensures Duty(c, milli) == c.maxFan
  {
  }

  /** Inside the range (both ends included) the duty is the largest d with
      d / 255 <= (t - minTemp) / (maxTemp - minTemp), and lies in 0..255. */
  lemma DutyInterpolates(c: FanCurve, milli: int)
    requires c.WellFormed() && 1000 * c.minTemp <= milli <= 1000 * c.maxTemp
    ensures var d, span := Duty(c, milli), 1000 * (c.maxTemp - c.minTemp);
      && 0 <= d <= FullScale
      && d * span <= (milli - 1000 * c.minTemp) * FullScale < (d + 1) * span
  {
    var x, span := (milli - 1000 * c.minTemp) * FullScale, 1000 * (c.maxTemp - c.minTemp);
    FloorDivBounds(x, span);
    FloorDivMonotone(0, x, span);
    FloorDivMonotone(x, span * FullScale, span);
    assert (span * FullScale) / span == FullScale by {
      FloorDivUnique(span * FullScale, span, FullScale);
    }
  }

  /** Both ends of the range take the interpolation branch: the duty is 0 at
      minTemp and 255 at maxTemp. */
  lemma DutyAtEnds(c: FanCurve)
    requires c.WellFormed()
    ensures Duty(c, 1000 * c.minTemp) == 0
    ensures Duty(c, 1000 * c.maxTemp) == FullScale
  {
    var span := 1000 * (c.maxTemp - c.minTemp);
    FloorDivUnique(span * FullScale, span, FullScale);
    assert 1000 * c.maxTemp - 1000 * c.minTemp == span;
  }

  /** For a whole number of degrees the millidegree formula is the script's
      `int((t - MIN) / (MAX - MIN) * 255)` over integers. */
  lemma DutyOfDegrees(c: FanCurve, t: int)
    requires c.WellFormed()
    ensures Duty(c, 1000 * t) ==
      if t < c.minTemp then c.minFan
      else if t > c.maxTemp then c.maxFan
      else ((t - c.minTemp) * FullScale) / (c.maxTemp - c.minTemp)
  {
    if c.minTemp <= t <= c.maxTemp {
      var x, d := (t - c.minTemp) * FullScale, c.maxTemp - c.minTemp;
      var q := x / d;
      FloorDivBounds(x, d);
      assert q * (1000 * d) <= 1000 * x < (q + 1) * (1000 * d);
      assert (1000 * t - 1000 * c.minTemp) * FullScale == 1000 * x;
      FloorDivUnique(1000 * x, 1000 * d, q);
    }
  }

  /** Every duty is 0..255 when the clamp values are. */
  lemma DutyInRange(c: FanCurve, milli: int)
    requires c.WellFormed() && c.ClampsInRange()
    ensures 0 <= Duty(c, milli) <= FullScale
  {
    if 1000 * c.minTemp <= milli <= 1000 * c.maxTemp {
      DutyInterpolates(c, milli);
    }
  }

  /** The duty never falls as the temperature rises. */
  ghost predicate Monotone(c: FanCurve)
    requires c.WellFormed()
  {
    forall m1, m2 :: m1 <= m2 ==> Duty(c, m1) <= Duty(c, m2)
  }

  /** The curve is monotone exactly when its clamp values do not undercut
      the interpolation: minFan <= 0 and maxFan >= 255. The middle branch
      ignores minFan and maxFan, so any other choice makes the duty jump
      down at one end of the range. */
  lemma MonotoneIff(c: FanCurve)
    requires c.WellFormed()
    ensures Monotone(c) <==> c.minFan <= 0 && FullScale <= c.maxFan
  {
    var lo, hi := 1000 * c.minTemp, 1000 * c.maxTemp;
    DutyAtEnds(c);
    if c.minFan <= 0 && FullScale <= c.maxFan {
      forall m1, m2 | m1 <= m2 ensures Duty(c, m1) <= Duty(c, m2) {
        if lo <= m1 <= hi { DutyInterpolates(c, m1); }
        if lo <= m2 <= hi { DutyInterpolates(c, m2); }
        if lo <= m1 && m2 <= hi {
          FloorDivMonotone((m1 - lo) * FullScale, (m2 - lo) * FullScale, 1000 * (c.maxTemp - c.minTemp));
        }
      }
    } else if c.minFan > 0 {
      assert Duty(c, lo - 1) > Duty(c, lo);
    } else {
      assert Duty(c, hi) > Duty(c, hi + 1);
    }
  }

  /** The configured curves write only duties 0..255 and never decrease. */
  lemma ConfiguredCurves()
    ensures CpuCurve.WellFormed() && GpuCurve.WellFormed()
    ensures forall m :: 0 <= Duty(CpuCurve, m) <= FullScale && 0 <= Duty(GpuCurve, m) <= FullScale
    ensures Monotone(CpuCurve) && Monotone(GpuCurve)
  {
    forall m ensures 0 <= Duty(CpuCurve, m) <= FullScale && 0 <= Duty(GpuCurve, m) <= FullScale {
      DutyInRange(CpuCurve, m);
      DutyInRange(GpuCurve, m);
    }
    MonotoneIff(CpuCurve);
    MonotoneIff(GpuCurve);
  }

  /** The worked values: CPU at 60 °C gives 127 (half of 255, rounded down),
      44 °C gives 0 and 76 °C gives 255. */
  lemma CpuExamples()
    ensures Duty(CpuCurve, 60000) == 127
    ensures Duty(CpuCurve, 44000) == 0 && Duty(CpuCurve, 76000) == 255
  {
  }
}

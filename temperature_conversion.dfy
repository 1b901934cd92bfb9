/**
 * `Converter`: affine conversion between temperature scales, pivoting
 * through Celsius. Java doubles are exact reals here.
 *
 * Every conversion is checked against an independent reference: how far a
 * reading lies above absolute zero, measured in kelvins. A reading on scale
 * `s` lies `(v - s.AbsoluteZero()) * DegreeSize(s)` kelvins above it.
 */
module TemperatureConversion {
  import opened TemperatureScale

  const KELVIN_OFFSET: real := 273.15

  /** The size of one degree of `s`, in kelvins. */
  function DegreeSize(s: Scale): (size: real)
    ensures size > 0.0
  {
    if s == Fahrenheit then 5.0 / 9.0 else 1.0
  }

  /** How far the reading `value` on scale `s` lies above absolute zero, in kelvins. */
  function AboveAbsoluteZero(value: real, s: Scale): real {
    (value - s.AbsoluteZero()) * DegreeSize(s)
  }

  /** `toCelsius`: the Celsius reading of the same temperature. */
  function ToCelsius(value: real, source: Scale): (celsius: real)
    ensures AboveAbsoluteZero(celsius, Celsius) == AboveAbsoluteZero(value, source)
  {
    match source
    case Celsius => value
    case Fahrenheit => (value - 32.0) * 5.0 / 9.0
    case Kelvin => value - KELVIN_OFFSET
  }

  /** `fromCelsius`: the reading on `target` of the same temperature. */
  function FromCelsius(value: real, target: Scale): (reading: real)
    ensures AboveAbsoluteZero(reading, target) == AboveAbsoluteZero(value, Celsius)
  {
    match target
    case Celsius => value
    case Fahrenheit => value * 9.0 / 5.0 + 32.0
    case Kelvin => value + KELVIN_OFFSET
  }

  /** `convert`: the reading on `target` of the temperature `value` on `source`. */
  function Convert(value: real, source: Scale, target: Scale): (reading: real)
    ensures AboveAbsoluteZero(reading, target) == AboveAbsoluteZero(value, source)
  {
    FromCelsius(ToCelsius(value, source), target)
  }

  /** A reading on one scale is determined by its distance above absolute zero. */
  lemma AboveAbsoluteZeroInjective(a: real, b: real, s: Scale)
    requires AboveAbsoluteZero(a, s) == AboveAbsoluteZero(b, s)
    ensures a == b
  {
    var d := DegreeSize(s);
    assert (a - b) * d == 0.0 by {
      assert (a - s.AbsoluteZero()) * d - (b - s.AbsoluteZero()) * d == (a - b) * d;
    }
  }

  /** Convert is the only function with its contract: any reading with the same distance above absolute zero is its result. */
  lemma ConvertUnique(value: real, source: Scale, target: Scale, reading: real)
    requires AboveAbsoluteZero(reading, target) == AboveAbsoluteZero(value, source)
    ensures reading == Convert(value, source, target)
  {
    AboveAbsoluteZeroInjective(reading, Convert(value, source, target), target);
  }

  /** toCelsius and fromCelsius are inverse to each other on every scale. */
  lemma CelsiusRoundTrip(value: real, s: Scale)
    ensures FromCelsius(ToCelsius(value, s), s) == value
    ensures ToCelsius(FromCelsius(value, s), s) == value
  {
    AboveAbsoluteZeroInjective(FromCelsius(ToCelsius(value, s), s), value, s);
    AboveAbsoluteZeroInjective(ToCelsius(FromCelsius(value, s), s), value, Celsius);
  }

  /** Converting to the same scale returns the input unchanged. */
  lemma ConvertIdentity(value: real, s: Scale)
    ensures Convert(value, s, s) == value
  {
    CelsiusRoundTrip(value, s);
  }

  /** Converting there and back returns the input exactly. */
  lemma ConvertRoundTrip(value: real, s: Scale, t: Scale)
    ensures Convert(Convert(value, s, t), t, s) == value
  {
    AboveAbsoluteZeroInjective(Convert(Convert(value, s, t), t, s), value, s);
  }

  /** Converting in two steps is the same as converting directly. */
  lemma ConvertCompose(value: real, s: Scale, t: Scale, u: Scale)
    ensures Convert(Convert(value, s, t), t, u) == Convert(value, s, u)
  {
    AboveAbsoluteZeroInjective(Convert(Convert(value, s, t), t, u), Convert(value, s, u), u);
  }

  /** Absolute zero on one scale converts to absolute zero on every other. */
  lemma ConvertAbsoluteZero(s: Scale, t: Scale)
    ensures Convert(s.AbsoluteZero(), s, t) == t.AbsoluteZero()
  {
    AboveAbsoluteZeroInjective(Convert(s.AbsoluteZero(), s, t), t.AbsoluteZero(), t);
  }

  /** Conversion preserves order strictly: a warmer reading stays warmer. */
  lemma ConvertStrictlyMonotone(a: real, b: real, s: Scale, t: Scale)
    requires a < b
    ensures Convert(a, s, t) < Convert(b, s, t)
  {
    var x, y := Convert(a, s, t), Convert(b, s, t);
    assert AboveAbsoluteZero(a, s) < AboveAbsoluteZero(b, s) by {
      assert AboveAbsoluteZero(b, s) - AboveAbsoluteZero(a, s) == (b - a) * DegreeSize(s);
    }
    assert AboveAbsoluteZero(y, t) - AboveAbsoluteZero(x, t) == (y - x) * DegreeSize(t);
  }

  /**
   * Convert is total: it accepts readings below absolute zero and maps them
   * to readings below absolute zero on the target scale, never rejecting them.
   */
  lemma BelowAbsoluteZeroPassesThrough(value: real, s: Scale, t: Scale)
    ensures value < s.AbsoluteZero() <==> Convert(value, s, t) < t.AbsoluteZero()
    ensures value == s.AbsoluteZero() <==> Convert(value, s, t) == t.AbsoluteZero()
  {
    ConvertAbsoluteZero(s, t);
    ConvertRoundTrip(value, s, t);
    ConvertAbsoluteZero(t, s);
    if value < s.AbsoluteZero() {
      ConvertStrictlyMonotone(value, s.AbsoluteZero(), s, t);
    } else if value > s.AbsoluteZero() {
      ConvertStrictlyMonotone(s.AbsoluteZero(), value, s, t);
    }
  }

  /** The freezing and boiling points the tests check, exactly. */
  lemma WaterReferencePoints()
    ensures Convert(0.0, Celsius, Fahrenheit) == 32.0 && Convert(0.0, Celsius, Kelvin) == 273.15
    ensures Convert(32.0, Fahrenheit, Celsius) == 0.0 && Convert(32.0, Fahrenheit, Kelvin) == 273.15
    ensures Convert(273.15, Kelvin, Celsius) == 0.0 && Convert(273.15, Kelvin, Fahrenheit) == 32.0
    ensures Convert(100.0, Celsius, Fahrenheit) == 212.0 && Convert(100.0, Celsius, Kelvin) == 373.15
    ensures Convert(212.0, Fahrenheit, Celsius) == 100.0 && Convert(212.0, Fahrenheit, Kelvin) == 373.15
    ensures Convert(373.15, Kelvin, Celsius) == 100.0 && Convert(373.15, Kelvin, Fahrenheit) == 212.0
  {
  }

  /** The other readings the tests check, exactly. */
  lemma OtherReferencePoints()
    ensures Convert(-40.0, Celsius, Fahrenheit) == -40.0 && Convert(-40.0, Fahrenheit, Celsius) == -40.0
    ensures Convert(20.0, Celsius, Fahrenheit) == 68.0 && Convert(68.0, Fahrenheit, Celsius) == 20.0
    ensures Convert(37.5, Celsius, Fahrenheit) == 99.5 && Convert(1000.0, Celsius, Fahrenheit) == 1832.0
    ensures Convert(0.01, Celsius, Kelvin) == 273.16
    ensures Convert(-273.15, Celsius, Fahrenheit) == -459.67 && Convert(0.0, Kelvin, Fahrenheit) == -459.67
  {
  }
}

/**
 * `Scale`: the three temperature scales, each with its display name, its
 * symbol and the value absolute zero takes on it.
 */
module TemperatureScale {
  datatype Scale = Celsius | Fahrenheit | Kelvin {
    /** The lower-case name shown to the user. */
    function DisplayName(): string {
      match this
      case Celsius => "celsius"
      case Fahrenheit => "fahrenheit"
      case Kelvin => "kelvin"
    }

    /** The unit symbol. */
    function Symbol(): string {
      match this
      case Celsius => "°C"
      case Fahrenheit => "°F"
      case Kelvin => "K"
    }

    /** The lowest physically possible temperature on this scale. */
    function AbsoluteZero(): real {
      match this
      case Celsius => -273.15
      case Fahrenheit => -459.67
      case Kelvin => 0.0
    }
  }

  /** Each of the three constants identifies its scale. */
  lemma ConstantsIdentifyScale(a: Scale, b: Scale)
    ensures a.DisplayName() == b.DisplayName() ==> a == b
    ensures a.Symbol() == b.Symbol() ==> a == b
    ensures a.AbsoluteZero() == b.AbsoluteZero() ==> a == b
  {
    if a != b {
      assert a.DisplayName()[0] != b.DisplayName()[0];
      assert a.Symbol()[|a.Symbol()| - 1] != b.Symbol()[|b.Symbol()| - 1];
    }
  }

  /** Absolute zero is lowest on Fahrenheit and highest on Kelvin, where it is 0. */
  lemma AbsoluteZeroOrder()
    ensures Fahrenheit.AbsoluteZero() < Celsius.AbsoluteZero() < Kelvin.AbsoluteZero() == 0.0
  {
  }
}

/** The Unit value object: a unit of the closed table paired with the metric
    type it is declared for, and the conversions between that unit and the
    type's base unit (meter for distance, kelvin for temperature). Values are
    exact reals, so the conversion formulas hold without rounding error. */
module Units {
  import opened Errors
  import opened Metrics

  datatype UnitValue = UnitValue(value: MetricUnit, metricType: MetricType)

  /** Construction rejects a unit outside its type's enumeration, so every Unit
      that exists pairs a unit with the type it belongs to. */
  type Unit = u: UnitValue | KindOf(u.value) == u.metricType witness UnitValue(Meter, Distance)

  /** The constructor, from the unit string the caller supplied. */
  function NewUnit(unit: string, metricType: MetricType): (r: Result<Unit>)
    ensures r.Ok? <==> exists u :: UnitText(u) == unit && KindOf(u) == metricType
    ensures r.Ok? ==> UnitText(r.value.value) == unit && r.value.metricType == metricType
    ensures r.Err? ==> r.error == InvalidUnit(unit, TypeText(metricType))
  {
    match ParseUnitText(unit)
    case Some(u) =>
      if KindOf(u) == metricType then Ok(UnitValue(u, metricType))
      else Err(InvalidUnit(unit, TypeText(metricType)))
    case None => Err(InvalidUnit(unit, TypeText(metricType)))
  }

  function BaseUnit(metricType: MetricType): (u: MetricUnit)
    ensures KindOf(u) == metricType
  {
    match metricType
    case Distance => Meter
    case Temperature => Kelvin
  }

  /** Meters per one of the distance unit. */
  function DistanceFactor(u: MetricUnit): (f: real)
    requires KindOf(u) == Distance
    ensures f > 0.0
  {
    match u
    case Meter => 1.0
    case Centimeter => 0.01
    case Inch => 0.0254
    case Feet => 0.3048
    case Yard => 0.9144
  }

  /** From the base unit of the unit's type to the unit: the value that the
      unit's own formula carries to `v`. */
  function FromBaseUnit(unit: Unit, v: real): (r: real)
    ensures unit.metricType == Distance ==> r * DistanceFactor(unit.value) == v
    ensures unit.value == Kelvin ==> r == v
    ensures unit.value == Celsius ==> r + 273.15 == v
    ensures unit.value == Fahrenheit ==> ((r - 32.0) * 5.0) / 9.0 + 273.15 == v
  {
    match unit.metricType
    case Distance => v / DistanceFactor(unit.value)
    case Temperature =>
      match unit.value
      case Kelvin => v
      case Celsius => v - 273.15
      case Fahrenheit => ((v - 273.15) * 9.0) / 5.0 + 32.0
  }

  /** From the unit to the base unit of its type; `FromBaseUnit` undoes it. */
  function ToBaseUnit(unit: Unit, v: real): (b: real)
    ensures FromBaseUnit(unit, b) == v
  {
    match unit.metricType
    case Distance => v * DistanceFactor(unit.value)
    case Temperature =>
      match unit.value
      case Kelvin => v
      case Celsius => v + 273.15
      case Fahrenheit => ((v - 32.0) * 5.0) / 9.0 + 273.15
  }

  /** Same unit and same type, which is equality of units. */
  function Equals(a: Unit, b: Unit): (r: bool)
    ensures r <==> a == b
  {
    a.value == b.value && a.metricType == b.metricType
  }

  /** The unit a listing or chart reports in: the requested one, or the type's
      base unit when none was requested (the empty string). */
  function DisplayUnit(requested: string, metricType: MetricType): (r: Result<Unit>)
    ensures requested == "" ==> r == Ok(UnitValue(BaseUnit(metricType), metricType))
    ensures requested != "" ==> r == NewUnit(requested, metricType)
  {
    NewUnit(if requested == "" then UnitText(BaseUnit(metricType)) else requested, metricType)
  }

  /** The text of the display unit, as the service echoes it. */
  function DisplayUnitText(requested: string, metricType: MetricType): string {
    if requested == "" then UnitText(BaseUnit(metricType)) else requested
  }

  /** The integer nearest to `y`, halves rounded away from zero. */
  function RoundHalfAway(y: real): (n: int)
    ensures -0.5 <= n as real - y <= 0.5
    ensures y >= 0.0 ==> n as real - y > -0.5
    ensures y < 0.0 ==> n as real - y < 0.5
  {
    if y >= 0.0 then (y + 0.5).Floor else -((-y + 0.5).Floor)
  }

  /** `toFixed(6)` followed by `parseFloat`: the nearest multiple of 10^-6,
      halves rounded away from zero. */
  function Round6(x: real): (r: real)
    ensures (r * 1000000.0).Floor as real == r * 1000000.0
    ensures -0.0000005 <= r - x <= 0.0000005
    ensures (x >= 0.0) == (r >= 0.0) || r == 0.0
  {
    var n := RoundHalfAway(x * 1000000.0);
    assert (n as real / 1000000.0) * 1000000.0 == n as real;
    n as real / 1000000.0
  }

  // ---------------------------------------------------------------------
  // Properties of the conversions

  lemma ToBaseInverse(unit: Unit, v: real)
    ensures ToBaseUnit(unit, FromBaseUnit(unit, v)) == v
  {
  }

  lemma BaseUnitIsIdentity(metricType: MetricType, v: real)
    ensures var u: Unit := UnitValue(BaseUnit(metricType), metricType);
      ToBaseUnit(u, v) == v && FromBaseUnit(u, v) == v
  {
  }

  lemma ToBaseStrictlyIncreasing(unit: Unit, v: real, w: real)
    requires v < w
    ensures ToBaseUnit(unit, v) < ToBaseUnit(unit, w)
  {
  }

  lemma FromBaseStrictlyIncreasing(unit: Unit, v: real, w: real)
    requires v < w
    ensures FromBaseUnit(unit, v) < FromBaseUnit(unit, w)
  {
  }

  lemma EqualsIffSameUnit(a: Unit, b: Unit)
    ensures Equals(a, b) <==> a == b
    ensures Equals(a, b) <==> a.value == b.value
  {
  }

  /** A multiple of 10^-6 is displayed unchanged. */
  lemma Round6Exact(k: int)
    ensures Round6(k as real / 1000000.0) == k as real / 1000000.0
  {
    assert (k as real / 1000000.0) * 1000000.0 == k as real;
    if k >= 0 {
      FloorOfHalf(k);
    } else {
      FloorOfHalf(-k);
    }
  }

  lemma FloorOfHalf(n: int)
    ensures (n as real + 0.5).Floor == n
  {
  }

  function Abs(x: real): real {
    if x < 0.0 then -x else x
  }

  /** No multiple of 10^-6 is nearer to `x` than `Round6(x)`; of two equally
      near, `Round6` takes the one farther from zero. */
  lemma Round6Nearest(x: real, k: int)
    ensures Abs(Round6(x) - x) <= Abs(k as real / 1000000.0 - x)
    ensures Abs(Round6(x) - x) == Abs(k as real / 1000000.0 - x) ==>
              Abs(k as real / 1000000.0) <= Abs(Round6(x))
  {
    var y := x * 1000000.0;
    var n := RoundHalfAway(y);
    NearestInteger(y, k);
    Unscale(n, y, x);
    Unscale(k, y, x);
  }

  /** Half-away rounding picks a nearest integer, and of two it takes the one of larger magnitude. */
  lemma NearestInteger(y: real, k: int)
    ensures Abs(RoundHalfAway(y) as real - y) <= Abs(k as real - y)
    ensures Abs(RoundHalfAway(y) as real - y) == Abs(k as real - y) ==>
              Abs(k as real) <= Abs(RoundHalfAway(y) as real)
  {
    var n := RoundHalfAway(y);
    if k < n {
      assert k as real <= n as real - 1.0;
    } else if k > n {
      assert k as real >= n as real + 1.0;
    }
  }

  lemma Unscale(k: int, y: real, x: real)
    requires y == x * 1000000.0
    ensures Abs(k as real / 1000000.0 - x) == Abs(k as real - y) / 1000000.0
    ensures Abs(k as real / 1000000.0) == Abs(k as real) / 1000000.0
  {
  }

  /** Examples from the unit conversion table. */
  lemma ConversionExamples()
    ensures ToBaseUnit(UnitValue(Meter, Distance), 100.0) == 100.0
    ensures ToBaseUnit(UnitValue(Centimeter, Distance), 100.0) == 1.0
    ensures ToBaseUnit(UnitValue(Inch, Distance), 100.0) == 2.54
    ensures ToBaseUnit(UnitValue(Feet, Distance), 100.0) == 30.48
    ensures ToBaseUnit(UnitValue(Yard, Distance), 100.0) == 91.44
    ensures ToBaseUnit(UnitValue(Celsius, Temperature), 0.0) == 273.15
    ensures ToBaseUnit(UnitValue(Fahrenheit, Temperature), 32.0) == 273.15
    ensures ToBaseUnit(UnitValue(Fahrenheit, Temperature), 77.0) == 298.15
    ensures FromBaseUnit(UnitValue(Fahrenheit, Temperature), 273.15) == 32.0
    ensures FromBaseUnit(UnitValue(Celsius, Temperature), 298.15) == 25.0
    ensures FromBaseUnit(UnitValue(Centimeter, Distance), 1.0) == 100.0
  {
  }

  /** A name that is no unit at all is refused, with the message the service shows. */
  lemma UnknownUnitExample()
    ensures NewUnit("invalid", Distance) == Err(InvalidUnit("invalid", "distance"))
  {
    assert ParseUnitText("invalid") == None;
  }

  /** A unit of the other metric type is refused; one of the right type is accepted. */
  lemma UnitKindExamples()
    ensures NewUnit("kelvin", Distance).Err?
    ensures NewUnit("feet", Distance) == Ok(UnitValue(Feet, Distance))
  {
    assert ParseUnitText("kelvin") == Some(Kelvin);
    assert ParseUnitText("feet") == Some(Feet);
  }
}

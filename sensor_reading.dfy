/**
 * The Kotlin value type `SensorReading` and the decimal rendering of an index
 * that the Kotlin manager uses for the synthetic name "Sensor $i".
 */
module SensorReadings {
  import opened SensorTypes

  /** One reading of one sensor: its name, its type code and three axis
      values. Immutable; a new value is made for every update. */
  datatype SensorReading = SensorReading(name: string, sensorType: int, x: Axis, y: Axis, z: Axis)
  {
    /** The unit of the axis values, decided by the sensor type alone; the
        empty string for every type other than the three known ones. */
    function Unit(): (u: string)
      ensures u == "m/s²" <==> sensorType == SENSOR_TYPE_ACCELEROMETER
      ensures u == "rad/s" <==> sensorType == SENSOR_TYPE_GYROSCOPE
      ensures u == "µT" <==> sensorType == SENSOR_TYPE_MAGNETIC_FIELD
      ensures u == "" <==> sensorType !in {SENSOR_TYPE_ACCELEROMETER, SENSOR_TYPE_GYROSCOPE, SENSOR_TYPE_MAGNETIC_FIELD}
    {
      if sensorType == SENSOR_TYPE_ACCELEROMETER then "m/s²"
      else if sensorType == SENSOR_TYPE_GYROSCOPE then "rad/s"
      else if sensorType == SENSOR_TYPE_MAGNETIC_FIELD then "µT"
      else ""
    }
  }

  /** The character of a decimal digit. */
  function DigitChar(d: nat): (c: char)
    requires d < 10
  {
    "0123456789"[d]
  }

  /** The value of a decimal digit character; 0 for anything else. */
  function DigitValue(c: char): (d: nat)
  {
    if '0' <= c <= '9' then c as int - '0' as int else 0
  }

  /** The decimal text of a non-negative integer, as Kotlin's string
      template renders an `Int` index (no sign, no leading zeros). */
  function DecimalString(n: nat): (s: string)
    decreases n
  {
    if n < 10 then [DigitChar(n)] else DecimalString(n / 10) + [DigitChar(n % 10)]
  }

  /** Reads a decimal text back into its value: the inverse of DecimalString. */
  function DecimalValue(s: string): (n: nat)
  {
    if s == [] then 0 else 10 * DecimalValue(s[..|s| - 1]) + DigitValue(s[|s| - 1])
  }

  lemma {:induction false} DecimalRoundTrip(n: nat)
    ensures DecimalValue(DecimalString(n)) == n
    decreases n
  {
    if n < 10 {
      assert DecimalString(n)[..0] == [];
    } else {
      var s := DecimalString(n);
      DecimalRoundTrip(n / 10);
      assert s[..|s| - 1] == DecimalString(n / 10);
    }
  }

  /** Different indices never render to the same decimal text. */
  lemma DecimalStringInjective(a: nat, b: nat)
    ensures DecimalString(a) == DecimalString(b) ==> a == b
  {
    DecimalRoundTrip(a);
    DecimalRoundTrip(b);
  }

  /** The name the Kotlin manager gives sensor `i` when the native layer
      reports no name for it: "Sensor $i". */
  function SyntheticName(i: nat): string
  {
    "Sensor " + DecimalString(i)
  }

  /** Synthetic names of different indices are different. */
  lemma SyntheticNameInjective(i: nat, j: nat)
    ensures SyntheticName(i) == SyntheticName(j) ==> i == j
  {
    if SyntheticName(i) == SyntheticName(j) {
      var p := |"Sensor "|;
      assert DecimalString(i) == SyntheticName(i)[p..];
      assert DecimalString(j) == SyntheticName(j)[p..];
      DecimalStringInjective(i, j);
    }
  }
}

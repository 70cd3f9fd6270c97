/**
 * Shared vocabulary of the sensor bridge: the axis value type, an Option for
 * the nullable values the native layer hands back, and the Android sensor
 * type codes (ASENSOR_TYPE_*) that both the Kotlin and the C++ side use.
 */
module SensorTypes {

  /** An axis value. The bridge only copies axis values, it never computes on
      them, so no arithmetic on this type is used anywhere in the model. */
  type Axis = real

  /** The axis value a missing reading defaults to (Kotlin `0f`, C++ `0.0f`). */
  const ZERO: Axis := 0.0

  /** A value that may be absent: a nullable Kotlin value or a null pointer. */
  datatype Option<+T> = None | Some(value: T)

  /** ASENSOR_TYPE_ACCELEROMETER */
  const SENSOR_TYPE_ACCELEROMETER: int := 1
  /** ASENSOR_TYPE_MAGNETIC_FIELD */
  const SENSOR_TYPE_MAGNETIC_FIELD: int := 2
  /** ASENSOR_TYPE_GYROSCOPE */
  const SENSOR_TYPE_GYROSCOPE: int := 4
}

/**
 * The latest-reading records of the native acquisition layer and the pure
 * account of how a stream of sensor events updates them (the body of
 * `processSensorEvent`, folded over the events a queue drain delivers).
 */
module SensorRecords {
  import opened SensorTypes

  /** A three-axis record: AccelerometerData, GyroscopeData, MagnetometerData. */
  datatype Vec3 = Vec3(x: Axis, y: Axis, z: Axis)

  const ZERO_RECORD: Vec3 := Vec3(ZERO, ZERO, ZERO)

  /** A sensor event as the queue delivers it: its type code and its three
      values (the acceleration, vector and magnetic views of an NDK event all
      name the same three values). */
  datatype SensorEvent = SensorEvent(sensorType: int, values: Vec3)

  datatype SensorKind = Accelerometer | Gyroscope | Magnetometer

  /** The sensor kind an event type code is handled as, if any. */
  function KindOf(sensorType: int): (k: Option<SensorKind>)
    ensures k == Some(Accelerometer) <==> sensorType == SENSOR_TYPE_ACCELEROMETER
    ensures k == Some(Gyroscope) <==> sensorType == SENSOR_TYPE_GYROSCOPE
    ensures k == Some(Magnetometer) <==> sensorType == SENSOR_TYPE_MAGNETIC_FIELD
  {
    if sensorType == SENSOR_TYPE_ACCELEROMETER then Some(Accelerometer)
    else if sensorType == SENSOR_TYPE_GYROSCOPE then Some(Gyroscope)
    else if sensorType == SENSOR_TYPE_MAGNETIC_FIELD then Some(Magnetometer)
    else None
  }

  /** The three latest-reading records. */
  datatype Records = Records(accel: Vec3, gyro: Vec3, mag: Vec3)
  {
    function Get(k: SensorKind): Vec3
    {
      match k
      case Accelerometer => accel
      case Gyroscope => gyro
      case Magnetometer => mag
    }
  }

  /** Which of the three per-kind callbacks are set. */
  datatype Callbacks = Callbacks(accel: bool, gyro: bool, mag: bool)
  {
    function IsSet(k: SensorKind): bool
    {
      match k
      case Accelerometer => accel
      case Gyroscope => gyro
      case Magnetometer => mag
    }
  }

  /** One invocation of a per-kind callback with the record it was given. */
  datatype Delivery = Delivery(kind: SensorKind, record: Vec3)

  /** The records after processing one event: only the record of the event's
      kind changes and it takes the event's values; an unknown type changes
      nothing. */
  function Step(r: Records, e: SensorEvent): Records
  {
    if e.sensorType == SENSOR_TYPE_ACCELEROMETER then r.(accel := e.values)
    else if e.sensorType == SENSOR_TYPE_GYROSCOPE then r.(gyro := e.values)
    else if e.sensorType == SENSOR_TYPE_MAGNETIC_FIELD then r.(mag := e.values)
    else r
  }

  /** One event writes exactly the record of its kind, with its own values. */
  lemma StepWritesOneRecord(r: Records, e: SensorEvent, k: SensorKind)
    ensures Step(r, e).Get(k) == if KindOf(e.sensorType) == Some(k) then e.values else r.Get(k)
  {
  }

  /** The callback invocations one event causes: the callback of the event's
      kind, if set, is given the record just stored. */
  function StepDeliveries(cb: Callbacks, r: Records, e: SensorEvent): seq<Delivery>
  {
    match KindOf(e.sensorType)
    case None => []
    case Some(k) => if cb.IsSet(k) then [Delivery(k, Step(r, e).Get(k))] else []
  }

  /** The records after processing the events of `es` in delivery order. */
  function Drain(r: Records, es: seq<SensorEvent>): Records
  {
    if es == [] then r else Step(Drain(r, es[..|es| - 1]), es[|es| - 1])
  }

  /** The callback invocations caused by processing `es` in delivery order. */
  function DrainDeliveries(cb: Callbacks, r: Records, es: seq<SensorEvent>): seq<Delivery>
  {
    if es == [] then []
    else
      var init := es[..|es| - 1];
      DrainDeliveries(cb, r, init) + StepDeliveries(cb, Drain(r, init), es[|es| - 1])
  }

  /** Processing one more event extends a drain by one step. */
  lemma DrainSnoc(cb: Callbacks, r: Records, es: seq<SensorEvent>, e: SensorEvent)
    ensures Drain(r, es + [e]) == Step(Drain(r, es), e)
    ensures DrainDeliveries(cb, r, es + [e]) == DrainDeliveries(cb, r, es) + StepDeliveries(cb, Drain(r, es), e)
  {
    assert (es + [e])[..|es|] == es;
  }

  /** The values of the last event of `es` handled as kind `k`, if any. */
  function LastOfKind(es: seq<SensorEvent>, k: SensorKind): (o: Option<Vec3>)
    ensures o.None? <==> forall j :: 0 <= j < |es| ==> KindOf(es[j].sensorType) != Some(k)
    ensures o.Some? ==> exists j :: 0 <= j < |es| && KindOf(es[j].sensorType) == Some(k) && es[j].values == o.value &&
                          forall m :: j < m < |es| ==> KindOf(es[m].sensorType) != Some(k)
  {
    if es == [] then None
    else if KindOf(es[|es| - 1].sensorType) == Some(k) then Some(es[|es| - 1].values)
    else LastOfKind(es[..|es| - 1], k)
  }

  /** The invocations a drain should cause, read off the events alone: for
      every event of a known kind whose callback is set, one invocation
      carrying that event's values, in delivery order. */
  function EventDeliveries(cb: Callbacks, es: seq<SensorEvent>): seq<Delivery>
  {
    if es == [] then []
    else
      var e := es[|es| - 1];
      EventDeliveries(cb, es[..|es| - 1]) +
        match KindOf(e.sensorType)
        case None => []
        case Some(k) => if cb.IsSet(k) then [Delivery(k, e.values)] else []
  }

  /** After a drain, each record equals the values of the last event of its
      kind, or is unchanged when no such event was delivered. */
  lemma {:induction false} DrainKeepsLast(r: Records, es: seq<SensorEvent>, k: SensorKind)
    ensures Drain(r, es).Get(k) == match LastOfKind(es, k) case Some(v) => v case None => r.Get(k)
  {
    if es != [] {
      DrainKeepsLast(r, es[..|es| - 1], k);
      StepWritesOneRecord(Drain(r, es[..|es| - 1]), es[|es| - 1], k);
    }
  }

  /** A drain invokes the callbacks exactly for the events of a known kind
      whose callback is set, in order, each with that event's own values. */
  lemma {:induction false} DrainDeliversEventValues(cb: Callbacks, r: Records, es: seq<SensorEvent>)
    ensures DrainDeliveries(cb, r, es) == EventDeliveries(cb, es)
  {
    if es != [] {
      DrainDeliversEventValues(cb, r, es[..|es| - 1]);
    }
  }

  /** Events of unknown type leave the records as they are. */
  lemma {:induction false} DrainIgnoresUnknownTypes(r: Records, es: seq<SensorEvent>)
    requires forall j :: 0 <= j < |es| ==> KindOf(es[j].sensorType).None?
    ensures Drain(r, es) == r
  {
    if es != [] {
      DrainIgnoresUnknownTypes(r, es[..|es| - 1]);
    }
  }
}

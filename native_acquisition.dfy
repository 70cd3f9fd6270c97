/**
 * The C++ `NativeSensorManager`: the acquisition state machine over the NDK
 * sensor API. Two flags, `isInitialized` and `isListening`, guard
 * initialisation and the enabling and disabling of the sensors; three
 * records keep the latest accelerometer, gyroscope and magnetometer values.
 *
 * What the NDK answers (whether each handle could be obtained, the result of
 * every enable request, the events a queue drain yields) is given as
 * parameters. A handle is modelled by whether it is present (non-null).
 * The sensors the queue has enabled, the event rates it was given and the
 * callback invocations are recorded in ghost fields.
 */
module NativeAcquisition {
  import opened SensorTypes
  import opened SensorRecords

  /** The sampling period requested for every enabled sensor, in microseconds. */
  const EVENT_RATE_US: int := 200000

  /** What the NDK provides to one initialisation attempt. */
  datatype NdkEnvironment = NdkEnvironment(
    managerAvailable: bool,
    accelerometerAvailable: bool,
    gyroscopeAvailable: bool,
    magnetometerAvailable: bool,
    looperCreated: bool,
    queueCreated: bool)

  /** The handles and flags of the manager, and what the queue has enabled. */
  datatype Acquisition = Acquisition(
    sensorManager: bool, accelerometer: bool, gyroscope: bool, magnetometer: bool,
    looper: bool, sensorEventQueue: bool, isInitialized: bool, isListening: bool,
    enabled: set<SensorKind>, eventRates: map<SensorKind, int>)

  class NativeSensorManager {
    var sensorManager: bool
    var accelerometer: bool
    var gyroscope: bool
    var magnetometer: bool
    var sensorEventQueue: bool
    var looper: bool
    var isInitialized: bool
    var isListening: bool
    var currentData: Vec3
    var currentGyroscopeData: Vec3
    var currentMagnetometerData: Vec3
    var dataCallback: bool
    var gyroscopeCallback: bool
    var magnetometerCallback: bool
    /** The sensors currently enabled on the event queue. */
    ghost var enabled: set<SensorKind>
    /** The event rate last requested per sensor. */
    ghost var eventRates: map<SensorKind, int>
    /** Every callback invocation so far, in order. */
    ghost var delivered: seq<Delivery>

    ghost function Records(): Records
      reads this`currentData, this`currentGyroscopeData, this`currentMagnetometerData
    {
      SensorRecords.Records(currentData, currentGyroscopeData, currentMagnetometerData)
    }

    ghost function Callbacks(): Callbacks
      reads this`dataCallback, this`gyroscopeCallback, this`magnetometerCallback
    {
      SensorRecords.Callbacks(dataCallback, gyroscopeCallback, magnetometerCallback)
    }

    ghost function State(): Acquisition
      reads this`sensorManager, this`accelerometer, this`gyroscope, this`magnetometer, this`looper,
            this`sensorEventQueue, this`isInitialized, this`isListening, this`enabled, this`eventRates
    {
      Acquisition(sensorManager, accelerometer, gyroscope, magnetometer, looper,
                  sensorEventQueue, isInitialized, isListening, enabled, eventRates)
    }

    /** Listening implies initialised; initialised implies the mandatory
        handles are present; the accelerometer is enabled exactly while
        listening, nothing is enabled otherwise, an optional sensor is enabled
        only when present, and every enabled sensor runs at the fixed rate. */
    ghost predicate Valid()
      reads this`sensorManager, this`accelerometer, this`gyroscope, this`magnetometer, this`looper,
            this`sensorEventQueue, this`isInitialized, this`isListening, this`enabled, this`eventRates
    {
      && (isListening ==> isInitialized)
      && (isInitialized ==> sensorManager && accelerometer && looper && sensorEventQueue)
      && (isListening <==> Accelerometer in enabled)
      && (!isListening ==> enabled == {})
      && (Gyroscope in enabled ==> gyroscope)
      && (Magnetometer in enabled ==> magnetometer)
      && (forall k :: k in enabled ==> k in eventRates && eventRates[k] == EVENT_RATE_US)
    }

    /** A fresh manager: no handles, both flags down, all records zero. */
    constructor ()
      ensures Valid()
      ensures !sensorManager && !accelerometer && !gyroscope && !magnetometer && !sensorEventQueue && !looper
      ensures !isInitialized && !isListening
      ensures Records() == SensorRecords.Records(ZERO_RECORD, ZERO_RECORD, ZERO_RECORD)
      ensures Callbacks() == SensorRecords.Callbacks(false, false, false)
      ensures enabled == {} && eventRates == map[] && delivered == []
    {
      sensorManager, accelerometer, gyroscope, magnetometer := false, false, false, false;
      sensorEventQueue, looper := false, false;
      isInitialized, isListening := false, false;
      currentData := ZERO_RECORD;
      currentGyroscopeData := ZERO_RECORD;
      currentMagnetometerData := ZERO_RECORD;
      dataCallback, gyroscopeCallback, magnetometerCallback := false, false, false;
      enabled, eventRates, delivered := {}, map[], [];
    }

    /** Idempotent initialisation. When already initialised: true, nothing
        changes. Otherwise the handles are obtained in turn; a missing sensor
        manager, accelerometer, looper or event queue is fatal (false), a
        missing gyroscope or magnetometer is not. Only full success sets
        `isInitialized`. */
    method Initialize(env: NdkEnvironment) returns (ok: bool)
      requires Valid()
      modifies this`sensorManager, this`accelerometer, this`gyroscope, this`magnetometer,
               this`looper, this`sensorEventQueue, this`isInitialized
      ensures Valid()
      ensures old(isInitialized) ==> ok && unchanged(this`sensorManager, this`accelerometer, this`gyroscope,
                                                    this`magnetometer, this`looper, this`sensorEventQueue)
      ensures !old(isInitialized) ==>
                ok == (env.managerAvailable && env.accelerometerAvailable && env.looperCreated && env.queueCreated)
      ensures isInitialized == ok
      ensures !old(isInitialized) && ok ==> gyroscope == env.gyroscopeAvailable && magnetometer == env.magnetometerAvailable
    {
      if isInitialized {
        return true;
      }
      sensorManager := env.managerAvailable;
      if !sensorManager {
        return false;
      }
      accelerometer := env.accelerometerAvailable;
      if !accelerometer {
        return false;
      }
      gyroscope := env.gyroscopeAvailable;
      magnetometer := env.magnetometerAvailable;
      looper := env.looperCreated;
      if !looper {
        return false;
      }
      sensorEventQueue := env.queueCreated;
      if !sensorEventQueue {
        return false;
      }
      isInitialized := true;
      return true;
    }

    /** Enables the sensors, only when initialised and not yet listening.
        `accelResult`, `gyroResult` and `magResult` are what the enable
        requests return (negative on failure). A failed accelerometer enable
        aborts with nothing enabled; a failed optional sensor is skipped.
        Every sensor enabled gets the fixed event rate. */
    method StartListening(accelResult: int, gyroResult: int, magResult: int)
      requires Valid()
      modifies this`isListening, this`enabled, this`eventRates
      ensures Valid()
      ensures !(old(isInitialized) && !old(isListening)) ==>
                isListening == old(isListening) && enabled == old(enabled) && eventRates == old(eventRates)
      ensures old(isInitialized) && !old(isListening) ==>
                && isListening == (accelResult >= 0)
                && enabled == if accelResult < 0 then {} else
                     {Accelerometer}
                     + (if gyroscope && gyroResult >= 0 then {Gyroscope} else {})
                     + (if magnetometer && magResult >= 0 then {Magnetometer} else {})
    {
      if !isInitialized || isListening {
        return;
      }
      var result := accelResult;
      if result < 0 {
        return;
      }
      enabled := enabled + {Accelerometer};
      eventRates := eventRates[Accelerometer := EVENT_RATE_US];
      if gyroscope {
        result := gyroResult;
        if result >= 0 {
          enabled := enabled + {Gyroscope};
          eventRates := eventRates[Gyroscope := EVENT_RATE_US];
        }
      }
      if magnetometer {
        result := magResult;
        if result >= 0 {
          enabled := enabled + {Magnetometer};
          eventRates := eventRates[Magnetometer := EVENT_RATE_US];
        }
      }
      isListening := true;
    }

    /** Disables the sensors, only when initialised and listening: the
        accelerometer, and each optional sensor that is present. Afterwards
        nothing is enabled and `isListening` is down. */
    method StopListening()
      requires Valid()
      modifies this`isListening, this`enabled
      ensures Valid()
      ensures !(old(isInitialized) && old(isListening)) ==> isListening == old(isListening) && enabled == old(enabled)
      ensures old(isInitialized) && old(isListening) ==> !isListening && enabled == {}
    {
      if !isInitialized || !isListening {
        return;
      }
      enabled := enabled - {Accelerometer};
      if gyroscope {
        enabled := enabled - {Gyroscope};
      }
      if magnetometer {
        enabled := enabled - {Magnetometer};
      }
      assert Accelerometer !in enabled && Gyroscope !in enabled && Magnetometer !in enabled;
      forall k | k in enabled ensures false {
        match k
        case Accelerometer =>
        case Gyroscope =>
        case Magnetometer =>
      }
      isListening := false;
    }

    /** Installs (`present`) or clears the accelerometer callback. */
    method SetDataCallback(present: bool)
      requires Valid()
      modifies this`dataCallback
      ensures Valid() && dataCallback == present
    {
      dataCallback := present;
    }

    /** Installs (`present`) or clears the gyroscope callback. */
    method SetGyroscopeCallback(present: bool)
      requires Valid()
      modifies this`gyroscopeCallback
      ensures Valid() && gyroscopeCallback == present
    {
      gyroscopeCallback := present;
    }

    /** Installs (`present`) or clears the magnetometer callback. */
    method SetMagnetometerCallback(present: bool)
      requires Valid()
      modifies this`magnetometerCallback
      ensures Valid() && magnetometerCallback == present
    {
      magnetometerCallback := present;
    }

    function GetCurrentData(): Vec3
      reads this`currentData
    {
      currentData
    }

    function GetCurrentGyroscopeData(): Vec3
      reads this`currentGyroscopeData
    {
      currentGyroscopeData
    }

    function GetCurrentMagnetometerData(): Vec3
      reads this`currentMagnetometerData
    {
      currentMagnetometerData
    }

    /** Handles one event: the record of the event's kind is overwritten,
        field by field, with the event's values, and that kind's callback, if
        set, is invoked with the record just stored. Unknown types change
        nothing. */
    method ProcessSensorEvent(event: SensorEvent)
      modifies this`currentData, this`currentGyroscopeData, this`currentMagnetometerData, this`delivered
      ensures Records() == Step(old(Records()), event)
      ensures delivered == old(delivered) + StepDeliveries(Callbacks(), old(Records()), event)
    {
      if event.sensorType == SENSOR_TYPE_ACCELEROMETER {
        currentData := currentData.(x := event.values.x);
        currentData := currentData.(y := event.values.y);
        currentData := currentData.(z := event.values.z);
        if dataCallback {
          delivered := delivered + [Delivery(Accelerometer, currentData)];
        }
      } else if event.sensorType == SENSOR_TYPE_GYROSCOPE {
        currentGyroscopeData := currentGyroscopeData.(x := event.values.x);
        currentGyroscopeData := currentGyroscopeData.(y := event.values.y);
        currentGyroscopeData := currentGyroscopeData.(z := event.values.z);
        if gyroscopeCallback {
          delivered := delivered + [Delivery(Gyroscope, currentGyroscopeData)];
        }
      } else if event.sensorType == SENSOR_TYPE_MAGNETIC_FIELD {
        currentMagnetometerData := currentMagnetometerData.(x := event.values.x);
        currentMagnetometerData := currentMagnetometerData.(y := event.values.y);
        currentMagnetometerData := currentMagnetometerData.(z := event.values.z);
        if magnetometerCallback {
          delivered := delivered + [Delivery(Magnetometer, currentMagnetometerData)];
        }
      }
    }

    /** The looper callback of the event queue. With no manager it returns 0.
        Otherwise it processes every event the queue yields (`queue`, in
        delivery order) and returns 1: each record ends equal to the last
        event of its kind (or unchanged), and the callbacks are invoked once
        per handled event with that event's values. */
    static method SensorEventCallback(fd: int, events: int, manager: NativeSensorManager?, queue: seq<SensorEvent>)
      returns (handled: int)
      modifies manager
      ensures manager == null ==> handled == 0
      ensures manager != null ==>
                && handled == 1
                && manager.Records() == Drain(old(manager.Records()), queue)
                && manager.delivered == old(manager.delivered) + DrainDeliveries(manager.Callbacks(), old(manager.Records()), queue)
                && manager.State() == old(manager.State()) && manager.Callbacks() == old(manager.Callbacks())
    {
      if manager == null {
        return 0;
      }
      manager.DrainQueue(queue);
      return 1;
    }

    /** The event loop of the callback: every pending event of the queue, in
        order, goes through `ProcessSensorEvent`. */
    method DrainQueue(queue: seq<SensorEvent>)
      modifies this`currentData, this`currentGyroscopeData, this`currentMagnetometerData, this`delivered
      ensures Records() == Drain(old(Records()), queue)
      ensures delivered == old(delivered) + DrainDeliveries(Callbacks(), old(Records()), queue)
    {
      ghost var r0, d0 := Records(), delivered;
      var i := 0;
      while i < |queue|
        invariant 0 <= i <= |queue|
        invariant Records() == Drain(r0, queue[..i])
        invariant delivered == d0 + DrainDeliveries(Callbacks(), r0, queue[..i])
      {
        assert queue[..i + 1] == queue[..i] + [queue[i]];
        DrainSnoc(Callbacks(), r0, queue[..i], queue[i]);
        ProcessSensorEvent(queue[i]);
        i := i + 1;
      }
      assert queue[..i] == queue;
    }
  }

  /** Starting and then stopping a manager that is not listening returns its
      flags and its enabled sensors to what they were. */
  method StartThenStop(m: NativeSensorManager, accelResult: int, gyroResult: int, magResult: int)
    requires m.Valid() && !m.isListening
    modifies m
    ensures m.Valid()
    ensures m.isInitialized == old(m.isInitialized) && m.isListening == old(m.isListening)
    ensures m.enabled == old(m.enabled) == {}
    ensures m.Records() == old(m.Records())
  {
    m.StartListening(accelResult, gyroResult, magResult);
    m.StopListening();
  }

  /** The latest records after a drain, read through the public getters:
      each getter returns the last event of its kind in the drained queue. */
  method DrainThenRead(m: NativeSensorManager, queue: seq<SensorEvent>) returns (accel: Vec3, gyro: Vec3, mag: Vec3)
    requires m.Valid()
    modifies m
    ensures accel == match LastOfKind(queue, Accelerometer) case Some(v) => v case None => old(m.currentData)
    ensures gyro == match LastOfKind(queue, Gyroscope) case Some(v) => v case None => old(m.currentGyroscopeData)
    ensures mag == match LastOfKind(queue, Magnetometer) case Some(v) => v case None => old(m.currentMagnetometerData)
  {
    var handled := NativeSensorManager.SensorEventCallback(0, 0, m, queue);
    accel, gyro, mag := m.GetCurrentData(), m.GetCurrentGyroscopeData(), m.GetCurrentMagnetometerData();
    DrainKeepsLast(old(m.Records()), queue, Accelerometer);
    DrainKeepsLast(old(m.Records()), queue, Gyroscope);
    DrainKeepsLast(old(m.Records()), queue, Magnetometer);
  }
}

/**
 * The Kotlin `NativeSensorManager`: the bridge between the native sensor
 * library and the consumers of the published snapshot. It keeps the latest
 * reading per sensor name (`readingsByKey`), a stable display order of names
 * (`sensorOrder`) and the published snapshot (`_sensorReadings.value`), and
 * gates every lifecycle call into the native library on `isInitialized`.
 *
 * The answers of the native library (`nativeInitialize`, the sensor count,
 * names, types and data) are parameters; the lifecycle calls the manager makes
 * into the library are recorded, in order, in the ghost log `nativeCalls`.
 */
module KotlinBridge {
  import opened SensorTypes
  import opened SensorReadings
  import opened Aggregation

  /** A lifecycle call the manager makes into the native library. */
  datatype NativeCall =
    | NativeInitialize(succeeded: bool)
    | NativeSetCallback
    | NativeStartListening
    | NativeStopListening
    | NativeCleanup

  /** Whether the native library is initialised after the calls of `calls`:
      the last initialisation succeeded and no cleanup followed it. */
  ghost predicate Live(calls: seq<NativeCall>)
  {
    if calls == [] then false
    else match calls[|calls| - 1]
      case NativeInitialize(ok) => ok
      case NativeCleanup => false
      case _ => Live(calls[..|calls| - 1])
  }

  /** Whether call `c` is allowed after `calls`: initialisation only when the
      library is not initialised, every other call only when it is. */
  ghost predicate Permitted(calls: seq<NativeCall>, c: NativeCall)
  {
    if c.NativeInitialize? then !Live(calls) else Live(calls)
  }

  /** Every call of the log was permitted when it was made: in particular no
      start, stop or cleanup ever reaches the library without a successful
      initialisation before it and no cleanup in between. */
  ghost predicate Disciplined(calls: seq<NativeCall>)
  {
    calls == [] ||
    (Disciplined(calls[..|calls| - 1]) && Permitted(calls[..|calls| - 1], calls[|calls| - 1]))
  }

  /** The recursive definition above says the same as: each call of the log
      was permitted after the calls before it. */
  lemma {:induction false} DisciplinedEveryCall(calls: seq<NativeCall>)
    requires Disciplined(calls)
    ensures forall k :: 0 <= k < |calls| ==> Permitted(calls[..k], calls[k])
  {
    if calls != [] {
      var init := calls[..|calls| - 1];
      DisciplinedEveryCall(init);
      forall k | 0 <= k < |calls| ensures Permitted(calls[..k], calls[k]) {
        if k < |init| {
          assert calls[..k] == init[..k];
        }
      }
    }
  }

  /** Registering the callback right after a successful initialisation
      leaves the library initialised. */
  lemma LiveAfterSetCallback(calls: seq<NativeCall>)
    requires calls != [] && calls[|calls| - 1] == NativeInitialize(true)
    ensures Live(calls + [NativeSetCallback])
  {
    assert (calls + [NativeSetCallback])[..|calls|] == calls;
  }

  lemma DisciplinedAppend(calls: seq<NativeCall>, c: NativeCall)
    requires Disciplined(calls) && Permitted(calls, c)
    ensures Disciplined(calls + [c])
  {
    assert (calls + [c])[..|calls|] == calls;
  }

  /** The calls a first initialisation makes into the library: the
      initialisation itself and, when it succeeds, the callback registration. */
  function InitializeCalls(succeeded: bool): (cs: seq<NativeCall>)
    ensures |cs| == if succeeded then 2 else 1
    ensures cs[0] == NativeInitialize(succeeded)
    ensures succeeded ==> cs[1] == NativeSetCallback
  {
    if succeeded then [NativeInitialize(true), NativeSetCallback] else [NativeInitialize(false)]
  }

  /** Initialising when the library is not initialised keeps the log
      disciplined, and leaves the library initialised exactly when the
      initialisation succeeded. */
  lemma InitializeKeepsDiscipline(calls: seq<NativeCall>, succeeded: bool)
    requires Disciplined(calls) && !Live(calls)
    ensures Disciplined(calls + InitializeCalls(succeeded))
    ensures Live(calls + InitializeCalls(succeeded)) == succeeded
  {
    var first := calls + [NativeInitialize(succeeded)];
    DisciplinedAppend(calls, NativeInitialize(succeeded));
    if succeeded {
      DisciplinedAppend(first, NativeSetCallback);
      LiveAfterSetCallback(first);
      assert calls + InitializeCalls(succeeded) == first + [NativeSetCallback];
    } else {
      assert calls + InitializeCalls(succeeded) == first;
    }
  }

  class NativeSensorManager {
    var isInitialized: bool
    var readingsByKey: Readings
    var sensorOrder: seq<string>
    /** The value of the published snapshot flow. */
    var sensorReadings: seq<SensorReading>
    /** The lifecycle calls made into the native library so far. */
    ghost var nativeCalls: seq<NativeCall>

    ghost function State(): Aggregate
      reads this`sensorOrder, this`readingsByKey
    {
      Aggregate(sensorOrder, readingsByKey)
    }

    /** Every name of the order has a reading filed under it, and the
        published snapshot is the snapshot of the current state. */
    ghost predicate SnapshotCurrent()
      reads this`sensorOrder, this`readingsByKey, this`sensorReadings
    {
      Consistent(State()) && sensorReadings == Snapshot(State())
    }

    /** `isInitialized` says whether the native library is initialised, and
        every call made into it so far was permitted. */
    ghost predicate Gated()
      reads this`isInitialized, this`nativeCalls
    {
      isInitialized == Live(nativeCalls) && Disciplined(nativeCalls)
    }

    ghost predicate Valid()
      reads this
    {
      SnapshotCurrent() && Gated()
    }

    constructor ()
      ensures Valid()
      ensures !isInitialized && sensorOrder == [] && readingsByKey == map[] && sensorReadings == []
      ensures nativeCalls == []
    {
      isInitialized := false;
      readingsByKey := map[];
      sensorOrder := [];
      sensorReadings := [];
      nativeCalls := [];
    }

    /** Idempotent initialisation. When already initialised: true, and
        nothing changes. Otherwise the native library is initialised; on
        failure: false and only the failed call is recorded; on success the
        order is rebuilt from the enumeration of the native sensors, their
        readings are filed over the old map, and the snapshot published is the
        enumeration's. */
    method Initialize(nativeOk: bool, native: seq<NativeEntry>) returns (ok: bool)
      requires Valid()
      modifies this
      ensures Valid()
      ensures ok == isInitialized
      ensures old(isInitialized) ==> ok && unchanged(this)
      ensures !old(isInitialized) ==> ok == nativeOk
      ensures !old(isInitialized) && !ok ==>
                && sensorOrder == old(sensorOrder) && readingsByKey == old(readingsByKey)
                && sensorReadings == old(sensorReadings)
      ensures !old(isInitialized) ==> nativeCalls == old(nativeCalls) + InitializeCalls(ok)
      ensures !old(isInitialized) && ok ==>
                && sensorOrder == EnumeratedNames(native, |native|)
                && readingsByKey == Seed(old(readingsByKey), native, |native|)
                && sensorReadings == InitialSnapshot(native)
    {
      if !isInitialized {
        InitializeKeepsDiscipline(nativeCalls, nativeOk);
        isInitialized := nativeOk;
        nativeCalls := nativeCalls + InitializeCalls(nativeOk);
        if isInitialized {
          EnumerateSensors(native);
        }
      }
      ok := isInitialized;
    }

    /** The enumeration of a successful initialize: the order is cleared and
        rebuilt in index order, each index's reading is filed under its name
        over the existing map, and the snapshot is republished. */
    method EnumerateSensors(native: seq<NativeEntry>)
      requires KeyedByName(readingsByKey)
      modifies this`sensorOrder, this`readingsByKey, this`sensorReadings
      ensures SnapshotCurrent()
      ensures sensorOrder == EnumeratedNames(native, |native|)
      ensures readingsByKey == Seed(old(readingsByKey), native, |native|)
      ensures sensorReadings == InitialSnapshot(native)
    {
      ghost var before := readingsByKey;
      var order, byKey := Enumerate(native, readingsByKey);
      sensorOrder, readingsByKey := order, byKey;
      sensorReadings := Published(sensorOrder, readingsByKey);
      EnumerationPublishes(before, native);
    }

    /** The loop of the enumeration, over index 0 up to the sensor count:
        the names in index order, and the readings filed over `byKey`. */
    static method Enumerate(native: seq<NativeEntry>, byKey: Readings) returns (order: seq<string>, filed: Readings)
      ensures order == EnumeratedNames(native, |native|)
      ensures filed == Seed(byKey, native, |native|)
    {
      order, filed := [], byKey;
      var count := |native|;
      for i := 0 to count
        invariant order == EnumeratedNames(native, i)
        invariant filed == Seed(byKey, native, i)
      {
        // name resolution and the data fallback of one index
        var reading := EnumeratedReading(native, i);
        order := order + [reading.name];
        filed := filed[reading.name := reading];
      }
    }

    /** Asks the native library to start listening, only when initialised. */
    method StartListening()
      requires Valid()
      modifies this
      ensures Valid()
      ensures nativeCalls == old(nativeCalls) + if old(isInitialized) then [NativeStartListening] else []
      ensures isInitialized == old(isInitialized) && State() == old(State()) && sensorReadings == old(sensorReadings)
    {
      if isInitialized {
        DisciplinedAppend(nativeCalls, NativeStartListening);
        nativeCalls := nativeCalls + [NativeStartListening];
      }
    }

    /** Asks the native library to stop listening, only when initialised. */
    method StopListening()
      requires Valid()
      modifies this
      ensures Valid()
      ensures nativeCalls == old(nativeCalls) + if old(isInitialized) then [NativeStopListening] else []
      ensures isInitialized == old(isInitialized) && State() == old(State()) && sensorReadings == old(sensorReadings)
    {
      if isInitialized {
        DisciplinedAppend(nativeCalls, NativeStopListening);
        nativeCalls := nativeCalls + [NativeStopListening];
      }
    }

    /** The native sensor count when initialised, 0 otherwise. */
    function GetSensorCount(native: seq<NativeEntry>): (n: int)
      reads this
      ensures n >= 0
      ensures n == 0 <== !isInitialized
      ensures isInitialized ==> n == |native|
    {
      if isInitialized then |native| else 0
    }

    /** Point lookup of sensor `index`. Absent when not initialised, when the
        index is out of range, and when the native name is null (unlike the
        enumeration, no synthetic name is made up); otherwise the reading the
        enumeration would produce for that index. */
    function GetSensorReading(native: seq<NativeEntry>, index: int): (r: Option<SensorReading>)
      reads this
      ensures r.Some? <==> isInitialized && 0 <= index < |native| && native[index].name.Some?
      ensures r.Some? ==> 0 <= index < GetSensorCount(native)
      ensures r.Some? ==> r.value == EnumeratedReading(native, index) && r.value.name == native[index].name.value
    {
      if !isInitialized || index < 0 || index >= |native| then None
      else match native[index].name
        case None => None
        case Some(name) =>
          var data := native[index].data;
          if data.Some? && |data.value| >= 3 then
            Some(SensorReading(name, native[index].sensorType, data.value[0], data.value[1], data.value[2]))
          else
            Some(SensorReading(name, native[index].sensorType, ZERO, ZERO, ZERO))
    }

    /** Tears everything down, only when initialised: the native library is
        cleaned up and the map, the order and the snapshot become empty. */
    method Cleanup()
      requires Valid()
      modifies this
      ensures Valid()
      ensures old(isInitialized) ==>
                && !isInitialized && readingsByKey == map[] && sensorOrder == [] && sensorReadings == []
                && nativeCalls == old(nativeCalls) + [NativeCleanup]
      ensures !old(isInitialized) ==> unchanged(this)
    {
      if isInitialized {
        DisciplinedAppend(nativeCalls, NativeCleanup);
        nativeCalls := nativeCalls + [NativeCleanup];
        isInitialized := false;
        readingsByKey := map[];
        sensorOrder := [];
        sensorReadings := [];
      }
    }

    /** The callback for one sensor event, accepted in every state (also
        after cleanup): the reading replaces the one filed under its name,
        a new name is appended to the order, and the snapshot is republished. */
    method OnSensorEvent(sensorName: string, sensorType: int, x: Axis, y: Axis, z: Axis)
      requires Valid()
      modifies this
      ensures Valid()
      ensures State() == ApplyEvent(old(State()), SensorReading(sensorName, sensorType, x, y, z))
      ensures isInitialized == old(isInitialized) && nativeCalls == old(nativeCalls)
    {
      ghost var before := State();
      readingsByKey := readingsByKey[sensorName := SensorReading(sensorName, sensorType, x, y, z)];
      if sensorName !in sensorOrder {
        sensorOrder := sensorOrder + [sensorName];
      }
      sensorReadings := Published(sensorOrder, readingsByKey);
      assert State() == ApplyEvent(before, SensorReading(sensorName, sensorType, x, y, z));
      EventConsistent(before, SensorReading(sensorName, sensorType, x, y, z));
    }
  }

  /** `onSensorEvent` has no initialisation guard: an event that arrives
      after the cleanup of an initialised manager files its reading again, and the snapshot republished is
      that reading alone, while the manager stays uninitialised. */
  method EventAfterCleanup(m: NativeSensorManager, sensorName: string, sensorType: int, x: Axis, y: Axis, z: Axis)
    requires m.Valid() && m.isInitialized
    modifies m
    ensures m.Valid() && !m.isInitialized
    ensures m.sensorOrder == [sensorName]
    ensures m.sensorReadings == [SensorReading(sensorName, sensorType, x, y, z)]
  {
    m.Cleanup();
    m.OnSensorEvent(sensorName, sensorType, x, y, z);
    SnapshotNames(m.State());
  }
}

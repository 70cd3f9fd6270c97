# IMU sensor bridge — a Dafny model

This project models the two classes at the core of the Android IMU app. Both
are named `NativeSensorManager`.

- **The Kotlin aggregator and bridge** (`NativeSensorManager.kt`). It keeps the
  latest `SensorReading` per sensor name (`readingsByKey`) and a stable
  display order of names (`sensorOrder`). It publishes the snapshot
  `sensorOrder.mapNotNull { readingsByKey[it] }` to its consumers. It gates
  every lifecycle call into the native library on `isInitialized`. A
  successful `initialize` enumerates the native sensors in index order. A
  missing name becomes `"Sensor $i"`, and missing or short data becomes zero
  axes. `onSensorEvent` is a last-write-wins upsert that appends a name to the
  order only when the name is new. `cleanup` clears everything, but only when
  the manager is initialised.
- **The C++ acquisition state machine** (`sensor_manager.cpp`). Two flags,
  `isInitialized` and `isListening`, guard initialisation, `startListening` and
  `stopListening`.
  - A missing sensor manager, accelerometer, looper or event queue makes
    initialisation fail. A missing gyroscope or magnetometer is tolerated.
  - `processSensorEvent` overwrites the record of the event's kind and invokes
    that kind's callback, if one is set.
  - The looper callback drains the queue and processes every event in order.

Files:

- `sensor_types.dfy` (`SensorTypes`) holds the axis type, `Option` and the
  ASENSOR_TYPE codes.
- `sensor_reading.dfy` (`SensorReadings`) holds `SensorReading` with its unit,
  and the decimal text behind `"Sensor $i"`.
- `aggregation.dfy` (`Aggregation`) is the pure specification of the Kotlin
  aggregator: the snapshot, events, and the enumeration.
- `kotlin_bridge.dfy` (`KotlinBridge`) is the Kotlin class. It has a ghost log
  of the calls made into the native library.
- `native_records.dfy` (`SensorRecords`) holds the latest-reading records and
  the pure account of processing and draining events.
- `native_acquisition.dfy` (`NativeAcquisition`) is the C++ class. Ghost fields
  record the enabled sensors, their event rates and every callback invocation.

Whatever the native library or the NDK answers is a parameter of the
operation that asks for it:

- the Kotlin side gets `nativeOk` and one `NativeEntry` per sensor index (name,
  type and data, each possibly null);
- the C++ side gets an `NdkEnvironment` for initialisation, the enable results
  as integers, and the events a queue drain yields as a sequence.

Axis values are only copied, so they are `real` and no arithmetic is done on
them.

## Model

All Kotlin paths are `app/src/main/java/com/example/imu/NativeSensorManager.kt`
and all C++ paths are `app/src/main/cpp/sensor_manager.cpp`.

| member | source | states |
|---|---|---|
| SensorReadings.SensorReading.Unit | app/src/main/java/com/example/imu/NativeSensorManager.kt:19-24 | the unit is "m/s²" exactly for type 1, "rad/s" exactly for type 4, "µT" exactly for type 2, and "" exactly for every other type |
| SensorReadings.SyntheticName | app/src/main/java/com/example/imu/NativeSensorManager.kt:54 | defines "Sensor $i"; `SensorReadings.SyntheticNameInjective` states that it differs for different indices |
| SensorReadings.DecimalRoundTrip | app/src/main/java/com/example/imu/NativeSensorManager.kt:54 | reading back the decimal text of an index gives the index |
| SensorReadings.DecimalStringInjective | app/src/main/java/com/example/imu/NativeSensorManager.kt:54 | different indices have different decimal texts |
| SensorReadings.SyntheticNameInjective | app/src/main/java/com/example/imu/NativeSensorManager.kt:54 | "Sensor $i" differs for different indices |
| Aggregation.Published | app/src/main/java/com/example/imu/NativeSensorManager.kt:63 | the `mapNotNull` snapshot never has more entries than the order |
| Aggregation.PublishedExact | app/src/main/java/com/example/imu/NativeSensorManager.kt:60-63 | when every name of the order has a reading, the snapshot has exactly one entry per name, and entry i is the reading of the i-th name |
| Aggregation.SnapshotNames | app/src/main/java/com/example/imu/NativeSensorManager.kt:63 | in a consistent state the snapshot length equals the order length, and entry i carries the i-th name |
| Aggregation.AppendIfAbsent | app/src/main/java/com/example/imu/NativeSensorManager.kt:106 | defines appending a name to the order only when absent; `Aggregation.AppendIfAbsentKeepsOrder` states its properties |
| Aggregation.ApplyEvent | app/src/main/java/com/example/imu/NativeSensorManager.kt:104-107 | defines the state after one `onSensorEvent`: the reading filed under its name, the name appended when new; `Aggregation.EventConsistent` and `Aggregation.EventSnapshot` state its properties |
| Aggregation.AppendIfAbsentKeepsOrder | app/src/main/java/com/example/imu/NativeSensorManager.kt:106 | appending a name only when absent keeps the old order as a prefix, grows it by at most one, adds exactly that name, and preserves "no duplicates" |
| Aggregation.EventConsistent | app/src/main/java/com/example/imu/NativeSensorManager.kt:105-106 | after an event every name of the order still has a reading filed under its own name |
| Aggregation.EventSnapshot | app/src/main/java/com/example/imu/NativeSensorManager.kt:104-107 | after an event the snapshot holds the new reading at its name's position, every other entry is unchanged, a new name adds the reading at the end, and the reading is in the snapshot |
| Aggregation.ApplyEvents | app/src/main/java/com/example/imu/NativeSensorManager.kt:104-107 | defines the state after a sequence of `onSensorEvent` calls in delivery order; `Aggregation.EventsOrder`, `Aggregation.EventsLastWriteWins` and `Aggregation.EventsSnapshot` state its properties |
| Aggregation.LastFor | app/src/main/java/com/example/imu/NativeSensorManager.kt:105 | the latest reading of a name in an event sequence is one of those events and carries that name, and no later event names it; it is absent exactly when no event names it |
| Aggregation.EventsOrder | app/src/main/java/com/example/imu/NativeSensorManager.kt:104-107 | a sequence of events keeps the state consistent and only extends the order; no duplicate is ever introduced; the order afterwards holds exactly the old names plus the names seen |
| Aggregation.EventsLastWriteWins | app/src/main/java/com/example/imu/NativeSensorManager.kt:105 | after a sequence of events every name seen holds the reading of its last event, and every other name keeps its reading |
| Aggregation.EventsSnapshot | app/src/main/java/com/example/imu/NativeSensorManager.kt:104-107 | after a sequence of events, snapshot entry i is the last event for the i-th name, or its earlier reading when no event named it |
| Aggregation.ResolvedName | app/src/main/java/com/example/imu/NativeSensorManager.kt:54 | defines the name of index i: the native name, or "Sensor $i" when it is null; `Aggregation.UnnamedSensorsAreDistinct` and `Aggregation.SyntheticNameCanCollide` state when these names collide |
| Aggregation.EnumeratedReading | app/src/main/java/com/example/imu/NativeSensorManager.kt:54-61 | defines the reading of index i: resolved name, type, and the first three data values or zero axes for null or short data; `Aggregation.SeedAt` and `Aggregation.InitialSnapshotShape` tie it to the enumeration, and `KotlinBridge.NativeSensorManager.GetSensorReading` to the lookup |
| Aggregation.EnumeratedNames | app/src/main/java/com/example/imu/NativeSensorManager.kt:53-54 | the enumerated order has one name per index, in index order, and each is the native name or "Sensor $i" |
| Aggregation.Seed | app/src/main/java/com/example/imu/NativeSensorManager.kt:53-61 | defines the map after filing the readings of the first k indices over a map, later indices overwriting earlier ones; `Aggregation.SeedConsistent`, `Aggregation.SeedAgrees` and `Aggregation.SeedAt` state its properties |
| Aggregation.InitialSnapshot | app/src/main/java/com/example/imu/NativeSensorManager.kt:63 | defines the snapshot published by a successful initialise; `Aggregation.InitialSnapshotShape` and `Aggregation.EnumerationPublishes` state its properties |
| Aggregation.SeedConsistent | app/src/main/java/com/example/imu/NativeSensorManager.kt:53-62 | filing the enumerated readings over a map keyed by name leaves every enumerated name with a reading under its own name |
| Aggregation.SeedAgrees | app/src/main/java/com/example/imu/NativeSensorManager.kt:53-62 | whatever the map held before, every enumerated name ends with the same reading |
| Aggregation.SeedAt | app/src/main/java/com/example/imu/NativeSensorManager.kt:53-61 | when resolved names are distinct, each name maps to the reading enumerated for its own index |
| Aggregation.SeededSnapshotIgnoresOldMap | app/src/main/java/com/example/imu/NativeSensorManager.kt:51-63 | the snapshot published by initialisation does not depend on the stale entries left in the map |
| Aggregation.EnumerationPublishes | app/src/main/java/com/example/imu/NativeSensorManager.kt:51-63 | enumerating over a map keyed by name gives a consistent state whose snapshot is the initial snapshot |
| Aggregation.InitialSnapshotShape | app/src/main/java/com/example/imu/NativeSensorManager.kt:51-63 | the initial snapshot has one entry per index, in index order, each with that index's resolved name; with distinct names each entry is the index's reading (zero axes for null or short data) and the order has no duplicates |
| Aggregation.UnnamedSensorsAreDistinct | app/src/main/java/com/example/imu/NativeSensorManager.kt:54 | when the native layer names no sensor, the resolved names are all distinct |
| Aggregation.SyntheticNameCanCollide | app/src/main/java/com/example/imu/NativeSensorManager.kt:54-61 | an unnamed sensor 0 next to a sensor natively named "Sensor 0" collides, and the map then holds one entry for two indices |
| KotlinBridge.DisciplinedEveryCall | app/src/main/java/com/example/imu/NativeSensorManager.kt:46-102 | in a disciplined log, every call was permitted when it was made: initialise only while not initialised, every other call only while initialised |
| KotlinBridge.LiveAfterSetCallback | app/src/main/java/com/example/imu/NativeSensorManager.kt:48-50 | registering the callback right after a successful native initialisation leaves the library initialised |
| KotlinBridge.DisciplinedAppend | app/src/main/java/com/example/imu/NativeSensorManager.kt:69-79 | appending a permitted call keeps the log disciplined |
| KotlinBridge.InitializeCalls | app/src/main/java/com/example/imu/NativeSensorManager.kt:48-50 | a first initialisation makes the initialise call first; when it succeeded the second and last call is the callback registration, otherwise it is the only call |
| KotlinBridge.InitializeKeepsDiscipline | app/src/main/java/com/example/imu/NativeSensorManager.kt:46-50 | initialising while not initialised keeps the log disciplined and leaves the library initialised exactly when the native initialisation succeeded |
| KotlinBridge.NativeSensorManager.constructor | app/src/main/java/com/example/imu/NativeSensorManager.kt:39-44 | a new manager is uninitialised, with an empty map, order and snapshot, and no native call made |
| KotlinBridge.NativeSensorManager.Initialize | app/src/main/java/com/example/imu/NativeSensorManager.kt:46-67 | idempotent: when already initialised it returns true and changes nothing; on native failure it returns false and only the failed call is logged; on success the order is the enumerated names, the map is the readings filed over the old map, and the snapshot is the initial snapshot; the result is always the new `isInitialized` |
| KotlinBridge.NativeSensorManager.EnumerateSensors | app/src/main/java/com/example/imu/NativeSensorManager.kt:51-63 | the order is rebuilt from scratch in index order, the readings are filed over the existing map, and the published snapshot is the initial snapshot of the native sensors |
| KotlinBridge.NativeSensorManager.Enumerate | app/src/main/java/com/example/imu/NativeSensorManager.kt:52-62 | the enumeration loop yields the enumerated names and the map with every index's reading filed under its resolved name |
| KotlinBridge.NativeSensorManager.StartListening | app/src/main/java/com/example/imu/NativeSensorManager.kt:69-73 | the native start is called exactly when initialised; nothing else changes |
| KotlinBridge.NativeSensorManager.StopListening | app/src/main/java/com/example/imu/NativeSensorManager.kt:75-79 | the native stop is called exactly when initialised; nothing else changes |
| KotlinBridge.NativeSensorManager.GetSensorCount | app/src/main/java/com/example/imu/NativeSensorManager.kt:81 | 0 when not initialised, otherwise the native count |
| KotlinBridge.NativeSensorManager.GetSensorReading | app/src/main/java/com/example/imu/NativeSensorManager.kt:83-92 | a reading exists exactly when initialised, the index is within the count and the native name is not null (no "Sensor $i" substitution); it is then the reading the enumeration makes for that index, under the native name |
| KotlinBridge.NativeSensorManager.Cleanup | app/src/main/java/com/example/imu/NativeSensorManager.kt:94-102 | when initialised, the native cleanup is called and the flag, the map, the order and the snapshot are cleared; otherwise nothing changes |
| KotlinBridge.NativeSensorManager.OnSensorEvent | app/src/main/java/com/example/imu/NativeSensorManager.kt:104-108 | in every state, the state becomes the last-write-wins update with the new reading, the snapshot stays current, and the flag and the native calls are untouched |
| KotlinBridge.EventAfterCleanup | app/src/main/java/com/example/imu/NativeSensorManager.kt:94-108 | an event after the cleanup of an initialised manager re-adds its name, and the snapshot is that one reading, while the manager stays uninitialised |
| SensorRecords.KindOf | app/src/main/cpp/sensor_manager.cpp:162-188 | type 1 is handled as the accelerometer, type 4 as the gyroscope and type 2 as the magnetometer, each exactly |
| SensorRecords.Step | app/src/main/cpp/sensor_manager.cpp:161-190 | defines the records after processing one event; `SensorRecords.StepWritesOneRecord` states which record it writes |
| SensorRecords.StepDeliveries | app/src/main/cpp/sensor_manager.cpp:167-185 | defines the callback invocation one event causes; `SensorRecords.DrainDeliversEventValues` states what a drain of them delivers |
| SensorRecords.Drain | app/src/main/cpp/sensor_manager.cpp:154-156 | defines the records after processing a sequence of events in order; `SensorRecords.DrainKeepsLast` and `SensorRecords.DrainIgnoresUnknownTypes` state its properties |
| SensorRecords.DrainDeliveries | app/src/main/cpp/sensor_manager.cpp:154-156 | defines the callback invocations caused by processing a sequence of events in order; `SensorRecords.DrainDeliversEventValues` states that they are the events of known, set kinds with their own values |
| SensorRecords.StepWritesOneRecord | app/src/main/cpp/sensor_manager.cpp:161-190 | one event writes only the record of its kind, with its own values; the other records, and all records for an unknown type, are unchanged |
| SensorRecords.DrainSnoc | app/src/main/cpp/sensor_manager.cpp:154-156 | draining one more event extends the records and the callback invocations by one processing step |
| SensorRecords.LastOfKind | app/src/main/cpp/sensor_manager.cpp:154-156 | the values of the last event of a kind: they are the values of an event of that kind that no later event of that kind follows; absent exactly when no event of that kind was delivered |
| SensorRecords.DrainKeepsLast | app/src/main/cpp/sensor_manager.cpp:147-159 | after a drain each record equals the last event of its kind, or is unchanged when there was none |
| SensorRecords.DrainDeliversEventValues | app/src/main/cpp/sensor_manager.cpp:164-185 | a drain invokes a callback once for each event of a known kind whose callback is set, in order, with that event's own values |
| SensorRecords.DrainIgnoresUnknownTypes | app/src/main/cpp/sensor_manager.cpp:186-188 | events of an unknown type leave the records unchanged |
| NativeAcquisition.NativeSensorManager.constructor | app/src/main/cpp/sensor_manager.cpp:8-20 | no handles, both flags down, all three records zero, no callback, nothing enabled |
| NativeAcquisition.NativeSensorManager.Initialize | app/src/main/cpp/sensor_manager.cpp:32-80 | idempotent when initialised (returns true, no handle changes); otherwise it succeeds exactly when the manager, the accelerometer, the looper and the queue are all available, whatever the gyroscope and magnetometer; on success their handles follow availability; `isInitialized` equals the result |
| NativeAcquisition.NativeSensorManager.StartListening | app/src/main/cpp/sensor_manager.cpp:82-109 | a no-op unless initialised and not listening; then a failed accelerometer enable leaves it not listening with nothing enabled; otherwise it listens, with the accelerometer enabled and each present optional sensor enabled exactly when its enable succeeded, all at 200000 µs |
| NativeAcquisition.NativeSensorManager.StopListening | app/src/main/cpp/sensor_manager.cpp:111-121 | a no-op unless initialised and listening; then nothing stays enabled and it stops listening |
| NativeAcquisition.NativeSensorManager.SetDataCallback | app/src/main/cpp/sensor_manager.cpp:123-125 | the accelerometer callback becomes the one given |
| NativeAcquisition.NativeSensorManager.SetGyroscopeCallback | app/src/main/cpp/sensor_manager.cpp:127-129 | the gyroscope callback becomes the one given |
| NativeAcquisition.NativeSensorManager.SetMagnetometerCallback | app/src/main/cpp/sensor_manager.cpp:131-133 | the magnetometer callback becomes the one given |
| NativeAcquisition.NativeSensorManager.ProcessSensorEvent | app/src/main/cpp/sensor_manager.cpp:161-190 | the records become one processing step of the event, and the invocations are extended by the callback of the event's kind, if set, with the record just stored |
| NativeAcquisition.NativeSensorManager.DrainQueue | app/src/main/cpp/sensor_manager.cpp:153-156 | processing every queued event in order leaves the records and the invocations as the drain of the queue |
| NativeAcquisition.NativeSensorManager.SensorEventCallback | app/src/main/cpp/sensor_manager.cpp:147-159 | returns 0 with no manager; otherwise it drains the whole queue in order, leaves flags, handles and callbacks unchanged, and returns 1 |
| NativeAcquisition.StartThenStop | app/src/main/cpp/sensor_manager.cpp:82-121 | starting then stopping a manager that is not listening returns both flags to what they were, with nothing enabled |
| NativeAcquisition.DrainThenRead | app/src/main/cpp/sensor_manager.cpp:135-159 | after a drain each getter returns the last event of its kind, or the record from before the drain |

## Left out

- The Kotlin natives `nativeGetSensorCount`, `nativeGetSensorName`, `nativeGetSensorType` and `nativeGetSensorData` are not defined by `app/src/main/cpp/sensor_jni.cpp`. They are modelled as one `NativeEntry` per index. The count is the number of entries, and it is assumed to stay the same between calls.
- `nativeInitialize` is defined by `app/src/main/cpp/sensor_jni.cpp`, but its result depends on the NDK, so it is modelled as the parameter `nativeOk`.
- KotlinBridge.NativeSensorManager.GetSensorCount: a negative native count is not modelled. The count is a sequence length. The source's `0 until count` loop would enumerate nothing for a negative count, but `getSensorCount` would return the negative value.
- The calls the Kotlin manager makes into the library are recorded as a ghost log of calls. What the library does with them is not part of this model.
- NativeAcquisition.NativeSensorManager.Initialize: the handles written before a failing step (for example `sensorManager` when the accelerometer is missing) are set in the body as the source sets them. The contract does not state them.
- NDK handles are modelled as whether they are present. Sensor enabling and event rates are ghost state, and the looper identifier 3 is not modelled.
- The callbacks of the C++ class (`std::function`) are modelled as whether each one is set. An invocation is recorded in a ghost log together with the record passed to it.
- NativeAcquisition.NativeSensorManager.GetCurrentData, GetCurrentGyroscopeData and GetCurrentMagnetometerData: they only return a field, so they carry no contract of their own. What they return after a drain is stated by `NativeAcquisition.DrainThenRead`.
- NativeAcquisition.NativeSensorManager.ProcessSensorEvent: the acceleration, vector and magnetic views of an NDK event are one triple of values here.
- The event queue is a sequence given up front. The callback drains it completely, and events arriving during a drain are not modelled.
- The destructor of the C++ class is not modelled. It stops listening, disables the sensors and destroys the queue through NDK calls.
- The model's `Enumerate` loop runs on local copies and writes the fields once. The source updates `sensorOrder` and `readingsByKey` in place on every iteration. The intermediate states are not captured; no code observes them, since the model has no concurrency.
- Concurrency is not modelled. Events and lifecycle calls are sequential, and the source has no locking.
- Logging is not modelled, and neither are the Kotlin `StateFlow` machinery (only its current value is modelled) and float formatting. Axis values are `real` and are only copied.
- `app/src/main/cpp/sensor_manager.h` declares only the accelerometer fields. The model follows the fields and methods that `sensor_manager.cpp` uses.
- `app/src/main/cpp/sensor_jni.cpp` (JNI plumbing, whose callback targets a method the Kotlin class does not have) is not part of this model. Neither are `app/src/main/java/com/example/imu/SensorManager.kt` (a thin wrapper over the Android sensor API), `CameraPreview.kt`, `MainActivity.kt` (UI and camera) or the build configuration.
- Aggregation.Published: its own contract is only a length bound. Exact contents are stated by `Aggregation.PublishedExact` and `Aggregation.SnapshotNames`.
- "No duplicate names" holds only when the resolved names are distinct. The Kotlin enumeration appends every resolved name without checking. A native name equal to a synthetic one therefore collides (`Aggregation.SyntheticNameCanCollide`). Unnamed sensors alone never collide (`Aggregation.UnnamedSensorsAreDistinct`).
- A successful Kotlin `initialize` clears the order but not `readingsByKey`. Readings left from earlier events stay in the map. They are never published, because the snapshot follows the order (`Aggregation.SeededSnapshotIgnoresOldMap`).

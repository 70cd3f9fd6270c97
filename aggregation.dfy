/**
 * The pure specification of the Kotlin aggregator: the published snapshot
 * (`sensorOrder.mapNotNull { readingsByKey[it] }`), the last-write-wins
 * update performed for every sensor event, and the seeding of the order and
 * the map by the enumeration that a successful `initialize` runs.
 */
module Aggregation {
  import opened SensorTypes
  import opened SensorReadings

  /** What the native layer answers for one sensor index: its name (possibly
      null), its type code and its current data (possibly null, possibly
      shorter than three values). */
  datatype NativeEntry = NativeEntry(name: Option<string>, sensorType: int, data: Option<seq<Axis>>)

  type Readings = map<string, SensorReading>

  /** The aggregator's state: the display order of names and the latest
      reading per name. */
  datatype Aggregate = Aggregate(order: seq<string>, byKey: Readings)

  ghost predicate NoDuplicates(s: seq<string>)
  {
    forall i, j :: 0 <= i < j < |s| ==> s[i] != s[j]
  }

  /** Every name of the order has a reading. */
  ghost predicate OrderCovered(order: seq<string>, byKey: Readings)
  {
    forall i :: 0 <= i < |order| ==> order[i] in byKey
  }

  /** Every reading is filed under its own name. */
  ghost predicate KeyedByName(byKey: Readings)
  {
    forall n :: n in byKey ==> byKey[n].name == n
  }

  ghost predicate Consistent(a: Aggregate)
  {
    OrderCovered(a.order, a.byKey) && KeyedByName(a.byKey)
  }

  /** The snapshot published to consumers: the reading of every name of the
      order that has one, in order (Kotlin `mapNotNull`). */
  function Published(order: seq<string>, byKey: Readings): (snap: seq<SensorReading>)
    ensures |snap| <= |order|
  {
    if order == [] then []
    else
      var last := order[|order| - 1];
      Published(order[..|order| - 1], byKey) + (if last in byKey then [byKey[last]] else [])
  }

  function Snapshot(a: Aggregate): seq<SensorReading>
  {
    Published(a.order, a.byKey)
  }

  /** When every name of the order has a reading, the snapshot holds exactly
      one entry per name of the order, at the same position. */
  lemma {:induction false} PublishedExact(order: seq<string>, byKey: Readings)
    requires OrderCovered(order, byKey)
    ensures |Published(order, byKey)| == |order|
    ensures forall i :: 0 <= i < |order| ==> Published(order, byKey)[i] == byKey[order[i]]
  {
    if order != [] {
      PublishedExact(order[..|order| - 1], byKey);
    }
  }

  /** Entry `i` of a consistent aggregate's snapshot is the reading of the
      `i`-th name, and carries that name. */
  lemma SnapshotNames(a: Aggregate)
    requires Consistent(a)
    ensures |Snapshot(a)| == |a.order|
    ensures forall i :: 0 <= i < |a.order| ==> Snapshot(a)[i] == a.byKey[a.order[i]] && Snapshot(a)[i].name == a.order[i]
  {
    PublishedExact(a.order, a.byKey);
  }

  // ---------------------------------------------------------------------
  // Sensor events: last write wins, a name is appended only when new.
  // ---------------------------------------------------------------------

  /** `if (name !in order) order.add(name)` */
  function AppendIfAbsent(order: seq<string>, name: string): (r: seq<string>)
  {
    if name in order then order else order + [name]
  }

  /** Appending a name only when absent keeps the old order as a prefix,
      adds exactly that name, and never creates a duplicate. */
  lemma AppendIfAbsentKeepsOrder(order: seq<string>, name: string)
    ensures order <= AppendIfAbsent(order, name) && |AppendIfAbsent(order, name)| <= |order| + 1
    ensures forall n :: n in AppendIfAbsent(order, name) <==> n in order || n == name
    ensures NoDuplicates(order) ==> NoDuplicates(AppendIfAbsent(order, name))
  {
  }

  /** The aggregate after one `onSensorEvent` carrying reading `r`. */
  function ApplyEvent(a: Aggregate, r: SensorReading): Aggregate
  {
    Aggregate(AppendIfAbsent(a.order, r.name), a.byKey[r.name := r])
  }

  /** An event keeps the aggregate consistent. */
  lemma EventConsistent(a: Aggregate, r: SensorReading)
    requires Consistent(a)
    ensures Consistent(ApplyEvent(a, r))
  {
    var b := ApplyEvent(a, r);
    AppendIfAbsentKeepsOrder(a.order, r.name);
    forall i | 0 <= i < |b.order| ensures b.order[i] in b.byKey {
      if i < |a.order| {
        assert b.order[i] == a.order[i];
      }
    }
  }

  /** After an event, the snapshot holds `r` at the position of its name and
      every other entry is unchanged; a new name adds `r` at the end. */
  lemma EventSnapshot(a: Aggregate, r: SensorReading)
    requires Consistent(a)
    ensures Consistent(ApplyEvent(a, r))
    ensures |Snapshot(a)| == |a.order| && |Snapshot(ApplyEvent(a, r))| == |ApplyEvent(a, r).order|
    ensures forall i :: 0 <= i < |a.order| ==>
              Snapshot(ApplyEvent(a, r))[i] == if a.order[i] == r.name then r else Snapshot(a)[i]
    ensures r.name !in a.order ==> Snapshot(ApplyEvent(a, r)) == Snapshot(a) + [r]
    ensures r in Snapshot(ApplyEvent(a, r))
  {
    var b := ApplyEvent(a, r);
    EventConsistent(a, r);
    AppendIfAbsentKeepsOrder(a.order, r.name);
    SnapshotNames(a);
    SnapshotNames(b);
    var sa, sb := Snapshot(a), Snapshot(b);
    forall i | 0 <= i < |a.order|
      ensures sb[i] == if a.order[i] == r.name then r else sa[i]
    {
      assert b.order[i] == a.order[i];
    }
    var k :| 0 <= k < |b.order| && b.order[k] == r.name;
    assert sb[k] == r;
    if r.name !in a.order {
      assert |sb| == |sa| + 1;
      assert sb == sa + [r];
    }
  }

  /** The aggregate after a sequence of events, applied in delivery order
      (the last event of `rs` is applied last). */
  function ApplyEvents(a: Aggregate, rs: seq<SensorReading>): Aggregate
  {
    if rs == [] then a else ApplyEvent(ApplyEvents(a, rs[..|rs| - 1]), rs[|rs| - 1])
  }

  /** The last reading in `rs` carrying name `n`, if any: the latest value
      for that name, stated without reference to the aggregate. */
  function LastFor(rs: seq<SensorReading>, n: string): (o: Option<SensorReading>)
    ensures o.Some? ==> o.value in rs && o.value.name == n
    ensures o.Some? ==> exists j :: 0 <= j < |rs| && rs[j] == o.value && forall k :: j < k < |rs| ==> rs[k].name != n
    ensures o.None? <==> forall j :: 0 <= j < |rs| ==> rs[j].name != n
  {
    if rs == [] then None
    else if rs[|rs| - 1].name == n then Some(rs[|rs| - 1])
    else LastFor(rs[..|rs| - 1], n)
  }

  /** Events keep the aggregate consistent, only extend the order (so the
      first-seen order of names is kept), add exactly the names seen, and
      never introduce a duplicate. */
  lemma {:induction false} EventsOrder(a: Aggregate, rs: seq<SensorReading>)
    requires Consistent(a)
    ensures Consistent(ApplyEvents(a, rs))
    ensures a.order <= ApplyEvents(a, rs).order
    ensures NoDuplicates(a.order) ==> NoDuplicates(ApplyEvents(a, rs).order)
    ensures forall n :: n in ApplyEvents(a, rs).order <==> n in a.order || LastFor(rs, n).Some?
  {
    if rs != [] {
      var init, r := rs[..|rs| - 1], rs[|rs| - 1];
      var b := ApplyEvents(a, init);
      EventsOrder(a, init);
      EventConsistent(b, r);
      AppendIfAbsentKeepsOrder(b.order, r.name);
      assert ApplyEvents(a, rs) == ApplyEvent(b, r);
      forall n ensures n in ApplyEvents(a, rs).order <==> n in a.order || LastFor(rs, n).Some? {
        assert LastFor(rs, n).Some? <==> r.name == n || LastFor(init, n).Some?;
      }
    }
  }

  /** Last write wins: every name seen in the events holds the reading of its
      last event, and every other name keeps its reading. */
  lemma {:induction false} EventsLastWriteWins(a: Aggregate, rs: seq<SensorReading>)
    ensures forall n :: LastFor(rs, n).Some? ==>
              n in ApplyEvents(a, rs).byKey && ApplyEvents(a, rs).byKey[n] == LastFor(rs, n).value
    ensures forall n :: LastFor(rs, n).None? && n in a.byKey ==>
              n in ApplyEvents(a, rs).byKey && ApplyEvents(a, rs).byKey[n] == a.byKey[n]
  {
    if rs != [] {
      EventsLastWriteWins(a, rs[..|rs| - 1]);
    }
  }

  /** The snapshot after a sequence of events holds, for every name of the
      order, the reading of that name's last event, or its earlier reading
      when no event named it. */
  lemma EventsSnapshot(a: Aggregate, rs: seq<SensorReading>)
    requires Consistent(a)
    ensures |Snapshot(ApplyEvents(a, rs))| == |ApplyEvents(a, rs).order|
    ensures forall i :: 0 <= i < |ApplyEvents(a, rs).order| ==>
              var n := ApplyEvents(a, rs).order[i];
              match LastFor(rs, n)
              case Some(r) => Snapshot(ApplyEvents(a, rs))[i] == r
              case None => n in a.byKey && Snapshot(ApplyEvents(a, rs))[i] == a.byKey[n]
  {
    EventsOrder(a, rs);
    EventsLastWriteWins(a, rs);
    SnapshotNames(ApplyEvents(a, rs));
    forall i | 0 <= i < |ApplyEvents(a, rs).order| && LastFor(rs, ApplyEvents(a, rs).order[i]).None?
      ensures ApplyEvents(a, rs).order[i] in a.byKey
    {
      var n := ApplyEvents(a, rs).order[i];
      assert n in a.order;
      var k :| 0 <= k < |a.order| && a.order[k] == n;
    }
  }

  // ---------------------------------------------------------------------
  // Enumeration, run by a successful initialize.
  // ---------------------------------------------------------------------

  /** The name given to index `i`: the native name, or "Sensor $i". */
  function ResolvedName(native: seq<NativeEntry>, i: nat): string
    requires i < |native|
  {
    match native[i].name
    case Some(n) => n
    case None => SyntheticName(i)
  }

  /** The reading enumerated for index `i`: its resolved name, its type, and
      its first three data values, or all axes zero when the data is null or
      shorter than three values. */
  function EnumeratedReading(native: seq<NativeEntry>, i: nat): (r: SensorReading)
    requires i < |native|
  {
    var d := native[i].data;
    if d.Some? && |d.value| >= 3 then
      SensorReading(ResolvedName(native, i), native[i].sensorType, d.value[0], d.value[1], d.value[2])
    else
      SensorReading(ResolvedName(native, i), native[i].sensorType, ZERO, ZERO, ZERO)
  }

  /** The names of the first `k` indices, in index order. */
  function EnumeratedNames(native: seq<NativeEntry>, k: nat): (names: seq<string>)
    requires k <= |native|
    ensures |names| == k
    ensures forall i :: 0 <= i < k ==> names[i] == ResolvedName(native, i)
  {
    if k == 0 then [] else EnumeratedNames(native, k - 1) + [ResolvedName(native, k - 1)]
  }

  /** The map after filing the readings of the first `k` indices over `byKey`,
      each under its resolved name, later indices overwriting earlier ones. */
  function Seed(byKey: Readings, native: seq<NativeEntry>, k: nat): Readings
    requires k <= |native|
  {
    if k == 0 then byKey
    else Seed(byKey, native, k - 1)[ResolvedName(native, k - 1) := EnumeratedReading(native, k - 1)]
  }

  /** The snapshot published by a successful initialize. */
  function InitialSnapshot(native: seq<NativeEntry>): seq<SensorReading>
  {
    Published(EnumeratedNames(native, |native|), Seed(map[], native, |native|))
  }

  ghost predicate DistinctNames(native: seq<NativeEntry>)
  {
    forall i, j :: 0 <= i < j < |native| ==> ResolvedName(native, i) != ResolvedName(native, j)
  }

  /** Seeding keeps the map keyed by name and covers every enumerated name. */
  lemma {:induction false} SeedConsistent(byKey: Readings, native: seq<NativeEntry>, k: nat)
    requires k <= |native|
    requires KeyedByName(byKey)
    ensures Consistent(Aggregate(EnumeratedNames(native, k), Seed(byKey, native, k)))
  {
    if k > 0 {
      SeedConsistent(byKey, native, k - 1);
    }
  }

  /** Over two different starting maps, seeding gives the same reading for
      every enumerated name: stale entries never show through. */
  lemma {:induction false} SeedAgrees(m1: Readings, m2: Readings, native: seq<NativeEntry>, k: nat)
    requires k <= |native|
    ensures forall i :: 0 <= i < k ==>
              ResolvedName(native, i) in Seed(m1, native, k) && ResolvedName(native, i) in Seed(m2, native, k) &&
              Seed(m1, native, k)[ResolvedName(native, i)] == Seed(m2, native, k)[ResolvedName(native, i)]
  {
    if k > 0 {
      SeedAgrees(m1, m2, native, k - 1);
    }
  }

  /** When the resolved names are distinct, each enumerated name maps to the
      reading enumerated for its own index. */
  lemma {:induction false} SeedAt(byKey: Readings, native: seq<NativeEntry>, k: nat)
    requires k <= |native|
    requires DistinctNames(native)
    ensures forall i :: 0 <= i < k ==>
              ResolvedName(native, i) in Seed(byKey, native, k) &&
              Seed(byKey, native, k)[ResolvedName(native, i)] == EnumeratedReading(native, i)
  {
    if k > 0 {
      SeedAt(byKey, native, k - 1);
    }
  }

  /** Whatever the map held before, the snapshot a successful initialize
      publishes depends only on what the native layer reports. */
  lemma SeededSnapshotIgnoresOldMap(byKey: Readings, native: seq<NativeEntry>)
    ensures Published(EnumeratedNames(native, |native|), Seed(byKey, native, |native|)) == InitialSnapshot(native)
  {
    var names := EnumeratedNames(native, |native|);
    SeedAgrees(byKey, map[], native, |native|);
    PublishedExact(names, Seed(byKey, native, |native|));
    PublishedExact(names, Seed(map[], native, |native|));
  }

  /** Seeding over a map keyed by name gives a consistent aggregate whose
      snapshot is the initial snapshot. */
  lemma EnumerationPublishes(byKey: Readings, native: seq<NativeEntry>)
    requires KeyedByName(byKey)
    ensures Consistent(Aggregate(EnumeratedNames(native, |native|), Seed(byKey, native, |native|)))
    ensures Published(EnumeratedNames(native, |native|), Seed(byKey, native, |native|)) == InitialSnapshot(native)
  {
    SeedConsistent(byKey, native, |native|);
    SeededSnapshotIgnoresOldMap(byKey, native);
  }

  /** The initial snapshot has one entry per index, in index order, each
      carrying the index's resolved name; when those names are distinct the
      entry is exactly the reading enumerated for the index and the order has
      no duplicates. */
  lemma InitialSnapshotShape(native: seq<NativeEntry>)
    ensures |InitialSnapshot(native)| == |native|
    ensures forall i :: 0 <= i < |native| ==> InitialSnapshot(native)[i].name == ResolvedName(native, i)
    ensures DistinctNames(native) ==> NoDuplicates(EnumeratedNames(native, |native|))
    ensures DistinctNames(native) ==> forall i :: 0 <= i < |native| ==> InitialSnapshot(native)[i] == EnumeratedReading(native, i)
  {
    SeedConsistent(map[], native, |native|);
    SnapshotNames(Aggregate(EnumeratedNames(native, |native|), Seed(map[], native, |native|)));
    if DistinctNames(native) {
      SeedAt(map[], native, |native|);
    }
  }

  /** Sensors the native layer leaves unnamed never collide: "Sensor $i" is
      different for every index. */
  lemma UnnamedSensorsAreDistinct(native: seq<NativeEntry>)
    requires forall i :: 0 <= i < |native| ==> native[i].name.None?
    ensures DistinctNames(native)
  {
    forall i, j | 0 <= i < j < |native|
      ensures ResolvedName(native, i) != ResolvedName(native, j)
    {
      SyntheticNameInjective(i, j);
    }
  }

  /** A native name equal to a synthetic one does collide: the enumeration
      then files two indices under one name. */
  lemma SyntheticNameCanCollide(native: seq<NativeEntry>)
    requires |native| == 2 && native[0].name == None && native[1].name == Some("Sensor 0")
    ensures !DistinctNames(native)
    ensures |Seed(map[], native, 2)| == 1
  {
    assert DecimalString(0) == "0";
    assert SyntheticName(0) == "Sensor 0";
    assert ResolvedName(native, 0) == "Sensor 0" == ResolvedName(native, 1);
    assert Seed(map[], native, 1) == map["Sensor 0" := EnumeratedReading(native, 0)];
    assert Seed(map[], native, 2) == map["Sensor 0" := EnumeratedReading(native, 1)];
  }
}

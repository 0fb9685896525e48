/**
 * Device discovery and service helpers of the application's radio layer.
 *
 * The scan listener folds a stream of `(error, device)` events into an
 * ordered list keyed by device id; the two service helpers project and
 * name service UUIDs through a fixed table; the radio manager is a lazily
 * created singleton.  Time, the radio itself and logging are not modelled:
 * the events delivered during the scan window, and whether the adapter's
 * start or stop call throws, are parameters.
 */
module Ble {
  import opened Wrappers

  /** The parts of a discovered peripheral the core reads (its id) or forwards. */
  datatype Device = Device(id: string, name: Option<string>, serviceUuids: seq<string>)

  /** One invocation of the scan listener: an error, or a device. */
  datatype ScanEvent = ScanError(message: string) | Found(device: Device)

  /** A service of a connected device, as the radio library reports it. */
  datatype Service = Service(uuid: string, deviceId: string, isPrimary: bool)

  // ---------------------------------------------------------------------
  // Sequence vocabulary
  // ---------------------------------------------------------------------

  predicate NoDupes<T(==)>(s: seq<T>) {
    forall i, j :: 0 <= i < j < |s| ==> s[i] != s[j]
  }

  /**
   * `[...new Set(s)]`: a JavaScript Set keeps insertion order and ignores
   * a value it already holds, so spreading it yields the first occurrence
   * of every value, in order.
   */
  function Distinct<T(==,!new)>(s: seq<T>): (r: seq<T>)
    ensures NoDupes(r)
    ensures forall x :: x in r <==> x in s
    ensures |r| <= |s|
  {
    if s == [] then []
    else
      var p := Distinct(s[..|s| - 1]);
      assert s == s[..|s| - 1] + [s[|s| - 1]];
      if s[|s| - 1] in p then p else p + [s[|s| - 1]]
  }

  lemma {:induction false} DistinctOfNoDupes<T(!new)>(s: seq<T>)
    requires NoDupes(s)
    ensures Distinct(s) == s
  {
    if s != [] {
      var init := s[..|s| - 1];
      assert NoDupes(init);
      DistinctOfNoDupes(init);
      assert s[|s| - 1] !in init by {
        forall k | 0 <= k < |init| ensures init[k] != s[|s| - 1] {
          assert init[k] == s[k];
        }
      }
      assert s == init + [s[|s| - 1]];
    }
  }

  function Ids(list: seq<Device>): seq<string> {
    seq(|list|, i requires 0 <= i < |list| => list[i].id)
  }

  /** Two entries with distinct ids are distinct values. */
  lemma UniqueIdsNoDupes(list: seq<Device>)
    requires NoDupes(Ids(list))
    ensures NoDupes(list)
  {
    forall i, j | 0 <= i < j < |list| ensures list[i] != list[j] {
      assert Ids(list)[i] != Ids(list)[j];
    }
  }

  /** `devices.findIndex(d => d.id === id)` as a value: the first entry with that id. */
  function EntryFor(list: seq<Device>, id: string): Option<Device> {
    if list == [] then None
    else if list[0].id == id then Some(list[0])
    else EntryFor(list[1..], id)
  }

  // ---------------------------------------------------------------------
  // The scan listener, specified on values
  // ---------------------------------------------------------------------

  /**
   * Reference definition of one discovery: the first entry with the
   * device's id is replaced by the new record; without one, the record
   * goes at the end.
   */
  function Upsert(list: seq<Device>, d: Device): (r: seq<Device>)
    ensures d in r
    ensures forall x :: x in r ==> x == d || x in list
    ensures |list| <= |r| <= |list| + 1
  {
    if list == [] then [d]
    else if list[0].id == d.id then [d] + list[1..]
    else [list[0]] + Upsert(list[1..], d)
  }

  /** An unseen id is appended at the end, after every earlier entry. */
  lemma {:induction false} UpsertUnseen(list: seq<Device>, d: Device)
    requires forall j :: 0 <= j < |list| ==> list[j].id != d.id
    ensures Upsert(list, d) == list + [d]
  {
    if list != [] {
      UpsertUnseen(list[1..], d);
      assert list == [list[0]] + list[1..];
    }
  }

  /**
   * A seen id replaces the record at the index of its first entry: the
   * length is kept, that entry holds the latest record and every other
   * entry is untouched.
   */
  lemma {:induction false} UpsertSeen(list: seq<Device>, d: Device, k: nat)
    requires k < |list| && list[k].id == d.id
    requires forall j :: 0 <= j < k ==> list[j].id != d.id
    ensures Upsert(list, d) == list[k := d]
  {
    if k > 0 {
      UpsertSeen(list[1..], d, k - 1);
      assert list[k := d] == [list[0]] + list[1..][k - 1 := d];
    }
  }

  /** The ids after a discovery: unchanged for a seen id, one more at the end otherwise. */
  lemma {:induction false} IdsUpsert(list: seq<Device>, d: Device)
    ensures Ids(Upsert(list, d)) == if d.id in Ids(list) then Ids(list) else Ids(list) + [d.id]
  {
    if list == [] {
    } else if list[0].id == d.id {
      assert Ids(list)[0] == d.id;
      assert Ids(Upsert(list, d)) == Ids(list);
    } else {
      var rest := list[1..];
      IdsUpsert(rest, d);
      assert Ids(list) == [list[0].id] + Ids(rest);
      assert Ids(Upsert(list, d)) == [list[0].id] + Ids(Upsert(rest, d));
      assert d.id in Ids(list) <==> d.id in Ids(rest);
    }
  }

  /** Looking an id up after a discovery yields the new record for its id and the old entry otherwise. */
  lemma {:induction false} EntryForUpsert(list: seq<Device>, d: Device, id: string)
    ensures EntryFor(Upsert(list, d), id) == if id == d.id then Some(d) else EntryFor(list, id)
  {
    if list != [] && list[0].id != d.id {
      EntryForUpsert(list[1..], d, id);
    }
  }

  /** What the listener does with one event: an error leaves the list as it is. */
  function Step(list: seq<Device>, e: ScanEvent): (r: seq<Device>)
    ensures forall x :: x in r ==> x in list || e == Found(x)
    ensures |list| <= |r| <= |list| + 1
  {
    match e
    case ScanError(_) => list
    case Found(d) => Upsert(list, d)
  }

  /** The list after the listener has seen `events`, in delivery order. */
  function Scanned(events: seq<ScanEvent>): (r: seq<Device>)
    ensures |r| <= |events|
    ensures forall x :: x in r ==> Found(x) in events
  {
    if events == [] then []
    else
      var init := events[..|events| - 1];
      var r := Step(Scanned(init), events[|events| - 1]);
      assert forall x :: x in r ==> Found(x) in events by {
        forall x | x in r ensures Found(x) in events {
          if Found(x) in init {
            var k :| 0 <= k < |init| && init[k] == Found(x);
            assert events[k] == Found(x);
          }
        }
      }
      r
  }

  /** The ids of the delivered devices, in delivery order, repeats included. */
  function FoundIds(events: seq<ScanEvent>): seq<string> {
    if events == [] then []
    else
      var init := FoundIds(events[..|events| - 1]);
      match events[|events| - 1]
      case ScanError(_) => init
      case Found(d) => init + [d.id]
  }

  /** The most recently delivered record with the given id, if any. */
  function Latest(events: seq<ScanEvent>, id: string): Option<Device> {
    if events == [] then None
    else
      match events[|events| - 1]
      case Found(d) => if d.id == id then Some(d) else Latest(events[..|events| - 1], id)
      case ScanError(_) => Latest(events[..|events| - 1], id)
  }

  /** The events with every error left out. */
  function WithoutErrors(events: seq<ScanEvent>): (r: seq<ScanEvent>)
    ensures forall k :: 0 <= k < |r| ==> r[k].Found?
  {
    if events == [] then []
    else
      var init := WithoutErrors(events[..|events| - 1]);
      if events[|events| - 1].Found? then init + [events[|events| - 1]] else init
  }

  /**
   * The list is in first-discovery order: its ids are the delivered ids
   * with every repeat after the first left out.
   */
  lemma {:induction false} ScannedOrder(events: seq<ScanEvent>)
    ensures Ids(Scanned(events)) == Distinct(FoundIds(events))
  {
    if events != [] {
      var init := events[..|events| - 1];
      ScannedOrder(init);
      match events[|events| - 1]
      case ScanError(_) =>
      case Found(d) =>
        IdsUpsert(Scanned(init), d);
        var f := FoundIds(init) + [d.id];
        assert f[..|f| - 1] == FoundIds(init);
    }
  }

  /** After any event sequence no two entries share an id. */
  lemma ScannedIdsUnique(events: seq<ScanEvent>)
    ensures NoDupes(Ids(Scanned(events)))
  {
    ScannedOrder(events);
  }

  /**
   * Last write wins: the entry for an id is the most recently delivered
   * record with that id, and there is an entry exactly for the ids that
   * were delivered.
   */
  lemma {:induction false} ScannedHoldsLatest(events: seq<ScanEvent>, id: string)
    ensures EntryFor(Scanned(events), id) == Latest(events, id)
  {
    if events != [] {
      var init := events[..|events| - 1];
      ScannedHoldsLatest(init, id);
      match events[|events| - 1]
      case ScanError(_) =>
      case Found(d) =>
        EntryForUpsert(Scanned(init), d, id);
    }
  }

  /** Error events leave no trace in the list. */
  lemma {:induction false} ScanErrorsIgnored(events: seq<ScanEvent>)
    ensures Scanned(WithoutErrors(events)) == Scanned(events)
  {
    if events != [] {
      var init := events[..|events| - 1];
      ScanErrorsIgnored(init);
      var w := WithoutErrors(init);
      if events[|events| - 1].Found? {
        assert (w + [events[|events| - 1]])[..|w|] == w;
      }
    }
  }

  /** A stream of errors only yields the empty list. */
  lemma {:induction false} OnlyErrorsScanNothing(events: seq<ScanEvent>)
    requires forall k :: 0 <= k < |events| ==> events[k].ScanError?
    ensures Scanned(events) == []
  {
    if events != [] {
      OnlyErrorsScanNothing(events[..|events| - 1]);
    }
  }

  /** The value `scanForDevices` resolves with. */
  function ScanResult(startThrows: bool, stopThrows: bool, events: seq<ScanEvent>): (r: seq<Device>)
    ensures NoDupes(r)
    ensures |r| <= |events|
    ensures forall x :: x in r ==> Found(x) in events
  {
    if startThrows || stopThrows then [] else Distinct(Scanned(events))
  }

  /**
   * The final pass through a Set changes nothing, so the result is the
   * listener's list itself; a throwing start or stop yields the empty list.
   */
  lemma ScanResultIsFold(startThrows: bool, stopThrows: bool, events: seq<ScanEvent>)
    ensures ScanResult(startThrows, stopThrows, events)
         == if startThrows || stopThrows then [] else Scanned(events)
  {
    ScannedIdsUnique(events);
    UniqueIdsNoDupes(Scanned(events));
    DistinctOfNoDupes(Scanned(events));
  }

  // ---------------------------------------------------------------------
  // The scan listener, imperatively
  // ---------------------------------------------------------------------

  /** `devices.findIndex((d) => d.id === id)`. */
  method FindIndex(devices: seq<Device>, id: string) returns (index: int)
    ensures -1 <= index < |devices|
    ensures index == -1 <==> forall j :: 0 <= j < |devices| ==> devices[j].id != id
    ensures 0 <= index ==> devices[index].id == id
    ensures forall j :: 0 <= j < index ==> devices[j].id != id
  {
    index := 0;
    while index < |devices|
      invariant 0 <= index <= |devices|
      invariant forall j :: 0 <= j < index ==> devices[j].id != id
    {
      if devices[index].id == id {
        return;
      }
      index := index + 1;
    }
    index := -1;
  }

  /** The body of the scan listener: skip an error, push an unseen device, overwrite a seen one. */
  method HandleScanEvent(devices: seq<Device>, e: ScanEvent) returns (updated: seq<Device>)
    ensures updated == Step(devices, e)
  {
    match e
    case ScanError(_) =>
      updated := devices;
    case Found(d) =>
      var index := FindIndex(devices, d.id);
      if index == -1 {
        UpsertUnseen(devices, d);
        updated := devices + [d];
      } else {
        UpsertSeen(devices, d, index);
        updated := devices[index := d];
      }
  }

  /** The listener applied to every event delivered during the scan window. */
  method CollectDevices(events: seq<ScanEvent>) returns (devices: seq<Device>)
    ensures devices == Scanned(events)
  {
    devices := [];
    var i := 0;
    while i < |events|
      invariant 0 <= i <= |events|
      invariant devices == Scanned(events[..i])
    {
      assert events[..i + 1][..i] == events[..i];
      devices := HandleScanEvent(devices, events[i]);
      i := i + 1;
    }
    assert events[..i] == events;
  }

  // ---------------------------------------------------------------------
  // The radio manager singleton and the scan itself
  // ---------------------------------------------------------------------

  /** The 16-bit service UUIDs the scan is filtered to, in declaration order (Battery, Heart Rate, Cycling Power, Cycling Speed and Cadence). */
  const SupportedServiceUuids: seq<string> := ["180f", "180d", "1818", "1816"]

  /** The radio library's manager object; it records the scan calls made on it. */
  class BleManager {
    ghost var scansStarted: seq<seq<string>>
    ghost var scansStopped: nat

    constructor ()
      ensures scansStarted == [] && scansStopped == 0
    {
      scansStarted := [];
      scansStopped := 0;
    }

    method StartDeviceScan(uuids: seq<string>)
      modifies this
      ensures scansStarted == old(scansStarted) + [uuids]
      ensures scansStopped == old(scansStopped)
    {
      scansStarted := scansStarted + [uuids];
    }

    method StopDeviceScan()
      modifies this
      ensures scansStarted == old(scansStarted)
      ensures scansStopped == old(scansStopped) + 1
    {
      scansStopped := scansStopped + 1;
    }
  }

  /** The module-level state of the radio layer: the manager, once created. */
  class BleModule {
    var bleManager: BleManager?

    constructor ()
      ensures bleManager == null
    {
      bleManager := null;
    }

    /** Creates the manager on first use and returns the same one on every later call. */
    method GetBleManagerInstance() returns (m: BleManager)
      modifies this
      ensures bleManager == m
      ensures old(bleManager) != null ==> m == old(bleManager)
      ensures old(bleManager) == null ==> fresh(m) && m.scansStarted == [] && m.scansStopped == 0
    {
      if bleManager == null {
        bleManager := new BleManager();
      }
      m := bleManager;
    }

    /**
     * One scan: start it filtered to the supported services, let the
     * listener see `events`, stop it and return the deduplicated list.
     * `startThrows` and `stopThrows` say whether the adapter's start or
     * stop call throws; either is caught and yields the empty list.
     */
    method ScanForDevices(startThrows: bool, stopThrows: bool, events: seq<ScanEvent>)
      returns (devices: seq<Device>)
      modifies this, bleManager
      ensures bleManager != null
      ensures old(bleManager) != null ==> bleManager == old(bleManager)
      ensures old(bleManager) != null ==>
        bleManager.scansStarted == old(bleManager.scansStarted) + [SupportedServiceUuids] &&
        bleManager.scansStopped == old(bleManager.scansStopped) + (if startThrows then 0 else 1)
      ensures old(bleManager) == null ==>
        bleManager.scansStarted == [SupportedServiceUuids] &&
        bleManager.scansStopped == (if startThrows then 0 else 1)
      ensures devices == ScanResult(startThrows, stopThrows, events)
      ensures devices == if startThrows || stopThrows then [] else Scanned(events)
    {
      var manager := GetBleManagerInstance();
      manager.StartDeviceScan(SupportedServiceUuids);
      ScanResultIsFold(startThrows, stopThrows, events);
      if startThrows {
        return [];
      }
      var found := CollectDevices(events);
      manager.StopDeviceScan();
      if stopThrows {
        return [];
      }
      devices := Distinct(found);
    }
  }

  /** Two calls return the same manager. */
  method SingletonTwice(state: BleModule) returns (first: BleManager, second: BleManager)
    modifies state
    ensures first == second
  {
    first := state.GetBleManagerInstance();
    second := state.GetBleManagerInstance();
  }

  // ---------------------------------------------------------------------
  // Service helpers
  // ---------------------------------------------------------------------

  /** `services.map(s => s.uuid)`. */
  function ServiceUuids(services: seq<Service>): (uuids: seq<string>)
    ensures |uuids| == |services|
    ensures forall i :: 0 <= i < |services| ==> uuids[i] == services[i].uuid
  {
    if services == [] then [] else [services[0].uuid] + ServiceUuids(services[1..])
  }

  /** The suffix shared by every UUID in the Bluetooth Base UUID form. */
  const BaseUuidSuffix: string := "-0000-1000-8000-00805f9b34fb"

  /**
   * A 16-bit SIG-assigned value (four hex digits) in the Bluetooth Base
   * UUID form, section 2.5.1 of the Bluetooth Core Specification, Vol 3,
   * Part B: the value sits at positions 5 to 8 (indices 4 to 7).
   */
  function BaseUuid(short: string): (uuid: string)
    requires |short| == 4
    ensures |uuid| == 36 && uuid[4..8] == short
  {
    "0000" + short + BaseUuidSuffix
  }


  /**
   * The names the application shows for the service UUIDs it knows, in
   * the source's order.  The source spells each key out in full
   * (`0000xxxx-0000-1000-8000-00805f9b34fb`); here each is written as the
   * Base UUID form of its 16-bit value, which is the same string.
   */
  const ServiceNameTable: map<string, string> := map[
    BaseUuid("1800") := "Generic Access",
    BaseUuid("1801") := "Generic Attribute",
    BaseUuid("1816") := "Cycling Speed and Cadence",
    BaseUuid("1818") := "Cycling Power",
    BaseUuid("fe59") := "Environmental Sensing",
    BaseUuid("180a") := "Device Information",
    BaseUuid("180d") := "Heart Rate"
  ]

  /** The placeholder name the lookup rejects. */
  const UnknownServiceName: string := "Unknown Service"

  /** The name the table gives each of its seven keys, in the source's order. */
  lemma ServiceNameTableEntries()
    ensures LookupServiceName(BaseUuid("1800")) == Some("Generic Access")
    ensures LookupServiceName(BaseUuid("1801")) == Some("Generic Attribute")
    ensures LookupServiceName(BaseUuid("1816")) == Some("Cycling Speed and Cadence")
    ensures LookupServiceName(BaseUuid("1818")) == Some("Cycling Power")
    ensures LookupServiceName(BaseUuid("fe59")) == Some("Environmental Sensing")
    ensures LookupServiceName(BaseUuid("180a")) == Some("Device Information")
    ensures LookupServiceName(BaseUuid("180d")) == Some("Heart Rate")
  {
  }

  /** Every key is a full 128-bit UUID carrying a 16-bit value at positions 5 to 8. */
  lemma TableKeysAreBaseUuids()
    ensures forall k :: k in ServiceNameTable ==>
      k == BaseUuid(k[4..8])
  {
  }

  /**
   * `BLE_SERVICE_NAMES[uuid]`: the name, or `undefined` for an unknown key.
   * No name in the table is empty or the placeholder, so the filter of
   * `getServiceNames` accepts a lookup exactly when the key is present.
   */
  function LookupServiceName(uuid: string): (r: Option<string>)
    ensures (r.Some? && r.value != "" && r.value != UnknownServiceName) <==> uuid in ServiceNameTable
  {
    if uuid in ServiceNameTable then Some(ServiceNameTable[uuid]) else None
  }

  /** Reference definition: the table names of the known inputs, in input order. */
  function KnownServiceNames(uuids: seq<string>): (names: seq<string>)
    ensures |names| <= |uuids|
    ensures forall n :: n in names ==> n in ServiceNameTable.Values
  {
    if uuids == [] then []
    else
      var init := KnownServiceNames(uuids[..|uuids| - 1]);
      var u := uuids[|uuids| - 1];
      if u in ServiceNameTable then init + [ServiceNameTable[u]] else init
  }

  /** Naming distributes over concatenation, so input order is kept. */
  lemma {:induction false} KnownServiceNamesConcat(a: seq<string>, b: seq<string>)
    ensures KnownServiceNames(a + b) == KnownServiceNames(a) + KnownServiceNames(b)
  {
    if b != [] {
      var b', u := b[..|b| - 1], b[|b| - 1];
      KnownServiceNamesConcat(a, b');
      assert (a + b)[..|a + b| - 1] == a + b';
      assert (a + b)[|a + b| - 1] == u;
      var tail := if u in ServiceNameTable then [ServiceNameTable[u]] else [];
      assert KnownServiceNames(a + b) == KnownServiceNames(a + b') + tail;
      assert KnownServiceNames(b) == KnownServiceNames(b') + tail;
    } else {
      assert a + b == a;
    }
  }

  /** When every input is known, each output is the name of the input at the same index. */
  lemma {:induction false} KnownServiceNamesAllKnown(uuids: seq<string>)
    requires forall i :: 0 <= i < |uuids| ==> uuids[i] in ServiceNameTable
    ensures |KnownServiceNames(uuids)| == |uuids|
    ensures forall i :: 0 <= i < |uuids| ==> KnownServiceNames(uuids)[i] == ServiceNameTable[uuids[i]]
  {
    if uuids != [] {
      KnownServiceNamesAllKnown(uuids[..|uuids| - 1]);
    }
  }

  /**
   * Exactly the names of the known inputs: each known input's name is in
   * the output, and each output name is the name of some known input.
   */
  lemma {:induction false} KnownServiceNamesExact(uuids: seq<string>)
    ensures forall u :: u in uuids && u in ServiceNameTable ==> ServiceNameTable[u] in KnownServiceNames(uuids)
    ensures forall n :: n in KnownServiceNames(uuids) ==>
      exists u :: u in uuids && u in ServiceNameTable && ServiceNameTable[u] == n
  {
    if uuids != [] {
      var init := uuids[..|uuids| - 1];
      KnownServiceNamesExact(init);
      assert uuids == init + [uuids[|uuids| - 1]];
      forall n | n in KnownServiceNames(uuids)
        ensures exists u :: u in uuids && u in ServiceNameTable && ServiceNameTable[u] == n
      {
        if n in KnownServiceNames(init) {
          var u :| u in init && u in ServiceNameTable && ServiceNameTable[u] == n;
          assert u in uuids;
        } else {
          assert uuids[|uuids| - 1] in uuids;
        }
      }
    }
  }

  /** Unknown inputs only: the output is empty. */
  lemma {:induction false} KnownServiceNamesNoneKnown(uuids: seq<string>)
    requires forall i :: 0 <= i < |uuids| ==> uuids[i] !in ServiceNameTable
    ensures KnownServiceNames(uuids) == []
  {
    if uuids != [] {
      KnownServiceNamesNoneKnown(uuids[..|uuids| - 1]);
    }
  }

  /** `getServiceNames`: look each UUID up and push the accepted names. */
  method GetServiceNames(serviceUuids: seq<string>) returns (serviceNames: seq<string>)
    ensures serviceNames == KnownServiceNames(serviceUuids)
  {
    serviceNames := [];
    for i := 0 to |serviceUuids|
      invariant serviceNames == KnownServiceNames(serviceUuids[..i])
    {
      assert serviceUuids[..i + 1][..i] == serviceUuids[..i];
      var serviceName := LookupServiceName(serviceUuids[i]);
      if serviceName.Some? && serviceName.value != "" && serviceName.value != UnknownServiceName {
        serviceNames := serviceNames + [serviceName.value];
      }
    }
    assert serviceUuids[..|serviceUuids|] == serviceUuids;
  }

  /**
   * The scan filter values are 16-bit short forms, and every key of the
   * table is a full 128-bit UUID, so none of them is given a name.
   */
  lemma SupportedServicesUnnamed()
    ensures KnownServiceNames(SupportedServiceUuids) == []
  {
    TableKeysAreBaseUuids();
    assert forall k :: k in ServiceNameTable ==> |k| == 36;
    KnownServiceNamesNoneKnown(SupportedServiceUuids);
  }

  // ---------------------------------------------------------------------
  // The scenarios the repository's tests describe
  // ---------------------------------------------------------------------

  /** Three distinct devices come back in discovery order. */
  lemma ScanThreeDistinct(d1: Device, d2: Device, d3: Device)
    requires d1.id != d2.id && d1.id != d3.id && d2.id != d3.id
    ensures ScanResult(false, false, [Found(d1), Found(d2), Found(d3)]) == [d1, d2, d3]
  {
    var es := [Found(d1), Found(d2), Found(d3)];
    ScanResultIsFold(false, false, es);
    assert es[..1][..0] == [];
    assert Scanned(es[..1]) == [d1];
    UpsertUnseen([d1], d2);
    assert es[..2][..1] == es[..1];
    assert Scanned(es[..2]) == [d1, d2];
    UpsertUnseen([d1, d2], d3);
    assert es[..2] == es[..|es| - 1];
  }

  /** A repeated device is kept once, at its first position, holding the later record. */
  lemma ScanRepeated(a: Device, b: Device, a': Device)
    requires a.id != b.id && a'.id == a.id
    ensures ScanResult(false, false, [Found(a), Found(b), Found(a')]) == [a', b]
  {
    var es := [Found(a), Found(b), Found(a')];
    ScanResultIsFold(false, false, es);
    assert es[..1][..0] == [];
    assert Scanned(es[..1]) == [a];
    UpsertUnseen([a], b);
    assert es[..2][..1] == es[..1];
    assert Scanned(es[..2]) == [a, b];
    UpsertSeen([a, b], a', 0);
    assert es[..2] == es[..|es| - 1];
  }

  /** `getServiceNames` on two known UUIDs and an unknown one. */
  lemma ServiceNamesExample()
    ensures KnownServiceNames([BaseUuid("1800"), BaseUuid("180d"), "unknown-uuid"])
         == ["Generic Access", "Heart Rate"]
  {
  }
}

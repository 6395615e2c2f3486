/**
 * The lists the scanner hook shows: every device or beacon the scanner
 * reports replaces the entry with the same key (device id, beacon MAC) in
 * place, or is appended when the key is new. Starting a scan and clearing
 * empty both lists.
 */
module LiveLists {
  import BleScanner
  import MinewParser

  /** `findIndex(x => key(x) === k)`: the first position holding key `k`, or -1. */
  function FindIndex<T, K(==)>(list: seq<T>, key: T -> K, k: K): (r: int)
    ensures -1 <= r < |list|
    ensures r >= 0 ==> key(list[r]) == k && forall j :: 0 <= j < r ==> key(list[j]) != k
    ensures r == -1 ==> forall j :: 0 <= j < |list| ==> key(list[j]) != k
  {
    if list == [] then -1
    else if key(list[0]) == k then 0
    else
      var rest := FindIndex(list[1..], key, k);
      if rest < 0 then -1 else rest + 1
  }

  /** The list updater: replace at the first index with the same key, or append. */
  function Upsert<T, K(==)>(list: seq<T>, key: T -> K, item: T): seq<T>
  {
    var index := FindIndex(list, key, key(item));
    if index >= 0 then list[index := item] else list + [item]
  }

  predicate UniqueKeys<T, K(==)>(list: seq<T>, key: T -> K)
  {
    forall i, j :: 0 <= i < j < |list| ==> key(list[i]) != key(list[j])
  }

  /**
   * Replace-or-append: with the key present at index `i` the list keeps its
   * length and only position `i` changes, to the new item; with the key
   * absent the item is appended at the end.
   */
  lemma UpsertShape<T, K>(list: seq<T>, key: T -> K, item: T)
    ensures forall i :: (0 <= i < |list| && key(list[i]) == key(item)
                         && forall j :: 0 <= j < i ==> key(list[j]) != key(item)) ==>
        && |Upsert(list, key, item)| == |list|
        && Upsert(list, key, item)[i] == item
        && (forall j :: 0 <= j < |list| && j != i ==> Upsert(list, key, item)[j] == list[j])
    ensures (forall i :: 0 <= i < |list| ==> key(list[i]) != key(item)) ==> Upsert(list, key, item) == list + [item]
  {
  }

  /** A list without duplicate keys stays so, and the result holds the new item. */
  lemma UpsertKeepsUnique<T, K>(list: seq<T>, key: T -> K, item: T)
    ensures UniqueKeys(list, key) ==> UniqueKeys(Upsert(list, key, item), key)
    ensures item in Upsert(list, key, item)
  {
    var r := Upsert(list, key, item);
    var index := FindIndex(list, key, key(item));
    if index >= 0 {
      assert r[index] == item;
    } else {
      assert r[|list|] == item;
    }
    if UniqueKeys(list, key) {
      forall i, j | 0 <= i < j < |r|
        ensures key(r[i]) != key(r[j])
      {
        if index >= 0 {
          if i != index && j != index {
            assert r[i] == list[i] && r[j] == list[j];
          }
        } else if j == |list| {
          assert r[i] == list[i];
        } else {
          assert r[i] == list[i] && r[j] == list[j];
        }
      }
    }
  }

  /** The keys of the result are the old keys and the new one. */
  lemma UpsertKeys<T, K>(list: seq<T>, key: T -> K, item: T)
    ensures forall i :: 0 <= i < |Upsert(list, key, item)| ==>
      key(Upsert(list, key, item)[i]) == key(item) || exists j :: 0 <= j < |list| && key(list[j]) == key(Upsert(list, key, item)[i])
    ensures forall j :: 0 <= j < |list| ==> exists i :: 0 <= i < |Upsert(list, key, item)| && key(Upsert(list, key, item)[i]) == key(list[j])
  {
    var r := Upsert(list, key, item);
    var index := FindIndex(list, key, key(item));
    forall j | 0 <= j < |list|
      ensures exists i :: 0 <= i < |r| && key(r[i]) == key(list[j])
    {
      if index >= 0 && j == index {
        assert key(r[index]) == key(list[j]);
      } else {
        assert key(r[j]) == key(list[j]);
      }
    }
    forall i | 0 <= i < |r|
      ensures key(r[i]) == key(item) || exists j :: 0 <= j < |list| && key(list[j]) == key(r[i])
    {
      if r[i] != item {
        assert r[i] == list[i];
      }
    }
  }

  /**
   * The list shows the map: unique keys, every element filed in the map under
   * its key, and every key of the map present in the list.
   */
  ghost predicate Mirrors<T, K>(list: seq<T>, key: T -> K, m: map<K, T>)
  {
    && UniqueKeys(list, key)
    && (forall i :: 0 <= i < |list| ==> key(list[i]) in m && m[key(list[i])] == list[i])
    && (forall k :: k in m ==> exists i :: 0 <= i < |list| && key(list[i]) == k)
  }

  /**
   * The hook's list follows the scanner's map: applying to the list the same
   * update `processDevice` applies to the map (`set(key, item)`) keeps the list
   * a mirror of the map.
   */
  lemma {:induction false} UpsertMirrors<T, K>(list: seq<T>, key: T -> K, m: map<K, T>, item: T)
    requires Mirrors(list, key, m)
    ensures Mirrors(Upsert(list, key, item), key, m[key(item) := item])
  {
    var r := Upsert(list, key, item);
    var m' := m[key(item) := item];
    UpsertKeepsUnique(list, key, item);
    var index := FindIndex(list, key, key(item));
    forall k | k in m'
      ensures exists i :: 0 <= i < |r| && key(r[i]) == k
    {
      if k == key(item) {
        if index >= 0 {
          assert key(r[index]) == k;
        } else {
          assert key(r[|list|]) == k;
        }
      } else {
        var i :| 0 <= i < |list| && key(list[i]) == k;
        assert r[i] == list[i];
      }
    }
  }

  function DeviceKey(d: BleScanner.BleDevice): string { d.id }
  function BeaconKey(b: MinewParser.MinewBeacon): string { b.mac }

  /** What the hook holds. */
  datatype HookLists = HookLists(devices: seq<BleScanner.BleDevice>, beacons: seq<MinewParser.MinewBeacon>)

  /** `onDeviceFound`: the device list updater, keyed by `id`. */
  function OnDeviceFound(lists: HookLists, device: BleScanner.BleDevice): (r: HookLists)
    ensures r.beacons == lists.beacons
    ensures device in r.devices
    ensures UniqueKeys(lists.devices, DeviceKey) ==> UniqueKeys(r.devices, DeviceKey)
  {
    UpsertKeepsUnique(lists.devices, DeviceKey, device);
    lists.(devices := Upsert(lists.devices, DeviceKey, device))
  }

  /** `onBeaconFound`: the beacon list updater, keyed by `mac`. */
  function OnBeaconFound(lists: HookLists, beacon: MinewParser.MinewBeacon): (r: HookLists)
    ensures r.devices == lists.devices
    ensures beacon in r.beacons
    ensures UniqueKeys(lists.beacons, BeaconKey) ==> UniqueKeys(r.beacons, BeaconKey)
  {
    UpsertKeepsUnique(lists.beacons, BeaconKey, beacon);
    lists.(beacons := Upsert(lists.beacons, BeaconKey, beacon))
  }

  /** The lists after the hook's `startScan` or `clearDevices`. */
  const Cleared := HookLists([], [])

  /** Both lists mirror the scanner's maps. */
  ghost predicate MirrorsScanner(lists: HookLists, devices: map<string, BleScanner.BleDevice>,
                                 beacons: map<string, MinewParser.MinewBeacon>)
  {
    Mirrors(lists.devices, DeviceKey, devices) && Mirrors(lists.beacons, BeaconKey, beacons)
  }

  /**
   * The emptied lists mirror the scanner exactly when its maps are empty too:
   * after `clearDevices`, or a `startScan` that reaches its reset, but not after
   * a start that returns early (already scanning, permissions refused, adapter
   * not powered on), where the scanner keeps its entries.
   */
  lemma ClearedMirrors(devices: map<string, BleScanner.BleDevice>,
                       beacons: map<string, MinewParser.MinewBeacon>)
    ensures MirrorsScanner(Cleared, devices, beacons) <==> devices == map[] && beacons == map[]
  {
    if devices != map[] {
      var k :| k in devices;
    }
    if beacons != map[] {
      var k :| k in beacons;
    }
  }

  /**
   * Each report the scanner stores (a device, then a beacon when one decodes)
   * keeps the lists mirroring the maps.
   */
  lemma ReportsKeepMirror(lists: HookLists, devices: map<string, BleScanner.BleDevice>,
                          beacons: map<string, MinewParser.MinewBeacon>,
                          device: BleScanner.BleDevice, beacon: MinewParser.MinewBeacon)
    requires MirrorsScanner(lists, devices, beacons)
    ensures MirrorsScanner(OnDeviceFound(lists, device), devices[device.id := device], beacons)
    ensures MirrorsScanner(OnBeaconFound(lists, beacon), devices, beacons[beacon.mac := beacon])
  {
    UpsertMirrors(lists.devices, DeviceKey, devices, device);
    UpsertMirrors(lists.beacons, BeaconKey, beacons, beacon);
  }
}

/** The device store (src/db/mongodb.ts): `saveDevice` maps the public
    `Device` to the stored layout and appends it; the three read pipelines
    project stored records back to the public shape. */
module DeviceStore {
  import opened Common
  import opened Devices

  /** The document `saveDevice` builds (lines 23-44): `deedOwner` is stored
      as `owner`, the named coordinates as the array `[longitude, latitude]`,
      and `schedule` is copied as it is. */
  function ToStored(device: Device): StoredDevice
  {
    var a := device.authorization;
    var g := device.geoPosition;
    StoredDevice(
      StoredAuthorization(a.name, a.role, a.deedOwner),
      StoredGeoPosition(g.kind, [g.coordinates.longitude, g.coordinates.latitude]),
      device.identification,
      device.timestamp,
      device.uuid)
  }

  /** The `$project` stage shared by the three read pipelines. */
  function Project(record: StoredDevice): ProjectedDevice
  {
    var coordinates := record.geoposition.coordinates;
    ProjectedDevice(
      record.authorization,
      ProjectedGeoPosition(
        record.geoposition.kind,
        ProjectedCoordinates(ArrayElemAt(coordinates, 0), ArrayElemAt(coordinates, 1))),
      record.identification,
      DateToString(record.timestamp),
      record.uuid)
  }

  /** Save then read: the coordinate pair comes back exactly, in its named
      members; the owner is the device's `deedOwner` (now called `owner`);
      name, role, identification (with its schedule, in order), type and
      uuid are unchanged. */
  lemma SaveThenProjectRoundTrip(device: Device)
    ensures var p := Project(ToStored(device));
      && p.geoPosition.coordinates.longitude == Some(device.geoPosition.coordinates.longitude)
      && p.geoPosition.coordinates.latitude == Some(device.geoPosition.coordinates.latitude)
      && p.geoPosition.kind == device.geoPosition.kind
      && p.authorization.owner == device.authorization.deedOwner
      && p.authorization.name == device.authorization.name
      && p.authorization.role == device.authorization.role
      && p.identification == device.identification
      && p.uuid == device.uuid
  {
  }

  /** `getDevices`: every stored record, projected, in collection order. */
  function GetDevices(records: seq<StoredDevice>): (devices: seq<ProjectedDevice>)
    ensures |devices| == |records|
    ensures forall i :: 0 <= i < |records| ==> devices[i] == Project(records[i])
  {
    if records == [] then [] else [Project(records[0])] + GetDevices(records[1..])
  }

  /** A record appended by a save shows up last in `getDevices`. */
  lemma GetDevicesAfterAppend(records: seq<StoredDevice>, record: StoredDevice)
    ensures GetDevices(records + [record]) == GetDevices(records) + [Project(record)]
  {
  }

  /** The `$match: {uuid}` stage: every record with that uuid, as often as
      it is stored, in order. */
  function MatchUuid(records: seq<StoredDevice>, uuid: string): (matched: seq<StoredDevice>)
    ensures |matched| <= |records|
    ensures forall i :: 0 <= i < |matched| ==> matched[i].uuid == uuid
    ensures matched == [] <==> forall i :: 0 <= i < |records| ==> records[i].uuid != uuid
    ensures forall r :: multiset(matched)[r] == if r.uuid == uuid then multiset(records)[r] else 0
  {
    if records == [] then []
    else
      assert records == [records[0]] + records[1..];
      if records[0].uuid == uuid then [records[0]] + MatchUuid(records[1..], uuid)
      else MatchUuid(records[1..], uuid)
  }

  lemma {:induction false} MatchUuidAppend(a: seq<StoredDevice>, b: seq<StoredDevice>, uuid: string)
    ensures MatchUuid(a + b, uuid) == MatchUuid(a, uuid) + MatchUuid(b, uuid)
  {
    if a == [] {
      assert a + b == b;
    } else {
      assert (a + b)[0] == a[0];
      assert (a + b)[1..] == a[1..] + b;
      MatchUuidAppend(a[1..], b, uuid);
    }
  }

  /** Appending two copies of a record adds two matches for its uuid. */
  lemma MatchUuidAppendTwice(records: seq<StoredDevice>, record: StoredDevice)
    ensures |MatchUuid(records + [record, record], record.uuid)| == |MatchUuid(records, record.uuid)| + 2
  {
    var pair := [record, record];
    MatchUuidAppend(records, pair, record.uuid);
    assert pair[1..] == [record] && [record][1..] == [];
    assert MatchUuid([record], record.uuid) == [record];
    assert MatchUuid(pair, record.uuid) == pair;
  }

  /** `getDeviceForUuid` (lines 72-99): `$match`, `$project`, `$limit: 1`,
      then the first document, or undefined (None) when nothing matched. */
  function GetDeviceForUuid(records: seq<StoredDevice>, uuid: string): (device: Option<ProjectedDevice>)
    ensures device.None? <==> forall i :: 0 <= i < |records| ==> records[i].uuid != uuid
    ensures device.Some? ==> device.value.uuid == uuid
  {
    var projected := GetDevices(MatchUuid(records, uuid));
    var limited := if |projected| <= 1 then projected else projected[..1];
    if limited == [] then None else Some(limited[0])
  }

  /** The record returned is the first one in collection order that has the
      uuid. */
  lemma {:induction false} GetDeviceForUuidIsFirstMatch(records: seq<StoredDevice>, uuid: string, i: nat)
    requires i < |records| && records[i].uuid == uuid
    requires forall j :: 0 <= j < i ==> records[j].uuid != uuid
    ensures GetDeviceForUuid(records, uuid) == Some(Project(records[i]))
  {
    if i == 0 {
      assert MatchUuid(records, uuid)[0] == records[0];
    } else {
      GetDeviceForUuidIsFirstMatch(records[1..], uuid, i - 1);
      assert MatchUuid(records, uuid) == MatchUuid(records[1..], uuid);
    }
  }

  // ---- the geofence query ----

  /** The distance `$geoNear` computes between the query centre and a stored
      coordinate array. Spherical geometry is not modelled: it is a parameter. */
  type Distance = (seq<real>, seq<real>) -> real

  /** The query centre `[longitude, latitude]` (line 110). */
  function Center(geofence: Geofence): (center: seq<real>)
    ensures ArrayElemAt(center, 0) == Some(geofence.longitude)
    ensures ArrayElemAt(center, 1) == Some(geofence.latitude)
    ensures |center| == 2
  {
    [geofence.longitude, geofence.latitude]
  }

  function DistanceOf(dist: Distance, center: seq<real>, record: StoredDevice): real
  {
    dist(center, record.geoposition.coordinates)
  }

  /** The centre is laid out as the stored coordinate array (lines 31-34):
      a fence given a device's own latitude and longitude is centred exactly
      on the point `saveDevice` stores for it. */
  lemma CenterMatchesStoredPoint(device: Device, radius: real)
    ensures var c := device.geoPosition.coordinates;
      Center(Geofence(c.latitude, c.longitude, radius)) == ToStored(device).geoposition.coordinates
  {
  }

  /** A saved device is found by a fence centred on its own coordinates,
      whatever the radius (from zero up), when a point is at distance zero
      from itself. */
  lemma DeviceAtCenterIsFound(records: seq<StoredDevice>, device: Device, radius: real, dist: Distance)
    requires radius >= 0.0
    requires dist(ToStored(device).geoposition.coordinates, ToStored(device).geoposition.coordinates) == 0.0
    ensures var c := device.geoPosition.coordinates;
      Project(ToStored(device)) in GetDevicesInGeofence(records + [ToStored(device)], Geofence(c.latitude, c.longitude, radius), dist)
  {
    var c := device.geoPosition.coordinates;
    var fence := Geofence(c.latitude, c.longitude, radius);
    var stored := ToStored(device);
    var all := records + [stored];
    CenterMatchesStoredPoint(device, radius);
    var answer := GetDevicesInGeofence(all, fence, dist);
    var near :| IsGeoNearResult(all, dist, Center(fence), radius, near) && answer == GetDevices(near);
    assert stored in multiset(all) by { assert all[|records|] == stored; }
    assert DistanceOf(dist, Center(fence), stored) <= radius;
    assert multiset(near)[stored] == multiset(all)[stored];
    assert stored in multiset(near);
    var k :| 0 <= k < |near| && near[k] == stored;
    assert GetDevices(near)[k] == Project(stored);
  }

  ghost predicate SortedByDistance(dist: Distance, center: seq<real>, s: seq<StoredDevice>)
  {
    forall i, j :: 0 <= i < j < |s| ==> DistanceOf(dist, center, s[i]) <= DistanceOf(dist, center, s[j])
  }

  /** What `$geoNear` with `maxDistance` promises: the records within the
      distance, each as often as it is stored, nearest first. Records at
      equal distance may come in any order. */
  ghost predicate IsGeoNearResult(records: seq<StoredDevice>, dist: Distance, center: seq<real>,
                                  maxDistance: real, near: seq<StoredDevice>)
  {
    && SortedByDistance(dist, center, near)
    && forall r :: multiset(near)[r] ==
         (if DistanceOf(dist, center, r) <= maxDistance then multiset(records)[r] else 0)
  }

  /** The records within `maxDistance` of the centre, in collection order. */
  function WithinDistance(records: seq<StoredDevice>, dist: Distance, center: seq<real>, maxDistance: real)
    : (within: seq<StoredDevice>)
    ensures forall r ::
      multiset(within)[r] == (if DistanceOf(dist, center, r) <= maxDistance then multiset(records)[r] else 0)
  {
    if records == [] then []
    else
      assert records == [records[0]] + records[1..];
      var rest := WithinDistance(records[1..], dist, center, maxDistance);
      if DistanceOf(dist, center, records[0]) <= maxDistance then [records[0]] + rest else rest
  }

  /** Prepending a record no farther than the head keeps a list sorted. */
  lemma {:induction false} SortedPrepend(dist: Distance, center: seq<real>, record: StoredDevice, sorted: seq<StoredDevice>)
    requires SortedByDistance(dist, center, sorted)
    requires sorted != [] ==> DistanceOf(dist, center, record) <= DistanceOf(dist, center, sorted[0])
    ensures SortedByDistance(dist, center, [record] + sorted)
  {
    var r := [record] + sorted;
    forall i, j | 0 <= i < j < |r|
      ensures DistanceOf(dist, center, r[i]) <= DistanceOf(dist, center, r[j])
    {
      if i == 0 && j > 1 {
        assert r[j] == sorted[j - 1];
        assert DistanceOf(dist, center, sorted[0]) <= DistanceOf(dist, center, sorted[j - 1]);
      } else if i > 0 {
        assert r[i] == sorted[i - 1] && r[j] == sorted[j - 1];
      }
    }
  }

  /** Inserts `record` before the first record that is not nearer. */
  function InsertByDistance(dist: Distance, center: seq<real>, record: StoredDevice, sorted: seq<StoredDevice>)
    : (r: seq<StoredDevice>)
    ensures multiset(r) == multiset(sorted) + multiset{record}
    ensures |r| == |sorted| + 1
    ensures r[0] == record || (sorted != [] && r[0] == sorted[0])
  {
    if sorted == [] then [record]
    else if DistanceOf(dist, center, record) <= DistanceOf(dist, center, sorted[0]) then [record] + sorted
    else
      assert sorted == [sorted[0]] + sorted[1..];
      [sorted[0]] + InsertByDistance(dist, center, record, sorted[1..])
  }

  /** Inserting into a list sorted nearest first keeps it sorted. */
  lemma {:induction false} InsertKeepsSorted(dist: Distance, center: seq<real>, record: StoredDevice, sorted: seq<StoredDevice>)
    requires SortedByDistance(dist, center, sorted)
    ensures SortedByDistance(dist, center, InsertByDistance(dist, center, record, sorted))
  {
    if sorted == [] {
    } else if DistanceOf(dist, center, record) <= DistanceOf(dist, center, sorted[0]) {
      SortedPrepend(dist, center, record, sorted);
    } else {
      var tail := sorted[1..];
      assert SortedByDistance(dist, center, tail) by {
        forall i, j | 0 <= i < j < |tail|
          ensures DistanceOf(dist, center, tail[i]) <= DistanceOf(dist, center, tail[j])
        {
          assert tail[i] == sorted[i + 1] && tail[j] == sorted[j + 1];
        }
      }
      InsertKeepsSorted(dist, center, record, tail);
      var rest := InsertByDistance(dist, center, record, tail);
      assert tail != [] ==> DistanceOf(dist, center, sorted[0]) <= DistanceOf(dist, center, tail[0]);
      SortedPrepend(dist, center, sorted[0], rest);
    }
  }

  /** Sorts by distance (insertion sort; records at equal distance keep
      their collection order). */
  function SortByDistance(dist: Distance, center: seq<real>, s: seq<StoredDevice>): (r: seq<StoredDevice>)
    ensures SortedByDistance(dist, center, r)
    ensures multiset(r) == multiset(s)
  {
    if s == [] then []
    else
      assert s == [s[0]] + s[1..];
      var sortedTail := SortByDistance(dist, center, s[1..]);
      InsertKeepsSorted(dist, center, s[0], sortedTail);
      InsertByDistance(dist, center, s[0], sortedTail)
  }

  /** The `$geoNear` stage. */
  function GeoNear(records: seq<StoredDevice>, dist: Distance, center: seq<real>, maxDistance: real)
    : (near: seq<StoredDevice>)
    ensures IsGeoNearResult(records, dist, center, maxDistance, near)
  {
    SortByDistance(dist, center, WithinDistance(records, dist, center, maxDistance))
  }

  /** `getDevicesInGeofence` (lines 102-134): the projection of a `$geoNear`
      answer centred on `[longitude, latitude]` with the radius as maximum
      distance. */
  function GetDevicesInGeofence(records: seq<StoredDevice>, geofence: Geofence, dist: Distance)
    : (devices: seq<ProjectedDevice>)
    ensures exists near :: IsGeoNearResult(records, dist, Center(geofence), geofence.radiusInMeters, near)
                           && devices == GetDevices(near)
  {
    var near := GeoNear(records, dist, Center(geofence), geofence.radiusInMeters);
    assert IsGeoNearResult(records, dist, Center(geofence), geofence.radiusInMeters, near);
    GetDevices(near)
  }

  /** A record farther than the radius is never in the answer, and every
      answered record is within it. */
  lemma GeoNearExcludesFarRecords(records: seq<StoredDevice>, dist: Distance, center: seq<real>,
                                  maxDistance: real, near: seq<StoredDevice>, k: nat)
    requires IsGeoNearResult(records, dist, center, maxDistance, near)
    requires k < |near|
    ensures DistanceOf(dist, center, near[k]) <= maxDistance
    ensures near[k] in records
  {
    assert near[k] in multiset(near);
  }

  /** Two records, the first nearer, are sorted the same way from either
      collection order. */
  lemma SortTwo(a: StoredDevice, b: StoredDevice, dist: Distance, center: seq<real>)
    requires DistanceOf(dist, center, a) < DistanceOf(dist, center, b)
    ensures SortByDistance(dist, center, [a, b]) == [a, b]
    ensures SortByDistance(dist, center, [b, a]) == [a, b]
  {
    assert [a, b][1..] == [b] && [b, a][1..] == [a];
    assert SortByDistance(dist, center, [b][1..]) == [];
    assert SortByDistance(dist, center, [a][1..]) == [];
  }

  lemma GetDevicesOfOne(a: StoredDevice)
    ensures GetDevices([a]) == [Project(a)]
  {
    assert [a][1..] == [];
  }

  lemma GetDevicesOfTwo(a: StoredDevice, b: StoredDevice)
    ensures GetDevices([a, b]) == [Project(a), Project(b)]
  {
    assert [a, b][1..] == [b];
    GetDevicesOfOne(b);
  }

  /** `$geoNear` over two records, the first nearer and within the radius. */
  lemma GeoNearTwo(a: StoredDevice, b: StoredDevice, dist: Distance, center: seq<real>, radius: real)
    requires DistanceOf(dist, center, a) <= radius
    requires DistanceOf(dist, center, a) < DistanceOf(dist, center, b)
    ensures var expected := if DistanceOf(dist, center, b) <= radius then [a, b] else [a];
      GeoNear([a, b], dist, center, radius) == expected && GeoNear([b, a], dist, center, radius) == expected
  {
    assert [a, b][1..] == [b] && [b, a][1..] == [a];
    assert [b][1..] == [] && [a][1..] == [];
    if DistanceOf(dist, center, b) <= radius {
      assert WithinDistance([a, b], dist, center, radius) == [a, b];
      assert WithinDistance([b, a], dist, center, radius) == [b, a];
      SortTwo(a, b, dist, center);
    } else {
      assert WithinDistance([a, b], dist, center, radius) == [a];
      assert WithinDistance([b, a], dist, center, radius) == [a];
      assert SortByDistance(dist, center, [a][1..]) == [];
    }
  }

  /** Two devices within the radius come back nearest first, whichever was
      stored first; a second device beyond the radius is left out. */
  lemma GeofenceTwoDevices(a: StoredDevice, b: StoredDevice, geofence: Geofence, dist: Distance)
    requires DistanceOf(dist, Center(geofence), a) <= geofence.radiusInMeters
    requires DistanceOf(dist, Center(geofence), a) < DistanceOf(dist, Center(geofence), b)
    ensures var expected :=
      if DistanceOf(dist, Center(geofence), b) <= geofence.radiusInMeters then [Project(a), Project(b)]
      else [Project(a)];
      GetDevicesInGeofence([a, b], geofence, dist) == expected &&
      GetDevicesInGeofence([b, a], geofence, dist) == expected
  {
    var c, radius := Center(geofence), geofence.radiusInMeters;
    GeoNearTwo(a, b, dist, c, radius);
    assert GetDevicesInGeofence([a, b], geofence, dist) == GetDevices(GeoNear([a, b], dist, c, radius));
    assert GetDevicesInGeofence([b, a], geofence, dist) == GetDevices(GeoNear([b, a], dist, c, radius));
    GetDevicesOfOne(a);
    GetDevicesOfTwo(a, b);
  }

  /** The device collection. */
  class DeviceCollection {
    var records: seq<StoredDevice>

    constructor ()
      ensures records == []
    {
      records := [];
    }

    /** `saveDevice`: appends the stored form of the device and resolves to
        it when the store accepts the write; otherwise nothing changes and
        the call rejects (None). */
    method SaveDevice(device: Device, saveOk: bool) returns (saved: Option<StoredDevice>)
      modifies this
      ensures saveOk ==> records == old(records) + [ToStored(device)] && saved == Some(ToStored(device))
      ensures !saveOk ==> records == old(records) && saved == None
    {
      if saveOk {
        var document := ToStored(device);
        records := records + [document];
        saved := Some(document);
      } else {
        saved := None;
      }
    }
  }
}

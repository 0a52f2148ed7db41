/** The read facade (src/services/deviceService.ts): three delegations to the
    device store that never change it. The store is passed as an explicit
    handle. */
module DeviceService {
  import opened Common
  import opened Devices
  import DeviceStore

  /** `getDevices_`: what `getDevices` answers, i.e. every record, in order. */
  function GetDevices(store: DeviceStore.DeviceCollection): (devices: seq<ProjectedDevice>)
    reads store
    ensures devices == DeviceStore.GetDevices(store.records)
    ensures |devices| == |store.records|
  {
    DeviceStore.GetDevices(store.records)
  }

  /** `getDeviceForUuid_`: what `getDeviceForUuid` answers for the same uuid. */
  function GetDeviceForUuid(store: DeviceStore.DeviceCollection, uuid: string): (device: Option<ProjectedDevice>)
    reads store
    ensures device == DeviceStore.GetDeviceForUuid(store.records, uuid)
    ensures device.None? <==> forall i :: 0 <= i < |store.records| ==> store.records[i].uuid != uuid
  {
    DeviceStore.GetDeviceForUuid(store.records, uuid)
  }

  /** `getDevicesInGeofence_`: what `getDevicesInGeofence` answers for the
      same geofence, i.e. the stored records within the radius of the fence's
      centre, each as often as it is stored, nearest first. */
  function GetDevicesInGeofence(store: DeviceStore.DeviceCollection, geofence: Geofence, dist: DeviceStore.Distance)
    : (devices: seq<ProjectedDevice>)
    reads store
    ensures devices == DeviceStore.GetDevicesInGeofence(store.records, geofence, dist)
    ensures exists near :: DeviceStore.IsGeoNearResult(store.records, dist, DeviceStore.Center(geofence),
                                                       geofence.radiusInMeters, near)
                           && devices == DeviceStore.GetDevices(near)
  {
    DeviceStore.GetDevicesInGeofence(store.records, geofence, dist)
  }

  /** With one stored device, the facade returns it from the list query,
      from the uuid query and from a geofence that contains it. */
  lemma FacadeWithOneDevice(store: DeviceStore.DeviceCollection, record: StoredDevice,
                            geofence: Geofence, dist: DeviceStore.Distance)
    requires store.records == [record]
    requires DeviceStore.DistanceOf(dist, DeviceStore.Center(geofence), record) <= geofence.radiusInMeters
    ensures GetDevices(store) == [DeviceStore.Project(record)]
    ensures GetDeviceForUuid(store, record.uuid) == Some(DeviceStore.Project(record))
    ensures GetDevicesInGeofence(store, geofence, dist) == [DeviceStore.Project(record)]
  {
    DeviceStore.GetDevicesOfOne(record);
    DeviceStore.GetDeviceForUuidIsFirstMatch([record], record.uuid, 0);
    var c := DeviceStore.Center(geofence);
    assert [record][1..] == [];
    assert DeviceStore.WithinDistance([record], dist, c, geofence.radiusInMeters) == [record];
    assert DeviceStore.SortByDistance(dist, c, [record]) == [record];
  }
}

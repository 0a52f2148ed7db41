/** The current registration path (src/services/registrationService.ts):
    validate, then save; there is no uuid lookup. */
module RegistrationService {
  import opened Common
  import opened Devices
  import opened DeviceStore

  /** How the promise returned by `registerDevice` settles. */
  datatype Settlement = Resolved | Rejected(reason: Option<string>)

  const InvalidDevice: string := "Invalid device"

  /** The records after one call, given the validator's answer and whether
      the store accepts the write. */
  function Registered(records: seq<StoredDevice>, device: Device, valid: bool, saveOk: bool): seq<StoredDevice>
  {
    if valid && saveOk then records + [ToStored(device)] else records
  }

  /** `registerDevice`: an invalid device is rejected with 'Invalid device'
      and nothing is saved; a valid one is saved exactly once, and the call
      resolves after the save or rejects (with no reason) when it fails. */
  method RegisterDevice(store: DeviceCollection, device: Device, isValidDevice: Device -> bool, saveOk: bool)
    returns (settlement: Settlement)
    modifies store
    ensures store.records == Registered(old(store.records), device, isValidDevice(device), saveOk)
    ensures !isValidDevice(device) ==> settlement == Rejected(Some(InvalidDevice))
    ensures isValidDevice(device) ==> settlement == if saveOk then Resolved else Rejected(None)
  {
    if isValidDevice(device) {
      var saved := store.SaveDevice(device, saveOk);
      settlement := if saved.Some? then Resolved else Rejected(None);
    } else {
      settlement := Rejected(Some(InvalidDevice));
    }
  }

  /** Registering one device into an empty store makes `getDevices` return
      exactly that device in its read shape: `owner` instead of `deedOwner`
      and the coordinates as named members. */
  lemma RegisterIntoEmptyStore(device: Device)
    ensures var devices := GetDevices(Registered([], device, true, true));
      && |devices| == 1
      && devices[0] == Project(ToStored(device))
      && devices[0].authorization == StoredAuthorization(
           device.authorization.name, device.authorization.role, device.authorization.deedOwner)
      && devices[0].geoPosition.coordinates == ProjectedCoordinates(
           Some(device.geoPosition.coordinates.longitude), Some(device.geoPosition.coordinates.latitude))
  {
    assert Registered([], device, true, true) == [ToStored(device)];
  }

  /** There is no deduplication on this path: every successful call appends
      a record, so registering the same device twice stores it twice. */
  lemma {:induction false} RegisteringTwiceStoresTwice(records: seq<StoredDevice>, device: Device)
    ensures var twice := Registered(Registered(records, device, true, true), device, true, true);
      |MatchUuid(twice, device.uuid)| == |MatchUuid(records, device.uuid)| + 2
  {
    var s := ToStored(device);
    assert Registered(Registered(records, device, true, true), device, true, true) == records + [s, s];
    MatchUuidAppendTwice(records, s);
  }
}

# IoT device registration: a Dafny model of the registration core

This project models the core of `iot-device-registration`. That service takes
device registrations from an MQTT topic, stores them in MongoDB and answers
three read queries: list all devices, get one device by uuid, and list the
devices inside a geofence. The model covers five parts.

- **Coordinate normalisation** (`Mqtt`). `getMappedCoordinates` turns a
  geoposition `{latitude, longitude}` into the GeoJSON point
  `{type: "Point", coordinates: [longitude, latitude]}`. A missing or falsy
  geoposition gives an empty list. The MQTT `message` handler validates each
  message, replaces its `geoposition` with the mapped point and emits it on
  the `registration` channel. An invalid message is only logged as a warning.
- **First-write-wins deduplication** (`LegacyRegistration`, `Ingestion`). The
  legacy handler stores an emitted message only when no stored document has
  its `uuid`. A failed lookup writes nothing. A failed save is logged and not
  propagated.
- **The device store** (`DeviceStore`). `saveDevice` maps the public `Device`
  to the stored layout: `deedOwner` is stored as `owner`, the named
  coordinates become the array `[longitude, latitude]`, and `schedule` is
  copied as it is. The read pipelines project stored records back out, taking
  longitude from position 0 and latitude from position 1.
  `getDeviceForUuid` returns the first match or nothing. `getDevicesInGeofence`
  returns the records within the radius, nearest first.
- **Registration** (`RegistrationService`). `registerDevice` validates and then
  saves. It does no uuid lookup.
- **The read facade** (`DeviceService`). It only delegates to the store.

Modelling choices:
- Coordinates are `real`s. They are only reordered, never computed with.
- JSON payloads are a JavaScript value datatype (`Json.Value`).
- The collections are classes holding a `seq`, and they grow by appends.
- Things outside the core are parameters:
  - the two validators (the JSON-schema check behind
    `isValidRegistrationMessage`, and `isValidDevice`);
  - the success or failure of each database call;
  - the distance `$geoNear` computes.
- The geofence answer is specified as any ordering that is nearest first. It
  is a permutation of the in-radius records, so records at equal distance may
  come in either order. The function that computes it is one such answer.

Behaviour of the code that the model keeps as it is:
- `registerDevice` does no uuid lookup, so saving the same device twice stores
  two records (`RegistrationService.RegisteringTwiceStoresTwice`). Only the
  legacy pipeline deduplicates.
- A message that fails validation, a failed lookup and a failed save are only
  written to the log; nothing goes back to the sender. The model records that
  line as the handler's warning or outcome.

## Model

| member | source | states |
|---|---|---|
| `Mqtt.GetMappedCoordinates` | src/mqtt/mqtt.ts:10-24 | the point's type is always "Point"; the list has length 0 or 2; it is empty exactly when the geoposition is missing or falsy, and this is not an error |
| `Mqtt.MappedCoordinatesReadBack` | src/mqtt/mqtt.ts:13-16 | read by position, the mapped list gives the longitude at 0 and the latitude at 1, and has nothing at 2 |
| `Mqtt.Remap` | src/mqtt/mqtt.ts:54 | only an object is remapped; its keys are the old keys plus `geoposition`; `geoposition` is the mapped point; every other field is unchanged |
| `Mqtt.Deliver` | src/mqtt/mqtt.ts:52-60 | a message is emitted iff validation passes and it is an object; what is emitted is the remapped message; a failed validation gives a warning carrying the validator's text |
| `Mqtt.RegistrationTopic.OnMessage` | src/mqtt/mqtt.ts:47-61 | a valid message is appended to the emitted events exactly once and no warning is logged; otherwise nothing is emitted and exactly one warning is appended |
| `Mqtt.TestMessageEmitted` | test/mqtt/mqtt.spec.ts:26-35 | the test's message is emitted with exactly the keys authorization, geoposition, identification and timestamp, and with its geoposition mapped to `[25.025266, -72.080605]` |
| `LegacyRegistration.Find` | src/mongodb/mongodb.ts:14 | the lookup returns only documents with the uuid, and every stored document with the uuid is among them |
| `LegacyRegistration.FindAppend` | src/mongodb/mongodb.ts:14 | looking up a uuid in a collection grown by appends gives the old matches followed by the new ones |
| `LegacyRegistration.NewIffNoMatch` | src/mongodb/mongodb.ts:12-22 | a uuid is reported new iff no stored document has it |
| `LegacyRegistration.RegistrationCollection.IsDeviceWithUuidNewDevice` | src/mongodb/mongodb.ts:12-29 | rejects (None) exactly when the lookup fails; otherwise resolves to true iff no stored document has the uuid |
| `LegacyRegistration.RegistrationCollection.WriteMessageToMongoDB` | src/mongodb/mongodb.ts:31-37 | a successful save appends exactly the message; a failed save leaves the collection unchanged and is not propagated |
| `LegacyRegistration.RegistrationCollection.OnRegistration` | src/mongodb/mongodb.ts:44-58 | the collection gains the message iff the lookup succeeds, the uuid is new and the save succeeds, and is unchanged otherwise; the logged outcome is LookupFailed, AlreadyExists, Saved or SaveFailed accordingly |
| `LegacyRegistration.RegistrationOnlyAppends` | src/mongodb/mongodb.ts:31-36 | handling a message keeps every stored document in place and adds at most one, which is the message |
| `LegacyRegistration.DuplicateLeavesCollectionUnchanged` | src/mongodb/mongodb.ts:47-53 | when a stored document already has the message's uuid, the collection is unchanged and nothing is saved, whatever the lookup or save would do |
| `LegacyRegistration.RegistrationKeepsUuidsUnique` | src/mongodb/mongodb.ts:44-58 | handling one message keeps the stored uuids pairwise distinct |
| `LegacyRegistration.EventsKeepUuidsUnique` | src/mongodb/mongodb.ts:44-58 | any sequence of messages handled one after another keeps the stored uuids pairwise distinct |
| `LegacyRegistration.FirstWriteWins` | src/mongodb/mongodb.ts:12-53 | for a new uuid, a successful first handling appends the message; a second handling of the same message leaves the collection as it is; exactly one document then has the uuid |
| `Ingestion.IngestedMessageIsRemapped` | src/mqtt/mqtt.ts:52-56 | an invalid message never reaches the collection; a stored message is the remapped one, with its geoposition as the mapped point |
| `Ingestion.SameMessageTwiceStoredOnce` | src/mongodb/mongodb.ts:44-53 | the same valid message received twice on a collection without its uuid is stored once |
| `DeviceStore.ToStored` | src/db/mongodb.ts:23-44 | the stored document of a device: `deedOwner` as `owner`, the coordinates as `[longitude, latitude]`, the rest copied; its properties are stated by `DeviceStore.SaveThenProjectRoundTrip` and `DeviceStore.CenterMatchesStoredPoint` |
| `DeviceStore.Project` | src/db/mongodb.ts:52-67 | the `$project` stage the three read pipelines share (also lines 75-90 and 116-131): longitude from position 0, latitude from position 1, the rest copied; its properties are stated by `DeviceStore.SaveThenProjectRoundTrip` |
| `DeviceStore.SaveThenProjectRoundTrip` | src/db/mongodb.ts:22-67 | save-then-read returns the coordinate pair exactly as longitude and latitude; owner is the device's deedOwner; name, role, type, identification (with schedule in order) and uuid are unchanged |
| `DeviceStore.DeviceCollection.SaveDevice` | src/db/mongodb.ts:22-47 | a successful save appends exactly the stored form of the device and resolves to it; a failed save changes nothing and rejects |
| `DeviceStore.GetDevices` | src/db/mongodb.ts:49-70 | the result has one entry per stored record, in collection order, each the projection of that record |
| `DeviceStore.GetDevicesAfterAppend` | test/db/mongodb.spec.ts:224-317 | a record appended to the collection is listed last, after the earlier records |
| `DeviceStore.MatchUuid` | src/db/mongodb.ts:74 | the match stage keeps every record with the uuid, as often as it is stored, and no other record; it is empty iff no record has the uuid |
| `DeviceStore.MatchUuidAppend` | src/db/mongodb.ts:74 | matching a collection grown by appends gives the old matches followed by the new ones |
| `DeviceStore.GetDeviceForUuid` | src/db/mongodb.ts:72-99 | nothing (undefined) is returned iff no record has the uuid; a returned device has that uuid |
| `DeviceStore.GetDeviceForUuidIsFirstMatch` | src/db/mongodb.ts:74-96 | the returned device is the projection of the first record in collection order with the uuid |
| `DeviceStore.Center` | src/db/mongodb.ts:108-111 | the query centre is the two-element array with longitude at position 0 and latitude at position 1 |
| `DeviceStore.CenterMatchesStoredPoint` | src/db/mongodb.ts:31-34 | a fence given a device's own latitude and longitude is centred on exactly the coordinate array `saveDevice` stores for that device, so the two layouts agree and are not swapped |
| `DeviceStore.DeviceAtCenterIsFound` | src/db/mongodb.ts:102-115 | a saved device is answered by a fence of any non-negative radius centred on its own coordinates, given that a point is at distance zero from itself |
| `DeviceStore.WithinDistance` | src/db/mongodb.ts:106-115 | keeps each record within the maximum distance as often as it is stored, and drops every record beyond it |
| `DeviceStore.InsertByDistance` | src/db/mongodb.ts:106-115 | inserting a record adds exactly that record, as the new head or behind the old head |
| `DeviceStore.InsertKeepsSorted` | src/db/mongodb.ts:106-115 | inserting into a list sorted nearest first keeps it sorted |
| `DeviceStore.SortByDistance` | test/db/mongodb.spec.ts:551-648 | the result is sorted nearest first and is a permutation of the input |
| `DeviceStore.GeoNear` | src/db/mongodb.ts:106-115 | the geoNear stage answers exactly the records within the maximum distance, with multiplicity, sorted nearest first |
| `DeviceStore.GetDevicesInGeofence` | src/db/mongodb.ts:102-134 | the result is the projection of a geoNear answer centred on `[longitude, latitude]` with the radius as maximum distance |
| `DeviceStore.GeoNearExcludesFarRecords` | src/db/mongodb.ts:113 | every record in a geoNear answer is stored and within the radius, so a farther one never appears |
| `DeviceStore.GeoNearTwo` | test/db/mongodb.spec.ts:473-648 | for two records, the nearer one within the radius, both orders of insertion give the same answer: both records nearest first, or only the nearer one when the other lies beyond the radius |
| `DeviceStore.GeofenceTwoDevices` | test/db/mongodb.spec.ts:473-648 | for two devices, the nearer one inside the fence, the query returns both nearest first when the farther one is inside too, and only the nearer one otherwise, whichever was stored first |
| `RegistrationService.RegisterDevice` | src/services/registrationService.ts:5-15 | an invalid device is rejected with 'Invalid device' and the store is unchanged; a valid one is saved exactly once and the call resolves, or rejects with no reason when the save fails |
| `RegistrationService.RegisterIntoEmptyStore` | test/services/registrationService.spec.ts:14-69 | after registering one device into an empty store, listing returns exactly that device, with `owner` equal to its deedOwner and its coordinates as named members |
| `RegistrationService.RegisteringTwiceStoresTwice` | src/services/registrationService.ts:5-14 | with no uuid lookup, two successful registrations of the same device add two records with its uuid |
| `DeviceService.GetDevices` | src/services/deviceService.ts:5-7 | returns exactly what the store's listing returns, one entry per record, and reads the store without changing it |
| `DeviceService.GetDeviceForUuid` | src/services/deviceService.ts:9-11 | returns exactly the store's answer for the same uuid, which is nothing iff no record has it |
| `DeviceService.GetDevicesInGeofence` | src/services/deviceService.ts:13-15 | returns exactly the store's answer for the same geofence: the projection of the stored records within the radius of the fence's centre, with multiplicity, nearest first |
| `DeviceService.FacadeWithOneDevice` | test/services/deviceService.spec.ts:48-210 | with one stored device, the list, uuid and geofence queries each return exactly that device |

## Left out

- Connections, the MQTT client and the HTTP routes are left out. This covers connecting to and disconnecting from MongoDB, connecting and subscribing to the broker, turning the payload buffer into JSON, the Express routes with their `parseFloat`/`parseInt` handling, and the process wiring in `src/app.ts` and `src/index.ts`. All of these are I/O. `Ingestion` composes the two handlers directly.
- Logging is left out. A log line appears only as the handler's `warnings` entry or as the returned `Outcome`.
- Schema validation is left out: the JSON schema behind `isValidRegistrationMessage` is not part of this model, and neither is `isValidDevice`. Each is a parameter, either a function or a verdict.
- The database's answers are parameters: `lookupOk` and `saveOk` say whether a lookup or a save succeeds. Failures of the three read pipelines are not modelled, so reads always answer.
- `$geoNear` geometry is left out. The 2dsphere index and the spherical distance are floating-point geometry inside the database, so the distance is a parameter. Records whose coordinates the index cannot read are not modelled, and neither is the 100-document default limit of older MongoDB versions.
- Timestamps are left out. The cast of the reported string to a date and `$dateToString` are library date handling. The projected timestamp is `DateToString(stored)`, a wrapper around the reported string, and it is never equated with that string. Two spellings of the same instant (`2015-01-01T00:00:00.00Z` and `2015-01-01T00:00:00.000Z`) render identically in the real store but stay different in the model.
- Mongoose's schema strictness is left out. The legacy schema has no `schedule`, so the real store may drop it. The model keeps documents exactly as emitted.
- The dedup race is left out. Two concurrent messages with the same uuid can both pass the lookup, because the save is fire-and-forget. The model handles messages one at a time.
- The event emitter is reduced to the list of emitted events. Since no other code holds the parsed message, the handler's in-place update of `geoposition` is modelled as building the updated value.
- Mqtt.Remap: a validated top-level JSON array is treated like a primitive (nothing is emitted). JavaScript would attach a `geoposition` property to the array and emit it. A `null` or primitive message does throw a TypeError and is only logged, as modelled.
- LegacyRegistration.Find: matching is plain equality of the `uuid` field, with a missing uuid matching a missing uuid. MongoDB's matching inside arrays and Mongoose's handling of an undefined filter value are not modelled.
- DeviceStore.GetDeviceForUuid, DeviceStore.GetDevices, DeviceStore.GetDevicesAfterAppend: collection order is taken to be insertion order, so "first", "in collection order" and "listed last" refer to it. MongoDB's natural order is not promised to be insertion order.
- Json.Get: property reads are modelled for the own properties of objects only. The names the core reads are not built-in properties of strings, numbers or arrays.

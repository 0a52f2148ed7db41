/** The device shapes of the registration store: the public `Device` accepted
    by `saveDevice` (src/types/device.d.ts), the layout stored in the `device`
    collection (src/db/deviceSchema.ts) and the shape the read pipelines
    project back out. */
module Devices {
  import opened Common

  /** One timeline entry; order inside `schedule` is significant. */
  datatype Schedule = Schedule(dateTime: string, description: string)

  datatype Identification = Identification(
    company: string,
    device: string,
    version: string,
    schedule: seq<Schedule>)

  // ---- the public shape handed to saveDevice / registerDevice ----

  datatype Authorization = Authorization(name: string, role: string, deedOwner: string)

  /** Coordinates are only reordered, never computed with. */
  datatype Coordinates = Coordinates(longitude: real, latitude: real)

  /** `kind` is the GeoJSON `type` member ("Point"). */
  datatype GeoPosition = GeoPosition(kind: string, coordinates: Coordinates)

  datatype Device = Device(
    authorization: Authorization,
    geoPosition: GeoPosition,
    identification: Identification,
    timestamp: string,
    uuid: string)

  // ---- the stored layout ----

  datatype StoredAuthorization = StoredAuthorization(name: string, role: string, owner: string)

  /** `coordinates` is the positional `[longitude, latitude]` array the
      2dsphere index is built on. */
  datatype StoredGeoPosition = StoredGeoPosition(kind: string, coordinates: seq<real>)

  /** `timestamp` stands for the Date the store casts the reported string to. */
  datatype StoredDevice = StoredDevice(
    authorization: StoredAuthorization,
    geoposition: StoredGeoPosition,
    identification: Identification,
    timestamp: string,
    uuid: string)

  // ---- the shape the read pipelines project ----

  /** Each member is `$arrayElemAt` of the stored array: missing when the
      array is too short. */
  datatype ProjectedCoordinates = ProjectedCoordinates(longitude: Option<real>, latitude: Option<real>)

  datatype ProjectedGeoPosition = ProjectedGeoPosition(kind: string, coordinates: ProjectedCoordinates)

  /** The string `$dateToString` renders from a stored date, kept as a
      wrapper around the reported string: the rendering is never equated with
      that string (".00Z" comes back as ".000Z"). Two spellings of one instant
      stay distinct here. */
  datatype RenderedDate = DateToString(date: string)

  datatype ProjectedDevice = ProjectedDevice(
    authorization: StoredAuthorization,
    geoPosition: ProjectedGeoPosition,
    identification: Identification,
    timestamp: RenderedDate,
    uuid: string)

  /** A circular query region. */
  datatype Geofence = Geofence(latitude: real, longitude: real, radiusInMeters: real)
}

/** The MQTT side of the legacy ingestion pipeline (src/mqtt/mqtt.ts): the
    coordinate normaliser and the `message` handler that validates, remaps
    and emits each registration message. */
module Mqtt {
  import opened Common
  import opened Json

  /** The GeoJSON point built by `getMappedCoordinates`. */
  datatype GeoPoint = GeoPoint(kind: string, coordinates: seq<Value>)
  {
    /** The object `{type, coordinates}` put back into the message. */
    function ToValue(): Value
    {
      Obj(map["type" := Str(kind), "coordinates" := Arr(coordinates)])
    }
  }

  /** `getMappedCoordinates`: `[longitude, latitude]` from a present
      geoposition, and an empty list (never an error) from a missing or
      falsy one. */
  function GetMappedCoordinates(geoposition: Value): (point: GeoPoint)
    ensures point.kind == "Point"
    ensures |point.coordinates| == 0 || |point.coordinates| == 2
    ensures point.coordinates == [] <==> !Truthy(geoposition)
  {
    var coordinates :=
      if Truthy(geoposition) then [Get(geoposition, "longitude"), Get(geoposition, "latitude")]
      else [];
    GeoPoint("Point", coordinates)
  }

  /** Reading the mapped array by position, as the store's projections do with
      `$arrayElemAt`, gives back the named pair: position 0 is the longitude
      and position 1 the latitude. */
  lemma MappedCoordinatesReadBack(longitude: real, latitude: real, rest: map<string, Value>)
    ensures var point := GetMappedCoordinates(Obj(rest["longitude" := Num(longitude)]["latitude" := Num(latitude)]));
      && ArrayElemAt(point.coordinates, 0) == Some(Num(longitude))
      && ArrayElemAt(point.coordinates, 1) == Some(Num(latitude))
      && ArrayElemAt(point.coordinates, 2) == None
  {
  }

  /** Line 54: the message with `geoposition` replaced by its mapped form.
      Assigning a property of null or of a primitive throws a TypeError (the
      compiled module runs in strict mode), so only objects are remapped. */
  function Remap(message: Value): (event: Option<Object>)
    ensures event.Some? <==> message.Obj?
    ensures event.Some? ==> event.value.Keys == message.fields.Keys + {"geoposition"}
    ensures event.Some? ==>
      event.value["geoposition"] == GetMappedCoordinates(Get(message, "geoposition")).ToValue()
    ensures event.Some? ==>
      forall key :: key in message.fields && key != "geoposition" ==> event.value[key] == message.fields[key]
  {
    if message.Obj? then
      Some(message.fields["geoposition" := GetMappedCoordinates(Get(message, "geoposition")).ToValue()])
    else
      None
  }

  /** What `isValidRegistrationMessage` settles to: resolved, or rejected with
      the schema validator's error text. The schema itself is not modelled. */
  datatype Verdict = Valid | Invalid(errorsText: string)

  /** Why a message was only logged as a warning. */
  datatype Rejection = SchemaViolation(errorsText: string) | NotAnObject

  /** The effect of handling one message: an emitted event or a warning. */
  datatype Delivery = Emit(event: Object) | Warn(reason: Rejection)

  /** Lines 52-60 as a function of the validator's verdict. */
  function Deliver(message: Value, verdict: Verdict): (d: Delivery)
    ensures d.Emit? <==> verdict == Valid && message.Obj?
    ensures d.Emit? ==> Remap(message) == Some(d.event)
    ensures verdict.Invalid? ==> d == Warn(SchemaViolation(verdict.errorsText))
  {
    match verdict
    case Invalid(text) => Warn(SchemaViolation(text))
    case Valid =>
      match Remap(message)
      case Some(event) => Emit(event)
      case None => Warn(NotAnObject)
  }

  /** The handler's observable state: the events emitted on the
      `registration` channel and the warnings logged, both in order. */
  class RegistrationTopic {
    var events: seq<Object>
    var warnings: seq<Rejection>

    constructor ()
      ensures events == [] && warnings == []
    {
      events := [];
      warnings := [];
    }

    /** The `message` handler: validate, then either remap and emit exactly
        once, or log a warning and emit nothing. */
    method OnMessage(message: Value, validate: Value -> Verdict)
      modifies this
      ensures Deliver(message, validate(message)).Emit? ==>
        events == old(events) + [Deliver(message, validate(message)).event] && warnings == old(warnings)
      ensures Deliver(message, validate(message)).Warn? ==>
        events == old(events) && warnings == old(warnings) + [Deliver(message, validate(message)).reason]
    {
      var verdict := validate(message);
      match verdict
      case Invalid(text) =>
        warnings := warnings + [SchemaViolation(text)];
      case Valid =>
        match Remap(message)
        case Some(event) =>
          events := events + [event];
        case None =>
          warnings := warnings + [NotAnObject];
    }
  }

  /** The registration message published by the MQTT test. */
  function TestMessage(): Value
  {
    Obj(map[
      "authorization" := Obj(map[
        "name" := Str("Lawrence Robertson"),
        "role" := Str("C.E.O."),
        "deedOwner" := Str("U.S. Robotics Corporation")]),
      "geoposition" := Obj(map["latitude" := Num(-72.080605), "longitude" := Num(25.025266)]),
      "identification" := Obj(map[
        "company" := Str("USR"),
        "device" := Str("Demolition Robot"),
        "schedule" := Arr([Obj(map["dateTime" := Str("2004-07-07T08:00:00.00Z"), "description" := Str("demolition")])]),
        "version" := Str("9-4")]),
      "timestamp" := Str("2019-09-01T12:34:43.502Z")])
  }

  /** Once validated, the test message is emitted with exactly its four keys
      and its geoposition as the point `[25.025266, -72.080605]`. */
  lemma TestMessageEmitted()
    ensures var d := Deliver(TestMessage(), Valid);
      && d.Emit?
      && d.event.Keys == {"authorization", "geoposition", "identification", "timestamp"}
      && d.event["geoposition"] == GeoPoint("Point", [Num(25.025266), Num(-72.080605)]).ToValue()
  {
  }
}

/** The legacy pipeline as wired by src/index.ts: the MQTT handler emits each
    validated, remapped message and the registration collection's handler
    stores it unless its uuid is already on record. */
module Ingestion {
  import opened Common
  import opened Json
  import opened Mqtt
  import opened LegacyRegistration

  /** The collection after one inbound message has gone through both handlers. */
  function AfterMessage(documents: seq<Object>, message: Value, verdict: Verdict, lookupOk: bool, saveOk: bool)
    : seq<Object>
  {
    match Deliver(message, verdict)
    case Emit(event) => AfterRegistration(documents, event, lookupOk, saveOk)
    case Warn(_) => documents
  }

  /** An invalid message never reaches the collection; a stored message is
      the remapped one, with its geoposition as the point
      `[longitude, latitude]`. */
  lemma IngestedMessageIsRemapped(documents: seq<Object>, message: Value, verdict: Verdict,
                                  lookupOk: bool, saveOk: bool)
    ensures verdict.Invalid? ==> AfterMessage(documents, message, verdict, lookupOk, saveOk) == documents
    ensures var after := AfterMessage(documents, message, verdict, lookupOk, saveOk);
      after != documents ==>
        && message.Obj?
        && after == documents + [Remap(message).value]
        && after[|documents|]["geoposition"]
           == GetMappedCoordinates(Get(message, "geoposition")).ToValue()
  {
  }

  /** The same valid message received twice on a collection that does not
      hold its uuid ends up stored once. */
  lemma SameMessageTwiceStoredOnce(documents: seq<Object>, message: Value, lookupOk: bool, saveOk: bool)
    requires message.Obj?
    requires forall i :: 0 <= i < |documents| ==> UuidOf(documents[i]) != Get(message, "uuid")
    ensures var once := AfterMessage(documents, message, Valid, true, true);
      && once == documents + [Remap(message).value]
      && AfterMessage(once, message, Valid, lookupOk, saveOk) == once
  {
    var event := Remap(message).value;
    assert UuidOf(event) == Get(message, "uuid");
    FirstWriteWins(documents, event, lookupOk, saveOk);
  }
}

/** The legacy registration collection behind the event emitter
    (src/mongodb/mongodb.ts): a message is stored only when no stored
    document carries its `uuid`, so the first write wins. */
module LegacyRegistration {
  import opened Common
  import opened Json

  /** `message.uuid` (undefined when the message has none). */
  function UuidOf(document: Object): Value
  {
    Get(Obj(document), "uuid")
  }

  /** `RegistrationModel.find({uuid})`: the stored documents whose uuid
      equals `uuid`, in collection order. */
  function Find(documents: seq<Object>, uuid: Value): (found: seq<Object>)
    ensures |found| <= |documents|
    ensures forall i :: 0 <= i < |found| ==> UuidOf(found[i]) == uuid
    ensures forall i :: 0 <= i < |documents| && UuidOf(documents[i]) == uuid ==> documents[i] in found
  {
    if documents == [] then []
    else (if UuidOf(documents[0]) == uuid then [documents[0]] else []) + Find(documents[1..], uuid)
  }

  /** `find` distributes over a collection that grew by appends. */
  lemma {:induction false} FindAppend(a: seq<Object>, b: seq<Object>, uuid: Value)
    ensures Find(a + b, uuid) == Find(a, uuid) + Find(b, uuid)
  {
    if a == [] {
      assert a + b == b;
    } else {
      assert (a + b)[0] == a[0];
      assert (a + b)[1..] == a[1..] + b;
      FindAppend(a[1..], b, uuid);
    }
  }

  /** The answer `isDeviceWithUuidNewDevice` resolves to when the lookup
      succeeds: zero matching documents. */
  predicate IsNew(documents: seq<Object>, uuid: Value)
  {
    |Find(documents, uuid)| == 0
  }

  /** A uuid is new exactly when no stored document has it. */
  lemma NewIffNoMatch(documents: seq<Object>, uuid: Value)
    ensures IsNew(documents, uuid) <==> forall i :: 0 <= i < |documents| ==> UuidOf(documents[i]) != uuid
  {
    if !IsNew(documents, uuid) {
      var found := Find(documents, uuid);
      assert UuidOf(found[0]) == uuid;
      FindElementsComeFromDocuments(documents, uuid, found[0]);
    }
  }

  lemma {:induction false} FindElementsComeFromDocuments(documents: seq<Object>, uuid: Value, d: Object)
    requires d in Find(documents, uuid)
    ensures exists i :: 0 <= i < |documents| && documents[i] == d
  {
    if documents != [] {
      if d == documents[0] {
        assert documents[0] == d;
      } else {
        assert d in Find(documents[1..], uuid);
        FindElementsComeFromDocuments(documents[1..], uuid, d);
        var i :| 0 <= i < |documents[1..]| && documents[1..][i] == d;
        assert documents[i + 1] == d;
      }
    }
  }

  /** The number of stored documents carrying `uuid`. */
  function CountWithUuid(documents: seq<Object>, uuid: Value): nat
  {
    |Find(documents, uuid)|
  }

  /** How handling one `registration` event ends, i.e. which line is logged. */
  datatype Outcome = Saved | SaveFailed | AlreadyExists | LookupFailed

  /** The collection after the handler of lines 44-58 has run, given whether
      the lookup and the save succeed. */
  function AfterRegistration(documents: seq<Object>, message: Object, lookupOk: bool, saveOk: bool): seq<Object>
  {
    if lookupOk && IsNew(documents, UuidOf(message)) && saveOk then documents + [message] else documents
  }

  /** What the handler logs, under the same conditions. */
  function RegistrationOutcome(documents: seq<Object>, message: Object, lookupOk: bool, saveOk: bool): Outcome
  {
    if !lookupOk then LookupFailed
    else if !IsNew(documents, UuidOf(message)) then AlreadyExists
    else if saveOk then Saved
    else SaveFailed
  }

  /** The collection only ever grows by one appended message: stored
      documents are never modified or removed. */
  lemma RegistrationOnlyAppends(documents: seq<Object>, message: Object, lookupOk: bool, saveOk: bool)
    ensures var after := AfterRegistration(documents, message, lookupOk, saveOk);
      && |documents| <= |after| <= |documents| + 1
      && after[..|documents|] == documents
      && (|after| == |documents| + 1 ==> after[|documents|] == message)
  {
  }

  /** A message whose uuid is already stored leaves the collection unchanged,
      whatever the save would have done. */
  lemma DuplicateLeavesCollectionUnchanged(documents: seq<Object>, message: Object, i: nat, lookupOk: bool, saveOk: bool)
    requires i < |documents| && UuidOf(documents[i]) == UuidOf(message)
    ensures AfterRegistration(documents, message, lookupOk, saveOk) == documents
    ensures RegistrationOutcome(documents, message, lookupOk, saveOk) != Saved
  {
    NewIffNoMatch(documents, UuidOf(message));
  }

  /** No two stored documents share a uuid. */
  ghost predicate UniqueUuids(documents: seq<Object>)
  {
    forall i, j :: 0 <= i < j < |documents| ==> UuidOf(documents[i]) != UuidOf(documents[j])
  }

  /** Handled one at a time, registrations keep the uuids unique. */
  lemma RegistrationKeepsUuidsUnique(documents: seq<Object>, message: Object, lookupOk: bool, saveOk: bool)
    requires UniqueUuids(documents)
    ensures UniqueUuids(AfterRegistration(documents, message, lookupOk, saveOk))
  {
    if lookupOk && IsNew(documents, UuidOf(message)) && saveOk {
      NewIffNoMatch(documents, UuidOf(message));
    }
  }

  /** One handled event: the message and whether its lookup and save succeed. */
  datatype Event = Event(message: Object, lookupOk: bool, saveOk: bool)

  /** The collection after a sequence of events handled one after another. */
  function AfterEvents(documents: seq<Object>, events: seq<Event>): seq<Object>
    decreases |events|
  {
    if events == [] then documents
    else
      var e := events[0];
      AfterEvents(AfterRegistration(documents, e.message, e.lookupOk, e.saveOk), events[1..])
  }

  /** Any sequence of sequentially handled events starting from an empty (or
      duplicate-free) collection leaves at most one document per uuid. */
  lemma {:induction false} EventsKeepUuidsUnique(documents: seq<Object>, events: seq<Event>)
    requires UniqueUuids(documents)
    ensures UniqueUuids(AfterEvents(documents, events))
    decreases |events|
  {
    if events != [] {
      var e := events[0];
      RegistrationKeepsUuidsUnique(documents, e.message, e.lookupOk, e.saveOk);
      EventsKeepUuidsUnique(AfterRegistration(documents, e.message, e.lookupOk, e.saveOk), events[1..]);
    }
  }

  /** First write wins: handling the same message twice in a row, the first
      time successfully, leaves exactly one document with its uuid, the
      first one, whatever happens the second time. */
  lemma FirstWriteWins(documents: seq<Object>, message: Object, lookupOk: bool, saveOk: bool)
    requires forall i :: 0 <= i < |documents| ==> UuidOf(documents[i]) != UuidOf(message)
    ensures var once := AfterRegistration(documents, message, true, true);
      && once == documents + [message]
      && AfterRegistration(once, message, lookupOk, saveOk) == once
      && CountWithUuid(once, UuidOf(message)) == 1
  {
    var uuid := UuidOf(message);
    NewIffNoMatch(documents, uuid);
    var once := documents + [message];
    DuplicateLeavesCollectionUnchanged(once, message, |documents|, lookupOk, saveOk);
    FindAppend(documents, [message], uuid);
    assert Find([message], uuid) == [message] + Find([message][1..], uuid);
  }

  /** The legacy collection, with the handler registered on the emitter. */
  class RegistrationCollection {
    var documents: seq<Object>

    constructor ()
      ensures documents == []
    {
      documents := [];
    }

    /** `isDeviceWithUuidNewDevice`: resolves to true exactly when no stored
        document has the uuid; rejects (None) when the lookup fails. */
    method IsDeviceWithUuidNewDevice(uuid: Value, lookupOk: bool) returns (isNew: Option<bool>)
      ensures isNew.None? <==> !lookupOk
      ensures isNew.Some? ==>
        (isNew.value <==> forall i :: 0 <= i < |documents| ==> UuidOf(documents[i]) != uuid)
    {
      if !lookupOk {
        return None;
      }
      var found := Find(documents, uuid);
      NewIffNoMatch(documents, uuid);
      isNew := Some(|found| == 0);
    }

    /** `writeMessageToMongoDB`: appends the message when the save succeeds;
        a failed save is only logged. */
    method WriteMessageToMongoDB(message: Object, saveOk: bool) returns (saved: bool)
      modifies this
      ensures saved == saveOk
      ensures documents == if saveOk then old(documents) + [message] else old(documents)
    {
      if saveOk {
        documents := documents + [message];
      }
      saved := saveOk;
    }

    /** The `registration` handler: look the uuid up, write only a new one. */
    method OnRegistration(message: Object, lookupOk: bool, saveOk: bool) returns (outcome: Outcome)
      modifies this
      ensures documents == AfterRegistration(old(documents), message, lookupOk, saveOk)
      ensures outcome == RegistrationOutcome(old(documents), message, lookupOk, saveOk)
    {
      var uuid := UuidOf(message);
      var isNew := IsDeviceWithUuidNewDevice(uuid, lookupOk);
      NewIffNoMatch(documents, uuid);
      match isNew
      case None =>
        outcome := LookupFailed;
      case Some(isNewUuid) =>
        if isNewUuid {
          var saved := WriteMessageToMongoDB(message, saveOk);
          outcome := if saved then Saved else SaveFailed;
        } else {
          outcome := AlreadyExists;
        }
    }
  }
}

/** The filesystem-backed event store (events/fs-events-service.ts): one JSON file per event
    under `events/`, with event keys carried in URLs as base 64 URL-safe text. */
module FsEvents {
  import opened Wrappers
  import opened Strings
  import opened Events
  import opened FileSystem
  import Utf8
  import Base64

  /** The key `createEvent` returns: `events/<timestamp>_<eventId>.json`, relative to the base
      directory. */
  function EventKey(event: Event): string {
    "events/" + event.timestamp + "_" + event.eventId + ".json"
  }

  /** Two events share a file exactly when they share timestamp and id, provided timestamps
      hold no `_` (ISO-8601 text never does). */
  lemma EventKeyInjective(e1: Event, e2: Event)
    requires Free(e1.timestamp, '_') && Free(e2.timestamp, '_')
    ensures EventKey(e1) == EventKey(e2) <==> e1.timestamp == e2.timestamp && e1.eventId == e2.eventId
  {
    if EventKey(e1) == EventKey(e2) {
      var k1, k2 := EventKey(e1), EventKey(e2);
      var r1, r2 := "_" + e1.eventId + ".json", "_" + e2.eventId + ".json";
      assert k1[7..] == e1.timestamp + r1 && k2[7..] == e2.timestamp + r2;
      SplitUnique(e1.timestamp, r1, e2.timestamp, r2, '_');
      assert e1.eventId == r1[1..|r1| - 5] && e2.eventId == r2[1..|r2| - 5];
    }
  }

  /** `eventKeyToUrlPart`: the key as UTF-8 in base 64 URL-safe text (section 5 of RFC 4648). */
  function EventKeyToUrlPart(eventKey: string): string {
    Base64.Encode(Base64.UrlSafe, Utf8.Encode(eventKey))
  }

  /** `eventKeyFromUrlPart`; `None` for text that is not the form `EventKeyToUrlPart` writes. */
  function EventKeyFromUrlPart(urlPart: string): Option<string> {
    match Base64.Decode(Base64.UrlSafe, urlPart)
    case None => None
    case Some(bytes) => Utf8.Decode(bytes)
  }

  /** Every event key survives the trip through a URL, and its URL part needs no escaping. */
  lemma UrlPartRoundTrip(eventKey: string)
    ensures EventKeyFromUrlPart(EventKeyToUrlPart(eventKey)) == Some(eventKey)
    ensures forall i :: 0 <= i < |EventKeyToUrlPart(eventKey)| ==> Base64.UrlSafeChar(EventKeyToUrlPart(eventKey)[i])
  {
    Base64.DecodeEncode(Base64.UrlSafe, Utf8.Encode(eventKey));
    Utf8.DecodeEncode(eventKey);
    Base64.UrlSafeText(Utf8.Encode(eventKey));
  }

  class FsEventsService {
    /** The files under the base directory. */
    var files: map<string, Entry<Event>>

    constructor(files0: map<string, Entry<Event>>)
      ensures files == files0
    {
      files := files0;
    }

    /** `createEvent`: writes the event's file, replacing whatever was there. `failure` is the
        error `mkdir` or `writeFile` rejects with, if one does; it propagates and no file changes. */
    method CreateEvent(event: Event, failure: Option<string>) returns (r: Result<string>)
      modifies this
      ensures failure.Some? ==> r == Err(failure.value) && unchanged(this)
      ensures failure.None? ==> r == Ok(EventKey(event)) && files == old(files)[EventKey(event) := Stored(event)]
      ensures r.Ok? ==> ReadEvent(r.value) == Ok(Some(event))
      ensures r.Ok? ==> forall other :: other != r.value ==> ReadEvent(other) == old(ReadEvent(other))
    {
      if failure.Some? {
        return Err(failure.value);
      }
      var eventKey := EventKey(event);
      files := files[eventKey := Stored(event)];
      r := Ok(eventKey);
    }

    /** `readEvent`: `undefined` for a missing file, the read error for any other failure. */
    function ReadEvent(eventKey: string): Result<Option<Event>>
      reads this
    {
      ReadFile(files, eventKey)
    }
  }
}

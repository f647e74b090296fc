/** The Zoom presence converter (event-converters/zoom.ts). It is typed against the newer
    observation but still writes the older single `activity` (drawn from the older table, where
    available and away mean idle); that record is kept here as it is written. */
module ZoomConverter {
  import opened Wrappers
  import opened Json
  import opened Events
  import opened LegacyUserStates
  import opened ZoomPresence
  import UserStates
  import Locations

  /** What the converter builds: the older record plus a `locationId`. */
  datatype ZoomUserState = ZoomUserState(
    activity: Option<LegacyActivity>,
    eventKey: string,
    locationId: string,
    source: UserStates.Source,
    timestamp: string,
    userId: string,
    version: int)

  const ZoomSource := UserStates.Source("Zoom", "Zoom")
  const FixedUserId := "Robert"

  /** `convertToUserState`: for every accepted payload an observation of the fixed user at every
      location, whose activity is the status table's entry for `presence_status`. */
  function ConvertToUserState(eventAndKey: EventAndKey, isEmail: string -> bool): (r: Option<ZoomUserState>)
    ensures r.Some? <==> IsPresenceStatusUpdated(eventAndKey.event.data, isEmail)
    ensures r.Some? ==>
      && r.value.activity == StatusToUserActivity(PresenceStatus(eventAndKey.event.data, isEmail))
      && r.value.eventKey == eventAndKey.eventKey
      && r.value.locationId == Locations.LocationIdWildcard
      && r.value.source == ZoomSource
      && r.value.timestamp == eventAndKey.event.timestamp
      && r.value.userId == FixedUserId
      && r.value.version == 1
  {
    var data := eventAndKey.event.data;
    if IsPresenceStatusUpdated(data, isEmail) then
      Some(ZoomUserState(StatusToUserActivity(PresenceStatus(data, isEmail)), eventAndKey.eventKey,
                         Locations.LocationIdWildcard, ZoomSource, eventAndKey.event.timestamp, FixedUserId, 1))
    else None
  }

  /** A presence payload as Zoom sends it converts to the activity its status names. */
  lemma ZoomRoundTrip(eventTs: int, accountId: string, dateTime: string, email: string, id: string, status: string,
                      isEmail: string -> bool, event: Event, eventKey: string)
    requires accountId != "" && dateTime != "" && email != "" && id != "" && isEmail(email) && status in Statuses
    requires event.data == PresencePayload(eventTs, accountId, dateTime, email, id, JStr(status))
    ensures var r := ConvertToUserState(EventAndKey(event, eventKey), isEmail);
      && r.Some? && r.value.activity.Some? && r.value.activity == StatusToUserActivity(JStr(status))
      && r.value.locationId == Locations.LocationIdWildcard
  {
    PresencePayloadAccepted(eventTs, accountId, dateTime, email, id, JStr(status), isEmail, JNull);
  }
}

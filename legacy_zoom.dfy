/** The older Zoom presence converter (user-states/zoom.ts): the same schema and status table as
    the newer one, without a location. */
module LegacyZoom {
  import opened Wrappers
  import opened Json
  import opened Events
  import opened LegacyUserStates
  import opened ZoomPresence
  import UserStates
  import ZoomConverter

  const FixedUserId := "Robert"

  /** `convertToUserState(eventKey, event)`. */
  function ConvertToUserState(eventKey: string, event: Event, isEmail: string -> bool): (r: Option<LegacyUserState>)
    ensures r.Some? <==> IsPresenceStatusUpdated(event.data, isEmail)
    ensures r.Some? ==>
      && r.value.activity == StatusToUserActivity(PresenceStatus(event.data, isEmail))
      && r.value.eventKey == eventKey
      && r.value.source == UserStates.Source("Zoom", "Zoom")
      && r.value.timestamp == event.timestamp
      && r.value.userId == FixedUserId
      && r.value.version == 1
  {
    if IsPresenceStatusUpdated(event.data, isEmail) then
      Some(LegacyUserState(StatusToUserActivity(PresenceStatus(event.data, isEmail)), eventKey,
                           UserStates.Source("Zoom", "Zoom"), event.timestamp, FixedUserId, 1))
    else None
  }

  /** Both generations of the Zoom converter accept the same payloads and agree on every field
      the older record holds. */
  lemma GenerationsAgree(eventKey: string, event: Event, isEmail: string -> bool)
    ensures var older := ConvertToUserState(eventKey, event, isEmail);
            var newer := ZoomConverter.ConvertToUserState(EventAndKey(event, eventKey), isEmail);
            && (older.Some? <==> newer.Some?)
            && (older.Some? ==>
                  older.value == LegacyUserState(newer.value.activity, newer.value.eventKey, newer.value.source,
                                                 newer.value.timestamp, newer.value.userId, newer.value.version))
  {
  }
}

/** The older generation of activity observations, used by the `user-states/zoom.ts` and
    `user-states/govee-ifttt.ts` converters and by the Zoom event converter: a single `activity`
    drawn from idle/absent/busy/meeting/presenting. Kept apart from `UserStates` on purpose. */
module LegacyUserStates {
  import opened Wrappers
  import UserStates

  datatype LegacyActivity = Idle | Absent | Busy | Meeting | Presenting

  /** The older record: no `locationId`. `activity` is `None` where the source's switch falls
      through and leaves the field `undefined`. */
  datatype LegacyUserState = LegacyUserState(
    activity: Option<LegacyActivity>,
    eventKey: string,
    source: UserStates.Source,
    timestamp: string,
    userId: string,
    version: int)
}

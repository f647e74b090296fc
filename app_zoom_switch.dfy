/** The older, direct Zoom presence-status to light-state table of the `/users/:userId/zoom`
    handler. Only colour and pattern are chosen; the duration is left for the light to keep. */
module AppZoomSwitch {
  import opened Wrappers
  import opened Json
  import opened OnAirLights
  import LegacyUserStates
  import ZoomPresence

  /** The `switch` on `presence_status`. The status is whatever JSON value the request carried;
      anything other than the five listed strings, `Away` included, lands in `default`. */
  function StatusToLightState(status: Json): (state: PartialLightState)
    ensures state.duration == None && state.color.Some? && state.pattern.Some?
    ensures status == JStr("Available") ==> state.color == Some(Lime) && state.pattern == Some(Solid)
    ensures status in {JStr("Do_Not_Disturb"), JStr("In_Calendar_Event")} ==>
              state.color == Some(Yellow) && state.pattern == Some(Solid)
    ensures status in {JStr("In_Meeting"), JStr("On_Phone_Call")} ==>
              state.color == Some(Red) && state.pattern == Some(Solid)
    ensures status == JStr("Presenting") ==> state.color == Some(Red) && state.pattern == Some(Flash)
    ensures status !in {JStr("Available"), JStr("Do_Not_Disturb"), JStr("In_Calendar_Event"),
                        JStr("In_Meeting"), JStr("On_Phone_Call"), JStr("Presenting")} ==>
              state.color == Some(Black) && state.pattern == Some(Solid)
  {
    var pick := (c: Color, p: Pattern) => PartialLightState(Some(c), None, Some(p));
    match status
    case JStr("Available") => pick(Lime, Solid)
    case JStr("Do_Not_Disturb") => pick(Yellow, Solid)
    case JStr("In_Calendar_Event") => pick(Yellow, Solid)
    case JStr("In_Meeting") => pick(Red, Solid)
    case JStr("On_Phone_Call") => pick(Red, Solid)
    case JStr("Presenting") => pick(Red, Flash)
    case _ => pick(Black, Solid)
  }

  /** The light state that the activity level of the Zoom converters' status table stands for:
      idle is lime, busy yellow, meeting red, presenting red pulse, anything else off. */
  function LevelToLightState(activity: Option<LegacyUserStates.LegacyActivity>): PartialLightState {
    if activity == Some(LegacyUserStates.Idle) then PartialLightState(Some(Lime), None, Some(Solid))
    else if activity == Some(LegacyUserStates.Busy) then PartialLightState(Some(Yellow), None, Some(Solid))
    else if activity == Some(LegacyUserStates.Meeting) then PartialLightState(Some(Red), None, Some(Solid))
    else if activity == Some(LegacyUserStates.Presenting) then PartialLightState(Some(Red), None, Some(Pulse))
    else PartialLightState(Some(Black), None, Some(Solid))
  }

  /** The direct table and "convert to an activity, then to a light" agree on every status
      except two: `Away` (off here, idle there) and `Presenting` (flash here, pulse there). */
  lemma DirectTableAgreesWithActivityTable(status: string)
    ensures status !in {"Away", "Presenting"} ==>
              StatusToLightState(JStr(status)) == LevelToLightState(ZoomPresence.StatusToUserActivity(JStr(status)))
    ensures StatusToLightState(JStr("Away")).color == Some(Black)
    ensures LevelToLightState(ZoomPresence.StatusToUserActivity(JStr("Away"))).color == Some(Lime)
    ensures StatusToLightState(JStr("Presenting")).pattern == Some(Flash)
    ensures LevelToLightState(ZoomPresence.StatusToUserActivity(JStr("Presenting"))).pattern == Some(Pulse)
  {
  }
}

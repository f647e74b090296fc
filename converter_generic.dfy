/** The generic event converter (event-converters/generic.ts): a payload that already has the
    observation's shape, `{ activities, locationId?, source?, userId }`. */
module GenericConverter {
  import opened Wrappers
  import opened Json
  import opened UserStates
  import opened Events
  import Locations

  function ParseActivity(j: Json): (r: Option<UserActivity>)
    ensures r.Some? ==> j == JStr(ActivityName(r.value))
    ensures forall a :: j == JStr(ActivityName(a)) ==> r == Some(a)
  {
    match j
    case JStr("detected") => Some(Detected)
    case JStr("busy") => Some(Busy)
    case JStr("meeting") => Some(Meeting)
    case JStr("presenting") => Some(Presenting)
    case _ => None
  }

  /** `yup.array(yup.mixed().oneOf(Object.values(UserActivity)).required()).required()`. */
  predicate IsActivityList(j: Json) {
    j.JArr? && forall i :: 0 <= i < |j.items| ==> ParseActivity(j.items[i]).Some?
  }

  predicate IsSource(j: Json) {
    j.JObj? && RequiredString(j.fields, "deviceId") && RequiredString(j.fields, "serviceName")
  }

  /** `GenericEvent.schema.isValidSync(data)`. */
  predicate IsGenericEvent(data: Json) {
    && data.JObj?
    && "activities" in data.fields && IsActivityList(data.fields["activities"])
    && OptionalString(data.fields, "locationId")
    && ("source" in data.fields ==> IsSource(data.fields["source"]))
    && RequiredString(data.fields, "userId")
  }

  function Activities(items: seq<Json>): (r: seq<UserActivity>)
    requires forall i :: 0 <= i < |items| ==> ParseActivity(items[i]).Some?
    ensures |r| == |items| && forall i :: 0 <= i < |items| ==> items[i] == JStr(ActivityName(r[i]))
  {
    if items == [] then [] else [ParseActivity(items[0]).value] + Activities(items[1..])
  }

  const GenericSource: Source := Source("Generic", "Generic")

  /** `GenericEvent.convertToUserState`: `None` for a payload the schema rejects (no exception),
      otherwise the observation with the payload's fields and the documented defaults. The
      `locationId` default is taken with `||`, so an empty `locationId` also becomes global. */
  function ConvertToUserState(eventAndKey: EventAndKey): (r: Option<UserState>)
    ensures r.Some? <==> IsGenericEvent(eventAndKey.event.data)
    ensures r.Some? ==>
      var o := eventAndKey.event.data.fields;
      && |r.value.activities| == |o["activities"].items|
      && (forall i :: 0 <= i < |r.value.activities| ==> o["activities"].items[i] == JStr(ActivityName(r.value.activities[i])))
      && r.value.eventKey == eventAndKey.eventKey
      && r.value.locationId == (if "locationId" in o && o["locationId"].s != "" then o["locationId"].s else Locations.LocationIdGlobal)
      && r.value.source == (if "source" in o then Source(o["source"].fields["deviceId"].s, o["source"].fields["serviceName"].s) else GenericSource)
      && r.value.timestamp == eventAndKey.event.timestamp
      && JStr(r.value.userId) == o["userId"]
      && r.value.version == 1
  {
    var data := eventAndKey.event.data;
    if IsGenericEvent(data) then
      var o := data.fields;
      var locationId := if "locationId" in o && o["locationId"].s != "" then o["locationId"].s else Locations.LocationIdGlobal;
      var source := if "source" in o then Source(StringAt(o["source"].fields, "deviceId"), StringAt(o["source"].fields, "serviceName")) else GenericSource;
      Some(UserState(Activities(o["activities"].items), eventAndKey.eventKey, locationId, source,
                     eventAndKey.event.timestamp, StringAt(o, "userId"), 1))
    else None
  }

  /** A generic payload as a client writes it. */
  datatype GenericEvent = GenericEvent(activities: seq<UserActivity>, locationId: Option<string>, source: Option<Source>, userId: string)

  function ToJson(g: GenericEvent): (j: Json)
    ensures j.JObj?
  {
    var base := map["activities" := JArr(seq(|g.activities|, i requires 0 <= i < |g.activities| => JStr(ActivityName(g.activities[i])))),
                    "userId" := JStr(g.userId)];
    var withLocation := if g.locationId.Some? then base["locationId" := JStr(g.locationId.value)] else base;
    var withSource := if g.source.Some? then withLocation["source" := JObj(map["deviceId" := JStr(g.source.value.deviceId), "serviceName" := JStr(g.source.value.serviceName)])] else withLocation;
    JObj(withSource)
  }

  /** Every well-formed generic payload is accepted and converted to the observation it
      describes: its activities in order, its location (global when absent or empty), its source
      (the Generic sentinel when absent), and the event's key and timestamp. */
  lemma {:induction false} GenericRoundTrip(g: GenericEvent, event: Event, eventKey: string)
    requires g.userId != ""
    requires g.source.Some? ==> g.source.value.deviceId != "" && g.source.value.serviceName != ""
    requires event.data == ToJson(g)
    ensures ConvertToUserState(EventAndKey(event, eventKey)) ==
      Some(UserState(g.activities, eventKey,
                     if g.locationId.Some? && g.locationId.value != "" then g.locationId.value else Locations.LocationIdGlobal,
                     g.source.GetOr(GenericSource), event.timestamp, g.userId, 1))
  {
    var o := event.data.fields;
    var items := o["activities"].items;
    assert |items| == |g.activities|;
    forall i | 0 <= i < |items| ensures ParseActivity(items[i]) == Some(g.activities[i]) {
    }
    var r := ConvertToUserState(EventAndKey(event, eventKey));
    assert r.Some?;
    var acts := r.value.activities;
    assert |acts| == |g.activities|;
    forall i | 0 <= i < |acts| ensures acts[i] == g.activities[i] {
      assert JStr(ActivityName(acts[i])) == JStr(ActivityName(g.activities[i]));
      assert ParseActivity(JStr(ActivityName(acts[i]))) == Some(acts[i]);
    }
    assert acts == g.activities;
    assert r.value.userId == g.userId;
    assert r.value.locationId == (if g.locationId.Some? && g.locationId.value != "" then g.locationId.value else Locations.LocationIdGlobal);
    assert r.value.source == g.source.GetOr(GenericSource);
  }

  /** The cases of the schema's own tests: missing `activities` is rejected, an empty list is
      accepted, and any value outside the four activities rejects the whole payload. */
  lemma SchemaCases(userId: string, items: seq<Json>)
    requires userId != ""
    ensures !IsGenericEvent(JObj(map["userId" := JStr(userId)]))
    ensures IsGenericEvent(JObj(map["activities" := JArr([]), "userId" := JStr(userId)]))
    ensures (exists i :: 0 <= i < |items| && ParseActivity(items[i]).None?) ==>
              !IsGenericEvent(JObj(map["activities" := JArr(items), "userId" := JStr(userId)]))
    ensures !IsGenericEvent(JObj(map["activities" := JArr([JStr("foo"), JStr("bar")]), "userId" := JStr(userId)]))
    ensures !IsGenericEvent(JObj(map["activities" := JArr([])]))
  {
    var bad := JObj(map["activities" := JArr([JStr("foo"), JStr("bar")]), "userId" := JStr(userId)]);
    assert ParseActivity(bad.fields["activities"].items[0]).None?;
  }
}

# On-air light, modelled in Dafny

The on-air light shows whether its owner is free, busy, in a meeting or presenting. Presence
signals come in as events: generic posts, Govee/IFTTT plug notifications and Zoom presence
webhooks. Each event is normalised into a *user state*, the states are grouped by location, and
the activities at the global location pick a colour and a pattern for the light. A Particle Photon
drives that light, an 11-LED Internet Button ring.

This project models the TypeScript service and the Photon firmware, and proves what they promise:

- **Deriving the light.** The precedence table from activities to light state, and the older
  Zoom-status table in the app. Both are total functions, and lemmas pin every branch.
- **Aggregation.** `aggregateActivitiesByLocation` is a method with `for` loops over a map of sets.
  It is proved equal to a specification function: exactly the input's locations, and at each the
  union of its activities, independent of the input's order.
- **Converters.** Two generations are kept apart. One uses `activities` lists of
  detected/busy/meeting/presenting; the older one uses a single `activity` that can also be
  idle/absent. The generic, Govee and Zoom converters are schema predicates on a small JSON
  datatype followed by the record they build. The Govee message pattern is a hand-written
  unanchored matcher proved equal to its description.
- **Events pipeline.** `POST /events` and `GET /events/:eventKey` run over the file-system
  services. The event is stored first, the converters run in order and the first match wins, the
  state is aggregated, and the light is set. The response is 201 or 202.
- **Keys and stores.** `generateKey`, and `ItemKey.encode`/`decode`: JSON text, UTF-8 and base64
  (section 4 of RFC 4648). The file-system events key codec uses base64url (section 5 of RFC 4648).
  Round trips and injectivity are proved. The DynamoDB, in-memory and file-system stores are
  classes holding a map, with read-after-write and overwrite lemmas.
- **Secrets and authentication.** `mask`, `maskSecrets`, the environment and SSM secret readers,
  and the two time-to-live caches (SSM secrets and the Particle login). The caches are modelled
  sequentially, with the clock passed in.
- **The device.** The Particle property accessor (`set`/`get`/`setOrGet`) and the light service.
  The service reads and writes the device's three variables.
- **The authorizer.** The Lambda that finds the `clientId` header ignoring case and always allows.
- **Firmware.**
  - Colours: both `Color` classes, over a full model of `strtol` in base 16 and Wiring's clamping
    `substring`.
  - `Timeline` and `Period` integer arithmetic.
  - The ring patterns and display modes, writing into an 11-element LED array. The spin lights
    exactly a 7-LED arc and writes each LED once; the alternating pattern lights LED `i + 1` iff
    `i % 2` is the phase.

One module per source file or component, all files directly in this directory. Every module's
dependencies are imported by name.

## Model

| member | source | states |
|---|---|---|
| `OnAirLights.FromUserActivities` | ts/lib/services/on-air-lights/on-air-light-service.ts:35-62 | duration is always 2000; without `detected` the light is black/solid; with `detected`, presenting gives red/pulse, else meeting red/solid, else busy yellow/solid, else lime/solid |
| `OnAirLights.MostUrgent` | ts/lib/services/on-air-lights/on-air-light-service.ts:44-57 | the most urgent activity of a non-empty set is one of its members and no member is more urgent |
| `OnAirLights.FromUserActivitiesIsMostUrgentWins` | ts/lib/services/on-air-lights/on-air-light-service.ts:44-57 | the result depends only on the most urgent activity present (presenting > meeting > busy > detected only), and is black/solid without `detected` |
| `UserStates.AggregateActivitiesByLocation` | ts/lib/services/user-states/user-states.ts:60-75 | the map's keys are exactly the locations that occur in the input, and each location's set is the union of the activities of the states at that location (an empty list still creates an entry; empty input gives an empty map) |
| `UserStates.LocationsOfSnoc` | ts/lib/services/user-states/user-states.ts:64-69 | appending a state adds exactly its location to the key set |
| `UserStates.ActivitiesAtSnoc` | ts/lib/services/user-states/user-states.ts:70-72 | appending a state adds its activities to its own location's set and to no other |
| `UserStates.AggregationIgnoresOrder` | ts/lib/services/user-states/user-states.ts:64-73 | any permutation of the input gives the same keys and the same sets |
| `AppZoomSwitch.StatusToLightState` | ts/lib/app.ts:120-147 | Available is lime/solid; Do_Not_Disturb and In_Calendar_Event yellow/solid; In_Meeting and On_Phone_Call red/solid; Presenting red/flash; any other value, Away included, black/solid; the duration is never set |
| `AppZoomSwitch.DirectTableAgreesWithActivityTable` | ts/lib/app.ts:120-147 | the direct table agrees with "status to activity, then activity to light" except for Away (black here, idle there) and Presenting (flash here, pulse there) |
| `GenericConverter.ParseActivity` | ts/lib/services/event-converters/generic.ts:21 | a JSON value is accepted as an activity exactly when it is the string of one of the four activities, and then it is that activity |
| `GenericConverter.Activities` | ts/lib/services/event-converters/generic.ts:46 | the activities list has the payload list's length and each element is the activity its string names |
| `GenericConverter.ConvertToUserState` | ts/lib/services/event-converters/generic.ts:37-60 | a state exists iff the payload satisfies the schema; it copies the activities, event key, timestamp and `userId`, takes `locationId` when present and non-empty else the global location, takes `source` when present else Generic/Generic, and has version 1 |
| `GenericConverter.GenericRoundTrip` | ts/lib/services/event-converters/generic.ts:17-56 | a payload built from any well-formed generic event converts to the state with that event's fields and the stated defaults |
| `GenericConverter.SchemaCases` | ts/lib/services/event-converters/generic.test.ts:10-41 | missing `activities` is rejected, an empty list accepted, any element outside the activity values rejects, and `userId` is required |
| `GoveeMessage.NextQuote` | ts/lib/services/event-converters/govee-ifttt.ts:57 | the index of the first `"` at or after `k` (or the end), with no quote before it |
| `GoveeMessage.FirstMatch` | ts/lib/services/event-converters/govee-ifttt.ts:57 | the leftmost position from `k` on at which the pattern matches: it matches there and at no earlier position, and a result past the end means it matches nowhere |
| `GoveeMessage.NextQuoteAfterName` | ts/lib/services/event-converters/govee-ifttt.ts:57 | a quote-free name followed by `"` ends the device-name group exactly there |
| `GoveeMessage.MatchAtMessage` | ts/lib/services/event-converters/govee-ifttt.ts:57 | `"<name>" turned on!`/`off!` matches where it starts, with the on/off group it contains |
| `GoveeMessage.MatchesAnywhere` | ts/lib/services/event-converters/govee-ifttt.ts:57 | the match is unanchored: any text around the message still matches |
| `GoveeMessage.ExecFindsMessage` | ts/lib/services/event-converters/govee-ifttt.ts:57 | with no quote before the message, the first match is the message's own on/off |
| `GoveeMessage.MatchShape` | ts/lib/services/event-converters/govee-ifttt.ts:57 | every match is a `"`, a non-empty quote-free name, and the ending `" turned on!` or `" turned off!` |
| `GoveeConverter.ConvertToUserState` | ts/lib/services/event-converters/govee-ifttt.ts:23-53 | a state exists iff the schema accepts; on gives `[detected]`, off gives `[]`; the location is global, the device is the payload's `deviceName`, the service `Govee`, `userId` from the payload, version 1 (so the `TypeError` branch is unreachable) |
| `GoveeConverter.GoveeRoundTrip` | ts/lib/services/event-converters/govee-ifttt.ts:14-58 | a payload with the required strings and a message containing `"<name>" turned on!`/`off!` after a prefix without quotes (so that no earlier match can open) and followed by anything converts to the matching state |
| `GoveeConverter.UnmatchedMessageRejected` | ts/lib/services/event-converters/govee-ifttt.ts:18-51 | a message the pattern does not match yields no state |
| `ZoomPresence.StatusToUserActivity` | ts/lib/services/event-converters/zoom.ts:21-38 | Available and Away are idle, Do_Not_Disturb and In_Calendar_Event busy, In_Meeting and On_Phone_Call meeting, Presenting presenting; any other value falls through to no activity; never absent |
| `ZoomPresence.PresencePayloadAccepted` | ts/lib/services/event-converters/zoom.ts:54-76 | a payload with every required field is accepted whatever its `presence_status`, and any other `event` value rejects it |
| `ZoomConverter.ConvertToUserState` | ts/lib/services/event-converters/zoom.ts:78-102 | a state exists iff the schema accepts; its activity comes from the status table, the location is the wildcard, source Zoom/Zoom, user `Robert`, the event's timestamp, version 1 |
| `ZoomConverter.ZoomRoundTrip` | ts/lib/services/event-converters/zoom.ts:54-102 | a well-formed payload with one of the seven statuses converts to that status's activity at the wildcard location |
| `LegacyZoom.ConvertToUserState` | ts/lib/services/user-states/zoom.ts:54-75 | a state exists iff the schema accepts; it copies the event key and timestamp, has the table's activity, source Zoom/Zoom, user `Robert`, version 1 and no location |
| `LegacyZoom.GenerationsAgree` | ts/lib/services/user-states/zoom.ts:20-37 | the older converter accepts exactly what the newer one accepts and gives the same record without the location |
| `LegacyGovee.ConvertToUserState` | ts/lib/services/user-states/govee-ifttt.ts:12-37 | a state exists iff the schema (no `userId`) accepts; on gives idle, off absent; device from `deviceName`, service `Govee`, user `Robert`, version 1 |
| `LegacyGovee.LegacyGoveeRoundTrip` | ts/lib/services/user-states/govee-ifttt.ts:12-50 | a payload with `createdAt`, `deviceName` and a matching message converts to the matching state whatever its `userId` field holds |
| `EventsRouter.MergedData` | ts/lib/routers/events.ts:43-46 | the event data has the keys of body and query together; a query value wins on a collision, otherwise the body's value is kept |
| `EventsRouter.EventsRouterService.GetEvent` | ts/lib/routers/events.ts:97-106 | 200 with the stored event iff the URL part decodes to a key whose event is stored; 500 iff it decodes and the read fails; 404 otherwise (an undecodable part or no event) |
| `EventsRouter.EventsRouterService.PostEvent` | ts/lib/routers/events.ts:28-95 | an empty body and query give 400 and change nothing; a rejected event write gives 500 and changes nothing; otherwise the merged event is stored first; with no converter returning a state the answer is 202 with `Location: /events/<url part>` and nothing else changes; otherwise the first converter that returns a state wins; a rejected write of its state gives 500 with no state written, nothing read and the light untouched; else it writes exactly that one state, the user's states at its location are read back, and the light is set once, from the global activities of exactly the states read, iff that read succeeds; the answer is 201 (same `Location`) iff the read succeeds and the light accepts, else 500; a 201/202 event can then be read back by GET |
| `EventsRouter.EventsRouterService.LightFollowsStates` | ts/lib/routers/events.ts:61-93 | (predicate) the status is 201 or 500, 201 iff the user's states read and the light accepts; the light gets one new state, from the read states, iff they read, and is unchanged otherwise |
| `EventsRouter.EventsRouterService.RecordUserState` | ts/lib/routers/events.ts:61-93 | a rejected write gives 500, with no file changed and the light untouched; otherwise the state's file is written, the light changes iff reading the user's states succeeds, and then gets exactly one new state, derived from the global activities of each selected file's state; 201 iff the read succeeds and the light accepts, else 500 |
| `EventsRouter.NoStatesNoActivities` | ts/lib/routers/events.ts:85-87 | a location no state mentions has no activities, so the light is derived from the empty set |
| `DynamoDb.LabelText` | ts/lib/dynamodb.ts:1-8 | every key label is three characters with neither `:` nor `#` |
| `DynamoDb.LabelTextInjective` | ts/lib/dynamodb.ts:1-8 | the labels are pairwise distinct |
| `DynamoDb.Segment` | ts/lib/dynamodb.ts:13 | a tuple renders as its label, `:`, and its value |
| `DynamoDb.TwoTuples` | ts/lib/dynamodb.ts:12-14 | two tuples render as `label:value#label:value`, in order |
| `DynamoDb.SegmentInjective` | ts/lib/dynamodb.ts:13 | the rendering of one tuple determines the tuple |
| `DynamoDb.SegmentFree` | ts/lib/dynamodb.ts:13 | a tuple whose value has no `#` renders without `#` |
| `DynamoDb.GenerateKeySplit` | ts/lib/dynamodb.ts:12-14 | a key splits at its first `#` into the first tuple's rendering and the rest |
| `DynamoDb.GenerateKeyInjective` | ts/lib/dynamodb.ts:12-14 | on tuple lists whose values contain no `#`, equal keys mean equal lists |
| `DynamoDb.GenerateKeyCollision` | ts/lib/dynamodb.ts:12-14 | values containing `#` can make two different lists give the same key |
| `DynamoDb.ParseKeyJsonOf` | ts/lib/dynamodb.ts:23-35 | the JSON text of a key parses back to the key |
| `DynamoDb.DecodeEncode` | ts/lib/dynamodb.ts:22-37 | `decode(encode(k)) == k` |
| `DynamoDb.EncodeInjective` | ts/lib/dynamodb.ts:22-30 | different keys encode to different strings |
| `DynamoDb.GetItem` | ts/lib/services/user-states/dynamodb-user-states-service.ts:39-47 | a key that does not decode is an error; otherwise the item stored under the decoded key, or none when there is no such item |
| `DynamoDb.EncodeIsStandardBase64` | ts/lib/dynamodb.ts:28 | an encoded key uses only the standard base64 alphabet and padding (section 4 of RFC 4648) |
| `DynamoDbEvents.EventItemKey` | ts/lib/services/events/dynamodb-events-service.ts:96-105 | the partition key is `EVT:0000` and the sort key `TST:<timestamp>#EID:<eventId>` |
| `DynamoDbEvents.EventItemKeyInjective` | ts/lib/services/events/dynamodb-events-service.ts:99-103 | for `#`-free timestamps and ids, two events share an item key iff they share timestamp and id |
| `DynamoDbEvents.DynamoDbEventsService.CreateEvent` | ts/lib/services/events/dynamodb-events-service.ts:38-89 | a rejected `put` is the error, with the table unchanged; otherwise the item overwrites any earlier one with the same key and touches no other; the returned key reads the event back |
| `DynamoDbEvents.DynamoDbEventsService.ReadEvent` | ts/lib/services/events/dynamodb-events-service.ts:57-80 | a key that does not decode is an error; otherwise the stored event, or none when no item has that key |
| `DynamoDbUserStates.UserStateItemKey` | ts/lib/services/user-states/dynamodb-user-states-service.ts:88-97 | the partition key is `USR:<userId>` and the sort key `SVC:<serviceName>#DVC:<deviceId>`; the location is not part of it |
| `DynamoDbUserStates.UserStateItemKeyIdentifiesSource` | ts/lib/services/user-states/dynamodb-user-states-service.ts:88-97 | for `#`-free service and device names, two states share a key iff they share user and source |
| `DynamoDbUserStates.DynamoDbUserStatesService.CreateUserState` | ts/lib/services/user-states/dynamodb-user-states-service.ts:19-33 | a rejected `put` is the error, with the table unchanged; otherwise the item overwrites the one with the same key, and the returned key reads the state back |
| `DynamoDbUserStates.DynamoDbUserStatesService.ReadUserState` | ts/lib/services/user-states/dynamodb-user-states-service.ts:35-51 | a key that does not decode is an error; otherwise the stored state or none |
| `DynamoDbUserStates.DynamoDbUserStatesService.ReadUserStates` | ts/lib/services/user-states/dynamodb-user-states-service.ts:53-80 | the prefix query returns exactly the user's stored states, whatever their locations |
| `DynamoDbUserStates.DynamoDbUserStatesService.OneItemPerSource` | ts/lib/services/user-states/dynamodb-user-states-service.ts:88-96 | at most one stored state exists per user, service and device |
| `MockEvents.MockEventsService.CreateEvent` | ts/lib/services/events/mock-events-service.ts:12-21 | the key is the event's id; the event replaces any earlier one under that id and every other entry is unchanged; the key reads the event back |
| `MockEvents.MockEventsService.ReadEvent` | ts/lib/services/events/mock-events-service.ts:23-25 | the stored event, or none for an unknown key; an event read back has the key as its id |
| `MockUserStates.OfUser` | ts/lib/services/user-states/mock-user-states-service.ts:41-43 | the filter keeps at most the input's states |
| `MockUserStates.OfUserMembers` | ts/lib/services/user-states/mock-user-states-service.ts:41-43 | the filter keeps exactly the input states of that user |
| `MockUserStates.OfUserSnoc` | ts/lib/services/user-states/mock-user-states-service.ts:41-43 | the filter keeps insertion order |
| `MockUserStates.MockUserStatesService.Values` | ts/lib/services/user-states/mock-user-states-service.ts:41 | the map's values in insertion order, as `Map.values()` yields them |
| `MockUserStates.MockUserStatesService.CreateUserState` | ts/lib/services/user-states/mock-user-states-service.ts:12-25 | the key is `userId:serviceName:deviceId`; re-creating the same key overwrites in place (same size, same order), a new key is appended; the key reads the state back |
| `MockUserStates.MockUserStatesService.ReadUserState` | ts/lib/services/user-states/mock-user-states-service.ts:27-35 | the stored state, or none for an unknown key |
| `MockUserStates.MockUserStatesService.ReadUserStates` | ts/lib/services/user-states/mock-user-states-service.ts:37-47 | exactly the stored states of that user, in insertion order |
| `FileSystem.ReadFile` | ts/lib/services/user-states/fs-user-states-service.ts:77-92 | a missing file reads as none, an unreadable one is an error that propagates, otherwise the stored record |
| `FileSystem.Listing` | ts/lib/services/user-states/fs-user-states-service.ts:55 | the names directly inside a directory |
| `FsEvents.EventKeyInjective` | ts/lib/services/events/fs-events-service.ts:23-26 | two events share a file iff they share timestamp and id (timestamps have no `_`) |
| `FsEvents.UrlPartRoundTrip` | ts/lib/services/events/fs-events-service.ts:60-66 | `eventKeyFromUrlPart(eventKeyToUrlPart(k)) == k`, and the URL part uses only the URL-safe base64 alphabet (section 5 of RFC 4648) |
| `FsEvents.FsEventsService.CreateEvent` | ts/lib/services/events/fs-events-service.ts:19-36 | a rejected `mkdir` or `writeFile` is the error, with no file changed; otherwise the key is `events/<timestamp>_<eventId>.json`; the file is overwritten and no other changes; the key reads the event back |
| `FsUserStates.UserStateKey` | ts/lib/services/user-states/fs-user-states-service.ts:24-34 | the key is `users/<userId>/<locationId>_<serviceName>_<deviceId>.json` |
| `FsUserStates.SelectsOwnAndGlobal` | ts/lib/services/user-states/fs-user-states-service.ts:56-62 | a query for a state's own location selects its file, and a global state's file is selected by any query |
| `FsUserStates.PrefixSelectsLongerLocation` | ts/lib/services/user-states/fs-user-states-service.ts:60 | the filter is a prefix test: a query for `off` also selects the files of `office` |
| `FsUserStates.FsUserStatesService.CreateUserState` | ts/lib/services/user-states/fs-user-states-service.ts:20-37 | a rejected `mkdir` or `writeFile` is the error, with no file changed; otherwise the same user, location, service and device write the same file, overwriting it; no other file changes; the key reads the state back |
| `FsUserStates.FsUserStatesService.SelectionByLocation` | ts/lib/services/user-states/fs-user-states-service.ts:54-65 | with no (or an empty) location every file in the user's directory is read; with one, exactly the names that start with it or with the global location; each selected name reads its own file |
| `FsUserStates.FsUserStatesService.ReadUserStates` | ts/lib/services/user-states/fs-user-states-service.ts:50-75 | fails iff the user's directory is missing or a selected file cannot be read; otherwise one state per selected file, each file's own state, none twice and none left out, in a directory order |
| `FsUserStates.FsUserStatesService.ReadsAll` | ts/lib/services/user-states/fs-user-states-service.ts:50-75 | (predicate) the user's directory lists some file and every selected file holds a stored state: exactly when the read succeeds |
| `FsUserStates.ListsEachOnce` | ts/lib/services/user-states/fs-user-states-service.ts:67-71 | (predicate) a list of states holds, in some order of the file names, each selected file's state once and nothing else |
| `FsUserStates.ReadAll` | ts/lib/services/user-states/fs-user-states-service.ts:67-71 | reading a set of files fails iff one of them is unreadable, with that file's error; otherwise the states of the files in some order that names each file exactly once |
| `FsUserStates.ListsEachOnceValues` | ts/lib/services/user-states/fs-user-states-service.ts:67-71 | such a listing holds as many states as there are files, and exactly the stored states |
| `FsUserStates.ReadBackIncludesWritten` | ts/lib/services/user-states/fs-user-states-service.ts:20-62 | a state just written is listed in its user's directory and selected by a query for its location |
| `Logging.Repeat` | ts/lib/logging.ts:14 | `'*'.repeat(n)` throws for a negative count, otherwise it is `n` copies of the character |
| `Logging.Mask` | ts/lib/logging.ts:11-17 | defined iff `max(minLength, length) >= 2`; then it keeps the first and last characters in place and puts stars between them, for a length of `max(minLength, length)`; an empty value gives `max(minLength, 0) - 2` stars |
| `Logging.MaskDefault` | ts/lib/logging.ts:11 | with the default minimum length of 16, `mask` never throws |
| `Logging.MaskDependsOnlyOnEnds` | ts/lib/logging.ts:12-16 | the output depends only on the first character, the last character and the length |
| `Logging.MaskDefaultLengths` | ts/lib/logging.ts:11-16 | the default mask of the empty string is 14 stars, of one character 16 characters, and of two or more characters `max(16, length)` characters |
| `Logging.MaskDefaultHidesMiddle` | ts/lib/logging.ts:14 | a value with a non-star character strictly inside never masks to itself |
| `Logging.FunctionName` | ts/lib/logging.ts:1-3 | the name followed by `()` |
| `Logging.MethodNameInjective` | ts/lib/logging.ts:5-9 | for class names without a dot, `Class.method()` determines both names |
| `Secrets.MaskSecrets` | ts/lib/services/secrets/secrets-service.ts:16-23 | the result has exactly the input's keys, each value masked with the default length; the input is a value and is not changed |
| `Secrets.CheckHealth` | ts/lib/services/secrets/secrets-service.ts:25-27 | succeeds iff the secrets could be read, with the masked bundle as data, and otherwise reports the error |
| `EnvSecrets.GetEnvVariableOrThrow` | ts/lib/services/secrets/env-secrets-service.ts:17-23 | a defined variable gives its value, the empty string included; an undefined one is the error naming it |
| `EnvSecrets.ReadFields` | ts/lib/services/secrets/env-secrets-service.ts:25-31 | succeeds iff every variable is defined, with one key per field; otherwise the error names the first undefined variable in field order |
| `EnvSecrets.ReadFieldsValues` | ts/lib/services/secrets/env-secrets-service.ts:25-31 | each field holds its variable's value |
| `EnvSecrets.GetSecrets` | ts/lib/services/secrets/env-secrets-service.ts:13-37 | succeeds iff all five variables are defined |
| `EnvSecrets.GetSecretsFields` | ts/lib/services/secrets/env-secrets-service.ts:25-31 | the five fields `iftttClientId`, `particleDeviceId`, `particlePassword`, `particleUsername`, `zoomClientId` hold their variables' values, and a missing `IFTTT_CLIENT_ID` is reported first |
| `EnvSecrets.CheckHealth` | ts/lib/services/secrets/env-secrets-service.ts:9-11 | succeeds iff the bundle can be read from the environment, with the masked bundle as data; there is no cache, so every call reads the environment |
| `SsmSecrets.ParameterPath` | ts/lib/services/secrets/ssm-secrets-service.ts:33-35 | the path is `/<appName>/<SUFFIX>` (`/<SUFFIX>` for an empty application name) |
| `SsmSecrets.SsmParameters` | ts/lib/services/secrets/ssm-secrets-service.ts:32-43 | one path per secret field: the four particle and Zoom fields |
| `SsmSecrets.ParameterNames` | ts/lib/services/secrets/ssm-secrets-service.ts:49-50 | the requested names are the four paths in field order |
| `SsmSecrets.FindParameter` | ts/lib/services/secrets/ssm-secrets-service.ts:67-69 | the first returned parameter with that name, or none |
| `SsmSecrets.FindParameterValueOrThrow` | ts/lib/services/secrets/ssm-secrets-service.ts:66-74 | succeeds iff the parameter is present with a non-empty value, and returns that value |
| `SsmSecrets.CollectValues` | ts/lib/services/secrets/ssm-secrets-service.ts:76-81 | succeeds iff every field's parameter has a value, with one key per field |
| `SsmSecrets.CollectValuesFields` | ts/lib/services/secrets/ssm-secrets-service.ts:76-81 | each field holds its parameter's value |
| `SsmSecrets.FromParameterStore` | ts/lib/services/secrets/ssm-secrets-service.ts:45-87 | a failed request propagates; otherwise it succeeds iff as many parameters came back as were asked for, none is invalid, and every field's parameter has a non-empty value; the bundle has the four field keys |
| `SsmSecrets.FromParameterStoreValues` | ts/lib/services/secrets/ssm-secrets-service.ts:59-81 | on success each field is the value of the parameter at its own path |
| `SsmSecrets.CacheLifetime` | ts/lib/services/secrets/ssm-secrets-service.ts:23 | the first call fetches; a cached bundle is kept while `now <= expiry` (strict comparison); an expiry of `Number.MAX_VALUE` is never passed |
| `SsmSecrets.SsmSecretsService.constructor` | ts/lib/services/secrets/ssm-secrets-service.ts:89-90 | nothing cached and expiry 0 |
| `SsmSecrets.SsmSecretsService.GetSecrets` | ts/lib/services/secrets/ssm-secrets-service.ts:22-30 | fetches iff nothing is cached or `now > expiry`; a successful fetch sets `expiry = now_after + ttl`; a failed one stays cached with `expiry = MAX_VALUE`, so every later call returns the same failure; otherwise nothing changes and the cached result is returned |
| `SsmSecrets.SsmSecretsService.CheckHealth` | ts/lib/services/secrets/ssm-secrets-service.ts:16-20 | reads the parameter store directly, bypassing the cache, and reports the masked bundle |
| `Clock.NoTimeBeyondMaxValue` | ts/lib/services/secrets/ssm-secrets-service.ts:25 | no clock reading passes `Number.MAX_VALUE` (the time-value range of section 21.4.1.1 of ECMA-262) |
| `ParticleAuth.TokenDuration` | ts/lib/services/on-air-light/particle-authenticator-service.ts:60 | the requested token duration is the TTL in seconds rounded to the nearest whole second (halves up) |
| `ParticleAuth.TokenDurationUnique` | ts/lib/services/on-air-light/particle-authenticator-service.ts:60 | that rounding has exactly one result |
| `ParticleAuth.LoginRequest` | ts/lib/services/on-air-light/particle-authenticator-service.ts:57-62 | the login sends the secrets' password and username and the rounded token duration |
| `ParticleAuth.MaskLoginResult` | ts/lib/services/on-air-light/particle-authenticator-service.ts:42-51 | both tokens are masked; the status code and every other body field are kept |
| `ParticleAuth.MaskLoginResultHidesTokens` | ts/lib/services/on-air-light/particle-authenticator-service.ts:46-47 | two logins that differ only inside their tokens mask to the same result |
| `ParticleAuth.CacheLifetime` | ts/lib/services/on-air-light/particle-authenticator-service.ts:33 | the first call logs in; a cached login is used only while `now < expiry` (inclusive comparison: at `now == expiry` it logs in again); an expiry of `Number.MAX_VALUE` is never reached |
| `ParticleAuth.ExpiryBoundaries` | ts/lib/services/on-air-light/particle-authenticator-service.ts:33 | at the instant of expiry the secrets cache keeps its entry while the login cache renews its own |
| `ParticleAuth.AccessToken` | ts/lib/services/on-air-light/particle-authenticator-service.ts:39 | the token is the cached login's `access_token`, and a failed login is that failure |
| `ParticleAuth.ParticleAuthenticatorService.constructor` | ts/lib/services/on-air-light/particle-authenticator-service.ts:20-24 | nothing cached and expiry 0 |
| `ParticleAuth.ParticleAuthenticatorService.GetAuthToken` | ts/lib/services/on-air-light/particle-authenticator-service.ts:32-40 | logs in iff nothing is cached or `now >= expiry`; a successful login sets `expiry = now + expires_in * 1000`; a failed one stays cached with `expiry = MAX_VALUE` and every later call fails the same way; otherwise nothing changes |
| `ParticleAuth.ParticleAuthenticatorService.CheckHealth` | ts/lib/services/on-air-light/particle-authenticator-service.ts:26-30 | a fresh login, reported masked, bypassing the cache |
| `ParticleLight.Authorized` | ts/lib/services/on-air-light/particle-on-air-light-service.ts:111-122 | a call fails with the authenticator's error when no token can be had, and otherwise gives the cloud's answer |
| `ParticleLight.ParticleCloud.Send` | ts/lib/services/on-air-light/particle-on-air-light-service.ts:110-120 | each request to the cloud is recorded in order |
| `ParticleLight.ParticleProperty.constructor` | ts/lib/services/on-air-light/particle-on-air-light-service.ts:101-106 | a property keeps its cloud, device, name and the text conversion of its values |
| `ParticleLight.ParticleProperty.Get` | ts/lib/services/on-air-light/particle-on-air-light-service.ts:108-116 | reads the variable named after the property, and returns its value |
| `ParticleLight.ParticleProperty.Set` | ts/lib/services/on-air-light/particle-on-air-light-service.ts:118-127 | calls the function `set<propertyName>` with the value's text and returns its result code |
| `ParticleLight.ParticleProperty.SetOrGet` | ts/lib/services/on-air-light/particle-on-air-light-service.ts:134-148 | no value: no set, returns a get; a set answered with anything but -1 and no `forceGet`: returns the value without a get; a set answered -1, or `forceGet`: returns a get after the set; a set that throws propagates |
| `ParticleLight.AllThree` | ts/lib/services/on-air-light/particle-on-air-light-service.ts:33-43 | the three results combine into a state iff all three succeed |
| `ParticleLight.ParticleOnAirLightService.constructor` | ts/lib/services/on-air-light/particle-on-air-light-service.ts:69-86 | the three properties are `color`, `duration` and `pattern` of the configured device |
| `ParticleLight.ParticleOnAirLightService.GetState` | ts/lib/services/on-air-light/particle-on-air-light-service.ts:29-47 | reads the color, duration and pattern variables, in that order, and returns the three values |
| `ParticleLight.ParticleOnAirLightService.SetState` | ts/lib/services/on-air-light/particle-on-air-light-service.ts:49-67 | the result is the three `setOrGet` outcomes combined; it resolves iff the token is obtained, the colour is read back, every given value's set answers, and duration and pattern are read back wherever they are absent or their set reports failure; the colour is always read back (`forceGet` on colour only), duration and pattern are the given values when their set does not fail; a colour given is sent as `setcolor` with its name |
| `ParticleLight.SetOrGetResult` | ts/lib/services/on-air-light/particle-on-air-light-service.ts:134-148 | `setOrGet` resolves iff the token is obtained, a given value's set answers and, where a read-back is needed (no value, a failed set, or `forceGet`), the get answers; the value itself when no read-back is needed, else the value read |
| `ParticleLight.ParticleOnAirLightService.CheckHealth` | ts/lib/services/on-air-light/particle-on-air-light-service.ts:25-27 | the health check is `getState` |
| `Authorizer.ApiKeyHeaderNameLowered` | ts/lambdas/authorizer/index.ts:18-19 | the lower-cased header name is `clientid` |
| `Authorizer.FirstApiKey` | ts/lambdas/authorizer/index.ts:20-29 | none iff no header name lower-cases to `clientid`; otherwise the value of the first header that does |
| `Authorizer.FirstApiKeyIgnoresCase` | ts/lambdas/authorizer/index.ts:24 | renaming headers to other spellings of the same lower-case name does not change the result |
| `Authorizer.ApiKeySpellings` | ts/lambdas/authorizer/index.ts:24 | `CLIENTID`, `clientid` and `ClientId` are all found |
| `Authorizer.FindApiKey` | ts/lambdas/authorizer/index.ts:20-29 | the loop stops at the first matching header and finds its value; null headers find nothing |
| `Authorizer.Handler` | ts/lambdas/authorizer/index.ts:6-52 | the policy is always one `Allow` of `execute-api:Invoke` on the method ARN, version `2012-10-17`; the principal is `clientId-principal`; the usage key is the first `clientid` header's value or undefined |
| `Strings.ToLower` | ts/lambdas/authorizer/index.ts:19-24 | `toLowerCase` on ASCII letters: same length, each upper-case letter lowered and everything else kept |
| `Base64.ValueOf` | ts/lib/dynamodb.ts:34 | a character decodes to a 6-bit value only if it is that value's character in the alphabet |
| `Base64.ValueOfCharOf` | ts/lib/dynamodb.ts:28-34 | every 6-bit value's character decodes back to it |
| `Base64.QuadValues` | ts/lib/dynamodb.ts:28 | three bytes become four characters whose values put the 24 bits back together |
| `Base64.DecodeTailOne` | ts/lib/dynamodb.ts:28-34 | a final single byte survives its two-character group (padded with `==` in the standard alphabet) |
| `Base64.DecodeTailTwo` | ts/lib/dynamodb.ts:28-34 | two final bytes survive their three-character group (padded with `=` in the standard alphabet) |
| `Base64.DecodeEncode` | ts/lib/dynamodb.ts:28-34 | decoding an encoding gives back the bytes, in both alphabets (sections 4 and 5 of RFC 4648) |
| `Base64.EncodeLength` | ts/lib/dynamodb.ts:28 | the text is four characters per three bytes, padded to a multiple of four only in the standard alphabet |
| `Base64.EncodeCharacters` | ts/lib/dynamodb.ts:28 | the text uses only the alphabet's characters, plus `=` padding in the standard one |
| `Base64.UrlSafeText` | ts/lib/services/events/fs-events-service.ts:65 | base64url text needs no escaping in a URL |
| `Base64.StandardIsNotUrlSafe` | ts/lib/dynamodb.ts:28 | standard base64 can produce `+`, so its text is not URL-safe |
| `Utf8.EncodeChar` | ts/lib/dynamodb.ts:28 | a character is one to four bytes; only a one-byte form is below 0x80, and the later bytes are continuation bytes |
| `Utf8.Encode` | ts/lib/dynamodb.ts:28 | a string of `n` characters takes between `n` and `4n` bytes |
| `Utf8.DecodeChar` | ts/lib/dynamodb.ts:34 | decoding one character consumes between one byte and all of them |
| `Utf8.DecodeTwo` | ts/lib/dynamodb.ts:34 | a two-byte form decodes to its code point |
| `Utf8.DecodeThree` | ts/lib/dynamodb.ts:34 | a three-byte form decodes to its code point |
| `Utf8.DecodeFour` | ts/lib/dynamodb.ts:34 | a four-byte form decodes to its code point |
| `Utf8.DecodeEncodeChar` | ts/lib/dynamodb.ts:28-34 | a character's encoding decodes back to it, whatever follows |
| `Utf8.DecodeEncode` | ts/lib/services/events/fs-events-service.ts:61-65 | decoding the UTF-8 of a string gives the string back |
| `Utf8.AsciiEncoding` | ts/lib/dynamodb.ts:28 | ASCII text is its own UTF-8, byte for character |
| `JsonText.EscapeChar` | ts/lib/dynamodb.ts:23-26 | `JSON.stringify` writes a character as itself unless it is a quote, a backslash or a control character, which are escaped |
| `JsonText.QuoteString` | ts/lib/dynamodb.ts:23-26 | a string is written between quotes |
| `JsonText.Unescape` | ts/lib/dynamodb.ts:35 | reading an escape consumes input |
| `JsonText.HexQuad` | ts/lib/dynamodb.ts:35 | the four digits of a `\u` escape are read iff each is a hexadecimal digit, giving a value below 0x10000 |
| `JsonText.PairCodePoint` | ts/lib/dynamodb.ts:35 | a high surrogate followed by a low one stands for a code point from U+10000 to U+10FFFF |
| `JsonText.HexQuadOfText` | ts/lib/dynamodb.ts:35 | four hexadecimal digits written for a value read back as that value |
| `JsonText.UnescapeUnicode` | ts/lib/dynamodb.ts:35 | every character reads back from its `\u` escape, one above U+FFFF from the escapes of its surrogate pair |
| `JsonText.UnescapePair` | ts/lib/dynamodb.ts:35 | a character above U+FFFF reads back from the escapes of its surrogate pair |
| `JsonText.ParseChars` | ts/lib/dynamodb.ts:35 | reading a string body consumes input |
| `JsonText.UnescapeControl` | ts/lib/dynamodb.ts:35 | a `\u00XX` escape reads back as its control character |
| `JsonText.ParseEscapedChar` | ts/lib/dynamodb.ts:23-35 | an escaped character reads back as itself, followed by whatever the rest reads as |
| `JsonText.ParseQuoted` | ts/lib/dynamodb.ts:23-35 | an escaped string followed by a quote reads back as the string |
| `JsonText.ParseQuoteString` | ts/lib/dynamodb.ts:23-35 | `JSON.parse` of `JSON.stringify` of a string gives the string back |
| `JsonText.EscapeAscii` | ts/lib/dynamodb.ts:23-28 | escaping ASCII text gives ASCII text |
| `Strtol.SkipSpaces` | cpp/photon/src/Color.h:33 | `strtol` first skips the leading white space (space and codes 9 to 13) |
| `Strtol.HexRun` | cpp/photon/src/Color.h:33 | the longest prefix of hexadecimal digits |
| `Strtol.Strtol16` | cpp/photon/src/Color.h:33 | the base-16 value of the prefix, clamped to the 32-bit `long` range |
| `Strtol.ToUint8` | cpp/photon/src/Color.h:33 | the conversion to `uint8_t` keeps the value modulo 256 |
| `Strtol.Strtol16TwoDigits` | cpp/photon/src/Color.h:32-33 | two hexadecimal digits read as `16 * hi + lo` |
| `Strtol.Strtol16OneDigit` | photon/src/Color.h:21-22 | one hexadecimal digit reads as its value |
| `Strtol.Strtol16Negative` | cpp/photon/src/Color.h:33 | `"-1"` reads as -1, which becomes 255 as a byte |
| `HexColor.WiringSubstring` | photon/src/Color.h:21 | `substring(left, right)` clamps the end to the length, and is empty past the end |
| `HexColor.ParsePair` | cpp/photon/src/Color.h:32-37 | a pair is accepted iff it reads as a non-zero byte or is literally `"00"`, and then it is that byte |
| `HexColor.ParseHex` | cpp/photon/src/Color.h:29-38 | the colour is accepted iff all three pairs, at [0,2), [2,4) and [4,6), are, and then it is the three bytes |
| `HexColor.ReadPairs` | cpp/photon/src/Color.h:29-38 | the loop over the three pairs stops at the first refused pair and otherwise fills the three bytes |
| `HexColor.ByteText` | cpp/photon/src/Color.h:20 | a byte's hexadecimal text is two characters |
| `HexColor.HexText` | cpp/photon/src/Color.h:20 | a colour's hexadecimal text is six characters |
| `Strings.HexValueOfDigit` | cpp/photon/src/Color.h:33 | each hexadecimal digit reads as its value |
| `HexColor.ParsePairOfByteText` | cpp/photon/src/Color.h:32-37 | every byte's two-digit text is accepted as that byte, `"00"` included |
| `HexColor.ParseHexText` | cpp/photon/src/Color.h:29-43 | every colour's six-digit text is accepted as that colour |
| `HexColor.ParseHexIgnoresTail` | photon/src/Color.h:18-21 | characters after position 6 are ignored |
| `HexColor.ShortTextsRefused` | photon/src/Color.h:21-26 | with at most four characters the last pair is empty, reads as 0, and is refused |
| `HexColor.FiveCharactersAccepted` | photon/src/Color.h:18-26 | with no length check, `"fffff"` is accepted as (255, 255, 15) |
| `CppColor.Color.constructor` | cpp/photon/src/Color.h:9-13 | starts as `"000000"` and 0/0/0, then takes the argument if `setHex` accepts it |
| `CppColor.Color.SetHex` | cpp/photon/src/Color.h:20-46 | accepts iff the text has length 6 and all three pairs are accepted; then the hex text and the three bytes are the new fields; otherwise no field changes |
| `CppColor.SetHexAcceptsHexText` | cpp/photon/src/Color.h:9-46 | the default `"000000"` is black, and every colour's six-digit text is accepted |
| `PhotonColor.Color.constructor` | photon/src/Color.h:9-12 | the bytes given (0 by default) |
| `PhotonColor.Color.FromHex` | photon/src/Color.h:14-34 | accepts iff all three pairs are accepted, with no length check; then the three bytes are set, otherwise none changes |
| `Timelines.Timeline.constructor` | photon/src/Timeline.h:7-11 | the index starts at 0 and the duration at the argument, or at 0 when the argument is 0 |
| `Timelines.Timeline.SetDuration` | photon/src/Timeline.h:18-27 | refuses 0 and keeps the old duration; stores any other duration and returns true |
| `Timelines.Timeline.Update` | photon/src/Timeline.h:39-46 | the index is the number of whole durations in the clock reading: `index * duration <= millis < (index + 1) * duration`, and `index * duration + millis % duration == millis` |
| `Periods.NewPeriod` | photon/src/Period.h:6-12 | the period length is kept; the progress is shorter than the period and `periodIndex * periodMillis + progressMillis == systemMillis` |
| `Periods.NewPeriodUnique` | photon/src/Period.h:7-9 | the index and the progress are the only such split of the clock reading |
| `Ring.InternetButton.AllOff` | photon/src/Patterns.h:27 | every LED is off |
| `Ring.InternetButton.AllOn` | photon/src/Patterns.h:50 | every LED shows the colour |
| `Ring.InternetButton.LightLed` | photon/src/Patterns.h:128 | LED `n` shows the colour and no other LED changes |
| `Ring.InternetButton.DarkenLed` | photon/src/Patterns.h:132 | LED `n` is off and no other LED changes |
| `Ring.InternetButton.SetLevel` | photon/src/Patterns.h:28 | the brightness is set |
| `RingPatterns.NamesDistinct` | photon/src/Patterns.h:44-142 | the six fixed names `solid`, `blink`, `flash`, `pulse`, `spin`, `alternate` tell the patterns apart |
| `RingPatterns.SpinOps` | photon/src/Patterns.h:123-134 | a spin makes one call per step |
| `RingPatterns.SpinLightsArc` | photon/src/Patterns.h:117-134 | a spin lights exactly the LEDs `((tail + k) mod 11) + 1` for k in 0..6, an arc of 7, and turns the other four off |
| `RingPatterns.SpinWritesEachLedOnce` | photon/src/Patterns.h:123-125 | a spin writes each LED number from 1 to 11 exactly once |
| `RingPatterns.Start` | photon/src/Patterns.h:25-29 | every LED off, then brightness 255 |
| `RingPatterns.Update` | photon/src/Patterns.h:48-160 | solid turns all LEDs on; blink all on iff the phase is 1, else all off; flash and pulse set the brightness and turn all on; spin and alternate run their loops |
| `RingPatterns.SpinRing` | photon/src/Patterns.h:115-135 | the spin loop leaves lit exactly the LEDs of the arc from the tail and makes the eleven calls in order |
| `RingPatterns.AlternateRing` | photon/src/Patterns.h:146-160 | the alternating loop leaves LED `i + 1` lit iff `i % 2` equals the phase |
| `Patterns.Pattern.constructor` | photon/src/Patterns.h:15-18 | a pattern keeps its ring, colour and timeline and reports its subclass's fixed name |
| `Patterns.Pattern.Start` | photon/src/Patterns.h:25-29 | every LED off, then brightness 255 |
| `Patterns.Pattern.Update` | photon/src/Patterns.h:48-160 | the ring shows the pattern's frame in the colour's current bytes, with the device calls of that pattern |
| `DisplayModes.DisplayMode.constructor` | photon/src/DisplayMode.h:15-18 | a mode keeps its ring, colour and period length, and its name is its subclass's fixed name |
| `DisplayModes.DisplayMode.Start` | photon/src/DisplayMode.h:20-24 | every LED off, then brightness 255 |
| `DisplayModes.DisplayMode.Update` | photon/src/DisplayMode.h:43-173 | the ring shows the mode's frame in the colour's bytes; every timed mode needs a non-zero period |

## Left out

- Concurrency: `Promise.all` fan-outs run sequentially in array order, and the first failure is the
  result. The single-flight promise sharing in the two caches (concurrent callers awaiting one
  pending fetch or login) is not modelled: each call of `SsmSecrets.SsmSecretsService.GetSecrets`
  or `ParticleAuth.ParticleAuthenticatorService.GetAuthToken` runs its fetch or login to
  completion, with the clock readings (`Date.now()`) and the reply passed in. The `MAX_VALUE`
  expiry that a pending fetch holds shows only as the failed-fetch case.
- Floating point: `progress`, the easing curves and `round(11 * progress)` are not modelled.
  The eased phase, the spin's tail index and the eased brightness are integer inputs of
  `update`. `Easing.h` is not part of this model.
- `InternetButton.h` is not part of this model. `Ring.InternetButton` records each call in a log
  and gives `allLedsOff`, `allLedsOn`, `ledOn`, `ledOff` and `setBrightness` the effect their names
  describe. A `ledOn`/`ledOff` outside 1..11 changes no LED.
- RingPatterns.SpinRing and RingPatterns.Update: they require a tail index of at most 244. Above
  that the `uint8_t` loop counter would wrap. The firmware only passes `round(11 * progress)`, at
  most 11, so the requirement is always met.
- `photon/src/Patterns.h` calls `red()`, `green()` and `blue()`, which only the `cpp/photon` colour
  has. `Patterns.Pattern` is therefore paired with `CppColor.Color`, and `DisplayModes.DisplayMode`
  with `PhotonColor.Color`.
- Header guards are not modelled: `Timeline.h` and `Period.h` share `PERIOD_H`, and `Patterns.h` and
  `DisplayMode.h` share `DISPLAY_MODE_H`. The modules are given to the verifier side by side.
- Timelines.Timeline.Update and Periods.NewPeriod: they require a non-zero duration or period,
  because the firmware divides by it and dividing by zero is undefined behaviour in C++.
- DisplayModes.DisplayMode.Update: every timed mode requires a non-zero period, for the same reason.
- `strtol` overflow is clamped to the 32-bit `long` range of the Photon. `errno` is not modelled.
- Base64 decoding rejects characters outside the alphabet, a length or padding other than the
  encoder's (`=` padding to a multiple of four in the standard alphabet, none in the URL-safe
  one). Like Node, it ignores the unused low bits of the last character, so `AB==` decodes to
  the byte 0. Node also skips unknown characters and accepts missing padding; that lenience is
  not modelled.
- UTF-8 decoding rejects malformed, overlong and surrogate sequences, where Node substitutes
  U+FFFD. The item-key parser reads only the compact `{"primaryKey":…,"sortKey":…}` layout that
  `JSON.stringify` writes (its strings may use any JSON escape, a surrogate pair included),
  where `JSON.parse` also accepts whitespace and other key orders. On the keys this system
  writes none of this makes a difference; a key written by a client in another
  JSON layout is read by the source and refused by `DynamoDb.GetItem`.
- JsonText.Unescape: a lone surrogate escape (`\uD800`–`\uDFFF` not in a high-then-low pair) is
  refused, where `JSON.parse` keeps it as a single UTF-16 code unit; a `char` here is a Unicode
  scalar value and cannot hold one. `JSON.stringify` of a well-formed string never writes one.
- JSON objects are maps, so the key order of `JSON.stringify` is not modelled. The item keys only
  use their two fields.
- JSON numbers are `Json.JNum` integers: event data carrying a fractional or exponent number
  (kept as it is by `JSON.parse` and the body spread) is not represented.
- Strings are sequences of characters. `mask` is modelled on characters, not UTF-16 code units, and
  `minLength` is an integer.
- Lower-casing covers ASCII letters only. `toLowerCase` also folds other scripts,
  which header names do not use.
- yup's non-strict casting (a number accepted as a string, JSON strings parsed) is not modelled.
  The schemas are exact predicates, and email validity is a parameter.
- The DynamoDB wire protocol (`put`/`get`/`query`), the file-system calls, `path.posix` normalisation
  and `readdir` order are not modelled. Each backend is a map. A write
  that rejects changes nothing: the directory a successful `mkdir` leaves behind before a failed
  `writeFile`, and a partly written file, are not modelled. The order of a directory listing is
  an unspecified permutation.
- FsUserStates.FsUserStatesService.ReadUserStates: a user directory with no files counts as missing
  (the `readdir` error), because the map of files cannot tell an empty directory apart from an
  absent one.
- The Particle cloud (`particle-api-js`) and AWS SSM are abstract. Their replies are inputs to
  the methods that use them. The login request's other body fields are not modelled.
- The device variables are read as their expected types. A variable of another type is not
  modelled.
- Health checks (`service.ts`) use wall-clock timing and take their names from constructor
  reflection. Neither is modelled: `Health` keeps only the data or the error of a check.
- `crypto-service.ts` is not part of this model. It wraps AES-256-GCM (NIST SP 800-38D) and scrypt
  from Node.
- Process setup, the Express wiring (middleware, validation glue, error handler, CORS), the CDK
  stacks and the `servers/` and `lib/express` apps are not modelled.
- The router's converter list is a constructor parameter, of functions that return the newer
  observation (with an `activities` list). The handler (`ts/lambdas/handler/index.ts:74-77`)
  wires the older Govee and Zoom converters, whose observations carry a single `activity`;
  that wiring is not modelled, and no particular list is instantiated.
- `locationIdGlobal`, `locationIdWildcard`, `appName` and the cache time-to-live come from
  configuration that is not part of this model. They are opaque constants or constructor
  parameters.
- Where the code and its design description differ, the model follows the code. A failed SSM fetch
  stays cached with the maximum expiry, so every later call returns the same failure. A failure
  to set the light makes `POST /events` answer 500 after the event and user state are stored.

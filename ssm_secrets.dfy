/** The SSM Parameter Store secrets service (ssm-secrets-service.ts): the parameter paths, the
    validation of a `GetParameters` response and the `getSecrets` TTL cache. The SSM call is an
    input: its response, or the error it fails with. */
module SsmSecrets {
  import opened Wrappers
  import opened Clock
  import opened Secrets
  import opened Health

  datatype Parameter = Parameter(name: Option<string>, value: Option<string>)

  datatype GetParametersResult =
    GetParametersResult(parameters: Option<seq<Parameter>>, invalidParameters: Option<seq<string>>)

  /** The fields of this service's bundle and the suffix of each one's parameter path, in the
      order `ssmParameters` lists them. */
  const SsmFields: seq<(string, string)> := [
    ("particleDeviceId", "PARTICLE_DEVICE_ID"),
    ("particlePassword", "PARTICLE_PASSWORD"),
    ("particleUsername", "PARTICLE_USERNAME"),
    ("zoomClientId", "ZOOM_CLIENT_ID")]

  /** `path.posix.join('/', appName, suffix)` for an app name that is one plain path segment or
      empty (an empty segment is dropped by the join). */
  function ParameterPath(appName: string, suffix: string): (r: string)
    ensures appName != [] ==> r == "/" + appName + "/" + suffix
    ensures appName == [] ==> r == "/" + suffix
  {
    if appName == [] then "/" + suffix else "/" + appName + "/" + suffix
  }

  /** `ssmParameters`: field name to parameter path. */
  function SsmParameters(appName: string): (r: map<string, string>)
    ensures r.Keys == {"particleDeviceId", "particlePassword", "particleUsername", "zoomClientId"}
    ensures forall i :: 0 <= i < |SsmFields| ==> r[SsmFields[i].0] == ParameterPath(appName, SsmFields[i].1)
  {
    map["particleDeviceId" := ParameterPath(appName, "PARTICLE_DEVICE_ID"),
        "particlePassword" := ParameterPath(appName, "PARTICLE_PASSWORD"),
        "particleUsername" := ParameterPath(appName, "PARTICLE_USERNAME"),
        "zoomClientId" := ParameterPath(appName, "ZOOM_CLIENT_ID")]
  }

  /** `Object.values(ssmParameters)`: the names requested from the store. */
  function ParameterNames(appName: string): (r: seq<string>)
    ensures |r| == |SsmFields|
    ensures forall i :: 0 <= i < |r| ==> r[i] == SsmParameters(appName)[SsmFields[i].0]
  {
    seq(|SsmFields|, i requires 0 <= i < |SsmFields| => ParameterPath(appName, SsmFields[i].1))
  }

  /** `Array.prototype.find` by name: the first parameter called `name`. */
  function FindParameter(ps: seq<Parameter>, name: string): (r: Option<Parameter>)
    ensures r.None? <==> forall i :: 0 <= i < |ps| ==> ps[i].name != Some(name)
    ensures r.Some? ==>
              exists i :: 0 <= i < |ps| && ps[i] == r.value && ps[i].name == Some(name) &&
                forall j :: 0 <= j < i ==> ps[j].name != Some(name)
    decreases |ps|
  {
    if ps == [] then None
    else if ps[0].name == Some(name) then Some(ps[0])
    else
      var r := FindParameter(ps[1..], name);
      assert forall j :: 1 <= j < |ps| ==> ps[j] == ps[1..][j - 1];
      r
  }

  /** `findParameterValueOrThrow`: a missing parameter, a missing value and an empty value all
      fail (`!parameter?.Value`). */
  function FindParameterValueOrThrow(ps: seq<Parameter>, name: string): (r: Result<string>)
    ensures r.Ok? <==> FindParameter(ps, name).Some? && FindParameter(ps, name).value.value.Some? &&
                       FindParameter(ps, name).value.value.value != ""
    ensures r.Ok? ==> r.value == FindParameter(ps, name).value.value.value
  {
    match FindParameter(ps, name)
    case None => Err("")
    case Some(p) =>
      match p.value
      case None => Err("")
      case Some(v) => if v == "" then Err("") else Ok(v)
  }

  /** The response shape check: as many parameters as names requested and no invalid ones. */
  predicate CountsMatch(output: GetParametersResult, requested: nat) {
    output.parameters.Some? && |output.parameters.value| == requested &&
    !(output.invalidParameters.Some? && |output.invalidParameters.value| != 0)
  }

  /** The names of the bundle fields in `fields`. */
  function FieldNamesOf(fields: seq<(string, string)>): (names: set<string>)
    ensures forall i :: 0 <= i < |fields| ==> fields[i].0 in names
  {
    if fields == [] then {}
    else
      assert forall i :: 1 <= i < |fields| ==> fields[i] == fields[1..][i - 1];
      {fields[0].0} + FieldNamesOf(fields[1..])
  }

  /** Reads the fields' values from the parameters in order; the first failure is the error. */
  function CollectValues(ps: seq<Parameter>, appName: string, fields: seq<(string, string)>): (r: Result<SecretsBundle>)
    ensures r.Ok? <==>
              forall i :: 0 <= i < |fields| ==> FindParameterValueOrThrow(ps, ParameterPath(appName, fields[i].1)).Ok?
    ensures r.Ok? ==> r.value.Keys == FieldNamesOf(fields)
    decreases |fields|
  {
    if fields == [] then Ok(map[])
    else
      match FindParameterValueOrThrow(ps, ParameterPath(appName, fields[0].1))
      case Err(e) => Err(e)
      case Ok(v) =>
        assert forall j :: 1 <= j < |fields| ==> fields[j] == fields[1..][j - 1];
        match CollectValues(ps, appName, fields[1..])
        case Err(e) => Err(e)
        case Ok(rest) => Ok(rest[fields[0].0 := v])
  }

  lemma FieldsDistinct()
    ensures forall i, j :: 0 <= i < j < |SsmFields| ==> SsmFields[i].0 != SsmFields[j].0
  {
  }

  /** With distinct field names each field holds the value of its own parameter. */
  lemma {:induction false} CollectValuesFields(ps: seq<Parameter>, appName: string, fields: seq<(string, string)>)
    requires forall i, j :: 0 <= i < j < |fields| ==> fields[i].0 != fields[j].0
    requires CollectValues(ps, appName, fields).Ok?
    ensures forall i :: 0 <= i < |fields| ==>
              CollectValues(ps, appName, fields).value[fields[i].0] ==
              FindParameterValueOrThrow(ps, ParameterPath(appName, fields[i].1)).value
    decreases |fields|
  {
    if fields != [] {
      var tail := fields[1..];
      var v := FindParameterValueOrThrow(ps, ParameterPath(appName, fields[0].1));
      var rest := CollectValues(ps, appName, tail);
      assert v.Ok? && rest.Ok?;
      assert CollectValues(ps, appName, fields).value == rest.value[fields[0].0 := v.value];
      CollectValuesFields(ps, appName, tail);
      forall i | 1 <= i < |fields|
        ensures CollectValues(ps, appName, fields).value[fields[i].0] ==
                FindParameterValueOrThrow(ps, ParameterPath(appName, fields[i].1)).value
      {
        assert fields[i] == tail[i - 1];
      }
    }
  }

  /** The bundle's field names are the keys of `ssmParameters`. */
  lemma FieldNames()
    ensures FieldNamesOf(SsmFields) ==
            {"particleDeviceId", "particlePassword", "particleUsername", "zoomClientId"}
  {
    assert SsmFields[1..][1..][1..][1..] == [];
  }

  /** `getSecretsFromParameterStore`, given what `ssm.getParameters` returned. */
  function FromParameterStore(appName: string, response: Result<GetParametersResult>): (r: Result<SecretsBundle>)
    ensures response.Err? ==> r == Err(response.error)
    ensures r.Ok? <==>
              response.Ok? && CountsMatch(response.value, |SsmFields|) &&
              forall i :: 0 <= i < |SsmFields| ==>
                FindParameterValueOrThrow(response.value.parameters.value, ParameterPath(appName, SsmFields[i].1)).Ok?
    ensures r.Ok? ==> r.value.Keys == SsmParameters(appName).Keys
  {
    match response
    case Err(e) => Err(e)
    case Ok(output) =>
      if !CountsMatch(output, |SsmFields|) then Err("")
      else
        FieldNames();
        CollectValues(output.parameters.value, appName, SsmFields)
  }

  /** A successful read gives each field the non-empty value of the first parameter whose name
      is that field's path. */
  lemma FromParameterStoreValues(appName: string, output: GetParametersResult, i: int)
    requires 0 <= i < |SsmFields|
    requires FromParameterStore(appName, Ok(output)).Ok?
    ensures var p := FindParameter(output.parameters.value, SsmParameters(appName)[SsmFields[i].0]);
            p.Some? && p.value.value.Some? && p.value.value.value != "" &&
            FromParameterStore(appName, Ok(output)).value[SsmFields[i].0] == p.value.value.value
  {
    var ps := output.parameters.value;
    assert CountsMatch(output, |SsmFields|);
    var r := CollectValues(ps, appName, SsmFields);
    assert FromParameterStore(appName, Ok(output)) == r;
    assert SsmParameters(appName)[SsmFields[i].0] == ParameterPath(appName, SsmFields[i].1);
    FieldsDistinct();
    CollectValuesFields(ps, appName, SsmFields);
  }

  /** Whether `getSecrets` starts a fetch: nothing is cached, or the clock is strictly past the
      expiry. */
  predicate ShouldFetch(promise: Option<Result<SecretsBundle>>, expiry: int, now: int) {
    promise.None? || now > expiry
  }

  /** The cache's lifetime: a fresh service fetches; secrets fetched at `fetchedAt` are reused up
      to and including `fetchedAt + ttl`; an expiry parked at `Number.MAX_VALUE`, during a fetch
      or after a failed one, never passes. */
  lemma CacheLifetime(cached: Result<SecretsBundle>, fetchedAt: int, ttl: int, now: TimeValue)
    ensures ShouldFetch(None, 0, now)
    ensures ShouldFetch(Some(cached), fetchedAt + ttl, now) <==> now > fetchedAt + ttl
    ensures !ShouldFetch(Some(cached), MaxValue, now)
  {
    NoTimeBeyondMaxValue(now);
  }

  class SsmSecretsService {
    const appName: string
    const cacheTtlMilliseconds: int
    var secretsPromise: Option<Result<SecretsBundle>>
    var secretsExpiry: int

    /** A failed fetch stays cached with its expiry parked at `Number.MAX_VALUE`. */
    ghost predicate Valid()
      reads this
    {
      secretsPromise.Some? && secretsPromise.value.Err? ==> secretsExpiry == MaxValue
    }

    constructor (appName: string, cacheTtlMilliseconds: int)
      ensures this.appName == appName && this.cacheTtlMilliseconds == cacheTtlMilliseconds
      ensures secretsPromise.None? && secretsExpiry == 0
      ensures Valid()
    {
      this.appName := appName;
      this.cacheTtlMilliseconds := cacheTtlMilliseconds;
      secretsPromise := None;
      secretsExpiry := 0;
    }

    /** `getSecrets`, run to completion. `now` is the clock when the call starts and `later` the
        clock when the fetch it starts settles; `response` is what that fetch receives. The
        result is the cached promise's outcome. */
    method GetSecrets(now: TimeValue, later: TimeValue, response: Result<GetParametersResult>)
      returns (r: Result<SecretsBundle>, fetched: bool)
      requires Valid()
      modifies this
      ensures Valid()
      ensures fetched <==> ShouldFetch(old(secretsPromise), old(secretsExpiry), now)
      ensures fetched ==> secretsPromise == Some(FromParameterStore(appName, response))
      ensures fetched && r.Ok? ==> secretsExpiry == later + cacheTtlMilliseconds
      ensures fetched && r.Err? ==> secretsExpiry == MaxValue
      ensures !fetched ==> secretsPromise == old(secretsPromise) && secretsExpiry == old(secretsExpiry)
      ensures secretsPromise.Some? && r == secretsPromise.value
      ensures old(secretsPromise).Some? && old(secretsPromise).value.Err? ==> !fetched && r == old(secretsPromise).value
    {
      NoTimeBeyondMaxValue(now);
      fetched := ShouldFetch(secretsPromise, secretsExpiry, now);
      if fetched {
        secretsPromise := Some(FromParameterStore(appName, response));
        secretsExpiry := MaxValue;
        if secretsPromise.value.Ok? {
          secretsExpiry := later + cacheTtlMilliseconds;
        }
      }
      r := secretsPromise.value;
    }

    /** `checkHealth` reads the store directly, neither using nor filling the cache. */
    method CheckHealth(response: Result<GetParametersResult>) returns (r: HealthCheckResult<SecretsBundle>)
      ensures r.HealthCheckSuccess? <==> FromParameterStore(appName, response).Ok?
      ensures r.HealthCheckSuccess? ==>
                r.data.Keys == SsmParameters(appName).Keys &&
                forall k :: k in r.data ==> r.data[k] == Logging.MaskDefault(FromParameterStore(appName, response).value[k])
    {
      r := Secrets.CheckHealth(FromParameterStore(appName, response));
    }
  }
}

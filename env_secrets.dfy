/** The environment-variable secrets service (env-secrets-service.ts). The process environment
    is a parameter, so every call reads it afresh: nothing is cached. */
module EnvSecrets {
  import opened Wrappers
  import opened Secrets
  import opened Health

  /** `process.env`: the defined variables and their values. */
  type Environment = map<string, string>

  function NotDefinedMessage(name: string): string {
    "Required environment variable '" + name + "' is not defined'"
  }

  /** `getEnvVariableOrThrow(name)`: only an undefined variable is an error; an empty value is
      returned as it is. */
  function GetEnvVariableOrThrow(env: Environment, name: string): (r: Result<string>)
    ensures r.Ok? <==> name in env
    ensures r.Ok? ==> r.value == env[name]
    ensures r.Err? ==> r.error == NotDefinedMessage(name)
  {
    if name in env then Ok(env[name]) else Err(NotDefinedMessage(name))
  }

  /** The fields of this service's bundle and the variable each comes from, in the order the
      object literal reads them. */
  const EnvFields: seq<(string, string)> := [
    ("iftttClientId", "IFTTT_CLIENT_ID"),
    ("particleDeviceId", "PARTICLE_DEVICE_ID"),
    ("particlePassword", "PARTICLE_PASSWORD"),
    ("particleUsername", "PARTICLE_USERNAME"),
    ("zoomClientId", "ZOOM_CLIENT_ID")]

  /** Reads the variables of `fields` in order; the first undefined one is the error. */
  function ReadFields(env: Environment, fields: seq<(string, string)>): (r: Result<SecretsBundle>)
    ensures r.Ok? <==> forall i :: 0 <= i < |fields| ==> fields[i].1 in env
    ensures r.Ok? ==> r.value.Keys == set i | 0 <= i < |fields| :: fields[i].0
    ensures r.Err? ==>
              exists i :: 0 <= i < |fields| && fields[i].1 !in env &&
                (forall j :: 0 <= j < i ==> fields[j].1 in env) && r.error == NotDefinedMessage(fields[i].1)
    decreases |fields|
  {
    if fields == [] then Ok(map[])
    else
      match GetEnvVariableOrThrow(env, fields[0].1)
      case Err(e) => Err(e)
      case Ok(v) =>
        match ReadFields(env, fields[1..])
        case Err(e) =>
          assert forall j :: 1 <= j < |fields| ==> fields[j] == fields[1..][j - 1];
          Err(e)
        case Ok(rest) =>
          assert forall j :: 1 <= j < |fields| ==> fields[j] == fields[1..][j - 1];
          assert (set i | 0 <= i < |fields| :: fields[i].0) ==
                 {fields[0].0} + (set i | 0 <= i < |fields[1..]| :: fields[1..][i].0);
          Ok(rest[fields[0].0 := v])
  }

  /** When the field names are distinct, each one holds the value of its own variable. */
  lemma {:induction false} ReadFieldsValues(env: Environment, fields: seq<(string, string)>)
    requires forall i, j :: 0 <= i < j < |fields| ==> fields[i].0 != fields[j].0
    requires ReadFields(env, fields).Ok?
    ensures forall i :: 0 <= i < |fields| ==> ReadFields(env, fields).value[fields[i].0] == env[fields[i].1]
    decreases |fields|
  {
    if fields != [] {
      ReadFieldsValues(env, fields[1..]);
      assert forall j :: 1 <= j < |fields| ==> fields[j] == fields[1..][j - 1];
    }
  }

  /** `getSecrets`. */
  function GetSecrets(env: Environment): (r: Result<SecretsBundle>)
    ensures r.Ok? <==> forall i :: 0 <= i < |EnvFields| ==> EnvFields[i].1 in env
  {
    ReadFields(env, EnvFields)
  }

  /** Each field is its variable's value (an empty one included); a missing variable fails the
      whole call with a message naming the first one missing. */
  lemma GetSecretsFields(env: Environment)
    ensures GetSecrets(env).Ok? ==>
              GetSecrets(env).value.Keys ==
                {"iftttClientId", "particleDeviceId", "particlePassword", "particleUsername", "zoomClientId"} &&
              GetSecrets(env).value["iftttClientId"] == env["IFTTT_CLIENT_ID"] &&
              GetSecrets(env).value["particleDeviceId"] == env["PARTICLE_DEVICE_ID"] &&
              GetSecrets(env).value["particlePassword"] == env["PARTICLE_PASSWORD"] &&
              GetSecrets(env).value["particleUsername"] == env["PARTICLE_USERNAME"] &&
              GetSecrets(env).value["zoomClientId"] == env["ZOOM_CLIENT_ID"]
    ensures "IFTTT_CLIENT_ID" !in env ==> GetSecrets(env) == Err(NotDefinedMessage("IFTTT_CLIENT_ID"))
    ensures GetSecrets(env).Err? ==>
              exists i :: 0 <= i < |EnvFields| && EnvFields[i].1 !in env &&
                GetSecrets(env).error == NotDefinedMessage(EnvFields[i].1)
  {
    if GetSecrets(env).Ok? {
      GetSecretsValues(env);
    }
    if "IFTTT_CLIENT_ID" !in env {
      assert EnvFields[0].1 == "IFTTT_CLIENT_ID";
    }
  }

  lemma GetSecretsValues(env: Environment)
    requires GetSecrets(env).Ok?
    ensures GetSecrets(env).value.Keys ==
              {"iftttClientId", "particleDeviceId", "particlePassword", "particleUsername", "zoomClientId"}
    ensures forall i :: 0 <= i < |EnvFields| ==> GetSecrets(env).value[EnvFields[i].0] == env[EnvFields[i].1]
  {
    EnvFieldsDistinct();
    ReadFieldsValues(env, EnvFields);
    EnvFieldNames();
  }

  lemma EnvFieldsDistinct()
    ensures forall i, j :: 0 <= i < j < |EnvFields| ==> EnvFields[i].0 != EnvFields[j].0
  {
  }

  lemma EnvFieldNames()
    ensures (set i | 0 <= i < |EnvFields| :: EnvFields[i].0) ==
            {"iftttClientId", "particleDeviceId", "particlePassword", "particleUsername", "zoomClientId"}
  {
    var ks := set i | 0 <= i < |EnvFields| :: EnvFields[i].0;
    assert EnvFields[0].0 in ks && EnvFields[1].0 in ks && EnvFields[2].0 in ks && EnvFields[3].0 in ks && EnvFields[4].0 in ks;
  }

  /** `checkHealth`: the masked bundle. */
  method CheckHealth(env: Environment) returns (r: HealthCheckResult<SecretsBundle>)
    ensures r.HealthCheckSuccess? <==> GetSecrets(env).Ok?
    ensures r.HealthCheckSuccess? ==>
              r.data.Keys == GetSecrets(env).value.Keys &&
              forall k :: k in r.data ==> r.data[k] == Logging.MaskDefault(GetSecrets(env).value[k])
  {
    r := Secrets.CheckHealth(GetSecrets(env));
  }
}

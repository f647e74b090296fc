/** The secrets bundle shared by the secrets services (secrets-service.ts) and its masking. */
module Secrets {
  import opened Wrappers
  import opened Logging
  import opened Health

  /** A secrets bundle: field name to value. */
  type SecretsBundle = map<string, string>

  /** `maskSecrets`: a copy of the bundle in which every field is masked. Maps are values, so the
      caller's bundle cannot change. */
  method MaskSecrets(secrets: SecretsBundle) returns (masked: SecretsBundle)
    ensures masked.Keys == secrets.Keys
    ensures forall k :: k in secrets ==> masked[k] == MaskDefault(secrets[k])
  {
    masked := secrets;
    var remaining := secrets.Keys;
    while remaining != {}
      invariant remaining <= secrets.Keys
      invariant masked.Keys == secrets.Keys
      invariant forall k :: k in secrets ==>
                  masked[k] == if k in remaining then secrets[k] else MaskDefault(secrets[k])
      decreases remaining
    {
      var k :| k in remaining;
      masked := masked[k := MaskDefault(secrets[k])];
      remaining := remaining - {k};
    }
  }

  /** `checkHealth`: the masked bundle when the secrets can be obtained, else the error. */
  method CheckHealth(secrets: Result<SecretsBundle>) returns (r: HealthCheckResult<SecretsBundle>)
    ensures r.HealthCheckSuccess? <==> secrets.Ok?
    ensures secrets.Err? ==> r == HealthCheckFailure(secrets.error)
    ensures r.HealthCheckSuccess? ==>
              r.data.Keys == secrets.value.Keys &&
              forall k :: k in secrets.value ==> r.data[k] == MaskDefault(secrets.value[k])
  {
    match secrets
    case Err(e) =>
      r := HealthCheckFailure(e);
    case Ok(bundle) =>
      var masked := MaskSecrets(bundle);
      r := HealthCheckSuccess(masked);
  }
}

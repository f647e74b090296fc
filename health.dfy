/** The outcome of a service health check (service.ts), without its wall-clock timing. */
module Health {
  import opened Wrappers

  datatype HealthCheckResult<T> = HealthCheckSuccess(data: T) | HealthCheckFailure(error: string)

  /** `doCheckHealth(test)`: the test's value on success, its error when it throws. */
  function DoCheckHealth<T>(test: Result<T>): HealthCheckResult<T> {
    match test
    case Ok(v) => HealthCheckSuccess(v)
    case Err(e) => HealthCheckFailure(e)
  }
}

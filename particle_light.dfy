/** The Particle-backed on-air light (particle-on-air-light-service.ts): a property accessor per
    device variable/function pair, and the light state read and written through three of them.
    The cloud's answers and the authenticator's token are inputs; the client records the
    requests it sends. */
module ParticleLight {
  import opened Wrappers
  import opened Strings
  import opened OnAirLights
  import opened Health

  /** The `CallFunctionResultCode` values; `setOrGet` treats only `failed` as a failure. */
  const Unchanged: int := 0
  const Changed: int := 1
  const Failed: int := -1

  /** A request sent to the Particle cloud. */
  datatype Call =
    | CallFunction(deviceId: string, name: string, argument: string, auth: string)
    | GetVariable(deviceId: string, name: string, auth: string)

  /** A call that first awaits the auth token: a token failure is the call's failure, and
      otherwise the call returns what the cloud answered. */
  function Authorized<X>(auth: Result<string>, answer: Result<X>): (r: Result<X>)
    ensures auth.Err? ==> r == Err(auth.error)
    ensures auth.Ok? ==> r == answer
  {
    match auth
    case Err(e) => Err(e)
    case Ok(_) => answer
  }

  /** What `setOrGet(value, forceGet)` resolves to: the value when a set that did not report
      `failed` needs no read-back, else the variable as read; a thrown error otherwise. */
  function SetOrGetResult<T>(value: Option<T>, forceGet: bool, auth: Result<string>, setAnswer: Result<int>,
                             getAnswer: Result<T>): (r: Result<T>)
    ensures r.Ok? <==>
              && auth.Ok?
              && (value.None? ==> getAnswer.Ok?)
              && (value.Some? ==> setAnswer.Ok? && (setAnswer.value == Failed || forceGet ==> getAnswer.Ok?))
    ensures r.Ok? && value.Some? && setAnswer.value != Failed && !forceGet ==> r.value == value.value
    ensures r.Ok? && (value.None? || setAnswer.value == Failed || forceGet) ==> r.value == getAnswer.value
  {
    if value.None? then Authorized(auth, getAnswer)
    else
      match Authorized(auth, setAnswer)
      case Err(e) => Err(e)
      case Ok(code) => if code == Failed || forceGet then Authorized(auth, getAnswer) else Ok(value.value)
  }

  /** The `particle` client: the requests sent so far. */
  class ParticleCloud {
    var requests: seq<Call>

    constructor ()
      ensures requests == []
    {
      requests := [];
    }

    method Send(call: Call)
      modifies this
      ensures requests == old(requests) + [call]
    {
      requests := requests + [call];
    }
  }

  /** `ParticleProperty<T>`: a device variable read with `get` and written through the device
      function `set<name>`. `toText` is the value's `toString`. */
  class ParticleProperty<T> {
    const particle: ParticleCloud
    const deviceId: string
    const propertyName: string
    const toText: T -> string

    constructor (particle: ParticleCloud, deviceId: string, propertyName: string, toText: T -> string)
      ensures this.particle == particle && this.deviceId == deviceId
      ensures this.propertyName == propertyName
      ensures forall v :: this.toText(v) == toText(v)
    {
      this.particle := particle;
      this.deviceId := deviceId;
      this.propertyName := propertyName;
      this.toText := toText;
    }

    /** The request `get` sends once it has a token. */
    function GetRequests(auth: Result<string>): seq<Call> {
      if auth.Ok? then [GetVariable(deviceId, propertyName, auth.value)] else []
    }

    /** The request `set(value)` sends once it has a token. */
    function SetRequests(value: T, auth: Result<string>): seq<Call> {
      if auth.Ok? then [CallFunction(deviceId, "set" + propertyName, toText(value), auth.value)] else []
    }

    /** `get`: the variable's value as the cloud reports it. */
    method Get(auth: Result<string>, answer: Result<T>) returns (r: Result<T>)
      modifies particle
      ensures r == Authorized(auth, answer)
      ensures particle.requests == old(particle.requests) + GetRequests(auth)
    {
      r := Authorized(auth, answer);
      if auth.Ok? {
        particle.Send(GetVariable(deviceId, propertyName, auth.value));
      }
    }

    /** `set(value)`: calls `set<name>` with the value's text and returns the function's code. */
    method Set(value: T, auth: Result<string>, answer: Result<int>) returns (r: Result<int>)
      modifies particle
      ensures r == Authorized(auth, answer)
      ensures particle.requests == old(particle.requests) + SetRequests(value, auth)
    {
      var argument := toText(value);
      r := Authorized(auth, answer);
      if auth.Ok? {
        particle.Send(CallFunction(deviceId, "set" + propertyName, argument, auth.value));
      }
    }

    /** `setOrGet(value, forceGet)`: sets the value when one is given, and reads the variable back
        when nothing was set, when the set reports `failed`, or when `forceGet` asks for it. A
        thrown error from either call is the result. */
    method SetOrGet(value: Option<T>, forceGet: bool, auth: Result<string>, setAnswer: Result<int>, getAnswer: Result<T>)
      returns (r: Result<T>)
      modifies particle
      ensures r == SetOrGetResult(value, forceGet, auth, setAnswer, getAnswer)
      ensures value.None? ==>
                r == Authorized(auth, getAnswer) &&
                particle.requests == old(particle.requests) + GetRequests(auth)
      ensures value.Some? && Authorized(auth, setAnswer).Err? ==>
                r == Err(Authorized(auth, setAnswer).error) &&
                particle.requests == old(particle.requests) + SetRequests(value.value, auth)
      ensures value.Some? && Authorized(auth, setAnswer).Ok? && setAnswer.value != Failed && !forceGet ==>
                r == Ok(value.value) &&
                particle.requests == old(particle.requests) + SetRequests(value.value, auth)
      ensures value.Some? && Authorized(auth, setAnswer).Ok? && (setAnswer.value == Failed || forceGet) ==>
                r == Authorized(auth, getAnswer) &&
                particle.requests == old(particle.requests) + SetRequests(value.value, auth) + GetRequests(auth)
    {
      var newValue: Option<T> := None;
      if value.Some? {
        var code := Set(value.value, auth, setAnswer);
        if code.Err? {
          return Err(code.error);
        }
        if code.value != Failed {
          newValue := value;
        }
      }
      if forceGet || newValue.None? {
        r := Get(auth, getAnswer);
      } else {
        r := Ok(newValue.value);
      }
    }
  }

  /** The cloud's answers for one property: what `set<name>` returns and what the variable reads. */
  datatype Answers<T> = Answers(setAnswer: Result<int>, getAnswer: Result<T>)

  /** What `Promise.all` of three results gives: the first failure, else the three values. */
  function AllThree(color: Result<Color>, duration: Result<int>, pattern: Result<Pattern>): (r: Result<OnAirLightState>)
    ensures r.Ok? <==> color.Ok? && duration.Ok? && pattern.Ok?
    ensures r.Ok? ==> r.value == OnAirLightState(color.value, duration.value, pattern.value)
  {
    if color.Err? then Err(color.error)
    else if duration.Err? then Err(duration.error)
    else if pattern.Err? then Err(pattern.error)
    else Ok(OnAirLightState(color.value, duration.value, pattern.value))
  }

  class ParticleOnAirLightService {
    const particle: ParticleCloud
    const deviceId: string
    const color: ParticleProperty<Color>
    const duration: ParticleProperty<int>
    const pattern: ParticleProperty<Pattern>

    /** The three properties share the client and the device, and are named after their variables. */
    ghost predicate Wired() {
      color.particle == particle && duration.particle == particle && pattern.particle == particle &&
      color.deviceId == deviceId && duration.deviceId == deviceId && pattern.deviceId == deviceId &&
      color.propertyName == "color" && duration.propertyName == "duration" && pattern.propertyName == "pattern" &&
      (forall v :: color.toText(v) == ColorName(v)) && (forall v :: duration.toText(v) == IntToString(v)) &&
      (forall v :: pattern.toText(v) == PatternName(v))
    }

    constructor (particle: ParticleCloud, deviceId: string)
      ensures this.particle == particle && this.deviceId == deviceId
      ensures Wired()
    {
      this.particle := particle;
      this.deviceId := deviceId;
      color := new ParticleProperty(particle, deviceId, "color", ColorName);
      duration := new ParticleProperty(particle, deviceId, "duration", IntToString);
      pattern := new ParticleProperty(particle, deviceId, "pattern", PatternName);
    }

    /** `getState`: the three variables as read. */
    method GetState(auth: Result<string>, c: Result<Color>, d: Result<int>, p: Result<Pattern>)
      returns (r: Result<OnAirLightState>)
      requires Wired()
      modifies particle
      ensures r.Ok? <==> auth.Ok? && c.Ok? && d.Ok? && p.Ok?
      ensures r.Ok? ==> r.value == OnAirLightState(c.value, d.value, p.value)
      ensures auth.Ok? ==>
                particle.requests == old(particle.requests) +
                  [GetVariable(deviceId, "color", auth.value), GetVariable(deviceId, "duration", auth.value),
                   GetVariable(deviceId, "pattern", auth.value)]
    {
      var rc := color.Get(auth, c);
      var rd := duration.Get(auth, d);
      var rp := pattern.Get(auth, p);
      r := AllThree(rc, rd, rp);
    }

    /** `setState`: each given field is set; `color` is always read back, `duration` and
        `pattern` only when absent or when their set reports `failed`. */
    method SetState(state: PartialLightState, auth: Result<string>, c: Answers<Color>, d: Answers<int>, p: Answers<Pattern>)
      returns (r: Result<OnAirLightState>)
      requires Wired()
      modifies particle
      ensures r == AllThree(SetOrGetResult(state.color, true, auth, c.setAnswer, c.getAnswer),
                            SetOrGetResult(state.duration, false, auth, d.setAnswer, d.getAnswer),
                            SetOrGetResult(state.pattern, false, auth, p.setAnswer, p.getAnswer))
      ensures r.Ok? <==>
                && auth.Ok? && c.getAnswer.Ok?
                && (state.color.Some? ==> c.setAnswer.Ok?)
                && (state.duration.Some? ==> d.setAnswer.Ok?)
                && (state.duration.None? || (d.setAnswer.Ok? && d.setAnswer.value == Failed) ==> d.getAnswer.Ok?)
                && (state.pattern.Some? ==> p.setAnswer.Ok?)
                && (state.pattern.None? || (p.setAnswer.Ok? && p.setAnswer.value == Failed) ==> p.getAnswer.Ok?)
      ensures r.Ok? ==> auth.Ok? && c.getAnswer.Ok? && r.value.color == c.getAnswer.value
      ensures r.Ok? && state.duration.Some? && d.setAnswer.Ok? && d.setAnswer.value != Failed ==>
                r.value.duration == state.duration.value
      ensures r.Ok? && (state.duration.None? || (d.setAnswer.Ok? && d.setAnswer.value == Failed)) ==>
                d.getAnswer.Ok? && r.value.duration == d.getAnswer.value
      ensures r.Ok? && state.pattern.Some? && p.setAnswer.Ok? && p.setAnswer.value != Failed ==>
                r.value.pattern == state.pattern.value
      ensures r.Ok? && (state.pattern.None? || (p.setAnswer.Ok? && p.setAnswer.value == Failed)) ==>
                p.getAnswer.Ok? && r.value.pattern == p.getAnswer.value
      ensures r.Ok? && state.color.Some? ==>
                CallFunction(deviceId, "setcolor", ColorName(state.color.value), auth.value) in particle.requests
    {
      ghost var before := particle.requests;
      var rc := color.SetOrGet(state.color, true, auth, c.setAnswer, c.getAnswer);
      ghost var afterColor := particle.requests;
      var rd := duration.SetOrGet(state.duration, false, auth, d.setAnswer, d.getAnswer);
      ghost var afterDuration := particle.requests;
      var rp := pattern.SetOrGet(state.pattern, false, auth, p.setAnswer, p.getAnswer);
      r := AllThree(rc, rd, rp);
      if r.Ok? && state.color.Some? {
        var call := CallFunction(deviceId, "setcolor", ColorName(state.color.value), auth.value);
        assert auth.Ok?;
        assert "set" + color.propertyName == "setcolor";
        assert color.toText(state.color.value) == ColorName(state.color.value);
        assert color.SetRequests(state.color.value, auth) == [call];
        assert afterColor[|before|] == call;
        assert |afterColor| <= |afterDuration| <= |particle.requests|;
        assert afterDuration[..|afterColor|] == afterColor;
        assert particle.requests[..|afterDuration|] == afterDuration;
        assert particle.requests[|before|] == call;
      }
    }

    /** `checkHealth`: the state as read, or the error. */
    method CheckHealth(auth: Result<string>, c: Result<Color>, d: Result<int>, p: Result<Pattern>)
      returns (r: HealthCheckResult<OnAirLightState>)
      requires Wired()
      modifies particle
      ensures r.HealthCheckSuccess? <==> auth.Ok? && c.Ok? && d.Ok? && p.Ok?
      ensures r.HealthCheckSuccess? ==> r.data == OnAirLightState(c.value, d.value, p.value)
    {
      var state := GetState(auth, c, d, p);
      r := DoCheckHealth(state);
    }
  }
}

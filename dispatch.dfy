/**
 * `sendCommand` (wiz.go): the wire payload, its marshalling, and the
 * three-attempt send loop with its linear backoff.
 *
 * The network is an oracle: `net[i]` is what happens to attempt i (the dial
 * fails, the write fails, or the datagram is written). Sleeps go to a ghost log
 * in milliseconds.
 */
module Dispatch {
  import opened Results
  import Json

  /** A Go value held in the `map[string]interface{}` parameter bag. */
  datatype Param =
    | BoolParam(b: bool)
    | IntParam(i: int)
    | StringParam(s: string)
    | Unsupported  // a value json.Marshal refuses (a channel, a function, NaN)

  type Params = map<string, Param>

  /** `wizPayload`: a method name and its parameters. */
  datatype Payload = Payload(name: string, params: Params)

  datatype Attempt = DialFailed(cause: string) | WriteFailed(cause: string) | Written

  datatype SendError =
    | MarshalFailed
    | ConnectFailed(address: string, attempt: nat, cause: string)
    | SendFailed(address: string, attempt: nat, cause: string)

  const MaxAttempts: nat := 3
  const BackoffStepMs: nat := 100

  /** Parameters of `setState`. */
  function SetStateParams(state: bool): Params
  {
    map["state" := BoolParam(state)]
  }

  /** Parameters of `setPilot` for a colour at a dimming level. */
  function ColorParams(r: int, g: int, b: int, dimming: int): Params
  {
    map["r" := IntParam(r), "g" := IntParam(g), "b" := IntParam(b), "dimming" := IntParam(dimming)]
  }

  /** Parameters of `setPilot` for a dimming change alone. */
  function DimmingParams(dimming: int): Params
  {
    map["dimming" := IntParam(dimming)]
  }

  predicate Encodable(params: Params)
  {
    forall k :: k in params ==> !params[k].Unsupported?
  }

  function EncodeParam(p: Param): Json.Value
  {
    match p
    case BoolParam(b) => Json.Bool(b)
    case IntParam(i) => Json.Number(i)
    case StringParam(s) => Json.Str(s)
    case Unsupported => Json.Null
  }

  /** json.Marshal of a wizPayload: fails only on a parameter JSON cannot represent. */
  function Marshal(p: Payload): (r: Result<Json.Value, SendError>)
    ensures r.Ok? <==> Encodable(p.params)
    ensures r.Err? ==> r.error == MarshalFailed
  {
    if Encodable(p.params) then
      Ok(Json.Object(map["method" := Json.Str(p.name),
                         "params" := Json.Object(map k | k in p.params :: EncodeParam(p.params[k]))]))
    else Err(MarshalFailed)
  }

  /** The parameter bag carried by a marshalled payload, read back. */
  function DecodeParam(v: Json.Value): Param
  {
    match v
    case Bool(b) => BoolParam(b)
    case Number(i) => IntParam(i)
    case Str(s) => StringParam(s)
    case _ => Unsupported
  }

  /** What a device reads out of a datagram: the method and the parameters. */
  function Unmarshal(v: Json.Value): Option<Payload>
  {
    if v.Object? && "method" in v.fields && "params" in v.fields
       && v.fields["method"].Str? && v.fields["params"].Object?
    then
      var ps := v.fields["params"].fields;
      Some(Payload(v.fields["method"].s, map k | k in ps :: DecodeParam(ps[k])))
    else None
  }

  /** A marshalled payload carries exactly the method and the parameters it was built from. */
  lemma MarshalRoundTrip(p: Payload)
    requires Encodable(p.params)
    ensures Marshal(p).Ok? && Unmarshal(Marshal(p).value) == Some(p)
  {
    var v := Marshal(p).value;
    var ps := v.fields["params"].fields;
    var back := map k | k in ps :: DecodeParam(ps[k]);
    assert back.Keys == p.params.Keys;
    forall k | k in p.params ensures back[k] == p.params[k] {
      assert !p.params[k].Unsupported?;
    }
    assert back == p.params;
  }

  /** Every payload the program builds marshals without error. */
  lemma BuiltPayloadsEncode(name: string, state: bool, r: int, g: int, b: int, dimming: int)
    ensures Marshal(Payload(name, SetStateParams(state))).Ok?
    ensures Marshal(Payload(name, ColorParams(r, g, b, dimming))).Ok?
    ensures Marshal(Payload(name, DimmingParams(dimming))).Ok?
  {
  }

  /** `{"method":"setState","params":{"state":<state>}}`, the power command on the wire. */
  lemma SetStateWire(state: bool)
    ensures Marshal(Payload("setState", SetStateParams(state)))
      == Ok(Json.Object(map["method" := Json.Str("setState"),
                            "params" := Json.Object(map["state" := Json.Bool(state)])]))
  {
    var ps := SetStateParams(state);
    assert (map k | k in ps :: EncodeParam(ps[k])) == map["state" := Json.Bool(state)];
  }

  /** net.JoinHostPort: a host containing ':' is bracketed. */
  function JoinHostPort(host: string, port: string): (address: string)
    ensures |address| > |host| + |port|
    ensures address[|address| - |port|..] == port && address[|address| - |port| - 1] == ':'
    ensures ':' !in host ==> address[..|host|] == host && |address| == |host| + |port| + 1
    ensures ':' in host ==>
      |address| == |host| + |port| + 3 && address[0] == '[' && address[1..|host| + 1] == host && address[|host| + 1] == ']'
  {
    if ':' in host then "[" + host + "]:" + port else host + ":" + port
  }

  /** The error `sendCommand` records for a failed attempt (0-based index i, reported 1-based). */
  function AttemptError(address: string, i: nat, a: Attempt): SendError
    requires !a.Written?
  {
    match a
    case DialFailed(cause) => ConnectFailed(address, i + 1, cause)
    case WriteFailed(cause) => SendFailed(address, i + 1, cause)
  }

  /** Index of the first attempt, from i on, whose write succeeds; MaxAttempts when none does. */
  function FirstWritten(net: seq<Attempt>, i: nat := 0): (k: nat)
    requires i <= MaxAttempts <= |net|
    ensures i <= k <= MaxAttempts
    ensures k < MaxAttempts ==> net[k].Written?
    ensures forall j :: i <= j < k ==> !net[j].Written?
    decreases MaxAttempts - i
  {
    if i == MaxAttempts then MaxAttempts
    else if net[i].Written? then i
    else FirstWritten(net, i + 1)
  }

  /** Whether a send with these attempt outcomes delivers its datagram. */
  predicate Delivers(net: seq<Attempt>)
    requires MaxAttempts <= |net|
  {
    FirstWritten(net) < MaxAttempts
  }

  /** The sleeps after the first `failures` failed attempts: (i+1) * 100ms after attempt i, none after the last. */
  function BackoffLog(failures: nat): (log: seq<nat>)
    requires failures <= MaxAttempts
  {
    if failures == 0 then []
    else if failures == MaxAttempts then BackoffLog(failures - 1)
    else BackoffLog(failures - 1) + [failures * BackoffStepMs]
  }

  function Sum(s: seq<nat>): nat
  {
    if s == [] then 0 else Sum(s[..|s| - 1]) + s[|s| - 1]
  }

  /** The backoff is linear, not exponential: 100ms then 200ms, and 300ms in all when every attempt fails. */
  lemma BackoffSchedule()
    ensures BackoffLog(1) == [100]
    ensures BackoffLog(2) == [100, 200]
    ensures BackoffLog(MaxAttempts) == [100, 200]
    ensures Sum(BackoffLog(MaxAttempts)) == 300
  {
    assert [100, 200][..1] == [100];
  }

  lemma {:induction false} BackoffLogLinear(failures: nat)
    requires failures <= MaxAttempts
    ensures |BackoffLog(failures)| == if failures == MaxAttempts then MaxAttempts - 1 else failures
    ensures forall i :: 0 <= i < |BackoffLog(failures)| ==> BackoffLog(failures)[i] == (i + 1) * BackoffStepMs
  {
    if failures > 0 {
      BackoffLogLinear(failures - 1);
    }
  }

  /**
   * `sendCommand`: marshal once, then up to three dial/write attempts; return
   * nil on the first written datagram, otherwise the last attempt's error.
   */
  method SendCommand(ip: string, port: string, name: string, params: Params, net: seq<Attempt>)
    returns (err: Option<SendError>, ghost dials: nat, ghost sleeps: seq<nat>, ghost written: Option<Json.Value>)
    requires MaxAttempts <= |net|
    ensures !Encodable(params) ==> err == Some(MarshalFailed) && dials == 0 && sleeps == [] && written == None
    ensures Encodable(params) ==>
      var k := FirstWritten(net);
      && dials == (if k < MaxAttempts then k + 1 else MaxAttempts)
      && sleeps == BackoffLog(k)
      && (k < MaxAttempts ==> err == None && written == Some(Marshal(Payload(name, params)).value))
      && (k == MaxAttempts ==>
            written == None &&
            err == Some(AttemptError(JoinHostPort(ip, port), MaxAttempts - 1, net[MaxAttempts - 1])))
    ensures err.None? <==> Encodable(params) && Delivers(net)
  {
    dials, sleeps, written := 0, [], None;
    var data := Marshal(Payload(name, params));
    if data.Err? {
      return Some(MarshalFailed), dials, sleeps, written;
    }
    var address := JoinHostPort(ip, port);
    var lastErr: Option<SendError> := None;
    var attempt: nat := 0;
    while attempt < MaxAttempts
      invariant attempt <= MaxAttempts
      invariant forall j :: 0 <= j < attempt ==> !net[j].Written?
      invariant dials == attempt && written == None
      invariant sleeps == BackoffLog(attempt)
      invariant attempt > 0 ==> lastErr == Some(AttemptError(address, attempt - 1, net[attempt - 1]))
    {
      dials := dials + 1;
      match net[attempt] {
      case DialFailed(cause) =>
        lastErr := Some(ConnectFailed(address, attempt + 1, cause));
        if attempt < 2 {
          sleeps := sleeps + [(attempt + 1) * BackoffStepMs];
        }
      case WriteFailed(cause) =>
        lastErr := Some(SendFailed(address, attempt + 1, cause));
        if attempt < 2 {
          sleeps := sleeps + [(attempt + 1) * BackoffStepMs];
        }
      case Written =>
        written := Some(data.value);
        return None, dials, sleeps, written;
      }
      attempt := attempt + 1;
    }
    err := lastErr;
  }
}

/** The device client: token guard, request building, status dispatch and the per-endpoint decisions. */
module Client {
  import opened Wrappers
  import opened Errors
  import opened Json
  import opened Text
  import opened Models

  datatype Method = Get | Put | Post | Delete

  /** One HTTP request as `_request` hands it to the session. */
  datatype Request = Request(verb: Method, url: string, headers: map<string, string>, data: Option<map<string, Json>>)

  /** What the transport returns for one request: nothing (a timeout or a client error), or a response.
      `json` is what `json.loads` makes of the body, `None` when the body is not JSON. */
  datatype Reply = NoReply | Reply(status: int, body: string, json: Option<Json>)

  /** The client's state: the device address, the bearer token and the cached device description. */
  datatype Client = Client(host: string, token: Option<string>, device: Option<Device>)

  /** The outcome of one client call: its result, the client afterwards and the requests it sent. */
  datatype Call<T> = Call(result: Result<T, Error>, client: Client, sent: seq<Request>)

  // ---------------------------------------------------------------------------
  // _request
  // ---------------------------------------------------------------------------

  /** The request `_request` builds for `path`: https URL, JSON content type, bearer token when one is set. */
  function BuildRequest(c: Client, verb: Method, path: string, data: Option<map<string, Json>>): (r: Request)
    ensures r.verb == verb && r.data == data
    ensures StartsWith(r.url, "https://") && r.url[8..] == c.host + path
    ensures r.headers.Keys == if c.token.Some? then {"Content-Type", "Authorization"} else {"Content-Type"}
    ensures r.headers["Content-Type"] == "application/json"
    ensures c.token.Some? ==> r.headers["Authorization"] == "Bearer " + c.token.value
  {
    var base := map["Content-Type" := "application/json"];
    var headers := if c.token.Some? then base["Authorization" := "Bearer " + c.token.value] else base;
    Request(verb, "https://" + c.host + path, headers, data)
  }

  /** The status dispatch of `_request`: 401 and 404 raise, 204 has no body, anything else passes through. */
  function Dispatch(reply: Reply): (r: Result<(int, Option<string>), Error>)
    ensures reply.NoReply? ==> r == Err(RequestError)
    ensures reply.Reply? ==> (r == Err(UnauthorizedError) <==> reply.status == 401)
    ensures reply.Reply? ==> (r == Err(NotFoundError) <==> reply.status == 404)
    ensures reply.Reply? && reply.status == 204 ==> r == Ok((204, None))
    ensures reply.Reply? && reply.status != 204 && reply.status != 401 && reply.status != 404 ==>
      r == Ok((reply.status, Some(reply.body)))
  {
    match reply
    case NoReply => Err(RequestError)
    case Reply(status, body, _) =>
      if status == 401 then Err(UnauthorizedError)
      else if status == 204 then Ok((204, None))
      else if status == 404 then Err(NotFoundError)
      else Ok((status, Some(body)))
  }

  /** The exception raised after `json.loads(response).get("error", response)` extracts the error text. */
  function RaiseWithBody(body: Option<string>, json: Option<Json>, kind: Error): (e: Error)
    ensures body.None? ==> e == TypeError
    ensures body.Some? && json.None? ==> e == ValueError
    ensures body.Some? && json.Some? && json.value.JObj? ==> e == kind
    ensures body.Some? && json.Some? && !json.value.JObj? ==> e == AttributeError
  {
    if body.None? then TypeError
    else if json.None? then ValueError
    else if json.value.JObj? then kind
    else AttributeError
  }

  /** The `@authorized_method` guard followed by the capability check of the cached device. */
  function Precheck(c: Client, unsupported: Device -> bool): (r: Option<Error>)
    ensures c.token.None? ==> r == Some(UnauthorizedError)
    ensures c.token.Some? ==> (r == Some(UnsupportedError) <==> c.device.Some? && unsupported(c.device.value))
    ensures c.token.Some? && r != Some(UnsupportedError) ==> r.None?
  {
    if c.token.None? then Some(UnauthorizedError)
    else if c.device.Some? && unsupported(c.device.value) then Some(UnsupportedError)
    else None
  }

  // ---------------------------------------------------------------------------
  // device / measurement
  // ---------------------------------------------------------------------------

  /** `device(reset_cache)`: the cached description, or a fresh one fetched from `/api/info` and cached.
      `decoded` is what `Device.from_json` reads from the body before its post-deserialisation hook. */
  function FetchDevice(c: Client, resetCache: bool, reply: Reply, decoded: Option<Device>): (r: Call<Device>)
    ensures c.token.None? ==> r == Call(Err(UnauthorizedError), c, [])
    ensures c.token.Some? && c.device.Some? && !resetCache ==> r == Call(Ok(c.device.value), c, [])
    ensures c.token.Some? && (c.device.None? || resetCache) ==> r.sent == [BuildRequest(c, Get, "/api/info", None)]
    ensures r.result.Ok? ==> r.client == c.(device := Some(r.result.value))
    ensures r.result.Err? ==> r.client == c
    ensures r.result.Ok? && r.sent != [] ==> r.result.value.productModel in ApiConst.MODEL_TO_ID
    ensures c.token.Some? && (c.device.None? || resetCache) ==>
      (r.result.Ok? <==>
        Dispatch(reply).Ok? && Dispatch(reply).value.1.Some? && decoded.Some? && PostDeserialize(decoded.value).Ok?)
    ensures c.token.Some? && (c.device.None? || resetCache) && Dispatch(reply).Err? ==>
      r.result == Err(Dispatch(reply).error)
    ensures c.token.Some? && (c.device.None? || resetCache) && r.result.Ok? ==>
      r.result == PostDeserialize(decoded.value)
  {
    if c.token.None? then Call(Err(UnauthorizedError), c, [])
    else if c.device.Some? && !resetCache then Call(Ok(c.device.value), c, [])
    else
      var req := BuildRequest(c, Get, "/api/info", None);
      match Dispatch(reply)
      case Err(e) => Call(Err(e), c, [req])
      case Ok((_, body)) =>
        if body.None? || decoded.None? then Call(Err(DecodeError), c, [req])
        else
          match PostDeserialize(decoded.value)
          case Err(e) => Call(Err(e), c, [req])
          case Ok(d) => Call(Ok(d), c.(device := Some(d)), [req])
  }

  /** `measurement()`: the body of `/api/data`, which `Measurement.from_json` decodes. */
  function FetchMeasurement(c: Client, reply: Reply): (r: Call<Option<string>>)
    ensures c.token.None? ==> r == Call(Err(UnauthorizedError), c, [])
    ensures c.token.Some? ==> r.sent == [BuildRequest(c, Get, "/api/data", None)]
    ensures c.token.Some? ==> (r.result.Ok? <==> Dispatch(reply).Ok?)
    ensures c.token.Some? && Dispatch(reply).Err? ==> r.result == Err(Dispatch(reply).error)
    ensures r.result.Ok? ==> Dispatch(reply).Ok? && r.result.value == Dispatch(reply).value.1
    ensures r.client == c
  {
    if c.token.None? then Call(Err(UnauthorizedError), c, [])
    else
      var req := BuildRequest(c, Get, "/api/data", None);
      match Dispatch(reply)
      case Err(e) => Call(Err(e), c, [req])
      case Ok((_, body)) => Call(Ok(body), c, [req])
  }

  // ---------------------------------------------------------------------------
  // state / config: read, or partial update from keyword arguments
  // ---------------------------------------------------------------------------

  /** The fields of `StateUpdate`. */
  const STATE_UPDATE_FIELDS: set<string> :=
    {"power_on", "pwm_state", "relay1_state", "relay2_state", "current_heating_oil_volume"}

  /** The fields of `ConfigUpdate`. */
  const CONFIG_UPDATE_FIELDS: set<string> := {
    "switch_lock", "restore_state", "overload_protection",
    "mode", "max_temperature", "max_peak_power",
    "distance_offset", "tank_shape", "height_max", "tank_capacity", "tank_length", "tank_width",
    "tank_height", "tank_cylinder_radius", "tank_cylinder_height",
    "heating_oil_energy_density", "heating_oil_consumption_rate"
  }

  /** `{k: v for k, v in kwargs.items() if v is not None}`; a `None` argument is `None` here. */
  function DropNone(kwargs: map<string, Option<Json>>): (d: map<string, Json>)
    ensures forall k :: k in d <==> k in kwargs && kwargs[k].Some?
    ensures forall k :: k in d ==> d[k] == kwargs[k].value
  {
    map k | k in kwargs && kwargs[k].Some? :: kwargs[k].value
  }

  /** `any(k in valid_fields for k in kwargs)`: some argument names a field, whatever its value. */
  predicate NamesAField(kwargs: map<string, Option<Json>>, fields: set<string>) {
    exists k :: k in kwargs && k in fields
  }

  /** The shared body of `state(**kwargs)` and `config(**kwargs)`. */
  function ReadOrUpdate(c: Client, path: string, fields: set<string>, unsupported: Device -> bool,
                        kwargs: map<string, Option<Json>>, reply: Reply): (r: Call<Option<string>>)
    ensures r.client == c
    ensures Precheck(c, unsupported).Some? ==> r == Call(Err(Precheck(c, unsupported).value), c, [])
    ensures Precheck(c, unsupported).None? && kwargs != map[] && !NamesAField(kwargs, fields) ==>
      r == Call(Err(ValueError), c, [])
    ensures Precheck(c, unsupported).None? && kwargs != map[] && NamesAField(kwargs, fields) ==>
      r.sent == [BuildRequest(c, Put, path, Some(DropNone(kwargs)))]
    ensures Precheck(c, unsupported).None? && kwargs == map[] ==>
      r.sent == [BuildRequest(c, Get, path, None)]
    ensures r.result == Err(ValueError) ==> kwargs != map[] && !NamesAField(kwargs, fields)
    ensures r.result.Ok? <==>
      Precheck(c, unsupported).None? && (kwargs == map[] || NamesAField(kwargs, fields)) && Dispatch(reply).Ok?
    ensures r.result.Ok? ==> r.result.value == Dispatch(reply).value.1
  {
    match Precheck(c, unsupported)
    case Some(e) => Call(Err(e), c, [])
    case None =>
      if kwargs != map[] && !NamesAField(kwargs, fields) then Call(Err(ValueError), c, [])
      else
        var req := if kwargs != map[] then BuildRequest(c, Put, path, Some(DropNone(kwargs)))
                   else BuildRequest(c, Get, path, None);
        match Dispatch(reply)
        case Err(e) => Call(Err(e), c, [req])
        case Ok((_, body)) => Call(Ok(body), c, [req])
  }

  /** `state(**kwargs)`: read the state, or update it with the non-`None` arguments. */
  function State(c: Client, kwargs: map<string, Option<Json>>, reply: Reply): (r: Call<Option<string>>)
    ensures c.token.None? ==> r == Call(Err(UnauthorizedError), c, [])
    ensures c.token.Some? && c.device.Some? && !SupportsState(c.device.value) ==> r == Call(Err(UnsupportedError), c, [])
    ensures c.device.None? ==> r.result != Err(UnsupportedError)
    ensures r.result == Err(ValueError) <==>
      c.token.Some? && (c.device.None? || SupportsState(c.device.value))
      && kwargs != map[] && forall k :: k in kwargs ==> k !in STATE_UPDATE_FIELDS
    ensures r.sent != [] && kwargs != map[] ==>
      r.sent == [BuildRequest(c, Put, "/api/state", Some(DropNone(kwargs)))]
    ensures c.token.Some? && (c.device.None? || SupportsState(c.device.value)) && kwargs == map[] ==>
      r.sent == [BuildRequest(c, Get, "/api/state", None)]
    ensures c.token.Some? && (c.device.None? || SupportsState(c.device.value)) && NamesAField(kwargs, STATE_UPDATE_FIELDS) ==>
      r.sent == [BuildRequest(c, Put, "/api/state", Some(DropNone(kwargs)))]
    ensures r.result.Ok? <==>
      c.token.Some? && (c.device.None? || SupportsState(c.device.value))
      && (kwargs == map[] || NamesAField(kwargs, STATE_UPDATE_FIELDS)) && Dispatch(reply).Ok?
    ensures r.result.Ok? ==> r.result.value == Dispatch(reply).value.1
  {
    ReadOrUpdate(c, "/api/state", STATE_UPDATE_FIELDS, d => !SupportsState(d), kwargs, reply)
  }

  /** `config(**kwargs)`: read the configuration, or update it with the non-`None` arguments. */
  function Config(c: Client, kwargs: map<string, Option<Json>>, reply: Reply): (r: Call<Option<string>>)
    ensures c.token.None? ==> r == Call(Err(UnauthorizedError), c, [])
    ensures c.token.Some? && c.device.Some? && !SupportsConfig(c.device.value) ==> r == Call(Err(UnsupportedError), c, [])
    ensures c.device.None? ==> r.result != Err(UnsupportedError)
    ensures r.result == Err(ValueError) <==>
      c.token.Some? && (c.device.None? || SupportsConfig(c.device.value))
      && kwargs != map[] && forall k :: k in kwargs ==> k !in CONFIG_UPDATE_FIELDS
    ensures r.sent != [] && kwargs != map[] ==>
      r.sent == [BuildRequest(c, Put, "/api/config", Some(DropNone(kwargs)))]
    ensures c.token.Some? && (c.device.None? || SupportsConfig(c.device.value)) && kwargs == map[] ==>
      r.sent == [BuildRequest(c, Get, "/api/config", None)]
    ensures c.token.Some? && (c.device.None? || SupportsConfig(c.device.value)) && NamesAField(kwargs, CONFIG_UPDATE_FIELDS) ==>
      r.sent == [BuildRequest(c, Put, "/api/config", Some(DropNone(kwargs)))]
    ensures r.result.Ok? <==>
      c.token.Some? && (c.device.None? || SupportsConfig(c.device.value))
      && (kwargs == map[] || NamesAField(kwargs, CONFIG_UPDATE_FIELDS)) && Dispatch(reply).Ok?
    ensures r.result.Ok? ==> r.result.value == Dispatch(reply).value.1
  {
    ReadOrUpdate(c, "/api/config", CONFIG_UPDATE_FIELDS, d => !SupportsConfig(d), kwargs, reply)
  }

  /** Arguments that name no field still travel with a valid one, and a `None`-valued field
      passes validation while leaving the payload without it. */
  lemma UpdatePayloadKeepsUnknownKeys(c: Client, kwargs: map<string, Option<Json>>, reply: Reply, known: string, other: string)
    requires c.token.Some? && c.device.None?
    requires known in kwargs && known in STATE_UPDATE_FIELDS
    requires other in kwargs && kwargs[other].Some?
    ensures State(c, kwargs, reply).sent == [BuildRequest(c, Put, "/api/state", Some(DropNone(kwargs)))]
    ensures other in DropNone(kwargs)
    ensures kwargs[known].None? ==> known !in DropNone(kwargs)
  {
    assert NamesAField(kwargs, STATE_UPDATE_FIELDS);
  }

  // ---------------------------------------------------------------------------
  // system / identify / reboot / update
  // ---------------------------------------------------------------------------

  /** `system()`: the body of `/api/system`; any status but 200 raises. */
  function System(c: Client, reply: Reply): (r: Call<Option<string>>)
    ensures c.token.None? ==> r == Call(Err(UnauthorizedError), c, [])
    ensures c.token.Some? && c.device.Some? && !SupportsSystem(c.device.value) ==> r == Call(Err(UnsupportedError), c, [])
    ensures c.device.None? ==> r.result != Err(UnsupportedError)
    ensures r.result.Ok? ==> reply.Reply? && reply.status == 200 && r.result.value == Some(reply.body)
    ensures c.token.Some? && (c.device.None? || SupportsSystem(c.device.value)) ==>
      r.sent == [BuildRequest(c, Get, "/api/system", None)]
    ensures c.token.Some? && (c.device.None? || SupportsSystem(c.device.value)) && reply.Reply? && reply.status == 200 ==>
      r.result == Ok(Some(reply.body))
    ensures c.token.Some? && (c.device.None? || SupportsSystem(c.device.value)) && Dispatch(reply).Ok? && reply.status != 200 ==>
      r.result == Err(RaiseWithBody(Dispatch(reply).value.1, reply.json, RequestError))
    ensures c.token.Some? && (c.device.None? || SupportsSystem(c.device.value)) && Dispatch(reply).Err? ==>
      r.result == Err(Dispatch(reply).error)
    ensures r.client == c
  {
    match Precheck(c, d => !SupportsSystem(d))
    case Some(e) => Call(Err(e), c, [])
    case None =>
      var req := BuildRequest(c, Get, "/api/system", None);
      match Dispatch(reply)
      case Err(e) => Call(Err(e), c, [req])
      case Ok((status, body)) =>
        if status != 200 then Call(Err(RaiseWithBody(body, reply.json, RequestError)), c, [req])
        else Call(Ok(body), c, [req])
  }

  /** A bodiless command: `identify()` and `reboot()` share this shape. */
  function Command(c: Client, unsupported: Device -> bool, verb: Method, path: string,
                   data: Option<map<string, Json>>, reply: Reply): (r: Call<()>)
    ensures Precheck(c, unsupported).Some? ==> r == Call(Err(Precheck(c, unsupported).value), c, [])
    ensures Precheck(c, unsupported).None? ==> r.sent == [BuildRequest(c, verb, path, data)]
    ensures r.result.Ok? <==> Precheck(c, unsupported).None? && Dispatch(reply).Ok?
    ensures Precheck(c, unsupported).None? && Dispatch(reply).Err? ==> r.result == Err(Dispatch(reply).error)
    ensures r.client == c
  {
    match Precheck(c, unsupported)
    case Some(e) => Call(Err(e), c, [])
    case None =>
      var req := BuildRequest(c, verb, path, data);
      match Dispatch(reply)
      case Err(e) => Call(Err(e), c, [req])
      case Ok(_) => Call(Ok(()), c, [req])
  }

  /** `identify()` */
  function Identify(c: Client, reply: Reply): (r: Call<()>)
    ensures c.token.None? ==> r == Call(Err(UnauthorizedError), c, [])
    ensures c.token.Some? && c.device.Some? && !SupportsIdentify(c.device.value) ==> r == Call(Err(UnsupportedError), c, [])
    ensures c.device.None? ==> r.result != Err(UnsupportedError)
    ensures r.sent != [] ==> r.sent == [BuildRequest(c, Put, "/api/system/identify", None)]
    ensures c.token.Some? && (c.device.None? || SupportsIdentify(c.device.value)) ==>
      r.sent == [BuildRequest(c, Put, "/api/system/identify", None)]
    ensures r.result.Ok? <==> c.token.Some? && (c.device.None? || SupportsIdentify(c.device.value)) && Dispatch(reply).Ok?
    ensures c.token.Some? && (c.device.None? || SupportsIdentify(c.device.value)) && Dispatch(reply).Err? ==>
      r.result == Err(Dispatch(reply).error)
  {
    Command(c, d => !SupportsIdentify(d), Put, "/api/system/identify", None, reply)
  }

  /** `reboot()` */
  function Reboot(c: Client, reply: Reply): (r: Call<()>)
    ensures c.token.None? ==> r == Call(Err(UnauthorizedError), c, [])
    ensures c.token.Some? && c.device.Some? && !SupportsReboot(c.device.value) ==> r == Call(Err(UnsupportedError), c, [])
    ensures c.device.None? ==> r.result != Err(UnsupportedError)
    ensures r.sent != [] ==> r.sent == [BuildRequest(c, Put, "/api/system/reboot", None)]
    ensures c.token.Some? && (c.device.None? || SupportsReboot(c.device.value)) ==>
      r.sent == [BuildRequest(c, Put, "/api/system/reboot", None)]
    ensures r.result.Ok? <==> c.token.Some? && (c.device.None? || SupportsReboot(c.device.value)) && Dispatch(reply).Ok?
    ensures c.token.Some? && (c.device.None? || SupportsReboot(c.device.value)) && Dispatch(reply).Err? ==>
      r.result == Err(Dispatch(reply).error)
  {
    Command(c, d => !SupportsReboot(d), Put, "/api/system/reboot", None, reply)
  }

  /** The body of `update(fw_size, fw_signature)`: each argument present exactly when it is not `None`. */
  function UpdatePayload(fwSize: Option<int>, fwSignature: Option<string>): (d: map<string, Json>)
    ensures "fw_size" in d <==> fwSize.Some?
    ensures "fw_signature" in d <==> fwSignature.Some?
    ensures fwSize.Some? ==> d["fw_size"] == JNum(fwSize.value)
    ensures fwSignature.Some? ==> d["fw_signature"] == JStr(fwSignature.value)
    ensures d.Keys <= {"fw_size", "fw_signature"}
  {
    var d0: map<string, Json> := map[];
    var d1 := if fwSize.Some? then d0["fw_size" := JNum(fwSize.value)] else d0;
    if fwSignature.Some? then d1["fw_signature" := JStr(fwSignature.value)] else d1
  }

  /** `update(fw_size, fw_signature)`: switch the device into firmware update mode. */
  function Update(c: Client, fwSize: Option<int>, fwSignature: Option<string>, reply: Reply): (r: Call<()>)
    ensures c.token.None? ==> r == Call(Err(UnauthorizedError), c, [])
    ensures c.token.Some? && c.device.Some? && !SupportsUpdate(c.device.value) ==> r == Call(Err(UnsupportedError), c, [])
    ensures c.device.None? ==> r.result != Err(UnsupportedError)
    ensures r.sent != [] ==>
      r.sent == [BuildRequest(c, Post, "/api/system/firmware/update", Some(UpdatePayload(fwSize, fwSignature)))]
    ensures c.token.Some? && (c.device.None? || SupportsUpdate(c.device.value)) ==>
      r.sent == [BuildRequest(c, Post, "/api/system/firmware/update", Some(UpdatePayload(fwSize, fwSignature)))]
    ensures r.result.Ok? <==> c.token.Some? && (c.device.None? || SupportsUpdate(c.device.value)) && Dispatch(reply).Ok?
    ensures c.token.Some? && (c.device.None? || SupportsUpdate(c.device.value)) && Dispatch(reply).Err? ==>
      r.result == Err(Dispatch(reply).error)
  {
    Command(c, d => !SupportsUpdate(d), Post, "/api/system/firmware/update", Some(UpdatePayload(fwSize, fwSignature)), reply)
  }

  // ---------------------------------------------------------------------------
  // Token lifecycle
  // ---------------------------------------------------------------------------

  /** A body that is an object whose `token` is a string. */
  predicate HasToken(json: Option<Json>) {
    json.Some? && json.value.JObj? && "token" in json.value.fields && json.value.fields["token"].JStr?
  }

  /** A 200 or 201 answer carrying a token. */
  predicate TokenGranted(reply: Reply) {
    reply.Reply? && reply.status in {200, 201} && HasToken(reply.json)
  }

  /** What `Token.from_json` reads from a body: its `token` string. */
  function DecodeToken(json: Option<Json>): (r: Result<string, Error>)
    ensures r.Ok? ==>
      json.Some? && json.value.JObj? && "token" in json.value.fields && json.value.fields["token"] == JStr(r.value)
    ensures HasToken(json) ==> r.Ok?
    ensures json.None? ==> r == Err(DecodeError)
  {
    if json.None? then Err(DecodeError)
    else if json.value.JObj? && "token" in json.value.fields && json.value.fields["token"].JStr? then
      Ok(json.value.fields["token"].s)
    else Err(ResponseError)
  }

  /** `get_token(name)`: ask the device for a token for the client `local/<name>` and keep it. */
  function GetToken(c: Client, name: string, reply: Reply): (r: Call<string>)
    ensures r.sent == [BuildRequest(c, Post, "/api/authorization", Some(map["name" := JStr("local/" + name)]))]
    ensures reply.Reply? && reply.status == 403 ==> r.result == Err(UnauthorizedError)
    ensures reply.Reply? && reply.status !in {200, 201, 401, 403, 404} ==> r.result.Err? && r.result.error != UnauthorizedError
    ensures reply.Reply? && reply.status !in {200, 201, 204, 401, 403, 404} && reply.json.Some? && reply.json.value.JObj? ==>
      r.result == Err(InvalidUserNameError)
    ensures r.result.Ok? ==> reply.Reply? && reply.status in {200, 201} && r.client == c.(token := Some(r.result.value))
    ensures r.result.Ok? ==>
      reply.json.Some? && reply.json.value.JObj? && "token" in reply.json.value.fields
      && reply.json.value.fields["token"] == JStr(r.result.value)
    ensures TokenGranted(reply) ==>
      r.result == Ok(reply.json.value.fields["token"].s) && r.client == c.(token := Some(r.result.value))
    ensures r.result.Err? ==> r.client == c
  {
    var req := BuildRequest(c, Post, "/api/authorization", Some(map["name" := JStr("local/" + name)]));
    match Dispatch(reply)
    case Err(e) => Call(Err(e), c, [req])
    case Ok((status, body)) =>
      if status == 403 then Call(Err(UnauthorizedError), c, [req])
      else if status != 200 && status != 201 then Call(Err(RaiseWithBody(body, reply.json, InvalidUserNameError)), c, [req])
      else
        match DecodeToken(reply.json)
        case Err(e) => Call(Err(e), c, [req])
        case Ok(token) => Call(Ok(token), c.(token := Some(token)), [req])
  }

  /** `delete_token(name)`: revoke a client's token; revoking our own (`name` None) forgets it. */
  function DeleteToken(c: Client, name: Option<string>, reply: Reply): (r: Call<()>)
    ensures c.token.None? ==> r == Call(Err(UnauthorizedError), c, [])
    ensures c.token.Some? ==> r.sent == [BuildRequest(c, Delete, "/api/authorization",
      if name.Some? then Some(map["name" := JStr("local/" + name.value)]) else None)]
    ensures r.result.Ok? <==> c.token.Some? && reply.Reply? && reply.status == 200
    ensures r.result.Ok? && name.None? ==> r.client == c.(token := None)
    ensures r.result.Err? || name.Some? ==> r.client == c
  {
    if c.token.None? then Call(Err(UnauthorizedError), c, [])
    else
      var data := if name.Some? then Some(map["name" := JStr("local/" + name.value)]) else None;
      var req := BuildRequest(c, Delete, "/api/authorization", data);
      match Dispatch(reply)
      case Err(e) => Call(Err(e), c, [req])
      case Ok((status, body)) =>
        if status != 200 then Call(Err(RaiseWithBody(body, reply.json, RequestError)), c, [req])
        else Call(Ok(()), if name.None? then c.(token := None) else c, [req])
  }

  // ---------------------------------------------------------------------------
  // Properties across calls
  // ---------------------------------------------------------------------------

  /** A fetched device is cached: asking again without `reset_cache` returns it and sends nothing. */
  lemma DeviceIsCached(c: Client, reply: Reply, decoded: Option<Device>, reset: bool, reply2: Reply, decoded2: Option<Device>)
    requires FetchDevice(c, reset, reply, decoded).result.Ok?
    ensures var first := FetchDevice(c, reset, reply, decoded);
            var second := FetchDevice(first.client, false, reply2, decoded2);
            second == Call(first.result, first.client, [])
  {
  }

  /** After revoking its own token the client refuses every authorized call without contacting the device;
      a fresh token from `get_token` lets the calls through again. */
  lemma TokenLifecycle(c: Client, reply: Reply, name: string, reply2: Reply, reply3: Reply)
    requires DeleteToken(c, None, reply).result.Ok?
    ensures var c1 := DeleteToken(c, None, reply).client;
            && c1.token.None?
            && FetchMeasurement(c1, reply2) == Call(Err(UnauthorizedError), c1, [])
            && DeleteToken(c1, None, reply2) == Call(Err(UnauthorizedError), c1, [])
            && (GetToken(c1, name, reply2).result.Ok? ==>
                 FetchMeasurement(GetToken(c1, name, reply2).client, reply3).sent != [])
  {
  }
}

/** The HTTP JSON client: status handling of a request, normalisation of the response shape, and
    the lenient decoding of users, crops (hortalizas), measurements and sensors. The transport
    itself is a parameter: each operation receives the response the server gave. */
module HydroApi {
  import opened Wrappers
  import opened Text
  import opened Json

  datatype ApiUser = ApiUser(
    id: int,
    name: string,
    lastName: Option<string>,
    email: string,
    phonePrefix: Option<string>,
    phone: Option<string>,
    avatarUrl: Option<string>)

  datatype ApiHortaliza = ApiHortaliza(id: int, nombre: string)

  /** One row of the measurement log; a missing or non-numeric reading is `None`. */
  datatype ApiMedicion = ApiMedicion(
    ph: Option<real>,
    orp: Option<real>,
    waterTemp: Option<real>,
    airTemp: Option<real>,
    humidity: Option<real>,
    level: Option<real>,
    fecha: Option<string>)

  datatype ApiSensor = ApiSensor(
    id: int,
    nombre: string,
    codigo: Option<string>,
    tipo: Option<string>,
    unidad: Option<string>,
    descripcion: Option<string>)

  /** What a call into the client can throw. */
  datatype ApiError =
    | HttpError(code: int)   // `HttpException`: a status outside 200..299
    | TransportError         // the connection could not be opened, written or read
    | ParseError             // the tokenizer rejected the body

  /** What the server answered, or that it could not be reached. */
  datatype HttpResponse = Response(code: int, body: Body) | Unreachable

  predicate IsSuccess(code: int) {
    200 <= code <= 299
  }

  /** `request`: the body of a 2xx response; any other status raises `HttpException`. */
  function Request(resp: HttpResponse): (r: Result<Body, ApiError>)
    ensures r.Ok? <==> resp.Response? && IsSuccess(resp.code)
    ensures r.Ok? ==> r.value == resp.body
    ensures resp.Response? && !IsSuccess(resp.code) ==> r == Err(HttpError(resp.code))
    ensures resp.Unreachable? ==> r == Err(TransportError)
  {
    match resp
    case Unreachable => Err(TransportError)
    case Response(code, body) => if IsSuccess(code) then Ok(body) else Err(HttpError(code))
  }

  /** `firstObject`: the object itself, or the first element of an array when that is an object. */
  function FirstObject(body: Body): (r: Result<Option<Obj>, ApiError>)
    ensures body.Malformed? <==> r.Err?
    ensures body.Blank? ==> r == Ok(None)
    ensures body.Parsed? && body.value.JObject? ==> r == Ok(Some(body.value.fields))
    ensures body.Parsed? && body.value.JArray? ==>
      r == (if |body.value.items| > 0 && body.value.items[0].JObject?
            then Ok(Some(body.value.items[0].fields)) else Ok(None))
    ensures body.Parsed? && !body.value.JObject? && !body.value.JArray? ==> r == Ok(None)
  {
    match body
    case Blank => Ok(None)
    case Malformed => Err(ParseError)
    case Parsed(JObject(m)) => Ok(Some(m))
    case Parsed(JArray(xs)) => if |xs| > 0 && xs[0].JObject? then Ok(Some(xs[0].fields)) else Ok(None)
    case Parsed(_) => Ok(None)
  }

  /** The object elements of an array, in their original order (`optJSONObject` + `mapNotNull`). */
  function ObjectsOf(xs: seq<Json>): (r: seq<Obj>)
    ensures |r| <= |xs|
    ensures forall o :: o in r <==> JObject(o) in xs
    ensures (forall i :: 0 <= i < |xs| ==> xs[i].JObject?) ==>
      |r| == |xs| && forall i :: 0 <= i < |xs| ==> r[i] == xs[i].fields
  {
    if |xs| == 0 then []
    else
      var rest := ObjectsOf(xs[1..]);
      assert xs == [xs[0]] + xs[1..];
      if xs[0].JObject? then [xs[0].fields] + rest else rest
  }

  /** Filtering an array keeps the order of its parts: objects of `a` come before those of `b`. */
  lemma {:induction false} ObjectsOfAppend(a: seq<Json>, b: seq<Json>)
    ensures ObjectsOf(a + b) == ObjectsOf(a) + ObjectsOf(b)
  {
    if |a| > 0 {
      assert (a + b)[1..] == a[1..] + b;
      ObjectsOfAppend(a[1..], b);
    } else {
      assert a + b == b;
    }
  }

  /** `arrayOfObjects`: every object of an array, a lone object as a one-element list, and
      nothing for a blank body or any other value. */
  function ArrayOfObjects(body: Body): (r: Result<seq<Obj>, ApiError>)
    ensures body.Malformed? <==> r.Err?
    ensures body.Blank? ==> r == Ok([])
    ensures body.Parsed? && body.value.JObject? ==> r == Ok([body.value.fields])
    ensures body.Parsed? && body.value.JArray? ==> r == Ok(ObjectsOf(body.value.items))
    ensures body.Parsed? && body.value.JArray? ==> r.Ok? && forall o :: o in r.value <==> JObject(o) in body.value.items
    ensures body.Parsed? && !body.value.JObject? && !body.value.JArray? ==> r == Ok([])
  {
    match body
    case Blank => Ok([])
    case Malformed => Err(ParseError)
    case Parsed(JArray(xs)) => Ok(ObjectsOf(xs))
    case Parsed(JObject(m)) => Ok([m])
    case Parsed(_) => Ok([])
  }

  /** Whenever `firstObject` finds an object, it is the first of those `arrayOfObjects` returns. */
  lemma FirstObjectHeadsArrayOfObjects(body: Body)
    ensures FirstObject(body).Ok? <==> ArrayOfObjects(body).Ok?
    ensures FirstObject(body).Ok? && FirstObject(body).value.Some? ==>
      |ArrayOfObjects(body).value| > 0 && ArrayOfObjects(body).value[0] == FirstObject(body).value.value
  {
    if body.Parsed? && body.value.JArray? {
      var xs := body.value.items;
      if |xs| > 0 && xs[0].JObject? {
        ObjectsOfAppend([xs[0]], xs[1..]);
        assert [xs[0]] + xs[1..] == xs;
      }
    }
  }

  /** The request body `login` posts. */
  function LoginBody(email: string, password: string): (r: Json)
    ensures r.JObject? && r.fields.Keys == {"email", "password"}
    ensures r.fields["email"] == JString(email) && r.fields["password"] == JString(password)
  {
    JObject(map["email" := JString(email), "password" := JString(password)])
  }

  /** The object holding the user: `"user"` when present (it must be an object), else `"data"`
      when that is an object, else the root itself. */
  function UserObject(root: Obj): (r: Option<Obj>)
    ensures "user" in root ==> (r.Some? <==> root["user"].JObject?)
    ensures "user" in root && root["user"].JObject? ==> r == Some(root["user"].fields)
    ensures "user" !in root && "data" in root && root["data"].JObject? ==> r == Some(root["data"].fields)
    ensures "user" !in root && !("data" in root && root["data"].JObject?) ==> r == Some(root)
  {
    if "user" in root then
      (if root["user"].JObject? then Some(root["user"].fields) else None)
    else if "data" in root && root["data"].JObject? then Some(root["data"].fields)
    else Some(root)
  }

  /** `parseUserFromLoginJson`: `null` for a blank body, a body that is not a JSON object, a
      `"user"` that is not an object, or a blank email; otherwise the user, named by the first word
      of the trimmed name (the email's local part when that is blank). */
  function ParseUserFromLoginJson(body: Body, render: Json -> string): (r: Option<ApiUser>)
    ensures !(body.Parsed? && body.value.JObject?) ==> r.None?
    ensures body.Parsed? && body.value.JObject? ==>
      var u := UserObject(body.value.fields);
      && (r.Some? <==> u.Some? && !IsBlank(OptString(u.value, "email", "", render)))
      && (r.Some? ==> && r.value.id == OptInt(u.value, "id", 0)
                      && r.value.email == OptString(u.value, "email", "", render)
                      && r.value.avatarUrl == NullIfBlank(OptString(u.value, "avatar", "", render)))
    ensures r.Some? ==> !IsBlank(r.value.email)
    ensures r.Some? ==> r.value.phonePrefix.None? && r.value.phone.None?
    ensures r.Some? ==> r.value.avatarUrl.None? || !IsBlank(r.value.avatarUrl.value)
  {
    match body
    case Parsed(JObject(root)) =>
      (match UserObject(root)
       case None => None
       case Some(u) =>
         var id := OptInt(u, "id", 0);
         var rawName := OptString(u, "name", "", render);
         var email := OptString(u, "email", "", render);
         var avatar := OptString(u, "avatar", "", render);
         if IsBlank(email) then None
         else
           var (firstName, lastName) := SplitFirst(Trim(rawName), ' ');
           Some(ApiUser(
             id := id,
             name := if !IsBlank(firstName) then firstName else SubstringBefore(email, '@'),
             lastName := lastName,
             email := email,
             phonePrefix := None,
             phone := None,
             avatarUrl := NullIfBlank(avatar))))
    case _ => None
  }

  /** The name `parseUserFromLoginJson` gives: the first word of the trimmed name (a name with
      no space keeps its whole trimmed text and has no last name), or the email's local part
      exactly when the name is blank; the last name is the rest after the first space. */
  lemma LoginUserName(root: Obj, render: Json -> string)
    requires UserObject(root).Some?
    requires !IsBlank(OptString(UserObject(root).value, "email", "", render))
    ensures var u := UserObject(root).value;
      var user := ParseUserFromLoginJson(Parsed(JObject(root)), render);
      var trimmed := Trim(OptString(u, "name", "", render));
      var email := OptString(u, "email", "", render);
      && user.Some?
      && user.value.email == email
      && (IsBlank(trimmed) ==> user.value.name == SubstringBefore(email, '@') && user.value.lastName.None?)
      && (!IsBlank(trimmed) && user.value.lastName.None? ==> user.value.name == trimmed)
      && (user.value.lastName.Some? ==> trimmed == user.value.name + " " + user.value.lastName.value)
      && (!IsBlank(trimmed) ==> ' ' !in user.value.name)
  {
    var u := UserObject(root).value;
    var email := OptString(u, "email", "", render);
    var trimmed := Trim(OptString(u, "name", "", render));
    var parts := SplitFirst(trimmed, ' ');
    var name := if !IsBlank(parts.0) then parts.0 else SubstringBefore(email, '@');
    var user := ParseUserFromLoginJson(Parsed(JObject(root)), render);
    assert user == Some(ApiUser(OptInt(u, "id", 0), name, parts.1, email, None, None,
                                NullIfBlank(OptString(u, "avatar", "", render))));
    if !IsBlank(trimmed) {
      assert trimmed != [] && !IsWhitespace(trimmed[0]);
      assert parts.0 != [];
      assert parts.0[0] == trimmed[0];
      assert !IsBlank(parts.0);
    } else {
      assert IsBlank(parts.0) && parts.1.None?;
    }
  }

  /** A user object whose `avatar` is JSON null gets the four-letter text `null` as its avatar
      address, because the platform's `optString` renders null instead of falling back. */
  lemma NullAvatarReadsAsText(email: string, render: Json -> string)
    requires !IsBlank(email)
    ensures var root := map["email" := JString(email), "avatar" := JNull];
      var user := ParseUserFromLoginJson(Parsed(JObject(root)), render);
      user.Some? && user.value.avatarUrl == Some("null")
  {
    var root := map["email" := JString(email), "avatar" := JNull];
    assert UserObject(root) == Some(root);
    assert !IsBlank("null") by { assert !IsWhitespace("null"[0]); }
  }

  /** `login`: the user the server answers with, `null` for a status outside 200..299; a
      transport failure propagates as an exception. */
  function Login(resp: HttpResponse, render: Json -> string): (r: Result<Option<ApiUser>, ApiError>)
    ensures r.Err? <==> resp.Unreachable?
    ensures resp.Response? && !IsSuccess(resp.code) ==> r == Ok(None)
    ensures r.Ok? && r.value.Some? ==> Request(resp).Ok?
    ensures resp.Response? && IsSuccess(resp.code) ==> r == Ok(ParseUserFromLoginJson(resp.body, render))
  {
    match resp
    case Unreachable => Err(TransportError)
    case Response(code, body) =>
      if !IsSuccess(code) then Ok(None) else Ok(ParseUserFromLoginJson(body, render))
  }

  /** `getHortalizaActual`: the current crop, taking its id from `id_hortaliza`, else `id`, else 0,
      and `null` when the id is 0 or the name is blank. */
  function GetHortalizaActual(resp: HttpResponse, render: Json -> string): (r: Result<Option<ApiHortaliza>, ApiError>)
    ensures Request(resp).Err? ==> r == Err(Request(resp).error)
    ensures r.Ok? && r.value.Some? ==> r.value.value.id != 0 && !IsBlank(r.value.value.nombre)
    ensures r.Ok? && r.value.Some? ==> FirstObject(Request(resp).value).Ok?
    ensures Request(resp).Ok? && FirstObject(Request(resp).value).Err? ==> r == Err(ParseError)
    ensures Request(resp).Ok? && FirstObject(Request(resp).value) == Ok(None) ==> r == Ok(None)
    ensures Request(resp).Ok? && FirstObject(Request(resp).value).Ok? && FirstObject(Request(resp).value).value.Some? ==>
      var o := FirstObject(Request(resp).value).value.value;
      && r.Ok?
      && (r.value.Some? ==> r.value.value.nombre == OptString(o, "nombre", "", render))
  {
    var body :- Request(resp);
    var first :- FirstObject(body);
    match first
    case None => Ok(None)
    case Some(o) =>
      var id := OptInt(o, "id_hortaliza", OptInt(o, "id", 0));
      var name := OptString(o, "nombre", "", render);
      if id == 0 || IsBlank(name) then Ok(None) else Ok(Some(ApiHortaliza(id, name)))
  }

  /** The crop read from the object `firstObject` finds, whatever 2xx status and whether the
      body is that object or an array headed by it: `id_hortaliza` wins over `id`, and a result
      exists exactly when that id is non-zero and the name is not blank. An integer under either
      key is taken as is; a key present with another value reads as `Json.OptInt`'s contract
      says: a fraction truncated, text parsed, and null or a container giving the fallback. */
  lemma HortalizaFromObject(resp: HttpResponse, o: Obj, render: Json -> string)
    requires Request(resp).Ok? && FirstObject(Request(resp).value) == Ok(Some(o))
    ensures var id := if "id_hortaliza" in o && o["id_hortaliza"].JInt? then o["id_hortaliza"].i
                else if "id_hortaliza" !in o && "id" in o && o["id"].JInt? then o["id"].i
                else OptInt(o, "id_hortaliza", OptInt(o, "id", 0));
      && GetHortalizaActual(resp, render).Ok?
      && (GetHortalizaActual(resp, render).value.Some? <==> id != 0 && !IsBlank(OptString(o, "nombre", "", render)))
      && (GetHortalizaActual(resp, render).value.Some? ==>
            GetHortalizaActual(resp, render).value.value == ApiHortaliza(id, OptString(o, "nombre", "", render)))
  {
  }

  /** `cambiarHortaliza`: true exactly when the server answered with a 2xx status. */
  function CambiarHortaliza(resp: HttpResponse): (r: bool)
    ensures r <==> resp.Response? && IsSuccess(resp.code)
  {
    Request(resp).Ok?
  }

  /** One measurement row: `orp` comes from `orp_value` when that key is present at all, and
      otherwise from `ce_value`; a blank `fecha` is `None`. */
  function DecodeMedicion(o: Obj, render: Json -> string): (r: ApiMedicion)
    ensures r.ph == OptDouble(o, "ph_value")
    ensures "orp_value" in o ==> r.orp == OptDouble(o, "orp_value")
    ensures "orp_value" !in o ==> r.orp == OptDouble(o, "ce_value")
    ensures r.waterTemp == OptDouble(o, "tagua_value")
    ensures r.airTemp == OptDouble(o, "tam_value")
    ensures r.humidity == OptDouble(o, "hum_value")
    ensures r.level == OptDouble(o, "us_value")
    ensures r.fecha.None? <==> IsBlank(OptString(o, "fecha", "", render))
    ensures r.fecha == NullIfBlank(OptString(o, "fecha", "", render))
  {
    var ce := OptDouble(o, "ce_value");
    var orp := if "orp_value" in o then OptDouble(o, "orp_value") else ce;
    ApiMedicion(
      ph := OptDouble(o, "ph_value"),
      orp := orp,
      waterTemp := OptDouble(o, "tagua_value"),
      airTemp := OptDouble(o, "tam_value"),
      humidity := OptDouble(o, "hum_value"),
      level := OptDouble(o, "us_value"),
      fecha := NullIfBlank(OptString(o, "fecha", "", render)))
  }

  /** `getRegistroMediciones`: one row per object of the response, in order. */
  function GetRegistroMediciones(resp: HttpResponse, render: Json -> string): (r: Result<seq<ApiMedicion>, ApiError>)
    ensures Request(resp).Err? ==> r == Err(Request(resp).error)
    ensures Request(resp).Ok? ==> (r.Ok? <==> ArrayOfObjects(Request(resp).value).Ok?)
    ensures r.Ok? ==> var objs := ArrayOfObjects(Request(resp).value).value;
      |r.value| == |objs| && forall i :: 0 <= i < |objs| ==> r.value[i] == DecodeMedicion(objs[i], render)
  {
    var body :- Request(resp);
    var objs :- ArrayOfObjects(body);
    Ok(seq(|objs|, i requires 0 <= i < |objs| => DecodeMedicion(objs[i], render)))
  }

  /** A measurement row with no readings at all decodes to all-`None`, whatever its date. */
  lemma EmptyMedicion(fecha: string, render: Json -> string)
    ensures var r := DecodeMedicion(map["fecha" := JString(fecha)], render);
      && r.ph.None? && r.orp.None? && r.waterTemp.None? && r.airTemp.None? && r.humidity.None? && r.level.None?
      && (r.fecha.Some? <==> !IsBlank(fecha))
  {
  }

  /** One sensor: id from `id`, else `id_sensor`, else 0; name from `nombre`, else `name`, and
      `"Sensor <id>"` when blank; type, unit and description read the Spanish key when present and
      the English one otherwise; blank texts become `None`. */
  function DecodeSensor(o: Obj, render: Json -> string): (r: ApiSensor)
    ensures r.id == OptInt(o, "id", OptInt(o, "id_sensor", 0))
    ensures !IsBlank(r.nombre)
    ensures r.codigo == NullIfBlank(OptString(o, "codigo", "", render))
    ensures r.tipo == NullIfBlank(OptString(o, if "tipo" in o then "tipo" else "type", "", render))
    ensures r.unidad == NullIfBlank(OptString(o, if "unidad" in o then "unidad" else "unit", "", render))
    ensures r.descripcion == NullIfBlank(OptString(o, if "descripcion" in o then "descripcion" else "description", "", render))
  {
    var id := OptInt(o, "id", OptInt(o, "id_sensor", 0));
    var nombre := OptString(o, "nombre", OptString(o, "name", "", render), render);
    var codigo := NullIfBlank(OptString(o, "codigo", "", render));
    var tipo := NullIfBlank(if "tipo" in o then OptString(o, "tipo", "", render) else OptString(o, "type", "", render));
    var unidad := NullIfBlank(if "unidad" in o then OptString(o, "unidad", "", render) else OptString(o, "unit", "", render));
    var descripcion := NullIfBlank(if "descripcion" in o then OptString(o, "descripcion", "", render)
                                   else OptString(o, "description", "", render));
    var shown := if IsBlank(nombre) then "Sensor " + IntToDecimal(id) else nombre;
    assert IsBlank(nombre) ==> shown[0] == 'S';
    ApiSensor(id, shown, codigo, tipo, unidad, descripcion)
  }

  /** The sensor name: the non-blank name read from the object, or `"Sensor <id>"`. */
  lemma SensorName(o: Obj, render: Json -> string)
    ensures var nombre := OptString(o, "nombre", OptString(o, "name", "", render), render);
      var s := DecodeSensor(o, render);
      && (!IsBlank(nombre) ==> s.nombre == nombre)
      && (IsBlank(nombre) ==> s.nombre == "Sensor " + IntToDecimal(s.id))
  {
  }

  /** `getSensores`: one sensor per object of the response, in order. */
  function GetSensores(resp: HttpResponse, render: Json -> string): (r: Result<seq<ApiSensor>, ApiError>)
    ensures Request(resp).Err? ==> r == Err(Request(resp).error)
    ensures Request(resp).Ok? ==> (r.Ok? <==> ArrayOfObjects(Request(resp).value).Ok?)
    ensures r.Ok? ==> var objs := ArrayOfObjects(Request(resp).value).value;
      |r.value| == |objs| && forall i :: 0 <= i < |objs| ==> r.value[i] == DecodeSensor(objs[i], render)
    ensures r.Ok? ==> forall i :: 0 <= i < |r.value| ==> !IsBlank(r.value[i].nombre)
  {
    var body :- Request(resp);
    var objs :- ArrayOfObjects(body);
    Ok(seq(|objs|, i requires 0 <= i < |objs| => DecodeSensor(objs[i], render)))
  }
}

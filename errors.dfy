/** The error path of the REST-JSON protocol: extracting and sanitising the error
    code, choosing the modelled exception shape, and building the rejected
    service exception. */
module ServiceErrors {
  import opened Results
  import opened JsonValues
  import opened Text
  import opened Http

  const ErrorTypeHeader := "x-amzn-errortype"

  /** The namespace that prefixes the fully qualified shape ids in the case labels. */
  const Namespace := "com.amazonaws.elasticsearchservice#"

  // ---------------------------------------------------------------- error codes

  /** `sanitizeErrorCode`: drop everything from the first ':' on, then, when a '#'
      remains, keep the text between the first and the second '#'. */
  function SanitizeErrorCode(raw: string): (r: string)
    ensures ':' !in r && '#' !in r
    ensures ':' !in raw && '#' !in raw ==> r == raw
  {
    var clean := Before(raw, ':');
    if '#' in clean then Before(After(clean, '#'), '#') else clean
  }

  /** Sanitising is idempotent. */
  lemma SanitizeIdempotent(raw: string)
    ensures SanitizeErrorCode(SanitizeErrorCode(raw)) == SanitizeErrorCode(raw)
  {
  }

  /** The three forms a service writes an error type in all reduce to the shape
      name: `ns#Name`, `Name:uri` and `ns#Name:uri`. */
  lemma {:induction false} SanitizeStripsNamespaceAndUri(ns: string, name: string, uri: string)
    requires ':' !in ns && '#' !in ns && ':' !in name && '#' !in name
    ensures SanitizeErrorCode(ns + "#" + name) == name
    ensures SanitizeErrorCode(name + ":" + uri) == name
    ensures SanitizeErrorCode(ns + "#" + name + ":" + uri) == name
  {
    var qualified := ns + "#" + name;
    assert ':' !in qualified by {
      assert forall i :: 0 <= i < |qualified| ==> qualified[i] in ns || qualified[i] == '#' || qualified[i] in name;
    }
    SplitAtFirst(ns, '#', name);
    assert qualified == ns + ['#'] + name;
    SplitAtFirst(name, ':', uri);
    assert name + ":" + uri == name + [':'] + uri;
    SplitAtFirst(qualified, ':', uri);
    assert qualified + ":" + uri == qualified + [':'] + uri;
  }

  /** `sanitizeErrorCode` applied to a body property: a string, or a TypeError when
      the value has no string methods. */
  function SanitizeProperty(v: Json): (r: Result<string, TypeError>)
    ensures r.Ok? <==> v.Str?
    ensures v.Str? ==> r.value == SanitizeErrorCode(v.s)
  {
    if v.Str? then Ok(SanitizeErrorCode(v.s)) else Err(NotAString)
  }

  /** `loadRestJsonErrorCode`: the `x-amzn-errortype` header, matched ignoring
      case; else the body's `code`; else its `__type`; each sanitised; else "". */
  function LoadRestJsonErrorCode(h: Headers, data: Json): (r: Result<string, TypeError>)
    ensures r.Ok? ==> ':' !in r.value && '#' !in r.value
    ensures FindKeyIgnoringCase(h, ErrorTypeHeader).Some? ==> r.Ok?
    ensures FindKeyIgnoringCase(h, ErrorTypeHeader).None? && data.Null? ==> r == Err(NullPropertyRead)
    ensures (FindKeyIgnoringCase(h, ErrorTypeHeader).None? && !data.Null?
             && Get(data, "code").None? && Get(data, "__type").None?) ==> r == Ok("")
  {
    match FindKeyIgnoringCase(h, ErrorTypeHeader)
    case Some(i) => Ok(SanitizeErrorCode(h[i].1))
    case None =>
      if data.Null? then Err(NullPropertyRead)
      else match Get(data, "code")
        case Some(c) => SanitizeProperty(c)
        case None =>
          match Get(data, "__type")
          case Some(t) => SanitizeProperty(t)
          case None => Ok("")
  }

  /** The header is matched ignoring case, wherever it stands among the headers,
      and when present the body is not read. */
  lemma HeaderTakesPrecedence(h: Headers, i: nat, d1: Json, d2: Json)
    requires FindKeyIgnoringCase(h, ErrorTypeHeader) == Some(i)
    ensures LoadRestJsonErrorCode(h, d1) == Ok(SanitizeErrorCode(h[i].1))
    ensures LoadRestJsonErrorCode(h, d1) == LoadRestJsonErrorCode(h, d2)
  {
  }

  /** The header name is written in lower case, so it matches itself. */
  lemma ErrorTypeHeaderIsLowerCase()
    ensures Lower(ErrorTypeHeader) == ErrorTypeHeader
  {
    LowerOfLowerCase(ErrorTypeHeader);
  }

  /** Without the header, a string `code` in the body wins over `__type`. */
  lemma CodeShadowsType(h: Headers, fields: map<string, Json>, code: string, t: Json)
    requires FindKeyIgnoringCase(h, ErrorTypeHeader).None?
    ensures LoadRestJsonErrorCode(h, Obj(fields["code" := Str(code)]["__type" := t])) == Ok(SanitizeErrorCode(code))
  {
  }

  /** Without the header or a `code`, the body's `__type` is read. */
  lemma TypeReadWithoutCode(h: Headers, fields: map<string, Json>, t: string)
    requires FindKeyIgnoringCase(h, ErrorTypeHeader).None? && "code" !in fields
    ensures LoadRestJsonErrorCode(h, Obj(fields["__type" := Str(t)])) == Ok(SanitizeErrorCode(t))
  {
  }

  // ---------------------------------------------------------------- exception shapes

  datatype Fault = Client | Server

  function FaultText(f: Fault): Json {
    match f
    case Client => Str("client")
    case Server => Str("server")
  }

  /** The exception shapes of the service. */
  datatype ErrorShape =
    | AccessDeniedException
    | BaseException
    | ConflictException
    | DisabledOperationException
    | InternalException
    | InvalidPaginationTokenException
    | InvalidTypeException
    | LimitExceededException
    | ResourceAlreadyExistsException
    | ResourceNotFoundException
    | ValidationException

  /** The shape's name: its case label and the `name` its response carries. */
  function ShapeName(shape: ErrorShape): (n: string)
    ensures |n| > 0 && 'A' <= n[0] <= 'Z'
  {
    match shape
    case AccessDeniedException => "AccessDeniedException"
    case BaseException => "BaseException"
    case ConflictException => "ConflictException"
    case DisabledOperationException => "DisabledOperationException"
    case InternalException => "InternalException"
    case InvalidPaginationTokenException => "InvalidPaginationTokenException"
    case InvalidTypeException => "InvalidTypeException"
    case LimitExceededException => "LimitExceededException"
    case ResourceAlreadyExistsException => "ResourceAlreadyExistsException"
    case ResourceNotFoundException => "ResourceNotFoundException"
    case ValidationException => "ValidationException"
  }

  /** The `$fault` each shape declares. */
  function FaultOf(shape: ErrorShape): (f: Fault)
    ensures f == Server <==> shape == InternalException
  {
    if shape == InternalException then Server else Client
  }

  /** Some listed shape is named `code`. */
  predicate Lists(errors: seq<ErrorShape>, code: string) {
    exists e :: e in errors && ShapeName(e) == code
  }

  /** An object property that is `undefined` (absent here) reads as `Null` in an
      `||` chain. */
  function Prop(o: map<string, Json>, key: string): Json {
    if key in o then o[key] else Null
  }

  /** The object spread `...data` of a parsed body: its own properties. */
  function OwnFields(data: Json): map<string, Json> {
    if data.Obj? then data.fields else map[]
  }

  /** `deserializeAws_restJson1<Shape>Response`: the shape's name and fault, and the
      body's `message` when it is neither undefined nor null (left undefined
      otherwise). `$metadata` is carried beside the properties. */
  function ExceptionResponse(shape: ErrorShape, data: Json): (r: Result<map<string, Json>, TypeError>)
    ensures r.Err? <==> data.Null?
    ensures r.Ok? ==> r.value.Keys <= {"name", "$fault", "message"}
    ensures r.Ok? ==> Prop(r.value, "name") == Str(ShapeName(shape)) && Prop(r.value, "$fault") == FaultText(FaultOf(shape))
    ensures r.Ok? ==> ("message" in r.value <==> data.Obj? && "message" in data.fields && data.fields["message"] != Null)
    ensures r.Ok? && "message" in r.value ==> r.value["message"] == data.fields["message"]
  {
    if data.Null? then Err(NullPropertyRead)
    else
      var contents := map["name" := Str(ShapeName(shape)), "$fault" := FaultText(FaultOf(shape))];
      match Get(data, "message")
      case Some(m) => if m != Null then Ok(contents["message" := m]) else Ok(contents)
      case None => Ok(contents)
  }

  /** The `switch (errorCode)`: the first listed shape whose bare name or
      namespace-qualified id equals the code. */
  function Dispatch(errors: seq<ErrorShape>, code: string): (r: Option<ErrorShape>)
    ensures r.Some? ==> r.value in errors && (code == ShapeName(r.value) || code == Namespace + ShapeName(r.value))
    ensures r.None? ==> forall e :: e in errors ==> code != ShapeName(e) && code != Namespace + ShapeName(e)
  {
    if errors == [] then None
    else if code == ShapeName(errors[0]) || code == Namespace + ShapeName(errors[0]) then Some(errors[0])
    else
      assert forall e :: e in errors ==> e == errors[0] || e in errors[1..];
      Dispatch(errors[1..], code)
  }

  /** No qualified id is a bare code: the namespace ends in '#'. */
  lemma QualifiedIdHasHash(name: string)
    ensures '#' in Namespace + name
  {
    assert (Namespace + name)[|Namespace| - 1] == '#';
  }

  /** Codes from `loadRestJsonErrorCode` never contain '#', so the qualified case
      labels never match: a code selects a shape exactly when it is that shape's
      bare name. */
  lemma CodesSelectByBareName(errors: seq<ErrorShape>, code: string)
    requires '#' !in code
    ensures Dispatch(errors, code).Some? <==> Lists(errors, code)
    ensures Dispatch(errors, code).Some? ==> ShapeName(Dispatch(errors, code).value) == code
  {
    if Dispatch(errors, code).Some? {
      QualifiedIdHasHash(ShapeName(Dispatch(errors, code).value));
    }
  }

  /** A bare name and its namespace-qualified id select the same shape. */
  lemma {:induction false} BareAndQualifiedAgree(errors: seq<ErrorShape>, name: string)
    requires '#' !in name
    ensures Dispatch(errors, Namespace + name) == Dispatch(errors, name)
  {
    if errors != [] {
      var n := ShapeName(errors[0]);
      assert (Namespace + name)[0] == 'c';
      assert Namespace + name == Namespace + n <==> name == n by {
        if Namespace + name == Namespace + n {
          assert name == (Namespace + name)[|Namespace|..];
        }
      }
      BareAndQualifiedAgree(errors[1..], name);
    }
  }

  /** Each shape's name selects that shape, so names identify shapes. */
  lemma ShapeNamesDistinct(a: ErrorShape, b: ErrorShape)
    requires ShapeName(a) == ShapeName(b)
    ensures a == b
  {
    assert |ShapeName(a)| == |ShapeName(b)| && ShapeName(a)[0] == ShapeName(b)[0];
  }

  // ---------------------------------------------------------------- the rejection

  /** What an error deserialiser rejects with: a service exception (its properties
      and its metadata), or a TypeError thrown on the way. */
  datatype Rejection =
    | ServiceException(props: map<string, Json>, metadata: ResponseMetadata)
    | Thrown(error: TypeError)

  /** The rejection for an error response, stated outright. Known shapes carry the
      sanitised code as their name and their own fault, and their message falls
      back on the code. Anything else is a client fault that keeps the body's
      properties, is named after the raw body `code` or `Code` (else the sanitised
      code) and has the first truthy of `message`, `Message` and that name as its
      message. `Message` never survives. */
  function ErrorOutcome(errors: seq<ErrorShape>, output: HttpResponse): (r: Rejection)
    ensures r.ServiceException? ==> "name" in r.props && "message" in r.props && "$fault" in r.props
  {
    var data := ParseBody(output.body);
    match LoadRestJsonErrorCode(output.headers, data)
    case Err(e) => Thrown(e)
    case Ok(code) =>
      if data.Null? then Thrown(NullPropertyRead)
      else match Dispatch(errors, code)
        case Some(shape) => ServiceException(KnownShapeProps(shape, code, data), DeserializeMetadata(output))
        case None => ServiceException(DefaultProps(code, data), DeserializeMetadata(output))
  }

  /** The properties of a modelled shape's exception. */
  function KnownShapeProps(shape: ErrorShape, code: string, data: Json): map<string, Json>
  {
    map["name" := Str(code), "$fault" := FaultText(FaultOf(shape)),
        "message" := Or(GetOrNull(data, "message"), Str(code))]
  }

  /** The name an unmodelled error is given: the body's `code`, else its `Code`,
      else the sanitised code. */
  function RawName(code: string, data: Json): Json {
    Or(Or(GetOrNull(data, "code"), GetOrNull(data, "Code")), Str(code))
  }

  /** The properties of an unmodelled error. */
  function DefaultProps(code: string, data: Json): map<string, Json> {
    (OwnFields(data) - {"Message", "$metadata"})
      ["name" := Str(JsText(RawName(code, data)))]
      ["message" := Or(Or(GetOrNull(data, "message"), GetOrNull(data, "Message")), RawName(code, data))]
      ["$fault" := Str("client")]
  }

  /** `deserializeAws_restJson1<Operation>CommandError`, step by step: parse the
      body, load the code, build `response` by spreading and overriding, then
      settle `message` and delete `Message`. */
  method DeserializeError(errors: seq<ErrorShape>, output: HttpResponse) returns (rej: Rejection)
    ensures rej == ErrorOutcome(errors, output)
  {
    var body := ParseBody(output.body);
    var loaded := LoadRestJsonErrorCode(output.headers, body);
    if loaded.Err? {
      return Thrown(loaded.error);
    }
    var errorCode: Json := Str(loaded.value);
    var metadata := DeserializeMetadata(output);
    var response: map<string, Json>;
    var known := Dispatch(errors, loaded.value);
    if known.Some? {
      var contents := ExceptionResponse(known.value, body);
      if contents.Err? {
        return Thrown(contents.error);
      }
      response := contents.value;
      response := response["name" := errorCode];
      KnownShapeMessage(known.value, loaded.value, body);
    } else {
      if body.Null? {
        return Thrown(NullPropertyRead);
      }
      var parsedBody := body;
      errorCode := Or(Or(GetOrNull(parsedBody, "code"), GetOrNull(parsedBody, "Code")), errorCode);
      response := OwnFields(parsedBody) - {"$metadata"};
      response := response["name" := Str(JsText(errorCode))];
      response := response["message" := Or(Or(GetOrNull(parsedBody, "message"), GetOrNull(parsedBody, "Message")), errorCode)];
      response := response["$fault" := Str("client")];
      DefaultMessage(loaded.value, body);
    }
    var message := Or(Or(Prop(response, "message"), Prop(response, "Message")), errorCode);
    response := response["message" := message];
    response := response - {"Message"};
    return ServiceException(response, metadata);
  }

  /** For a modelled shape, the closing `message || Message || errorCode` step
      leaves the shape's message or, failing that, the code. */
  lemma KnownShapeMessage(shape: ErrorShape, code: string, data: Json)
    requires !data.Null?
    ensures var response := ExceptionResponse(shape, data).value["name" := Str(code)];
      var message := Or(Or(Prop(response, "message"), Prop(response, "Message")), Str(code));
      response["message" := message] - {"Message"} == KnownShapeProps(shape, code, data)
  {
    var response := ExceptionResponse(shape, data).value["name" := Str(code)];
    assert "Message" !in response;
    assert Prop(response, "message") == if GetOrNull(data, "message") == Null then Null else GetOrNull(data, "message");
  }

  /** For an unmodelled error, the closing step keeps the message already chosen
      and only removes `Message`. */
  lemma DefaultMessage(code: string, data: Json)
    requires !data.Null?
    ensures var response := (OwnFields(data) - {"$metadata"})
        ["name" := Str(JsText(RawName(code, data)))]
        ["message" := Or(Or(GetOrNull(data, "message"), GetOrNull(data, "Message")), RawName(code, data))]
        ["$fault" := Str("client")];
      var message := Or(Or(Prop(response, "message"), Prop(response, "Message")), RawName(code, data));
      response["message" := message] - {"Message"} == DefaultProps(code, data)
  {
  }

  // ---------------------------------------------------------------- properties

  /** Every service exception has a string name, a client or server fault, a
      message, no `Message`, and the response's metadata. */
  lemma ServiceExceptionShape(errors: seq<ErrorShape>, output: HttpResponse)
    ensures ErrorOutcome(errors, output).ServiceException? ==>
      var p := ErrorOutcome(errors, output).props;
      && "name" in p && p["name"].Str?
      && "$fault" in p && (p["$fault"] == Str("client") || p["$fault"] == Str("server"))
      && "message" in p
      && "Message" !in p
      && ErrorOutcome(errors, output).metadata == DeserializeMetadata(output)
  {
  }

  /** A TypeError is thrown exactly when the body parses to `null` or, without the
      header, its `code` (or, lacking that, `__type`) is not a string. */
  lemma ThrowsOnlyOnMalformedBodies(errors: seq<ErrorShape>, output: HttpResponse)
    ensures var data := ParseBody(output.body);
      ErrorOutcome(errors, output).Thrown? <==>
        data.Null?
        || (FindKeyIgnoringCase(output.headers, ErrorTypeHeader).None?
            && (if Get(data, "code").Some? then !data.fields["code"].Str?
                else Get(data, "__type").Some? && !data.fields["__type"].Str?))
  {
  }

  /** A listed shape named by the first error-type header, wherever it stands
      and in any of its written forms, yields that shape with its own fault, and its message falls back on the name. */
  lemma KnownShapeFromHeader(errors: seq<ErrorShape>, shape: ErrorShape, h: Headers, i: nat,
                             status: int, fields: map<string, Json>)
    requires shape in errors && FindKeyIgnoringCase(h, ErrorTypeHeader) == Some(i)
    requires SanitizeErrorCode(h[i].1) == ShapeName(shape)
    ensures var output := HttpResponse(status, h, JsonPayload(Obj(fields)));
      var r := ErrorOutcome(errors, output);
      && r.ServiceException?
      && r.props.Keys == {"name", "$fault", "message"}
      && r.props["name"] == Str(ShapeName(shape))
      && r.props["$fault"] == FaultText(FaultOf(shape))
      && r.props["message"] == Or(GetOrNull(Obj(fields), "message"), Str(ShapeName(shape)))
      && r.metadata == DeserializeMetadata(output)
  {
    var output := HttpResponse(status, h, JsonPayload(Obj(fields)));
    var props := KnownShapeProps(shape, ShapeName(shape), Obj(fields));
    assert ErrorOutcome(errors, output) == ServiceException(props, DeserializeMetadata(output)) by {
      HeaderSelectsShape(errors, shape, h, i, status, fields);
    }
    assert props.Keys == {"name", "$fault", "message"};
  }

  /** The dispatch step of `KnownShapeFromHeader`: the header's code selects the shape. */
  lemma HeaderSelectsShape(errors: seq<ErrorShape>, shape: ErrorShape, h: Headers, i: nat,
                           status: int, fields: map<string, Json>)
    requires shape in errors && FindKeyIgnoringCase(h, ErrorTypeHeader) == Some(i)
    requires SanitizeErrorCode(h[i].1) == ShapeName(shape)
    ensures var output := HttpResponse(status, h, JsonPayload(Obj(fields)));
      ErrorOutcome(errors, output)
      == ServiceException(KnownShapeProps(shape, ShapeName(shape), Obj(fields)), DeserializeMetadata(output))
  {
    var output := HttpResponse(status, h, JsonPayload(Obj(fields)));
    var code := ShapeName(shape);
    assert LoadRestJsonErrorCode(output.headers, ParseBody(output.body)) == Ok(code) by {
      HeaderTakesPrecedence(h, i, Obj(fields), Obj(fields));
    }
    assert Dispatch(errors, code) == Some(shape) by {
      CodesSelectByBareName(errors, code);
      ShapeNamesDistinct(Dispatch(errors, code).value, shape);
    }
  }

  /** An unlisted code keeps the body's other properties untouched. */
  lemma UnknownCodeKeepsBody(errors: seq<ErrorShape>, output: HttpResponse, key: string)
    requires ErrorOutcome(errors, output).ServiceException?
    requires !Lists(errors, LoadRestJsonErrorCode(output.headers, ParseBody(output.body)).value)
    requires key in OwnFields(ParseBody(output.body))
    requires key !in {"name", "message", "$fault", "$metadata", "Message"}
    ensures key in ErrorOutcome(errors, output).props
    ensures ErrorOutcome(errors, output).props[key] == OwnFields(ParseBody(output.body))[key]
  {
    CodesSelectByBareName(errors, LoadRestJsonErrorCode(output.headers, ParseBody(output.body)).value);
  }

  /** A body with `Code` and `message` and no error-type header: the lower-case
      `code` the loader reads is absent, so the sanitised code is empty and no
      shape matches; the exception is named after `Code`, keeps it, carries the
      body's message and is a client fault. */
  lemma CodeAndMessageInBody(errors: seq<ErrorShape>, status: int, code: string, message: string)
    requires code != "" && message != ""
    ensures var output := HttpResponse(status, [], JsonPayload(Obj(map["Code" := Str(code), "message" := Str(message)])));
      var r := ErrorOutcome(errors, output);
      && r.ServiceException?
      && r.props["name"] == Str(code)
      && r.props["message"] == Str(message)
      && r.props["$fault"] == Str("client")
      && "Code" in r.props && r.props["Code"] == Str(code)
  {
    var data := Obj(map["Code" := Str(code), "message" := Str(message)]);
    var output := HttpResponse(status, [], JsonPayload(data));
    assert LoadRestJsonErrorCode(output.headers, data) == Ok("");
    assert Dispatch(errors, "") == None by {
      CodesSelectByBareName(errors, "");
    }
    var props := DefaultProps("", data);
    assert ErrorOutcome(errors, output) == ServiceException(props, DeserializeMetadata(output));
    assert RawName("", data) == Str(code);
  }

  /** Without a listed shape the name is the body's raw `code`, not the sanitised
      code the switch compared: `ns#Name:uri` is dispatched as `Name` but reported
      whole. */
  lemma DefaultNameIsRawCode(errors: seq<ErrorShape>, status: int, ns: string, name: string, uri: string)
    requires ':' !in ns && '#' !in ns && ':' !in name && '#' !in name && !Lists(errors, name)
    ensures var raw := ns + "#" + name + ":" + uri;
      var output := HttpResponse(status, [], JsonPayload(Obj(map["code" := Str(raw)])));
      var r := ErrorOutcome(errors, output);
      && LoadRestJsonErrorCode(output.headers, ParseBody(output.body)) == Ok(name)
      && r.ServiceException?
      && r.props["name"] == Str(raw)
      && r.props["message"] == Str(raw)
  {
    var raw := ns + "#" + name + ":" + uri;
    var data := Obj(map["code" := Str(raw)]);
    var output := HttpResponse(status, [], JsonPayload(data));
    assert LoadRestJsonErrorCode(output.headers, data) == Ok(name) by {
      SanitizeStripsNamespaceAndUri(ns, name, uri);
    }
    assert Dispatch(errors, name) == None by {
      CodesSelectByBareName(errors, name);
    }
    var props := DefaultProps(name, data);
    assert props["name"] == Str(raw) && props["message"] == Str(raw) by {
      assert RawName(name, data) == Str(raw) by {
        assert |raw| > 0;
      }
      assert GetOrNull(data, "message") == Null && GetOrNull(data, "Message") == Null;
    }
    assert ErrorOutcome(errors, output) == ServiceException(props, DeserializeMetadata(output));
  }

  /** With no header, no code and no message anywhere, the message is the empty
      code: the fallback is "", not "UnknownError". */
  lemma EmptyCodeFallback(errors: seq<ErrorShape>, status: int)
    ensures var r := ErrorOutcome(errors, HttpResponse(status, [], EmptyPayload));
      && r.ServiceException?
      && r.props == map["name" := Str(""), "message" := Str(""), "$fault" := Str("client")]
  {
    CodesSelectByBareName(errors, "");
  }
}

/** The HTTP envelope seen by the protocol layer, response-metadata extraction,
    body parsing and the header-value test.

    Header maps are JavaScript objects, whose keys keep insertion order; they are
    modelled as a sequence of (name, value) pairs so that "the first key that
    matches" means what `Object.keys(...).find(...)` means. */
module Http {
  import opened Results
  import opened JsonValues
  import opened Text
  import opened Shapes

  type Headers = seq<(string, string)>

  predicate HasHeader(h: Headers, key: string) {
    exists i :: 0 <= i < |h| && h[i].0 == key
  }

  /** `headers[key]` with an exact key: the value of the first pair named `key`. */
  function Lookup(h: Headers, key: string): (r: Option<string>)
    ensures r.Some? <==> HasHeader(h, key)
    ensures r.Some? ==> exists i :: 0 <= i < |h| && h[i] == (key, r.value)
    decreases |h|
  {
    if h == [] then None
    else if h[0].0 == key then Some(h[0].1)
    else
      var r := Lookup(h[1..], key);
      assert r.Some? ==> exists i :: 0 < i < |h| && h[i] == (key, r.value) by {
        if r.Some? {
          var i :| 0 <= i < |h[1..]| && h[1..][i] == (key, r.value);
          assert h[i + 1] == (key, r.value);
        }
      }
      assert HasHeader(h[1..], key) ==> HasHeader(h, key) by {
        if HasHeader(h[1..], key) {
          var i :| 0 <= i < |h[1..]| && h[1..][i].0 == key;
          assert h[i + 1].0 == key;
        }
      }
      assert HasHeader(h, key) ==> HasHeader(h[1..], key) by {
        if HasHeader(h, key) {
          var i :| 0 <= i < |h| && h[i].0 == key;
          assert i > 0 && h[1..][i - 1].0 == key;
        }
      }
      r
  }

  /** `Object.keys(headers).find((k) => k.toLowerCase() === key.toLowerCase())`:
      the position of the first pair whose name matches `key` ignoring case. */
  function FindKeyIgnoringCase(h: Headers, key: string): (r: Option<nat>)
    ensures r.Some? ==> r.value < |h| && Lower(h[r.value].0) == Lower(key)
    ensures r.Some? ==> forall i :: 0 <= i < r.value ==> Lower(h[i].0) != Lower(key)
    ensures r.None? ==> forall i :: 0 <= i < |h| ==> Lower(h[i].0) != Lower(key)
    decreases |h|
  {
    if h == [] then None
    else if Lower(h[0].0) == Lower(key) then Some(0)
    else
      match FindKeyIgnoringCase(h[1..], key)
      case None => None
      case Some(i) => Some(i + 1)
  }

  /** The first header whose name matches ignoring case is the one found,
      whatever headers precede it. */
  lemma FirstMatchIsFound(h: Headers, key: string, i: nat)
    requires i < |h| && Lower(h[i].0) == Lower(key)
    requires forall j :: 0 <= j < i ==> Lower(h[j].0) != Lower(key)
    ensures FindKeyIgnoringCase(h, key) == Some(i)
  {
  }

  // ---------------------------------------------------------------- responses

  /** A response body: empty, or text that parsed to a JSON value. */
  datatype Payload = EmptyPayload | JsonPayload(value: Json)

  datatype HttpResponse = HttpResponse(statusCode: int, headers: Headers, body: Payload)

  /** `parseBody`: an empty body reads as `{}`. */
  function ParseBody(p: Payload): (j: Json)
    ensures p.EmptyPayload? ==> j == Obj(map[])
    ensures p.JsonPayload? ==> j == p.value
  {
    match p
    case EmptyPayload => Obj(map[])
    case JsonPayload(v) => v
  }

  datatype ResponseMetadata = ResponseMetadata(
    httpStatusCode: int,
    requestId: Option<string>,
    extendedRequestId: Option<string>,
    cfId: Option<string>)

  const RequestIdHeader := "x-amzn-requestid"
  const RequestIdHeaderAlt := "x-amzn-request-id"
  const ExtendedRequestIdHeader := "x-amz-id-2"
  const CfIdHeader := "x-amz-cf-id"

  /** `deserializeMetadata`: exact header names; the request id prefers
      `x-amzn-requestid` and falls back on `x-amzn-request-id` (`??`). */
  function DeserializeMetadata(r: HttpResponse): (m: ResponseMetadata)
    ensures m.httpStatusCode == r.statusCode
    ensures m.requestId.Some? <==> HasHeader(r.headers, RequestIdHeader) || HasHeader(r.headers, RequestIdHeaderAlt)
    ensures HasHeader(r.headers, RequestIdHeader) ==> m.requestId == Lookup(r.headers, RequestIdHeader)
    ensures !HasHeader(r.headers, RequestIdHeader) ==> m.requestId == Lookup(r.headers, RequestIdHeaderAlt)
    ensures m.extendedRequestId.Some? <==> HasHeader(r.headers, ExtendedRequestIdHeader)
    ensures m.cfId.Some? <==> HasHeader(r.headers, CfIdHeader)
    ensures m.extendedRequestId == Lookup(r.headers, ExtendedRequestIdHeader)
    ensures m.cfId == Lookup(r.headers, CfIdHeader)
  {
    var primary := Lookup(r.headers, RequestIdHeader);
    ResponseMetadata(
      r.statusCode,
      if primary.Some? then primary else Lookup(r.headers, RequestIdHeaderAlt),
      Lookup(r.headers, ExtendedRequestIdHeader),
      Lookup(r.headers, CfIdHeader))
  }

  /** Metadata depends on the status and the headers only, never on the body. */
  lemma MetadataIgnoresBody(r: HttpResponse, b: Payload)
    ensures DeserializeMetadata(r.(body := b)) == DeserializeMetadata(r)
  {
  }

  /** The metadata headers are matched exactly: a differently-cased request id
      header is not read. */
  lemma MetadataKeysAreCaseSensitive()
    ensures DeserializeMetadata(HttpResponse(200, [("X-Amzn-RequestId", "r1")], EmptyPayload)).requestId == None
  {
    var h: Headers := [("X-Amzn-RequestId", "r1")];
    assert h[0].0 != RequestIdHeader && h[0].0 != RequestIdHeaderAlt;
  }

  // ---------------------------------------------------------------- requests

  /** A query parameter value: a string, or the `null` a string member may carry. */
  datatype QueryValue = QueryNull | QueryText(text: string)

  /** The request body: absent (`let body: any;`), the explicit empty string, or
      the JSON object that `JSON.stringify` writes. */
  datatype RequestBody = NoBody | EmptyText | JsonText(json: Json)

  datatype HttpRequest = HttpRequest(
    verb: string,
    path: string,
    headers: map<string, string>,
    query: map<string, QueryValue>,
    body: RequestBody)

  // ---------------------------------------------------------------- header values

  /** The characters `Number(text)` skips around a number: JavaScript's
      WhiteSpace and LineTerminator characters. */
  predicate IsJsSpace(c: char) {
    || c == ' ' || c == '\t' || c == '\n' || c == '\r' || c == '\U{000B}' || c == '\U{000C}'
    || c == '\U{00A0}' || c == '\U{1680}' || ('\U{2000}' <= c <= '\U{200A}')
    || c == '\U{2028}' || c == '\U{2029}' || c == '\U{202F}' || c == '\U{205F}'
    || c == '\U{3000}' || c == '\U{FEFF}'
  }

  /** `s` without its leading and trailing whitespace. */
  function Trim(s: string): (r: string)
    ensures |r| <= |s|
    ensures r == [] || (!IsJsSpace(r[0]) && !IsJsSpace(r[|r| - 1]))
    decreases |s|
  {
    if s != [] && IsJsSpace(s[0]) then Trim(s[1..])
    else if s != [] && IsJsSpace(s[|s| - 1]) then Trim(s[..|s| - 1])
    else s
  }

  /** The digits of a decimal literal whose value is 0: zeros with at most one
      point, and at least one zero (`0`, `00`, `.0`, `0.`, `0.00`). */
  predicate ZeroMantissa(m: string) {
    && (forall i :: 0 <= i < |m| ==> m[i] == '0' || m[i] == '.')
    && '0' in m
    && ('.' in m ==> '.' !in After(m, '.'))
  }

  /** An exponent after `e`: an optional sign and at least one digit. */
  predicate ExponentDigits(e: string) {
    var d := if |e| > 0 && (e[0] == '+' || e[0] == '-') then e[1..] else e;
    |d| > 0 && forall i :: 0 <= i < |d| ==> '0' <= d[i] <= '9'
  }

  /** `Number(s) == 0` for a string: after trimming it is empty, a decimal
      literal with only zero digits (optional sign, point and exponent), or `0x`,
      `0o` or `0b` followed by zeros. Letters are compared in lower case, since
      the exponent and radix marks may be written either way. */
  predicate ZeroNumericText(s: string) {
    ZeroLiteral(Lower(Trim(s)))
  }

  /** The trimmed, lower-cased text of a numeric literal whose value is 0. */
  predicate ZeroLiteral(t: string) {
    || t == ""
    || (var u := if t[0] == '+' || t[0] == '-' then t[1..] else t;
        ZeroMantissa(Before(u, 'e')) && ('e' in u ==> ExponentDigits(After(u, 'e'))))
    || (|t| >= 3 && t[0] == '0' && (t[1] == 'x' || t[1] == 'o' || t[1] == 'b')
        && forall i :: 2 <= i < |t| ==> t[i] == '0')
  }

  /** `v == 0` under JavaScript's loose equality. A string is read as a number; an
      array is first joined into text; `null`, a date (compared through its text)
      and a plain object never equal 0. */
  predicate LooselyZero(v: Value)
    decreases v, 0
  {
    match v
    case VNum(n) => n == 0
    case VBool(b) => !b
    case VStr(s) => ZeroNumericText(s)
    case VList(xs) => |xs| == 0 || (|xs| == 1 && JoinsToZero(xs[0]))
    case _ => false
  }

  /** The text `join` writes for a lone array element reads as 0: `null` writes
      nothing, `false` writes "false", a nested array writes its own join. */
  predicate JoinsToZero(x: Value)
    decreases x, 1
  {
    match x
    case VNull => true
    case VBool(_) => false
    case VList(_) => LooselyZero(x)
    case _ => LooselyZero(x)
  }

  /** `isSerializableHeaderValue`: not undefined, null or "", and not of length or
      size loosely equal to 0. Strings and arrays carry their own `length`;
      objects only the `length`/`size` keys they hold. */
  predicate IsSerializableHeaderValue(v: Value)
    ensures IsSerializableHeaderValue(v) ==> v != VNull && v != VStr("") && v != VList([])
    ensures v.VObj? && "length" in v.fields && LooselyZero(v.fields["length"]) ==> !IsSerializableHeaderValue(v)
    ensures v.VObj? && "size" in v.fields && LooselyZero(v.fields["size"]) ==> !IsSerializableHeaderValue(v)
  {
    match v
    case VNull => false
    case VStr(s) => s != ""
    case VList(xs) => |xs| != 0
    case VObj(m) =>
      ("length" !in m || !LooselyZero(m["length"])) && ("size" !in m || !LooselyZero(m["size"]))
    case _ => true
  }

  /** Empty values are never serialised; every non-empty scalar is. */
  lemma SerializableHeaderValues(v: Value)
    ensures v == VNull || v == VStr("") || v == VList([]) ==> !IsSerializableHeaderValue(v)
    ensures v.VStr? && v.s != "" ==> IsSerializableHeaderValue(v)
    ensures v.VNum? || v.VBool? || v.VDate? ==> IsSerializableHeaderValue(v)
    ensures v == VObj(map["size" := VNum(0)]) ==> !IsSerializableHeaderValue(v)
  {
  }

  /** An object is serialisable exactly when neither its `length` nor its `size`
      property is loosely 0. */
  lemma ObjectSerializableIffSizesNonZero(m: map<string, Value>)
    ensures IsSerializableHeaderValue(VObj(m))
        <==> (forall k :: k in m && (k == "length" || k == "size") ==> !LooselyZero(m[k]))
  {
  }

  /** Trimming removes exactly the whitespace around the text. */
  lemma {:induction false} TrimSkipsSpaces(pre: string, t: string, post: string)
    requires forall i :: 0 <= i < |pre| ==> IsJsSpace(pre[i])
    requires forall i :: 0 <= i < |post| ==> IsJsSpace(post[i])
    requires t == [] || (!IsJsSpace(t[0]) && !IsJsSpace(t[|t| - 1]))
    requires t == [] ==> post == []
    ensures Trim(pre + t + post) == t
    decreases |pre| + |post|
  {
    var s := pre + t + post;
    if pre != [] {
      assert s[0] == pre[0];
      assert s[1..] == pre[1..] + t + post;
      TrimSkipsSpaces(pre[1..], t, post);
    } else if post != [] {
      assert s[0] == t[0];
      assert s[|s| - 1] == post[|post| - 1];
      assert s[..|s| - 1] == pre + t + post[..|post| - 1];
      TrimSkipsSpaces(pre, t, post[..|post| - 1]);
    } else {
      assert s == t;
    }
  }

  /** Whitespace around a number does not change whether it reads as 0. */
  lemma WhitespaceIgnored(pre: string, t: string, post: string)
    requires forall i :: 0 <= i < |pre| ==> IsJsSpace(pre[i])
    requires forall i :: 0 <= i < |post| ==> IsJsSpace(post[i])
    requires t != [] && !IsJsSpace(t[0]) && !IsJsSpace(t[|t| - 1])
    ensures ZeroNumericText(pre + t + post) <==> ZeroLiteral(Lower(t))
  {
    TrimSkipsSpaces(pre, t, post);
  }

  /** "0" reads as 0. */
  lemma ZeroText()
    ensures ZeroNumericText("0")
  {
    assert Trim("0") == "0";
    assert Lower("0") == "0";
    assert ZeroLiteral("0") by {
      assert Before("0", 'e') == "0" && "0"[0] == '0';
    }
  }

  /** "0.0" reads as 0: a decimal point among the zeros is allowed. */
  lemma PointZeroText()
    ensures ZeroNumericText("0.0")
  {
    assert Trim("0.0") == "0.0" by {
      assert "0.0"[0] == '0' && "0.0"[2] == '0';
    }
    assert Lower("0.0") == "0.0";
    assert ZeroMantissa("0.0") by {
      assert "0" + ['.'] + "0" == "0.0";
      SplitAtFirst("0", '.', "0");
      assert "0.0"[0] == '0';
    }
    assert ZeroLiteral("0.0") by {
      assert Before("0.0", 'e') == "0.0";
    }
  }

  /** "0x0", a hexadecimal literal, reads as 0. */
  lemma HexZeroText()
    ensures ZeroNumericText("0x0")
  {
    assert Trim("0x0") == "0x0";
    assert Lower("0x0") == "0x0";
    assert ZeroLiteral("0x0");
  }

  /** "1" does not read as 0. */
  lemma OneText()
    ensures !ZeroNumericText("1")
  {
    assert Trim("1") == "1";
    assert Lower("1") == "1";
    assert !ZeroLiteral("1") by {
      assert Before("1", 'e') == "1" && "1"[0] == '1';
    }
  }

  /** An object whose only property is `length` is serialisable exactly when
      that length is not loosely 0. */
  lemma LengthOnlyObject(x: Value)
    ensures IsSerializableHeaderValue(VObj(map["length" := x])) <==> !LooselyZero(x)
  {
    var m := map["length" := x];
    assert "length" in m && m["length"] == x && "size" !in m;
  }

  /** Loose comparison reads text: "0", "0.0", "0x0", "" and [0] equal 0. */
  lemma LooseZeroValues()
    ensures LooselyZero(VStr("0")) && LooselyZero(VStr("0.0")) && LooselyZero(VStr("0x0"))
    ensures LooselyZero(VStr("")) && LooselyZero(VList([VNum(0)]))
  {
    ZeroText();
    PointZeroText();
    HexZeroText();
    assert Trim("") == "" && Lower("") == "";
    assert JoinsToZero(VNum(0));
  }

  /** [false] (joined to the text "false") and "1" do not equal 0. */
  lemma LooseNonZeroValues()
    ensures !LooselyZero(VList([VBool(false)])) && !LooselyZero(VStr("1"))
  {
    OneText();
    assert !JoinsToZero(VBool(false));
  }

  /** An object whose `length` is the text "0" is not serialisable. */
  lemma TextLengthZero()
    ensures !IsSerializableHeaderValue(VObj(map["length" := VStr("0")]))
  {
    ZeroText();
    LengthOnlyObject(VStr("0"));
  }
}

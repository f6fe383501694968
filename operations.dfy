/** The generic shape of a REST-JSON operation's two halves: serialising the
    input into an HTTP request, and deserialising the HTTP response into an
    output or a rejection. Each generated `serializeAws_restJson1<Op>Command` and
    `deserializeAws_restJson1<Op>Command` is one instance of these, fixed by an
    operation descriptor. */
module RestJsonOperations {
  import opened Results
  import opened JsonValues
  import opened Text
  import opened Shapes
  import opened Http
  import opened ServiceErrors

  /** A query parameter: the input member it reads, the key it is sent under, and
      whether the member is numeric (sent as `member.toString()`). */
  datatype QueryParam = QueryParam(member: string, key: string, numeric: bool)

  /** How the request body is produced: left undefined, the empty string, or
      `JSON.stringify` of the listed input members. */
  datatype BodyKind = Undefined | Blank | JsonBody(members: map<string, Shape>)

  /** An output member read from the response body, in declaration order. */
  datatype Member = Member(name: string, shape: Shape)

  datatype Operation = Operation(
    verb: string,
    uri: string,
    labels: seq<string>,
    query: seq<QueryParam>,
    body: BodyKind,
    output: seq<Member>,
    errors: seq<ErrorShape>)

  predicate DistinctNames(ms: seq<Member>) {
    forall i, j :: 0 <= i < j < |ms| ==> ms[i].name != ms[j].name
  }

  /** What the generator guarantees of an operation: output members are declared
      once. */
  predicate WellFormed(op: Operation) {
    DistinctNames(op.output)
  }

  /** The structure shape of the operation's output. */
  function OutputShape(op: Operation): (sh: Shape)
    requires DistinctNames(op.output)
    ensures sh.SStruct?
    ensures forall i :: 0 <= i < |op.output| ==> op.output[i].name in sh.members && sh.members[op.output[i].name] == op.output[i].shape
    ensures forall k :: k in sh.members ==> exists i :: 0 <= i < |op.output| && op.output[i].name == k
  {
    SStruct(map m | m in op.output :: m.name := m.shape)
  }

  /** What the input's TypeScript type admits: labels are strings, query members
      strings or numbers as declared, body members of their shapes; any of them may
      be null, and an absent key is `undefined`. */
  predicate InputTyped(op: Operation, input: map<string, Value>) {
    && (forall l :: l in op.labels && l in input ==> input[l].VStr? || input[l] == VNull)
    && (forall p :: p in op.query && p.member in input ==>
          input[p.member] == VNull || (if p.numeric then input[p.member].VNum? else input[p.member].VStr?))
    && (op.body.JsonBody? ==> WellTyped(SStruct(op.body.members), VObj(input)))
  }

  // ---------------------------------------------------------------- labels

  /** Why a request could not be built. */
  datatype SerializeError =
    | MissingLabel(name: string)
    | EmptyLabel(name: string)
    | InputTypeError(error: TypeError)

  const NoValuePrefix := "No value provided for input HTTP label: "
  const EmptyValuePrefix := "Empty value provided for input HTTP label: "

  /** The message a thrown label error carries: which check failed, then the
      label's name and a full stop. (A TypeError keeps the runtime's own text.) */
  function LabelErrorMessage(e: SerializeError): (m: string)
    requires !e.InputTypeError?
    ensures e.MissingLabel? ==> |m| > |NoValuePrefix| && m[..|NoValuePrefix|] == NoValuePrefix
    ensures e.EmptyLabel? ==> |m| > |EmptyValuePrefix| && m[..|EmptyValuePrefix|] == EmptyValuePrefix
    ensures |m| > |e.name| && m[|m| - |e.name| - 1..] == e.name + "."
  {
    var prefix := if e.MissingLabel? then NoValuePrefix else EmptyValuePrefix;
    var m := prefix + e.name + ".";
    assert m[..|prefix|] == prefix;
    assert m[|m| - |e.name| - 1..] == e.name + ".";
    m
  }

  /** The placeholder a label occupies in the URI template. */
  function Placeholder(name: string): (p: string)
    ensures |p| == |name| + 2 && p[0] == '{'
  {
    "{" + name + "}"
  }

  /** A label can be substituted: defined, not null, and of positive length. */
  predicate LabelUsable(name: string, input: map<string, Value>) {
    name in input && input[name].VStr? && |input[name].s| > 0
  }

  /** One label's check and substitution: `{label}` (its first occurrence) is
      replaced by the encoded value. */
  function LabelStep(path: string, name: string, input: map<string, Value>, encode: string -> string)
    : (r: Result<string, SerializeError>)
    ensures r.Ok? <==> LabelUsable(name, input)
    ensures name !in input ==> r == Err(MissingLabel(name))
    ensures name in input && input[name].VStr? && input[name].s == "" ==> r == Err(EmptyLabel(name))
    ensures name in input && input[name] == VNull ==> r == Err(InputTypeError(NullPropertyRead))
  {
    if name !in input then Err(MissingLabel(name))
    else match input[name]
      case VStr(s) =>
        if |s| <= 0 then Err(EmptyLabel(name))
        else Ok(ReplaceFirst(path, Placeholder(name), encode(s)))
      case _ => Err(InputTypeError(NullPropertyRead))
  }

  /** The labels checked and substituted in order; the first failure is thrown. */
  function ResolvePath(path: string, labels: seq<string>, input: map<string, Value>, encode: string -> string)
    : Result<string, SerializeError>
    decreases |labels|
  {
    if labels == [] then Ok(path)
    else
      match LabelStep(path, labels[0], input, encode)
      case Err(e) => Err(e)
      case Ok(next) => ResolvePath(next, labels[1..], input, encode)
  }

  /** Path resolution fails exactly when some label is unusable, and then with the
      error of the first unusable label. */
  lemma {:induction false} ResolvePathFailsAtFirstBadLabel(path: string, labels: seq<string>,
                                                           input: map<string, Value>, encode: string -> string)
    ensures ResolvePath(path, labels, input, encode).Ok? <==> forall l :: l in labels ==> LabelUsable(l, input)
    ensures ResolvePath(path, labels, input, encode).Err? ==>
      exists j :: 0 <= j < |labels|
        && (forall i :: 0 <= i < j ==> LabelUsable(labels[i], input))
        && !LabelUsable(labels[j], input)
        && Err(ResolvePath(path, labels, input, encode).error) == LabelStep(path, labels[j], input, encode)
    decreases |labels|
  {
    if labels != [] {
      var step := LabelStep(path, labels[0], input, encode);
      if step.Ok? {
        ResolvePathFailsAtFirstBadLabel(step.value, labels[1..], input, encode);
        assert forall l :: l in labels ==> l == labels[0] || l in labels[1..];
        var r := ResolvePath(path, labels, input, encode);
        if r.Err? {
          var j :| 0 <= j < |labels[1..]|
            && (forall i :: 0 <= i < j ==> LabelUsable(labels[1..][i], input))
            && !LabelUsable(labels[1..][j], input)
            && Err(r.error) == LabelStep(step.value, labels[1..][j], input, encode);
          assert Err(r.error) == LabelStep(path, labels[j + 1], input, encode);
          assert forall i :: 0 <= i < j + 1 ==> LabelUsable(labels[i], input);
        }
      } else {
        assert !LabelUsable(labels[0], input);
      }
    }
  }

  /** With a usable value, a label placeholder that first occurs after a brace-free
      prefix is replaced by the encoded value, whose `$` patterns `replace` expands;
      an encoded value without `$` is inserted as it is. */
  lemma SubstituteLabel(pre: string, name: string, post: string, input: map<string, Value>,
                        encode: string -> string)
    requires '{' !in pre && LabelUsable(name, input)
    ensures LabelStep(pre + Placeholder(name) + post, name, input, encode)
         == Ok(pre + Expand(encode(input[name].s), Placeholder(name), pre, post) + post)
    ensures '$' !in encode(input[name].s) ==>
      LabelStep(pre + Placeholder(name) + post, name, input, encode) == Ok(pre + encode(input[name].s) + post)
  {
    var pat := Placeholder(name);
    ReplaceFirstAfter(pre, pat, post, encode(input[name].s));
  }

  /** A template with one placeholder after a brace-free prefix resolves to the
      prefix, the encoded value and the rest, when the encoded value has no `$`. */
  lemma OneLabelPath(pre: string, a: string, post: string, input: map<string, Value>, encode: string -> string)
    requires '{' !in pre && LabelUsable(a, input) && '$' !in encode(input[a].s)
    ensures ResolvePath(pre + Placeholder(a) + post, [a], input, encode) == Ok(pre + encode(input[a].s) + post)
  {
    SubstituteLabel(pre, a, post, input, encode);
    assert [a][1..] == [];
  }

  /** Two placeholders, each after brace-free text, resolve in order as long as the
      first encoded value brings no '{' of its own and neither brings a `$`. */
  lemma TwoLabelPath(pre: string, a: string, mid: string, b: string, post: string,
                     input: map<string, Value>, encode: string -> string)
    requires '{' !in pre && '{' !in mid && LabelUsable(a, input) && LabelUsable(b, input)
    requires '{' !in encode(input[a].s) && '$' !in encode(input[a].s) && '$' !in encode(input[b].s)
    ensures ResolvePath(pre + Placeholder(a) + mid + Placeholder(b) + post, [a, b], input, encode)
         == Ok(pre + encode(input[a].s) + mid + encode(input[b].s) + post)
  {
    var ea := encode(input[a].s);
    var rest := mid + Placeholder(b) + post;
    assert pre + Placeholder(a) + mid + Placeholder(b) + post == pre + Placeholder(a) + rest;
    SubstituteLabel(pre, a, rest, input, encode);
    var pre2 := pre + ea + mid;
    assert '{' !in pre2;
    assert pre + ea + rest == pre2 + Placeholder(b) + post;
    OneLabelPath(pre2, b, post, input, encode);
    assert [a, b][1..] == [b];
  }

  // ---------------------------------------------------------------- query and body

  /** One query parameter: omitted when its member is undefined; a number is
      stringified (null cannot be); a string, or null, is passed as is. */
  function QueryEntry(p: QueryParam, input: map<string, Value>): (r: Result<Option<QueryValue>, TypeError>)
    ensures r.Ok? && r.value.None? <==> p.member !in input
    ensures r.Err? <==> p.member in input && p.numeric && !input[p.member].VNum?
  {
    if p.member !in input then Ok(None)
    else if p.numeric then
      match input[p.member]
      case VNum(n) => Ok(Some(QueryText(IntToString(n))))
      case _ => Err(NullPropertyRead)
    else
      match input[p.member]
      case VStr(s) => Ok(Some(QueryText(s)))
      case _ => Ok(Some(QueryNull))
  }

  /** The `query` object: one key per defined member. */
  function BuildQuery(ps: seq<QueryParam>, input: map<string, Value>): (r: Result<map<string, QueryValue>, TypeError>)
    ensures r.Ok? ==> forall k :: k in r.value ==> exists p :: p in ps && p.key == k && p.member in input
    decreases |ps|
  {
    if ps == [] then Ok(map[])
    else
      var entry :- QueryEntry(ps[0], input);
      var rest :- BuildQuery(ps[1..], input);
      if entry.Some? then Ok(rest[ps[0].key := entry.value]) else Ok(rest)
  }

  predicate DistinctKeys(ps: seq<QueryParam>) {
    forall i, j :: 0 <= i < j < |ps| ==> ps[i].key != ps[j].key
  }

  /** A query key is present exactly when its member is defined (null included);
      a number is sent as its decimal text, which reads back as the number. */
  lemma {:induction false} QueryKeysFollowDefinedMembers(ps: seq<QueryParam>, input: map<string, Value>, i: nat)
    requires DistinctKeys(ps) && i < |ps| && BuildQuery(ps, input).Ok?
    ensures ps[i].key in BuildQuery(ps, input).value <==> ps[i].member in input
    ensures ps[i].member in input && ps[i].numeric ==>
      input[ps[i].member].VNum?
      && BuildQuery(ps, input).value[ps[i].key] == QueryText(IntToString(input[ps[i].member].n))
      && ParseInt(BuildQuery(ps, input).value[ps[i].key].text) == input[ps[i].member].n
    ensures ps[i].member in input && !ps[i].numeric ==>
      BuildQuery(ps, input).value[ps[i].key] == (if input[ps[i].member].VStr? then QueryText(input[ps[i].member].s) else QueryNull)
    decreases |ps|
  {
    var rest := BuildQuery(ps[1..], input);
    assert rest.Ok?;
    if i == 0 {
      assert forall k :: k in rest.value ==> k != ps[0].key by {
        forall k | k in rest.value ensures k != ps[0].key {
          var p :| p in ps[1..] && p.key == k && p.member in input;
          var j :| 0 <= j < |ps[1..]| && ps[1..][j] == p;
          assert ps[j + 1].key == k;
        }
      }
      if ps[0].member in input && ps[0].numeric {
        IntToStringRoundTrip(input[ps[0].member].n);
      }
    } else {
      assert DistinctKeys(ps[1..]);
      QueryKeysFollowDefinedMembers(ps[1..], input, i - 1);
      assert ps[1..][i - 1] == ps[i];
    }
  }

  /** A numeric member that is null cannot be stringified. */
  lemma NullNumberThrows(ps: seq<QueryParam>, input: map<string, Value>, i: nat)
    requires i < |ps| && ps[i].numeric && ps[i].member in input && input[ps[i].member] == VNull
    ensures BuildQuery(ps, input) == Err(NullPropertyRead)
  {
    QueryThrowsIfSomeEntryThrows(ps, input, i);
  }

  lemma {:induction false} QueryThrowsIfSomeEntryThrows(ps: seq<QueryParam>, input: map<string, Value>, i: nat)
    requires i < |ps| && QueryEntry(ps[i], input).Err?
    ensures BuildQuery(ps, input) == Err(NullPropertyRead)
    decreases |ps|
  {
    if i > 0 && QueryEntry(ps[0], input).Ok? {
      assert ps[1..][i - 1] == ps[i];
      QueryThrowsIfSomeEntryThrows(ps[1..], input, i - 1);
    }
  }

  /** The body the operation sends. */
  function BuildBody(kind: BodyKind, input: map<string, Value>): (b: RequestBody)
    requires kind.JsonBody? ==> WellTyped(SStruct(kind.members), VObj(input))
    ensures kind.Undefined? <==> b.NoBody?
    ensures kind.Blank? <==> b.EmptyText?
    ensures kind.JsonBody? ==>
      (b.JsonText? && b.json.Obj?
       && forall k :: k in b.json.fields <==> k in kind.members && k in input && input[k] != VNull)
  {
    match kind
    case Undefined => NoBody
    case Blank => EmptyText
    case JsonBody(ms) =>
      var j := Serialize(SStruct(ms), VObj(input));
      assert forall k :: k in j.fields <==> k in ms && k in input && input[k] != VNull by {
        forall k ensures k in j.fields <==> k in ms && k in input && input[k] != VNull {
          StructEmitsDefinedMembers(ms, VObj(input), k);
        }
      }
      JsonText(j)
  }

  /** Only an operation with a JSON body declares its content type. */
  function RequestHeaders(kind: BodyKind): (h: map<string, string>)
    ensures kind.JsonBody? ==> h == map["content-type" := "application/json"]
    ensures !kind.JsonBody? ==> h == map[]
  {
    if kind.JsonBody? then map["content-type" := "application/json"] else map[]
  }

  /** The request the operation's serialiser builds, or the error it throws. */
  function BuildRequest(op: Operation, input: map<string, Value>, encode: string -> string)
    : (r: Result<HttpRequest, SerializeError>)
    requires InputTyped(op, input)
    ensures r.Ok? ==> r.value.verb == op.verb && r.value.headers == RequestHeaders(op.body)
    ensures r.Ok? ==> Ok(r.value.path) == ResolvePath(op.uri, op.labels, input, encode)
    ensures r.Ok? ==> Ok(r.value.query) == BuildQuery(op.query, input)
    ensures r.Ok? ==> r.value.body == BuildBody(op.body, input)
    ensures r.Ok? <==> ResolvePath(op.uri, op.labels, input, encode).Ok? && BuildQuery(op.query, input).Ok?
    ensures ResolvePath(op.uri, op.labels, input, encode).Err? ==>
      r == Err(ResolvePath(op.uri, op.labels, input, encode).error)
    ensures ResolvePath(op.uri, op.labels, input, encode).Ok? && BuildQuery(op.query, input).Err? ==>
      r == Err(InputTypeError(BuildQuery(op.query, input).error))
  {
    var path :- ResolvePath(op.uri, op.labels, input, encode);
    match BuildQuery(op.query, input)
    case Err(e) => Err(InputTypeError(e))
    case Ok(query) => Ok(HttpRequest(op.verb, path, RequestHeaders(op.body), query, BuildBody(op.body, input)))
  }

  /** `serializeAws_restJson1<Op>Command`: `resolvedPath` starts as the URI template
      and is reassigned once per label; then the query and the body. */
  method SerializeRequest(op: Operation, input: map<string, Value>, encode: string -> string)
    returns (r: Result<HttpRequest, SerializeError>)
    requires InputTyped(op, input)
    ensures r == BuildRequest(op, input, encode)
    ensures r.Ok? <==> ResolvePath(op.uri, op.labels, input, encode).Ok? && BuildQuery(op.query, input).Ok?
    ensures r.Ok? ==> r.value.verb == op.verb && r.value.headers == RequestHeaders(op.body)
    ensures r.Ok? ==> Ok(r.value.path) == ResolvePath(op.uri, op.labels, input, encode)
    ensures r.Ok? ==> Ok(r.value.query) == BuildQuery(op.query, input)
    ensures r.Ok? ==> r.value.body == BuildBody(op.body, input)
  {
    var resolvedPath := op.uri;
    var i := 0;
    while i < |op.labels|
      invariant 0 <= i <= |op.labels|
      invariant ResolvePath(op.uri, op.labels, input, encode) == ResolvePath(resolvedPath, op.labels[i..], input, encode)
    {
      var name := op.labels[i];
      assert op.labels[i..][0] == name && op.labels[i..][1..] == op.labels[i + 1..];
      if name in input {
        var labelValue := input[name];
        if !labelValue.VStr? {
          return Err(InputTypeError(NullPropertyRead));
        }
        if |labelValue.s| <= 0 {
          return Err(EmptyLabel(name));
        }
        resolvedPath := ReplaceFirst(resolvedPath, Placeholder(name), encode(labelValue.s));
      } else {
        return Err(MissingLabel(name));
      }
      i := i + 1;
    }
    var query := BuildQuery(op.query, input);
    if query.Err? {
      return Err(InputTypeError(query.error));
    }
    var body := BuildBody(op.body, input);
    return Ok(HttpRequest(op.verb, resolvedPath, RequestHeaders(op.body), query.value, body));
  }

  // ---------------------------------------------------------------- responses

  /** `statusCode !== 200 && statusCode >= 300`. */
  predicate IsErrorStatus(status: int) {
    status != 200 && status >= 300
  }

  /** The `!== 200` test is redundant: a response is an error exactly from 300 on,
      so every status below 300 (1xx and 204 included) is a success. */
  lemma ErrorStatusFrom300(status: int)
    ensures IsErrorStatus(status) <==> status >= 300
  {
  }

  /** What a success deserialiser resolves with: the metadata and the output
      members that were set. */
  datatype CommandOutput = CommandOutput(metadata: ResponseMetadata, contents: map<string, Value>)

  datatype Outcome = Resolved(output: CommandOutput) | Rejected(rejection: Rejection)

  /** What the service model promises of a success body: the output structure, or
      (read as a TypeError) the JSON `null`. An operation without output never reads it. */
  predicate SuccessBodyConforms(op: Operation, output: HttpResponse)
    requires DistinctNames(op.output)
  {
    op.output == [] || ParseBody(output.body).Null? || Conforms(OutputShape(op), ParseBody(output.body))
  }

  /** The success outcome stated outright: the output structure's deserialisation
      of the body, with the response metadata. */
  function SuccessOutcome(op: Operation, output: HttpResponse): (r: Result<CommandOutput, TypeError>)
    requires DistinctNames(op.output) && SuccessBodyConforms(op, output)
    ensures r.Ok? ==> r.value.metadata == DeserializeMetadata(output)
    ensures op.output == [] ==> r == Ok(CommandOutput(DeserializeMetadata(output), map[]))
  {
    var metadata := DeserializeMetadata(output);
    if op.output == [] then Ok(CommandOutput(metadata, map[]))
    else
      var data := ParseBody(output.body);
      if data.Null? then Err(NullPropertyRead)
      else Ok(CommandOutput(metadata, Deserialize(OutputShape(op), data).fields))
  }

  /** A map holding exactly the declared members the body carries as non-null, each
      deserialised by its own shape, is the structure's deserialisation. */
  lemma StructFields(ms: map<string, Shape>, data: Json, contents: map<string, Value>)
    requires Conforms(SStruct(ms), data)
    requires forall k :: k in contents <==> k in ms && k in data.fields && data.fields[k] != Null
    requires forall k :: k in contents ==> contents[k] == Deserialize(ms[k], data.fields[k])
    ensures contents == Deserialize(SStruct(ms), data).fields
  {
  }

  /** The body of a success deserialiser: each output member in turn is assigned
      to `contents` when the body holds it neither undefined nor null. */
  method ReadMembers(members: seq<Member>, ms: map<string, Shape>, data: Json) returns (contents: map<string, Value>)
    requires Conforms(SStruct(ms), data)
    requires forall i :: 0 <= i < |members| ==> members[i].name in ms && ms[members[i].name] == members[i].shape
    ensures forall k :: k in contents <==>
      (exists j :: 0 <= j < |members| && members[j].name == k) && k in data.fields && data.fields[k] != Null
    ensures forall k :: k in contents ==> k in ms && contents[k] == Deserialize(ms[k], data.fields[k])
  {
    contents := map[];
    var i := 0;
    while i < |members|
      invariant 0 <= i <= |members|
      invariant forall k :: k in contents <==>
        (exists j :: 0 <= j < i && members[j].name == k) && k in data.fields && data.fields[k] != Null
      invariant forall k :: k in contents ==> k in ms && contents[k] == Deserialize(ms[k], data.fields[k])
    {
      var m := members[i];
      if m.name in data.fields && data.fields[m.name] != Null {
        contents := contents[m.name := Deserialize(m.shape, data.fields[m.name])];
      }
      i := i + 1;
    }
  }

  /** `deserializeAws_restJson1<Op>Command` on a success status: `contents` starts
      with the metadata and each output member is assigned in turn when the body
      holds it neither undefined nor null. */
  method DeserializeSuccess(op: Operation, output: HttpResponse) returns (r: Result<CommandOutput, TypeError>)
    requires DistinctNames(op.output) && SuccessBodyConforms(op, output)
    ensures r == SuccessOutcome(op, output)
  {
    var metadata := DeserializeMetadata(output);
    if op.output == [] {
      return Ok(CommandOutput(metadata, map[]));
    }
    var data := ParseBody(output.body);
    if data.Null? {
      return Err(NullPropertyRead);
    }
    var shape := OutputShape(op);
    var contents := ReadMembers(op.output, shape.members, data);
    StructFields(shape.members, data, contents);
    return Ok(CommandOutput(metadata, contents));
  }

  /** The outcome of deserialising a response, routed by status. */
  function ResponseOutcome(op: Operation, output: HttpResponse): (r: Outcome)
    requires WellFormed(op) && (IsErrorStatus(output.statusCode) || SuccessBodyConforms(op, output))
  {
    if IsErrorStatus(output.statusCode) then Rejected(ErrorOutcome(op.errors, output))
    else match SuccessOutcome(op, output)
      case Ok(out) => Resolved(out)
      case Err(e) => Rejected(Thrown(e))
  }

  /** `deserializeAws_restJson1<Op>Command`: the status decides between the success
      path and the operation's error deserialiser. */
  method DeserializeResponse(op: Operation, output: HttpResponse) returns (r: Outcome)
    requires WellFormed(op) && (IsErrorStatus(output.statusCode) || SuccessBodyConforms(op, output))
    ensures r == ResponseOutcome(op, output)
  {
    if output.statusCode != 200 && output.statusCode >= 300 {
      var rejection := DeserializeError(op.errors, output);
      return Rejected(rejection);
    }
    var result := DeserializeSuccess(op, output);
    match result
    case Ok(out) => return Resolved(out);
    case Err(e) => return Rejected(Thrown(e));
  }

  /** Service exceptions come only from statuses of 300 and above; everything below
      resolves (or throws on a null body) with the status in its metadata. */
  lemma StatusRouting(op: Operation, output: HttpResponse)
    requires WellFormed(op) && (IsErrorStatus(output.statusCode) || SuccessBodyConforms(op, output))
    ensures ResponseOutcome(op, output).Rejected? && ResponseOutcome(op, output).rejection.ServiceException?
            ==> output.statusCode >= 300
    ensures output.statusCode < 300 && (op.output == [] || !ParseBody(output.body).Null?) ==>
      ResponseOutcome(op, output).Resolved?
      && ResponseOutcome(op, output).output.metadata.httpStatusCode == output.statusCode
  {
  }

  /** A success output holds exactly the declared members the body carries as
      non-null, each deserialised by its own shape. */
  lemma SuccessContents(op: Operation, output: HttpResponse, k: string)
    requires DistinctNames(op.output) && SuccessBodyConforms(op, output)
    requires SuccessOutcome(op, output).Ok?
    ensures var data := ParseBody(output.body);
      k in SuccessOutcome(op, output).value.contents <==>
        (exists i :: 0 <= i < |op.output| && op.output[i].name == k) && data.Obj? && k in data.fields && data.fields[k] != Null
  {
  }

  /** A success body holding a list member and a null member: the null member is
      left out of the output, and the list keeps its non-null entries in order. */
  lemma ListAndNullMemberSuccess(op: Operation, a: string, e: Shape, b: string, sb: Shape,
                                 output: HttpResponse, items: seq<Json>)
    requires op.output == [Member(a, SList(e)), Member(b, sb)] && a != b
    requires output.statusCode < 300
    requires output.body == JsonPayload(Obj(map[a := Arr(items), b := Null]))
    requires forall i :: 0 <= i < |items| ==> items[i] == Null || Conforms(e, items[i])
    ensures WellFormed(op) && SuccessBodyConforms(op, output)
      && var r := ResponseOutcome(op, output);
      && r.Resolved?
      && r.output.contents == map[a := VList(DeserializeItems(e, items))]
  {
    TwoMemberOutput(op, a, SList(e), b, sb);
    assert Conforms(SList(e), Arr(items));
    NullMemberDropped(a, SList(e), Arr(items), b, sb);
  }

  /** A structure member whose value is null is absent from the deserialised object. */
  lemma NullMemberDropped(a: string, sa: Shape, ja: Json, b: string, sb: Shape)
    requires a != b && ja != Null && Conforms(sa, ja)
    ensures Conforms(SStruct(map[a := sa, b := sb]), Obj(map[a := ja, b := Null]))
    ensures Deserialize(SStruct(map[a := sa, b := sb]), Obj(map[a := ja, b := Null])).fields
            == map[a := Deserialize(sa, ja)]
  {
  }

  /** The output structure of a two-member output. */
  lemma TwoMemberOutput(op: Operation, a: string, sa: Shape, b: string, sb: Shape)
    requires op.output == [Member(a, sa), Member(b, sb)] && a != b
    ensures DistinctNames(op.output) && OutputShape(op) == SStruct(map[a := sa, b := sb])
  {
    assert OutputShape(op).members == map[a := sa, b := sb];
  }

  /** An error status whose error-type header names one of the operation's listed
      shapes rejects with that shape, carrying its own fault. */
  lemma ListedErrorFromHeader(op: Operation, shape: ErrorShape, h: Headers, i: nat, status: int,
                              fields: map<string, Json>)
    requires WellFormed(op) && shape in op.errors && status >= 300
    requires FindKeyIgnoringCase(h, ErrorTypeHeader) == Some(i)
    requires SanitizeErrorCode(h[i].1) == ShapeName(shape)
    ensures var output := HttpResponse(status, h, JsonPayload(Obj(fields)));
      var r := ResponseOutcome(op, output);
      && r.Rejected? && r.rejection.ServiceException?
      && r.rejection.props["name"] == Str(ShapeName(shape))
      && r.rejection.props["$fault"] == FaultText(FaultOf(shape))
      && r.rejection.metadata == DeserializeMetadata(output)
  {
    KnownShapeFromHeader(op.errors, shape, h, i, status, fields);
  }
}

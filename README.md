# REST-JSON protocol layer of the Amazon Elasticsearch Service client, in Dafny

This project models three pieces of an AWS SDK for JavaScript (v3) code base and
proves properties of them.

1. The `aws.rest-json-1.1` protocol code of the Elasticsearch Service client
   (`Aws_restJson1.ts`). The generated file has one serialiser and one
   deserialiser per operation and per shape, all built the same way. The model
   writes that technique once and instantiates it:
   - `Shapes` (shapes.dfy) is one shape-directed engine for the shape
     serialisers and deserialisers. Structures drop undefined and null members,
     lists drop null entries, maps drop null-valued keys, and timestamps travel
     as epoch seconds. The round trips are proved in both directions.
   - `RestJsonOperations` (operations.dfy) describes an operation by its verb,
     URI template, labels, query parameters, body kind, output members and
     error shapes. `SerializeRequest` reassigns `resolvedPath` once per label,
     as the generated code does. `DeserializeResponse` routes on the status.
     `ReadMembers` fills `contents` member by member.
   - `ServiceErrors` (errors.dfy) covers `loadRestJsonErrorCode` and its
     sanitiser, the dispatch to the service's exception shapes, and
     `DeserializeError`, which builds and then patches the rejected `response`.
   - `Http` (http.dfy) holds the envelope, `parseBody`, `deserializeMetadata`
     and `isSerializableHeaderValue`.
   - `ElasticsearchOperations` (es_operations.dfy) instantiates
     `DeleteElasticsearchDomain`, `AssociatePackage`, `AddTags`,
     `ListDomainsForPackage` and `ListDomainNames`, and proves their concrete
     behaviour.
2. `fromSharedConfigFiles` of the node config provider (`SharedConfigProvider`,
   config.dfy). It covers profile resolution, the key or getter lookup, and the
   `ProviderError` path.
3. The signing-plugin predicates of the code generator's `AddAwsAuthPlugin`
   (`AwsAuthPlugin`, auth.dfy), over an abstract service made of an SDK id, a
   SigV4 flag and operations with their `@optionalAuth` marks.

Helper modules: `Results` (Option and Result), `JsonValues` (parsed JSON,
JavaScript truthiness, `||`, `toString` of integers, template-literal text) and
`Text` (`indexOf`, first-occurrence `replace`, `split` at a character, ASCII
`toLowerCase`).

Where the protocol's written description and the code differ, the model follows
the code:
- With no error code anywhere, `loadRestJsonErrorCode` returns `""`, not
  `"UnknownError"`. The initial `"UnknownError"` is overwritten at once
  (`ServiceErrors.EmptyCodeFallback`).
- `loadRestJsonErrorCode` reads only the body's lower-case `code`. An upper-case
  `Code` is read only by the default branch when it names the exception
  (`ServiceErrors.CodeAndMessageInBody`).
- The success test is `statusCode !== 200 && statusCode >= 300` being false, so
  every status below 300 succeeds, 1xx included (`RestJsonOperations.ErrorStatusFrom300`).
- The namespace-qualified case labels (`com.amazonaws.elasticsearchservice#X`)
  can never match: a sanitised code never contains `#`
  (`ServiceErrors.CodesSelectByBareName`).

## Model

| member | source | states |
|---|---|---|
| `ServiceErrors.SanitizeErrorCode` | clients/client-elasticsearch-service/protocols/Aws_restJson1.ts:6849-6858 | the sanitised code contains neither `:` nor `#`, and a code without either is unchanged |
| `ServiceErrors.SanitizeIdempotent` | clients/client-elasticsearch-service/protocols/Aws_restJson1.ts:6849-6858 | sanitising twice gives the same code as sanitising once |
| `ServiceErrors.SanitizeStripsNamespaceAndUri` | clients/client-elasticsearch-service/protocols/Aws_restJson1.ts:6849-6858 | `ns#Name`, `Name:uri` and `ns#Name:uri` all sanitise to `Name` |
| `ServiceErrors.SanitizeProperty` | clients/client-elasticsearch-service/protocols/Aws_restJson1.ts:6865-6871 | a body property is sanitised when it is a string; any other value throws a TypeError |
| `ServiceErrors.LoadRestJsonErrorCode` | clients/client-elasticsearch-service/protocols/Aws_restJson1.ts:6846-6873 | a loaded code has no `:` or `#`; with the header present it always succeeds; a null body without the header throws; with no header, `code` or `__type` the code is `""` |
| `ServiceErrors.HeaderTakesPrecedence` | clients/client-elasticsearch-service/protocols/Aws_restJson1.ts:6860-6863 | the first header whose name lower-cases to `x-amzn-errortype`, at any position among the headers, gives its sanitised value, whatever the body holds |
| `ServiceErrors.ErrorTypeHeaderIsLowerCase` | clients/client-elasticsearch-service/protocols/Aws_restJson1.ts:6847 | the header name is its own lower-case form, so it matches itself |
| `ServiceErrors.CodeShadowsType` | clients/client-elasticsearch-service/protocols/Aws_restJson1.ts:6865-6871 | without the header, a body `code` wins over `__type` |
| `ServiceErrors.TypeReadWithoutCode` | clients/client-elasticsearch-service/protocols/Aws_restJson1.ts:6869-6871 | without the header or a `code`, the body's `__type` is sanitised and used |
| `ServiceErrors.FaultOf` | clients/client-elasticsearch-service/protocols/Aws_restJson1.ts:4943-4958 | the fault is `server` exactly for `InternalException`, `client` for every other shape |
| `ServiceErrors.ExceptionResponse` | clients/client-elasticsearch-service/protocols/Aws_restJson1.ts:4875-4890 | a shape's response has its fixed name and fault, and `message` exactly when the body's `message` is neither undefined nor null; a null body throws |
| `ServiceErrors.Dispatch` | clients/client-elasticsearch-service/protocols/Aws_restJson1.ts:1513-1537 | the selected shape is listed and its bare or qualified name equals the code; with no selection, no listed shape has either name |
| `ServiceErrors.CodesSelectByBareName` | clients/client-elasticsearch-service/protocols/Aws_restJson1.ts:1513-1537 | for a code without `#`, a shape is selected iff one is listed under that bare name, and then it is that shape |
| `ServiceErrors.BareAndQualifiedAgree` | clients/client-elasticsearch-service/protocols/Aws_restJson1.ts:1513-1537 | a bare name and its namespace-qualified form select the same shape |
| `ServiceErrors.ShapeNamesDistinct` | clients/client-elasticsearch-service/protocols/Aws_restJson1.ts:1513-1537 | two shapes with the same case label are the same shape |
| `ServiceErrors.ErrorOutcome` | clients/client-elasticsearch-service/protocols/Aws_restJson1.ts:1502-1553 | every service exception the error path builds carries a name, a message and a fault |
| `ServiceErrors.DeserializeError` | clients/client-elasticsearch-service/protocols/Aws_restJson1.ts:1502-1553 | the step-by-step error deserialiser (parse, load code, switch, patch `message`, delete `Message`) rejects with exactly `ErrorOutcome` |
| `ServiceErrors.KnownShapeMessage` | clients/client-elasticsearch-service/protocols/Aws_restJson1.ts:1549-1551 | for a listed shape, the closing `message` step leaves the body's message, or else the code |
| `ServiceErrors.DefaultMessage` | clients/client-elasticsearch-service/protocols/Aws_restJson1.ts:1538-1551 | for an unlisted code, the closing step keeps the chosen message and only removes `Message` |
| `ServiceErrors.ServiceExceptionShape` | clients/client-elasticsearch-service/protocols/Aws_restJson1.ts:1538-1552 | every service exception has a string name, a `client` or `server` fault, a message, no `Message`, and the response's metadata |
| `ServiceErrors.ThrowsOnlyOnMalformedBodies` | clients/client-elasticsearch-service/protocols/Aws_restJson1.ts:6865-6871 | a TypeError escapes iff the body is null or, without the header, the `code` (else `__type`) read is not a string |
| `ServiceErrors.KnownShapeFromHeader` | clients/client-elasticsearch-service/protocols/Aws_restJson1.ts:1512-1537 | the first error-type header, at any position, naming a listed shape in any written form rejects with exactly that shape's name, fault and message (the body's, else the name) and the response metadata |
| `ServiceErrors.HeaderSelectsShape` | clients/client-elasticsearch-service/protocols/Aws_restJson1.ts:1512-1537 | the first error-type header, at any position, naming a listed shape selects that shape's properties and the response metadata |
| `ServiceErrors.UnknownCodeKeepsBody` | clients/client-elasticsearch-service/protocols/Aws_restJson1.ts:1538-1547 | for an unlisted code, every other body property is copied into the exception unchanged |
| `ServiceErrors.CodeAndMessageInBody` | clients/client-elasticsearch-service/protocols/Aws_restJson1.ts:1538-1551 | a body `{Code, message}` with no header rejects as a client fault named after `Code`, with the body's message |
| `ServiceErrors.DefaultNameIsRawCode` | clients/client-elasticsearch-service/protocols/Aws_restJson1.ts:1538-1547 | an unlisted body `code` is dispatched in sanitised form but reported unsanitised as name and message |
| `ServiceErrors.EmptyCodeFallback` | clients/client-elasticsearch-service/protocols/Aws_restJson1.ts:6873 | with no header and an empty body, the exception's name and message are `""` and its fault is `client` |
| `Http.Lookup` | clients/client-elasticsearch-service/protocols/Aws_restJson1.ts:6811-6813 | an exact-key header read finds a value iff some pair has that name, and the value belongs to such a pair |
| `Http.FindKeyIgnoringCase` | clients/client-elasticsearch-service/protocols/Aws_restJson1.ts:6847 | the position found is the first whose name equals the key ignoring case; with none found, no name does |
| `Http.FirstMatchIsFound` | clients/client-elasticsearch-service/protocols/Aws_restJson1.ts:6847 | a header matching the key ignoring case, with no match before it, is the one found, whatever headers precede it |
| `Http.ParseBody` | clients/client-elasticsearch-service/protocols/Aws_restJson1.ts:6835-6841 | an empty body parses to `{}`, any other body to its JSON value |
| `Http.DeserializeMetadata` | clients/client-elasticsearch-service/protocols/Aws_restJson1.ts:6809-6814 | the metadata carries the status; the request id prefers `x-amzn-requestid` over `x-amzn-request-id`; each field is present iff its header is; `extendedRequestId` is the `x-amz-id-2` value and `cfId` the `x-amz-cf-id` value |
| `Http.MetadataIgnoresBody` | clients/client-elasticsearch-service/protocols/Aws_restJson1.ts:6809-6814 | metadata does not depend on the body |
| `Http.MetadataKeysAreCaseSensitive` | clients/client-elasticsearch-service/protocols/Aws_restJson1.ts:6811 | a differently-cased request-id header is not read |
| `Http.SerializableHeaderValues` | clients/client-elasticsearch-service/protocols/Aws_restJson1.ts:6828-6833 | null, `""`, `[]` and an object with `size` 0 are not serialisable; non-empty strings, numbers, booleans and dates are |
| `Http.IsSerializableHeaderValue` | clients/client-elasticsearch-service/protocols/Aws_restJson1.ts:6828-6833 | a serialisable value is not null, `""` or `[]`, and an object whose `length` or `size` is loosely 0 is not serialisable |
| `Http.ObjectSerializableIffSizesNonZero` | clients/client-elasticsearch-service/protocols/Aws_restJson1.ts:6828-6833 | an object is serialisable exactly when neither its `length` nor its `size` property equals 0 under loose comparison |
| `Http.LengthOnlyObject` | clients/client-elasticsearch-service/protocols/Aws_restJson1.ts:6832 | an object whose only property is `length` is serialisable iff that length is not loosely 0 |
| `Http.TextLengthZero` | clients/client-elasticsearch-service/protocols/Aws_restJson1.ts:6832 | an object whose `length` is the text `"0"` is not serialisable |
| `Http.LooseZeroValues` | clients/client-elasticsearch-service/protocols/Aws_restJson1.ts:6832-6833 | `"0"`, `"0.0"`, `"0x0"`, `""` and `[0]` equal 0 under `!=` |
| `Http.LooseNonZeroValues` | clients/client-elasticsearch-service/protocols/Aws_restJson1.ts:6832-6833 | `[false]` (which joins to `"false"`) and `"1"` do not equal 0 under `!=` |
| `Http.TrimSkipsSpaces` | clients/client-elasticsearch-service/protocols/Aws_restJson1.ts:6832-6833 | reading text as a number skips exactly the whitespace before and after it |
| `Http.WhitespaceIgnored` | clients/client-elasticsearch-service/protocols/Aws_restJson1.ts:6832-6833 | whitespace around a number does not change whether the text reads as 0 |
| `Http.ZeroText` | clients/client-elasticsearch-service/protocols/Aws_restJson1.ts:6832-6833 | the text `"0"` reads as 0 |
| `Http.PointZeroText` | clients/client-elasticsearch-service/protocols/Aws_restJson1.ts:6832-6833 | the text `"0.0"` reads as 0 |
| `Http.HexZeroText` | clients/client-elasticsearch-service/protocols/Aws_restJson1.ts:6832-6833 | the hexadecimal text `"0x0"` reads as 0 |
| `Http.OneText` | clients/client-elasticsearch-service/protocols/Aws_restJson1.ts:6832-6833 | the text `"1"` does not read as 0 |
| `Shapes.SecondsRoundTrip` | clients/client-elasticsearch-service/protocols/Aws_restJson1.ts:5569-5570 | whole epoch seconds survive deserialise (`round(s*1000)`) then serialise (`round(ms/1000)`) |
| `Shapes.NearestSecond` | clients/client-elasticsearch-service/protocols/Aws_restJson1.ts:5102-5103 | serialising a date keeps the nearest second: it moves by less than half a second either way |
| `Shapes.NonNulls` | clients/client-elasticsearch-service/protocols/Aws_restJson1.ts:5111-5112 | the filtered list is no longer than the input and holds only non-null entries of it |
| `Shapes.NonNullsAppend` | clients/client-elasticsearch-service/protocols/Aws_restJson1.ts:5111-5112 | filtering a concatenation is concatenating the filtered parts, so order is kept |
| `Shapes.NonNullsOfNullFree` | clients/client-elasticsearch-service/protocols/Aws_restJson1.ts:5111-5112 | a list without nulls is kept whole |
| `Shapes.Serialize` | clients/client-elasticsearch-service/protocols/Aws_restJson1.ts:5078-5090 | serialising a well-typed value never yields null and yields JSON of the shape's wire type |
| `Shapes.SerializeItems` | clients/client-elasticsearch-service/protocols/Aws_restJson1.ts:5111-5118 | a serialised list has one entry per non-null input entry, none of them null |
| `Shapes.Deserialize` | clients/client-elasticsearch-service/protocols/Aws_restJson1.ts:5437-5445 | deserialising conforming JSON never yields null and yields a well-typed value |
| `Shapes.DeserializeItems` | clients/client-elasticsearch-service/protocols/Aws_restJson1.ts:5457-5466 | a deserialised list is no longer than the input and has no null entries |
| `Shapes.StructEmitsDefinedMembers` | clients/client-elasticsearch-service/protocols/Aws_restJson1.ts:5078-5090 | a structure emits a key iff the member is declared and neither undefined nor null |
| `Shapes.MapsDropNullKeys` | clients/client-elasticsearch-service/protocols/Aws_restJson1.ts:5062-5072 | map serialisation and deserialisation keep exactly the keys whose value is not null |
| `Shapes.NonNullsWellTyped` | clients/client-elasticsearch-service/protocols/Aws_restJson1.ts:5111-5112 | the entries that survive the filter are well typed |
| `Shapes.SerializeEach` | clients/client-elasticsearch-service/protocols/Aws_restJson1.ts:5113-5117 | mapping the element serialiser keeps length and position |
| `Shapes.ListSerializationIsFilterThenMap` | clients/client-elasticsearch-service/protocols/Aws_restJson1.ts:5397-5406 | the list serialiser equals `filter(e != null)` followed by `map` |
| `Shapes.ListSerializationKeepsOrder` | clients/client-elasticsearch-service/protocols/Aws_restJson1.ts:5111-5118 | the i-th serialised entry is the serialised i-th non-null entry, and the output is no longer than the input |
| `Shapes.NullListReadsAsEmpty` | clients/client-elasticsearch-service/protocols/Aws_restJson1.ts:5457-5458 | a null list on the wire deserialises to `[]` |
| `Shapes.TypedRoundTrip` | clients/client-elasticsearch-service/protocols/Aws_restJson1.ts:5062-5435 | serialise then deserialise gives the value without nulls or undeclared members and with dates rounded to the second |
| `Shapes.TypedRoundTripMap` | clients/client-elasticsearch-service/protocols/Aws_restJson1.ts:5062-5072 | the typed round trip for maps |
| `Shapes.TypedRoundTripStruct` | clients/client-elasticsearch-service/protocols/Aws_restJson1.ts:5074-5091 | the typed round trip for structures |
| `Shapes.TypedRoundTripItems` | clients/client-elasticsearch-service/protocols/Aws_restJson1.ts:5397-5406 | the typed round trip for lists |
| `Shapes.WireRoundTrip` | clients/client-elasticsearch-service/protocols/Aws_restJson1.ts:5437-6807 | deserialise then serialise gives the JSON without nulls or undeclared members, a null list becoming `[]`; whole seconds are unchanged |
| `Shapes.WireRoundTripMap` | clients/client-elasticsearch-service/protocols/Aws_restJson1.ts:6091-6101 | the wire round trip for maps |
| `Shapes.WireRoundTripStruct` | clients/client-elasticsearch-service/protocols/Aws_restJson1.ts:5750-5773 | the wire round trip for structures |
| `Shapes.WireRoundTripItems` | clients/client-elasticsearch-service/protocols/Aws_restJson1.ts:5775-5787 | the wire round trip for lists |
| `JsonValues.Or` | clients/client-elasticsearch-service/protocols/Aws_restJson1.ts:1540 | JavaScript's logical or gives one of its two operands, and is truthy iff either operand is |
| `JsonValues.Get` | clients/client-elasticsearch-service/protocols/Aws_restJson1.ts:6865 | a property read is defined iff the body is an object holding the key, and then gives its value |
| `JsonValues.IntToString` | clients/client-elasticsearch-service/protocols/Aws_restJson1.ts:1097 | `toString` of an integer is an optional minus sign, present iff the number is negative, then digits |
| `JsonValues.IntToStringRoundTrip` | clients/client-elasticsearch-service/protocols/Aws_restJson1.ts:1097 | reading the stringified number back gives the number |
| `JsonValues.DigitsRoundTrip` | clients/client-elasticsearch-service/protocols/Aws_restJson1.ts:1097 | reading the decimal digits of a natural number back gives the number |
| `Text.IndexOf` | clients/client-elasticsearch-service/protocols/Aws_restJson1.ts:6851 | `indexOf` finds the first occurrence, or reports that there is none |
| `Text.ReplaceFirstAfter` | clients/client-elasticsearch-service/protocols/Aws_restJson1.ts:287 | `replace` with a string pattern replaces the first occurrence only, by the replacement with its `$` patterns expanded; a replacement without `$` goes in as it is |
| `Text.ExpandLiteral` | clients/client-elasticsearch-service/protocols/Aws_restJson1.ts:287 | a replacement text without `$` is inserted literally |
| `Text.ExpandPatterns` | clients/client-elasticsearch-service/protocols/Aws_restJson1.ts:287 | `$$` inserts one `$`, `$&` the match, `` $` `` the text before it, `$'` the text after it, and `$1` stays as written since a string pattern has no groups |
| `Text.Lower` | clients/client-elasticsearch-service/protocols/Aws_restJson1.ts:6847 | lower-casing maps each character by itself and keeps the length |
| `Text.Before` | clients/client-elasticsearch-service/protocols/Aws_restJson1.ts:6851-6853 | `split(c)[0]` is the longest prefix without `c` |
| `Text.After` | clients/client-elasticsearch-service/protocols/Aws_restJson1.ts:6854-6856 | the text after the first `c`, so that the string is prefix, `c`, rest |
| `Text.SplitAtFirst` | clients/client-elasticsearch-service/protocols/Aws_restJson1.ts:6852 | splitting at a separator absent from the first part recovers both parts |
| `RestJsonOperations.OutputShape` | clients/client-elasticsearch-service/protocols/Aws_restJson1.ts:1488-1498 | the output structure declares exactly the operation's output members with their shapes |
| `RestJsonOperations.LabelErrorMessage` | clients/client-elasticsearch-service/protocols/Aws_restJson1.ts:282-290 | a label error's message starts with "No value…" or "Empty value…" and ends with the label's name and a full stop |
| `RestJsonOperations.LabelStep` | clients/client-elasticsearch-service/protocols/Aws_restJson1.ts:282-290 | a label substitutes iff it is defined, non-null and non-empty; undefined, `""` and null fail with their own errors |
| `RestJsonOperations.ResolvePathFailsAtFirstBadLabel` | clients/client-elasticsearch-service/protocols/Aws_restJson1.ts:281-299 | path resolution succeeds iff every label is usable, and otherwise fails with the first unusable label's error |
| `RestJsonOperations.SubstituteLabel` | clients/client-elasticsearch-service/protocols/Aws_restJson1.ts:287 | the `{label}` placeholder is replaced by the encoded value, `$` patterns expanded, and nothing else changes; an encoded value without `$` goes in as it is |
| `RestJsonOperations.OneLabelPath` | clients/client-elasticsearch-service/protocols/Aws_restJson1.ts:489-495 | a one-label template resolves to prefix, encoded value, rest, for an encoded value without `$` |
| `RestJsonOperations.TwoLabelPath` | clients/client-elasticsearch-service/protocols/Aws_restJson1.ts:281-296 | a two-label template resolves both placeholders in order, for encoded values without `$` |
| `RestJsonOperations.QueryEntry` | clients/client-elasticsearch-service/protocols/Aws_restJson1.ts:1096-1099 | a query entry is omitted iff its member is undefined, and throws iff a numeric member is not a number |
| `RestJsonOperations.BuildQuery` | clients/client-elasticsearch-service/protocols/Aws_restJson1.ts:1096-1099 | every query key comes from a declared parameter whose member is defined |
| `RestJsonOperations.QueryKeysFollowDefinedMembers` | clients/client-elasticsearch-service/protocols/Aws_restJson1.ts:1096-1099 | a key is present iff its member is not undefined (null included); numbers are sent as decimal text that reads back as the number |
| `RestJsonOperations.NullNumberThrows` | clients/client-elasticsearch-service/protocols/Aws_restJson1.ts:1097 | a null numeric query member throws a TypeError |
| `RestJsonOperations.QueryThrowsIfSomeEntryThrows` | clients/client-elasticsearch-service/protocols/Aws_restJson1.ts:1096-1099 | one failing query entry makes the whole query throw |
| `RestJsonOperations.BuildBody` | clients/client-elasticsearch-service/protocols/Aws_restJson1.ts:258-263 | the body kind is kept, and a JSON body holds a key iff the member is declared and neither undefined nor null |
| `RestJsonOperations.RequestHeaders` | clients/client-elasticsearch-service/protocols/Aws_restJson1.ts:254-256 | only an operation with a JSON body sends `content-type: application/json` |
| `RestJsonOperations.BuildRequest` | clients/client-elasticsearch-service/protocols/Aws_restJson1.ts:250-274 | the build succeeds iff the path resolves and the query builds; a built request has the operation's verb and headers, the resolved path, the built query and the built body; a label error, else a query TypeError, is the one thrown |
| `RestJsonOperations.SerializeRequest` | clients/client-elasticsearch-service/protocols/Aws_restJson1.ts:276-311 | the step-by-step serialiser, reassigning `resolvedPath` per label, returns exactly `BuildRequest`: it succeeds iff every label is usable and the query builds, with the operation's verb, headers, resolved path, query and body |
| `RestJsonOperations.ErrorStatusFrom300` | clients/client-elasticsearch-service/protocols/Aws_restJson1.ts:1485-1487 | the error path is taken iff the status is at least 300 |
| `RestJsonOperations.SuccessOutcome` | clients/client-elasticsearch-service/protocols/Aws_restJson1.ts:1488-1499 | a success carries the response metadata; an operation without output resolves with the metadata alone |
| `RestJsonOperations.StructFields` | clients/client-elasticsearch-service/protocols/Aws_restJson1.ts:1925-1943 | a map of exactly the non-null declared members, each deserialised, is the structure's deserialisation |
| `RestJsonOperations.ReadMembers` | clients/client-elasticsearch-service/protocols/Aws_restJson1.ts:1925-1943 | filling `contents` member by member sets exactly the listed members the body holds as non-null, each deserialised by its shape |
| `RestJsonOperations.DeserializeSuccess` | clients/client-elasticsearch-service/protocols/Aws_restJson1.ts:1630-1646 | the step-by-step success deserialiser returns exactly `SuccessOutcome` |
| `RestJsonOperations.DeserializeResponse` | clients/client-elasticsearch-service/protocols/Aws_restJson1.ts:2111-2127 | the status test routes to the error or the success deserialiser, giving exactly `ResponseOutcome` |
| `RestJsonOperations.StatusRouting` | clients/client-elasticsearch-service/protocols/Aws_restJson1.ts:1485-1499 | service exceptions come only from statuses of 300 or more; below 300 the call resolves with the status in its metadata |
| `RestJsonOperations.SuccessContents` | clients/client-elasticsearch-service/protocols/Aws_restJson1.ts:3841-3851 | a success output holds a member iff it is declared and the body holds it as non-null |
| `RestJsonOperations.ListAndNullMemberSuccess` | clients/client-elasticsearch-service/protocols/Aws_restJson1.ts:3841-3851 | a null output member is left out and a list member keeps its non-null entries in order |
| `RestJsonOperations.NullMemberDropped` | clients/client-elasticsearch-service/protocols/Aws_restJson1.ts:5437-5445 | a null structure member is absent from the deserialised structure |
| `RestJsonOperations.TwoMemberOutput` | clients/client-elasticsearch-service/protocols/Aws_restJson1.ts:3836-3840 | a two-member output is the structure of those two members |
| `RestJsonOperations.ListedErrorFromHeader` | clients/client-elasticsearch-service/protocols/Aws_restJson1.ts:1659-1667 | an error status whose first error-type header, at any position, names a listed shape rejects with that shape's name, fault and the response metadata |
| `ElasticsearchOperations.OperationsWellFormed` | clients/client-elasticsearch-service/protocols/Aws_restJson1.ts:3836-3840 | the modelled operations declare each output member once |
| `ElasticsearchOperations.DeleteDomainRequest` | clients/client-elasticsearch-service/protocols/Aws_restJson1.ts:484-510 | DeleteElasticsearchDomain is a DELETE of the prefix and the encoded domain name (which URI encoding leaves without `$`), with no body and no headers |
| `ElasticsearchOperations.DeleteDomainDollarPattern` | clients/client-elasticsearch-service/protocols/Aws_restJson1.ts:489-495 | an encoded domain name `$&` would put the matched `{DomainName}` back into the path |
| `ElasticsearchOperations.DeleteDomainLabelErrors` | clients/client-elasticsearch-service/protocols/Aws_restJson1.ts:490-498 | an undefined or empty `DomainName` throws the label error naming `DomainName`, with its message |
| `ElasticsearchOperations.AssociatePackagePath` | clients/client-elasticsearch-service/protocols/Aws_restJson1.ts:281-299 | AssociatePackage substitutes `PackageID` then `DomainName` into its path |
| `ElasticsearchOperations.AssociatePackageChecksPackageFirst` | clients/client-elasticsearch-service/protocols/Aws_restJson1.ts:282-290 | a missing `PackageID` is reported first |
| `ElasticsearchOperations.AddTagsRequest` | clients/client-elasticsearch-service/protocols/Aws_restJson1.ts:250-274 | AddTags sends a JSON body holding `ARN` and `TagList` iff each is neither undefined nor null, with the JSON content type |
| `ElasticsearchOperations.AddTagsTagList` | clients/client-elasticsearch-service/protocols/Aws_restJson1.ts:261-262 | the sent tag list drops null entries and keeps the rest in order |
| `ElasticsearchOperations.ListDomainsForPackageQuery` | clients/client-elasticsearch-service/protocols/Aws_restJson1.ts:1096-1099 | `maxResults` is sent iff `MaxResults` is defined, as its decimal text; `nextToken` iff `NextToken` is defined |
| `ElasticsearchOperations.ListDomainsForPackageNullMax` | clients/client-elasticsearch-service/protocols/Aws_restJson1.ts:1097 | a null `MaxResults` throws and no request is built |
| `ElasticsearchOperations.ListDomainNamesRequest` | clients/client-elasticsearch-service/protocols/Aws_restJson1.ts:1061-1079 | ListDomainNames sends the empty-string body, no headers and the fixed path |
| `ElasticsearchOperations.AddTagsSuccessIgnoresBody` | clients/client-elasticsearch-service/protocols/Aws_restJson1.ts:1555-1567 | a successful AddTags resolves with the metadata alone, whatever the body |
| `ElasticsearchOperations.DeleteDomainNotFound` | clients/client-elasticsearch-service/protocols/Aws_restJson1.ts:2157-2164 | a 404 with `x-amzn-errortype: ResourceNotFoundException` rejects with that name and fault `client` |
| `ElasticsearchOperations.DeleteDomainNotFoundAfterOtherHeaders` | clients/client-elasticsearch-service/protocols/Aws_restJson1.ts:2157-2164 | a 404 whose `X-Amzn-ErrorType` header follows a request id header still rejects with ResourceNotFoundException and carries that request id |
| `ElasticsearchOperations.InternalExceptionIsServerFault` | clients/client-elasticsearch-service/protocols/Aws_restJson1.ts:1684-1691 | a listed `InternalException` rejects with fault `server` |
| `ElasticsearchOperations.ListDomainsForPackageSuccess` | clients/client-elasticsearch-service/protocols/Aws_restJson1.ts:3829-3852 | a null `NextToken` is left out and the package list loses its null entries |
| `SharedConfigProvider.ProfileName` | packages/node-config-provider/src/fromSharedConfigFiles.ts:41 | the profile is `init.profile` if given, else a non-empty `AWS_PROFILE`, else `default` |
| `SharedConfigProvider.Section` | packages/node-config-provider/src/fromSharedConfigFiles.ts:49 | a missing profile reads as the empty section |
| `SharedConfigProvider.Select` | packages/node-config-provider/src/fromSharedConfigFiles.ts:46-49 | a key selector never throws, and finds a value iff the profile holds the key, which is the value returned |
| `SharedConfigProvider.FromSharedConfigFiles` | packages/node-config-provider/src/fromSharedConfigFiles.ts:40-59 | the provider succeeds iff the selected value is defined, returns it unchanged, and fails with a non-empty message |
| `SharedConfigProvider.ProfileEmptyOnlyIfGiven` | packages/node-config-provider/src/fromSharedConfigFiles.ts:41 | the profile is empty only when the caller asked for `""` |
| `SharedConfigProvider.EmptyEnvironmentProfileIgnored` | packages/node-config-provider/src/fromSharedConfigFiles.ts:41 | an empty `AWS_PROFILE` falls back to `default`, but an explicit `""` profile is used |
| `SharedConfigProvider.KeySelector` | packages/node-config-provider/src/fromSharedConfigFiles.ts:46-57 | a key selector returns `configFile[profile][key]` and otherwise fails with the generic message |
| `SharedConfigProvider.EmptyStringIsFound` | packages/node-config-provider/src/fromSharedConfigFiles.ts:50-53 | a defined `""` is returned, not reported as missing |
| `SharedConfigProvider.GetterSeesSection` | packages/node-config-provider/src/fromSharedConfigFiles.ts:49 | a getter is applied to the profile's section, or `{}`, and its defined value is returned |
| `SharedConfigProvider.GetterFailures` | packages/node-config-provider/src/fromSharedConfigFiles.ts:54-57 | a getter's non-empty message is kept; an empty one, or undefined, gives the generic message |
| `SharedConfigProvider.KeySelectorIsKeyGetter` | packages/node-config-provider/src/fromSharedConfigFiles.ts:46-49 | a key selector behaves as the getter reading that key |
| `AwsAuthPlugin.TestServiceIdMeaning` | codegen/smithy-aws-typescript-codegen/src/main/java/software/amazon/smithy/aws/typescript/codegen/AddAwsAuthPlugin.java:184-186 | the test holds iff the SDK id equals the expected one, a service without the trait comparing as `""` |
| `AwsAuthPlugin.HasOptionalAuthIsExists` | codegen/smithy-aws-typescript-codegen/src/main/java/software/amazon/smithy/aws/typescript/codegen/AddAwsAuthPlugin.java:205-214 | the early-return loop is "some operation is optional-auth" |
| `AwsAuthPlugin.AllOptionalAuthIsForall` | codegen/smithy-aws-typescript-codegen/src/main/java/software/amazon/smithy/aws/typescript/codegen/AddAwsAuthPlugin.java:216-225 | the early-return loop is "every operation is optional-auth" |
| `AwsAuthPlugin.AllAndHas` | codegen/smithy-aws-typescript-codegen/src/main/java/software/amazon/smithy/aws/typescript/codegen/AddAwsAuthPlugin.java:205-225 | with no operations "all" holds and "has" does not; with some, "all" implies "has" |
| `AwsAuthPlugin.ClientPlugins` | codegen/smithy-aws-typescript-codegen/src/main/java/software/amazon/smithy/aws/typescript/codegen/AddAwsAuthPlugin.java:77-101 | the client gets exactly the plugins whose service predicates hold |
| `AwsAuthPlugin.ExactlyOneSigningSource` | codegen/smithy-aws-typescript-codegen/src/main/java/software/amazon/smithy/aws/typescript/codegen/AddAwsAuthPlugin.java:91-99 | in a non-STS SigV4 service, an operation without optionalAuth is signed by exactly one plugin and one with it by none |
| `AwsAuthPlugin.UnsignedServiceHasNoSigning` | codegen/smithy-aws-typescript-codegen/src/main/java/software/amazon/smithy/aws/typescript/codegen/AddAwsAuthPlugin.java:77-101 | a non-STS service without SigV4 gets no plugin and no signing |
| `AwsAuthPlugin.StsSigning` | codegen/smithy-aws-typescript-codegen/src/main/java/software/amazon/smithy/aws/typescript/codegen/AddAwsAuthPlugin.java:188-196 | STS gets only its config plugin and signs every operation except the two role assumptions |
| `AwsAuthPlugin.NonStsOperationSigning` | codegen/smithy-aws-typescript-codegen/src/main/java/software/amazon/smithy/aws/typescript/codegen/AddAwsAuthPlugin.java:198-202 | outside STS an operation uses the per-operation plugin iff the service is SigV4, some operation is optional-auth, and this one is not |
| `AwsAuthPlugin.ConfigPluginsExclusive` | codegen/smithy-aws-typescript-codegen/src/main/java/software/amazon/smithy/aws/typescript/codegen/AddAwsAuthPlugin.java:79-89 | the `AwsAuth` and `StsAuth` config plugins never both apply |
| `AwsAuthPlugin.ConfigInterfaceFields` | codegen/smithy-aws-typescript-codegen/src/main/java/software/amazon/smithy/aws/typescript/codegen/AddAwsAuthPlugin.java:59-74 | `credentialDefaultProvider` is declared iff the service is SigV4 and some operation is not optional-auth |
| `AwsAuthPlugin.RuntimeConfigWriters` | codegen/smithy-aws-typescript-codegen/src/main/java/software/amazon/smithy/aws/typescript/codegen/AddAwsAuthPlugin.java:105-145 | the default provider is contributed iff SigV4, not all optional-auth, and the target is NODE or BROWSER; on NODE STS imports its decorator from its own file |
| `AwsAuthPlugin.DefaultProviderMatchesField` | codegen/smithy-aws-typescript-codegen/src/main/java/software/amazon/smithy/aws/typescript/codegen/AddAwsAuthPlugin.java:112-143 | a runtime default is contributed only where the interface field is declared, and on NODE and BROWSER exactly there |
| `AwsAuthPlugin.AdditionalExports` | codegen/smithy-aws-typescript-codegen/src/main/java/software/amazon/smithy/aws/typescript/codegen/AddAwsAuthPlugin.java:171-182 | only STS re-exports anything |
| `AwsAuthPlugin.AdditionalFiles` | codegen/smithy-aws-typescript-codegen/src/main/java/software/amazon/smithy/aws/typescript/codegen/AddAwsAuthPlugin.java:148-168 | only STS gets extra files, at most two |
| `AwsAuthPlugin.LocalModulesAreWritten` | codegen/smithy-aws-typescript-codegen/src/main/java/software/amazon/smithy/aws/typescript/codegen/AddAwsAuthPlugin.java:132-133 | every local module STS exports or imports is one of the files written for it |

## Left out

- HTTP transport and `context.endpoint()`: the request record has no hostname, protocol or port.
- Body streams (`collectBody`, `streamCollector`, `utf8Encoder`): a response body arrives already collected and parsed. The rule that a body is drained exactly once is not modelled.
- `JSON.parse` and floating point: bodies are parsed JSON values, and JSON numbers are integers. Fractional epoch seconds are therefore not modelled.
- `__extendedEncodeURIComponent` is imported code, so it is the opaque parameter `encode`.
- JavaScript `Date`: a date is its integer millisecond value.
- Promises: a resolved value is `Ok`/`Resolved` and a rejection is `Err`/`Rejected`. A thrown label error is a distinct `SerializeError`.
- `RestJsonOperations.LabelErrorMessage`: does not give the text of a TypeError thrown for a null label, because that text belongs to the JavaScript runtime.
- Request and response structures: the shape engine requires inputs that satisfy the TypeScript types and response bodies that follow the service model. What the generated code does with a string where a structure is declared is not modelled.
- `RestJsonOperations.DeserializeSuccess`: requires the success body to be an object of the output shape or `null`, for the reason above.
- `ServiceErrors.SanitizeProperty`: any non-string `code` or `__type` throws. JavaScript arrays also have `indexOf`, so an array-valued code would not throw there.
- Spreading a body that is a string or an array (`...parsedBody`) copies index keys in JavaScript. The model treats such a body as having no properties.
- Header maps are sequences of pairs, so they may repeat a name, which a JavaScript object cannot. The lookups return the first match.
- `toLowerCase` is modelled on ASCII letters only.
- `JsonValues.IntToString`: writes every integer in plain decimal. JavaScript's `Number.prototype.toString` switches to exponent form from 10^21 on (`1e+21`), and a JavaScript number holds integers exactly only up to 2^53, so the model agrees with the source for magnitudes below 2^53 only. The same holds for `JsonValues.JsText`.
- `Http.ZeroNumericText`: `Number(text)` is modelled only for the question whether it is 0, which is all `value.length != 0` asks.
- A structure deserialiser writes absent members as `undefined` keys. The model leaves such keys out of the map.
- Five operations and eleven error shapes are instantiated. The other operations of the file differ only in their descriptors, and the output shapes not listed in es_operations.dfy are not written out.
- The pagination helpers are not part of this model.
- In `fromSharedConfigFiles`, `loadSharedConfigFiles` (file I/O) and the `process.env` read are left out. The parsed configuration and the environment are parameters, and `loadedConfig` is not modelled.
- A getter is a total Dafny function whose throws are an outcome. An error without a message is the empty string. The rest of `ProviderError` (`tryNextLink`) is not modelled.
- In `AddAwsAuthPlugin`, code emission (`writer.write`, `addImport`, `addDependency`) is left out, and so are the resource files that `writeAdditionalFiles` copies.
- Smithy model indexing (`TopDownIndex`) is left out: a service lists its operations directly.
- `isSigV4Service` is not part of this model; it is the service's `sigV4` flag.
- clients/client-fsx/FSxClient.ts (client construction from imported resolvers and middleware) and clients/client-forecast/index.ts (re-exports only) are not part of this model.

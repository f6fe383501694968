/** Representative Amazon Elasticsearch Service operations as instances of the
    generic REST-JSON operation: one or two path labels, a query, a JSON body, an
    empty-string body, and structured, listed and absent outputs. */
module ElasticsearchOperations {
  import opened Results
  import opened JsonValues
  import opened Text
  import opened Shapes
  import opened Http
  import opened ServiceErrors
  import opened RestJsonOperations

  // ---------------------------------------------------------------- shapes

  const ErrorDetails := SStruct(map["ErrorMessage" := SString, "ErrorType" := SString])

  const DomainPackageDetails := SStruct(map[
    "DomainName" := SString, "DomainPackageStatus" := SString, "ErrorDetails" := ErrorDetails,
    "LastUpdated" := STimestamp, "PackageID" := SString, "PackageName" := SString,
    "PackageType" := SString, "PackageVersion" := SString, "ReferencePath" := SString])

  const Tag := SStruct(map["Key" := SString, "Value" := SString])

  const DomainInfo := SStruct(map["DomainName" := SString])

  const SamlIdp := SStruct(map["EntityId" := SString, "MetadataContent" := SString])

  const SamlOptionsOutput := SStruct(map[
    "Enabled" := SBool, "Idp" := SamlIdp, "RolesKey" := SString,
    "SessionTimeoutMinutes" := SNumber, "SubjectKey" := SString])

  const AdvancedSecurityOptions := SStruct(map[
    "Enabled" := SBool, "InternalUserDatabaseEnabled" := SBool, "SAMLOptions" := SamlOptionsOutput])

  const AutoTuneOptionsOutput := SStruct(map["ErrorMessage" := SString, "State" := SString])

  const CognitoOptions := SStruct(map[
    "Enabled" := SBool, "IdentityPoolId" := SString, "RoleArn" := SString, "UserPoolId" := SString])

  const DomainEndpointOptions := SStruct(map[
    "CustomEndpoint" := SString, "CustomEndpointCertificateArn" := SString,
    "CustomEndpointEnabled" := SBool, "EnforceHTTPS" := SBool, "TLSSecurityPolicy" := SString])

  const EbsOptions := SStruct(map[
    "EBSEnabled" := SBool, "Iops" := SNumber, "VolumeSize" := SNumber, "VolumeType" := SString])

  const ZoneAwarenessConfig := SStruct(map["AvailabilityZoneCount" := SNumber])

  const ElasticsearchClusterConfig := SStruct(map[
    "DedicatedMasterCount" := SNumber, "DedicatedMasterEnabled" := SBool,
    "DedicatedMasterType" := SString, "InstanceCount" := SNumber, "InstanceType" := SString,
    "WarmCount" := SNumber, "WarmEnabled" := SBool, "WarmType" := SString,
    "ZoneAwarenessConfig" := ZoneAwarenessConfig, "ZoneAwarenessEnabled" := SBool])

  const EncryptionAtRestOptions := SStruct(map["Enabled" := SBool, "KmsKeyId" := SString])

  const LogPublishingOption := SStruct(map["CloudWatchLogsLogGroupArn" := SString, "Enabled" := SBool])

  const NodeToNodeEncryptionOptions := SStruct(map["Enabled" := SBool])

  const ServiceSoftwareOptions := SStruct(map[
    "AutomatedUpdateDate" := STimestamp, "Cancellable" := SBool, "CurrentVersion" := SString,
    "Description" := SString, "NewVersion" := SString, "OptionalDeployment" := SBool,
    "UpdateAvailable" := SBool, "UpdateStatus" := SString])

  const SnapshotOptions := SStruct(map["AutomatedSnapshotStartHour" := SNumber])

  const VpcDerivedInfo := SStruct(map[
    "AvailabilityZones" := SList(SString), "SecurityGroupIds" := SList(SString),
    "SubnetIds" := SList(SString), "VPCId" := SString])

  const ElasticsearchDomainStatus := SStruct(map[
    "ARN" := SString, "AccessPolicies" := SString, "AdvancedOptions" := SMap(SString),
    "AdvancedSecurityOptions" := AdvancedSecurityOptions, "AutoTuneOptions" := AutoTuneOptionsOutput,
    "CognitoOptions" := CognitoOptions, "Created" := SBool, "Deleted" := SBool,
    "DomainEndpointOptions" := DomainEndpointOptions, "DomainId" := SString, "DomainName" := SString,
    "EBSOptions" := EbsOptions, "ElasticsearchClusterConfig" := ElasticsearchClusterConfig,
    "ElasticsearchVersion" := SString, "EncryptionAtRestOptions" := EncryptionAtRestOptions,
    "Endpoint" := SString, "Endpoints" := SMap(SString), "LogPublishingOptions" := SMap(LogPublishingOption),
    "NodeToNodeEncryptionOptions" := NodeToNodeEncryptionOptions, "Processing" := SBool,
    "ServiceSoftwareOptions" := ServiceSoftwareOptions, "SnapshotOptions" := SnapshotOptions,
    "UpgradeProcessing" := SBool, "VPCOptions" := VpcDerivedInfo])

  // ---------------------------------------------------------------- operations

  const DomainPathPrefix := "/2015-01-01/es/domain/"
  const AssociatePathPrefix := "/2015-01-01/packages/associate/"
  const PackagesPathPrefix := "/2015-01-01/packages/"

  const DeleteElasticsearchDomain := Operation(
    "DELETE", DomainPathPrefix + Placeholder("DomainName") + "", ["DomainName"], [], Undefined,
    [Member("DomainStatus", ElasticsearchDomainStatus)],
    [BaseException, InternalException, ResourceNotFoundException, ValidationException])

  const AssociatePackage := Operation(
    "POST", AssociatePathPrefix + Placeholder("PackageID") + "/" + Placeholder("DomainName") + "", ["PackageID", "DomainName"], [], Undefined,
    [Member("DomainPackageDetails", DomainPackageDetails)],
    [AccessDeniedException, BaseException, ConflictException, InternalException,
     ResourceNotFoundException, ValidationException])

  const AddTags := Operation(
    "POST", "/2015-01-01/tags", [], [],
    JsonBody(map["ARN" := SString, "TagList" := SList(Tag)]),
    [],
    [BaseException, InternalException, LimitExceededException, ValidationException])

  const ListDomainsForPackage := Operation(
    "GET", PackagesPathPrefix + Placeholder("PackageID") + "/domains", ["PackageID"],
    [QueryParam("MaxResults", "maxResults", true), QueryParam("NextToken", "nextToken", false)],
    Undefined,
    [Member("DomainPackageDetailsList", SList(DomainPackageDetails)), Member("NextToken", SString)],
    [AccessDeniedException, BaseException, InternalException, ResourceNotFoundException,
     ValidationException])

  const ListDomainNames := Operation(
    "GET", "/2015-01-01/domain", [], [], Blank,
    [Member("DomainNames", SList(DomainInfo))],
    [BaseException, ValidationException])

  /** The operations are well formed: output members are declared once and their
      errors are modelled shapes. */
  lemma OperationsWellFormed()
    ensures WellFormed(DeleteElasticsearchDomain) && WellFormed(AssociatePackage) && WellFormed(AddTags)
    ensures WellFormed(ListDomainsForPackage) && WellFormed(ListDomainNames)
  {
  }

  // ---------------------------------------------------------------- requests

  /** DeleteElasticsearchDomain: with a domain name the request is a DELETE of the
      prefix followed by the encoded name, without body or headers (URI encoding
      escapes `$`, so `replace` inserts the encoded name as it is). */
  lemma DeleteDomainRequest(input: map<string, Value>, encode: string -> string)
    requires InputTyped(DeleteElasticsearchDomain, input) && LabelUsable("DomainName", input)
    requires '$' !in encode(input["DomainName"].s)
    ensures var r := BuildRequest(DeleteElasticsearchDomain, input, encode);
      r.Ok? && r.value.verb == "DELETE" && r.value.path == DomainPathPrefix + encode(input["DomainName"].s)
      && r.value.body == NoBody && r.value.headers == map[]
  {
    assert ResolvePath(DeleteElasticsearchDomain.uri, DeleteElasticsearchDomain.labels, input, encode)
        == Ok(DomainPathPrefix + encode(input["DomainName"].s)) by {
      assert '{' !in DomainPathPrefix;
      OneLabelPath(DomainPathPrefix, "DomainName", "", input, encode);
      assert DomainPathPrefix + encode(input["DomainName"].s) + "" == DomainPathPrefix + encode(input["DomainName"].s);
    }
  }

  /** An encoder that let `$&` through would make `replace` put the matched
      placeholder back: the path would keep `{DomainName}`. */
  lemma DeleteDomainDollarPattern(input: map<string, Value>, encode: string -> string)
    requires InputTyped(DeleteElasticsearchDomain, input) && "DomainName" in input
    requires input["DomainName"] == VStr("d") && encode("d") == "$&"
    ensures var r := BuildRequest(DeleteElasticsearchDomain, input, encode);
      r.Ok? && r.value.path == DomainPathPrefix + Placeholder("DomainName")
  {
    var pre, pat := DomainPathPrefix, Placeholder("DomainName");
    assert '{' !in pre;
    SubstituteLabel(pre, "DomainName", "", input, encode);
    ExpandPatterns(pat, pre, "");
    assert pre + pat + "" == DeleteElasticsearchDomain.uri;
    assert ["DomainName"][1..] == [];
    assert ResolvePath(DeleteElasticsearchDomain.uri, DeleteElasticsearchDomain.labels, input, encode)
        == Ok(pre + pat + "");
  }

  /** DeleteElasticsearchDomain without a domain name, or with an empty one, throws
      the label error naming `DomainName`, before any request exists. */
  lemma DeleteDomainLabelErrors(input: map<string, Value>, encode: string -> string)
    requires InputTyped(DeleteElasticsearchDomain, input)
    ensures "DomainName" !in input ==>
      BuildRequest(DeleteElasticsearchDomain, input, encode) == Err(MissingLabel("DomainName"))
    ensures "DomainName" in input && input["DomainName"] == VStr("") ==>
      BuildRequest(DeleteElasticsearchDomain, input, encode) == Err(EmptyLabel("DomainName"))
      && LabelErrorMessage(EmptyLabel("DomainName")) == "Empty value provided for input HTTP label: DomainName."
  {
  }

  /** AssociatePackage: both labels are substituted in order. The second replacement
      finds its own placeholder as long as the first encoded value brings no '{'
      and neither brings a `$` (URI encoding escapes both). */
  lemma AssociatePackagePath(input: map<string, Value>, encode: string -> string)
    requires InputTyped(AssociatePackage, input)
    requires LabelUsable("PackageID", input) && LabelUsable("DomainName", input)
    requires '{' !in encode(input["PackageID"].s) && '$' !in encode(input["PackageID"].s)
    requires '$' !in encode(input["DomainName"].s)
    ensures var r := BuildRequest(AssociatePackage, input, encode);
      r.Ok? && r.value.verb == "POST"
      && r.value.path == AssociatePathPrefix + encode(input["PackageID"].s) + "/" + encode(input["DomainName"].s)
  {
    var path := AssociatePathPrefix + encode(input["PackageID"].s) + "/" + encode(input["DomainName"].s);
    assert ResolvePath(AssociatePackage.uri, AssociatePackage.labels, input, encode) == Ok(path) by {
      assert '{' !in AssociatePathPrefix;
      TwoLabelPath(AssociatePathPrefix, "PackageID", "/", "DomainName", "", input, encode);
      assert AssociatePathPrefix + encode(input["PackageID"].s) + "/" + encode(input["DomainName"].s) + "" == path;
    }
  }

  /** The labels are checked in template order: a missing `PackageID` is reported
      even when `DomainName` is missing too. */
  lemma AssociatePackageChecksPackageFirst(input: map<string, Value>, encode: string -> string)
    requires InputTyped(AssociatePackage, input) && "PackageID" !in input
    ensures BuildRequest(AssociatePackage, input, encode) == Err(MissingLabel("PackageID"))
  {
  }

  /** AddTags: a JSON body with exactly the defined, non-null members, its tag list
      without null entries and in order, and the JSON content type. */
  lemma AddTagsRequest(input: map<string, Value>, encode: string -> string)
    requires InputTyped(AddTags, input)
    ensures var r := BuildRequest(AddTags, input, encode);
      && r.Ok?
      && r.value.headers == map["content-type" := "application/json"]
      && r.value.body.JsonText?
      && ("ARN" in r.value.body.json.fields <==> "ARN" in input && input["ARN"] != VNull)
      && ("TagList" in r.value.body.json.fields <==> "TagList" in input && input["TagList"] != VNull)
      && r.value.body.json.fields.Keys <= {"ARN", "TagList"}
  {
  }

  /** AddTags sends its tag list without the null entries, the others in order. */
  lemma AddTagsTagList(input: map<string, Value>, encode: string -> string)
    requires InputTyped(AddTags, input) && "TagList" in input && input["TagList"] != VNull
    ensures var tl := input["TagList"];
      && WellTyped(SList(Tag), tl)
      && BuildRequest(AddTags, input, encode).Ok?
      && BuildRequest(AddTags, input, encode).value.body.JsonText?
      && "TagList" in BuildRequest(AddTags, input, encode).value.body.json.fields
      && var tags := BuildRequest(AddTags, input, encode).value.body.json.fields["TagList"];
      && tags == Arr(SerializeItems(Tag, tl.items))
      && |tags.items| == |NonNulls(tl.items)| <= |tl.items|
      && forall i :: 0 <= i < |tags.items| ==> tags.items[i] == Serialize(Tag, NonNulls(tl.items)[i])
  {
    var tl := input["TagList"];
    var ms := AddTags.body.members;
    assert ms["TagList"] == SList(Tag);
    assert WellTyped(SList(Tag), tl);
    var body := Serialize(SStruct(ms), VObj(input));
    assert body.fields["TagList"] == Serialize(SList(Tag), tl);
    assert BuildRequest(AddTags, input, encode).value.body == JsonText(body);
    ListSerializationKeepsOrder(Tag, tl.items);
  }

  /** ListDomainsForPackage: `maxResults` is sent iff `MaxResults` is defined, as the
      number's decimal text; `nextToken` iff `NextToken` is defined, null included. */
  lemma ListDomainsForPackageQuery(input: map<string, Value>, encode: string -> string)
    requires InputTyped(ListDomainsForPackage, input) && LabelUsable("PackageID", input)
    requires "MaxResults" in input ==> input["MaxResults"].VNum?
    ensures var r := BuildRequest(ListDomainsForPackage, input, encode);
      && r.Ok?
      && ("maxResults" in r.value.query <==> "MaxResults" in input)
      && ("nextToken" in r.value.query <==> "NextToken" in input)
      && ("MaxResults" in input ==>
            r.value.query["maxResults"] == QueryText(IntToString(input["MaxResults"].n))
            && ParseInt(r.value.query["maxResults"].text) == input["MaxResults"].n)
  {
    var ps := ListDomainsForPackage.query;
    assert DistinctKeys(ps);
    var q := BuildQuery(ps, input);
    assert q.Ok?;
    QueryKeysFollowDefinedMembers(ps, input, 0);
    QueryKeysFollowDefinedMembers(ps, input, 1);
  }

  /** A null `MaxResults` cannot be stringified and the request is not built. */
  lemma ListDomainsForPackageNullMax(input: map<string, Value>, encode: string -> string)
    requires InputTyped(ListDomainsForPackage, input) && LabelUsable("PackageID", input)
    requires "MaxResults" in input && input["MaxResults"] == VNull
    ensures BuildRequest(ListDomainsForPackage, input, encode) == Err(InputTypeError(NullPropertyRead))
  {
    NullNumberThrows(ListDomainsForPackage.query, input, 0);
  }

  /** ListDomainNames sends the empty string as its body and no content type. */
  lemma ListDomainNamesRequest(input: map<string, Value>, encode: string -> string)
    requires InputTyped(ListDomainNames, input)
    ensures var r := BuildRequest(ListDomainNames, input, encode);
      r.Ok? && r.value.body == EmptyText && r.value.headers == map[] && r.value.path == "/2015-01-01/domain"
  {
  }

  // ---------------------------------------------------------------- responses

  /** AddTags has no output: a success resolves with the metadata alone, whatever
      the body holds. */
  lemma AddTagsSuccessIgnoresBody(output: HttpResponse)
    requires output.statusCode < 300
    ensures ResponseOutcome(AddTags, output) == Resolved(CommandOutput(DeserializeMetadata(output), map[]))
  {
  }

  /** A 404 naming `ResourceNotFoundException` in the error-type header rejects
      DeleteElasticsearchDomain with that client-fault exception. */
  lemma DeleteDomainNotFound(value: string, fields: map<string, Json>)
    requires SanitizeErrorCode(value) == ShapeName(ResourceNotFoundException)
    ensures WellFormed(DeleteElasticsearchDomain)
      && var output := HttpResponse(404, [(ErrorTypeHeader, value)], JsonPayload(Obj(fields)));
      var r := ResponseOutcome(DeleteElasticsearchDomain, output);
      && r.Rejected? && r.rejection.ServiceException?
      && r.rejection.props["name"] == Str(ShapeName(ResourceNotFoundException))
      && r.rejection.props["$fault"] == Str("client")
  {
    OperationsWellFormed();
    ListedErrorFromHeader(DeleteElasticsearchDomain, ResourceNotFoundException, [(ErrorTypeHeader, value)], 0, 404, fields);
    assert FaultText(FaultOf(ResourceNotFoundException)) == Str("client");
  }

  /** The mixed-case spelling of the error-type header lower-cases to it. */
  lemma MixedCaseErrorType()
    ensures Lower("X-Amzn-ErrorType") == Lower(ErrorTypeHeader)
  {
    ErrorTypeHeaderIsLowerCase();
  }

  /** The error-type header is found in any case and after other headers: a
      request id followed by `X-Amzn-ErrorType` still selects the shape. */
  lemma DeleteDomainNotFoundAfterOtherHeaders(requestId: string, value: string, fields: map<string, Json>)
    requires SanitizeErrorCode(value) == ShapeName(ResourceNotFoundException)
    ensures var output := HttpResponse(404, [(RequestIdHeader, requestId), ("X-Amzn-ErrorType", value)],
                                       JsonPayload(Obj(fields)));
      var r := ResponseOutcome(DeleteElasticsearchDomain, output);
      && r.Rejected? && r.rejection.ServiceException?
      && r.rejection.props["name"] == Str(ShapeName(ResourceNotFoundException))
      && r.rejection.metadata.requestId == Some(requestId)
  {
    var h: Headers := [(RequestIdHeader, requestId), ("X-Amzn-ErrorType", value)];
    assert FindKeyIgnoringCase(h, ErrorTypeHeader) == Some(1) by {
      assert Lower(h[0].0) != Lower(ErrorTypeHeader) by {
        assert Lower(h[0].0)[7] == 'r' && Lower(ErrorTypeHeader)[7] == 'e';
      }
      assert Lower(h[1].0) == Lower(ErrorTypeHeader) by { MixedCaseErrorType(); }
      FirstMatchIsFound(h, ErrorTypeHeader, 1);
    }
    assert Lookup(h, RequestIdHeader) == Some(requestId);
    OperationsWellFormed();
    ListedErrorFromHeader(DeleteElasticsearchDomain, ResourceNotFoundException, h, 1, 404, fields);
  }

  /** A listed `InternalException` is the one server fault. */
  lemma InternalExceptionIsServerFault(value: string, fields: map<string, Json>, status: int)
    requires SanitizeErrorCode(value) == ShapeName(InternalException) && status >= 300
    ensures WellFormed(AssociatePackage)
      && var output := HttpResponse(status, [(ErrorTypeHeader, value)], JsonPayload(Obj(fields)));
      var r := ResponseOutcome(AssociatePackage, output);
      r.Rejected? && r.rejection.ServiceException? && r.rejection.props["$fault"] == Str("server")
  {
    OperationsWellFormed();
    ListedErrorFromHeader(AssociatePackage, InternalException, [(ErrorTypeHeader, value)], 0, status, fields);
    assert FaultText(FaultOf(InternalException)) == Str("server");
  }

  /** ListDomainsForPackage: a null `NextToken` in a success body is left out of the
      output, and the package list loses its null entries. */
  lemma ListDomainsForPackageSuccess(output: HttpResponse, items: seq<Json>)
    requires output.statusCode == 200
    requires output.body == JsonPayload(Obj(map["DomainPackageDetailsList" := Arr(items), "NextToken" := Null]))
    requires forall i :: 0 <= i < |items| ==> items[i] == Null || Conforms(DomainPackageDetails, items[i])
    ensures SuccessBodyConforms(ListDomainsForPackage, output)
      && var r := ResponseOutcome(ListDomainsForPackage, output);
      && r.Resolved?
      && r.output.contents == map["DomainPackageDetailsList" := VList(DeserializeItems(DomainPackageDetails, items))]
  {
    ListAndNullMemberSuccess(ListDomainsForPackage, "DomainPackageDetailsList", DomainPackageDetails,
                             "NextToken", SString, output, items);
  }
}

/** The code generator's AWS authentication integration: which signing plugins a
    generated client gets, for the whole service and per operation, and which
    credential configuration it declares. A service is described by its SDK id,
    whether it signs with SigV4, and its operations with their `@optionalAuth`
    marks. */
module AwsAuthPlugin {
  import opened Results

  datatype Operation = Operation(name: string, optionalAuth: bool)

  /** A service: its `aws.api#service` SDK id when the trait is present, whether it
      is a SigV4 service, and the operations it contains. */
  datatype Service = Service(sdkId: Option<string>, sigV4: bool, operations: seq<Operation>)

  /** The generated runtime configuration targets that matter here. */
  datatype Target = Node | Browser | OtherTarget(name: string)

  const Sts := "STS"
  const RoleAssumersFile := "defaultRoleAssumers"
  const StsRoleAssumersFile := "defaultStsRoleAssumers"
  const CredentialDefaultProvider := "credentialDefaultProvider"

  /** `testServiceId`: the SDK id, or `""` without the trait, equals `expected`. */
  predicate TestServiceId(service: Service, expected: string) {
    service.sdkId.GetOr("") == expected
  }

  lemma TestServiceIdMeaning(service: Service, expected: string)
    ensures TestServiceId(service, expected) <==>
      (service.sdkId.Some? && service.sdkId.value == expected) || (service.sdkId.None? && expected == "")
    ensures TestServiceId(service, Sts) ==> service.sdkId == Some(Sts)
  {
  }

  /** `hasOptionalAuthOperation`: the loop returns true at the first operation
      marked `@optionalAuth`. */
  predicate HasOptionalAuth(ops: seq<Operation>) {
    if ops == [] then false
    else if ops[0].optionalAuth then true
    else HasOptionalAuth(ops[1..])
  }

  /** `areAllOptionalAuthOperations`: the loop returns false at the first operation
      without `@optionalAuth`. */
  predicate AllOptionalAuth(ops: seq<Operation>) {
    if ops == [] then true
    else if !ops[0].optionalAuth then false
    else AllOptionalAuth(ops[1..])
  }

  lemma {:induction false} HasOptionalAuthIsExists(ops: seq<Operation>)
    ensures HasOptionalAuth(ops) <==> exists i :: 0 <= i < |ops| && ops[i].optionalAuth
  {
    if ops != [] {
      HasOptionalAuthIsExists(ops[1..]);
      if !ops[0].optionalAuth && exists i :: 0 <= i < |ops| && ops[i].optionalAuth {
        var i :| 0 <= i < |ops| && ops[i].optionalAuth;
        assert ops[1..][i - 1] == ops[i];
      }
      if HasOptionalAuth(ops[1..]) {
        var i :| 0 <= i < |ops[1..]| && ops[1..][i].optionalAuth;
        assert ops[i + 1] == ops[1..][i];
      }
    }
  }

  lemma {:induction false} AllOptionalAuthIsForall(ops: seq<Operation>)
    ensures AllOptionalAuth(ops) <==> forall i :: 0 <= i < |ops| ==> ops[i].optionalAuth
  {
    if ops != [] {
      AllOptionalAuthIsForall(ops[1..]);
      if AllOptionalAuth(ops) {
        forall i | 0 <= i < |ops|
          ensures ops[i].optionalAuth
        {
          if i > 0 {
            assert ops[1..][i - 1] == ops[i];
          }
        }
      }
      if forall i :: 0 <= i < |ops| ==> ops[i].optionalAuth {
        forall i | 0 <= i < |ops[1..]|
          ensures ops[1..][i].optionalAuth
        {
          assert ops[1..][i] == ops[i + 1];
        }
      }
    }
  }

  /** With no operations, every operation is optional-auth and none is; with some,
      "all" implies "has". */
  lemma AllAndHas(ops: seq<Operation>)
    ensures ops == [] ==> AllOptionalAuth(ops) && !HasOptionalAuth(ops)
    ensures ops != [] && AllOptionalAuth(ops) ==> HasOptionalAuth(ops)
    ensures !HasOptionalAuth(ops) && ops != [] ==> !AllOptionalAuth(ops)
  {
    HasOptionalAuthIsExists(ops);
    AllOptionalAuthIsForall(ops);
  }

  /** `operationUsesAwsAuth`: STS signs every operation except the two role
      assumptions that authenticate themselves; otherwise an operation is signed
      on its own only in a SigV4 service that has optional-auth operations, and
      then exactly when it is not one of them. */
  predicate OperationUsesAwsAuth(service: Service, op: Operation) {
    if TestServiceId(service, Sts) then
      op.name != "AssumeRoleWithWebIdentity" && op.name != "AssumeRoleWithSAML"
    else if service.sigV4 && HasOptionalAuth(service.operations) then
      !op.optionalAuth
    else
      false
  }

  // ---------------------------------------------------------------- plugins

  /** The four plugins of `getClientPlugins`, in order. */
  datatype Plugin =
    | AwsAuthConfig             // resolveAwsAuthConfig for non-STS SigV4 services
    | StsAuthConfig             // resolveStsAuthConfig for STS
    | AwsAuthServiceMiddleware  // signing middleware on every command of the service
    | AwsAuthOperationMiddleware // signing middleware on selected commands

  /** Whether a plugin applies to the client as a whole. */
  predicate ServicePredicate(plugin: Plugin, service: Service) {
    match plugin
    case AwsAuthConfig =>
      service.sigV4 && !AllOptionalAuth(service.operations) && !TestServiceId(service, Sts)
    case StsAuthConfig => TestServiceId(service, Sts)
    case AwsAuthServiceMiddleware =>
      !TestServiceId(service, Sts) && service.sigV4 && !HasOptionalAuth(service.operations)
    case AwsAuthOperationMiddleware => false
  }

  /** Whether a plugin applies to one operation's command. */
  predicate OperationPredicate(plugin: Plugin, service: Service, op: Operation) {
    plugin == AwsAuthOperationMiddleware && OperationUsesAwsAuth(service, op)
  }

  /** The plugins the client gets, in the order `getClientPlugins` lists them. */
  function ClientPlugins(service: Service): (ps: seq<Plugin>)
    ensures forall p :: p in ps <==> ServicePredicate(p, service)
  {
    (if ServicePredicate(AwsAuthConfig, service) then [AwsAuthConfig] else [])
    + (if ServicePredicate(StsAuthConfig, service) then [StsAuthConfig] else [])
    + (if ServicePredicate(AwsAuthServiceMiddleware, service) then [AwsAuthServiceMiddleware] else [])
  }

  /** How many of the plugins put signing middleware on an operation's command. */
  function SigningSources(service: Service, op: Operation): (n: nat)
    ensures n <= 2
  {
    (if ServicePredicate(AwsAuthServiceMiddleware, service) then 1 else 0)
    + (if OperationPredicate(AwsAuthOperationMiddleware, service, op) then 1 else 0)
  }

  /** In a SigV4 service other than STS, an operation of the service is signed by
      exactly one plugin unless it is marked `@optionalAuth`, and then by none. */
  lemma ExactlyOneSigningSource(service: Service, op: Operation)
    requires !TestServiceId(service, Sts) && service.sigV4 && op in service.operations
    ensures SigningSources(service, op) == if op.optionalAuth then 0 else 1
  {
    HasOptionalAuthIsExists(service.operations);
    if op.optionalAuth {
      var i :| 0 <= i < |service.operations| && service.operations[i] == op;
    }
  }

  /** A service that does not sign with SigV4 and is not STS gets no signing at all. */
  lemma UnsignedServiceHasNoSigning(service: Service, op: Operation)
    requires !TestServiceId(service, Sts) && !service.sigV4
    ensures SigningSources(service, op) == 0 && ClientPlugins(service) == []
  {
  }

  /** For STS, only the per-operation middleware signs, and it signs every
      operation except the two role assumptions. */
  lemma StsSigning(service: Service, op: Operation)
    requires TestServiceId(service, Sts)
    ensures ClientPlugins(service) == [StsAuthConfig]
    ensures SigningSources(service, op) == 1 <==> op.name !in {"AssumeRoleWithWebIdentity", "AssumeRoleWithSAML"}
  {
  }

  /** Outside STS, an operation is signed on its own exactly when the service is
      SigV4, some operation is optional-auth, and this one is not. */
  lemma NonStsOperationSigning(service: Service, op: Operation)
    requires !TestServiceId(service, Sts)
    ensures OperationUsesAwsAuth(service, op) <==>
      service.sigV4 && (exists i :: 0 <= i < |service.operations| && service.operations[i].optionalAuth)
      && !op.optionalAuth
  {
    HasOptionalAuthIsExists(service.operations);
  }

  /** The two configuration plugins never both apply. */
  lemma ConfigPluginsExclusive(service: Service)
    ensures !(ServicePredicate(AwsAuthConfig, service) && ServicePredicate(StsAuthConfig, service))
  {
  }

  // ---------------------------------------------------------------- configuration

  /** `addConfigInterfaceFields`: the optional `credentialDefaultProvider` field is
      declared for SigV4 services with an operation that needs authentication. */
  function ConfigInterfaceFields(service: Service): (fields: seq<string>)
    ensures CredentialDefaultProvider in fields <==>
      service.sigV4 && exists i :: 0 <= i < |service.operations| && !service.operations[i].optionalAuth
    ensures |fields| <= 1
  {
    AllOptionalAuthIsForall(service.operations);
    if !service.sigV4 then []
    else if !AllOptionalAuth(service.operations) then [CredentialDefaultProvider]
    else []
  }

  /** Where the Node runtime imports `decorateDefaultCredentialProvider` from: the
      STS client package, or STS's own role-assumers file. */
  datatype DecoratorSource = StsClientPackage | LocalFile(path: string)

  /** `getRuntimeConfigWriters`: the runtime configuration entries contributed for a
      target, with the Node entry's decorator source. */
  function RuntimeConfigWriters(service: Service, target: Target): (m: map<string, Option<DecoratorSource>>)
    ensures m.Keys <= {CredentialDefaultProvider}
    ensures CredentialDefaultProvider in m <==> service.sigV4 && !AllOptionalAuth(service.operations) && !target.OtherTarget?
    ensures target == Node && CredentialDefaultProvider in m ==>
      m[CredentialDefaultProvider] == Some(if TestServiceId(service, Sts) then LocalFile("./" + StsRoleAssumersFile)
                                            else StsClientPackage)
  {
    if !service.sigV4 || AllOptionalAuth(service.operations) then map[]
    else match target
      case Browser => map[CredentialDefaultProvider := None]
      case Node =>
        map[CredentialDefaultProvider :=
              Some(if !TestServiceId(service, Sts) then StsClientPackage else LocalFile("./" + StsRoleAssumersFile))]
      case OtherTarget(_) => map[]
  }

  /** The interface field and the runtime default go together: a target that gets
      a default is one whose configuration declares the field. */
  lemma DefaultProviderMatchesField(service: Service, target: Target)
    ensures CredentialDefaultProvider in RuntimeConfigWriters(service, target) ==> ConfigInterfaceFields(service) == [CredentialDefaultProvider]
    ensures target.Node? || target.Browser? ==>
      (CredentialDefaultProvider in RuntimeConfigWriters(service, target) <==> CredentialDefaultProvider in ConfigInterfaceFields(service))
  {
    AllOptionalAuthIsForall(service.operations);
  }

  /** `writeAdditionalExports`: STS re-exports its role assumers; no other service
      exports anything. */
  function AdditionalExports(service: Service): (exports: seq<string>)
    ensures exports != [] <==> TestServiceId(service, Sts)
  {
    if TestServiceId(service, Sts) then ["./" + RoleAssumersFile] else []
  }

  /** `writeAdditionalFiles`: STS gets both role-assumer modules written next to the
      client; no other service gets a file. The files' contents are left out. */
  function AdditionalFiles(service: Service): (files: seq<string>)
    ensures files != [] <==> TestServiceId(service, Sts)
    ensures |files| <= 2
  {
    if TestServiceId(service, Sts) then [RoleAssumersFile + ".ts", StsRoleAssumersFile + ".ts"] else []
  }

  /** The module path `./name` is the file `name.ts`. */
  predicate ModuleIsFile(modulePath: string, files: seq<string>) {
    |modulePath| >= 2 && modulePath[..2] == "./" && modulePath[2..] + ".ts" in files
  }

  /** Every module STS refers to is one of the files it is given: the re-exported
      role assumers, and the file the Node runtime imports its decorator from. */
  lemma LocalModulesAreWritten(service: Service, target: Target)
    ensures forall e :: e in AdditionalExports(service) ==> ModuleIsFile(e, AdditionalFiles(service))
    ensures var m := RuntimeConfigWriters(service, target);
      CredentialDefaultProvider in m && m[CredentialDefaultProvider].Some?
      && m[CredentialDefaultProvider].value.LocalFile? ==>
        ModuleIsFile(m[CredentialDefaultProvider].value.path, AdditionalFiles(service))
  {
    assert ("./" + RoleAssumersFile)[2..] == RoleAssumersFile;
    assert ("./" + StsRoleAssumersFile)[2..] == StsRoleAssumersFile;
  }
}

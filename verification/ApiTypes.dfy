/** The App and Space specifications of api/v1beta2 and their validation. */
module ApiTypes {

  datatype SpecError =
    | DomainNameMissing
    | HttpCertSecretNameMissing
    | InvalidProjectName
    | InvalidPort
    | NoTcpCert
    | BothUrlPathAndDisableTcpVerify
    | SpaceHasNoTcpCert
    | SpaceHasNoHttpCert
    | EgressHasNoSecret
    | EgressHasNoDestination

  datatype Result<+T> = Ok(value: T) | Err(error: SpecError)

  type int32 = x: int | -0x8000_0000 <= x < 0x8000_0000

  /** Conversion to int32, which wraps around. */
  function Wrap32(x: int): int32 {
    (x + 0x8000_0000) % 0x1_0000_0000 - 0x8000_0000
  }

  datatype EnvVar = EnvVar(name: string, value: string)

  datatype Container = Container(name: string, ports: seq<int32>, env: seq<EnvVar>, mounts: seq<string>)

  datatype Volume = Volume(name: string, secretName: string)

  datatype Pod = Pod(containers: seq<Container>, volumes: seq<Volume>, serviceAccountName: string)

  datatype EndpointSpec = EndpointSpec(
    name: string,
    port: int32,
    isMetricsEndpoint: bool,
    tlsListenPort: int32,
    certAndCaSecretName: string,
    httpPath: string,
    rewritePath: string,
    httpLocalhostOnly: bool,
    createDnsRecord: bool,
    disableTlsTermination: bool,
    disableTcpClientTlsVerification: bool,
    sniHostname: string,
    tcpHostnameSuffix: string,
    additionalIngressAnnotations: map<string, string>)

  datatype TlsEgress = TlsEgress(
    fqdn: string,
    endpoint: string,
    spaceName: string,
    targetPort: int32,
    localPort: int32,
    certAndCaSecretName: string,
    springBoardDelaySeconds: int32,
    disableServerCertVerification: bool)

  datatype AppSpec = AppSpec(
    pod: Pod,
    initialReplicas: int32,
    egresses: seq<TlsEgress>,
    runAsJob: bool,
    jobBackoffLimit: int32,
    endpoints: seq<EndpointSpec>,
    firstEndpointListenPort: int32,
    permissions: seq<string>,
    domainEnvVarName: string)

  datatype App = App(name: string, namespace: string, spec: AppSpec)

  datatype SpaceSpec = SpaceSpec(
    domainName: string,
    project: string,
    httpCertSecretName: string,
    tcpCertAndCaSecretName: string,
    encryptHttp: bool,
    deleteHttpCertSecretAfterCopy: bool,
    deleteTcpCertAndCaSecretAfterCopy: bool,
    disablePrivateIngressController: bool,
    privateIngressControllerTcpEndpoints: seq<string>,
    privateIngressControllerTcpHostnameSuffix: string,
    hasPermissions: bool,
    createDefaultHttpDeploymentAndIngress: bool)

  const RESERVED_PROJECT_NAME := "system"

  function ValidateSpace(spec: SpaceSpec): Result<()> {
    if spec.domainName == "" then Err(DomainNameMissing)
    else if spec.httpCertSecretName == "" then Err(HttpCertSecretNameMissing)
    else if spec.project == RESERVED_PROJECT_NAME then Err(InvalidProjectName)
    else Ok(())
  }

  function ValidateEndpoint(e: EndpointSpec, tcpCertAndCaSecretName: string): Result<()> {
    if e.port == 0 then Err(InvalidPort)
    else if e.httpPath == "" && tcpCertAndCaSecretName == "" then Err(NoTcpCert)
    else if e.httpPath != "" && e.disableTcpClientTlsVerification then Err(BothUrlPathAndDisableTcpVerify)
    else Ok(())
  }

  ghost predicate ValidApp(spec: AppSpec, tcpCertAndCaSecretName: string) {
    forall k :: 0 <= k < |spec.endpoints| ==> ValidateEndpoint(spec.endpoints[k], tcpCertAndCaSecretName).Ok?
  }

  /** AppSpec.Validate: passes exactly when every endpoint does, and otherwise reports the
      fault of the first endpoint that has one. */
  method ValidateApp(spec: AppSpec, tcpCertAndCaSecretName: string) returns (r: Result<()>)
    ensures r.Ok? <==> ValidApp(spec, tcpCertAndCaSecretName)
    ensures r.Err? ==> exists k ::
              && 0 <= k < |spec.endpoints|
              && ValidateEndpoint(spec.endpoints[k], tcpCertAndCaSecretName) == Err(r.error)
              && forall j :: 0 <= j < k ==> ValidateEndpoint(spec.endpoints[j], tcpCertAndCaSecretName).Ok?
  {
    for i := 0 to |spec.endpoints|
      invariant forall j :: 0 <= j < i ==> ValidateEndpoint(spec.endpoints[j], tcpCertAndCaSecretName).Ok?
    {
      var e := spec.endpoints[i];
      if e.port == 0 {
        return Err(InvalidPort);
      }
      if e.httpPath == "" && tcpCertAndCaSecretName == "" {
        return Err(NoTcpCert);
      }
      if e.httpPath != "" && e.disableTcpClientTlsVerification {
        return Err(BothUrlPathAndDisableTcpVerify);
      }
    }
    r := Ok(());
  }

  /** Exactly which space specifications are rejected, and with which error. */
  lemma SpaceRejectedIff(spec: SpaceSpec)
    ensures ValidateSpace(spec).Ok? <==>
              spec.domainName != "" && spec.httpCertSecretName != "" && spec.project != "system"
    ensures ValidateSpace(spec) == Err(DomainNameMissing) <==> spec.domainName == ""
    ensures ValidateSpace(spec) == Err(HttpCertSecretNameMissing) <==>
              spec.domainName != "" && spec.httpCertSecretName == ""
  {
  }

  /** Exactly which app specifications are accepted: with a port for every endpoint, a TCP
      certificate if there is a TCP endpoint, and no opting out of client verification, which
      is for TCP, at an endpoint with a URL path. */
  lemma AppAcceptedIff(spec: AppSpec, tcpCertAndCaSecretName: string)
    ensures ValidApp(spec, tcpCertAndCaSecretName) <==>
              forall k :: 0 <= k < |spec.endpoints| ==>
                && spec.endpoints[k].port != 0
                && (spec.endpoints[k].httpPath == "" ==> tcpCertAndCaSecretName != "")
                && (spec.endpoints[k].httpPath != "" ==> !spec.endpoints[k].disableTcpClientTlsVerification)
  {
    assert forall k :: 0 <= k < |spec.endpoints| ==>
        var e := spec.endpoints[k];
        ValidateEndpoint(e, tcpCertAndCaSecretName).Ok? ==
        (e.port != 0 && (e.httpPath == "" ==> tcpCertAndCaSecretName != "")
         && (e.httpPath != "" ==> !e.disableTcpClientTlsVerification));
  }
}

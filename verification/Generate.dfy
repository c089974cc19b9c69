/** The compiler from an App to Kubernetes objects, pkg/app/generate.go and
    pkg/k8sutil/ingress.go. Builders that change the pod or loop are methods; each is proved
    against the function that says what it yields. */
module Generate {
  import opened ApiTypes
  import opened Decimal
  import opened Stunnel

  type Labels = map<string, string>

  datatype IngressRule = IngressRule(host: string, path: string, serviceName: string, servicePort: int32)

  datatype IngressTls = IngressTls(host: string, secretName: string)

  datatype Object =
    | ServiceAccount(name: string, namespace: string)
    | Role(name: string, rules: seq<string>)
    | RoleBinding(name: string, subjectName: string, subjectNamespace: string, roleName: string)
    | Service(name: string, labels: Labels, port: int32, portName: string, targetPort: int32, selector: Labels)
    | Ingress(name: string, labels: Labels, annotations: Labels, ingressRules: seq<IngressRule>, tls: seq<IngressTls>)
    | Job(name: string, namespace: string, labels: Labels, podLabels: Labels, pod: Pod, backoffLimit: int32)
    | Deployment(name: string, namespace: string, labels: Labels, selector: Labels, podLabels: Labels, pod: Pod,
                 replicas: int32)

  const DERIVED_FROM := "decco-derived-from"
  const DECCO_APP := "decco-app"

  function OwnedLabels(app: App): Labels {
    map[DERIVED_FROM := "app", DECCO_APP := app.name]
  }

  // ----- environment variable and permissions ------------------------------------------

  function WithDomain(space: SpaceSpec, app: App, c: Container): Container {
    if app.spec.domainEnvVarName == "" then c
    else c.(env := c.env + [EnvVar(app.spec.domainEnvVarName, space.domainName)])
  }

  method InsertDomainEnvVarIntoPod(space: SpaceSpec, app: App, podSpec: PodSpec)
    modifies podSpec`containers
    ensures |podSpec.containers| == |old(podSpec.containers)|
    ensures forall i :: 0 <= i < |podSpec.containers| ==>
              podSpec.containers[i] == WithDomain(space, app, old(podSpec.containers)[i])
  {
    if app.spec.domainEnvVarName == "" {
      return;
    }
    ghost var was := podSpec.containers;
    for i := 0 to |podSpec.containers|
      invariant |podSpec.containers| == |was|
      invariant forall j :: 0 <= j < i ==> podSpec.containers[j] == WithDomain(space, app, was[j])
      invariant forall j :: i <= j < |was| ==> podSpec.containers[j] == was[j]
    {
      var c := podSpec.containers[i];
      c := c.(env := c.env + [EnvVar(app.spec.domainEnvVarName, space.domainName)]);
      podSpec.containers := podSpec.containers[i := c];
    }
  }

  function SaName(app: App): string {
    if app.spec.pod.serviceAccountName == "" then app.name else app.spec.pod.serviceAccountName
  }

  function RbacObjects(app: App): seq<Object> {
    if app.spec.permissions == [] then []
    else
      (if app.spec.pod.serviceAccountName == "" then [ServiceAccount(app.name, app.namespace)] else [])
      + [Role(SaName(app), app.spec.permissions), RoleBinding(SaName(app), SaName(app), app.namespace, SaName(app))]
  }

  method GenerateRbac(app: App, podSpec: PodSpec) returns (objects: seq<Object>)
    requires podSpec.serviceAccountName == app.spec.pod.serviceAccountName
    modifies podSpec`serviceAccountName
    ensures objects == RbacObjects(app)
    ensures podSpec.serviceAccountName ==
            if app.spec.permissions == [] then app.spec.pod.serviceAccountName else SaName(app)
  {
    objects := [];
    if |app.spec.permissions| == 0 {
      return;
    }
    var saName := podSpec.serviceAccountName;
    if saName == "" {
      saName := app.name;
      objects := objects + [ServiceAccount(saName, app.namespace)];
    }
    podSpec.serviceAccountName := saName;
    objects := objects + [Role(saName, app.spec.permissions), RoleBinding(saName, saName, app.namespace, saName)];
  }

  // ----- endpoints ---------------------------------------------------------------------

  /** Port of the service, port it targets, and the TLS side-car in between, if any. */
  datatype Wiring = Wiring(svcPort: int32, tgtPort: int32, sidecar: seq<Sidecar>)

  /** The secret and chain verification of the TLS termination in front of an endpoint;
      none for a metrics endpoint, for TCP with termination disabled, for clear HTTP. */
  datatype Termination = Clear | Tls(secret: string, verifyChain: string, nginxStyle: bool)

  function TerminationOf(space: SpaceSpec, e: EndpointSpec): Result<Termination> {
    if e.isMetricsEndpoint then Ok(Clear)
    else if e.httpPath == "" then
      if e.disableTlsTermination then Ok(Clear)
      else
        var secret := if e.certAndCaSecretName == "" then space.tcpCertAndCaSecretName else e.certAndCaSecretName;
        if secret == "" then Err(SpaceHasNoTcpCert)
        else Ok(Tls(secret, if e.disableTcpClientTlsVerification then "no" else "yes", false))
    else if space.encryptHttp then
      if e.certAndCaSecretName != "" then Ok(Tls(e.certAndCaSecretName, "yes", true))
      else if space.httpCertSecretName == "" then Err(SpaceHasNoHttpCert)
      else Ok(Tls(space.httpCertSecretName, "no", true))
    else Ok(Clear)
  }

  function ListenPort(app: App, e: EndpointSpec, index: nat): int32 {
    if e.tlsListenPort != 0 then e.tlsListenPort
    else
      var base := if app.spec.firstEndpointListenPort == 0 then TLS_PORT else app.spec.firstEndpointListenPort;
      Wrap32(base + Wrap32(index))
  }

  function IngressSidecar(app: App, e: EndpointSpec, t: Termination, index: nat): Sidecar
    requires t.Tls?
  {
    Sidecar("stunnel-ingress-" + Dec(index), ListenPort(app, e, index), t.verifyChain, Dec(e.port), "",
            t.secret, t.nginxStyle, false, 0, index)
  }

  function Wire(space: SpaceSpec, app: App, e: EndpointSpec, index: nat): Result<Wiring> {
    if e.port < 1 then Err(InvalidPort)
    else
      match TerminationOf(space, e)
      case Err(error) => Err(error)
      case Ok(Clear) => Ok(Wiring(e.port, e.port, []))
      case Ok(t) =>
        var s := IngressSidecar(app, e, t, index);
        Ok(Wiring(TLS_PORT, s.listenPort, [s]))
  }

  /** createStunnel; stunnelIndex is passed in and out. */
  method CreateStunnel(space: SpaceSpec, app: App, e: EndpointSpec, podSpec: PodSpec, stunnelIndex: nat)
    returns (r: Result<(int32, int32)>, nextIndex: nat)
    modifies podSpec`added
    ensures podSpec.Value() == old(podSpec.Value())
    ensures r.Err? <==> Wire(space, app, e, stunnelIndex).Err?
    ensures r.Err? ==> Err(r.error) == Wire(space, app, e, stunnelIndex)
    ensures r.Ok? ==>
              var w := Wire(space, app, e, stunnelIndex).value;
              && r.value == (w.svcPort, w.tgtPort)
              && podSpec.added == old(podSpec.added) + w.sidecar
              && nextIndex == stunnelIndex + |w.sidecar|
  {
    nextIndex := stunnelIndex;
    var verifyChain, tlsSecretName, nginxStyle := "yes", "", false;
    var svcPort, tgtPort := e.port, e.port;
    if tgtPort < 1 {
      return Err(InvalidPort), nextIndex;
    }
    if e.isMetricsEndpoint {
      return Ok((svcPort, tgtPort)), nextIndex;
    } else if e.httpPath == "" {
      if !e.disableTlsTermination {
        tlsSecretName := e.certAndCaSecretName;
        if tlsSecretName == "" {
          tlsSecretName := space.tcpCertAndCaSecretName;
          if tlsSecretName == "" {
            return Err(SpaceHasNoTcpCert), nextIndex;
          }
        }
        if e.disableTcpClientTlsVerification {
          verifyChain := "no";
        }
      }
    } else if space.encryptHttp {
      tlsSecretName := e.certAndCaSecretName;
      if tlsSecretName == "" {
        tlsSecretName := space.httpCertSecretName;
        if tlsSecretName == "" {
          return Err(SpaceHasNoHttpCert), nextIndex;
        }
        verifyChain := "no";
      }
      nginxStyle := true;
    }
    if tlsSecretName != "" {
      svcPort := TLS_PORT;
      var destHostAndPort := Dec(tgtPort);
      tgtPort := e.tlsListenPort;
      if tgtPort == 0 {
        var basePort := app.spec.firstEndpointListenPort;
        if basePort == 0 {
          basePort := TLS_PORT;
        }
        tgtPort := Wrap32(basePort + Wrap32(stunnelIndex));
      }
      var containerName := "stunnel-ingress-" + Dec(stunnelIndex);
      AddStunnelToPod(podSpec, Sidecar(containerName, tgtPort, verifyChain, destHostAndPort, "",
                                       tlsSecretName, nginxStyle, false, 0, stunnelIndex));
      nextIndex := stunnelIndex + 1;
    }
    r := Ok((svcPort, tgtPort));
  }

  function GenerateService(app: App, e: EndpointSpec, svcPort: int32, tgtPort: int32): Object {
    Service(e.name,
            if e.isMetricsEndpoint then OwnedLabels(app)["monitoring-group" := "decco"] else OwnedLabels(app),
            svcPort,
            if e.isMetricsEndpoint then "metrics" else e.name,
            tgtPort,
            map[DECCO_APP := app.name])
  }

  function HttpAnnotations(rewritePath: string, encryptHttp: bool, additionalAnnotations: Labels): Labels {
    var fixed := additionalAnnotations
                   ["nginx.ingress.kubernetes.io/proxy-connect-timeout" := "15"]
                   ["nginx.ingress.kubernetes.io/proxy-read-timeout" := "600"]
                   ["nginx.ingress.kubernetes.io/ssl-redirect" := "false"];
    var rewritten :=
      if rewritePath != "" then fixed["nginx.ingress.kubernetes.io/rewrite-target" := rewritePath] else fixed;
    if encryptHttp then rewritten["nginx.ingress.kubernetes.io/secure-backends" := "true"] else rewritten
  }

  function NewHttpIngress(name: string, labels: Labels, hostName: string, path: string, svcName: string,
                          svcPort: int32, rewritePath: string, encryptHttp: bool, secretName: string,
                          localhostOnly: bool, additionalAnnotations: Labels): Object
  {
    Ingress(name, labels, HttpAnnotations(rewritePath, encryptHttp, additionalAnnotations),
            [IngressRule("localhost", path, svcName, svcPort)]
            + (if localhostOnly then [] else [IngressRule(hostName, path, svcName, svcPort)]),
            if localhostOnly then [] else [IngressTls(hostName, secretName)])
  }

  /** The ingress of an HTTP endpoint as a sequence of at most one object. */
  function GenerateHttpIngress(space: SpaceSpec, app: App, e: EndpointSpec): seq<Object> {
    if app.spec.runAsJob || e.httpPath == "" then []
    else
      [NewHttpIngress(e.name, OwnedLabels(app), app.namespace + "." + space.domainName, e.httpPath, e.name,
                      if space.encryptHttp then TLS_PORT else e.port,
                      e.rewritePath, space.encryptHttp,
                      if e.certAndCaSecretName == "" then space.httpCertSecretName else e.certAndCaSecretName,
                      e.httpLocalhostOnly, e.additionalIngressAnnotations)]
  }

  function SniHost(space: SpaceSpec, app: App, e: EndpointSpec): string {
    if e.sniHostname != "" then e.sniHostname
    else e.name + e.tcpHostnameSuffix + "." + app.namespace + "." + space.domainName
  }

  function GenerateTcpIngress(space: SpaceSpec, app: App, e: EndpointSpec, svcPort: int32): seq<Object> {
    if e.isMetricsEndpoint || e.httpPath != "" then []
    else
      [Ingress(e.name, OwnedLabels(app), e.additionalIngressAnnotations["kubernetes.io/ingress.class" := "k8sniff"],
               [IngressRule(SniHost(space, app, e), "", e.name, svcPort)], [])]
  }

  function EndpointObjects(space: SpaceSpec, app: App, e: EndpointSpec, svcPort: int32, tgtPort: int32): seq<Object> {
    [GenerateService(app, e, svcPort, tgtPort)]
    + GenerateHttpIngress(space, app, e)
    + GenerateTcpIngress(space, app, e, svcPort)
  }

  /** What the loop of generateEndpoints appends for one endpoint. */
  method EmitEndpoint(space: SpaceSpec, app: App, e: EndpointSpec, svcPort: int32, tgtPort: int32)
    returns (objects: seq<Object>)
    ensures objects == EndpointObjects(space, app, e, svcPort, tgtPort)
  {
    objects := [GenerateService(app, e, svcPort, tgtPort)];
    objects := objects + GenerateHttpIngress(space, app, e);
    objects := objects + GenerateTcpIngress(space, app, e, svcPort);
  }

  /** Objects emitted and AddStunnelToPod calls made. */
  datatype Output = Output(objects: seq<Object>, sidecars: seq<Sidecar>)

  /** The first n endpoints in order, side-cars numbered as they come. */
  function Endpoints(space: SpaceSpec, app: App, n: nat): Result<Output>
    requires n <= |app.spec.endpoints|
  {
    if n == 0 then Ok(Output([], []))
    else
      match Endpoints(space, app, n - 1)
      case Err(error) => Err(error)
      case Ok(before) =>
        var e := app.spec.endpoints[n - 1];
        match Wire(space, app, e, |before.sidecars|)
        case Err(error) => Err(error)
        case Ok(w) =>
          Ok(Output(before.objects + EndpointObjects(space, app, e, w.svcPort, w.tgtPort), before.sidecars + w.sidecar))
  }

  lemma NextEndpoint(space: SpaceSpec, app: App, i: nat)
    requires i < |app.spec.endpoints| && Endpoints(space, app, i).Ok?
    ensures var before, e := Endpoints(space, app, i).value, app.spec.endpoints[i];
            Endpoints(space, app, i + 1) ==
            match Wire(space, app, e, |before.sidecars|)
            case Err(error) => Err(error)
            case Ok(w) => Ok(Output(before.objects + EndpointObjects(space, app, e, w.svcPort, w.tgtPort),
                                    before.sidecars + w.sidecar))
  {
  }

  lemma {:induction false} FirstEndpointErrorStays(space: SpaceSpec, app: App, k: nat, n: nat)
    requires k <= n <= |app.spec.endpoints| && Endpoints(space, app, k).Err?
    ensures Endpoints(space, app, n) == Endpoints(space, app, k)
  {
    if k < n {
      FirstEndpointErrorStays(space, app, k, n - 1);
    }
  }

  function AllEndpoints(space: SpaceSpec, app: App): Result<Output> {
    if app.spec.runAsJob then Ok(Output([], [])) else Endpoints(space, app, |app.spec.endpoints|)
  }

  method GenerateEndpoints(space: SpaceSpec, app: App, podSpec: PodSpec)
    returns (r: Result<seq<Object>>, stunnelIndex: nat)
    requires podSpec.added == []
    modifies podSpec`added
    ensures podSpec.Value() == old(podSpec.Value())
    ensures r.Err? ==> AllEndpoints(space, app) == Err(r.error)
    ensures r.Ok? ==> AllEndpoints(space, app) == Ok(Output(r.value, podSpec.added)) && stunnelIndex == |podSpec.added|
  {
    hide Wire, EndpointObjects;
    stunnelIndex := 0;
    var objects: seq<Object> := [];
    if app.spec.runAsJob {
      return Ok(objects), stunnelIndex;
    }
    ghost var sofar := Output([], []);
    for i := 0 to |app.spec.endpoints|
      invariant podSpec.Value() == old(podSpec.Value()) && stunnelIndex == |podSpec.added|
      invariant Endpoints(space, app, i) == Ok(sofar) && sofar == Output(objects, podSpec.added)
    {
      var e := app.spec.endpoints[i];
      var wired, nextIndex := CreateStunnel(space, app, e, podSpec, stunnelIndex);
      NextEndpoint(space, app, i);
      if wired.Err? {
        FirstEndpointErrorStays(space, app, i + 1, |app.spec.endpoints|);
        return Err(wired.error), stunnelIndex;
      }
      stunnelIndex := nextIndex;
      var emitted := EmitEndpoint(space, app, e, wired.value.0, wired.value.1);
      objects := objects + emitted;
      sofar := Output(objects, podSpec.added);
    }
    r := Ok(objects);
  }

  // ----- egresses and the workload -----------------------------------------------------

  function EgressHost(app: App, g: TlsEgress): string {
    if g.fqdn != "" then g.fqdn
    else g.endpoint + "." + (if g.spaceName == "" then app.namespace else g.spaceName) + ".svc.cluster.local"
  }

  function EgressSecret(space: SpaceSpec, g: TlsEgress): string {
    if g.certAndCaSecretName == "" then space.tcpCertAndCaSecretName else g.certAndCaSecretName
  }

  function EgressSidecar(space: SpaceSpec, app: App, g: TlsEgress, i: nat, index: nat): Result<Sidecar> {
    if EgressSecret(space, g) == "" then Err(EgressHasNoSecret)
    else if g.fqdn == "" && g.endpoint == "" then Err(EgressHasNoDestination)
    else
      Ok(Sidecar("stunnel-egress-" + Dec(i), g.localPort,
                 if g.disableServerCertVerification then "no" else "yes",
                 EgressHost(app, g) + ":" + Dec(if g.targetPort == 0 then 443 else g.targetPort),
                 EgressHost(app, g), EgressSecret(space, g), false, true, g.springBoardDelaySeconds, index))
  }

  /** The body of the egress loop. */
  method CreateEgress(space: SpaceSpec, app: App, egress: TlsEgress, i: nat, podSpec: PodSpec, index: nat)
    returns (r: Result<()>)
    modifies podSpec`added
    ensures podSpec.Value() == old(podSpec.Value())
    ensures r.Err? ==> EgressSidecar(space, app, egress, i, index) == Err(r.error)
    ensures r.Ok? ==>
              && EgressSidecar(space, app, egress, i, index).Ok?
              && podSpec.added == old(podSpec.added) + [EgressSidecar(space, app, egress, i, index).value]
  {
    var clientTlsSecretName := egress.certAndCaSecretName;
    if clientTlsSecretName == "" {
      clientTlsSecretName := space.tcpCertAndCaSecretName;
      if clientTlsSecretName == "" {
        return Err(EgressHasNoSecret);
      }
    }
    var destHost := egress.fqdn;
    if destHost == "" {
      if egress.endpoint == "" {
        return Err(EgressHasNoDestination);
      }
      var spaceName := egress.spaceName;
      if spaceName == "" {
        spaceName := app.namespace;
      }
      destHost := egress.endpoint + "." + spaceName + ".svc.cluster.local";
    }
    var targetPort: int32 := egress.targetPort;
    if targetPort == 0 {
      targetPort := 443;
    }
    var verifyChain := "yes";
    if egress.disableServerCertVerification {
      verifyChain := "no";
    }
    AddStunnelToPod(podSpec, Sidecar("stunnel-egress-" + Dec(i), egress.localPort, verifyChain,
                                     destHost + ":" + Dec(targetPort), destHost, clientTlsSecretName,
                                     false, true, egress.springBoardDelaySeconds, index));
    r := Ok(());
  }

  /** The first n egresses, side-cars numbered from index on. */
  function Egresses(space: SpaceSpec, app: App, n: nat, index: nat): (r: Result<seq<Sidecar>>)
    requires n <= |app.spec.egresses|
    ensures r.Ok? ==> |r.value| == n
  {
    if n == 0 then Ok([])
    else
      match Egresses(space, app, n - 1, index)
      case Err(error) => Err(error)
      case Ok(before) =>
        match EgressSidecar(space, app, app.spec.egresses[n - 1], n - 1, index + n - 1)
        case Err(error) => Err(error)
        case Ok(sidecar) => Ok(before + [sidecar])
  }

  lemma NextEgress(space: SpaceSpec, app: App, i: nat, index: nat)
    requires i < |app.spec.egresses| && Egresses(space, app, i, index).Ok?
    ensures Egresses(space, app, i + 1, index) ==
            match EgressSidecar(space, app, app.spec.egresses[i], i, index + i)
            case Err(error) => Err(error)
            case Ok(sidecar) => Ok(Egresses(space, app, i, index).value + [sidecar])
  {
  }

  lemma {:induction false} FirstEgressErrorStays(space: SpaceSpec, app: App, k: nat, n: nat, index: nat)
    requires k <= n <= |app.spec.egresses| && Egresses(space, app, k, index).Err?
    ensures Egresses(space, app, n, index) == Egresses(space, app, k, index)
  {
    if k < n {
      FirstEgressErrorStays(space, app, k, n - 1, index);
    }
  }

  function AllEgresses(space: SpaceSpec, app: App, index: nat): Result<seq<Sidecar>> {
    Egresses(space, app, |app.spec.egresses|, index)
  }

  function Workload(app: App, pod: Pod): Object {
    if app.spec.runAsJob
    then Job(app.name, app.namespace, map[DERIVED_FROM := "app"], map["app" := "decco", DECCO_APP := app.name],
             pod, app.spec.jobBackoffLimit)
    else Deployment(app.name, app.namespace, map[DERIVED_FROM := "app"], map[DECCO_APP := app.name],
                    map["app" := "decco", DECCO_APP := app.name], pod, app.spec.initialReplicas)
  }

  /** The egress loop of generateDeploymentOrJob. */
  method AddEgresses(space: SpaceSpec, app: App, podSpec: PodSpec, stunnelIndex: nat) returns (r: Result<()>)
    modifies podSpec`added
    ensures podSpec.Value() == old(podSpec.Value())
    ensures r.Err? ==> AllEgresses(space, app, stunnelIndex) == Err(r.error)
    ensures r.Ok? ==>
              && AllEgresses(space, app, stunnelIndex).Ok?
              && podSpec.added == old(podSpec.added) + AllEgresses(space, app, stunnelIndex).value
  {
    hide EgressSidecar;
    var index := stunnelIndex;
    ghost var was, done := podSpec.added, [];
    for i := 0 to |app.spec.egresses|
      invariant podSpec.Value() == old(podSpec.Value()) && index == stunnelIndex + i
      invariant Egresses(space, app, i, stunnelIndex) == Ok(done) && podSpec.added == was + done
    {
      var added := CreateEgress(space, app, app.spec.egresses[i], i, podSpec, index);
      NextEgress(space, app, i, stunnelIndex);
      if added.Err? {
        FirstEgressErrorStays(space, app, i + 1, |app.spec.egresses|, stunnelIndex);
        return Err(added.error);
      }
      done := done + [EgressSidecar(space, app, app.spec.egresses[i], i, index).value];
      index := index + 1;
    }
    r := Ok(());
  }

  method GenerateDeploymentOrJob(space: SpaceSpec, app: App, podSpec: PodSpec, stunnelIndex: nat)
    returns (r: Result<Object>)
    modifies podSpec`added
    ensures podSpec.Value() == old(podSpec.Value())
    ensures r.Err? ==> AllEgresses(space, app, stunnelIndex) == Err(r.error)
    ensures r.Ok? ==>
              && AllEgresses(space, app, stunnelIndex).Ok?
              && r.value == Workload(app, podSpec.Value())
              && podSpec.added == old(podSpec.added) + AllEgresses(space, app, stunnelIndex).value
  {
    var added := AddEgresses(space, app, podSpec, stunnelIndex);
    if added.Err? {
      return Err(added.error);
    }
    r := Ok(Workload(app, podSpec.Value()));
  }

  // ----- the whole compiler ------------------------------------------------------------

  /** The pod after the in-place changes that do take effect. */
  function PreparedPod(space: SpaceSpec, app: App): Pod {
    var pod := app.spec.pod;
    Pod(seq(|pod.containers|, i requires 0 <= i < |pod.containers| => WithDomain(space, app, pod.containers[i])),
        pod.volumes,
        if app.spec.permissions == [] then pod.serviceAccountName else SaName(app))
  }

  /** What is generated; keepSidecars says whether the slices extended by AddStunnelToPod are
      stored back into the pod, as its documentation announces, or lost, as in the code. */
  function Compile(space: SpaceSpec, app: App, keepSidecars: bool): Result<Output> {
    match AllEndpoints(space, app)
    case Err(error) => Err(error)
    case Ok(endpoints) =>
      match AllEgresses(space, app, |endpoints.sidecars|)
      case Err(error) => Err(error)
      case Ok(egresses) =>
        var sidecars := endpoints.sidecars + egresses;
        var prepared := PreparedPod(space, app);
        var pod := if keepSidecars then WithSidecars(prepared, sidecars) else prepared;
        Ok(Output(RbacObjects(app) + endpoints.objects + [Workload(app, pod)], sidecars))
  }

  method GenerateResources(space: SpaceSpec, app: App) returns (r: Result<seq<Object>>, ghost sidecars: seq<Sidecar>)
    ensures ValidateSpace(space).Err? ==> r.Err? && r.error == ValidateSpace(space).error
    ensures r.Ok? <==> ValidateSpace(space).Ok? && ValidApp(app.spec, space.tcpCertAndCaSecretName)
                       && Compile(space, app, false).Ok?
    ensures r.Ok? ==> Compile(space, app, false) == Ok(Output(r.value, sidecars))
    ensures ValidateSpace(space).Ok? && ValidApp(app.spec, space.tcpCertAndCaSecretName) && r.Err? ==>
              Compile(space, app, false) == Err(r.error)
  {
    sidecars := [];
    var checked := ValidateSpace(space);
    if checked.Err? {
      return Err(checked.error), sidecars;
    }
    checked := ValidateApp(app.spec, space.tcpCertAndCaSecretName);
    if checked.Err? {
      return Err(checked.error), sidecars;
    }
    var podSpec := new PodSpec.DeepCopy(app.spec.pod);
    InsertDomainEnvVarIntoPod(space, app, podSpec);
    var objects := GenerateRbac(app, podSpec);
    assert podSpec.Value() == PreparedPod(space, app);
    var endpoints, stunnelIndex := GenerateEndpoints(space, app, podSpec);
    if endpoints.Err? {
      return Err(endpoints.error), sidecars;
    }
    objects := objects + endpoints.value;
    var workload := GenerateDeploymentOrJob(space, app, podSpec, stunnelIndex);
    if workload.Err? {
      return Err(workload.error), sidecars;
    }
    sidecars := podSpec.added;
    r := Ok(objects + [workload.value]);
  }
}

/** The App that createPrivateIngressController builds for a space, and the ports of its pod. */
module PrivateIngress {
  import opened ApiTypes
  import opened Decimal
  import opened Stunnel
  import opened Generate
  import opened Allocation
  import opened Routing
  import opened PortPlanning
  import opened Workloads

  const METRICS_PORT: int32 := 10254
  const HTTP_PORT: int32 := 80

  function PlainEndpoint(name: string, port: int32, disableTlsTermination: bool, sniHostname: string): EndpointSpec {
    EndpointSpec(name, port, false, 0, "", "", "", false, false, disableTlsTermination, false, sniHostname, "", map[])
  }

  function HostName(spaceName: string, space: SpaceSpec): string {
    spaceName + "." + space.domainName
  }

  function SniEndpoint(spaceName: string, space: SpaceSpec, epName: string): EndpointSpec {
    PlainEndpoint("nginx-ingress-sni-" + epName, HTTP_PORT, false,
                  epName + space.privateIngressControllerTcpHostnameSuffix + "." + HostName(spaceName, space))
  }

  /** The controller's own endpoints, then one per configured TCP endpoint. */
  function IngressEndpoints(spaceName: string, space: SpaceSpec): seq<EndpointSpec> {
    var names := space.privateIngressControllerTcpEndpoints;
    [PlainEndpoint("nginx-ingress", TLS_PORT, true, HostName(spaceName, space)),
     PlainEndpoint("nginx-ingress-metrics", METRICS_PORT, false, "")]
    + seq(|names|, i requires 0 <= i < |names| => SniEndpoint(spaceName, space, names[i]))
  }

  function IngressApp(spaceName: string, space: SpaceSpec, env: seq<EnvVar>): App {
    App("nginx-ingress", spaceName,
        AppSpec(Pod([Container("nginx-ingress", [TLS_PORT, METRICS_PORT], env, [])], [], "nginx-ingress"),
                1, [], false, 0, IngressEndpoints(spaceName, space), TLS_PORT + 1, [], ""))
  }

  /** The endpoint list as the code builds it. */
  method BuildEndpoints(spaceName: string, space: SpaceSpec) returns (endpoints: seq<EndpointSpec>)
    ensures endpoints == IngressEndpoints(spaceName, space)
  {
    var hostName := spaceName + "." + space.domainName;
    endpoints := [PlainEndpoint("nginx-ingress", TLS_PORT, true, hostName),
                  PlainEndpoint("nginx-ingress-metrics", METRICS_PORT, false, "")];
    var names := space.privateIngressControllerTcpEndpoints;
    for i := 0 to |names|
      invariant endpoints == IngressEndpoints(spaceName, space)[..2 + i]
    {
      var sniHostname := names[i] + space.privateIngressControllerTcpHostnameSuffix + "." + hostName;
      endpoints := endpoints + [PlainEndpoint("nginx-ingress-sni-" + names[i], HTTP_PORT, false, sniHostname)];
    }
  }

  /** With a TCP certificate the k-th endpoint has k - 1 side-cars before it, for every k >= 1:
      the controller itself has none, its metrics endpoint and every TCP endpoint have one. */
  lemma {:induction false} IngressIndices(spaceName: string, space: SpaceSpec, env: seq<EnvVar>, k: nat)
    requires space.tcpCertAndCaSecretName != ""
    requires k <= |IngressEndpoints(spaceName, space)|
    ensures Endpoints(space, IngressApp(spaceName, space, env), k).Ok?
    ensures IndexOf(space, IngressApp(spaceName, space, env), k) == if k == 0 then 0 else k - 1
  {
    hide Dec, EndpointObjects, HostName;
    if k > 0 {
      IngressIndices(spaceName, space, env, k - 1);
    }
  }

  /** The App is accepted and compiles exactly when the space has a TCP certificate. */
  lemma IngressAppCompilesIff(spaceName: string, space: SpaceSpec, env: seq<EnvVar>, keepSidecars: bool)
    requires ValidateSpace(space).Ok?
    ensures Accepted(space, IngressApp(spaceName, space, env))
            && Compile(space, IngressApp(spaceName, space, env), keepSidecars).Ok?
            <==> space.tcpCertAndCaSecretName != ""
  {
    var app := IngressApp(spaceName, space, env);
    if space.tcpCertAndCaSecretName != "" {
      assert Accepted(space, app);
      CompilesIff(space, app, keepSidecars);
    } else {
      assert ValidateEndpoint(app.spec.endpoints[0], "").Err?;
    }
  }

  function IngressSidecars(spaceName: string, space: SpaceSpec, env: seq<EnvVar>): seq<Sidecar>
    requires Compile(space, IngressApp(spaceName, space, env), true).Ok?
  {
    Compile(space, IngressApp(spaceName, space, env), true).value.sidecars
  }

  lemma IngressSidecarAt(spaceName: string, space: SpaceSpec, env: seq<EnvVar>, j: nat)
    requires space.tcpCertAndCaSecretName != "" && j + 1 < |IngressEndpoints(spaceName, space)|
    ensures var app := IngressApp(spaceName, space, env);
            var n := |app.spec.endpoints|;
            && Endpoints(space, app, n).Ok? && j < IndexOf(space, app, n)
            && Endpoints(space, app, n).value.sidecars[j].index == j
            && Endpoints(space, app, n).value.sidecars[j].listenPort == Wrap32(444 + Wrap32(j))
  {
    hide Dec, EndpointObjects, HostName, Endpoints, Wrap32;
    var app := IngressApp(spaceName, space, env);
    IngressIndices(spaceName, space, env, |app.spec.endpoints|);
    IngressIndices(spaceName, space, env, j + 1);
    SidecarOfEndpoint(space, app, j + 1);
  }

  /** One side-car for the metrics endpoint and one for each configured TCP endpoint;
      side-car j listens on 444 + j, wrapping around like the counter. */
  lemma IngressListenPorts(spaceName: string, space: SpaceSpec, env: seq<EnvVar>)
    requires space.tcpCertAndCaSecretName != ""
    ensures Compile(space, IngressApp(spaceName, space, env), true).Ok?
    ensures var sidecars := IngressSidecars(spaceName, space, env);
            && |sidecars| == |space.privateIngressControllerTcpEndpoints| + 1
            && forall j :: 0 <= j < |sidecars| ==>
                 sidecars[j].listenPort == Wrap32(444 + Wrap32(j)) && sidecars[j].index == j
  {
    hide Dec, EndpointObjects, WithSidecars, PreparedPod, RbacObjects, Workload, HostName, Endpoints, Wrap32,
         PlainEndpoint, SniEndpoint;
    var app := IngressApp(spaceName, space, env);
    var n := |app.spec.endpoints|;
    IngressIndices(spaceName, space, env, n);
    EgressesOutcome(space, app, 0, IndexOf(space, app, n));
    var sidecars := IngressSidecars(spaceName, space, env);
    assert sidecars == Endpoints(space, app, n).value.sidecars;
    forall j | 0 <= j < |sidecars|
      ensures sidecars[j].listenPort == Wrap32(444 + Wrap32(j)) && sidecars[j].index == j
    {
      IngressSidecarAt(spaceName, space, env, j);
    }
  }

  ghost predicate PodPortsDistinct(sidecars: seq<Sidecar>) {
    && (forall i, j :: 0 <= i < |sidecars| && 0 <= j < |sidecars| ==>
          && sidecars[i].listenPort != FIRST_SPRINGBOARD_PORT + sidecars[j].index
          && (i != j ==> sidecars[i].listenPort != sidecars[j].listenPort && sidecars[i].index != sidecars[j].index))
    && (forall i :: 0 <= i < |sidecars| ==>
          && sidecars[i].listenPort !in {HTTP_PORT, TLS_PORT, METRICS_PORT}
          && FIRST_SPRINGBOARD_PORT + sidecars[i].index !in {HTTP_PORT as int, TLS_PORT as int, METRICS_PORT as int})
  }

  /** In the compiled pod the side-cars' listen ports, their springboard ports, and the ports
      80, 443 and 10254 that the controller uses itself are all distinct exactly when at most
      3464 TCP endpoints are configured. */
  lemma PodPortsDistinctIff(spaceName: string, space: SpaceSpec, env: seq<EnvVar>)
    requires space.tcpCertAndCaSecretName != ""
    ensures Compile(space, IngressApp(spaceName, space, env), true).Ok?
    ensures PodPortsDistinct(IngressSidecars(spaceName, space, env))
            <==> |space.privateIngressControllerTcpEndpoints| <= 3464
  {
    hide Compile, IngressApp, Wrap32;
    IngressListenPorts(spaceName, space, env);
    var sidecars := IngressSidecars(spaceName, space, env);
    if |sidecars| > 3465 {
      assert FIRST_SPRINGBOARD_PORT + sidecars[3465].index == METRICS_PORT as int;
    } else {
      forall j | 0 <= j < |sidecars|
        ensures sidecars[j].listenPort == 444 + j
      {
        WrapSmall(444, j);
      }
    }
  }

  /** The controller stands in for the space's TCP endpoints: its k-th one answers to the host
      that an endpoint of that name, with the configured suffix, has by default in the space's
      own namespace; and the controller itself to the space's public host. */
  lemma HostsAreTheDefaults(spaceName: string, space: SpaceSpec, env: seq<EnvVar>, k: nat, app: App, e: EndpointSpec)
    requires k < |space.privateIngressControllerTcpEndpoints| && app.namespace == spaceName
    requires e.sniHostname == "" && e.name == space.privateIngressControllerTcpEndpoints[k]
    requires e.tcpHostnameSuffix == space.privateIngressControllerTcpHostnameSuffix
    ensures var es := IngressEndpoints(spaceName, space);
            && |es| == 2 + |space.privateIngressControllerTcpEndpoints|
            && es[0].name == "nginx-ingress" && es[1].name == "nginx-ingress-metrics"
            && es[2 + k].name == "nginx-ingress-sni-" + space.privateIngressControllerTcpEndpoints[k]
            && SniHost(space, IngressApp(spaceName, space, env), es[2 + k]) == SniHost(space, app, e)
            && SniHost(space, IngressApp(spaceName, space, env), es[0]) == spaceName + "." + space.domainName
  {
    assert SniHost(space, app, e) == e.name + e.tcpHostnameSuffix + "." + HostName(spaceName, space);
    assert |SniHost(space, app, e)| > 0 && |HostName(spaceName, space)| > 0;
  }

  /** What runs for it: one replica of the controller, under the service account that the space
      has made for it and no other, with the environment and the ports given here. */
  lemma IngressAppRuns(spaceName: string, space: SpaceSpec, env: seq<EnvVar>, keepSidecars: bool)
    requires Compile(space, IngressApp(spaceName, space, env), keepSidecars).Ok?
    ensures var app := IngressApp(spaceName, space, env);
            var w, pod := WorkloadOf(space, app, keepSidecars), PodOf(space, app, keepSidecars);
            && w.Deployment? && w.replicas == 1 && w.name == "nginx-ingress" && w.namespace == spaceName
            && pod.serviceAccountName == "nginx-ingress" && |pod.containers| > 0
            && (!keepSidecars ==> |pod.containers| == 1)
            && pod.containers[0].name == "nginx-ingress" && pod.containers[0].ports == [443, 10254]
            && pod.containers[0].env == env
  {
    hide Compile, WorkloadOf, PodOf, IngressEndpoints;
    var app := IngressApp(spaceName, space, env);
    WorkloadIsAsAsked(space, app, keepSidecars);
    AppKeepsItsPod(space, app, keepSidecars);
    assert RunsAsDescribed(space, app, app.spec.pod.containers[0], PodOf(space, app, keepSidecars).containers[0]);
  }

  // ----- connections through its pod --------------------------------------------------------------

  /** The port plan holds for any number of TCP endpoints up to where the automatic range would
      take in the metrics port. */
  lemma IngressAppPlanned(spaceName: string, space: SpaceSpec, env: seq<EnvVar>)
    requires |space.privateIngressControllerTcpEndpoints| <= 9808
    ensures Planned(IngressApp(spaceName, space, env)) && PlainVolumes(IngressApp(spaceName, space, env))
  {
    hide HostName;
  }

  ghost predicate NoNameTwice(names: seq<string>) {
    forall i, j :: 0 <= i < j < |names| ==> names[i] != names[j]
  }

  lemma SniNamesApart(a: string, b: string)
    ensures "nginx-ingress-sni-" + a != "nginx-ingress" && "nginx-ingress-sni-" + a != "nginx-ingress-metrics"
    ensures "nginx-ingress-sni-" + a == "nginx-ingress-sni-" + b ==> a == b
  {
    var prefix := "nginx-ingress-sni-";
    assert |prefix| == 18 && |"nginx-ingress"| == 13;
    assert (prefix + a)[14] == 's' && "nginx-ingress-metrics"[14] == 'm';
    assert (prefix + a)[18..] == a && (prefix + b)[18..] == b;
  }

  lemma IngressAppRoutable(spaceName: string, space: SpaceSpec, env: seq<EnvVar>)
    requires NoNameTwice(space.privateIngressControllerTcpEndpoints) && forall v :: v in env ==> v.name != ACCEPT_PORT
    ensures Routable(space, IngressApp(spaceName, space, env))
  {
    hide HostName;
    var app, names := IngressApp(spaceName, space, env), space.privateIngressControllerTcpEndpoints;
    var es := app.spec.endpoints;
    assert |"nginx-ingress"| != |"nginx-ingress-metrics"| && |ACCEPT_PORT| > 0;
    forall i, j | 0 <= i < j < |es|
      ensures es[i].name != es[j].name
    {
      if j >= 2 {
        SniNamesApart(names[j - 2], if i >= 2 then names[i - 2] else "");
      }
    }
  }

  /** What a connection to an endpoint of the controller should meet: the controller terminates
      TLS itself, side-cars do so for its metrics and for the space's TCP endpoints. */
  function Expected(space: SpaceSpec, k: nat): Delivery {
    if k == 0 then Direct(TLS_PORT as int)
    else Terminated(if k == 1 then METRICS_PORT as int else HTTP_PORT as int, space.tcpCertAndCaSecretName, "yes")
  }

  /** Connections through the App that is posted, side-cars being stored back: with a TCP
      certificate, distinct names and at most 9808 TCP endpoints, whatever rule of an
      endpoint's ingress is followed leads to the controller on 443 untouched, to its metrics
      on 10254, or to its HTTP port for each TCP endpoint, through TLS with verified clients. */
  lemma IngressAppIsRouted(spaceName: string, space: SpaceSpec, env: seq<EnvVar>, k: nat)
    requires ValidateSpace(space).Ok? && space.tcpCertAndCaSecretName != "" && k < |IngressEndpoints(spaceName, space)|
    requires NoNameTwice(space.privateIngressControllerTcpEndpoints)
             && |space.privateIngressControllerTcpEndpoints| <= 9808
    requires forall v :: v in env ==> v.name != ACCEPT_PORT
    ensures Compile(space, IngressApp(spaceName, space, env), true).Ok?
    ensures var objects := Compile(space, IngressApp(spaceName, space, env), true).value.objects;
            forall o, r :: o in objects && o.Ingress? && o.name == IngressEndpoints(spaceName, space)[k].name
                           && r in o.ingressRules ==>
              Deliver(objects, r.serviceName, r.servicePort) == Expected(space, k)
  {
    hide Compile, Deliver, Planned, PlainVolumes, Routable, HostName, NoNameTwice;
    var app := IngressApp(spaceName, space, env);
    IngressAppPlanned(spaceName, space, env);
    IngressAppRoutable(spaceName, space, env);
    RoutingPreservedIff(space, app, k);
    assert !Mispointed(space, app.spec.endpoints[k]) && Wanted(space, app.spec.endpoints[k]) == Expected(space, k);
  }
}

/** A meaning for the generated objects: where a request handed to an ingress backend ends up
    inside the pod, and the proof that compiling an App preserves what its spec asks for. */
module Routing {
  import opened ApiTypes
  import opened Decimal
  import opened Stunnel
  import opened Generate
  import opened Allocation

  // ----- looking things up in the cluster ------------------------------------------------

  /** Kubernetes lets the last definition of a variable win. */
  function EnvIndex(env: seq<EnvVar>, name: string): (i: int)
    ensures -1 <= i < |env|
    ensures i >= 0 ==> env[i].name == name
    ensures forall j :: i < j < |env| ==> env[j].name != name
  {
    if env == [] then -1
    else if env[|env| - 1].name == name then |env| - 1
    else EnvIndex(env[..|env| - 1], name)
  }

  function EnvValue(env: seq<EnvVar>, name: string): string {
    if EnvIndex(env, name) < 0 then "" else env[EnvIndex(env, name)].value
  }

  /** The first side-car accepting connections on the port with this text, else |containers|. */
  function Listener(containers: seq<Container>, port: string): (i: nat)
    ensures i <= |containers|
    ensures i < |containers| ==> EnvValue(containers[i].env, ACCEPT_PORT) == port
    ensures forall j :: 0 <= j < i ==> EnvValue(containers[j].env, ACCEPT_PORT) != port
  {
    if containers == [] || EnvValue(containers[0].env, ACCEPT_PORT) == port then 0
    else 1 + Listener(containers[1..], port)
  }

  function SecretBehind(volumes: seq<Volume>, name: string): string {
    if volumes == [] then ""
    else if volumes[0].name == name then volumes[0].secretName
    else SecretBehind(volumes[1..], name)
  }

  datatype Delivery =
    | Lost
    | Direct(port: int)
    | Terminated(port: int, secret: string, verifyChain: string)

  /** A connection to a port of the pod: taken by a side-car, which terminates TLS with its
      mounted secret and connects on, or else by the app itself. A side-car in client mode
      does not terminate TLS, and one connecting to a port that a side-car listens on never
      reaches the app. */
  function Reach(pod: Pod, port: int): Delivery {
    var i := Listener(pod.containers, Dec(port));
    if i == |pod.containers| then Direct(port)
    else
      var c := pod.containers[i];
      var target := EnvValue(c.env, CONNECT);
      if EnvValue(c.env, CLIENT_MODE) != "" || Listener(pod.containers, target) < |pod.containers| || c.mounts == []
      then Lost
      else Terminated(Parse(target), SecretBehind(pod.volumes, c.mounts[0]), EnvValue(c.env, VERIFY_CHAIN))
  }

  datatype Found = Missing | Present(item: Object)

  function FindService(objects: seq<Object>, name: string): (f: Found)
    ensures f.Present? ==> f.item in objects && f.item.Service? && f.item.name == name
    ensures f.Missing? ==> forall o :: o in objects ==> !(o.Service? && o.name == name)
  {
    if objects == [] then Missing
    else if objects[0].Service? && objects[0].name == name then Present(objects[0])
    else FindService(objects[1..], name)
  }

  /** From a service name and port, through the service's target port, into the pods of the
      deployment that its selector matches. */
  function Deliver(objects: seq<Object>, serviceName: string, servicePort: int32): Delivery {
    match FindService(objects, serviceName)
    case Missing => Lost
    case Present(s) =>
      if s.port != servicePort || objects == [] then Lost
      else
        var workload := objects[|objects| - 1];
        if workload.Deployment? && s.selector.Items <= workload.podLabels.Items
        then Reach(workload.pod, s.targetPort)
        else Lost
  }

  // ----- side-cars in the pod ------------------------------------------------------------

  lemma EnvIndexIs(env: seq<EnvVar>, name: string, i: nat)
    requires i < |env| && env[i].name == name && forall j :: i < j < |env| ==> env[j].name != name
    ensures EnvIndex(env, name) == i
  {
  }

  lemma ExtraEnvApart(s: Sidecar)
    ensures forall v :: v in ExtraEnv(s) ==> v.name !in {VERIFY_CHAIN, ACCEPT_PORT, CONNECT, SPRINGBOARD_PORT}
  {
    hide Dec;
  }

  lemma SidecarEnvAt(s: Sidecar, name: string, i: nat)
    requires i < 4 && BaseEnv(s)[i].name == name
    ensures EnvValue(StunnelEnvVars(s), name) == BaseEnv(s)[i].value
  {
    hide Dec, ExtraEnv;
    ExtraEnvApart(s);
    var env := StunnelEnvVars(s);
    forall j | i < j < |env|
      ensures env[j].name != name
    {
      if j >= 6 {
        assert env[j] == ExtraEnv(s)[j - 6];
      }
    }
    EnvIndexIs(env, name, i);
  }

  /** The two variables that only some side-cars have. */
  lemma SidecarModes(s: Sidecar)
    ensures EnvValue(StunnelEnvVars(s), CLIENT_MODE) == if s.isClientMode then "yes" else ""
    ensures EnvValue(StunnelEnvVars(s), CHECK_HOST) == if s.checkHost == "" then "" else "checkHost=" + s.checkHost
  {
    hide Dec;
    var env, c := StunnelEnvVars(s), if s.isClientMode then (if s.springBoardDelaySeconds > 0 then 2 else 1) else 0;
    if s.isClientMode {
      EnvIndexIs(env, CLIENT_MODE, 6);
    }
    if s.checkHost != "" {
      EnvIndexIs(env, CHECK_HOST, 6 + c);
    }
  }

  lemma SidecarEnv(s: Sidecar)
    ensures EnvValue(StunnelEnvVars(s), ACCEPT_PORT) == Dec(s.listenPort)
    ensures EnvValue(StunnelEnvVars(s), CONNECT) == s.destHostAndPort
    ensures EnvValue(StunnelEnvVars(s), VERIFY_CHAIN) == s.verifyChain
  {
    hide Dec, StunnelEnvVars, EnvValue;
    SidecarEnvAt(s, VERIFY_CHAIN, 0);
    SidecarEnvAt(s, ACCEPT_PORT, 1);
    SidecarEnvAt(s, CONNECT, 2);
  }

  ghost predicate OwnContainersSilent(space: SpaceSpec, app: App) {
    && app.spec.domainEnvVarName != ACCEPT_PORT
    && forall c, v :: c in app.spec.pod.containers && v in c.env ==> v.name != ACCEPT_PORT
  }

  lemma PreparedPodSilent(space: SpaceSpec, app: App)
    requires OwnContainersSilent(space, app)
    ensures forall i :: 0 <= i < |PreparedPod(space, app).containers| ==>
              EnvValue(PreparedPod(space, app).containers[i].env, ACCEPT_PORT) == ""
  {
    var pod := PreparedPod(space, app);
    forall i | 0 <= i < |pod.containers|
      ensures EnvIndex(pod.containers[i].env, ACCEPT_PORT) < 0
    {
      var c := app.spec.pod.containers[i];
      var env := pod.containers[i].env;
      forall j | 0 <= j < |env|
        ensures env[j].name != ACCEPT_PORT
      {
        if j < |c.env| {
          assert env[j] == c.env[j] && c in app.spec.pod.containers && c.env[j] in c.env;
        }
      }
    }
  }

  /** No two side-cars listen on one port, and none on a port of the app. */
  ghost predicate PortsClear(app: App, sidecars: seq<Sidecar>) {
    && (forall i, j :: 0 <= i < j < |sidecars| ==> sidecars[i].listenPort != sidecars[j].listenPort)
    && (forall i, k :: 0 <= i < |sidecars| && 0 <= k < |app.spec.endpoints| ==>
          sidecars[i].listenPort != app.spec.endpoints[k].port)
  }

  /** The pod holds its own containers, which accept nothing, followed by the side-cars. */
  ghost predicate Equipped(pod: Pod, own: nat, sidecars: seq<Sidecar>) {
    && |pod.containers| == own + |sidecars|
    && (forall i :: 0 <= i < own ==> EnvValue(pod.containers[i].env, ACCEPT_PORT) == "")
    && (forall i :: 0 <= i < |sidecars| ==> pod.containers[own + i] == SidecarContainer(sidecars[i]))
    && (forall i :: 0 <= i < |sidecars| ==>
          SecretBehind(pod.volumes, VolumeName(sidecars[i])) == sidecars[i].tlsSecretName)
  }

  lemma DecNotEmpty(n: int)
    ensures Dec(n) != ""
  {
  }

  /** Who accepts connections on a port of an equipped pod: the side-car listening there. */
  lemma ListenerOfPort(pod: Pod, own: nat, sidecars: seq<Sidecar>, port: int)
    requires Equipped(pod, own, sidecars)
    requires forall i, j :: 0 <= i < j < |sidecars| ==> sidecars[i].listenPort != sidecars[j].listenPort
    ensures (forall i :: 0 <= i < |sidecars| ==> sidecars[i].listenPort != port) ==>
              Listener(pod.containers, Dec(port)) == |pod.containers|
    ensures forall i :: 0 <= i < |sidecars| && sidecars[i].listenPort == port ==>
              Listener(pod.containers, Dec(port)) == own + i
  {
    hide Dec, StunnelEnvVars;
    DecNotEmpty(port);
    forall i | 0 <= i < |sidecars|
      ensures EnvValue(pod.containers[own + i].env, ACCEPT_PORT) == Dec(port) <==> sidecars[i].listenPort == port
    {
      SidecarEnv(sidecars[i]);
      DecInjective(sidecars[i].listenPort, port);
    }
    var l := Listener(pod.containers, Dec(port));
    if l < |pod.containers| {
      assert l >= own;
      assert sidecars[l - own].listenPort == port;
    }
  }

  lemma ReachDirect(pod: Pod, own: nat, sidecars: seq<Sidecar>, port: int)
    requires Equipped(pod, own, sidecars)
    requires forall i, j :: 0 <= i < j < |sidecars| ==> sidecars[i].listenPort != sidecars[j].listenPort
    requires forall i :: 0 <= i < |sidecars| ==> sidecars[i].listenPort != port
    ensures Reach(pod, port) == Direct(port)
  {
    hide Dec;
    ListenerOfPort(pod, own, sidecars, port);
  }

  lemma ReachThroughSidecar(pod: Pod, own: nat, sidecars: seq<Sidecar>, i: nat, port: int)
    requires Equipped(pod, own, sidecars) && i < |sidecars|
    requires forall i, j :: 0 <= i < j < |sidecars| ==> sidecars[i].listenPort != sidecars[j].listenPort
    requires sidecars[i].destHostAndPort == Dec(port) && !sidecars[i].isClientMode
    requires forall j :: 0 <= j < |sidecars| ==> sidecars[j].listenPort != port
    ensures Reach(pod, sidecars[i].listenPort) == Terminated(port, sidecars[i].tlsSecretName, sidecars[i].verifyChain)
  {
    hide Dec, StunnelEnvVars, EnvValue, Listener, SecretBehind, Parse;
    ListenerOfPort(pod, own, sidecars, sidecars[i].listenPort);
    ListenerOfPort(pod, own, sidecars, port);
    SidecarEnv(sidecars[i]);
    SidecarModes(sidecars[i]);
    ParseDec(port);
    assert pod.containers[own + i].mounts == [VolumeName(sidecars[i])];
  }

  lemma {:induction false} SecretFound(volumes: seq<Volume>, i: nat)
    requires i < |volumes| && forall j :: 0 <= j < i ==> volumes[j].name != volumes[i].name
    ensures SecretBehind(volumes, volumes[i].name) == volumes[i].secretName
    decreases i
  {
    if i > 0 {
      assert volumes[1..][i - 1] == volumes[i];
      SecretFound(volumes[1..], i - 1);
    }
  }

  ghost predicate OwnVolumesApart(app: App, sidecars: seq<Sidecar>) {
    forall v, s :: v in app.spec.pod.volumes && s in sidecars ==> v.name != VolumeName(s)
  }

  lemma KeptSecretsFound(space: SpaceSpec, app: App, i: nat)
    requires Compile(space, app, true).Ok? && i < |Compile(space, app, true).value.sidecars|
    requires OwnVolumesApart(app, Compile(space, app, true).value.sidecars)
    ensures var sidecars := Compile(space, app, true).value.sidecars;
            SecretBehind(WithSidecars(PreparedPod(space, app), sidecars).volumes, VolumeName(sidecars[i]))
            == sidecars[i].tlsSecretName
  {
    hide Dec, StunnelEnvVars, WithDomain, Compile, WithSidecars;
    var sidecars := Compile(space, app, true).value.sidecars;
    var own := PreparedPod(space, app);
    var pod, v := WithSidecars(own, sidecars), |own.volumes|;
    WithSidecarsAppends(own, sidecars);
    forall j | 0 <= j < v + i
      ensures pod.volumes[j].name != pod.volumes[v + i].name
    {
      if j < v {
        assert pod.volumes[j] in app.spec.pod.volumes && sidecars[i] in sidecars;
      } else {
        SidecarsDistinct(space, app, true, j - v, i);
        assert pod.volumes[v + (j - v)] == SidecarVolume(sidecars[j - v]);
      }
    }
    SecretFound(pod.volumes, v + i);
  }

  /** Storing the side-cars back equips the pod with them. */
  lemma KeptPodEquipped(space: SpaceSpec, app: App)
    requires Compile(space, app, true).Ok? && OwnContainersSilent(space, app)
    requires OwnVolumesApart(app, Compile(space, app, true).value.sidecars)
    ensures var sidecars := Compile(space, app, true).value.sidecars;
            Equipped(WithSidecars(PreparedPod(space, app), sidecars), |app.spec.pod.containers|, sidecars)
  {
    hide Dec, StunnelEnvVars, WithDomain, Compile, WithSidecars;
    var sidecars := Compile(space, app, true).value.sidecars;
    var own := PreparedPod(space, app);
    PreparedPodSilent(space, app);
    WithSidecarsAppends(own, sidecars);
    forall i | 0 <= i < |sidecars|
      ensures SecretBehind(WithSidecars(own, sidecars).volumes, VolumeName(sidecars[i])) == sidecars[i].tlsSecretName
    {
      KeptSecretsFound(space, app, i);
    }
  }

  lemma LostPodEquipped(space: SpaceSpec, app: App)
    requires OwnContainersSilent(space, app)
    ensures Equipped(PreparedPod(space, app), |app.spec.pod.containers|, [])
  {
    PreparedPodSilent(space, app);
  }

  // ----- which object belongs to which endpoint ------------------------------------------

  lemma CompiledEndpoints(space: SpaceSpec, app: App, keepSidecars: bool)
    requires Compile(space, app, keepSidecars).Ok? && !app.spec.runAsJob
    ensures Endpoints(space, app, |app.spec.endpoints|).Ok?
  {
  }

  ghost predicate NamesDistinct(app: App) {
    forall i, j :: 0 <= i < j < |app.spec.endpoints| ==> app.spec.endpoints[i].name != app.spec.endpoints[j].name
  }

  /** The wiring that the compiler chose for the k-th endpoint. */
  function WiringOf(space: SpaceSpec, app: App, k: nat): Wiring
    requires k < |app.spec.endpoints| && Endpoints(space, app, |app.spec.endpoints|).Ok?
  {
    EndpointWiring(space, app, k, |app.spec.endpoints|);
    Wire(space, app, app.spec.endpoints[k], IndexOf(space, app, k)).value
  }

  lemma WiringPorts(space: SpaceSpec, app: App, k: nat)
    requires k < |app.spec.endpoints| && Endpoints(space, app, |app.spec.endpoints|).Ok?
    ensures Endpoints(space, app, k).Ok? && TerminationOf(space, app.spec.endpoints[k]).Ok?
    ensures var e, w := app.spec.endpoints[k], WiringOf(space, app, k);
            if Terminates(space, app, k)
            then w.svcPort == TLS_PORT && w.tgtPort == ListenPort(app, e, IndexOf(space, app, k))
            else w.svcPort == e.port && w.tgtPort == e.port
  {
    hide Endpoints, EndpointObjects, Dec, ListenPort;
    EndpointWiring(space, app, k, |app.spec.endpoints|);
  }

  function ObjectsOf(space: SpaceSpec, app: App, k: nat): seq<Object>
    requires k < |app.spec.endpoints| && Endpoints(space, app, |app.spec.endpoints|).Ok?
  {
    var w := WiringOf(space, app, k);
    EndpointObjects(space, app, app.spec.endpoints[k], w.svcPort, w.tgtPort)
  }

  lemma {:induction false} EndpointObjectsSound(space: SpaceSpec, app: App, n: nat, o: Object)
    requires n <= |app.spec.endpoints| && Endpoints(space, app, |app.spec.endpoints|).Ok?
    requires Endpoints(space, app, n).Ok? && o in Endpoints(space, app, n).value.objects
    ensures exists k :: 0 <= k < n && o in ObjectsOf(space, app, k)
  {
    hide Wire, EndpointObjects;
    if n > 0 {
      EndpointPrefixes(space, app, n - 1, n);
      if o in Endpoints(space, app, n - 1).value.objects {
        EndpointObjectsSound(space, app, n - 1, o);
      } else {
        assert o in ObjectsOf(space, app, n - 1);
      }
    }
  }

  /** Services and ingresses of the output come from some endpoint and carry its name. */
  lemma RoutingObjectsSound(space: SpaceSpec, app: App, keepSidecars: bool, o: Object)
    requires Compile(space, app, keepSidecars).Ok? && !app.spec.runAsJob
    requires o in Compile(space, app, keepSidecars).value.objects && (o.Service? || o.Ingress?)
    ensures exists k :: 0 <= k < |app.spec.endpoints| && o in ObjectsOf(space, app, k)
  {
    hide EndpointObjects, Endpoints, AllEgresses, PreparedPod, WithSidecars;
    assert o in AllEndpoints(space, app).value.objects;
    EndpointObjectsSound(space, app, |app.spec.endpoints|, o);
  }

  lemma RoutingObjectsComplete(space: SpaceSpec, app: App, keepSidecars: bool, k: nat, o: Object)
    requires Compile(space, app, keepSidecars).Ok? && !app.spec.runAsJob && k < |app.spec.endpoints|
    requires o in ObjectsOf(space, app, k)
    ensures o in Compile(space, app, keepSidecars).value.objects
  {
    hide EndpointObjects, Endpoints, AllEgresses, PreparedPod, WithSidecars;
    EndpointWiring(space, app, k, |app.spec.endpoints|);
    assert o in AllEndpoints(space, app).value.objects;
  }

  /** The port that the ingress of an endpoint names as its backend. */
  function BackendPort(space: SpaceSpec, e: EndpointSpec, svcPort: int32): int32 {
    if e.httpPath == "" then svcPort else if space.encryptHttp then TLS_PORT else e.port
  }

  lemma EndpointObjectsShape(space: SpaceSpec, app: App, e: EndpointSpec, svcPort: int32, tgtPort: int32, o: Object)
    requires o in EndpointObjects(space, app, e, svcPort, tgtPort)
    ensures o.name == e.name
    ensures o.Service? ==> o == GenerateService(app, e, svcPort, tgtPort)
    ensures o.Ingress? ==> forall r :: r in o.ingressRules ==>
                             r.serviceName == e.name && r.servicePort == BackendPort(space, e, svcPort)
  {
    hide HttpAnnotations, OwnedLabels, SniHost;
  }

  lemma ServiceOfEndpoint(space: SpaceSpec, app: App, keepSidecars: bool, k: nat)
    requires Compile(space, app, keepSidecars).Ok? && !app.spec.runAsJob && NamesDistinct(app)
    requires k < |app.spec.endpoints|
    ensures var e, w := app.spec.endpoints[k], WiringOf(space, app, k);
            FindService(Compile(space, app, keepSidecars).value.objects, e.name)
            == Present(GenerateService(app, e, w.svcPort, w.tgtPort))
  {
    hide Compile, WiringOf, FindService, GenerateHttpIngress, GenerateTcpIngress, OwnedLabels;
    CompiledEndpoints(space, app, keepSidecars);
    var e, w := app.spec.endpoints[k], WiringOf(space, app, k);
    var objects := Compile(space, app, keepSidecars).value.objects;
    var s := GenerateService(app, e, w.svcPort, w.tgtPort);
    assert s in ObjectsOf(space, app, k);
    RoutingObjectsComplete(space, app, keepSidecars, k, s);
    var f := FindService(objects, e.name);
    assert f.Present?;
    RoutingObjectsSound(space, app, keepSidecars, f.item);
    var j :| 0 <= j < |app.spec.endpoints| && f.item in ObjectsOf(space, app, j);
    var v := WiringOf(space, app, j);
    EndpointObjectsShape(space, app, app.spec.endpoints[j], v.svcPort, v.tgtPort, f.item);
    assert j == k;
  }

  // ----- the routing theorems -------------------------------------------------------------

  // What the specification of an endpoint asks for, read off the documented fields.

  /** Metrics endpoints are never encrypted; TCP is unless termination is disabled; HTTP
      follows the space. */
  predicate NeedsTls(space: SpaceSpec, e: EndpointSpec) {
    !e.isMetricsEndpoint && (if e.httpPath == "" then !e.disableTlsTermination else space.encryptHttp)
  }

  function WantedSecret(space: SpaceSpec, e: EndpointSpec): string {
    if e.certAndCaSecretName != "" then e.certAndCaSecretName
    else if e.httpPath == "" then space.tcpCertAndCaSecretName
    else space.httpCertSecretName
  }

  /** Clients are verified unless the endpoint opts out (TCP) or uses the space's web
      certificate (HTTP). */
  predicate VerifiesClients(e: EndpointSpec) {
    if e.httpPath == "" then !e.disableTcpClientTlsVerification else e.certAndCaSecretName != ""
  }

  function Wanted(space: SpaceSpec, e: EndpointSpec): Delivery {
    if NeedsTls(space, e)
    then Terminated(e.port, WantedSecret(space, e), if VerifiesClients(e) then "yes" else "no")
    else Direct(e.port)
  }

  lemma TerminationMeans(space: SpaceSpec, e: EndpointSpec)
    requires TerminationOf(space, e).Ok?
    ensures var t := TerminationOf(space, e).value;
            && (t.Tls? <==> NeedsTls(space, e))
            && (t.Tls? ==>
                  t.secret == WantedSecret(space, e) && (t.verifyChain == if VerifiesClients(e) then "yes" else "no"))
  {
  }

  /** A metrics endpoint with a URL path in a space that encrypts HTTP: its ingress names the
      TLS port, but its service keeps the endpoint's port. */
  predicate Mispointed(space: SpaceSpec, e: EndpointSpec) {
    e.isMetricsEndpoint && e.httpPath != "" && space.encryptHttp && e.port != TLS_PORT
  }

  ghost predicate Routable(space: SpaceSpec, app: App) {
    && !app.spec.runAsJob && NamesDistinct(app) && OwnContainersSilent(space, app)
  }

  /** Inside the pod: where the target port of the k-th endpoint's service leads. */
  lemma ReachEndpoint(space: SpaceSpec, app: App, k: nat)
    requires Compile(space, app, true).Ok? && Routable(space, app) && k < |app.spec.endpoints|
    requires var sidecars := Compile(space, app, true).value.sidecars;
             PortsClear(app, sidecars) && OwnVolumesApart(app, sidecars)
    ensures Reach(WithSidecars(PreparedPod(space, app), Compile(space, app, true).value.sidecars),
                  WiringOf(space, app, k).tgtPort)
            == Wanted(space, app.spec.endpoints[k])
  {
    hide Dec, WithSidecars, PreparedPod, Reach, Equipped, OwnVolumesApart, OwnContainersSilent, NamesDistinct,
         AllEgresses, Endpoints;
    var e, w := app.spec.endpoints[k], WiringOf(space, app, k);
    var sidecars := Compile(space, app, true).value.sidecars;
    var pod, own := WithSidecars(PreparedPod(space, app), sidecars), |app.spec.pod.containers|;
    KeptPodEquipped(space, app);
    WiringPorts(space, app, k);
    TerminationMeans(space, app.spec.endpoints[k]);
    if Terminates(space, app, k) {
      SidecarOfEndpoint(space, app, k);
      var i := IndexOf(space, app, k);
      assert sidecars[i] == IngressSidecar(app, e, TerminationOf(space, e).value, i);
      ReachThroughSidecar(pod, own, sidecars, i, e.port);
      assert sidecars[i].listenPort == w.tgtPort;
    } else {
      ReachDirect(pod, own, sidecars, e.port);
    }
  }

  lemma DeliverUnfolds(space: SpaceSpec, app: App, keepSidecars: bool, k: nat, port: int32)
    requires Compile(space, app, keepSidecars).Ok? && !app.spec.runAsJob && NamesDistinct(app)
    requires k < |app.spec.endpoints|
    ensures var sidecars := Compile(space, app, keepSidecars).value.sidecars;
            var prepared, w := PreparedPod(space, app), WiringOf(space, app, k);
            Deliver(Compile(space, app, keepSidecars).value.objects, app.spec.endpoints[k].name, port) ==
            if port != w.svcPort then Lost
            else Reach(if keepSidecars then WithSidecars(prepared, sidecars) else prepared, w.tgtPort)
  {
    hide WithSidecars, PreparedPod, Reach, AllEgresses, AllEndpoints, RbacObjects, FindService, WiringOf;
    ServiceOfEndpoint(space, app, keepSidecars, k);
  }

  lemma IngressBackend(space: SpaceSpec, app: App, keepSidecars: bool, k: nat, o: Object, r: IngressRule)
    requires Compile(space, app, keepSidecars).Ok? && !app.spec.runAsJob && NamesDistinct(app)
    requires k < |app.spec.endpoints| && o in Compile(space, app, keepSidecars).value.objects
    requires o.Ingress? && o.name == app.spec.endpoints[k].name && r in o.ingressRules
    ensures r.serviceName == app.spec.endpoints[k].name
    ensures r.servicePort == BackendPort(space, app.spec.endpoints[k], WiringOf(space, app, k).svcPort)
  {
    hide Compile, EndpointObjects, WiringOf;
    CompiledEndpoints(space, app, keepSidecars);
    RoutingObjectsSound(space, app, keepSidecars, o);
    var j :| 0 <= j < |app.spec.endpoints| && o in ObjectsOf(space, app, j);
    var w := WiringOf(space, app, j);
    EndpointObjectsShape(space, app, app.spec.endpoints[j], w.svcPort, w.tgtPort, o);
    assert j == k;
  }

  /** The compiler preserves routing, side-cars being stored back: whatever rule of the
      endpoint's ingress is followed, the request ends at the endpoint's own port, TLS being
      terminated exactly when the spec calls for it and with the secret and client
      verification that it names; the one exception is a mispointed metrics endpoint. */
  lemma RulePreservedIff(space: SpaceSpec, app: App, k: nat, o: Object, r: IngressRule)
    requires Compile(space, app, true).Ok? && Routable(space, app) && k < |app.spec.endpoints|
    requires var out := Compile(space, app, true).value;
             && PortsClear(app, out.sidecars) && OwnVolumesApart(app, out.sidecars)
             && o in out.objects && o.Ingress? && o.name == app.spec.endpoints[k].name && r in o.ingressRules
    ensures Deliver(Compile(space, app, true).value.objects, r.serviceName, r.servicePort)
            == Wanted(space, app.spec.endpoints[k])
            <==> !Mispointed(space, app.spec.endpoints[k])
  {
    hide Compile, Deliver, Reach, PortsClear, OwnVolumesApart, OwnContainersSilent, EndpointObjects, WiringOf;
    CompiledEndpoints(space, app, true);
    WiringPorts(space, app, k);
    TerminationMeans(space, app.spec.endpoints[k]);
    IngressBackend(space, app, true, k, o, r);
    DeliverUnfolds(space, app, true, k, r.servicePort);
    ReachEndpoint(space, app, k);
  }

  /** Clients inside the cluster, which go to the service itself, always get there. */
  lemma ServiceRoutingPreserved(space: SpaceSpec, app: App, k: nat)
    requires Compile(space, app, true).Ok? && Routable(space, app) && k < |app.spec.endpoints|
    requires var out := Compile(space, app, true).value;
             PortsClear(app, out.sidecars) && OwnVolumesApart(app, out.sidecars)
    ensures Deliver(Compile(space, app, true).value.objects, app.spec.endpoints[k].name,
                    if NeedsTls(space, app.spec.endpoints[k]) then TLS_PORT else app.spec.endpoints[k].port)
            == Wanted(space, app.spec.endpoints[k])
  {
    hide Compile, Deliver, Reach, PortsClear, OwnVolumesApart, OwnContainersSilent, EndpointObjects, WiringOf;
    CompiledEndpoints(space, app, true);
    WiringPorts(space, app, k);
    TerminationMeans(space, app.spec.endpoints[k]);
    DeliverUnfolds(space, app, true, k, WiringOf(space, app, k).svcPort);
    ReachEndpoint(space, app, k);
  }

  lemma HttpIngressNamed(space: SpaceSpec, app: App, e: EndpointSpec)
    ensures forall o :: o in GenerateHttpIngress(space, app, e) ==> o.Ingress? && o.name == e.name
  {
  }

  /** Every endpoint has an ingress, except a metrics endpoint without a URL path. */
  lemma HasIngressIff(space: SpaceSpec, app: App, keepSidecars: bool, k: nat)
    requires Compile(space, app, keepSidecars).Ok? && !app.spec.runAsJob && NamesDistinct(app)
    requires k < |app.spec.endpoints|
    ensures (exists o :: o in Compile(space, app, keepSidecars).value.objects && o.Ingress?
                         && o.name == app.spec.endpoints[k].name)
            <==> !(app.spec.endpoints[k].isMetricsEndpoint && app.spec.endpoints[k].httpPath == "")
  {
    hide Compile, WiringOf, OwnedLabels, NewHttpIngress;
    CompiledEndpoints(space, app, keepSidecars);
    var e, w := app.spec.endpoints[k], WiringOf(space, app, k);
    var objects := Compile(space, app, keepSidecars).value.objects;
    forall o | o in objects && o.Ingress? && o.name == e.name
      ensures o in EndpointObjects(space, app, e, w.svcPort, w.tgtPort)
    {
      RoutingObjectsSound(space, app, keepSidecars, o);
      var j :| 0 <= j < |app.spec.endpoints| && o in ObjectsOf(space, app, j);
      var v := WiringOf(space, app, j);
      EndpointObjectsShape(space, app, app.spec.endpoints[j], v.svcPort, v.tgtPort, o);
      assert j == k;
    }
    var own := GenerateHttpIngress(space, app, e) + GenerateTcpIngress(space, app, e, w.svcPort);
    if own != [] {
      assert own[0] in ObjectsOf(space, app, k);
      HttpIngressNamed(space, app, e);
      RoutingObjectsComplete(space, app, keepSidecars, k, own[0]);
    }
  }

  /** The code as it stands loses the side-cars, so the same request arrives as the spec asks
      exactly when the endpoint needs no TLS termination (and is not mispointed). */
  lemma RuleWithoutSidecars(space: SpaceSpec, app: App, k: nat, o: Object, r: IngressRule)
    requires Compile(space, app, false).Ok? && Routable(space, app) && k < |app.spec.endpoints|
    requires var out := Compile(space, app, false).value;
             o in out.objects && o.Ingress? && o.name == app.spec.endpoints[k].name && r in o.ingressRules
    ensures Deliver(Compile(space, app, false).value.objects, r.serviceName, r.servicePort)
            == Wanted(space, app.spec.endpoints[k])
            <==> !NeedsTls(space, app.spec.endpoints[k]) && !Mispointed(space, app.spec.endpoints[k])
  {
    hide Compile, Deliver, Reach, EndpointObjects, WiringOf, PreparedPod;
    CompiledEndpoints(space, app, false);
    WiringPorts(space, app, k);
    TerminationMeans(space, app.spec.endpoints[k]);
    IngressBackend(space, app, false, k, o, r);
    DeliverUnfolds(space, app, false, k, r.servicePort);
    LostPodEquipped(space, app);
    ReachDirect(PreparedPod(space, app), |app.spec.pod.containers|, [], WiringOf(space, app, k).tgtPort);
  }

  /** The environment of a side-car, place by place. */
  lemma EnvPlaces(s: Sidecar)
    ensures var env := StunnelEnvVars(s);
            var c := if s.isClientMode then (if s.springBoardDelaySeconds > 0 then 2 else 1) else 0;
            var h := if s.checkHost != "" then 1 else 0;
            && |env| == 6 + c + h + (if s.isNginxIngressStyleCertSecret then 2 else 0)
            && env[..6] == BaseEnv(s)
            && (c > 0 ==> env[6] == EnvVar(CLIENT_MODE, "yes"))
            && (c > 1 ==> env[7] == EnvVar("SPRINGBOARD_DELAY_SECONDS", Dec(s.springBoardDelaySeconds)))
            && (h > 0 ==> env[6 + c] == EnvVar(CHECK_HOST, "checkHost=" + s.checkHost))
            && (s.isNginxIngressStyleCertSecret ==> env[6 + c + h] == BaseEnv(s)[4] && env[7 + c + h] == BaseEnv(s)[5])
  {
    hide Dec;
  }

  /** The certificate and the key, which the last two variables may name once more. */
  lemma SidecarFiles(s: Sidecar)
    ensures EnvValue(StunnelEnvVars(s), CERT_FILE) == "/etc/stunnel/certs/tls.crt"
    ensures EnvValue(StunnelEnvVars(s), KEY_FILE) == "/etc/stunnel/certs/tls.key"
  {
    hide Dec, StunnelEnvVars;
    EnvPlaces(s);
    var env := StunnelEnvVars(s);
    var n := |env|;
    assert env[..6][4] == env[4] && env[..6][5] == env[5];
    EnvIndexIs(env, CERT_FILE, if s.isNginxIngressStyleCertSecret then n - 2 else 4);
    EnvIndexIs(env, KEY_FILE, if s.isNginxIngressStyleCertSecret then n - 1 else 5);
  }

  lemma SidecarDelay(s: Sidecar)
    ensures EnvValue(StunnelEnvVars(s), "SPRINGBOARD_DELAY_SECONDS") ==
            if s.isClientMode && s.springBoardDelaySeconds > 0 then Dec(s.springBoardDelaySeconds) else ""
  {
    hide Dec;
    if s.isClientMode && s.springBoardDelaySeconds > 0 {
      EnvIndexIs(StunnelEnvVars(s), "SPRINGBOARD_DELAY_SECONDS", 7);
    }
  }

  lemma SidecarNoOther(s: Sidecar, name: string)
    requires name !in {VERIFY_CHAIN, ACCEPT_PORT, CONNECT, SPRINGBOARD_PORT, CERT_FILE, KEY_FILE, CLIENT_MODE,
                       "SPRINGBOARD_DELAY_SECONDS", CHECK_HOST}
    ensures EnvValue(StunnelEnvVars(s), name) == ""
  {
    hide Dec;
  }

  /** All that a side-car reads from its environment, the last definition of a variable winning:
      these nine variables, and nothing under any other name. */
  lemma SidecarReads(s: Sidecar, name: string)
    ensures EnvValue(StunnelEnvVars(s), name) ==
            if name == "STUNNEL_VERIFY_CHAIN" then s.verifyChain
            else if name == "STUNNEL_ACCEPT_PORT" then Dec(s.listenPort)
            else if name == "STUNNEL_CONNECT" then s.destHostAndPort
            else if name == "SPRINGBOARD_LISTEN_PORT" then Dec(6789 + s.index)
            else if name == "STUNNEL_CERT_FILE" then "/etc/stunnel/certs/tls.crt"
            else if name == "STUNNEL_KEY_FILE" then "/etc/stunnel/certs/tls.key"
            else if name == "STUNNEL_CLIENT_MODE" then (if s.isClientMode then "yes" else "")
            else if name == "SPRINGBOARD_DELAY_SECONDS"
            then (if s.isClientMode && s.springBoardDelaySeconds > 0 then Dec(s.springBoardDelaySeconds) else "")
            else if name == "STUNNEL_CHECKHOST_LINE" then (if s.checkHost != "" then "checkHost=" + s.checkHost else "")
            else ""
  {
    hide Dec, StunnelEnvVars, EnvValue;
    SidecarEnv(s);
    SidecarEnvAt(s, SPRINGBOARD_PORT, 3);
    SidecarFiles(s);
    SidecarModes(s);
    SidecarDelay(s);
    if name !in {VERIFY_CHAIN, ACCEPT_PORT, CONNECT, SPRINGBOARD_PORT, CERT_FILE, KEY_FILE, CLIENT_MODE,
                 "SPRINGBOARD_DELAY_SECONDS", CHECK_HOST}
    {
      SidecarNoOther(s, name);
    }
  }

  /** The container and the volume of a side-car. */
  lemma SidecarParts(s: Sidecar)
    ensures var c, v := SidecarContainer(s), SidecarVolume(s);
            && c.name == s.containerName && c.ports == [s.listenPort]
            && c.mounts == [s.containerName + "-certs"] == [v.name] && v.secretName == s.tlsSecretName
  {
  }
}

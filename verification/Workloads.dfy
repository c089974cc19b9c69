/** What the pods of a compiled app are given to run with. */
module Workloads {
  import opened ApiTypes
  import Decimal
  import opened Stunnel
  import opened Generate
  import opened Allocation
  import opened Routing
  import opened PortPlanning

  /** The deployment or job comes last. */
  function WorkloadOf(space: SpaceSpec, app: App, keepSidecars: bool): Object
    requires Compile(space, app, keepSidecars).Ok?
  {
    var objects := Compile(space, app, keepSidecars).value.objects;
    objects[|objects| - 1]
  }

  function PodOf(space: SpaceSpec, app: App, keepSidecars: bool): Pod
    requires Compile(space, app, keepSidecars).Ok?
  {
    WorkloadOf(space, app, keepSidecars).pod
  }

  ghost predicate MayDo(objects: seq<Object>, serviceAccount: string, namespace: string, rules: seq<string>) {
    exists role, binding ::
      && role in objects && role.Role? && role.rules == rules
      && binding in objects && binding.RoleBinding? && binding.roleName == role.name
      && binding.subjectName == serviceAccount && binding.subjectNamespace == namespace
  }

  /** An app with permissions runs under a service account that a binding grants exactly these
      rules; the account itself is created unless the app names one. */
  lemma PodHasItsPermissions(space: SpaceSpec, app: App, keepSidecars: bool)
    requires Compile(space, app, keepSidecars).Ok? && app.spec.permissions != []
    ensures var objects, account := Compile(space, app, keepSidecars).value.objects,
              PodOf(space, app, keepSidecars).serviceAccountName;
            && MayDo(objects, account, app.namespace, app.spec.permissions)
            && (app.spec.pod.serviceAccountName == "" ==> ServiceAccount(account, app.namespace) in objects)
            && (app.spec.pod.serviceAccountName != "" ==> account == app.spec.pod.serviceAccountName)
  {
    hide AllEndpoints, AllEgresses, WithSidecars;
    var out := Compile(space, app, keepSidecars).value;
    WithSidecarsAppends(PreparedPod(space, app), out.sidecars);
    var role, binding := Role(SaName(app), app.spec.permissions),
        RoleBinding(SaName(app), SaName(app), app.namespace, SaName(app));
    assert role in RbacObjects(app) && binding in RbacObjects(app);
    assert role in out.objects && binding in out.objects;
    assert app.spec.pod.serviceAccountName == "" ==> ServiceAccount(app.name, app.namespace) in RbacObjects(app);
  }

  /** Every container of the app finds the space's domain name in the variable that the app
      chose for it, whatever the container defined before. */
  lemma ContainersKnowTheDomain(space: SpaceSpec, app: App, keepSidecars: bool, i: nat)
    requires Compile(space, app, keepSidecars).Ok? && i < |app.spec.pod.containers| && app.spec.domainEnvVarName != ""
    ensures i < |PodOf(space, app, keepSidecars).containers|
    ensures EnvValue(PodOf(space, app, keepSidecars).containers[i].env, app.spec.domainEnvVarName) == space.domainName
  {
    hide AllEndpoints, AllEgresses, WithSidecars, RbacObjects;
    var out := Compile(space, app, keepSidecars).value;
    WithSidecarsAppends(PreparedPod(space, app), out.sidecars);
  }

  datatype Outbound = Nowhere | Encrypted(destination: string, secret: string, verifyChain: string, checkHost: string)

  /** A connection of the app to a port of its own pod, meant for the outside: a side-car in
      client mode takes it and connects on, over TLS. */
  function Dial(pod: Pod, port: int): Outbound {
    var i := Listener(pod.containers, Decimal.Dec(port));
    if i == |pod.containers| || pod.containers[i].mounts == [] || EnvValue(pod.containers[i].env, CLIENT_MODE) != "yes"
    then Nowhere
    else
      var c := pod.containers[i];
      Encrypted(EnvValue(c.env, CONNECT), SecretBehind(pod.volumes, c.mounts[0]), EnvValue(c.env, VERIFY_CHAIN),
                EnvValue(c.env, CHECK_HOST))
  }

  /** Where an egress leads: the host it names, or an endpoint of some space, the app's own by
      default; port 443 unless it says otherwise. */
  function Host(app: App, g: TlsEgress): string {
    if g.fqdn != "" then g.fqdn
    else if g.spaceName != "" then g.endpoint + "." + g.spaceName + ".svc.cluster.local"
    else g.endpoint + "." + app.namespace + ".svc.cluster.local"
  }

  function Destination(app: App, g: TlsEgress): string {
    Host(app, g) + ":" + Decimal.Dec(if g.targetPort == 0 then 443 else g.targetPort)
  }

  lemma {:induction false} EgressSidecarAt(space: SpaceSpec, app: App, k: nat, n: nat, index: nat)
    requires k < n <= |app.spec.egresses| && Egresses(space, app, n, index).Ok?
    ensures EgressSidecar(space, app, app.spec.egresses[k], k, index + k).Ok?
    ensures Egresses(space, app, n, index).value[k]
            == EgressSidecar(space, app, app.spec.egresses[k], k, index + k).value
  {
    hide EgressSidecar;
    if k < n - 1 {
      EgressSidecarAt(space, app, k, n - 1, index);
    }
  }

  lemma EgressSidecarMeans(space: SpaceSpec, app: App, g: TlsEgress, k: nat, index: nat)
    requires EgressSidecar(space, app, g, k, index).Ok?
    ensures var s := EgressSidecar(space, app, g, k, index).value;
            && s.listenPort == g.localPort && s.destHostAndPort == Destination(app, g)
            && s.isClientMode && s.checkHost == Host(app, g) != ""
            && s.tlsSecretName == (if g.certAndCaSecretName != "" then g.certAndCaSecretName
                                   else space.tcpCertAndCaSecretName)
            && s.verifyChain == (if g.disableServerCertVerification then "no" else "yes")
  {
    hide Decimal.Dec;
  }

  lemma DialFindsSidecar(pod: Pod, own: nat, sidecars: seq<Sidecar>, i: nat)
    requires Equipped(pod, own, sidecars) && i < |sidecars| && sidecars[i].isClientMode && sidecars[i].checkHost != ""
    requires forall j, k :: 0 <= j < k < |sidecars| ==> sidecars[j].listenPort != sidecars[k].listenPort
    ensures Dial(pod, sidecars[i].listenPort)
            == Encrypted(sidecars[i].destHostAndPort, sidecars[i].tlsSecretName, sidecars[i].verifyChain,
                         "checkHost=" + sidecars[i].checkHost)
  {
    hide Decimal.Dec, StunnelEnvVars;
    ListenerOfPort(pod, own, sidecars, sidecars[i].listenPort);
    SidecarEnv(sidecars[i]);
    SidecarModes(sidecars[i]);
    assert pod.containers[own + i].mounts == [VolumeName(sidecars[i])];
  }

  /** Side-cars being stored back, a connection to an egress's local port leaves the pod for
      the egress's destination, encrypted with its secret (or the space's) and verifying the
      server's chain unless it opts out, and its host; for jobs as well as deployments. */
  lemma EgressPreserved(space: SpaceSpec, app: App, k: nat)
    requires Compilable(space, app) && OwnContainersSilent(space, app) && Planned(app) && PlainVolumes(app)
    requires k < |app.spec.egresses|
    ensures Compile(space, app, true).Ok?
    ensures var g := app.spec.egresses[k];
            Dial(PodOf(space, app, true), g.localPort)
            == Encrypted(Destination(app, g),
                         if g.certAndCaSecretName != "" then g.certAndCaSecretName else space.tcpCertAndCaSecretName,
                         if g.disableServerCertVerification then "no" else "yes",
                         "checkHost=" + Host(app, g))
  {
    hide Decimal.Dec, StunnelEnvVars, WithSidecars, PreparedPod, AllEndpoints, EgressSidecar, Destination, Host, Dial,
         Planned, PlainVolumes, OwnContainersSilent, OwnVolumesApart, Equipped, Compilable;
    PlannedAppCompiles(space, app);
    var sidecars := Compile(space, app, true).value.sidecars;
    CompiledParts(space, app, true);
    var m := IngressCount(space, app);
    KeptPodEquipped(space, app);
    EgressSidecarAt(space, app, k, |app.spec.egresses|, m);
    EgressSidecarMeans(space, app, app.spec.egresses[k], k, m + k);
    assert sidecars[m + k] == EgressSidecar(space, app, app.spec.egresses[k], k, m + k).value;
    DialFindsSidecar(PodOf(space, app, true), |app.spec.pod.containers|, sidecars, m + k);
  }

  lemma ServiceSelects(space: SpaceSpec, app: App, e: EndpointSpec, svcPort: int32, tgtPort: int32, o: Object)
    requires o in EndpointObjects(space, app, e, svcPort, tgtPort)
    ensures o.Ingress? || (o.Service? && o.selector == map[DECCO_APP := app.name])
  {
    hide HttpAnnotations, SniHost, OwnedLabels;
  }

  /** What selects pods among the objects of an app: its services and its deployment. */
  lemma SelectorsOf(space: SpaceSpec, app: App, keepSidecars: bool, o: Object)
    requires Compile(space, app, keepSidecars).Ok? && o in Compile(space, app, keepSidecars).value.objects
    requires o.Service? || o.Deployment?
    ensures o.selector == map[DECCO_APP := app.name]
  {
    hide Endpoints, AllEgresses, PreparedPod, WithSidecars, EndpointObjects;
    if o in AllEndpoints(space, app).value.objects {
      EndpointObjectsSound(space, app, |app.spec.endpoints|, o);
      var k :| 0 <= k < |app.spec.endpoints| && o in ObjectsOf(space, app, k);
      var w := WiringOf(space, app, k);
      ServiceSelects(space, app, app.spec.endpoints[k], w.svcPort, w.tgtPort, o);
    }
  }

  /** Within a namespace the services and the deployment of one app select the pods of another
      exactly if it has the same name: traffic never reaches another app's pods, and no
      deployment adopts them. This holds of jobs' pods, too. */
  lemma SelectsOwnPodsOnlyIff(space: SpaceSpec, app: App, keepSidecars: bool, o: Object,
                              space': SpaceSpec, app': App, keepSidecars': bool)
    requires Compile(space, app, keepSidecars).Ok? && o in Compile(space, app, keepSidecars).value.objects
    requires (o.Service? || o.Deployment?) && Compile(space', app', keepSidecars').Ok?
    ensures o.selector.Items <= WorkloadOf(space', app', keepSidecars').podLabels.Items <==> app.name == app'.name
  {
    hide AllEndpoints, AllEgresses, PreparedPod, WithSidecars, RbacObjects;
    SelectorsOf(space, app, keepSidecars, o);
    var labels := WorkloadOf(space', app', keepSidecars').podLabels;
    assert |"app"| != |DECCO_APP|;
    assert labels == map["app" := "decco", DECCO_APP := app'.name];
    assert (DECCO_APP, app.name) in o.selector.Items;
    assert forall x :: x in o.selector.Items ==> x == (DECCO_APP, app.name);
    assert (DECCO_APP, app.name) in labels.Items <==> labels[DECCO_APP] == app.name;
  }

  /** The workload is a job exactly if the app runs as one, under the app's name and in its
      namespace, with as many replicas (or retries) as the app asks for. */
  lemma WorkloadIsAsAsked(space: SpaceSpec, app: App, keepSidecars: bool)
    requires Compile(space, app, keepSidecars).Ok?
    ensures var w := WorkloadOf(space, app, keepSidecars);
            && (if app.spec.runAsJob then w.Job? && w.backoffLimit == app.spec.jobBackoffLimit
                else w.Deployment? && w.replicas == app.spec.initialReplicas && w.selector.Items <= w.podLabels.Items)
            && w.name == app.name && w.namespace == app.namespace && w.labels == map["decco-derived-from" := "app"]
  {
    hide AllEndpoints, AllEgresses, WithSidecars, PreparedPod, RbacObjects;
  }

  ghost predicate RunsAsDescribed(space: SpaceSpec, app: App, own: Container, c: Container) {
    && c.name == own.name && c.ports == own.ports && c.mounts == own.mounts
    && own.env <= c.env
    && |c.env| == |own.env| + (if app.spec.domainEnvVarName == "" then 0 else 1)
    && forall name :: name != app.spec.domainEnvVarName || name == "" ==>
         EnvValue(c.env, name) == EnvValue(own.env, name)
  }

  lemma DescribedContainer(space: SpaceSpec, app: App, own: Container)
    ensures RunsAsDescribed(space, app, own, WithDomain(space, app, own))
  {
    var c := WithDomain(space, app, own);
    if app.spec.domainEnvVarName != "" {
      forall name | name != app.spec.domainEnvVarName
        ensures EnvIndex(c.env, name) == EnvIndex(own.env, name)
      {
        assert c.env[..|c.env| - 1] == own.env;
      }
    }
  }

  /** The pod that runs is the one the app describes: its containers come first, each with the
      name, ports and mounts it had and with its own environment, behind which at most the
      variable for the domain name is added; its volumes come first, unchanged. Only
      side-cars follow, and none in the code as it stands. */
  lemma AppKeepsItsPod(space: SpaceSpec, app: App, keepSidecars: bool)
    requires Compile(space, app, keepSidecars).Ok?
    ensures var own, pod := app.spec.pod, PodOf(space, app, keepSidecars);
            var added := if keepSidecars then |Compile(space, app, keepSidecars).value.sidecars| else 0;
            && |pod.containers| == |own.containers| + added && |pod.volumes| == |own.volumes| + added
            && own.volumes <= pod.volumes
            && pod.serviceAccountName ==
               (if app.spec.permissions != [] && own.serviceAccountName == "" then app.name else own.serviceAccountName)
            && forall i :: 0 <= i < |own.containers| ==>
                 RunsAsDescribed(space, app, own.containers[i], pod.containers[i])
  {
    hide AllEndpoints, AllEgresses, WithSidecars, RbacObjects, RunsAsDescribed;
    var out := Compile(space, app, keepSidecars).value;
    WithSidecarsAppends(PreparedPod(space, app), out.sidecars);
    forall i | 0 <= i < |app.spec.pod.containers|
      ensures RunsAsDescribed(space, app, app.spec.pod.containers[i], PreparedPod(space, app).containers[i])
    {
      DescribedContainer(space, app, app.spec.pod.containers[i]);
    }
  }
}

/** What the ingress controllers see of a compiled app: which requests its ingresses answer,
    with which certificate, and where a request ends up from its host name on. */
module FrontDoor {
  import opened ApiTypes
  import opened Stunnel
  import opened Generate
  import opened Allocation
  import opened Routing
  import opened PortPlanning
  import H = Hostnames

  function PublicHost(space: SpaceSpec, app: App): string {
    app.namespace + "." + space.domainName
  }

  /** The requests an endpoint asks to be given: TCP connections by SNI host name, HTTP
      requests by URL path, on the space's public host unless it is to stay local. */
  predicate Serves(space: SpaceSpec, app: App, e: EndpointSpec, host: string, path: string) {
    if e.httpPath == "" then !e.isMetricsEndpoint && path == "" && host == SniHost(space, app, e)
    else path == e.httpPath && (host == "localhost" || (!e.httpLocalhostOnly && host == PublicHost(space, app)))
  }

  predicate HasRule(o: Object, host: string, path: string, service: string) {
    o.Ingress? && exists r :: r in o.ingressRules && r.host == host && r.path == path && r.serviceName == service
  }

  lemma HttpRules(space: SpaceSpec, app: App, e: EndpointSpec, o: Object, host: string, path: string)
    requires o in GenerateHttpIngress(space, app, e)
    ensures HasRule(o, host, path, e.name) <==> Serves(space, app, e, host, path)
  {
    hide HttpAnnotations, OwnedLabels;
    assert o.ingressRules[0].host == "localhost";
    assert !e.httpLocalhostOnly ==> o.ingressRules[1].host == PublicHost(space, app);
  }

  lemma TcpRules(space: SpaceSpec, app: App, e: EndpointSpec, svcPort: int32, o: Object, host: string, path: string)
    requires o in GenerateTcpIngress(space, app, e, svcPort)
    ensures HasRule(o, host, path, e.name) <==> Serves(space, app, e, host, path)
  {
    hide OwnedLabels, SniHost;
    assert o.ingressRules[0].host == SniHost(space, app, e);
  }

  lemma ServiceHasNoRule(app: App, e: EndpointSpec, svcPort: int32, tgtPort: int32, host: string, path: string)
    ensures !HasRule(GenerateService(app, e, svcPort, tgtPort), host, path, e.name)
  {
  }

  lemma EndpointServes(space: SpaceSpec, app: App, e: EndpointSpec, svcPort: int32, tgtPort: int32, host: string,
                       path: string)
    requires !app.spec.runAsJob
    ensures (exists o :: o in EndpointObjects(space, app, e, svcPort, tgtPort) && HasRule(o, host, path, e.name))
            <==> Serves(space, app, e, host, path)
  {
    hide OwnedLabels, SniHost, HasRule, NewHttpIngress, GenerateService;
    var http, tcp := GenerateHttpIngress(space, app, e), GenerateTcpIngress(space, app, e, svcPort);
    assert EndpointObjects(space, app, e, svcPort, tgtPort) == [GenerateService(app, e, svcPort, tgtPort)] + http + tcp;
    ServiceHasNoRule(app, e, svcPort, tgtPort, host, path);
    if e.httpPath != "" {
      HttpRules(space, app, e, http[0], host, path);
    } else if !e.isMetricsEndpoint {
      TcpRules(space, app, e, svcPort, tcp[0], host, path);
    }
  }

  /** An endpoint that an ingress of the output was made for. */
  lemma IngressOwner(space: SpaceSpec, app: App, keepSidecars: bool, o: Object) returns (k: nat)
    requires Compile(space, app, keepSidecars).Ok? && !app.spec.runAsJob
    requires o in Compile(space, app, keepSidecars).value.objects && o.Ingress?
    ensures k < |app.spec.endpoints| && Endpoints(space, app, |app.spec.endpoints|).Ok? && o in ObjectsOf(space, app, k)
  {
    hide Compile, EndpointObjects, ObjectsOf;
    CompiledEndpoints(space, app, keepSidecars);
    RoutingObjectsSound(space, app, keepSidecars, o);
    k :| 0 <= k < |app.spec.endpoints| && o in ObjectsOf(space, app, k);
  }

  /** Some ingress of the output answers a request and names this service as its backend
      exactly if some endpoint of that name asks for the request. */
  lemma AnswersIffAskedFor(space: SpaceSpec, app: App, keepSidecars: bool, host: string, path: string, service: string)
    requires Compile(space, app, keepSidecars).Ok? && !app.spec.runAsJob
    ensures (exists o :: o in Compile(space, app, keepSidecars).value.objects && HasRule(o, host, path, service))
            <==> exists k :: 0 <= k < |app.spec.endpoints| && app.spec.endpoints[k].name == service
                             && Serves(space, app, app.spec.endpoints[k], host, path)
  {
    hide Compile, WiringOf, EndpointObjects, Serves;
    CompiledEndpoints(space, app, keepSidecars);
    var objects := Compile(space, app, keepSidecars).value.objects;
    forall o | o in objects && HasRule(o, host, path, service)
      ensures exists k :: 0 <= k < |app.spec.endpoints| && app.spec.endpoints[k].name == service
                          && Serves(space, app, app.spec.endpoints[k], host, path)
    {
      var k := IngressOwner(space, app, keepSidecars, o);
      var e, w := app.spec.endpoints[k], WiringOf(space, app, k);
      EndpointObjectsShape(space, app, e, w.svcPort, w.tgtPort, o);
      assert e.name == service;
      EndpointServes(space, app, e, w.svcPort, w.tgtPort, host, path);
    }
    forall k | 0 <= k < |app.spec.endpoints| && app.spec.endpoints[k].name == service
               && Serves(space, app, app.spec.endpoints[k], host, path)
      ensures exists o :: o in objects && HasRule(o, host, path, service)
    {
      var e, w := app.spec.endpoints[k], WiringOf(space, app, k);
      EndpointServes(space, app, e, w.svcPort, w.tgtPort, host, path);
      var o :| o in EndpointObjects(space, app, e, w.svcPort, w.tgtPort) && HasRule(o, host, path, e.name);
      RoutingObjectsComplete(space, app, keepSidecars, k, o);
    }
  }

  predicate PublicWith(space: SpaceSpec, app: App, e: EndpointSpec, t: IngressTls) {
    && e.httpPath != "" && !e.httpLocalhostOnly
    && t.host == PublicHost(space, app) && t.secretName == WantedSecret(space, e)
  }

  lemma EndpointCertificate(space: SpaceSpec, app: App, e: EndpointSpec, svcPort: int32, tgtPort: int32, t: IngressTls)
    requires !app.spec.runAsJob
    ensures (exists o :: o in EndpointObjects(space, app, e, svcPort, tgtPort) && o.Ingress? && t in o.tls)
            <==> PublicWith(space, app, e, t)
  {
    hide HttpAnnotations, OwnedLabels, SniHost;
    var http := GenerateHttpIngress(space, app, e);
    if e.httpPath != "" {
      assert http[0] in EndpointObjects(space, app, e, svcPort, tgtPort);
    }
  }

  /** The certificates ingresses present: that of an HTTP endpoint on the public host, for
      every endpoint that is public there, and nothing else. */
  lemma CertificatesIff(space: SpaceSpec, app: App, keepSidecars: bool, name: string, t: IngressTls)
    requires Compile(space, app, keepSidecars).Ok? && !app.spec.runAsJob
    ensures (exists o :: o in Compile(space, app, keepSidecars).value.objects && o.Ingress? && o.name == name
                         && t in o.tls)
            <==> exists k :: 0 <= k < |app.spec.endpoints| && app.spec.endpoints[k].name == name
                             && PublicWith(space, app, app.spec.endpoints[k], t)
  {
    hide Compile, WiringOf, EndpointObjects, PublicWith;
    CompiledEndpoints(space, app, keepSidecars);
    var objects := Compile(space, app, keepSidecars).value.objects;
    forall o | o in objects && o.Ingress? && o.name == name && t in o.tls
      ensures exists k :: 0 <= k < |app.spec.endpoints| && app.spec.endpoints[k].name == name
                          && PublicWith(space, app, app.spec.endpoints[k], t)
    {
      var k := IngressOwner(space, app, keepSidecars, o);
      var e, w := app.spec.endpoints[k], WiringOf(space, app, k);
      EndpointObjectsShape(space, app, e, w.svcPort, w.tgtPort, o);
      EndpointCertificate(space, app, e, w.svcPort, w.tgtPort, t);
      assert PublicWith(space, app, app.spec.endpoints[k], t);
    }
    forall k | 0 <= k < |app.spec.endpoints| && app.spec.endpoints[k].name == name
               && PublicWith(space, app, app.spec.endpoints[k], t)
      ensures exists o :: o in objects && o.Ingress? && o.name == name && t in o.tls
    {
      var e, w := app.spec.endpoints[k], WiringOf(space, app, k);
      EndpointCertificate(space, app, e, w.svcPort, w.tgtPort, t);
      var o :| o in EndpointObjects(space, app, e, w.svcPort, w.tgtPort) && o.Ingress? && t in o.tls;
      EndpointObjectsShape(space, app, e, w.svcPort, w.tgtPort, o);
      RoutingObjectsComplete(space, app, keepSidecars, k, o);
    }
  }

  /** The TCP endpoints can be told apart by the first label of their host names. */
  ghost predicate TcpLabelsDistinct(app: App) {
    && H.DotFree(app.namespace)
    && (forall k :: 0 <= k < |app.spec.endpoints| && app.spec.endpoints[k].httpPath == "" ==>
          app.spec.endpoints[k].sniHostname == "" && H.DotFree(H.Label(app.spec.endpoints[k])))
    && (forall j, k :: 0 <= j < |app.spec.endpoints| && 0 <= k < |app.spec.endpoints| && j != k
                       && app.spec.endpoints[j].httpPath == "" && app.spec.endpoints[k].httpPath == "" ==>
          H.Label(app.spec.endpoints[j]) != H.Label(app.spec.endpoints[k]))
  }

  lemma RuleServes(space: SpaceSpec, app: App, e: EndpointSpec, svcPort: int32, tgtPort: int32, o: Object,
                   r: IngressRule)
    requires !app.spec.runAsJob && o in EndpointObjects(space, app, e, svcPort, tgtPort)
    requires o.Ingress? && r in o.ingressRules
    ensures Serves(space, app, e, r.host, r.path)
  {
    hide EndpointObjects, Serves;
    EndpointObjectsShape(space, app, e, svcPort, tgtPort, o);
    assert HasRule(o, r.host, r.path, e.name);
    EndpointServes(space, app, e, svcPort, tgtPort, r.host, r.path);
  }

  lemma SniRuleLeadsTo(space: SpaceSpec, app: App, k: nat, o: Object, r: IngressRule)
    requires Compile(space, app, true).Ok? && !app.spec.runAsJob && TcpLabelsDistinct(app)
    requires o in Compile(space, app, true).value.objects && o.Ingress? && r in o.ingressRules
    requires k < |app.spec.endpoints| && app.spec.endpoints[k].httpPath == ""
    requires r.host == SniHost(space, app, app.spec.endpoints[k]) && r.path == ""
    ensures o.name == app.spec.endpoints[k].name
  {
    hide Compile, EndpointObjects, WiringOf, SniHost;
    var j := IngressOwner(space, app, true, o);
    var e, w := app.spec.endpoints[j], WiringOf(space, app, j);
    EndpointObjectsShape(space, app, e, w.svcPort, w.tgtPort, o);
    RuleServes(space, app, e, w.svcPort, w.tgtPort, o, r);
    H.DefaultHostsInjective(space, app, e, space, app, app.spec.endpoints[k]);
    assert j == k;
  }

  /** End to end, side-cars being stored back: some rule matches a TLS client that names an
      endpoint's default host in SNI, and whichever does, the client reaches that endpoint's
      port, through the termination that the endpoint asks for. */
  lemma SniClientArrives(space: SpaceSpec, app: App, k: nat)
    requires Compilable(space, app) && Routable(space, app) && Planned(app) && PlainVolumes(app)
             && TcpLabelsDistinct(app)
    requires k < |app.spec.endpoints| && app.spec.endpoints[k].httpPath == ""
             && !app.spec.endpoints[k].isMetricsEndpoint
    ensures Compile(space, app, true).Ok?
    ensures var objects, e := Compile(space, app, true).value.objects, app.spec.endpoints[k];
            && (exists o :: o in objects && HasRule(o, SniHost(space, app, e), "", e.name))
            && (forall o, r :: o in objects && o.Ingress? && r in o.ingressRules
                               && r.host == SniHost(space, app, e) && r.path == "" ==>
                  Deliver(objects, r.serviceName, r.servicePort) == Wanted(space, e))
  {
    hide Compile, Deliver, Wanted, Planned, PlainVolumes, PortsClear, OwnVolumesApart, OwnContainersSilent,
         TcpLabelsDistinct, SniHost, HasRule, NamesDistinct;
    PlannedAppCompiles(space, app);
    var objects, e := Compile(space, app, true).value.objects, app.spec.endpoints[k];
    AnswersIffAskedFor(space, app, true, SniHost(space, app, e), "", e.name);
    forall o, r | o in objects && o.Ingress? && r in o.ingressRules && r.host == SniHost(space, app, e) && r.path == ""
      ensures Deliver(objects, r.serviceName, r.servicePort) == Wanted(space, e)
    {
      SniRuleLeadsTo(space, app, k, o, r);
      RulePreservedIff(space, app, k, o, r);
    }
  }

  /** The same for HTTP requests: the service that a matching rule names belongs to an endpoint
      that asks for this host and path, and the request arrives as that endpoint's
      specification says, except exactly if it is a mispointed metrics endpoint. */
  lemma HttpRequestArrives(space: SpaceSpec, app: App, host: string, path: string)
    requires Compilable(space, app) && Routable(space, app) && Planned(app) && PlainVolumes(app) && path != ""
    ensures Compile(space, app, true).Ok?
    ensures var objects := Compile(space, app, true).value.objects;
            forall o, r :: o in objects && o.Ingress? && r in o.ingressRules && r.host == host && r.path == path ==>
              exists k :: 0 <= k < |app.spec.endpoints| && app.spec.endpoints[k].name == r.serviceName
                          && Serves(space, app, app.spec.endpoints[k], host, path)
                          && (!Mispointed(space, app.spec.endpoints[k]) <==>
                                Deliver(objects, r.serviceName, r.servicePort) == Wanted(space, app.spec.endpoints[k]))
  {
    hide Compile, Deliver, Wanted, Planned, PlainVolumes, PortsClear, OwnVolumesApart, OwnContainersSilent,
         EndpointObjects, WiringOf, HasRule, Mispointed, NamesDistinct;
    PlannedAppCompiles(space, app);
    var objects := Compile(space, app, true).value.objects;
    forall o, r | o in objects && o.Ingress? && r in o.ingressRules && r.host == host && r.path == path
      ensures exists k :: 0 <= k < |app.spec.endpoints| && app.spec.endpoints[k].name == r.serviceName
                          && Serves(space, app, app.spec.endpoints[k], host, path)
                          && (!Mispointed(space, app.spec.endpoints[k]) <==>
                                Deliver(objects, r.serviceName, r.servicePort) == Wanted(space, app.spec.endpoints[k]))
    {
      var k := IngressOwner(space, app, true, o);
      var e, w := app.spec.endpoints[k], WiringOf(space, app, k);
      EndpointObjectsShape(space, app, e, w.svcPort, w.tgtPort, o);
      RuleServes(space, app, e, w.svcPort, w.tgtPort, o, r);
      RulePreservedIff(space, app, k, o, r);
    }
  }

  const CLASS := "kubernetes.io/ingress.class"
  const CONNECT := "nginx.ingress.kubernetes.io/proxy-connect-timeout"
  const READ := "nginx.ingress.kubernetes.io/proxy-read-timeout"
  const REDIRECT := "nginx.ingress.kubernetes.io/ssl-redirect"
  const REWRITE := "nginx.ingress.kubernetes.io/rewrite-target"
  const SECURE := "nginx.ingress.kubernetes.io/secure-backends"

  /** The annotations of an HTTP ingress: the endpoint's own, except for the five that decco
      sets, two of them only where they are asked for. */
  ghost predicate Annotated(a: Labels, rewritePath: string, encryptHttp: bool, added: Labels) {
    && (forall key ::
          key in a <==>
          || key in added
          || key in {CONNECT, READ, REDIRECT}
          || (key == REWRITE && rewritePath != "")
          || (key == SECURE && encryptHttp))
    && (forall key :: key in a ==>
          a[key] == if key == CONNECT then "15"
                    else if key == READ then "600"
                    else if key == REDIRECT then "false"
                    else if key == REWRITE && rewritePath != "" then rewritePath
                    else if key == SECURE && encryptHttp then "true"
                    else added[key])
  }

  lemma AnnotationKeys(rewritePath: string, encryptHttp: bool, added: Labels)
    ensures Annotated(HttpAnnotations(rewritePath, encryptHttp, added), rewritePath, encryptHttp, added)
  {
    assert |CONNECT| == 49 && |READ| == 46 && |REDIRECT| == 40 && |REWRITE| == 42 && |SECURE| == 43;
  }

  /** Which annotations an ingress carries. TCP ingresses are always k8sniff's, whatever
      controller the endpoint's annotations name. */
  lemma AnnotationsOf(space: SpaceSpec, app: App, e: EndpointSpec, svcPort: int32, tgtPort: int32, o: Object)
    requires !app.spec.runAsJob && o in EndpointObjects(space, app, e, svcPort, tgtPort) && o.Ingress?
    ensures e.httpPath == "" ==>
              && (forall key :: key in o.annotations <==> key == CLASS || key in e.additionalIngressAnnotations)
              && (forall key :: key in o.annotations ==>
                    o.annotations[key] == if key == CLASS then "k8sniff" else e.additionalIngressAnnotations[key])
    ensures e.httpPath != "" ==>
              Annotated(o.annotations, e.rewritePath, space.encryptHttp, e.additionalIngressAnnotations)
  {
    hide OwnedLabels, SniHost, HttpAnnotations, Annotated;
    AnnotationKeys(e.rewritePath, space.encryptHttp, e.additionalIngressAnnotations);
  }

  /** The service that is found for an endpoint, in full: it offers TLS on 443 in front of the
      endpoint's side-car, or the endpoint's own port; Prometheus picks out the services of
      metrics endpoints, and only those, by label and port name. */
  lemma MonitoredIff(space: SpaceSpec, app: App, keepSidecars: bool, k: nat)
    requires Compile(space, app, keepSidecars).Ok? && !app.spec.runAsJob && NamesDistinct(app)
    requires k < |app.spec.endpoints|
    ensures var f, e := FindService(Compile(space, app, keepSidecars).value.objects, app.spec.endpoints[k].name),
              app.spec.endpoints[k];
            && f.Present? && f.item.Service? && f.item.name == e.name
            && f.item.selector == map["decco-app" := app.name]
            && (if NeedsTls(space, e)
                then f.item.port == 443
                     && f.item.targetPort == IngressDue(space, app, e, TlsBefore(space, app, k)).listenPort
                else f.item.port == f.item.targetPort == e.port)
            && (if e.isMetricsEndpoint
                then f.item.portName == "metrics"
                     && f.item.labels == map["decco-derived-from" := "app", "decco-app" := app.name,
                                             "monitoring-group" := "decco"]
                else f.item.portName == e.name
                     && f.item.labels == map["decco-derived-from" := "app", "decco-app" := app.name])
  {
    hide Compile, WiringOf, FindService, NamesDistinct, NeedsTls, Endpoints;
    ServiceOfEndpoint(space, app, keepSidecars, k);
    CompiledEndpoints(space, app, keepSidecars);
    WiringPorts(space, app, k);
    IndexCounts(space, app, k);
    TerminationMeans(space, app.spec.endpoints[k]);
  }
}

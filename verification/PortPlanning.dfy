/** When the compiler's port allocation leaves routing alone, read off the specification: the
    routing theorem under conditions that the author of an App can check. */
module PortPlanning {
  import opened ApiTypes
  import opened Decimal
  import opened Stunnel
  import opened Generate
  import opened Allocation
  import opened Routing

  /** The ports that automatic allocation may use. */
  predicate Reserved(app: App, port: int) {
    BasePort(app) <= port < BasePort(app) + |app.spec.endpoints|
  }

  ghost predicate ListensFixed(app: App, k: nat)
    requires k < |app.spec.endpoints|
  {
    app.spec.endpoints[k].tlsListenPort != 0
  }

  /** The ports the specification fixes (explicit listen ports, local ports of egresses) are
      distinct and not reserved, and no endpoint's own port is among either. */
  ghost predicate Planned(app: App) {
    var es, gs := app.spec.endpoints, app.spec.egresses;
    && 0 <= BasePort(app) && BasePort(app) + |es| <= 0x8000_0000
    && (forall k :: 0 <= k < |es| && ListensFixed(app, k) ==> !Reserved(app, es[k].tlsListenPort))
    && (forall g :: 0 <= g < |gs| ==> !Reserved(app, gs[g].localPort))
    && (forall j, k :: 0 <= j < k < |es| && ListensFixed(app, j) ==> es[j].tlsListenPort != es[k].tlsListenPort)
    && (forall f, g :: 0 <= f < g < |gs| ==> gs[f].localPort != gs[g].localPort)
    && (forall k, g :: 0 <= k < |es| && 0 <= g < |gs| && ListensFixed(app, k) ==>
          es[k].tlsListenPort != gs[g].localPort)
    && (forall k :: 0 <= k < |es| ==> !Reserved(app, es[k].port))
    && (forall j, k :: 0 <= j < |es| && 0 <= k < |es| && ListensFixed(app, j) ==> es[j].tlsListenPort != es[k].port)
    && (forall k, g :: 0 <= k < |es| && 0 <= g < |gs| ==> gs[g].localPort != es[k].port)
  }

  /** The endpoint that an ingress side-car was made for. */
  lemma {:induction false} SidecarOwner(space: SpaceSpec, app: App, n: nat, i: nat) returns (k: nat)
    requires n <= |app.spec.endpoints| && Endpoints(space, app, n).Ok?
    requires i < |Endpoints(space, app, n).value.sidecars|
    ensures k < n && Endpoints(space, app, k).Ok? && IndexOf(space, app, k) == i && Terminates(space, app, k)
    ensures Endpoints(space, app, n).value.sidecars[i].listenPort == ListenPort(app, app.spec.endpoints[k], i)
    decreases n
  {
    hide Dec, EndpointObjects, ListenPort, TerminationOf;
    if i < |Endpoints(space, app, n - 1).value.sidecars| {
      k := SidecarOwner(space, app, n - 1, i);
    } else {
      k := n - 1;
      WireAddsAtMostOne(space, app, app.spec.endpoints[k], IndexOf(space, app, k));
    }
  }

  lemma EgressListensLocally(space: SpaceSpec, app: App, k: nat, n: nat, index: nat)
    requires k < n <= |app.spec.egresses| && Egresses(space, app, n, index).Ok?
    ensures Egresses(space, app, n, index).value[k].listenPort == app.spec.egresses[k].localPort
  {
    hide Dec, EgressHost;
    if k < n - 1 {
      EgressListensLocally(space, app, k, n - 1, index);
    }
  }

  /** Who listens on the port of the i-th side-car of the pod. */
  datatype Owner = OfEndpoint(k: nat) | OfEgress(g: nat)

  ghost predicate Owns(app: App, i: nat, m: nat, port: int, owner: Owner) {
    match owner
    case OfEndpoint(k) =>
      && i < m && k < |app.spec.endpoints|
      && port == if ListensFixed(app, k) then app.spec.endpoints[k].tlsListenPort as int else BasePort(app) + i
    case OfEgress(g) => g < |app.spec.egresses| && i == m + g && port == app.spec.egresses[g].localPort
  }

  lemma OwnerOf(space: SpaceSpec, app: App, i: nat) returns (owner: Owner)
    requires Compile(space, app, true).Ok? && Planned(app)
    requires i < |Compile(space, app, true).value.sidecars|
    ensures Owns(app, i, IngressCount(space, app), Compile(space, app, true).value.sidecars[i].listenPort, owner)
    ensures owner.OfEndpoint? ==> Endpoints(space, app, owner.k).Ok? && IndexOf(space, app, owner.k) == i
    ensures IngressCount(space, app) <= |app.spec.endpoints|
  {
    hide Dec, Endpoints, Egresses, Wire, Compile, Wrap32;
    CompiledParts(space, app, true);
    var n, m := |app.spec.endpoints|, IngressCount(space, app);
    if !app.spec.runAsJob {
      IndexBound(space, app, n);
    }
    if i < m {
      var k := SidecarOwner(space, app, n, i);
      owner := OfEndpoint(k);
      IndexBound(space, app, k);
      if !ListensFixed(app, k) {
        WrapSmall(BasePort(app), i);
      }
    } else {
      owner := OfEgress(i - m);
      EgressListensLocally(space, app, i - m, |app.spec.egresses|, m);
    }
  }

  lemma OwnersApart(app: App, m: nat, i: nat, p: int, a: Owner, j: nat, q: int, b: Owner)
    requires Planned(app) && m <= |app.spec.endpoints| && i != j
    requires a.OfEndpoint? && b.OfEndpoint? ==> a.k != b.k
    requires Owns(app, i, m, p, a) && Owns(app, j, m, q, b)
    ensures p != q
  {
  }

  lemma OwnerAvoidsPorts(app: App, m: nat, i: nat, p: int, a: Owner)
    requires Planned(app) && m <= |app.spec.endpoints| && Owns(app, i, m, p, a)
    ensures forall k :: 0 <= k < |app.spec.endpoints| ==> p != app.spec.endpoints[k].port
  {
  }

  /** Under a plan no two side-cars listen on one port, nor on a port of the app: automatic
      and fixed ports, ingress and egress side-cars together. */
  lemma PlannedPortsClear(space: SpaceSpec, app: App)
    requires Compile(space, app, true).Ok? && Planned(app)
    ensures PortsClear(app, Compile(space, app, true).value.sidecars)
  {
    hide Compile, Planned, Owns, Endpoints;
    CompiledParts(space, app, true);
    var sidecars := Compile(space, app, true).value.sidecars;
    forall i, j | 0 <= i < j < |sidecars|
      ensures sidecars[i].listenPort != sidecars[j].listenPort
    {
      var a := OwnerOf(space, app, i);
      var b := OwnerOf(space, app, j);
      OwnersApart(app, IngressCount(space, app), i, sidecars[i].listenPort, a, j, sidecars[j].listenPort, b);
    }
    forall i, k | 0 <= i < |sidecars| && 0 <= k < |app.spec.endpoints|
      ensures sidecars[i].listenPort != app.spec.endpoints[k].port
    {
      var a := OwnerOf(space, app, i);
      OwnerAvoidsPorts(app, IngressCount(space, app), i, sidecars[i].listenPort, a);
    }
  }

  const STUNNEL := "stunnel-"

  /** The app's own volumes keep clear of the names that side-cars use. */
  ghost predicate PlainVolumes(app: App) {
    forall v :: v in app.spec.pod.volumes ==> !(STUNNEL <= v.name)
  }

  lemma SidecarVolumeNamed(sidecars: seq<Sidecar>, m: nat, i: nat)
    requires m <= |sidecars| && IngressNumbered(sidecars[..m]) && EgressNumbered(sidecars[m..], m) && i < |sidecars|
    ensures STUNNEL <= VolumeName(sidecars[i])
  {
    hide Dec;
    var ingress, egress := "stunnel-ingress-", "stunnel-egress-";
    assert STUNNEL == ingress[..8] == egress[..8];
    if i < m {
      assert sidecars[i] == sidecars[..m][i];
      assert VolumeName(sidecars[i])[..8] == ingress[..8];
    } else {
      assert sidecars[i] == sidecars[m..][i - m];
      assert VolumeName(sidecars[i])[..8] == egress[..8];
    }
  }

  lemma PlainVolumesApart(space: SpaceSpec, app: App)
    requires Compile(space, app, true).Ok? && PlainVolumes(app)
    ensures OwnVolumesApart(app, Compile(space, app, true).value.sidecars)
  {
    hide Compile, IngressNumbered, EgressNumbered, VolumeName;
    CompiledParts(space, app, true);
    SidecarsNumbered(space, app, true);
    var sidecars := Compile(space, app, true).value.sidecars;
    forall s | s in sidecars
      ensures STUNNEL <= VolumeName(s)
    {
      var i :| 0 <= i < |sidecars| && sidecars[i] == s;
      SidecarVolumeNamed(sidecars, IngressCount(space, app), i);
    }
  }

  ghost predicate Compilable(space: SpaceSpec, app: App) {
    && Accepted(space, app)
    && (app.spec.runAsJob || forall k :: 0 <= k < |app.spec.endpoints| ==> app.spec.endpoints[k].port >= 1)
    && (forall g :: 0 <= g < |app.spec.egresses| ==> EgressUsable(space, app.spec.egresses[g]))
  }

  /** The conditions of the routing theorems, met on the strength of the specification. */
  lemma PlannedAppCompiles(space: SpaceSpec, app: App)
    requires Compilable(space, app) && Planned(app) && PlainVolumes(app)
    ensures Compile(space, app, true).Ok?
    ensures var sidecars := Compile(space, app, true).value.sidecars;
            PortsClear(app, sidecars) && OwnVolumesApart(app, sidecars)
  {
    hide Compile, Planned, PlainVolumes, PortsClear, OwnVolumesApart;
    CompilesIff(space, app, true);
    PlannedPortsClear(space, app);
    PlainVolumesApart(space, app);
  }

  /** The routing theorem from the specification alone, side-cars being stored back: an app
      that compiles, has distinct endpoint names and keeps to a port plan is routed as
      its specification asks, by every rule of every endpoint's ingress, except exactly for
      mispointed metrics endpoints; and inside the cluster without exception. */
  lemma RoutingPreservedIff(space: SpaceSpec, app: App, k: nat)
    requires Compilable(space, app) && Routable(space, app) && Planned(app) && PlainVolumes(app)
    requires k < |app.spec.endpoints|
    ensures Compile(space, app, true).Ok?
    ensures var objects, e := Compile(space, app, true).value.objects, app.spec.endpoints[k];
            && (forall o, r :: o in objects && o.Ingress? && o.name == e.name && r in o.ingressRules ==>
                  (Deliver(objects, r.serviceName, r.servicePort) == Wanted(space, e) <==> !Mispointed(space, e)))
            && Deliver(objects, e.name, if NeedsTls(space, e) then TLS_PORT else e.port) == Wanted(space, e)
  {
    hide Compile, Deliver, Wanted, Planned, PlainVolumes, PortsClear, OwnVolumesApart, OwnContainersSilent,
         NamesDistinct;
    PlannedAppCompiles(space, app);
    ServiceRoutingPreserved(space, app, k);
    var objects, e := Compile(space, app, true).value.objects, app.spec.endpoints[k];
    forall o, r | o in objects && o.Ingress? && o.name == e.name && r in o.ingressRules
      ensures Deliver(objects, r.serviceName, r.servicePort) == Wanted(space, e) <==> !Mispointed(space, e)
    {
      RulePreservedIff(space, app, k, o, r);
    }
  }

  /** The same for the code as it stands, which loses the side-cars: whatever the ports, an
      endpoint is routed as its specification asks exactly if it needs no TLS termination
      (and is not mispointed). */
  lemma CodeRoutesIffNoTls(space: SpaceSpec, app: App, k: nat)
    requires Compilable(space, app) && Routable(space, app) && k < |app.spec.endpoints|
    ensures Compile(space, app, false).Ok?
    ensures var objects, e := Compile(space, app, false).value.objects, app.spec.endpoints[k];
            forall o, r :: o in objects && o.Ingress? && o.name == e.name && r in o.ingressRules ==>
              (!NeedsTls(space, e) && !Mispointed(space, e) <==>
                 Deliver(objects, r.serviceName, r.servicePort) == Wanted(space, e))
  {
    hide Compile, Deliver, Wanted, OwnContainersSilent, NamesDistinct, NeedsTls, Mispointed;
    CompilesIff(space, app, false);
    var objects, e := Compile(space, app, false).value.objects, app.spec.endpoints[k];
    forall o, r | o in objects && o.Ingress? && o.name == e.name && r in o.ingressRules
      ensures Deliver(objects, r.serviceName, r.servicePort) == Wanted(space, e)
              <==> !NeedsTls(space, e) && !Mispointed(space, e)
    {
      RuleWithoutSidecars(space, app, k, o, r);
    }
  }

  // ----- the side-cars in full ------------------------------------------------------------------------

  /** How many of the first k endpoints need TLS termination. */
  function TlsBefore(space: SpaceSpec, app: App, k: nat): nat
    requires k <= |app.spec.endpoints|
  {
    if k == 0 then 0
    else TlsBefore(space, app, k - 1) + (if NeedsTls(space, app.spec.endpoints[k - 1]) then 1 else 0)
  }

  lemma {:induction false} IndexCounts(space: SpaceSpec, app: App, k: nat)
    requires k <= |app.spec.endpoints| && Endpoints(space, app, k).Ok?
    ensures IndexOf(space, app, k) == TlsBefore(space, app, k)
  {
    hide Dec, EndpointObjects, ListenPort, NeedsTls;
    if k > 0 {
      IndexCounts(space, app, k - 1);
      TerminationMeans(space, app.spec.endpoints[k - 1]);
    }
  }

  /** The side-car that an endpoint which needs TLS has to get, given its number: it takes TLS
      connections on the endpoint's listen port, or on the number's port from the base port on,
      and hands them in clear to the endpoint's port. */
  function IngressDue(space: SpaceSpec, app: App, e: EndpointSpec, i: nat): Sidecar {
    var base := if app.spec.firstEndpointListenPort == 0 then 443 else app.spec.firstEndpointListenPort as int;
    Sidecar("stunnel-ingress-" + Dec(i),
            if e.tlsListenPort != 0 then e.tlsListenPort else Wrap32(base + Wrap32(i)),
            if VerifiesClients(e) then "yes" else "no",
            Dec(e.port), "", WantedSecret(space, e), e.httpPath != "", false, 0, i)
  }

  /** The side-car of an egress, its number among the egresses and its index among all: in client
      mode it takes connections on the local port and makes TLS ones to the destination. */
  function EgressDue(space: SpaceSpec, app: App, g: TlsEgress, j: nat, i: nat): Sidecar {
    var host := if g.fqdn != "" then g.fqdn
                else g.endpoint + "." + (if g.spaceName == "" then app.namespace
                                         else g.spaceName) + ".svc.cluster.local";
    Sidecar("stunnel-egress-" + Dec(j), g.localPort, if g.disableServerCertVerification then "no" else "yes",
            host + ":" + Dec(if g.targetPort == 0 then 443 else g.targetPort), host,
            if g.certAndCaSecretName != "" then g.certAndCaSecretName else space.tcpCertAndCaSecretName,
            false, true, g.springBoardDelaySeconds, i)
  }

  lemma NginxStyle(space: SpaceSpec, e: EndpointSpec)
    requires TerminationOf(space, e).Ok? && TerminationOf(space, e).value.Tls?
    ensures TerminationOf(space, e).value.nginxStyle <==> e.httpPath != ""
  {
  }

  lemma IngressSidecarDue(space: SpaceSpec, app: App, k: nat)
    requires k < |app.spec.endpoints| && Endpoints(space, app, |app.spec.endpoints|).Ok?
    requires NeedsTls(space, app.spec.endpoints[k])
    ensures var i, sidecars := TlsBefore(space, app, k), Endpoints(space, app, |app.spec.endpoints|).value.sidecars;
            i < |sidecars| && sidecars[i] == IngressDue(space, app, app.spec.endpoints[k], i)
  {
    hide Dec, Endpoints, Wrap32, NeedsTls, VerifiesClients, WantedSecret;
    EndpointWiring(space, app, k, |app.spec.endpoints|);
    IndexCounts(space, app, k);
    WiringPorts(space, app, k);
    TerminationMeans(space, app.spec.endpoints[k]);
    SidecarOfEndpoint(space, app, k);
    NginxStyle(space, app.spec.endpoints[k]);
  }

  lemma {:induction false} EgressSidecarDue(space: SpaceSpec, app: App, j: nat, n: nat, index: nat)
    requires j < n <= |app.spec.egresses| && Egresses(space, app, n, index).Ok?
    ensures Egresses(space, app, n, index).value[j] == EgressDue(space, app, app.spec.egresses[j], j, index + j)
  {
    hide Dec;
    if j < n - 1 {
      EgressSidecarDue(space, app, j, n - 1, index);
    }
  }

  lemma EgressCount(space: SpaceSpec, app: App, index: nat)
    requires AllEgresses(space, app, index).Ok?
    ensures |AllEgresses(space, app, index).value| == |app.spec.egresses|
  {
  }

  /** The AddStunnelToPod calls, every argument of every one: one for each endpoint that needs
      TLS, in the order of the endpoints, then one for each egress in its order. */
  lemma SidecarsAreDue(space: SpaceSpec, app: App, keepSidecars: bool)
    requires Compile(space, app, keepSidecars).Ok?
    ensures var sidecars, n := Compile(space, app, keepSidecars).value.sidecars, |app.spec.endpoints|;
            var m := if app.spec.runAsJob then 0 else TlsBefore(space, app, n);
            && |sidecars| == m + |app.spec.egresses|
            && (!app.spec.runAsJob ==> forall k :: 0 <= k < n && NeedsTls(space, app.spec.endpoints[k]) ==>
                  && TlsBefore(space, app, k) < m
                  && sidecars[TlsBefore(space, app, k)]
                     == IngressDue(space, app, app.spec.endpoints[k], TlsBefore(space, app, k)))
            && (forall j :: 0 <= j < |app.spec.egresses| ==>
                  sidecars[m + j] == EgressDue(space, app, app.spec.egresses[j], j, m + j))
  {
    hide Compile, Endpoints, Egresses, IngressDue, EgressDue, NeedsTls;
    CompiledParts(space, app, keepSidecars);
    var m, n := IngressCount(space, app), |app.spec.endpoints|;
    if !app.spec.runAsJob {
      IndexCounts(space, app, n);
      forall k | 0 <= k < n && NeedsTls(space, app.spec.endpoints[k])
        ensures TlsBefore(space, app, k) < m
        ensures AllEndpoints(space, app).value.sidecars[TlsBefore(space, app, k)]
                == IngressDue(space, app, app.spec.endpoints[k], TlsBefore(space, app, k))
      {
        IngressSidecarDue(space, app, k);
      }
    }
    forall j | 0 <= j < |app.spec.egresses|
      ensures AllEgresses(space, app, m).value[j] == EgressDue(space, app, app.spec.egresses[j], j, m + j)
    {
      EgressSidecarDue(space, app, j, |app.spec.egresses|, m);
    }
    EgressCount(space, app, m);
  }
}

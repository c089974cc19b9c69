/** When the compiler succeeds, and how it numbers side-cars and allocates their ports. */
module Allocation {
  import opened ApiTypes
  import opened Decimal
  import opened Stunnel
  import opened Generate

  // ----- success -----------------------------------------------------------------------

  ghost predicate Accepted(space: SpaceSpec, app: App) {
    ValidateSpace(space).Ok? && ValidApp(app.spec, space.tcpCertAndCaSecretName)
  }

  predicate EgressUsable(space: SpaceSpec, g: TlsEgress) {
    (g.certAndCaSecretName != "" || space.tcpCertAndCaSecretName != "") && (g.fqdn != "" || g.endpoint != "")
  }

  lemma {:induction false} EndpointsOutcome(space: SpaceSpec, app: App, n: nat)
    requires n <= |app.spec.endpoints| && Accepted(space, app)
    ensures Endpoints(space, app, n).Ok? <==> forall k :: 0 <= k < n ==> app.spec.endpoints[k].port >= 1
    ensures Endpoints(space, app, n).Err? ==> Endpoints(space, app, n).error == InvalidPort
  {
    hide Dec, EndpointObjects, ListenPort;
    if n > 0 {
      EndpointsOutcome(space, app, n - 1);
      assert ValidateEndpoint(app.spec.endpoints[n - 1], space.tcpCertAndCaSecretName).Ok?;
    }
  }

  lemma {:induction false} EgressesOutcome(space: SpaceSpec, app: App, n: nat, index: nat)
    requires n <= |app.spec.egresses|
    ensures Egresses(space, app, n, index).Ok? <==> forall k :: 0 <= k < n ==> EgressUsable(space, app.spec.egresses[k])
    ensures Egresses(space, app, n, index).Err? ==>
              Egresses(space, app, n, index).error in {EgressHasNoSecret, EgressHasNoDestination}
  {
    hide Dec, EgressHost;
    if n > 0 {
      EgressesOutcome(space, app, n - 1, index);
    }
  }

  /** Accepted specifications compile exactly when every endpoint port is positive (a job has
      no endpoints to compile) and every egress has a secret and a destination. The two
      "no cert" errors of createStunnel are never reported for them. */
  lemma CompilesIff(space: SpaceSpec, app: App, keepSidecars: bool)
    requires Accepted(space, app)
    ensures Compile(space, app, keepSidecars).Ok? <==>
            && (app.spec.runAsJob || forall k :: 0 <= k < |app.spec.endpoints| ==> app.spec.endpoints[k].port >= 1)
            && (forall k :: 0 <= k < |app.spec.egresses| ==> EgressUsable(space, app.spec.egresses[k]))
    ensures Compile(space, app, keepSidecars).Err? ==>
              Compile(space, app, keepSidecars).error in {InvalidPort, EgressHasNoSecret, EgressHasNoDestination}
  {
    EndpointsOutcome(space, app, |app.spec.endpoints|);
    var endpoints := AllEndpoints(space, app);
    if endpoints.Ok? {
      EgressesOutcome(space, app, |app.spec.egresses|, |endpoints.value.sidecars|);
    } else {
      EgressesOutcome(space, app, |app.spec.egresses|, 0);
    }
  }

  // ----- numbering ---------------------------------------------------------------------

  /** The number of side-cars in front of the k-th endpoint's own. */
  function IndexOf(space: SpaceSpec, app: App, k: nat): nat
    requires k <= |app.spec.endpoints| && Endpoints(space, app, k).Ok?
  {
    |Endpoints(space, app, k).value.sidecars|
  }

  /** A successful prefix has successful prefixes, and their outputs are prefixes of its own. */
  lemma {:induction false} EndpointPrefixes(space: SpaceSpec, app: App, k: nat, n: nat)
    requires k <= n <= |app.spec.endpoints| && Endpoints(space, app, n).Ok?
    ensures Endpoints(space, app, k).Ok?
    ensures Endpoints(space, app, k).value.sidecars <= Endpoints(space, app, n).value.sidecars
    ensures forall o :: o in Endpoints(space, app, k).value.objects ==> o in Endpoints(space, app, n).value.objects
    decreases n - k
  {
    hide Wire, EndpointObjects;
    if k < n {
      EndpointPrefixes(space, app, k, n - 1);
    }
  }

  lemma WireAddsAtMostOne(space: SpaceSpec, app: App, e: EndpointSpec, index: nat)
    requires Wire(space, app, e, index).Ok?
    ensures |Wire(space, app, e, index).value.sidecar| <= 1
  {
  }

  /** The wiring of the k-th endpoint inside a successful compilation. */
  lemma EndpointWiring(space: SpaceSpec, app: App, k: nat, n: nat)
    requires k < n <= |app.spec.endpoints| && Endpoints(space, app, n).Ok?
    ensures Endpoints(space, app, k).Ok?
    ensures var e, index := app.spec.endpoints[k], IndexOf(space, app, k);
            && Wire(space, app, e, index).Ok?
            && (forall o :: o in EndpointObjects(space, app, e, Wire(space, app, e, index).value.svcPort,
                                                 Wire(space, app, e, index).value.tgtPort) ==>
                  o in Endpoints(space, app, n).value.objects)
            && index + |Wire(space, app, e, index).value.sidecar| <= IndexOf(space, app, n)
            && forall s :: s in Wire(space, app, e, index).value.sidecar ==>
                 index < IndexOf(space, app, n) && Endpoints(space, app, n).value.sidecars[index] == s
  {
    hide Wire, EndpointObjects;
    EndpointPrefixes(space, app, k, n);
    EndpointPrefixes(space, app, k + 1, n);
    var e, index := app.spec.endpoints[k], IndexOf(space, app, k);
    WireAddsAtMostOne(space, app, e, index);
    forall s | s in Wire(space, app, e, index).value.sidecar
      ensures index < IndexOf(space, app, n) && Endpoints(space, app, n).value.sidecars[index] == s
    {
      assert Endpoints(space, app, k + 1).value.sidecars[index] == s;
    }
  }

  ghost predicate IngressNumbered(sidecars: seq<Sidecar>) {
    forall i :: 0 <= i < |sidecars| ==>
      sidecars[i].index == i && sidecars[i].containerName == "stunnel-ingress-" + Dec(i) && !sidecars[i].isClientMode
  }

  lemma {:induction false} EndpointsNumbered(space: SpaceSpec, app: App, n: nat)
    requires n <= |app.spec.endpoints| && Endpoints(space, app, n).Ok?
    ensures IngressNumbered(Endpoints(space, app, n).value.sidecars)
  {
    hide EndpointObjects, ListenPort;
    if n > 0 {
      EndpointsNumbered(space, app, n - 1);
    }
  }

  ghost predicate EgressNumbered(sidecars: seq<Sidecar>, index: nat) {
    forall i :: 0 <= i < |sidecars| ==>
      && sidecars[i].index == index + i && sidecars[i].isClientMode
      && sidecars[i].containerName == "stunnel-egress-" + Dec(i)
  }

  lemma EgressSidecarNumbered(space: SpaceSpec, app: App, g: TlsEgress, i: nat, index: nat)
    requires EgressSidecar(space, app, g, i, index).Ok?
    ensures var s := EgressSidecar(space, app, g, i, index).value;
            s.index == index && s.containerName == "stunnel-egress-" + Dec(i) && s.isClientMode
  {
    hide Dec, EgressHost;
  }

  lemma {:induction false} EgressesNumbered(space: SpaceSpec, app: App, n: nat, index: nat)
    requires n <= |app.spec.egresses| && Egresses(space, app, n, index).Ok?
    ensures EgressNumbered(Egresses(space, app, n, index).value, index)
  {
    hide EgressSidecar, Dec;
    if n > 0 {
      EgressesNumbered(space, app, n - 1, index);
      EgressSidecarNumbered(space, app, app.spec.egresses[n - 1], n - 1, index + n - 1);
    }
  }

  function IngressCount(space: SpaceSpec, app: App): nat
    requires AllEndpoints(space, app).Ok?
  {
    |AllEndpoints(space, app).value.sidecars|
  }

  lemma CompiledParts(space: SpaceSpec, app: App, keepSidecars: bool)
    requires Compile(space, app, keepSidecars).Ok?
    ensures AllEndpoints(space, app).Ok? && AllEgresses(space, app, IngressCount(space, app)).Ok?
    ensures Compile(space, app, keepSidecars).value.sidecars
            == AllEndpoints(space, app).value.sidecars + AllEgresses(space, app, IngressCount(space, app)).value
  {
    hide AllEndpoints, AllEgresses, WithSidecars, PreparedPod, RbacObjects, Workload;
  }

  lemma SidecarsNumbered(space: SpaceSpec, app: App, keepSidecars: bool)
    requires Compile(space, app, keepSidecars).Ok?
    ensures var sidecars, m := Compile(space, app, keepSidecars).value.sidecars, IngressCount(space, app);
            && m <= |sidecars|
            && IngressNumbered(sidecars[..m]) && EgressNumbered(sidecars[m..], m)
  {
    hide Compile, Dec, Endpoints, Egresses;
    CompiledParts(space, app, keepSidecars);
    var m := IngressCount(space, app);
    if !app.spec.runAsJob {
      EndpointsNumbered(space, app, |app.spec.endpoints|);
    }
    EgressesNumbered(space, app, |app.spec.egresses|, m);
    var sidecars := Compile(space, app, keepSidecars).value.sidecars;
    assert sidecars[..m] == AllEndpoints(space, app).value.sidecars;
    assert sidecars[m..] == AllEgresses(space, app, m).value;
  }

  lemma ContainerNamesDistinct(sidecars: seq<Sidecar>, m: nat, i: nat, j: nat)
    requires m <= |sidecars| && IngressNumbered(sidecars[..m]) && EgressNumbered(sidecars[m..], m)
    requires i < j < |sidecars|
    ensures sidecars[i].index == i && sidecars[j].index == j
    ensures sidecars[i].containerName != sidecars[j].containerName
  {
    hide Dec;
    var ingress, egress := "stunnel-ingress-", "stunnel-egress-";
    if j < m {
      assert sidecars[..m][i] == sidecars[i] && sidecars[..m][j] == sidecars[j];
      PrefixedDecInjective(ingress, i, j);
    } else if i >= m {
      assert sidecars[m..][i - m] == sidecars[i] && sidecars[m..][j - m] == sidecars[j];
      PrefixedDecInjective(egress, i - m, j - m);
    } else {
      assert sidecars[..m][i] == sidecars[i] && sidecars[m..][j - m] == sidecars[j];
      assert sidecars[i].containerName[8] == 'i' && sidecars[j].containerName[8] == 'e';
    }
  }

  lemma SuffixedDistinct(a: string, b: string, suffix: string)
    requires a != b
    ensures a + suffix != b + suffix
  {
    assert (a + suffix)[..|a|] == a && (b + suffix)[..|b|] == b;
  }

  /** Over all endpoints and egresses the AddStunnelToPod calls carry indices 0, 1, 2, ... in
      order, and no two side-cars share a container name, a volume, or a springboard port. */
  lemma SidecarsDistinct(space: SpaceSpec, app: App, keepSidecars: bool, i: nat, j: nat)
    requires Compile(space, app, keepSidecars).Ok?
    requires i < j < |Compile(space, app, keepSidecars).value.sidecars|
    ensures var sidecars := Compile(space, app, keepSidecars).value.sidecars;
            && sidecars[i].index == i && sidecars[j].index == j
            && sidecars[i].containerName != sidecars[j].containerName
            && VolumeName(sidecars[i]) != VolumeName(sidecars[j])
            && StunnelEnvVars(sidecars[i])[3].name == SPRINGBOARD_PORT == StunnelEnvVars(sidecars[j])[3].name
            && StunnelEnvVars(sidecars[i])[3].value != StunnelEnvVars(sidecars[j])[3].value
  {
    hide Dec, AllEndpoints, AllEgresses, Workload, RbacObjects, PreparedPod, WithSidecars;
    var sidecars, m := Compile(space, app, keepSidecars).value.sidecars, IngressCount(space, app);
    SidecarsNumbered(space, app, keepSidecars);
    ContainerNamesDistinct(sidecars, m, i, j);
    SuffixedDistinct(sidecars[i].containerName, sidecars[j].containerName, "-certs");
    DecInjective(FIRST_SPRINGBOARD_PORT + i, FIRST_SPRINGBOARD_PORT + j);
  }

  // ----- listen ports ------------------------------------------------------------------

  function BasePort(app: App): int32 {
    if app.spec.firstEndpointListenPort == 0 then TLS_PORT else app.spec.firstEndpointListenPort
  }

  /** The k-th endpoint has a side-car. */
  predicate Terminates(space: SpaceSpec, app: App, k: nat)
    requires k < |app.spec.endpoints|
  {
    TerminationOf(space, app.spec.endpoints[k]).Ok? && TerminationOf(space, app.spec.endpoints[k]).value.Tls?
  }

  /** The side-car of a terminating endpoint sits at its index, in order. */
  lemma SidecarOfEndpoint(space: SpaceSpec, app: App, k: nat)
    requires k < |app.spec.endpoints| && Endpoints(space, app, |app.spec.endpoints|).Ok? && Terminates(space, app, k)
    ensures Endpoints(space, app, k).Ok?
    ensures var i, n := IndexOf(space, app, k), |app.spec.endpoints|;
            var e := app.spec.endpoints[k];
            && i < IndexOf(space, app, n)
            && Endpoints(space, app, n).value.sidecars[i] == IngressSidecar(app, e, TerminationOf(space, e).value, i)
  {
    EndpointWiring(space, app, k, |app.spec.endpoints|);
    var e, i := app.spec.endpoints[k], IndexOf(space, app, k);
    assert IngressSidecar(app, e, TerminationOf(space, e).value, i) in Wire(space, app, e, i).value.sidecar;
  }

  lemma IndicesRise(space: SpaceSpec, app: App, j: nat, k: nat)
    requires j < k < |app.spec.endpoints| && Endpoints(space, app, |app.spec.endpoints|).Ok?
    requires Terminates(space, app, j)
    ensures Endpoints(space, app, j).Ok? && Endpoints(space, app, k).Ok?
    ensures IndexOf(space, app, j) < IndexOf(space, app, k)
  {
    EndpointPrefixes(space, app, k, |app.spec.endpoints|);
    EndpointWiring(space, app, j, k);
    var e, i := app.spec.endpoints[j], IndexOf(space, app, j);
    assert IngressSidecar(app, e, TerminationOf(space, e).value, i) in Wire(space, app, e, i).value.sidecar;
  }

  lemma {:induction false} IndexBound(space: SpaceSpec, app: App, k: nat)
    requires k <= |app.spec.endpoints| && Endpoints(space, app, k).Ok?
    ensures IndexOf(space, app, k) <= k
  {
    if k > 0 {
      IndexBound(space, app, k - 1);
      WireAddsAtMostOne(space, app, app.spec.endpoints[k - 1], IndexOf(space, app, k - 1));
    }
  }

  lemma WrapInjective(base: int32, i: nat, j: nat)
    requires i < j && j - i < 0x1_0000_0000
    ensures Wrap32(base + Wrap32(i)) != Wrap32(base + Wrap32(j))
  {
  }

  /** Listen ports that are assigned automatically never clash with each other, wrap-around of
      the port counter included. */
  lemma AutomaticPortsDistinct(space: SpaceSpec, app: App, j: nat, k: nat)
    requires j < k < |app.spec.endpoints| && |app.spec.endpoints| < 0x1_0000_0000
    requires Endpoints(space, app, |app.spec.endpoints|).Ok?
    requires Terminates(space, app, j) && Terminates(space, app, k)
    requires app.spec.endpoints[j].tlsListenPort == 0 && app.spec.endpoints[k].tlsListenPort == 0
    ensures Endpoints(space, app, j).Ok? && Endpoints(space, app, k).Ok?
    ensures ListenPort(app, app.spec.endpoints[j], IndexOf(space, app, j))
         != ListenPort(app, app.spec.endpoints[k], IndexOf(space, app, k))
  {
    hide Dec, Endpoints, Wire, TerminationOf, Wrap32;
    IndicesRise(space, app, j, k);
    IndexBound(space, app, k);
    WrapInjective(BasePort(app), IndexOf(space, app, j), IndexOf(space, app, k));
  }

  lemma WrapSmall(base: int32, i: nat)
    requires base >= 0 && base + i < 0x8000_0000
    ensures Wrap32(base + Wrap32(i)) == base + i
  {
  }

  /** An automatic port lies within one port per side-car from the base port on, hence away
      from any explicit listen port outside that range. */
  lemma AutomaticPortsInRange(space: SpaceSpec, app: App, k: nat)
    requires k < |app.spec.endpoints| && Endpoints(space, app, |app.spec.endpoints|).Ok? && Terminates(space, app, k)
    requires app.spec.endpoints[k].tlsListenPort == 0
    requires BasePort(app) >= 0 && BasePort(app) + IndexOf(space, app, |app.spec.endpoints|) <= 0x8000_0000
    ensures Endpoints(space, app, k).Ok?
    ensures BasePort(app) <= ListenPort(app, app.spec.endpoints[k], IndexOf(space, app, k))
            < BasePort(app) + IndexOf(space, app, |app.spec.endpoints|)
  {
    hide Dec, Endpoints, Wire, TerminationOf, Wrap32;
    SidecarOfEndpoint(space, app, k);
    WrapSmall(BasePort(app), IndexOf(space, app, k));
  }
}

/** Where the code departs from its documentation or its intent, each at one concrete input;
    the theorems named say exactly when. */
module Departures {
  import opened ApiTypes
  import opened Creation
  import CS = CreationSafety
  import opened Decimal
  import opened Stunnel
  import G = Generate
  import A = Allocation
  import opened Routing
  import P = PortPlanning
  import opened Cluster
  import T = Teardown
  import SP = SpacePlan
  import SS = SpaceSafety
  import opened ServerHistory
  import WatchSpec
  import WatchSafety
  import D = Dns
  import H = Hostnames

  const SPACE := SpaceSpec("example.com", "", "http-cert", "tcp-cert", true, false, false, false, [], "", false, false)

  function Plain(name: string, port: int32, isMetricsEndpoint: bool, httpPath: string, suffix: string): EndpointSpec {
    EndpointSpec(name, port, isMetricsEndpoint, 0, "", httpPath, "", false, false, false, false, "", suffix, map[])
  }

  function OneEndpoint(e: EndpointSpec, serviceAccountName: string, permissions: seq<string>): App {
    App("web", "team", AppSpec(Pod([], [], serviceAccountName), 1, [], false, 0, [e], 0, permissions, ""))
  }

  // ----- the compiler ------------------------------------------------------------------------------

  const TCP_APP := OneEndpoint(Plain("api", 8080, false, "", ""), "", [])

  lemma OneEndpointFits(e: EndpointSpec)
    requires e.port in {8080, 9090} && !e.disableTcpClientTlsVerification && e.tlsListenPort == 0
    ensures var app := OneEndpoint(e, "", []);
            P.Compilable(SPACE, app) && Routable(SPACE, app) && P.Planned(app) && P.PlainVolumes(app)
  {
    assert |ACCEPT_PORT| > 0;
  }

  /** One TCP endpoint on port 8080: its ingress leads to port 443 of a pod in which nothing
      listens there, unencrypted, and not to 8080 through a side-car (CodeRoutesIffNoTls). */
  lemma SidecarIsLost(o: G.Object, r: G.IngressRule)
    requires G.Compile(SPACE, TCP_APP, false).Ok? && o in G.Compile(SPACE, TCP_APP, false).value.objects
    requires o.Ingress? && o.name == "api" && r in o.ingressRules
    ensures Deliver(G.Compile(SPACE, TCP_APP, false).value.objects, r.serviceName, r.servicePort) == Direct(443)
    ensures Wanted(SPACE, TCP_APP.spec.endpoints[0]) == Terminated(8080, "tcp-cert", "yes")
  {
    hide G.Compile, Deliver, Reach, G.EndpointObjects, G.PreparedPod, Dec;
    OneEndpointFits(TCP_APP.spec.endpoints[0]);
    CompiledEndpoints(SPACE, TCP_APP, false);
    WiringPorts(SPACE, TCP_APP, 0);
    IngressBackend(SPACE, TCP_APP, false, 0, o, r);
    DeliverUnfolds(SPACE, TCP_APP, false, 0, r.servicePort);
    LostPodEquipped(SPACE, TCP_APP);
    ReachDirect(G.PreparedPod(SPACE, TCP_APP), 0, [], 443);
  }

  lemma IngressHasRule(space: SpaceSpec, app: App, keepSidecars: bool, o: G.Object)
    requires G.Compile(space, app, keepSidecars).Ok? && !app.spec.runAsJob
    requires o in G.Compile(space, app, keepSidecars).value.objects && o.Ingress?
    ensures |o.ingressRules| > 0
  {
    hide G.Compile, G.HttpAnnotations, G.SniHost;
    CompiledEndpoints(space, app, keepSidecars);
    RoutingObjectsSound(space, app, keepSidecars, o);
  }

  lemma SidecarIsLostSomewhere()
    ensures G.Compile(SPACE, TCP_APP, false).Ok?
    ensures exists o, r :: o in G.Compile(SPACE, TCP_APP, false).value.objects && o.Ingress? && r in o.ingressRules
              && Deliver(G.Compile(SPACE, TCP_APP, false).value.objects, r.serviceName, r.servicePort) == Direct(443)
  {
    hide G.Compile, Deliver, G.EndpointObjects;
    var e := TCP_APP.spec.endpoints[0];
    OneEndpointFits(e);
    A.CompilesIff(SPACE, TCP_APP, false);
    HasIngressIff(SPACE, TCP_APP, false, 0);
    var o :| o in G.Compile(SPACE, TCP_APP, false).value.objects && o.Ingress? && o.name == "api";
    IngressHasRule(SPACE, TCP_APP, false, o);
    SidecarIsLost(o, o.ingressRules[0]);
  }

  const METRICS_APP := OneEndpoint(Plain("metrics", 9090, true, "/m", ""), "", [])

  /** A metrics endpoint on port 9090 with path /m, in a space that encrypts HTTP: its ingress
      names port 443 of a service that only has 9090 (RoutingPreservedIff). */
  lemma MetricsIngressIsMispointed()
    ensures G.Compile(SPACE, METRICS_APP, true).Ok? && Mispointed(SPACE, METRICS_APP.spec.endpoints[0])
    ensures exists o, r :: o in G.Compile(SPACE, METRICS_APP, true).value.objects && o.Ingress? && r in o.ingressRules
              && Deliver(G.Compile(SPACE, METRICS_APP, true).value.objects, r.serviceName, r.servicePort) == Lost
  {
    hide G.Compile, Deliver, G.EndpointObjects;
    OneEndpointFits(METRICS_APP.spec.endpoints[0]);
    A.CompilesIff(SPACE, METRICS_APP, true);
    HasIngressIff(SPACE, METRICS_APP, true, 0);
    var o :| o in G.Compile(SPACE, METRICS_APP, true).value.objects && o.Ingress? && o.name == "metrics";
    IngressHasRule(SPACE, METRICS_APP, true, o);
    CompiledEndpoints(SPACE, METRICS_APP, true);
    WiringPorts(SPACE, METRICS_APP, 0);
    IngressBackend(SPACE, METRICS_APP, true, 0, o, o.ingressRules[0]);
    DeliverUnfolds(SPACE, METRICS_APP, true, 0, o.ingressRules[0].servicePort);
  }

  const ROBOT_APP := OneEndpoint(Plain("api", 8080, false, "", ""), "robot", ["get pods"])

  /** An app with permissions and the service account "robot": its role is never deleted
      (DeleteUndoesCreateIff). */
  lemma RoleIsLeftBehind()
    ensures G.Compile(SPACE, ROBOT_APP, false).Ok?
    ensures G.Role("robot", ["get pods"]) in G.Compile(SPACE, ROBOT_APP, false).value.objects
    ensures RefOf(G.Role("robot", ["get pods"])) !in T.Deletes(ROBOT_APP)
  {
    hide G.AllEndpoints, G.AllEgresses, G.PreparedPod;
    A.CompilesIff(SPACE, ROBOT_APP, false);
    assert G.Role("robot", ["get pods"]) in G.RbacObjects(ROBOT_APP);
    T.EndpointDeletesKinds(ROBOT_APP.spec.endpoints);
    assert |"robot"| != |"web"|;
  }

  const SUFFIXED := Plain("api", 8080, false, "", "-eu")

  /** An endpoint "api" with suffix "-eu": the DNS record is made for api.team.example.com, the
      SNI host is api-eu.team.example.com (RecordNamesTheHostIff). */
  lemma RecordMissesTheHost()
    ensures H.EndpointRecord(SPACE, TCP_APP, SUFFIXED) == "api.team.example.com."
    ensures G.SniHost(SPACE, TCP_APP, SUFFIXED) == "api-eu.team.example.com"
  {
  }

  // ----- spaces ------------------------------------------------------------------------------------

  const ONE_SECRET := SPACE.(httpCertSecretName := "cert", tcpCertAndCaSecretName := "cert")

  /** A valid space whose one secret exists can never be created (CanCompleteIff). */
  lemma SharedSecretNeverCompletes(dnsEnabled: bool)
    ensures ValidateSpace(ONE_SECRET).Ok?
    ensures !SS.CanComplete(ONE_SECRET, dnsEnabled, SP.Certs(map["cert" := "data"], false, map[], SP.Absent, SP.Absent))
  {
    SS.CanCompleteIff(ONE_SECRET, dnsEnabled, SP.Certs(map["cert" := "data"], false, map[], SP.Absent, SP.Absent));
  }

  /** A space with both certificates, of which only the role binding of its ingress controller
      is refused: internalCreate returns no error, and Active is stored with that step failed
      (ActiveMeansEveryStepIff). */
  lemma RefusedRoleBindingStoresActive() returns (k: nat)
    ensures var certs := SP.Certs(map["http-cert" := "h", "tcp-cert" := "t"], false, map[], SP.Absent, SP.Absent);
            var steps, effects := SP.Steps(SPACE, true), SS.NoRoleBinding(SPACE, true);
            && k < |steps| && steps[k] == SP.CreateIngressRoleBinding
            && SP.Passed(SPACE, certs, steps, effects, |steps|) && !SP.Succeeded(SPACE, certs, steps, effects, k)
    ensures var s := CS.Run(SS.SpaceCode(), CS.Start(), CS.Alone(true, SPACE, SS.NoRoleBinding(SPACE, true)));
            && |s.hist| == 4 && s.hist[3] == CS.Obj(0, Active, SPACE)
            && |s.procs| == 1 && k < |s.procs[0].local.oks| && !s.procs[0].local.oks[k]
  {
    hide SP.Steps, CS.Run, SP.Plan;
    var certs := SP.Certs(map["http-cert" := "h", "tcp-cert" := "t"], false, map[], SP.Absent, SP.Absent);
    assert |"http-cert"| != |"tcp-cert"|;
    k := SS.RefusedRoleBindingGoesUnnoticed(SPACE, true, certs);
    SS.PlanTasks(SPACE, true);
    CS.AloneStoresActive(SS.SpaceCode(), true, SPACE, SS.NoRoleBinding(SPACE, true));
  }

  // ----- the watch loop ----------------------------------------------------------------------------

  const WEB := Key("team", "web")

  lemma WebLog(log: seq<Change>)
    requires log == [Added(WEB), Deleted(WEB), Added(WEB)]
    ensures Live(log[..0]) == {} && Live(log[..1]) == {WEB} && Live(log[..2]) == {} && Live(log[..3]) == {WEB}
    ensures Proper(log) && NeverShared(log) && Names({WEB}) == {"web"}
  {
    LiveStep(log, 0);
    LiveStep(log, 1);
    LiveStep(log, 2);
    OneNamespaceNeverShares(log, "team");
  }

  /** An app is deleted and created again between two lists: reconciliation keeps the handle of
      the first, which replay would have given up (ReplayRetainsIff). */
  lemma OldHandleIsKept()
    ensures var log, reg := [Added(WEB), Deleted(WEB), Added(WEB)], WatchSpec.Register(WatchSpec.START.reg, "web");
            && Proper(log) && NeverShared(log) && WatchSafety.Agrees(reg, log, 1)
            && WatchSpec.Elements(["web"]) == Names(Live(log))
            && WatchSafety.Retains(reg, WatchSpec.Reconcile(reg, ["web"]), "web")
            && WatchSafety.Feed(reg, log, 1, 3).Done?
            && !WatchSafety.Retains(reg, WatchSafety.Feed(reg, log, 1, 3).reg, "web")
  {
    var log, reg := [Added(WEB), Deleted(WEB), Added(WEB)], WatchSpec.Register(WatchSpec.START.reg, "web");
    WebLog(log);
    assert log[..3] == log;
    assert WatchSpec.Elements(["web"]) == {"web"} == Names({WEB});
    WatchSafety.ReplayRetainsIff(reg, log, 1, 3, ["web"], "web");
    assert log[1].Deleted? && log[1].key.name == "web";
  }

  function Move(grow: seq<Change>, crd: WatchSpec.Crd, listing: WatchSpec.Listing,
                chunk: WatchSpec.Chunk): WatchSpec.Move {
    WatchSpec.Move(grow, crd, listing, WatchSpec.OpenStream, chunk)
  }

  /** Two spaces of one name in different namespaces: the second is refused, and Run ends in an
      "unsafe state" error (DeliveryRefusedIffNamesCollide). */
  lemma NamesCollide()
    ensures var log, reg := [Added(Key("a", "web")), Added(Key("b", "web"))],
              WatchSpec.Register(WatchSpec.START.reg, "web");
            var streaming := WatchSpec.Loop(reg, WatchSpec.Streaming(WatchSpec.At(1)));
            var m := Move([], WatchSpec.CrdExists, WatchSpec.ListFailed, WatchSafety.EventAt(log, 1));
            && Proper(log) && WatchSafety.Agrees(reg, log, 1)
            && WatchSpec.Step(streaming, m).pc == WatchSpec.Exited(WatchSpec.Unsafe)
  {
    var log := [Added(Key("a", "web")), Added(Key("b", "web"))];
    assert log[..0] == [];
    LiveStep(log, 0);
    LiveStep(log, 1);
    assert Live(log[..1]) == {Key("a", "web")} && Names({Key("a", "web")}) == {"web"};
    assert Key("a", "web").namespace[0] == 'a' && Key("b", "web").namespace[0] == 'b';
  }

  const API := Key("team", "api")

  const DRAMA := [Added(WEB), Added(API), Deleted(API), Deleted(WEB), Added(WEB)]

  lemma DramaLives()
    ensures Live(DRAMA[..0]) == {} && Live(DRAMA[..1]) == {WEB} && Live(DRAMA[..2]) == {WEB, API}
    ensures Live(DRAMA[..3]) == {WEB} && Live(DRAMA[..4]) == {} && WEB != API
  {
    assert "web"[0] != "api"[0] && WEB.name != API.name;
    LiveStep(DRAMA, 0);
    LiveStep(DRAMA, 1);
    LiveStep(DRAMA, 2);
    LiveStep(DRAMA, 3);
  }

  lemma DramaEvents()
    ensures WatchSafety.EventAt(DRAMA[..3], 2) == WatchSpec.Event(WatchSpec.EvDeleted, "api", WatchSpec.At(2))
    ensures WatchSafety.EventAt(DRAMA[..5], 4) == WatchSpec.Event(WatchSpec.EvAdded, "web", WatchSpec.At(5))
  {
    assert DRAMA[..3][..2] == DRAMA[..2] && LastTouched(DRAMA[..2], API) == 2;
  }

  lemma DramaLog()
    ensures forall i :: 0 <= i <= 5 ==> WatchSafety.GoodLog(DRAMA[..i])
    ensures Live(DRAMA[..2]) == {WEB, API} && Live(DRAMA[..4]) == {}
    ensures WatchSafety.EventAt(DRAMA[..3], 2) == WatchSpec.Event(WatchSpec.EvDeleted, "api", WatchSpec.At(2))
    ensures WatchSafety.EventAt(DRAMA[..5], 4) == WatchSpec.Event(WatchSpec.EvAdded, "web", WatchSpec.At(5))
  {
    hide Live, WatchSafety.EventAt;
    DramaLives();
    DramaEvents();
    assert Proper(DRAMA);
    forall i | 0 <= i <= 5
      ensures WatchSafety.GoodLog(DRAMA[..i])
    {
      assert forall j :: 0 <= j < i ==> DRAMA[..i][..j] == DRAMA[..j];
      OneNamespaceNeverShares(DRAMA[..i], "team");
    }
  }

  /** A server that behaves well throughout, but for whether definitions are created afresh. */
  ghost predicate Served(w: WatchSafety.World, moves: seq<WatchSpec.Move>)
    decreases |moves|
  {
    moves == [] || (WatchSafety.WellBehaved(w, moves[0]) && Served(WatchSafety.Next(w, moves[0]), moves[1..]))
  }

  lemma ServedFrom(w: WatchSafety.World, moves: seq<WatchSpec.Move>, i: nat)
    requires i < |moves| && WatchSafety.WellBehaved(w, moves[i])
    requires i + 1 < |moves| ==> Served(WatchSafety.Next(w, moves[i]), moves[i + 1..])
    ensures Served(w, moves[i..])
    ensures WatchSafety.RunWorld(w, moves[i..]) == WatchSafety.RunWorld(WatchSafety.Next(w, moves[i]), moves[i + 1..])
  {
    hide WatchSafety.WellBehaved, WatchSafety.Next;
    assert moves[i..][1..] == moves[i + 1..];
  }

  /** List; open; the deletion of "api"; the end of the stream, hence a resync; meanwhile "web"
      goes, and with it the definition; open; "web" is back. */
  function Acts(): seq<WatchSpec.Move> {
    var known, closed := WatchSpec.CrdExists, WatchSpec.Closed;
    [ Move([], known, WatchSpec.Listed(WatchSpec.At(2), ["web", "api"]), closed),
      Move([], known, WatchSpec.ListFailed, closed),
      Move([Deleted(API)], known, WatchSpec.ListFailed, WatchSpec.Event(WatchSpec.EvDeleted, "api", WatchSpec.At(2))),
      Move([], known, WatchSpec.ListFailed, closed),
      Move([Deleted(WEB)], WatchSpec.CrdCreated, WatchSpec.ListFailed, closed),
      Move([], known, WatchSpec.ListFailed, closed),
      Move([Added(WEB)], known, WatchSpec.ListFailed, WatchSpec.Event(WatchSpec.EvAdded, "web", WatchSpec.At(5))) ]
  }

  /** Where the loop stands, what is registered, and what the server has done. */
  ghost predicate Stands(w: WatchSafety.World, pc: WatchSpec.Pc, names: set<string>, n: nat)
    requires n <= 5
  {
    w.loop.pc == pc && w.loop.reg.items.Keys == names && w.log == DRAMA[..n]
  }

  lemma Listed(w: WatchSafety.World)
    requires w == WatchSafety.Initially(DRAMA[..2])
    ensures WatchSafety.WellBehaved(w, Acts()[0])
    ensures Stands(WatchSafety.Next(w, Acts()[0]), WatchSpec.Opening(WatchSpec.At(2)), {"web", "api"}, 2)
  {
    hide WatchSafety.GoodLog, WatchSpec.Reconcile, WatchSafety.EventAt;
    DramaLog();
    assert w.log + [] == DRAMA[..2] && DRAMA[..2][..2] == DRAMA[..2];
    assert WatchSpec.Elements(["web", "api"]) == {"web", "api"} == Names({WEB, API});
    WatchSafety.ReconcileKeys(w.loop.reg, ["web", "api"]);
  }

  lemma Opened(w: WatchSafety.World, i: nat, v: WatchSpec.Version, names: set<string>, n: nat)
    requires i in {1, 5} && n in {2, 4} && Stands(w, WatchSpec.Opening(v), names, n)
    ensures WatchSafety.WellBehaved(w, Acts()[i])
    ensures var next := WatchSafety.Next(w, Acts()[i]);
            Stands(next, WatchSpec.Streaming(v), names, n) && next.cursor == WatchSafety.StreamStart(w, v)
  {
    hide WatchSafety.GoodLog, WatchSafety.EventAt;
    DramaLog();
    assert w.log + [] == DRAMA[..n];
  }

  lemma ApiDeleted(w: WatchSafety.World)
    requires Stands(w, WatchSpec.Streaming(WatchSpec.At(2)), {"web", "api"}, 2) && w.cursor == 2
    ensures WatchSafety.WellBehaved(w, Acts()[2])
    ensures Stands(WatchSafety.Next(w, Acts()[2]), WatchSpec.Streaming(WatchSpec.Empty), {"web"}, 3)
  {
    hide WatchSafety.GoodLog, WatchSafety.EventAt;
    DramaLog();
    assert w.log + [Deleted(API)] == DRAMA[..3];
    assert {"web", "api"} - {"api"} == {"web"} by {
      assert "web"[0] != "api"[0];
    }
  }

  lemma StreamEnds(w: WatchSafety.World)
    requires Stands(w, WatchSpec.Streaming(WatchSpec.Empty), {"web"}, 3)
    ensures WatchSafety.WellBehaved(w, Acts()[3])
            && Stands(WatchSafety.Next(w, Acts()[3]), WatchSpec.Resync, {"web"}, 3)
  {
    hide WatchSafety.GoodLog, WatchSafety.EventAt;
    DramaLog();
    assert w.log + [] == DRAMA[..3];
  }

  lemma DefinedAfresh(w: WatchSafety.World)
    requires Stands(w, WatchSpec.Resync, {"web"}, 3)
    ensures WatchSafety.WellBehaved(w, Acts()[4])
    ensures var next := WatchSafety.Next(w, Acts()[4]);
            && Stands(next, WatchSpec.Opening(WatchSpec.Zero), {"web"}, 4)
            && WatchSafety.StreamStart(next, WatchSpec.Zero) == 4
  {
    hide WatchSafety.GoodLog, WatchSafety.EventAt;
    DramaLog();
    assert w.log + [Deleted(WEB)] == DRAMA[..4];
  }

  lemma WebIsBack(w: WatchSafety.World)
    requires Stands(w, WatchSpec.Streaming(WatchSpec.Zero), {"web"}, 4) && w.cursor == 4
    ensures WatchSafety.WellBehaved(w, Acts()[6])
    ensures WatchSafety.Next(w, Acts()[6]).loop.pc == WatchSpec.Exited(WatchSpec.Unsafe)
  {
    hide WatchSafety.GoodLog, WatchSafety.EventAt, WatchSpec.MarkAll;
    DramaLog();
    assert w.log + [Added(WEB)] == DRAMA[..5];
    assert "web" in w.loop.reg.items;
  }

  /** The definition is deleted and created again while "web" is registered: resync does not
      reconcile, and the next event ends Run in an "unsafe state" error
      (FreshDefinitionAgreesIffEmpty). */
  lemma FreshDefinitionBreaksAgreement()
    ensures Served(WatchSafety.Initially(DRAMA[..2]), Acts())
    ensures WatchSafety.RunWorld(WatchSafety.Initially(DRAMA[..2]), Acts()).loop.pc
            == WatchSpec.Exited(WatchSpec.Unsafe)
  {
    hide WatchSafety.WellBehaved, WatchSafety.Next, Stands, Served;
    var m := Acts();
    var w0 := WatchSafety.Initially(DRAMA[..2]);
    Listed(w0);
    var w1 := WatchSafety.Next(w0, m[0]);
    Opened(w1, 1, WatchSpec.At(2), {"web", "api"}, 2);
    var w2 := WatchSafety.Next(w1, m[1]);
    ApiDeleted(w2);
    var w3 := WatchSafety.Next(w2, m[2]);
    StreamEnds(w3);
    var w4 := WatchSafety.Next(w3, m[3]);
    DefinedAfresh(w4);
    var w5 := WatchSafety.Next(w4, m[4]);
    Opened(w5, 5, WatchSpec.Zero, {"web"}, 4);
    var w6 := WatchSafety.Next(w5, m[5]);
    WebIsBack(w6);
    var w7 := WatchSafety.Next(w6, m[6]);
    ServedFrom(w6, m, 6);
    ServedFrom(w5, m, 5);
    ServedFrom(w4, m, 4);
    ServedFrom(w3, m, 3);
    ServedFrom(w2, m, 2);
    ServedFrom(w1, m, 1);
    ServedFrom(w0, m, 0);
    assert m[0..] == m && m[7..] == [];
  }

  // ----- DNS ---------------------------------------------------------------------------------------

  /** Two record sets of one name: a successful update removes only the first
      (SuccessSettlesIff). */
  lemma SecondRecordSetStays()
    ensures var name, a, b := "web.example.com.", "192.0.2.1", "192.0.2.2";
            var sets := [D.RecordSet(name, [a], 180, D.A), D.RecordSet(name, [b], 180, D.A)];
            var zones := [D.Zone("example.com.", map[name := sets])];
            var u, c := D.Update("example.com", "web", "192.0.2.3", false, false), D.Conduct(true, true, Applied);
            && D.Updated(true, zones, u, c).1
            && D.Lookup(D.Updated(true, zones, u, c).0, "example.com", "web") == [sets[1], D.NewSet(u)]
  {
    var name := "web.example.com.";
    assert D.ZoneName("example.com") == "example.com." && D.RecordName("example.com", "web") == name;
  }
}

/** Kinds and names of the generated objects: whether writing one could overwrite another. */
module References {
  import opened ApiTypes
  import opened Stunnel
  import opened Generate
  import opened Cluster
  import opened Routing

  ghost predicate Apart(objects: seq<Object>) {
    forall i, j :: 0 <= i < j < |objects| ==> RefOf(objects[i]) != RefOf(objects[j])
  }

  lemma ApartConcat(a: seq<Object>, b: seq<Object>)
    ensures Apart(a + b) <==>
            Apart(a) && Apart(b) && forall i, j :: 0 <= i < |a| && 0 <= j < |b| ==> RefOf(a[i]) != RefOf(b[j])
  {
    hide RefOf;
    var c := a + b;
    assert forall i :: 0 <= i < |a| ==> c[i] == a[i];
    assert forall j :: 0 <= j < |b| ==> c[|a| + j] == b[j];
    if Apart(c) {
      forall i, j | 0 <= i < |a| && 0 <= j < |b|
        ensures RefOf(a[i]) != RefOf(b[j])
      {
        assert RefOf(c[i]) != RefOf(c[|a| + j]);
      }
      forall i, j | 0 <= i < j < |b|
        ensures RefOf(b[i]) != RefOf(b[j])
      {
        assert RefOf(c[|a| + i]) != RefOf(c[|a| + j]);
      }
    }
  }

  /** One endpoint: a service and at most one ingress, both under its name. */
  lemma EndpointRefs(space: SpaceSpec, app: App, e: EndpointSpec, svcPort: int32, tgtPort: int32)
    ensures var objects := EndpointObjects(space, app, e, svcPort, tgtPort);
            && Apart(objects) && |objects| > 0 && RefOf(objects[0]) == Ref(KService, e.name)
            && forall o :: o in objects ==> RefOf(o) in {Ref(KService, e.name), Ref(KIngress, e.name)}
  {
    hide HttpAnnotations, SniHost, OwnedLabels;
  }

  ghost predicate Named(objects: seq<Object>, name: string) {
    exists o :: o in objects && RefOf(o).name == name
  }

  ghost predicate HasService(objects: seq<Object>, name: string) {
    exists o :: o in objects && RefOf(o) == Ref(KService, name)
  }

  /** A service or ingress of some name comes with a service of that name. */
  ghost predicate Served(objects: seq<Object>) {
    forall o :: o in objects ==> RefOf(o).kind in {KService, KIngress} && HasService(objects, RefOf(o).name)
  }

  lemma AddedApart(before: seq<Object>, added: seq<Object>, name: string)
    requires Served(before) && Apart(added) && |added| > 0 && RefOf(added[0]) == Ref(KService, name)
    requires forall o :: o in added ==> RefOf(o) in {Ref(KService, name), Ref(KIngress, name)}
    ensures Apart(before + added) <==> Apart(before) && !Named(before, name)
  {
    hide RefOf, Apart;
    ApartConcat(before, added);
    if Named(before, name) {
      var o :| o in before && RefOf(o).name == name;
      var service :| service in before && RefOf(service) == Ref(KService, name);
      var i :| 0 <= i < |before| && before[i] == service;
      assert RefOf(before[i]) == RefOf(added[0]);
    } else {
      forall i, j | 0 <= i < |before| && 0 <= j < |added|
        ensures RefOf(before[i]) != RefOf(added[j])
      {
        assert before[i] in before && added[j] in added;
      }
    }
  }

  lemma ServicesStay(before: seq<Object>, added: seq<Object>)
    ensures forall n :: HasService(before, n) || HasService(added, n) ==> HasService(before + added, n)
  {
    hide RefOf;
  }

  lemma FirstIsService(objects: seq<Object>, name: string)
    requires |objects| > 0 && RefOf(objects[0]) == Ref(KService, name)
    ensures HasService(objects, name)
  {
    hide RefOf;
    assert objects[0] in objects;
  }

  lemma AddedServed(before: seq<Object>, added: seq<Object>, name: string)
    requires Served(before) && |added| > 0 && RefOf(added[0]) == Ref(KService, name)
    requires forall o :: o in added ==> RefOf(o) in {Ref(KService, name), Ref(KIngress, name)}
    ensures Served(before + added)
    ensures forall n :: Named(before + added, n) <==> Named(before, n) || n == name
  {
    hide RefOf, HasService;
    var all := before + added;
    assert forall o :: o in all <==> o in before || o in added;
    assert added[0] in added;
    ServicesStay(before, added);
    FirstIsService(added, name);
  }

  lemma NothingApart()
    ensures Apart([]) && Served([]) && forall name :: !Named([], name)
  {
  }

  lemma {:induction false} EndpointsApartIff(space: SpaceSpec, app: App, n: nat)
    requires n <= |app.spec.endpoints| && Endpoints(space, app, n).Ok?
    ensures var objects := Endpoints(space, app, n).value.objects;
            && Served(objects)
            && (forall name :: Named(objects, name) <==> exists k :: 0 <= k < n && app.spec.endpoints[k].name == name)
            && (Apart(objects) <==>
                  forall j, k :: 0 <= j < k < n ==> app.spec.endpoints[j].name != app.spec.endpoints[k].name)
  {
    hide Wire, EndpointObjects, RefOf, Served, Named;
    if n == 0 {
      NothingApart();
    } else {
      var e, before := app.spec.endpoints[n - 1], Endpoints(space, app, n - 1).value;
      var w := Wire(space, app, e, |before.sidecars|).value;
      var added := EndpointObjects(space, app, e, w.svcPort, w.tgtPort);
      EndpointsApartIff(space, app, n - 1);
      EndpointRefs(space, app, e, w.svcPort, w.tgtPort);
      AddedApart(before.objects, added, e.name);
      AddedServed(before.objects, added, e.name);
    }
  }

  lemma RbacApart(app: App)
    ensures Apart(RbacObjects(app))
    ensures forall i :: 0 <= i < |RbacObjects(app)| ==>
              RefOf(RbacObjects(app)[i]).kind in {KServiceAccount, KRole, KRoleBinding}
  {
    hide SaName;
    var objects := RbacObjects(app);
    assert |objects| == 3 ==> objects[0].ServiceAccount? && objects[1].Role? && objects[2].RoleBinding?;
    assert |objects| == 2 ==> objects[0].Role? && objects[1].RoleBinding?;
  }

  lemma OneApart(o: Object)
    ensures Apart([o])
  {
  }

  /** No generated object overwrites another, exactly if the app is a job or its endpoints have
      distinct names. */
  lemma GeneratedApartIff(space: SpaceSpec, app: App, keepSidecars: bool)
    requires Compile(space, app, keepSidecars).Ok?
    ensures Apart(Compile(space, app, keepSidecars).value.objects) <==> app.spec.runAsJob || NamesDistinct(app)
  {
    hide Endpoints, AllEgresses, PreparedPod, WithSidecars, Apart, RbacObjects, Named;
    var rbac, endpoints := RbacObjects(app), AllEndpoints(space, app).value.objects;
    var objects := Compile(space, app, keepSidecars).value.objects;
    var workload := [objects[|objects| - 1]];
    assert objects == rbac + endpoints + workload;
    ApartConcat(rbac + endpoints, workload);
    ApartConcat(rbac, endpoints);
    RbacApart(app);
    OneApart(objects[|objects| - 1]);
    if app.spec.runAsJob {
      NothingApart();
    } else {
      EndpointsApartIff(space, app, |app.spec.endpoints|);
      assert forall i :: 0 <= i < |endpoints| ==> endpoints[i] in endpoints;
    }
  }

  predicate HasIngress(e: EndpointSpec) {
    e.httpPath != "" || !e.isMetricsEndpoint
  }

  /** Which objects an app asks for. */
  predicate Asks(app: App, r: Ref) {
    match r.kind
    case KServiceAccount => app.spec.permissions != [] && app.spec.pod.serviceAccountName == "" && r.name == app.name
    case KRole | KRoleBinding =>
      && app.spec.permissions != []
      && r.name == if app.spec.pod.serviceAccountName == "" then app.name else app.spec.pod.serviceAccountName
    case KService =>
      !app.spec.runAsJob && exists k :: 0 <= k < |app.spec.endpoints| && app.spec.endpoints[k].name == r.name
    case KIngress =>
      !app.spec.runAsJob && exists k :: 0 <= k < |app.spec.endpoints| && app.spec.endpoints[k].name == r.name
                                        && HasIngress(app.spec.endpoints[k])
    case KJob => app.spec.runAsJob && r.name == app.name
    case KDeployment => !app.spec.runAsJob && r.name == app.name
  }

  ghost predicate Has(objects: seq<Object>, r: Ref) {
    exists o :: o in objects && RefOf(o) == r
  }

  lemma HasConcat(a: seq<Object>, b: seq<Object>, r: Ref)
    ensures Has(a + b, r) <==> Has(a, r) || Has(b, r)
  {
    hide RefOf;
    assert forall o :: o in a + b <==> o in a || o in b;
  }

  lemma OneHas(o: Object, r: Ref)
    ensures Has([o], r) <==> RefOf(o) == r
  {
    assert o in [o];
  }

  lemma NothingHas(r: Ref)
    ensures !Has([], r)
  {
  }

  /** At most one object. */
  lemma OptionHas(objects: seq<Object>, o: Object, r: Ref)
    requires objects == [] || objects == [o]
    ensures Has(objects, r) <==> objects != [] && RefOf(o) == r
  {
    hide RefOf, Has;
    if objects == [] {
      NothingHas(r);
    } else {
      OneHas(o, r);
    }
  }

  lemma EndpointHas(space: SpaceSpec, app: App, e: EndpointSpec, svcPort: int32, tgtPort: int32, r: Ref)
    requires !app.spec.runAsJob
    ensures Has(EndpointObjects(space, app, e, svcPort, tgtPort), r) <==>
            r.name == e.name && (r.kind == KService || (r.kind == KIngress && HasIngress(e)))
  {
    hide HttpAnnotations, SniHost, OwnedLabels, Has;
    var service := GenerateService(app, e, svcPort, tgtPort);
    var http, tcp := GenerateHttpIngress(space, app, e), GenerateTcpIngress(space, app, e, svcPort);
    HasConcat([service] + http, tcp, r);
    HasConcat([service], http, r);
    OneHas(service, r);
    OptionHas(http, if http == [] then service else http[0], r);
    OptionHas(tcp, if tcp == [] then service else tcp[0], r);
  }

  lemma {:induction false} EndpointsHave(space: SpaceSpec, app: App, n: nat, r: Ref)
    requires !app.spec.runAsJob && n <= |app.spec.endpoints| && Endpoints(space, app, n).Ok?
    ensures Has(Endpoints(space, app, n).value.objects, r) <==>
            exists k :: 0 <= k < n && app.spec.endpoints[k].name == r.name
                        && (r.kind == KService || (r.kind == KIngress && HasIngress(app.spec.endpoints[k])))
  {
    hide Wire, EndpointObjects, Has;
    if n == 0 {
      NothingHas(r);
    } else {
      var e, before := app.spec.endpoints[n - 1], Endpoints(space, app, n - 1).value;
      var w := Wire(space, app, e, |before.sidecars|).value;
      EndpointsHave(space, app, n - 1, r);
      EndpointHas(space, app, e, w.svcPort, w.tgtPort, r);
      HasConcat(before.objects, EndpointObjects(space, app, e, w.svcPort, w.tgtPort), r);
    }
  }

  lemma RbacHas(app: App, r: Ref)
    ensures Has(RbacObjects(app), r) <==> r.kind in {KServiceAccount, KRole, KRoleBinding} && Asks(app, r)
  {
    var objects := RbacObjects(app);
    assert |objects| > 0 ==> objects[0] in objects;
    assert |objects| > 1 ==> objects[1] in objects;
    assert |objects| > 2 ==> objects[2] in objects;
  }

  /** What is generated, by kind and name: exactly what the app asks for. */
  lemma GeneratedAre(space: SpaceSpec, app: App, keepSidecars: bool, r: Ref)
    requires Compile(space, app, keepSidecars).Ok?
    ensures Has(Compile(space, app, keepSidecars).value.objects, r) <==> Asks(app, r)
  {
    hide Endpoints, AllEgresses, PreparedPod, WithSidecars, RbacObjects, Has;
    var rbac, endpoints := RbacObjects(app), AllEndpoints(space, app).value.objects;
    var objects := Compile(space, app, keepSidecars).value.objects;
    var workload := objects[|objects| - 1];
    assert objects == rbac + endpoints + [workload];
    HasConcat(rbac + endpoints, [workload], r);
    HasConcat(rbac, endpoints, r);
    RbacHas(app, r);
    OneHas(workload, r);
    if app.spec.runAsJob {
      NothingHas(r);
    } else {
      EndpointsHave(space, app, |app.spec.endpoints|, r);
    }
  }

  /** No permission is granted beyond the app's: every role has its rules, every binding binds
      the role of its own name to the account of its own name in the app's namespace. */
  lemma NothingElseIsGranted(space: SpaceSpec, app: App, keepSidecars: bool, o: Object)
    requires Compile(space, app, keepSidecars).Ok? && o in Compile(space, app, keepSidecars).value.objects
    ensures o.Role? ==> o.rules == app.spec.permissions
    ensures o.RoleBinding? ==> o.roleName == o.subjectName == o.name && o.subjectNamespace == app.namespace
    ensures o.ServiceAccount? ==> o.namespace == app.namespace
  {
    hide Endpoints, AllEgresses, PreparedPod, WithSidecars;
    if o in AllEndpoints(space, app).value.objects {
      EndpointsApartIff(space, app, |app.spec.endpoints|);
    }
  }
}

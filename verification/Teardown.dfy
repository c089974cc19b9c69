/** AppRuntime.Delete against what GenerateResources creates. */
module Teardown {
  import opened ApiTypes
  import opened Generate
  import opened Cluster
  import D = Dns
  import E = EndpointDns

  function EndpointDeletes(es: seq<EndpointSpec>): seq<Ref> {
    if es == [] then []
    else EndpointDeletes(es[..|es| - 1]) + [Ref(KService, es[|es| - 1].name), Ref(KIngress, es[|es| - 1].name)]
  }

  function PermissionDeletes(app: App): seq<Ref> {
    if app.spec.permissions == [] then []
    else
      [Ref(KRoleBinding, app.name), Ref(KRole, app.name)]
      + (if app.spec.pod.serviceAccountName != "" then [] else [Ref(KServiceAccount, app.name)])
  }

  function Deletes(app: App): seq<Ref> {
    EndpointDeletes(app.spec.endpoints)
    + [Ref(if app.spec.runAsJob then KJob else KDeployment, app.name)]
    + PermissionDeletes(app)
  }

  function Elements(refs: seq<Ref>): set<Ref> {
    set r | r in refs
  }

  method DeleteOne(ns: Namespace, r: Ref, ghost was: map<Ref, Labels>)
    requires ns.objects == was - (Elements(ns.asked) - ns.refused)
    modifies ns
    ensures ns.asked == old(ns.asked) + [r]
    ensures ns.objects == was - (Elements(ns.asked) - ns.refused)
  {
    ns.Delete(r);
  }

  method TeardownPermissions(app: App, ns: Namespace, ghost was: map<Ref, Labels>)
    requires ns.objects == was - (Elements(ns.asked) - ns.refused)
    modifies ns
    ensures ns.asked == old(ns.asked) + PermissionDeletes(app)
    ensures ns.objects == was - (Elements(ns.asked) - ns.refused)
  {
    if |app.spec.permissions| == 0 {
      return;
    }
    DeleteOne(ns, Ref(KRoleBinding, app.name), was);
    DeleteOne(ns, Ref(KRole, app.name), was);
    if app.spec.pod.serviceAccountName != "" {
      return;
    }
    DeleteOne(ns, Ref(KServiceAccount, app.name), was);
  }

  /** Failed deletions are logged and passed over, and so is the failure of a DNS record, which
      keeps the records of later endpoints from being deleted; n: endpoints whose record
      was seen to. */
  method Delete(space: SpaceSpec, app: App, ns: Namespace, dns: D.Provider, answers: seq<E.Answer>)
    returns (ghost n: nat)
    requires ns.asked == [] && |answers| == |app.spec.endpoints|
    modifies ns, dns
    ensures ns.asked == Deletes(app)
    ensures ns.objects == old(ns.objects) - (Elements(Deletes(app)) - ns.refused)
    ensures n <= |answers|
    ensures dns.zones == E.ZonesAfter(dns.enabled, old(dns.zones), space, app, answers, true, n)
    ensures E.GotTo(dns.enabled, old(dns.zones), space, app, answers, true, n)
  {
    hide E.ZonesAfter, E.Configured, E.GotTo;
    ghost var was := ns.objects;
    var es := app.spec.endpoints;
    for i := 0 to |es|
      invariant dns.zones == old(dns.zones)
      invariant ns.asked == EndpointDeletes(es[..i])
      invariant ns.objects == was - (Elements(ns.asked) - ns.refused)
    {
      assert es[..i + 1][..i] == es[..i];
      DeleteOne(ns, Ref(KService, es[i].name), was);
      DeleteOne(ns, Ref(KIngress, es[i].name), was);
    }
    assert es[..|es|] == es;
    var configured;
    configured, n := E.ConfigureDns(space, app, dns, answers, true);
    if app.spec.runAsJob {
      DeleteOne(ns, Ref(KJob, app.name), was);
    } else {
      DeleteOne(ns, Ref(KDeployment, app.name), was);
    }
    TeardownPermissions(app, ns, was);
  }

  // ----- delete undoes create --------------------------------------------------------------

  lemma {:induction false} EndpointDeletesCover(es: seq<EndpointSpec>, k: nat)
    requires k < |es|
    ensures Ref(KService, es[k].name) in EndpointDeletes(es) && Ref(KIngress, es[k].name) in EndpointDeletes(es)
  {
    if k < |es| - 1 {
      EndpointDeletesCover(es[..|es| - 1], k);
    }
  }

  lemma {:induction false} EndpointDeletesKinds(es: seq<EndpointSpec>)
    ensures forall r :: r in EndpointDeletes(es) ==> r.kind in {KService, KIngress}
  {
    if es != [] {
      EndpointDeletesKinds(es[..|es| - 1]);
    }
  }

  lemma EndpointObjectRef(space: SpaceSpec, app: App, e: EndpointSpec, svcPort: int32, tgtPort: int32, o: Object)
    requires o in EndpointObjects(space, app, e, svcPort, tgtPort)
    ensures RefOf(o) in {Ref(KService, e.name), Ref(KIngress, e.name)}
  {
    hide HttpAnnotations, SniHost, OwnedLabels;
  }

  lemma {:induction false} EndpointObjectsDeleted(space: SpaceSpec, app: App, n: nat, o: Object)
    requires n <= |app.spec.endpoints| && Endpoints(space, app, n).Ok? && o in Endpoints(space, app, n).value.objects
    ensures RefOf(o) in EndpointDeletes(app.spec.endpoints)
  {
    hide Wire, EndpointObjects, EndpointDeletes;
    if n > 0 && o in Endpoints(space, app, n - 1).value.objects {
      EndpointObjectsDeleted(space, app, n - 1, o);
    } else if n > 0 {
      var e := app.spec.endpoints[n - 1];
      var w := Wire(space, app, e, |Endpoints(space, app, n - 1).value.sidecars|).value;
      EndpointObjectRef(space, app, e, w.svcPort, w.tgtPort, o);
      EndpointDeletesCover(app.spec.endpoints, n - 1);
    }
  }

  ghost predicate DeletesCover(app: App, objects: seq<Object>) {
    forall o :: o in objects ==> RefOf(o) in Deletes(app)
  }

  lemma PermissionsCoveredIff(app: App)
    ensures (forall o :: o in RbacObjects(app) ==> RefOf(o) in PermissionDeletes(app))
            <==> app.spec.permissions == [] || SaName(app) == app.name
  {
    if app.spec.permissions != [] {
      assert Role(SaName(app), app.spec.permissions) in RbacObjects(app);
    }
  }

  lemma RbacKinds(app: App)
    ensures forall o :: o in RbacObjects(app) ==> RefOf(o).kind in {KServiceAccount, KRole, KRoleBinding}
  {
  }

  /** Every object created for an app is named, with its kind, by some call of Delete exactly
      when the app has no permissions, or no service account of its own choosing, or one
      that happens to bear the app's name: the role and binding are created under the name
      of the service account but deleted under the name of the app. */
  lemma DeleteUndoesCreateIff(space: SpaceSpec, app: App, keepSidecars: bool)
    requires Compile(space, app, keepSidecars).Ok?
    ensures DeletesCover(app, Compile(space, app, keepSidecars).value.objects)
            <==> app.spec.permissions == [] || app.spec.pod.serviceAccountName in {"", app.name}
  {
    hide PreparedPod, AllEgresses, Endpoints, EndpointDeletes, PermissionDeletes, RbacObjects;
    var objects := Compile(space, app, keepSidecars).value.objects;
    var endpoints := AllEndpoints(space, app).value.objects;
    EndpointDeletesKinds(app.spec.endpoints);
    PermissionsCoveredIff(app);
    RbacKinds(app);
    forall o | o in endpoints
      ensures RefOf(o) in Deletes(app)
    {
      EndpointObjectsDeleted(space, app, |app.spec.endpoints|, o);
    }
    forall o | o in RbacObjects(app)
      ensures o in objects && (RefOf(o) in Deletes(app) <==> RefOf(o) in PermissionDeletes(app))
    {
    }
  }

  /** Create, then delete without failures: in a namespace that held nothing under the names
      Delete asks for, everything is as before. */
  lemma CreateThenDelete(space: SpaceSpec, app: App, keepSidecars: bool, before: map<Ref, Labels>,
                         created: map<Ref, Labels>)
    requires Compile(space, app, keepSidecars).Ok?
    requires app.spec.permissions == [] || app.spec.pod.serviceAccountName in {"", app.name}
    requires created.Keys == set o | o in Compile(space, app, keepSidecars).value.objects :: RefOf(o)
    requires before.Keys !! Elements(Deletes(app))
    ensures (before + created) - Elements(Deletes(app)) == before
  {
    hide Compile, Deletes;
    DeleteUndoesCreateIff(space, app, keepSidecars);
    assert created.Keys <= Elements(Deletes(app));
  }

  lemma {:induction false} EndpointDeletesAre(es: seq<EndpointSpec>, r: Ref)
    ensures r in EndpointDeletes(es) <==>
            r.kind in {KService, KIngress} && exists k :: 0 <= k < |es| && es[k].name == r.name
  {
    if es != [] {
      var n := |es| - 1;
      EndpointDeletesAre(es[..n], r);
      assert forall k :: 0 <= k < n ==> es[..n][k] == es[k];
      assert r.kind in {KService, KIngress} && es[n].name == r.name ==>
          r in [Ref(KService, es[n].name), Ref(KIngress, es[n].name)];
    }
  }

  /** Exactly what Delete asks for: services and ingresses under the endpoints' names, the job or
      deployment, and, for an app with permissions, binding and role under the app's name; the
      service account only if the app has none of its own, so that one it was given stays. */
  lemma DeletesAre(app: App, r: Ref)
    ensures r in Deletes(app) <==>
            || (r.kind in {KService, KIngress}
                && exists k :: 0 <= k < |app.spec.endpoints| && app.spec.endpoints[k].name == r.name)
            || (r == Ref(KJob, app.name) && app.spec.runAsJob)
            || (r == Ref(KDeployment, app.name) && !app.spec.runAsJob)
            || (r in {Ref(KRoleBinding, app.name), Ref(KRole, app.name)} && app.spec.permissions != [])
            || (r == Ref(KServiceAccount, app.name) && app.spec.permissions != []
                && app.spec.pod.serviceAccountName == "")
  {
    hide EndpointDeletes;
    EndpointDeletesAre(app.spec.endpoints, r);
  }
}

/** configureDNS of pkg/app/app.go, the DNS records of an app's endpoints. */
module EndpointDns {
  import opened ApiTypes
  import C = Creation
  import D = Dns
  import R = AppRuntime

  /** For one endpoint: whether the address of the TCP ingress is found, and how the DNS
      provider conducts itself. */
  datatype Answer = Answer(found: bool, ipOrHostname: string, isHostname: bool, conduct: D.Conduct)

  function CallFor(space: SpaceSpec, app: App, e: EndpointSpec, a: Answer, delete: bool): D.Event {
    D.Event(D.Update(space.domainName, R.RecordName(app, e), a.ipOrHostname, a.isHostname, delete), a.conduct)
  }

  /** The calls of UpdateRecord for the first n endpoints. */
  function Calls(space: SpaceSpec, app: App, answers: seq<Answer>, delete: bool, n: nat): seq<D.Event>
    requires n <= |app.spec.endpoints| == |answers|
  {
    if n == 0 then []
    else
      var e := app.spec.endpoints[n - 1];
      Calls(space, app, answers, delete, n - 1)
      + (if e.createDnsRecord then [CallFor(space, app, e, answers[n - 1], delete)] else [])
  }

  function ZonesAfter(enabled: bool, zones: seq<D.Zone>, space: SpaceSpec, app: App,
                      answers: seq<Answer>, delete: bool, n: nat): seq<D.Zone>
    requires n <= |app.spec.endpoints| == |answers|
  {
    D.After(enabled, zones, Calls(space, app, answers, delete, n))
  }

  /** The record of the k-th endpoint, if it asks for one, was configured. */
  predicate Configured(enabled: bool, zones: seq<D.Zone>, space: SpaceSpec, app: App,
                       answers: seq<Answer>, delete: bool, k: nat)
    requires k < |app.spec.endpoints| == |answers|
  {
    var e, call := app.spec.endpoints[k], CallFor(space, app, app.spec.endpoints[k], answers[k], delete);
    e.createDnsRecord ==>
      answers[k].found
      && D.Updated(enabled, ZonesAfter(enabled, zones, space, app, answers, delete, k), call.u, call.c).1
  }

  lemma NextZones(enabled: bool, zones: seq<D.Zone>, space: SpaceSpec, app: App, answers: seq<Answer>, delete: bool,
                  k: nat)
    requires k < |app.spec.endpoints| == |answers|
    ensures var e, call := app.spec.endpoints[k], CallFor(space, app, app.spec.endpoints[k], answers[k], delete);
            var now := ZonesAfter(enabled, zones, space, app, answers, delete, k);
            ZonesAfter(enabled, zones, space, app, answers, delete, k + 1)
            == if e.createDnsRecord then D.Updated(enabled, now, call.u, call.c).0 else now
  {
    hide D.Updated, CallFor;
    var calls := Calls(space, app, answers, delete, k);
    var call := CallFor(space, app, app.spec.endpoints[k], answers[k], delete);
    assert (calls + [call])[..|calls|] == calls && (calls + [call])[|calls|] == call;
    assert calls + [] == calls;
  }

  lemma NoCalls(enabled: bool, zones: seq<D.Zone>, space: SpaceSpec, app: App, answers: seq<Answer>, delete: bool)
    requires |app.spec.endpoints| == |answers|
    ensures ZonesAfter(enabled, zones, space, app, answers, delete, 0) == zones
  {
  }

  lemma DisabledFails(zones: seq<D.Zone>, call: D.Event)
    ensures !D.Updated(false, zones, call.u, call.c).1
  {
  }

  /** How far configureDNS gets: through all endpoints, or through those before the first that
      cannot be configured, and that one too unless it is given up before its call. */
  ghost predicate GotTo(enabled: bool, zones: seq<D.Zone>, space: SpaceSpec, app: App, answers: seq<Answer>,
                        delete: bool,
                        n: nat)
    requires |app.spec.endpoints| == |answers|
  {
    || (n == |answers| && forall k :: 0 <= k < n ==> Configured(enabled, zones, space, app, answers, delete, k))
    || exists f :: && 0 <= f < |answers| && !Configured(enabled, zones, space, app, answers, delete, f)
                   && (forall k :: 0 <= k < f ==> Configured(enabled, zones, space, app, answers, delete, k))
                   && n == if enabled && answers[f].found then f + 1 else f
  }

  /** Goes through the endpoints in order and stops at the first that cannot be configured,
      which may nevertheless have taken effect. */
  method ConfigureDns(space: SpaceSpec, app: App, provider: D.Provider, answers: seq<Answer>, delete: bool)
    returns (ok: bool, ghost n: nat)
    requires |answers| == |app.spec.endpoints|
    modifies provider
    ensures n <= |answers|
    ensures provider.zones == ZonesAfter(provider.enabled, old(provider.zones), space, app, answers, delete, n)
    ensures forall k :: 0 <= k < n - 1 ==>
              Configured(provider.enabled, old(provider.zones), space, app, answers, delete, k)
    ensures ok <==> forall k :: 0 <= k < |answers| ==>
                      Configured(provider.enabled, old(provider.zones), space, app, answers, delete, k)
    ensures ok ==> n == |answers|
    ensures GotTo(provider.enabled, old(provider.zones), space, app, answers, delete, n)
  {
    hide D.Updated, ZonesAfter;
    ghost var was := provider.zones;
    assert ZonesAfter(provider.enabled, was, space, app, answers, delete, 0) == was by {
      NoCalls(provider.enabled, was, space, app, answers, delete);
    }
    n := 0;
    for i := 0 to |app.spec.endpoints|
      invariant n == i && provider.zones == ZonesAfter(provider.enabled, was, space, app, answers, delete, i)
      invariant forall k :: 0 <= k < i ==> Configured(provider.enabled, was, space, app, answers, delete, k)
    {
      var e := app.spec.endpoints[i];
      NextZones(provider.enabled, was, space, app, answers, delete, i);
      if e.createDnsRecord {
        if !provider.enabled || !answers[i].found {
          DisabledFails(provider.zones, CallFor(space, app, e, answers[i], delete));
          assert !Configured(provider.enabled, was, space, app, answers, delete, i);
          return false, n;
        }
        ok := provider.UpdateRecord(space.domainName, R.RecordName(app, e), answers[i].ipOrHostname,
                                    answers[i].isHostname, delete, answers[i].conduct);
        n := i + 1;
        if !ok {
          assert !Configured(provider.enabled, was, space, app, answers, delete, i);
          return;
        }
      }
      n := i + 1;
    }
    ok := true;
  }

  // ----- what configureDNS achieves --------------------------------------------------------------

  ghost predicate AtMostOne(zones: seq<D.Zone>, domain: string) {
    forall name :: |D.Lookup(zones, domain, name)| <= 1
  }

  /** What the record of an endpoint should be. */
  function Due(space: SpaceSpec, app: App, e: EndpointSpec, a: Answer, delete: bool): seq<D.RecordSet> {
    if delete then []
    else [D.RecordSet(e.name + "." + app.namespace + "." + space.domainName + ".", [a.ipOrHostname], 180,
                      if a.isHostname then D.Cname else D.A)]
  }

  lemma SameRecordSameName(app: App, e: EndpointSpec, other: EndpointSpec)
    ensures R.RecordName(app, e) == R.RecordName(app, other) <==> e.name == other.name
  {
    var tail := "." + app.namespace;
    assert R.RecordName(app, e) == e.name + tail && R.RecordName(app, other) == other.name + tail;
    if e.name + tail == other.name + tail {
      assert |e.name| == |other.name|;
      assert e.name == (e.name + tail)[..|e.name|] == (other.name + tail)[..|other.name|] == other.name;
    }
  }

  lemma DueIsAsked(space: SpaceSpec, app: App, e: EndpointSpec, a: Answer, delete: bool)
    ensures Due(space, app, e, a, delete) == if delete then [] else [D.Asked(CallFor(space, app, e, a, delete).u)]
  {
  }

  /** A call that succeeds settles the record of its endpoint and leaves those of others alone. */
  lemma CallSettles(enabled: bool, zones: seq<D.Zone>, space: SpaceSpec, app: App, e: EndpointSpec, a: Answer,
                    delete: bool, other: EndpointSpec)
    requires AtMostOne(zones, space.domainName)
    requires var call := CallFor(space, app, e, a, delete); D.Updated(enabled, zones, call.u, call.c).1
    ensures var call := CallFor(space, app, e, a, delete);
            var next := D.Updated(enabled, zones, call.u, call.c).0;
            && AtMostOne(next, space.domainName)
            && D.Lookup(next, space.domainName, R.RecordName(app, e)) == Due(space, app, e, a, delete)
            && (other.name != e.name ==>
                  D.Lookup(next, space.domainName, R.RecordName(app, other))
                  == D.Lookup(zones, space.domainName, R.RecordName(app, other)))
  {
    hide D.RecordName, D.Lookup, D.At, D.NewSet;
    DueIsAsked(space, app, e, a, delete);
    var call := CallFor(space, app, e, a, delete);
    forall name
      ensures |D.Lookup(D.Updated(enabled, zones, call.u, call.c).0, space.domainName, name)| <= 1
    {
      D.UpdatedLookup(enabled, zones, call.u, call.c, space.domainName, name);
    }
    D.SuccessSettlesIff(enabled, zones, call.u, call.c);
    D.UpdatedLookup(enabled, zones, call.u, call.c, space.domainName, R.RecordName(app, other));
    SameRecordSameName(app, e, other);
  }

  /** Configured without error, every endpoint with a record of its own has exactly the one
      that is due: its address, or none when it is being deleted. */
  lemma {:induction false} ConfiguredSettles(enabled: bool, zones: seq<D.Zone>, space: SpaceSpec, app: App,
                                             answers: seq<Answer>, delete: bool, n: nat)
    requires n <= |app.spec.endpoints| == |answers| && AtMostOne(zones, space.domainName)
    requires forall i, j :: 0 <= i < j < |answers| ==> app.spec.endpoints[i].name != app.spec.endpoints[j].name
    requires forall k :: 0 <= k < n ==> Configured(enabled, zones, space, app, answers, delete, k)
    ensures AtMostOne(ZonesAfter(enabled, zones, space, app, answers, delete, n), space.domainName)
    ensures forall k :: 0 <= k < n && app.spec.endpoints[k].createDnsRecord ==>
              D.Lookup(ZonesAfter(enabled, zones, space, app, answers, delete, n), space.domainName,
                       R.RecordName(app, app.spec.endpoints[k]))
              == Due(space, app, app.spec.endpoints[k], answers[k], delete)
  {
    hide D.Lookup, D.Updated, ZonesAfter, Due, CallFor, AtMostOne, R.RecordName;
    if n == 0 {
      NoCalls(enabled, zones, space, app, answers, delete);
    } else {
      var e, a := app.spec.endpoints[n - 1], answers[n - 1];
      ConfiguredSettles(enabled, zones, space, app, answers, delete, n - 1);
      NextZones(enabled, zones, space, app, answers, delete, n - 1);
      assert Configured(enabled, zones, space, app, answers, delete, n - 1);
      if e.createDnsRecord {
        forall k | 0 <= k < n && app.spec.endpoints[k].createDnsRecord
          ensures D.Lookup(ZonesAfter(enabled, zones, space, app, answers, delete, n), space.domainName,
                           R.RecordName(app, app.spec.endpoints[k]))
                  == Due(space, app, app.spec.endpoints[k], answers[k], delete)
        {
          CallSettles(enabled, ZonesAfter(enabled, zones, space, app, answers, delete, n - 1), space, app, e, a, delete,
                        app.spec.endpoints[k]);
        }
        CallSettles(enabled, ZonesAfter(enabled, zones, space, app, answers, delete, n - 1), space, app, e, a, delete,
                    e);
      }
    }
  }

  /** No record of a name or a domain that is not an asking endpoint's own is ever touched. */
  lemma {:induction false} OthersUntouched(enabled: bool, zones: seq<D.Zone>, space: SpaceSpec, app: App,
                                           answers: seq<Answer>, delete: bool, n: nat, domain: string, name: string)
    requires n <= |app.spec.endpoints| == |answers|
    requires D.FirstZone(zones, D.ZoneName(domain)) < |zones|
    requires domain != space.domainName
             || forall k :: 0 <= k < n && app.spec.endpoints[k].createDnsRecord ==>
                  app.spec.endpoints[k].name + "." + app.namespace != name
    ensures D.Lookup(ZonesAfter(enabled, zones, space, app, answers, delete, n), domain, name)
            == D.Lookup(zones, domain, name)
    ensures D.FirstZone(ZonesAfter(enabled, zones, space, app, answers, delete, n), D.ZoneName(domain))
            == D.FirstZone(zones, D.ZoneName(domain)) < |ZonesAfter(enabled, zones, space, app, answers, delete, n)|
  {
    hide D.Lookup, D.Updated, ZonesAfter, D.ZoneName;
    if n == 0 {
      NoCalls(enabled, zones, space, app, answers, delete);
    } else {
      OthersUntouched(enabled, zones, space, app, answers, delete, n - 1, domain, name);
      NextZones(enabled, zones, space, app, answers, delete, n - 1);
      var e, now := app.spec.endpoints[n - 1], ZonesAfter(enabled, zones, space, app, answers, delete, n - 1);
      if e.createDnsRecord {
        var call := CallFor(space, app, e, answers[n - 1], delete);
        D.UpdatedKeepsZoneNames(enabled, now, call.u, call.c, domain);
        D.UpdatedLookup(enabled, now, call.u, call.c, domain, name);
      }
    }
  }
}

/** The SNI hosts of TCP endpoints and the DNS records made for endpoints and spaces. */
module Hostnames {
  import opened ApiTypes
  import G = Generate
  import R = AppRuntime
  import D = Dns

  /** Labels in the sense of section 2.1 of RFC 1123 hold no dot. */
  predicate DotFree(s: string) {
    '.' !in s
  }

  lemma FirstDotSplits(a: string, b: string, c: string, d: string)
    requires DotFree(a) && DotFree(c) && a + "." + b == c + "." + d
    ensures a == c && b == d
  {
    var s, t := a + "." + b, c + "." + d;
    assert s[|a|] == '.' && t[|c|] == '.';
    assert forall k :: 0 <= k < |a| ==> s[k] == a[k] && a[k] in a;
    assert forall k :: 0 <= k < |c| ==> t[k] == c[k] && c[k] in c;
    assert a == s[..|a|] && c == t[..|c|] && b == s[|a| + 1..] && d == t[|c| + 1..];
  }

  function Label(e: EndpointSpec): string {
    e.name + e.tcpHostnameSuffix
  }

  /** Default SNI hosts coincide only for endpoints with the same name (and suffix) in the same
      namespace and domain. */
  lemma DefaultHostsInjective(space: SpaceSpec, app: App, e: EndpointSpec, space': SpaceSpec, app': App,
                              e': EndpointSpec)
    requires e.sniHostname == "" && e'.sniHostname == ""
    requires DotFree(Label(e)) && DotFree(Label(e')) && DotFree(app.namespace) && DotFree(app'.namespace)
    ensures G.SniHost(space, app, e) == G.SniHost(space', app', e')
            <==> Label(e) == Label(e') && app.namespace == app'.namespace && space.domainName == space'.domainName
    ensures e.tcpHostnameSuffix == e'.tcpHostnameSuffix == "" ==>
              (Label(e) == Label(e') <==> e.name == e'.name)
  {
    var rest, rest' := app.namespace + "." + space.domainName, app'.namespace + "." + space'.domainName;
    assert G.SniHost(space, app, e) == Label(e) + "." + rest;
    assert G.SniHost(space', app', e') == Label(e') + "." + rest';
    if G.SniHost(space, app, e) == G.SniHost(space', app', e') {
      FirstDotSplits(Label(e), rest, Label(e'), rest');
      FirstDotSplits(app.namespace, space.domainName, app'.namespace, space'.domainName);
    }
    assert e.tcpHostnameSuffix == "" ==> Label(e) == e.name;
    assert e'.tcpHostnameSuffix == "" ==> Label(e') == e'.name;
  }

  /** The DNS record of an endpoint. */
  function EndpointRecord(space: SpaceSpec, app: App, e: EndpointSpec): string {
    D.RecordName(space.domainName, R.RecordName(app, e))
  }

  function PlainHost(space: SpaceSpec, app: App, e: EndpointSpec): string {
    e.name + "." + app.namespace + "." + space.domainName
  }

  /** The record made for an endpoint is its SNI host with a dot after it exactly if the
      endpoint has no hostname suffix and no SNI host name of its own; an SNI host name that
      spells out the default changes nothing. Otherwise clients that look up the endpoint's
      SNI host do not find this record. */
  lemma RecordNamesTheHostIff(space: SpaceSpec, app: App, e: EndpointSpec)
    ensures EndpointRecord(space, app, e) == G.SniHost(space, app, e) + "."
            <==> if e.sniHostname == "" then e.tcpHostnameSuffix == "" else e.sniHostname == PlainHost(space, app, e)
  {
    assert EndpointRecord(space, app, e) == PlainHost(space, app, e) + ".";
    assert EndpointRecord(space, app, e)[..|EndpointRecord(space, app, e)| - 1] == PlainHost(space, app, e);
    assert (G.SniHost(space, app, e) + ".")[..|G.SniHost(space, app, e)|] == G.SniHost(space, app, e);
    if e.sniHostname == "" {
      assert |G.SniHost(space, app, e)| == |PlainHost(space, app, e)| + |e.tcpHostnameSuffix|;
      assert e.tcpHostnameSuffix == "" ==> Label(e) == e.name;
    }
  }

  /** Endpoints of different name, namespace or domain never share a record, and so never
      overwrite or delete each other's. */
  lemma EndpointRecordsApart(space: SpaceSpec, app: App, e: EndpointSpec, space': SpaceSpec, app': App,
                             e': EndpointSpec)
    requires DotFree(e.name) && DotFree(e'.name) && DotFree(app.namespace) && DotFree(app'.namespace)
    ensures EndpointRecord(space, app, e) == EndpointRecord(space', app', e')
            <==> e.name == e'.name && app.namespace == app'.namespace && space.domainName == space'.domainName
  {
    var zone, zone' := D.ZoneName(space.domainName), D.ZoneName(space'.domainName);
    var rest, rest' := app.namespace + "." + zone, app'.namespace + "." + zone';
    assert EndpointRecord(space, app, e) == e.name + "." + rest;
    assert EndpointRecord(space', app', e') == e'.name + "." + rest';
    if EndpointRecord(space, app, e) == EndpointRecord(space', app', e') {
      FirstDotSplits(e.name, rest, e'.name, rest');
      FirstDotSplits(app.namespace, zone, app'.namespace, zone');
      assert space.domainName == zone[..|zone| - 1] == zone'[..|zone'| - 1] == space'.domainName;
    }
  }

  /** A space's own record is an endpoint's only if the space lies in the domain that the
      endpoint's namespace is in its own: never within one domain. */
  lemma SpaceRecordApartIff(domain: string, spaceName: string, space: SpaceSpec, app: App, e: EndpointSpec)
    requires DotFree(spaceName) && DotFree(e.name)
    ensures D.RecordName(domain, spaceName) == EndpointRecord(space, app, e)
            <==> spaceName == e.name && domain == app.namespace + "." + space.domainName
    ensures domain == space.domainName ==> D.RecordName(domain, spaceName) != EndpointRecord(space, app, e)
  {
    var inner := app.namespace + "." + space.domainName;
    var zone, rest := D.ZoneName(domain), D.ZoneName(inner);
    assert EndpointRecord(space, app, e) == e.name + "." + rest;
    if D.RecordName(domain, spaceName) == EndpointRecord(space, app, e) {
      FirstDotSplits(spaceName, zone, e.name, rest);
      assert domain == zone[..|zone| - 1] == rest[..|rest| - 1] == inner;
    }
  }
}

/** pkg/dns/dns.go: replacing and deleting the record sets of a DNS provider's zones. */
module Dns {
  import C = Creation

  datatype RecordType = A | Cname

  datatype RecordSet = RecordSet(name: string, data: seq<string>, ttl: nat, rtype: RecordType)

  datatype Zone = Zone(name: string, records: map<string, seq<RecordSet>>)

  datatype Update = Update(domain: string, name: string, target: string, isHostname: bool, delete: bool)

  /** What the provider does on one call: list its zones, look the record up, apply the change. */
  datatype Conduct = Conduct(lists: bool, looksUp: bool, change: C.Effect)

  function ZoneName(domain: string): string {
    domain + "."
  }

  function RecordName(domain: string, name: string): string {
    name + "." + ZoneName(domain)
  }

  function NewSet(u: Update): RecordSet {
    RecordSet(RecordName(u.domain, u.name), [u.target], 180, if u.isHostname then Cname else A)
  }

  /** The record sets that a lookup of a name in a zone returns. */
  function At(z: Zone, record: string): seq<RecordSet> {
    if record in z.records then z.records[record] else []
  }

  /** The first zone of that name; the number of zones if there is none. */
  function FirstZone(zones: seq<Zone>, name: string): (i: nat)
    ensures i <= |zones|
    ensures i < |zones| ==> zones[i].name == name
    ensures forall j :: 0 <= j < i ==> zones[j].name != name
  {
    if zones == [] || zones[0].name == name then 0 else 1 + FirstZone(zones[1..], name)
  }

  /** Only the first record set found gives way. */
  function Replaced(found: seq<RecordSet>, u: Update): seq<RecordSet> {
    (if found == [] then [] else found[1..]) + (if u.delete then [] else [NewSet(u)])
  }

  function Updated(enabled: bool, zones: seq<Zone>, u: Update, c: Conduct): (seq<Zone>, bool) {
    var i := FirstZone(zones, ZoneName(u.domain));
    if !enabled || !c.lists || i == |zones| || !c.looksUp then (zones, false)
    else
      var record := RecordName(u.domain, u.name);
      var found := At(zones[i], record);
      if u.delete && found == [] then (zones, true)
      else if c.change.NotApplied? then (zones, false)
      else (zones[i := zones[i].(records := zones[i].records[record := Replaced(found, u)])], c.change.Applied?)
  }

  class Provider {
    const enabled: bool
    var zones: seq<Zone>

    constructor (enabled: bool, zones: seq<Zone>)
      ensures this.enabled == enabled && this.zones == zones
    {
      this.enabled, this.zones := enabled, zones;
    }

    method UpdateRecord(domainName: string, name: string, ipOrHostname: string, isHostname: bool, delete: bool,
                        c: Conduct)
      returns (ok: bool)
      modifies this
      ensures (zones, ok) == Updated(enabled, old(zones), Update(domainName, name, ipOrHostname, isHostname, delete), c)
    {
      if !enabled || !c.lists {
        return false;
      }
      var zoneName := domainName + ".";
      for i := 0 to |zones|
        invariant zones == old(zones)
        invariant forall j :: 0 <= j < i ==> zones[j].name != zoneName
      {
        if zones[i].name == zoneName {
          assert FirstZone(zones, zoneName) == i;
          var rrName := name + "." + zoneName;
          if !c.looksUp {
            return false;
          }
          var rrSetList := At(zones[i], rrName);
          var changed := rrSetList;
          if delete {
            if |rrSetList| == 0 {
              return true;
            }
            changed := rrSetList[1..];
          } else {
            var rrSet := RecordSet(rrName, [ipOrHostname], 180, if isHostname then Cname else A);
            if |rrSetList| > 0 {
              changed := rrSetList[1..];
            }
            changed := changed + [rrSet];
          }
          assert changed == Replaced(rrSetList, Update(domainName, name, ipOrHostname, isHostname, delete));
          if !c.change.NotApplied? {
            zones := zones[i := zones[i].(records := zones[i].records[rrName := changed])];
          }
          return c.change.Applied?;
        }
      }
      ok := false;
    }
  }

  // ----- sequences of calls -----------------------------------------------------------------

  datatype Event = Event(u: Update, c: Conduct)

  function After(enabled: bool, zones: seq<Zone>, run: seq<Event>): seq<Zone> {
    if run == [] then zones
    else
      var e := run[|run| - 1];
      Updated(enabled, After(enabled, zones, run[..|run| - 1]), e.u, e.c).0
  }

  /** The record sets of a name in the zone that calls for its domain work on. */
  function Lookup(zones: seq<Zone>, domain: string, name: string): seq<RecordSet> {
    var i := FirstZone(zones, ZoneName(domain));
    if i < |zones| then At(zones[i], RecordName(domain, name)) else []
  }

  predicate TookEffect(enabled: bool, e: Event) {
    enabled && e.c.lists && e.c.looksUp && !e.c.change.NotApplied?
  }

  /** The record set that a call asks for, spelled out: one address under the full name, with a
      time to live of 180 seconds. */
  function Asked(u: Update): RecordSet {
    RecordSet(u.name + "." + u.domain + ".", [u.target], 180, if u.isHostname then Cname else A)
  }

  /** What the last call for a name that took effect said about it. */
  function LastWord(enabled: bool, run: seq<Event>, domain: string, name: string,
                    initially: seq<RecordSet>): seq<RecordSet> {
    if run == [] then initially
    else
      var e := run[|run| - 1];
      if e.u.domain == domain && e.u.name == name && TookEffect(enabled, e) then
        if e.u.delete then [] else [Asked(e.u)]
      else LastWord(enabled, run[..|run| - 1], domain, name, initially)
  }

  lemma AskedIsNew(u: Update)
    ensures Asked(u) == NewSet(u)
  {
    assert u.name + "." + (u.domain + ".") == u.name + "." + u.domain + ".";
  }

  lemma UpdatedKeepsZoneNames(enabled: bool, zones: seq<Zone>, u: Update, c: Conduct, domain: string)
    ensures var next := Updated(enabled, zones, u, c).0;
            && |next| == |zones| && (forall i :: 0 <= i < |zones| ==> next[i].name == zones[i].name)
            && FirstZone(next, ZoneName(domain)) == FirstZone(zones, ZoneName(domain))
  {
    var next, name := Updated(enabled, zones, u, c).0, ZoneName(domain);
    assert |next| == |zones| && forall i :: 0 <= i < |zones| ==> next[i].name == zones[i].name;
    var i, j := FirstZone(zones, name), FirstZone(next, name);
    assert i < |zones| ==> next[i].name == name;
    assert j < |zones| ==> zones[j].name == name;
  }

  lemma {:induction false} AfterKeepsZoneNames(enabled: bool, zones: seq<Zone>, run: seq<Event>, domain: string)
    ensures var next := After(enabled, zones, run);
            && |next| == |zones| && (forall i :: 0 <= i < |zones| ==> next[i].name == zones[i].name)
            && FirstZone(next, ZoneName(domain)) == FirstZone(zones, ZoneName(domain))
  {
    hide Updated;
    if run != [] {
      var before, e := run[..|run| - 1], run[|run| - 1];
      AfterKeepsZoneNames(enabled, zones, before, domain);
      UpdatedKeepsZoneNames(enabled, After(enabled, zones, before), e.u, e.c, domain);
    }
  }

  /** Different names of one domain, and names of different domains, are different records. */
  lemma RecordsOfAZone(domain: string, name: string, other: string)
    ensures RecordName(domain, name) == RecordName(domain, other) <==> name == other
  {
    var tail := "." + ZoneName(domain);
    assert RecordName(domain, name) == name + tail && RecordName(domain, other) == other + tail;
    if name + tail == other + tail {
      assert |name| == |other|;
      assert name == (name + tail)[..|name|] == (other + tail)[..|other|] == other;
    }
  }

  /** One call, seen from one record of one zone. */
  lemma UpdatedAt(enabled: bool, zones: seq<Zone>, u: Update, c: Conduct, i: nat, record: string)
    requires i < |zones|
    ensures |Updated(enabled, zones, u, c).0| == |zones|
    ensures var found, addressed := At(zones[i], record),
              FirstZone(zones, ZoneName(u.domain)) == i && RecordName(u.domain, u.name) == record;
            At(Updated(enabled, zones, u, c).0[i], record)
            == if addressed && TookEffect(enabled, Event(u, c)) && !(u.delete && found == []) then Replaced(found, u)
               else found
  {
    hide RecordName, ZoneName, Replaced;
  }

  /** One call, seen from one name. */
  lemma UpdatedLookup(enabled: bool, zones: seq<Zone>, u: Update, c: Conduct, domain: string, name: string)
    requires FirstZone(zones, ZoneName(domain)) < |zones|
    ensures var found := Lookup(zones, domain, name);
            Lookup(Updated(enabled, zones, u, c).0, domain, name)
            == if u.domain == domain && u.name == name && TookEffect(enabled, Event(u, c)) && !(u.delete && found == [])
               then Replaced(found, u) else found
  {
    hide Updated, RecordName, Replaced, TookEffect, At;
    UpdatedKeepsZoneNames(enabled, zones, u, c, domain);
    UpdatedAt(enabled, zones, u, c, FirstZone(zones, ZoneName(domain)), RecordName(domain, name));
    if FirstZone(zones, ZoneName(u.domain)) == FirstZone(zones, ZoneName(domain)) {
      assert ZoneName(u.domain) == ZoneName(domain);
      assert u.domain == ZoneName(u.domain)[..|u.domain|] == ZoneName(domain)[..|domain|] == domain;
      RecordsOfAZone(domain, name, u.name);
    }
  }

  /** Over any sequence of calls, failures and lost replies included, a name that starts with
      at most one record set keeps at most one: that of the last call for it that took effect,
      or none after a deletion. */
  lemma {:induction false} EveryNameHoldsItsLastWord(enabled: bool, zones: seq<Zone>, run: seq<Event>, domain: string,
                                                     name: string)
    requires FirstZone(zones, ZoneName(domain)) < |zones|
    requires |Lookup(zones, domain, name)| <= 1
    ensures var holds := Lookup(After(enabled, zones, run), domain, name);
            |holds| <= 1 && holds == LastWord(enabled, run, domain, name, Lookup(zones, domain, name))
  {
    hide Updated, Lookup;
    if run != [] {
      var before, e := run[..|run| - 1], run[|run| - 1];
      EveryNameHoldsItsLastWord(enabled, zones, before, domain, name);
      AfterKeepsZoneNames(enabled, zones, before, domain);
      UpdatedLookup(enabled, After(enabled, zones, before), e.u, e.c, domain, name);
      AskedIsNew(e.u);
    }
  }

  /** No sequence of calls changes a record, in whichever zone, that none of them names. */
  lemma {:induction false} OthersUntouched(enabled: bool, zones: seq<Zone>, run: seq<Event>, i: nat, record: string)
    requires i < |zones|
    requires forall e :: e in run ==>
               FirstZone(zones, ZoneName(e.u.domain)) != i || RecordName(e.u.domain, e.u.name) != record
    ensures |After(enabled, zones, run)| == |zones|
    ensures At(After(enabled, zones, run)[i], record) == At(zones[i], record)
  {
    hide RecordName, ZoneName, Updated, At;
    if run != [] {
      var before, e := run[..|run| - 1], run[|run| - 1];
      assert e in run && forall x :: x in before ==> x in run;
      OthersUntouched(enabled, zones, before, i, record);
      AfterKeepsZoneNames(enabled, zones, before, e.u.domain);
      UpdatedAt(enabled, After(enabled, zones, before), e.u, e.c, i, record);
    }
  }

  /** After a call that reports success the name holds what was asked for, exactly if it held
      at most one record set before: of several, only the first is ever removed. */
  lemma SuccessSettlesIff(enabled: bool, zones: seq<Zone>, u: Update, c: Conduct)
    requires Updated(enabled, zones, u, c).1
    ensures Lookup(Updated(enabled, zones, u, c).0, u.domain, u.name) == (if u.delete then [] else [Asked(u)])
            <==> |Lookup(zones, u.domain, u.name)| <= 1
  {
    UpdatedLookup(enabled, zones, u, c, u.domain, u.name);
    AskedIsNew(u);
    var found := Lookup(zones, u.domain, u.name);
    assert |Replaced(found, u)| == (if found == [] then 0 else |found| - 1) + (if u.delete then 0 else 1);
  }

  /** A call reports success exactly if there is a provider, a zone of the domain, and the
      provider lists its zones, looks the record up, and applies the change, which is not
      even asked of it where there is nothing to delete. */
  lemma SucceedsIff(enabled: bool, zones: seq<Zone>, u: Update, c: Conduct)
    ensures Updated(enabled, zones, u, c).1 <==>
              && enabled && c.lists && c.looksUp
              && (exists i :: 0 <= i < |zones| && zones[i].name == u.domain + ".")
              && (c.change.Applied? || (u.delete && Lookup(zones, u.domain, u.name) == []))
  {
  }

  /** And a call that reports an error has changed nothing, unless the provider applied the
      change without saying so. */
  lemma FailureChangesNothing(enabled: bool, zones: seq<Zone>, u: Update, c: Conduct)
    requires !Updated(enabled, zones, u, c).1 && !c.change.ReplyLost?
    ensures Updated(enabled, zones, u, c).0 == zones
  {
  }
}

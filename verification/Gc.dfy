/** Garbage collection of what deleted apps left behind, pkg/app/gc.go. */
module Gc {
  import opened ApiTypes
  import opened Generate
  import opened Cluster
  import ServerHistory
  import WatchSpec
  import WatchSafety

  const KINDS := {KDeployment, KService, KIngress}

  predicate Derived(labels: Labels) {
    DERIVED_FROM in labels && labels[DERIVED_FROM] == "app"
  }

  /** What the three collectors delete, kind by kind. */
  predicate Orphan(r: Ref, labels: Labels, known: set<string>) {
    Derived(labels) &&
    match r.kind
    case KDeployment => r.name !in known
    case KService => DECCO_APP in labels && labels[DECCO_APP] !in known
    case KIngress => DECCO_APP !in labels || labels[DECCO_APP] == "" || labels[DECCO_APP] !in known
    case _ => false
  }

  /** After collecting the kinds that could be listed, apart from refused deletions. */
  function Collected(objects: map<Ref, Labels>, known: set<string>, kinds: set<Kind>,
                     refused: set<Ref>): map<Ref, Labels> {
    map r | r in objects && !(r.kind in kinds && Orphan(r, objects[r], known) && r !in refused) :: objects[r]
  }

  lemma CollectedIs(objects: map<Ref, Labels>, kind: Kind, known: set<string>, refused: set<Ref>, orphans: set<Ref>)
    requires forall r :: r in orphans <==>
               && r in objects && r.kind == kind && DERIVED_FROM in objects[r] && objects[r][DERIVED_FROM] == "app"
               && Orphan(r, objects[r], known) && r !in refused
    ensures Collected(objects, known, {kind}, refused) == objects - orphans
  {
  }

  lemma NothingCollected(objects: map<Ref, Labels>, known: set<string>, refused: set<Ref>)
    ensures Collected(objects, known, {}, refused) == objects
  {
  }

  /** The test of each collector on an object that it has listed. */
  method Unclaimed(r: Ref, labels: Labels, known: set<string>) returns (orphaned: bool)
    requires r.kind in KINDS && DERIVED_FROM in labels && labels[DERIVED_FROM] == "app"
    ensures orphaned == Orphan(r, labels, known)
  {
    if r.kind == KDeployment {
      orphaned := r.name !in known;
    } else if r.kind == KService {
      orphaned := DECCO_APP in labels && labels[DECCO_APP] !in known;
    } else {
      orphaned := DECCO_APP !in labels || labels[DECCO_APP] == "" || labels[DECCO_APP] !in known;
    }
  }

  /** One of collectDeployments, collectServices, collectIngresses. */
  method CollectKind(ns: Namespace, kind: Kind, known: set<string>, listed: bool)
    requires kind in KINDS
    modifies ns
    ensures ns.objects == Collected(old(ns.objects), known, if listed then {kind} else {}, ns.refused)
  {
    hide Collected, Orphan;
    NothingCollected(ns.objects, known, ns.refused);
    if !listed {
      return;
    }
    var items := ns.Labelled(kind);
    var todo := items;
    ghost var was := ns.objects;
    ghost var orphans := set r | r in items && Orphan(r, was[r], known) && r !in ns.refused;
    while todo != {}
      invariant todo <= items
      invariant ns.objects == was - (orphans - todo)
      decreases todo
    {
      var r :| r in todo;
      assert r in ns.objects && ns.objects[r] == was[r];
      var labels := ns.objects[r];
      var orphaned := Unclaimed(r, labels, known);
      ghost var before := ns.objects;
      if orphaned {
        ns.Delete(r);
      }
      todo := todo - {r};
      assert ns.objects == before - (if r in orphans then {r} else {});
    }
    CollectedIs(was, kind, known, ns.refused, orphans);
  }

  /** Collect; each of the three lists may fail. */
  method Collect(ns: Namespace, known: set<string>, listed: set<Kind>)
    modifies ns
    ensures ns.objects == Collected(old(ns.objects), known, {KDeployment, KService, KIngress} * listed, ns.refused)
  {
    CollectKind(ns, KDeployment, known, KDeployment in listed);
    CollectKind(ns, KService, known, KService in listed);
    CollectKind(ns, KIngress, known, KIngress in listed);
  }

  // ----- what that means -----------------------------------------------------------------

  predicate Owns(app: App, labels: Labels) {
    Derived(labels) && DECCO_APP in labels && labels[DECCO_APP] == app.name
  }

  lemma ObjectLabels(space: SpaceSpec, app: App, e: EndpointSpec, svcPort: int32, tgtPort: int32, o: Object)
    requires o in EndpointObjects(space, app, e, svcPort, tgtPort)
    ensures o.Service? || o.Ingress?
    ensures Owns(app, LabelsOf(o))
  {
    hide HttpAnnotations, SniHost;
    assert |DECCO_APP| != |DERIVED_FROM|;
  }

  lemma {:induction false} EndpointLabelsUpTo(space: SpaceSpec, app: App, n: nat, o: Object)
    requires n <= |app.spec.endpoints| && Endpoints(space, app, n).Ok? && o in Endpoints(space, app, n).value.objects
    ensures o.Service? || o.Ingress?
    ensures Owns(app, LabelsOf(o))
  {
    hide Wire, EndpointObjects;
    if n > 0 && o in Endpoints(space, app, n - 1).value.objects {
      EndpointLabelsUpTo(space, app, n - 1, o);
    } else if n > 0 {
      var w := Wire(space, app, app.spec.endpoints[n - 1], |Endpoints(space, app, n - 1).value.sidecars|).value;
      ObjectLabels(space, app, app.spec.endpoints[n - 1], w.svcPort, w.tgtPort, o);
    }
  }

  lemma EndpointLabels(space: SpaceSpec, app: App, o: Object)
    requires AllEndpoints(space, app).Ok? && o in AllEndpoints(space, app).value.objects
    ensures o.Service? || o.Ingress?
    ensures Owns(app, LabelsOf(o))
  {
    if !app.spec.runAsJob {
      EndpointLabelsUpTo(space, app, |app.spec.endpoints|, o);
    }
  }

  /** A deployment, service or ingress generated for an app is collected exactly when the app
      is unknown: never while its app is registered, always once it is gone. */
  lemma GeneratedIsOrphanIff(space: SpaceSpec, app: App, keepSidecars: bool, known: set<string>)
    requires app.name != ""
    ensures Compile(space, app, keepSidecars).Ok? ==>
              forall o :: o in Compile(space, app, keepSidecars).value.objects && RefOf(o).kind in KINDS ==>
                (Orphan(RefOf(o), LabelsOf(o), known) <==> app.name !in known)
  {
    hide PreparedPod, AllEgresses, Endpoints, AllEndpoints, OwnedLabels;
    if Compile(space, app, keepSidecars).Ok? {
      forall o | o in Compile(space, app, keepSidecars).value.objects && RefOf(o).kind in KINDS
        ensures Orphan(RefOf(o), LabelsOf(o), known) <==> app.name !in known
      {
        if o in AllEndpoints(space, app).value.objects {
          EndpointLabels(space, app, o);
        }
      }
    }
  }

  /** Objects that do not carry the label decco-derived-from=app, and objects of any kind but the
      three, are never touched: neither those of other tools nor what a space has made for
      itself in the same namespace. */
  lemma ForeignIsSpared(objects: map<Ref, Labels>, known: set<string>, kinds: set<Kind>, refused: set<Ref>, r: Ref)
    requires r in objects
    requires || !("decco-derived-from" in objects[r] && objects[r]["decco-derived-from"] == "app")
             || r.kind !in {KDeployment, KService, KIngress}
    ensures r in Collected(objects, known, kinds, refused)
    ensures Collected(objects, known, kinds, refused)[r] == objects[r]
  {
  }

  /** Exactly what goes: of the kinds that could be listed, apart from refused deletions, the
      labelled deployments not named after a known app, the labelled services whose app label
      names none, and the labelled ingresses whose app label names none, is empty or missing.
      Nothing appears, and what stays keeps its labels. */
  lemma GoesIff(objects: map<Ref, Labels>, known: set<string>, kinds: set<Kind>, refused: set<Ref>, r: Ref)
    ensures r in Collected(objects, known, kinds, refused) ==>
              r in objects && Collected(objects, known, kinds, refused)[r] == objects[r]
    ensures r in objects ==>
              (r !in Collected(objects, known, kinds, refused) <==>
                 && r.kind in kinds && r !in refused
                 && "decco-derived-from" in objects[r] && objects[r]["decco-derived-from"] == "app"
                 && (|| (r.kind == KDeployment && r.name !in known)
                     || (r.kind == KService && "decco-app" in objects[r] && objects[r]["decco-app"] !in known)
                     || (r.kind == KIngress && ("decco-app" in objects[r] && objects[r]["decco-app"] != "" ==>
                                                  objects[r]["decco-app"] !in known))))
  {
  }

  /** When every call succeeds, what remains of these kinds with decco's label belongs to a
      known app, except services without an app label, which are passed over. */
  lemma CollectIsComplete(objects: map<Ref, Labels>, known: set<string>, r: Ref)
    requires r in Collected(objects, known, {KDeployment, KService, KIngress}, {})
             && r.kind in {KDeployment, KService, KIngress}
    requires Derived(objects[r])
    ensures if r.kind == KDeployment then r.name in known
            else if DECCO_APP in objects[r] then objects[r][DECCO_APP] in known
            else r.kind == KService
  {
  }

  /** Whatever failed in one round is made good by the next: collecting again without failures
      leaves what a single clean round would have left. */
  lemma FailuresHeal(objects: map<Ref, Labels>, known: set<string>, kinds: set<Kind>, refused: set<Ref>)
    ensures Collected(Collected(objects, known, kinds, refused), known, KINDS, {})
         == Collected(objects, known, KINDS + kinds, {})
  {
    var once := Collected(objects, known, kinds, refused);
    assert forall r :: r in once ==> once[r] == objects[r];
  }

  /** Shown these names, the collector passes over the generated objects of exactly the apps
      alive. */
  ghost predicate SparesExactly(known: set<string>, alive: set<string>) {
    forall space, app, keepSidecars ::
      Compile(space, app, keepSidecars).Ok? && app.name != "" ==>
        forall o :: o in Compile(space, app, keepSidecars).value.objects && RefOf(o).kind in KINDS ==>
          (Orphan(RefOf(o), LabelsOf(o), known) <==> app.name !in alive)
  }

  lemma ShownIsSpared(known: set<string>)
    ensures SparesExactly(known, known)
  {
    hide Compile, Orphan;
    forall space, app, keepSidecars | Compile(space, app, keepSidecars).Ok? && app.name != ""
      ensures forall o :: o in Compile(space, app, keepSidecars).value.objects && RefOf(o).kind in KINDS ==>
                (Orphan(RefOf(o), LabelsOf(o), known) <==> app.name !in known)
    {
      GeneratedIsOrphanIff(space, app, keepSidecars, known);
    }
  }

  /** The watch loop and the collector together: each time PeriodicTask runs, over any run
      against a well-behaved server, the generated objects it spares are exactly those of the
      apps alive at the revision that the loop has consumed when it runs. */
  lemma PeriodicTaskSparesExactlyTheLiving(log: seq<ServerHistory.Change>, moves: seq<WatchSpec.Move>, i: nat)
    requires WatchSafety.Behaved(WatchSafety.Initially(log), moves)
    requires i < |WatchSpec.Exec(WatchSpec.START, moves).reg.sweeps|
    ensures exists j: nat :: WatchSafety.SweptAt(moves, i, j)
              && var w := WatchSafety.RunWorld(WatchSafety.Initially(log), moves[..j]);
                 && WatchSafety.Seen(w) <= |w.log|
                 && SparesExactly(WatchSpec.Exec(WatchSpec.START, moves).reg.sweeps[i],
                                  ServerHistory.Names(ServerHistory.Live(w.log[..WatchSafety.Seen(w)])))
  {
    hide SparesExactly;
    WatchSafety.EverySweepSeesTheConsumedRevision(log, moves, i);
    ShownIsSpared(WatchSpec.Exec(WatchSpec.START, moves).reg.sweeps[i]);
  }
}

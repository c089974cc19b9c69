/** pkg/app/app.go: materialising the runtime of an app. The class is proved to behave as the
    process that module Creation reasons about. */
module AppRuntime {
  import opened ApiTypes
  import G = Generate
  import A = Allocation
  import opened Creation
  import opened CreationSafety

  // ----- the plan of internalCreate --------------------------------------------------------

  datatype AppStep =
    | Write(item: G.Object)
    | DnsRecord(record: string)

  function Must(s: AppStep): Task<AppStep> {
    Task(s, false)
  }

  function RecordName(app: App, e: EndpointSpec): string {
    e.name + "." + app.namespace
  }

  function Writes(objects: seq<G.Object>): seq<Task<AppStep>> {
    seq(|objects|, i requires 0 <= i < |objects| => Must(Write(objects[i])))
  }

  function DnsTasks(app: App, es: seq<EndpointSpec>): seq<Task<AppStep>> {
    if es == [] then []
    else
      var e := es[|es| - 1];
      DnsTasks(app, es[..|es| - 1]) + (if e.createDnsRecord then [Must(DnsRecord(RecordName(app, e)))] else [])
  }

  lemma {:induction false} DnsTasksPrefix(app: App, es: seq<EndpointSpec>, i: nat)
    requires i <= |es|
    ensures DnsTasks(app, es[..i]) <= DnsTasks(app, es)
  {
    if i == |es| {
      assert es[..i] == es;
    } else {
      assert es[..|es| - 1][..i] == es[..i];
      DnsTasksPrefix(app, es[..|es| - 1], i);
    }
  }

  lemma NextDnsTask(app: App, es: seq<EndpointSpec>, i: nat)
    requires i < |es|
    ensures DnsTasks(app, es[..i + 1]) ==
            DnsTasks(app, es[..i]) + (if es[i].createDnsRecord then [Must(DnsRecord(RecordName(app, es[i])))] else [])
    ensures DnsTasks(app, es[..i + 1]) <= DnsTasks(app, es)
  {
    assert es[..i + 1][..i] == es[..i];
    DnsTasksPrefix(app, es, i + 1);
  }

  /** What GenerateResources yields for a specification that validates. */
  function Generated(space: SpaceSpec, app: App): Result<seq<G.Object>> {
    if ValidateSpace(space).Err? then Err(ValidateSpace(space).error)
    else
      match G.Compile(space, app, false)
      case Err(error) => Err(error)
      case Ok(out) => Ok(out.objects)
  }

  /** Write every object generated, then one DNS record per endpoint that asks for it. */
  function Plan(space: SpaceSpec, app: App): Work<AppStep> {
    match Generated(space, app)
    case Err(_) => Work(false, [])
    case Ok(objects) => Work(true, Writes(objects) + DnsTasks(app, app.spec.endpoints))
  }

  // ----- the API server as one process sees it ----------------------------------------------

  /** Answers to the successive requests; the process crashes where they end. */
  class ApiServer {
    const answers: seq<Answer>
    var at: nat
    var asked: seq<Request<AppStep>>

    ghost predicate Valid()
      reads this
    {
      at <= |answers|
    }

    constructor (answers: seq<Answer>)
      ensures Valid() && this.answers == answers && at == 0 && asked == []
    {
      this.answers := answers;
      at, asked := 0, [];
    }

    method Ask(q: Request<AppStep>) returns (crashed: bool, a: Answer)
      requires Valid()
      modifies this
      ensures Valid()
      ensures crashed <==> old(at) == |answers|
      ensures crashed ==> at == old(at) && asked == old(asked)
      ensures !crashed ==> at == old(at) + 1 && a == answers[old(at)] && asked == old(asked) + [q]
    {
      crashed := at == |answers|;
      a := No;
      if !crashed {
        a := answers[at];
        at, asked := at + 1, asked + [q];
      }
    }
  }

  class AppRuntime {
    const api: ApiServer
    const spaceSpec: SpaceSpec
    const app: App
    var rv: nat              // resource version of the copy of the app
    var appStatus: Status    // status in that copy
    var status: Status       // status in memory, "the source of truth"
    ghost var heard: seq<Answer>
    ghost var oks: seq<bool>
    ghost const first: Local<AppStep>
    ghost const start: nat

    ghost function View(pc: Pc): Local<AppStep>
      reads this
    {
      Local(rv, appStatus.phase, status.phase, pc, Plan(spaceSpec, app), oks)
    }

    /** The process has got to pc. */
    ghost predicate At(pc: Pc)
      reads this
    {
      ReactAll(first, heard) == View(pc)
    }

    /** What the process heard is what the API has answered since. */
    ghost predicate Told()
      reads this, api
    {
      start <= api.at <= |api.answers| && api.answers[start..api.at] == heard
    }

    constructor (rv: nat, appStatus: Status, app: App, spaceSpec: SpaceSpec, api: ApiServer, valid: bool)
      requires api.Valid()
      ensures start == api.at
      ensures this.rv == rv && this.appStatus == appStatus && status == appStatus
      ensures this.app == app && this.spaceSpec == spaceSpec && this.api == api
      ensures heard == [] && oks == []
      ensures first == Materialise(rv, appStatus.phase, valid, Plan(spaceSpec, app))
    {
      this.rv, this.appStatus, this.status := rv, appStatus, appStatus;
      this.app, this.spaceSpec, this.api := app, spaceSpec, api;
      heard, oks := [], [];
      start := api.at;
      first := Materialise(rv, appStatus.phase, valid, Plan(spaceSpec, app));
    }

    /** One request of this process, the one that is due. */
    method Ask(q: Request<AppStep>) returns (crashed: bool, a: Answer)
      requires api.Valid() && Told() && Due(ReactAll(first, heard), q)
      modifies this`heard, api
      ensures api.Valid() && Told()
      ensures crashed ==> heard == old(heard)
      ensures !crashed ==> heard == old(heard) + [a] && ReactAll(first, heard) == React(ReactAll(first, old(heard)), a)
    {
      crashed, a := api.Ask(q);
      if !crashed {
        ReactAllConcat(first, heard, [a]);
        heard := heard + [a];
      }
    }

    /** PUT of the copy with the in-memory status, at the copy's resource version; no request
        is made when the two statuses agree already. */
    method UpdateCRStatus(ghost pc: Pc) returns (o: Outcome)
      requires api.Valid() && Told() && At(pc) && Due(View(pc), Put(status.phase))
      modifies this`rv, this`appStatus, this`heard, api
      ensures api.Valid() && Told()
      ensures old(appStatus) == status ==> o.Fine? && rv == old(rv) && appStatus == status && heard == old(heard)
      ensures o.Crashed? ==> At(pc) && rv == old(rv) && appStatus == old(appStatus)
      ensures old(appStatus) != status && o.Fine? ==>
                appStatus == status && ReactAll(first, heard) == React(old(View(pc)), Yes(rv))
      ensures o.Error? ==>
                rv == old(rv) && appStatus == old(appStatus) && ReactAll(first, heard) == React(old(View(pc)), No)
    {
      if appStatus == status {
        return Fine;
      }
      var crashed, a := Ask(Put(status.phase));
      if crashed {
        return Crashed;
      }
      match a {
        case No => return Error;
        case Yes(version) =>
          rv := version;
          appStatus := status;
          o := Fine;
      }
    }

    /** One task of the plan. */
    method Perform(s: AppStep) returns (o: Outcome)
      requires status.phase != Failed
      requires api.Valid() && Told() && At(Working)
      requires |oks| < |Plan(spaceSpec, app).tasks| && Plan(spaceSpec, app).tasks[|oks|] == Must(s)
      modifies this`heard, this`oks, api
      ensures api.Valid() && Told()
      ensures o.Crashed? ==> At(Working) && oks == old(oks)
      ensures o.Fine? ==> oks == old(oks) + [true] && ReactAll(first, heard) == Proceed(View(Working))
      ensures o.Error? ==> ReactAll(first, heard) == View(Working).(mem := Failed, pc := PutFailed)
    {
      hide Plan;
      var crashed, a := Ask(Step(s));
      if crashed {
        return Crashed;
      }
      oks := oks + [a.Yes?];
      o := if a.Yes? then Fine else Error;
    }

    /** On success every task of the plan has been carried out, in order. */
    method InternalCreate() returns (o: Outcome)
      requires status.phase != Failed
      requires api.Valid() && Told() && oks == []
      requires ReactAll(first, heard) ==
               if Plan(spaceSpec, app).generates then Proceed(View(Working)) else GiveUp(View(Working))
      modifies this`heard, this`oks, api
      ensures api.Valid() && Told()
      ensures o.Crashed? ==> At(Working)
      ensures o.Fine? ==> ReactAll(first, heard) == View(PutActive).(mem := Active)
      ensures o.Error? ==> ReactAll(first, heard) == View(Working).(mem := Failed, pc := PutFailed)
    {
      hide ReactAll, Generated;
      var generated := Generated(spaceSpec, app);
      if generated.Err? {
        return Error;
      }
      var objects := generated.value;
      ghost var tasks := Plan(spaceSpec, app).tasks;
      for i := 0 to |objects|
        invariant api.Valid() && Told() && |oks| == i
        invariant ReactAll(first, heard) == Proceed(View(Working))
      {
        assert tasks[i] == Must(Write(objects[i]));
        o := Perform(Write(objects[i]));
        if !o.Fine? {
          return;
        }
      }
      assert tasks[|objects|..] == DnsTasks(app, app.spec.endpoints);
      o := ConfigureDns(|objects|);
    }

    /** configureDNS(false), after so many tasks of the plan. */
    method ConfigureDns(ghost done: nat) returns (o: Outcome)
      requires status.phase != Failed
      requires api.Valid() && Told() && |oks| == done && ReactAll(first, heard) == Proceed(View(Working))
      requires done <= |Plan(spaceSpec, app).tasks|
      requires Plan(spaceSpec, app).tasks[done..] == DnsTasks(app, app.spec.endpoints)
      modifies this`heard, this`oks, api
      ensures api.Valid() && Told()
      ensures o.Crashed? ==> At(Working)
      ensures o.Fine? ==> ReactAll(first, heard) == View(PutActive).(mem := Active)
      ensures o.Error? ==> ReactAll(first, heard) == View(Working).(mem := Failed, pc := PutFailed)
    {
      hide ReactAll, Plan;
      ghost var tasks := Plan(spaceSpec, app).tasks;
      var es := app.spec.endpoints;
      for i := 0 to |es|
        invariant api.Valid() && Told() && |oks| == done + |DnsTasks(app, es[..i])|
        invariant ReactAll(first, heard) == Proceed(View(Working))
      {
        NextDnsTask(app, es, i);
        if es[i].createDnsRecord {
          assert tasks[|oks|] == tasks[done..][|oks| - done] == Must(DnsRecord(RecordName(app, es[i])));
          o := Perform(DnsRecord(RecordName(app, es[i])));
          if !o.Fine? {
            return;
          }
        }
      }
      assert es[..|es|] == es;
      o := Fine;
    }

    method Create() returns (o: Outcome)
      requires api.Valid() && Told() && heard == [] && oks == []
      requires status.phase == None && appStatus.phase == None
      requires first == View(Idle).(mem := Creating, pc := PutCreating)
      modifies this`rv, this`appStatus, this`status, this`heard, this`oks, api
      ensures api.Valid() && Told() && status.phase != Failed && appStatus.phase != Failed
      ensures o.Fine? ==> At(Idle)
      ensures o.Crashed? ==> exists pc :: At(pc)
      ensures o.Error? ==> exists pc :: ReactAll(first, heard) == View(pc).(mem := Failed, pc := PutFailed)
    {
      hide Plan;
      status := status.(phase := Creating);
      assert At(PutCreating);
      o := UpdateCRStatus(PutCreating);
      if !o.Fine? {
        assert o.Error? ==> ReactAll(first, heard) == GiveUp(View(PutCreating));
        return;
      }
      o := InternalCreate();
      if !o.Fine? {
        return;
      }
      status := status.(phase := Active);
      assert At(PutActive);
      o := UpdateCRStatus(PutActive);
      assert o.Error? ==> ReactAll(first, heard) == GiveUp(View(PutActive));
    }
  }

  /** New: validation, creation if the app is in no phase yet, and the move to Failed. For every
      sequence of answers the runtime has gone through exactly the steps of a process of
      module Creation, to the end unless it crashed. */
  method New(app: App, rv: nat, appStatus: Status, space: SpaceSpec, api: ApiServer)
    returns (ar: AppRuntime, crashed: bool)
    requires api.Valid()
    modifies api
    ensures fresh(ar) && api.Valid()
    ensures ar.first == Materialise(rv, appStatus.phase, ValidApp(app.spec, space.tcpCertAndCaSecretName),
                                    Plan(space, app))
    ensures ar.spaceSpec == space && ar.app == app && ar.api == api && ar.start == old(api.at) && ar.Told()
    ensures !crashed ==> ar.At(Idle)
    ensures crashed ==> exists pc :: ar.At(pc)
  {
    var validated := ValidateApp(app.spec, space.tcpCertAndCaSecretName);
    ar := new AppRuntime(rv, appStatus, app, space, api, validated.Ok?);
    crashed := false;
    var setupFailed := validated.Err?;
    if !setupFailed {
      match appStatus.phase {
        case None =>
          var o := ar.Create();
          if o.Crashed? {
            return ar, true;
          }
          setupFailed := o.Error?;
        case Creating => setupFailed := true;
        case Active =>
        case Failed => setupFailed := true;
      }
    }
    if setupFailed && ar.status.phase != Failed {
      ar.status := Status(Failed, "setup failed");
      assert ar.At(PutFailed);
      var o := ar.UpdateCRStatus(PutFailed);
      crashed := o.Crashed?;
    }
  }

  // ----- what a stored Active says ------------------------------------------------------------

  lemma {:induction false} DnsTasksMust(app: App, es: seq<EndpointSpec>)
    ensures forall k :: 0 <= k < |DnsTasks(app, es)| ==> !DnsTasks(app, es)[k].mayFail
  {
    if es != [] {
      DnsTasksMust(app, es[..|es| - 1]);
    }
  }

  lemma PlanMustSucceed(space: SpaceSpec, app: App)
    ensures forall k :: 0 <= k < |Plan(space, app).tasks| ==> !Plan(space, app).tasks[k].mayFail
    ensures Plan(space, app).generates <==> Generated(space, app).Ok?
  {
    hide Generated;
    DnsTasksMust(app, app.spec.endpoints);
  }

  /** The app controller as the protocol sees it: each process has the space's specification
      from its controller, and the app's from the version it read. */
  ghost function AppCode(): Code<SpaceSpec, App, AppStep> {
    Code((space: SpaceSpec, app: App) => ValidApp(app.spec, space.tcpCertAndCaSecretName),
         (space: SpaceSpec, app: App) => Plan(space, app))
  }

  /** How many of the first k endpoints ask for a DNS record. */
  function Asking(es: seq<EndpointSpec>, k: nat): nat
    requires k <= |es|
  {
    if k == 0 then 0 else Asking(es, k - 1) + (if es[k - 1].createDnsRecord then 1 else 0)
  }

  /** What internalCreate does for an app, spelled out: it writes the generated objects, each
      once and in their order, and then makes a DNS record for each endpoint that asks for one,
      in their order, named after the endpoint and the namespace; and nothing else. */
  ghost predicate WritesThenRecords(objects: seq<G.Object>, app: App, tasks: seq<Task<AppStep>>) {
    var n, es := |objects|, app.spec.endpoints;
    && |tasks| == n + Asking(es, |es|)
    && (forall i :: 0 <= i < n ==> tasks[i].what == Write(objects[i]))
    && (forall k :: 0 <= k < |es| && es[k].createDnsRecord ==>
          n + Asking(es, k) < |tasks| && tasks[n + Asking(es, k)].what == DnsRecord(es[k].name + "." + app.namespace))
  }

  /** The process generated the resources of this very app, wrote every one of them in order,
      and configured every DNS record. */
  ghost predicate EverythingDone(space: SpaceSpec, app: App, l: Local<AppStep>) {
    && ValidateSpace(space).Ok? && ValidApp(app.spec, space.tcpCertAndCaSecretName)
    && G.Compile(space, app, false).Ok?
    && WritesThenRecords(G.Compile(space, app, false).value.objects, app, l.work.tasks)
    && |l.oks| == |l.work.tasks| && forall k :: 0 <= k < |l.oks| ==> l.oks[k]
  }

  lemma {:induction false} AskingPrefix(es: seq<EndpointSpec>, n: nat, k: nat)
    requires k <= n <= |es|
    ensures Asking(es[..n], k) == Asking(es, k)
  {
    if k > 0 {
      AskingPrefix(es, n, k - 1);
    }
  }

  lemma {:induction false} DnsTasksCount(app: App, es: seq<EndpointSpec>)
    ensures |DnsTasks(app, es)| == Asking(es, |es|)
  {
    if es != [] {
      DnsTasksCount(app, es[..|es| - 1]);
      AskingPrefix(es, |es| - 1, |es| - 1);
    }
  }

  lemma DnsTaskAt(app: App, es: seq<EndpointSpec>, k: nat)
    requires k < |es| && es[k].createDnsRecord
    ensures Asking(es, k) < |DnsTasks(app, es)|
    ensures DnsTasks(app, es)[Asking(es, k)].what == DnsRecord(es[k].name + "." + app.namespace)
  {
    hide Asking, DnsTasks;
    NextDnsTask(app, es, k);
    DnsTasksCount(app, es[..k]);
    AskingPrefix(es, k, k);
  }

  lemma PlanIs(space: SpaceSpec, app: App)
    ensures Plan(space, app).generates <==> ValidateSpace(space).Ok? && G.Compile(space, app, false).Ok?
    ensures Plan(space, app).generates ==>
              WritesThenRecords(G.Compile(space, app, false).value.objects, app, Plan(space, app).tasks)
    ensures !Plan(space, app).generates ==> Plan(space, app).tasks == []
  {
    hide G.Compile, DnsTasks, Asking;
    if Plan(space, app).generates {
      var objects, es := G.Compile(space, app, false).value.objects, app.spec.endpoints;
      var records, tasks := DnsTasks(app, es), Plan(space, app).tasks;
      DnsTasksCount(app, es);
      assert tasks == Writes(objects) + records;
      assert forall i :: 0 <= i < |records| ==> tasks[|objects| + i] == records[i];
      forall k | 0 <= k < |es| && es[k].createDnsRecord
        ensures Asking(es, k) < |records|
        ensures records[Asking(es, k)].what == DnsRecord(es[k].name + "." + app.namespace)
      {
        DnsTaskAt(app, es, k);
      }
    }
  }

  lemma CompletedPlanDone(space: SpaceSpec, app: App, l: Local<AppStep>)
    requires ValidApp(app.spec, space.tcpCertAndCaSecretName) && l.work == Plan(space, app) && Completed(l)
    ensures EverythingDone(space, app, l)
  {
    hide Generated, Plan, G.Compile;
    PlanMustSucceed(space, app);
    PlanIs(space, app);
  }

  /** Over any run: an app that is stored as Active goes back to a version that first was, and
      everything that the specification in that version asks for has been done by one process,
      with the space's specification of its controller. */
  lemma ActiveAppIsFullyCreated(acts: seq<Act<SpaceSpec, App>>, i: nat)
    requires var hist := Run(AppCode(), Start(), acts).hist; i < |hist| && hist[i].Obj? && hist[i].phase == Active
    ensures var s := Run(AppCode(), Start(), acts);
            exists j: nat, p :: j <= i && FirstActive(s.hist, j) && s.hist[j].uid == s.hist[i].uid
                                && 0 <= p < |s.procs| && s.procs[p].uid == s.hist[j].uid
                                && EverythingDone(s.procs[p].env, s.hist[j].spec, s.procs[p].local)
  {
    hide Run, Plan, Generated;
    var s := Run(AppCode(), Start(), acts);
    StoredActiveMeansMade(AppCode(), acts, i);
    var j: nat, p :| j <= i && FirstActive(s.hist, j) && s.hist[j].uid == s.hist[i].uid
                     && 0 <= p < |s.procs| && MadeBy(AppCode(), s.procs[p], s.hist[j]);
    CompletedPlanDone(s.procs[p].env, s.hist[j].spec, s.procs[p].local);
  }
}

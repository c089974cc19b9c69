/** internalCreate of pkg/space/space.go: its plan, and what one step does to the certificates
    that it moves from the space resource's namespace into the space's own. */
module SpacePlan {
  import opened ApiTypes
  import opened Creation

  datatype SpaceStep =
    | GetHttpCert
    | GetTcpCertAndCa
    | CreateNamespace
    | CreateNetPolicy
    | CreateRole
    | CreateRoleBinding
    | CopyHttpCert
    | DeleteHttpCert
    | CopyTcpCertAndCa
    | DeleteTcpCertAndCa
    | CreateHttpIngress
    | CreateDefaultHttpDeploy
    | CreateDefaultHttpSvc
    | CreateIngressAccount
    | CreateIngressRole
    | CreateIngressRoleBinding
    | NewAppClient
    | PostIngressApp
    | UpdateDns

  function When(condition: bool, steps: seq<SpaceStep>): seq<SpaceStep> {
    if condition then steps else []
  }

  function Permissions(spec: SpaceSpec): seq<SpaceStep> {
    When(spec.hasPermissions, [CreateRole, CreateRoleBinding])
  }

  /** Everything before the first secret is copied. */
  function Preparation(spec: SpaceSpec): seq<SpaceStep> {
    [GetHttpCert]
    + When(spec.tcpCertAndCaSecretName != "", [GetTcpCertAndCa])
    + [CreateNamespace]
    + When(spec.project != "", [CreateNetPolicy])
    + Permissions(spec)
  }

  function HttpTransfer(spec: SpaceSpec): seq<SpaceStep> {
    [CopyHttpCert] + When(spec.deleteHttpCertSecretAfterCopy, [DeleteHttpCert])
  }

  function TcpTransfer(spec: SpaceSpec): seq<SpaceStep> {
    When(spec.tcpCertAndCaSecretName != "",
         [CopyTcpCertAndCa] + When(spec.deleteTcpCertAndCaSecretAfterCopy, [DeleteTcpCertAndCa]))
  }

  function DefaultBackend(spec: SpaceSpec): seq<SpaceStep> {
    When(spec.createDefaultHttpDeploymentAndIngress, [CreateHttpIngress, CreateDefaultHttpDeploy])
    + [CreateDefaultHttpSvc]
  }

  function IngressController(spec: SpaceSpec): seq<SpaceStep> {
    When(!spec.disablePrivateIngressController,
         [CreateIngressAccount, CreateIngressRole, CreateIngressRoleBinding, NewAppClient, PostIngressApp])
  }

  function Services(spec: SpaceSpec, dnsEnabled: bool): seq<SpaceStep> {
    DefaultBackend(spec) + IngressController(spec) + When(dnsEnabled, [UpdateDns])
  }

  function Steps(spec: SpaceSpec, dnsEnabled: bool): seq<SpaceStep> {
    Preparation(spec) + HttpTransfer(spec) + TcpTransfer(spec) + Services(spec, dnsEnabled)
  }

  /** The error of creating the ingress controller's role binding is overwritten by that of the
      call after it, so this one step may fail unnoticed. */
  predicate MayFail(s: SpaceStep) {
    s == CreateIngressRoleBinding
  }

  function Plan(spec: SpaceSpec, dnsEnabled: bool): Work<SpaceStep> {
    var steps := Steps(spec, dnsEnabled);
    Work(true, seq(|steps|, i requires 0 <= i < |steps| => Task(steps[i], MayFail(steps[i]))))
  }

  // ----- secrets ---------------------------------------------------------------------------

  datatype Secret = Absent | Held(data: string)

  /** Secrets by name in the source namespace and in the space's namespace, which may not exist
      yet, and the two that the process has read. */
  datatype Certs = Certs(
    source: map<string, string>,
    targetExists: bool,
    target: map<string, string>,
    http: Secret,
    tcp: Secret)

  function Read(c: Certs, name: string, e: Effect, http: bool): (Certs, bool) {
    if !e.Applied? || name !in c.source then (c, false)
    else if http then (c.(http := Held(c.source[name])), true)
    else (c.(tcp := Held(c.source[name])), true)
  }

  function Copy(c: Certs, name: string, secret: Secret, e: Effect): (Certs, bool) {
    if secret.Absent? || !c.targetExists || name in c.target || e.NotApplied? then (c, false)
    else (c.(target := c.target[name := secret.data]), e.Applied?)
  }

  function Remove(c: Certs, name: string, e: Effect): (Certs, bool) {
    if e.NotApplied? || name !in c.source then (c, false)
    else (c.(source := c.source - {name}), e.Applied?)
  }

  /** Carrying out one step: the API server may do it and answer, do it without the answer
      arriving, or not do it. A secret or namespace that exists cannot be created; one that
      does not cannot be read or deleted. */
  function Do(spec: SpaceSpec, c: Certs, s: SpaceStep, e: Effect): (Certs, bool) {
    match s
    case GetHttpCert => Read(c, spec.httpCertSecretName, e, true)
    case GetTcpCertAndCa => Read(c, spec.tcpCertAndCaSecretName, e, false)
    case CreateNamespace =>
      if c.targetExists || e.NotApplied? then (c, false) else (c.(targetExists := true, target := map[]), e.Applied?)
    case CopyHttpCert => Copy(c, spec.httpCertSecretName, c.http, e)
    case CopyTcpCertAndCa => Copy(c, spec.tcpCertAndCaSecretName, c.tcp, e)
    case DeleteHttpCert => Remove(c, spec.httpCertSecretName, e)
    case DeleteTcpCertAndCa => Remove(c, spec.tcpCertAndCaSecretName, e)
    case _ => (c, e.Applied?)
  }

  /** The secrets after the first n steps, one effect for each. */
  function After(spec: SpaceSpec, c: Certs, steps: seq<SpaceStep>, effects: seq<Effect>, n: nat): Certs
    requires n <= |steps| && n <= |effects|
  {
    if n == 0 then c else Do(spec, After(spec, c, steps, effects, n - 1), steps[n - 1], effects[n - 1]).0
  }

  predicate Succeeded(spec: SpaceSpec, c: Certs, steps: seq<SpaceStep>, effects: seq<Effect>, i: nat)
    requires i < |steps| && i < |effects|
  {
    Do(spec, After(spec, c, steps, effects, i), steps[i], effects[i]).1
  }

  /** The first n steps do not stop internalCreate. */
  ghost predicate Passed(spec: SpaceSpec, c: Certs, steps: seq<SpaceStep>, effects: seq<Effect>, n: nat)
    requires n <= |steps| && n <= |effects|
  {
    forall i :: 0 <= i < n ==> Succeeded(spec, c, steps, effects, i) || MayFail(steps[i])
  }

  // ----- the plan spelled out -----------------------------------------------------------------

  /** Which steps a space asks for. */
  predicate Asks(spec: SpaceSpec, dnsEnabled: bool, s: SpaceStep) {
    match s
    case GetHttpCert | CreateNamespace | CopyHttpCert | CreateDefaultHttpSvc => true
    case GetTcpCertAndCa | CopyTcpCertAndCa => spec.tcpCertAndCaSecretName != ""
    case CreateNetPolicy => spec.project != ""
    case CreateRole | CreateRoleBinding => spec.hasPermissions
    case DeleteHttpCert => spec.deleteHttpCertSecretAfterCopy
    case DeleteTcpCertAndCa => spec.tcpCertAndCaSecretName != "" && spec.deleteTcpCertAndCaSecretAfterCopy
    case CreateHttpIngress | CreateDefaultHttpDeploy => spec.createDefaultHttpDeploymentAndIngress
    case CreateIngressAccount | CreateIngressRole | CreateIngressRoleBinding | NewAppClient | PostIngressApp =>
      !spec.disablePrivateIngressController
    case UpdateDns => dnsEnabled
  }

  /** The order of the steps. */
  function Place(s: SpaceStep): nat {
    match s
    case GetHttpCert => 0
    case GetTcpCertAndCa => 1
    case CreateNamespace => 2
    case CreateNetPolicy => 3
    case CreateRole => 4
    case CreateRoleBinding => 5
    case CopyHttpCert => 6
    case DeleteHttpCert => 7
    case CopyTcpCertAndCa => 8
    case DeleteTcpCertAndCa => 9
    case CreateHttpIngress => 10
    case CreateDefaultHttpDeploy => 11
    case CreateDefaultHttpSvc => 12
    case CreateIngressAccount => 13
    case CreateIngressRole => 14
    case CreateIngressRoleBinding => 15
    case NewAppClient => 16
    case PostIngressApp => 17
    case UpdateDns => 18
  }

  /** These steps are, in order, the ones asked for between two places. */
  ghost predicate Covers(spec: SpaceSpec, dnsEnabled: bool, steps: seq<SpaceStep>, from: nat, to: nat) {
    && (forall s :: s in steps <==> Asks(spec, dnsEnabled, s) && from <= Place(s) < to)
    && (forall i, j :: 0 <= i < j < |steps| ==> Place(steps[i]) < Place(steps[j]))
  }

  lemma CoversConcat(spec: SpaceSpec, dnsEnabled: bool, a: seq<SpaceStep>, b: seq<SpaceStep>, from: nat, mid: nat,
                     to: nat)
    requires from <= mid <= to
    requires Covers(spec, dnsEnabled, a, from, mid) && Covers(spec, dnsEnabled, b, mid, to)
    ensures Covers(spec, dnsEnabled, a + b, from, to)
  {
    hide Asks, Place;
    var c := a + b;
    assert forall s :: s in c <==> s in a || s in b;
    forall i, j | 0 <= i < j < |c|
      ensures Place(c[i]) < Place(c[j])
    {
      if i < |a| <= j {
        assert c[i] in a && c[j] in b;
      }
    }
  }

  lemma CoversFront(spec: SpaceSpec, dnsEnabled: bool)
    ensures Covers(spec, dnsEnabled, [GetHttpCert] + When(spec.tcpCertAndCaSecretName != "", [GetTcpCertAndCa]), 0, 2)
    ensures Covers(spec, dnsEnabled, [CreateNamespace] + When(spec.project != "", [CreateNetPolicy]), 2, 4)
  {
  }

  lemma CoversPermissions(spec: SpaceSpec, dnsEnabled: bool)
    ensures Covers(spec, dnsEnabled, Permissions(spec), 4, 6)
  {
  }

  lemma CoversPreparation(spec: SpaceSpec, dnsEnabled: bool)
    ensures Covers(spec, dnsEnabled, Preparation(spec), 0, 6)
  {
    hide Covers, Permissions;
    var certs := [GetHttpCert] + When(spec.tcpCertAndCaSecretName != "", [GetTcpCertAndCa]);
    var namespace := [CreateNamespace] + When(spec.project != "", [CreateNetPolicy]);
    CoversFront(spec, dnsEnabled);
    CoversPermissions(spec, dnsEnabled);
    CoversConcat(spec, dnsEnabled, certs, namespace, 0, 2, 4);
    CoversConcat(spec, dnsEnabled, certs + namespace, Permissions(spec), 0, 4, 6);
    assert Preparation(spec) == certs + namespace + Permissions(spec);
  }

  lemma CoversTransfers(spec: SpaceSpec, dnsEnabled: bool)
    ensures Covers(spec, dnsEnabled, HttpTransfer(spec), 6, 8) && Covers(spec, dnsEnabled, TcpTransfer(spec), 8, 10)
  {
  }

  lemma CoversBackend(spec: SpaceSpec, dnsEnabled: bool)
    ensures Covers(spec, dnsEnabled, DefaultBackend(spec), 10, 13)
    ensures Covers(spec, dnsEnabled, When(dnsEnabled, [UpdateDns]), 18, 19)
  {
  }

  lemma PlacesDiffer(s: SpaceStep, t: SpaceStep)
    ensures Place(s) == Place(t) ==> s == t
  {
  }

  lemma CoversOne(spec: SpaceSpec, dnsEnabled: bool, s: SpaceStep)
    requires Asks(spec, dnsEnabled, s)
    ensures Covers(spec, dnsEnabled, [s], Place(s), Place(s) + 1)
  {
    hide Asks, Place;
    forall t
      ensures Place(s) == Place(t) ==> s == t
    {
      PlacesDiffer(s, t);
    }
  }

  lemma CoversRights(spec: SpaceSpec, dnsEnabled: bool)
    requires !spec.disablePrivateIngressController
    ensures Covers(spec, dnsEnabled, [CreateIngressAccount, CreateIngressRole, CreateIngressRoleBinding], 13, 16)
  {
    hide Covers;
    CoversOne(spec, dnsEnabled, CreateIngressAccount);
    CoversOne(spec, dnsEnabled, CreateIngressRole);
    CoversOne(spec, dnsEnabled, CreateIngressRoleBinding);
    CoversConcat(spec, dnsEnabled, [CreateIngressAccount], [CreateIngressRole], 13, 14, 15);
    CoversConcat(
      spec, dnsEnabled, [CreateIngressAccount] + [CreateIngressRole], [CreateIngressRoleBinding], 13, 15, 16);
    assert [CreateIngressAccount] + [CreateIngressRole] + [CreateIngressRoleBinding]
        == [CreateIngressAccount, CreateIngressRole, CreateIngressRoleBinding];
  }

  lemma CoversPosting(spec: SpaceSpec, dnsEnabled: bool)
    requires !spec.disablePrivateIngressController
    ensures Covers(spec, dnsEnabled, [NewAppClient, PostIngressApp], 16, 18)
  {
    hide Covers;
    CoversOne(spec, dnsEnabled, NewAppClient);
    CoversOne(spec, dnsEnabled, PostIngressApp);
    CoversConcat(spec, dnsEnabled, [NewAppClient], [PostIngressApp], 16, 17, 18);
    assert [NewAppClient] + [PostIngressApp] == [NewAppClient, PostIngressApp];
  }

  lemma CoversNoController(spec: SpaceSpec, dnsEnabled: bool)
    requires spec.disablePrivateIngressController
    ensures Covers(spec, dnsEnabled, [], 13, 18)
  {
  }

  lemma CoversController(spec: SpaceSpec, dnsEnabled: bool)
    ensures Covers(spec, dnsEnabled, IngressController(spec), 13, 18)
  {
    hide Covers;
    if spec.disablePrivateIngressController {
      CoversNoController(spec, dnsEnabled);
    } else {
      var rights := [CreateIngressAccount, CreateIngressRole, CreateIngressRoleBinding];
      var posting := [NewAppClient, PostIngressApp];
      CoversRights(spec, dnsEnabled);
      CoversPosting(spec, dnsEnabled);
      CoversConcat(spec, dnsEnabled, rights, posting, 13, 16, 18);
      assert IngressController(spec) == rights + posting;
    }
  }

  lemma CoversServices(spec: SpaceSpec, dnsEnabled: bool)
    ensures Covers(spec, dnsEnabled, Services(spec, dnsEnabled), 10, 19)
  {
    hide Covers, DefaultBackend, IngressController;
    var backend, controller, dns := DefaultBackend(spec), IngressController(spec), When(dnsEnabled, [UpdateDns]);
    CoversBackend(spec, dnsEnabled);
    CoversController(spec, dnsEnabled);
    CoversConcat(spec, dnsEnabled, backend, controller, 10, 13, 18);
    CoversConcat(spec, dnsEnabled, backend + controller, dns, 10, 18, 19);
  }

  lemma CoversAll(spec: SpaceSpec, dnsEnabled: bool, steps: seq<SpaceStep>)
    requires Covers(spec, dnsEnabled, steps, 0, 19)
    ensures forall s :: s in steps <==> Asks(spec, dnsEnabled, s)
    ensures forall i, j :: 0 <= i < j < |steps| ==> Place(steps[i]) < Place(steps[j])
  {
  }

  /** The plan of a space: exactly the steps that it asks for, once each and in this order. */
  lemma PlanIs(spec: SpaceSpec, dnsEnabled: bool)
    ensures forall s :: s in Steps(spec, dnsEnabled) <==> Asks(spec, dnsEnabled, s)
    ensures forall i, j :: 0 <= i < j < |Steps(spec, dnsEnabled)| ==>
              Place(Steps(spec, dnsEnabled)[i]) < Place(Steps(spec, dnsEnabled)[j])
  {
    hide Covers, Preparation, HttpTransfer, TcpTransfer, Services, Asks;
    CoversPreparation(spec, dnsEnabled);
    CoversTransfers(spec, dnsEnabled);
    CoversServices(spec, dnsEnabled);
    var p, h, t := Preparation(spec), HttpTransfer(spec), TcpTransfer(spec);
    CoversConcat(spec, dnsEnabled, p, h, 0, 6, 8);
    CoversConcat(spec, dnsEnabled, p + h, t, 0, 8, 10);
    CoversConcat(spec, dnsEnabled, p + h + t, Services(spec, dnsEnabled), 0, 10, 19);
    CoversAll(spec, dnsEnabled, Steps(spec, dnsEnabled));
  }
}

/** What creating a space guarantees: its certificates are never lost, when it can succeed, and
    what a stored Active says. */
module SpaceSafety {
  import opened ApiTypes
  import opened Creation
  import opened CreationSafety
  import opened SpacePlan

  // ----- what becomes of the secrets ----------------------------------------------------------

  predicate Kept(c: Certs, name: string, data: string) {
    (name in c.source && c.source[name] == data) || (c.targetExists && name in c.target && c.target[name] == data)
  }

  /** What the process has read is what the source held at first, and every secret the source
      held is still in one of the two namespaces. */
  ghost predicate Conserved(spec: SpaceSpec, first: Certs, c: Certs) {
    && (c.http.Held? ==>
          spec.httpCertSecretName in first.source && first.source[spec.httpCertSecretName] == c.http.data)
    && (c.tcp.Held? ==>
          spec.tcpCertAndCaSecretName in first.source && first.source[spec.tcpCertAndCaSecretName] == c.tcp.data)
    && (forall name :: name in c.source ==> name in first.source && c.source[name] == first.source[name])
    && (forall name :: name in first.source ==> Kept(c, name, first.source[name]))
  }

  lemma PreparationOrder(spec: SpaceSpec, i: nat)
    ensures var p := Preparation(spec);
            && GetHttpCert in p && CreateNamespace in p
            && (spec.tcpCertAndCaSecretName != "" <==> GetTcpCertAndCa in p)
            && (forall s :: s in {CopyHttpCert, CopyTcpCertAndCa, DeleteHttpCert, DeleteTcpCertAndCa} ==> s !in p)
            && (i < |p| && p[i] == CreateNamespace ==> CreateNamespace !in p[..i])
  {
    var p := Preparation(spec);
    assert p[0] == GetHttpCert;
    assert spec.tcpCertAndCaSecretName != "" ==> p[1] == GetTcpCertAndCa;
    assert p[if spec.tcpCertAndCaSecretName != "" then 2 else 1] == CreateNamespace;
  }

  lemma ServicesApart(spec: SpaceSpec, dnsEnabled: bool)
    ensures forall s :: s in Services(spec, dnsEnabled) ==>
              s !in {GetHttpCert, GetTcpCertAndCa, CreateNamespace, CopyHttpCert, CopyTcpCertAndCa, DeleteHttpCert,
                     DeleteTcpCertAndCa}
  {
  }

  /** Each deletion directly follows the copy it depends on. */
  lemma DeleteFollowsCopy(spec: SpaceSpec, dnsEnabled: bool, i: nat)
    requires i < |Steps(spec, dnsEnabled)|
    ensures Steps(spec, dnsEnabled)[i] == DeleteHttpCert ==> i > 0 && Steps(spec, dnsEnabled)[i - 1] == CopyHttpCert
    ensures Steps(spec, dnsEnabled)[i] == DeleteTcpCertAndCa ==>
              i > 0 && Steps(spec, dnsEnabled)[i - 1] == CopyTcpCertAndCa
  {
    hide Preparation, Services;
    var steps, p, h, t := Steps(spec, dnsEnabled), Preparation(spec), HttpTransfer(spec), TcpTransfer(spec);
    PreparationOrder(spec, 0);
    ServicesApart(spec, dnsEnabled);
    if i < |p| {
      assert steps[i] == p[i] && p[i] in p;
    } else if i < |p| + |h| {
      assert steps[i] == h[i - |p|] && steps[|p|] == h[0];
    } else if i < |p| + |h| + |t| {
      assert steps[i] == t[i - |p| - |h|] && steps[|p| + |h|] == t[0];
    } else {
      var v := Services(spec, dnsEnabled);
      assert steps[i] == v[i - |p| - |h| - |t|] && steps[i] in v;
    }
  }

  lemma DoConserves(spec: SpaceSpec, first: Certs, c: Certs, s: SpaceStep, e: Effect)
    requires Conserved(spec, first, c)
    requires s == DeleteHttpCert && spec.httpCertSecretName in first.source ==>
               c.targetExists && spec.httpCertSecretName in c.target
               && c.target[spec.httpCertSecretName] == first.source[spec.httpCertSecretName]
    requires s == DeleteTcpCertAndCa && spec.tcpCertAndCaSecretName in first.source ==>
               c.targetExists && spec.tcpCertAndCaSecretName in c.target
               && c.target[spec.tcpCertAndCaSecretName] == first.source[spec.tcpCertAndCaSecretName]
    ensures Conserved(spec, first, Do(spec, c, s, e).0)
  {
  }

  lemma NothingMoved(spec: SpaceSpec, c: Certs)
    requires c.http.Absent? && c.tcp.Absent?
    ensures Conserved(spec, c, c)
  {
  }

  lemma CopyArrives(spec: SpaceSpec, first: Certs, c: Certs, s: SpaceStep, e: Effect)
    requires Conserved(spec, first, c) && Do(spec, c, s, e).1 && s in {CopyHttpCert, CopyTcpCertAndCa}
    ensures var next := Do(spec, c, s, e).0;
            var name := if s == CopyHttpCert then spec.httpCertSecretName else spec.tcpCertAndCaSecretName;
            name in first.source && next.targetExists && name in next.target && next.target[name] == first.source[name]
  {
  }

  /** After every step of internalCreate, the last one possibly failed or left unanswered, and
      so after a crash anywhere: every secret of the source namespace is in the source or in
      the target, with its data, for all settings of the delete-after-copy flags and even
      when the two secret names coincide. */
  lemma {:induction false} SecretsConserved(spec: SpaceSpec, dnsEnabled: bool, c: Certs, effects: seq<Effect>, n: nat)
    requires n <= |Steps(spec, dnsEnabled)| && n <= |effects|
    requires n > 0 ==> Passed(spec, c, Steps(spec, dnsEnabled), effects, n - 1)
    requires c.http.Absent? && c.tcp.Absent?
    ensures Conserved(spec, c, After(spec, c, Steps(spec, dnsEnabled), effects, n))
  {
    hide Steps, Do, Conserved;
    if n == 0 {
      NothingMoved(spec, c);
    } else {
      var steps := Steps(spec, dnsEnabled);
      SecretsConserved(spec, dnsEnabled, c, effects, n - 1);
      DeleteFollowsCopy(spec, dnsEnabled, n - 1);
      if steps[n - 1] in {DeleteHttpCert, DeleteTcpCertAndCa} {
        SecretsConserved(spec, dnsEnabled, c, effects, n - 2);
        assert Succeeded(spec, c, steps, effects, n - 2) || MayFail(steps[n - 2]);
        CopyArrives(spec, c, After(spec, c, steps, effects, n - 2), steps[n - 2], effects[n - 2]);
      }
      DoConserves(spec, c, After(spec, c, steps, effects, n - 1), steps[n - 1], effects[n - 1]);
    }
  }

  // ----- when a space can be created ----------------------------------------------------------

  /** The steps before the i-th one, as far as the secrets depend on them. */
  lemma PlanOrder(spec: SpaceSpec, dnsEnabled: bool, i: nat)
    requires i < |Steps(spec, dnsEnabled)|
    ensures var s, before := Steps(spec, dnsEnabled)[i], Steps(spec, dnsEnabled)[..i];
            && (s == CreateNamespace ==> CreateNamespace !in before && CopyHttpCert !in before
                                         && CopyTcpCertAndCa !in before)
            && (s in {GetHttpCert, GetTcpCertAndCa} ==> DeleteHttpCert !in before && DeleteTcpCertAndCa !in before)
            && (s == CopyHttpCert ==> GetHttpCert in before && CreateNamespace in before
                                      && CopyHttpCert !in before && CopyTcpCertAndCa !in before)
            && (s == CopyTcpCertAndCa ==> GetTcpCertAndCa in before && CreateNamespace in before
                                          && CopyHttpCert in before && CopyTcpCertAndCa !in before)
            && (s == DeleteHttpCert ==> DeleteHttpCert !in before && DeleteTcpCertAndCa !in before)
            && (s == DeleteTcpCertAndCa ==> DeleteTcpCertAndCa !in before)
            && (s in {GetTcpCertAndCa, CopyTcpCertAndCa, DeleteTcpCertAndCa} ==> spec.tcpCertAndCaSecretName != "")
  {
    hide Preparation, Services;
    var steps, p, h, t, v := Steps(spec, dnsEnabled), Preparation(spec), HttpTransfer(spec), TcpTransfer(spec),
        Services(spec, dnsEnabled);
    PreparationOrder(spec, i);
    ServicesApart(spec, dnsEnabled);
    if i < |p| {
      assert steps[i] == p[i] && steps[i] in p && steps[..i] == p[..i];
      assert forall x :: x in p[..i] ==> x in p;
    } else if i < |p| + |h| {
      assert steps[i] == h[i - |p|] && steps[..i] == p + h[..i - |p|];
    } else if i < |p| + |h| + |t| {
      assert steps[i] == t[i - |p| - |h|] && steps[..i] == p + h + t[..i - |p| - |h|];
      assert h[0] in steps[..i];
    } else {
      assert steps[i] == v[i - |p| - |h| - |t|] && steps[i] in v;
    }
  }

  ghost predicate SourceReflects(spec: SpaceSpec, first: Certs, c: Certs, done: seq<SpaceStep>) {
    forall name :: name in c.source <==>
      && name in first.source
      && !(DeleteHttpCert in done && name == spec.httpCertSecretName)
      && !(DeleteTcpCertAndCa in done && name == spec.tcpCertAndCaSecretName)
  }

  ghost predicate TargetReflects(spec: SpaceSpec, first: Certs, c: Certs, done: seq<SpaceStep>) {
    CreateNamespace in done ==> !first.targetExists && forall name :: name in c.target <==>
      || (CopyHttpCert in done && name == spec.httpCertSecretName)
      || (CopyTcpCertAndCa in done && name == spec.tcpCertAndCaSecretName)
  }

  /** The secrets after these steps, all of which succeeded (or could fail). */
  ghost predicate Reflects(spec: SpaceSpec, first: Certs, c: Certs, done: seq<SpaceStep>) {
    && (GetHttpCert in done ==> c.http.Held?)
    && (GetTcpCertAndCa in done ==> c.tcp.Held?)
    && (c.targetExists <==> first.targetExists || CreateNamespace in done)
    && SourceReflects(spec, first, c, done)
    && TargetReflects(spec, first, c, done)
  }

  lemma SourceStep(spec: SpaceSpec, first: Certs, c: Certs, done: seq<SpaceStep>, s: SpaceStep, e: Effect)
    requires SourceReflects(spec, first, c, done) && (Do(spec, c, s, e).1 || MayFail(s))
    ensures SourceReflects(spec, first, Do(spec, c, s, e).0, done + [s])
  {
    assert forall x :: x in done + [s] <==> x in done || x == s;
  }

  lemma TargetStep(spec: SpaceSpec, first: Certs, c: Certs, done: seq<SpaceStep>, s: SpaceStep, e: Effect)
    requires TargetReflects(spec, first, c, done) && (Do(spec, c, s, e).1 || MayFail(s))
    requires c.targetExists <==> first.targetExists || CreateNamespace in done
    requires s == CreateNamespace ==> CopyHttpCert !in done && CopyTcpCertAndCa !in done
    ensures TargetReflects(spec, first, Do(spec, c, s, e).0, done + [s])
  {
    assert forall x :: x in done + [s] <==> x in done || x == s;
  }

  lemma DoReflects(spec: SpaceSpec, first: Certs, c: Certs, done: seq<SpaceStep>, s: SpaceStep, e: Effect)
    requires Reflects(spec, first, c, done)
    requires Do(spec, c, s, e).1 || MayFail(s)
    requires s == CreateNamespace ==> CopyHttpCert !in done && CopyTcpCertAndCa !in done
    ensures Reflects(spec, first, Do(spec, c, s, e).0, done + [s])
  {
    hide SourceReflects, TargetReflects;
    assert forall x :: x in done + [s] <==> x in done || x == s;
    SourceStep(spec, first, c, done, s, e);
    TargetStep(spec, first, c, done, s, e);
  }

  lemma NothingCopiedYet(spec: SpaceSpec, dnsEnabled: bool, i: nat)
    requires i < |Steps(spec, dnsEnabled)|
    ensures Steps(spec, dnsEnabled)[i] == CreateNamespace ==>
              CopyHttpCert !in Steps(spec, dnsEnabled)[..i] && CopyTcpCertAndCa !in Steps(spec, dnsEnabled)[..i]
  {
    hide Steps;
    PlanOrder(spec, dnsEnabled, i);
  }

  lemma NothingReflects(spec: SpaceSpec, c: Certs)
    ensures Reflects(spec, c, c, [])
  {
  }

  lemma {:induction false} AfterReflects(spec: SpaceSpec, dnsEnabled: bool, c: Certs, effects: seq<Effect>, n: nat)
    requires n <= |Steps(spec, dnsEnabled)| && n <= |effects|
    requires Passed(spec, c, Steps(spec, dnsEnabled), effects, n)
    ensures Reflects(spec, c, After(spec, c, Steps(spec, dnsEnabled), effects, n), Steps(spec, dnsEnabled)[..n])
  {
    hide Steps, Do, Reflects;
    var steps := Steps(spec, dnsEnabled);
    if n > 0 {
      AfterReflects(spec, dnsEnabled, c, effects, n - 1);
      assert Succeeded(spec, c, steps, effects, n - 1) || MayFail(steps[n - 1]);
      NothingCopiedYet(spec, dnsEnabled, n - 1);
      DoReflects(spec, c, After(spec, c, steps, effects, n - 1), steps[..n - 1], steps[n - 1], effects[n - 1]);
      assert steps[..n] == steps[..n - 1] + [steps[n - 1]];
    } else {
      assert steps[..0] == [];
      NothingReflects(spec, c);
    }
  }

  ghost predicate CanComplete(spec: SpaceSpec, dnsEnabled: bool, c: Certs) {
    exists effects: seq<Effect> :: |effects| == |Steps(spec, dnsEnabled)|
      && Passed(spec, c, Steps(spec, dnsEnabled), effects, |effects|)
  }

  predicate Creatable(spec: SpaceSpec, c: Certs) {
    && !c.targetExists
    && spec.httpCertSecretName in c.source
    && (spec.tcpCertAndCaSecretName != "" ==>
          spec.tcpCertAndCaSecretName in c.source && spec.tcpCertAndCaSecretName != spec.httpCertSecretName)
  }

  lemma ReadySucceeds(spec: SpaceSpec, first: Certs, c: Certs, dnsEnabled: bool, i: nat)
    requires i < |Steps(spec, dnsEnabled)| && Creatable(spec, first)
    requires Reflects(spec, first, c, Steps(spec, dnsEnabled)[..i])
    ensures Do(spec, c, Steps(spec, dnsEnabled)[i], Applied).1
  {
    hide Steps;
    PlanOrder(spec, dnsEnabled, i);
  }

  lemma {:induction false} CreatablePasses(spec: SpaceSpec, dnsEnabled: bool, c: Certs, effects: seq<Effect>, n: nat)
    requires Creatable(spec, c) && n <= |effects| == |Steps(spec, dnsEnabled)|
    requires forall i :: 0 <= i < |effects| ==> effects[i] == Applied || MayFail(Steps(spec, dnsEnabled)[i])
    ensures Passed(spec, c, Steps(spec, dnsEnabled), effects, n)
    ensures forall i :: 0 <= i < n && effects[i] == Applied ==> Succeeded(spec, c, Steps(spec, dnsEnabled), effects, i)
  {
    hide Steps, Creatable, Reflects, Do;
    if n > 0 {
      CreatablePasses(spec, dnsEnabled, c, effects, n - 1);
      AfterReflects(spec, dnsEnabled, c, effects, n - 1);
      ReadySucceeds(spec, c, After(spec, c, Steps(spec, dnsEnabled), effects, n - 1), dnsEnabled, n - 1);
    }
  }

  /** A step that passed found what it needed. */
  lemma PassedWasReady(spec: SpaceSpec, dnsEnabled: bool, c: Certs, effects: seq<Effect>, i: nat)
    requires i < |Steps(spec, dnsEnabled)| <= |effects|
    requires Passed(spec, c, Steps(spec, dnsEnabled), effects, |Steps(spec, dnsEnabled)|)
    ensures var s, before := Steps(spec, dnsEnabled)[i], After(spec, c, Steps(spec, dnsEnabled), effects, i);
            && Reflects(spec, c, before, Steps(spec, dnsEnabled)[..i])
            && (s == GetHttpCert ==> spec.httpCertSecretName in before.source)
            && (s == GetTcpCertAndCa ==> spec.tcpCertAndCaSecretName in before.source)
            && (s == CreateNamespace ==> !before.targetExists)
            && (s == CopyTcpCertAndCa ==> spec.tcpCertAndCaSecretName !in before.target)
  {
    hide Steps, Reflects;
    assert Succeeded(spec, c, Steps(spec, dnsEnabled), effects, i) || MayFail(Steps(spec, dnsEnabled)[i]);
    AfterReflects(spec, dnsEnabled, c, effects, i);
  }

  /** Where the steps that decide are found in the plan. */
  lemma PlanHas(spec: SpaceSpec, dnsEnabled: bool, s: SpaceStep) returns (i: nat)
    requires s in {GetHttpCert, CreateNamespace}
             || (s in {GetTcpCertAndCa, CopyTcpCertAndCa} && spec.tcpCertAndCaSecretName != "")
    ensures i < |Steps(spec, dnsEnabled)| && Steps(spec, dnsEnabled)[i] == s
  {
    hide Preparation, HttpTransfer, Services;
    var p, h, t := Preparation(spec), HttpTransfer(spec), TcpTransfer(spec);
    PreparationOrder(spec, 0);
    if s == CopyTcpCertAndCa {
      i := |p| + |h|;
      assert t[0] == s;
    } else {
      i :| 0 <= i < |p| && p[i] == s;
    }
  }

  /** A space can be created, with every request answered, exactly if its namespace does not
      exist yet and its certificates do, under two different names. So a space that names one
      secret for both never becomes Active. */
  lemma CanCompleteIff(spec: SpaceSpec, dnsEnabled: bool, c: Certs)
    ensures CanComplete(spec, dnsEnabled, c) <==> Creatable(spec, c)
  {
    hide Steps, After, Succeeded;
    var steps := Steps(spec, dnsEnabled);
    if Creatable(spec, c) {
      var effects := seq(|steps|, i => Applied);
      CreatablePasses(spec, dnsEnabled, c, effects, |steps|);
    }
    if CanComplete(spec, dnsEnabled, c) {
      var effects: seq<Effect> :| |effects| == |steps| && Passed(spec, c, steps, effects, |effects|);
      var i := PlanHas(spec, dnsEnabled, GetHttpCert);
      PassedWasReady(spec, dnsEnabled, c, effects, i);
      i := PlanHas(spec, dnsEnabled, CreateNamespace);
      PassedWasReady(spec, dnsEnabled, c, effects, i);
      if spec.tcpCertAndCaSecretName != "" {
        i := PlanHas(spec, dnsEnabled, GetTcpCertAndCa);
        PassedWasReady(spec, dnsEnabled, c, effects, i);
        i := PlanHas(spec, dnsEnabled, CopyTcpCertAndCa);
        PassedWasReady(spec, dnsEnabled, c, effects, i);
        PlanOrder(spec, dnsEnabled, i);
      }
    }
  }

  // ----- what a stored Active says --------------------------------------------------------------

  /** The space controller as the protocol sees it: each process knows whether there is a DNS
      provider, and has the space's specification from the version it read. */
  ghost function SpaceCode(): Code<bool, SpaceSpec, SpaceStep> {
    Code((dnsEnabled: bool, spec: SpaceSpec) => ValidateSpace(spec).Ok?,
         (dnsEnabled: bool, spec: SpaceSpec) => Plan(spec, dnsEnabled))
  }

  lemma PlanTasks(spec: SpaceSpec, dnsEnabled: bool)
    ensures var tasks, steps := Plan(spec, dnsEnabled).tasks, Steps(spec, dnsEnabled);
            && Plan(spec, dnsEnabled).generates && |tasks| == |steps|
            && forall k :: 0 <= k < |steps| ==> tasks[k] == Task(steps[k], MayFail(steps[k]))
  {
    hide Steps, MayFail;
  }

  /** One process had every step that this very specification asks for succeed, in order, except
      perhaps the one whose error is overwritten. */
  ghost predicate EveryStepDone(dnsEnabled: bool, spec: SpaceSpec, l: Local<SpaceStep>) {
    var steps := Steps(spec, dnsEnabled);
    && ValidateSpace(spec).Ok? && |l.work.tasks| == |l.oks| == |steps|
    && forall k :: 0 <= k < |steps| ==>
         l.work.tasks[k].what == steps[k] && (l.oks[k] || steps[k] == CreateIngressRoleBinding)
  }

  lemma CompletedPlan(dnsEnabled: bool, spec: SpaceSpec, l: Local<SpaceStep>)
    requires ValidateSpace(spec).Ok? && l.work == Plan(spec, dnsEnabled) && Completed(l)
    ensures EveryStepDone(dnsEnabled, spec, l)
  {
    hide Steps, Plan;
    PlanTasks(spec, dnsEnabled);
  }

  /** Over any run: a space that is stored as Active goes back to a version that first was, and
      every step that the specification in that version asks for has been done by one process,
      except perhaps the one whose error is overwritten. */
  lemma ActiveSpaceIsFullyCreated(acts: seq<Act<bool, SpaceSpec>>, i: nat)
    requires var hist := Run(SpaceCode(), Start(), acts).hist; i < |hist| && hist[i].Obj? && hist[i].phase == Active
    ensures var s := Run(SpaceCode(), Start(), acts);
            exists j: nat, p :: j <= i && FirstActive(s.hist, j) && s.hist[j].uid == s.hist[i].uid
                                && 0 <= p < |s.procs| && s.procs[p].uid == s.hist[j].uid
                                && EveryStepDone(s.procs[p].env, s.hist[j].spec, s.procs[p].local)
  {
    hide Run, Plan, EveryStepDone;
    var s := Run(SpaceCode(), Start(), acts);
    StoredActiveMeansMade(SpaceCode(), acts, i);
    var j: nat, p :| j <= i && FirstActive(s.hist, j) && s.hist[j].uid == s.hist[i].uid
                     && 0 <= p < |s.procs| && MadeBy(SpaceCode(), s.procs[p], s.hist[j]);
    CompletedPlan(s.procs[p].env, s.hist[j].spec, s.procs[p].local);
  }

  /** Process p made the object Active, in its version i, with this specification. */
  ghost predicate MadeActive(acts: seq<Act<bool, SpaceSpec>>, i: nat, p: nat, dnsEnabled: bool, spec: SpaceSpec) {
    var s := Run(SpaceCode(), Start(), acts);
    && FirstActive(s.hist, i) && s.hist[i].spec == spec
    && p < |s.procs| && s.procs[p].env == dnsEnabled && MadeBy(SpaceCode(), s.procs[p], s.hist[i])
  }

  ghost predicate EveryStepSucceeded(acts: seq<Act<bool, SpaceSpec>>, p: nat)
    requires p < |Run(SpaceCode(), Start(), acts).procs|
  {
    forall k :: 0 <= k < |Run(SpaceCode(), Start(), acts).procs[p].local.oks| ==>
      Run(SpaceCode(), Start(), acts).procs[p].local.oks[k]
  }

  /** Every request is granted, but that for the role binding. */
  function NoRoleBinding(spec: SpaceSpec, dnsEnabled: bool): seq<Effect> {
    var steps := Steps(spec, dnsEnabled);
    seq(|steps|, i requires 0 <= i < |steps| => if steps[i] == CreateIngressRoleBinding then NotApplied else Applied)
  }

  lemma RoleBindingOnlyThere(spec: SpaceSpec)
    ensures CreateIngressRoleBinding !in Preparation(spec) + HttpTransfer(spec) + TcpTransfer(spec)
    ensures CreateIngressRoleBinding !in DefaultBackend(spec)
  {
  }

  lemma RoleBindingPlanned(spec: SpaceSpec, dnsEnabled: bool)
    ensures CreateIngressRoleBinding in Steps(spec, dnsEnabled) <==> !spec.disablePrivateIngressController
  {
    hide Preparation, HttpTransfer, TcpTransfer, DefaultBackend;
    var steps, c := Steps(spec, dnsEnabled), IngressController(spec);
    assert steps == Preparation(spec) + HttpTransfer(spec) + TcpTransfer(spec)
                    + (DefaultBackend(spec) + c + When(dnsEnabled, [UpdateDns]));
    assert !spec.disablePrivateIngressController ==> c[2] == CreateIngressRoleBinding && c[2] in c;
    RoleBindingOnlyThere(spec);
  }

  lemma RefusedRun(spec: SpaceSpec, dnsEnabled: bool, k: nat)
    requires ValidateSpace(spec).Ok? && k < |Steps(spec, dnsEnabled)|
    requires Steps(spec, dnsEnabled)[k] == CreateIngressRoleBinding
    ensures var acts := Alone(dnsEnabled, spec, NoRoleBinding(spec, dnsEnabled));
            && MadeActive(acts, 3, 0, dnsEnabled, spec)
            && k < |Run(SpaceCode(), Start(), acts).procs[0].local.oks|
            && !Run(SpaceCode(), Start(), acts).procs[0].local.oks[k]
  {
    hide Steps, Run, Plan;
    PlanTasks(spec, dnsEnabled);
    AloneStoresActive(SpaceCode(), dnsEnabled, spec, NoRoleBinding(spec, dnsEnabled));
  }

  /** A space whose role binding is refused: internalCreate nevertheless returns without error,
      for every specification and state of the cluster in which it can, and Active is stored. */
  lemma RefusedRoleBindingGoesUnnoticed(spec: SpaceSpec, dnsEnabled: bool, c: Certs) returns (k: nat)
    requires ValidateSpace(spec).Ok? && Creatable(spec, c) && !spec.disablePrivateIngressController
    ensures var steps, effects := Steps(spec, dnsEnabled), NoRoleBinding(spec, dnsEnabled);
            && k < |steps| && steps[k] == CreateIngressRoleBinding
            && Passed(spec, c, steps, effects, |steps|) && !Succeeded(spec, c, steps, effects, k)
    ensures var acts := Alone(dnsEnabled, spec, NoRoleBinding(spec, dnsEnabled));
            && MadeActive(acts, 3, 0, dnsEnabled, spec)
            && k < |Run(SpaceCode(), Start(), acts).procs[0].local.oks|
            && !Run(SpaceCode(), Start(), acts).procs[0].local.oks[k]
  {
    hide Steps, After, Run, Plan;
    var steps, effects := Steps(spec, dnsEnabled), NoRoleBinding(spec, dnsEnabled);
    RoleBindingPlanned(spec, dnsEnabled);
    k :| 0 <= k < |steps| && steps[k] == CreateIngressRoleBinding;
    CreatablePasses(spec, dnsEnabled, c, effects, |steps|);
    RefusedRun(spec, dnsEnabled, k);
  }

  /** For a valid specification, Active implies that every step succeeded, over all runs,
      exactly if the space has no private ingress controller. */
  lemma ActiveMeansEveryStepIff(spec: SpaceSpec, dnsEnabled: bool)
    requires ValidateSpace(spec).Ok?
    ensures (forall acts, i: nat, p: nat :: MadeActive(acts, i, p, dnsEnabled, spec) ==> EveryStepSucceeded(acts, p))
            <==> spec.disablePrivateIngressController
  {
    hide Steps, Run, Plan;
    RoleBindingPlanned(spec, dnsEnabled);
    PlanTasks(spec, dnsEnabled);
    var steps := Steps(spec, dnsEnabled);
    if spec.disablePrivateIngressController {
      forall acts, i: nat, p: nat | MadeActive(acts, i, p, dnsEnabled, spec)
        ensures EveryStepSucceeded(acts, p)
      {
        var l := Run(SpaceCode(), Start(), acts).procs[p].local;
        forall k | 0 <= k < |l.oks|
          ensures l.oks[k]
        {
          assert steps[k] in steps;
        }
      }
    } else {
      var k :| 0 <= k < |steps| && steps[k] == CreateIngressRoleBinding;
      RefusedRun(spec, dnsEnabled, k);
      var acts := Alone(dnsEnabled, spec, NoRoleBinding(spec, dnsEnabled));
      assert MadeActive(acts, 3, 0, dnsEnabled, spec) && !EveryStepSucceeded(acts, 0);
    }
  }

  // ----- what a created space holds -----------------------------------------------------------------

  /** Once the namespace has been made, its secrets are the source's. */
  ghost predicate Genuine(first: Certs, c: Certs, done: seq<SpaceStep>) {
    CreateNamespace in done ==>
      forall name :: name in c.target ==> name in first.source && c.target[name] == first.source[name]
  }

  lemma DoGenuine(spec: SpaceSpec, first: Certs, c: Certs, done: seq<SpaceStep>, s: SpaceStep, e: Effect)
    requires Conserved(spec, first, c) && Genuine(first, c, done)
    requires Do(spec, c, s, e).1 || MayFail(s)
    ensures Genuine(first, Do(spec, c, s, e).0, done + [s])
  {
  }

  lemma NothingGenuine(c: Certs)
    ensures Genuine(c, c, [])
  {
  }

  lemma {:induction false} AfterGenuine(spec: SpaceSpec, dnsEnabled: bool, c: Certs, effects: seq<Effect>, n: nat)
    requires n <= |Steps(spec, dnsEnabled)| && n <= |effects|
    requires Passed(spec, c, Steps(spec, dnsEnabled), effects, n) && c.http.Absent? && c.tcp.Absent?
    ensures Genuine(c, After(spec, c, Steps(spec, dnsEnabled), effects, n), Steps(spec, dnsEnabled)[..n])
  {
    hide Steps, Do, Genuine, Conserved;
    var steps := Steps(spec, dnsEnabled);
    if n == 0 {
      assert steps[..0] == [];
      NothingGenuine(c);
    } else {
      AfterGenuine(spec, dnsEnabled, c, effects, n - 1);
      SecretsConserved(spec, dnsEnabled, c, effects, n - 1);
      assert Succeeded(spec, c, steps, effects, n - 1) || MayFail(steps[n - 1]);
      DoGenuine(spec, c, After(spec, c, steps, effects, n - 1), steps[..n - 1], steps[n - 1], effects[n - 1]);
      assert steps[..n] == steps[..n - 1] + [steps[n - 1]];
    }
  }

  /** The space holds exactly its certificates, with the data they had, and the source namespace
      has lost exactly those that were to be deleted after copying. */
  ghost predicate HoldsItsCertificates(spec: SpaceSpec, first: Certs, final: Certs) {
    && final.targetExists
    && (forall name :: name in final.target <==>
          name == spec.httpCertSecretName
          || (spec.tcpCertAndCaSecretName != "" && name == spec.tcpCertAndCaSecretName))
    && (forall name :: name in final.target ==> name in first.source && final.target[name] == first.source[name])
    && (forall name :: name in final.source <==>
          && name in first.source
          && !(spec.deleteHttpCertSecretAfterCopy && name == spec.httpCertSecretName)
          && !(spec.deleteTcpCertAndCaSecretAfterCopy && spec.tcpCertAndCaSecretName != ""
               && name == spec.tcpCertAndCaSecretName))
    && (forall name :: name in final.source ==> final.source[name] == first.source[name])
  }

  lemma AllConserved(spec: SpaceSpec, dnsEnabled: bool, c: Certs, effects: seq<Effect>)
    requires |effects| == |Steps(spec, dnsEnabled)| && c.http.Absent? && c.tcp.Absent?
    requires Passed(spec, c, Steps(spec, dnsEnabled), effects, |effects|)
    ensures Conserved(spec, c, After(spec, c, Steps(spec, dnsEnabled), effects, |effects|))
  {
    hide Steps, Do, Conserved, Succeeded, After;
    SecretsConserved(spec, dnsEnabled, c, effects, |effects|);
  }

  lemma FinalStateHolds(spec: SpaceSpec, first: Certs, final: Certs, steps: seq<SpaceStep>)
    requires Reflects(spec, first, final, steps) && Genuine(first, final, steps) && Conserved(spec, first, final)
    requires CreateNamespace in steps && CopyHttpCert in steps
    requires CopyTcpCertAndCa in steps <==> spec.tcpCertAndCaSecretName != ""
    requires DeleteHttpCert in steps <==> spec.deleteHttpCertSecretAfterCopy
    requires DeleteTcpCertAndCa in steps <==>
               spec.tcpCertAndCaSecretName != "" && spec.deleteTcpCertAndCaSecretAfterCopy
    ensures HoldsItsCertificates(spec, first, final)
  {
  }

  lemma SecretStepsIn(spec: SpaceSpec, dnsEnabled: bool)
    ensures var steps := Steps(spec, dnsEnabled);
            && CreateNamespace in steps && CopyHttpCert in steps
            && (CopyTcpCertAndCa in steps <==> spec.tcpCertAndCaSecretName != "")
            && (DeleteHttpCert in steps <==> spec.deleteHttpCertSecretAfterCopy)
            && (DeleteTcpCertAndCa in steps <==>
                  spec.tcpCertAndCaSecretName != "" && spec.deleteTcpCertAndCaSecretAfterCopy)
  {
    hide Steps;
    PlanIs(spec, dnsEnabled);
  }

  /** Whenever internalCreate succeeds, the secrets are where they should be. */
  lemma CreatedSpaceHoldsItsCertificates(spec: SpaceSpec, dnsEnabled: bool, c: Certs, effects: seq<Effect>)
    requires |effects| == |Steps(spec, dnsEnabled)| && c.http.Absent? && c.tcp.Absent?
    requires Passed(spec, c, Steps(spec, dnsEnabled), effects, |effects|)
    ensures HoldsItsCertificates(spec, c, After(spec, c, Steps(spec, dnsEnabled), effects, |effects|))
  {
    hide Steps, Do, Passed, After, Succeeded, Reflects, Genuine, Conserved, HoldsItsCertificates;
    var steps := Steps(spec, dnsEnabled);
    AfterReflects(spec, dnsEnabled, c, effects, |effects|);
    AfterGenuine(spec, dnsEnabled, c, effects, |effects|);
    AllConserved(spec, dnsEnabled, c, effects);
    SecretStepsIn(spec, dnsEnabled);
    assert steps[..|effects|] == steps;
    FinalStateHolds(spec, c, After(spec, c, steps, effects, |effects|), steps);
  }
}

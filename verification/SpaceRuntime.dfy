/** pkg/space/space.go: the runtime of a space. Its methods make the requests of SpacePlan, and
    the class is proved to behave as the process that module Creation describes. */
module SpaceRuntime {
  import opened ApiTypes
  import opened Creation
  import opened SpacePlan

  lemma ServicesPlace(spec: SpaceSpec, dnsEnabled: bool, offset: nat)
    requires offset == |Preparation(spec) + HttpTransfer(spec) + TcpTransfer(spec)|
    ensures var steps, f, c := Steps(spec, dnsEnabled), DefaultBackend(spec), IngressController(spec);
            && |steps| == offset + |f| + |c| + (if dnsEnabled then 1 else 0)
            && (forall i :: 0 <= i < |f| ==> steps[offset + i] == f[i])
            && steps[offset + |f|..offset + |f| + |c|] == c
            && (dnsEnabled ==> steps[offset + |f| + |c|] == UpdateDns)
  {
    hide Preparation, HttpTransfer, TcpTransfer, DefaultBackend, IngressController;
  }

  // ----- as module Creation sees it ---------------------------------------------------------

  /** The first status update comes before the steps of internalCreate, the others after. */
  function Interleaved(puts: seq<Answer>, answers: seq<Answer>): seq<Answer> {
    if puts == [] then answers else [puts[0]] + answers + puts[1..]
  }

  lemma HeardOfPuts(puts: seq<Answer>, asked: nat, answers: seq<Answer>)
    requires asked <= |puts| && (asked == 0 ==> answers == [])
    ensures asked == 0 ==> Interleaved(puts[..asked], answers) == []
    ensures asked == 1 ==> Interleaved(puts[..asked], answers) == [puts[0]] + answers
    ensures asked < |puts| ==>
              Interleaved(puts[..asked + 1], answers) == Interleaved(puts[..asked], answers) + [puts[asked]]
  {
    if 0 < asked < |puts| {
      assert puts[..asked + 1] == puts[..asked] + [puts[asked]];
      assert puts[..asked + 1][1..] == puts[..asked][1..] + [puts[asked]];
    }
  }

  lemma PlanGenerates(spec: SpaceSpec, dnsEnabled: bool)
    ensures Plan(spec, dnsEnabled).generates && |Plan(spec, dnsEnabled).tasks| == |Steps(spec, dnsEnabled)|
  {
    hide Steps;
  }

  /** What became of the first n steps, as module Creation records it. */
  function Oks(spec: SpaceSpec, c: Certs, steps: seq<SpaceStep>, effects: seq<Effect>, n: nat): seq<bool>
    requires n <= |steps| && n <= |effects|
  {
    seq(n, i requires 0 <= i < n => Succeeded(spec, c, steps, effects, i))
  }

  function Answers(spec: SpaceSpec, c: Certs, steps: seq<SpaceStep>, effects: seq<Effect>, n: nat): seq<Answer>
    requires n <= |steps| && n <= |effects|
  {
    seq(n, i requires 0 <= i < n => if Succeeded(spec, c, steps, effects, i) then Yes(0) else No)
  }

  lemma NothingHeard(spec: SpaceSpec, c: Certs, steps: seq<SpaceStep>, effects: seq<Effect>)
    ensures Oks(spec, c, steps, effects, 0) == [] && Answers(spec, c, steps, effects, 0) == []
  {
  }

  /** internalCreate takes a process of module Creation through the plan. */
  lemma {:induction false} StepsReact(spec: SpaceSpec, dnsEnabled: bool, l: Local<SpaceStep>, c: Certs,
                                      effects: seq<Effect>, n: nat)
    requires n <= |Steps(spec, dnsEnabled)| && n <= |effects|
    requires l.work == Plan(spec, dnsEnabled) && l.oks == []
    requires n > 0 ==> Passed(spec, c, Steps(spec, dnsEnabled), effects, n - 1)
    ensures var steps := Steps(spec, dnsEnabled);
            var l' := l.(oks := Oks(spec, c, steps, effects, n));
            ReactAll(Proceed(l), Answers(spec, c, steps, effects, n))
            == if n > 0 && !Succeeded(spec, c, steps, effects, n - 1) && !MayFail(steps[n - 1])
               then GiveUp(l'.(pc := Working))
               else Proceed(l')
  {
    hide Steps, Succeeded;
    var steps := Steps(spec, dnsEnabled);
    if n > 0 {
      StepsReact(spec, dnsEnabled, l, c, effects, n - 1);
      var answers, a := Answers(spec, c, steps, effects, n - 1), Answers(spec, c, steps, effects, n)[n - 1];
      assert Answers(spec, c, steps, effects, n) == answers + [a];
      assert Oks(spec, c, steps, effects, n)
             == Oks(spec, c, steps, effects, n - 1) + [Succeeded(spec, c, steps, effects, n - 1)];
      ReactAllConcat(Proceed(l), answers, [a]);
    } else {
      assert Oks(spec, c, steps, effects, 0) == [];
    }
  }

  lemma StepsReactTo(spec: SpaceSpec, dnsEnabled: bool, l: Local<SpaceStep>, c: Certs, effects: seq<Effect>, n: nat,
                     o: Outcome)
    requires n <= |Steps(spec, dnsEnabled)| && n <= |effects|
    requires l.work == Plan(spec, dnsEnabled) && l.oks == [] && l.pc == Working
    requires !o.Error? ==> Passed(spec, c, Steps(spec, dnsEnabled), effects, n)
    requires !o.Error? ==> (o.Fine? <==> n == |Steps(spec, dnsEnabled)|)
    requires o.Error? ==> n > 0 && Passed(spec, c, Steps(spec, dnsEnabled), effects, n - 1)
                          && !Succeeded(spec, c, Steps(spec, dnsEnabled), effects, n - 1)
                          && !MayFail(Steps(spec, dnsEnabled)[n - 1])
    ensures var l' := l.(oks := Oks(spec, c, Steps(spec, dnsEnabled), effects, n));
            ReactAll(Proceed(l), Answers(spec, c, Steps(spec, dnsEnabled), effects, n))
            == match o
               case Fine => l'.(mem := Active, pc := PutActive)
               case Crashed => l'
               case Error => GiveUp(l')
  {
    hide Steps, Succeeded, ReactAll, GiveUp, Plan;
    StepsReact(spec, dnsEnabled, l, c, effects, n);
    PlanGenerates(spec, dnsEnabled);
  }

  // ----- the code ---------------------------------------------------------------------------

  class SpaceRuntime {
    const spec: SpaceSpec
    const dnsEnabled: bool
    const effects: seq<Effect>   // what becomes of each request; the process crashes where they end
    const puts: seq<Answer>      // and the answers to its status updates
    const before: Certs
    var at: nat
    var certs: Certs
    var asked: nat
    var rv: nat                  // resource version of the copy of the space
    var stored: Status           // status in that copy
    var status: Status           // status in memory
    ghost const first: Local<SpaceStep>

    constructor (spec: SpaceSpec, dnsEnabled: bool, certs: Certs, effects: seq<Effect>, puts: seq<Answer>,
                 rv: nat, status: Status, valid: bool)
      ensures this.spec == spec && this.dnsEnabled == dnsEnabled && this.effects == effects && before == certs
      ensures this.puts == puts && asked == 0 && this.rv == rv && stored == this.status == status
      ensures Facing(0) && first == Materialise(rv, status.phase, valid, Plan(spec, dnsEnabled))
    {
      this.spec, this.dnsEnabled, this.effects, this.before := spec, dnsEnabled, effects, certs;
      at, this.certs := 0, certs;
      this.puts, asked := puts, 0;
      this.rv, stored, this.status := rv, status, status;
      first := Materialise(rv, status.phase, valid, Plan(spec, dnsEnabled));
    }

    ghost predicate Valid()
      reads this
    {
      && at <= |effects| && at <= |Steps(spec, dnsEnabled)|
      && certs == After(spec, before, Steps(spec, dnsEnabled), effects, at)
    }

    /** So many steps are behind, and none of them stopped the process. */
    ghost predicate Facing(n: nat)
      reads this
    {
      Valid() && at == n && Passed(spec, before, Steps(spec, dnsEnabled), effects, at)
    }

    /** How a method that has not come through its steps leaves the process. */
    ghost predicate Halted(o: Outcome)
      reads this
    {
      && Valid()
      && match o
         case Fine => true
         case Crashed => at == |effects| && at < |Steps(spec, dnsEnabled)|
             && Passed(spec, before, Steps(spec, dnsEnabled), effects, at)
         case Error =>
           && at > 0 && Passed(spec, before, Steps(spec, dnsEnabled), effects, at - 1)
           && !Succeeded(spec, before, Steps(spec, dnsEnabled), effects, at - 1)
           && !MayFail(Steps(spec, dnsEnabled)[at - 1])
    }

    /** One request; it has to be the next step of the plan. */
    method Call(s: SpaceStep) returns (o: Outcome)
      requires at < |Steps(spec, dnsEnabled)| && Steps(spec, dnsEnabled)[at] == s && Facing(at)
      modifies this`at, this`certs
      ensures o.Fine? || (o.Error? && MayFail(s)) ==> Facing(old(at) + 1)
      ensures !(o.Error? && MayFail(s)) ==> Halted(o)
    {
      hide Steps, Do;
      if at == |effects| {
        return Crashed;
      }
      var (c, ok) := Do(spec, certs, s, effects[at]);
      certs, at := c, at + 1;
      o := if ok then Fine else Error;
    }

    method Prepare() returns (o: Outcome)
      requires Facing(0)
      modifies this`at, this`certs
      ensures Halted(o) && (o.Fine? ==> Facing(|Preparation(spec)|))
    {
      hide After, Succeeded, Do, Passed, HttpTransfer, TcpTransfer, Services, Permissions;
      o := Call(GetHttpCert);
      if !o.Fine? { return; }
      if spec.tcpCertAndCaSecretName != "" {
        o := Call(GetTcpCertAndCa);
        if !o.Fine? { return; }
      }
      o := Call(CreateNamespace);
      if !o.Fine? { return; }
      if spec.project != "" {
        o := Call(CreateNetPolicy);
        if !o.Fine? { return; }
      }
      o := CreatePermissions();
    }

    method CreatePermissions() returns (o: Outcome)
      requires Facing(|Preparation(spec)| - |Permissions(spec)|)
      modifies this`at, this`certs
      ensures Halted(o) && (o.Fine? ==> Facing(|Preparation(spec)|))
    {
      hide After, Succeeded, Do, Passed, HttpTransfer, TcpTransfer, Services;
      if !spec.hasPermissions {
        return Fine;
      }
      o := Call(CreateRole);
      if !o.Fine? { return; }
      o := Call(CreateRoleBinding);
    }

    method TransferHttpCert() returns (o: Outcome)
      requires Facing(|Preparation(spec)|)
      modifies this`at, this`certs
      ensures Halted(o) && (o.Fine? ==> Facing(|Preparation(spec) + HttpTransfer(spec)|))
    {
      hide After, Succeeded, Do, Passed, Preparation, TcpTransfer, Services;
      o := Call(CopyHttpCert);
      if !o.Fine? { return; }
      if spec.deleteHttpCertSecretAfterCopy {
        o := Call(DeleteHttpCert);
      }
    }

    method TransferTcpCertAndCa() returns (o: Outcome)
      requires Facing(|Preparation(spec) + HttpTransfer(spec)|)
      modifies this`at, this`certs
      ensures Halted(o) && (o.Fine? ==> Facing(|Preparation(spec) + HttpTransfer(spec) + TcpTransfer(spec)|))
    {
      hide After, Succeeded, Do, Passed, Preparation, HttpTransfer, Services;
      if spec.tcpCertAndCaSecretName == "" {
        return Fine;
      }
      o := Call(CopyTcpCertAndCa);
      if !o.Fine? { return; }
      if spec.deleteTcpCertAndCaSecretAfterCopy {
        o := Call(DeleteTcpCertAndCa);
      }
    }

    method CreatePrivateIngressController() returns (o: Outcome)
      requires Facing(at) && at + |IngressController(spec)| <= |Steps(spec, dnsEnabled)|
      requires Steps(spec, dnsEnabled)[at..at + |IngressController(spec)|] == IngressController(spec)
      modifies this`at, this`certs
      ensures Halted(o) && (o.Fine? ==> Facing(old(at) + |IngressController(spec)|))
    {
      hide After, Succeeded, Do, Passed, Steps;
      if spec.disablePrivateIngressController {
        return Fine;
      }
      ghost var steps, planned, offset := Steps(spec, dnsEnabled), IngressController(spec), at;
      assert steps[offset] == planned[0] && steps[offset + 1] == planned[1] && steps[offset + 2] == planned[2]
             && steps[offset + 3] == planned[3] && steps[offset + 4] == planned[4];
      o := Call(CreateIngressAccount);
      if !o.Fine? { return; }
      o := Call(CreateIngressRole);
      if !o.Fine? { return; }
      o := Call(CreateIngressRoleBinding); // its error is overwritten by the next call
      if o.Crashed? { return; }
      o := Call(NewAppClient);
      if !o.Fine? { return; }
      o := Call(PostIngressApp);
    }

    method CreateServices() returns (o: Outcome)
      requires Facing(|Preparation(spec) + HttpTransfer(spec) + TcpTransfer(spec)|)
      modifies this`at, this`certs
      ensures Halted(o) && (o.Fine? ==> Facing(|Steps(spec, dnsEnabled)|))
    {
      hide After, Succeeded, Do, Passed, Preparation, HttpTransfer, TcpTransfer, IngressController, Steps, Services;
      ghost var offset, front, controller := at, DefaultBackend(spec), IngressController(spec);
      ServicesPlace(spec, dnsEnabled, offset);
      if spec.createDefaultHttpDeploymentAndIngress {
        assert front[0] == CreateHttpIngress && front[1] == CreateDefaultHttpDeploy;
        o := Call(CreateHttpIngress);
        if !o.Fine? { return; }
        o := Call(CreateDefaultHttpDeploy);
        if !o.Fine? { return; }
      }
      assert front[|front| - 1] == CreateDefaultHttpSvc;
      o := Call(CreateDefaultHttpSvc);
      if !o.Fine? { return; }
      o := CreatePrivateIngressController();
      if !o.Fine? { return; }
      if dnsEnabled {
        o := Call(UpdateDns);
      }
    }

    /** The whole of internalCreate: it makes the requests of the plan in order, goes on exactly
        as long as they succeed or may fail, and returns without error only after the last. */
    method InternalCreate() returns (o: Outcome)
      requires Facing(0)
      modifies this`at, this`certs
      ensures Halted(o) && (o.Fine? ==> Facing(|Steps(spec, dnsEnabled)|))
    {
      o := Prepare();
      if !o.Fine? { return; }
      o := TransferHttpCert();
      if !o.Fine? { return; }
      o := TransferTcpCertAndCa();
      if !o.Fine? { return; }
      o := CreateServices();
    }

    // ----- the phases around it -----

    /** The process as module Creation sees it. */
    ghost function View(pc: Pc): Local<SpaceStep>
      requires Valid()
      reads this
    {
      Local(rv, stored.phase, status.phase, pc, Plan(spec, dnsEnabled),
            Oks(spec, before, Steps(spec, dnsEnabled), effects, at))
    }

    /** All that the process has been answered: about its first status update, about the steps
        of internalCreate, about later status updates. */
    ghost function Heard(): seq<Answer>
      requires Valid() && asked <= |puts|
      reads this
    {
      Interleaved(puts[..asked], Answers(spec, before, Steps(spec, dnsEnabled), effects, at))
    }

    /** The status update is the request that is due. */
    method UpdateCRStatus() returns (o: Outcome)
      requires Valid() && asked <= |puts| && Due(ReactAll(first, Heard()), Put(status.phase))
      modifies this`asked, this`rv, this`stored
      ensures if old(stored) == status then o.Fine? && asked == old(asked) && rv == old(rv) && stored == old(stored)
              else if old(asked) == |puts|
              then o.Crashed? && asked == old(asked) && rv == old(rv) && stored == old(stored)
              else asked == old(asked) + 1
                   && (puts[old(asked)].Yes? ==> o.Fine? && puts[old(asked)] == Yes(rv) && stored == status)
                   && (puts[old(asked)].No? ==> o.Error? && rv == old(rv) && stored == old(stored))
    {
      if stored == status {
        return Fine;
      }
      if asked == |puts| {
        return Crashed;
      }
      var a := puts[asked];
      asked := asked + 1;
      match a {
        case No => return Error;
        case Yes(version) =>
          rv, stored := version, status;
          o := Fine;
      }
    }

    method Create() returns (o: Outcome)
      requires Facing(0) && asked == 0 && stored.phase == status.phase == None
      requires first == View(PutCreating).(mem := Creating)
      modifies this`at, this`certs, this`asked, this`rv, this`stored, this`status
      ensures Valid() && asked <= |puts| && stored.phase != Failed && status.phase != Failed
              && (asked == 0 ==> o.Crashed?)
      ensures && (o.Fine? ==> ReactAll(first, Heard()) == View(Idle))
              && (o.Crashed? ==> exists pc :: ReactAll(first, Heard()) == View(pc))
              && (o.Error? ==> exists pc :: ReactAll(first, Heard()) == View(pc).(mem := Failed, pc := PutFailed))
    {
      hide Plan, Steps, Oks, Answers, After, Passed, Succeeded, Interleaved, ReactAll;
      NothingHeard(spec, before, Steps(spec, dnsEnabled), effects);
      PlanGenerates(spec, dnsEnabled);
      HeardOfPuts(puts, asked, []);
      status := status.(phase := Creating);
      ReactOneMore(first, [], if puts == [] then No else puts[0]);
      o := UpdateCRStatus();
      if !o.Fine? {
        assert o.Crashed? ==> ReactAll(first, Heard()) == View(PutCreating);
        assert o.Error? ==> ReactAll(first, Heard()) == View(PutCreating).(mem := Failed, pc := PutFailed);
        return;
      }
      assert [] + [puts[0]] == [puts[0]] && React(first, puts[0]) == Proceed(View(Working));
      o := Finish();
    }

    /** create once the phase Creating has been stored. */
    method Finish() returns (o: Outcome)
      requires Facing(0) && asked == 1 <= |puts| && stored.phase == status.phase == Creating
      requires ReactAll(first, [puts[0]]) == Proceed(View(Working))
      modifies this`at, this`certs, this`asked, this`rv, this`stored, this`status
      ensures Valid() && 0 < asked <= |puts| && stored.phase != Failed && status.phase != Failed
      ensures && (o.Fine? ==> ReactAll(first, Heard()) == View(Idle))
              && (o.Crashed? ==> exists pc :: ReactAll(first, Heard()) == View(pc))
              && (o.Error? ==> exists pc :: ReactAll(first, Heard()) == View(pc).(mem := Failed, pc := PutFailed))
    {
      hide Plan, Steps, Oks, Answers, After, Passed, Succeeded, Interleaved, ReactAll;
      NothingHeard(spec, before, Steps(spec, dnsEnabled), effects);
      ghost var entering := View(Working);
      o := InternalCreate();
      StepsReactTo(spec, dnsEnabled, entering, before, effects, at, o);
      ghost var answers := Answers(spec, before, Steps(spec, dnsEnabled), effects, at);
      HeardOfPuts(puts, 1, answers);
      ReactAllConcat(first, [puts[0]], answers);
      if !o.Fine? {
        assert o.Crashed? ==> ReactAll(first, Heard()) == View(Working);
        assert o.Error? ==> ReactAll(first, Heard()) == View(Working).(mem := Failed, pc := PutFailed);
        return;
      }
      status := status.(phase := Active);
      assert ReactAll(first, Heard()) == View(PutActive);
      ghost var completed := Heard();
      o := UpdateCRStatus();
      if !o.Crashed? {
        ReactOneMore(first, completed, puts[1]);
      }
      assert o.Crashed? ==> ReactAll(first, Heard()) == View(PutActive);
      assert o.Error? ==> ReactAll(first, Heard()) == View(PutActive).(mem := Failed, pc := PutFailed);
    }

    /** What New does about a setup that failed. */
    method MarkFailed() returns (crashed: bool)
      requires Valid() && asked <= |puts| && stored.phase != Failed && (asked == 0 ==> at == 0)
      requires ReactAll(first, Heard()) == View(PutFailed).(mem := Failed)
      modifies this`asked, this`rv, this`stored, this`status
      ensures Valid() && asked <= |puts| && status.phase == Failed
      ensures ReactAll(first, Heard()) == View(if crashed then PutFailed else Idle)
    {
      hide Plan, Steps, Oks, Answers, After, Passed, Succeeded, Interleaved, ReactAll;
      NothingHeard(spec, before, Steps(spec, dnsEnabled), effects);
      ghost var heard := Heard();
      status := Status(Failed, "setup failed");
      HeardOfPuts(puts, asked, Answers(spec, before, Steps(spec, dnsEnabled), effects, at));
      var o := UpdateCRStatus();
      crashed := o.Crashed?;
      if !crashed {
        ReactOneMore(first, heard, puts[asked - 1]);
      }
    }
  }

  /** New of pkg/space/space.go. For all answers of the API server the runtime has gone through
      exactly the steps of a process of module Creation, to the end unless it crashed. */
  method New(spec: SpaceSpec, dnsEnabled: bool, rv: nat, status: Status, certs: Certs, effects: seq<Effect>,
             puts: seq<Answer>)
    returns (c: SpaceRuntime, crashed: bool)
    ensures fresh(c) && c.Valid() && c.asked <= |c.puts|
    ensures c.spec == spec && c.dnsEnabled == dnsEnabled && c.effects == effects && c.puts == puts && c.before == certs
    ensures var first := Materialise(rv, status.phase, ValidateSpace(spec).Ok?, Plan(spec, dnsEnabled));
            && (!crashed ==> ReactAll(first, c.Heard()) == c.View(Idle))
            && (crashed ==> exists pc :: ReactAll(first, c.Heard()) == c.View(pc))
  {
    hide Plan, Steps, Oks, Answers, After, Passed, Succeeded, Interleaved, ReactAll;
    c := new SpaceRuntime(spec, dnsEnabled, certs, effects, puts, rv, status, ValidateSpace(spec).Ok?);
    NothingHeard(spec, certs, Steps(spec, dnsEnabled), effects);
    ghost var first := Materialise(rv, status.phase, ValidateSpace(spec).Ok?, Plan(spec, dnsEnabled));
    HeardOfPuts(puts, 0, []);
    ReactOneMore(first, [], No);
    crashed := false;
    var setupFailed := ValidateSpace(spec).Err?;
    if !setupFailed {
      match status.phase {
        case None =>
          var o := c.Create();
          if o.Crashed? {
            return c, true;
          }
          setupFailed := o.Error?;
        case Creating => setupFailed := true;
        case Active =>
        case Failed => setupFailed := true;
      }
    }
    if setupFailed && c.status.phase != Failed {
      crashed := c.MarkFailed();
    }
  }
}

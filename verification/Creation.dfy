/** The phase protocol shared by apps and spaces: a status phase is persisted around a
    many-step internalCreate, while processes crash, replies get lost and several controllers
    race for the same object. */
module Creation {

  datatype Phase = None | Creating | Active | Failed

  function Rank(p: Phase): nat {
    match p
    case None => 0
    case Creating => 1
    case Active => 2
    case Failed => 3
  }

  /** How a method of a runtime comes back. */
  datatype Outcome = Fine | Error | Crashed

  /** What is persisted, and what a runtime holds in memory. */
  datatype Status = Status(phase: Phase, reason: string)

  /** One request of internalCreate; the error of a task that may fail is dropped by the code. */
  datatype Task<T> = Task(what: T, mayFail: bool)

  /** What internalCreate will do: nothing but fail when its resources cannot be generated,
      otherwise these tasks in order. */
  datatype Work<T> = Work(generates: bool, tasks: seq<Task<T>>)

  /** The request a process is about to make. */
  datatype Pc = PutCreating | Working | PutActive | PutFailed | Idle

  /** One materialised runtime: the resource version and phase of its copy of the object, its
      in-memory phase, and how far internalCreate got. */
  datatype Local<T> = Local(rv: nat, stored: Phase, mem: Phase, pc: Pc, work: Work<T>, oks: seq<bool>)

  /** What a process is told: success, with the new version for a PUT, or an error. */
  datatype Answer = Yes(rv: nat) | No

  /** What becomes of a request: carried out and answered, carried out without the answer
      arriving, or not carried out. */
  datatype Effect = Applied | ReplyLost | NotApplied

  function GiveUp<T>(l: Local<T>): Local<T> {
    if l.mem.Failed? then l.(pc := Idle) else l.(mem := Failed, pc := PutFailed)
  }

  function Proceed<T>(l: Local<T>): Local<T> {
    if |l.oks| < |l.work.tasks| then l.(pc := Working) else l.(mem := Active, pc := PutActive)
  }

  /** New up to its first request. */
  function Materialise<T>(rv: nat, phase: Phase, valid: bool, work: Work<T>): Local<T> {
    var l := Local(rv, phase, phase, Idle, work, []);
    if !valid then GiveUp(l)
    else
      match phase
      case None => l.(mem := Creating, pc := PutCreating)
      case Creating => GiveUp(l)
      case Active => l
      case Failed => GiveUp(l)
  }

  datatype Request<T> = Put(phase: Phase) | Step(what: T)

  /** The request that a process in this state has to make: no other, and none when idle. */
  predicate Due<T(==)>(l: Local<T>, q: Request<T>) {
    match q
    case Put(phase) =>
      && l.mem == phase
      && ((l.pc == PutCreating && phase == Creating) || (l.pc == PutActive && phase == Active)
          || (l.pc == PutFailed && phase == Failed))
    case Step(what) => l.pc == Working && |l.oks| < |l.work.tasks| && l.work.tasks[|l.oks|].what == what
  }

  /** How the code goes on after the answer to its pending request. */
  function React<T>(l: Local<T>, a: Answer): Local<T> {
    match l.pc
    case PutCreating =>
      if a.No? then GiveUp(l)
      else if l.work.generates then Proceed(l.(rv := a.rv, stored := Creating))
      else GiveUp(l.(rv := a.rv, stored := Creating))
    case Working =>
      if |l.oks| >= |l.work.tasks| then l
      else if a.Yes? || l.work.tasks[|l.oks|].mayFail then Proceed(l.(oks := l.oks + [a.Yes?]))
      else GiveUp(l.(oks := l.oks + [false]))
    case PutActive =>
      if a.Yes? then l.(rv := a.rv, stored := Active, pc := Idle) else GiveUp(l)
    case PutFailed =>
      if a.Yes? then l.(rv := a.rv, stored := Failed, pc := Idle) else l.(pc := Idle)
    case Idle => l
  }

  function ReactAll<T>(l: Local<T>, answers: seq<Answer>): Local<T>
    decreases |answers|
  {
    if answers == [] then l else ReactAll(React(l, answers[0]), answers[1..])
  }

  lemma {:induction false} ReactAllConcat<T>(l: Local<T>, a: seq<Answer>, b: seq<Answer>)
    ensures ReactAll(l, a + b) == ReactAll(ReactAll(l, a), b)
    decreases |a|
  {
    if a == [] {
      assert a + b == b;
    } else {
      assert (a + b)[0] == a[0] && (a + b)[1..] == a[1..] + b;
      ReactAllConcat(React(l, a[0]), a[1..], b);
    }
  }

  lemma ReactOneMore<T>(l: Local<T>, answers: seq<Answer>, a: Answer)
    ensures ReactAll(l, []) == l
    ensures ReactAll(l, answers + [a]) == React(ReactAll(l, answers), a)
  {
    ReactAllConcat(l, answers, [a]);
    assert ReactAll(ReactAll(l, answers), [a]) == React(ReactAll(l, answers), a);
  }

  /** Having given up, a process may store Failed, but no longer Active. */
  lemma {:induction false} GivenUpStaysSo<T>(l: Local<T>, answers: seq<Answer>)
    requires l.pc in {PutFailed, Idle} && l.stored != Active
    ensures ReactAll(l, answers).stored != Active
    decreases |answers|
  {
    if answers != [] {
      GivenUpStaysSo(React(l, answers[0]), answers[1..]);
    }
  }

  /** From inside internalCreate: Active gets stored exactly if the remaining tasks succeed, or
      may fail, and then the status update does. */
  lemma {:induction false} WorkOutcomeIff<T>(l: Local<T>, answers: seq<Answer>)
    requires l.stored == Creating && l.mem == Creating && |l.oks| <= |l.work.tasks|
    requires |answers| == |l.work.tasks| - |l.oks| + 1
    ensures ReactAll(Proceed(l), answers).stored == Active <==>
            && (forall k :: 0 <= k < |answers| - 1 ==> answers[k].Yes? || l.work.tasks[|l.oks| + k].mayFail)
            && answers[|answers| - 1].Yes?
    decreases |answers|
  {
    var a, rest := answers[0], answers[1..];
    assert forall k :: 0 <= k < |rest| ==> rest[k] == answers[k + 1];
    if |l.oks| == |l.work.tasks| {
      assert rest == [];
    } else {
      var l' := l.(oks := l.oks + [a.Yes?]);
      if a.Yes? || l.work.tasks[|l.oks|].mayFail {
        WorkOutcomeIff(l', rest);
        assert forall k :: 0 <= k < |rest| - 1 ==>
            (rest[k].Yes? || l'.work.tasks[|l'.oks| + k].mayFail)
            == (answers[k + 1].Yes? || l.work.tasks[|l.oks| + (k + 1)].mayFail);
        assert forall k :: 1 <= k < |answers| - 1 ==> answers[k] == rest[k - 1];
      } else {
        GivenUpStaysSo(GiveUp(l'.(pc := Working)), rest);
      }
    }
  }

  lemma {:induction false} ActiveStays<T>(l: Local<T>, answers: seq<Answer>)
    requires l.stored == Active && l.pc == Idle
    ensures ReactAll(l, answers).stored == Active
    decreases |answers|
  {
    if answers != [] {
      ActiveStays(React(l, answers[0]), answers[1..]);
    }
  }

  /** A process that is answered throughout knows Active to be stored in the end exactly if it
      was before (and the specification is still valid, or the attempt to store Failed did
      not succeed), or if the phase was None, the specification is valid, the resources can
      be generated, and every request succeeded, save those of tasks that may fail. */
  lemma CreationOutcomeIff<T>(rv: nat, phase: Phase, valid: bool, work: Work<T>, answers: seq<Answer>)
    requires |answers| == |work.tasks| + 2
    ensures ReactAll(Materialise(rv, phase, valid, work), answers).stored == Active <==>
            || (phase == Active && (valid || answers[0].No?))
            || (&& phase == None && valid && work.generates && answers[0].Yes?
                && (forall k :: 0 <= k < |work.tasks| ==> answers[k + 1].Yes? || work.tasks[k].mayFail)
                && answers[|work.tasks| + 1].Yes?)
  {
    var l, rest := Materialise(rv, phase, valid, work), answers[1..];
    assert forall k :: 0 <= k < |rest| ==> rest[k] == answers[k + 1];
    if phase == Active && valid {
      ActiveStays(l, answers);
    } else if phase == Active && answers[0].No? {
      ActiveStays(React(l, answers[0]), rest);
    } else if phase == Active {
      GivenUpStaysSo(React(l, answers[0]), rest);
    } else if l.pc != PutCreating {
      GivenUpStaysSo(l, answers);
    } else if answers[0].Yes? && work.generates {
      WorkOutcomeIff(l.(rv := answers[0].rv, stored := Creating), rest);
      assert forall k :: 0 <= k < |rest| - 1 ==> rest[k] == answers[k + 1];
    } else {
      GivenUpStaysSo(React(l, answers[0]), rest);
    }
  }

  // ----- when Failed is stored -----------------------------------------------------------------

  lemma {:induction false} IdleStays<T>(l: Local<T>, answers: seq<Answer>)
    requires l.pc == Idle
    ensures ReactAll(l, answers) == l
    decreases |answers|
  {
    if answers != [] {
      IdleStays(l, answers[1..]);
    }
  }

  lemma FailedUpdateEnds<T>(l: Local<T>, answers: seq<Answer>)
    requires l.pc == PutFailed && answers != []
    ensures var a := answers[0];
            ReactAll(l, answers) == if a.Yes? then l.(pc := Idle, stored := Failed, rv := a.rv) else l.(pc := Idle)
  {
    IdleStays(React(l, answers[0]), answers[1..]);
  }

  /** The first task that is refused and may not fail; one past the last if there is none. */
  function FirstFailure<T>(tasks: seq<Task<T>>, answers: seq<Answer>): (k: nat)
    requires |tasks| <= |answers|
    ensures k <= |tasks|
    ensures forall j :: 0 <= j < k ==> answers[j].Yes? || tasks[j].mayFail
    ensures k < |tasks| ==> answers[k].No? && !tasks[k].mayFail
  {
    if tasks == [] || (answers[0].No? && !tasks[0].mayFail) then 0
    else 1 + FirstFailure(tasks[1..], answers[1..])
  }

  function Granted(answers: seq<Answer>): seq<bool> {
    seq(|answers|, i requires 0 <= i < |answers| => answers[i].Yes?)
  }

  lemma GrantedOneMore(oks: seq<bool>, answers: seq<Answer>, n: nat)
    requires 1 <= n <= |answers|
    ensures oks + Granted(answers[..n]) == oks + [answers[0].Yes?] + Granted(answers[1..][..n - 1])
  {
  }

  /** From any point inside internalCreate to the end: the tasks are requested up to the first
      failure that counts, and none after it. Then the phase in memory is Failed, and what
      is stored is Failed if that update is granted; without such a failure the same
      follows a refused Active update. */
  lemma {:induction false} WorkOutcome<T>(l: Local<T>, answers: seq<Answer>)
    requires l.stored == Creating && l.mem == Creating && |l.oks| <= |l.work.tasks|
    requires |answers| == |l.work.tasks| - |l.oks| + 2
    ensures var tasks, final := l.work.tasks[|l.oks|..], ReactAll(Proceed(l), answers);
            var k := FirstFailure(tasks, answers);
            && final.pc == Idle
            && final.oks == l.oks + Granted(answers[..if k < |tasks| then k + 1 else k])
            && if k == |tasks| && answers[k].Yes? then final.stored == final.mem == Active
               else final.mem == Failed && final.stored == if answers[k + 1].Yes? then Failed else Creating
    decreases |answers|
  {
    var a, rest := answers[0], answers[1..];
    var tasks := l.work.tasks[|l.oks|..];
    if tasks == [] {
      assert l.oks + Granted(answers[..0]) == l.oks;
      if a.Yes? {
        IdleStays(React(Proceed(l), a), rest);
      } else {
        FailedUpdateEnds(React(Proceed(l), a), rest);
      }
    } else {
      var l' := l.(oks := l.oks + [a.Yes?]);
      assert tasks[0] == l.work.tasks[|l.oks|] && tasks[1..] == l'.work.tasks[|l'.oks|..];
      if a.Yes? || tasks[0].mayFail {
        WorkOutcome(l', rest);
        GrantedOneMore(l.oks, answers, FirstFailure(tasks, answers));
        GrantedOneMore(l.oks, answers, FirstFailure(tasks, answers) + 1);
      } else {
        GrantedOneMore(l.oks, answers, 1);
        assert l'.oks + Granted(rest[..0]) == l'.oks;
        FailedUpdateEnds(GiveUp(l'.(pc := Working)), rest);
      }
    }
  }

  /** The process gives up, and answer j is the one to its Failed update: at once for an invalid
      specification or a creation found unfinished; after a refused Creating update or if
      nothing can be generated; after a task that fails; after a refused Active update. */
  ghost predicate GivesUpBefore<T>(phase: Phase, valid: bool, work: Work<T>, answers: seq<Answer>, j: nat)
    requires |answers| == |work.tasks| + 3
  {
    var n := |work.tasks|;
    var starts := phase == None && valid;
    || (j == 0 && phase != Failed && (!valid || phase == Creating))
    || (j == 1 && starts && (answers[0].No? || !work.generates))
    || (&& 2 <= j <= n + 2 && starts && answers[0].Yes? && work.generates && answers[j - 1].No?
        && (forall k :: 0 <= k < j - 2 ==> answers[k + 1].Yes? || work.tasks[k].mayFail)
        && (j < n + 2 ==> !work.tasks[j - 2].mayFail))
  }

  ghost predicate WorkGivesUp<T>(work: Work<T>, answers: seq<Answer>, k: nat, j: nat)
    requires |answers| == |work.tasks| + 3 && k <= |work.tasks|
  {
    j == k + 2 && (k == |work.tasks| ==> answers[k + 1].No?)
  }

  lemma WorkFails<T>(rv: nat, work: Work<T>, answers: seq<Answer>)
    requires |answers| == |work.tasks| + 3 && answers[0].Yes? && work.generates
    ensures var final := ReactAll(Materialise(rv, None, true, work), answers);
            && final.pc == Idle && final.mem in {Failed, Active}
            && (final.stored == Failed <==>
                  exists j :: 0 <= j < |answers| && GivesUpBefore(None, true, work, answers, j) && answers[j].Yes?)
            && (final.mem == Failed <==> exists j :: 0 <= j < |answers| && GivesUpBefore(None, true, work, answers, j))
  {
    var l, rest := Local(answers[0].rv, Creating, Creating, Working, work, []), answers[1..];
    assert work.tasks[0..] == work.tasks;
    WorkOutcome(l, rest);
    var n, k := |work.tasks|, FirstFailure(work.tasks, rest);
    assert forall i :: 0 <= i < |rest| ==> rest[i] == answers[i + 1];
    forall j: nat
      ensures GivesUpBefore(None, true, work, answers, j) <==> WorkGivesUp(work, answers, k, j)
    {
    }
    assert WorkGivesUp(work, answers, k, k + 2) <==> (k == n ==> answers[k + 1].No?);
  }

  /** Giving up before internalCreate has made a request. */
  lemma EarlyGivingUp<T>(phase: Phase, valid: bool, work: Work<T>, answers: seq<Answer>)
    requires |answers| == |work.tasks| + 3
    requires !(phase == None && valid && answers[0].Yes? && work.generates)
    ensures forall j: nat :: GivesUpBefore(phase, valid, work, answers, j) <==>
              || (j == 0 && phase != Failed && (!valid || phase == Creating))
              || (j == 1 && phase == None && valid)
  {
  }

  /** A process that is answered throughout knows Failed to be stored in the end exactly if it
      was before, or the process gives up and its Failed update is granted. Its phase in
      memory is Failed in either case, granted or not, and otherwise Active. */
  lemma FailedOutcomeIff<T>(rv: nat, phase: Phase, valid: bool, work: Work<T>, answers: seq<Answer>)
    requires |answers| == |work.tasks| + 3
    ensures var final := ReactAll(Materialise(rv, phase, valid, work), answers);
            && final.pc == Idle
            && (final.stored == Failed <==>
                  phase == Failed
                  || exists j :: 0 <= j < |answers| && GivesUpBefore(phase, valid, work, answers, j) && answers[j].Yes?)
            && (final.mem == Failed <==>
                  phase == Failed || exists j :: 0 <= j < |answers| && GivesUpBefore(phase, valid, work, answers, j))
            && final.mem in {Failed, Active}
  {
    hide GivesUpBefore, WorkGivesUp;
    var l, rest := Materialise(rv, phase, valid, work), answers[1..];
    if phase == None && valid && answers[0].Yes? && work.generates {
      WorkFails(rv, work, answers);
    } else {
      EarlyGivingUp(phase, valid, work, answers);
      assert GivesUpBefore(phase, valid, work, answers, 0) <==> phase != Failed && (!valid || phase == Creating);
      assert GivesUpBefore(phase, valid, work, answers, 1) <==> phase == None && valid;
      if l.pc == Idle {
        IdleStays(l, answers);
      } else if l.pc == PutFailed {
        FailedUpdateEnds(l, answers);
      } else {
        FailedUpdateEnds(React(l, answers[0]), rest);
      }
    }
  }
}

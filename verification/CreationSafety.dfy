/** The API server and every process that ever worked on an object: what the phase protocol
    keeps over all runs of crashes, lost replies, edits and racing controllers. */
module CreationSafety {
  import opened Creation

  /** A stored version of an object, told apart from earlier objects of the same name by its
      uid: its phase and its specification at that version. */
  datatype Stored<S> = Gone | Obj(uid: nat, phase: Phase, spec: S)

  /** What the code makes of a specification in the environment of one process: whether it is
      valid, and the requests that create what it asks for. */
  datatype Code<!E, !S, !T> = Code(valid: (E, S) -> bool, plan: (E, S) -> Work<T>)

  /** A process works on the copy of the object that it read; entered: internalCreate was
      called. A crashed process is one that never advances again. */
  datatype Proc<E, S, T> = Proc(uid: nat, env: E, spec: S, local: Local<T>, entered: bool)

  /** Every version ever stored under the name, the index being the resource version. */
  datatype Sys<E, S, T> = Sys(hist: seq<Stored<S>>, procs: seq<Proc<E, S, T>>)

  datatype Act<E, S> =
    | Client(v: Stored<S>)
    | Spawn(rv: nat, env: E)
    | Advance(p: nat, effect: Effect)

  /** Other clients edit the specification, delete the object, or create it anew without a
      status. */
  predicate ClientMay<S>(hist: seq<Stored<S>>, v: Stored<S>)
    requires |hist| > 0
  {
    var last := hist[|hist| - 1];
    || v.Gone?
    || (last.Obj? && v.uid == last.uid && v.phase == last.phase)
    || (last.Gone? && v.phase == None && forall i :: 0 <= i < |hist| ==> hist[i].Gone? || hist[i].uid != v.uid)
  }

  /** A runtime made from a version of the object, however stale. */
  function Spawned<E, S, T>(code: Code<E, S, T>, hist: seq<Stored<S>>, rv: nat, env: E): Proc<E, S, T>
    requires rv < |hist| && hist[rv].Obj?
  {
    var o := hist[rv];
    Proc(o.uid, env, o.spec, Materialise(rv, o.phase, code.valid(env, o.spec), code.plan(env, o.spec)), false)
  }

  /** The API server accepts a PUT only of the latest version; what is stored is the process's
      own copy with its phase. */
  function Advanced<E, S, T>(s: Sys<E, S, T>, p: nat, effect: Effect): Sys<E, S, T>
    requires p < |s.procs| && |s.hist| > 0
  {
    var q := s.procs[p];
    var l := q.local;
    match l.pc
    case Idle => s
    case Working =>
      s.(procs := s.procs[p := q.(local := React(l, if effect.Applied? then Yes(0) else No))])
    case _ =>
      var wins := !effect.NotApplied? && l.rv == |s.hist| - 1;
      var a := if wins && effect.Applied? then Yes(|s.hist|) else No;
      Sys(if wins then s.hist + [Obj(q.uid, l.mem, q.spec)] else s.hist,
          s.procs[p := q.(local := React(l, a), entered := q.entered || (l.pc.PutCreating? && a.Yes?))])
  }

  function Next<E, S, T>(code: Code<E, S, T>, s: Sys<E, S, T>, act: Act<E, S>): Sys<E, S, T>
    requires |s.hist| > 0
  {
    match act
    case Client(v) => if ClientMay(s.hist, v) then s.(hist := s.hist + [v]) else s
    case Spawn(rv, env) =>
      if rv < |s.hist| && s.hist[rv].Obj? then s.(procs := s.procs + [Spawned(code, s.hist, rv, env)]) else s
    case Advance(p, effect) => if p < |s.procs| then Advanced(s, p, effect) else s
  }

  function Run<E, S, T>(code: Code<E, S, T>, s: Sys<E, S, T>, acts: seq<Act<E, S>>): (r: Sys<E, S, T>)
    requires |s.hist| > 0
    ensures |r.hist| > 0
    decreases |acts|
  {
    if acts == [] then s
    else
      var s' := Next(code, s, acts[0]);
      Run(code, s', acts[1..])
  }

  function Start<E, S, T>(): Sys<E, S, T> {
    Sys([Gone], [])
  }

  // ----- what every run keeps ---------------------------------------------------------

  /** Phases only rise over the versions of one object. */
  ghost predicate Rising<S>(hist: seq<Stored<S>>) {
    forall i, j :: 0 <= i <= j < |hist| && hist[i].Obj? && hist[j].Obj? && hist[i].uid == hist[j].uid ==>
      Rank(hist[i].phase) <= Rank(hist[j].phase)
  }

  /** So far every task has succeeded, or failed where that is tolerated. */
  ghost predicate GoodSoFar<T>(l: Local<T>) {
    && l.work.generates && |l.oks| <= |l.work.tasks|
    && forall k :: 0 <= k < |l.oks| ==> l.oks[k] || l.work.tasks[k].mayFail
  }

  ghost predicate Completed<T>(l: Local<T>) {
    |l.oks| == |l.work.tasks| && GoodSoFar(l)
  }

  ghost predicate Reached<S>(hist: seq<Stored<S>>, uid: nat, phase: Phase) {
    exists i :: 0 <= i < |hist| && hist[i].Obj? && hist[i].uid == uid && hist[i].phase == phase
  }

  /** The version that made the object Active. */
  ghost predicate FirstActive<S>(hist: seq<Stored<S>>, i: nat) {
    && i < |hist| && hist[i].Obj? && hist[i].phase == Active
    && forall j :: 0 <= j < i ==> !(hist[j].Obj? && hist[j].uid == hist[i].uid && hist[j].phase == Active)
  }

  ghost predicate ProcFits<E, S, T>(code: Code<E, S, T>, hist: seq<Stored<S>>, q: Proc<E, S, T>) {
    var l := q.local;
    && l.rv < |hist| && hist[l.rv] == Obj(q.uid, l.stored, q.spec)
    && l.work == code.plan(q.env, q.spec)
    && (q.entered || l.pc.PutCreating? ==> code.valid(q.env, q.spec))
    && (q.entered ==> Reached(hist, q.uid, Creating))
    && (match l.pc
        case PutCreating => l.stored == None && l.mem == Creating && !q.entered && l.oks == []
        case Working => l.stored == Creating && l.mem == Creating && q.entered && |l.oks| < |l.work.tasks|
        case PutActive => l.stored == Creating && l.mem == Active && q.entered && Completed(l)
        case PutFailed => l.mem == Failed
        case Idle => l.mem == Active || l.mem == Failed)
    && (l.pc.Working? ==> GoodSoFar(l))
    && (l.pc.Idle? && l.mem == Active ==> Reached(hist, q.uid, Active))
  }

  ghost predicate AllFit<E, S, T>(code: Code<E, S, T>, hist: seq<Stored<S>>, procs: seq<Proc<E, S, T>>) {
    forall p :: 0 <= p < |procs| ==> ProcFits(code, hist, procs[p])
  }

  ghost predicate OneEntered<E, S, T>(procs: seq<Proc<E, S, T>>) {
    forall p, q :: 0 <= p < |procs| && 0 <= q < |procs| && procs[p].uid == procs[q].uid ==>
      procs[p].entered && procs[q].entered ==> p == q
  }

  /** This process worked through its plan for this specification of the object. */
  ghost predicate Made<E, S, T>(q: Proc<E, S, T>, uid: nat, spec: S) {
    q.uid == uid && q.spec == spec && q.entered && Completed(q.local)
  }

  ghost predicate SomeoneMade<E, S, T>(procs: seq<Proc<E, S, T>>, uid: nat, spec: S) {
    exists p :: 0 <= p < |procs| && Made(procs[p], uid, spec)
  }

  ghost predicate ActiveIsMade<E, S, T>(s: Sys<E, S, T>) {
    forall i: nat :: FirstActive(s.hist, i) ==> SomeoneMade(s.procs, s.hist[i].uid, s.hist[i].spec)
  }

  ghost predicate Inv<E, S, T>(code: Code<E, S, T>, s: Sys<E, S, T>) {
    && |s.hist| > 0
    && Rising(s.hist)
    && AllFit(code, s.hist, s.procs)
    && OneEntered(s.procs)
    && ActiveIsMade(s)
  }

  lemma LongerHistoryFits<E, S, T>(code: Code<E, S, T>, hist: seq<Stored<S>>, v: Stored<S>, q: Proc<E, S, T>)
    requires ProcFits(code, hist, q)
    ensures ProcFits(code, hist + [v], q)
  {
    var hist' := hist + [v];
    forall phase | Reached(hist, q.uid, phase)
      ensures Reached(hist', q.uid, phase)
    {
      var i :| 0 <= i < |hist| && hist[i].Obj? && hist[i].uid == q.uid && hist[i].phase == phase;
      assert hist'[i] == hist[i];
    }
  }

  lemma LongerHistoryFitsAll<E, S, T>(code: Code<E, S, T>, hist: seq<Stored<S>>, v: Stored<S>, 
                                      procs: seq<Proc<E, S, T>>)
    requires AllFit(code, hist, procs)
    ensures AllFit(code, hist + [v], procs)
  {
    forall p | 0 <= p < |procs|
      ensures ProcFits(code, hist + [v], procs[p])
    {
      LongerHistoryFits(code, hist, v, procs[p]);
    }
  }

  /** Appending a version of the living object with no lower phase, a deletion, or a new uid. */
  lemma AppendKeepsRising<S>(hist: seq<Stored<S>>, v: Stored<S>)
    requires |hist| > 0 && Rising(hist)
    requires var last := hist[|hist| - 1];
             || v.Gone?
             || (last.Obj? && last.uid == v.uid && Rank(last.phase) <= Rank(v.phase))
             || (last.Gone? && forall i :: 0 <= i < |hist| ==> hist[i].Gone? || hist[i].uid != v.uid)
    ensures Rising(hist + [v])
  {
    var hist', n := hist + [v], |hist|;
    var last := hist[n - 1];
    assert forall i :: 0 <= i < n ==> hist'[i] == hist[i];
    forall i | 0 <= i < n && hist[i].Obj? && v.Obj? && hist[i].uid == v.uid
      ensures last.Obj? && last.uid == v.uid && Rank(hist[i].phase) <= Rank(v.phase)
    {
      assert Rank(hist[i].phase) <= Rank(last.phase);
    }
  }

  /** A longer history has no first Active versions beside the old ones, but for the last. */
  lemma FirstActiveOfLonger<S>(hist: seq<Stored<S>>, v: Stored<S>, i: nat)
    requires FirstActive(hist + [v], i)
    ensures if i < |hist| then FirstActive(hist, i) && (hist + [v])[i] == hist[i]
            else i == |hist| && v.Obj? && v.phase == Active
    ensures i == |hist| > 0 && hist[i - 1].Obj? && hist[i - 1].uid == v.uid ==> hist[i - 1].phase != Active
  {
    assert forall j :: 0 <= j < |hist| ==> (hist + [v])[j] == hist[j];
  }

  /** Whoever made an object has made it, also in a later state of the same processes. */
  lemma MadeKept<E, S, T>(procs: seq<Proc<E, S, T>>, procs': seq<Proc<E, S, T>>, uid: nat, spec: S)
    requires SomeoneMade(procs, uid, spec) && |procs| <= |procs'|
    requires forall p :: 0 <= p < |procs| && Made(procs[p], uid, spec) ==> Made(procs'[p], uid, spec)
    ensures SomeoneMade(procs', uid, spec)
  {
    var p :| 0 <= p < |procs| && Made(procs[p], uid, spec);
    assert Made(procs'[p], uid, spec);
  }

  lemma ClientKeepsInv<E, S, T>(code: Code<E, S, T>, s: Sys<E, S, T>, v: Stored<S>)
    requires Inv(code, s) && ClientMay(s.hist, v)
    ensures Inv(code, s.(hist := s.hist + [v]))
  {
    AppendKeepsRising(s.hist, v);
    LongerHistoryFitsAll(code, s.hist, v, s.procs);
    forall i: nat | FirstActive(s.hist + [v], i)
      ensures SomeoneMade(s.procs, (s.hist + [v])[i].uid, (s.hist + [v])[i].spec)
    {
      FirstActiveOfLonger(s.hist, v, i);
    }
  }

  lemma SpawnKeepsInv<E, S, T>(code: Code<E, S, T>, s: Sys<E, S, T>, rv: nat, env: E)
    requires Inv(code, s) && rv < |s.hist| && s.hist[rv].Obj?
    ensures Inv(code, Next(code, s, Spawn(rv, env)))
  {
    var q := Spawned(code, s.hist, rv, env);
    var procs' := s.procs + [q];
    assert ProcFits(code, s.hist, q);
    assert AllFit(code, s.hist, procs');
    forall i: nat | FirstActive(s.hist, i)
      ensures SomeoneMade(procs', s.hist[i].uid, s.hist[i].spec)
    {
      MadeKept(s.procs, procs', s.hist[i].uid, s.hist[i].spec);
    }
  }

  /** A process that goes on without storing anything. */
  lemma QuietStepKeepsInv<E, S, T>(code: Code<E, S, T>, s: Sys<E, S, T>, p: nat, q: Proc<E, S, T>)
    requires Inv(code, s) && p < |s.procs|
    requires q.uid == s.procs[p].uid && q.spec == s.procs[p].spec && q.entered == s.procs[p].entered
    requires ProcFits(code, s.hist, q)
    requires Completed(s.procs[p].local) ==> Completed(q.local)
    ensures Inv(code, s.(procs := s.procs[p := q]))
  {
    var procs' := s.procs[p := q];
    assert AllFit(code, s.hist, procs');
    forall i: nat | FirstActive(s.hist, i)
      ensures SomeoneMade(procs', s.hist[i].uid, s.hist[i].spec)
    {
      MadeKept(s.procs, procs', s.hist[i].uid, s.hist[i].spec);
    }
  }

  ghost predicate Untouched<S>(hist: seq<Stored<S>>, uid: nat) {
    |hist| > 0 && hist[|hist| - 1].Obj? && hist[|hist| - 1].uid == uid && hist[|hist| - 1].phase == None
  }

  /** While the latest version is still in phase None, nobody has entered for its object. */
  lemma WinnerEntersAlone<E, S, T>(code: Code<E, S, T>, s: Sys<E, S, T>, p: nat, q: Proc<E, S, T>)
    requires Rising(s.hist) && AllFit(code, s.hist, s.procs) && OneEntered(s.procs)
    requires p < |s.procs| && q.uid == s.procs[p].uid
    requires q.entered && !s.procs[p].entered ==> Untouched(s.hist, q.uid)
    ensures OneEntered(s.procs[p := q])
  {
    if q.entered && !s.procs[p].entered {
      forall r | 0 <= r < |s.procs| && s.procs[r].uid == q.uid
        ensures !s.procs[r].entered
      {
        assert ProcFits(code, s.hist, s.procs[r]);
      }
    }
  }

  lemma WinnerMade<E, S, T>(s: Sys<E, S, T>, p: nat, q: Proc<E, S, T>, v: Stored<S>)
    requires ActiveIsMade(s) && p < |s.procs| && q.uid == s.procs[p].uid && q.spec == s.procs[p].spec
    requires Completed(s.procs[p].local) && s.procs[p].entered ==> q.entered && Completed(q.local)
    requires v.Obj? && v.uid == q.uid && (v.phase == Active ==> Made(q, v.uid, v.spec))
    ensures ActiveIsMade(Sys(s.hist + [v], s.procs[p := q]))
  {
    var hist', procs' := s.hist + [v], s.procs[p := q];
    forall i: nat | FirstActive(hist', i)
      ensures SomeoneMade(procs', hist'[i].uid, hist'[i].spec)
    {
      FirstActiveOfLonger(s.hist, v, i);
      if i < |s.hist| {
        MadeKept(s.procs, procs', s.hist[i].uid, s.hist[i].spec);
      } else {
        assert procs'[p] == q;
      }
    }
  }

  /** A process that wins a PUT: the new version, and the process as it is afterwards. */
  lemma WinningPutKeepsInv<E, S, T>(code: Code<E, S, T>, s: Sys<E, S, T>, p: nat, q: Proc<E, S, T>, v: Stored<S>)
    requires Inv(code, s) && p < |s.procs| && q.uid == s.procs[p].uid && q.spec == s.procs[p].spec
    requires Rising(s.hist + [v]) && ProcFits(code, s.hist + [v], q)
    requires q.entered && !s.procs[p].entered ==> Untouched(s.hist, q.uid)
    requires Completed(s.procs[p].local) && s.procs[p].entered ==> q.entered && Completed(q.local)
    requires v.Obj? && v.uid == q.uid && (v.phase == Active ==> Made(q, v.uid, v.spec))
    ensures Inv(code, Sys(s.hist + [v], s.procs[p := q]))
  {
    LongerHistoryFitsAll(code, s.hist, v, s.procs);
    WinnerEntersAlone(code, s, p, q);
    WinnerMade(s, p, q, v);
  }

  lemma PutKeepsInv<E, S, T>(code: Code<E, S, T>, s: Sys<E, S, T>, p: nat, effect: Effect)
    requires Inv(code, s) && p < |s.procs| && s.procs[p].local.pc in {PutCreating, PutActive, PutFailed}
    ensures Inv(code, Advanced(s, p, effect))
  {
    var q := s.procs[p];
    var l := q.local;
    assert ProcFits(code, s.hist, q);
    if !effect.NotApplied? && l.rv == |s.hist| - 1 {
      var v := Obj(q.uid, l.mem, q.spec);
      var a := if effect.Applied? then Yes(|s.hist|) else No;
      var q' := q.(local := React(l, a), entered := q.entered || (l.pc.PutCreating? && a.Yes?));
      AppendKeepsRising(s.hist, v);
      LongerHistoryFits(code, s.hist, v, q);
      assert (s.hist + [v])[|s.hist|] == v;
      assert Reached(s.hist + [v], q.uid, l.mem);
      assert ProcFits(code, s.hist + [v], q');
      WinningPutKeepsInv(code, s, p, q', v);
    } else {
      var q' := q.(local := React(l, No));
      assert Advanced(s, p, effect) == s.(procs := s.procs[p := q']);
      QuietStepKeepsInv(code, s, p, q');
    }
  }

  lemma NextKeepsInv<E, S, T>(code: Code<E, S, T>, s: Sys<E, S, T>, act: Act<E, S>)
    requires Inv(code, s)
    ensures Inv(code, Next(code, s, act))
  {
    match act
    case Client(v) =>
      if ClientMay(s.hist, v) {
        ClientKeepsInv(code, s, v);
      }
    case Spawn(rv, env) =>
      if rv < |s.hist| && s.hist[rv].Obj? {
        SpawnKeepsInv(code, s, rv, env);
      }
    case Advance(p, effect) =>
      if p < |s.procs| {
        var l := s.procs[p].local;
        if l.pc.Working? {
          QuietStepKeepsInv(code, s, p, s.procs[p].(local := React(l, if effect.Applied? then Yes(0) else No)));
        } else if !l.pc.Idle? {
          PutKeepsInv(code, s, p, effect);
        }
      }
  }

  lemma {:induction false} RunKeepsInv<E, S, T>(code: Code<E, S, T>, s: Sys<E, S, T>, acts: seq<Act<E, S>>)
    requires Inv(code, s)
    ensures Inv(code, Run(code, s, acts))
    decreases |acts|
  {
    if acts != [] {
      NextKeepsInv(code, s, acts[0]);
      RunKeepsInv(code, Next(code, s, acts[0]), acts[1..]);
    }
  }

  lemma EveryRunKeepsInv<E, S, T>(code: Code<E, S, T>, acts: seq<Act<E, S>>)
    ensures Inv(code, Run(code, Start<E, S, T>(), acts))
  {
    var s := Start<E, S, T>();
    assert forall i: nat :: !FirstActive(s.hist, i);
    assert Inv(code, s);
    RunKeepsInv(code, s, acts);
  }

  /** Over any run of crashes, restarts, lost replies, edits and racing controllers, at most
      one process ever calls internalCreate for an object. */
  lemma CreatedAtMostOnce<E, S, T>(code: Code<E, S, T>, acts: seq<Act<E, S>>, p: nat, q: nat)
    requires var s := Run(code, Start<E, S, T>(), acts);
             && p < |s.procs| && q < |s.procs| && s.procs[p].uid == s.procs[q].uid
             && s.procs[p].entered && s.procs[q].entered
    ensures p == q
  {
    EveryRunKeepsInv(code, acts);
  }

  /** The stored phase of an object never falls, between any two versions of any run. */
  lemma StoredPhaseNeverFalls<E, S, T>(code: Code<E, S, T>, acts: seq<Act<E, S>>, i: nat, j: nat)
    requires var hist := Run(code, Start<E, S, T>(), acts).hist;
             i <= j < |hist| && hist[i].Obj? && hist[j].Obj? && hist[i].uid == hist[j].uid
    ensures var hist := Run(code, Start<E, S, T>(), acts).hist;
            Rank(hist[i].phase) <= Rank(hist[j].phase)
  {
    EveryRunKeepsInv(code, acts);
  }

  /** Before or at any Active version is the one that made the object Active. */
  lemma {:induction false} FirstActiveBefore<S>(hist: seq<Stored<S>>, i: nat) returns (j: nat)
    requires i < |hist| && hist[i].Obj? && hist[i].phase == Active
    ensures j <= i && FirstActive(hist, j) && hist[j].uid == hist[i].uid
  {
    if FirstActive(hist, i) {
      j := i;
    } else {
      var k :| 0 <= k < i && hist[k].Obj? && hist[k].uid == hist[i].uid && hist[k].phase == Active;
      j := FirstActiveBefore(hist, k);
    }
  }

  /** This process read the specification that the version carries, found it valid, and worked
      through the plan that the code makes for it, every task succeeding except those whose
      error the code drops. */
  ghost predicate MadeBy<E, S, T>(code: Code<E, S, T>, q: Proc<E, S, T>, v: Stored<S>)
    requires v.Obj?
  {
    && Made(q, v.uid, v.spec)
    && code.valid(q.env, v.spec) && q.local.work == code.plan(q.env, v.spec)
  }

  /** A version that is Active goes back to one that first was, and that one carries exactly
      the specification for which a process had then worked through its plan. */
  lemma StoredActiveMeansMade<E, S, T>(code: Code<E, S, T>, acts: seq<Act<E, S>>, i: nat)
    requires var s := Run(code, Start<E, S, T>(), acts); i < |s.hist| && s.hist[i].Obj? && s.hist[i].phase == Active
    ensures var s := Run(code, Start<E, S, T>(), acts);
            exists j: nat, p :: j <= i && FirstActive(s.hist, j) && s.hist[j].uid == s.hist[i].uid
                           && 0 <= p < |s.procs| && MadeBy(code, s.procs[p], s.hist[j])
  {
    EveryRunKeepsInv(code, acts);
    var s := Run(code, Start<E, S, T>(), acts);
    var j := FirstActiveBefore(s.hist, i);
    var p :| 0 <= p < |s.procs| && Made(s.procs[p], s.hist[j].uid, s.hist[j].spec);
    assert ProcFits(code, s.hist, s.procs[p]);
    assert MadeBy(code, s.procs[p], s.hist[j]);
  }

  /** New returns a runtime whose in-memory phase is Active only for an object whose Active
      phase was stored: an app controller never starts for a space that is not set up. */
  lemma MemoryActiveMeansMade<E, S, T>(code: Code<E, S, T>, acts: seq<Act<E, S>>, p: nat)
    requires var s := Run(code, Start<E, S, T>(), acts);
             p < |s.procs| && s.procs[p].local.pc == Idle && s.procs[p].local.mem == Active
    ensures var s := Run(code, Start<E, S, T>(), acts);
            exists j: nat, q :: FirstActive(s.hist, j) && s.hist[j].uid == s.procs[p].uid
                           && 0 <= q < |s.procs| && MadeBy(code, s.procs[q], s.hist[j])
  {
    EveryRunKeepsInv(code, acts);
    var s := Run(code, Start<E, S, T>(), acts);
    assert ProcFits(code, s.hist, s.procs[p]);
    var i :| 0 <= i < |s.hist| && s.hist[i].Obj? && s.hist[i].uid == s.procs[p].uid && s.hist[i].phase == Active;
    StoredActiveMeansMade(code, acts, i);
  }

  // ----- one process alone ------------------------------------------------------------------

  lemma {:induction false} RunConcat<E, S, T>(code: Code<E, S, T>, s: Sys<E, S, T>, a: seq<Act<E, S>>,
                                              b: seq<Act<E, S>>)
    requires |s.hist| > 0
    ensures Run(code, s, a + b) == Run(code, Run(code, s, a), b)
    decreases |a|
  {
    if a == [] {
      assert a + b == b;
    } else {
      assert (a + b)[0] == a[0] && (a + b)[1..] == a[1..] + b;
      RunConcat(code, Next(code, s, a[0]), a[1..], b);
    }
  }

  function Advances<E, S>(effects: seq<Effect>): seq<Act<E, S>> {
    seq(|effects|, i requires 0 <= i < |effects| => Advance(0, effects[i]))
  }

  function Oks(effects: seq<Effect>): seq<bool> {
    seq(|effects|, i requires 0 <= i < |effects| => effects[i].Applied?)
  }

  lemma OneMoreStep<E, S>(oks: seq<bool>, effects: seq<Effect>)
    requires effects != []
    ensures Advances<E, S>(effects) != []
    ensures Advances<E, S>(effects)[0] == Advance(0, effects[0])
    ensures Advances<E, S>(effects)[1..] == Advances<E, S>(effects[1..])
    ensures oks + [effects[0].Applied?] + Oks(effects[1..]) == oks + Oks(effects)
  {
  }

  lemma NoMoreSteps<E, S>(oks: seq<bool>)
    ensures Advances<E, S>([]) == [] && oks + Oks([]) == oks
  {
  }

  /** Every task succeeds or may fail. */
  ghost predicate Tolerated<T>(tasks: seq<Task<T>>, effects: seq<Effect>) {
    |effects| == |tasks| && forall k :: 0 <= k < |tasks| ==> effects[k].Applied? || tasks[k].mayFail
  }

  lemma {:induction false} WorkAlone<E, S, T>(code: Code<E, S, T>, s: Sys<E, S, T>, l: Local<T>, effects: seq<Effect>)
    requires |s.hist| > 0 && |s.procs| == 1 && s.procs[0].local == Proceed(l)
    requires |l.oks| <= |l.work.tasks| && Tolerated(l.work.tasks[|l.oks|..], effects)
    ensures Run(code, s, Advances(effects))
         == s.(procs := [s.procs[0].(local := l.(oks := l.oks + Oks(effects), mem := Active, pc := PutActive))])
    decreases |effects|
  {
    hide Advances, Oks;
    if effects == [] {
      NoMoreSteps<E, S>(l.oks);
    } else {
      var e, rest := effects[0], effects[1..];
      var l' := l.(oks := l.oks + [e.Applied?]);
      OneMoreStep<E, S>(l.oks, effects);
      assert l.work.tasks[|l.oks|] == l.work.tasks[|l.oks|..][0];
      assert l'.work.tasks[|l'.oks|..] == l.work.tasks[|l.oks|..][1..];
      var acts, s' := Advances<E, S>(effects), Next(code, s, Advance(0, e));
      assert Run(code, s, acts) == Run(code, s', acts[1..]);
      assert s' == s.(procs := [s.procs[0].(local := Proceed(l'))]);
      WorkAlone(code, s', l', rest);
    }
  }

  /** An object is created, one process picks it up, and nothing disturbs it. */
  function Alone<E, S>(env: E, spec: S, effects: seq<Effect>): seq<Act<E, S>> {
    [Client(Obj(0, None, spec)), Spawn(1, env), Advance(0, Applied)] + Advances(effects) + [Advance(0, Applied)]
  }

  lemma AloneBegins<E, S, T>(code: Code<E, S, T>, env: E, spec: S)
    requires code.valid(env, spec)
    ensures var begin: seq<Act<E, S>> := [Client(Obj(0, None, spec)), Spawn(1, env), Advance(0, Applied)];
            var l := Local(2, Creating, Creating, Working, code.plan(env, spec), []);
            Run(code, Start<E, S, T>(), begin)
            == Sys([Gone, Obj(0, None, spec), Obj(0, Creating, spec)],
                   [Proc(0, env, spec, if l.work.generates then Proceed(l) else l.(mem := Failed, pc := PutFailed),
                         true)])
  {
    var begin: seq<Act<E, S>> := [Client(Obj(0, None, spec)), Spawn(1, env), Advance(0, Applied)];
    var s1 := Next(code, Start<E, S, T>(), begin[0]);
    var s2 := Next(code, s1, begin[1]);
    var s3 := Next(code, s2, begin[2]);
    assert begin[1..] == [begin[1], begin[2]] && begin[1..][1..] == [begin[2]] && begin[1..][1..][1..] == [];
    assert Run(code, s2, [begin[2]]) == s3;
    assert Run(code, s1, begin[1..]) == s3;
  }

  /** Left alone, a process stores Active for every valid specification whose resources can be
      generated, whichever of the tasks that may fail do. */
  lemma AloneStoresActive<E, S, T>(code: Code<E, S, T>, env: E, spec: S, effects: seq<Effect>)
    requires code.valid(env, spec) && code.plan(env, spec).generates && Tolerated(code.plan(env, spec).tasks, effects)
    ensures var s, work := Run(code, Start<E, S, T>(), Alone(env, spec, effects)), code.plan(env, spec);
            && s.hist == [Gone, Obj(0, None, spec), Obj(0, Creating, spec), Obj(0, Active, spec)]
            && s.procs == [Proc(0, env, spec, Local(3, Active, Active, Idle, work, Oks(effects)), true)]
  {
    var work := code.plan(env, spec);
    var begin: seq<Act<E, S>> := [Client(Obj(0, None, spec)), Spawn(1, env), Advance(0, Applied)];
    var finish: seq<Act<E, S>> := [Advance(0, Applied)];
    var s0, s3 := Start<E, S, T>(), Run(code, Start<E, S, T>(), begin);
    var l := Local(2, Creating, Creating, Working, work, []);
    AloneBegins(code, env, spec);
    assert work.tasks[0..] == work.tasks;
    WorkAlone(code, s3, l, effects);
    RunConcat(code, s0, begin, Advances(effects));
    RunConcat(code, s0, begin + Advances(effects), finish);
    var s4 := Run(code, s3, Advances(effects));
    assert [] + Oks(effects) == Oks(effects);
    assert Run(code, s4, finish) == Next(code, s4, finish[0]);
  }

  // ----- what is left of a creation that fails -----------------------------------------------------

  /** The requests up to and including one that fails and may not. */
  ghost predicate FailsLast<T>(tasks: seq<Task<T>>, effects: seq<Effect>) {
    var k := |effects| - 1;
    && 0 <= k < |tasks| && Tolerated(tasks[..k], effects[..k]) && !effects[k].Applied? && !tasks[k].mayFail
  }

  lemma {:induction false} WorkFailsAlone<E, S, T>(code: Code<E, S, T>, s: Sys<E, S, T>, l: Local<T>,
                                                   effects: seq<Effect>)
    requires |s.hist| > 0 && |s.procs| == 1 && s.procs[0].local == Proceed(l) && l.mem == Creating
    requires |l.oks| <= |l.work.tasks| && FailsLast(l.work.tasks[|l.oks|..], effects)
    ensures Run(code, s, Advances(effects))
         == s.(procs := [s.procs[0].(local := l.(oks := l.oks + Oks(effects), mem := Failed, pc := PutFailed))])
    decreases |effects|
  {
    hide Advances, Oks;
    var e, rest, tasks := effects[0], effects[1..], l.work.tasks[|l.oks|..];
    var k := |effects| - 1;
    var l' := l.(oks := l.oks + [e.Applied?]);
    OneMoreStep<E, S>(l.oks, effects);
    assert l.work.tasks[|l.oks|] == tasks[0];
    var acts, s' := Advances<E, S>(effects), Next(code, s, Advance(0, e));
    assert Run(code, s, acts) == Run(code, s', acts[1..]);
    if k == 0 {
      NoMoreSteps<E, S>(l'.oks);
      assert rest == [];
      assert s' == s.(procs := [s.procs[0].(local := l'.(mem := Failed, pc := PutFailed))]);
    } else {
      assert effects[..k][0] == e && tasks[..k][0] == tasks[0];
      assert s' == s.(procs := [s.procs[0].(local := Proceed(l'))]);
      assert l'.work.tasks[|l'.oks|..] == tasks[1..];
      assert tasks[1..][..k - 1] == tasks[..k][1..] && rest[..k - 1] == effects[..k][1..];
      WorkFailsAlone(code, s', l', rest);
    }
  }

  /** Left alone, a process one of whose tasks fails stores Failed, having made no request after
      that task but the one that says so. */
  lemma AloneStoresFailed<E, S, T>(code: Code<E, S, T>, env: E, spec: S, effects: seq<Effect>)
    requires code.valid(env, spec) && code.plan(env, spec).generates && FailsLast(code.plan(env, spec).tasks, effects)
    ensures var s, work := Run(code, Start<E, S, T>(), Alone(env, spec, effects)), code.plan(env, spec);
            && s.hist == [Gone, Obj(0, None, spec), Obj(0, Creating, spec), Obj(0, Failed, spec)]
            && s.procs == [Proc(0, env, spec, Local(3, Failed, Failed, Idle, work, Oks(effects)), true)]
  {
    var work := code.plan(env, spec);
    var begin: seq<Act<E, S>> := [Client(Obj(0, None, spec)), Spawn(1, env), Advance(0, Applied)];
    var finish: seq<Act<E, S>> := [Advance(0, Applied)];
    var s0, s3 := Start<E, S, T>(), Run(code, Start<E, S, T>(), begin);
    var l := Local(2, Creating, Creating, Working, work, []);
    AloneBegins(code, env, spec);
    assert work.tasks[0..] == work.tasks;
    WorkFailsAlone(code, s3, l, effects);
    RunConcat(code, s0, begin, Advances(effects));
    RunConcat(code, s0, begin + Advances(effects), finish);
    var s4 := Run(code, s3, Advances(effects));
    assert [] + Oks(effects) == Oks(effects);
    assert Run(code, s4, finish) == Next(code, s4, finish[0]);
  }

  /** Where nothing can be generated, Failed follows Creating. */
  lemma UngeneratedStoresFailed<E, S, T>(code: Code<E, S, T>, env: E, spec: S)
    requires code.valid(env, spec) && !code.plan(env, spec).generates
    ensures Run(code, Start<E, S, T>(), Alone(env, spec, [])).hist
         == [Gone, Obj(0, None, spec), Obj(0, Creating, spec), Obj(0, Failed, spec)]
  {
    var begin: seq<Act<E, S>> := [Client(Obj(0, None, spec)), Spawn(1, env), Advance(0, Applied)];
    var finish: seq<Act<E, S>> := [Advance(0, Applied)];
    AloneBegins(code, env, spec);
    assert Alone(env, spec, []) == begin + finish by {
      assert Advances<E, S>([]) == [];
    }
    RunConcat(code, Start<E, S, T>(), begin, finish);
    var s3 := Run(code, Start<E, S, T>(), begin);
    assert Run(code, s3, finish) == Next(code, s3, finish[0]);
  }

  /** A process that finds an object in phase Creating, left there by one that crashed, or with
      an invalid specification, stores Failed as soon as it is let, whatever happened before. */
  lemma UnfinishedIsFailed<E, S, T>(code: Code<E, S, T>, s: Sys<E, S, T>, env: E)
    requires |s.hist| > 0 && s.hist[|s.hist| - 1].Obj? && s.hist[|s.hist| - 1].phase != Failed
    requires var o := s.hist[|s.hist| - 1]; o.phase == Creating || !code.valid(env, o.spec)
    ensures var o, acts := s.hist[|s.hist| - 1], [Spawn(|s.hist| - 1, env), Advance(|s.procs|, Applied)];
            Run(code, s, acts).hist == s.hist + [o.(phase := Failed)]
  {
    var acts: seq<Act<E, S>> := [Spawn(|s.hist| - 1, env), Advance(|s.procs|, Applied)];
    var s1 := Next(code, s, acts[0]);
    var s2 := Next(code, s1, acts[1]);
    assert acts[1..] == [acts[1]] && acts[1..][1..] == [];
    assert Run(code, s1, acts[1..]) == s2;
  }
}

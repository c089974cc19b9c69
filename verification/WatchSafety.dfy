/** What the watch loop keeps over every run: the life of each managed item, and agreement
    with a well-behaved API server. */
module WatchSafety {
  import opened ServerHistory
  import opened WatchSpec

  // ----- the life of a managed item (any environment) ---------------------------------

  predicate Open(calls: seq<Call>) {
    |calls| >= 1 && calls[0] == Init && forall i :: 1 <= i < |calls| ==> calls[i] == Update
  }

  predicate Ended(calls: seq<Call>, last: Call) {
    && |calls| >= 2 && calls[0] == Init && calls[|calls| - 1] == last
    && forall i :: 1 <= i < |calls| - 1 ==> calls[i] == Update
  }

  ghost predicate Coherent(reg: Registry) {
    && (forall n :: n in reg.items ==> reg.items[n].name == n && reg.items[n].id < |reg.calls|)
    && (forall n, m :: n in reg.items && m in reg.items && reg.items[n].id == reg.items[m].id ==> n == m)
  }

  function Held(reg: Registry): set<nat> {
    Ids(reg.items, reg.items.Keys)
  }

  /** Registered handles were initialised and then only updated, or have been stopped once
      the loop has exited; all other handles ended with their one Delete. */
  ghost predicate Lifecycles(reg: Registry, exited: bool) {
    && Coherent(reg)
    && forall id :: 0 <= id < |reg.calls| ==>
         if id !in Held(reg) then Ended(reg.calls[id], Delete)
         else if exited then Ended(reg.calls[id], Stop)
         else Open(reg.calls[id])
  }

  lemma AppendEnds(calls: seq<Call>, c: Call)
    requires Open(calls)
    ensures c == Update ==> Open(calls + [c])
    ensures Ended(calls + [c], c)
  {
  }

  lemma RegisterKeepsLifecycles(reg: Registry, name: string)
    requires Lifecycles(reg, false) && name !in reg.items
    ensures Lifecycles(Register(reg, name), false)
  {
    var reg' := Register(reg, name);
    forall id | id in Held(reg')
      ensures id in Held(reg) || id == |reg.calls|
    {
      var n :| n in reg'.items && reg'.items[n].id == id;
    }
    forall id | id in Held(reg) || id == |reg.calls|
      ensures id in Held(reg')
    {
      if id in Held(reg) {
        var n :| n in reg.items && reg.items[n].id == id;
        assert reg'.items[n].id == id;
      } else {
        assert reg'.items[name].id == id;
      }
    }
  }

  /** Telling Delete to the handles of some names and forgetting those names. */
  lemma DropKeepsLifecycles(reg: Registry, gone: set<string>)
    requires Lifecycles(reg, false) && gone <= reg.items.Keys
    ensures Lifecycles(reg.(items := reg.items - gone, calls := MarkAll(reg.calls, Ids(reg.items, gone), Delete)),
                       false)
  {
    var reg' := reg.(items := reg.items - gone, calls := MarkAll(reg.calls, Ids(reg.items, gone), Delete));
    assert Coherent(reg');
    forall id | 0 <= id < |reg.calls|
      ensures if id !in Held(reg') then Ended(reg'.calls[id], Delete) else Open(reg'.calls[id])
    {
      if id in Ids(reg.items, gone) {
        var n :| n in gone && reg.items[n].id == id;
        AppendEnds(reg.calls[id], Delete);
        assert id !in Held(reg');
      } else if id in Held(reg) {
        var n :| n in reg.items && reg.items[n].id == id;
        assert n in reg'.items && id in Held(reg');
      } else {
        assert id !in Held(reg');
      }
    }
  }

  lemma AdmitKeepsLifecycles(reg: Registry, names: seq<string>)
    requires Lifecycles(reg, false)
    ensures Lifecycles(Admit(reg, names), false)
    decreases |names|
  {
    if names != [] {
      if names[0] in reg.items {
        AdmitKeepsLifecycles(reg, names[1..]);
      } else {
        RegisterKeepsLifecycles(reg, names[0]);
        AdmitKeepsLifecycles(Register(reg, names[0]), names[1..]);
      }
    }
  }

  lemma HandlingKeepsLifecycles(reg: Registry, kind: EventKind, name: string)
    requires Lifecycles(reg, false) && HandleEvent(reg, kind, name).Done?
    ensures Lifecycles(HandleEvent(reg, kind, name).reg, false)
  {
    match kind
    case EvAdded => RegisterKeepsLifecycles(reg, name);
    case EvDeleted => DropKeepsLifecycles(reg, {name});
    case EvModified =>
      forall id | 0 <= id < |reg.calls| && id in Ids(reg.items, {name})
        ensures Open(reg.calls[id] + [Update])
      {
        assert id in Held(reg);
        AppendEnds(reg.calls[id], Update);
      }
    case EvOther =>
  }

  lemma HaltEndsLifecycles(reg: Registry, why: Exit)
    requires Lifecycles(reg, false)
    ensures Lifecycles(Halt(reg, why).reg, true)
  {
    forall id | 0 <= id < |reg.calls| && id in Held(reg)
      ensures Ended(reg.calls[id] + [Stop], Stop)
    {
      AppendEnds(reg.calls[id], Stop);
    }
  }

  lemma StepKeepsLifecycles(loop: Loop, m: Move)
    requires Lifecycles(loop.reg, loop.pc.Exited?)
    ensures Lifecycles(Step(loop, m).reg, Step(loop, m).pc.Exited?)
  {
    var loop' := Step(loop, m);
    if !loop.pc.Exited? {
      if loop'.pc.Exited? {
        var swept := if loop.pc.Opening? then Swept(loop.reg) else loop.reg;
        HaltEndsLifecycles(swept, loop'.pc.why);
      } else if loop.pc.Streaming? && m.chunk.Event? {
        HandlingKeepsLifecycles(loop.reg, m.chunk.kind, m.chunk.name);
      } else if loop.pc.Resync? && m.crd.CrdExists? && m.listing.Listed? {
        DropKeepsLifecycles(loop.reg, loop.reg.items.Keys - Elements(m.listing.names));
        AdmitKeepsLifecycles(Prune(loop.reg, Elements(m.listing.names)), m.listing.names);
      }
    }
  }

  lemma {:induction false} ExecKeepsLifecycles(loop: Loop, moves: seq<Move>)
    requires Lifecycles(loop.reg, loop.pc.Exited?)
    ensures Lifecycles(Exec(loop, moves).reg, Exec(loop, moves).pc.Exited?)
    decreases |moves|
  {
    if moves != [] {
      StepKeepsLifecycles(loop, moves[0]);
      ExecKeepsLifecycles(Step(loop, moves[0]), moves[1..]);
    }
  }

  /** However the server behaves: Init, then Updates, then at most one Delete or, on leaving
      Run, exactly one Stop on exactly the handles still registered. */
  lemma EveryRunKeepsLifecycles(moves: seq<Move>)
    ensures Lifecycles(Exec(START, moves).reg, Exec(START, moves).pc.Exited?)
  {
    ExecKeepsLifecycles(START, moves);
  }

  ghost predicate Grows(before: seq<seq<Call>>, after: seq<seq<Call>>) {
    |before| <= |after| && forall id :: 0 <= id < |before| ==> before[id] <= after[id]
  }

  lemma AdmitGrows(reg: Registry, names: seq<string>)
    ensures Grows(reg.calls, Admit(reg, names).calls)
    decreases |names|
  {
    if names != [] {
      AdmitGrows(if names[0] in reg.items then reg else Register(reg, names[0]), names[1..]);
    }
  }

  lemma {:induction false} CallsOnlyGrow(loop: Loop, moves: seq<Move>)
    ensures Grows(loop.reg.calls, Exec(loop, moves).reg.calls)
    decreases |moves|
  {
    if moves != [] {
      var m := moves[0];
      if loop.pc.Resync? && m.crd.CrdExists? && m.listing.Listed? {
        AdmitGrows(Prune(loop.reg, Elements(m.listing.names)), m.listing.names);
      }
      assert Grows(loop.reg.calls, Step(loop, m).reg.calls);
      CallsOnlyGrow(Step(loop, m), moves[1..]);
    }
  }

  /** A handle that has been deleted or stopped is never called again. */
  lemma NoCallAfterTheLast(moves: seq<Move>, more: seq<Move>, id: nat, last: Call)
    requires id < |Exec(START, moves).reg.calls|
    requires Ended(Exec(START, moves).reg.calls[id], last) && last in {Delete, Stop}
    ensures id < |Exec(START, moves + more).reg.calls|
    ensures Exec(START, moves + more).reg.calls[id] == Exec(START, moves).reg.calls[id]
  {
    var a, b := Exec(START, moves), Exec(START, moves + more);
    ExecConcat(START, moves, more);
    CallsOnlyGrow(a, more);
    EveryRunKeepsLifecycles(moves + more);
    var x, y := a.reg.calls[id], b.reg.calls[id];
    assert y[|x| - 1] == last;
  }

  // ----- agreement with a well-behaved server ----------------------------------------

  /** The loop together with the server: the log, where version "0" starts, where the open
      stream stands, the revision of the last resync, and the indices of the changes handed
      to handleEvent since. */
  datatype World = World(loop: Loop, log: seq<Change>, origin: nat, cursor: nat, base: nat, fed: seq<nat>)

  function StreamStart(w: World, v: Version): nat {
    match v
    case Empty => 0
    case Zero => w.origin
    case At(rev) => rev
  }

  function Seen(w: World): nat {
    w.base + |w.fed|
  }

  function Next(w: World, m: Move): World {
    var w' := w.(loop := Step(w.loop, m), log := w.log + m.grow);
    match w.loop.pc
    case Resync =>
      if m.crd.CrdCreated? then w'.(origin := |w'.log|, base := |w'.log|, fed := [])
      else if m.crd.CrdExists? && m.listing.Listed? then w'.(base := StreamStart(w, m.listing.rv), fed := [])
      else w'
    case Opening(v) => if m.open.OpenStream? then w'.(cursor := StreamStart(w, v)) else w'
    case Streaming(_) =>
      if m.chunk.Event? && !m.chunk.kind.EvOther?
      then w'.(cursor := w.cursor + 1, fed := w.fed + [w.cursor])
      else w'
    case Exited(_) => w'
  }

  function KindOf(c: Change): EventKind {
    match c
    case Added(_) => EvAdded
    case Modified(_) => EvModified
    case Deleted(_) => EvDeleted
  }

  function EventAt(log: seq<Change>, i: nat): Chunk
    requires i < |log|
  {
    Event(KindOf(log[i]), log[i].key.name, At(ObjectVersion(log, i)))
  }

  /** A well-behaved server: a list is the collection at its own revision, a stream sends the
      changes after the requested revision in order, and a bookmark carries the position of
      the stream. A definition that can just be created has no objects. Failures of every
      kind, closures and stop signals may come at any time. */
  ghost predicate Answers(w: World, m: Move) {
    var log := w.log + m.grow;
    match w.loop.pc
    case Resync =>
      && (m.crd.CrdCreated? ==> Live(log) == {})
      && (m.crd.CrdExists? && m.listing.Listed? ==>
            && m.listing.rv.At? && m.listing.rv.rev <= |log|
            && Elements(m.listing.names) == Names(Live(log[..m.listing.rv.rev])))
    case Opening(_) => true
    case Streaming(_) =>
      m.chunk.Event? ==>
        if m.chunk.kind.EvOther? then m.chunk.rv == At(w.cursor)
        else w.cursor < |log| && m.chunk == EventAt(log, w.cursor)
    case Exited(_) => true
  }

  ghost predicate GoodLog(log: seq<Change>) {
    Proper(log) && NeverShared(log)
  }

  ghost predicate WellBehaved(w: World, m: Move) {
    GoodLog(w.log + m.grow) && Answers(w, m)
  }

  /** The definition is created by this process only while nothing is registered. */
  predicate FreshOnlyWhenEmpty(w: World, m: Move) {
    w.loop.pc.Resync? && m.crd.CrdCreated? ==> w.loop.reg.items == map[]
  }

  ghost predicate Agrees(reg: Registry, log: seq<Change>, r: nat)
    requires r <= |log|
  {
    reg.items.Keys == Names(Live(log[..r]))
  }

  ghost predicate Contiguous(fed: seq<nat>, base: nat) {
    forall i :: 0 <= i < |fed| ==> fed[i] == base + i
  }

  ghost predicate Inv(w: World) {
    && w.origin <= |w.log| && Seen(w) <= |w.log|
    && Contiguous(w.fed, w.base)
    && Agrees(w.loop.reg, w.log, Seen(w))
    && (match w.loop.pc
        case Resync => true
        case Opening(v) => v != Empty && StreamStart(w, v) == Seen(w)
        case Streaming(next) => w.cursor == Seen(w) && (next == Empty || StreamStart(w, next) == Seen(w))
        case Exited(why) => why != Unsafe)
  }

  lemma PrefixKept(log: seq<Change>, grow: seq<Change>, r: nat)
    requires r <= |log|
    ensures (log + grow)[..r] == log[..r]
  {
  }

  /** Handing over the next change of the log: refused exactly when it makes two live
      objects share a name; otherwise the agreement moves on by one revision. */
  lemma DeliveryRefusedIffNamesCollide(reg: Registry, log: seq<Change>, i: nat)
    requires i < |log| && Proper(log)
    requires NamesDistinct(Live(log[..i])) && Agrees(reg, log, i)
    ensures HandleEvent(reg, KindOf(log[i]), log[i].key.name).Refused? <==> !NamesDistinct(Live(log[..i + 1]))
    ensures HandleEvent(reg, KindOf(log[i]), log[i].key.name).Done? ==>
              Agrees(HandleEvent(reg, KindOf(log[i]), log[i].key.name).reg, log, i + 1)
  {
    var k := log[i].key;
    var before, after := Live(log[..i]), Live(log[..i + 1]);
    LiveStep(log, i);
    match log[i] {
      case Added(_) =>
        assert k in after && k !in before;
        if k.name in reg.items {
          var l :| l in before && l.name == k.name;
          assert l in after && l != k;
        }
        assert Names(after) == Names(before) + {k.name};
      case Modified(_) =>
        assert k.name in Names(before);
      case Deleted(_) =>
        assert k.name in Names(before);
        assert Names(after) == Names(before) - {k.name};
    }
  }

  lemma AdmitKeys(reg: Registry, names: seq<string>)
    ensures Admit(reg, names).items.Keys == reg.items.Keys + Elements(names)
    decreases |names|
  {
    if names == [] {
      assert Elements(names) == {};
    } else {
      assert Elements(names) == {names[0]} + Elements(names[1..]);
      AdmitKeys(if names[0] in reg.items then reg else Register(reg, names[0]), names[1..]);
    }
  }

  lemma ReconcileKeys(reg: Registry, names: seq<string>)
    ensures Reconcile(reg, names).items.Keys == Elements(names)
  {
    AdmitKeys(Prune(reg, Elements(names)), names);
  }

  lemma AdmitSweeps(reg: Registry, names: seq<string>)
    ensures Admit(reg, names).sweeps == reg.sweeps
    decreases |names|
  {
    if names != [] {
      AdmitSweeps(if names[0] in reg.items then reg else Register(reg, names[0]), names[1..]);
    }
  }

  lemma StepSweeps(loop: Loop, m: Move)
    ensures Step(loop, m).reg.sweeps == if loop.pc.Opening? then Swept(loop.reg).sweeps else loop.reg.sweeps
  {
    if loop.pc.Resync? && m.crd.CrdExists? && m.listing.Listed? {
      AdmitSweeps(Prune(loop.reg, Elements(m.listing.names)), m.listing.names);
    }
  }

  lemma ListingKeepsInv(w: World, m: Move)
    requires Inv(w) && Answers(w, m) && w.loop.pc.Resync?
    requires m.crd.CrdExists? && m.listing.Listed?
    ensures Inv(Next(w, m))
  {
    ReconcileKeys(w.loop.reg, m.listing.names);
    var log, rev := w.log + m.grow, m.listing.rv.rev;
    assert Next(w, m) == World(Loop(Reconcile(w.loop.reg, m.listing.names), Opening(At(rev))),
                               log, w.origin, w.cursor, rev, []);
  }

  lemma CreationKeepsInv(w: World, m: Move)
    requires Inv(w) && Answers(w, m) && FreshOnlyWhenEmpty(w, m) && w.loop.pc.Resync?
    requires m.crd.CrdCreated?
    ensures Inv(Next(w, m))
  {
    var log := w.log + m.grow;
    assert log[..|log|] == log;
    assert Next(w, m) == World(Loop(w.loop.reg, Opening(Zero)), log, |log|, w.cursor, |log|, []);
  }

  lemma DeliveryKeepsInv(w: World, m: Move)
    requires Inv(w) && Answers(w, m) && w.loop.pc.Streaming?
    requires m.chunk.Event? && !m.chunk.kind.EvOther?
    requires var h := HandleEvent(w.loop.reg, m.chunk.kind, m.chunk.name);
             h.Done? && Agrees(h.reg, w.log + m.grow, w.cursor + 1)
    ensures Inv(Next(w, m))
  {
    assert Seen(Next(w, m)) == w.cursor + 1;
  }

  /** Moves that change neither the names registered nor what has been consumed. */
  lemma OtherMovesKeepInv(w: World, m: Move)
    requires Inv(w) && Answers(w, m)
    requires w.loop.pc.Resync? ==> m.crd.CrdFailed? || (m.crd.CrdExists? && m.listing.ListFailed?)
    requires w.loop.pc.Streaming? && m.chunk.Event? ==> m.chunk.kind.EvOther?
    ensures Inv(Next(w, m))
  {
    PrefixKept(w.log, m.grow, Seen(w));
    assert Agrees(w.loop.reg, w.log + m.grow, Seen(w));
    assert Step(w.loop, m).reg.items == w.loop.reg.items;
  }

  lemma NextKeepsInv(w: World, m: Move)
    requires Inv(w) && WellBehaved(w, m) && FreshOnlyWhenEmpty(w, m)
    ensures Inv(Next(w, m))
  {
    if w.loop.pc.Resync? && m.crd.CrdCreated? {
      CreationKeepsInv(w, m);
    } else if w.loop.pc.Resync? && m.crd.CrdExists? && m.listing.Listed? {
      ListingKeepsInv(w, m);
    } else if w.loop.pc.Streaming? && m.chunk.Event? && !m.chunk.kind.EvOther? {
      PrefixKept(w.log, m.grow, w.cursor);
      DeliveryRefusedIffNamesCollide(w.loop.reg, w.log + m.grow, w.cursor);
      DeliveryKeepsInv(w, m);
    } else {
      OtherMovesKeepInv(w, m);
    }
  }

  function RunWorld(w: World, moves: seq<Move>): World
    decreases |moves|
  {
    if moves == [] then w else RunWorld(Next(w, moves[0]), moves[1..])
  }

  ghost predicate Behaved(w: World, moves: seq<Move>)
    decreases |moves|
  {
    moves == [] ||
    (WellBehaved(w, moves[0]) && FreshOnlyWhenEmpty(w, moves[0]) && Behaved(Next(w, moves[0]), moves[1..]))
  }

  /** Before the first request: the collection may already have any proper history. */
  function Initially(log: seq<Change>): World {
    World(START, log, 0, 0, 0, [])
  }

  lemma {:induction false} RunKeepsInv(w: World, moves: seq<Move>)
    requires Inv(w) && Behaved(w, moves)
    ensures Inv(RunWorld(w, moves))
    ensures RunWorld(w, moves).loop == Exec(w.loop, moves)
    decreases |moves|
  {
    if moves != [] {
      NextKeepsInv(w, moves[0]);
      RunKeepsInv(Next(w, moves[0]), moves[1..]);
    }
  }

  /** For every interleaving of other clients' writes with lists, streams, closures, resumed
      and failed requests: itemMap holds exactly the names alive at the revision consumed so
      far; the changes consumed since the last resync are consecutive, with none skipped or
      repeated across resumed streams; and none of the "unsafe state" exits is taken. */
  lemma EveryRunAgrees(log: seq<Change>, moves: seq<Move>)
    requires Behaved(Initially(log), moves)
    ensures var w := RunWorld(Initially(log), moves);
            && w.loop == Exec(START, moves)
            && Seen(w) <= |w.log| && w.loop.reg.items.Keys == Names(Live(w.log[..Seen(w)]))
            && Contiguous(w.fed, w.base)
            && w.loop.pc != Exited(Unsafe)
  {
    assert Live(log[..0]) == {};
    RunKeepsInv(Initially(log), moves);
  }

  /** What the environment does, where the loop stands, to end Run. */
  predicate Ends(pc: Pc, m: Move) {
    (pc.Opening? && m.open != OpenStream) || (pc.Streaming? && m.chunk in {Broken, StatusObject, StopSignal})
  }

  lemma ExitsOnlyThere(w: World, m: Move)
    requires Inv(w) && WellBehaved(w, m) && FreshOnlyWhenEmpty(w, m) && !w.loop.pc.Exited?
    ensures Step(w.loop, m).pc.Exited? <==> Ends(w.loop.pc, m)
  {
    hide Reconcile, HandleEvent, MarkAll, Ids, Agrees, WellBehaved, Contiguous;
    NextKeepsInv(w, m);
  }

  lemma {:induction false} ExitStep(w: World, moves: seq<Move>) returns (i: nat)
    requires Inv(w) && Behaved(w, moves) && !w.loop.pc.Exited? && Exec(w.loop, moves).pc.Exited?
    ensures i < |moves|
    ensures !Exec(w.loop, moves[..i]).pc.Exited? && Ends(Exec(w.loop, moves[..i]).pc, moves[i])
    decreases |moves|
  {
    ExitsOnlyThere(w, moves[0]);
    if Ends(w.loop.pc, moves[0]) {
      i := 0;
    } else {
      NextKeepsInv(w, moves[0]);
      i := ExitStep(Next(w, moves[0]), moves[1..]);
      i := i + 1;
      assert moves[..i][1..] == moves[1..][..i - 1];
    }
  }

  /** Against a well-behaved server Run ends only for a cause, in the step at which it ends: a
      watch request that fails or is rejected, or, on an open stream, a broken stream, a status
      object or the stop signal. Failed lists, closed streams and soft restarts never end it. */
  lemma ExitsOnlyForCause(log: seq<Change>, moves: seq<Move>)
    requires Behaved(Initially(log), moves) && Exec(START, moves).pc.Exited?
    ensures exists i :: 0 <= i < |moves| && !Exec(START, moves[..i]).pc.Exited?
                        && Ends(Exec(START, moves[..i]).pc, moves[i])
  {
    assert Live(log[..0]) == {};
    var i := ExitStep(Initially(log), moves);
  }

  /** The step at which the i-th sweep ran: before the watch request was opened. */
  ghost predicate SweptAt(moves: seq<Move>, i: nat, j: nat) {
    && j < |moves| && Exec(START, moves[..j]).pc.Opening?
    && |Exec(START, moves[..j]).reg.sweeps| == i
  }

  lemma {:induction false} SweepStep(moves: seq<Move>, i: nat) returns (j: nat)
    requires i < |Exec(START, moves).reg.sweeps|
    ensures SweptAt(moves, i, j)
    ensures Exec(START, moves).reg.sweeps[i] == Exec(START, moves[..j]).reg.items.Keys
    decreases |moves|
  {
    assert Exec(START, []) == START;
    assert |moves| > 0 by {
      assert |moves| == 0 ==> moves == [];
    }
    var n := |moves| - 1;
    var before, last := moves[..n], moves[n];
    assert moves == before + [last];
    ExecConcat(START, before, [last]);
    assert Exec(Exec(START, before), [last]) == Step(Exec(START, before), last);
    StepSweeps(Exec(START, before), last);
    if i < |Exec(START, before).reg.sweeps| {
      j := SweepStep(before, i);
      assert before[..j] == moves[..j];
    } else {
      j := n;
    }
  }

  /** What has happened up to some step of a run is what the run up to there saw. */
  lemma {:induction false} RunSoFar(w: World, moves: seq<Move>, j: nat)
    requires Behaved(w, moves) && j <= |moves|
    ensures Behaved(w, moves[..j])
    ensures RunWorld(w, moves[..j]).log <= RunWorld(w, moves).log
    decreases |moves|
  {
    if j > 0 {
      assert moves[..j][1..] == moves[1..][..j - 1] && moves[..j][0] == moves[0];
      RunSoFar(Next(w, moves[0]), moves[1..], j - 1);
    } else if moves != [] {
      assert Next(w, moves[0]).log == w.log + moves[0].grow;
      RunSoFar(Next(w, moves[0]), moves[1..], 0);
      assert moves[1..][..0] == moves[..0] == [];
    }
  }

  /** Each time PeriodicTask ran, it was shown exactly the names alive at the revision that the
      loop had consumed at that very step. */
  lemma EverySweepSeesTheConsumedRevision(log: seq<Change>, moves: seq<Move>, i: nat)
    requires Behaved(Initially(log), moves) && i < |Exec(START, moves).reg.sweeps|
    ensures exists j: nat :: SweptAt(moves, i, j)
              && var w := RunWorld(Initially(log), moves[..j]);
                 && w.log <= RunWorld(Initially(log), moves).log && Seen(w) <= |w.log|
                 && Exec(START, moves).reg.sweeps[i] == Names(Live(w.log[..Seen(w)]))
  {
    var j := SweepStep(moves, i);
    RunSoFar(Initially(log), moves, j);
    EveryRunAgrees(log, moves[..j]);
  }

  /** The branch of resync that creates the definition does not reconcile, so it restores
      agreement with the (empty) collection exactly when nothing was registered. */
  lemma FreshDefinitionAgreesIffEmpty(w: World, m: Move)
    requires w.loop.pc.Resync? && m.crd.CrdCreated? && Live(w.log + m.grow) == {}
    ensures Agrees(Next(w, m).loop.reg, Next(w, m).log, Seen(Next(w, m))) <==> w.loop.reg.items == map[]
  {
    assert Next(w, m).log[..|Next(w, m).log|] == w.log + m.grow;
    assert w.loop.reg.items.Keys == {} <==> w.loop.reg.items == map[];
  }

  // ----- reconciliation against replay -----------------------------------------------

  /** Handing every change of log[a..b] to handleEvent. */
  function Feed(reg: Registry, log: seq<Change>, a: nat, b: nat): Handled
    requires a <= b <= |log|
    decreases b - a
  {
    if a == b then Done(reg)
    else
      match HandleEvent(reg, KindOf(log[a]), log[a].key.name)
      case Refused => Refused
      case Done(reg') => Feed(reg', log, a + 1, b)
  }

  ghost predicate DeletedWithin(log: seq<Change>, a: nat, b: nat, name: string)
    requires a <= b <= |log|
  {
    exists i :: a <= i < b && log[i].Deleted? && log[i].key.name == name
  }

  lemma {:induction false} FeedAgrees(reg: Registry, log: seq<Change>, a: nat, b: nat)
    requires a <= b <= |log| && Proper(log) && NeverShared(log) && Agrees(reg, log, a)
    ensures Feed(reg, log, a, b).Done? && Agrees(Feed(reg, log, a, b).reg, log, b)
    decreases b - a
  {
    if a < b {
      DeliveryRefusedIffNamesCollide(reg, log, a);
      FeedAgrees(HandleEvent(reg, KindOf(log[a]), log[a].key.name).reg, log, a + 1, b);
    }
  }

  /** From any agreement at revision a, reconciling with the list at revision b registers
      the same names as replaying every change in between. */
  lemma ReconcileRefinesReplay(reg: Registry, log: seq<Change>, a: nat, b: nat, names: seq<string>)
    requires a <= b <= |log| && Proper(log) && NeverShared(log) && Agrees(reg, log, a)
    requires Elements(names) == Names(Live(log[..b]))
    ensures Feed(reg, log, a, b).Done?
    ensures Reconcile(reg, names).items.Keys == Feed(reg, log, a, b).reg.items.Keys
  {
    FeedAgrees(reg, log, a, b);
    ReconcileKeys(reg, names);
  }

  ghost predicate Retains(before: Registry, after: Registry, name: string) {
    name in before.items && name in after.items && after.items[name] == before.items[name]
  }

  lemma AdmitRetains(reg: Registry, names: seq<string>, name: string)
    requires name in reg.items
    ensures Retains(reg, Admit(reg, names), name)
    decreases |names|
  {
    if names != [] {
      AdmitRetains(if names[0] in reg.items then reg else Register(reg, names[0]), names[1..], name);
    }
  }

  /** A name that is absent, or held by a handle newer than id, never gets handle id back. */
  lemma {:induction false} FeedNeverReturns(reg: Registry, log: seq<Change>, a: nat, b: nat, name: string, id: nat)
    requires a <= b <= |log| && id < |reg.calls| && Feed(reg, log, a, b).Done?
    requires name in reg.items ==> reg.items[name].id != id
    ensures name in Feed(reg, log, a, b).reg.items ==> Feed(reg, log, a, b).reg.items[name].id != id
    decreases b - a
  {
    if a < b {
      FeedNeverReturns(HandleEvent(reg, KindOf(log[a]), log[a].key.name).reg, log, a + 1, b, name, id);
    }
  }

  lemma {:induction false} FeedRetains(reg: Registry, log: seq<Change>, a: nat, b: nat, name: string)
    requires a <= b <= |log| && Coherent(reg) && name in reg.items && Feed(reg, log, a, b).Done?
    ensures Retains(reg, Feed(reg, log, a, b).reg, name) <==> !DeletedWithin(log, a, b, name)
    decreases b - a
  {
    if a < b {
      var reg' := HandleEvent(reg, KindOf(log[a]), log[a].key.name).reg;
      if log[a].Deleted? && log[a].key.name == name {
        FeedNeverReturns(reg', log, a + 1, b, name, reg.items[name].id);
      } else {
        assert DeletedWithin(log, a, b, name) <==> DeletedWithin(log, a + 1, b, name);
        assert reg'.items[name] == reg.items[name];
        FeedRetains(reg', log, a + 1, b, name);
      }
    }
  }

  /** Where the two differ: replay retains a handle exactly when reconciliation does and the
      name was never deleted in between. Reconciliation therefore keeps the old handle of
      an object that was deleted and created again between two lists. */
  lemma ReplayRetainsIff(reg: Registry, log: seq<Change>, a: nat, b: nat, names: seq<string>, name: string)
    requires a <= b <= |log| && Proper(log) && NeverShared(log) && Agrees(reg, log, a) && Coherent(reg)
    requires Elements(names) == Names(Live(log[..b])) && name in reg.items
    ensures Feed(reg, log, a, b).Done?
    ensures Retains(reg, Reconcile(reg, names), name) <==> name in Names(Live(log[..b]))
    ensures Retains(reg, Feed(reg, log, a, b).reg, name) <==>
            Retains(reg, Reconcile(reg, names), name) && !DeletedWithin(log, a, b, name)
  {
    FeedAgrees(reg, log, a, b);
    FeedRetains(reg, log, a, b, name);
    ReconcileKeys(reg, names);
    var pruned := Prune(reg, Elements(names));
    if name in pruned.items {
      AdmitRetains(pruned, names, name);
    }
  }

  // ----- why a DELETED event forces a resync -----------------------------------------

  lemma {:induction false} FeedKeepsAbsent(reg: Registry, log: seq<Change>, a: nat, b: nat, name: string)
    requires a <= b <= |log| && name !in reg.items
    requires forall i :: a <= i < b ==> log[i].key.name != name
    ensures Feed(reg, log, a, b).Done? ==> name !in Feed(reg, log, a, b).reg.items
    decreases b - a
  {
    if a < b && HandleEvent(reg, KindOf(log[a]), log[a].key.name).Done? {
      FeedKeepsAbsent(HandleEvent(reg, KindOf(log[a]), log[a].key.name).reg, log, a + 1, b, name);
    }
  }

  lemma {:induction false} FeedConcat(reg: Registry, log: seq<Change>, a: nat, b: nat, c: nat)
    requires a <= b <= c <= |log|
    ensures Feed(reg, log, a, c) ==
            match Feed(reg, log, a, b)
            case Refused => Refused
            case Done(reg') => Feed(reg', log, b, c)
    decreases b - a
  {
    if a < b && HandleEvent(reg, KindOf(log[a]), log[a].key.name).Done? {
      FeedConcat(HandleEvent(reg, KindOf(log[a]), log[a].key.name).reg, log, a + 1, b, c);
    }
  }

  /** An object not touched in log[r..i] and alive at i was alive all along. */
  lemma {:induction false} AliveSinceLastTouch(log: seq<Change>, r: nat, i: nat, k: Key)
    requires r <= i <= |log| && k in Live(log[..i])
    requires forall j :: r <= j < i ==> log[j].key != k
    ensures forall j :: r <= j <= i ==> k in Live(log[..j])
    decreases i - r
  {
    if r < i {
      LiveStep(log, i - 1);
      AliveSinceLastTouch(log, r, i - 1, k);
    }
  }

  /** The version on a deleted object is older than the deletion. A watch resumed there
      would be sent the deletion again and end in an "unsafe state" error, which is why the
      loop drops the version and asks for a resync instead. */
  lemma ResumingAtADeletedObjectFails(reg: Registry, log: seq<Change>, i: nat)
    requires i < |log| && log[i].Deleted? && Proper(log) && NeverShared(log)
    requires Agrees(reg, log, i + 1)
    ensures 1 <= ObjectVersion(log, i) <= i
    ensures Feed(reg, log, ObjectVersion(log, i), i + 1).Refused?
  {
    var k, r := log[i].key, ObjectVersion(log, i);
    LiveStep(log, i);
    LiveKeysOccur(log[..i], k);
    forall j | r <= j < i
      ensures log[j].key != k
    {
      assert log[..i][j].key != k;
    }
    AliveSinceLastTouch(log, r, i, k);
    forall j | r <= j < i
      ensures log[j].key.name != k.name
    {
      var l := log[j].key;
      LiveStep(log, j);
      assert k in Live(log[..j]) && k in Live(log[..j + 1]);
      assert l in Live(log[..j]) || l in Live(log[..j + 1]);
    }
    forall l | l in Live(log[..i + 1])
      ensures l.name != k.name
    {
      assert l in Live(log[..i]) && k in Live(log[..i]);
    }
    FeedKeepsAbsent(reg, log, r, i, k.name);
    FeedConcat(reg, log, r, i, i + 1);
  }
}

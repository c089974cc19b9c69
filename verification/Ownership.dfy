/** pkg/spacecontroller and pkg/appcontroller: who starts an app controller, who stops it, and
    what the space controller waits for before it exits. */
module Ownership {
  import opened WatchSpec
  import S = WatchSafety
  import W = WatchLaws
  import L = WatchLoop

  // ----- one app controller -----------------------------------------------------------------

  /** stopOnce, how often the stop channel has been closed, and whether the controller's loop
      and its namespace watcher are running. */
  datatype AppCtrl = AppCtrl(once: bool, closes: nat, running: bool, watching: bool)

  const STARTED := AppCtrl(false, 0, true, true)

  function StopOnce(c: AppCtrl): AppCtrl {
    if c.once then c else c.(once := true, closes := c.closes + 1)
  }

  /** One watch loop of the internal controller, from start to exit; on any error other than
      ErrTerminated a new one takes its place. */
  predicate Terminates(script: seq<Move>) {
    Exec(START, script).pc == Exited(Terminated)
  }

  function AfterLoop(c: AppCtrl, script: seq<Move>): AppCtrl {
    c.(running := !Terminates(script))
  }

  predicate ReportsStop(script: seq<Move>) {
    exists i :: 0 <= i < |script| && script[i].chunk == StopSignal
  }

  /** What the namespace watcher meets in one turn of its loop: whether the stop channel is
      closed, how many namespaces a list returns, and the events of a watch. */
  datatype NamespaceEvent = StopSeen | StreamClosed | NamespaceDeleted | OtherEvent

  datatype Turn = Turn(stopSeen: bool, listed: bool, count: nat, watchOpens: bool, events: seq<NamespaceEvent>)

  /** The first event that ends a watch; a stream without one has not ended yet. */
  function Verdict(events: seq<NamespaceEvent>): NamespaceEvent {
    if events == [] then OtherEvent
    else if events[0] != OtherEvent then events[0]
    else Verdict(events[1..])
  }

  predicate Watched(t: Turn) {
    !t.stopSeen && t.listed && t.count == 1 && t.watchOpens
  }

  predicate TurnEnds(t: Turn) {
    t.stopSeen || (Watched(t) && Verdict(t.events) in {StopSeen, NamespaceDeleted})
  }

  predicate TurnReportsStop(t: Turn) {
    t.stopSeen || (Watched(t) && Verdict(t.events) == StopSeen)
  }

  predicate TurnReportsDeletion(t: Turn) {
    Watched(t) && Verdict(t.events) == NamespaceDeleted
  }

  function AfterTurn(c: AppCtrl, t: Turn): AppCtrl {
    if TurnEnds(t) then StopOnce(c.(watching := false)) else c
  }

  // ----- the code ---------------------------------------------------------------------------

  class WaitGroup {
    var count: int

    constructor ()
      ensures count == 0
    {
      count := 0;
    }

    method Add(delta: int)
      modifies this
      ensures count == old(count) + delta
    {
      count := count + delta;
    }
  }

  lemma {:induction false} ExitedStays(loop: Loop, moves: seq<Move>)
    requires loop.pc.Exited?
    ensures Exec(loop, moves) == loop
    decreases |moves|
  {
    if moves != [] {
      ExitedStays(Step(loop, moves[0]), moves[1..]);
    }
  }

  lemma ObservedWhole(script: seq<Move>, n: nat)
    requires n <= |script| && (Exec(START, script[..n]).pc.Exited? || n == |script|)
    ensures Exec(START, script) == Exec(START, script[..n])
  {
    assert script == script[..n] + script[n..];
    if n < |script| {
      ExecConcat(START, script[..n], script[n..]);
      ExitedStays(Exec(START, script[..n]), script[n..]);
    } else {
      assert script[..n] == script;
    }
  }

  /** On an open stream the loop meets the stop signal. */
  ghost predicate MeetsStop(script: seq<Move>) {
    exists i :: 0 <= i < |script| && W.After(script, i).pc.Streaming? && script[i].chunk == StopSignal
  }

  /** A watch loop exits with ErrTerminated exactly if it is told to stop on an open stream. */
  lemma TerminatesIffStopped(script: seq<Move>)
    ensures Terminates(script) <==> MeetsStop(script)
    ensures Terminates(script) ==> ReportsStop(script)
  {
    hide W.After, Exec;
    W.ExitsIff(script, Terminated);
    forall i | 0 <= i < |script|
      ensures W.Cause(W.After(script, i), script[i], Terminated) <==>
              W.After(script, i).pc.Streaming? && script[i].chunk == StopSignal
    {
    }
  }

  class AppController {
    const wg: WaitGroup
    var once: bool
    var closes: nat
    var running: bool
    var watching: bool

    function State(): AppCtrl
      reads this
    {
      AppCtrl(once, closes, running, watching)
    }

    constructor (wg: WaitGroup)
      ensures this.wg == wg && State() == AppCtrl(false, 0, false, false)
    {
      this.wg := wg;
      once, closes, running, watching := false, 0, false, false;
    }

    method Start()
      requires State() == AppCtrl(false, 0, false, false)
      modifies this, wg
      ensures State() == STARTED && wg.count == old(wg.count) + 1
    {
      wg.Add(1);
      watching := true;
      running := true;
    }

    method Stop()
      modifies this
      ensures State() == StopOnce(old(State()))
    {
      if !once {
        once := true;
        closes := closes + 1;
      }
    }

    /** The goroutine started by Start, over the successive runs of the internal controller. */
    method Serve(scripts: seq<seq<Move>>) returns (returned: bool)
      requires running
      modifies this`running, wg
      ensures returned <==> exists i :: 0 <= i < |scripts| && MeetsStop(scripts[i])
      ensures State() == old(State()).(running := !returned)
      ensures wg.count == old(wg.count) - (if returned then 1 else 0)
    {
      hide MeetsStop;
      for i := 0 to |scripts|
        invariant running && wg.count == old(wg.count)
        invariant forall j :: 0 <= j < i ==> !MeetsStop(scripts[j])
      {
        var cons := new L.WatchConsumer(scripts[i]);
        var wl := new L.WatchLoop(cons);
        var pc := wl.Run();
        ObservedWhole(scripts[i], cons.next);
        TerminatesIffStopped(scripts[i]);
        if pc == Exited(Terminated) {
          running := false;
          wg.Add(-1);
          return true;
        }
      }
      returned := false;
    }

    method WatchNamespaceInternal(t: Turn) returns (deleted: bool, terminated: bool)
      requires t.listed && t.count == 1 && !t.stopSeen
      ensures deleted <==> TurnReportsDeletion(t)
      ensures terminated <==> TurnReportsStop(t)
    {
      if !t.watchOpens {
        return false, false;
      }
      var events := t.events;
      while events != []
        invariant Verdict(events) == Verdict(t.events)
        decreases |events|
      {
        match events[0] {
          case StopSeen => return false, true;
          case StreamClosed => return false, false;
          case NamespaceDeleted => return true, false;
          case OtherEvent => events := events[1..];
        }
      }
      return false, false;
    }

    /** The other goroutine; its deferred call stops the controller. */
    method ShutdownWhenNamespaceGone(turns: seq<Turn>) returns (returned: bool)
      modifies this
      ensures returned <==> exists i :: 0 <= i < |turns| && TurnEnds(turns[i])
      ensures State() == if returned then StopOnce(old(State()).(watching := false)) else old(State())
    {
      for i := 0 to |turns|
        invariant State() == old(State())
        invariant forall j :: 0 <= j < i ==> !TurnEnds(turns[j])
      {
        var t := turns[i];
        var ends := t.stopSeen;
        if !t.stopSeen && t.listed && t.count == 1 {
          var deleted, terminated := WatchNamespaceInternal(t);
          ends := deleted || terminated;
        }
        if ends {
          watching := false;
          Stop();
          return true;
        }
      }
      returned := false;
    }
  }

  class SpaceInfo {
    const appCtrl: AppController?

    constructor (appCtrl: AppController?)
      ensures this.appCtrl == appCtrl
    {
      this.appCtrl := appCtrl;
    }

    method Stop()
      modifies appCtrl
      ensures appCtrl != null ==> appCtrl.State() == StopOnce(old(appCtrl.State()))
    {
      if appCtrl != null {
        appCtrl.Stop();
      }
    }

    /** nsDeleted: whether the API server accepted the deletion of the namespace. */
    method Delete(nsDeleted: bool)
      modifies appCtrl
      ensures appCtrl != null ==>
                appCtrl.State() == if nsDeleted then old(appCtrl.State()) else StopOnce(old(appCtrl.State()))
    {
      if !nsDeleted {
        Stop();
      }
    }
  }

  class SpaceController {
    const waitApps: WaitGroup

    constructor (waitApps: WaitGroup)
      ensures this.waitApps == waitApps
    {
      this.waitApps := waitApps;
    }

    method InitItem(active: bool) returns (info: SpaceInfo)
      modifies waitApps
      ensures fresh(info) && (info.appCtrl != null <==> active)
      ensures active ==> fresh(info.appCtrl) && info.appCtrl.wg == waitApps && info.appCtrl.State() == STARTED
      ensures waitApps.count == old(waitApps.count) + (if active then 1 else 0)
    {
      var appCtrl: AppController? := null;
      if active {
        appCtrl := new AppController(waitApps);
        appCtrl.Start();
      }
      info := new SpaceInfo(appCtrl);
    }
  }

  // ----- all of them together ---------------------------------------------------------------

  datatype MaybeController = NoController | Controller(c: AppCtrl)

  /** A managed space: the calls its handle has received, its controller, whether a Delete had
      its namespace deletion accepted or refused, and whether the namespace was seen to go. */
  datatype Space = Space(calls: seq<Call>, ctrl: MaybeController, accepted: bool, refused: bool, gone: bool)

  datatype Sys = Sys(spaces: seq<Space>, wg: int)

  const IDLE := Sys([], 0)

  /** The space controller calls a handle, or a goroutine of one controller gets on. */
  datatype Event =
    | Initialised(active: bool)
    | Updated(id: nat)
    | Deleted(id: nat, accepted: bool)
    | Stopped(id: nat)
    | LoopRan(id: nat, script: seq<Move>)
    | WatcherTurned(id: nat, turn: Turn)

  /** A goroutine sees the stop channel closed only once it is. */
  predicate CanHappen(s: Sys, e: Event) {
    match e
    case Initialised(_) => true
    case Updated(id) => id < |s.spaces|
    case Deleted(id, _) => id < |s.spaces|
    case Stopped(id) => id < |s.spaces|
    case LoopRan(id, script) =>
      && id < |s.spaces| && s.spaces[id].ctrl.Controller? && s.spaces[id].ctrl.c.running
      && (ReportsStop(script) ==> s.spaces[id].ctrl.c.closes > 0)
    case WatcherTurned(id, turn) =>
      && id < |s.spaces| && s.spaces[id].ctrl.Controller? && s.spaces[id].ctrl.c.watching
      && (TurnReportsStop(turn) ==> s.spaces[id].ctrl.c.closes > 0)
  }

  function StopSpace(sp: Space): Space {
    if sp.ctrl.NoController? then sp else sp.(ctrl := Controller(StopOnce(sp.ctrl.c)))
  }

  /** What an event does to the space it is about. */
  function Changed(sp: Space, e: Event): Space
    requires !e.Initialised? && (e.LoopRan? || e.WatcherTurned? ==> sp.ctrl.Controller?)
  {
    match e
    case Updated(_) => sp.(calls := sp.calls + [Update])
    case Deleted(_, accepted) =>
      var told := sp.(calls := sp.calls + [Delete], accepted := sp.accepted || accepted,
                      refused := sp.refused || !accepted);
      if accepted then told else StopSpace(told)
    case Stopped(_) => StopSpace(sp.(calls := sp.calls + [Stop]))
    case LoopRan(_, script) => sp.(ctrl := Controller(AfterLoop(sp.ctrl.c, script)))
    case WatcherTurned(_, turn) =>
      sp.(ctrl := Controller(AfterTurn(sp.ctrl.c, turn)), gone := sp.gone || TurnReportsDeletion(turn))
  }

  function Next(s: Sys, e: Event): Sys
    requires CanHappen(s, e)
  {
    match e
    case Initialised(active) =>
      Sys(s.spaces + [Space([Init], if active then Controller(STARTED) else NoController, false, false, false)],
          s.wg + (if active then 1 else 0))
    case LoopRan(id, script) =>
      Sys(s.spaces[id := Changed(s.spaces[id], e)], s.wg - (if Terminates(script) then 1 else 0))
    case _ => s.(spaces := s.spaces[e.id := Changed(s.spaces[e.id], e)])
  }

  ghost predicate Possible(s: Sys, trace: seq<Event>)
    decreases |trace|
  {
    trace == [] || (CanHappen(s, trace[0]) && Possible(Next(s, trace[0]), trace[1..]))
  }

  function Run(s: Sys, trace: seq<Event>): Sys
    requires Possible(s, trace)
    decreases |trace|
  {
    if trace == [] then s else Run(Next(s, trace[0]), trace[1..])
  }

  predicate IsRunning(sp: Space) {
    sp.ctrl.Controller? && sp.ctrl.c.running
  }

  function RunningLoops(spaces: seq<Space>): nat {
    if spaces == [] then 0
    else RunningLoops(spaces[..|spaces| - 1]) + (if IsRunning(spaces[|spaces| - 1]) then 1 else 0)
  }

  // ----- what every interleaving keeps --------------------------------------------------------

  /** A channel is closed once at most, never without a cause, and always once the space has
      been stopped, its deletion refused, or one of the controller's goroutines has returned. */
  ghost predicate SpaceInv(sp: Space) {
    && |sp.calls| > 0 && (Delete in sp.calls ==> sp.accepted || sp.refused)
    && (sp.ctrl.Controller? ==>
          var c := sp.ctrl.c;
          && c.closes <= 1 && (c.once <==> c.closes == 1)
          && (c.closes == 1 <==> Stop in sp.calls || sp.refused || sp.gone)
          && (!c.running || !c.watching ==> c.closes == 1))
  }

  ghost predicate Inv(s: Sys) {
    && (forall i :: 0 <= i < |s.spaces| ==> SpaceInv(s.spaces[i]))
    && s.wg == RunningLoops(s.spaces)
  }

  lemma ChangedKeepsInv(sp: Space, e: Event)
    requires SpaceInv(sp) && !e.Initialised?
    requires e.LoopRan? || e.WatcherTurned? ==> sp.ctrl.Controller?
    requires e.LoopRan? && ReportsStop(e.script) ==> sp.ctrl.c.closes > 0
    requires e.WatcherTurned? && TurnReportsStop(e.turn) ==> sp.ctrl.c.closes > 0
    ensures SpaceInv(Changed(sp, e))
  {
    hide ReportsStop, Exec, Verdict, MeetsStop;
    if e.LoopRan? {
      TerminatesIffStopped(e.script);
    }
  }

  lemma {:induction false} RunningAfterChange(spaces: seq<Space>, i: nat, sp: Space)
    requires i < |spaces|
    ensures RunningLoops(spaces[i := sp])
         == RunningLoops(spaces) - (if IsRunning(spaces[i]) then 1 else 0) + (if IsRunning(sp) then 1 else 0)
  {
    var n := |spaces| - 1;
    if i == n {
      assert spaces[i := sp][..n] == spaces[..n];
    } else {
      assert spaces[i := sp][..n] == spaces[..n][i := sp];
      RunningAfterChange(spaces[..n], i, sp);
    }
  }

  lemma NewSpaceKeepsInv(active: bool)
    ensures SpaceInv(Space([Init], if active then Controller(STARTED) else NoController, false, false, false))
  {
  }

  lemma NextKeepsInv(s: Sys, e: Event)
    requires Inv(s) && CanHappen(s, e)
    ensures Inv(Next(s, e))
  {
    hide SpaceInv, Terminates, TurnEnds, ReportsStop, TurnReportsStop, TurnReportsDeletion;
    if e.Initialised? {
      NewSpaceKeepsInv(e.active);
      assert Next(s, e).spaces[..|s.spaces|] == s.spaces;
    } else {
      ChangedKeepsInv(s.spaces[e.id], e);
      RunningAfterChange(s.spaces, e.id, Changed(s.spaces[e.id], e));
    }
  }

  lemma {:induction false} RunKeepsInv(s: Sys, trace: seq<Event>)
    requires Inv(s) && Possible(s, trace)
    ensures Inv(Run(s, trace))
    decreases |trace|
  {
    if trace != [] {
      NextKeepsInv(s, trace[0]);
      RunKeepsInv(Next(s, trace[0]), trace[1..]);
    }
  }

  lemma {:induction false} NoneRunning(spaces: seq<Space>)
    ensures RunningLoops(spaces) == 0 <==> forall i :: 0 <= i < |spaces| ==> !IsRunning(spaces[i])
  {
    if spaces != [] {
      var n := |spaces| - 1;
      NoneRunning(spaces[..n]);
      assert forall i :: 0 <= i < n ==> spaces[..n][i] == spaces[i];
    }
  }

  /** Under every interleaving: no stop channel is closed twice; it is closed exactly if the
      space was stopped, its namespace deletion refused, or the namespace seen to go; and the
      wait group counts the loops that run, so Wait returns exactly when none does. */
  lemma EveryInterleavingStopsOnce(trace: seq<Event>, id: nat)
    requires Possible(IDLE, trace) && id < |Run(IDLE, trace).spaces| && Run(IDLE, trace).spaces[id].ctrl.Controller?
    ensures var s := Run(IDLE, trace);
            var sp, c := s.spaces[id], s.spaces[id].ctrl.c;
            && c.closes <= 1
            && (c.closes == 1 <==> Stop in sp.calls || sp.refused || sp.gone)
            && (!c.running ==> c.closes == 1)
            && s.wg == RunningLoops(s.spaces)
            && (s.wg == 0 <==> forall i :: 0 <= i < |s.spaces| ==> !IsRunning(s.spaces[i]))
  {
    RunKeepsInv(IDLE, trace);
    NoneRunning(Run(IDLE, trace).spaces);
  }

  /** The handles of these spaces have received the calls that this registry records. */
  ghost predicate Driven(s: Sys, reg: Registry) {
    |s.spaces| == |reg.calls| && forall i :: 0 <= i < |s.spaces| ==> s.spaces[i].calls == reg.calls[i]
  }

  /** They have received these calls at least. */
  ghost predicate DrivenBeyond(s: Sys, reg: Registry) {
    |reg.calls| <= |s.spaces| && forall i :: 0 <= i < |reg.calls| ==> reg.calls[i] <= s.spaces[i].calls
  }

  /** The space controller's own watch loop makes the calls. Whatever its server answers and
      however the goroutines interleave, every app controller it started belongs to a space
      still in itemMap, or is stopped, or its space's namespace deletion was accepted. Once
      the loop has left Run no controller is in the first case. */
  lemma EveryControllerIsOwned(moves: seq<Move>, trace: seq<Event>, id: nat)
    requires Possible(IDLE, trace) && Driven(Run(IDLE, trace), Exec(START, moves).reg)
    requires id < |Run(IDLE, trace).spaces| && Run(IDLE, trace).spaces[id].ctrl.Controller?
    ensures var loop, sp := Exec(START, moves), Run(IDLE, trace).spaces[id];
            || (!loop.pc.Exited? && id in S.Held(loop.reg))
            || sp.ctrl.c.closes == 1
            || sp.accepted
  {
    hide Possible, Run, Exec, S.Held;
    RunKeepsInv(IDLE, trace);
    S.EveryRunKeepsLifecycles(moves);
    var loop, sp := Exec(START, moves), Run(IDLE, trace).spaces[id];
    assert SpaceInv(sp) && sp.calls == loop.reg.calls[id];
    if loop.pc.Exited? || id !in S.Held(loop.reg) {
      assert S.Ended(sp.calls, if id in S.Held(loop.reg) then Stop else Delete);
    }
  }

  /** The same inside a step of the watch loop, while it makes its many calls one by one and
      goroutines run in between: all the calls up to the step have been made, some of those
      in the step. A controller that is neither stopped nor left to an accepted deletion
      belongs to a space that was in itemMap before the step or has been added in it, and has
      been told neither Delete nor Stop. */
  lemma EveryControllerIsOwnedMidway(moves: seq<Move>, trace: seq<Event>, id: nat)
    requires Possible(IDLE, trace) && DrivenBeyond(Run(IDLE, trace), Exec(START, moves).reg)
    requires id < |Run(IDLE, trace).spaces| && Run(IDLE, trace).spaces[id].ctrl.Controller?
    ensures var before, sp := Exec(START, moves).reg, Run(IDLE, trace).spaces[id];
            || ((id in S.Held(before) || id >= |before.calls|) && Delete !in sp.calls && Stop !in sp.calls)
            || sp.ctrl.c.closes == 1
            || sp.accepted
  {
    hide Possible, Run, Exec, S.Held;
    RunKeepsInv(IDLE, trace);
    S.EveryRunKeepsLifecycles(moves);
    var loop, sp := Exec(START, moves), Run(IDLE, trace).spaces[id];
    assert SpaceInv(sp);
    if id < |loop.reg.calls| && id !in S.Held(loop.reg) {
      var told := loop.reg.calls[id];
      assert S.Ended(told, Delete) && told[|told| - 1] == Delete && told <= sp.calls;
      assert sp.calls[|told| - 1] == Delete;
    }
  }

  // ----- what the events of an interleaving come to -------------------------------------------------

  /** Event i is the first that is not of the other kind. */
  predicate Decides(events: seq<NamespaceEvent>, i: nat) {
    i < |events| && events[i] != OtherEvent && forall j :: 0 <= j < i ==> events[j] == OtherEvent
  }

  lemma {:induction false} VerdictIsTheFirst(events: seq<NamespaceEvent>)
    ensures forall i: nat :: Decides(events, i) ==> Verdict(events) == events[i]
    ensures Verdict(events) != OtherEvent ==> exists i: nat :: Decides(events, i)
  {
    if events != [] {
      var rest := events[1..];
      VerdictIsTheFirst(rest);
      forall i: nat | Decides(events, i)
        ensures Verdict(events) == events[i]
      {
        assert i > 0 ==> Decides(rest, i - 1);
      }
      if events[0] != OtherEvent {
        assert Decides(events, 0);
      } else if Verdict(events) != OtherEvent {
        var i: nat :| Decides(rest, i);
        assert forall j :: 1 <= j < i + 1 ==> events[j] == rest[j - 1];
        assert Decides(events, i + 1);
      }
    }
  }

  /** A watch of the one namespace of that name sees this event before any other that counts. */
  ghost predicate Sees(t: Turn, e: NamespaceEvent) {
    && !t.stopSeen && t.listed && t.count == 1 && t.watchOpens
    && exists i: nat :: Decides(t.events, i) && t.events[i] == e
  }

  /** The namespace watcher returns exactly if it finds the stop channel closed, before a list
      or while watching, or sees the namespace deleted; failed lists, an unexpected number of
      namespaces, failed watches and closed streams only make it try again. */
  lemma WatcherEndsIff(t: Turn)
    ensures TurnEnds(t) <==> t.stopSeen || Sees(t, StopSeen) || Sees(t, NamespaceDeleted)
    ensures TurnReportsStop(t) <==> t.stopSeen || Sees(t, StopSeen)
    ensures TurnReportsDeletion(t) <==> Sees(t, NamespaceDeleted)
  {
    VerdictIsTheFirst(t.events);
  }

  ghost predicate EndsLoop(e: Event, id: nat) {
    e.LoopRan? && e.id == id && MeetsStop(e.script)
  }

  ghost predicate EndsWatcher(e: Event, id: nat) {
    e.WatcherTurned? && e.id == id && (e.turn.stopSeen || Sees(e.turn, StopSeen) || Sees(e.turn, NamespaceDeleted))
  }

  ghost predicate Stops(e: Event, id: nat) {
    || e == Stopped(id)
    || e == Deleted(id, false)
    || (e.WatcherTurned? && e.id == id && Sees(e.turn, NamespaceDeleted))
  }

  /** The calls that the handle of a space receives in these events. */
  function CallsOf(trace: seq<Event>, id: nat): seq<Call> {
    if trace == [] then []
    else
      (match trace[0]
       case Updated(i) => if i == id then [Update] else []
       case Deleted(i, _) => if i == id then [Delete] else []
       case Stopped(i) => if i == id then [Stop] else []
       case _ => [])
      + CallsOf(trace[1..], id)
  }

  ghost predicate IsWatching(sp: Space) {
    sp.ctrl.Controller? && sp.ctrl.c.watching
  }

  ghost predicate IsStopped(sp: Space) {
    sp.ctrl.Controller? && sp.ctrl.c.closes == 1
  }

  lemma EventTells(s: Sys, e: Event, id: nat)
    requires Inv(s) && CanHappen(s, e) && id < |s.spaces| && s.spaces[id].ctrl.Controller?
    ensures var sp, next := s.spaces[id], Next(s, e).spaces[id];
            && next.ctrl.Controller?
            && (IsRunning(next) <==> IsRunning(sp) && !EndsLoop(e, id))
            && (IsWatching(next) <==> IsWatching(sp) && !EndsWatcher(e, id))
            && (IsStopped(next) <==> IsStopped(sp) || Stops(e, id))
            && (next.accepted <==> sp.accepted || e == Deleted(id, true))
            && next.calls == sp.calls + CallsOf([e], id)
  {
    hide Terminates, TurnEnds, MeetsStop, ReportsStop, TurnReportsStop, TurnReportsDeletion, Sees, RunningLoops;
    assert SpaceInv(s.spaces[id]);
    if e.LoopRan? {
      TerminatesIffStopped(e.script);
    } else if e.WatcherTurned? {
      WatcherEndsIff(e.turn);
    }
  }

  lemma NextKeepsSpaces(s: Sys, e: Event)
    requires CanHappen(s, e)
    ensures |Next(s, e).spaces| == |s.spaces| + (if e.Initialised? then 1 else 0)
    ensures forall i :: 0 <= i < |s.spaces| ==> Next(s, e).spaces[i].ctrl.Controller? == s.spaces[i].ctrl.Controller?
    ensures e.Initialised? ==> Next(s, e).spaces[|s.spaces|].ctrl == if e.active then Controller(STARTED)
            else NoController
  {
    hide Terminates, TurnEnds, ReportsStop, TurnReportsStop, TurnReportsDeletion;
  }

  lemma CallsOfOneMore(trace: seq<Event>, id: nat)
    requires trace != []
    ensures CallsOf(trace, id) == CallsOf([trace[0]], id) + CallsOf(trace[1..], id)
  {
    assert [trace[0]][1..] == [];
  }

  lemma NotYetThere(s: Sys, e: Event, id: nat)
    requires CanHappen(s, e) && id >= |s.spaces|
    ensures !EndsLoop(e, id) && !EndsWatcher(e, id) && !Stops(e, id) && e != Deleted(id, true) && CallsOf([e], id) == []
    ensures id < |Next(s, e).spaces| && Next(s, e).spaces[id].ctrl.Controller? ==>
              && IsRunning(Next(s, e).spaces[id]) && IsWatching(Next(s, e).spaces[id])
              && !IsStopped(Next(s, e).spaces[id])
              && !Next(s, e).spaces[id].accepted && Next(s, e).spaces[id].calls == [Init]
  {
    hide Terminates, TurnEnds, ReportsStop, TurnReportsStop, TurnReportsDeletion, MeetsStop, Sees;
  }

  lemma {:induction false} TraceTells(s: Sys, trace: seq<Event>, id: nat)
    requires Inv(s) && Possible(s, trace) && id < |Run(s, trace).spaces| && Run(s, trace).spaces[id].ctrl.Controller?
    ensures id < |s.spaces| ==> s.spaces[id].ctrl.Controller?
    ensures var sp := Run(s, trace).spaces[id];
            && (IsRunning(sp) <==>
                  (id < |s.spaces| ==> IsRunning(s.spaces[id])) && forall e :: e in trace ==> !EndsLoop(e, id))
            && (IsWatching(sp) <==>
                  (id < |s.spaces| ==> IsWatching(s.spaces[id])) && forall e :: e in trace ==> !EndsWatcher(e, id))
            && (IsStopped(sp) <==>
                  (id < |s.spaces| && IsStopped(s.spaces[id])) || exists e :: e in trace && Stops(e, id))
            && (sp.accepted <==> (id < |s.spaces| && s.spaces[id].accepted) || Deleted(id, true) in trace)
            && sp.calls == (if id < |s.spaces| then s.spaces[id].calls else [Init]) + CallsOf(trace, id)
    decreases |trace|
  {
    hide Inv, EndsLoop, EndsWatcher, Stops, IsRunning, IsWatching, IsStopped, Next, CanHappen;
    if trace != [] {
      var e, rest := trace[0], trace[1..];
      var next := Next(s, e);
      assert trace == [e] + rest;
      CallsOfOneMore(trace, id);
      NextKeepsInv(s, e);
      TraceTells(next, rest, id);
      NextKeepsSpaces(s, e);
      if id < |s.spaces| {
        EventTells(s, e, id);
      } else {
        NotYetThere(s, e, id);
      }
    }
  }

  /** Over every interleaving, for every app controller started: its loop runs until one of its
      watch loops meets the stop signal on an open stream, no longer and no shorter; its
      namespace watcher runs until it sees the stop channel closed or the namespace deleted;
      and its channel is closed exactly once the space is stopped, a namespace deletion
      refused, or the namespace seen deleted. */
  lemma ControllerFollowsItsEvents(trace: seq<Event>, id: nat)
    requires Possible(IDLE, trace) && id < |Run(IDLE, trace).spaces| && Run(IDLE, trace).spaces[id].ctrl.Controller?
    ensures var sp, c := Run(IDLE, trace).spaces[id], Run(IDLE, trace).spaces[id].ctrl.c;
            && sp.calls == [Init] + CallsOf(trace, id)
            && (sp.accepted <==> Deleted(id, true) in trace)
            && (c.running <==> forall e :: e in trace ==> !EndsLoop(e, id))
            && (c.watching <==> forall e :: e in trace ==> !EndsWatcher(e, id))
            && (c.closes == 1 <==> exists e :: e in trace && Stops(e, id))
            && c.closes <= 1
  {
    hide EndsLoop, EndsWatcher, Stops;
    TraceTells(IDLE, trace, id);
    RunKeepsInv(IDLE, trace);
  }
}

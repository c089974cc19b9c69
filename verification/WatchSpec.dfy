/** The list/watch loop of pkg/watcher as a machine that reacts to one environment move
    at a time, and what it keeps over every run. */
module WatchSpec {
  import opened ServerHistory

  // ----- what the loop holds ------------------------------------------------------

  /** A managed item: the name it answers to and the number under which its calls are kept. */
  datatype Handle = Handle(id: nat, name: string)

  /** What a consumer sees of one managed item. */
  datatype Call = Init | Update | Delete | Stop

  /** itemMap; for every handle ever created the calls made on it, in order; and the names
      PeriodicTask was shown, one entry for each time it ran. */
  datatype Registry = Registry(items: map<string, Handle>, calls: seq<seq<Call>>, sweeps: seq<set<string>>)

  /** Resource versions: "", the literal "0", or a revision of the server. */
  datatype Version = Empty | Zero | At(rev: nat)

  datatype EventKind = EvAdded | EvModified | EvDeleted | EvOther

  datatype Exit = Terminated | OpenFailed | BadStatus | StreamFailed | StatusEvent | Unsafe

  datatype Pc =
    | Resync
    | Opening(v: Version)
    | Streaming(next: Version)
    | Exited(why: Exit)

  datatype Loop = Loop(reg: Registry, pc: Pc)

  // ----- what the environment answers ----------------------------------------------

  datatype Crd = CrdCreated | CrdExists | CrdFailed

  datatype Listing = ListFailed | Listed(rv: Version, names: seq<string>)

  datatype Opened = OpenError | OpenRejected | OpenStream

  datatype Chunk =
    | Event(kind: EventKind, name: string, rv: Version)
    | Closed
    | Broken
    | StatusObject
    | StopSignal

  /** Everything the environment may do around one interaction: first let other clients
      change the collection, then answer whichever request the loop makes next. */
  datatype Move = Move(grow: seq<Change>, crd: Crd, listing: Listing, open: Opened, chunk: Chunk)

  // ----- one reaction of the loop --------------------------------------------------

  function Register(reg: Registry, name: string): Registry {
    reg.(items := reg.items[name := Handle(|reg.calls|, name)], calls := reg.calls + [[Init]])
  }

  /** One more call c on every handle in ids. */
  function MarkAll(calls: seq<seq<Call>>, ids: set<nat>, c: Call): seq<seq<Call>> {
    seq(|calls|, i requires 0 <= i < |calls| => if i in ids then calls[i] + [c] else calls[i])
  }

  function Ids(items: map<string, Handle>, names: set<string>): set<nat> {
    set n | n in names && n in items :: items[n].id
  }

  datatype Handled = Refused | Done(reg: Registry)

  /** handleEvent; a refusal is one of its three "unsafe state" errors. */
  function HandleEvent(reg: Registry, kind: EventKind, name: string): Handled {
    match kind
    case EvAdded => if name in reg.items then Refused else Done(Register(reg, name))
    case EvModified =>
      if name !in reg.items then Refused
      else Done(reg.(calls := MarkAll(reg.calls, Ids(reg.items, {name}), Update)))
    case EvDeleted =>
      if name !in reg.items then Refused
      else Done(reg.(items := reg.items - {name}, calls := MarkAll(reg.calls, Ids(reg.items, {name}), Delete)))
    case EvOther => Done(reg)
  }

  function Admit(reg: Registry, names: seq<string>): Registry
    decreases |names|
  {
    if names == [] then reg
    else Admit(if names[0] in reg.items then reg else Register(reg, names[0]), names[1..])
  }

  /** The part of the registry whose names are still listed; the others were told Delete. */
  function Prune(reg: Registry, listed: set<string>): Registry {
    reg.(items := reg.items - (reg.items.Keys - listed),
         calls := MarkAll(reg.calls, Ids(reg.items, reg.items.Keys - listed), Delete))
  }

  function Elements(names: seq<string>): set<string> {
    set n | n in names
  }

  /** reconcileItems on a successful list. */
  function Reconcile(reg: Registry, names: seq<string>): Registry {
    Admit(Prune(reg, Elements(names)), names)
  }

  /** Leaving Run: the deferred loop stops every registered handle. */
  function Halt(reg: Registry, why: Exit): Loop {
    Loop(reg.(calls := MarkAll(reg.calls, Ids(reg.items, reg.items.Keys), Stop)), Exited(why))
  }

  /** PeriodicTask runs before every watch request. */
  function Swept(reg: Registry): Registry {
    reg.(sweeps := reg.sweeps + [reg.items.Keys])
  }

  function AfterEvent(kind: EventKind, rv: Version): Version {
    if kind.EvDeleted? then Empty else rv
  }

  function AfterClose(next: Version): Pc {
    if next.Empty? then Resync else Opening(next)
  }

  function Step(loop: Loop, m: Move): Loop {
    match loop.pc
    case Resync =>
      (match m.crd
       case CrdFailed => loop
       case CrdCreated => loop.(pc := Opening(Zero))
       case CrdExists =>
         if m.listing.ListFailed? then loop
         else Loop(Reconcile(loop.reg, m.listing.names), Opening(m.listing.rv)))
    case Opening(v) =>
      (match m.open
       case OpenError => Halt(Swept(loop.reg), OpenFailed)
       case OpenRejected => Halt(Swept(loop.reg), BadStatus)
       case OpenStream => Loop(Swept(loop.reg), Streaming(v)))
    case Streaming(next) =>
      (match m.chunk
       case Event(kind, name, rv) =>
         (match HandleEvent(loop.reg, kind, name)
          case Refused => Halt(loop.reg, Unsafe)
          case Done(reg) => Loop(reg, Streaming(AfterEvent(kind, rv))))
       case Closed => loop.(pc := AfterClose(next))
       case Broken => Halt(loop.reg, StreamFailed)
       case StatusObject => Halt(loop.reg, StatusEvent)
       case StopSignal => Halt(loop.reg, Terminated))
    case Exited(_) => loop
  }

  function Exec(loop: Loop, moves: seq<Move>): Loop
    decreases |moves|
  {
    if moves == [] then loop else Exec(Step(loop, moves[0]), moves[1..])
  }

  const START := Loop(Registry(map[], [], []), Resync)

  lemma {:induction false} ExecConcat(loop: Loop, a: seq<Move>, b: seq<Move>)
    ensures Exec(loop, a + b) == Exec(Exec(loop, a), b)
    decreases |a|
  {
    if a == [] {
      assert a + b == b;
    } else {
      assert (a + b)[0] == a[0] && (a + b)[1..] == a[1..] + b;
      ExecConcat(Step(loop, a[0]), a[1..], b);
    }
  }
}

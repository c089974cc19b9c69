/** pkg/watcher/watcher.go as written: nested loops over a mutable itemMap. Every method is
    proved to drive the machine of WatchSpec, whatever the environment answers. */
module WatchLoop {
  import opened WatchSpec

  /** The consumer and the API server behind it. Their answers are scripted, so that a
      statement about every script is one about every environment; a run is observed
      until the script ends. */
  class WatchConsumer {
    const moves: seq<Move>
    var next: nat
    var calls: seq<seq<Call>>
    var sweeps: seq<set<string>>

    ghost predicate Valid()
      reads this
    {
      next <= |moves|
    }

    constructor (moves: seq<Move>)
      ensures Valid() && this.moves == moves && next == 0 && calls == [] && sweeps == []
    {
      this.moves := moves;
      next := 0;
      calls := [];
      sweeps := [];
    }

    method Answer() returns (m: Move)
      requires Valid() && next < |moves|
      modifies this`next
      ensures Valid() && next == old(next) + 1 && m == moves[old(next)]
    {
      m := moves[next];
      next := next + 1;
    }

    method InitItem(name: string) returns (h: Handle)
      modifies this`calls
      ensures h == Handle(|old(calls)|, name) && calls == old(calls) + [[Init]]
    {
      h := Handle(|calls|, name);
      calls := calls + [[Init]];
    }

    method PeriodicTask(known: set<string>)
      modifies this`sweeps
      ensures sweeps == old(sweeps) + [known]
    {
      sweeps := sweeps + [known];
    }

    method Invoke(h: Handle, c: Call)
      requires h.id < |calls|
      modifies this`calls
      ensures calls == MarkAll(old(calls), {h.id}, c)
    {
      calls := calls[h.id := calls[h.id] + [c]];
    }
  }

  /** How watch and processWatchResponse come back; Cut means that the script ended there. */
  datatype Outcome = Next(v: Version) | Failed(why: Exit) | Cut(pc: Pc)

  lemma SameLength(calls: seq<seq<Call>>, ids: set<nat>, c: Call)
    ensures |MarkAll(calls, ids, c)| == |calls|
  {
  }

  lemma MarkOneMore(reg: Registry, names: set<string>, name: string, c: Call)
    requires forall n, m :: n in reg.items && m in reg.items && reg.items[n].id == reg.items[m].id ==> n == m
    requires name in reg.items && name !in names
    ensures MarkAll(MarkAll(reg.calls, Ids(reg.items, names), c), {reg.items[name].id}, c)
         == MarkAll(reg.calls, Ids(reg.items, names + {name}), c)
  {
    assert Ids(reg.items, names + {name}) == Ids(reg.items, names) + {reg.items[name].id};
  }

  lemma ExecSplit(loop: Loop, moves: seq<Move>, a: nat, b: nat, c: nat)
    requires a <= b <= c <= |moves|
    ensures Exec(loop, moves[a..c]) == Exec(Exec(loop, moves[a..b]), moves[b..c])
  {
    assert moves[a..c] == moves[a..b] + moves[b..c];
    ExecConcat(loop, moves[a..b], moves[b..c]);
  }

  lemma ExecOneMore(loop: Loop, moves: seq<Move>, a: nat, b: nat)
    requires a <= b < |moves|
    ensures Exec(loop, moves[a..b + 1]) == Step(Exec(loop, moves[a..b]), moves[b])
  {
    ExecSplit(loop, moves, a, b, b + 1);
    assert moves[b..b + 1] == [moves[b]];
    assert Exec(Exec(loop, moves[a..b]), moves[b..b + 1]) == Step(Exec(loop, moves[a..b]), moves[b]);
  }

  class WatchLoop {
    const cons: WatchConsumer
    var itemMap: map<string, Handle>

    /** Entries carry their own key as name, and no two entries share a handle. */
    ghost predicate Valid()
      reads this, cons
    {
      && cons.Valid()
      && (forall n :: n in itemMap ==> itemMap[n].name == n && itemMap[n].id < |cons.calls|)
      && (forall n, m :: n in itemMap && m in itemMap && itemMap[n].id == itemMap[m].id ==> n == m)
    }

    ghost function Reg(): Registry
      reads this, cons
    {
      Registry(itemMap, cons.calls, cons.sweeps)
    }

    constructor (cons: WatchConsumer)
      requires cons.Valid() && cons.calls == [] && cons.sweeps == []
      ensures Valid() && this.cons == cons && Reg() == START.reg
    {
      this.cons := cons;
      itemMap := map[];
    }

    method HandleEvent(kind: EventKind, name: string) returns (ok: bool)
      requires Valid()
      modifies this, cons`calls
      ensures Valid()
      ensures ok <==> WatchSpec.HandleEvent(old(Reg()), kind, name).Done?
      ensures ok ==> Reg() == WatchSpec.HandleEvent(old(Reg()), kind, name).reg
      ensures !ok ==> Reg() == old(Reg())
    {
      match kind {
        case EvAdded =>
          if name in itemMap {
            return false;
          }
          var h := cons.InitItem(name);
          itemMap := itemMap[name := h];
        case EvModified =>
          if name !in itemMap {
            return false;
          }
          assert Ids(itemMap, {name}) == {itemMap[name].id};
          cons.Invoke(itemMap[name], Update);
        case EvDeleted =>
          if name !in itemMap {
            return false;
          }
          assert Ids(itemMap, {name}) == {itemMap[name].id};
          cons.Invoke(itemMap[name], Delete);
          itemMap := itemMap - {name};
        case EvOther =>
      }
      ok := true;
    }

    /** The first loop of reconcileItems; Go walks the map in no particular order. */
    method DeleteUnlisted(m: set<string>)
      requires Valid()
      modifies this, cons`calls
      ensures Valid()
      ensures Reg() == Prune(old(Reg()), m)
    {
      var todo := itemMap.Keys;
      ghost var gone: set<string> := {};
      ghost var was := Reg();
      while todo != {}
        invariant Valid()
        invariant gone <= was.items.Keys - m && gone !! todo
        invariant was.items.Keys - m <= gone + todo && todo <= was.items.Keys
        invariant itemMap == was.items - gone
        invariant cons.calls == MarkAll(was.calls, Ids(was.items, gone), Delete)
        decreases todo
      {
        hide MarkAll, Ids;
        var name :| name in todo;
        assert name in itemMap && itemMap[name].name == name; // the name-mismatch exit is never taken
        if name !in m {
          MarkOneMore(was, gone, name, Delete);
          cons.Invoke(itemMap[name], Delete);
          SameLength(was.calls, Ids(was.items, gone + {name}), Delete);
          itemMap := itemMap - {name};
          gone := gone + {name};
        }
        todo := todo - {name};
      }
      assert gone == was.items.Keys - m;
    }

    /** The second loop. */
    method InitUnknown(names: seq<string>)
      requires Valid()
      modifies this, cons`calls
      ensures Valid()
      ensures Reg() == Admit(old(Reg()), names)
    {
      ghost var was := Reg();
      assert names[0..] == names;
      for i := 0 to |names|
        invariant Valid()
        invariant Admit(Reg(), names[i..]) == Admit(was, names)
      {
        assert names[i..][1..] == names[i + 1..];
        if names[i] !in itemMap {
          var h := cons.InitItem(names[i]);
          itemMap := itemMap[names[i] := h];
        }
      }
      assert names[|names|..] == [];
    }

    /** reconcileItems on a list that could be read. */
    method ReconcileItems(names: seq<string>)
      requires Valid()
      modifies this, cons`calls
      ensures Valid()
      ensures Reg() == Reconcile(old(Reg()), names)
    {
      var m := set n | n in names;
      DeleteUnlisted(m);
      InitUnknown(names);
    }

    method ProcessWatchResponse(initial: Version) returns (out: Outcome)
      requires Valid()
      modifies this, cons`calls, cons`next
      ensures Valid() && old(cons.next) <= cons.next
      ensures Follows(old(Reg()), Streaming(initial), old(cons.next), out)
      ensures out.Cut? ==> cons.next == |cons.moves|
    {
      var nextVersion := initial;
      ghost var from := cons.next;
      ghost var first := Loop(Reg(), Streaming(initial));
      while cons.next < |cons.moves|
        invariant Valid() && from <= cons.next
        invariant Exec(first, cons.moves[from..cons.next]) == Loop(Reg(), Streaming(nextVersion))
        decreases |cons.moves| - cons.next
      {
        ExecOneMore(first, cons.moves, from, cons.next);
        var m := cons.Answer();
        match m.chunk {
          case StopSignal => return Failed(Terminated);
          case Closed => return Next(nextVersion);
          case Broken => return Failed(StreamFailed);
          case StatusObject => return Failed(StatusEvent);
          case Event(kind, name, rv) =>
            var ok := HandleEvent(kind, name);
            if !ok {
              return Failed(Unsafe);
            }
            nextVersion := if kind.EvDeleted? then Empty else rv;
        }
      }
      out := Cut(Streaming(nextVersion));
    }

    /** The machine, started in pc with the given registry, reaches what the outcome says. */
    ghost predicate Follows(reg: Registry, pc: Pc, from: nat, out: Outcome)
      requires Valid() && from <= cons.next
      reads this, cons
    {
      Exec(Loop(reg, pc), cons.moves[from..cons.next]) ==
      match out
      case Next(v) => Loop(Reg(), AfterClose(v))
      case Failed(why) => Halt(Reg(), why)
      case Cut(at) => Loop(Reg(), at)
    }

    method Watch(start: Version) returns (out: Outcome)
      requires Valid()
      modifies this, cons
      ensures Valid() && old(cons.next) <= cons.next
      ensures Follows(old(Reg()), Opening(start), old(cons.next), out)
      ensures out.Next? ==> out.v == Empty && old(cons.next) < cons.next
      ensures out.Cut? ==> cons.next == |cons.moves|
    {
      var version := start;
      ghost var from := cons.next;
      ghost var first := Loop(Reg(), Opening(start));
      while cons.next < |cons.moves|
        invariant Valid() && from <= cons.next
        invariant Exec(first, cons.moves[from..cons.next]) == Loop(Reg(), Opening(version))
        decreases |cons.moves| - cons.next
      {
        ExecOneMore(first, cons.moves, from, cons.next);
        cons.PeriodicTask(itemMap.Keys);
        var m := cons.Answer();
        if m.open.OpenError? {
          return Failed(OpenFailed);
        }
        if m.open.OpenRejected? {
          return Failed(BadStatus);
        }
        ghost var mid := cons.next;
        out := ProcessWatchResponse(version);
        ExecSplit(first, cons.moves, from, mid, cons.next);
        if !out.Next? {
          return;
        }
        version := out.v;
        if version.Empty? {
          return;
        }
      }
      out := Cut(Opening(version));
    }

    /** Run never returns without an error; pc is where the observation found it. */
    method Run() returns (pc: Pc)
      requires Valid() && cons.next == 0 && Reg() == START.reg
      modifies this, cons
      ensures Valid()
      ensures Loop(Reg(), pc) == Exec(START, cons.moves[..cons.next])
      ensures pc.Exited? || cons.next == |cons.moves|
    {
      while cons.next < |cons.moves|
        invariant Valid()
        invariant Exec(START, cons.moves[..cons.next]) == Loop(Reg(), Resync)
        decreases |cons.moves| - cons.next
      {
        ghost var from := cons.next;
        assert cons.moves[0..from] == cons.moves[..from] && cons.moves[0..from + 1] == cons.moves[..from + 1];
        ExecOneMore(START, cons.moves, 0, from);
        var m := cons.Answer();
        var version := Zero;
        if m.crd.CrdFailed? {
          continue;
        }
        if m.crd.CrdExists? {
          if m.listing.ListFailed? {
            continue;
          }
          ReconcileItems(m.listing.names);
          version := m.listing.rv;
        }
        ghost var mid := cons.next;
        var out := Watch(version);
        ExecSplit(START, cons.moves, 0, mid, cons.next);
        assert cons.moves[0..mid] == cons.moves[..mid] && cons.moves[0..cons.next] == cons.moves[..cons.next];
        match out {
          case Cut(at) => return at;
          case Failed(why) =>
            StopAll();
            return Exited(why);
          case Next(_) =>
        }
      }
      pc := Resync;
    }

    /** The deferred loop of Run, again in no particular order. */
    method StopAll()
      requires Valid()
      modifies cons`calls
      ensures Valid()
      ensures forall why :: Loop(Reg(), Exited(why)) == Halt(old(Reg()), why)
    {
      var todo := itemMap.Keys;
      ghost var was := Reg();
      while todo != {}
        invariant Valid() && todo <= itemMap.Keys
        invariant cons.calls == MarkAll(was.calls, Ids(was.items, was.items.Keys - todo), Stop)
        decreases todo
      {
        var name :| name in todo;
        MarkOneMore(was, was.items.Keys - todo, name, Stop);
        cons.Invoke(itemMap[name], Stop);
        assert was.items.Keys - todo + {name} == was.items.Keys - (todo - {name});
        todo := todo - {name};
      }
      assert was.items.Keys - todo == was.items.Keys;
    }
  }
}

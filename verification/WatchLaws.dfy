/** What the watch loop does at each interaction, spelled out over runs: when it sweeps, when
    and how it exits, what an event or a list does to the items, and where it resumes. */
module WatchLaws {
  import opened WatchSpec
  import S = WatchSafety

  /** The loop after the first j moves of a run. */
  function After(moves: seq<Move>, j: nat): Loop
    requires j <= |moves|
  {
    Exec(START, moves[..j])
  }

  lemma OneMore(moves: seq<Move>, j: nat)
    requires j < |moves|
    ensures After(moves, j + 1) == Step(After(moves, j), moves[j])
  {
    assert moves[..j + 1] == moves[..j] + [moves[j]];
    ExecConcat(START, moves[..j], [moves[j]]);
    assert Exec(After(moves, j), [moves[j]]) == Exec(Step(After(moves, j), moves[j]), []);
  }

  // ----- sweeps ----------------------------------------------------------------------------------

  /** PeriodicTask runs with the registered names before every watch request, whatever becomes
      of the request, and at no other time. */
  lemma SweepsBeforeEveryRequest(moves: seq<Move>, j: nat)
    requires j < |moves|
    ensures var before, after := After(moves, j), After(moves, j + 1);
            after.reg.sweeps ==
            if before.pc.Opening? then before.reg.sweeps + [before.reg.items.Keys] else before.reg.sweeps
  {
    hide After;
    OneMore(moves, j);
    var loop, m := After(moves, j), moves[j];
    if loop.pc.Resync? && m.crd.CrdExists? && m.listing.Listed? {
      S.AdmitSweeps(Prune(loop.reg, Elements(m.listing.names)), m.listing.names);
    }
  }

  // ----- exits -----------------------------------------------------------------------------------

  /** What makes a loop that stands there end, and with which error. */
  predicate Cause(loop: Loop, m: Move, why: Exit) {
    match why
    case OpenFailed => loop.pc.Opening? && m.open == OpenError
    case BadStatus => loop.pc.Opening? && m.open == OpenRejected
    case StreamFailed => loop.pc.Streaming? && m.chunk == Broken
    case StatusEvent => loop.pc.Streaming? && m.chunk == StatusObject
    case Terminated => loop.pc.Streaming? && m.chunk == StopSignal
    case Unsafe =>
      && loop.pc.Streaming? && m.chunk.Event?
      && (if m.chunk.kind == EvAdded then m.chunk.name in loop.reg.items
          else m.chunk.kind in {EvModified, EvDeleted} && m.chunk.name !in loop.reg.items)
  }

  lemma StepExitsIff(loop: Loop, m: Move, why: Exit)
    ensures Step(loop, m).pc == Exited(why) <==> loop.pc == Exited(why) || Cause(loop, m, why)
  {
    hide Reconcile, MarkAll, Ids, Register;
  }

  lemma AfterWhole(moves: seq<Move>)
    ensures After(moves, |moves|) == Exec(START, moves)
  {
    assert moves[..|moves|] == moves;
  }

  lemma AfterPrefix(moves: seq<Move>, n: nat, i: nat)
    requires i <= n <= |moves|
    ensures After(moves[..n], i) == After(moves, i)
  {
    assert moves[..n][..i] == moves[..i];
  }

  /** Run ends with an error exactly if, at some interaction, that error's own cause occurs; so
      a stop signal on an open stream always ends it with ErrTerminated, and nothing else
      does. */
  lemma {:induction false} ExitsIff(moves: seq<Move>, why: Exit)
    ensures Exec(START, moves).pc == Exited(why) <==>
            exists i :: 0 <= i < |moves| && Cause(After(moves, i), moves[i], why)
    decreases |moves|
  {
    hide Cause, Step, After;
    if moves == [] {
      assert Exec(START, []) == START;
    } else {
      var n := |moves| - 1;
      var before := moves[..n];
      ExitsIff(before, why);
      AfterWhole(moves);
      AfterWhole(before);
      OneMore(moves, n);
      StepExitsIff(After(moves, n), moves[n], why);
      forall i | 0 <= i <= n
        ensures i < n ==> After(before, i) == After(moves, i) && before[i] == moves[i]
        ensures After(before, n) == After(moves, n)
      {
        AfterPrefix(moves, n, i);
        AfterPrefix(moves, n, n);
      }
    }
  }

  // ----- events ----------------------------------------------------------------------------------

  /** One more call for the item registered under a name; all others are left alone. */
  ghost predicate Told(before: Registry, after: Registry, name: string, c: Call)
    requires name in before.items
  {
    && |after.calls| == |before.calls|
    && forall id :: 0 <= id < |before.calls| ==>
         after.calls[id] == if id == before.items[name].id then before.calls[id] + [c] else before.calls[id]
  }

  /** An event that does not end Run: ADDED initialises an item under the name, MODIFIED tells
      the item of that name Update, DELETED tells it Delete and forgets the name, anything else
      changes nothing. */
  lemma EventReachesItsItem(moves: seq<Move>, j: nat)
    requires j < |moves| && After(moves, j).pc.Streaming? && moves[j].chunk.Event?
    requires !After(moves, j + 1).pc.Exited?
    ensures var before, after, name := After(moves, j).reg, After(moves, j + 1).reg, moves[j].chunk.name;
            match moves[j].chunk.kind
            case EvAdded =>
              && name !in before.items && after.items == before.items[name := Handle(|before.calls|, name)]
              && after.calls == before.calls + [[Init]]
            case EvModified =>
              name in before.items && after.items == before.items && Told(before, after, name, Update)
            case EvDeleted =>
              name in before.items && after.items == before.items - {name} && Told(before, after, name, Delete)
            case EvOther => after == before
  {
    hide After, Reconcile;
    OneMore(moves, j);
    var before, name := After(moves, j).reg, moves[j].chunk.name;
    assert name in before.items ==> Ids(before.items, {name}) == {before.items[name].id};
  }

  // ----- lists -----------------------------------------------------------------------------------

  lemma KeysCount<K, V>(m: map<K, V>)
    ensures |m| == |m.Keys|
  {
  }

  lemma {:induction false} AdmitAdds(reg: Registry, names: seq<string>)
    ensures var after := Admit(reg, names);
            && reg.calls <= after.calls
            && (forall id :: |reg.calls| <= id < |after.calls| ==> after.calls[id] == [Init])
            && (forall n :: n in after.items <==> n in reg.items || n in names)
            && (forall n :: n in reg.items ==> after.items[n] == reg.items[n])
            && (forall n :: n in after.items && n !in reg.items ==>
                  after.items[n].name == n && |reg.calls| <= after.items[n].id < |after.calls|)
            && |after.calls| - |reg.calls| == |after.items| - |reg.items|
    decreases |names|
  {
    if names != [] {
      var next := if names[0] in reg.items then reg else Register(reg, names[0]);
      assert names == [names[0]] + names[1..];
      AdmitAdds(next, names[1..]);
      if names[0] !in reg.items {
        assert next.items.Keys == reg.items.Keys + {names[0]};
        KeysCount(next.items);
        KeysCount(reg.items);
      }
    }
  }

  /** A successful list: the items of names no longer listed are told Delete, once each, and
      forgotten; those listed before keep their items, which are told nothing; every other
      listed name gets one fresh item. */
  lemma ListReachesItems(moves: seq<Move>, j: nat)
    requires j < |moves| && After(moves, j).pc.Resync?
    requires moves[j].crd.CrdExists? && moves[j].listing.Listed?
    ensures var before, after, names := After(moves, j).reg, After(moves, j + 1).reg, moves[j].listing.names;
            && (forall n :: n in after.items <==> n in names)
            && (forall n :: n in before.items && n in names ==> after.items[n] == before.items[n])
            && |before.calls| <= |after.calls|
            && (forall id :: 0 <= id < |before.calls| ==>
                  after.calls[id] ==
                  if exists n :: n in before.items && n !in names && before.items[n].id == id
                  then before.calls[id] + [Delete] else before.calls[id])
            && (forall id :: |before.calls| <= id < |after.calls| ==> after.calls[id] == [Init])
            && (forall n :: n in after.items && n !in before.items ==>
                  |before.calls| <= after.items[n].id < |after.calls|)
    ensures After(moves, j + 1).pc == Opening(moves[j].listing.rv)
  {
    hide After;
    OneMore(moves, j);
    var before, names := After(moves, j).reg, moves[j].listing.names;
    var pruned := Prune(before, Elements(names));
    AdmitAdds(pruned, names);
    var after := After(moves, j + 1).reg;
    assert after == Admit(pruned, names);
    forall id | 0 <= id < |before.calls|
      ensures after.calls[id] == pruned.calls[id]
    {
    }
  }

  // ----- resuming --------------------------------------------------------------------------------

  /** From the opening of a stream on, nothing but events that were accepted. */
  ghost predicate StreamOf(moves: seq<Move>, i: nat, j: nat) {
    && i < j <= |moves| && After(moves, i).pc.Opening? && moves[i].open == OpenStream
    && forall k :: i < k < j ==> moves[k].chunk.Event? && !After(moves, k + 1).pc.Exited?
  }

  /** The version that the stream has got to: that of its last event, none after a deletion, and
      the one it was opened with before the first event. */
  function Reached(moves: seq<Move>, i: nat, j: nat): Version
    requires i < j <= |moves| && After(moves, i).pc.Opening?
    requires j > i + 1 ==> moves[j - 1].chunk.Event?
  {
    if j == i + 1 then After(moves, i).pc.v
    else if moves[j - 1].chunk.kind.EvDeleted? then Empty
    else moves[j - 1].chunk.rv
  }

  lemma {:induction false} StreamStands(moves: seq<Move>, i: nat, j: nat)
    requires StreamOf(moves, i, j)
    ensures After(moves, j).pc == Streaming(Reached(moves, i, j))
  {
    hide After, HandleEvent, Swept;
    if j == i + 1 {
      OneMore(moves, i);
    } else {
      StreamStands(moves, i, j - 1);
      OneMore(moves, j - 1);
    }
  }

  /** A stream that ends is resumed at the version it got to, without a new list; only if its
      last event was a deletion (or named no version) does a resync follow. */
  lemma ResumesWhereItGotTo(moves: seq<Move>, i: nat, j: nat)
    requires StreamOf(moves, i, j) && j < |moves| && moves[j].chunk == Closed
    ensures var v := Reached(moves, i, j);
            After(moves, j + 1).pc == if v == Empty then Resync else Opening(v)
    ensures After(moves, j + 1).reg == After(moves, j).reg
  {
    hide After;
    StreamStands(moves, i, j);
    OneMore(moves, j);
  }

  /** A resync that cannot read or create the definition, or cannot list, is tried again with
      nothing changed; a definition newly created is watched from version "0". */
  lemma ResyncOtherwise(moves: seq<Move>, j: nat)
    requires j < |moves| && After(moves, j).pc.Resync?
    requires !(moves[j].crd.CrdExists? && moves[j].listing.Listed?)
    ensures After(moves, j + 1).reg == After(moves, j).reg
    ensures After(moves, j + 1).pc == if moves[j].crd.CrdCreated? then Opening(Zero) else Resync
  {
    hide After;
    OneMore(moves, j);
  }
}

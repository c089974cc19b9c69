/** The API server's side of one watched collection: a log of object changes in
    revision order. The change at index i has revision i + 1, and the collection "at
    revision r" is what the first r changes leave behind. */
module ServerHistory {

  /** Objects are identified by namespace and name; the watch loop only ever sees the name. */
  datatype Key = Key(namespace: string, name: string)

  datatype Change =
    | Added(key: Key)
    | Modified(key: Key)
    | Deleted(key: Key)

  function Live(log: seq<Change>): set<Key> {
    if log == [] then {}
    else
      var before := Live(log[..|log| - 1]);
      match log[|log| - 1]
      case Added(k) => before + {k}
      case Modified(k) => before
      case Deleted(k) => before - {k}
  }

  function Names(keys: set<Key>): set<string> {
    set k | k in keys :: k.name
  }

  /** An object is added only while absent, and changed or deleted only while present. */
  ghost predicate Proper(log: seq<Change>) {
    forall i :: 0 <= i < |log| ==> (log[i].Added? <==> log[i].key !in Live(log[..i]))
  }

  ghost predicate NamesDistinct(keys: set<Key>) {
    forall k, l :: k in keys && l in keys && k.name == l.name ==> k == l
  }

  /** At no revision do two live objects share a name. */
  ghost predicate NeverShared(log: seq<Change>) {
    forall i :: 0 <= i <= |log| ==> NamesDistinct(Live(log[..i]))
  }

  lemma LiveStep(log: seq<Change>, i: nat)
    requires i < |log|
    ensures Live(log[..i + 1]) ==
            match log[i]
            case Added(k) => Live(log[..i]) + {k}
            case Modified(k) => Live(log[..i])
            case Deleted(k) => Live(log[..i]) - {k}
  {
    assert log[..i + 1][..i] == log[..i];
  }

  lemma {:induction false} LiveKeysOccur(log: seq<Change>, k: Key)
    requires k in Live(log)
    ensures exists i :: 0 <= i < |log| && log[i].key == k
  {
    var n := |log| - 1;
    if log[n].key != k {
      LiveKeysOccur(log[..n], k);
      var i :| 0 <= i < n && log[..n][i].key == k;
      assert log[i].key == k;
    }
  }

  /** A collection confined to one namespace (the apps of one space) never shares a name. */
  lemma OneNamespaceNeverShares(log: seq<Change>, ns: string)
    requires forall i :: 0 <= i < |log| ==> log[i].key.namespace == ns
    ensures NeverShared(log)
  {
    forall i, k, l | 0 <= i <= |log| && k in Live(log[..i]) && l in Live(log[..i]) && k.name == l.name
      ensures k == l
    {
      LiveKeysOccur(log[..i], k);
      LiveKeysOccur(log[..i], l);
    }
  }

  function LastTouched(log: seq<Change>, k: Key): (rev: nat)
    ensures rev <= |log|
    ensures rev > 0 ==> log[rev - 1].key == k
    ensures forall i :: rev <= i < |log| ==> log[i].key != k
  {
    if log == [] then 0
    else if log[|log| - 1].key == k then |log|
    else LastTouched(log[..|log| - 1], k)
  }

  /** The version an object carries in the event at index i: the revision of the change
      itself, except that a deleted object still carries the revision of its last change. */
  function ObjectVersion(log: seq<Change>, i: nat): (rev: nat)
    requires i < |log|
  {
    if log[i].Deleted? then LastTouched(log[..i], log[i].key) else i + 1
  }
}

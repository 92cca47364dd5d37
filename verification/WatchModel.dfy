/** What a list and a resumable watch of the cluster should add up to. */
module WatchModel {
  import opened Options
  import opened CacheKeys
  import opened CacheModel

  datatype EventType = Added | Modified | Deleted

  /** One event of the server's history: `version` is its resource version, `managed` whether the
      object names the operator as a field manager. */
  datatype Change = Change(etype: EventType, key: string, obj: Object, version: nat, managed: bool)

  /** The kind that the key starts with is one of those that are reconciled. */
  const Supported: string -> bool

  datatype Mutation = CreateResource(obj: Object) | UpdateResource(obj: Object) | DeleteResource(obj: Object)

  function MutationOf(c: Change): (m: Mutation)
    ensures m.obj == c.obj
    ensures (m.CreateResource? <==> c.etype.Added?) && (m.UpdateResource? <==> c.etype.Modified?) && (m.DeleteResource? <==> c.etype.Deleted?)
  {
    match c.etype
    case Added => CreateResource(c.obj)
    case Modified => UpdateResource(c.obj)
    case Deleted => DeleteResource(c.obj)
  }

  function Mutations(changes: seq<Change>): (r: seq<Mutation>)
    ensures |r| == |changes|
    ensures forall i :: 0 <= i < |changes| ==> r[i] == MutationOf(changes[i])
  {
    if changes == [] then [] else Mutations(changes[..|changes| - 1]) + [MutationOf(changes[|changes| - 1])]
  }

  // ---------------------------------------------------------------- versions

  ghost predicate Increasing(history: seq<Change>) {
    forall i, j :: 0 <= i < j < |history| ==> history[i].version < history[j].version
  }

  /** How many events a watch from this version leaves out. */
  function Position(history: seq<Change>, version: nat): (n: nat)
    ensures n <= |history|
    ensures n < |history| ==> history[n].version > version
    ensures n > 0 ==> history[n - 1].version <= version
    decreases |history|
  {
    if history == [] || history[|history| - 1].version <= version then |history|
    else
      var n := Position(history[..|history| - 1], version);
      n
  }

  /** Resuming after an event goes on with the next. */
  lemma {:induction false} PositionAfter(history: seq<Change>, i: nat)
    requires Increasing(history) && i < |history|
    ensures Position(history, history[i].version) == i + 1
  {
    var n := Position(history, history[i].version);
    Ordered(history, n, i);
    Ordered(history, i + 1, n - 1);
    Ordered(history, i, i + 1);
  }

  lemma {:induction false} Ordered(history: seq<Change>, i: int, j: int)
    requires Increasing(history)
    ensures 0 <= i <= j < |history| ==> history[i].version <= history[j].version
    ensures 0 <= i < j < |history| ==> history[i].version < history[j].version
  {
  }

  /** The events that a watch from one version on has delivered when it is at another. */
  function Between(history: seq<Change>, from: nat, to: nat): seq<Change>
    requires Position(history, from) <= Position(history, to)
  {
    history[Position(history, from)..Position(history, to)]
  }

  // ---------------------------------------------------------------- the mirror

  /** What one event does to the mirror. */
  function Handled(m: map<string, Object>, c: Change): map<string, Object> {
    if !c.managed && c.key !in m then m
    else if !Supported(c.key) then m
    else if c.etype.Deleted? then m - {c.key}
    else m[c.key := c.obj]
  }

  function Mirror(m: map<string, Object>, changes: seq<Change>): map<string, Object> {
    if changes == [] then m else Handled(Mirror(m, changes[..|changes| - 1]), changes[|changes| - 1])
  }

  /** What one event does to the entry of its own key. */
  function HandledValue(v: Option<Object>, c: Change): Option<Object> {
    if (!c.managed && v.None?) || !Supported(c.key) then v
    else if c.etype.Deleted? then None else Some(c.obj)
  }

  lemma {:induction false} HandledAt(m: map<string, Object>, c: Change, key: string)
    ensures Get(Handled(m, c), key) == if c.key == key then HandledValue(Get(m, key), c) else Get(m, key)
  {
  }

  lemma {:induction false} MirrorSnoc(m: map<string, Object>, changes: seq<Change>, c: Change)
    ensures Mirror(m, changes + [c]) == Handled(Mirror(m, changes), c)
    ensures Mutations(changes + [c]) == Mutations(changes) + [MutationOf(c)]
  {
    assert (changes + [c])[..|changes|] == changes;
  }

  predicate About(c: Change, key: string) {
    c.key == key && Supported(key)
  }

  predicate Puts(c: Change, key: string) {
    About(c, key) && !c.etype.Deleted?
  }

  predicate Deletes(c: Change, key: string) {
    About(c, key) && c.etype.Deleted?
  }

  ghost predicate NotDeletedFrom(changes: seq<Change>, i: nat, key: string) {
    forall j :: i <= j < |changes| ==> !Deletes(changes[j], key)
  }

  /** The key has been mirrored since the start or since an event that showed it to be managed. */
  ghost predicate Adopted(mirrored: bool, changes: seq<Change>, key: string) {
    || (mirrored && NotDeletedFrom(changes, 0, key))
    || exists i :: 0 <= i < |changes| && Puts(changes[i], key) && changes[i].managed && NotDeletedFrom(changes, i, key)
  }

  /** The last value seen of a key. */
  function LastPut(start: Option<Object>, changes: seq<Change>, key: string): Option<Object> {
    if changes == [] then start
    else
      var n := |changes| - 1;
      if Puts(changes[n], key) then Some(changes[n].obj) else LastPut(start, changes[..n], key)
  }

  lemma {:induction false} NotDeletedSnoc(changes: seq<Change>, c: Change, i: nat, key: string)
    requires i <= |changes|
    ensures NotDeletedFrom(changes + [c], i, key) <==> NotDeletedFrom(changes, i, key) && !Deletes(c, key)
  {
    var more := changes + [c];
    assert more[|changes|] == c;
    assert forall j :: i <= j < |changes| ==> more[j] == changes[j];
  }

  lemma {:induction false} AdoptedSnoc(mirrored: bool, changes: seq<Change>, c: Change, key: string)
    ensures Adopted(mirrored, changes + [c], key) <==>
      !Deletes(c, key) && (Adopted(mirrored, changes, key) || (Puts(c, key) && c.managed))
  {
    var more, n := changes + [c], |changes|;
    forall i | 0 <= i <= n ensures NotDeletedFrom(more, i, key) <==> NotDeletedFrom(changes, i, key) && !Deletes(c, key) {
      NotDeletedSnoc(changes, c, i, key);
    }
    if Adopted(mirrored, changes, key) && !Deletes(c, key) {
      if !(mirrored && NotDeletedFrom(changes, 0, key)) {
        var i :| 0 <= i < n && Puts(changes[i], key) && changes[i].managed && NotDeletedFrom(changes, i, key);
        assert Puts(more[i], key) && more[i].managed && NotDeletedFrom(more, i, key);
      }
    } else if Puts(c, key) && c.managed {
      assert more[n] == c && NotDeletedFrom(more, n, key);
    }
    if Adopted(mirrored, more, key) {
      if !(mirrored && NotDeletedFrom(more, 0, key)) {
        var i :| 0 <= i < |more| && Puts(more[i], key) && more[i].managed && NotDeletedFrom(more, i, key);
        assert i < n ==> Puts(changes[i], key) && changes[i].managed && NotDeletedFrom(changes, i, key);
      }
    }
  }

  /** The mirror holds exactly the keys that are adopted and not deleted since, each with the last
      value seen of it. */
  lemma {:induction false} MirrorIs(m: map<string, Object>, changes: seq<Change>, key: string)
    ensures Get(Mirror(m, changes), key) == if Adopted(key in m, changes, key) then LastPut(Get(m, key), changes, key) else None
    ensures key in Mirror(m, changes) <==> Adopted(key in m, changes, key)
  {
    hide Adopted;
    if changes == [] {
      AdoptedNone(key in m, key);
    } else {
      var n := |changes| - 1;
      MirrorIs(m, changes[..n], key);
      AdoptedSnoc(key in m, changes[..n], changes[n], key);
      assert changes == changes[..n] + [changes[n]];
    }
  }

  lemma {:induction false} AdoptedNone(mirrored: bool, key: string)
    ensures Adopted(mirrored, [], key) == mirrored
  {
  }

  /** The changes of one key. */
  function Only(changes: seq<Change>, key: string): seq<Change> {
    if changes == [] then []
    else
      var n := |changes| - 1;
      Only(changes[..n], key) + if changes[n].key == key then [changes[n]] else []
  }

  /** Each key depends on its own events alone, so it does not matter how the watches of several
      kinds interleave. */
  lemma {:induction false} KeysAreIndependent(m: map<string, Object>, changes: seq<Change>, key: string)
    ensures Get(Mirror(m, changes), key) == Get(Mirror(m, Only(changes, key)), key)
  {
    hide Handled, HandledValue, Get;
    if changes != [] {
      var n := |changes| - 1;
      KeysAreIndependent(m, changes[..n], key);
      var rest := Only(changes[..n], key);
      HandledAt(Mirror(m, changes[..n]), changes[n], key);
      HandledAt(Mirror(m, rest), changes[n], key);
      MirrorSnoc(m, rest, changes[n]);
      assert rest + [] == rest;
    }
  }

  /** If the events of a key come in its own watch's order among those of the others, its entry is
      as if that watch were alone. */
  lemma {:induction false} AnyInterleaving(m: map<string, Object>, changes: seq<Change>, own: seq<Change>, key: string)
    requires Only(changes, key) == Only(own, key)
    ensures Get(Mirror(m, changes), key) == Get(Mirror(m, own), key)
  {
    KeysAreIndependent(m, changes, key);
    KeysAreIndependent(m, own, key);
  }

  // ---------------------------------------------------------------- handing over from list to watch

  /** What the cluster holds after these events. */
  function Present(changes: seq<Change>, key: string): Option<Object> {
    if changes == [] then None
    else
      var n := |changes| - 1;
      if changes[n].key != key then Present(changes[..n], key)
      else if changes[n].etype.Deleted? then None
      else Some(changes[n].obj)
  }

  lemma {:induction false} PresentSnoc(changes: seq<Change>, c: Change, key: string)
    ensures Present(changes + [c], key) ==
      if c.key != key then Present(changes, key) else if c.etype.Deleted? then None else Some(c.obj)
  {
    assert (changes + [c])[..|changes|] == changes;
  }

  /** A list that shows objects as they are at some point, and every event from there on, make a
      mirror of the managed part of the cluster: an object that was listed, or has been seen to be
      managed since, is mirrored as it is now until it is deleted; others are not mirrored. */
  lemma {:induction false} HandOver(listed: map<string, Object>, history: seq<Change>, from: nat, to: nat, key: string)
    requires from <= to <= |history|
    requires key in listed ==> Supported(key) && Present(history[..from], key) == Some(listed[key])
    ensures Get(Mirror(listed, history[from..to]), key) ==
      if Adopted(key in listed, history[from..to], key) then Present(history[..to], key) else None
  {
    hide Handled, Get, Mirror, Mutations, Adopted, HandledValue, Present;
    if from < to {
      var before, c := history[from..to - 1], history[to - 1];
      HandOver(listed, history, from, to - 1, key);
      assert history[from..to] == before + [c] && history[..to] == history[..to - 1] + [c];
      MirrorSnoc(listed, before, c);
      HandledAt(Mirror(listed, before), c, key);
      PresentSnoc(history[..to - 1], c, key);
      AdoptedSnoc(key in listed, before, c, key);
      AdoptedSupported(key in listed, before, key);
      MirrorIs(listed, before, key);
      EntryOf(Mirror(listed, before), key);
      EventOnEntry(Get(Mirror(listed, before), key), Adopted(key in listed, before, key), c, key);
    } else {
      assert history[from..to] == [];
      MirrorNone(listed);
      AdoptedNone(key in listed, key);
      EntryOf(listed, key);
    }
  }

  /** In particular, an object that is listed whenever it is there, and is always managed, is mirrored
      exactly. */
  lemma {:induction false} ManagedHandOver(listed: map<string, Object>, history: seq<Change>, from: nat, to: nat, key: string)
    requires from <= to <= |history| && Supported(key)
    requires forall i :: from <= i < to && history[i].key == key ==> history[i].managed
    requires Get(listed, key) == Present(history[..from], key)
    ensures Get(Mirror(listed, history[from..to]), key) == Present(history[..to], key)
  {
    hide Handled, Get, Mirror, Mutations, Present;
    if from < to {
      var before, c := history[from..to - 1], history[to - 1];
      ManagedHandOver(listed, history, from, to - 1, key);
      assert history[from..to] == before + [c] && history[..to] == history[..to - 1] + [c];
      MirrorSnoc(listed, before, c);
      HandledAt(Mirror(listed, before), c, key);
      PresentSnoc(history[..to - 1], c, key);
    } else {
      assert history[from..to] == [];
      MirrorNone(listed);
    }
  }

  lemma {:induction false} EntryOf(m: map<string, Object>, key: string)
    ensures Get(m, key) == if key in m then Some(m[key]) else None
  {
  }

  lemma {:induction false} AdoptedSupported(mirrored: bool, changes: seq<Change>, key: string)
    ensures Adopted(mirrored, changes, key) ==> mirrored || Supported(key)
  {
  }

  lemma {:induction false} EventOnEntry(v: Option<Object>, adopted: bool, c: Change, key: string)
    requires c.key == key ==> (v.Some? <==> adopted) && (adopted ==> Supported(key))
    ensures c.key == key && !Deletes(c, key) && (adopted || (Puts(c, key) && c.managed)) ==>
      HandledValue(v, c) == if c.etype.Deleted? then None else Some(c.obj)
    ensures c.key == key && (Deletes(c, key) || (!adopted && !(Puts(c, key) && c.managed))) ==> HandledValue(v, c) == None
  {
  }

  lemma {:induction false} MirrorNone(m: map<string, Object>)
    ensures Mirror(m, []) == m && Mutations([]) == []
  {
  }
}

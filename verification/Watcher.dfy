/** The list and the watch loop of one resource, against a server that may close or fail the watch
    at any point. */
module Watchers {
  import opened Options
  import opened CacheKeys
  import opened CacheModel
  import opened ObjectCaches
  import opened WatchModel

  /** An object of a list. */
  datatype Item = Item(key: string, obj: Object, managed: bool, converts: bool)

  /** What the loop hears: whether a watch is opened, and what an open one delivers next.
      `NextChange` is the next event of the history, which may fail to be converted or sent. */
  datatype Answer =
    | Opened
    | Refused
    | Closed
    | Failed(expired: bool)
    | Bookmark(version: nat)
    | MalformedBookmark
    | NextChange(taken: bool)
    | Checkpoint
    | ContextDone

  datatype Result = Expired | NotOpened | Cancelled | StillRunning

  predicate Opening(a: Answer) {
    a.Opened? || a.Refused?
  }

  /** The watch is over, to be opened again. */
  predicate Ends(a: Answer) {
    a.Closed? || a == Failed(false) || a.MalformedBookmark? || a == NextChange(false)
  }

  /** The loop is over. */
  predicate Stops(a: Answer) {
    a.Refused? || a == Failed(true) || a.ContextDone?
  }

  /** A watch is opened at the beginning and whenever one is over, and at no other time. */
  predicate OpensAt(h: seq<Answer>, i: nat)
    requires i < |h|
  {
    Opening(h[i]) <==> i == 0 || Ends(h[i - 1])
  }

  /** So it is throughout, and the loop goes on until it is told to stop. */
  ghost predicate Heard(h: seq<Answer>) {
    (forall i :: 0 <= i < |h| ==> OpensAt(h, i)) && (forall i :: 0 <= i < |h| - 1 ==> !Stops(h[i]))
  }

  /** How many events have been taken. */
  function Taken(h: seq<Answer>): nat {
    if h == [] then 0 else Taken(h[..|h| - 1]) + if h[|h| - 1] == NextChange(true) then 1 else 0
  }

  lemma {:induction false} HeardMore(h: seq<Answer>, a: Answer)
    requires Heard(h) && (Opening(a) <==> h == [] || Ends(h[|h| - 1])) && (h != [] ==> !Stops(h[|h| - 1]))
    ensures Heard(h + [a]) && Taken(h + [a]) == Taken(h) + if a == NextChange(true) then 1 else 0
  {
    var more := h + [a];
    assert more[..|h|] == h && more[|h|] == a;
    forall i | 0 <= i < |more| ensures OpensAt(more, i) {
      assert i < |h| ==> OpensAt(h, i);
    }
  }

  /** A watch is to be opened. */
  predicate Due(h: seq<Answer>) {
    h == [] || Ends(h[|h| - 1])
  }

  /** A watch is open. */
  predicate Going(h: seq<Answer>) {
    h != [] && !Ends(h[|h| - 1]) && !Stops(h[|h| - 1])
  }

  lemma {:induction false} AfterAnswer(h: seq<Answer>, a: Answer)
    ensures Opening(a) <==> a.Opened? || a.Refused?
    ensures a.Closed? || a == Failed(false) || a.MalformedBookmark? || a == NextChange(false) ==> Due(h + [a])
    ensures a.Opened? || a.Bookmark? || a == NextChange(true) || a.Checkpoint? ==> Going(h + [a])
    ensures forall turns ::
      && (a == Failed(true) ==> EndedBy(h + [a], Expired, turns))
      && (a.Refused? ==> EndedBy(h + [a], NotOpened, turns))
      && (a.ContextDone? ==> EndedBy(h + [a], Cancelled, turns))
  {
  }

  lemma {:induction false} StillGoing(h: seq<Answer>, turns: nat)
    ensures (Due(h) || Going(h)) && |h| == turns ==> EndedBy(h, StillRunning, turns)
  {
  }

  /** The version is as far as the events taken and the bookmarks lead. */
  ghost predicate Follows(h: seq<Answer>, history: seq<Change>, from: nat, last: nat) {
    Heard(h) && Position(history, last) == from + Taken(h) && forall v: nat :: Bookmark(v) in h ==> v <= last
  }

  lemma {:induction false} FollowsMore(h: seq<Answer>, a: Answer, history: seq<Change>, from: nat, last: nat, last': nat)
    requires Follows(h, history, from, last) && last <= last'
    requires (Opening(a) <==> h == [] || Ends(h[|h| - 1])) && (h != [] ==> !Stops(h[|h| - 1]))
    requires Position(history, last') == Position(history, last) + if a == NextChange(true) then 1 else 0
    requires a.Bookmark? ==> a.version <= last'
    ensures Follows(h + [a], history, from, last')
  {
    hide Heard, Taken, Position;
    HeardMore(h, a);
  }

  /** Why the loop ended. */
  ghost predicate EndedBy(h: seq<Answer>, result: Result, turns: nat) {
    match result
    case Expired => h != [] && h[|h| - 1] == Failed(true)
    case NotOpened => h != [] && h[|h| - 1] == Refused
    case Cancelled => h != [] && h[|h| - 1] == ContextDone
    case StillRunning => |h| == turns && (h != [] ==> !Stops(h[|h| - 1]))
  }

  /** An object of the list counts if it is managed or was mirrored before. */
  predicate Lists(runtime: map<string, Object>, item: Item) {
    item.converts && Supported(item.key) && (item.managed || item.key in runtime)
  }

  function Snapshot(start: map<string, Object>, runtime: map<string, Object>, items: seq<Item>): map<string, Object> {
    if items == [] then start
    else
      var n := |items| - 1;
      var m := Snapshot(start, runtime, items[..n]);
      if Lists(runtime, items[n]) then m[items[n].key := items[n].obj] else m
  }

  lemma {:induction false} ListNone(start: map<string, Object>, runtime: map<string, Object>)
    ensures Snapshot(start, runtime, []) == start && Converted([]) == []
  {
  }

  /** One object more of a list. */
  lemma {:induction false} ListOne(start: map<string, Object>, runtime: map<string, Object>, items: seq<Item>, i: nat)
    requires i < |items|
    ensures var m, item := Snapshot(start, runtime, items[..i]), items[i];
      Snapshot(start, runtime, items[..i + 1]) == if Lists(runtime, item) then m[item.key := item.obj] else m
    ensures Converted(items[..i + 1]) == Converted(items[..i]) + if items[i].converts then [items[i].obj] else []
  {
    assert items[..i + 1][..i] == items[..i];
  }

  /** Nothing that converts is left out, and nothing else is sent. */
  lemma {:induction false} ConvertedIs(items: seq<Item>, x: Object)
    ensures x in Converted(items) <==> exists i :: 0 <= i < |items| && items[i].converts && items[i].obj == x
  {
    if items != [] {
      var n := |items| - 1;
      ConvertedIs(items[..n], x);
      if i :| 0 <= i < n && items[..n][i].converts && items[..n][i].obj == x {
        assert items[i].converts && items[i].obj == x;
      }
      if i :| 0 <= i < |items| && items[i].converts && items[i].obj == x {
        assert i < n ==> items[..n][i].converts && items[..n][i].obj == x;
      }
    }
  }

  /** If all converts, all is sent in order. */
  lemma {:induction false} AllConverted(items: seq<Item>)
    requires forall i :: 0 <= i < |items| ==> items[i].converts
    ensures |Converted(items)| == |items| && forall i :: 0 <= i < |items| ==> Converted(items)[i] == items[i].obj
  {
    if items != [] {
      AllConverted(items[..|items| - 1]);
    }
  }

  /** This is an object of the list that the snapshot should hold: it converts, its kind is one of
      those that are reconciled, and it is managed or was mirrored before. */
  ghost predicate Belongs(runtime: map<string, Object>, item: Item, key: string) {
    item.key == key && item.converts && Supported(key) && (item.managed || key in runtime)
  }

  /** A list has one object of each key: then the snapshot holds exactly those that belong. */
  lemma {:induction false} SnapshotIs(runtime: map<string, Object>, items: seq<Item>, key: string, obj: Object)
    requires forall i, j :: 0 <= i < j < |items| ==> items[i].key != items[j].key
    ensures Get(Snapshot(map[], runtime, items), key) == Some(obj) <==>
      exists i :: 0 <= i < |items| && items[i].key == key && items[i].obj == obj && items[i].converts && Supported(key)
        && (items[i].managed || key in runtime)
  {
    if items != [] {
      var n := |items| - 1;
      SnapshotIs(runtime, items[..n], key, obj);
      if i :| 0 <= i < n && Belongs(runtime, items[..n][i], key) && items[..n][i].obj == obj {
        assert Belongs(runtime, items[i], key) && items[i].obj == obj;
      }
      if i :| 0 <= i < |items| && Belongs(runtime, items[i], key) && items[i].obj == obj {
        assert i < n ==> Belongs(runtime, items[..n][i], key) && items[..n][i].obj == obj;
      }
      if Get(Snapshot(map[], runtime, items[..n]), key).Some? {
        SnapshotKey(runtime, items[..n], key);
      }
    }
  }

  lemma {:induction false} SnapshotKey(runtime: map<string, Object>, items: seq<Item>, key: string)
    requires key in Snapshot(map[], runtime, items)
    ensures exists i :: 0 <= i < |items| && items[i].key == key
  {
    var n := |items| - 1;
    if items[n].key != key {
      SnapshotKey(runtime, items[..n], key);
      var i :| 0 <= i < n && items[..n][i].key == key;
      assert items[i].key == key;
    }
  }

  /** The objects of a list that are sent to the stream: all that convert. */
  function Converted(items: seq<Item>): seq<Object> {
    if items == [] then []
    else
      var n := |items| - 1;
      Converted(items[..n]) + if items[n].converts then [items[n].obj] else []
  }

  /** An object with this key is listed and counts. */
  ghost predicate Counts(items: seq<Item>, runtime: map<string, Object>, key: string) {
    exists i :: 0 <= i < |items| && Belongs(runtime, items[i], key)
  }

  /** The list shows its objects as they are after these events. */
  ghost predicate Shows(items: seq<Item>, changes: seq<Change>) {
    && (forall i, j :: 0 <= i < j < |items| ==> items[i].key != items[j].key)
    && forall i :: 0 <= i < |items| ==> Present(changes, items[i].key) == Some(items[i].obj)
  }

  lemma {:induction false} SnapshotShows(runtime: map<string, Object>, items: seq<Item>, changes: seq<Change>, key: string)
    requires Shows(items, changes)
    ensures key in Snapshot(map[], runtime, items) <==> Counts(items, runtime, key)
    ensures key in Snapshot(map[], runtime, items) ==>
      Supported(key) && Present(changes, key) == Some(Snapshot(map[], runtime, items)[key])
  {
    hide Snapshot, Present;
    var m := Snapshot(map[], runtime, items);
    if key in m {
      SnapshotIs(runtime, items, key, m[key]);
      var i :| 0 <= i < |items| && items[i].key == key && items[i].obj == m[key] && items[i].converts && Supported(key)
        && (items[i].managed || key in runtime);
      assert Belongs(runtime, items[i], key);
    }
    if Counts(items, runtime, key) {
      var i :| 0 <= i < |items| && Belongs(runtime, items[i], key);
      SnapshotIs(runtime, items, key, items[i].obj);
    }
  }

  /** What the runtime cache should hold: the objects of the cluster as they are, of those that were
      listed and counted or have been seen to be managed since. */
  ghost predicate ManagedPart(cache: map<string, Object>, runtime: map<string, Object>, items: seq<Item>,
                              history: seq<Change>, from: nat, to: nat)
    requires from <= to <= |history|
  {
    forall key :: Get(cache, key) ==
      if Adopted(Counts(items, runtime, key), history[from..to], key) then Present(history[..to], key) else None
  }

  lemma {:induction false} MirrorsManagedPart(runtime: map<string, Object>, items: seq<Item>, history: seq<Change>, from: nat, to: nat)
    requires from <= to <= |history| && Shows(items, history[..from])
    ensures ManagedPart(Mirror(Snapshot(map[], runtime, items), history[from..to]), runtime, items, history, from, to)
  {
    hide Mirror, Snapshot, Present, Adopted, Get, Counts, Shows;
    var listed := Snapshot(map[], runtime, items);
    forall key ensures Get(Mirror(listed, history[from..to]), key) ==
      if Adopted(Counts(items, runtime, key), history[from..to], key) then Present(history[..to], key) else None
    {
      SnapshotShows(runtime, items, history[..from], key);
      HandOver(listed, history, from, to, key);
    }
  }

  /** The operator has no claim to the object: it was not mirrored, is not listed as managed and has
      not been seen to be managed since. */
  ghost predicate NotOurs(runtime: map<string, Object>, items: seq<Item>, changes: seq<Change>, key: string) {
    && key !in runtime
    && (forall i :: 0 <= i < |items| && items[i].key == key ==> !items[i].managed)
    && (forall i :: 0 <= i < |changes| && changes[i].key == key ==> !changes[i].managed)
  }

  /** The object is listed as managed and nothing has happened to it since. */
  ghost predicate Ours(item: Item, changes: seq<Change>) {
    && item.converts && item.managed && Supported(item.key)
    && (forall j :: 0 <= j < |changes| ==> changes[j].key != item.key)
  }

  /** What that means for single objects: those the operator has no claim to are not in the cache,
      nor are those of kinds that are not reconciled; its own are there as they were listed. */
  ghost predicate OnlyManaged(cache: map<string, Object>, runtime: map<string, Object>, items: seq<Item>, changes: seq<Change>) {
    && (forall key :: key in cache ==> Supported(key) && !NotOurs(runtime, items, changes, key))
    && (forall i :: 0 <= i < |items| && Ours(items[i], changes) ==> Get(cache, items[i].key) == Some(items[i].obj))
  }

  lemma {:induction false} MirrorsOnlyManaged(cache: map<string, Object>, runtime: map<string, Object>, items: seq<Item>,
                                              history: seq<Change>, from: nat, to: nat)
    requires from <= to <= |history| && Shows(items, history[..from])
    requires ManagedPart(cache, runtime, items, history, from, to)
    ensures OnlyManaged(cache, runtime, items, history[from..to])
  {
    hide Present, Get;
    var changes := history[from..to];
    forall key | key in cache ensures Supported(key) && !NotOurs(runtime, items, changes, key) {
      InCache(cache, key);
      AdoptedSupported(Counts(items, runtime, key), changes, key);
    }
    forall i | 0 <= i < |items| && Ours(items[i], changes) ensures Get(cache, items[i].key) == Some(items[i].obj) {
      assert Belongs(runtime, items[i], items[i].key);
      assert NotDeletedFrom(changes, 0, items[i].key);
      assert forall k :: from <= k < to ==> history[k] == changes[k - from];
      PresentSame(history, from, to, items[i].key);
    }
  }

  lemma {:induction false} InCache(cache: map<string, Object>, key: string)
    ensures key in cache <==> Get(cache, key).Some?
  {
  }

  lemma {:induction false} PresentSame(history: seq<Change>, from: nat, to: nat, key: string)
    requires from <= to <= |history| && forall i :: from <= i < to ==> history[i].key != key
    ensures Present(history[..to], key) == Present(history[..from], key)
  {
    if from < to {
      PresentSame(history, from, to - 1, key);
      assert history[..to] == history[..to - 1] + [history[to - 1]];
      PresentSnoc(history[..to - 1], history[to - 1], key);
    }
  }

  class Watcher {
    const runtimeCache: ObjectCache
    /** The objects sent to the stream as a snapshot, and the mutations after it. */
    var data: seq<Object>
    var sent: seq<Mutation>
    /** What the watch loop has heard, and how many sends of a snapshot have failed. */
    ghost var heard: seq<Answer>
    ghost var failures: nat

    constructor (cache: ObjectCache)
      ensures runtimeCache == cache && data == [] && sent == []
    {
      runtimeCache := cache;
      data, sent, heard, failures := [], [], [], 0;
    }

    method SendObject(obj: Object) returns (ok: bool)
      modifies this`data, this`failures
      ensures data == old(data) + if ok then [obj] else []
      ensures failures == old(failures) + if ok then 0 else 1
    {
      ok := *;
      if ok {
        data := data + [obj];
      } else {
        failures := failures + 1;
      }
    }

    /** Asks for a watch. */
    method OpenWatch() returns (ok: bool)
      modifies this`heard
      ensures heard == old(heard) + [if ok then Opened else Refused]
    {
      ok := *;
      heard := heard + [if ok then Opened else Refused];
    }

    /** What an open watch delivers after these events. A bookmark is a version up to which there are
        no others. */
    method Hear(history: seq<Change>, last: nat, next: nat) returns (a: Answer)
      requires next == Position(history, last)
      modifies this`heard
      ensures heard == old(heard) + [a] && !Opening(a)
      ensures a.NextChange? ==> next < |history|
      ensures a.Bookmark? ==> last <= a.version && Position(history, a.version) == next
    {
      a := *;
      if Opening(a) || (a.NextChange? && next >= |history|)
        || (a.Bookmark? && !(last <= a.version && Position(history, a.version) == next))
      {
        a := Checkpoint;
      }
      heard := heard + [a];
    }

    /** Sends the objects of a list and sets those aside that count; a send that fails ends it. */
    method List(items: seq<Item>, pendingSnapshot: ObjectMap) returns (ok: bool)
      requires pendingSnapshot != runtimeCache.objects
      modifies pendingSnapshot, this`data, this`failures
      ensures failures == old(failures) + if ok then 0 else 1
      ensures ok ==> pendingSnapshot.m == Snapshot(old(pendingSnapshot.m), runtimeCache.objects.m, items)
      ensures ok ==> data == old(data) + Converted(items)
      ensures !ok ==> exists n :: 0 <= n < |items| && items[n].converts && data == old(data) + Converted(items[..n])
    {
      hide Snapshot, Converted;
      ListNone(pendingSnapshot.m, runtimeCache.objects.m);
      assert items[..0] == [];
      var i := 0;
      while i < |items|
        modifies pendingSnapshot, this`data, this`failures
        invariant failures == old(failures)
        invariant 0 <= i <= |items|
        invariant pendingSnapshot.m == Snapshot(old(pendingSnapshot.m), runtimeCache.objects.m, items[..i])
        invariant data == old(data) + Converted(items[..i])
      {
        var item := items[i];
        ListOne(old(pendingSnapshot.m), runtimeCache.objects.m, items, i);
        i := i + 1;
        if !item.converts {
          continue;
        }
        ok := SendObject(item.obj);
        if !ok {
          return;
        }
        if !item.managed && item.key !in runtimeCache.objects.m {
          continue;
        }
        if Supported(item.key) {
          pendingSnapshot.m := pendingSnapshot.m[item.key := item.obj];
        }
      }
      assert items[..|items|] == items;
      ok := true;
    }

    /** Brings an event to the runtime cache. */
    method HandleRuntime(c: Change) returns (ok: bool)
      requires runtimeCache.Idle()
      modifies runtimeCache, runtimeCache.objects
      ensures runtimeCache.Idle() && runtimeCache.objects == old(runtimeCache.objects)
      ensures runtimeCache.objects.m == Handled(old(runtimeCache.objects.m), c)
      ensures if Get(runtimeCache.objects.m, c.key) == Get(old(runtimeCache.objects.m), c.key) then ok
              else runtimeCache.Announced(c.key, ok)
    {
      ok := true;
      if !c.managed && c.key !in runtimeCache.objects.m {
        return;
      }
      if !Supported(c.key) {
        return;
      }
      match c.etype
      case Added => ok := runtimeCache.Insert(c.key, c.obj);
      case Modified => ok := runtimeCache.Insert(c.key, c.obj);
      case Deleted => ok := runtimeCache.Delete(c.key);
    }

    /** Sends an event on and brings it to the runtime cache. */
    method ProcessMutation(c: Change)
      requires runtimeCache.Idle()
      modifies this`sent, runtimeCache, runtimeCache.objects
      ensures runtimeCache.Idle() && runtimeCache.objects == old(runtimeCache.objects)
      ensures sent == old(sent) + [MutationOf(c)]
      ensures runtimeCache.objects.m == Handled(old(runtimeCache.objects.m), c)
    {
      sent := sent + [MutationOf(c)];
      var ok := HandleRuntime(c);
    }

    /** The events between two versions have been sent and mirrored, each once. */
    twostate predicate Delivered(history: seq<Change>, from: nat, to: nat)
      requires from <= to <= |history|
      reads this, runtimeCache, runtimeCache.objects
    {
      && runtimeCache.Idle() && runtimeCache.objects == old(runtimeCache.objects)
      && Gave(old(sent), sent, old(runtimeCache.objects.m), runtimeCache.objects.m, history[from..to])
    }

    /** What was heard since, as it bears on the events delivered up to a version. */
    twostate predicate Followed(history: seq<Change>, from: nat, last: nat)
      reads this
    {
      old(heard) <= heard && Follows(heard[|old(heard)|..], history, from, last)
    }

    /** Watches from a version on, opening the watch again at the last version seen whenever it is
        closed or fails, until the version has expired or the context is done. `turns` bounds how
        long the environment is followed. */
    method WatchEvents(history: seq<Change>, version: nat, turns: nat) returns (last: nat, result: Result)
      requires Increasing(history) && runtimeCache.Idle()
      modifies this`sent, this`heard, runtimeCache, runtimeCache.objects
      ensures version <= last && Position(history, version) <= Position(history, last)
      ensures Delivered(history, Position(history, version), Position(history, last))
      ensures Followed(history, Position(history, version), last) && EndedBy(heard[|old(heard)|..], result, turns)
    {
      hide Position, Handled, MutationOf, Increasing, Opening, OnTrack, Gave, Follows, Heard, Taken, Due, Going, EndedBy;
      last, result := version, StillRunning;
      ghost var h: seq<Answer> := [];
      ghost var sent0, mirror0 := sent, runtimeCache.objects.m;
      OnTrackAtFirst(history, version, sent0, mirror0);
      var left := turns;
      while left > 0
        invariant result.StillRunning? && runtimeCache.Idle() && runtimeCache.objects == old(runtimeCache.objects)
        invariant heard == old(heard) + h && |h| + left == turns
        invariant OnTrack(h, history, version, last, sent0, sent, mirror0, runtimeCache.objects.m)
        invariant if left > 0 then Due(h) else Due(h) || Going(h)
        decreases left
      {
        left := left - 1;
        var opens := OpenWatch();
        AfterAnswer(h, if opens then Opened else Refused);
        OnTrackMore(h, if opens then Opened else Refused, history, version, last, last, sent0, sent, sent, mirror0,
          runtimeCache.objects.m, runtimeCache.objects.m);
        h := h + [if opens then Opened else Refused];
        if !opens {
          result := NotOpened;
          break;
        }
        while left > 0
          invariant result.StillRunning? && runtimeCache.Idle() && runtimeCache.objects == old(runtimeCache.objects)
          invariant heard == old(heard) + h && |h| + left == turns
          invariant OnTrack(h, history, version, last, sent0, sent, mirror0, runtimeCache.objects.m)
          invariant Going(h)
          decreases left
        {
          left := left - 1;
          ghost var was, sentWas, mirrorWas := last, sent, runtimeCache.objects.m;
          var answer;
          answer, last := Turn(history, last);
          AfterAnswer(h, answer);
          OnTrackMore(h, answer, history, version, was, last, sent0, sentWas, sent, mirror0, mirrorWas, runtimeCache.objects.m);
          h := h + [answer];
          if answer.Closed? || answer.MalformedBookmark? || answer == NextChange(false) {
            break;
          }
          if answer.ContextDone? {
            result := Cancelled;
            break;
          }
          if answer.Failed? {
            if answer.expired {
              result := Expired;
            }
            break;
          }
        }
        if !result.StillRunning? {
          break;
        }
      }
      assert heard[|old(heard)|..] == h;
      StillGoing(h, turns);
      WasOnTrack(h, history, version, last, sent0, sent, mirror0, runtimeCache.objects.m);
    }

    /** What the open watch delivers next: a bookmark or an event that is taken moves the version on. */
    method Turn(history: seq<Change>, version: nat) returns (answer: Answer, last: nat)
      requires Increasing(history) && runtimeCache.Idle()
      modifies this`sent, this`heard, runtimeCache, runtimeCache.objects
      ensures heard == old(heard) + [answer] && !Opening(answer) && version <= last
      ensures runtimeCache.Idle() && runtimeCache.objects == old(runtimeCache.objects)
      ensures answer.Bookmark? ==> last == answer.version
      ensures !answer.Bookmark? && answer != NextChange(true) ==> last == version
      ensures var next := Position(history, version);
        if answer == NextChange(true) then
          && next < |history| && last == history[next].version && Position(history, last) == next + 1
          && sent == old(sent) + [MutationOf(history[next])]
          && runtimeCache.objects.m == Handled(old(runtimeCache.objects.m), history[next])
        else
          Position(history, last) == next && sent == old(sent) && runtimeCache.objects.m == old(runtimeCache.objects.m)
    {
      hide Position, Handled, MutationOf;
      last := version;
      var next := Position(history, version);
      answer := Hear(history, version, next);
      match answer {
        case Bookmark(v) =>
          last := v;
        case NextChange(taken) =>
          if taken {
            ProcessMutation(history[next]);
            VersionGrows(history, version, next);
            last := history[next].version;
          }
        case _ =>
      }
    }

    /** Lists the objects, hands the snapshot to the cache and watches from the version of the
        list on. */
    method Run(items: seq<Item>, history: seq<Change>, version: nat, turns: nat) returns (last: nat, handedOver: bool)
      requires Increasing(history) && runtimeCache.Idle()
      modifies this`data, this`sent, this`heard, this`failures, runtimeCache, runtimeCache.objects
      ensures version <= last && Position(history, version) <= Position(history, last)
      ensures handedOver ==> data == old(data) + Converted(items)
      ensures handedOver && Shows(items, history[..Position(history, version)]) ==>
        ManagedPart(runtimeCache.objects.m, old(runtimeCache.objects.m), items, history, Position(history, version), Position(history, last))
      ensures handedOver && Shows(items, history[..Position(history, version)]) ==>
        OnlyManaged(runtimeCache.objects.m, old(runtimeCache.objects.m), items, history[Position(history, version)..Position(history, last)])
      ensures handedOver ==> runtimeCache.objects.m == Mirror(Snapshot(map[], old(runtimeCache.objects.m), items), Between(history, version, last))
      ensures handedOver ==> sent == old(sent) + Mutations(Between(history, version, last))
      ensures !handedOver ==> last == version && sent == old(sent)
      ensures !handedOver ==> failures > old(failures) || runtimeCache.cancels > old(runtimeCache.cancels)
      ensures handedOver ==> Followed(history, Position(history, version), last)
    {
      hide Position, Mutations, Mirror, Snapshot, ManagedPart, OnlyManaged, Shows, Converted;
      last := version;
      var pendingSnapshot := new ObjectMap();
      handedOver := List(items, pendingSnapshot);
      if handedOver {
        handedOver := runtimeCache.ReplaceAll(pendingSnapshot);
      }
      if handedOver {
        var result;
        last, result := WatchEvents(history, version, turns);
        if Shows(items, history[..Position(history, version)]) {
          MirrorsManagedPart(old(runtimeCache.objects.m), items, history, Position(history, version), Position(history, last));
          MirrorsOnlyManaged(runtimeCache.objects.m, old(runtimeCache.objects.m), items, history, Position(history, version), Position(history, last));
        }
      }
    }
  }

  lemma {:induction false} NothingHeard(history: seq<Change>, version: nat)
    ensures Follows([], history, Position(history, version), version)
  {
  }

  lemma {:induction false} VersionGrows(history: seq<Change>, last: nat, next: nat)
    requires Increasing(history) && next < |history| && next == Position(history, last)
    ensures last < history[next].version && Position(history, history[next].version) == next + 1
  {
    PositionAfter(history, next);
  }

  /** These events have been sent, in order, and mirrored. */
  ghost predicate Gave(was: seq<Mutation>, sent: seq<Mutation>, m: map<string, Object>, mirror: map<string, Object>, changes: seq<Change>) {
    sent == was + Mutations(changes) && mirror == Mirror(m, changes)
  }

  lemma {:induction false} GaveNothing(was: seq<Mutation>, m: map<string, Object>, history: seq<Change>, from: nat)
    requires from <= |history|
    ensures Gave(was, was, m, m, history[from..from])
  {
    assert history[from..from] == [];
    MirrorNone(m);
  }

  lemma {:induction false} GaveMore(was: seq<Mutation>, sent: seq<Mutation>, sent': seq<Mutation>, m: map<string, Object>,
                                    mirror: map<string, Object>, mirror': map<string, Object>, history: seq<Change>, from: nat, next: nat, more: bool)
    requires from <= next <= |history| && Gave(was, sent, m, mirror, history[from..next])
    requires if more then next < |history| && sent' == sent + [MutationOf(history[next])] && mirror' == Handled(mirror, history[next])
             else sent' == sent && mirror' == mirror
    ensures if more then Gave(was, sent', m, mirror', history[from..next + 1]) else Gave(was, sent', m, mirror', history[from..next])
  {
    hide Handled, Mirror, Mutations, MutationOf;
    if more {
      MirrorNext(m, history, from, next);
    }
  }

  /** The answers so far have been followed, and the events they lead to sent and mirrored. */
  ghost predicate OnTrack(h: seq<Answer>, history: seq<Change>, version: nat, last: nat, sent0: seq<Mutation>, sent: seq<Mutation>,
                          mirror0: map<string, Object>, mirror: map<string, Object>)
  {
    && version <= last && Position(history, version) <= Position(history, last)
    && Follows(h, history, Position(history, version), last)
    && Gave(sent0, sent, mirror0, mirror, history[Position(history, version)..Position(history, last)])
  }

  lemma {:induction false} OnTrackAtFirst(history: seq<Change>, version: nat, sent: seq<Mutation>, mirror: map<string, Object>)
    ensures OnTrack([], history, version, version, sent, sent, mirror, mirror) && Due([])
  {
    hide Position, Gave, Follows;
    NothingHeard(history, version);
    GaveNothing(sent, mirror, history, Position(history, version));
  }

  lemma {:induction false} OnTrackMore(h: seq<Answer>, a: Answer, history: seq<Change>, version: nat, last: nat, last': nat,
                                       sent0: seq<Mutation>, sent: seq<Mutation>, sent': seq<Mutation>,
                                       mirror0: map<string, Object>, mirror: map<string, Object>, mirror': map<string, Object>)
    requires OnTrack(h, history, version, last, sent0, sent, mirror0, mirror) && last <= last'
    requires if Opening(a) then Due(h) else Going(h)
    requires a.Bookmark? ==> a.version <= last'
    requires var next := Position(history, last);
      if a == NextChange(true) then
        && next < |history| && Position(history, last') == next + 1
        && sent' == sent + [MutationOf(history[next])] && mirror' == Handled(mirror, history[next])
      else Position(history, last') == next && sent' == sent && mirror' == mirror
    ensures OnTrack(h + [a], history, version, last', sent0, sent', mirror0, mirror')
  {
    hide Position, Gave, Follows, Handled, MutationOf;
    FollowsMore(h, a, history, Position(history, version), last, last');
    GaveMore(sent0, sent, sent', mirror0, mirror, mirror', history, Position(history, version), Position(history, last), a == NextChange(true));
  }

  lemma {:induction false} WasOnTrack(h: seq<Answer>, history: seq<Change>, version: nat, last: nat, sent0: seq<Mutation>, sent: seq<Mutation>,
                                      mirror0: map<string, Object>, mirror: map<string, Object>)
    requires OnTrack(h, history, version, last, sent0, sent, mirror0, mirror)
    ensures version <= last && Position(history, version) <= Position(history, last)
    ensures Follows(h, history, Position(history, version), last)
    ensures Gave(sent0, sent, mirror0, mirror, history[Position(history, version)..Position(history, last)])
  {
  }

  lemma {:induction false} MirrorNext(m: map<string, Object>, history: seq<Change>, from: nat, next: nat)
    requires from <= next < |history|
    ensures Mirror(m, history[from..next + 1]) == Handled(Mirror(m, history[from..next]), history[next])
    ensures Mutations(history[from..next + 1]) == Mutations(history[from..next]) + [MutationOf(history[next])]
  {
    assert history[from..next + 1] == history[from..next] + [history[next]];
    MirrorSnoc(m, history[from..next], history[next]);
  }
}

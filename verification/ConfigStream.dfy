/** The configuration stream: a snapshot, then mutations, on every connection anew. */
module ConfigProtocol {
  import opened Options
  import opened CacheKeys
  import opened CacheModel

  /** What the server sends. */
  datatype Message =
    | Configure
    | ResourceData(kind: Kind, namespace: string, name: string, obj: Object)
    | SnapshotComplete
    | CreateOrUpdate(kind: Kind, namespace: string, name: string, obj: Object)
    | Remove(kindName: string, namespace: string, name: string)
    | UnknownMutation
    | UnknownUpdate

  /** The key of an object; a kind that is not supported has none. */
  function KeyOf(kind: Kind, namespace: string, name: string): Option<string> {
    match KindName(kind)
    case None => None
    case Some(kindName) => Some(CacheKey(kindName, namespace, name))
  }

  /** The key a message is about, if any. */
  function Concerns(m: Message): Option<string> {
    match m
    case ResourceData(kind, namespace, name, _) => KeyOf(kind, namespace, name)
    case CreateOrUpdate(kind, namespace, name, _) => KeyOf(kind, namespace, name)
    case Remove(kindName, namespace, name) => Some(CacheKey(kindName, namespace, name))
    case _ => None
  }

  function Brings(m: Message): Option<Object> {
    if m.ResourceData? || m.CreateOrUpdate? then Some(m.obj) else None
  }

  predicate Complete(messages: seq<Message>) {
    SnapshotComplete in messages
  }

  /** Objects and then the end of the snapshot, once; only then mutations. */
  ghost predicate Follows(messages: seq<Message>, i: nat)
    requires i < |messages|
  {
    match messages[i]
    case Configure => true
    case ResourceData(_, _, _, _) => !Complete(messages[..i])
    case SnapshotComplete => !Complete(messages[..i])
    case CreateOrUpdate(_, _, _, _) => Complete(messages[..i])
    case Remove(_, _, _) => Complete(messages[..i])
    case _ => false
  }

  ghost predicate InOrder(messages: seq<Message>) {
    forall i :: 0 <= i < |messages| ==> Follows(messages, i)
  }

  /** The value a key has according to the last message about it. */
  function Latest(messages: seq<Message>, key: string): Option<Object> {
    if messages == [] then None
    else
      var n := |messages| - 1;
      if Concerns(messages[n]) == Some(key) then Brings(messages[n]) else Latest(messages[..n], key)
  }

  /** The last connection that completed its snapshot decides, with its mutations since. */
  function Replay(sessions: seq<seq<Message>>, key: string): Option<Object> {
    if sessions == [] then None
    else
      var n := |sessions| - 1;
      if Complete(sessions[n]) then Latest(sessions[n], key) else Replay(sessions[..n], key)
  }

  /** A key stands for one object: messages about different objects never meet in the cache. */
  lemma {:induction false} KeyIsIdentity(kind: Kind, namespace: string, name: string, kind': Kind, namespace': string, name': string)
    requires !kind.Unsupported? && SlashFree(namespace) && SlashFree(namespace')
    ensures KeyOf(kind, namespace, name) == KeyOf(kind', namespace', name') <==>
      kind == kind' && namespace == namespace' && name == name'
  {
    hide CacheKey;
    if !kind'.Unsupported? {
      CacheKeyInjective(KindName(kind).value, namespace, name, KindName(kind').value, namespace', name');
      if KindName(kind) == KindName(kind') {
        KindNamesDiffer(kind, kind');
      }
    }
  }

  lemma {:induction false} LatestSnoc(messages: seq<Message>, m: Message, key: string)
    ensures Latest(messages + [m], key) == if Concerns(m) == Some(key) then Brings(m) else Latest(messages, key)
  {
    assert (messages + [m])[..|messages|] == messages;
  }

  lemma {:induction false} CompleteSnoc(messages: seq<Message>, m: Message)
    ensures Complete(messages + [m]) <==> Complete(messages) || m == SnapshotComplete
  {
  }

  lemma {:induction false} InOrderSnoc(messages: seq<Message>, m: Message)
    requires InOrder(messages)
    ensures InOrder(messages + [m]) <==> Follows(messages + [m], |messages|)
  {
    var more := messages + [m];
    assert more[..|messages|] == messages;
    forall i | 0 <= i < |messages| ensures Follows(more, i) {
      assert more[..i] == messages[..i];
      assert Follows(messages, i);
    }
  }

  /** A connection accepts what is in order, and unless cancelled all of it. */
  ghost predicate Accepted(messages: seq<Message>, n: nat, cancelled: bool)
    requires n <= |messages|
  {
    InOrder(messages[..n]) && (!cancelled && n < |messages| ==> !InOrder(messages[..n + 1]))
  }

  /** Whether a message may come next. */
  predicate Fits(m: Message, complete: bool) {
    match m
    case Configure => true
    case ResourceData(_, _, _, _) => !complete
    case SnapshotComplete => !complete
    case CreateOrUpdate(_, _, _, _) => complete
    case Remove(_, _, _) => complete
    case _ => false
  }

  lemma {:induction false} FitsFollows(messages: seq<Message>, m: Message)
    ensures Follows(messages + [m], |messages|) <==> Fits(m, Complete(messages))
  {
    assert (messages + [m])[..|messages|] == messages;
  }

  /** Where nothing is completed, the connections before decide. */
  lemma {:induction false} ReplaySnoc(past: seq<seq<Message>>, now: seq<Message>, key: string)
    ensures Replay(past + [now], key) == if Complete(now) then Latest(now, key) else Replay(past, key)
  {
    assert (past + [now])[..|past|] == past;
  }
}

/** The client of that stream: its snapshot is built in a map that the cache then takes over. */
module ConfigClients {
  import opened Options
  import opened CacheKeys
  import opened CacheModel
  import opened ObjectCaches
  import opened ConfigProtocol

  class ConfigClient {
    const cache: ObjectCache
    var pendingSnapshot: ObjectMap
    var snapshotComplete: bool
    /** What earlier connections accepted, and this one so far. */
    ghost var past: seq<seq<Message>>
    ghost var now: seq<Message>

    /** The cache is a replay of the last completed snapshot. */
    ghost predicate Shows()
      reads this, cache, cache.objects
    {
      cache.Idle() && forall key :: Get(cache.objects.m, key) == Replay(past + [now], key)
    }

    /** Until the snapshot is complete it is built apart from the cache; then it is the cache's. */
    ghost predicate Valid()
      reads this, cache, cache.objects, pendingSnapshot
    {
      && Shows() && InOrder(now) && snapshotComplete == Complete(now)
      && (!snapshotComplete ==>
        pendingSnapshot != cache.objects && forall key :: Get(pendingSnapshot.m, key) == Latest(now, key))
      && (snapshotComplete ==> pendingSnapshot == cache.objects)
    }

    constructor ()
      ensures Shows() && past == [] && now == []
      ensures fresh(cache) && fresh(cache.objects)
    {
      cache := new ObjectCache();
      pendingSnapshot := new ObjectMap();
      snapshotComplete := false;
      past, now := [], [];
    }

    /** Puts an object of the snapshot aside. */
    method HandleData(m: Message)
      requires Valid() && m.ResourceData? && !snapshotComplete
      modifies this`now, pendingSnapshot
      ensures Valid() && now == old(now) + [m]
      ensures pendingSnapshot.m == match KindName(m.kind)
        case None => old(pendingSnapshot.m)
        case Some(kindName) => old(pendingSnapshot.m)[CacheKey(kindName, m.namespace, m.name) := m.obj]
    {
      hide Replay, Latest, Complete, InOrder, Concerns, Brings, CacheKey, KindName;
      Accepts(past, now, m);
      var key := KeyOf(m.kind, m.namespace, m.name);
      if key.Some? {
        pendingSnapshot.m := pendingSnapshot.m[key.value := m.obj];
      }
      DataConcerns(m);
      now := now + [m];
    }

    /** The cache takes the snapshot over; a cancelled takeover ends the connection. */
    method HandleComplete() returns (ok: bool)
      requires Valid() && !snapshotComplete
      modifies this`now, this`snapshotComplete, cache
      ensures now == old(now) + [SnapshotComplete] && Shows() && InOrder(now)
      ensures ok ==> Valid()
      ensures cache.objects == pendingSnapshot
      ensures cache.cancels == old(cache.cancels) + (if ok then 0 else 1)
    {
      hide Replay, Latest, Complete, InOrder, Concerns, Brings;
      Accepts(past, now, SnapshotComplete);
      OthersConcernNothing(SnapshotComplete);
      ok := cache.ReplaceAll(pendingSnapshot);
      snapshotComplete := ok;
      now := now + [SnapshotComplete];
    }

    /** Changes the cache; a cancelled notification ends the connection. */
    method HandleMutation(m: Message) returns (ok: bool)
      requires Valid() && (m.CreateOrUpdate? || m.Remove?) && snapshotComplete
      modifies this`now, cache, cache.objects
      ensures now == old(now) + [m] && Valid()
      ensures cache.objects == old(cache.objects)
      ensures m.CreateOrUpdate? ==> cache.objects.m == match KindName(m.kind)
        case None => old(cache.objects.m)
        case Some(kindName) => old(cache.objects.m)[CacheKey(kindName, m.namespace, m.name) := m.obj]
      ensures cache.cancels == old(cache.cancels) + (if ok then 0 else 1)
      ensures m.Remove? ==> cache.objects.m == old(cache.objects.m) - {CacheKey(m.kindName, m.namespace, m.name)}
    {
      hide Replay, Latest, Complete, InOrder, Concerns, Brings, CacheKey, KindName;
      Accepts(past, now, m);
      ok := true;
      MutationConcerns(m);
      match m
      case CreateOrUpdate(kind, namespace, name, obj) =>
        var key := KeyOf(kind, namespace, name);
        if key.Some? {
          ok := cache.Insert(key.value, obj);
        }
        now := now + [m];
      case Remove(kindName, namespace, name) =>
        ok := cache.Delete(CacheKey(kindName, namespace, name));
        now := now + [m];
    }

    /** Handles one message; one that is out of order is refused and ends the connection. */
    method HandleUpdate(m: Message) returns (ok: bool, refused: bool)
      requires Valid()
      modifies this`now, this`snapshotComplete, cache, cache.objects, pendingSnapshot
      ensures refused <==> !Fits(m, Complete(old(now)))
      ensures refused <==> match m
        case Configure => false
        case ResourceData(_, _, _, _) => SnapshotComplete in old(now)
        case SnapshotComplete => SnapshotComplete in old(now)
        case CreateOrUpdate(_, _, _, _) => SnapshotComplete !in old(now)
        case Remove(_, _, _) => SnapshotComplete !in old(now)
        case _ => true
      ensures refused ==> !ok && now == old(now) && Valid()
      ensures !refused ==> now == old(now) + [m]
      ensures Shows() && InOrder(now)
      ensures ok ==> Valid()
      ensures cache.cancels == old(cache.cancels) + (if ok || refused then 0 else 1)
      ensures cache.objects == old(cache.objects) || cache.objects == pendingSnapshot
    {
      refused := true;
      ok := false;
      match m
      case Configure =>
        Accepts(past, now, m);
        now := now + [m];
        refused, ok := false, true;
      case ResourceData(_, _, _, _) =>
        if !snapshotComplete {
          HandleData(m);
          refused, ok := false, true;
        }
      case SnapshotComplete =>
        if !snapshotComplete {
          refused := false;
          ok := HandleComplete();
        }
      case CreateOrUpdate(_, _, _, _) =>
        if snapshotComplete {
          refused := false;
          ok := HandleMutation(m);
        }
      case Remove(_, _, _) =>
        if snapshotComplete {
          refused := false;
          ok := HandleMutation(m);
        }
      case _ =>
    }

    /** One connection: its messages are accepted up to the first that is out of order, unless
        cancelled earlier. Before the snapshot is complete the cache does not change. */
    method Run(messages: seq<Message>) returns (accepted: nat, cancelled: bool)
      requires Shows()
      modifies this, cache, cache.objects
      ensures Shows() && past == old(past + [now])
      ensures accepted <= |messages| && now == messages[..accepted]
      ensures Accepted(messages, accepted, cancelled)
      ensures cache.cancels == old(cache.cancels) + (if cancelled then 1 else 0)
      ensures !Complete(now) ==> forall key :: Get(cache.objects.m, key) == Get(old(cache.objects.m), key)
      ensures cache.objects == old(cache.objects) || fresh(cache.objects)
    {
      hide Replay, Latest, Complete, InOrder, Follows;
      Begins(past + [now]);
      forall key ensures Get(cache.objects.m, key) == Replay(past + [now], key) {
      }
      pendingSnapshot := new ObjectMap();
      snapshotComplete := false;
      past, now := past + [now], [];
      accepted, cancelled := 0, false;
      ghost var wasPast := past;
      while accepted < |messages|
        invariant accepted <= |messages| && now == messages[..accepted]
        invariant Valid() && past == wasPast && !cancelled && cache.cancels == old(cache.cancels)
        invariant fresh(pendingSnapshot)
        invariant cache.objects == old(cache.objects) || fresh(cache.objects)
      {
        ghost var before := now;
        var ok, refused := HandleUpdate(messages[accepted]);
        FitsFollows(before, messages[accepted]);
        InOrderSnoc(before, messages[accepted]);
        assert messages[..accepted + 1] == messages[..accepted] + [messages[accepted]];
        if refused {
          break;
        }
        accepted := accepted + 1;
        if !ok {
          cancelled := true;
          break;
        }
      }
      forall key ensures !Complete(now) ==> Get(cache.objects.m, key) == Replay(past, key) {
        ReplaySnoc(past, now, key);
      }
    }

    /** Any number of connections, one after the other. */
    method Connections(streams: seq<seq<Message>>) returns (accepted: seq<nat>, cancelled: seq<bool>)
      requires Shows() && past + [now] == [[]]
      modifies this, cache, cache.objects
      ensures |accepted| == |cancelled| == |streams| && forall i :: 0 <= i < |streams| ==> accepted[i] <= |streams[i]|
      ensures forall i :: 0 <= i < |streams| ==> Accepted(streams[i], accepted[i], cancelled[i])
      ensures cache.cancels == old(cache.cancels) ==> forall i :: 0 <= i < |streams| ==> !cancelled[i]
      ensures forall key :: Get(cache.objects.m, key) == Replay(Prefixes(streams, accepted), key)
    {
      hide Replay;
      accepted, cancelled := [], [];
      while |accepted| < |streams|
        invariant |accepted| <= |streams| && forall i :: 0 <= i < |accepted| ==> accepted[i] <= |streams[i]|
        invariant old(cache.cancels) <= cache.cancels
        invariant cache.cancels == old(cache.cancels) ==> forall i :: 0 <= i < |cancelled| ==> !cancelled[i]
        invariant |cancelled| == |accepted| && forall i :: 0 <= i < |accepted| ==> Accepted(streams[i], accepted[i], cancelled[i])
        invariant Shows() && past + [now] == [[]] + Prefixes(streams, accepted)
        invariant cache.objects == old(cache.objects) || fresh(cache.objects)
      {
        ghost var before := accepted;
        var n, wasCancelled := Run(streams[|accepted|]);
        accepted, cancelled := accepted + [n], cancelled + [wasCancelled];
        PrefixesSnoc(streams, before, n);
      }
      forall key ensures Replay([[]] + Prefixes(streams, accepted), key) == Replay(Prefixes(streams, accepted), key) {
        EmptyFirst(Prefixes(streams, accepted), key);
      }
    }
  }

  /** What was accepted of each stream. */
  function Prefixes(streams: seq<seq<Message>>, accepted: seq<nat>): seq<seq<Message>>
    requires |accepted| <= |streams| && forall i :: 0 <= i < |accepted| ==> accepted[i] <= |streams[i]|
  {
    seq(|accepted|, i requires 0 <= i < |accepted| => streams[i][..accepted[i]])
  }

  lemma {:induction false} PrefixesSnoc(streams: seq<seq<Message>>, accepted: seq<nat>, n: nat)
    requires |accepted| < |streams| && forall i :: 0 <= i < |accepted| ==> accepted[i] <= |streams[i]|
    requires n <= |streams[|accepted|]|
    ensures Prefixes(streams, accepted + [n]) == Prefixes(streams, accepted) + [streams[|accepted|][..n]]
  {
  }

  lemma {:induction false} EmptyFirst(sessions: seq<seq<Message>>, key: string)
    ensures Replay([[]] + sessions, key) == Replay(sessions, key)
  {
    var n := |sessions|;
    if n > 0 {
      assert ([[]] + sessions)[..n] == [[]] + sessions[..n - 1];
      EmptyFirst(sessions[..n - 1], key);
    } else {
      var none: seq<Message> := [];
      assert ([none] + sessions)[..0] == [];
    }
  }

  /** A new connection has shown nothing yet. */
  lemma {:induction false} Begins(past: seq<seq<Message>>)
    ensures forall key :: Replay(past + [[]], key) == Replay(past, key) && Latest([], key) == None
    ensures InOrder([]) && !Complete([])
  {
    forall key ensures Replay(past + [[]], key) == Replay(past, key) {
      ReplaySnoc(past, [], key);
    }
  }

  /** What accepting a message means for the reference. */
  lemma {:induction false} Accepts(past: seq<seq<Message>>, now: seq<Message>, m: Message)
    ensures forall key ::
      && Latest(now + [m], key) == (if Concerns(m) == Some(key) then Brings(m) else Latest(now, key))
      && Replay(past + [now + [m]], key) == (if Complete(now + [m]) then Latest(now + [m], key) else Replay(past, key))
      && Replay(past + [now], key) == (if Complete(now) then Latest(now, key) else Replay(past, key))
    ensures Complete(now + [m]) <==> Complete(now) || m == SnapshotComplete
    ensures InOrder(now) && Fits(m, Complete(now)) ==> InOrder(now + [m])
  {
    hide Latest, Replay, InOrder, Follows, Fits;
    forall key ensures
      && Latest(now + [m], key) == (if Concerns(m) == Some(key) then Brings(m) else Latest(now, key))
      && Replay(past + [now + [m]], key) == (if Complete(now + [m]) then Latest(now + [m], key) else Replay(past, key))
      && Replay(past + [now], key) == (if Complete(now) then Latest(now, key) else Replay(past, key))
    {
      LatestSnoc(now, m, key);
      ReplaySnoc(past, now + [m], key);
      ReplaySnoc(past, now, key);
    }
    CompleteSnoc(now, m);
    FitsFollows(now, m);
    if InOrder(now) {
      InOrderSnoc(now, m);
    }
  }

  lemma {:induction false} DataConcerns(m: Message)
    requires m.ResourceData?
    ensures Concerns(m) == KeyOf(m.kind, m.namespace, m.name) && Brings(m) == Some(m.obj)
  {
  }

  lemma {:induction false} MutationConcerns(m: Message)
    ensures m.CreateOrUpdate? ==> Concerns(m) == KeyOf(m.kind, m.namespace, m.name) && Brings(m) == Some(m.obj)
    ensures m.Remove? ==> Concerns(m) == Some(CacheKey(m.kindName, m.namespace, m.name)) && Brings(m) == None
  {
  }

  lemma {:induction false} OthersConcernNothing(m: Message)
    requires m.SnapshotComplete? || m.Configure?
    ensures Concerns(m) == None
  {
  }
}

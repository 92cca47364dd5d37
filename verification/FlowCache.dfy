/** The flow cache with its index: a map by key and a queue by start time, changed in place by
    the event loop, and proved to follow the model step by step. */
module FlowCacheImpl {
  import opened Options
  import opened FlowModel

  /** The map holds exactly the queued flows. */
  ghost predicate Indexes(cache: map<Key, Flow>, queue: seq<Flow>) {
    && (forall i :: 0 <= i < |queue| ==> queue[i].key in cache && cache[queue[i].key] == queue[i])
    && (forall k :: k in cache ==> HasKey(queue, k))
  }

  lemma {:induction false} IndexSize(cache: map<Key, Flow>, queue: seq<Flow>)
    requires Indexes(cache, queue) && DistinctKeys(queue)
    ensures |cache| == |queue|
    decreases |queue|
  {
    if queue == [] {
      assert cache.Keys == {};
    } else {
      var smaller := cache - {queue[0].key};
      IndexDropFirst(cache, queue);
      IndexSize(smaller, queue[1..]);
      assert cache.Keys == smaller.Keys + {queue[0].key};
    }
  }

  lemma {:induction false} IndexDropFirst(cache: map<Key, Flow>, queue: seq<Flow>)
    requires Indexes(cache, queue) && DistinctKeys(queue) && queue != []
    ensures Indexes(cache - {queue[0].key}, queue[1..]) && DistinctKeys(queue[1..])
  {
    forall k | k in cache && k != queue[0].key ensures HasKey(queue[1..], k) {
      var i :| 0 <= i < |queue| && queue[i].key == k;
      assert queue[1..][i - 1].key == k;
    }
  }

  lemma {:induction false} IndexInsert(cache: map<Key, Flow>, queue: seq<Flow>, i: nat, flow: Flow)
    requires Indexes(cache, queue) && i <= |queue| && flow.key !in cache
    ensures Indexes(cache[flow.key := flow], Insert(queue, i, flow))
  {
    hide Insert;
    var queue' := Insert(queue, i, flow);
    InsertAtEach(queue, i, flow);
    forall k | k in cache ensures HasKey(queue', k) {
      var j :| 0 <= j < |queue| && queue[j].key == k;
      assert queue'[if j < i then j else j + 1].key == k;
    }
    assert HasKey(queue', flow.key);
  }

  lemma {:induction false} InsertIs<T>(xs: seq<T>, i: nat, x: T)
    requires i <= |xs|
    ensures Insert(xs, i, x) == xs[..i] + [x] + xs[i..]
  {
  }

  lemma {:induction false} InsertsBefore(queue: seq<Flow>, e: nat, start: int)
    requires 0 < e <= |queue| && queue[e - 1].start > start
    ensures InsertAt(queue[..e], start) == InsertAt(queue[..e - 1], start)
  {
    assert queue[..e][..e - 1] == queue[..e - 1];
  }

  lemma {:induction false} InsertsHere(queue: seq<Flow>, e: nat, start: int)
    requires e <= |queue| && (e == 0 || queue[e - 1].start <= start)
    ensures InsertAt(queue[..e], start) == e
  {
  }

  lemma {:induction false} IndexHasKey(cache: map<Key, Flow>, queue: seq<Flow>, key: Key)
    requires Indexes(cache, queue)
    ensures key in cache <==> HasKey(queue, key)
  {
  }

  /** The stored parts are those of a state of the model, and the map indexes its queue. */
  ghost predicate Stores(cache: map<Key, Flow>, queue: seq<Flow>, out: seq<Flow>, timer: Option<int>, s: State, c: Config) {
    queue == s.queue && out == s.out && timer == s.deadline && FlowModel.Valid(s, c) && Indexes(cache, queue)
  }

  lemma {:induction false} Split(cache: map<Key, Flow>, queue: seq<Flow>, out: seq<Flow>, timer: Option<int>, s: State, c: Config)
    requires Stores(cache, queue, out, timer, s, c)
    ensures queue == s.queue && out == s.out && timer == s.deadline && FlowModel.Valid(s, c) && Indexes(cache, queue)
    ensures DistinctKeys(queue) && |s.queue| == |s.ranks|
  {
  }

  function Kept(queue: seq<Flow>, cutoff: int, sends: nat): seq<Flow> {
    queue[Removed(queue, cutoff, sends)..]
  }

  function Swept(queue: seq<Flow>, cutoff: int, sends: nat): seq<Flow> {
    queue[..Output(queue, cutoff, sends)]
  }

  /** What a tick leaves of the stored parts. */
  ghost predicate SweptTo(cache: map<Key, Flow>, queue: seq<Flow>, out: seq<Flow>, timer: Option<int>,
                          before: seq<Flow>, outBefore: seq<Flow>, c: Config, now: int, sends: nat)
  {
    && Indexes(cache, queue)
    && queue == Kept(before, now - c.timeout, sends)
    && out == outBefore + Swept(before, now - c.timeout, sends)
    && timer == Rearm(queue, c.timeout, None)
  }

  /** A tick changes the stored parts as the model says. */
  lemma {:induction false} AfterTick(cache: map<Key, Flow>, queue: seq<Flow>, out: seq<Flow>, timer: Option<int>,
                                     s: State, c: Config, now: int, sends: nat)
    requires FlowModel.Valid(s, c) && |s.queue| == |s.ranks| && s.running
    requires SweptTo(cache, queue, out, timer, s.queue, s.out, c, now, sends)
    ensures Stores(cache, queue, out, timer, Step(s, c, Tick(now, sends)), c)
    ensures Step(s, c, Tick(now, sends)).running
  {
    hide ExpiredCount, FlowModel.Valid, Indexes;
    StepValid(s, c, Tick(now, sends));
  }

  predicate Full(queue: seq<Flow>, c: Config) {
    |queue| >= c.maxFlows && queue != []
  }

  /** What an arrival sends out to make room. */
  function Evicted(queue: seq<Flow>, c: Config, ok: bool): seq<Flow> {
    if ok && Full(queue, c) then [queue[0]] else []
  }

  /** The queue after the arrival of a flow with a new key. */
  function Arrived(queue: seq<Flow>, c: Config, flow: Flow, ok: bool): seq<Flow> {
    var rest := if Full(queue, c) then queue[1..] else queue;
    if ok then Insert(rest, InsertAt(rest, flow.start), flow) else rest
  }

  /** The same for an arrival. */
  lemma {:induction false} AfterArrival(cache: map<Key, Flow>, queue: seq<Flow>, out: seq<Flow>, timer: Option<int>,
                                        s: State, c: Config, flow: Flow, sent: bool, ok: bool)
    requires FlowModel.Valid(s, c) && |s.queue| == |s.ranks| && s.running && Indexes(cache, queue)
    requires HasKey(s.queue, flow.key) ==> ok && queue == s.queue && out == s.out && timer == s.deadline
    requires !HasKey(s.queue, flow.key) ==> ok == (sent || !Full(s.queue, c))
    requires !HasKey(s.queue, flow.key) ==> out == s.out + Evicted(s.queue, c, ok)
    requires !HasKey(s.queue, flow.key) ==> queue == Arrived(s.queue, c, flow, ok)
    requires !HasKey(s.queue, flow.key) ==> timer == if ok then Rearm(queue, c.timeout, None) else s.deadline
    ensures Stores(cache, queue, out, timer, Step(s, c, Arrive(flow, sent)), c)
    ensures ok == Step(s, c, Arrive(flow, sent)).running
  {
    hide Insert, InsertAt, HasKey, FlowModel.Valid, Indexes, Rearm;
    StepValid(s, c, Arrive(flow, sent));
  }

  // ---------------------------------------------------------------- the cache as a finite map

  lemma {:induction false} OneIndex(a: map<Key, Flow>, b: map<Key, Flow>, queue: seq<Flow>)
    requires Indexes(a, queue) && Indexes(b, queue)
    ensures a == b
  {
    forall k ensures k in a <==> k in b {
      IndexHasKey(a, queue, k);
      IndexHasKey(b, queue, k);
    }
    forall k | k in a ensures a[k] == b[k] {
      var i :| 0 <= i < |queue| && queue[i].key == k;
      assert a[k] == queue[i] == b[k];
    }
  }

  lemma {:induction false} Distinct(s: State, c: Config)
    requires FlowModel.Valid(s, c)
    ensures DistinctKeys(s.queue)
  {
  }

  /** An arrival adds its flow under a new key, replaces nothing, and makes room, when there is
      none, by removing the flow that is first in the order. */
  lemma {:induction false} ArrivalOnMap(cache: map<Key, Flow>, cache': map<Key, Flow>, s: State, c: Config, flow: Flow)
    requires FlowModel.Valid(s, c) && |s.queue| == |s.ranks| && s.running
    requires Indexes(cache, s.queue) && Indexes(cache', Step(s, c, Arrive(flow, true)).queue)
    ensures cache' ==
      if flow.key in cache then cache
      else (if |cache| >= c.maxFlows && cache != map[] then cache - {s.queue[0].key} else cache)[flow.key := flow]
  {
    hide Indexes, Insert, InsertAt, InOrder, DistinctKeys, Rearm;
    Distinct(s, c);
    IndexSize(cache, s.queue);
    assert |cache| == 0 <==> cache == map[];
    IndexHasKey(cache, s.queue, flow.key);
    if flow.key in cache {
      OneIndex(cache, cache', s.queue);
    } else if Full(s.queue, c) {
      IndexDropFirst(cache, s.queue);
      IndexInsert(cache - {s.queue[0].key}, s.queue[1..], InsertAt(s.queue[1..], flow.start), flow);
      OneIndex((cache - {s.queue[0].key})[flow.key := flow], cache', Step(s, c, Arrive(flow, true)).queue);
    } else {
      IndexInsert(cache, s.queue, InsertAt(s.queue, flow.start), flow);
      OneIndex(cache[flow.key := flow], cache', Step(s, c, Arrive(flow, true)).queue);
    }
  }

  /** A sweep that is not interrupted leaves exactly the flows that start after the cutoff. */
  lemma {:induction false} SweepOnMap(cache: map<Key, Flow>, cache': map<Key, Flow>, s: State, c: Config, now: int, sends: nat)
    requires FlowModel.Valid(s, c) && |s.queue| == |s.ranks| && s.running && sends >= |s.queue|
    requires Indexes(cache, s.queue) && Indexes(cache', Step(s, c, Tick(now, sends)).queue)
    ensures cache' == map k | k in cache && cache[k].start > now - c.timeout :: cache[k]
  {
    hide Step, InOrder, DistinctKeys, Indexes;
    var n := SweepOutputsExpired(s, c, now, sends);
    KeptIndex(cache, s.queue, n, now - c.timeout);
    OneIndex(map k | k in cache && cache[k].start > now - c.timeout :: cache[k], cache', s.queue[n..]);
  }

  lemma {:induction false} KeptIndex(cache: map<Key, Flow>, queue: seq<Flow>, n: nat, cutoff: int)
    requires Indexes(cache, queue) && n <= |queue|
    requires forall i :: 0 <= i < |queue| ==> (queue[i].start <= cutoff <==> i < n)
    ensures Indexes(map k | k in cache && cache[k].start > cutoff :: cache[k], queue[n..])
  {
    var kept, rest := map k | k in cache && cache[k].start > cutoff :: cache[k], queue[n..];
    forall k | k in kept ensures HasKey(rest, k) {
      var i :| 0 <= i < |queue| && queue[i].key == k;
      assert rest[i - n].key == k;
    }
  }

  class FlowCache {
    const config: Config
    var cache: map<Key, Flow>
    var queue: seq<Flow>
    var outFlows: seq<Flow>
    var timer: Option<int>
    ghost var s: State

    ghost predicate Tracks()
      reads this
    {
      Stores(cache, queue, outFlows, timer, s, config)
    }

    constructor (activeTimeout: int, maxFlows: int)
      ensures Tracks() && queue == [] && outFlows == [] && !s.running
      ensures config == Config(activeTimeout, maxFlows)
    {
      config := Config(activeTimeout, maxFlows);
      cache, queue, outFlows, timer := map[], [], [], None;
      s := Initial();
    }

    /** Searches from the back for the last flow that does not start later. */
    method AddFlowToCache(flow: Flow)
      requires Indexes(cache, queue) && flow.key !in cache
      modifies this`cache, this`queue
      ensures queue == Insert(old(queue), InsertAt(old(queue), flow.start), flow)
      ensures Indexes(cache, queue)
    {
      hide Insert, Indexes, InsertAt;
      var e := |queue|;
      assert queue[..e] == queue;
      while e > 0 && queue[e - 1].start > flow.start
        modifies {}
        invariant 0 <= e <= |queue|
        invariant InsertAt(queue, flow.start) == InsertAt(queue[..e], flow.start)
      {
        InsertsBefore(queue, e, flow.start);
        e := e - 1;
      }
      InsertsHere(queue, e, flow.start);
      IndexInsert(cache, queue, e, flow);
      InsertIs(queue, e, flow);
      queue := queue[..e] + [flow] + queue[e..];
      cache := cache[flow.key := flow];
    }

    /** Removes the flow at the front; it is output, or lost when the context was cancelled. */
    method EvictOldestFlow(sent: bool) returns (ok: bool)
      requires Indexes(cache, queue) && DistinctKeys(queue)
      modifies this`cache, this`queue, this`outFlows
      ensures Indexes(cache, queue)
      ensures old(queue) == [] ==> ok && queue == [] && outFlows == old(outFlows)
      ensures old(queue) != [] ==> ok == sent && queue == old(queue)[1..]
      ensures old(queue) != [] ==> outFlows == old(outFlows) + (if sent then [old(queue)[0]] else [])
      ensures forall k :: k in cache ==> k in old(cache)
    {
      if queue == [] {
        return true;
      }
      var flow := queue[0];
      IndexDropFirst(cache, queue);
      queue := queue[1..];
      cache := cache - {flow.key};
      if sent {
        outFlows := outFlows + [flow];
      }
      ok := sent;
    }

    /** Removes the flows at or before the cutoff from the front, until the context is chosen
        over the output channel. */
    method EvictExpiredFlows(now: int, sends: nat)
      requires Indexes(cache, queue) && DistinctKeys(queue)
      modifies this`cache, this`queue, this`outFlows
      ensures Indexes(cache, queue)
      ensures queue == Kept(old(queue), now - config.timeout, sends)
      ensures outFlows == old(outFlows) + Swept(old(queue), now - config.timeout, sends)
    {
      hide ExpiredCount, Indexes, DistinctKeys;
      var cutoff := now - config.timeout;
      ghost var before, n := queue, ExpiredCount(queue, cutoff);
      var sent := 0;
      while |queue| > 0
        invariant 0 <= sent <= n && sent <= sends
        invariant queue == before[sent..] && outFlows == old(outFlows) + before[..sent]
        invariant Indexes(cache, queue) && DistinctKeys(queue)
      {
        var flow := queue[0];
        if flow.start > cutoff {
          assert sent == n;
          break;
        }
        IndexDropFirst(cache, queue);
        queue := queue[1..];
        cache := cache - {flow.key};
        if sent == sends {
          return;
        }
        outFlows := outFlows + [flow];
        sent := sent + 1;
        assert before[..sent] == before[..sent - 1] + [flow];
      }
    }

    /** The timer fires at the expiry of the flow at the front. */
    method ResetTimerForNextExpiration()
      modifies this`timer
      ensures timer == Rearm(queue, config.timeout, old(timer))
    {
      if queue != [] {
        timer := Some(queue[0].start + config.timeout);
      }
    }

    /** The timer has fired: what it does to the stored parts. */
    method Sweep(now: int, sends: nat)
      requires Indexes(cache, queue) && DistinctKeys(queue)
      modifies this`cache, this`queue, this`outFlows, this`timer
      ensures SweptTo(cache, queue, outFlows, timer, old(queue), old(outFlows), config, now, sends)
    {
      hide Indexes, DistinctKeys, Kept, Swept, Rearm;
      timer := None;
      EvictExpiredFlows(now, sends);
      ResetTimerForNextExpiration();
    }

    method HandleTick(now: int, sends: nat)
      requires Tracks() && s.running
      modifies this
      ensures Tracks() && s == Step(old(s), config, Tick(now, sends))
    {
      hide Stores, Step, Indexes, DistinctKeys, SweptTo, FlowModel.Valid;
      Split(cache, queue, outFlows, timer, s, config);
      Sweep(now, sends);
      AfterTick(cache, queue, outFlows, timer, s, config, now, sends);
      s := Step(s, config, Tick(now, sends));
    }

    /** Stores a flow for which there is room. */
    method Admit(flow: Flow)
      requires Indexes(cache, queue) && flow.key !in cache
      modifies this`cache, this`queue, this`timer
      ensures Indexes(cache, queue)
      ensures queue == Insert(old(queue), InsertAt(old(queue), flow.start), flow)
      ensures timer == Rearm(queue, config.timeout, None)
    {
      hide Indexes, InsertAt;
      AddFlowToCache(flow);
      ResetTimerForNextExpiration();
    }

    /** A flow has arrived: a duplicate of a cached key is skipped, otherwise room is made. */
    method Take(flow: Flow, sent: bool) returns (ok: bool)
      requires Indexes(cache, queue) && DistinctKeys(queue)
      modifies this`cache, this`queue, this`outFlows, this`timer
      ensures Indexes(cache, queue)
      ensures HasKey(old(queue), flow.key) ==> ok && queue == old(queue) && outFlows == old(outFlows) && timer == old(timer)
      ensures !HasKey(old(queue), flow.key) ==> ok == (sent || !Full(old(queue), config))
      ensures !HasKey(old(queue), flow.key) ==> outFlows == old(outFlows) + Evicted(old(queue), config, ok)
      ensures !HasKey(old(queue), flow.key) ==> queue == Arrived(old(queue), config, flow, ok)
      ensures !HasKey(old(queue), flow.key) ==> timer == if ok then Rearm(queue, config.timeout, None) else old(timer)
    {
      hide Indexes, HasKey, Insert, InsertAt, DistinctKeys, Rearm;
      IndexSize(cache, queue);
      IndexHasKey(cache, queue, flow.key);
      ok := true;
      if flow.key !in cache {
        if |cache| >= config.maxFlows {
          ok := EvictOldestFlow(sent);
        }
        if ok {
          Admit(flow);
        }
      }
    }

    method HandleFlow(flow: Flow, sent: bool) returns (ok: bool)
      requires Tracks() && s.running
      modifies this
      ensures Tracks() && s == Step(old(s), config, Arrive(flow, sent)) && ok == s.running
    {
      hide Stores, Step, Indexes, DistinctKeys, Rearm, HasKey, Full, Evicted, Arrived, FlowModel.Valid;
      Split(cache, queue, outFlows, timer, s, config);
      ok := Take(flow, sent);
      AfterArrival(cache, queue, outFlows, timer, s, config, flow, sent, ok);
      s := Step(s, config, Arrive(flow, sent));
    }

    /** One turn of the event loop. */
    method Handle(e: Event) returns (running: bool)
      requires Tracks() && s.running
      modifies this
      ensures Tracks() && s == Step(old(s), config, e) && running == s.running
    {
      RanksMatch(s, config);
      match e
      case Done =>
        s := s.(running := false);
        running := false;
      case Tick(now, sends) =>
        HandleTick(now, sends);
        running := true;
      case Arrive(flow, sent) =>
        running := HandleFlow(flow, sent);
    }

    /** The event loop, over the choices its selects make until the context ends it. */
    method Run(startTime: int, events: seq<Event>)
      requires Tracks()
      modifies this
      ensures Tracks()
      ensures s == FlowModel.Run(Begun(old(s), config, startTime), config, events)
    {
      hide FlowModel.Run, Step, InOrder, DistinctKeys, Indexes;
      RanksMatch(s, config);
      timer := Some(startTime + config.timeout);
      s := Begun(s, config, startTime);
      ghost var begun := s;
      RunEmpty(begun, config);
      var running, i := true, 0;
      while i < |events| && running
        invariant 0 <= i <= |events| && Tracks() && |begun.queue| == |begun.ranks|
        invariant s == FlowModel.Run(begun, config, events[..i]) && running == s.running
      {
        RunSnoc(begun, config, events, i);
        running := Handle(events[i]);
        i := i + 1;
      }
      assert events[..|events|] == events;
      if !running {
        StoppedStays(begun, config, events, i);
      }
    }
  }

  lemma {:induction false} RunSnoc(s: State, c: Config, events: seq<Event>, i: nat)
    requires |s.queue| == |s.ranks| && i < |events|
    ensures FlowModel.Run(s, c, events[..i + 1]) == Step(FlowModel.Run(s, c, events[..i]), c, events[i])
  {
    assert events[..i + 1][..i] == events[..i];
  }

  /** Nothing happens after the loop has ended. */
  lemma {:induction false} StoppedStays(s: State, c: Config, events: seq<Event>, i: nat)
    requires |s.queue| == |s.ranks| && i <= |events| && !FlowModel.Run(s, c, events[..i]).running
    ensures FlowModel.Run(s, c, events) == FlowModel.Run(s, c, events[..i])
    decreases |events|
  {
    if i < |events| {
      var n := |events| - 1;
      assert events[..n][..i] == events[..i];
      StoppedStays(s, c, events[..n], i);
    } else {
      assert events[..i] == events;
    }
  }
}

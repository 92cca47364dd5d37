/** The desired state, its mirror of the cluster and the reconciler between them, as a machine
    whose steps are atomic: producers of both caches, the watch, the cluster and the consumer. */
module Convergence {
  import opened Options
  import opened CacheKeys
  import opened CacheModel

  /** The kind that a key starts with. */
  const KindOf: string -> Kind

  /** A change of the cluster that the watch has not delivered yet. */
  datatype Event = Event(key: string, value: Option<Object>)

  /** The resource stream: `Listing` reads one kind after the other into a snapshot, and watches a
      kind from then on. */
  datatype Stream =
    | Down
    | Listing(snapshot: map<string, Object>, listed: set<Kind>)
    | Up

  datatype Current =
    | Nothing
    | GotConfig(key: string, c: Option<Object>)
    | GotBoth(key: string, c: Option<Object>, r: Option<Object>)

  /** The reconciler: `Keys1` and `Keys2` collect the keys of a full reconciliation. */
  datatype Consumer =
    | NotStarted
    | Idle
    | Keys1
    | Keys2(keys: set<string>)
    | Work(todo: set<string>, current: Current)

  /** `cluster` is the part of the cluster that the operator manages or mirrors; objects that are
      neither are ignored by list and watch.
      `lost` are keys whose call failed or whose notification was cancelled since the last full
      reconciliation began, or the notification for every key. */
  datatype State = State(
    config: Cache, runtime: Cache, configReady: bool, runtimeReady: bool,
    cluster: map<string, Object>, events: seq<Event>, stream: Stream,
    consumer: Consumer, lost: set<string>)

  datatype Move =
    | ConfigChanges(step: Step)
    | Drifts(key: string, value: Option<Object>)
    | Disconnects
    | Cancels(ofConfig: bool, note: string)
    | TimerFires
    | StartsListing
    | Lists(kind: Kind)
    | EndsListing
    | Delivers(i: nat)
    | Sends(ofConfig: bool, step: Step)
    | Begins
    | Receives(ofConfig: bool)
    | ReadsConfigKeys
    | ReadsRuntimeKeys
    | ReadsConfig(key: string)
    | ReadsRuntime
    | Acts(ok: bool, effect: bool)
    | Ends

  // ---------------------------------------------------------------- the cluster and its watch

  predicate Watched(s: State, key: string) {
    s.stream.Up? || (s.stream.Listing? && KindOf(key) in s.stream.listed)
  }

  function Put(m: map<string, Object>, key: string, value: Option<Object>): map<string, Object> {
    match value
    case Some(obj) => m[key := obj]
    case None => m - {key}
  }

  /** The cluster holds exactly this value; a change is an event for a watch. */
  function SetCluster(s: State, key: string, value: Option<Object>): State {
    var changed := Get(s.cluster, key) != value;
    s.(cluster := Put(s.cluster, key, value),
       events := if changed && Watched(s, key) then s.events + [Event(key, value)] else s.events)
  }

  function OfKind(m: map<string, Object>, kind: Kind): map<string, Object> {
    map k | k in m && KindOf(k) == kind :: m[k]
  }

  const WATCHABLE: set<Kind> := {CiliumNetworkPolicy, CiliumClusterwideNetworkPolicy, CiliumCIDRGroup, ClusterNetworkPolicy, Unsupported}

  /** The first event of its key. */
  predicate First(events: seq<Event>, i: nat)
    requires i < |events|
  {
    forall j :: 0 <= j < i ==> events[j].key != events[i].key
  }

  function Without(events: seq<Event>, i: nat): seq<Event>
    requires i < |events|
  {
    events[..i] + events[i + 1..]
  }

  // ---------------------------------------------------------------- moves

  /** A full reconciliation starts over. */
  function Restart(s: State): State {
    s.(consumer := Keys1, lost := {})
  }

  predicate Differ(c: Option<Object>, r: Option<Object>) {
    c != r
  }

  predicate Enabled(s: State, m: Move) {
    match m
    case ConfigChanges(step) => step.DoStore? || step.DoReplace?
    case Drifts(_, _) => true
    case Disconnects => true
    case Cancels(ofConfig, note) => note in (if ofConfig then s.config else s.runtime).pending
    case TimerFires => s.consumer.Idle?
    case StartsListing => s.stream.Down?
    case Lists(kind) => s.stream.Listing? && kind !in s.stream.listed
    case EndsListing => s.stream.Listing? && s.stream.listed == WATCHABLE
    case Delivers(i) => s.stream.Up? && i < |s.events| && First(s.events, i)
    case Sends(ofConfig, step) => (step.DoSend? || step.DoDrain?) && Legal(if ofConfig then s.config else s.runtime, step)
    case Begins => s.consumer.NotStarted? && s.configReady && s.runtimeReady
    case Receives(ofConfig) => s.consumer.Idle? && (if ofConfig then s.config else s.runtime).buffer.Some?
    case ReadsConfigKeys => s.consumer.Keys1?
    case ReadsRuntimeKeys => s.consumer.Keys2?
    case ReadsConfig(key) => s.consumer.Work? && s.consumer.current.Nothing? && key in s.consumer.todo
    case ReadsRuntime => s.consumer.Work? && s.consumer.current.GotConfig?
    case Acts(_, _) => s.consumer.Work? && s.consumer.current.GotBoth?
    case Ends => s.consumer.Work? && s.consumer.current.Nothing? && s.consumer.todo == {}
  }

  function OnCache(s: State, ofConfig: bool, step: Step): State {
    if ofConfig then s.(config := Apply(s.config, step)) else s.(runtime := Apply(s.runtime, step))
  }

  /** The consumer takes a notification: a key, or all of them. */
  function TakeNote(s: State, ofConfig: bool): State {
    var buffer := (if ofConfig then s.config else s.runtime).buffer;
    if buffer.None? then s else
    var s' := OnCache(s, ofConfig, DoReceive);
    if buffer.value == SNAPSHOT_REPLACED then Restart(s') else s'.(consumer := Work({buffer.value}, Nothing))
  }

  /** Applies or deletes the object if the two caches differed; a call that fails may still have
      had its effect. */
  function ActOn(s: State, todo: set<string>, b: Current, ok: bool, effect: bool): State
    requires b.GotBoth?
  {
    var s1 := s.(consumer := Work(todo, Nothing));
    if !Differ(b.c, b.r) then s1
    else
      var s2 := if ok || effect then SetCluster(s1, b.key, b.c) else s1;
      if ok then s2 else s2.(lost := s2.lost + {b.key})
  }

  function Do(s: State, m: Move): State
    requires Enabled(s, m)
  {
    match m
    case ConfigChanges(step) => OnCache(s, true, step).(configReady := s.configReady || step.DoReplace?)
    case Drifts(key, value) => SetCluster(s, key, value)
    case Disconnects => s.(stream := Down, events := [])
    case Cancels(ofConfig, note) => OnCache(s, ofConfig, DoCancel(note)).(lost := s.lost + {note})
    case TimerFires => Restart(s)
    case StartsListing => s.(stream := Listing(map[], {}))
    case Lists(kind) => s.(stream := Listing(s.stream.snapshot + OfKind(s.cluster, kind), s.stream.listed + {kind}))
    case EndsListing => s.(runtime := Replace(s.runtime, s.stream.snapshot), runtimeReady := true, stream := Up)
    case Delivers(i) =>
      s.(runtime := Store(s.runtime, s.events[i].key, s.events[i].value), events := Without(s.events, i))
    case Sends(ofConfig, step) => OnCache(s, ofConfig, step)
    case Begins => Restart(s)
    case Receives(ofConfig) => TakeNote(s, ofConfig)
    case ReadsConfigKeys => s.(consumer := Keys2(s.config.objects.Keys))
    case ReadsRuntimeKeys => s.(consumer := Work(s.consumer.keys + s.runtime.objects.Keys, Nothing))
    case ReadsConfig(key) =>
      s.(consumer := Work(s.consumer.todo - {key}, GotConfig(key, Get(s.config.objects, key))))
    case ReadsRuntime =>
      var cur := s.consumer.current;
      s.(consumer := Work(s.consumer.todo, GotBoth(cur.key, cur.c, Get(s.runtime.objects, cur.key))))
    case Acts(ok, effect) => ActOn(s, s.consumer.todo, s.consumer.current, ok, effect)
    case Ends => s.(consumer := Idle)
  }

  /** Before anything has happened, whatever the cluster holds. */
  function Start(cluster: map<string, Object>): State {
    State(EMPTY, EMPTY, false, false, cluster, [], Down, NotStarted, {})
  }

  /** The state after a run; a move that is not enabled changes nothing. */
  function From(s: State, moves: seq<Move>): State {
    if moves == [] then s else Next(From(s, moves[..|moves| - 1]), moves[|moves| - 1])
  }

  function After(cluster: map<string, Object>, moves: seq<Move>): State {
    From(Start(cluster), moves)
  }

  function Next(s: State, m: Move): State {
    if Enabled(s, m) then Do(s, m) else s
  }

  // ---------------------------------------------------------------- the mirror

  /** What a cache entry becomes once all events are delivered. */
  function Final(v: Option<Object>, events: seq<Event>, key: string): Option<Object> {
    if events == [] then v
    else
      var n := |events| - 1;
      if events[n].key == key then events[n].value else Final(v, events[..n], key)
  }

  /** An event in flight carries another value. */
  predicate Differs(events: seq<Event>, key: string, v: Option<Object>) {
    exists i :: 0 <= i < |events| && events[i].key == key && events[i].value != v
  }

  ghost predicate Mirrors(s: State, key: string) {
    match s.stream
    case Up => Final(Get(s.runtime.objects, key), s.events, key) == Get(s.cluster, key)
    case Listing(snapshot, listed) =>
      KindOf(key) in listed ==> Final(Get(snapshot, key), s.events, key) == Get(s.cluster, key)
    case Down => true
  }

  /** Events and the snapshot are of watched kinds. */
  ghost predicate OnlyWatched(s: State) {
    && (forall i :: 0 <= i < |s.events| ==> Watched(s, s.events[i].key))
    && (s.stream.Listing? ==> forall k :: k in s.stream.snapshot ==> KindOf(k) in s.stream.listed)
  }

  lemma {:induction false} FinalAppend(v: Option<Object>, events: seq<Event>, e: Event, key: string)
    ensures Final(v, events + [e], key) == if e.key == key then e.value else Final(v, events, key)
  {
    assert (events + [e])[..|events|] == events;
  }

  lemma {:induction false} FinalNone(v: Option<Object>, events: seq<Event>, key: string)
    requires forall i :: 0 <= i < |events| ==> events[i].key != key
    ensures Final(v, events, key) == v
  {
    if events != [] {
      FinalNone(v, events[..|events| - 1], key);
    }
  }

  /** Either the entry is already what it becomes, or an event still brings something else. */
  lemma {:induction false} FinalOrDiffers(v: Option<Object>, events: seq<Event>, key: string)
    ensures Final(v, events, key) == v || Differs(events, key, v)
  {
    if events != [] {
      var n := |events| - 1;
      FinalOrDiffers(v, events[..n], key);
      assert events[n].key == key && events[n].value != v ==> Differs(events, key, v);
      if Differs(events[..n], key, v) {
        var i :| 0 <= i < n && events[..n][i].key == key && events[..n][i].value != v;
        assert events[i].key == key && events[i].value != v;
      }
    }
  }

  /** Delivering the first event of its key changes nothing about what all of them lead to. */
  lemma {:induction false} FinalWithout(v: Option<Object>, events: seq<Event>, i: nat, key: string)
    requires i < |events| && First(events, i)
    ensures Final(if events[i].key == key then events[i].value else v, Without(events, i), key) == Final(v, events, key)
  {
    hide Final, Without;
    var n := |events| - 1;
    var v' := if events[i].key == key then events[i].value else v;
    assert events == events[..n] + [events[n]];
    FinalAppend(v, events[..n], events[n], key);
    if i == n {
      WithoutLast(events);
      FinalFirst(v, events, key);
    } else {
      FinalWithout(v, events[..n], i, key);
      WithoutEarlier(events, i);
      FinalAppend(v', Without(events[..n], i), events[n], key);
    }
  }

  lemma {:induction false} WithoutLast(events: seq<Event>)
    requires events != []
    ensures Without(events, |events| - 1) == events[..|events| - 1]
  {
  }

  lemma {:induction false} WithoutEarlier(events: seq<Event>, i: nat)
    requires i < |events| - 1
    ensures Without(events, i) == Without(events[..|events| - 1], i) + [events[|events| - 1]]
  {
  }

  lemma {:induction false} FinalFirst(v: Option<Object>, events: seq<Event>, key: string)
    requires events != [] && First(events, |events| - 1)
    ensures var e, rest := events[|events| - 1], events[..|events| - 1];
      Final(if e.key == key then e.value else v, rest, key) == Final(v, events, key)
  {
    var n := |events| - 1;
    if events[n].key == key {
      FinalNone(events[n].value, events[..n], key);
    }
  }

  lemma {:induction false} DiffersWithout(events: seq<Event>, i: nat, key: string, v: Option<Object>)
    requires i < |events| && Differs(events, key, v) && (events[i].key != key || events[i].value == v)
    ensures Differs(Without(events, i), key, v)
  {
    var j :| 0 <= j < |events| && events[j].key == key && events[j].value != v;
    var j' := if j < i then j else j - 1;
    assert Without(events, i)[j'] == events[j];
  }

  lemma {:induction false} DiffersAppend(events: seq<Event>, e: Event, key: string, v: Option<Object>)
    requires Differs(events, key, v)
    ensures Differs(events + [e], key, v)
  {
    var j :| 0 <= j < |events| && events[j].key == key && events[j].value != v;
    assert (events + [e])[j] == events[j];
  }

  lemma {:induction false} SetClusterMirrors(s: State, key: string, value: Option<Object>, k: string)
    requires Mirrors(s, k)
    ensures Mirrors(SetCluster(s, key, value), k)
  {
    var e := Event(key, value);
    FinalAppend(Get(s.runtime.objects, k), s.events, e, k);
    if s.stream.Listing? {
      FinalAppend(Get(s.stream.snapshot, k), s.events, e, k);
    }
  }

  lemma {:induction false} SetClusterWatched(s: State, key: string, value: Option<Object>)
    requires OnlyWatched(s)
    ensures OnlyWatched(SetCluster(s, key, value))
  {
  }

  lemma {:induction false} ActsMirrors(s: State, todo: set<string>, b: Current, ok: bool, effect: bool, k: string)
    requires b.GotBoth? && Mirrors(s, k)
    ensures Mirrors(ActOn(s, todo, b, ok, effect), k)
  {
    hide SetCluster, Mirrors, Differ;
    var s1 := s.(consumer := Work(todo, Nothing));
    SameMirrors(s, s1, k);
    SetClusterMirrors(s1, b.key, b.c, k);
    var s2 := SetCluster(s1, b.key, b.c);
    SameMirrors(s1, s1.(lost := s1.lost + {b.key}), k);
    SameMirrors(s2, s2.(lost := s2.lost + {b.key}), k);
  }

  /** Only these parts of the state matter to the mirror. */
  lemma {:induction false} SameMirrors(s: State, s': State, k: string)
    requires s'.runtime.objects == s.runtime.objects && s'.events == s.events && s'.cluster == s.cluster && s'.stream == s.stream
    ensures Mirrors(s', k) == Mirrors(s, k)
  {
    hide Final, Get;
  }

  lemma {:induction false} ChannelsMirrors(s: State, ofConfig: bool, step: Step, k: string)
    requires Mirrors(s, k) && (ofConfig || (!step.DoStore? && !step.DoReplace?))
    ensures Mirrors(OnCache(s, ofConfig, step), k)
  {
    hide Mirrors, Store, Replace;
    SameMirrors(s, OnCache(s, ofConfig, step), k);
  }

  lemma {:induction false} TakesMirrors(s: State, ofConfig: bool, k: string)
    requires Mirrors(s, k) && (if ofConfig then s.config else s.runtime).buffer.Some?
    ensures Mirrors(TakeNote(s, ofConfig), k)
  {
    hide Mirrors, OnCache;
    ChannelsMirrors(s, ofConfig, DoReceive, k);
    SameMirrors(OnCache(s, ofConfig, DoReceive), TakeNote(s, ofConfig), k);
  }

  lemma {:induction false} DeliversMirrors(s: State, i: nat, k: string)
    requires Enabled(s, Delivers(i)) && Mirrors(s, k)
    ensures Mirrors(Do(s, Delivers(i)), k)
  {
    hide Store, Final, First, Without, Get;
    FinalWithout(Get(s.runtime.objects, k), s.events, i, k);
    ChangeNotifies(s.runtime, s.events[i].key, s.events[i].value, k);
  }

  lemma {:induction false} EndsMirrors(s: State, k: string)
    requires Enabled(s, EndsListing) && Mirrors(s, k)
    ensures Mirrors(Do(s, EndsListing), k)
  {
    hide Replace, Final, Get;
    AllWatchable(KindOf(k));
    ReplaceStores(s.runtime, s.stream.snapshot);
  }

  /** Moves that touch neither caches nor cluster nor an open watch. */
  lemma {:induction false} OthersMirror(s: State, m: Move, k: string)
    requires Enabled(s, m) && Mirrors(s, k)
    requires m.Disconnects? || m.StartsListing? || m.TimerFires? || m.Begins? || m.ReadsConfigKeys? || m.ReadsRuntimeKeys?
      || m.ReadsConfig? || m.ReadsRuntime? || m.Ends?
    ensures Mirrors(Do(s, m), k)
  {
    hide Final, Get;
  }

  lemma {:induction false} ConfigMirrors(s: State, step: Step, k: string)
    requires Enabled(s, ConfigChanges(step)) && Mirrors(s, k)
    ensures Mirrors(Do(s, ConfigChanges(step)), k)
  {
    hide Mirrors, OnCache;
    ChannelsMirrors(s, true, step, k);
    SameMirrors(OnCache(s, true, step), Do(s, ConfigChanges(step)), k);
  }

  lemma {:induction false} CancelsMirrors(s: State, ofConfig: bool, note: string, k: string)
    requires Enabled(s, Cancels(ofConfig, note)) && Mirrors(s, k)
    ensures Mirrors(Do(s, Cancels(ofConfig, note)), k)
  {
    hide Mirrors, OnCache;
    ChannelsMirrors(s, ofConfig, DoCancel(note), k);
    SameMirrors(OnCache(s, ofConfig, DoCancel(note)), Do(s, Cancels(ofConfig, note)), k);
  }

  /** The watch stays complete: delivering all events in flight would make the mirror equal to
      the cluster. */
  lemma {:induction false} MirrorsKept(s: State, m: Move, k: string)
    requires Enabled(s, m) && Mirrors(s, k) && OnlyWatched(s)
    ensures Mirrors(Do(s, m), k)
  {
    hide Mirrors, OnlyWatched, SetCluster, OnCache, TakeNote, ActOn, Legal, First, Differ;
    match m
    case ConfigChanges(step) => ConfigMirrors(s, step, k);
    case Drifts(key, value) => SetClusterMirrors(s, key, value, k);
    case Cancels(ofConfig, note) => CancelsMirrors(s, ofConfig, note, k);
    case Lists(kind) => ListsMirrors(s, kind, k);
    case EndsListing => EndsMirrors(s, k);
    case Delivers(i) => DeliversMirrors(s, i, k);
    case Sends(ofConfig, step) => ChannelsMirrors(s, ofConfig, step, k);
    case Receives(ofConfig) => TakesMirrors(s, ofConfig, k);
    case Acts(ok, effect) => ActsMirrors(s, s.consumer.todo, s.consumer.current, ok, effect, k);
    case _ => OthersMirror(s, m, k);
  }

  lemma {:induction false} AllWatchable(kind: Kind)
    ensures kind in WATCHABLE
  {
  }

  lemma {:induction false} OnlyWatchedKept(s: State, m: Move)
    requires Enabled(s, m) && OnlyWatched(s)
    ensures OnlyWatched(Do(s, m))
  {
    hide Store, Replace, First, Differ, Get, SetCluster, OnCache, TakeNote;
    match m
    case Drifts(key, value) => SetClusterWatched(s, key, value);
    case Acts(ok, effect) =>
      var b := s.consumer.current;
      SetClusterWatched(s.(consumer := Work(s.consumer.todo, Nothing)), b.key, b.c);
    case ConfigChanges(step) => SameWatch(s, true, step);
    case Cancels(ofConfig, note) => SameWatch(s, ofConfig, DoCancel(note));
    case Sends(ofConfig, step) => SameWatch(s, ofConfig, step);
    case Receives(ofConfig) => SameWatch(s, ofConfig, DoReceive);
    case _ =>
  }

  lemma {:induction false} SameWatch(s: State, ofConfig: bool, step: Step)
    ensures OnCache(s, ofConfig, step).events == s.events && OnCache(s, ofConfig, step).stream == s.stream
    ensures TakeNote(s, ofConfig).events == s.events && TakeNote(s, ofConfig).stream == s.stream
  {
  }

  lemma {:induction false} ReplaceStores(c: Cache, objects: map<string, Object>)
    ensures Replace(c, objects).objects == objects
    ensures forall k :: Notified(Replace(c, objects), k)
  {
  }

  lemma {:induction false} ListsMirrors(s: State, kind: Kind, k: string)
    requires Enabled(s, Lists(kind)) && Mirrors(s, k) && OnlyWatched(s)
    ensures Mirrors(Do(s, Lists(kind)), k)
  {
    hide Final;
    if KindOf(k) == kind {
      FinalNone(Get(s.stream.snapshot + OfKind(s.cluster, kind), k), s.events, k);
    }
  }

  // ---------------------------------------------------------------- every difference is attended to

  /** The consumer is going to act on the key, or to look at it. */
  predicate Attends(s: State, key: string) {
    match s.consumer
    case NotStarted => true
    case Idle => false
    case Keys1 => true
    case Keys2(keys) => key in keys || key in s.runtime.objects
    case Work(todo, current) =>
      || key in todo
      || (current.GotConfig? && current.key == key && current.c == Get(s.config.objects, key))
      || (current.GotBoth? && current.key == key && current.c == Get(s.config.objects, key) && Differ(current.c, current.r))
  }

  predicate Lost(s: State, key: string) {
    key in s.lost || SNAPSHOT_REPLACED in s.lost
  }

  predicate Agree(s: State, key: string) {
    Get(s.config.objects, key) == Get(s.runtime.objects, key)
  }

  /** A key on which the caches differ is announced, attended to or lost, or an event in flight
      differs from the runtime entry, or the mirror is being rebuilt. */
  predicate Attended(s: State, key: string) {
    || Agree(s, key) || !s.stream.Up?
    || Differs(s.events, key, Get(s.runtime.objects, key))
    || Notified(s.config, key) || Notified(s.runtime, key)
    || Attends(s, key) || Lost(s, key)
  }

  lemma {:induction false} ConfigChangesKeeps(s: State, step: Step, k: string)
    requires Enabled(s, ConfigChanges(step)) && Attended(s, k)
    ensures Attended(Do(s, ConfigChanges(step)), k)
  {
    hide Store, Replace, Differs, Notified;
    StepChanges(s.config, step, k);
    if Notified(s.config, k) {
      ProducersKeepNotified(s.config, step, k);
    }
  }

  lemma {:induction false} SendsKeeps(s: State, ofConfig: bool, step: Step, k: string)
    requires Enabled(s, Sends(ofConfig, step)) && Attended(s, k)
    ensures Attended(Do(s, Sends(ofConfig, step)), k)
  {
    hide Differs, Notified, Attends;
    var c := if ofConfig then s.config else s.runtime;
    if Notified(c, k) {
      ProducersKeepNotified(c, step, k);
    }
    SameObjects(s, ofConfig, step, k);
  }

  /** Channel steps leave the entries and the work of the consumer alone. */
  lemma {:induction false} SameObjects(s: State, ofConfig: bool, step: Step, k: string)
    requires !step.DoStore? && !step.DoReplace?
    ensures var s' := OnCache(s, ofConfig, step);
      s'.config.objects == s.config.objects && s'.runtime.objects == s.runtime.objects && Attends(s', k) == Attends(s, k)
  {
    hide Apply, Attends;
    SameContents(if ofConfig then s.config else s.runtime, step);
    SameWork(s, OnCache(s, ofConfig, step), k);
  }

  lemma {:induction false} SameContents(c: Cache, step: Step)
    requires !step.DoStore? && !step.DoReplace?
    ensures Apply(c, step).objects == c.objects
  {
    hide Store, Replace;
  }

  lemma {:induction false} SameWork(s: State, s': State, k: string)
    requires s'.config.objects == s.config.objects && s'.runtime.objects == s.runtime.objects && s'.consumer == s.consumer
    ensures Attends(s', k) == Attends(s, k)
  {
    hide Get, Differ;
  }

  lemma {:induction false} CancelsKeeps(s: State, ofConfig: bool, note: string, k: string)
    requires Enabled(s, Cancels(ofConfig, note)) && Attended(s, k)
    ensures Attended(Do(s, Cancels(ofConfig, note)), k)
  {
    hide Differs, Attends;
    SameObjects(s, ofConfig, DoCancel(note), k);
    AttendsIgnoresLost(OnCache(s, ofConfig, DoCancel(note)), s.lost + {note}, k);
  }

  lemma {:induction false} AttendsIgnoresLost(s: State, lost: set<string>, k: string)
    ensures Attends(s.(lost := lost), k) == Attends(s, k)
  {
  }

  lemma {:induction false} ReceivesKeeps(s: State, ofConfig: bool, k: string)
    requires Enabled(s, Receives(ofConfig)) && Attended(s, k)
    ensures Attended(Do(s, Receives(ofConfig)), k)
  {
    hide Differs;
  }

  /** The mirror reads on: an entry it changes is announced by the runtime cache. */
  lemma {:induction false} DeliversKeeps(s: State, i: nat, k: string)
    requires Enabled(s, Delivers(i)) && Attended(s, k)
    ensures Attended(Do(s, Delivers(i)), k)
  {
    hide Store, Without, First, Differs, Notified;
    var e, r := s.events[i], Get(s.runtime.objects, k);
    ChangeNotifies(s.runtime, e.key, e.value, k);
    var s' := Do(s, Delivers(i));
    if Get(s'.runtime.objects, k) == r {
      if Differs(s.events, k, r) {
        DiffersWithout(s.events, i, k, r);
      }
      SameEntry(s, s', k);
    }
  }

  lemma {:induction false} SameEntry(s: State, s': State, k: string)
    requires s'.config == s.config && s'.consumer == s.consumer
    requires Get(s'.runtime.objects, k) == Get(s.runtime.objects, k)
    ensures Attends(s', k) == Attends(s, k)
  {
  }

  lemma {:induction false} ListedKeeps(s: State, k: string)
    requires Enabled(s, EndsListing)
    ensures Attended(Do(s, EndsListing), k)
  {
    hide Replace, Notified, Attends, Differs;
    ReplaceStores(s.runtime, s.stream.snapshot);
  }

  /** The cluster may change under the mirror: then the event that says so differs. */
  lemma {:induction false} SetClusterKeeps(s: State, key: string, value: Option<Object>, k: string)
    requires Attended(s, k)
    ensures Attended(SetCluster(s, key, value), k)
  {
    hide Differs, Notified, Get, Put;
    var r := Get(s.runtime.objects, k);
    if Differs(s.events, k, r) {
      DiffersAppend(s.events, Event(key, value), k, r);
    }
    SameEntry(s, SetCluster(s, key, value), k);
  }

  /** A call that succeeds brings the cluster to the configuration: the mirror agrees already, or
      an event will tell it. */
  lemma {:induction false} CallSettles(s: State, key: string)
    requires s.stream.Up? && Mirrors(s, key) && Get(s.cluster, key) == Get(s.config.objects, key)
    ensures Agree(s, key) || Differs(s.events, key, Get(s.runtime.objects, key))
  {
    FinalOrDiffers(Get(s.runtime.objects, key), s.events, key);
  }

  lemma {:induction false} SetClusterSets(s: State, key: string, value: Option<Object>)
    ensures Get(SetCluster(s, key, value).cluster, key) == value
    ensures SetCluster(s, key, value).config == s.config && SetCluster(s, key, value).runtime == s.runtime
    ensures SetCluster(s, key, value).stream == s.stream && SetCluster(s, key, value).lost == s.lost
    ensures SetCluster(s, key, value).consumer == s.consumer
  {
  }

  lemma {:induction false} ActsKeeps(s: State, ok: bool, effect: bool, k: string)
    requires Enabled(s, Acts(ok, effect)) && Attended(s, k) && Mirrors(s, k)
    ensures Attended(Do(s, Acts(ok, effect)), k)
  {
    hide SetCluster, Mirrors, Differs, Notified, Agree;
    var b := s.consumer.current;
    var s1 := s.(consumer := Work(s.consumer.todo, Nothing));
    var s2 := SetCluster(s1, b.key, b.c);
    SetClusterSets(s1, b.key, b.c);
    ConsumerOnly(s, s1, k);
    if Differ(b.c, b.r) && b.key == k && ok && b.c == Get(s.config.objects, k) {
      SetClusterMirrors(s1, b.key, b.c, k);
      if s.stream.Up? {
        CallSettles(s2, k);
      }
    } else if !Differ(b.c, b.r) || b.key != k || b.c != Get(s.config.objects, k) {
      SetClusterKeeps(s1, b.key, b.c, k);
      LosesMore(s1, b.key, k);
      LosesMore(s2, b.key, k);
    }
  }

  lemma {:induction false} LosesMore(s: State, note: string, k: string)
    requires Attended(s, k)
    ensures Attended(s.(lost := s.lost + {note}), k)
  {
    hide Agree, Attends, Notified, Differs;
    AttendsIgnoresLost(s, s.lost + {note}, k);
    assert Agree(s.(lost := s.lost + {note}), k) == Agree(s, k) by { AgreeIgnoresLost(s, s.lost + {note}, k); }
  }

  lemma {:induction false} AgreeIgnoresLost(s: State, lost: set<string>, k: string)
    ensures Agree(s.(lost := lost), k) == Agree(s, k)
  {
  }

  /** Where only the consumer moved, the rest is as it was. */
  lemma {:induction false} ConsumerOnly(s: State, s': State, k: string)
    requires s' == s.(consumer := s'.consumer)
    ensures Agree(s', k) == Agree(s, k)
    ensures Mirrors(s', k) == Mirrors(s, k)
    ensures Attended(s, k) && (Attends(s, k) ==> Attends(s', k) || Agree(s', k)) ==> Attended(s', k)
  {
    hide Attends, Notified, Differs;
  }

  lemma {:induction false} ReadsKeep(s: State, m: Move, k: string)
    requires Enabled(s, m) && Attended(s, k)
    requires m.ReadsConfigKeys? || m.ReadsRuntimeKeys? || m.ReadsConfig? || m.ReadsRuntime? || m.Ends?
    ensures Attended(Do(s, m), k)
  {
    hide Attended, Notified, Differs;
    var s' := Do(s, m);
    ConsumerOnly(s, s', k);
  }

  lemma {:induction false} AttendedKept(s: State, m: Move, k: string)
    requires Enabled(s, m) && Attended(s, k) && Mirrors(s, k)
    ensures Attended(Do(s, m), k)
  {
    match m
    case ConfigChanges(step) => ConfigChangesKeeps(s, step, k);
    case Drifts(key, value) => SetClusterKeeps(s, key, value, k);
    case Cancels(ofConfig, note) => CancelsKeeps(s, ofConfig, note, k);
    case EndsListing => ListedKeeps(s, k);
    case Delivers(i) => DeliversKeeps(s, i, k);
    case Sends(ofConfig, step) => SendsKeeps(s, ofConfig, step, k);
    case Receives(ofConfig) => ReceivesKeeps(s, ofConfig, k);
    case Acts(ok, effect) => ActsKeeps(s, ok, effect, k);
    case ReadsConfigKeys => ReadsKeep(s, m, k);
    case ReadsRuntimeKeys => ReadsKeep(s, m, k);
    case ReadsConfig(_) => ReadsKeep(s, m, k);
    case ReadsRuntime => ReadsKeep(s, m, k);
    case Ends => ReadsKeep(s, m, k);
    case _ =>
  }

  ghost predicate Invariant(s: State) {
    OnlyWatched(s) && forall k: string :: Attended(s, k) && Mirrors(s, k)
  }

  lemma {:induction false} InvariantKept(s: State, m: Move)
    requires Invariant(s)
    ensures Invariant(Next(s, m))
  {
    hide OnlyWatched, Attended, Mirrors, Enabled, Do;
    if Enabled(s, m) {
      OnlyWatchedKept(s, m);
      forall k: string ensures Attended(Do(s, m), k) && Mirrors(Do(s, m), k) {
        AttendedKept(s, m, k);
        MirrorsKept(s, m, k);
      }
    }
  }

  lemma {:induction false} StartInvariant(cluster: map<string, Object>)
    ensures Invariant(Start(cluster))
  {
  }

  /** In every run, whatever fails or is interrupted. */
  lemma {:induction false} RunInvariant(cluster: map<string, Object>, moves: seq<Move>)
    ensures Invariant(After(cluster, moves))
  {
    hide Invariant, Next;
    if moves == [] {
      StartInvariant(cluster);
    } else {
      RunInvariant(cluster, moves[..|moves| - 1]);
      InvariantKept(After(cluster, moves[..|moves| - 1]), moves[|moves| - 1]);
    }
  }

  /** No notification is queued or waits, no event is in flight, and the reconciler is idle. */
  predicate Quiescent(s: State) {
    && s.config.buffer.None? && s.config.pending == multiset{}
    && s.runtime.buffer.None? && s.runtime.pending == multiset{}
    && s.events == [] && s.stream.Up? && s.consumer.Idle?
  }

  /** Quiescence implies convergence: of every run, on every key that was not lost since the last
      full reconciliation began. */
  lemma {:induction false} QuiescentAgrees(cluster: map<string, Object>, moves: seq<Move>, key: string)
    requires Quiescent(After(cluster, moves)) && !Lost(After(cluster, moves), key)
    ensures var s := After(cluster, moves);
      Get(s.config.objects, key) == Get(s.runtime.objects, key) == Get(s.cluster, key)
  {
    hide OnlyWatched, After;
    RunInvariant(cluster, moves);
    Settled(After(cluster, moves), key);
  }

  lemma {:induction false} Settled(s: State, key: string)
    requires Quiescent(s) && !Lost(s, key) && Attended(s, key) && Mirrors(s, key)
    ensures Get(s.config.objects, key) == Get(s.runtime.objects, key) == Get(s.cluster, key)
  {
  }

  // ---------------------------------------------------------------- waiting for both snapshots

  /** The configuration has completed a snapshot in this run. */
  ghost predicate Configured(moves: seq<Move>) {
    exists i :: 0 <= i < |moves| && moves[i].ConfigChanges? && moves[i].step.DoReplace?
  }

  /** The cluster has been listed completely in this run. */
  ghost predicate ClusterListed(cluster: map<string, Object>, moves: seq<Move>) {
    exists i :: 0 <= i < |moves| && moves[i].EndsListing? && Enabled(After(cluster, moves[..i]), moves[i])
  }

  /** What others alone have made of the cluster. */
  function Drifted(cluster: map<string, Object>, moves: seq<Move>): map<string, Object> {
    if moves == [] then cluster
    else
      var n := |moves| - 1;
      var before := Drifted(cluster, moves[..n]);
      if moves[n].Drifts? then Put(before, moves[n].key, moves[n].value) else before
  }

  lemma {:induction false} AfterLast(cluster: map<string, Object>, moves: seq<Move>)
    requires moves != []
    ensures After(cluster, moves) == Next(After(cluster, moves[..|moves| - 1]), moves[|moves| - 1])
  {
    hide Next;
  }

  lemma {:induction false} ConfiguredLast(moves: seq<Move>)
    requires moves != []
    ensures var m := moves[|moves| - 1];
      Configured(moves) <==> Configured(moves[..|moves| - 1]) || (m.ConfigChanges? && m.step.DoReplace?)
  {
    var n := |moves| - 1;
    if Configured(moves) {
      var i :| 0 <= i < |moves| && moves[i].ConfigChanges? && moves[i].step.DoReplace?;
      assert i < n ==> moves[..n][i] == moves[i];
    }
    if Configured(moves[..n]) {
      var i :| 0 <= i < n && moves[..n][i].ConfigChanges? && moves[..n][i].step.DoReplace?;
      assert moves[i] == moves[..n][i];
    }
  }

  lemma {:induction false} ListedLast(cluster: map<string, Object>, moves: seq<Move>)
    requires moves != []
    ensures var n := |moves| - 1;
      ClusterListed(cluster, moves) <==>
        ClusterListed(cluster, moves[..n]) || (moves[n].EndsListing? && Enabled(After(cluster, moves[..n]), moves[n]))
  {
    hide After, Enabled;
    var n := |moves| - 1;
    assert forall i :: 0 <= i < n ==> moves[..n][..i] == moves[..i] && moves[..n][i] == moves[i];
    if ClusterListed(cluster, moves) {
      var i :| 0 <= i < |moves| && moves[i].EndsListing? && Enabled(After(cluster, moves[..i]), moves[i]);
      assert i < n ==> moves[..n][i].EndsListing? && Enabled(After(cluster, moves[..n][..i]), moves[..n][i]);
    }
    if ClusterListed(cluster, moves[..n]) {
      var i :| 0 <= i < n && moves[..n][i].EndsListing? && Enabled(After(cluster, moves[..n][..i]), moves[..n][i]);
      assert moves[i].EndsListing? && Enabled(After(cluster, moves[..i]), moves[i]);
    }
  }

  /** One step of a machine whose reconciler waits. */
  ghost predicate Awaits(s: State, configured: bool, listed: bool) {
    && s.configReady == configured && s.runtimeReady == listed
    && (!(configured && listed) ==> s.consumer.NotStarted?)
  }

  lemma {:induction false} NextAwaits(s: State, m: Move, configured: bool, listed: bool)
    requires Awaits(s, configured, listed)
    ensures Awaits(Next(s, m), configured || (m.ConfigChanges? && m.step.DoReplace?), listed || (m.EndsListing? && Enabled(s, m)))
    ensures s.consumer.NotStarted? ==> Next(s, m).cluster == if m.Drifts? then Put(s.cluster, m.key, m.value) else s.cluster
  {
    hide Apply, Store, Replace, Legal, First, Without, Put, Get, OfKind;
  }

  /** Until both the configuration has completed a snapshot and the cluster has been listed, the
      reconciler has not started, no call is possible, and the cluster is what others made of it. */
  lemma {:induction false} WaitsForBoth(cluster: map<string, Object>, moves: seq<Move>)
    ensures !Configured(moves) || !ClusterListed(cluster, moves) ==>
      && After(cluster, moves).consumer.NotStarted?
      && After(cluster, moves).cluster == Drifted(cluster, moves)
      && forall ok, effect :: !Enabled(After(cluster, moves), Acts(ok, effect))
    ensures Awaits(After(cluster, moves), Configured(moves), ClusterListed(cluster, moves))
  {
    hide Next, After, Configured, ClusterListed, Put;
    if moves == [] {
      NothingYet(cluster);
    } else {
      var n := |moves| - 1;
      WaitsForBoth(cluster, moves[..n]);
      AfterLast(cluster, moves);
      ConfiguredLast(moves);
      ListedLast(cluster, moves);
      NextAwaits(After(cluster, moves[..n]), moves[n], Configured(moves[..n]), ClusterListed(cluster, moves[..n]));
    }
  }

  lemma {:induction false} NothingYet(cluster: map<string, Object>)
    ensures After(cluster, []) == Start(cluster) && !Configured([]) && !ClusterListed(cluster, [])
  {
  }

  // ---------------------------------------------------------------- what can happen at any time

  /** Others may change the configuration and the cluster, the stream may break and a call may end
      in any way, whatever the state. */
  lemma {:induction false} AnythingMayHappen(s: State, key: string, value: Option<Object>, objects: map<string, Object>, note: string)
    ensures Enabled(s, Drifts(key, value)) && Enabled(s, Disconnects)
    ensures Enabled(s, ConfigChanges(DoStore(key, value))) && Enabled(s, ConfigChanges(DoReplace(objects)))
    ensures note in s.config.pending ==> Enabled(s, Cancels(true, note))
    ensures note in s.runtime.pending ==> Enabled(s, Cancels(false, note))
    ensures s.consumer.Idle? ==> Enabled(s, TimerFires)
    ensures s.stream.Down? ==> Enabled(s, StartsListing)
    ensures s.consumer.Work? && s.consumer.current.GotBoth? ==> forall ok, effect :: Enabled(s, Acts(ok, effect))
  {
  }

  /** A call is made only if the two values that were read differ, and then it sets the cluster to
      the configured one; one that fails may have had that effect. */
  lemma {:induction false} CallsAre(s: State, todo: set<string>, b: Current, ok: bool, effect: bool, key: string)
    requires b.GotBoth?
    ensures b.c == b.r ==> ActOn(s, todo, b, ok, effect) == s.(consumer := Work(todo, Nothing))
    ensures b.c != b.r && (ok || effect) ==> Get(ActOn(s, todo, b, ok, effect).cluster, b.key) == b.c
    ensures b.c != b.r && !ok && !effect ==> ActOn(s, todo, b, ok, effect).cluster == s.cluster
    ensures key != b.key ==> Get(ActOn(s, todo, b, ok, effect).cluster, key) == Get(s.cluster, key)
  {
  }
}

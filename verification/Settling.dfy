/** Left alone, the machine always comes to rest, and at rest the cluster is as configured. */
module Settling {
  import opened Options
  import opened CacheKeys
  import opened CacheModel
  import opened Convergence

  /** A move of the operator itself, every call succeeding. */
  predicate Own(m: Move) {
    m.Delivers? || m.Sends? || m.Begins? || m.Receives? || m.ReadsConfigKeys? || m.ReadsRuntimeKeys?
    || m.ReadsConfig? || m.ReadsRuntime? || (m.Acts? && m.ok) || m.Ends?
  }

  // ---------------------------------------------------------------- a measure

  /** The keys on which the cluster is not as configured. */
  function Unequal(s: State): set<string> {
    set k | k in s.config.objects.Keys + s.cluster.Keys && Get(s.config.objects, k) != Get(s.cluster, k)
  }

  /** The consumer is about to act on a value that has been superseded. */
  function Stale(s: State): nat {
    if s.consumer.Work? && !s.consumer.current.Nothing? && s.consumer.current.c != Get(s.config.objects, s.consumer.current.key)
    then 1 else 0
  }

  function Waiting(s: State): nat {
    |s.config.pending| + |s.runtime.pending|
  }

  function Queued(s: State): nat {
    (if s.config.buffer.Some? then 1 else 0) + (if s.runtime.buffer.Some? then 1 else 0)
  }

  function Labour(s: State): nat {
    match s.consumer
    case NotStarted => 3 * (|s.config.objects| + |s.runtime.objects|) + 4
    case Idle => 0
    case Keys1 => 3 * (|s.config.objects| + |s.runtime.objects|) + 3
    case Keys2(keys) => 3 * (|keys| + |s.runtime.objects|) + 2
    case Work(todo, current) =>
      3 * |todo| + (match current case Nothing => 1 case GotConfig(_, _) => 3 case GotBoth(_, _, _) => 2)
  }

  datatype Measure = Measure(stale: nat, unequal: nat, events: nat, waiting: nat, queued: nat, labour: nat)

  function MeasureOf(s: State): Measure {
    Measure(Stale(s), |Unequal(s)|, |s.events|, Waiting(s), Queued(s), Labour(s))
  }

  /** Lexicographically smaller. */
  predicate Below(a: Measure, b: Measure) {
    a.stale < b.stale || (a.stale == b.stale && (
    a.unequal < b.unequal || (a.unequal == b.unequal && (
    a.events < b.events || (a.events == b.events && (
    a.waiting < b.waiting || (a.waiting == b.waiting && (
    a.queued < b.queued || (a.queued == b.queued && a.labour < b.labour)))))))))
  }

  /** What the cluster and the configuration are decides `Unequal`. */
  lemma {:induction false} SameUnequal(s: State, s': State)
    requires s'.config.objects == s.config.objects && s'.cluster == s.cluster
    ensures Unequal(s') == Unequal(s)
  {
  }

  /** What a step of a channel does to how much is in it. */
  lemma {:induction false} ChannelSizes(c: Cache, step: Step)
    requires Legal(c, step) && (step.DoSend? || step.DoDrain? || step.DoReceive?)
    ensures Apply(c, step).objects == c.objects
    ensures step.DoSend? ==> |Apply(c, step).pending| == |c.pending| - 1
    ensures !step.DoSend? ==> Apply(c, step).pending == c.pending && c.buffer.Some? && Apply(c, step).buffer.None?
  {
  }

  lemma {:induction false} SendsDescend(s: State, ofConfig: bool, step: Step)
    requires (step.DoSend? || step.DoDrain?) && Legal(if ofConfig then s.config else s.runtime, step)
    ensures Below(MeasureOf(OnCache(s, ofConfig, step)), MeasureOf(s))
  {
    hide Unequal, Labour, Get, Apply, Legal;
    ChannelSizes(if ofConfig then s.config else s.runtime, step);
    SameUnequal(s, OnCache(s, ofConfig, step));
    SameLabour(s, OnCache(s, ofConfig, step));
  }

  lemma {:induction false} SameLabour(s: State, s': State)
    requires s'.config.objects == s.config.objects && s'.runtime.objects == s.runtime.objects && s'.consumer == s.consumer
    ensures Labour(s') == Labour(s) && Stale(s') == Stale(s)
  {
    hide Get;
  }

  lemma {:induction false} ReceivesDescend(s: State, ofConfig: bool)
    requires s.consumer.Idle? && (if ofConfig then s.config else s.runtime).buffer.Some?
    ensures Below(MeasureOf(TakeNote(s, ofConfig)), MeasureOf(s))
  {
    hide Unequal, Labour, Get, Apply, Stale, TakeNote;
    ChannelSizes(if ofConfig then s.config else s.runtime, DoReceive);
    TakesNote(s, ofConfig);
    SameUnequal(s, TakeNote(s, ofConfig));
  }

  lemma {:induction false} TakesNote(s: State, ofConfig: bool)
    requires (if ofConfig then s.config else s.runtime).buffer.Some?
    ensures var s' := TakeNote(s, ofConfig);
      && s'.config == OnCache(s, ofConfig, DoReceive).config && s'.runtime == OnCache(s, ofConfig, DoReceive).runtime
      && s'.cluster == s.cluster && s'.events == s.events && Stale(s') == 0
  {
    hide Apply, Get;
  }

  lemma {:induction false} DeliversDescend(s: State, i: nat)
    requires Enabled(s, Delivers(i))
    ensures Below(MeasureOf(Do(s, Delivers(i))), MeasureOf(s))
  {
    hide Unequal, Labour, Waiting, Queued, Store, First;
    SameUnequal(s, Do(s, Delivers(i)));
  }

  lemma {:induction false} UnionSize(a: set<string>, b: set<string>)
    ensures |a + b| <= |a| + |b|
  {
    assert |a + b| == |a| + |b - a| by { assert a + b == a + (b - a); }
    assert |b| == |b * a| + |b - a| by { assert b == (b * a) + (b - a); }
  }

  lemma {:induction false} ConsumerDescends(s: State, m: Move)
    requires Enabled(s, m)
    requires m.Begins? || m.ReadsConfigKeys? || m.ReadsRuntimeKeys? || m.ReadsConfig? || m.ReadsRuntime? || m.Ends?
    ensures Below(MeasureOf(Do(s, m)), MeasureOf(s))
  {
    hide Labour, Stale, Unequal;
    LabourFalls(s, m);
    NotStaler(s, m);
    SameUnequal(s, Do(s, m));
  }

  lemma {:induction false} LabourFalls(s: State, m: Move)
    requires Enabled(s, m)
    requires m.Begins? || m.ReadsConfigKeys? || m.ReadsRuntimeKeys? || m.ReadsConfig? || m.ReadsRuntime? || m.Ends?
    ensures Labour(Do(s, m)) < Labour(s)
  {
    hide Get, Legal, First, OnCache, TakeNote, ActOn, Restart, Without;
    match m
    case ReadsRuntimeKeys => UnionSize(s.consumer.keys, s.runtime.objects.Keys);
    case Begins => RestartLabour(s);
    case _ =>
  }

  lemma {:induction false} RestartLabour(s: State)
    ensures Labour(Restart(s)) == 3 * (|s.config.objects| + |s.runtime.objects|) + 3
  {
  }

  /** What is read is current when it is read. */
  lemma {:induction false} NotStaler(s: State, m: Move)
    requires Enabled(s, m)
    requires m.Begins? || m.ReadsConfigKeys? || m.ReadsRuntimeKeys? || m.ReadsConfig? || m.ReadsRuntime? || m.Ends?
    ensures Stale(Do(s, m)) <= Stale(s)
  {
    hide Get, Legal, First, OnCache, TakeNote, ActOn, Without;
  }

  /** A call changes the cluster at one key, to what was read of the configuration. */
  lemma {:induction false} UnequalAfter(s: State, key: string, value: Option<Object>)
    requires Get(s.cluster, key) != value
    ensures value == Get(s.config.objects, key) ==> Unequal(SetCluster(s, key, value)) == Unequal(s) - {key} && key in Unequal(s)
  {
    if value == Get(s.config.objects, key) {
      var s' := SetCluster(s, key, value);
      forall k ensures k in Unequal(s') <==> k in Unequal(s) - {key} {
      }
    }
  }

  lemma {:induction false} SetSame(s: State, key: string, value: Option<Object>)
    requires Get(s.cluster, key) == value
    ensures SetCluster(s, key, value) == s
  {
  }

  /** A call with a superseded value uses that value up; one with the current value that changes
      the cluster mends a key; any other changes nothing. */
  lemma {:induction false} ActsDescend(s: State, effect: bool)
    requires s.consumer.Work? && s.consumer.current.GotBoth?
    ensures Below(MeasureOf(ActOn(s, s.consumer.todo, s.consumer.current, true, effect)), MeasureOf(s))
  {
    hide Unequal, SetCluster, Get;
    var b := s.consumer.current;
    var s1 := s.(consumer := Work(s.consumer.todo, Nothing));
    SameUnequal(s, s1);
    SetClusterSets(s1, b.key, b.c);
    if b.c == Get(s.config.objects, b.key) {
      if Get(s.cluster, b.key) == b.c {
        SetSame(s1, b.key, b.c);
      } else {
        UnequalAfter(s1, b.key, b.c);
      }
    }
  }

  lemma {:induction false} OwnDescends(s: State, m: Move)
    requires Enabled(s, m) && Own(m)
    ensures Below(MeasureOf(Do(s, m)), MeasureOf(s))
  {
    hide MeasureOf, Below, Legal, First, OnCache, TakeNote, ActOn, Get;
    match m
    case Delivers(i) => DeliversDescend(s, i);
    case Sends(ofConfig, step) => SendsDescend(s, ofConfig, step);
    case Receives(ofConfig) => ReceivesDescend(s, ofConfig);
    case Acts(ok, effect) => ActsDescend(s, effect);
    case _ => ConsumerDescends(s, m);
  }

  // ---------------------------------------------------------------- no deadlock

  /** Something to do, as long as the machine is not at rest: a watch is asked for its next event
      only when no sender waits. */
  lemma {:induction false} SomeMove(s: State) returns (m: Move)
    requires s.stream.Up? && s.configReady && s.runtimeReady && !Quiescent(s)
    ensures Enabled(s, m) && Own(m)
    ensures m.Delivers? ==> s.config.pending == s.runtime.pending == multiset{}
  {
    hide Legal, First;
    match s.consumer
    case NotStarted => m := Begins;
    case Keys1 => m := ReadsConfigKeys;
    case Keys2(_) => m := ReadsRuntimeKeys;
    case Work(todo, current) =>
      match current {
        case Nothing =>
          if todo == {} {
            m := Ends;
          } else {
            var k :| k in todo;
            m := ReadsConfig(k);
          }
        case GotConfig(_, _) => m := ReadsRuntime;
        case GotBoth(_, _, _) => m := Acts(true, true);
      }
    case Idle =>
      if s.config.buffer.Some? {
        m := Receives(true);
      } else if s.runtime.buffer.Some? {
        m := Receives(false);
      } else if s.config.pending != multiset{} {
        m := Sends(true, Waiter(s.config));
      } else if s.runtime.pending != multiset{} {
        m := Sends(false, Waiter(s.runtime));
      } else {
        m := Delivers(0);
        FirstOfAll(s.events);
      }
  }

  ghost function Waiter(c: Cache): (step: Step)
    requires c.pending != multiset{} && c.buffer.None?
    ensures step.DoSend? && Legal(c, step)
  {
    var note :| note in c.pending;
    DoSend(note)
  }

  lemma {:induction false} FirstOfAll(events: seq<Event>)
    requires events != []
    ensures First(events, 0)
  {
  }

  predicate Kept(s: State, s': State) {
    && s'.lost <= s.lost && s'.stream == s.stream && s'.config.objects == s.config.objects
    && s'.configReady == s.configReady && s'.runtimeReady == s.runtimeReady
  }

  lemma {:induction false} ActsKept(s: State, effect: bool)
    requires s.consumer.Work? && s.consumer.current.GotBoth?
    ensures Kept(s, ActOn(s, s.consumer.todo, s.consumer.current, true, effect))
  {
    hide SetCluster, Differ, Get;
    var b := s.consumer.current;
    var s1 := s.(consumer := Work(s.consumer.todo, Nothing));
    SetClusterSets(s1, b.key, b.c);
    SetClusterReady(s1, b.key, b.c);
  }

  lemma {:induction false} SendsKept(s: State, ofConfig: bool, step: Step)
    requires step.DoSend? || step.DoDrain?
    ensures Kept(s, OnCache(s, ofConfig, step))
  {
  }

  lemma {:induction false} ReceivesKept(s: State, ofConfig: bool)
    ensures Kept(s, TakeNote(s, ofConfig))
  {
  }

  /** No own move loses anything, ends the mirror or makes a cache unready. */
  lemma {:induction false} OwnKeeps(s: State, m: Move)
    requires Enabled(s, m) && Own(m)
    ensures Kept(s, Do(s, m))
  {
    hide Get, OnCache, TakeNote, ActOn, Store, Without, First, Legal;
    match m
    case Acts(ok, effect) => ActsKept(s, effect);
    case Sends(ofConfig, step) => SendsKept(s, ofConfig, step);
    case Receives(ofConfig) => ReceivesKept(s, ofConfig);
    case _ =>
  }

  lemma {:induction false} SetClusterReady(s: State, key: string, value: Option<Object>)
    ensures SetCluster(s, key, value).configReady == s.configReady && SetCluster(s, key, value).runtimeReady == s.runtimeReady
  {
  }

  // ---------------------------------------------------------------- runs left alone

  /** Every move was enabled when it was made, and the operator's own. */
  ghost predicate OwnRun(s: State, moves: seq<Move>) {
    forall i :: 0 <= i < |moves| ==> Enabled(From(s, moves[..i]), moves[i]) && Own(moves[i])
  }

  /** No own move is left to make. */
  ghost predicate Stuck(s: State) {
    forall m :: !(Enabled(s, m) && Own(m))
  }

  /** The mirror is up and both caches have had a snapshot. */
  predicate Running(s: State) {
    s.stream.Up? && s.configReady && s.runtimeReady
  }

  /** At rest, the cluster and its mirror are as configured on every key not lost before. */
  ghost predicate Converged(s0: State, s: State) {
    && Quiescent(s)
    && forall k :: Lost(s0, k) || Get(s.cluster, k) == Get(s.runtime.objects, k) == Get(s0.config.objects, k)
  }

  lemma {:induction false} OwnRunSnoc(s: State, moves: seq<Move>, m: Move)
    ensures From(s, moves + [m]) == Next(From(s, moves), m)
    ensures OwnRun(s, moves + [m]) <==> OwnRun(s, moves) && Enabled(From(s, moves), m) && Own(m)
  {
    hide Enabled, Own, Next;
    var more := moves + [m];
    assert more[..|moves|] == moves && more[|moves|] == m;
    assert forall i :: 0 <= i < |moves| ==> more[..i] == moves[..i] && more[i] == moves[i];
  }

  /** What every run of own moves keeps, in whatever order they are made. */
  lemma {:induction false} OwnRunKeeps(s: State, moves: seq<Move>)
    requires Invariant(s) && Running(s) && OwnRun(s, moves)
    ensures var t := From(s, moves);
      Invariant(t) && Running(t) && t.lost <= s.lost && t.config.objects == s.config.objects
  {
    hide Invariant, Enabled, Own, Do;
    if moves != [] {
      var n := |moves| - 1;
      assert moves == moves[..n] + [moves[n]];
      OwnRunSnoc(s, moves[..n], moves[n]);
      OwnRunKeeps(s, moves[..n]);
      OwnKeeps(From(s, moves[..n]), moves[n]);
      InvariantKept(From(s, moves[..n]), moves[n]);
    }
  }

  /** A run of own moves that cannot be extended has come to rest, converged. */
  lemma {:induction false} Settles(s: State, moves: seq<Move>)
    requires Invariant(s) && Running(s) && OwnRun(s, moves) && Stuck(From(s, moves))
    ensures Converged(s, From(s, moves))
  {
    hide Invariant, Enabled, Own, Quiescent, OwnRun, From, Get;
    OwnRunKeeps(s, moves);
    var t := From(s, moves);
    if !Quiescent(t) {
      var m := SomeMove(t);
    }
    forall k ensures Lost(s, k) || Get(t.cluster, k) == Get(t.runtime.objects, k) == Get(s.config.objects, k) {
      Rest(t, k);
    }
  }

  /** Every run of own moves can be extended to one that has come to rest. */
  lemma {:induction false} CanSettle(s: State, moves: seq<Move>) returns (more: seq<Move>)
    requires Invariant(s) && Running(s) && OwnRun(s, moves)
    ensures OwnRun(s, moves + more) && Converged(s, From(s, moves + more))
    decreases MeasureOf(From(s, moves)).stale, MeasureOf(From(s, moves)).unequal, MeasureOf(From(s, moves)).events,
      MeasureOf(From(s, moves)).waiting, MeasureOf(From(s, moves)).queued, MeasureOf(From(s, moves)).labour
  {
    hide Invariant, Enabled, Own, Do, OwnRun, From, Converged, MeasureOf;
    if m :| Enabled(From(s, moves), m) && Own(m) {
      OwnRunSnoc(s, moves, m);
      OwnDescends(From(s, moves), m);
      var rest := CanSettle(s, moves + [m]);
      more := [m] + rest;
      assert moves + more == moves + [m] + rest;
    } else {
      more := [];
      assert moves + [] == moves;
      Settles(s, moves);
    }
  }

  function Prefix(f: nat -> Move, n: nat): (moves: seq<Move>)
    ensures |moves| == n
  {
    seq(n, i requires 0 <= i < n => f(i))
  }

  /** No run of own moves goes on forever: of any endless sequence of moves, one comes to a move
      that is not enabled or not the operator's own. */
  lemma {:induction false} NoEndlessRun(s: State, f: nat -> Move, from: nat) returns (n: nat)
    ensures from <= n && !(Enabled(From(s, Prefix(f, n)), f(n)) && Own(f(n)))
    decreases MeasureOf(From(s, Prefix(f, from))).stale, MeasureOf(From(s, Prefix(f, from))).unequal,
      MeasureOf(From(s, Prefix(f, from))).events, MeasureOf(From(s, Prefix(f, from))).waiting,
      MeasureOf(From(s, Prefix(f, from))).queued, MeasureOf(From(s, Prefix(f, from))).labour
  {
    hide Enabled, Own, Do, From, MeasureOf;
    var t := From(s, Prefix(f, from));
    n := from;
    if Enabled(t, f(from)) && Own(f(from)) {
      OwnDescends(t, f(from));
      OwnRunSnoc(s, Prefix(f, from), f(from));
      assert Prefix(f, from + 1) == Prefix(f, from) + [f(from)];
      n := NoEndlessRun(s, f, from + 1);
    }
  }

  lemma {:induction false} Rest(s: State, k: string)
    requires Invariant(s) && Quiescent(s)
    ensures Lost(s, k) || Get(s.cluster, k) == Get(s.runtime.objects, k) == Get(s.config.objects, k)
  {
    hide OnlyWatched;
    if !Lost(s, k) {
      Settled(s, k);
    }
  }

  /** What holds of the state after any run from the start holds on from there. */
  lemma {:induction false} AfterThen(cluster: map<string, Object>, moves: seq<Move>, more: seq<Move>)
    ensures After(cluster, moves + more) == From(After(cluster, moves), more)
    decreases |more|
  {
    hide Next;
    if more == [] {
      assert moves + more == moves;
    } else {
      var n := |more| - 1;
      AfterThen(cluster, moves, more[..n]);
      assert (moves + more)[..|moves| + n] == moves + more[..n];
    }
  }

  /** After this run the operator is up and idle: the timer may fire. */
  ghost predicate CanFire(cluster: map<string, Object>, moves: seq<Move>) {
    Running(After(cluster, moves)) && After(cluster, moves).consumer.Idle?
  }

  /** The cluster and its mirror are as configured on every key. */
  ghost predicate AllConverged(s: State) {
    Quiescent(s) && forall k :: Get(s.cluster, k) == Get(s.runtime.objects, k) == Get(s.config.objects, k)
  }

  lemma {:induction false} Fires(cluster: map<string, Object>, moves: seq<Move>)
    requires CanFire(cluster, moves)
    ensures var s := After(cluster, moves + [TimerFires]);
      Invariant(s) && Running(s) && s.lost == {}
  {
    hide Invariant;
    RunInvariant(cluster, moves + [TimerFires]);
    assert (moves + [TimerFires])[..|moves|] == moves;
  }

  lemma {:induction false} NothingLostBefore(s: State, t: State)
    requires s.lost == {} && Converged(s, t) && t.config.objects == s.config.objects
    ensures AllConverged(t)
  {
    hide Quiescent, Get;
    assert forall k :: !Lost(s, k);
  }

  /** A full reconciliation makes up for every failed call and cancelled notification before it:
      after any run in which the timer fires, own moves that cannot be extended end with every key
      converged. */
  lemma {:induction false} TimerHeals(cluster: map<string, Object>, moves: seq<Move>, more: seq<Move>)
    requires CanFire(cluster, moves)
    requires OwnRun(After(cluster, moves + [TimerFires]), more) && Stuck(After(cluster, moves + [TimerFires] + more))
    ensures AllConverged(After(cluster, moves + [TimerFires] + more))
  {
    hide Invariant, After, OwnRun, Stuck, Converged, AllConverged, CanFire, Running;
    var s := After(cluster, moves + [TimerFires]);
    Fires(cluster, moves);
    AfterThen(cluster, moves + [TimerFires], more);
    OwnRunKeeps(s, more);
    Settles(s, more);
    NothingLostBefore(s, From(s, more));
  }

  /** And there are such moves. */
  lemma {:induction false} TimerCanHeal(cluster: map<string, Object>, moves: seq<Move>) returns (more: seq<Move>)
    requires CanFire(cluster, moves)
    ensures OwnRun(After(cluster, moves + [TimerFires]), more)
    ensures AllConverged(After(cluster, moves + [TimerFires] + more))
  {
    hide Invariant, After, OwnRun, Converged, AllConverged, CanFire, Running;
    var s := After(cluster, moves + [TimerFires]);
    Fires(cluster, moves);
    NoMoves(s);
    more := CanSettle(s, []);
    assert [] + more == more;
    AfterThen(cluster, moves + [TimerFires], more);
    OwnRunKeeps(s, more);
    NothingLostBefore(s, From(s, more));
  }

  lemma {:induction false} NoMoves(s: State)
    ensures OwnRun(s, []) && From(s, []) == s
  {
  }

  // ---------------------------------------------------------------- starting up

  lemma {:induction false} ThenMove(cluster: map<string, Object>, moves: seq<Move>, m: Move)
    ensures After(cluster, moves + [m]) == Next(After(cluster, moves), m)
  {
    hide Next;
    assert (moves + [m])[..|moves|] == moves;
  }

  /** A listing goes on to a kind that is left. */
  lemma {:induction false} ListsOne(s: State, kind: Kind)
    requires s.stream.Listing? && kind !in s.stream.listed
    ensures var s' := Next(s, Lists(kind));
      && s'.stream.Listing? && s'.stream.listed == s.stream.listed + {kind}
      && s' == s.(stream := s'.stream)
  {
    hide OfKind;
  }

  lemma {:induction false} ListsRest(cluster: map<string, Object>, moves: seq<Move>) returns (all: seq<Move>)
    requires After(cluster, moves).stream.Listing?
    ensures var s, s' := After(cluster, moves), After(cluster, all);
      s'.stream.Listing? && s'.stream.listed == WATCHABLE && s' == s.(stream := s'.stream)
    decreases WATCHABLE - After(cluster, moves).stream.listed
  {
    hide After, Next;
    var listed := After(cluster, moves).stream.listed;
    if kind :| kind in WATCHABLE && kind !in listed {
      ListsOne(After(cluster, moves), kind);
      ThenMove(cluster, moves, Lists(kind));
      all := ListsRest(cluster, moves + [Lists(kind)]);
    } else {
      forall kind: Kind ensures kind in listed && kind in WATCHABLE {
        AllWatchable(kind);
      }
      assert listed == WATCHABLE;
      all := moves;
    }
  }

  lemma {:induction false} Begun(cluster: map<string, Object>)
    ensures var s := After(cluster, [StartsListing]);
      s == Start(cluster).(stream := Listing(map[], {}))
  {
    assert [StartsListing][..0] == [];
  }

  lemma {:induction false} EndsUp(s: State)
    requires s.stream.Listing? && s.stream.listed == WATCHABLE
    ensures var s' := Next(s, EndsListing);
      s'.stream.Up? && s'.runtimeReady && s'.configReady == s.configReady && s'.lost == s.lost && s'.config == s.config
  {
    hide Replace;
  }

  lemma {:induction false} Configures(s: State, config: map<string, Object>)
    ensures var s' := Next(s, ConfigChanges(DoReplace(config)));
      s'.stream == s.stream && s'.runtimeReady == s.runtimeReady && s'.configReady && s'.lost == s.lost && s'.config.objects == config
  {
  }

  /** Whatever the cluster holds and whatever is configured, there is a run from the start in which
      the operator lists the cluster, takes the configuration and comes to rest with the cluster as
      configured. */
  lemma {:induction false} StartsUp(cluster: map<string, Object>, config: map<string, Object>) returns (moves: seq<Move>)
    ensures Running(After(cluster, moves)) && After(cluster, moves).config.objects == config
    ensures AllConverged(After(cluster, moves)) && After(cluster, moves).cluster == config
  {
    hide After, Next, Invariant, OwnRun, Converged, AllConverged;
    Begun(cluster);
    var listed := ListsRest(cluster, [StartsListing]);
    EndsUp(After(cluster, listed));
    ThenMove(cluster, listed, EndsListing);
    Configures(After(cluster, listed + [EndsListing]), config);
    ThenMove(cluster, listed + [EndsListing], ConfigChanges(DoReplace(config)));
    var up := listed + [EndsListing] + [ConfigChanges(DoReplace(config))];
    RunInvariant(cluster, up);
    NoMoves(After(cluster, up));
    var more := CanSettle(After(cluster, up), []);
    assert [] + more == more;
    AfterThen(cluster, up, more);
    OwnRunKeeps(After(cluster, up), more);
    NothingLostBefore(After(cluster, up), From(After(cluster, up), more));
    moves := up + more;
    SameMaps(After(cluster, moves));
  }

  lemma {:induction false} SameMaps(s: State)
    requires AllConverged(s)
    ensures s.cluster == s.config.objects
  {
    forall k ensures (k in s.cluster <==> k in s.config.objects) && (k in s.cluster ==> s.cluster[k] == s.config.objects[k]) {
      assert Get(s.cluster, k) == Get(s.config.objects, k);
    }
  }
}

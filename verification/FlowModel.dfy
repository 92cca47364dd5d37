/** The flow cache as a value: flows ordered by start time, the oldest leaving first. */
module FlowModel {
  import opened Options

  type Key(==, !new, 0)
  datatype Flow = Flow(key: Key, start: int, data: int)

  /** `ranks[i]` is how many flows had been accepted before `queue[i]`; `deadline` is when the
      timer fires next. */
  datatype State = State(
    queue: seq<Flow>, ranks: seq<nat>, accepted: nat,
    out: seq<Flow>, skipped: seq<Flow>, lost: seq<Flow>,
    deadline: Option<int>, running: bool)

  datatype Config = Config(timeout: int, maxFlows: int)

  /** What a select of the event loop can choose. `sends` and `sent` say how far the output
      channel kept up before a cancelled context was chosen instead. */
  datatype Event =
    | Tick(now: int, sends: nat)
    | Arrive(flow: Flow, sent: bool)
    | Done

  // ---------------------------------------------------------------- effects

  predicate HasKey(queue: seq<Flow>, key: Key) {
    exists i :: 0 <= i < |queue| && queue[i].key == key
  }

  /** Position after the last flow that does not start later. */
  function InsertAt(queue: seq<Flow>, start: int): (i: nat)
    ensures i <= |queue|
    ensures i > 0 ==> queue[i - 1].start <= start
    ensures forall j :: i <= j < |queue| ==> start < queue[j].start
  {
    if queue == [] || queue[|queue| - 1].start <= start then |queue|
    else InsertAt(queue[..|queue| - 1], start)
  }

  function Insert<T>(xs: seq<T>, i: nat, x: T): seq<T>
    requires i <= |xs|
  {
    xs[..i] + [x] + xs[i..]
  }

  /** How many flows at the front are at or before the cutoff. */
  function ExpiredCount(queue: seq<Flow>, cutoff: int): (n: nat)
    ensures n <= |queue|
    ensures forall i :: 0 <= i < n ==> queue[i].start <= cutoff
    ensures n < |queue| ==> queue[n].start > cutoff
  {
    if queue == [] || queue[0].start > cutoff then 0 else 1 + ExpiredCount(queue[1..], cutoff)
  }

  /** How many flows a sweep removes, when the output channel takes `sends` of them. */
  function Removed(queue: seq<Flow>, cutoff: int, sends: nat): (n: nat)
    ensures n <= |queue|
  {
    var n := ExpiredCount(queue, cutoff);
    if sends >= n then n else sends + 1
  }

  /** How many of those are output. */
  function Output(queue: seq<Flow>, cutoff: int, sends: nat): (n: nat)
    ensures n <= Removed(queue, cutoff, sends)
  {
    var n := ExpiredCount(queue, cutoff);
    if sends >= n then n else sends
  }

  function Rearm(queue: seq<Flow>, timeout: int, otherwise: Option<int>): Option<int> {
    if queue == [] then otherwise else Some(queue[0].start + timeout)
  }

  function Drop(s: State, n: nat): State
    requires n <= |s.queue| == |s.ranks|
  {
    s.(queue := s.queue[n..], ranks := s.ranks[n..])
  }

  function Accept(s: State, c: Config, flow: Flow): State
    requires |s.queue| == |s.ranks|
  {
    var i := InsertAt(s.queue, flow.start);
    var queue := Insert(s.queue, i, flow);
    s.(queue := queue, ranks := Insert(s.ranks, i, s.accepted), accepted := s.accepted + 1,
       deadline := Rearm(queue, c.timeout, None))
  }

  function Sweep(s: State, c: Config, cutoff: int, sends: nat): State
    requires |s.queue| == |s.ranks|
  {
    var removed, output := Removed(s.queue, cutoff, sends), Output(s.queue, cutoff, sends);
    s.(queue := s.queue[removed..], ranks := s.ranks[removed..],
       out := s.out + s.queue[..output], lost := s.lost + s.queue[output..removed],
       deadline := Rearm(s.queue[removed..], c.timeout, None))
  }

  function Arrival(s: State, c: Config, flow: Flow, sent: bool): State
    requires |s.queue| == |s.ranks|
  {
    if HasKey(s.queue, flow.key) then s.(skipped := s.skipped + [flow])
    else if |s.queue| < c.maxFlows || s.queue == [] then Accept(s, c, flow)
    else if sent then Accept(Drop(s, 1).(out := s.out + [s.queue[0]]), c, flow)
    else Drop(s, 1).(lost := s.lost + [s.queue[0], flow], running := false)
  }

  function Step(s: State, c: Config, e: Event): State
    requires |s.queue| == |s.ranks|
  {
    if !s.running then s else
    match e
    case Done => s.(running := false)
    case Tick(now, sends) => Sweep(s, c, now - c.timeout, sends)
    case Arrive(flow, sent) => Arrival(s, c, flow, sent)
  }

  function Run(s: State, c: Config, events: seq<Event>): State
    requires |s.queue| == |s.ranks|
    ensures var r := Run(s, c, events); |r.queue| == |r.ranks|
  {
    if events == [] then s else Step(Run(s, c, events[..|events| - 1]), c, events[|events| - 1])
  }

  // ---------------------------------------------------------------- order and capacity

  /** By start time, ties in the order of acceptance. */
  predicate Earlier(a: Flow, rankA: nat, b: Flow, rankB: nat) {
    a.start < b.start || (a.start == b.start && rankA < rankB)
  }

  ghost predicate InOrder(queue: seq<Flow>, ranks: seq<nat>) {
    |queue| == |ranks| && forall i, j :: 0 <= i < j < |queue| ==> Earlier(queue[i], ranks[i], queue[j], ranks[j])
  }

  ghost predicate DistinctKeys(queue: seq<Flow>) {
    forall i, j :: 0 <= i < j < |queue| ==> queue[i].key != queue[j].key
  }

  ghost predicate Valid(s: State, c: Config) {
    && InOrder(s.queue, s.ranks) && DistinctKeys(s.queue)
    && (forall i :: 0 <= i < |s.ranks| ==> s.ranks[i] < s.accepted)
    && (|s.queue| <= c.maxFlows || |s.queue| <= 1)
  }

  lemma {:induction false} InsertAtEach<T>(xs: seq<T>, i: nat, x: T)
    requires i <= |xs|
    ensures |Insert(xs, i, x)| == |xs| + 1
    ensures forall j :: 0 <= j < i ==> Insert(xs, i, x)[j] == xs[j]
    ensures Insert(xs, i, x)[i] == x
    ensures forall j :: i < j <= |xs| ==> Insert(xs, i, x)[j] == xs[j - 1]
  {
  }

  lemma {:induction false} InsertInOrder(queue: seq<Flow>, ranks: seq<nat>, flow: Flow, rank: nat)
    requires InOrder(queue, ranks) && forall i :: 0 <= i < |ranks| ==> ranks[i] < rank
    ensures InOrder(Insert(queue, InsertAt(queue, flow.start), flow), Insert(ranks, InsertAt(queue, flow.start), rank))
  {
    hide Insert;
    var i := InsertAt(queue, flow.start);
    var queue', ranks' := Insert(queue, i, flow), Insert(ranks, i, rank);
    InsertAtEach(queue, i, flow);
    InsertAtEach(ranks, i, rank);
    forall a | 0 <= a < i ensures Earlier(queue[a], ranks[a], flow, rank) {
      assert a < i - 1 ==> Earlier(queue[a], ranks[a], queue[i - 1], ranks[i - 1]);
    }
    forall a, b | 0 <= a < b < |queue'| ensures Earlier(queue'[a], ranks'[a], queue'[b], ranks'[b]) {
      if a != i && b != i {
        var a', b' := if a < i then a else a - 1, if b < i then b else b - 1;
        assert Earlier(queue[a'], ranks[a'], queue[b'], ranks[b']);
      }
    }
  }

  lemma {:induction false} InsertDistinct(queue: seq<Flow>, i: nat, flow: Flow)
    requires i <= |queue| && DistinctKeys(queue) && !HasKey(queue, flow.key)
    ensures DistinctKeys(Insert(queue, i, flow))
  {
    hide Insert;
    InsertAtEach(queue, i, flow);
  }

  lemma {:induction false} AcceptValid(s: State, c: Config, flow: Flow)
    requires Valid(s, c) && !HasKey(s.queue, flow.key) && (|s.queue| < c.maxFlows || s.queue == [])
    ensures Valid(Accept(s, c, flow), c)
  {
    hide InOrder, DistinctKeys, HasKey;
    assert |s.queue| == |s.ranks| by { RanksMatch(s, c); }
    InsertInOrder(s.queue, s.ranks, flow, s.accepted);
    InsertDistinct(s.queue, InsertAt(s.queue, flow.start), flow);
  }

  lemma {:induction false} RanksMatch(s: State, c: Config)
    requires Valid(s, c)
    ensures |s.queue| == |s.ranks|
  {
  }

  lemma {:induction false} DropValid(queue: seq<Flow>, ranks: seq<nat>, n: nat)
    requires InOrder(queue, ranks) && DistinctKeys(queue) && n <= |queue|
    ensures InOrder(queue[n..], ranks[n..]) && DistinctKeys(queue[n..])
    ensures forall key :: HasKey(queue[n..], key) ==> HasKey(queue, key)
  {
    forall a, b | 0 <= a < b < |queue[n..]| ensures Earlier(queue[n..][a], ranks[n..][a], queue[n..][b], ranks[n..][b]) {
      assert Earlier(queue[a + n], ranks[a + n], queue[b + n], ranks[b + n]);
    }
    forall key | HasKey(queue[n..], key) ensures HasKey(queue, key) {
      var i :| 0 <= i < |queue[n..]| && queue[n..][i].key == key;
      assert queue[i + n].key == key;
    }
  }

  lemma {:induction false} SweepValid(s: State, c: Config, cutoff: int, sends: nat)
    requires Valid(s, c)
    ensures |s.queue| == |s.ranks| && Valid(Sweep(s, c, cutoff, sends), c)
  {
    hide InOrder, DistinctKeys, Removed, Output, Rearm;
    RanksMatch(s, c);
    DropValid(s.queue, s.ranks, Removed(s.queue, cutoff, sends));
  }

  lemma {:induction false} ArriveValid(s: State, c: Config, flow: Flow, sent: bool)
    requires Valid(s, c)
    ensures |s.queue| == |s.ranks| && Valid(Arrival(s, c, flow, sent), c)
  {
    hide InOrder, DistinctKeys, HasKey, Accept;
    RanksMatch(s, c);
    if !HasKey(s.queue, flow.key) {
      if |s.queue| < c.maxFlows || s.queue == [] {
        AcceptValid(s, c, flow);
      } else {
        DropValid(s.queue, s.ranks, 1);
        if sent {
          AcceptValid(Drop(s, 1).(out := s.out + [s.queue[0]]), c, flow);
        }
      }
    }
  }

  lemma {:induction false} StopValid(s: State, c: Config)
    requires Valid(s, c)
    ensures Valid(s.(running := false), c)
  {
  }

  /** The queue stays sorted with ties in order of acceptance, holds a key once, and never
      exceeds its capacity. */
  lemma {:induction false} StepValid(s: State, c: Config, e: Event)
    requires Valid(s, c)
    ensures Valid(Step(s, c, e), c)
  {
    hide Valid, Sweep, Arrival;
    RanksMatch(s, c);
    if s.running {
      match e
      case Done => StopValid(s, c);
      case Tick(now, sends) => SweepValid(s, c, now - c.timeout, sends);
      case Arrive(flow, sent) => ArriveValid(s, c, flow, sent);
    }
  }

  lemma {:induction false} RunValid(s: State, c: Config, events: seq<Event>)
    requires Valid(s, c)
    ensures Valid(Run(s, c, events), c)
  {
    if events != [] {
      RunValid(s, c, events[..|events| - 1]);
      StepValid(Run(s, c, events[..|events| - 1]), c, events[|events| - 1]);
    }
  }

  /** Sweeping the front removes exactly the flows at or before the cutoff. */
  lemma {:induction false} SweepIsExact(s: State, c: Config, cutoff: int)
    requires Valid(s, c)
    ensures forall i :: 0 <= i < |s.queue| ==> (s.queue[i].start <= cutoff <==> i < ExpiredCount(s.queue, cutoff))
  {
    var n := ExpiredCount(s.queue, cutoff);
    forall i | n <= i < |s.queue| ensures s.queue[i].start > cutoff {
      if n < i {
        assert Earlier(s.queue[n], s.ranks[n], s.queue[i], s.ranks[i]);
      }
    }
  }

  /** Making room removes the flow that started first, of several the one accepted first. */
  lemma {:induction false} EvictsMinimum(s: State, c: Config, flow: Flow)
    requires Valid(s, c) && s.running && !HasKey(s.queue, flow.key) && |s.queue| >= c.maxFlows && s.queue != []
    ensures Step(s, c, Arrive(flow, true)).out == s.out + [s.queue[0]]
    ensures HasKey(Step(s, c, Arrive(flow, true)).queue, flow.key)
    ensures |s.ranks| == |s.queue| && forall i :: 0 < i < |s.queue| ==> Earlier(s.queue[0], s.ranks[0], s.queue[i], s.ranks[i])
    ensures multiset(Step(s, c, Arrive(flow, true)).queue) == multiset(s.queue) - multiset{s.queue[0]} + multiset{flow}
  {
    hide InOrder, DistinctKeys, InsertAt, HasKey, Insert;
    var rest := s.queue[1..];
    HasInserted(rest, InsertAt(rest, flow.start), flow);
    InsertMultiset(rest, InsertAt(rest, flow.start), flow);
    FirstIsMinimum(s, c);
    CutMultiset(s.queue, 1);
    assert s.queue[..1] == [s.queue[0]];
  }

  lemma {:induction false} HasInserted(queue: seq<Flow>, i: nat, flow: Flow)
    requires i <= |queue|
    ensures HasKey(Insert(queue, i, flow), flow.key)
  {
    assert Insert(queue, i, flow)[i] == flow;
  }

  lemma {:induction false} FirstIsMinimum(s: State, c: Config)
    requires Valid(s, c)
    ensures |s.queue| == |s.ranks|
    ensures forall i :: 0 < i < |s.queue| ==> Earlier(s.queue[0], s.ranks[0], s.queue[i], s.ranks[i])
  {
  }

  lemma {:induction false} CutMultiset<T>(xs: seq<T>, n: nat)
    requires n <= |xs|
    ensures multiset(xs) == multiset(xs[..n]) + multiset(xs[n..])
  {
    assert xs == xs[..n] + xs[n..];
  }

  lemma {:induction false} CutTwice<T>(xs: seq<T>, m: nat, n: nat)
    requires m <= n <= |xs|
    ensures multiset(xs) == multiset(xs[..m]) + multiset(xs[m..n]) + multiset(xs[n..])
  {
    CutMultiset(xs, n);
    assert xs[..n] == xs[..m] + xs[m..n];
  }

  /** Moving a prefix out of a queue in two parts keeps everything. */
  lemma {:induction false} MovedMultiset<T>(skipped: seq<T>, xs: seq<T>, out: seq<T>, lost: seq<T>, m: nat, n: nat)
    requires m <= n <= |xs|
    ensures multiset(skipped) + multiset(xs[n..]) + multiset(out + xs[..m]) + multiset(lost + xs[m..n])
         == multiset(skipped) + multiset(xs) + multiset(out) + multiset(lost)
  {
    CutTwice(xs, m, n);
    var a, b, c := multiset(xs[..m]), multiset(xs[m..n]), multiset(xs[n..]);
    assert multiset(out + xs[..m]) == multiset(out) + a;
    assert multiset(lost + xs[m..n]) == multiset(lost) + b;
  }

  lemma {:induction false} InsertMultiset<T>(xs: seq<T>, i: nat, x: T)
    requires i <= |xs|
    ensures multiset(Insert(xs, i, x)) == multiset(xs) + multiset{x}
  {
    assert xs == xs[..i] + xs[i..];
  }

  // ---------------------------------------------------------------- conservation

  function Taken(s: State, e: Event): seq<Flow> {
    if s.running && e.Arrive? then [e.flow] else []
  }

  /** The flows the event loop has received. */
  function Received(s: State, c: Config, events: seq<Event>): seq<Flow>
    requires |s.queue| == |s.ranks|
  {
    if events == [] then []
    else
      var n := |events| - 1;
      Received(s, c, events[..n]) +
      Taken(Run(s, c, events[..n]), events[n])
  }

  /** Every flow is a skipped duplicate, cached, output or lost. */
  function Holdings(s: State): multiset<Flow> {
    multiset(s.skipped) + multiset(s.queue) + multiset(s.out) + multiset(s.lost)
  }

  lemma {:induction false} SweepConserves(s: State, c: Config, cutoff: int, sends: nat)
    requires |s.queue| == |s.ranks|
    ensures Holdings(Sweep(s, c, cutoff, sends)) == Holdings(s)
  {
    hide Removed, Output, Rearm;
    MovedMultiset(s.skipped, s.queue, s.out, s.lost, Output(s.queue, cutoff, sends), Removed(s.queue, cutoff, sends));
  }

  lemma {:induction false} AcceptConserves(s: State, c: Config, flow: Flow)
    requires |s.queue| == |s.ranks|
    ensures Holdings(Accept(s, c, flow)) == Holdings(s) + multiset{flow}
  {
    hide Insert, InsertAt;
    InsertMultiset(s.queue, InsertAt(s.queue, flow.start), flow);
  }

  lemma {:induction false} ArriveConserves(s: State, c: Config, flow: Flow, sent: bool)
    requires |s.queue| == |s.ranks|
    ensures Holdings(Arrival(s, c, flow, sent)) == Holdings(s) + multiset{flow}
  {
    hide Accept, HasKey;
    if !HasKey(s.queue, flow.key) {
      if |s.queue| < c.maxFlows || s.queue == [] {
        AcceptConserves(s, c, flow);
      } else {
        CutMultiset(s.queue, 1);
        assert s.queue[..1] == [s.queue[0]];
        if sent {
          AcceptConserves(Drop(s, 1).(out := s.out + [s.queue[0]]), c, flow);
        }
      }
    }
  }

  lemma {:induction false} StepConserves(s: State, c: Config, e: Event)
    requires |s.queue| == |s.ranks|
    ensures Holdings(Step(s, c, e)) == Holdings(s) + multiset(Taken(s, e))
  {
    hide Sweep, Arrival;
    if s.running {
      match e
      case Done =>
      case Tick(now, sends) => SweepConserves(s, c, now - c.timeout, sends);
      case Arrive(flow, sent) => ArriveConserves(s, c, flow, sent);
    }
  }

  /** Conservation over whole runs. */
  lemma {:induction false} RunConserves(s: State, c: Config, events: seq<Event>)
    requires |s.queue| == |s.ranks|
    ensures Holdings(Run(s, c, events)) == Holdings(s) + multiset(Received(s, c, events))
  {
    if events != [] {
      var n := |events| - 1;
      RunConserves(s, c, events[..n]);
      StepConserves(Run(s, c, events[..n]), c, events[n]);
    }
  }

  /** How often the context was chosen over the output channel: in a sweep, or on arrival. */
  function Losses(s: State, c: Config, e: Event): nat
    requires |s.queue| == |s.ranks|
  {
    if !s.running then 0 else
    match e
    case Done => 0
    case Tick(now, sends) => if sends < ExpiredCount(s.queue, now - c.timeout) then 1 else 0
    case Arrive(flow, sent) =>
      if !sent && !HasKey(s.queue, flow.key) && |s.queue| >= c.maxFlows && s.queue != [] then 2 else 0
  }

  function TotalLosses(s: State, c: Config, events: seq<Event>): nat
    requires |s.queue| == |s.ranks|
  {
    if events == [] then 0
    else
      var n := |events| - 1;
      TotalLosses(s, c, events[..n]) + Losses(Run(s, c, events[..n]), c, events[n])
  }

  /** Flows are lost only when a cancelled context wins over the output channel: one by each
      interrupted sweep, two by an interrupted arrival, which also ends the run. */
  lemma {:induction false} LossesAreExact(s: State, c: Config, events: seq<Event>)
    requires |s.queue| == |s.ranks|
    ensures |Run(s, c, events).lost| == |s.lost| + TotalLosses(s, c, events)
  {
    if events != [] {
      LossesAreExact(s, c, events[..|events| - 1]);
    }
  }

  /** There is no fixed bound: a select may keep choosing the timer after cancellation, and each
      sweep loses a flow. */
  lemma {:induction false} NoFixedBound(s: State, c: Config, n: nat) returns (events: seq<Event>)
    requires Valid(s, c) && s.running && n <= |s.queue| && Armed(s, c)
    ensures |Run(s, c, events).lost| == |s.lost| + n && Run(s, c, events).running && Armed(Run(s, c, events), c)
    ensures forall i :: 0 <= i < |events| ==> events[i].Tick? && Run(s, c, events[..i]).deadline == Some(events[i].now)
    ensures Run(s, c, events).queue == s.queue[n..]
  {
    hide Step, Armed, Valid, Run;
    events := [];
    RanksMatch(s, c);
    RunEmpty(s, c);
    if n > 0 {
      var before := NoFixedBound(s, c, n - 1);
      var e := Tick(Run(s, c, before).queue[0].start + c.timeout, 0);
      LosesOne(Run(s, c, before), c);
      events := before + [e];
      RunEnd(s, c, before, e);
      forall i | 0 <= i < |events| ensures events[i].Tick? && Run(s, c, events[..i]).deadline == Some(events[i].now) {
        assert events[..i] == before[..i];
      }
    }
  }

  lemma {:induction false} RunEmpty(s: State, c: Config)
    requires |s.queue| == |s.ranks|
    ensures Run(s, c, []) == s
  {
  }

  lemma {:induction false} RunEnd(s: State, c: Config, events: seq<Event>, e: Event)
    requires |s.queue| == |s.ranks|
    ensures Run(s, c, events + [e]) == Step(Run(s, c, events), c, e)
    ensures events[..|events|] == events
  {
    assert (events + [e])[..|events|] == events;
  }

  /** A sweep that is interrupted at once loses the flow at the front. */
  lemma {:induction false} LosesOne(s: State, c: Config)
    requires |s.queue| == |s.ranks| && s.running && s.queue != [] && Armed(s, c)
    ensures var e := Tick(s.queue[0].start + c.timeout, 0);
      var s' := Step(s, c, e);
      s'.queue == s.queue[1..] && |s'.lost| == |s.lost| + 1 && s'.running && Armed(s', c) && s.deadline == Some(e.now)
  {
    assert ExpiredCount(s.queue, s.queue[0].start) > 0;
  }

  // ---------------------------------------------------------------- expiry

  /** The timer fires when the oldest cached flow expires. */
  predicate Armed(s: State, c: Config) {
    s.queue != [] ==> s.deadline == Some(s.queue[0].start + c.timeout)
  }

  /** A tick arms the timer, and so does every flow that is accepted, whatever it was set to. */
  lemma {:induction false} StepArms(s: State, c: Config, e: Event)
    requires |s.queue| == |s.ranks| && s.running && Step(s, c, e).running
    ensures e.Tick? || (e.Arrive? && !HasKey(s.queue, e.flow.key)) || Armed(s, c) ==> Armed(Step(s, c, e), c)
  {
    hide ExpiredCount, Insert, InsertAt, HasKey;
  }

  /** The event sets the timer anew. */
  predicate Rearms(s: State, e: Event) {
    s.running && (e.Tick? || (e.Arrive? && !HasKey(s.queue, e.flow.key)))
  }

  lemma {:induction false} OthersKeepTimer(s: State, c: Config, e: Event)
    requires |s.queue| == |s.ranks| && Step(s, c, e).running && !Rearms(s, e)
    ensures s.running && Step(s, c, e).queue == s.queue && Step(s, c, e).deadline == s.deadline
    ensures Armed(Step(s, c, e), c) == Armed(s, c)
  {
    hide HasKey, Sweep, Accept;
  }

  lemma {:induction false} StillRunning(s: State, c: Config, e: Event)
    requires |s.queue| == |s.ranks|
    ensures Step(s, c, e).running ==> s.running
  {
    hide Sweep, Arrival;
  }

  /** After every run that goes on, the timer is set to the oldest flow exactly if it was so at the
      beginning or a tick or an accepted flow has set it since. */
  lemma {:induction false} RunArms(s: State, c: Config, events: seq<Event>)
    requires |s.queue| == |s.ranks| && Run(s, c, events).running
    ensures Armed(Run(s, c, events), c) <==> Armed(s, c) || Rearmed(s, c, events)
  {
    hide Armed, Step, Rearms;
    if events != [] {
      var n := |events| - 1;
      var before := Run(s, c, events[..n]);
      StillRunning(before, c, events[n]);
      RunArms(s, c, events[..n]);
      assert forall i :: 0 <= i < n ==> events[..n][..i] == events[..i] && events[..n][i] == events[i];
      RearmedSnoc(s, c, events);
      if Rearms(before, events[n]) {
        RearmingArms(before, c, events[n]);
      } else {
        OthersKeepTimer(before, c, events[n]);
      }
    } else {
      RunEmpty(s, c);
    }
  }

  ghost predicate Rearmed(s: State, c: Config, events: seq<Event>)
    requires |s.queue| == |s.ranks|
  {
    exists i :: 0 <= i < |events| && Rearms(Run(s, c, events[..i]), events[i])
  }

  lemma {:induction false} RearmedSnoc(s: State, c: Config, events: seq<Event>)
    requires |s.queue| == |s.ranks| && events != []
    ensures var n := |events| - 1;
      Rearmed(s, c, events) <==> Rearmed(s, c, events[..n]) || Rearms(Run(s, c, events[..n]), events[n])
  {
    hide Rearms, Run;
    var n := |events| - 1;
    assert forall i :: 0 <= i < n ==> events[..n][..i] == events[..i] && events[..n][i] == events[i];
    if Rearmed(s, c, events[..n]) {
      var i :| 0 <= i < n && Rearms(Run(s, c, events[..n][..i]), events[..n][i]);
      assert Rearms(Run(s, c, events[..i]), events[i]);
    }
    if Rearmed(s, c, events) {
      var i :| 0 <= i < |events| && Rearms(Run(s, c, events[..i]), events[i]);
      assert i < n ==> Rearms(Run(s, c, events[..n][..i]), events[..n][i]);
    }
  }

  lemma {:induction false} RearmingArms(s: State, c: Config, e: Event)
    requires |s.queue| == |s.ranks| && Step(s, c, e).running && Rearms(s, e)
    ensures Armed(Step(s, c, e), c)
  {
    hide Step, Armed, HasKey;
    StepArms(s, c, e);
  }

  /** The timer fires when the oldest cached flow expires, or earlier. */
  predicate InTime(s: State, c: Config) {
    s.queue == [] || (s.deadline.Some? && s.deadline.value <= s.queue[0].start + c.timeout)
  }

  /** Before a timer that is in time fires, no cached flow has expired. */
  lemma {:induction false} NotYetExpired(s: State, c: Config, now: int)
    requires Valid(s, c) && InTime(s, c) && (s.deadline.Some? ==> now < s.deadline.value)
    ensures forall i :: 0 <= i < |s.queue| ==> s.queue[i].start > now - c.timeout
  {
    if s.queue != [] {
      SweepIsExact(s, c, now - c.timeout);
      assert ExpiredCount(s.queue, now - c.timeout) == 0;
    }
  }

  lemma {:induction false} StepInTime(s: State, c: Config, e: Event)
    requires |s.queue| == |s.ranks| && s.running && Step(s, c, e).running && InTime(s, c)
    ensures InTime(Step(s, c, e), c)
  {
    hide HasKey, Sweep, Accept, Step;
    if Rearms(s, e) {
      StepArms(s, c, e);
    } else {
      OthersKeepTimer(s, c, e);
    }
  }

  lemma {:induction false} RunInTime(s: State, c: Config, events: seq<Event>)
    requires |s.queue| == |s.ranks| && InTime(s, c) && Run(s, c, events).running
    ensures InTime(Run(s, c, events), c)
  {
    hide InTime, Step;
    if events != [] {
      var n := |events| - 1;
      StillRunning(Run(s, c, events[..n]), c, events[n]);
      RunInTime(s, c, events[..n]);
      StepInTime(Run(s, c, events[..n]), c, events[n]);
    } else {
      RunEmpty(s, c);
    }
  }

  /** While the run goes on and the timer has not fired, no expired flow is cached. */
  ghost predicate NoneExpired(s: State, c: Config, events: seq<Event>, now: int)
    requires |s.queue| == |s.ranks|
  {
    var r := Run(s, c, events);
    r.running && (r.deadline.Some? ==> now < r.deadline.value) ==>
      forall i :: 0 <= i < |r.queue| ==> r.queue[i].start > now - c.timeout
  }

  lemma {:induction false} InTimeNoneExpired(s: State, c: Config, events: seq<Event>, now: int)
    requires Valid(s, c) && |s.queue| == |s.ranks| && InTime(s, c)
    ensures NoneExpired(s, c, events, now)
  {
    hide Run, Valid, InTime;
    RunValid(s, c, events);
    var r := Run(s, c, events);
    if r.running && (r.deadline.Some? ==> now < r.deadline.value) {
      RunInTime(s, c, events);
      NotYetExpired(r, c, now);
    }
  }

  /** A timer that is set too late keeps the oldest flow beyond its expiry. */
  lemma {:induction false} LateKeepsExpired(s: State, c: Config) returns (now: int)
    requires |s.queue| == |s.ranks| && s.running && !InTime(s, c)
    ensures now == s.queue[0].start + c.timeout && !NoneExpired(s, c, [], now)
  {
    hide Step;
    RunEmpty(s, c);
    now := s.queue[0].start + c.timeout;
    assert s.queue[0].start <= now - c.timeout;
  }

  /** No run ever keeps an expired flow before the timer fires exactly if the timer is in time at
      the beginning. */
  lemma {:induction false} ExpiryIsExact(s: State, c: Config)
    requires Valid(s, c) && |s.queue| == |s.ranks| && s.running
    ensures (forall events, now :: NoneExpired(s, c, events, now)) <==> InTime(s, c)
  {
    hide Valid, InTime, NoneExpired;
    if InTime(s, c) {
      forall events, now ensures NoneExpired(s, c, events, now) {
        InTimeNoneExpired(s, c, events, now);
      }
    } else {
      var now := LateKeepsExpired(s, c);
    }
  }

  /** The event loop begins with a full timeout, whatever is cached. */
  function Begun(s: State, c: Config, startTime: int): State {
    s.(running := true, deadline := Some(startTime + c.timeout))
  }

  /** So flows that are still cached when it begins again are in time exactly if the oldest did not
      start earlier than the loop. */
  lemma {:induction false} BegunInTime(s: State, c: Config, startTime: int)
    requires Valid(s, c) && |s.queue| == |s.ranks|
    ensures Valid(Begun(s, c, startTime), c)
    ensures (forall events, now :: NoneExpired(Begun(s, c, startTime), c, events, now)) <==>
      s.queue == [] || startTime <= s.queue[0].start
  {
    hide NoneExpired;
    BegunValid(s, c, startTime);
    ExpiryIsExact(Begun(s, c, startTime), c);
  }

  lemma {:induction false} BegunValid(s: State, c: Config, startTime: int)
    requires Valid(s, c)
    ensures Valid(Begun(s, c, startTime), c)
  {
  }

  /** A loop that is ended and begins again with its flow cached sweeps it too late. */
  lemma {:induction false} RestartsLate(flow: Flow, c: Config, startTime: int) returns (before: State, now: int)
    requires c.maxFlows > 0 && flow.start < startTime
    ensures before == Run(Begun(Initial(), c, flow.start), c, [Arrive(flow, true), Done]) && before.queue == [flow]
    ensures now == flow.start + c.timeout && !NoneExpired(Begun(before, c, startTime), c, [], now)
  {
    var begun := Begun(Initial(), c, flow.start);
    assert [Arrive(flow, true), Done][..1] == [Arrive(flow, true)] && [Arrive(flow, true)][..0] == [];
    RunEmpty(begun, c);
    var after := Step(begun, c, Arrive(flow, true));
    assert after.queue == [flow];
    before := Step(after, c, Done);
    now := LateKeepsExpired(Begun(before, c, startTime), c);
  }

  /** A cache that has not run yet. */
  function Initial(): State {
    State([], [], 0, [], [], [], None, false)
  }

  /** A sweep that is not interrupted outputs exactly the expired flows, oldest first, and
      keeps exactly the others. */
  lemma {:induction false} SweepOutputsExpired(s: State, c: Config, now: int, sends: nat) returns (n: nat)
    requires Valid(s, c) && s.running && sends >= |s.queue|
    ensures n <= |s.queue| == |s.ranks|
    ensures forall i :: 0 <= i < |s.queue| ==> (s.queue[i].start <= now - c.timeout <==> i < n)
    ensures var s' := Step(s, c, Tick(now, sends));
      s'.lost == s.lost && s'.out == s.out + s.queue[..n] && s'.queue == s.queue[n..]
  {
    hide InOrder, DistinctKeys, ExpiredCount, Rearm;
    RanksMatch(s, c);
    SweepIsExact(s, c, now - c.timeout);
    n := ExpiredCount(s.queue, now - c.timeout);
    assert s.queue[n..n] == [];
  }

  /** A sweep that is interrupted after some flows outputs those, loses the next and keeps the rest. */
  lemma {:induction false} SweepInterrupted(s: State, c: Config, now: int, sends: nat)
    requires Valid(s, c) && |s.queue| == |s.ranks| && s.running
    requires sends < |s.queue| && s.queue[sends].start <= now - c.timeout
    ensures var s' := Step(s, c, Tick(now, sends));
      && s'.out == s.out + s.queue[..sends] && s'.lost == s.lost + [s.queue[sends]] && s'.queue == s.queue[sends + 1..]
      && s'.skipped == s.skipped
  {
    hide InOrder, DistinctKeys, ExpiredCount, Rearm;
    SweepIsExact(s, c, now - c.timeout);
    assert sends < ExpiredCount(s.queue, now - c.timeout);
    assert s.queue[sends..sends + 1] == [s.queue[sends]];
  }
}

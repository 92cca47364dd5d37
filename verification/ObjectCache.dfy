/** A cache of objects with its notification channel as a value: what one atomic step of a
    producer or of the consumer does. */
module CacheModel {
  import opened Options
  import opened CacheKeys

  /** A configured object. */
  type Object(==, !new, 0)

  /** `pending` are the notifications whose senders still wait; `buffer` is the slot of the
      channel. */
  datatype Cache = Cache(objects: map<string, Object>, pending: multiset<string>, buffer: Option<string>)

  function Get(objects: map<string, Object>, key: string): Option<Object> {
    if key in objects then Some(objects[key]) else None
  }

  function Notify(c: Cache, note: string): Cache {
    c.(pending := c.pending + multiset{note})
  }

  /** The locked part of an insertion. */
  function Insert(c: Cache, key: string, obj: Object): Cache {
    var c' := c.(objects := c.objects[key := obj]);
    if Get(c.objects, key) == Some(obj) then c' else Notify(c', key)
  }

  function Delete(c: Cache, key: string): Cache {
    var c' := c.(objects := c.objects - {key});
    if key in c.objects then Notify(c', key) else c'
  }

  function Replace(c: Cache, objects: map<string, Object>): Cache {
    Notify(c.(objects := objects), SNAPSHOT_REPLACED)
  }

  /** A value or its absence, as a watch event carries it. */
  function Store(c: Cache, key: string, value: Option<Object>): Cache {
    match value
    case Some(obj) => Insert(c, key, obj)
    case None => Delete(c, key)
  }

  predicate CanSend(c: Cache, note: string) {
    c.buffer.None? && note in c.pending
  }

  function Send(c: Cache, note: string): Cache {
    c.(buffer := Some(note), pending := c.pending - multiset{note})
  }

  /** A pending replacement takes a queued notification out to make room. */
  predicate CanDrain(c: Cache) {
    c.buffer.Some? && SNAPSHOT_REPLACED in c.pending
  }

  function Drain(c: Cache): Cache {
    c.(buffer := None)
  }

  function Receive(c: Cache): Cache {
    c.(buffer := None)
  }

  predicate Covers(note: string, key: string) {
    note == key || note == SNAPSHOT_REPLACED
  }

  /** A notification that covers the key is on its way to the consumer. */
  predicate Notified(c: Cache, key: string) {
    key in c.pending || SNAPSHOT_REPLACED in c.pending || (c.buffer.Some? && Covers(c.buffer.value, key))
  }

  // ---------------------------------------------------------------- atomic steps

  datatype Step =
    | DoStore(key: string, value: Option<Object>)
    | DoReplace(objects: map<string, Object>)
    | DoSend(note: string)
    | DoDrain
    | DoReceive
    | DoCancel(note: string)

  predicate Legal(c: Cache, s: Step) {
    match s
    case DoSend(note) => CanSend(c, note)
    case DoDrain => CanDrain(c)
    case DoReceive => c.buffer.Some?
    case DoCancel(note) => note in c.pending
    case _ => true
  }

  function Apply(c: Cache, s: Step): Cache {
    match s
    case DoStore(key, value) => Store(c, key, value)
    case DoReplace(objects) => Replace(c, objects)
    case DoSend(note) => Send(c, note)
    case DoDrain => Drain(c)
    case DoReceive => Receive(c)
    case DoCancel(note) => c.(pending := c.pending - multiset{note})
  }

  const EMPTY: Cache := Cache(map[], multiset{}, None)

  function Exec(steps: seq<Step>): Cache {
    if steps == [] then EMPTY else Apply(Exec(steps[..|steps| - 1]), steps[|steps| - 1])
  }

  predicate AllLegal(steps: seq<Step>) {
    steps == [] || (AllLegal(steps[..|steps| - 1]) && Legal(Exec(steps[..|steps| - 1]), steps[|steps| - 1]))
  }

  lemma {:induction false} ExecSnoc(steps: seq<Step>, s: Step)
    ensures Exec(steps + [s]) == Apply(Exec(steps), s)
    ensures AllLegal(steps + [s]) <==> AllLegal(steps) && Legal(Exec(steps), s)
  {
    assert (steps + [s])[..|steps|] == steps;
  }

  /** A change is announced when it happens. */
  lemma {:induction false} ChangeNotifies(c: Cache, key: string, value: Option<Object>, other: string)
    ensures Get(Store(c, key, value).objects, key) == value
    ensures Get(c.objects, key) != value ==> Notified(Store(c, key, value), key)
    ensures other != key ==> Get(Store(c, key, value).objects, other) == Get(c.objects, other)
    ensures Notified(c, other) ==> Notified(Store(c, key, value), other)
  {
  }

  /** No step but those of the consumer or a cancellation loses an announcement, though draining
      discards queued keys. */
  lemma {:induction false} ProducersKeepNotified(c: Cache, s: Step, key: string)
    requires Legal(c, s) && Notified(c, key) && !s.DoReceive? && !s.DoCancel?
    ensures Notified(Apply(c, s), key)
  {
    if s.DoStore? {
      ChangeNotifies(c, s.key, s.value, key);
    }
  }

  /** A replacement can always go on: it sends if the slot is free and drains if it is not, and if
      it alone uses the channel it is through after at most two steps. */
  lemma {:induction false} ReplaceNeverWaits(c: Cache)
    requires SNAPSHOT_REPLACED in c.pending
    ensures Legal(c, DoSend(SNAPSHOT_REPLACED)) != Legal(c, DoDrain)
    ensures Legal(c, DoDrain) ==> Legal(Drain(c), DoSend(SNAPSHOT_REPLACED))
  {
  }

  /** A replacement that is cancelled after it made room has discarded a queued key without
      announcing anything instead. */
  lemma {:induction false} CancelledReplacementLoses(key: string, obj: Object, objects: map<string, Object>) returns (steps: seq<Step>)
    requires key != SNAPSHOT_REPLACED
    ensures AllLegal(steps) && (forall i :: 0 <= i < |steps| ==> !steps[i].DoReceive?)
    ensures DoSend(key) in steps && Exec(steps).objects == objects && !Notified(Exec(steps), key)
  {
    hide Exec, AllLegal, Apply, Legal;
    var a, b, c, d, e := DoStore(key, Some(obj)), DoSend(key), DoReplace(objects), DoDrain, DoCancel(SNAPSHOT_REPLACED);
    QueuedAndDrained(key, obj, objects);
    ExecNone();
    ExecSnoc([], a);
    assert [] + [a] == [a];
    ExecSnoc([a], b);
    ExecSnoc([a] + [b], c);
    ExecSnoc([a] + [b] + [c], d);
    ExecSnoc([a] + [b] + [c] + [d], e);
    steps := [a] + [b] + [c] + [d] + [e];
    assert steps == [a, b, c, d, e];
  }

  lemma {:induction false} QueuedAndDrained(key: string, obj: Object, objects: map<string, Object>)
    requires key != SNAPSHOT_REPLACED
    ensures var c1 := Apply(EMPTY, DoStore(key, Some(obj)));
      var c2 := Apply(c1, DoSend(key));
      var c3 := Apply(c2, DoReplace(objects));
      var c4 := Apply(c3, DoDrain);
      var c5 := Apply(c4, DoCancel(SNAPSHOT_REPLACED));
      && Legal(EMPTY, DoStore(key, Some(obj))) && Legal(c1, DoSend(key)) && Legal(c2, DoReplace(objects))
      && Legal(c3, DoDrain) && Legal(c4, DoCancel(SNAPSHOT_REPLACED))
      && c5.objects == objects && !Notified(c5, key)
  {
  }

  lemma {:induction false} ExecNone()
    ensures Exec([]) == EMPTY && AllLegal([])
  {
  }

  // ---------------------------------------------------------------- the consumer's view

  /** What the consumer last read of each key, and the keys it owes a look since it received a
      notification that covers them. */
  datatype View = View(c: Cache, seen: string -> Option<Object>, owed: iset<string>)

  /** The consumer also reads single keys, and the list of keys, which shows what is absent. */
  datatype Act = Channel(step: Step) | Read(key: string) | ReadKeys

  predicate CanAct(v: View, a: Act) {
    a.Channel? ==> Legal(v.c, a.step)
  }

  ghost function Perform(v: View, a: Act): View {
    match a
    case Channel(step) =>
      var v' := v.(c := Apply(v.c, step));
      if step.DoReceive? && v.c.buffer.Some? then v'.(owed := v.owed + iset k | Covers(v.c.buffer.value, k)) else v'
    case Read(key) =>
      v.(seen := k => if k == key then Get(v.c.objects, k) else v.seen(k), owed := v.owed - iset{key})
    case ReadKeys =>
      v.(seen := k => if k in v.c.objects then v.seen(k) else None, owed := v.owed * iset k | k in v.c.objects)
  }

  ghost function Follow(acts: seq<Act>): View {
    if acts == [] then View(EMPTY, k => None, iset{}) else Perform(Follow(acts[..|acts| - 1]), acts[|acts| - 1])
  }

  ghost predicate CanFollow(acts: seq<Act>) {
    acts == [] || (CanFollow(acts[..|acts| - 1]) && CanAct(Follow(acts[..|acts| - 1]), acts[|acts| - 1]))
  }

  /** The consumer is up to date on a key, or will look at it. */
  ghost predicate UpToDate(v: View, key: string) {
    v.seen(key) == Get(v.c.objects, key) || Notified(v.c, key) || key in v.owed
  }

  lemma {:induction false} ActKeeps(v: View, a: Act, key: string)
    requires CanAct(v, a) && UpToDate(v, key) && a != Channel(DoReceive)
    requires a.Channel? ==> !a.step.DoCancel?
    ensures UpToDate(Perform(v, a), key)
  {
    hide Notified, Store, Replace, Send, Drain;
    if a.Channel? {
      if Notified(v.c, key) {
        ProducersKeepNotified(v.c, a.step, key);
      }
      StepChanges(v.c, a.step, key);
    }
  }

  lemma {:induction false} StepChanges(c: Cache, s: Step, key: string)
    ensures Get(Apply(c, s).objects, key) == Get(c.objects, key) || Notified(Apply(c, s), key)
  {
    if s.DoStore? {
      ChangeNotifies(c, s.key, s.value, key);
    }
  }

  lemma {:induction false} ReceiveKeeps(v: View, key: string)
    requires v.c.buffer.Some? && UpToDate(v, key)
    ensures UpToDate(Perform(v, Channel(DoReceive)), key)
  {
  }

  /** No lost wakeup: in every run without a cancelled sender, each key whose cached value is not
      what the consumer last read is announced or still owed a look. */
  lemma {:induction false} NoLostWakeup(acts: seq<Act>, key: string)
    requires CanFollow(acts) && forall i :: 0 <= i < |acts| && acts[i].Channel? ==> !acts[i].step.DoCancel?
    ensures UpToDate(Follow(acts), key)
  {
    hide Perform, UpToDate;
    if acts == [] {
      FollowStart(key);
    } else {
      var n := |acts| - 1;
      NoLostWakeup(acts[..n], key);
      if acts[n] == Channel(DoReceive) {
        ReceiveKeeps(Follow(acts[..n]), key);
      } else {
        ActKeeps(Follow(acts[..n]), acts[n], key);
      }
    }
  }

  lemma {:induction false} FollowStart(key: string)
    ensures UpToDate(Follow([]), key)
  {
  }
}

/** The cache itself. Its map is an object of the heap: a replacement takes over the caller's. */
module ObjectCaches {
  import opened Options
  import opened CacheKeys
  import opened CacheModel

  lemma {:induction false} LastInSuffix<T>(xs: seq<T>, n: nat)
    ensures n < |xs| ==> xs[|xs| - 1] in xs[n..]
  {
    assert n < |xs| ==> xs[n..][|xs| - 1 - n] == xs[|xs| - 1];
  }

  class ObjectMap {
    var m: map<string, Object>

    constructor ()
      ensures m == map[]
    {
      m := map[];
    }
  }

  class ObjectCache {
    var objects: ObjectMap
    var ready: bool
    var slot: Option<string>
    /** The sender of a notification that waits, the steps so far, and what the consumer received. */
    ghost var pending: multiset<string>
    ghost var trace: seq<Step>
    ghost var received: seq<string>
    /** How often a sender's context was done before it could send. */
    ghost var cancels: nat

    ghost function Abstract(): Cache
      reads this, objects
    {
      Cache(objects.m, pending, slot)
    }

    /** Everything so far went by the steps of the model. */
    ghost predicate Tracks()
      reads this, objects
    {
      AllLegal(trace) && Exec(trace) == Abstract()
    }

    constructor ()
      ensures fresh(objects) && objects.m == map[] && !ready && slot.None? && received == [] && Idle()
    {
      objects := new ObjectMap();
      ready, slot, received, pending, trace, cancels := false, None, [], multiset{}, [], 0;
    }

    /** No sender waits. */
    ghost predicate Idle()
      reads this, objects
    {
      Tracks() && pending == multiset{}
    }

    ghost method Log(s: Step)
      modifies this`trace
      requires Legal(Exec(trace), s)
      ensures trace == old(trace) + [s] && Exec(trace) == Apply(Exec(old(trace)), s)
      ensures AllLegal(old(trace)) ==> AllLegal(trace)
    {
      ExecSnoc(trace, s);
      trace := trace + [s];
    }

    /** The consumer may take what is queued. */
    method Consumer()
      requires Tracks()
      modifies this`slot, this`received, this`trace
      ensures Tracks()
      ensures (slot == old(slot) && received == old(received))
        || (slot.None? && old(slot).Some? && received == old(received) + [old(slot).value])
    {
      var takes: bool := *;
      if slot.Some? && takes {
        Receives();
      }
    }

    /** A notification was queued, and perhaps received, or its sender was cancelled. */
    twostate predicate Announced(note: string, ok: bool)
      reads this
    {
      && |old(received)| <= |received| && received[..|old(received)|] == old(received)
      && (ok ==> slot == Some(note) || note in received[|old(received)|..])
    }

    /** At most what was queued before has been received. */
    twostate predicate OnlyOld()
      reads this
    {
      received == old(received) || (old(slot).Some? && received == old(received) + [old(slot).value])
    }

    /** Waits for the consumer to make room, or until cancelled. */
    method SendKey(note: string) returns (ok: bool)
      requires Tracks() && pending == multiset{note}
      modifies this`slot, this`received, this`trace, this`pending, this`cancels
      ensures Idle()
      ensures Announced(note, ok)
      ensures old(slot).Some? && ok ==> old(slot).value in received[|old(received)|..]
      ensures !ok ==> slot == old(slot) && received == old(received)
      ensures cancels == old(cancels) + (if ok then 0 else 1)
    {
      hide Exec, AllLegal, Apply, Legal;
      if slot.Some? {
        var cancelled: bool := *;
        if cancelled {
          GiveUp(note);
          return false;
        }
        Receives();
      }
      Fill(note);
      ok := true;
    }

    /** The consumer takes what is queued. */
    method Receives()
      requires Tracks() && slot.Some?
      modifies this`slot, this`received, this`trace
      ensures Tracks() && slot.None? && received == old(received) + [old(slot).value]
    {
      Log(DoReceive);
      received := received + [slot.value];
      slot := None;
    }

    /** The waiting sender fills the free slot. */
    method Fill(note: string)
      requires Tracks() && slot.None? && pending == multiset{note}
      modifies this`slot, this`trace, this`pending
      ensures Idle() && slot == Some(note)
    {
      Log(DoSend(note));
      pending := multiset{};
      slot := Some(note);
    }

    /** Adds or updates an object, announcing a change. */
    method Insert(key: string, obj: Object) returns (ok: bool)
      requires Idle()
      modifies this`slot, this`received, this`trace, this`pending, this`cancels, objects
      ensures Idle()
      ensures objects.m == old(objects.m)[key := obj]
      ensures Get(old(objects.m), key) == Some(obj) ==> ok && slot == old(slot) && received == old(received)
      ensures Get(old(objects.m), key) != Some(obj) ==> Announced(key, ok)
      ensures cancels == old(cancels) + (if ok then 0 else 1)
    {
      Log(DoStore(key, Some(obj)));
      var same := key in objects.m && objects.m[key] == obj;
      objects.m := objects.m[key := obj];
      ok := true;
      if !same {
        pending := multiset{key};
        ok := SendKey(key);
      }
    }

    /** Removes an object, announcing it if it was there. */
    method Delete(key: string) returns (ok: bool)
      requires Idle()
      modifies this`slot, this`received, this`trace, this`pending, this`cancels, objects
      ensures Idle()
      ensures objects.m == old(objects.m) - {key}
      ensures key !in old(objects.m) ==> ok && slot == old(slot) && received == old(received)
      ensures key in old(objects.m) ==> Announced(key, ok)
      ensures cancels == old(cancels) + (if ok then 0 else 1)
    {
      Log(DoStore(key, None));
      var existed := key in objects.m;
      objects.m := objects.m - {key};
      ok := true;
      if existed {
        pending := multiset{key};
        ok := SendKey(key);
      }
    }

    /** Takes over a snapshot and announces that everything may have changed. It never waits for
        the consumer: each turn of its loop sends or makes room to send. One that is cancelled has
        swapped the map all the same, and announces nothing: what was queued is still there, or was
        received, or is gone. */
    method ReplaceAll(snapshot: ObjectMap) returns (ok: bool)
      requires Idle()
      modifies this`objects, this`ready, this`slot, this`received, this`trace, this`pending, this`cancels
      ensures Idle()
      ensures objects == snapshot
      ensures ok ==> ready
      ensures old(ready) ==> ready
      ensures Announced(SNAPSHOT_REPLACED, ok)
      ensures !ok ==> slot == old(slot) || slot.None?
      ensures !ok ==> OnlyOld()
      ensures cancels == old(cancels) + (if ok then 0 else 1)
    {
      hide Apply, Legal, Exec, AllLegal;
      objects := snapshot;
      ReplaceLogged(snapshot.m);
      pending := multiset{SNAPSHOT_REPLACED};
      ok := *;
      if !ok {
        GiveUp(SNAPSHOT_REPLACED);
        return;
      }
      ready := true;
      var sent := false;
      while !sent
        invariant objects == snapshot && ready && Tracks() && cancels == old(cancels)
        invariant pending == if sent then multiset{} else multiset{SNAPSHOT_REPLACED}
        invariant |old(received)| <= |received| && received[..|old(received)|] == old(received)
        invariant sent ==> slot == Some(SNAPSHOT_REPLACED)
        invariant !sent ==> OnlyOld() && (slot == old(slot) || slot.None?)
        invariant !sent && slot == old(slot) && slot.Some? ==> received == old(received)
        decreases !sent, slot.Some?
      {
        Consumer();
        ok := *;
        if !ok {
          GiveUp(SNAPSHOT_REPLACED);
          return;
        }
        sent := SendOrDrain();
      }
      Consumer();
      LastInSuffix(received, |old(received)|);
    }

    ghost method ReplaceLogged(snapshot: map<string, Object>)
      requires AllLegal(trace)
      modifies this`trace
      ensures AllLegal(trace) && Exec(trace) == Replace(Exec(old(trace)), snapshot)
    {
      Log(DoReplace(snapshot));
    }

    /** The waiting sender's context is done. */
    ghost method GiveUp(note: string)
      requires Tracks() && pending == multiset{note}
      modifies this`trace, this`pending, this`cancels
      ensures Idle() && cancels == old(cancels) + 1
    {
      Log(DoCancel(note));
      pending, cancels := multiset{}, cancels + 1;
    }

    /** One turn of the loop: fills a free slot or frees a full one. */
    method SendOrDrain() returns (sent: bool)
      requires Tracks() && pending == multiset{SNAPSHOT_REPLACED}
      modifies this`slot, this`trace, this`pending
      ensures Tracks() && sent == old(slot).None?
      ensures slot == if sent then Some(SNAPSHOT_REPLACED) else None
      ensures pending == if sent then multiset{} else multiset{SNAPSHOT_REPLACED}
    {
      sent := slot.None?;
      if sent {
        Fill(SNAPSHOT_REPLACED);
      } else {
        Log(DoDrain);
        slot := None;
      }
    }
  }
}

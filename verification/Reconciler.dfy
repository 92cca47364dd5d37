/** One full reconciliation over fixed caches: which calls it makes and what they do to the
    cluster, in whatever order the keys come. */
module Reconciling {
  import opened Options
  import opened CacheKeys
  import opened CacheModel

  datatype Call = ApplyObject(key: string, obj: Object) | DeleteObject(key: string)

  /** How a call ends. It is not even made if the kind of the object was not discovered or the
      object cannot be converted; one that is refused may still have had its effect. */
  datatype Answer = Unreachable | Refused(effect: bool) | Accepted

  type Objects = map<string, Object>

  /** The call that brings the runtime entry to the configured one. */
  function Wanted(config: Objects, runtime: Objects, key: string): (r: Option<Call>)
    ensures r.None? <==> Get(config, key) == Get(runtime, key)
    ensures r.Some? ==> r.value.key == key
  {
    if key in config && Get(config, key) != Get(runtime, key) then Some(ApplyObject(key, config[key]))
    else if key !in config && key in runtime then Some(DeleteObject(key))
    else None
  }

  predicate Makes(config: Objects, runtime: Objects, answers: string -> Answer, call: Call) {
    Wanted(config, runtime, call.key) == Some(call) && !answers(call.key).Unreachable?
  }

  /** Exactly the calls that are wanted and can be made, one for each key. */
  ghost predicate OneCallEach(calls: seq<Call>, config: Objects, runtime: Objects, answers: string -> Answer) {
    && (forall i :: 0 <= i < |calls| ==> Makes(config, runtime, answers, calls[i]))
    && (forall i, j :: 0 <= i < j < |calls| ==> calls[i].key != calls[j].key)
    && (forall call :: Makes(config, runtime, answers, call) ==> call in calls)
  }

  /** The same for the keys that a notification covers. */
  ghost predicate CallsCovered(calls: seq<Call>, note: string, config: Objects, runtime: Objects, answers: string -> Answer) {
    && (forall i :: 0 <= i < |calls| ==> Makes(config, runtime, answers, calls[i]) && Covers(note, calls[i].key))
    && (forall i, j :: 0 <= i < j < |calls| ==> calls[i].key != calls[j].key)
    && (forall call :: Makes(config, runtime, answers, call) && Covers(note, call.key) ==> call in calls)
  }

  predicate Fails(config: Objects, runtime: Objects, answers: string -> Answer, key: string) {
    Get(config, key) != Get(runtime, key) && !answers(key).Accepted?
  }

  /** What the cluster holds after the call for a key, if there is one, has ended. */
  function Outcome(cluster: Objects, config: Objects, runtime: Objects, answers: string -> Answer, key: string): Option<Object> {
    if Get(config, key) != Get(runtime, key) && (answers(key).Accepted? || (answers(key).Refused? && answers(key).effect))
    then Get(config, key) else Get(cluster, key)
  }

  class Reconciler {
    const config: Objects
    const runtime: Objects
    /** The cluster, and the calls made to it. */
    var cluster: Objects
    var calls: seq<Call>

    constructor (config: Objects, runtime: Objects, cluster: Objects)
      ensures this.config == config && this.runtime == runtime && this.cluster == cluster && calls == []
    {
      this.config, this.runtime, this.cluster := config, runtime, cluster;
      calls := [];
    }

    method Apply(key: string, obj: Object, answer: Answer) returns (ok: bool)
      modifies this
      ensures ok == answer.Accepted?
      ensures calls == old(calls) + if answer.Unreachable? then [] else [ApplyObject(key, obj)]
      ensures cluster == if answer.Accepted? || (answer.Refused? && answer.effect) then old(cluster)[key := obj] else old(cluster)
    {
      if answer.Unreachable? {
        return false;
      }
      calls := calls + [ApplyObject(key, obj)];
      if answer.Accepted? || answer.effect {
        cluster := cluster[key := obj];
      }
      ok := answer.Accepted?;
    }

    /** An object that is already gone counts as deleted. */
    method Delete(key: string, answer: Answer) returns (ok: bool)
      modifies this
      ensures ok == answer.Accepted?
      ensures calls == old(calls) + if answer.Unreachable? then [] else [DeleteObject(key)]
      ensures cluster == if answer.Accepted? || (answer.Refused? && answer.effect) then old(cluster) - {key} else old(cluster)
    {
      if answer.Unreachable? {
        return false;
      }
      calls := calls + [DeleteObject(key)];
      if answer.Accepted? || answer.effect {
        cluster := cluster - {key};
      }
      ok := answer.Accepted?;
    }

    /** Makes the call a key wants, if any. */
    method ReconcileObject(key: string, answers: string -> Answer) returns (ok: bool)
      modifies this
      ensures ok == !Fails(config, runtime, answers, key)
      ensures match Wanted(config, runtime, key)
        case None => calls == old(calls)
        case Some(call) => calls == old(calls) + if Makes(config, runtime, answers, call) then [call] else []
      ensures Get(cluster, key) == Outcome(old(cluster), config, runtime, answers, key)
      ensures forall k :: k != key ==> Get(cluster, k) == Get(old(cluster), k)
    {
      ok := true;
      if key in config && Get(config, key) != Get(runtime, key) {
        ok := Apply(key, config[key], answers(key));
      } else if key !in config && key in runtime {
        ok := Delete(key, answers(key));
      }
    }

    /** Reconciles every key of either cache, in any order, going on after failures. */
    method ReconcileAll(answers: string -> Answer) returns (errors: seq<string>)
      modifies this
      ensures |old(calls)| <= |calls| && calls[..|old(calls)|] == old(calls)
      ensures OneCallEach(calls[|old(calls)|..], config, runtime, answers)
      ensures forall k :: Get(cluster, k) == Outcome(old(cluster), config, runtime, answers, k)
      ensures forall k :: k in errors <==> Fails(config, runtime, answers, k)
      ensures forall i, j :: 0 <= i < j < |errors| ==> errors[i] != errors[j]
    {
      hide Makes, Wanted, Outcome, Fails, CallsFor, DoneFor, OneCallEach;
      var todo := config.Keys + runtime.Keys;
      errors := [];
      ghost var done: set<string> := {};
      ghost var made: seq<Call> := [];
      NothingDone(cluster, config, runtime, answers);
      while todo != {}
        invariant todo !! done && todo + done == config.Keys + runtime.Keys
        invariant calls == old(calls) + made
        invariant CallsFor(made, done, config, runtime, answers)
        invariant DoneFor(cluster, old(cluster), errors, done, config, runtime, answers)
      {
        var key :| key in todo;
        ghost var before, failed := cluster, errors;
        var ok := ReconcileObject(key, answers);
        if !ok {
          errors := errors + [key];
        }
        OneMoreDone(cluster, before, old(cluster), errors, failed, done, config, runtime, answers, key);
        CallsMore(made, done, config, runtime, answers, key);
        made := made + MoreCalls(config, runtime, answers, key);
        done := done + {key};
        todo := todo - {key};
      }
      assert calls[|old(calls)|..] == made;
      AllCalls(made, config, runtime, answers);
      AllDone(cluster, old(cluster), errors, config, runtime, answers);
    }

    /** Deals with one notification: what it covers is brought to the configuration, and nothing
        else is touched; the one for every key puts the periodic timer back. */
    method ProcessResourceChange(note: string, answers: string -> Answer) returns (timerReset: bool)
      modifies this
      ensures timerReset == (note == SNAPSHOT_REPLACED)
      ensures |old(calls)| <= |calls| && calls[..|old(calls)|] == old(calls)
      ensures CallsCovered(calls[|old(calls)|..], note, config, runtime, answers)
      ensures forall k :: Get(cluster, k) == if Covers(note, k) then Outcome(old(cluster), config, runtime, answers, k) else Get(old(cluster), k)
    {
      hide Outcome, Fails, Makes;
      if note == SNAPSHOT_REPLACED {
        var errors := ReconcileAll(answers);
        timerReset := true;
      } else {
        ghost var before := calls;
        var ok := ReconcileObject(note, answers);
        ghost var made := calls[|before|..];
        OneKey(made, note, config, runtime, answers);
        timerReset := false;
      }
    }
  }

  lemma {:induction false} OneKey(calls: seq<Call>, key: string, config: Objects, runtime: Objects, answers: string -> Answer)
    requires calls == MoreCalls(config, runtime, answers, key) && key != SNAPSHOT_REPLACED
    ensures CallsCovered(calls, key, config, runtime, answers)
  {
  }

  ghost function MoreCalls(config: Objects, runtime: Objects, answers: string -> Answer, key: string): seq<Call> {
    match Wanted(config, runtime, key)
    case None => []
    case Some(call) => if Makes(config, runtime, answers, call) then [call] else []
  }

  /** The calls for the keys dealt with so far. */
  ghost predicate CallsFor(calls: seq<Call>, done: set<string>, config: Objects, runtime: Objects, answers: string -> Answer) {
    && (forall i :: 0 <= i < |calls| ==> Makes(config, runtime, answers, calls[i]) && calls[i].key in done)
    && (forall i, j :: 0 <= i < j < |calls| ==> calls[i].key != calls[j].key)
    && (forall call :: Makes(config, runtime, answers, call) && call.key in done ==> call in calls)
  }

  /** What has become of the cluster, and which keys have failed, when these keys are dealt with. */
  ghost predicate DoneFor(cluster: Objects, before: Objects, errors: seq<string>, done: set<string>,
                          config: Objects, runtime: Objects, answers: string -> Answer)
  {
    && (forall k :: Get(cluster, k) == if k in done then Outcome(before, config, runtime, answers, k) else Get(before, k))
    && (forall k :: k in errors <==> k in done && Fails(config, runtime, answers, k))
    && (forall i, j :: 0 <= i < j < |errors| ==> errors[i] != errors[j])
  }

  lemma {:induction false} NothingDone(cluster: Objects, config: Objects, runtime: Objects, answers: string -> Answer)
    ensures DoneFor(cluster, cluster, [], {}, config, runtime, answers) && CallsFor([], {}, config, runtime, answers)
  {
  }

  lemma {:induction false} OneMoreDone(cluster: Objects, was: Objects, before: Objects, errors: seq<string>, failed: seq<string>,
                                       done: set<string>, config: Objects, runtime: Objects, answers: string -> Answer, key: string)
    requires DoneFor(was, before, failed, done, config, runtime, answers) && key !in done
    requires Get(cluster, key) == Outcome(was, config, runtime, answers, key)
    requires forall k :: k != key ==> Get(cluster, k) == Get(was, k)
    requires errors == failed + if Fails(config, runtime, answers, key) then [key] else []
    ensures DoneFor(cluster, before, errors, done + {key}, config, runtime, answers)
  {
    hide Outcome, Fails, Get;
    OutcomeOf(was, before, config, runtime, answers, key);
  }

  lemma {:induction false} AllDone(cluster: Objects, before: Objects, errors: seq<string>,
                                   config: Objects, runtime: Objects, answers: string -> Answer)
    requires DoneFor(cluster, before, errors, config.Keys + runtime.Keys, config, runtime, answers)
    ensures forall k :: Get(cluster, k) == Outcome(before, config, runtime, answers, k)
    ensures forall k :: k in errors <==> Fails(config, runtime, answers, k)
    ensures forall i, j :: 0 <= i < j < |errors| ==> errors[i] != errors[j]
  {
    hide Outcome, Fails, Get;
    forall k ensures k !in config && k !in runtime ==>
      Outcome(before, config, runtime, answers, k) == Get(before, k) && !Fails(config, runtime, answers, k)
    {
      NothingElse(before, config, runtime, answers, k);
    }
  }

  lemma {:induction false} CallsMore(calls: seq<Call>, done: set<string>, config: Objects, runtime: Objects,
                                     answers: string -> Answer, key: string)
    requires CallsFor(calls, done, config, runtime, answers) && key !in done
    ensures CallsFor(calls + MoreCalls(config, runtime, answers, key), done + {key}, config, runtime, answers)
  {
  }

  lemma {:induction false} AllCalls(calls: seq<Call>, config: Objects, runtime: Objects, answers: string -> Answer)
    requires CallsFor(calls, config.Keys + runtime.Keys, config, runtime, answers)
    ensures OneCallEach(calls, config, runtime, answers)
  {
  }

  lemma {:induction false} OutcomeOf(cluster: Objects, cluster': Objects, config: Objects, runtime: Objects,
                                     answers: string -> Answer, key: string)
    requires Get(cluster, key) == Get(cluster', key)
    ensures Outcome(cluster, config, runtime, answers, key) == Outcome(cluster', config, runtime, answers, key)
  {
  }

  lemma {:induction false} NothingElse(cluster: Objects, config: Objects, runtime: Objects, answers: string -> Answer, key: string)
    ensures key !in config && key !in runtime ==>
      Outcome(cluster, config, runtime, answers, key) == Get(cluster, key) && !Fails(config, runtime, answers, key)
  {
  }

  /** The order of the keys makes no difference to which calls are made. */
  lemma {:induction false} OrderIsImmaterial(a: seq<Call>, b: seq<Call>, config: Objects, runtime: Objects, answers: string -> Answer)
    requires OneCallEach(a, config, runtime, answers) && OneCallEach(b, config, runtime, answers)
    ensures multiset(a) == multiset(b)
  {
    hide Makes;
    forall call ensures multiset(a)[call] == multiset(b)[call] {
      Once(a, config, runtime, answers, call);
      Once(b, config, runtime, answers, call);
    }
  }

  lemma {:induction false} Once(calls: seq<Call>, config: Objects, runtime: Objects, answers: string -> Answer, call: Call)
    requires OneCallEach(calls, config, runtime, answers)
    ensures multiset(calls)[call] == if Makes(config, runtime, answers, call) then 1 else 0
  {
    hide Makes;
    if call in calls {
      var i :| 0 <= i < |calls| && calls[i] == call;
      OnlyAt(calls, i);
    }
  }

  lemma {:induction false} OnlyAt<T>(xs: seq<T>, i: nat)
    requires i < |xs| && forall j :: 0 <= j < |xs| && j != i ==> xs[j] != xs[i]
    ensures multiset(xs)[xs[i]] == 1
  {
    assert xs == xs[..i] + [xs[i]] + xs[i + 1..];
    assert xs[i] !in xs[..i] && xs[i] !in xs[i + 1..];
  }

  lemma {:induction false} FirstIsMade(calls: seq<Call>, config: Objects, runtime: Objects, answers: string -> Answer)
    requires OneCallEach(calls, config, runtime, answers)
    ensures calls != [] ==> Makes(config, runtime, answers, calls[0])
  {
  }

  /** If every call is accepted and the runtime cache mirrored the cluster, the cluster is as
      configured afterwards; and once the mirror shows that, another pass makes no call. */
  lemma {:induction false} OnePassSuffices(cluster: Objects, cluster': Objects, config: Objects, answers: string -> Answer,
                                           again: seq<Call>, answers': string -> Answer)
    requires forall k :: Get(cluster', k) == Outcome(cluster, config, cluster, answers, k)
    requires forall k :: !Fails(config, cluster, answers, k)
    requires OneCallEach(again, config, cluster', answers')
    ensures cluster' == config && again == []
  {
    forall k ensures Get(cluster', k) == Get(config, k) {
      assert !Fails(config, cluster, answers, k);
    }
    forall k ensures k in cluster' <==> k in config {
      assert Get(cluster', k) == Get(config, k);
    }
    forall k | k in config ensures cluster'[k] == config[k] {
      assert Get(cluster', k) == Get(config, k);
    }
    assert cluster' == config;
    FirstIsMade(again, config, config, answers');
  }

  /** In terms of the caches: what is applied is what is configured and not in the runtime cache like
      that; what is deleted is what is in the runtime cache and not configured. */
  lemma {:induction false} CallsAre(calls: seq<Call>, config: Objects, runtime: Objects, answers: string -> Answer, key: string, obj: Object)
    requires OneCallEach(calls, config, runtime, answers)
    ensures ApplyObject(key, obj) in calls <==>
      Get(config, key) == Some(obj) && Get(runtime, key) != Some(obj) && !answers(key).Unreachable?
    ensures DeleteObject(key) in calls <==> key !in config && key in runtime && !answers(key).Unreachable?
  {
    assert Makes(config, runtime, answers, ApplyObject(key, obj)) <==> ApplyObject(key, obj) in calls;
    assert Makes(config, runtime, answers, DeleteObject(key)) <==> DeleteObject(key) in calls;
  }

  /** A key becomes as configured if its call is accepted, and stays as it is if it needs none or its
      call is not made or has no effect. */
  lemma {:induction false} OutcomeIs(cluster: Objects, config: Objects, runtime: Objects, answers: string -> Answer, key: string)
    ensures answers(key).Accepted? && Get(config, key) != Get(runtime, key) ==>
      Outcome(cluster, config, runtime, answers, key) == Get(config, key)
    ensures Get(config, key) == Get(runtime, key) || answers(key).Unreachable? || answers(key) == Refused(false) ==>
      Outcome(cluster, config, runtime, answers, key) == Get(cluster, key)
    ensures Fails(config, runtime, answers, key) <==> Get(config, key) != Get(runtime, key) && !answers(key).Accepted?
  {
  }
}

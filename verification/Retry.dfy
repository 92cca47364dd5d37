/** The retry loop around a stream: when it gives up, and how long it waits in between. */
module Retry {
  /** Durations are reals; `longRun` is how long an attempt must run before its failure no longer
      counts against it, zero meaning never. */
  datatype Options = Options(initial: real, max: real, factor: real, threshold: int, longRun: real)

  datatype Outcome = Success | Stop | Failure

  /** `jitter` is the random share by which the wait after the attempt is shortened. */
  datatype Attempt = Attempt(outcome: Outcome, ran: real, jitter: real)

  /** How the loop ended; `Running` when the attempts ran out. */
  datatype Result = Running | Stopped(at: nat) | GaveUp(at: nat, failures: int)

  predicate LongRun(o: Options, a: Attempt) {
    o.longRun != 0.0 && a.ran > o.longRun
  }

  // ---------------------------------------------------------------- what it promises

  /** The attempts from `i - n + 1` to `i` all failed, and only the first of them may have run
      for long. */
  ghost predicate EndsStreak(o: Options, attempts: seq<Attempt>, i: nat, n: nat)
    requires i < |attempts|
  {
    && n <= i + 1
    && (forall j :: i - n < j <= i ==> attempts[j].outcome == Failure)
    && (forall j :: i - n + 1 < j <= i ==> !LongRun(o, attempts[j]))
  }

  /** The length of a streak at which the loop gives up. */
  function Limit(o: Options): (n: nat)
    ensures n >= 1
  {
    if o.threshold <= 0 then 1 else o.threshold + 1
  }

  ghost predicate EndsAt(o: Options, attempts: seq<Attempt>, i: nat)
    requires i < |attempts|
  {
    attempts[i].outcome == Stop || EndsStreak(o, attempts, i, Limit(o))
  }

  /** Which failure of its streak an attempt is, zero if it did not fail. */
  function Nth(o: Options, attempts: seq<Attempt>, i: nat): nat
    requires i < |attempts|
  {
    if attempts[i].outcome != Failure then 0
    else if i == 0 || LongRun(o, attempts[i]) then 1
    else 1 + Nth(o, attempts, i - 1)
  }

  /** Looking back finds a streak exactly if it is that long. */
  lemma {:induction false} NthIsStreak(o: Options, attempts: seq<Attempt>, i: nat, n: nat)
    requires i < |attempts| && n >= 1
    ensures EndsStreak(o, attempts, i, n) <==> Nth(o, attempts, i) >= n
  {
    if n > 1 && i > 0 {
      NthIsStreak(o, attempts, i - 1, n - 1);
      assert attempts[i].outcome == Failure && !LongRun(o, attempts[i]) && EndsStreak(o, attempts, i - 1, n - 1)
        ==> EndsStreak(o, attempts, i, n);
      assert EndsStreak(o, attempts, i, n) ==> EndsStreak(o, attempts, i - 1, n - 1);
    }
  }

  function Clamp(minimum: real, val: real, maximum: real): (r: real)
    ensures minimum <= maximum ==> minimum <= r <= maximum
    ensures minimum <= val <= maximum ==> r == val
  {
    if val < minimum then minimum else if val > maximum then maximum else val
  }

  function Min(a: real, b: real): real {
    if a < b then a else b
  }

  function Power(x: real, n: nat): (r: real)
    ensures x >= 1.0 ==> r >= 1.0
  {
    if n == 0 then 1.0
    else
      var p := Power(x, n - 1);
      AtLeastOne(p, x);
      p * x
  }

  lemma {:induction false} AtLeastOne(p: real, x: real)
    ensures p >= 1.0 && x >= 1.0 ==> p * x >= 1.0
  {
    if p >= 1.0 && x >= 1.0 {
      ScalesLeft(1.0, p, x);
    }
  }

  /** The initial backoff multiplied by the factor after all but the first failure of a streak. */
  function Grown(o: Options, n: nat): real
    requires n >= 1
  {
    o.initial * Power(o.factor, n - 1)
  }

  /** The backoff before jitter after the n-th failure of a streak. */
  function Backoff(o: Options, n: nat): real
    requires n >= 1
  {
    Min(Grown(o, n), o.max)
  }

  predicate Sane(o: Options) {
    0.0 <= o.initial <= o.max && o.factor >= 1.0
  }

  /** One multiplication and one cap at a time come to capping the whole product. */
  lemma {:induction false} NextBackoff(o: Options, n: nat)
    requires Sane(o) && n >= 1
    ensures Min(Backoff(o, n) * o.factor, o.max) == Backoff(o, n + 1)
  {
    hide Grown;
    GrownStep(o, n);
    CapAfterProduct(Grown(o, n), o.factor, o.max);
  }

  lemma {:induction false} GrownStep(o: Options, n: nat)
    requires n >= 1
    ensures Grown(o, n + 1) == Grown(o, n) * o.factor
  {
    Associates(o.initial, Power(o.factor, n - 1), o.factor);
  }

  lemma {:induction false} Associates(x: real, y: real, z: real)
    ensures x * (y * z) == x * y * z
  {
  }

  lemma {:induction false} CapAfterProduct(x: real, factor: real, max: real)
    requires max >= 0.0 && factor >= 1.0
    ensures Min(Min(x, max) * factor, max) == Min(x * factor, max)
  {
    Scales(max, 1.0, factor);
    if x >= max {
      ScalesLeft(max, x, factor);
    }
  }

  lemma {:induction false} Scales(x: real, low: real, high: real)
    requires x >= 0.0 && low <= high
    ensures x * low <= x * high
  {
    assert x * high - x * low == x * (high - low);
  }

  lemma {:induction false} ScalesLeft(low: real, high: real, x: real)
    requires x >= 0.0 && low <= high
    ensures low * x <= high * x
  {
    assert high * x - low * x == (high - low) * x;
  }

  lemma {:induction false} FirstBackoff(o: Options)
    requires Sane(o)
    ensures Backoff(o, 1) == o.initial
  {
  }

  /** A random share less. */
  function JitterTime(base: real, jitter: real): real {
    base * (1.0 - jitter)
  }

  /** The wait after the n-th failure of a streak. */
  function Sleep(o: Options, n: nat, jitter: real): real
    requires n >= 1
  {
    Clamp(o.initial, JitterTime(Backoff(o, n), jitter), o.max)
  }

  /** Jitter only shortens a wait, and never below the initial backoff. */
  lemma {:induction false} SleepInBounds(o: Options, n: nat, jitter: real)
    requires Sane(o) && n >= 1 && 0.0 <= jitter < 1.0
    ensures o.initial <= Sleep(o, n, jitter) <= Min(Grown(o, n), o.max)
  {
    hide Grown, Clamp, JitterTime;
    GrownAtLeast(o, n);
    JitterBounds(o, Backoff(o, n), jitter);
  }

  /** Jitter takes off no more than its share, so waits grow as the backoff does. */
  lemma {:induction false} SleepGrows(o: Options, n: nat, jitter: real)
    requires Sane(o) && n >= 1 && 0.0 <= jitter < 1.0
    ensures Sleep(o, n, jitter) >= (1.0 - jitter) * Min(Grown(o, n), o.max)
    ensures jitter == 0.0 ==> Sleep(o, n, jitter) == Min(Grown(o, n), o.max)
  {
    hide Grown;
    GrownAtLeast(o, n);
    ShareLeft(o, Min(Grown(o, n), o.max), jitter);
  }

  lemma {:induction false} ShareLeft(o: Options, backoff: real, jitter: real)
    requires o.initial <= backoff <= o.max && 0.0 <= o.initial && 0.0 <= jitter < 1.0
    ensures Clamp(o.initial, JitterTime(backoff, jitter), o.max) >= (1.0 - jitter) * backoff
    ensures jitter == 0.0 ==> Clamp(o.initial, JitterTime(backoff, jitter), o.max) == backoff
  {
    Scales(backoff, 1.0 - jitter, 1.0);
  }

  lemma {:induction false} GrownAtLeast(o: Options, n: nat)
    requires Sane(o) && n >= 1
    ensures o.initial <= Grown(o, n)
  {
    Scales(o.initial, 1.0, Power(o.factor, n - 1));
  }

  lemma {:induction false} JitterBounds(o: Options, backoff: real, jitter: real)
    requires Sane(o) && o.initial <= backoff <= o.max && 0.0 <= jitter < 1.0
    ensures o.initial <= Clamp(o.initial, JitterTime(backoff, jitter), o.max) <= backoff
  {
    Scales(backoff, 1.0 - jitter, 1.0);
  }

  // ---------------------------------------------------------------- the loop

  class Retrier {
    const opts: Options
    var backoff: real
    var consecutiveFailures: int
    var timer: real

    constructor (o: Options)
      ensures opts == o && backoff == o.initial && consecutiveFailures == 0 && timer == 0.0
    {
      opts := o;
      backoff, consecutiveFailures, timer := o.initial, 0, 0.0;
    }

    /** Counts a failure, and sets the timer and the next backoff. */
    method AddBackoff(jitter: real)
      modifies this
      ensures consecutiveFailures == old(consecutiveFailures) + 1
      ensures timer == Clamp(opts.initial, JitterTime(old(backoff), jitter), opts.max)
      ensures backoff == Min(old(backoff) * opts.factor, opts.max)
    {
      consecutiveFailures := consecutiveFailures + 1;
      timer := Clamp(opts.initial, JitterTime(backoff, jitter), opts.max);
      var nextBackoff := backoff * opts.factor;
      backoff := if nextBackoff < opts.max then nextBackoff else opts.max;
    }

    method ResetBackoff()
      modifies this
      ensures consecutiveFailures == 0 && backoff == opts.initial && timer == opts.initial
    {
      consecutiveFailures := 0;
      backoff := opts.initial;
      timer := opts.initial;
    }

    /** What the state remembers of the attempts so far. */
    ghost predicate Remembers(attempts: seq<Attempt>, i: nat)
      requires i <= |attempts|
      reads this
    {
      var n := if i == 0 then 0 else Nth(opts, attempts, i - 1);
      consecutiveFailures == n && (Sane(opts) ==> backoff == Backoff(opts, n + 1))
    }

    /** Repeats the action until it fails too often in a row or asks to stop. `waits` are the
        timer's settings after each attempt. */
    method Run(attempts: seq<Attempt>) returns (result: Result, waits: seq<real>)
      requires backoff == opts.initial && consecutiveFailures == 0
      modifies this
      ensures result.Running? <==> forall i :: 0 <= i < |attempts| ==> !EndsAt(opts, attempts, i)
      ensures result.Running? ==> |waits| == |attempts|
      ensures !result.Running? ==> |waits| == result.at < |attempts|
      ensures !result.Running? ==> forall i :: 0 <= i < result.at ==> !EndsAt(opts, attempts, i)
      ensures result.Stopped? ==> attempts[result.at].outcome == Stop
      ensures result.GaveUp? ==> EndsStreak(opts, attempts, result.at, Limit(opts)) && result.failures == 0
      ensures Sane(opts) ==> WaitsAsPromised(opts, attempts, waits)
      ensures Sane(opts) ==> forall i :: 0 <= i < |waits| && 0.0 <= attempts[i].jitter < 1.0 ==> InRange(opts, attempts, i, waits[i])
    {
      hide EndsStreak, InRange, Nth, Sane, Backoff, Sleep, JitterTime;
      result, waits := Running, [];
      RemembersStart(opts);
      if Sane(opts) {
        AllInRange(opts, attempts);
      }
      while |waits| < |attempts|
        invariant |waits| <= |attempts|
        invariant Remembers(attempts, |waits|)
        invariant forall i :: 0 <= i < |waits| ==> !EndsAt(opts, attempts, i)
        invariant Sane(opts) ==> WaitsAsPromised(opts, attempts, waits)
      {
        ghost var i := |waits|;
        var attempt := attempts[|waits|];
        NthStep(opts, attempts, i);
        NthIsStreak(opts, attempts, i, Limit(opts));
        if attempt.outcome == Success {
          ResetBackoff();
          RemembersStart(opts);
        } else if attempt.outcome == Stop {
          assert EndsAt(opts, attempts, i);
          return Stopped(|waits|), waits;
        } else {
          if opts.longRun != 0.0 && attempt.ran > opts.longRun {
            ResetBackoff();
            RemembersStart(opts);
          }
          if consecutiveFailures >= opts.threshold {
            assert EndsAt(opts, attempts, i);
            ResetBackoff();
            return GaveUp(|waits|, consecutiveFailures), waits;
          }
          FailureStep(opts, Nth(opts, attempts, i), attempt.jitter);
          AddBackoff(attempt.jitter);
        }
        waits := waits + [timer];
      }
    }
  }

  predicate WaitsAsPromised(o: Options, attempts: seq<Attempt>, waits: seq<real>)
    requires |waits| <= |attempts|
  {
    forall i :: 0 <= i < |waits| ==> waits[i] == Wait(o, attempts, i)
  }

  /** How long the loop waits after an attempt that does not end it. */
  function Wait(o: Options, attempts: seq<Attempt>, i: nat): real
    requires i < |attempts|
  {
    var n := Nth(o, attempts, i);
    if n == 0 then o.initial else Sleep(o, n, attempts[i].jitter)
  }

  lemma {:induction false} RemembersStart(o: Options)
    ensures Sane(o) ==> Backoff(o, 1) == o.initial
  {
    if Sane(o) {
      FirstBackoff(o);
    }
  }

  lemma {:induction false} NthStep(o: Options, attempts: seq<Attempt>, i: nat)
    requires i < |attempts|
    ensures attempts[i].outcome != Failure ==> Nth(o, attempts, i) == 0
    ensures attempts[i].outcome == Failure && LongRun(o, attempts[i]) ==> Nth(o, attempts, i) == 1
    ensures attempts[i].outcome == Failure && !LongRun(o, attempts[i]) ==>
      Nth(o, attempts, i) == 1 + if i == 0 then 0 else Nth(o, attempts, i - 1)
    ensures attempts[i].outcome != Failure ==> !EndsStreak(o, attempts, i, Limit(o))
  {
  }

  lemma {:induction false} FailureStep(o: Options, n: nat, jitter: real)
    requires n >= 1
    ensures Sane(o) ==> Min(Backoff(o, n) * o.factor, o.max) == Backoff(o, n + 1)
    ensures Clamp(o.initial, JitterTime(Backoff(o, n), jitter), o.max) == Sleep(o, n, jitter)
  {
    if Sane(o) {
      NextBackoff(o, n);
    }
  }

  /** A wait after a success is the initial backoff. After the j-th failure of a streak it lies
      between the initial backoff and that multiplied by the factor j - 1 times, and is no less than
      what jitter leaves of the latter, always up to the maximum. */
  ghost predicate InRange(o: Options, attempts: seq<Attempt>, i: nat, wait: real)
    requires i < |attempts|
  {
    var j := Nth(o, attempts, i);
    if j == 0 then wait == o.initial
    else
      && o.initial <= wait <= Min(Grown(o, j), o.max)
      && wait >= (1.0 - attempts[i].jitter) * Min(Grown(o, j), o.max)
      && (attempts[i].jitter == 0.0 ==> wait == Min(Grown(o, j), o.max))
  }

  lemma {:induction false} AllInRange(o: Options, attempts: seq<Attempt>)
    requires Sane(o)
    ensures forall i :: 0 <= i < |attempts| && 0.0 <= attempts[i].jitter < 1.0 ==> InRange(o, attempts, i, Wait(o, attempts, i))
  {
    hide Sane, Sleep, Grown, Min;
    forall i | 0 <= i < |attempts| && 0.0 <= attempts[i].jitter < 1.0 ensures InRange(o, attempts, i, Wait(o, attempts, i)) {
      if Nth(o, attempts, i) > 0 {
        SleepInBounds(o, Nth(o, attempts, i), attempts[i].jitter);
        SleepGrows(o, Nth(o, attempts, i), attempts[i].jitter);
      }
    }
  }

  /** An action that always fails at once is tried one time more than the threshold allows. */
  lemma {:induction false} AlwaysFailing(o: Options, attempts: seq<Attempt>, i: nat)
    requires i < |attempts| && o.threshold >= 0
    requires forall j :: 0 <= j < |attempts| ==> attempts[j].outcome == Failure && (o.longRun == 0.0 || attempts[j].ran <= o.longRun)
    ensures EndsAt(o, attempts, i) <==> i >= o.threshold
  {
  }

  /** A success, or a failure after a long run, starts the count anew. */
  lemma {:induction false} StreaksBreak(o: Options, attempts: seq<Attempt>, i: nat, j: nat)
    requires j <= i < |attempts| && attempts[i].outcome != Stop && i < j + o.threshold
    requires attempts[j].outcome == Success || (o.longRun != 0.0 && attempts[j].ran > o.longRun)
    ensures !EndsAt(o, attempts, i)
  {
  }
}

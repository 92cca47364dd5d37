/** The premises of orderly runs cannot be dropped: runs of enabled steps, each orderly but for its
    end, in which a record behind the checkpoint was never handed over and no gap was reported. */
module TailingPremises {
  import opened LogLines
  import opened ActiveRead
  import opened Tailing
  import opened Subsequences

  /** A file of one record of one letter. */
  function OneRecord(letter: Byte): Bytes {
    [letter, NL]
  }

  lemma {:induction false} OneRecordLines(letter: Byte)
    requires letter != NL && letter != CR
    ensures var f := OneRecord(letter);
      && Lines(f, 0, 2) == [[letter]] && CompleteEnd(f, 0) == 2
      && Fits(f, 0) && Fits(f, 2) && Tokens(f, 0) == [[letter]] && Tokens(f, 2) == [] && Canon(Tokens(f, 0)) == [[letter]]
      && CapAll([[letter]]) == [[letter]]
  {
    var f := OneRecord(letter);
    NextNLUnique(f, 0, 1);
    NextNLUnique(f, 2, 2);
    assert f[0..1] == [letter];
    assert Lines(f, 2, 2) == [] && Tokens(f, 2) == [];
    assert Canonical([letter]) == [letter];
    assert [[letter]][1..] == [];
  }

  lemma {:induction false} TwoRecordLines(a: Byte, b: Byte)
    requires a !in {NL, CR} && b !in {NL, CR}
    ensures var f := OneRecord(a) + OneRecord(b);
      && Lines(f, 2, 4) == [[b]] && CompleteEnd(f, 2) == 4
      && Canon(Tokens(f, 0)) == [[a], [b]] && Fits(f, 2) && Fits(f, 4) && Tokens(f, 4) == []
      && LineBefore(f, 2) == [a] && CapAll([[b]]) == [[b]]
  {
    var f := OneRecord(a) + OneRecord(b);
    NextNLUnique(f, 0, 1);
    NextNLUnique(f, 2, 3);
    NextNLUnique(f, 4, 4);
    assert f[0..1] == [a] && f[2..3] == [b];
    assert Lines(f, 4, 4) == [] && Tokens(f, 4) == [];
    assert Tokens(f, 2) == [[b]] && Tokens(f, 0) == [[a], [b]];
    CanonTwo(a, b);
    LineBeginUnique(f, 0, 2);
    assert [[b]][1..] == [];
  }

  lemma {:induction false} CanonTwo(a: Byte, b: Byte)
    requires a !in {NL, CR} && b !in {NL, CR}
    ensures Canon([[a], [b]]) == [[a], [b]]
  {
    OneRecordLines(a);
    OneRecordLines(b);
    CanonConcat([[a]], [[b]]);
    assert [[a]] + [[b]] == [[a], [b]];
  }

  lemma {:induction false} ElementsOfSubsequence<T>(a: seq<T>, b: seq<T>, x: T)
    requires Subseq(a, b) && x in a
    ensures x in b
    decreases |b|
  {
    var m, n := |a| - 1, |b| - 1;
    if Subseq(a, b[..n]) {
      ElementsOfSubsequence(a, b[..n], x);
    } else if x != a[m] {
      assert a == a[..m] + [a[m]];
      ElementsOfSubsequence(a[..m], b[..n], x);
    }
  }

  /** Every step of the run was possible when it was taken. */
  ghost predicate Possible(s: State, steps: seq<Step>) {
    forall i :: 0 <= i < |steps| ==> Enabled(Exec(s, steps[..i]), steps[i])
  }

  lemma {:induction false} OneMore(s: State, steps: seq<Step>, step: Step)
    requires Possible(s, steps) && Enabled(Exec(s, steps), step)
    ensures Possible(s, steps + [step]) && Exec(s, steps + [step]) == Apply(Exec(s, steps), step)
    ensures OrderlyRun(s, steps) && Orderly(Exec(s, steps), step) ==> OrderlyRun(s, steps + [step])
  {
    hide Enabled, Apply, Orderly;
    var more := steps + [step];
    assert more[..|steps|] == steps;
    assert forall i :: 0 <= i < |steps| ==> more[..i] == steps[..i];
  }

  /** A record behind the checkpoint was neither handed over nor reported. */
  ghost predicate LosesSilently(s: State) {
    s.booted && InBounds(s) && s.gaps == {} && !Subseq(Expected(s), Canon(s.sink))
  }

  function Unpolled(active: Bytes): State {
    State([], active, false, 0, 0, 0, "", 0, ZERO_DIGEST, [], {}, false, false)
  }

  /** After the first poll of a file of one record. */
  function Polled(a: Byte): State {
    Unpolled(OneRecord(a)).(booted := true, offset := 2, hash := HashAt(OneRecord(a), 0, 2, ZERO_DIGEST), sink := [[a]])
  }

  lemma {:induction false} FirstPoll(a: Byte)
    requires a !in {NL, CR}
    ensures Possible(Unpolled(OneRecord(a)), [Boot("", 0)])
    ensures Exec(Unpolled(OneRecord(a)), [Boot("", 0)]) == Polled(a)
    ensures OrderlyRun(Unpolled(OneRecord(a)), [Boot("", 0)])
  {
    OneRecordLines(a);
    OneMore(Unpolled(OneRecord(a)), [], Boot("", 0));
    assert [] + [Boot("", 0)] == [Boot("", 0)];
    assert [] + [[a]] == [[a]];
  }

  /** The generation behind the checkpoint was deleted before the directory was listed: its
      offset is applied to the next generation. */
  lemma {:induction false} PrunedTooEarly(a: Byte, b: Byte) returns (s: State, steps: seq<Step>)
    requires a !in {NL, CR} && b !in {NL, CR} && a != b
    ensures Fresh(s) && Possible(s, steps + [Drain(1)])
    ensures OrderlyRun(s, steps)
    ensures LosesSilently(Exec(s, steps + [Drain(1)]))
  {
    hide Canon, Lines, Tokens, CapAll, CompleteEnd, Subseq, Read, Exec, Possible, OrderlyRun;
    s := Unpolled(OneRecord(a));
    FirstPoll(a);
    OneRecordLines(a);
    OneRecordLines(b);
    var s1 := Polled(a);
    var s2, t2 := Apply(s1, Rotate("1")), [Boot("", 0)] + [Rotate("1")];
    OneMore(s, [Boot("", 0)], Rotate("1"));
    var s3, t3 := Apply(s2, Append(OneRecord(b))), t2 + [Append(OneRecord(b))];
    OneMore(s, t2, Append(OneRecord(b)));
    var s4, t4 := Apply(s3, Rotate("2")), t3 + [Rotate("2")];
    OneMore(s, t3, Rotate("2"));
    steps := t4 + [Reform(0, Gone)];
    OneMore(s, t4, Reform(0, Gone));
    var s5 := Apply(s4, Reform(0, Gone));
    assert [] + OneRecord(b) == OneRecord(b);
    var g0, g1 := Generation("1", OneRecord(a), Gone), Generation("2", OneRecord(b), Plain);
    assert s5.gens == [g0, g1];
    OneMore(s, steps, Drain(1));
    assert Compact([]) == [] && [[a]] + [] == [[a]];
    NotAmong(Apply(s5, Drain(1)), 1, b);
  }

  /** A rotation fell between listing the directory and reading the active file: the offset of
      the new file is applied to the old one. */
  lemma {:induction false} RotatedInsidePoll(a: Byte, b: Byte) returns (s: State, steps: seq<Step>)
    requires a !in {NL, CR} && b !in {NL, CR} && a != b
    ensures Fresh(s) && Possible(s, steps + [Resume(Whole)] + [Drain(0)])
    ensures OrderlyRun(s, steps)
    ensures LosesSilently(Exec(s, steps + [Resume(Whole)] + [Drain(0)]))
  {
    hide Canon, Lines, Tokens, CapAll, CompleteEnd, Subseq, Exec, Possible, OrderlyRun;
    s := Unpolled(OneRecord(a));
    FirstPoll(a);
    OneRecordLines(a);
    TwoRecordLines(a, b);
    TwoRecordLines(a, a);
    var two := OneRecord(a) + OneRecord(b);
    var s1 := Polled(a);
    var s2, t2 := Apply(s1, Append(OneRecord(b))), [Boot("", 0)] + [Append(OneRecord(b))];
    OneMore(s, [Boot("", 0)], Append(OneRecord(b)));
    var s3, t3 := Apply(s2, Rotate("1")), t2 + [Rotate("1")];
    OneMore(s, t2, Rotate("1"));
    steps := t3 + [Append(OneRecord(a) + OneRecord(a))];
    OneMore(s, t3, Append(OneRecord(a) + OneRecord(a)));
    var s4 := Apply(s3, Append(OneRecord(a) + OneRecord(a)));
    assert s4.gens == [Generation("1", two, Plain)];
    assert s4.active == [] + (OneRecord(a) + OneRecord(a)) == OneRecord(a) + OneRecord(a);
    OneRecordHash(a);
    assert Read(s4.active, 0, 2, s4.hash) == ActiveRead.Outcome.Continue([[a]], 4, HashAt(s4.active, 2, 4, s4.hash), 4);
    OneMore(s, steps, Resume(Whole));
    var s5 := Apply(s4, Resume(Whole));
    OneMore(s, steps + [Resume(Whole)], Drain(0));
    assert Compact([]) == [] && [[a]] + [[a]] == [[a], [a]] && [[a], [a]] + [] == [[a], [a]];
    CanonTwo(a, a);
    NotAmong(Apply(s5, Drain(0)), 0, b);
  }

  /** The active file was replaced in place and then rotated before it was read again: the old
      offset is applied to it. */
  lemma {:induction false} RotatedWhileStale(a: Byte, b: Byte) returns (s: State, steps: seq<Step>)
    requires a !in {NL, CR} && b !in {NL, CR} && a != b
    ensures Fresh(s) && Possible(s, steps + [Rotate("1")] + [Drain(0)])
    ensures OrderlyRun(s, steps)
    ensures LosesSilently(Exec(s, steps + [Rotate("1")] + [Drain(0)]))
  {
    hide Canon, Lines, Tokens, CapAll, CompleteEnd, Subseq, Read, Exec, Possible, OrderlyRun;
    s := Unpolled(OneRecord(a));
    FirstPoll(a);
    OneRecordLines(a);
    OneRecordLines(b);
    steps := [Boot("", 0)] + [Truncate(OneRecord(b))];
    OneMore(s, [Boot("", 0)], Truncate(OneRecord(b)));
    var s2 := Apply(Polled(a), Truncate(OneRecord(b)));
    OneMore(s, steps, Rotate("1"));
    var s3 := Apply(s2, Rotate("1"));
    assert s3.gens == [Generation("1", OneRecord(b), Plain)];
    OneMore(s, steps + [Rotate("1")], Drain(0));
    assert Compact([]) == [] && [[a]] + [] == [[a]];
    NotAmong(Apply(s3, Drain(0)), 0, b);
  }

  lemma {:induction false} TwoWhole(a: Byte, b: Byte)
    requires a !in {NL, CR} && b !in {NL, CR}
    ensures var f := OneRecord(a) + OneRecord(b);
      && |f| == 4 && AtLineStart(f, 4) && Lines(f, 0, 4) == [[a], [b]] && CompleteEnd(f, 0) == 4
      && Canon(Lines(f, 0, 4)) == [[a], [b]] && CapAll([[a], [b]]) == [[a], [b]]
      && LineBefore(f, 4) == [b] && HashAt(f, 0, 4, ZERO_DIGEST) == Md5([b])
      && CapAll(Lines(f, 4, 4)) == [] && CompleteEnd(f, 4) == 4
  {
    var f := OneRecord(a) + OneRecord(b);
    TwoRecordLines(a, b);
    NextNLUnique(f, 0, 1);
    NextNLUnique(f, 4, 4);
    assert f[0..1] == [a] && f[2..3] == [b];
    assert Lines(f, 0, 4) == [[a]] + Lines(f, 2, 4);
    CanonTwo(a, b);
    LineBeginUnique(f, 2, 4);
    assert [[a], [b]][1..] == [[b]] && [[b]][1..] == [];
  }

  /** A file that was replaced in place by one with the same record ending at the same offset is
      taken for the old one: what is new before that record is passed over. */
  lemma {:induction false} SameBoundaryRecord(a: Byte, b: Byte, c: Byte) returns (s: State, steps: seq<Step>)
    requires a !in {NL, CR} && b !in {NL, CR} && c !in {NL, CR} && c != a && c != b
    ensures Fresh(s) && Possible(s, steps + [Resume(Whole)])
    ensures OrderlyRun(s, steps)
    ensures LosesSilently(Exec(s, steps + [Resume(Whole)]))
  {
    hide Canon, Lines, Tokens, CapAll, CompleteEnd, Subseq, Exec, Possible, OrderlyRun, HashAt, LineBefore;
    var was, now := OneRecord(a) + OneRecord(b), OneRecord(c) + OneRecord(b);
    TwoWhole(a, b);
    TwoWhole(c, b);
    s := Unpolled(was);
    RunNothing(s);
    OneMore(s, [], Boot("", 0));
    var s1, t1 := Apply(s, Boot("", 0)), [] + [Boot("", 0)];
    assert s1.sink == [] + [[a], [b]] == [[a], [b]];
    steps := t1 + [Truncate(now)];
    OneMore(s, t1, Truncate(now));
    var s2 := Apply(s1, Truncate(now));
    OneMore(s, steps, Resume(Whole));
    var s3 := Apply(s2, Resume(Whole));
    assert s3.sink == [[a], [b]] + [] == [[a], [b]];
    CanonTwo(a, b);
    PassedOver(s3, a, b, c);
  }

  lemma {:induction false} RunNothing(s: State)
    ensures Possible(s, []) && OrderlyRun(s, []) && Exec(s, []) == s
  {
  }

  lemma {:induction false} PassedOver(s: State, a: Byte, b: Byte, c: Byte)
    requires c != a && c != b
    requires s.booted && !s.stale && s.gens == [] && s.start == 0 && s.cursor == 0 && s.gaps == {}
    requires AtLineStart(s.active, s.offset) && Canon(Lines(s.active, 0, s.offset)) == [[c], [b]]
    requires Canon(s.sink) == [[a], [b]]
    ensures LosesSilently(s)
  {
    hide Canon, Lines, Subseq;
    assert Expected(s) == [] + [[c], [b]];
    assert [c] in Expected(s);
    if Subseq(Expected(s), Canon(s.sink)) {
      ElementsOfSubsequence(Expected(s), Canon(s.sink), [c]);
    }
  }

  lemma {:induction false} OneRecordHash(a: Byte)
    requires a !in {NL, CR}
    ensures HashAt(OneRecord(a), 0, 2, ZERO_DIGEST) == Md5([a])
  {
    LineBeginUnique(OneRecord(a), 0, 2);
    assert OneRecord(a)[0..1] == [a];
  }

  /** A record of a committed generation that was never handed over. */
  lemma {:induction false} NotAmong(s: State, g: nat, b: Byte)
    requires b !in {NL, CR}
    requires s.booted && !s.stale && s.start == 0 && s.cursor == g + 1 == |s.gens| && s.offset == 0 && s.gaps == {}
    requires [b] in Canon(Tokens(s.gens[g].content, 0)) && [b] !in Canon(s.sink)
    ensures LosesSilently(s)
  {
    hide Canon, Lines, Tokens, Subseq;
    NothingYet(s.active);
    assert [b] in FromGens(s.gens, 0, g + 1, {});
    assert [b] in Expected(s);
    if Subseq(Expected(s), Canon(s.sink)) {
      ElementsOfSubsequence(Expected(s), Canon(s.sink), [b]);
    }
  }

  // ---------------------------------------------------------------- overlong records

  /** The checkpoint is in a rotated generation that still has a line over the scanner's limit. */
  predicate Overlong(s: State) {
    && s.booted && s.cursor < |s.gens|
    && !Fits(s.gens[s.cursor].content, SkipTo(s.gens[s.cursor].content, s.offset))
  }

  /** The generation stays in the directory, in whatever form. */
  ghost predicate NotPruned(steps: seq<Step>, j: nat) {
    forall i :: 0 <= i < |steps| ==> steps[i] != Reform(j, Gone)
  }

  predicate Present(s: State) {
    s.cursor < |s.gens| && s.gens[s.cursor].form != Gone
  }

  lemma {:induction false} StaysOverlong(s: State, step: Step)
    requires Overlong(s) && Present(s) && Orderly(s, step) && step != Reform(s.cursor, Gone)
    ensures Overlong(Apply(s, step)) && Present(Apply(s, step)) && Apply(s, step).cursor == s.cursor
  {
    hide Fits, Tokens, Lines, CapAll, CompleteEnd, HashAt, Read, Compact;
  }

  lemma {:induction false} OverlongStops(s: State, steps: seq<Step>)
    requires Overlong(s) && Present(s) && OrderlyRun(s, steps) && NotPruned(steps, s.cursor)
    ensures Overlong(Exec(s, steps)) && Present(Exec(s, steps)) && Exec(s, steps).cursor == s.cursor
  {
    hide Overlong, Apply, Orderly, Present;
    if steps != [] {
      var n := |steps| - 1;
      assert forall i :: 0 <= i < n ==> steps[..n][..i] == steps[..i];
      OverlongStops(s, steps[..n]);
      StaysOverlong(Exec(s, steps[..n]), steps[n]);
    }
  }

  /** Such a line stops the collector, and nothing else does: the checkpoint stays at a generation
      in every orderly run that does not prune it, whatever is appended or rotated, exactly if the
      generation still has a line that does not fit. */
  lemma {:induction false} StopsIffOverlong(s: State)
    requires s.booted && Present(s)
    ensures Overlong(s) <==>
      forall steps :: OrderlyRun(s, steps) && NotPruned(steps, s.cursor) ==> Exec(s, steps).cursor == s.cursor
  {
    hide Exec, OrderlyRun;
    if Overlong(s) {
      forall steps | OrderlyRun(s, steps) && NotPruned(steps, s.cursor) ensures Exec(s, steps).cursor == s.cursor {
        OverlongStops(s, steps);
      }
    } else {
      RunNothing(s);
      OneMore(s, [], Drain(s.cursor));
      assert [] + [Drain(s.cursor)] == [Drain(s.cursor)];
      assert Exec(s, [Drain(s.cursor)]).cursor == s.cursor + 1;
    }
  }

  /** A line of just 1 MiB and its newline. */
  function LongRecord(letter: Byte): Bytes {
    seq(MAX_LINE, _ => letter) + [NL]
  }

  lemma {:induction false} LongRecordDoesNotFit(letter: Byte)
    requires letter != NL
    ensures !Fits(LongRecord(letter), 0)
  {
    NextNLUnique(LongRecord(letter), 0, MAX_LINE);
  }

  /** A node that logs one is in that state after the next rotation. */
  lemma {:induction false} ReachesOverlong(letter: Byte) returns (s: State, steps: seq<Step>)
    requires letter != NL
    ensures Fresh(s) && Possible(s, steps) && OrderlyRun(s, steps)
    ensures Overlong(Exec(s, steps)) && Present(Exec(s, steps))
  {
    hide Exec, OrderlyRun, Possible, Fits, Lines, LongRecord, CapAll, CompleteEnd, HashAt;
    s := Unpolled([]);
    NothingYet([]);
    RunNothing(s);
    OneMore(s, [], Boot("", 0));
    var s1, t1 := Apply(s, Boot("", 0)), [] + [Boot("", 0)];
    OneMore(s, t1, Append(LongRecord(letter)));
    var s2, t2 := Apply(s1, Append(LongRecord(letter))), t1 + [Append(LongRecord(letter))];
    OneMore(s, t2, Rotate("1"));
    steps := t2 + [Rotate("1")];
    assert [] + LongRecord(letter) == LongRecord(letter);
    assert Apply(s2, Rotate("1")).gens == [Generation("1", LongRecord(letter), Plain)];
    LongRecordDoesNotFit(letter);
  }
}

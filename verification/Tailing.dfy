/** The tailing protocol as a state machine: the node's log directory, which is appended to,
    rotated, compressed and pruned, and the atomic steps by which a collector advances its
    checkpoint. Safety is proved over every run. */
module Tailing {
  import opened LogLines
  import opened ActiveRead
  import opened Subsequences

  /** Which files of a generation are in the directory. */
  datatype Form = Plain | Compressing | Compressed | Gone
  datatype Generation = Generation(id: string, content: Bytes, form: Form)

  /** How the server answers a range request for the active file. */
  datatype Answer = Whole | Ranged(start: nat) | Unsatisfiable

  /** `cursor` is the number of generations behind the checkpoint: the file the checkpoint's
      offset refers to is generation `cursor`, or the active file when there is none. `stale`: that
      file was since replaced in place by one that does not begin as it did. */
  datatype State = State(
    gens: seq<Generation>, active: Bytes,
    booted: bool, start: nat, base: nat,
    cursor: nat, lastId: string, offset: nat, hash: Digest,
    sink: seq<Bytes>, gaps: set<nat>, mismatch: bool, stale: bool)

  datatype Step =
    | Append(data: Bytes)
    | Truncate(data: Bytes)       // the active file is replaced in place
    | Rotate(id: string)
    | Reform(i: nat, form: Form)
    | Boot(id: string, at: nat)   // first poll: read the active file whole
    | Drain(j: nat)               // a rotated generation was read to its end and committed
    | Skip(j: nat)                // a generation had vanished: reported as a gap and committed
    | Resume(ans: Answer)         // the active file continues the checkpoint
    | Diverge(ans: Answer)        // it does not
    | Reread                      // the whole active file is processed again
    | Fail(junk: seq<Bytes>)      // a poll fails, having handed over `junk`

  // ---------------------------------------------------------------- effects

  /** bufio.ScanLines drops one carriage return. */
  function DropCR(text: Bytes): Bytes {
    if |text| > 0 && text[|text| - 1] == CR then text[..|text| - 1] else text
  }

  /** Rotated files are read without their carriage returns and empty lines. */
  function Compact(tokens: seq<Bytes>): seq<Bytes> {
    if tokens == [] then []
    else (if DropCR(tokens[0]) == [] then [] else [DropCR(tokens[0])]) + Compact(tokens[1..])
  }

  function SkipTo(content: Bytes, offset: nat): (lo: nat)
    ensures lo <= |content|
  {
    if offset <= |content| then offset else |content|
  }

  /** From `lo` on no line is longer, with its newline if it has one, than a scanner's buffer. */
  predicate Fits(s: Bytes, lo: nat)
    requires lo <= |s|
    decreases |s| - lo
  {
    var p := NextNL(s, lo);
    if p == |s| then |s| - lo <= MAX_LINE else p + 1 - lo <= MAX_LINE && Fits(s, p + 1)
  }

  predicate Short(tokens: seq<Bytes>) {
    forall i :: 0 <= i < |tokens| ==> |tokens[i]| <= MAX_LINE
  }

  function ReadAnswer(s: State, ans: Answer): Outcome
    requires ans.Ranged? ==> ans.start <= |s.active|
  {
    match ans
    case Whole => Read(s.active, 0, s.offset, s.hash)
    case Ranged(start) => Read(s.active, start, s.offset, s.hash)
    case Unsatisfiable => Reset
  }

  predicate Enabled(s: State, step: Step) {
    match step
    case Append(_) => true
    case Truncate(_) => true
    case Rotate(_) => true
    case Reform(i, _) => i < |s.gens|
    case Boot(_, _) => !s.booted
    case Drain(j) => s.booted && j < |s.gens| && Fits(s.gens[j].content, SkipTo(s.gens[j].content, s.offset))
    case Skip(j) => s.booted && j < |s.gens| && s.gens[j].form == Gone
    case Resume(ans) => s.booted && (ans.Ranged? ==> ans.start <= |s.active|) && ReadAnswer(s, ans).Continue?
    case Diverge(ans) => s.booted && (ans.Ranged? ==> ans.start <= |s.active|) && ReadAnswer(s, ans).Reset?
    case Reread => s.booted && s.mismatch
    case Fail(_) => true
  }

  function ReadWhole(s: State): State {
    var end := CompleteEnd(s.active, 0);
    s.(sink := s.sink + CapAll(Lines(s.active, 0, |s.active|)), offset := end,
       hash := HashAt(s.active, 0, end, ZERO_DIGEST), mismatch := false, stale := false)
  }

  /** The new file begins as the old one does up to the offset. */
  predicate Continues(was: Bytes, now: Bytes, offset: nat) {
    offset <= |was| && offset <= |now| && was[..offset] == now[..offset]
  }

  function Commit(s: State, j: nat): State
    requires j < |s.gens|
  {
    s.(cursor := j + 1, lastId := s.gens[j].id, offset := 0, hash := ZERO_DIGEST, stale := false)
  }

  /** The state after a step; a step that is not enabled changes nothing. */
  function Apply(s: State, step: Step): State {
    if !Enabled(s, step) then s else
    match step
    case Append(data) => s.(active := s.active + data)
    case Truncate(data) =>
      s.(active := data, stale := s.stale || (s.booted && s.cursor == |s.gens| && !Continues(s.active, data, s.offset)))
    case Rotate(id) => s.(gens := s.gens + [Generation(id, s.active, Plain)], active := [])
    case Reform(i, form) => s.(gens := s.gens[i := s.gens[i].(form := form)])
    case Boot(id, at) =>
      ReadWhole(s.(booted := true, start := at, base := |s.sink|, cursor := at, lastId := id, gaps := {}))
    case Drain(j) =>
      var content := s.gens[j].content;
      Commit(s.(sink := s.sink + Compact(Tokens(content, SkipTo(content, s.offset)))), j)
    case Skip(j) => Commit(s.(gaps := s.gaps + {j}), j)
    case Resume(ans) =>
      var r := ReadAnswer(s, ans);
      s.(sink := s.sink + r.texts, offset := r.newOffset, hash := r.lastHash, stale := false)
    case Diverge(_) => s.(mismatch := true)
    case Reread => ReadWhole(s)
    case Fail(junk) => s.(sink := s.sink + junk, mismatch := false)
  }

  function Exec(s: State, steps: seq<Step>): State {
    if steps == [] then s else Apply(Exec(s, steps[..|steps| - 1]), steps[|steps| - 1])
  }

  /** Others may change the directory and a poll may fail at any time. */
  lemma {:induction false} AnythingMayHappen(s: State, data: Bytes, id: string, i: nat, form: Form, junk: seq<Bytes>)
    ensures Enabled(s, Append(data)) && Enabled(s, Truncate(data)) && Enabled(s, Rotate(id)) && Enabled(s, Fail(junk))
    ensures i < |s.gens| ==> Enabled(s, Reform(i, form))
  {
  }

  // ---------------------------------------------------------------- premises

  /** The directory behind a node that has not been polled yet. */
  predicate Fresh(s: State) {
    !s.booted && s.sink == [] && !s.mismatch && !s.stale
  }

  /** No rotation fell between listing the directory and reading the active file, and the
      generation behind the checkpoint was still listed. A file that was replaced in place is read
      again before it is rotated, and is not mistaken for the old one by an equal digest. */
  predicate Orderly(s: State, step: Step) {
    match step
    case Rotate(_) => !s.stale
    case Boot(_, at) => at == |s.gens|
    case Drain(j) => j == s.cursor
    case Skip(j) => j == s.cursor
    case Resume(_) => s.cursor == |s.gens| && !s.stale
    case Diverge(_) => s.cursor == |s.gens|
    case Reread => s.cursor == |s.gens|
    case _ => true
  }

  /** The server honours the requested range or ignores it, and refuses only one that begins
      past the end of the file. */
  predicate Honest(s: State, ans: Answer) {
    match ans
    case Whole => true
    case Ranged(start) => start == RangeStart(s.offset)
    case Unsatisfiable => RangeStart(s.offset) >= |s.active| && RangeStart(s.offset) > 0
  }

  ghost predicate ShortRecords(file: Bytes) {
    forall e :: 0 < e <= |file| && file[e - 1] == NL ==> e - LineBegin(file, e) < OVERLAP
  }

  /** That is so if all lines are short. */
  lemma {:induction false} ShortLines(file: Bytes)
    requires forall i :: 0 <= i < |Lines(file, 0, |file|)| ==> |Lines(file, 0, |file|)[i]| + 1 < OVERLAP
    ensures ShortRecords(file)
  {
    hide Lines, NextNL;
    forall e | 0 < e <= |file| && file[e - 1] == NL ensures e - LineBegin(file, e) < OVERLAP {
      var b := LineBegin(file, e);
      NextNLUnique(file, b, e - 1);
      LinesSnoc(file, b, b, e - 1);
      LinesCut(file, 0, b, |file|);
      LinesCut(file, b, e, |file|);
      var lines := Lines(file, 0, |file|);
      assert lines[|Lines(file, 0, b)|] == file[b..e - 1];
    }
  }

  /** Nothing fails, and nothing is pruned too early or replaced in place. */
  ghost predicate Undisturbed(s: State, step: Step) {
    match step
    case Skip(_) => false
    case Truncate(_) => !s.booted
    case Fail(junk) => junk == []
    case Diverge(ans) => Honest(s, ans) && ShortRecords(s.active)
    case _ => true
  }

  ghost predicate OrderlyRun(s: State, steps: seq<Step>) {
    forall i :: 0 <= i < |steps| ==> Orderly(Exec(s, steps[..i]), steps[i])
  }

  ghost predicate UndisturbedRun(s: State, steps: seq<Step>) {
    forall i :: 0 <= i < |steps| ==> Undisturbed(Exec(s, steps[..i]), steps[i])
  }

  // ---------------------------------------------------------------- what should be handed over

  /** The records of the generations from `lo` to `hi`, but for those reported as gaps. */
  function FromGens(gens: seq<Generation>, lo: nat, hi: nat, gaps: set<nat>): seq<Bytes>
    requires hi <= |gens|
  {
    if lo >= hi then []
    else FromGens(gens, lo, hi - 1, gaps) + (if hi - 1 in gaps then [] else Canon(Tokens(gens[hi - 1].content, 0)))
  }

  /** The file the checkpoint's offset refers to. */
  function Current(s: State): Bytes {
    if s.cursor < |s.gens| then s.gens[s.cursor].content else s.active
  }

  predicate InBounds(s: State) {
    s.start <= s.cursor <= |s.gens| && (if s.stale then s.cursor == |s.gens| else AtLineStart(Current(s), s.offset))
  }

  /** What lies behind the checkpoint in the file its offset refers to. */
  function Behind(s: State): seq<Bytes>
    requires InBounds(s)
  {
    if s.stale then [] else Canon(Lines(Current(s), 0, s.offset))
  }

  /** Everything behind the checkpoint, as far as it still exists. */
  function Expected(s: State): seq<Bytes>
    requires InBounds(s)
  {
    FromGens(s.gens, s.start, s.cursor, s.gaps) + Behind(s)
  }

  /** Everything there is: all generations since the first poll, and the complete lines of the
      active file. */
  function Everything(s: State): seq<Bytes>
    requires s.start <= |s.gens|
  {
    FromGens(s.gens, s.start, |s.gens|, {}) + Canon(Lines(s.active, 0, |s.active|))
  }

  // ---------------------------------------------------------------- lemmas on records

  lemma {:induction false} CanonOfCapped(texts: seq<Bytes>)
    ensures Canon(CapAll(texts)) == Canon(texts)
  {
    if texts != [] {
      CanonOfCapped(texts[1..]);
      assert CapAll(texts)[1..] == CapAll(texts[1..]);
    }
  }

  lemma {:induction false} CanonicalDropCR(text: Bytes)
    requires |text| <= MAX_LINE
    ensures Canonical(DropCR(text)) == Canonical(text)
  {
  }

  lemma {:induction false} CanonOfCompact(tokens: seq<Bytes>)
    requires Short(tokens)
    ensures Canon(Compact(tokens)) == Canon(tokens)
  {
    if tokens != [] {
      var t, rest := DropCR(tokens[0]), tokens[1..];
      CanonicalDropCR(tokens[0]);
      CanonOfCompact(rest);
      CanonConcat(if t == [] then [] else [t], Compact(rest));
    }
  }

  lemma {:induction false} FitsShort(s: Bytes, lo: nat)
    requires lo <= |s| && Fits(s, lo)
    ensures Short(Tokens(s, lo))
    decreases |s| - lo
  {
    var p := NextNL(s, lo);
    if p < |s| {
      FitsShort(s, p + 1);
    }
  }

  /** What a drained generation adds, when the offset is at a line boundary of it. */
  lemma {:induction false} DrainedTail(content: Bytes, offset: nat)
    requires AtLineStart(content, offset) && Fits(content, offset)
    ensures Canon(Lines(content, 0, offset)) + Canon(Compact(Tokens(content, offset))) == Canon(Tokens(content, 0))
  {
    TokensCut(content, 0, offset);
    FitsShort(content, offset);
    CanonConcat(Lines(content, 0, offset), Tokens(content, offset));
    CanonOfCompact(Tokens(content, offset));
  }

  /** What a read of the active file adds. */
  lemma {:induction false} ReadTail(file: Bytes, offset: nat)
    requires AtLineStart(file, offset)
    ensures var end := CompleteEnd(file, offset);
      && AtLineStart(file, end)
      && Canon(Lines(file, 0, offset)) + Canon(CapAll(Lines(file, offset, |file|))) == Canon(Lines(file, 0, end))
  {
    var end := CompleteEnd(file, offset);
    LinesPastEnd(file, offset);
    LinesCut(file, 0, offset, end);
    CanonConcat(Lines(file, 0, offset), Lines(file, offset, end));
    CanonOfCapped(Lines(file, offset, |file|));
  }

  lemma {:induction false} FromGensFrame(g: seq<Generation>, g': seq<Generation>, lo: nat, hi: nat, gaps: set<nat>, gaps': set<nat>)
    requires hi <= |g| && hi <= |g'|
    requires forall i :: lo <= i < hi ==> g[i].content == g'[i].content && (i in gaps <==> i in gaps')
    ensures FromGens(g, lo, hi, gaps) == FromGens(g', lo, hi, gaps')
    decreases hi
  {
    hide Canon, Tokens;
    if lo < hi {
      FromGensFrame(g, g', lo, hi - 1, gaps, gaps');
    }
  }

  lemma {:induction false} NothingYet(file: Bytes)
    ensures Canon([]) == []
    ensures Lines(file, 0, 0) == []
  {
  }

  lemma {:induction false} ConcatAssoc<T>(a: seq<T>, b: seq<T>, c: seq<T>)
    ensures (a + b) + c == a + (b + c)
  {
  }

  // ---------------------------------------------------------------- no silent loss

  /** Everything behind the checkpoint was handed over, in order, or lies in a reported gap. */
  ghost predicate NothingLost(s: State) {
    s.booted ==> InBounds(s) && (forall i :: i in s.gaps ==> i < s.cursor) && Subseq(Expected(s), Canon(s.sink))
  }

  lemma {:induction false} WorldStepKeeps(s: State, step: Step)
    requires s.booted && InBounds(s) && Orderly(s, step)
    requires step.Append? || step.Rotate? || step.Reform?
    ensures var s' := Apply(s, step);
      && s'.booted && InBounds(s') && Expected(s') == Expected(s)
  {
    hide Canon, Lines, Tokens, FromGens;
    var s' := Apply(s, step);
    FromGensFrame(s.gens, s'.gens, s.start, s.cursor, s.gaps, s.gaps);
    if step.Append? && !s.stale {
      LinesOfPrefix(Current(s), Current(s'), 0, s.offset);
    }
  }

  lemma {:induction false} TruncateKeeps(s: State, data: Bytes)
    requires s.booted && NothingLost(s)
    ensures NothingLost(Apply(s, Truncate(data)))
  {
    hide Canon, Lines, Tokens, FromGens, Subseq;
    var s' := Apply(s, Truncate(data));
    if s'.stale {
      var before := FromGens(s.gens, s.start, s.cursor, s.gaps);
      Shorten(before, Behind(s), Canon(s.sink));
      assert before + [] == before;
    } else if s.cursor == |s.gens| {
      SameLines(s.active, data, s.offset);
    }
  }

  lemma {:induction false} SameLines(was: Bytes, now: Bytes, offset: nat)
    requires Continues(was, now, offset) && AtLineStart(was, offset)
    ensures Lines(was, 0, offset) == Lines(now, 0, offset) && AtLineStart(now, offset)
  {
    LinesOfPrefix(was[..offset], was, 0, offset);
    LinesOfPrefix(now[..offset], now, 0, offset);
    assert offset > 0 ==> was[..offset][offset - 1] == now[..offset][offset - 1];
  }

  lemma {:induction false} HandOver(before: seq<Bytes>, sink: seq<Bytes>, more: seq<Bytes>)
    requires Subseq(before, Canon(sink))
    ensures Subseq(before + Canon(more), Canon(sink + more))
  {
    CanonConcat(sink, more);
    Both(before, Canon(sink), Canon(more));
  }

  lemma {:induction false} DrainKeeps(s: State, j: nat)
    requires s.booted && NothingLost(s) && Enabled(s, Drain(j)) && j == s.cursor
    ensures NothingLost(Apply(s, Drain(j)))
    ensures Expected(Apply(s, Drain(j))) == Expected(s) + Canon(Compact(Tokens(s.gens[j].content, s.offset)))
  {
    hide Canon, Tokens, Compact, Subseq, NextNL;
    var s', content := Apply(s, Drain(j)), s.gens[j].content;
    var tail := Compact(Tokens(content, s.offset));
    DrainedTail(content, s.offset);
    HandOver(Expected(s), s.sink, tail);
    NothingYet(Current(s'));
    ConcatAssoc(FromGens(s.gens, s.start, j, s.gaps), Canon(Lines(content, 0, s.offset)), Canon(tail));
    assert Expected(s') == FromGens(s.gens, s.start, j + 1, s.gaps);
  }

  lemma {:induction false} SkipKeeps(s: State, j: nat)
    requires s.booted && NothingLost(s) && Enabled(s, Skip(j)) && j == s.cursor
    ensures NothingLost(Apply(s, Skip(j)))
  {
    hide Canon, Tokens, Subseq, NextNL;
    var s' := Apply(s, Skip(j));
    Shorten(FromGens(s.gens, s.start, j, s.gaps), Behind(s), Canon(s.sink));
    FromGensFrame(s.gens, s.gens, s.start, j, s.gaps, s'.gaps);
    NothingYet(Current(s'));
    assert FromGens(s.gens, s.start, j + 1, s'.gaps) == FromGens(s.gens, s.start, j, s'.gaps) + [];
    assert Expected(s') == FromGens(s.gens, s.start, j, s.gaps);
  }

  /** A read that goes on gives what follows the offset, or nothing when the body begins later. */
  lemma {:induction false} AnswerGives(s: State, ans: Answer)
    requires Enabled(s, Resume(ans))
    ensures var r := ReadAnswer(s, ans);
      if ans.Ranged? && ans.start > s.offset then r.texts == [] && r.newOffset == s.offset
      else s.offset <= |s.active| ==> r.texts == CapAll(Lines(s.active, s.offset, |s.active|)) && r.newOffset == CompleteEnd(s.active, s.offset)
  {
    hide Lines, CapAll, CompleteEnd, NextNL, Validates;
  }

  lemma {:induction false} ResumeKeeps(s: State, ans: Answer)
    requires s.booted && NothingLost(s) && Enabled(s, Resume(ans)) && s.cursor == |s.gens| && !s.stale
    ensures NothingLost(Apply(s, Resume(ans)))
    ensures Expected(Apply(s, Resume(ans))) == Expected(s) + Canon(ReadAnswer(s, ans).texts)
  {
    hide Canon, Lines, Tokens, FromGens, Subseq, CapAll, CompleteEnd, NextNL, Read;
    var s', r := Apply(s, Resume(ans)), ReadAnswer(s, ans);
    AnswerGives(s, ans);
    HandOver(Expected(s), s.sink, r.texts);
    NothingYet(s.active);
    if ans.Ranged? && ans.start > s.offset {
      assert s' == s.(sink := s.sink + [], hash := s'.hash);
      assert s.sink + [] == s.sink && Expected(s) + [] == Expected(s);
    } else {
      ReadTail(s.active, s.offset);
      ConcatAssoc(FromGens(s.gens, s.start, s.cursor, s.gaps), Canon(Lines(s.active, 0, s.offset)), Canon(r.texts));
    }
  }

  lemma {:induction false} ReadWholeKeeps(s: State)
    requires s.booted && s.start <= s.cursor == |s.gens| && (forall i :: i in s.gaps ==> i < s.cursor)
    requires Subseq(FromGens(s.gens, s.start, s.cursor, s.gaps), Canon(s.sink))
    ensures NothingLost(ReadWhole(s))
    ensures Expected(ReadWhole(s)) == FromGens(s.gens, s.start, s.cursor, s.gaps) + Canon(CapAll(Lines(s.active, 0, |s.active|)))
  {
    hide Canon, Tokens, FromGens, Subseq, CapAll, CompleteEnd, NextNL;
    var whole := CapAll(Lines(s.active, 0, |s.active|));
    HandOver(FromGens(s.gens, s.start, s.cursor, s.gaps), s.sink, whole);
    ReadTail(s.active, 0);
    NothingYet(s.active);
    assert [] + Canon(whole) == Canon(whole);
  }

  lemma {:induction false} StepKeeps(s: State, step: Step)
    requires NothingLost(s) && Orderly(s, step)
    ensures NothingLost(Apply(s, step))
  {
    hide Canon, Lines, Tokens, CapAll, CompleteEnd, NextNL, Compact;
    if Enabled(s, step) {
      match step
      case Append(_) => if s.booted { WorldStepKeeps(s, step); }
      case Truncate(data) => if s.booted { TruncateKeeps(s, data); }
      case Rotate(_) => if s.booted { WorldStepKeeps(s, step); }
      case Reform(_, _) => if s.booted { WorldStepKeeps(s, step); }
      case Boot(id, at) =>
        assert Subseq<Bytes>([], Canon(s.sink)) && FromGens(s.gens, at, at, {}) == [];
        ReadWholeKeeps(s.(booted := true, start := at, base := |s.sink|, cursor := at, lastId := id, gaps := {}));
      case Drain(j) => DrainKeeps(s, j);
      case Skip(j) => SkipKeeps(s, j);
      case Resume(ans) => ResumeKeeps(s, ans);
      case Diverge(_) =>
        if s.booted { assert Expected(Apply(s, step)) == Expected(s); }
      case Reread =>
        Shorten(FromGens(s.gens, s.start, s.cursor, s.gaps), Behind(s), Canon(s.sink));
        ReadWholeKeeps(s);
      case Fail(junk) =>
        if s.booted {
          assert Expected(Apply(s, step)) == Expected(s);
          CanonConcat(s.sink, junk);
          Extend(Expected(s), Canon(s.sink), Canon(junk));
        }
    }
  }

  /** Over every orderly run, whatever fails and however often: no record behind the checkpoint
      is lost silently. Failures cause only duplicates. */
  lemma {:induction false} NoSilentLoss(s: State, steps: seq<Step>)
    requires Fresh(s) && OrderlyRun(s, steps)
    ensures NothingLost(Exec(s, steps))
  {
    if steps != [] {
      var n := |steps| - 1;
      assert forall i :: 0 <= i < n ==> steps[..n][..i] == steps[..i];
      NoSilentLoss(s, steps[..n]);
      StepKeeps(Exec(s, steps[..n]), steps[n]);
    }
  }

  // ---------------------------------------------------------------- progress

  /** The generation that a step commits, if any. */
  function Commits(s: State, step: Step): set<nat> {
    if !Enabled(s, step) then {}
    else if step.Drain? then {step.j} else if step.Skip? then {step.j} else {}
  }

  lemma {:induction false} CursorKept(s: State, step: Step)
    requires s.booted && Orderly(s, step)
    ensures Apply(s, step).booted && Apply(s, step).cursor >= s.cursor
    ensures forall j :: j in Commits(s, step) ==> s.cursor == j && Apply(s, step).cursor == j + 1
  {
    hide Lines, CapAll, CompleteEnd, Read, Tokens, Compact, HashAt, Fits;
  }

  lemma {:induction false} CursorGrows(s: State, steps: seq<Step>, i: nat)
    requires OrderlyRun(s, steps) && i <= |steps| && Exec(s, steps[..i]).booted
    ensures Exec(s, steps).booted && Exec(s, steps).cursor >= Exec(s, steps[..i]).cursor
    decreases |steps|
  {
    hide Apply, Orderly;
    if i < |steps| {
      var n := |steps| - 1;
      assert forall k :: 0 <= k <= n ==> steps[..n][..k] == steps[..k];
      CursorGrows(s, steps[..n], i);
      CursorKept(Exec(s, steps[..n]), steps[n]);
    } else {
      assert steps[..i] == steps;
    }
  }

  /** Generations are committed in order, and none twice. */
  lemma {:induction false} CommittedOnce(s: State, steps: seq<Step>, i: nat, k: nat, a: nat, b: nat)
    requires OrderlyRun(s, steps) && i < k < |steps|
    requires a in Commits(Exec(s, steps[..i]), steps[i]) && b in Commits(Exec(s, steps[..k]), steps[k])
    ensures a < b
  {
    hide Apply, Orderly;
    CommitsBooted(Exec(s, steps[..i]), steps[i]);
    CommitsBooted(Exec(s, steps[..k]), steps[k]);
    CursorKept(Exec(s, steps[..i]), steps[i]);
    assert steps[..i + 1][..i] == steps[..i];
    assert forall m :: 0 <= m <= k ==> steps[..k][..m] == steps[..m];
    CursorGrows(s, steps[..k], i + 1);
    CursorKept(Exec(s, steps[..k]), steps[k]);
  }

  lemma {:induction false} CommitsBooted(s: State, step: Step)
    requires Commits(s, step) != {}
    ensures s.booted
  {
  }

  // ---------------------------------------------------------------- exactly once

  /** What has been handed over since the first poll is exactly what lies behind the
      checkpoint, and the checkpoint's digest is that of its last line. */
  ghost predicate Exact(s: State) {
    && !s.mismatch && !s.stale
    && (s.booted ==>
      && InBounds(s) && s.gaps == {} && s.base <= |s.sink|
      && Canon(s.sink[s.base..]) == Expected(s)
      && (s.offset > 0 ==> s.hash == Md5(LineBefore(Current(s), s.offset))))
  }

  lemma {:induction false} LineBeforePrefix(s: Bytes, t: Bytes, end: nat)
    requires 0 < end <= |s| && s <= t
    ensures LineBefore(s, end) == LineBefore(t, end)
  {
    var b := LineBegin(s, end);
    LineBeginUnique(t, b, end);
    assert s[b..end - 1] == t[b..end - 1];
  }

  lemma {:induction false} HandedOver(s: State, more: seq<Bytes>)
    requires s.base <= |s.sink|
    ensures Canon((s.sink + more)[s.base..]) == Canon(s.sink[s.base..]) + Canon(more)
  {
    assert (s.sink + more)[s.base..] == s.sink[s.base..] + more;
    CanonConcat(s.sink[s.base..], more);
  }

  lemma {:induction false} WorldStepExact(s: State, step: Step)
    requires s.booted && Exact(s) && Orderly(s, step)
    requires step.Append? || step.Rotate? || step.Reform?
    ensures Exact(Apply(s, step))
  {
    hide Canon, Lines, Tokens, FromGens, LineBegin;
    WorldStepKeeps(s, step);
    if s.offset > 0 && step.Append? {
      LineBeforePrefix(Current(s), Current(Apply(s, step)), s.offset);
    }
  }

  lemma {:induction false} ReadExact(s: State, step: Step)
    requires s.booted && Exact(s) && NothingLost(s) && step.Resume? && Enabled(s, step) && s.cursor == |s.gens|
    ensures Exact(Apply(s, step))
  {
    hide Canon, Lines, Tokens, FromGens, CapAll, CompleteEnd, NextNL, LineBegin;
    var r := ReadAnswer(s, step.ans);
    ResumeKeeps(s, step.ans);
    HandedOver(s, r.texts);
    if !(step.ans.Ranged? && step.ans.start > s.offset) {
      ReadTail(s.active, s.offset);
    }
  }

  /** A file that is only appended to is recognised, however the server answers. */
  lemma {:induction false} NeverDiverges(s: State, ans: Answer)
    requires s.booted && Exact(s) && s.cursor == |s.gens| && Honest(s, ans) && ShortRecords(s.active)
    ensures !Enabled(s, Diverge(ans))
  {
    hide Canon, Lines, Tokens, FromGens, CapAll, CompleteEnd;
    assert Read(s.active, 0, s.offset, s.hash).Continue?;
    if ans.Ranged? {
      OverlapSuffices(s.active, s.offset, s.hash);
    }
  }

  lemma {:induction false} StepExact(s: State, step: Step)
    requires Exact(s) && NothingLost(s) && Orderly(s, step) && Undisturbed(s, step)
    ensures Exact(Apply(s, step))
  {
    hide Canon, Lines, Tokens, CapAll, CompleteEnd, NextNL, Compact, LineBegin;
    if Enabled(s, step) {
      match step
      case Append(_) => if s.booted { WorldStepExact(s, step); }
      case Truncate(_) =>
      case Rotate(_) => if s.booted { WorldStepExact(s, step); }
      case Reform(_, _) => if s.booted { WorldStepExact(s, step); }
      case Boot(id, at) =>
        var begun := s.(booted := true, start := at, base := |s.sink|, cursor := at, lastId := id, gaps := {});
        assert Subseq<Bytes>([], Canon(s.sink)) && FromGens(s.gens, at, at, {}) == [];
        ReadWholeKeeps(begun);
        NothingYet(s.active);
        assert s.sink[|s.sink|..] == [];
        HandedOver(begun, CapAll(Lines(s.active, 0, |s.active|)));
      case Drain(j) =>
        DrainKeeps(s, j);
        HandedOver(s, Compact(Tokens(s.gens[j].content, s.offset)));
      case Resume(ans) => ReadExact(s, step);
      case Diverge(ans) => NeverDiverges(s, ans);
      case Reread =>
      case Skip(_) =>
      case Fail(junk) =>
        assert s.sink + junk == s.sink;
        assert s.booted ==> Expected(Apply(s, step)) == Expected(s);
    }
  }

  /** Over every orderly and undisturbed run, each record is handed over exactly once, in order. */
  lemma {:induction false} ExactlyOnce(s: State, steps: seq<Step>)
    requires Fresh(s) && OrderlyRun(s, steps) && UndisturbedRun(s, steps)
    ensures Exact(Exec(s, steps))
  {
    if steps != [] {
      var n := |steps| - 1;
      assert forall i :: 0 <= i < n ==> steps[..n][..i] == steps[..i];
      NoSilentLoss(s, steps[..n]);
      ExactlyOnce(s, steps[..n]);
      StepExact(Exec(s, steps[..n]), steps[n]);
    }
  }

  /** A successful poll leaves nothing behind: what was handed over is then every generation
      since the first poll followed by the complete lines of the active file. */
  lemma {:induction false} CaughtUp(s: State, steps: seq<Step>)
    requires Fresh(s) && OrderlyRun(s, steps) && UndisturbedRun(s, steps) && steps != []
    requires var last, before := steps[|steps| - 1], Exec(s, steps[..|steps| - 1]);
      Enabled(before, last) && (last.Boot? || (last.Resume? && Honest(before, last.ans)))
    ensures var e := Exec(s, steps);
      e.booted && e.start <= |e.gens| && e.base <= |e.sink| && Canon(e.sink[e.base..]) == Everything(e)
  {
    hide Canon, Lines, Tokens, FromGens, CapAll, CompleteEnd, NextNL, LineBegin, Apply, Enabled, Orderly, Undisturbed, Honest;
    var n := |steps| - 1;
    ExactlyOnce(s, steps);
    assert forall i :: 0 <= i < n ==> steps[..n][..i] == steps[..i];
    ExactlyOnce(s, steps[..n]);
    ReadsAll(Exec(s, steps[..n]), steps[n]);
  }

  /** A read of the active file leaves no complete line of it unread. */
  lemma {:induction false} ReadsAll(s: State, step: Step)
    requires Exact(s) && Enabled(s, step) && Orderly(s, step)
    requires step.Boot? || (step.Resume? && Honest(s, step.ans))
    ensures var e := Apply(s, step);
      e.booted && e.cursor == |e.gens| && e.offset <= |e.active| && Lines(e.active, 0, e.offset) == Lines(e.active, 0, |e.active|)
  {
    hide Canon, Lines, Tokens, FromGens, CapAll, CompleteEnd, NextNL, LineBegin;
    if step.Boot? {
      LinesPastEnd(s.active, 0);
    } else {
      var end := Apply(s, step).offset;
      LinesPastEnd(s.active, s.offset);
      LinesCut(s.active, 0, s.offset, end);
      LinesCut(s.active, 0, s.offset, |s.active|);
    }
  }

  /** The last step was a read of the active file. */
  ghost predicate EndsWithRead(s: State, steps: seq<Step>, honest: bool) {
    && steps != []
    && var step, before := steps[|steps| - 1], Exec(s, steps[..|steps| - 1]);
       Enabled(before, step) && (step.Boot? || step.Reread? || (step.Resume? && (honest ==> Honest(before, step.ans))))
  }

  /** All that has been handed over since the first poll is all there is, each record once. */
  ghost predicate AllDelivered(s: State) {
    s.booted && s.start <= |s.gens| && s.base <= |s.sink| && Canon(s.sink[s.base..]) == Everything(s)
  }

  /** What a run that ends with a successful poll has achieved. */
  lemma {:induction false} Accounted(s: State, steps: seq<Step>, succeeded: bool)
    requires Fresh(s) && (succeeded ==> EndsWithRead(s, steps, true))
    ensures OrderlyRun(s, steps) ==> NothingLost(Exec(s, steps))
    ensures succeeded && OrderlyRun(s, steps) && UndisturbedRun(s, steps) ==> AllDelivered(Exec(s, steps))
  {
    hide Canon, Everything, Apply, Orderly, Undisturbed;
    if OrderlyRun(s, steps) {
      NoSilentLoss(s, steps);
      if succeeded && UndisturbedRun(s, steps) {
        var n := |steps| - 1;
        assert forall i :: 0 <= i < n ==> steps[..n][..i] == steps[..i];
        ExactlyOnce(s, steps[..n]);
        CaughtUp(s, steps);
      }
    }
  }

  // ---------------------------------------------------------------- ordinary logs

  /** All lines of these generations, a last one without its newline included. */
  function LinesOfGens(gens: seq<Generation>, lo: nat, hi: nat): seq<Bytes>
    requires hi <= |gens|
  {
    if lo >= hi then [] else LinesOfGens(gens, lo, hi - 1) + Tokens(gens[hi - 1].content, 0)
  }

  /** No line is empty, over the cap or ends in a carriage return. */
  ghost predicate OrdinaryLogs(s: State)
    requires s.start <= |s.gens|
  {
    && (forall i :: s.start <= i < |s.gens| ==> AllPlain(Tokens(s.gens[i].content, 0)))
    && AllPlain(Lines(s.active, 0, |s.active|))
  }

  lemma {:induction false} LinesOfGensPlain(gens: seq<Generation>, lo: nat, hi: nat)
    requires hi <= |gens| && forall i :: lo <= i < hi ==> AllPlain(Tokens(gens[i].content, 0))
    ensures FromGens(gens, lo, hi, {}) == LinesOfGens(gens, lo, hi)
    decreases hi
  {
    hide Canon, Tokens, AllPlain;
    if lo < hi {
      LinesOfGensPlain(gens, lo, hi - 1);
      CanonPlain(Tokens(gens[hi - 1].content, 0));
    }
  }

  /** Of ordinary logs, everything is all their lines as they are. */
  lemma {:induction false} EverythingIsAllLines(s: State)
    requires s.start <= |s.gens| && OrdinaryLogs(s)
    ensures Everything(s) == LinesOfGens(s.gens, s.start, |s.gens|) + Lines(s.active, 0, |s.active|)
  {
    hide Canon, Tokens, Lines, AllPlain;
    LinesOfGensPlain(s.gens, s.start, |s.gens|);
    CanonPlain(Lines(s.active, 0, |s.active|));
  }
}

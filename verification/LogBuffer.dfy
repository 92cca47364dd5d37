/** The buffered log syncer as a value: what every write, flush and change of client does to the
    buffer, the stream and the count of lost entries. */
module LogModel {
  import opened Subsequences

  type Entry = string

  /** `lost` entries are still to be reported and `reported` ones have been; `dropped` are all of
      them. `broken`: a Send has failed since the client was last changed. */
  datatype State = State(
    capacity: nat, buffer: seq<Entry>, connected: bool, lost: nat,
    written: seq<Entry>, sent: seq<Entry>, dropped: seq<Entry>, reported: nat, broken: bool)

  /** What the connection and the stream answer during one operation: readiness as a write and as
      a flush see it, whether the loss report can be encoded and sent, how many buffered entries
      can be sent, and whether the written entry can. */
  datatype Answers = Answers(ready: bool, readyToFlush: bool, encodes: bool, reportSent: bool, flushed: nat, entrySent: bool)

  datatype Op =
    | Write(entry: Entry, a: Answers)
    | Flush(a: Answers)
    | UpdateClient(connected: bool, a: Answers)

  function Start(capacity: nat): State {
    State(capacity, [], false, 0, [], [], [], 0, false)
  }

  function Min(a: nat, b: nat): nat {
    if a < b then a else b
  }

  function Report(s: State): State {
    s.(lost := 0, reported := s.reported + s.lost)
  }

  function SendFront(s: State, n: nat): State
    requires n <= |s.buffer|
  {
    s.(sent := s.sent + s.buffer[..n], buffer := s.buffer[n..], broken := s.broken || n < |s.buffer|)
  }

  function DoFlush(s: State, a: Answers): State {
    if s.buffer == [] || !s.connected || !a.readyToFlush then s
    else if s.lost > 0 && a.encodes && !a.reportSent then s.(broken := true)
    else SendFront(if s.lost > 0 && a.encodes then Report(s) else s, Min(a.flushed, |s.buffer|))
  }

  function Keep(s: State, entry: Entry): State {
    if |s.buffer| < s.capacity then s.(buffer := s.buffer + [entry])
    else s.(lost := s.lost + 1, dropped := s.dropped + [entry])
  }

  function DoWrite(s: State, entry: Entry, a: Answers): State {
    var s0 := s.(written := s.written + [entry]);
    if !s.connected || !a.ready then Keep(s0, entry)
    else
      var s1 := DoFlush(s0, a);
      if a.entrySent then s1.(sent := s1.sent + [entry]) else Keep(s1.(broken := true), entry)
  }

  function Step(s: State, op: Op): State {
    match op
    case Write(entry, a) => DoWrite(s, entry, a)
    case Flush(a) => DoFlush(s, a)
    case UpdateClient(connected, a) => DoFlush(s.(connected := connected, broken := false), a)
  }

  function Run(s: State, ops: seq<Op>): State {
    if ops == [] then s else Step(Run(s, ops[..|ops| - 1]), ops[|ops| - 1])
  }

  // ---------------------------------------------------------------- conservation

  /** Every entry written was sent, is buffered or was dropped, each once; the dropped ones are
      counted; the buffer respects its capacity. */
  ghost predicate Conserved(s: State) {
    && multiset(s.written) == multiset(s.sent) + multiset(s.buffer) + multiset(s.dropped)
    && |s.dropped| == s.lost + s.reported
    && |s.buffer| <= s.capacity
  }

  lemma {:induction false} SendFrontConserves(s: State, n: nat)
    requires Conserved(s) && n <= |s.buffer|
    ensures Conserved(SendFront(s, n)) && SendFront(s, n).capacity == s.capacity
  {
    var x, y := s.buffer[..n], s.buffer[n..];
    assert s.buffer == x + y;
    assert multiset(s.sent + x) == multiset(s.sent) + multiset(x);
  }

  lemma {:induction false} ReportConserves(s: State)
    requires Conserved(s)
    ensures Conserved(Report(s)) && Report(s).capacity == s.capacity && Report(s).buffer == s.buffer
  {
  }

  lemma {:induction false} FlushConserves(s: State, a: Answers)
    requires Conserved(s)
    ensures Conserved(DoFlush(s, a)) && DoFlush(s, a).capacity == s.capacity
  {
    hide Conserved, SendFront, Report;
    var s1 := if s.lost > 0 && a.encodes then Report(s) else s;
    ReportConserves(s);
    SendFrontConserves(s1, Min(a.flushed, |s1.buffer|));
    BrokenConserves(s, true);
  }

  lemma {:induction false} BrokenConserves(s: State, broken: bool)
    requires Conserved(s)
    ensures Conserved(s.(broken := broken))
  {
  }

  /** `Conserved` but for one entry that has been written and not yet placed. */
  ghost predicate Owes(s: State, entry: Entry) {
    s.written != [] && s.written[|s.written| - 1] == entry && Conserved(s.(written := s.written[..|s.written| - 1]))
  }

  lemma {:induction false} KeepPays(s: State, entry: Entry)
    requires Owes(s, entry)
    ensures Conserved(Keep(s, entry))
  {
    assert s.written == s.written[..|s.written| - 1] + [entry];
    Added(s.written[..|s.written| - 1], entry);
    Added(s.buffer, entry);
    Added(s.dropped, entry);
  }

  lemma {:induction false} SendPays(s: State, entry: Entry)
    requires Owes(s, entry)
    ensures Conserved(s.(sent := s.sent + [entry]))
  {
    assert s.written == s.written[..|s.written| - 1] + [entry];
    Added(s.written[..|s.written| - 1], entry);
    Added(s.sent, entry);
  }

  lemma {:induction false} Added<T>(xs: seq<T>, x: T)
    ensures multiset(xs + [x]) == multiset(xs) + multiset{x}
  {
  }

  /** Flushing does not look at what has been written. */
  lemma {:induction false} FlushWritten(s: State, a: Answers, written: seq<Entry>)
    ensures DoFlush(s.(written := written), a) == DoFlush(s, a).(written := written)
    ensures DoFlush(s, a).written == s.written
  {
  }

  lemma {:induction false} WriteConserves(s: State, entry: Entry, a: Answers)
    requires Conserved(s)
    ensures Conserved(DoWrite(s, entry, a)) && DoWrite(s, entry, a).capacity == s.capacity
  {
    hide Conserved, DoFlush;
    var written := s.written + [entry];
    assert written[..|s.written|] == s.written;
    if !s.connected || !a.ready {
      assert s.(written := written).(written := s.written) == s;
      KeepPays(s.(written := written), entry);
    } else {
      FlushConserves(s, a);
      FlushWritten(s, a, written);
      var s1 := DoFlush(s, a).(written := written);
      assert s1.(written := s.written) == DoFlush(s, a);
      BrokenConserves(DoFlush(s, a), true);
      assert s1.(broken := true).(written := s.written) == DoFlush(s, a).(broken := true);
      SendPays(s1, entry);
      KeepPays(s1.(broken := true), entry);
    }
  }

  /** Conservation and bounded memory over every run, whatever the stream does. */
  lemma {:induction false} RunConserves(capacity: nat, ops: seq<Op>)
    ensures Conserved(Run(Start(capacity), ops)) && Run(Start(capacity), ops).capacity == capacity
  {
    hide DoFlush, DoWrite, Conserved;
    StartConserves(capacity);
    if ops != [] {
      var s, op := Run(Start(capacity), ops[..|ops| - 1]), ops[|ops| - 1];
      RunConserves(capacity, ops[..|ops| - 1]);
      match op
      case Write(entry, a) => WriteConserves(s, entry, a);
      case Flush(a) => FlushConserves(s, a);
      case UpdateClient(connected, a) =>
        ClientConserves(s, connected);
        FlushConserves(s.(connected := connected, broken := false), a);
    }
  }

  lemma {:induction false} StartConserves(capacity: nat)
    ensures Conserved(Start(capacity))
  {
  }

  lemma {:induction false} ClientConserves(s: State, connected: bool)
    requires Conserved(s)
    ensures Conserved(s.(connected := connected, broken := false))
  {
  }

  // ---------------------------------------------------------------- order

  predicate InOrder(s: State) {
    Subseq(s.sent + s.buffer, s.written)
  }

  lemma {:induction false} FlushInOrder(s: State, a: Answers)
    ensures DoFlush(s, a).sent + DoFlush(s, a).buffer == s.sent + s.buffer
    ensures DoFlush(s, a).written == s.written
  {
    var n := Min(a.flushed, |s.buffer|);
    assert s.buffer == s.buffer[..n] + s.buffer[n..];
  }

  lemma {:induction false} KeepInOrder(s: State, entry: Entry, written: seq<Entry>)
    requires Subseq(s.sent + s.buffer, written) && s.written == written + [entry]
    ensures InOrder(Keep(s, entry))
  {
    hide Subseq;
    Both(s.sent + s.buffer, written, [entry]);
    Extend(s.sent + s.buffer, written, [entry]);
    assert s.sent + s.buffer + [entry] == s.sent + (s.buffer + [entry]);
  }

  /** A written entry is sent though the flush before it left others in the buffer. */
  predicate Overtakes(s: State, op: Op) {
    op.Write? && s.connected && op.a.ready && op.a.entrySent && DoFlush(s, op.a).buffer != []
  }

  ghost predicate NeverOvertakes(s: State, ops: seq<Op>) {
    forall i :: 0 <= i < |ops| ==> !Overtakes(Run(s, ops[..i]), ops[i])
  }

  lemma {:induction false} WriteInOrder(s: State, entry: Entry, a: Answers)
    requires InOrder(s) && !Overtakes(s, Write(entry, a))
    ensures InOrder(DoWrite(s, entry, a))
  {
    hide DoFlush, Subseq, Keep;
    var written := s.written + [entry];
    if !s.connected || !a.ready {
      KeepInOrder(s.(written := written), entry, s.written);
    } else {
      FlushInOrder(s, a);
      FlushWritten(s, a, written);
      var s1 := DoFlush(s, a).(written := written);
      if a.entrySent {
        assert s1.sent + s1.buffer == s1.sent;
        assert (s1.sent + [entry]) + s1.buffer == s1.sent + [entry];
        Both(s1.sent, s.written, [entry]);
      } else {
        KeepInOrder(s1.(broken := true), entry, s.written);
      }
    }
  }

  lemma {:induction false} StartInOrder(capacity: nat)
    ensures InOrder(Start(capacity))
  {
    var none: seq<Entry> := [];
    assert none + none == none;
  }

  lemma {:induction false} NotOvertaking(capacity: nat, ops: seq<Op>)
    requires NeverOvertakes(Start(capacity), ops)
    ensures InOrder(Run(Start(capacity), ops))
  {
    hide DoFlush, DoWrite, Subseq, Overtakes;
    StartInOrder(capacity);
    if ops != [] {
      var n := |ops| - 1;
      var s, op := Run(Start(capacity), ops[..n]), ops[n];
      assert forall i :: 0 <= i < n ==> ops[..n][..i] == ops[..i];
      NotOvertaking(capacity, ops[..n]);
      match op
      case Write(entry, a) => WriteInOrder(s, entry, a);
      case Flush(a) => FlushInOrder(s, a);
      case UpdateClient(connected, a) => FlushInOrder(s.(connected := connected, broken := false), a);
    }
  }

  /** What was sent, followed by what is buffered. */
  function Line(s: State): seq<Entry> {
    s.sent + s.buffer
  }

  /** One entry comes before another that was written earlier. */
  ghost predicate Inverts(line: seq<Entry>, written: seq<Entry>, i: nat, j: nat, p: nat, q: nat) {
    i < j < |line| && p < q < |written| && line[i] == written[q] && line[j] == written[p]
  }

  ghost predicate Inverted(line: seq<Entry>, written: seq<Entry>) {
    exists i: nat, j: nat, p: nat, q: nat :: Inverts(line, written, i, j, p, q)
  }

  /** Entries that come later, or in between, leave a pair as it is. */
  lemma {:induction false} StaysInverted(line: seq<Entry>, written: seq<Entry>, n: nat, more: seq<Entry>, last: seq<Entry>)
    requires n <= |line| && Inverted(line, written)
    ensures Inverted(line[..n] + more + line[n..], written + last)
  {
    var i: nat, j: nat, p: nat, q: nat :| Inverts(line, written, i, j, p, q);
    var line' := line[..n] + more + line[n..];
    var i', j' := if i < n then i else i + |more|, if j < n then j else j + |more|;
    assert Inverts(line', written + last, i', j', p, q);
  }

  lemma {:induction false} StepStaysInverted(s: State, op: Op)
    requires Inverted(Line(s), s.written)
    ensures Inverted(Line(Step(s, op)), Step(s, op).written)
  {
    hide DoFlush, Inverted;
    match op
    case Write(entry, a) =>
      var n, more := WriteLine(s, entry, a);
      StaysInverted(Line(s), s.written, n, more, [entry]);
    case Flush(a) => FlushInOrder(s, a);
    case UpdateClient(connected, a) => FlushInOrder(s.(connected := connected, broken := false), a);
  }

  /** A write adds its entry somewhere in the line, or not at all. */
  lemma {:induction false} WriteLine(s: State, entry: Entry, a: Answers) returns (n: nat, more: seq<Entry>)
    ensures n <= |Line(s)| && DoWrite(s, entry, a).written == s.written + [entry]
    ensures Line(DoWrite(s, entry, a)) == Line(s)[..n] + more + Line(s)[n..]
  {
    hide DoFlush, Keep;
    var line, s0 := Line(s), s.(written := s.written + [entry]);
    FlushInOrder(s0, a);
    n := |line|;
    if !s.connected || !a.ready {
      more := KeepLine(s0, entry);
    } else if a.entrySent {
      n, more := |DoFlush(s0, a).sent|, [entry];
      assert line[..n] == DoFlush(s0, a).sent && line[n..] == DoFlush(s0, a).buffer;
    } else {
      more := KeepLine(DoFlush(s0, a).(broken := true), entry);
    }
    assert line[..|line|] + more + line[|line|..] == line + more;
  }

  lemma {:induction false} KeepLine(s: State, entry: Entry) returns (more: seq<Entry>)
    ensures Line(Keep(s, entry)) == Line(s) + more && Keep(s, entry).written == s.written
  {
    more := if |s.buffer| < s.capacity then [entry] else [];
    assert s.sent + (s.buffer + [entry]) == s.sent + s.buffer + [entry];
    assert Line(s) + [] == Line(s);
  }

  /** Overtaking inverts a pair: the entry and one that stays behind in the buffer. */
  lemma {:induction false} OvertakingInverts(s: State, op: Op)
    requires Conserved(s) && Overtakes(s, op)
    ensures Inverted(Line(Step(s, op)), Step(s, op).written)
  {
    hide Conserved, DoFlush;
    var written, s1 := s.written + [op.entry], DoFlush(s, op.a);
    FlushConserves(s, op.a);
    FlushWritten(s, op.a, written);
    var p := WasWritten(s1, s1.buffer[0]);
    assert Line(Step(s, op)) == s1.sent + [op.entry] + s1.buffer;
    assert Inverts(Line(Step(s, op)), written, |s1.sent|, |s1.sent| + 1, p, |s.written|);
  }

  lemma {:induction false} WasWritten(s: State, x: Entry) returns (p: nat)
    requires Conserved(s) && x in s.buffer
    ensures p < |s.written| && s.written[p] == x
  {
    assert x in multiset(s.buffer);
    assert x in multiset(s.written);
    p :| p < |s.written| && s.written[p] == x;
  }

  lemma {:induction false} OvertookOnce(capacity: nat, ops: seq<Op>, i: nat)
    requires i < |ops| && Overtakes(Run(Start(capacity), ops[..i]), ops[i])
    ensures Inverted(Line(Run(Start(capacity), ops)), Run(Start(capacity), ops).written)
  {
    hide Conserved, Overtakes, Step, Inverted;
    var n := |ops| - 1;
    RunConserves(capacity, ops[..n]);
    if i == n {
      OvertakingInverts(Run(Start(capacity), ops[..n]), ops[n]);
    } else {
      assert ops[..n][..i] == ops[..i];
      OvertookOnce(capacity, ops[..n], i);
      StepStaysInverted(Run(Start(capacity), ops[..n]), ops[n]);
    }
  }

  predicate Distinct(entries: seq<Entry>) {
    forall i, j :: 0 <= i < j < |entries| ==> entries[i] != entries[j]
  }

  lemma {:induction false} InvertedIsNotInOrder(s: State)
    requires Distinct(s.written) && Inverted(Line(s), s.written)
    ensures !InOrder(s)
  {
    var i: nat, j: nat, p: nat, q: nat :| Inverts(Line(s), s.written, i, j, p, q);
    if InOrder(s) {
      var p', q' := SubseqOrder(Line(s), s.written, i, j);
    }
  }

  /** Entries leave in the order in which they were written, with those still buffered after all
      that have left, exactly if no entry was sent past a buffer that its flush did not empty. */
  lemma {:induction false} OrderIsExact(capacity: nat, ops: seq<Op>)
    requires Distinct(Run(Start(capacity), ops).written)
    ensures InOrder(Run(Start(capacity), ops)) <==> NeverOvertakes(Start(capacity), ops)
  {
    hide Run, Overtakes, Distinct, InOrder;
    if NeverOvertakes(Start(capacity), ops) {
      NotOvertaking(capacity, ops);
    } else {
      var i :| 0 <= i < |ops| && Overtakes(Run(Start(capacity), ops[..i]), ops[i]);
      OvertookOnce(capacity, ops, i);
      InvertedIsNotInOrder(Run(Start(capacity), ops));
    }
  }

  /** On a broken stream no Send succeeds. */
  predicate Sticky(s: State, op: Op) {
    match op
    case Write(entry, a) =>
      && (s.broken ==> !a.reportSent && a.flushed == 0)
      && (DoFlush(s, a).broken ==> !a.entrySent)
    case Flush(a) => s.broken ==> !a.reportSent && a.flushed == 0
    case UpdateClient(_, _) => true
  }

  /** A connection that is ready for a write is still ready for the flush inside it. */
  predicate Stable(op: Op) {
    op.Write? && op.a.ready ==> op.a.readyToFlush
  }

  predicate AlwaysSticky(s: State, ops: seq<Op>) {
    ops == [] ||
    (AlwaysSticky(s, ops[..|ops| - 1]) && Sticky(Run(s, ops[..|ops| - 1]), ops[|ops| - 1]))
  }

  lemma {:induction false} StickyNeverOvertakes(s: State, op: Op)
    requires Sticky(s, op) && Stable(op)
    ensures !Overtakes(s, op)
  {
  }

  lemma {:induction false} StickyAt(s: State, ops: seq<Op>, i: nat)
    requires AlwaysSticky(s, ops) && i < |ops|
    ensures Sticky(Run(s, ops[..i]), ops[i])
  {
    hide Sticky, Run;
    var n := |ops| - 1;
    if i < n {
      StickyAt(s, ops[..n], i);
      assert ops[..n][..i] == ops[..i];
    }
  }

  /** That is so, whatever is written, while a stream that has failed stays failed until the client
      is changed and the connection does not stop being ready within a write. */
  lemma {:induction false} RunInOrder(capacity: nat, ops: seq<Op>)
    requires AlwaysSticky(Start(capacity), ops) && forall i :: 0 <= i < |ops| ==> Stable(ops[i])
    ensures NeverOvertakes(Start(capacity), ops) && InOrder(Run(Start(capacity), ops))
  {
    hide Run, Overtakes, InOrder, Sticky, Stable, AlwaysSticky;
    forall i | 0 <= i < |ops| ensures !Overtakes(Run(Start(capacity), ops[..i]), ops[i]) {
      StickyAt(Start(capacity), ops, i);
      StickyNeverOvertakes(Run(Start(capacity), ops[..i]), ops[i]);
    }
    NotOvertaking(capacity, ops);
  }

  /** Without a sticky failure an entry overtakes one whose Send failed before it. */
  lemma {:induction false} OvertakesAfterFailure(x: Entry, y: Entry) returns (ops: seq<Op>)
    requires x != y
    ensures |ops| == 3 && (forall i :: 0 <= i < |ops| ==> Stable(ops[i]))
    ensures Run(Start(2), ops).written == [x, y] && Run(Start(2), ops).sent == [y] && Run(Start(2), ops).buffer == [x]
    ensures !InOrder(Run(Start(2), ops))
  {
    var fails := Answers(true, true, true, false, 0, false);
    var recovers := fails.(entrySent := true);
    ops := [UpdateClient(true, fails), Write(x, fails), Write(y, recovers)];
    Overtaken(x, y, ops);
  }

  lemma {:induction false} Overtaken(x: Entry, y: Entry, ops: seq<Op>)
    requires x != y && |ops| == 3
    requires ops[0].UpdateClient? && ops[0].connected
    requires ops[1].Write? && ops[1].entry == x && !ops[1].a.entrySent
    requires ops[2].Write? && ops[2].entry == y && ops[2].a.ready && ops[2].a.entrySent
    requires !ops[2].a.readyToFlush || ops[2].a.flushed == 0
    ensures Run(Start(2), ops).written == [x, y] && Run(Start(2), ops).sent == [y] && Run(Start(2), ops).buffer == [x]
    ensures !InOrder(Run(Start(2), ops))
  {
    RunSnoc(Start(2), ops, 0);
    RunSnoc(Start(2), ops, 1);
    RunSnoc(Start(2), ops, 2);
    assert ops[..3] == ops && ops[..0] == [];
    NotReversed(x, y);
  }

  lemma {:induction false} RunSnoc(s: State, ops: seq<Op>, i: nat)
    requires i < |ops|
    ensures Run(s, ops[..i + 1]) == Step(Run(s, ops[..i]), ops[i])
  {
    assert ops[..i + 1][..i] == ops[..i];
  }

  lemma {:induction false} NotReversed(x: Entry, y: Entry)
    requires x != y
    ensures !Subseq([y] + [x], [x, y])
  {
    var a, b := [y] + [x], [x, y];
    assert b[..1] == [x] && a[..1] == [y] && b[..1][..0] == [];
    assert !Subseq(a, b[..1][..0]) && !Subseq(a[..1], b[..1][..0]);
    assert !Subseq(a, b[..1]);
  }

  /** Nor is the order kept when the connection stops being ready between a write and its flush,
      even if every failure is sticky. */
  lemma {:induction false} OvertakesUnstable(x: Entry, y: Entry) returns (ops: seq<Op>)
    requires x != y
    ensures AlwaysSticky(Start(2), ops)
    ensures Run(Start(2), ops).written == [x, y] && Run(Start(2), ops).sent == [y] && Run(Start(2), ops).buffer == [x]
    ensures !InOrder(Run(Start(2), ops))
  {
    var idle := Answers(false, false, true, false, 0, false);
    var flickers := Answers(true, false, true, true, 0, true);
    ops := [UpdateClient(true, idle), Write(x, idle), Write(y, flickers)];
    Overtaken(x, y, ops);
    RunSnoc(Start(2), ops, 0);
    RunSnoc(Start(2), ops, 1);
    assert ops[..3] == ops && ops[..3][..2] == ops[..2] && ops[..2][..1] == ops[..1] && ops[..1][..0] == [];
    assert AlwaysSticky(Start(2), ops[..1]);
    assert AlwaysSticky(Start(2), ops[..2]);
    assert AlwaysSticky(Start(2), ops[..3]);
  }

  // ---------------------------------------------------------------- loss reports

  predicate Encodes(ops: seq<Op>) {
    forall i :: 0 <= i < |ops| ==> ops[i].a.encodes
  }

  /** While reports can be encoded, a loss is reported before any buffered entry leaves, so one
      that is pending always has a full buffer behind it to trigger the report. */
  lemma {:induction false} LossesWaitForReport(capacity: nat, ops: seq<Op>)
    requires Encodes(ops)
    ensures var s := Run(Start(capacity), ops); s.lost > 0 ==> |s.buffer| == capacity
  {
    if ops != [] {
      LossesWaitForReport(capacity, ops[..|ops| - 1]);
      RunConserves(capacity, ops[..|ops| - 1]);
      RunConserves(capacity, ops);
    }
  }

  /** The connection is ready and the stream takes whatever there is, and a report if it can be
      encoded. */
  predicate Healthy(s: State, a: Answers) {
    s.connected && a.ready && a.readyToFlush && (a.encodes ==> a.reportSent) && a.flushed >= |s.buffer| && a.entrySent
  }

  /** A flush over a healthy stream leaves nothing behind; only a report that cannot be encoded
      stays pending. */
  lemma {:induction false} HealthyFlush(s: State, a: Answers)
    requires Healthy(s, a) && s.buffer != []
    ensures var t := DoFlush(s, a);
      && t.buffer == [] && t.sent == s.sent + s.buffer && t.written == s.written
      && t.lost == (if a.encodes then 0 else s.lost) && t.reported == s.reported + (if a.encodes then s.lost else 0)
  {
    assert s.buffer[..|s.buffer|] == s.buffer;
  }

  /** A write over it sends the entry behind all that was buffered. */
  lemma {:induction false} HealthyWrite(s: State, entry: Entry, a: Answers)
    requires Healthy(s, a)
    ensures var t := DoWrite(s, entry, a);
      t.buffer == [] && t.sent == s.sent + s.buffer + [entry] && t.written == s.written + [entry] && t.dropped == s.dropped
  {
    if s.buffer != [] {
      assert s.buffer[..|s.buffer|] == s.buffer;
    } else {
      assert s.sent + s.buffer == s.sent;
    }
  }

  /** A new client at once gets all that was buffered while there was none. */
  lemma {:induction false} Reconnects(s: State, a: Answers)
    requires Healthy(s.(connected := true), a)
    ensures var t := Step(s, UpdateClient(true, a));
      t.connected && t.buffer == [] && t.sent == s.sent + s.buffer
  {
    if s.buffer != [] {
      HealthyFlush(s.(connected := true, broken := false), a);
    } else {
      assert s.sent + s.buffer == s.sent;
    }
  }

  /** Without a connection an entry waits, as long as there is room. */
  lemma {:induction false} Waits(s: State, entry: Entry, a: Answers)
    requires !s.connected || !a.ready
    ensures var t := DoWrite(s, entry, a);
      && t.sent == s.sent
      && (|s.buffer| < s.capacity ==> t.buffer == s.buffer + [entry] && t.lost == s.lost)
      && (|s.buffer| >= s.capacity ==> t.buffer == s.buffer && t.lost == s.lost + 1)
  {
  }
}

/** The syncer itself: a buffer of fixed capacity that is shifted in place. */
module LogSyncer {
  import opened LogModel

  class BufferedSyncer {
    const data: array<Entry>
    var len: nat
    var connected: bool
    var lost: nat
    /** What the server has received. */
    var received: seq<Entry>
    ghost var s: State

    ghost predicate Tracks()
      reads this, data
    {
      && len <= data.Length == s.capacity
      && data[..len] == s.buffer
      && connected == s.connected && lost == s.lost && received == s.sent
    }

    constructor (capacity: nat)
      ensures fresh(data) && Tracks() && s == Start(capacity)
    {
      data := new Entry[capacity](_ => "");
      len, connected, lost, received := 0, false, 0, [];
      s := Start(capacity);
    }

    /** Moves the entries from `n` on to the front. */
    method ShiftDown(n: nat)
      requires n <= len <= data.Length
      modifies this`len, data
      ensures len == old(len) - n
      ensures data[..len] == old(data[n..len])
    {
      var i := 0;
      while i < len - n
        modifies data
        invariant 0 <= i <= len - n
        invariant forall j :: 0 <= j < i ==> data[j] == old(data[j + n])
        invariant forall j :: i <= j < data.Length ==> data[j] == old(data[j])
      {
        data[i] := data[i + n];
        i := i + 1;
      }
      len := len - n;
    }

    /** Sends entries from the front until a Send fails, then removes those that were sent. */
    method SendBuffered(accepts: nat) returns (n: nat)
      requires len <= data.Length
      modifies this`len, this`received, data
      ensures n == Min(accepts, old(len))
      ensures len == old(len) - n
      ensures received == old(received) + old(data[..n]) && data[..len] == old(data[n..len])
    {
      n := 0;
      while n < len && n < accepts
        modifies this`received
        invariant n <= Min(accepts, len)
        invariant received == old(received) + data[..n]
      {
        received := received + [data[n]];
        n := n + 1;
        assert data[..n] == data[..n - 1] + [data[n - 1]];
      }
      if n > 0 {
        ShiftDown(n);
      }
    }

    method Flush(a: Answers)
      requires Tracks()
      modifies this`len, this`lost, this`received, this`s, data
      ensures Tracks() && s == DoFlush(old(s), a)
    {
      if len == 0 || !connected || !a.readyToFlush {
        return;
      }
      ghost var s1 := if s.lost > 0 && a.encodes then Report(s) else s;
      if lost > 0 && a.encodes {
        if !a.reportSent {
          s := s.(broken := true);
          return;
        }
        lost := 0;
      }
      var n := SendBuffered(a.flushed);
      s := SendFront(s1, n);
    }

    /** Sends an entry behind the buffered ones, or buffers it, or counts it as lost. */
    method Write(entry: Entry, a: Answers)
      requires Tracks()
      modifies this`len, this`lost, this`received, this`s, data
      ensures Tracks() && s == DoWrite(old(s), entry, a)
    {
      hide DoFlush, Keep;
      var shouldBuffer := true;
      s := s.(written := s.written + [entry]);
      if connected && a.ready {
        Flush(a);
        shouldBuffer := SendNow(entry, a.entrySent);
      }
      if shouldBuffer {
        Store(entry);
      }
    }

    method SendNow(entry: Entry, sent: bool) returns (failed: bool)
      requires Tracks()
      modifies this`received, this`s
      ensures Tracks() && failed == !sent
      ensures s == if sent then old(s).(sent := old(s).sent + [entry]) else old(s).(broken := true)
    {
      failed := !sent;
      if sent {
        received := received + [entry];
        s := s.(sent := s.sent + [entry]);
      } else {
        s := s.(broken := true);
      }
    }

    /** Buffers an entry if there is room. */
    method Store(entry: Entry)
      requires Tracks()
      modifies this`len, this`lost, this`s, data
      ensures Tracks() && s == Keep(old(s), entry)
    {
      s := Keep(s, entry);
      if len < data.Length {
        data[len] := entry;
        len := len + 1;
      } else {
        lost := lost + 1;
      }
    }

    method UpdateClient(isConnected: bool, a: Answers)
      requires Tracks()
      modifies this`len, this`connected, this`lost, this`received, this`s, data
      ensures Tracks() && s == Step(old(s), Op.UpdateClient(isConnected, a))
    {
      connected := isConnected;
      s := s.(connected := isConnected, broken := false);
      Flush(a);
    }
  }
}

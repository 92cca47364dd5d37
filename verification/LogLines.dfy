/** Newline-delimited records of a log file: the reference that every reader of the
    node log is compared with. Positions are absolute offsets into the file. */
module LogLines {
  newtype Byte = x: int | 0 <= x < 256
  type Bytes = seq<Byte>

  const NL: Byte := 10
  const CR: Byte := 13

  /** Longest record that is returned in full (maxRecoveryScanLine). */
  const MAX_LINE: nat := 0x10_0000

  /** Bytes re-read before the saved offset (validationOverlap). */
  const OVERLAP: nat := 0x10_0000

  /** MD5 is uninterpreted: nothing below depends on what the digest is. */
  type Digest(==, !new, 0)
  const Md5: Bytes -> Digest
  const ZERO_DIGEST: Digest

  /** The first newline at or after `lo`, or the length when there is none. */
  function NextNL(s: Bytes, lo: nat): (p: nat)
    requires lo <= |s|
    ensures lo <= p <= |s|
    ensures forall i :: lo <= i < p ==> s[i] != NL
    ensures p < |s| ==> s[p] == NL
    decreases |s| - lo
  {
    if lo == |s| || s[lo] == NL then lo else NextNL(s, lo + 1)
  }

  /** A record over the cap is replaced by an empty one; its offsets are kept. */
  function Cap(text: Bytes): Bytes {
    if |text| <= MAX_LINE then text else []
  }

  /** The lines between `lo` and `hi` that are complete by `hi`, uncapped. */
  function Lines(s: Bytes, lo: nat, hi: nat): seq<Bytes>
    requires lo <= hi <= |s|
    decreases hi - lo
  {
    var p := NextNL(s, lo);
    if p >= hi then [] else [s[lo..p]] + Lines(s, p + 1, hi)
  }

  /** The lines from `lo` on, together with a last line that lacks its newline. */
  function Tokens(s: Bytes, lo: nat): seq<Bytes>
    requires lo <= |s|
    decreases |s| - lo
  {
    var p := NextNL(s, lo);
    if lo == |s| then [] else if p == |s| then [s[lo..p]] else [s[lo..p]] + Tokens(s, p + 1)
  }

  /** End of the last complete line from `lo` on. */
  function CompleteEnd(s: Bytes, lo: nat): (n: nat)
    requires lo <= |s|
    ensures lo <= n <= |s|
    ensures n == lo || s[n - 1] == NL
    ensures forall i :: n <= i < |s| ==> s[i] != NL
    decreases |s| - lo
  {
    var p := NextNL(s, lo);
    if p == |s| then lo else CompleteEnd(s, p + 1)
  }

  /** A position at which a line of `s` begins. */
  predicate AtLineStart(s: Bytes, pos: nat) {
    pos <= |s| && (pos == 0 || s[pos - 1] == NL)
  }

  /** Where the line whose newline is at `end - 1` begins. */
  function LineBegin(s: Bytes, end: nat): (b: nat)
    requires 0 < end <= |s|
    ensures b < end && AtLineStart(s, b)
    ensures forall i :: b <= i < end - 1 ==> s[i] != NL
  {
    if end == 1 || s[end - 2] == NL then end - 1 else LineBegin(s, end - 1)
  }

  /** The line whose newline is at `end - 1`, as a reader returns it. */
  function LineBefore(s: Bytes, end: nat): Bytes
    requires 0 < end <= |s|
  {
    Cap(s[LineBegin(s, end)..end - 1])
  }

  function CapAll(texts: seq<Bytes>): (r: seq<Bytes>)
    ensures |r| == |texts|
  {
    if texts == [] then [] else [Cap(texts[0])] + CapAll(texts[1..])
  }

  lemma {:induction false} CapAllConcat(a: seq<Bytes>, b: seq<Bytes>)
    ensures CapAll(a + b) == CapAll(a) + CapAll(b)
  {
    if a == [] {
      assert a + b == b;
    } else {
      assert (a + b)[1..] == a[1..] + b;
      CapAllConcat(a[1..], b);
    }
  }

  // ---------------------------------------------------------------- cutting at a boundary

  lemma {:induction false} NextNLUnique(s: Bytes, lo: nat, p: nat)
    requires lo <= p <= |s| && (p < |s| ==> s[p] == NL)
    requires forall i :: lo <= i < p ==> s[i] != NL
    ensures NextNL(s, lo) == p
  {
  }

  lemma {:induction false} ConsConcat<T>(x: T, l: seq<T>, r: seq<T>)
    ensures [x] + (l + r) == ([x] + l) + r
  {
  }

  lemma {:induction false} LineBeginUnique(s: Bytes, b: nat, end: nat)
    requires b < end <= |s| && AtLineStart(s, b)
    requires forall i :: b <= i < end - 1 ==> s[i] != NL
    ensures LineBegin(s, end) == b
  {
  }

  lemma {:induction false} LinesCut(s: Bytes, lo: nat, mid: nat, hi: nat)
    requires lo <= mid <= hi <= |s|
    requires mid == lo || s[mid - 1] == NL
    ensures Lines(s, lo, hi) == Lines(s, lo, mid) + Lines(s, mid, hi)
    decreases mid - lo
  {
    if lo < mid {
      var p := NextNL(s, lo);
      LinesCut(s, p + 1, mid, hi);
      ConsConcat(s[lo..p], Lines(s, p + 1, mid), Lines(s, mid, hi));
    }
  }

  /** One more complete line. */
  lemma {:induction false} LinesSnoc(s: Bytes, lo: nat, mid: nat, p: nat)
    requires lo <= mid <= p < |s| && s[p] == NL && NextNL(s, mid) == p
    requires mid == lo || s[mid - 1] == NL
    ensures Lines(s, lo, p + 1) == Lines(s, lo, mid) + [s[mid..p]]
    ensures Lines(s, mid, p + 1) == [s[mid..p]]
  {
    LinesCut(s, lo, mid, p + 1);
    assert Lines(s, p + 1, p + 1) == [];
  }

  lemma {:induction false} TokensCut(s: Bytes, lo: nat, mid: nat)
    requires lo <= mid <= |s|
    requires mid == lo || s[mid - 1] == NL
    ensures Tokens(s, lo) == Lines(s, lo, mid) + Tokens(s, mid)
    decreases mid - lo
  {
    if lo < mid {
      var p := NextNL(s, lo);
      TokensCut(s, p + 1, mid);
      ConsConcat(s[lo..p], Lines(s, p + 1, mid), Tokens(s, mid));
    }
  }

  /** Appending to a file keeps the lines already in it. */
  lemma {:induction false} LinesOfPrefix(s: Bytes, t: Bytes, lo: nat, hi: nat)
    requires lo <= hi <= |s| && s <= t
    ensures Lines(s, lo, hi) == Lines(t, lo, hi)
    decreases hi - lo
  {
    var p := NextNL(s, lo);
    if p < hi {
      NextNLUnique(t, lo, p);
      LinesOfPrefix(s, t, p + 1, hi);
      assert s[lo..p] == t[lo..p];
    } else {
      assert forall i :: lo <= i < hi ==> t[i] == s[i];
      assert NextNL(t, lo) >= hi;
    }
  }

  /** One line at a time. */
  lemma {:induction false} LinesCons(s: Bytes, lo: nat, hi: nat)
    requires lo <= hi <= |s|
    ensures var p := NextNL(s, lo);
      Lines(s, lo, hi) == if p >= hi then [] else [s[lo..p]] + Lines(s, p + 1, hi)
    ensures var p := NextNL(s, lo);
      CompleteEnd(s, lo) == if p == |s| then lo else CompleteEnd(s, p + 1)
  {
  }

  /** The part after the last newline holds no line. */
  lemma {:induction false} LinesPastEnd(s: Bytes, lo: nat)
    requires lo <= |s|
    ensures Lines(s, lo, CompleteEnd(s, lo)) == Lines(s, lo, |s|)
    decreases |s| - lo
  {
    hide Lines, CompleteEnd, NextNL;
    var p := NextNL(s, lo);
    LinesCons(s, lo, |s|);
    LinesCons(s, lo, CompleteEnd(s, lo));
    if p < |s| {
      LinesPastEnd(s, p + 1);
    }
  }

  // ---------------------------------------------------------------- what the lines are

  /** The lines, each with its newline. */
  function Join(lines: seq<Bytes>): Bytes {
    if lines == [] then [] else lines[0] + [NL] + Join(lines[1..])
  }

  lemma {:induction false} JoinCons(line: Bytes, lines: seq<Bytes>)
    ensures Join([line] + lines) == line + [NL] + Join(lines)
  {
    assert ([line] + lines)[1..] == lines;
  }

  lemma {:induction false} SplitAt(s: Bytes, lo: nat, p: nat, hi: nat)
    requires lo <= p < hi <= |s| && s[p] == NL
    ensures s[lo..hi] == s[lo..p] + [NL] + s[p + 1..hi]
  {
  }

  /** Lines hold no newline, and with one after each they are the bytes up to the last newline. */
  lemma {:induction false} LinesAre(s: Bytes, lo: nat)
    requires lo <= |s|
    ensures Join(Lines(s, lo, |s|)) == s[lo..CompleteEnd(s, lo)]
    ensures forall i :: 0 <= i < |Lines(s, lo, |s|)| ==> NL !in Lines(s, lo, |s|)[i]
    decreases |s| - lo
  {
    hide Lines, CompleteEnd, NextNL;
    var p := NextNL(s, lo);
    LinesCons(s, lo, |s|);
    if p < |s| {
      LinesAre(s, p + 1);
      JoinCons(s[lo..p], Lines(s, p + 1, |s|));
      SplitAt(s, lo, p, CompleteEnd(s, p + 1));
    }
  }

  /** Tokens are the lines, and what follows the last newline if that is anything. */
  lemma {:induction false} TokensAre(s: Bytes, lo: nat)
    requires lo <= |s|
    ensures Tokens(s, lo) == Lines(s, lo, |s|) + Rest(s, CompleteEnd(s, lo))
    decreases |s| - lo
  {
    hide Lines, CompleteEnd, NextNL, Rest;
    var p := NextNL(s, lo);
    LinesCons(s, lo, |s|);
    if p < |s| {
      TokensAre(s, p + 1);
      ConsConcat(s[lo..p], Lines(s, p + 1, |s|), Rest(s, CompleteEnd(s, p + 1)));
    } else {
      NoLines(s, lo);
    }
  }

  function Rest(s: Bytes, end: nat): seq<Bytes> {
    if end < |s| then [s[end..]] else []
  }

  lemma {:induction false} NoLines(s: Bytes, lo: nat)
    requires lo <= |s| && NextNL(s, lo) == |s|
    ensures Tokens(s, lo) == [] + Rest(s, lo)
  {
    assert s[lo..|s|] == s[lo..];
  }

  // ---------------------------------------------------------------- canonical form

  /** Without the carriage returns at its end. The scanner of rotated files drops one of
      them, the active-file reader none. */
  function StripCR(text: Bytes): Bytes {
    if |text| > 0 && text[|text| - 1] == CR then StripCR(text[..|text| - 1]) else text
  }

  function Canonical(text: Bytes): Bytes {
    StripCR(Cap(text))
  }

  /** The non-empty records of a sequence, in canonical form. */
  function Canon(texts: seq<Bytes>): seq<Bytes> {
    if texts == [] then []
    else (if Canonical(texts[0]) == [] then [] else [Canonical(texts[0])]) + Canon(texts[1..])
  }

  lemma {:induction false} CanonConcat(a: seq<Bytes>, b: seq<Bytes>)
    ensures Canon(a + b) == Canon(a) + Canon(b)
  {
    if a == [] {
      assert a + b == b;
    } else {
      assert (a + b)[1..] == a[1..] + b;
      CanonConcat(a[1..], b);
    }
  }

  /** A record that every reader returns as it is. */
  predicate Plain(text: Bytes) {
    0 < |text| <= MAX_LINE && text[|text| - 1] != CR
  }

  predicate AllPlain(texts: seq<Bytes>) {
    forall i :: 0 <= i < |texts| ==> Plain(texts[i])
  }

  /** The canonical form of plain records is those records. */
  lemma {:induction false} CanonPlain(texts: seq<Bytes>)
    requires AllPlain(texts)
    ensures Canon(texts) == texts
  {
    if texts != [] {
      assert Canonical(texts[0]) == texts[0];
      CanonPlain(texts[1..]);
    }
  }
}

/** What one read of the active log file means: a closed form for streamActive, and the
    proof that a ranged body gives the same result as the whole file. */
module ActiveRead {
  import opened LogLines

  datatype Outcome =
    | Reset
    | Continue(texts: seq<Bytes>, newOffset: nat, lastHash: Digest, observedSize: nat)

  /** A complete line ends exactly at the offset, hashes to the stored digest, and is not
      the leading fragment of a ranged body. */
  predicate BoundaryRead(file: Bytes, bodyStart: nat, offset: nat, hash: Digest)
    requires bodyStart <= |file|
  {
    && 0 < offset <= |file|
    && file[offset - 1] == NL
    && (bodyStart == 0 || bodyStart < LineBegin(file, offset))
    && Md5(LineBefore(file, offset)) == hash
  }

  /** The body continues the file behind the checkpoint. */
  predicate Validates(file: Bytes, bodyStart: nat, offset: nat, hash: Digest)
    requires bodyStart <= |file|
  {
    if offset == 0 then bodyStart == 0 || NextNL(file, bodyStart) == |file|
    else BoundaryRead(file, bodyStart, offset, hash)
  }

  /** The result of reading `file` from `bodyStart` to its end: all complete lines after the
      offset, or nothing at all. */
  function Read(file: Bytes, bodyStart: nat, offset: nat, hash: Digest): Outcome
    requires bodyStart <= |file|
  {
    if !Validates(file, bodyStart, offset, hash) then Reset
    else if bodyStart > offset then Continue([], offset, hash, |file|)
    else Continue(CapAll(Lines(file, offset, |file|)), CompleteEnd(file, offset),
                  HashAt(file, offset, CompleteEnd(file, offset), hash), |file|)
  }

  /** Digest of the last line read, when there is one. */
  function HashAt(file: Bytes, offset: nat, end: nat, hash: Digest): Digest
    requires end <= |file|
  {
    if end > offset then Md5(LineBefore(file, end)) else hash
  }

  /** Where a range request for this checkpoint begins. */
  function RangeStart(offset: nat): (start: nat)
    ensures start <= offset && (offset <= OVERLAP ==> start == 0) && (offset > OVERLAP ==> offset - start == OVERLAP)
  {
    if offset > OVERLAP then offset - OVERLAP else 0
  }

  /** A ranged body that does not reset gives what the whole file gives; it resets on a file
      that continues exactly when no newline precedes the boundary record inside the body. */
  lemma {:induction false} RangedRefinesWhole(file: Bytes, start: nat, offset: nat, hash: Digest)
    requires start <= offset && start <= |file|
    ensures Read(file, start, offset, hash).Continue? ==> Read(file, start, offset, hash) == Read(file, 0, offset, hash)
    ensures 0 < start ==>
      (Read(file, start, offset, hash).Continue? <==>
        Read(file, 0, offset, hash).Continue? && exists i :: start <= i < offset - 1 && file[i] == NL)
  {
    if BoundaryRead(file, 0, offset, hash) {
      var b := LineBegin(file, offset);
      if start < b {
        assert file[b - 1] == NL;
      }
    }
  }

  /** The overlap is wide enough for every boundary record that is shorter than it. */
  lemma {:induction false} OverlapSuffices(file: Bytes, offset: nat, hash: Digest)
    requires offset <= |file| && Read(file, 0, offset, hash).Continue?
    requires 0 < offset ==> offset - LineBegin(file, offset) < OVERLAP
    ensures Read(file, RangeStart(offset), offset, hash) == Read(file, 0, offset, hash)
  {
    var start := RangeStart(offset);
    if 0 < start {
      assert start < LineBegin(file, offset);
    }
  }

  /** The bytes from `b` to the newline at `end - 1` are a line, seen whole by a body from
      `bodyStart` on, and have this digest; of one over the cap it is that of nothing. */
  ghost predicate RecordEndsAt(file: Bytes, bodyStart: nat, b: nat, end: nat, hash: Digest) {
    && b < end <= |file| && file[end - 1] == NL
    && (b == 0 || file[b - 1] == NL) && NL !in file[b..end - 1]
    && (bodyStart == 0 || bodyStart < b)
    && Md5(if end - 1 - b <= MAX_LINE then file[b..end - 1] else []) == hash
  }

  lemma {:induction false} RecordBefore(file: Bytes, b: nat, end: nat, hash: Digest)
    requires RecordEndsAt(file, 0, b, end, hash)
    ensures LineBegin(file, end) == b && Md5(LineBefore(file, end)) == hash
  {
    assert forall i :: b <= i < end - 1 ==> file[i] == file[b..end - 1][i - b];
    LineBeginUnique(file, b, end);
  }

  lemma {:induction false} LineIsRecord(file: Bytes, end: nat)
    requires 0 < end <= |file| && file[end - 1] == NL
    ensures RecordEndsAt(file, 0, LineBegin(file, end), end, Md5(LineBefore(file, end)))
  {
  }

  /** A read goes on exactly from a record that ends at the offset and has the stored digest, or
      from the start. */
  lemma {:induction false} ContinuesIff(file: Bytes, bodyStart: nat, offset: nat, hash: Digest)
    requires bodyStart <= |file| && bodyStart <= offset
    ensures Read(file, bodyStart, offset, hash).Continue? <==>
      offset == 0 || exists b: nat :: RecordEndsAt(file, bodyStart, b, offset, hash)
  {
    if offset > 0 {
      if BoundaryRead(file, bodyStart, offset, hash) {
        LineIsRecord(file, offset);
        assert RecordEndsAt(file, bodyStart, LineBegin(file, offset), offset, hash);
      }
      if b: nat :| RecordEndsAt(file, bodyStart, b, offset, hash) {
        RecordBefore(file, b, offset, hash);
      }
    }
  }

  /** Then it gives the complete lines after the offset, each in full if it is within the cap and
      empty otherwise, where the last of them ends, its digest and the size of the file. */
  lemma {:induction false} ReadGives(file: Bytes, bodyStart: nat, offset: nat, hash: Digest)
    requires bodyStart <= |file| && bodyStart <= offset && Read(file, bodyStart, offset, hash).Continue?
    ensures var r, lines := Read(file, bodyStart, offset, hash), Lines(file, offset, |file|);
      && |r.texts| == |lines|
      && (forall i :: 0 <= i < |lines| && |lines[i]| <= MAX_LINE ==> r.texts[i] == lines[i])
      && (forall i :: 0 <= i < |lines| && |lines[i]| > MAX_LINE ==> r.texts[i] == [])
      && Join(lines) == file[offset..r.newOffset] && NL !in file[r.newOffset..]
      && r.observedSize == |file|
    ensures var r := Read(file, bodyStart, offset, hash);
      if r.newOffset == offset then r.lastHash == hash
      else exists b: nat :: offset <= b && RecordEndsAt(file, 0, b, r.newOffset, r.lastHash)
  {
    hide Lines, Join, LineBegin, NextNL;
    var lines, end := Lines(file, offset, |file|), CompleteEnd(file, offset);
    CapEach(lines);
    LinesAre(file, offset);
    if end > offset {
      LineIsRecord(file, end);
      BeginsAfter(file, offset, end);
      assert RecordEndsAt(file, 0, LineBegin(file, end), end, HashAt(file, offset, end, hash));
    }
  }

  lemma {:induction false} CapEach(texts: seq<Bytes>)
    ensures |CapAll(texts)| == |texts|
    ensures forall i :: 0 <= i < |texts| && |texts[i]| <= MAX_LINE ==> CapAll(texts)[i] == texts[i]
    ensures forall i :: 0 <= i < |texts| && |texts[i]| > MAX_LINE ==> CapAll(texts)[i] == []
  {
    if texts != [] {
      CapEach(texts[1..]);
    }
  }

  lemma {:induction false} BeginsAfter(file: Bytes, offset: nat, end: nat)
    requires offset < end <= |file| && file[end - 1] == NL && (offset == 0 || file[offset - 1] == NL)
    ensures LineBegin(file, end) >= offset
  {
  }
}

/** The streaming reader of the active log file: a buffered reader over a source that
    delivers its bytes in arbitrary chunks, capped record scanning, and validated resume. */
module LogReader {
  import opened LogLines
  import opened ActiveRead

  datatype ReadError = NoError | BufferFull | EndOfFile | Failed

  /** bufio.Reader: `unread` bytes buffered, `source` bytes still to come, in chunks that
      nothing fixes; afterwards the source reports `tail`. */
  class BufReader {
    ghost const file: Bytes   // everything up to the end of the stream
    ghost var pos: nat        // offset in `file` of the next byte handed out
    const size: nat
    const tail: ReadError
    var unread: Bytes
    var source: Bytes
    var pending: bool         // the source has reported `tail`

    ghost predicate Valid()
      reads this
    {
      && 0 < size && |unread| <= size
      && tail in {EndOfFile, Failed}
      && pos <= |file| && unread + source == file[pos..]
      && (pending ==> source == [])
    }

    constructor (ghost file: Bytes, start: nat, body: Bytes, size: nat, tail: ReadError)
      requires start <= |file| && body == file[start..] && 0 < size && tail in {EndOfFile, Failed}
      ensures Valid() && this.file == file && pos == start && this.size == size && this.tail == tail
    {
      this.file, this.pos, this.size, this.tail := file, start, size, tail;
      unread, source, pending := [], body, false;
    }

    /** One read from the source: some bytes, or its final error, or both. */
    method Fill()
      requires Valid() && !pending && |unread| < size
      modifies this`unread, this`source, this`pending
      ensures Valid()
      ensures unread + source == old(unread + source)
      ensures |source| < old(|source|) || pending
    {
      if source == [] {
        pending := true;
      } else {
        var n :| 0 < n <= |source| && |unread| + n <= size;
        unread, source := unread + source[..n], source[n..];
        if * {
          pending := source == [];
        }
      }
    }

    /** Bytes up to and including the next newline; or a full buffer, or all that is left,
        without one. */
    method ReadSlice() returns (chunk: Bytes, e: ReadError)
      requires Valid()
      modifies this
      ensures Valid() && pos == old(pos) + |chunk| && chunk == file[old(pos)..pos]
      ensures forall i :: old(pos) <= i < pos && (e != NoError || i < pos - 1) ==> file[i] != NL
      ensures e == NoError ==> old(pos) < pos && file[pos - 1] == NL
      ensures e == BufferFull ==> old(pos) < pos
      ensures e !in {NoError, BufferFull} ==> e == tail && pos == |file|
    {
      hide NextNL;
      while true
        invariant Valid() && pos == old(pos)
        decreases |source|, !pending
      {
        BufferIsNext(unread, source, file, pos);
        var p := NextNL(unread, 0);
        if p < |unread| {
          chunk, e := unread[..p + 1], NoError;
          break;
        }
        if pending {
          chunk, e := unread, tail;
          break;
        }
        if |unread| == size {
          chunk, e := unread, BufferFull;
          break;
        }
        Fill();
      }
      Advance(|chunk|);
    }

    method Advance(n: nat)
      requires Valid() && n <= |unread|
      modifies this
      ensures Valid() && pos == old(pos) + n
    {
      BufferIsNext(unread, source, file, pos);
      assert unread[n..] + source == (unread + source)[n..];
      unread := unread[n..];
      pos := pos + n;
    }
  }

  /** The buffer holds the bytes that follow. */
  lemma {:induction false} BufferIsNext(unread: Bytes, source: Bytes, file: Bytes, pos: nat)
    requires pos <= |file| && unread + source == file[pos..]
    ensures pos + |unread| <= |file| && unread == file[pos..pos + |unread|]
    ensures forall i :: 0 <= i < |unread| ==> unread[i] == file[pos + i]
  {
    assert unread == (unread + source)[..|unread|];
  }

  lemma {:induction false} SliceSplit(s: Bytes, a: nat, b: nat, c: nat)
    requires a <= b <= c <= |s|
    ensures s[a..c] == s[a..b] + s[b..c]
  {
  }

  /** The next record, independently of the chunking and of the buffer size: offsets are exact,
      and the text is returned in full iff it is within the cap. */
  method ScanRecord(br: BufReader) returns (rec: Bytes, consumed: nat, hasNL: bool, err: ReadError)
    requires br.Valid()
    modifies br
    ensures br.Valid() && br.pos == old(br.pos) + consumed
    ensures var p := NextNL(br.file, old(br.pos));
      && (p - old(br.pos) <= MAX_LINE ==> rec == br.file[old(br.pos)..p])
      && (p - old(br.pos) > MAX_LINE ==> rec == [])
      && (hasNL <==> p < |br.file|)
      && (hasNL ==> err == NoError && br.pos == p + 1)
      && (!hasNL ==> err == br.tail && br.pos == p)
  {
    hide NextNL;
    var buf: Bytes, oversize := [], false;
    consumed := 0;
    ghost var start := br.pos;
    while true
      invariant br.Valid() && br.pos == start + consumed
      invariant forall i :: start <= i < br.pos ==> br.file[i] != NL
      invariant |buf| <= MAX_LINE
      invariant if oversize then consumed > MAX_LINE else buf == br.file[start..br.pos]
      decreases |br.file| - br.pos
    {
      ghost var from := br.pos;
      var chunk, e := br.ReadSlice();
      consumed := consumed + |chunk|;
      SliceSplit(br.file, start, from, br.pos);
      if e == BufferFull {
        if !oversize && |buf| + |chunk| <= MAX_LINE {
          buf := buf + chunk;
        } else {
          oversize := true;
        }
        continue;
      }
      if e != NoError {
        NextNLUnique(br.file, start, br.pos);
        if oversize || |buf| + |chunk| > MAX_LINE {
          return [], consumed, false, e;
        }
        return buf + chunk, consumed, false, e;
      }
      var body := chunk[..|chunk| - 1];
      NextNLUnique(br.file, start, br.pos - 1);
      assert body == br.file[from..br.pos - 1];
      SliceSplit(br.file, start, from, br.pos - 1);
      if oversize || |buf| + |body| > MAX_LINE {
        return [], consumed, true, NoError;
      }
      return buf + body, consumed, true, NoError;
    }
  }

  /** Receives the records; a failure hands nothing over. */
  class Sink {
    var got: seq<Bytes>
    var refusals: nat   // how many records were not taken

    constructor ()
      ensures got == [] && refusals == 0
    {
      got, refusals := [], 0;
    }

    method Emit(rec: Bytes) returns (ok: bool)
      modifies this
      ensures got == old(got) + (if ok then [rec] else [])
      ensures refusals == old(refusals) + (if ok then 0 else 1)
    {
      if * {
        got := got + [rec];
        return true;
      }
      refusals := refusals + 1;
      return false;
    }
  }

  datatype StreamResult = StreamResult(
    validated: bool, needReset: bool, newOffset: nat, lastHash: Digest, observedSize: nat, emitted: nat)

  /** State of a read whose next byte is at `pos`, having emitted `out`. */
  ghost predicate Tracks(file: Bytes, bodyStart: nat, offset: nat, hash: Digest,
                         pos: nat, first: bool, res: StreamResult, out: seq<Bytes>)
  {
    !res.needReset && Progress(file, bodyStart, offset, hash, pos, first, res.validated, res.newOffset, res.lastHash, res.emitted, out)
  }

  ghost predicate Progress(file: Bytes, bodyStart: nat, offset: nat, hash: Digest, pos: nat, first: bool,
                           validated: bool, newOffset: nat, lastHash: Digest, emitted: nat, out: seq<Bytes>)
  {
    && bodyStart <= pos <= |file|
    && (first <==> pos == bodyStart)
    && (!first ==> file[pos - 1] == NL)
    && emitted == |out|
    && if first || pos <= offset then
         && out == [] && newOffset == offset && lastHash == hash
         && (validated <==> offset == 0 || (!first && pos == offset && BoundaryRead(file, bodyStart, offset, hash)))
       else
         && validated && bodyStart <= offset && Validates(file, bodyStart, offset, hash)
         && (offset == 0 || file[offset - 1] == NL)
         && out == CapAll(Lines(file, offset, pos))
         && newOffset == pos && lastHash == Md5(LineBefore(file, pos))
  }

  /** One complete record, ending at `end`, is classified against the checkpoint. */
  method ApplyRecord(ghost file: Bytes, ghost pos: nat, ghost base: nat, rec: Bytes, end: nat, bodyStart: nat,
                     first: bool, offset: nat, hash: Digest, res: StreamResult, sink: Sink)
    returns (done: bool, ok: bool, res': StreamResult)
    requires base <= |sink.got| && Tracks(file, bodyStart, offset, hash, pos, first, res, sink.got[base..])
    requires NextNL(file, pos) == end - 1 < |file| && rec == Cap(file[pos..end - 1])
    modifies sink
    ensures !ok ==> sink.got == old(sink.got)
    ensures sink.refusals == old(sink.refusals) + (if ok then 0 else 1)
    ensures ok && done ==> sink.got == old(sink.got) && res'.needReset && |sink.got| == base && !Validates(file, bodyStart, offset, hash)
    ensures ok && done ==> offset <= |file| && (offset == 0 ==> NextNL(file, bodyStart) < |file|)
    ensures ok && !done ==> old(sink.got) <= sink.got
    ensures ok && !done ==> Tracks(file, bodyStart, offset, hash, end, false, res', sink.got[base..])
    ensures res'.observedSize == res.observedSize
  {
    hide NextNL, LineBegin, Lines, CapAll, Cap;
    done, ok, res' := false, true, res;
    RecordBegin(file, bodyStart, pos, end, first);
    NothingBetween(file, pos);
    if first && bodyStart > 0 {
      if end > offset {
        done, res' := true, res.(needReset := true);
      }
    } else if end < offset {
    } else if end == offset {
      if Md5(rec) != hash {
        done, res' := true, res.(needReset := true);
      } else {
        res' := res.(validated := true);
      }
    } else {
      if !res.validated {
        done, res' := true, res.(needReset := true);
      } else {
        ok := sink.Emit(rec);
        if ok {
          EmittedOneMore(file, offset, pos, end, old(sink.got)[base..]);
          assert sink.got[base..] == old(sink.got)[base..] + [rec];
          res' := res.(emitted := res.emitted + 1, newOffset := end, lastHash := Md5(rec));
        }
      }
    }
  }

  lemma {:induction false} RecordBegin(file: Bytes, bodyStart: nat, pos: nat, end: nat, first: bool)
    requires bodyStart <= pos < end <= |file| && NextNL(file, pos) == end - 1
    requires if first then pos == bodyStart else bodyStart < pos && file[pos - 1] == NL
    ensures !first || bodyStart == 0 ==> LineBegin(file, end) == pos
    ensures first ==> LineBegin(file, end) <= bodyStart
  {
    if !first || bodyStart == 0 {
      LineBeginUnique(file, pos, end);
    }
  }

  lemma {:induction false} NothingBetween(file: Bytes, pos: nat)
    requires pos <= |file|
    ensures CapAll(Lines(file, pos, pos)) == []
  {
  }

  lemma {:induction false} EmittedOneMore(file: Bytes, offset: nat, pos: nat, end: nat, out: seq<Bytes>)
    requires offset <= pos < end <= |file| && NextNL(file, pos) == end - 1
    requires pos == offset || file[pos - 1] == NL
    requires out == CapAll(Lines(file, offset, pos))
    ensures out + [Cap(file[pos..end - 1])] == CapAll(Lines(file, offset, end))
  {
    LinesSnoc(file, offset, pos, end - 1);
    CapAllConcat(Lines(file, offset, pos), [file[pos..end - 1]]);
  }

  /** Enough of the file was seen to judge the checkpoint. */
  predicate Conclusive(file: Bytes, bodyStart: nat, offset: nat)
    requires bodyStart <= |file|
  {
    offset <= |file| && (offset == 0 ==> NextNL(file, bodyStart) < |file|)
  }

  /** A reset that was concluded from a body that broke off holds of the whole file. */
  lemma {:induction false} ConclusiveReset(file: Bytes, longer: Bytes, bodyStart: nat, offset: nat, hash: Digest)
    requires file <= longer && bodyStart <= |file| && Conclusive(file, bodyStart, offset)
    requires Read(file, bodyStart, offset, hash).Reset?
    ensures Read(longer, bodyStart, offset, hash).Reset?
  {
    if offset == 0 {
      NextNLUnique(longer, bodyStart, NextNL(file, bodyStart));
    } else {
      LineBeginUnique(longer, LineBegin(file, offset), offset);
      assert file[LineBegin(file, offset)..offset - 1] == longer[LineBegin(file, offset)..offset - 1];
    }
  }

  /** Reads the body to its end, or to the record that shows the file was replaced. The
      result is that of `Read`: with every chunking, a complete read emits exactly the
      complete lines after the checkpoint, and a reset emits nothing. */
  method StreamActive(bodyStart: nat, br: BufReader, offset: nat, hash: Digest, sink: Sink)
    returns (ok: bool, res: StreamResult)
    requires br.Valid() && br.pos == bodyStart
    modifies br, sink
    ensures old(sink.got) <= sink.got
    ensures ok ==> match Read(br.file, bodyStart, offset, hash)
      case Reset => res.needReset && sink.got == old(sink.got)
      case Continue(texts, newOffset, lastHash, observedSize) =>
        && !res.needReset && sink.got == old(sink.got) + texts && res.emitted == |texts|
        && res.newOffset == newOffset && res.lastHash == lastHash && res.observedSize == observedSize
    ensures sink.refusals >= old(sink.refusals)
    ensures !ok ==> sink.refusals > old(sink.refusals) || br.tail == Failed
    ensures ok && br.tail != EndOfFile ==> res.needReset && Conclusive(br.file, bodyStart, offset)
  {
    hide Validates, BoundaryRead, Tracks, NextNL, Lines, CapAll, CompleteEnd, HashAt;
    ghost var file, base := br.file, |sink.got|;
    TracksStart(file, bodyStart, offset, hash);
    assert sink.got[base..] == [];
    ok, res := true, StreamResult(offset == 0, false, offset, hash, bodyStart, 0);
    var abs, first := bodyStart, true;
    while true
      invariant br.Valid() && br.pos == abs && res.observedSize == abs && ok
      invariant old(sink.got) <= sink.got && sink.refusals == old(sink.refusals)
      invariant Tracks(file, bodyStart, offset, hash, abs, first, res, sink.got[base..])
      decreases |file| - abs
    {
      ghost var pos := abs;
      var rec, consumed, hasNL, err := ScanRecord(br);
      abs := abs + consumed;
      if consumed > 0 {
        res := res.(observedSize := abs);
      }
      if hasNL {
        var done;
        done, ok, res := ApplyRecord(file, pos, base, rec, abs, bodyStart, first, offset, hash, res, sink);
        if !ok || done {
          return;
        }
        first := false;
      }
      if err != NoError {
        if err == EndOfFile {
          FullyRead(file, bodyStart, offset, hash, pos, first, res, sink.got[base..]);
          break;
        }
        return false, res;
      }
    }
    if offset > 0 && !res.validated {
      res := res.(needReset := true);
    }
  }

  /** Nothing has been read yet. */
  lemma {:induction false} TracksStart(file: Bytes, bodyStart: nat, offset: nat, hash: Digest)
    requires bodyStart <= |file|
    ensures Tracks(file, bodyStart, offset, hash, bodyStart, true, StreamResult(offset == 0, false, offset, hash, bodyStart, 0), [])
    ensures forall pos, first, res: StreamResult, out, n ::
      Tracks(file, bodyStart, offset, hash, pos, first, res, out) ==>
        Tracks(file, bodyStart, offset, hash, pos, first, res.(observedSize := n), out)
  {
  }

  /** At the end of the stream, what has been emitted is what `Read` prescribes. */
  lemma {:induction false} FullyRead(file: Bytes, bodyStart: nat, offset: nat, hash: Digest,
                                     pos: nat, first: bool, res: StreamResult, out: seq<Bytes>)
    requires Tracks(file, bodyStart, offset, hash, pos, first, res, out)
    requires NextNL(file, pos) == |file|
    ensures !res.needReset && res.emitted == |out|
    ensures match Read(file, bodyStart, offset, hash)
      case Reset => offset > 0 && !res.validated && out == []
      case Continue(texts, newOffset, lastHash, observedSize) =>
        && (offset == 0 || res.validated) && out == texts && res.newOffset == newOffset && res.lastHash == lastHash
        && observedSize == |file|
  {
    if !first && pos > offset {
      assert CompleteEnd(file, offset) == pos;
      LinesPastEnd(file, offset);
    } else if bodyStart <= offset && (offset == 0 || res.validated) {
      assert NextNL(file, offset) == |file|;
    }
  }
}

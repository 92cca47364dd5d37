/** Rotated generations of the log: which of the listed files stand for them, and which have
    not been processed yet. */
module Rotation {
  /** Go's string order. */
  predicate Less(a: string, b: string) {
    b != "" && (a == "" || a[0] < b[0] || (a[0] == b[0] && Less(a[1..], b[1..])))
  }

  lemma {:induction false} LessIrreflexive(a: string)
    ensures !Less(a, a)
  {
    if a != "" {
      LessIrreflexive(a[1..]);
    }
  }

  lemma {:induction false} LessTransitive(a: string, b: string, c: string)
    requires Less(a, b) && Less(b, c)
    ensures Less(a, c)
  {
    if a != "" && a[0] == b[0] == c[0] {
      LessTransitive(a[1..], b[1..], c[1..]);
    }
  }

  lemma {:induction false} LessTotal(a: string, b: string)
    ensures a == b || Less(a, b) || Less(b, a)
  {
    if a != "" && b != "" && a[0] == b[0] {
      LessTotal(a[1..], b[1..]);
      assert a[1..] == b[1..] ==> a == [a[0]] + a[1..] == [b[0]] + b[1..] == b;
    }
  }

  datatype RotatedFile = RotatedFile(id: string, filename: string, compressed: bool)

  ghost predicate Sorted(files: seq<RotatedFile>) {
    forall i, j :: 0 <= i < j < |files| ==> Less(files[i].id, files[j].id)
  }

  /** A file may stand for its generation: an uncompressed one is preferred. */
  ghost predicate Preferred(files: seq<RotatedFile>, f: RotatedFile) {
    f in files && forall g :: g in files && g.id == f.id && !g.compressed ==> !f.compressed
  }

  ghost predicate HasId(files: seq<RotatedFile>, id: string) {
    exists f :: f in files && f.id == id
  }

  /** One preferred file for each listed generation after `last`, oldest first. */
  ghost predicate Unseen(files: seq<RotatedFile>, last: string, out: seq<RotatedFile>) {
    && Sorted(out)
    && (forall f :: f in out ==> Preferred(files, f) && Less(last, f.id))
    && (forall f :: f in files && Less(last, f.id) ==> HasId(out, f.id))
  }

  /** The same, for all listed generations. */
  ghost predicate Dedup(files: seq<RotatedFile>, out: seq<RotatedFile>) {
    && Sorted(out)
    && (forall f :: f in out ==> Preferred(files, f))
    && (forall f :: f in files ==> HasId(out, f.id))
  }

  /** A file name carries the generation and the compression, and nothing else. */
  ghost predicate Consistent(files: seq<RotatedFile>) {
    forall f, g :: f in files && g in files && f.id == g.id && f.compressed == g.compressed ==> f == g
  }

  lemma {:induction false} FirstListed(files: seq<RotatedFile>)
    requires files != []
    ensures files[0] in files && HasId(files, files[0].id)
  {
  }

  // ---------------------------------------------------------------- operations

  /** Inserts into a sorted sequence. */
  method InsertSorted(files: seq<RotatedFile>, f: RotatedFile) returns (out: seq<RotatedFile>)
    requires Sorted(files) && !HasId(files, f.id)
    ensures Sorted(out)
    ensures forall g :: g in out <==> g in files || g == f
  {
    var i := |files|;
    while i > 0 && Less(f.id, files[i - 1].id)
      invariant 0 <= i <= |files|
      invariant forall j :: i <= j < |files| ==> Less(f.id, files[j].id)
    {
      i := i - 1;
    }
    forall j | 0 <= j < i ensures Less(files[j].id, f.id) {
      LessTotal(files[i - 1].id, f.id);
      assert files[i - 1] in files;
      if j < i - 1 {
        LessTransitive(files[j].id, files[i - 1].id, f.id);
      }
    }
    out := files[..i] + [f] + files[i..];
  }

  method SortRotations(files: seq<RotatedFile>) returns (out: seq<RotatedFile>)
    requires forall i, j :: 0 <= i < j < |files| ==> files[i].id != files[j].id
    ensures Sorted(out)
    ensures forall f :: f in out <==> f in files
  {
    out := [];
    for i := 0 to |files|
      invariant Sorted(out)
      invariant forall f :: f in out <==> f in files[..i]
    {
      assert files[..i + 1] == files[..i] + [files[i]];
      out := InsertSorted(out, files[i]);
    }
    assert files[..|files|] == files;
  }

  method DedupRotations(files: seq<RotatedFile>) returns (out: seq<RotatedFile>)
    ensures Dedup(files, out)
  {
    var byId: map<string, RotatedFile> := map[];
    for i := 0 to |files|
      invariant forall id :: id in byId ==> byId[id].id == id && Preferred(files[..i], byId[id])
      invariant forall f :: f in files[..i] ==> f.id in byId
    {
      var f := files[i];
      assert files[..i + 1] == files[..i] + [f];
      if f.id !in byId || (!f.compressed && byId[f.id].compressed) {
        byId := byId[f.id := f];
      }
    }
    assert files[..|files|] == files;
    out := [];
    var rest := byId.Keys;
    while rest != {}
      invariant rest <= byId.Keys
      invariant forall i :: 0 <= i < |out| ==> out[i].id in byId && out[i].id !in rest && out[i] == byId[out[i].id]
      invariant forall i, j :: 0 <= i < j < |out| ==> out[i].id != out[j].id
      invariant forall id :: id in byId && id !in rest ==> byId[id] in out
      decreases rest
    {
      var id :| id in rest;
      out := out + [byId[id]];
      rest := rest - {id};
    }
    var sorted := SortRotations(out);
    forall f | f in files ensures HasId(sorted, f.id) {
      assert byId[f.id] in sorted;
    }
    out := sorted;
  }

  method UnseenRotations(files: seq<RotatedFile>, last: string) returns (out: seq<RotatedFile>)
    ensures Unseen(files, last, out)
  {
    var deduped := DedupRotations(files);
    out := [];
    for i := 0 to |deduped|
      invariant Sorted(out)
      invariant forall f :: f in out <==> f in deduped[..i] && Less(last, f.id)
    {
      assert deduped[..i + 1] == deduped[..i] + [deduped[i]];
      if Less(last, deduped[i].id) {
        out := out + [deduped[i]];
      }
    }
    assert deduped[..|deduped|] == deduped;
    forall f | f in files && Less(last, f.id) ensures HasId(out, f.id) {
      var g :| g in deduped && g.id == f.id;
      assert g in out;
    }
  }

  /** The ID that no listed generation exceeds. */
  method NewestRotationID(files: seq<RotatedFile>) returns (id: string)
    ensures files == [] ==> id == ""
    ensures files != [] ==> HasId(files, id)
    ensures forall f :: f in files ==> !Less(id, f.id)
  {
    var deduped := DedupRotations(files);
    if deduped == [] {
      if files != [] {
        FirstListed(files);
      }
      return "";
    }
    var n := |deduped| - 1;
    id := deduped[n].id;
    forall f | f in files ensures !Less(id, f.id) {
      var g :| g in deduped && g.id == f.id;
      var i :| 0 <= i < |deduped| && deduped[i] == g;
      LessIrreflexive(id);
      if i < n && Less(id, f.id) {
        LessTransitive(id, f.id, id);
      }
    }
    assert deduped[n] in deduped;
  }

  /** The preferred file of one generation, when it is listed at all. */
  method FindRotationByID(files: seq<RotatedFile>, id: string) returns (f: RotatedFile, found: bool)
    ensures found <==> HasId(files, id)
    ensures found ==> f.id == id && Preferred(files, f)
  {
    var deduped := DedupRotations(files);
    for i := 0 to |deduped|
      invariant forall j :: 0 <= j < i ==> deduped[j].id != id
    {
      if deduped[i].id == id {
        assert deduped[i] in deduped;
        return deduped[i], true;
      }
    }
    assert forall f :: f in files ==> HasId(deduped, f.id);
    return RotatedFile("", "", false), false;
  }

  // ---------------------------------------------------------------- resuming

  /** After the oldest unseen generation come the others. */
  lemma {:induction false} UnseenTail(files: seq<RotatedFile>, last: string, out: seq<RotatedFile>)
    requires Unseen(files, last, out) && out != []
    ensures Unseen(files, out[0].id, out[1..])
  {
    var first, rest := out[0], out[1..];
    assert first in out;
    forall f | f in files && Less(first.id, f.id) ensures HasId(rest, f.id) {
      LessTransitive(last, first.id, f.id);
      LessIrreflexive(f.id);
      var g :| g in out && g.id == f.id;
      assert g in rest;
    }
  }

  /** Recovery that stopped after generation `i` finds exactly the later ones. */
  lemma {:induction false} Resumable(files: seq<RotatedFile>, last: string, out: seq<RotatedFile>, i: nat)
    requires Unseen(files, last, out) && i < |out|
    ensures Unseen(files, out[i].id, out[i + 1..])
    decreases i
  {
    UnseenTail(files, last, out);
    if i > 0 {
      Resumable(files, out[0].id, out[1..], i - 1);
      assert out[1..][i..] == out[i + 1..];
    }
  }

  /** The result depends on what is listed, not on the order of the listing nor on the order
      in which a map is iterated. */
  lemma {:induction false} UnseenUnique(files: seq<RotatedFile>, files': seq<RotatedFile>, last: string,
                                        a: seq<RotatedFile>, b: seq<RotatedFile>)
    requires forall f :: f in files <==> f in files'
    requires Consistent(files)
    requires Unseen(files, last, a) && Unseen(files', last, b)
    ensures a == b
    decreases |a|
  {
    if a == [] || b == [] {
      assert a != [] ==> a[0] in a && HasId(b, a[0].id);
      assert b != [] ==> b[0] in b && HasId(a, b[0].id);
    } else {
      SameFirst(files, files', last, a, b);
      UnseenTail(files, last, a);
      UnseenTail(files', last, b);
      UnseenUnique(files, files', a[0].id, a[1..], b[1..]);
      assert a == [a[0]] + a[1..] && b == [b[0]] + b[1..];
    }
  }

  lemma {:induction false} SameFirst(files: seq<RotatedFile>, files': seq<RotatedFile>, last: string,
                                     a: seq<RotatedFile>, b: seq<RotatedFile>)
    requires forall f :: f in files <==> f in files'
    requires Consistent(files)
    requires Unseen(files, last, a) && Unseen(files', last, b) && a != [] && b != []
    ensures a[0] == b[0]
  {
    assert a[0] in a && b[0] in b;
    assert HasId(b, a[0].id) && HasId(a, b[0].id);
    var i :| 0 <= i < |a| && a[i].id == b[0].id;
    var j :| 0 <= j < |b| && b[j].id == a[0].id;
    LessIrreflexive(a[0].id);
    if i > 0 && j > 0 {
      LessTransitive(a[0].id, b[0].id, a[0].id);
    }
  }

  /** After the newest listed generation nothing is unseen. */
  lemma {:induction false} NothingAfterNewest(files: seq<RotatedFile>, newest: string, out: seq<RotatedFile>)
    requires Unseen(files, newest, out)
    requires forall f :: f in files ==> !Less(newest, f.id)
    ensures out == []
  {
    if out != [] {
      FirstListed(out);
    }
  }
}

/** The poller of one node. Its methods follow the collector's control flow over a directory
    that other processes change between any two requests; a ghost trace records which atomic
    steps of the tailing protocol they take. */
module Poller {
  import opened LogLines
  import opened ActiveRead
  import opened LogReader
  import opened Options
  import opened Rotation
  import opened RotationName
  import opened Tailing

  datatype Checkpoint = Checkpoint(
    nodeName: string, nodeUID: string, byteOffset: nat, lastObservedSize: nat,
    lastRecordHash: Digest, lastRotationID: string)

  function ZeroCheckpoint(nodeName: string): Checkpoint {
    Checkpoint(nodeName, "", 0, 0, ZERO_DIGEST, "")
  }

  /** Per-node progress. */
  class CheckpointStore {
    var checkpoints: map<string, Checkpoint>

    constructor ()
      ensures checkpoints == map[]
    {
      checkpoints := map[];
    }

    /** The stored checkpoint; an absent one is created first. */
    method Get(nodeName: string) returns (cp: Checkpoint)
      modifies this
      ensures nodeName in checkpoints && cp == checkpoints[nodeName]
      ensures checkpoints == old(checkpoints)[nodeName := if nodeName in old(checkpoints) then old(checkpoints)[nodeName] else ZeroCheckpoint(nodeName)]
    {
      if nodeName !in checkpoints {
        checkpoints := checkpoints[nodeName := ZeroCheckpoint(nodeName)];
      }
      cp := checkpoints[nodeName];
    }

    method Set(nodeName: string, cp: Checkpoint)
      modifies this
      ensures checkpoints == old(checkpoints)[nodeName := cp]
    {
      checkpoints := checkpoints[nodeName := cp];
    }

    /** Drops exactly the nodes that are gone; those that stay keep their progress. */
    method Retain(activeNodes: set<string>) returns (removed: set<string>)
      modifies this
      ensures removed == old(checkpoints).Keys - activeNodes
      ensures checkpoints.Keys == old(checkpoints).Keys * activeNodes
      ensures forall n :: n in checkpoints ==> checkpoints[n] == old(checkpoints)[n]
    {
      removed := checkpoints.Keys - activeNodes;
      checkpoints := checkpoints - removed;
    }
  }

  // ---------------------------------------------------------------- the directory

  predicate HasFile(form: Form, compressed: bool) {
    match form
    case Plain => !compressed
    case Compressing => true
    case Compressed => compressed
    case Gone => false
  }

  /** The active file. */
  const BASE := "network-policy-agent.log"

  function NameOf(id: string, compressed: bool): string {
    "network-policy-agent" + "-" + (id + ".log" + (if compressed then GZ else ""))
  }

  /** The ID of a generation is the time of its rotation. */
  predicate Stamped(id: string): (b: bool)
    ensures b ==> id != ""
  {
    ParseStamp(id).Some?
  }

  lemma {:induction false} BaseParts()
    ensures SplitActiveBase(BASE) == ("network-policy-agent", ".log")
  {
    hide LastDot;
    assert BASE == "network-policy-agent" + ".log";
    assert BASE[20] == '.' && BASE[21] != '.' && BASE[22] != '.' && BASE[23] != '.' && |BASE| == 24;
    assert LastDot(BASE) == 20;
  }

  lemma {:induction false} NameParses(id: string, compressed: bool)
    requires Stamped(id)
    ensures ParseRotationFilename(NameOf(id, compressed), BASE) == Some(RotatedFile(id, NameOf(id, compressed), compressed))
  {
    hide Format, ParseStamp, ParseRotationFilename, SplitActiveBase;
    BaseParts();
    FormatParse(id);
    RoundTrip(BASE, ParseStamp(id).value, compressed);
  }

  lemma {:induction false} StampExample()
    ensures Stamped("2026-08-07T15-04-05.000")
  {
    hide Format, ParseStamp;
    FormatExample();
    ParseFormat(Stamp.Stamp(2026, 8, 7, 15, 4, 5, 0));
  }

  /** Names of generations, by example. */
  lemma {:induction false} NameExample()
    ensures var id := "2026-08-07T15-04-05.000";
      var plain, compressed := "network-policy-agent" + "-" + (id + ".log" + ""), "network-policy-agent" + "-" + (id + ".log" + ".gz");
      && ParseRotationFilename(plain, "network-policy-agent.log") == Some(RotatedFile(id, plain, false))
      && ParseRotationFilename(compressed, "network-policy-agent.log") == Some(RotatedFile(id, compressed, true))
  {
    hide Stamped, ParseRotationFilename;
    StampExample();
    NameParses("2026-08-07T15-04-05.000", false);
    NameParses("2026-08-07T15-04-05.000", true);
  }

  /** The directory holds this name for this file of a generation. */
  predicate Holds(gens: seq<Generation>, i: nat, compressed: bool, name: string) {
    i < |gens| && HasFile(gens[i].form, compressed) && name == NameOf(gens[i].id, compressed)
  }

  /** The names in the directory: the files of the generations, and others that are not taken for
      generations. */
  ghost predicate Directory(gens: seq<Generation>, names: seq<string>) {
    && (forall name :: name in names && ParseRotationFilename(name, BASE).Some? ==> exists i: nat, c :: Holds(gens, i, c, name))
    && (forall i: nat, c, name :: Holds(gens, i, c, name) ==> name in names)
  }

  ghost predicate Listed(gens: seq<Generation>, f: RotatedFile) {
    f.filename == NameOf(f.id, f.compressed) &&
    exists i :: 0 <= i < |gens| && gens[i].id == f.id && HasFile(gens[i].form, f.compressed)
  }

  ghost predicate Listing(gens: seq<Generation>, files: seq<RotatedFile>) {
    forall f :: f in files <==> Listed(gens, f)
  }

  /** IDs are timestamps. */
  ghost predicate Dated(gens: seq<Generation>) {
    forall i :: 0 <= i < |gens| ==> Stamped(gens[i].id)
  }

  /** IDs of successive generations increase. */
  ghost predicate Ordered(gens: seq<Generation>) {
    && (forall i :: 0 <= i < |gens| ==> gens[i].id != "")
    && forall i, j :: 0 <= i < j < |gens| ==> Less(gens[i].id, gens[j].id)
  }

  /** Among the generations still present, those after the last processed ID are those from
      the cursor on. */
  ghost predicate Anchored(gens: seq<Generation>, lastId: string, cursor: nat) {
    cursor <= |gens| &&
    forall i :: 0 <= i < |gens| && gens[i].form != Gone ==> (Less(lastId, gens[i].id) <==> i >= cursor)
  }

  /** The ID is empty or that of a generation. */
  ghost predicate Known(gens: seq<Generation>, id: string) {
    id == "" || exists i :: 0 <= i < |gens| && gens[i].id == id
  }

  ghost predicate AllPresent(gens: seq<Generation>, cursor: nat) {
    cursor <= |gens| && forall i :: cursor <= i < |gens| ==> gens[i].form != Gone
  }

  /** Other processes only add generations and move existing ones on. */
  ghost predicate Evolves(old_: seq<Generation>, new_: seq<Generation>) {
    && |old_| <= |new_|
    && forall i :: 0 <= i < |old_| ==>
        new_[i].id == old_[i].id && new_[i].content == old_[i].content && (old_[i].form == Gone ==> new_[i].form == Gone)
  }

  /** A file of a generation is there no more. */
  predicate Vanishes(was: Form, now: Form) {
    (HasFile(was, false) && !HasFile(now, false)) || (HasFile(was, true) && !HasFile(now, true))
  }

  ghost predicate NothingVanished(old_: seq<Generation>, new_: seq<Generation>) {
    |old_| <= |new_| && forall i :: 0 <= i < |old_| ==> !Vanishes(old_[i].form, new_[i].form)
  }

  /** Where the unseen files are among the generations. */
  ghost predicate Located(gens: seq<Generation>, unseen: seq<RotatedFile>, at: seq<nat>) {
    |at| == |unseen| && forall m :: 0 <= m < |at| ==> at[m] < |gens| && gens[at[m]].id == unseen[m].id
  }

  /** They are one after the other. */
  ghost predicate FromOn(at: seq<nat>, cursor: nat) {
    forall m :: 0 <= m < |at| ==> at[m] == cursor + m
  }

  ghost predicate AnyGone(gens: seq<Generation>, at: seq<nat>) {
    exists m :: 0 <= m < |at| && at[m] < |gens| && gens[at[m]].form == Gone
  }

  lemma {:induction false} LocatedAt(gens: seq<Generation>, unseen: seq<RotatedFile>, at: seq<nat>, m: nat)
    requires Located(gens, unseen, at)
    ensures |at| == |unseen| && (m < |at| ==> at[m] < |gens| && gens[at[m]].id == unseen[m].id)
  {
  }

  lemma {:induction false} FromOnAt(at: seq<nat>, cursor: nat, m: nat)
    ensures FromOn(at, cursor) && m < |at| ==> at[m] == cursor + m && (m > 0 ==> at[m - 1] == cursor + (m - 1))
  {
  }

  lemma {:induction false} StillOnTheWay(a: seq<Generation>, b: seq<Generation>, c: seq<Generation>, unseen: seq<RotatedFile>, at: seq<nat>)
    requires Evolves(b, c) && Located(b, unseen, at)
    ensures Located(c, unseen, at)
    ensures AnyGone(b, at) ==> AnyGone(c, at)
    ensures NothingVanished(a, b) && NothingVanished(b, c) ==> NothingVanished(a, c)
  {
    if AnyGone(b, at) {
      var m :| 0 <= m < |at| && at[m] < |b| && b[at[m]].form == Gone;
      assert c[at[m]].form == Gone;
    }
  }

  /** Of a generation that is drained, the first from an offset on. */
  predicate NeedNotFit(content: Bytes, first: nat, j: nat, offset: nat) {
    !FitsSurely(content, if j == first then SkipTo(content, offset) else 0)
  }

  lemma {:induction false} VanishNever(gens: seq<Generation>)
    ensures NothingVanished(gens, gens) && Evolves(gens, gens)
  {
  }

  lemma {:induction false} VanishTwice(a: seq<Generation>, b: seq<Generation>, c: seq<Generation>)
    ensures NothingVanished(a, b) && NothingVanished(b, c) ==> NothingVanished(a, c)
    ensures Evolves(a, b) && Evolves(b, c) ==> Evolves(a, c)
  {
  }

  lemma {:induction false} NoneGone(was: seq<Generation>, now: seq<Generation>, at: seq<nat>, cursor: nat)
    requires forall m :: 0 <= m < |at| ==> cursor <= at[m] < |was|
    ensures NothingVanished(was, now) && AllPresent(was, cursor) ==> |was| <= |now|
    ensures NothingVanished(was, now) && AllPresent(was, cursor) ==> forall m :: 0 <= m < |at| ==> now[at[m]].form != Gone
  {
  }

  lemma {:induction false} IndexUnique(gens: seq<Generation>, i: nat, j: nat)
    requires Ordered(gens) && i < |gens| && j < |gens| && gens[i].id == gens[j].id
    ensures i == j
  {
    LessIrreflexive(gens[i].id);
  }

  lemma {:induction false} IndexOrder(gens: seq<Generation>, i: nat, j: nat)
    requires Ordered(gens) && i < |gens| && j < |gens| && Less(gens[i].id, gens[j].id)
    ensures i < j
  {
    LessIrreflexive(gens[i].id);
    if j < i {
      LessTransitive(gens[i].id, gens[j].id, gens[i].id);
    }
  }

  lemma {:induction false} StillKnown(g: seq<Generation>, g': seq<Generation>, id: string)
    requires Known(g, id) && Evolves(g, g')
    ensures Known(g', id)
  {
    if id != "" {
      var i :| 0 <= i < |g| && g[i].id == id;
      assert g'[i].id == id;
    }
  }

  lemma {:induction false} ReformKeeps(g: seq<Generation>, i: nat, form: Form)
    requires Ordered(g) && i < |g| && g[i].form != Gone
    ensures var g' := g[i := g[i].(form := form)];
      && Ordered(g') && (Dated(g) ==> Dated(g')) && Evolves(g, g')
      && (forall id :: Known(g, id) ==> Known(g', id))
      && (forall id, cursor :: Anchored(g, id, cursor) ==> Anchored(g', id, cursor))
  {
    hide Less, Stamped, NameOf;
    var g' := g[i := g[i].(form := form)];
    assert Evolves(g, g');
    forall id | Known(g, id) ensures Known(g', id) {
      StillKnown(g, g', id);
    }
  }

  lemma {:induction false} NewIsLater(g: seq<Generation>, lastId: string, id: string)
    requires Known(g, lastId) && id != "" && forall i :: 0 <= i < |g| ==> Less(g[i].id, id)
    ensures Less(lastId, id)
  {
  }

  /** Where the unseen files are in the history of generations. */
  lemma {:induction false} Locate(gens: seq<Generation>, files: seq<RotatedFile>, lastId: string, cursor: nat, unseen: seq<RotatedFile>)
    returns (at: seq<nat>)
    requires Ordered(gens) && Anchored(gens, lastId, cursor) && Listing(gens, files) && Unseen(files, lastId, unseen)
    ensures |at| == |unseen|
    ensures forall m :: 0 <= m < |at| ==> cursor <= at[m] < |gens| && gens[at[m]].id == unseen[m].id
    ensures forall m, n :: 0 <= m < n < |at| ==> at[m] < at[n]
    ensures AllPresent(gens, cursor) ==> cursor + |at| == |gens| && forall m :: 0 <= m < |at| ==> at[m] == cursor + m
  {
    hide Less, Stamped, NameOf;
    at := [];
    for m := 0 to |unseen|
      invariant |at| == m
      invariant forall k :: 0 <= k < m ==> cursor <= at[k] < |gens| && gens[at[k]].id == unseen[k].id
      invariant forall k, n :: 0 <= k < n < m ==> at[k] < at[n]
    {
      assert unseen[m] in unseen;
      assert Listed(gens, unseen[m]);
      var i :| 0 <= i < |gens| && gens[i].id == unseen[m].id && HasFile(gens[i].form, unseen[m].compressed);
      forall k | 0 <= k < m ensures at[k] < i {
        IndexOrder(gens, at[k], i);
      }
      at := at + [i];
    }
    if AllPresent(gens, cursor) {
      AllLocated(gens, files, lastId, cursor, unseen, at);
      Interval(at, cursor, |gens|);
    }
  }

  lemma {:induction false} AllLocated(gens: seq<Generation>, files: seq<RotatedFile>, lastId: string, cursor: nat,
                                      unseen: seq<RotatedFile>, at: seq<nat>)
    requires Ordered(gens) && Anchored(gens, lastId, cursor) && Listing(gens, files) && Unseen(files, lastId, unseen)
    requires |at| == |unseen|
    requires forall m :: 0 <= m < |at| ==> at[m] < |gens| && gens[at[m]].id == unseen[m].id
    requires AllPresent(gens, cursor)
    ensures forall i :: cursor <= i < |gens| ==> i in at
  {
    hide NameOf, Stamped, Less;
    forall i | cursor <= i < |gens| ensures i in at {
      var f := RotatedFile(gens[i].id, NameOf(gens[i].id, gens[i].form == Compressed), gens[i].form == Compressed);
      assert Listed(gens, f);
      assert f in files;
      var g :| g in unseen && g.id == f.id;
      var m :| 0 <= m < |unseen| && unseen[m] == g;
      IndexUnique(gens, at[m], i);
    }
  }

  /** A strictly increasing sequence that fills an interval lists it. */
  lemma {:induction false} Interval(at: seq<nat>, lo: nat, hi: nat)
    requires lo <= hi
    requires forall m :: 0 <= m < |at| ==> lo <= at[m] < hi
    requires forall m, n :: 0 <= m < n < |at| ==> at[m] < at[n]
    requires forall i :: lo <= i < hi ==> i in at
    ensures lo + |at| == hi && forall m :: 0 <= m < |at| ==> at[m] == lo + m
    decreases |at|
  {
    if at == [] {
      assert lo < hi ==> lo in at;
    } else {
      assert lo <= at[0] < hi;
      assert lo in at;
      var k :| 0 <= k < |at| && at[k] == lo;
      assert at[0] <= at[k];
      forall i | lo + 1 <= i < hi ensures i in at[1..] {
        assert i in at;
        var m :| 0 <= m < |at| && at[m] == i;
        assert at[1..][m - 1] == i;
      }
      Interval(at[1..], lo + 1, hi);
      assert forall m :: 1 <= m < |at| ==> at[m] == at[1..][m - 1];
    }
  }

  // ---------------------------------------------------------------- rotated files

  datatype Opened = NotFound | OpenFailed | Stream(data: Bytes, clean: bool)

  /** bufio.Scanner with its buffer limit, over a stream that may break off. */
  class LineScanner {
    const data: Bytes
    const clean: bool
    var pos: nat
    var token: Bytes
    var err: bool

    constructor (data: Bytes, clean: bool, from: nat)
      requires from <= |data|
      ensures this.data == data && this.clean == clean && pos == from && !err
    {
      this.data, this.clean, pos, token, err := data, clean, from, [], false;
    }

    /** The next line without one carriage return, or false at the end or at an error. A line
        that does not fit the buffer is an error; one without its newline that just fills it
        may be. */
    method Scan() returns (ok: bool)
      requires pos <= |data| && !err
      modifies this
      ensures pos <= |data|
      ensures ok ==> old(pos) < pos && !err
      ensures ok ==>
        var p := NextNL(data, old(pos));
        (if old(pos) < p && data[p - 1] == CR then token == data[old(pos)..p - 1] else token == data[old(pos)..p]) && pos == (if p < |data| then p + 1 else p) && pos - old(pos) <= MAX_LINE
      ensures !ok && !err ==> clean && old(pos) == |data|
      ensures !ok && err && clean ==> !FitsSurely(data, old(pos))
    {
      NextFits(data, pos);
      var p := NextNL(data, pos);
      if pos == |data| {
        err := !clean;
        return false;
      }
      var full := if p < |data| then p + 1 - pos else p - pos;
      if full > MAX_LINE {
        err := true;
        return false;
      }
      if p == |data| && full == MAX_LINE {
        if * {
          err := true;
          return false;
        }
      }
      token := DropCR(data[pos..p]);
      pos := if p < |data| then p + 1 else p;
      return true;
    }
  }

  /** All lines fit, and a last one without its newline does not just fill the buffer. */
  predicate FitsSurely(data: Bytes, lo: nat)
    requires lo <= |data|
  {
    Fits(data, lo) && |data| - CompleteEnd(data, lo) != MAX_LINE
  }

  lemma {:induction false} NextFits(data: Bytes, pos: nat)
    requires pos <= |data|
    ensures var p := NextNL(data, pos);
      FitsSurely(data, pos) <==> if p == |data| then p - pos < MAX_LINE else p + 1 - pos <= MAX_LINE && FitsSurely(data, p + 1)
  {
  }

  /** Hands over every non-empty line of a rotated file from `from` on; of a clean stream whose
      lines all fit it fails only if one is refused. */
  method ProcessReader(data: Bytes, clean: bool, from: nat, sink: Sink) returns (ok: bool)
    requires from <= |data|
    modifies sink
    ensures old(sink.got) <= sink.got
    ensures ok ==> clean && Fits(data, from) && sink.got == old(sink.got) + Compact(Tokens(data, from))
    ensures sink.refusals >= old(sink.refusals)
    ensures !ok && clean && FitsSurely(data, from) ==> sink.refusals > old(sink.refusals)
  {
    hide Tokens, Compact, Fits, FitsSurely, NextNL, DropCR;
    TokensEnd(data);
    var scanner := new LineScanner(data, clean, from);
    ghost var before := sink.got;
    while true
      invariant scanner.data == data && scanner.clean == clean && from <= scanner.pos <= |data| && !scanner.err
      invariant before <= sink.got && sink.refusals == old(sink.refusals)
      invariant sink.got + Compact(Tokens(data, scanner.pos)) == before + Compact(Tokens(data, from))
      invariant Fits(data, scanner.pos) ==> Fits(data, from)
      invariant FitsSurely(data, from) ==> FitsSurely(data, scanner.pos)
      decreases |data| - scanner.pos
    {
      ghost var pos := scanner.pos;
      ghost var got := sink.got;
      var more := scanner.Scan();
      if !more {
        break;
      }
      Scanned(data, pos, scanner.pos, scanner.token);
      if scanner.token != [] {
        var emitted := sink.Emit(scanner.token);
        if !emitted {
          return false;
        }
      }
      ConcatAssoc(got, if scanner.token == [] then [] else [scanner.token], Compact(Tokens(data, scanner.pos)));
    }
    if scanner.err {
      return false;
    }
    assert sink.got + [] == sink.got;
    return true;
  }

  lemma {:induction false} DropCRIs(data: Bytes, from: nat, to: nat)
    requires from <= to <= |data|
    ensures DropCR(data[from..to]) == if from < to && data[to - 1] == CR then data[from..to - 1] else data[from..to]
  {
    assert from < to ==> data[from..to][..to - from - 1] == data[from..to - 1];
  }

  /** What the scanner gives is the next of the tokens. */
  lemma {:induction false} Scanned(data: Bytes, pos: nat, next: nat, token: Bytes)
    requires pos < next <= |data| && next - pos <= MAX_LINE
    requires var p := NextNL(data, pos);
      next == (if p < |data| then p + 1 else p)
      && if pos < p && data[p - 1] == CR then token == data[pos..p - 1] else token == data[pos..p]
    ensures Compact(Tokens(data, pos)) == (if token == [] then [] else [token]) + Compact(Tokens(data, next))
    ensures Fits(data, next) ==> Fits(data, pos)
    ensures FitsSurely(data, pos) ==> FitsSurely(data, next)
  {
    hide Tokens, Compact, Fits, FitsSurely, NextNL, DropCR;
    TokenStep(data, pos);
    DropCRIs(data, pos, NextNL(data, pos));
    NextFits(data, pos);
    TokensEnd(data);
  }

  lemma {:induction false} TokensEnd(data: Bytes)
    ensures Compact(Tokens(data, |data|)) == [] && Fits(data, |data|) && FitsSurely(data, |data|)
  {
  }

  lemma {:induction false} TokenStep(data: Bytes, pos: nat)
    requires pos < |data|
    ensures var p := NextNL(data, pos);
      var next := if p < |data| then p + 1 else p;
      var t := data[pos..p];
      && Compact(Tokens(data, pos)) == (if DropCR(t) == [] then [] else [DropCR(t)]) + Compact(Tokens(data, next))
      && (next - pos <= MAX_LINE && Fits(data, next) ==> Fits(data, pos))
  {
    var p := NextNL(data, pos);
    var next := if p < |data| then p + 1 else p;
    assert Tokens(data, pos) == [data[pos..p]] + Tokens(data, next);
    assert Tokens(data, pos)[1..] == Tokens(data, next);
  }

  // ---------------------------------------------------------------- the poller

  /** The poller of one node, with its checkpoint, its sink and the node's log directory. */
  class AutoModeClient {
    const nodeName: string
    const nodeUID: string
    const checkpoints: CheckpointStore
    const sink: Sink

    // The node's log directory, which other processes change.
    var gens: seq<Generation>
    var active: Bytes

    var gapsReported: nat
    var requests: seq<nat>       // where each request for the active file asked to begin

    // What has happened so far, in terms of the tailing protocol.
    ghost const initial: State
    ghost var trace: seq<Step>
    ghost var s: State
    ghost var rotated: bool      // a rotation fell into the poll under way
    ghost var faithful: bool     // every answer so far was honest, about files of short records
    ghost var troubles: nat      // requests that failed or broke off, and files that vanished

    /** The trace accounts for the directory and for the checkpoint; between two steps the sink
        may be ahead. */
    ghost predicate Recorded()
      reads this, checkpoints
    {
      && nodeUID != ""
      && Fresh(initial) && s == Exec(initial, trace)
      && s.gens == gens && s.active == active
      && Ordered(gens) && Dated(gens)
      && (s.booted <==> nodeName in checkpoints.checkpoints && checkpoints.checkpoints[nodeName].nodeUID == nodeUID)
      && (s.booted ==> Anchored(gens, s.lastId, s.cursor) && Known(gens, s.lastId) && Stored(checkpoints.checkpoints[nodeName], s))
    }

    /** Nothing is under way. */
    ghost predicate Valid()
      reads this, checkpoints, sink
    {
      Recorded() && s.sink == sink.got && !s.mismatch
    }

    constructor (nodeName: string, nodeUID: string, checkpoints: CheckpointStore, sink: Sink, gens: seq<Generation>, active: Bytes)
      requires nodeUID != "" && sink.got == [] && Ordered(gens) && Dated(gens)
      requires nodeName in checkpoints.checkpoints ==> checkpoints.checkpoints[nodeName].nodeUID != nodeUID
      ensures Valid() && trace == [] && !s.booted && this.gens == gens && this.active == active
      ensures this.nodeName == nodeName && this.nodeUID == nodeUID && this.checkpoints == checkpoints && this.sink == sink
      ensures OrderlySoFar() && UndisturbedSoFar()
    {
      this.nodeName, this.nodeUID, this.checkpoints, this.sink := nodeName, nodeUID, checkpoints, sink;
      this.gens, this.active, this.gapsReported, this.requests := gens, active, 0, [];
      initial := State(gens, active, false, 0, 0, 0, "", 0, ZERO_DIGEST, [], {}, false, false);
      s := State(gens, active, false, 0, 0, 0, "", 0, ZERO_DIGEST, [], {}, false, false);
      trace, rotated, faithful, troubles := [], false, true, 0;
    }

    ghost predicate OrderlySoFar()
      reads this
    {
      OrderlyRun(initial, trace)
    }

    ghost predicate UndisturbedSoFar()
      reads this
    {
      UndisturbedRun(initial, trace)
    }

    /** Records one step of the protocol. */
    ghost method Log(step: Step)
      requires s == Exec(initial, trace)
      modifies this`s, this`trace
      ensures trace == old(trace) + [step] && s == Apply(old(s), step) && s == Exec(initial, trace)
      ensures old(OrderlySoFar()) && Orderly(old(s), step) ==> OrderlySoFar()
      ensures old(UndisturbedSoFar()) && Undisturbed(old(s), step) ==> UndisturbedSoFar()
    {
      hide Apply, Orderly, Undisturbed;
      trace := trace + [step];
      s := Apply(s, step);
      var n := |trace| - 1;
      assert trace[..n] == old(trace);
      assert forall i :: 0 <= i < n ==> trace[..i] == old(trace)[..i];
    }

    /** A request failed or broke off, a file vanished, or a record was not taken. */
    twostate predicate Failure()
      reads this, sink
    {
      troubles > old(troubles) || sink.refusals > old(sink.refusals)
    }

    /** Only the directory has changed. */
    twostate predicate OnlyDirectory()
      reads this
    {
      && Evolves(old(gens), gens) && Same(old(s), s)
      && (old(OrderlySoFar()) && (!s.stale || !rotated) ==> OrderlySoFar())
      && (old(UndisturbedSoFar()) ==> UndisturbedSoFar())
      && old(trace) <= trace
      && (old(rotated) ==> rotated)
      && (!rotated ==> |gens| == |old(gens)|) && (rotated ==> old(rotated) || |gens| > |old(gens)|)
      && old(troubles) <= troubles && (troubles == old(troubles) ==> NothingVanished(old(gens), gens))
    }

    method AppendToActive(data: Bytes)
      requires Recorded()
      modifies this`active, this`s, this`trace
      ensures Recorded() && OnlyDirectory()
    {
      Log(Append(data));
      active := active + data;
    }

    /** Between two polls the active file may be replaced in place. */
    method TruncateActive(data: Bytes)
      requires Valid()
      modifies this`active, this`s, this`trace
      ensures Valid() && active == data && trace == old(trace) + [Truncate(data)]
      ensures s.booted == old(s.booted)
      ensures old(OrderlySoFar()) ==> OrderlySoFar()
    {
      hide Less, OrderlyRun, UndisturbedRun, Exec, Anchored, Known, Ordered, Stamped;
      Log(Truncate(data));
      active := data;
    }

    method Rotate(id: string)
      requires Recorded() && Stamped(id) && forall i :: 0 <= i < |gens| ==> Less(gens[i].id, id)
      modifies this`gens, this`active, this`s, this`trace, this`rotated, this`troubles
      ensures Recorded() && OnlyDirectory()
    {
      hide Less, OrderlyRun, UndisturbedRun, Exec, Fresh, Stamped;
      ghost var before := gens;
      if s.booted {
        NewIsLater(gens, s.lastId, id);
      }
      Log(Step.Rotate(id));
      gens, active := gens + [Generation(id, active, Plain)], [];
      rotated := true;
      if s.booted {
        StillKnown(before, gens, s.lastId);
      }
    }

    method Reform(i: nat, form: Form)
      requires Recorded() && i < |gens| && gens[i].form != Gone
      modifies this`gens, this`s, this`trace, this`troubles
      ensures Recorded() && OnlyDirectory()
    {
      hide Less, OrderlyRun, UndisturbedRun, Exec, Fresh, Anchored, Known, Ordered, Stamped;
      ReformKeeps(gens, i, form);
      Log(Step.Reform(i, form));
      if Vanishes(gens[i].form, form) {
        troubles := troubles + 1;
      }
      gens := gens[i := gens[i].(form := form)];
    }

    /** Other processes append to the active file, rotate it, compress generations and delete
        them, any number of times. */
    method Interfere()
      requires Recorded()
      modifies this`gens, this`active, this`s, this`trace, this`rotated, this`troubles
      ensures Recorded() && OnlyDirectory()
    {
      hide Recorded;
      var n: nat :| true;
      while n > 0
        invariant Recorded() && OnlyDirectory()
      {
        InterfereOnce();
        n := n - 1;
      }
    }

    method InterfereOnce()
      requires Recorded()
      modifies this`gens, this`active, this`s, this`trace, this`rotated, this`troubles
      ensures Recorded() && OnlyDirectory()
    {
      hide Recorded, Less, Stamped;
      if {
        case true =>
          var data: Bytes :| true;
          AppendToActive(data);
        case true =>
          var id: string :| true;
          if Stamped(id) && forall i :: 0 <= i < |gens| ==> Less(gens[i].id, id) {
            Rotate(id);
          }
        case true =>
          var i: nat, form: Form :| true;
          if i < |gens| && gens[i].form != Gone {
            Reform(i, form);
          }
      }
    }

    // -------------------------------------------------------------- requests

    /** The names in the directory, in some order. */
    method Names() returns (names: seq<string>)
      ensures Directory(gens, names)
    {
      hide ParseRotationFilename, Less, Stamped, NameOf;
      names := [];
      for k := 0 to |gens|
        invariant Directory(gens[..k], names)
      {
        ghost var before := names;
        if HasFile(gens[k].form, false) {
          names := names + [NameOf(gens[k].id, false)];
        }
        if HasFile(gens[k].form, true) {
          names := [NameOf(gens[k].id, true)] + names;
        }
        DirectorySnoc(gens[..k], gens[k], before, names);
        assert gens[..k + 1] == gens[..k] + [gens[k]];
      }
      assert gens[..|gens|] == gens;
      ActiveRejected(BASE);
      names := [BASE] + names;
      var other: string :| true;
      if ParseRotationFilename(other, BASE) == None {
        names := names + [other];
      }
    }

    /** The rotated files among them. */
    method List() returns (files: seq<RotatedFile>, ok: bool)
      requires Dated(gens)
      modifies this`troubles
      ensures Listing(gens, files)
      ensures troubles == old(troubles) + (if ok then 0 else 1)
    {
      hide ParseRotationFilename, Less, Stamped, NameOf, Directory, Listing, Dated;
      var names := Names();
      files := [];
      for k := 0 to |names|
        invariant forall f :: f in files <==> exists i :: 0 <= i < k && ParseRotationFilename(names[i], BASE) == Some(f)
      {
        var parsed := ParseRotationFilename(names[k], BASE);
        if parsed.Some? {
          files := files + [parsed.value];
        }
      }
      ParsedIsListing(gens, names, files);
      ok := *;
      if !ok {
        troubles := troubles + 1;
      }
    }

    /** The active file from `rangeStart` on, unless the server ignores the range, serves
        another one or refuses; the body may break off. */
    method Respond(rangeStart: nat) returns (ok: bool, ans: Answer, body: BufReader)
      ensures fresh(body) && body.Valid()
      ensures StartOf(ans) <= |active| && body.pos == StartOf(ans) && body.file <= active
      ensures body.tail == EndOfFile ==> body.file == active
      ensures rangeStart == 0 ==> ans == Whole
    {
      ok, ans := *, Whole;
      if rangeStart > 0 {
        if {
          case true =>
          case true => ans := Unsatisfiable;
          case true =>
            var k: nat :| k <= |active|;
            ans := Ranged(k);
        }
      }
      var n: nat :| StartOf(ans) <= n <= |active|;
      var complete: bool := *;
      var tail := if complete && n == |active| then EndOfFile else Failed;
      body := new BufReader(active[..n], StartOf(ans), active[StartOf(ans)..n], 64 * 1024, tail);
    }

    /** Asks for it, of the file as it is by then. */
    method FetchActive(rangeStart: nat) returns (ok: bool, ans: Answer, body: BufReader)
      requires Recorded()
      modifies this`gens, this`active, this`s, this`trace, this`rotated, this`troubles, this`faithful, this`requests
      ensures Recorded() && OnlyDirectory()
      ensures requests == old(requests) + [rangeStart]
      ensures !ok || body.tail == Failed ==> troubles > old(troubles)
      ensures fresh(body) && body.Valid()
      ensures StartOf(ans) <= |active| && body.pos == StartOf(ans) && body.file <= active
      ensures body.tail == EndOfFile ==> body.file == active
      ensures rangeStart == 0 ==> ans == Whole
      ensures faithful ==> old(faithful) && ShortRecords(active)
      ensures faithful && ans.Ranged? ==> ans.start == rangeStart
      ensures faithful && ans.Unsatisfiable? ==> rangeStart >= |active|
      ensures old(faithful) && ShortRecords(active) && AsAsked(ans, rangeStart) ==> faithful
    {
      hide Less, OrderlyRun, UndisturbedRun, Exec, Fresh, Anchored, Known, Ordered, Stored, ShortRecords, Stamped, NothingVanished, Evolves;
      requests := requests + [rangeStart];
      Interfere();
      ok, ans, body := Respond(rangeStart);
      faithful := faithful && ShortRecords(active) && AsAsked(ans, rangeStart);
      if !ok || body.tail == Failed {
        troubles := troubles + 1;
      }
    }

    /** The server honoured the range or ignored it, and refused only one that begins past the end. */
    predicate AsAsked(ans: Answer, rangeStart: nat)
      reads this
    {
      match ans
      case Whole => true
      case Ranged(start) => start == rangeStart
      case Unsatisfiable => rangeStart >= |active|
    }

    /** One fetch of the active file, streamed to the sink. */
    method ReadActiveOnce(offset: nat, hash: Digest, rangeStart: nat)
      returns (ok: bool, res: StreamResult, ghost ans: Answer)
      requires Recorded()
      modifies this`gens, this`active, this`s, this`trace, this`rotated, this`troubles, this`faithful, this`requests, sink
      ensures Recorded() && OnlyDirectory()
      ensures old(sink.got) <= sink.got
      ensures sink.refusals >= old(sink.refusals)
      ensures !ok ==> Failure()
      ensures requests == old(requests) + [rangeStart]
      ensures StartOf(ans) <= |active|
      ensures ok && res.needReset ==> sink.got == old(sink.got)
      ensures ok && res.needReset ==> ans.Unsatisfiable? || Read(active, StartOf(ans), offset, hash).Reset?
      ensures ok && !res.needReset ==> !ans.Unsatisfiable?
      ensures ok && !res.needReset ==>
        var r := Read(active, StartOf(ans), offset, hash);
        r.Continue? && sink.got == old(sink.got) + r.texts && res.newOffset == r.newOffset && res.lastHash == r.lastHash
      ensures rangeStart == 0 ==> ans == Whole
      ensures faithful ==> old(faithful) && ShortRecords(active)
      ensures faithful && ans.Ranged? ==> ans.start == rangeStart
      ensures faithful && ans.Unsatisfiable? ==> rangeStart >= |active|
    {
      hide Recorded, Read, ShortRecords, Conclusive;
      var body, answer;
      ok, answer, body := FetchActive(rangeStart);
      ans := answer;
      res := StreamResult(false, true, 0, ZERO_DIGEST, 0, 0);
      if !ok || answer.Unsatisfiable? {
        return;
      }
      ok, res := StreamActive(StartOf(answer), body, offset, hash, sink);
      if ok && body.tail != EndOfFile {
        ConclusiveReset(body.file, active, StartOf(answer), offset, hash);
      }
    }

    /** Opens one rotated file, if it is there; what is delivered may break off. */
    method Open(f: RotatedFile, ghost j: nat) returns (r: Opened)
      requires Ordered(gens) && j < |gens| && gens[j].id == f.id
      modifies this`troubles
      ensures r.Stream? ==> r.data <= gens[j].content && (r.clean <==> r.data == gens[j].content)
      ensures r.NotFound? <==> !HasFile(gens[j].form, f.compressed)
      ensures old(troubles) <= troubles
      ensures r.OpenFailed? || (r.Stream? && !r.clean) ==> troubles > old(troubles)
    {
      hide Less;
      r := NotFound;
      for i := 0 to |gens|
        modifies this`troubles
        invariant r.Stream? ==> r.data <= gens[j].content && (r.clean <==> r.data == gens[j].content)
        invariant r.NotFound? <==> i <= j || !HasFile(gens[j].form, f.compressed)
        invariant old(troubles) <= troubles
        invariant r.OpenFailed? || (r.Stream? && !r.clean) ==> troubles > old(troubles)
      {
        if gens[i].id == f.id {
          IndexUnique(gens, i, j);
          if HasFile(gens[i].form, f.compressed) {
            var n: nat :| n <= |gens[i].content|;
            var fails: bool := *;
            fails := fails || (f.compressed && gens[i].form == Compressing);
            r := if fails then OpenFailed else Stream(gens[i].content[..n], n == |gens[i].content|);
            if fails || n < |gens[i].content| {
              troubles := troubles + 1;
            }
          }
        }
      }
    }

    /** Opens a generation. When the listed file has been compressed away, the directory is
        listed again; when the generation is gone, that is a gap and no error. */
    method OpenGeneration(rot: RotatedFile, ghost j: nat) returns (r: Opened, gap: bool)
      requires Recorded() && j < |gens| && gens[j].id == rot.id
      modifies this`gens, this`active, this`s, this`trace, this`rotated, this`troubles
      ensures Recorded() && OnlyDirectory()
      ensures r.Stream? ==> r.data <= gens[j].content && (r.clean ==> r.data == gens[j].content)
      ensures !gap && (!r.Stream? || !r.clean) ==> troubles > old(troubles)
      ensures gap ==> !r.Stream? && gens[j].form == Gone
    {
      hide OrderlyRun, UndisturbedRun, Exec, Anchored, Fresh, Known, Stored, Less, Stamped, HasFile;
      gap := false;
      Interfere();
      r := Open(rot, j);
      if r.NotFound? {
        r, gap := Reopen(rot.id, j);
      }
    }

    /** Finds the file that a generation has by now, and opens that. */
    method Reopen(id: string, ghost j: nat) returns (r: Opened, gap: bool)
      requires Recorded() && j < |gens| && gens[j].id == id
      modifies this`gens, this`active, this`s, this`trace, this`rotated, this`troubles
      ensures Recorded() && OnlyDirectory()
      ensures r.Stream? ==> r.data <= gens[j].content && (r.clean ==> r.data == gens[j].content)
      ensures !gap && (!r.Stream? || !r.clean) ==> troubles > old(troubles)
      ensures gap ==> !r.Stream? && gens[j].form == Gone
    {
      hide OrderlyRun, UndisturbedRun, Exec, Anchored, Fresh, Known, Stored, Less, Stamped, HasFile;
      Interfere();
      var files, listed := List();
      if !listed {
        return OpenFailed, false;
      }
      var resolved, found := FindRotationByID(files, id);
      if !found {
        PresentIsListed(gens, files, j);
        return NotFound, true;
      }
      r := OpenListed(resolved, files, j);
      gap := false;
    }

    method OpenListed(f: RotatedFile, ghost files: seq<RotatedFile>, ghost j: nat) returns (r: Opened)
      requires Recorded() && j < |gens| && gens[j].id == f.id && Listing(gens, files) && f in files
      modifies this`gens, this`active, this`s, this`trace, this`rotated, this`troubles
      ensures Recorded() && OnlyDirectory()
      ensures r.Stream? ==> r.data <= gens[j].content && (r.clean ==> r.data == gens[j].content)
      ensures !r.Stream? || !r.clean ==> troubles > old(troubles)
    {
      hide OrderlyRun, UndisturbedRun, Exec, Anchored, Fresh, Known, Stored, Less, Stamped, HasFile, Listing;
      ghost var listing := gens;
      Interfere();
      StillThere(listing, files, gens, f, j);
      r := Open(f, j);
    }

    /** Reads one generation from `skip` on. */
    method RecoverRotatedFile(rot: RotatedFile, skip: nat, ghost j: nat) returns (recovered: bool, ok: bool)
      requires Recorded() && j < |gens| && gens[j].id == rot.id
      modifies this`gens, this`active, this`s, this`trace, this`rotated, this`troubles, sink
      ensures Recorded() && OnlyDirectory()
      ensures old(sink.got) <= sink.got
      ensures sink.refusals >= old(sink.refusals)
      ensures !ok && FitsSurely(gens[j].content, SkipTo(gens[j].content, skip)) ==> Failure()
      ensures ok && recovered ==>
        var content := gens[j].content;
        var from := SkipTo(content, skip);
        Fits(content, from) && sink.got == old(sink.got) + Compact(Tokens(content, from))
      ensures ok && !recovered ==> sink.got == old(sink.got) && gens[j].form == Gone
    {
      hide OrderlyRun, UndisturbedRun, Exec, Anchored, Fresh, Known, Stored, Less, Tokens, Fits, Compact, Stamped;
      var r, gap := OpenGeneration(rot, j);
      if gap {
        return false, true;
      }
      if !r.Stream? || (skip > |r.data| && !r.clean) {
        return false, false;
      }
      var from := if skip <= |r.data| then skip else |r.data|;
      ok := ProcessReader(r.data, r.clean, from, sink);
      recovered := ok;
    }

    // -------------------------------------------------------------- the active file

    /** The tail was asked for, from one overlap before the offset on, and then the whole file if the
        tail did not continue it. */
    twostate predicate Requested(offset: nat)
      reads this
    {
      requests == old(requests) + [RangeStart(offset)] || requests == old(requests) + [RangeStart(offset), 0]
    }

    /** The file does not continue the checkpoint: reads it from the start. */
    method ReadAgain(ghost ans: Answer) returns (ok: bool, res: StreamResult)
      requires Recorded() && s.sink == sink.got && Enabled(s, Diverge(ans))
      modifies this`gens, this`active, this`s, this`trace, this`rotated, this`troubles, this`faithful, this`requests, sink
      ensures Recorded() && s.sink == old(sink.got) <= sink.got
      ensures Evolves(old(gens), gens) && SameButMismatch(old(s), s) && old(trace) <= trace
      ensures old(rotated) ==> rotated
      ensures !rotated ==> |gens| == |old(gens)|
      ensures old(OrderlySoFar()) && !rotated && old(s.cursor == |gens|) ==> OrderlySoFar()
      ensures faithful ==> old(faithful)
      ensures old(UndisturbedSoFar() && Undisturbed(s, Diverge(ans))) ==> UndisturbedSoFar()
      ensures old(troubles) <= troubles && sink.refusals >= old(sink.refusals)
      ensures NothingVanished(old(gens), gens) || troubles > old(troubles)
      ensures !ok ==> Failure()
      ensures requests == old(requests) + [0]
      ensures ok ==> var s' := ReadWhole(s);
        Enabled(s, Reread) && s'.sink == sink.got && s'.offset == res.newOffset && s'.hash == res.lastHash
    {
      hide OrderlyRun, UndisturbedRun, Exec, Anchored, Fresh, Known, Less, Ordered, Lines, CapAll, CompleteEnd, BoundaryRead, ShortRecords, Stamped;
      Log(Diverge(ans));
      ghost var again;
      ok, res, again := ReadActiveOnce(0, ZERO_DIGEST, 0);
    }

    /** Reads the active file from the checkpoint, and again from the start when it does not
        continue; the caller commits the step. A failure leaves the sink possibly ahead. */
    method ProcessActive(cp: Checkpoint, ghost boot: bool, ghost at: nat)
      returns (next: Checkpoint, ok: bool, ghost step: Step)
      requires Recorded() && s.sink == sink.got && !s.mismatch
      requires if boot then !s.booted && cp.byteOffset == 0 && cp.lastRecordHash == ZERO_DIGEST else s.booted && Stored(cp, s)
      modifies this`gens, this`active, this`s, this`trace, this`rotated, this`troubles, this`faithful, this`requests, sink
      ensures Recorded() && s.sink == old(sink.got) <= sink.got
      ensures Evolves(old(gens), gens) && SameButMismatch(old(s), s) && old(trace) <= trace
      ensures old(rotated) ==> rotated
      ensures !rotated ==> |gens| == |old(gens)|
      ensures old(OrderlySoFar()) && !rotated && (boot || old(s.cursor == |gens|)) ==> OrderlySoFar()
      ensures faithful ==> old(faithful)
      ensures old(UndisturbedSoFar()) && faithful ==> UndisturbedSoFar()
      ensures boot ==> !s.mismatch
      ensures ok ==> Enabled(s, step) && Committed(next, cp, s, step) && Apply(s, step).sink == sink.got
      ensures ok ==> if boot then step == Boot(cp.lastRotationID, at) else step.Reread? || (step.Resume? && !s.mismatch)
      ensures Requested(cp.byteOffset) && (ok ==> (step.Reread? <==> |requests| == |old(requests)| + 2))
      ensures ok && faithful && step.Resume? ==> Honest(s, step.ans)
      ensures next.nodeUID == nodeUID
      ensures old(troubles) <= troubles && sink.refusals >= old(sink.refusals)
      ensures NothingVanished(old(gens), gens) || troubles > old(troubles)
      ensures !ok ==> Failure()
    {
      hide OrderlyRun, UndisturbedRun, Exec, Anchored, Fresh, Known, Less, Ordered, Lines, CapAll, CompleteEnd, BoundaryRead, ShortRecords, Stamped, NothingVanished, Evolves;
      var rangeStart := if cp.byteOffset > OVERLAP then cp.byteOffset - OVERLAP else 0;
      next := cp.(nodeUID := nodeUID);
      step := Reread;
      var res: StreamResult;
      ghost var ans;
      ok, res, ans := ReadActiveOnce(cp.byteOffset, cp.lastRecordHash, rangeStart);
      if !ok {
        return;
      }
      step := if boot then Boot(cp.lastRotationID, at) else Resume(ans);
      if res.needReset {
        step := Reread;
        ghost var between := gens;
        ok, res := ReadAgain(ans);
        VanishTwice(old(gens), between, gens);
        if !ok {
          return;
        }
      }
      next := next.(byteOffset := res.newOffset, lastObservedSize := res.observedSize, lastRecordHash := res.lastHash);
    }

    /** A poll that fails keeps its checkpoint; what it handed over will be handed over again. */
    ghost method GiveUp()
      requires Recorded() && s.sink <= sink.got
      modifies this`s, this`trace
      ensures Valid() && old(trace) <= trace && (s.booted <==> old(s.booted)) && s.cursor == old(s.cursor) && s.lastId == old(s.lastId) && s.stale == old(s.stale)
      ensures old(OrderlySoFar()) ==> OrderlySoFar()
    {
      hide OrderlyRun, UndisturbedRun, Exec, Anchored, Fresh, Known, Less, Ordered, Stamped;
      Log(Fail(sink.got[|s.sink|..]));
    }

    /** Stores the checkpoint a read of the active file has led to. */
    method CommitRead(next: Checkpoint, ghost cp: Checkpoint, ghost step: Step)
      requires Recorded() && Enabled(s, step) && Apply(s, step).sink == sink.got && next.nodeUID == nodeUID
      requires Committed(next, cp, s, step)
      requires if step.Boot? then step.id == cp.lastRotationID && !s.mismatch && Anchored(gens, step.id, step.at) && Known(gens, step.id)
               else (step.Reread? || (step.Resume? && !s.mismatch)) && s.booted && Stored(checkpoints.checkpoints[nodeName], s)
                    && cp.lastRotationID == s.lastId
      modifies this`s, this`trace, checkpoints
      ensures Valid() && s.booted
      ensures trace == old(trace) + [step] && s == Apply(old(s), step)
      ensures old(OrderlySoFar()) && Orderly(old(s), step) ==> OrderlySoFar()
      ensures old(UndisturbedSoFar()) ==> UndisturbedSoFar()
    {
      hide OrderlyRun, UndisturbedRun, Exec, Anchored, Fresh, Known, Less, Ordered, Read, Lines, CapAll, CompleteEnd, Stamped;
      checkpoints.Set(nodeName, next);
      Log(step);
    }

    /** First sight of a node, or of a node that was replaced: older generations are not
        replayed, the active file is read from the start. */
    method BootstrapNode() returns (ok: bool)
      requires Valid() && !s.booted
      modifies this`gens, this`active, this`s, this`trace, this`rotated, this`troubles, this`faithful, this`requests, sink, checkpoints
      ensures Valid() && old(trace) <= trace
      ensures old(OrderlySoFar()) && !rotated ==> OrderlySoFar()
      ensures ok ==> ReadLast(faithful)
      ensures ok && old(UndisturbedSoFar()) && faithful ==> UndisturbedSoFar()
      ensures old(troubles) <= troubles && sink.refusals >= old(sink.refusals)
      ensures !ok ==> Failure()
    {
      hide Less, OrderlyRun, UndisturbedRun, Fresh, Anchored, Known, Ordered, Listing, HasId, Evolves, Stamped;
      var files, listed := List();
      if !listed {
        return false;
      }
      var startId := NewestRotationID(files);
      ghost var at, before := |gens|, gens;
      StartsAfterListed(gens, files, startId);
      var cp := ZeroCheckpoint(nodeName).(nodeUID := nodeUID, lastRotationID := startId);
      var next;
      ghost var step;
      next, ok, step := ProcessActive(cp, true, at);
      if !ok {
        GiveUp();
        return;
      }
      StillAnchored(before, gens, startId, at);
      ghost var soFar := trace;
      CommitRead(next, cp, step);
      assert trace[..|trace| - 1] == soFar;
    }

    // -------------------------------------------------------------- rotated generations

    /** Commits generation `j`, read to its end or reported as a gap. */
    method CommitGeneration(rot: RotatedFile, recovered: bool, ghost j: nat)
      requires Recorded() && s.booted && !s.mismatch && j < |gens| && gens[j].id == rot.id
      requires Enabled(s, if recovered then Drain(j) else Skip(j))
      requires Apply(s, if recovered then Drain(j) else Skip(j)).sink == sink.got
      modifies this`s, this`trace, this`gapsReported, checkpoints
      ensures Valid() && s.booted && old(trace) <= trace
      ensures s.cursor == j + 1 && s.offset == 0 && s.lastId == rot.id && !s.stale
      ensures old(OrderlySoFar()) && old(s.cursor) == j ==> OrderlySoFar()
      ensures old(UndisturbedSoFar()) && recovered ==> UndisturbedSoFar()
      ensures gapsReported == old(gapsReported) + (if recovered then 0 else 1)
    {
      hide OrderlyRun, UndisturbedRun, Exec, Fresh, Tokens, Compact, Fits, Stamped;
      AnchoredAt(gens, j);
      checkpoints.Set(nodeName, Checkpoint(nodeName, nodeUID, 0, 0, ZERO_DIGEST, rot.id));
      Log(if recovered then Drain(j) else Skip(j));
      if !recovered {
        gapsReported := gapsReported + 1;
      }
    }

    /** Reads and commits one generation; a failure commits nothing. */
    method RecoverGeneration(rot: RotatedFile, skip: nat, ghost j: nat) returns (ok: bool)
      requires Valid() && s.booted && skip == s.offset && j < |gens| && gens[j].id == rot.id
      modifies this`gens, this`active, this`s, this`trace, this`rotated, this`troubles, this`gapsReported, sink, checkpoints
      ensures Valid() && s.booted && old(trace) <= trace && old(gapsReported) <= gapsReported && Evolves(old(gens), gens)
      ensures old(rotated) ==> rotated
      ensures !rotated ==> |gens| == |old(gens)|
      ensures if ok then s.cursor == j + 1 && s.offset == 0 && s.lastId == rot.id && !s.stale
              else s.cursor == old(s.cursor) && s.lastId == old(s.lastId) && s.stale == old(s.stale)
      ensures old(OrderlySoFar() && !s.stale && s.cursor == j) ==> OrderlySoFar()
      ensures !ok && old(OrderlySoFar() && !s.stale) ==> OrderlySoFar()
      ensures old(UndisturbedSoFar()) && ok && gapsReported == old(gapsReported) ==> UndisturbedSoFar()
      ensures old(troubles) <= troubles && sink.refusals >= old(sink.refusals)
      ensures NothingVanished(old(gens), gens) || troubles > old(troubles)
      ensures !ok && FitsSurely(gens[j].content, SkipTo(gens[j].content, skip)) ==> Failure()
      ensures gapsReported > old(gapsReported) ==> gens[j].form == Gone
    {
      hide OrderlyRun, UndisturbedRun, Exec, Anchored, Fresh, Known, Less, Tokens, Compact, Fits, Stamped;
      var recovered;
      recovered, ok := RecoverRotatedFile(rot, skip, j);
      if ok {
        CommitGeneration(rot, recovered, j);
      } else {
        GiveUp();
      }
    }

    lemma {:induction false} KnownNode()
      requires Valid() && s.booted
      ensures nodeName in checkpoints.checkpoints && checkpoints.checkpoints[nodeName].byteOffset == s.offset
    {
      hide OrderlyRun, Exec, Anchored, Fresh, Known, Less, Stamped, Ordered, Dated;
    }

    /** Drains the unseen generations oldest first; only the first is resumed at the stored
        offset. Each is committed before the next is opened. */
    method DrainRotations(unseen: seq<RotatedFile>, ghost at: seq<nat>) returns (ok: bool)
      requires Valid() && s.booted
      requires Located(gens, unseen, at)
      modifies this`gens, this`active, this`s, this`trace, this`rotated, this`troubles, this`gapsReported, sink, checkpoints
      ensures Valid() && s.booted && old(trace) <= trace && old(gapsReported) <= gapsReported
      ensures old(rotated) ==> rotated
      ensures !rotated ==> |gens| == |old(gens)|
      ensures old(OrderlySoFar() && !s.stale) && FromOn(at, old(s.cursor)) ==> OrderlySoFar()
      ensures old(!s.stale) ==> !s.stale
      ensures old(UndisturbedSoFar()) && ok && gapsReported == old(gapsReported) ==> UndisturbedSoFar()
      ensures ok && unseen != [] ==> s.cursor == at[|at| - 1] + 1
      ensures old(GoesOn(unseen, at)) ==> Advances()
      ensures old(troubles) <= troubles && sink.refusals >= old(sink.refusals)
      ensures NothingVanished(old(gens), gens) || troubles > old(troubles)
      ensures !ok ==> Failure() || Unscannable(at, old(s.offset))
      ensures gapsReported > old(gapsReported) ==> AnyGone(gens, at)
    {
      hide OrderlyRun, UndisturbedRun, Less, NothingVanished, Evolves, Located, FromOn, Unscannable, AnyGone, Valid, FitsSurely;
      KnownNode();
      LocatedAt(gens, unseen, at, 0);
      var skip := checkpoints.checkpoints[nodeName].byteOffset;
      VanishNever(gens);
      for m := 0 to |unseen|
        invariant Valid() && s.booted && old(trace) <= trace && old(gapsReported) <= gapsReported
        invariant Located(gens, unseen, at)
        invariant old(rotated) ==> rotated
        invariant !rotated ==> |gens| == |old(gens)|
        invariant if m == 0 then s.offset == skip && s.cursor == old(s.cursor) else s.offset == 0 && s.cursor == at[m - 1] + 1
        invariant old(!s.stale) ==> !s.stale
        invariant old(OrderlySoFar() && !s.stale) && FromOn(at, old(s.cursor)) ==> OrderlySoFar()
        invariant old(UndisturbedSoFar()) && gapsReported == old(gapsReported) ==> UndisturbedSoFar()
        invariant old(troubles) <= troubles && sink.refusals >= old(sink.refusals)
        invariant NothingVanished(old(gens), gens) || troubles > old(troubles)
        invariant gapsReported > old(gapsReported) ==> AnyGone(gens, at)
        invariant s.lastId == if m == 0 then old(s.lastId) else unseen[m - 1].id
      {
        ghost var before := gens;
        LocatedAt(gens, unseen, at, m);
        FromOnAt(at, old(s.cursor), m);
        ok := RecoverGeneration(unseen[m], if m == 0 then skip else 0, at[m]);
        StillOnTheWay(old(gens), before, gens, unseen, at);
        Told(at, m, skip);
        if !ok {
          return;
        }
      }
      ok := true;
    }

    ghost method Told(at: seq<nat>, m: nat, skip: nat)
      requires m < |at| && at[m] < |gens|
      ensures gens[at[m]].form == Gone ==> AnyGone(gens, at)
      ensures !FitsSurely(gens[at[m]].content, if m == 0 then SkipTo(gens[at[m]].content, skip) else 0) ==> Unscannable(at, skip)
    {
      hide FitsSurely;
    }

    /** One of these generations has a line, after what is skipped of the first, that need not fit. */
    ghost predicate Unscannable(at: seq<nat>, offset: nat)
      reads this
    {
      exists m :: 0 <= m < |at| && at[m] < |gens| &&
        !FitsSurely(gens[at[m]].content, if m == 0 then SkipTo(gens[at[m]].content, offset) else 0)
    }

    /** These generations come after the checkpoint. */
    ghost predicate GoesOn(unseen: seq<RotatedFile>, at: seq<nat>)
      reads this
    {
      |at| == |unseen| && forall m :: 0 <= m < |at| ==> s.cursor <= at[m] && Less(s.lastId, unseen[m].id)
    }

    /** The checkpoint did not go back to an earlier generation. */
    twostate predicate Advances()
      reads this
    {
      old(s.booted) ==> s.booted && old(s.cursor) <= s.cursor && (s.lastId == old(s.lastId) || Less(old(s.lastId), s.lastId))
    }

    /** These are all the generations from the cursor on. */
    ghost predicate Consecutive(at: seq<nat>)
      reads this
    {
      s.cursor + |at| == |gens| && forall m :: 0 <= m < |at| ==> at[m] == s.cursor + m
    }

    /** Drains the unseen generations, then reads the fresh active file. */
    method RecoverRotations(unseen: seq<RotatedFile>, ghost at: seq<nat>) returns (ok: bool)
      requires Valid() && s.booted && unseen != []
      requires Located(gens, unseen, at)
      modifies this`gens, this`active, this`s, this`trace, this`rotated, this`troubles, this`gapsReported, this`faithful, this`requests, sink, checkpoints
      ensures Valid() && s.booted && old(trace) <= trace && old(gapsReported) <= gapsReported
      ensures old(GoesOn(unseen, at)) ==> Advances()
      ensures old(OrderlySoFar() && !s.stale) && !rotated && old(Consecutive(at)) ==> OrderlySoFar()
      ensures old(rotated) ==> rotated
      ensures ok && old(UndisturbedSoFar()) && faithful && gapsReported == old(gapsReported) ==> UndisturbedSoFar()
      ensures ok ==> ReadLast(faithful)
      ensures old(troubles) <= troubles && sink.refusals >= old(sink.refusals)
      ensures NothingVanished(old(gens), gens) || troubles > old(troubles)
      ensures !ok ==> Failure() || Unscannable(at, old(s.offset))
      ensures gapsReported > old(gapsReported) ==> AnyGone(gens, at)
    {
      hide OrderlyRun, UndisturbedRun, Exec, Anchored, Fresh, Known, Less, Stamped, NothingVanished, FitsSurely;
      ok := DrainRotations(unseen, at);
      if !ok {
        return;
      }
      ghost var between := gens;
      ok := PollActive();
      VanishTwice(old(gens), between, gens);
    }

    /** Reads the active file from the stored checkpoint. */
    method PollActive() returns (ok: bool)
      requires Valid() && s.booted
      modifies this`gens, this`active, this`s, this`trace, this`rotated, this`troubles, this`faithful, this`requests, sink, checkpoints
      ensures Valid() && s.booted && old(trace) <= trace
      ensures s.cursor == old(s.cursor) && s.lastId == old(s.lastId)
      ensures Requested(old(s.offset))
      ensures old(rotated) ==> rotated
      ensures old(OrderlySoFar()) && !rotated && old(s.cursor == |gens|) && (old(!s.stale) || !Resumed()) ==> OrderlySoFar()
      ensures ok && old(UndisturbedSoFar()) && faithful ==> UndisturbedSoFar()
      ensures ok ==> ReadLast(faithful)
      ensures old(troubles) <= troubles && sink.refusals >= old(sink.refusals)
      ensures Evolves(old(gens), gens)
      ensures NothingVanished(old(gens), gens) || troubles > old(troubles)
      ensures !ok ==> Failure()
    {
      hide OrderlyRun, UndisturbedRun, Anchored, Fresh, Known, Less, Read, Stamped;
      var cp := checkpoints.Get(nodeName);
      assert checkpoints.checkpoints == old(checkpoints.checkpoints);
      var next;
      ghost var step;
      next, ok, step := ProcessActive(cp, false, 0);
      if !ok {
        GiveUp();
        return;
      }
      ghost var before := trace;
      CommitRead(next, cp, step);
      assert trace[..|trace| - 1] == before;
    }

    /** The file was last taken to continue the one behind the checkpoint. */
    ghost predicate Resumed()
      reads this
    {
      trace != [] && trace[|trace| - 1].Resume?
    }

    ghost predicate ReadLast(honest: bool)
      reads this
    {
      EndsWithRead(initial, trace, honest)
    }

    // -------------------------------------------------------------- one poll

    /** A generation that is to be drained has a line, after what is skipped of the first, that need
        not fit a scanner. */
    ghost predicate MayNotScan(cursor: nat, offset: nat)
      reads this
    {
      exists first: nat, j: nat :: cursor <= first <= j < |gens| && NeedNotFit(gens[j].content, first, j, offset)
    }

    ghost method MayNotScanOf(at: seq<nat>, cursor: nat, offset: nat)
      requires at != [] && forall m :: 0 <= m < |at| ==> cursor <= at[0] <= at[m]
      requires forall m :: 0 < m < |at| ==> at[0] < at[m]
      ensures Unscannable(at, offset) ==> MayNotScan(cursor, offset)
    {
      hide FitsSurely;
      if Unscannable(at, offset) {
        var m :| 0 <= m < |at| && at[m] < |gens| && !FitsSurely(gens[at[m]].content, if m == 0 then SkipTo(gens[at[m]].content, offset) else 0);
        assert NeedNotFit(gens[at[m]].content, at[0], at[m], offset);
      }
    }

    /** All has gone well so far, and the file behind the checkpoint is as it was. */
    ghost predicate Sound()
      reads this
    {
      OrderlySoFar() && UndisturbedSoFar() && !s.stale && (s.booted ==> AllPresent(gens, s.cursor))
    }

    /** Nothing went wrong during the poll: no request failed and no file vanished, the sink took
        every record, the file was not rotated, the server was honest, and every line fits. */
    twostate predicate Calm()
      reads this, sink
    {
      !Failure() && !rotated && faithful && !(old(s.booted) && MayNotScan(old(s.cursor), old(s.offset)))
    }

    /** One poll of the node, over whatever happens to its directory meanwhile. The trace stays
        a run of the tailing protocol; it stays orderly when no rotation falls into the poll, the
        generations from the checkpoint on were still listed and a file that was replaced in
        place is not taken for its predecessor. A poll fails only for a reason, and a calm one
        succeeds. Then nothing is lost silently,
        and a poll that succeeds with honest answers has handed over everything exactly once. */
    method PollNode() returns (ok: bool)
      requires Valid()
      modifies this`gens, this`active, this`s, this`trace, this`rotated, this`troubles, this`gapsReported, this`faithful, this`requests, sink, checkpoints
      ensures Valid() && old(trace) <= trace && Advances()
      ensures old(OrderlySoFar() && (s.booted ==> AllPresent(gens, s.cursor))) && !rotated && (old(!s.stale) || !Resumed()) ==> OrderlySoFar()
      ensures ok && old(UndisturbedSoFar()) && faithful && gapsReported == old(gapsReported) ==> UndisturbedSoFar()
      ensures OrderlySoFar() ==> NothingLost(s)
      ensures ok && OrderlySoFar() && UndisturbedSoFar() && faithful ==> AllDelivered(s)
      ensures !ok ==> Failure() || (old(s.booted) && MayNotScan(old(s.cursor), old(s.offset)))
      ensures old(s.booted ==> AllPresent(gens, s.cursor)) && troubles == old(troubles) ==> gapsReported == old(gapsReported)
      ensures old(Sound()) && Calm() ==> ok && AllDelivered(s)
    {
      hide OrderlyRun, UndisturbedRun, Exec, Anchored, Fresh, Known, Less, AllDelivered, NothingLost, Stamped, NothingVanished, MayNotScan, Ordered;
      rotated := false;
      var cp := checkpoints.Get(nodeName);
      assert cp.nodeUID == nodeUID <==> s.booted;
      if cp.nodeUID == "" || cp.nodeUID != nodeUID {
        ok := BootstrapNode();
      } else {
        ok := PollKnown(cp);
      }
      Accounted(initial, trace, ok && faithful);
    }

    /** A node that has been polled before: drains what was rotated since, then reads on. */
    method PollKnown(cp: Checkpoint) returns (ok: bool)
      requires Valid() && s.booted && !rotated && Stored(cp, s)
      modifies this`gens, this`active, this`s, this`trace, this`rotated, this`troubles, this`gapsReported, this`faithful, this`requests, sink, checkpoints
      ensures Valid() && s.booted && old(trace) <= trace && Advances()
      ensures old(OrderlySoFar() && AllPresent(gens, s.cursor)) && !rotated && (old(!s.stale) || !Resumed()) ==> OrderlySoFar()
      ensures ok && old(UndisturbedSoFar()) && faithful && gapsReported == old(gapsReported) ==> UndisturbedSoFar()
      ensures ok ==> ReadLast(faithful)
      ensures old(troubles) <= troubles && sink.refusals >= old(sink.refusals)
      ensures !ok ==> Failure() || MayNotScan(old(s.cursor), old(s.offset))
      ensures old(AllPresent(gens, s.cursor)) && troubles == old(troubles) ==> gapsReported == old(gapsReported)
      ensures old(gapsReported) <= gapsReported
    {
      hide OrderlyRun, UndisturbedRun, Exec, Anchored, Fresh, Known, Less, Unseen, Listing, Stamped, NothingVanished, FitsSurely, MayNotScan, Unscannable;
      var files, listed := List();
      if !listed {
        return false;
      }
      var unseen := UnseenRotations(files, cp.lastRotationID);
      ghost var at := Locate(gens, files, s.lastId, s.cursor, unseen);
      StaleIsLast(initial, trace);
      if unseen != [] {
        ok := RecoverRotations(unseen, at);
        MayNotScanOf(at, old(s.cursor), old(s.offset));
        NoneGone(old(gens), gens, at, old(s.cursor));
      } else {
        ok := PollActive();
      }
    }
  }

  /** In an orderly run only the active file can be stale. */
  lemma {:induction false} StaleIsLast(initial: State, trace: seq<Step>)
    requires Fresh(initial)
    ensures OrderlyRun(initial, trace) && Exec(initial, trace).booted && Exec(initial, trace).stale ==>
      Exec(initial, trace).cursor == |Exec(initial, trace).gens|
  {
    hide Exec, OrderlyRun, Expected, Stamped;
    if OrderlyRun(initial, trace) {
      NoSilentLoss(initial, trace);
    }
  }

  lemma {:induction false} AnchoredAt(gens: seq<Generation>, j: nat)
    requires Ordered(gens) && j < |gens|
    ensures Anchored(gens, gens[j].id, j + 1) && Known(gens, gens[j].id)
  {
    forall i | 0 <= i < |gens| ensures Less(gens[j].id, gens[i].id) <==> i >= j + 1 {
      if Less(gens[j].id, gens[i].id) {
        IndexOrder(gens, j, i);
      }
    }
  }

  lemma {:induction false} StartsAfterListed(gens: seq<Generation>, files: seq<RotatedFile>, startId: string)
    requires Ordered(gens) && Listing(gens, files)
    requires files == [] ==> startId == ""
    requires files != [] ==> HasId(files, startId)
    requires forall f :: f in files ==> !Less(startId, f.id)
    ensures Anchored(gens, startId, |gens|) && Known(gens, startId)
  {
    forall i | 0 <= i < |gens| && gens[i].form != Gone ensures !Less(startId, gens[i].id) {
      var f := RotatedFile(gens[i].id, NameOf(gens[i].id, gens[i].form == Compressed), gens[i].form == Compressed);
      assert Listed(gens, f);
      assert f in files;
    }
    if files != [] {
      var f :| f in files && f.id == startId;
      assert Listed(gens, f);
    }
  }

  /** Generations that are added later come after every known ID. */
  lemma {:induction false} StillAnchored(g: seq<Generation>, g': seq<Generation>, lastId: string, cursor: nat)
    requires Ordered(g') && Evolves(g, g') && Anchored(g, lastId, cursor) && Known(g, lastId)
    ensures Anchored(g', lastId, cursor) && Known(g', lastId)
  {
    StillKnown(g, g', lastId);
    forall i | |g| <= i < |g'| ensures Less(lastId, g'[i].id) {
      if lastId != "" {
        var j :| 0 <= j < |g| && g[j].id == lastId;
        assert g'[j].id == lastId;
      }
    }
  }

  ghost predicate SameButMismatch(s: State, s': State) {
    s' == s.(gens := s'.gens, active := s'.active, mismatch := s'.mismatch)
  }

  /** The new checkpoint is the one the step leads to. */
  ghost predicate Committed(next: Checkpoint, cp: Checkpoint, s: State, step: Step) {
    var s' := Apply(s, step);
    next.byteOffset == s'.offset && next.lastRecordHash == s'.hash && next.lastRotationID == cp.lastRotationID
  }

  lemma {:induction false} DirectorySnoc(gens: seq<Generation>, g: Generation, before: seq<string>, names: seq<string>)
    requires Directory(gens, before)
    requires forall n :: n in names <==> n in before || exists c :: HasFile(g.form, c) && n == NameOf(g.id, c)
    ensures Directory(gens + [g], names)
  {
    hide ParseRotationFilename, NameOf;
    var more := gens + [g];
    forall n | n in names && ParseRotationFilename(n, BASE).Some? ensures exists i: nat, c :: Holds(more, i, c, n) {
      if n in before {
        var i: nat, c :| Holds(gens, i, c, n);
        assert Holds(more, i, c, n);
      } else {
        var c :| HasFile(g.form, c) && n == NameOf(g.id, c);
        assert Holds(more, |gens|, c, n);
      }
    }
    forall i: nat, c, n | Holds(more, i, c, n) ensures n in names {
      assert i < |gens| ==> Holds(gens, i, c, n);
    }
  }

  /** What the names in the directory parse to are the files of the generations. */
  lemma {:induction false} ParsedIsListing(gens: seq<Generation>, names: seq<string>, files: seq<RotatedFile>)
    requires Dated(gens) && Directory(gens, names)
    requires forall f :: f in files <==> exists i :: 0 <= i < |names| && ParseRotationFilename(names[i], BASE) == Some(f)
    ensures Listing(gens, files)
  {
    hide ParseRotationFilename, NameOf, Less, Stamped;
    forall f ensures f in files <==> Listed(gens, f) {
      if f in files {
        var k :| 0 <= k < |names| && ParseRotationFilename(names[k], BASE) == Some(f);
        var i: nat, c :| Holds(gens, i, c, names[k]);
        NameParses(gens[i].id, c);
      }
      if Listed(gens, f) {
        var i :| 0 <= i < |gens| && gens[i].id == f.id && HasFile(gens[i].form, f.compressed);
        assert Holds(gens, i, f.compressed, f.filename);
        NameParses(f.id, f.compressed);
        var k :| 0 <= k < |names| && names[k] == f.filename;
      }
    }
  }

  /** A listed file is still there if nothing has vanished since. */
  lemma {:induction false} StillThere(was: seq<Generation>, files: seq<RotatedFile>, now: seq<Generation>, f: RotatedFile, j: nat)
    requires Listing(was, files) && f in files && Ordered(was) && j < |was| && was[j].id == f.id
    ensures NothingVanished(was, now) ==> HasFile(now[j].form, f.compressed)
  {
    hide Less, NameOf;
    assert Listed(was, f);
    var i :| 0 <= i < |was| && was[i].id == f.id && HasFile(was[i].form, f.compressed);
    IndexUnique(was, i, j);
  }

  /** A generation that is not gone is listed. */
  lemma {:induction false} PresentIsListed(gens: seq<Generation>, files: seq<RotatedFile>, j: nat)
    requires Listing(gens, files) && j < |gens|
    ensures gens[j].form != Gone ==> HasId(files, gens[j].id)
  {
    hide NameOf;
    var c := gens[j].form == Compressed;
    var f := RotatedFile(gens[j].id, NameOf(gens[j].id, c), c);
    assert gens[j].form != Gone ==> Listed(gens, f);
    assert gens[j].form != Gone ==> f in files;
  }

  function StartOf(ans: Answer): nat {
    if ans.Ranged? then ans.start else 0
  }

  ghost predicate Stored(cp: Checkpoint, s: State) {
    cp.byteOffset == s.offset && cp.lastRecordHash == s.hash && cp.lastRotationID == s.lastId
  }

  /** The collector's own part of the state is unchanged. */
  ghost predicate Same(s: State, s': State) {
    s' == s.(gens := s'.gens, active := s'.active)
  }
}

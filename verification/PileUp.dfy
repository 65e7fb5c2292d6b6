/** What a stream keeps in memory.  Out of order the window does not bound it:
    while one slow read keeps the head of the body back, the rest of the file can
    pile up.  In order it does, but for the spare copy of a seeded chunk 0. */
module PileUp {
  import opened Text
  import opened EventBridge
  import opened FilterModel
  import opened FilterRuns
  import opened FilterInvariant
  import opened FilterResolve
  import opened FilterStream
  import opened WindowBound
  import opened Schedules
  import Delivery
  import FilterLiveness
  import RP = ResponsePlan

  // ------------------------------------------------------------ the whole file

  /** Only framing has been sent, and the first read is still to come back. */
  predicate Piling(f: FState) {
    && Quiet(f) && f.phase.s.watermarkDepth == 0
    && f.phase.s.nextSend !in f.phase.s.ready && HasRead(f.ops, f.phase.s.nextSend)
    && forall i :: 0 <= i < f.phase.s.nextSend && i < |f.phase.s.chunks| ==> f.phase.s.chunks[i].Inline?
  }

  predicate OnlyReadsOf(ops: seq<Op>, n: nat) {
    forall i :: 0 <= i < |ops| && ops[i].ReadOp? ==> ops[i].seqNo == n
  }

  /** With only the first chunk still being read, every chunk has been issued. */
  lemma AllIssued(s: Session, disk: Disk, f: FState)
    requires Inv(s, disk, f, []) && FilterLiveness.Settled(s, f) && Piling(f)
    requires OnlyReadsOf(f.ops, f.phase.s.nextSend) && s.config.maxInflightReads >= 2
    ensures f.phase.s.issueCursor == |f.phase.s.chunks|
  {
    OnlyStreams(s, disk, f, []);
    StreamOps(s, disk, f);
    OnlyOneDue(f, f.phase.s.nextSend);
    var due := Outstanding(f, []);
    hide ServesVerdict, BodyChunks, AllFit, Outstanding, ReadLog, Expected, Intended, Inv, OnlyReadsOf;
    assert due[f.phase.s.nextSend] <= 1;
    OneAtMost(due, f.phase.s.nextSend);
  }

  lemma {:induction false} OnlyOneRead(ops: seq<Op>, n: nat)
    requires OnlyReadsOf(ops, n) && forall i :: 0 <= i < |ops| ==> ops[i].ReadOp?
    ensures forall k :: k in OpReads(ops) ==> k == n
  {
    if ops != [] {
      OnlyOneRead(ops[..|ops| - 1], n);
    }
  }

  lemma OnlyOneDue(f: FState, n: nat)
    requires f.mailbox == Open([]) && f.past.dropped == []
    requires OnlyReadsOf(f.ops, n) && forall i :: 0 <= i < |f.ops| ==> f.ops[i].ReadOp?
    ensures forall k :: k != n ==> Outstanding(f, [])[k] == 0
  {
    OnlyOneRead(f.ops, n);
    assert InTransit(f, []) == [];
    assert Outstanding(f, []) == OpReads(f.ops);
    hide OpReads, Outstanding;
  }

  lemma OneAtMost(due: multiset<nat>, n: nat)
    requires due[n] <= 1 && forall k :: k != n ==> due[k] == 0
    ensures |due| <= 1
  {
    if due[n] == 0 {
      assert due == multiset{};
    } else {
      assert due == multiset{n};
    }
  }

  lemma {:induction false} BelowCount(h: set<nat>, n: nat)
    requires forall i :: i in h ==> i < n
    ensures |h| <= n
  {
    if n > 0 {
      BelowCount(h - {n - 1}, n - 1);
    } else {
      assert h == {};
    }
  }

  lemma ReadyIsBelow(s: Session, disk: Disk, f: FState)
    requires Inv(s, disk, f, []) && f.phase.StreamingPhase?
    ensures |f.phase.s.ready| <= |f.phase.s.chunks|
  {
    OnlyStreams(s, disk, f, []);
    hide ServesVerdict, BodyChunks, AllFit, Outstanding, ReadLog, Expected, Intended, Inv;
    BelowCount(f.phase.s.ready.Keys, |f.phase.s.chunks|);
  }

  lemma KeepsPiling(f: FState, g: FState, i: nat)
    requires Piling(f) && i < |f.ops| && f.ops[i].ReadOp? && f.ops[i].seqNo != f.phase.s.nextSend
    requires Quiet(g) && Rounded(f, g, i)
    ensures Piling(g)
  {
    QuietStreams(f);
    QuietStreams(g);
    hide Quiet;
    OtherStays(f.ops, i, f.phase.s.nextSend);
    StillHas(RemoveAt(f.ops, i), g.ops, f.phase.s.nextSend);
  }

  /** While the first read is slow, every other chunk can arrive. */
  lemma {:induction false} PileOn(s: Session, disk: Disk, labels: seq<Label>) returns (all: seq<Label>)
    requires Run(s, disk, Start(s), labels).Some? && s.config.maxInflightReads >= 2
    requires Piling(EndOf(s, disk, labels))
    ensures Run(s, disk, Start(s), all).Some?
    ensures var f, g := EndOf(s, disk, labels), EndOf(s, disk, all);
            Piling(g) && g.phase.s.chunks == f.phase.s.chunks && g.phase.s.issueCursor == |g.phase.s.chunks|
    ensures NoneFails(labels) ==> NoneFails(all)
    decreases |EndOf(s, disk, labels).phase.s.chunks| - |EndOf(s, disk, labels).phase.s.ready|
  {
    hide Run, Start, Inv, FilterLiveness.Settled, NoneFails;
    var f := EndOf(s, disk, labels);
    FilterLiveness.RunCalm(s, disk, labels);
    if i :| 0 <= i < |f.ops| && f.ops[i].ReadOp? && f.ops[i].seqNo != f.phase.s.nextSend {
      var more := Round(s, disk, labels, i);
      KeepsPiling(f, EndOf(s, disk, more), i);
      RunInv(s, disk, more);
      ReadyIsBelow(s, disk, EndOf(s, disk, more));
      all := PileOn(s, disk, more);
    } else {
      all := labels;
      AllIssued(s, disk, f);
    }
  }

  lemma FirstAsked(g: FState, chunks: seq<Chunk>, p: nat)
    requires AskedFirst(g, chunks, false, p, p) && FirstFile(chunks, p)
    ensures Piling(g) && g.phase.s.chunks == chunks
  {
  }

  /** Every chunk of the file is in memory. */
  predicate HoldsFile(st: Streaming) {
    forall i :: 0 <= i < |st.chunks| && st.chunks[i].File? ==> i in st.ready
  }

  /** With a window of two or more, some run holds every chunk of the file that
      is asked for at once, with none of them sent. */
  lemma HoldsWholeBody(s: Session, disk: Disk, p: nat) returns (labels: seq<Label>)
    requires FirstFile(ServedChunks(s, disk), p) && s.config.maxInflightReads >= 2
    ensures Run(s, disk, Start(s), labels).Some? && NoneFails(labels)
    ensures var f := EndOf(s, disk, labels);
            && f.phase.StreamingPhase? && !f.past.completed && f.phase.s.nextSend <= p
            && f.phase.s.chunks == ServedChunks(s, disk) && HoldsFile(f.phase.s)
  {
    hide Run, Start, ServedChunks, AskedFirst, NoneFails, InIssueOrder, Piling;
    var begun := Begun(s, disk, false, p);
    FirstAsked(EndOf(s, disk, begun), ServedChunks(s, disk), p);
    var piled := PileOn(s, disk, begun);
    PilesQuietly(EndOf(s, disk, piled));
    labels := PauseAndDrain(s, disk, piled);
    SentIsFraming(EndOf(s, disk, piled), p);
  }

  lemma PilesQuietly(f: FState)
    requires Piling(f)
    ensures Quiet(f) && forall i :: 0 <= i < f.phase.s.nextSend && i < |f.phase.s.chunks| ==>
              f.phase.s.chunks[i].Inline?
  {
  }

  lemma SentIsFraming(f: FState, p: nat)
    requires Piling(f) && FirstFile(f.phase.s.chunks, p)
    ensures f.phase.s.nextSend <= p
  {
    hide Quiet;
  }

  /** However many chunks `k`: a window of two or more lets a run hold `k` of
      them, unsent, when a whole file has more. */
  lemma HoldsAnyNumber(s: Session, disk: Disk, k: nat) returns (labels: seq<Label>)
    requires s.request.rangeHeader.None? && ServedBody(s, disk).Whole? && s.config.maxInflightReads >= 2
    requires |ServedContent(s, disk)| > k * s.config.chunkSize
    ensures Run(s, disk, Start(s), labels).Some?
    ensures var f := EndOf(s, disk, labels); f.phase.StreamingPhase? && !f.past.completed && |Held(f.phase.s)| >= k
  {
    PlainServed(s, disk);
    NotNegative(k, s.config.chunkSize);
    ChunksOfFile(|ServedContent(s, disk)|, s.config.chunkSize);
    FileChunksCount(0, |ServedContent(s, disk)|, s.config.chunkSize);
    assert ServedChunks(s, disk) == FileChunks(0, |ServedContent(s, disk)|, s.config.chunkSize);
    MoreThan(|ServedChunks(s, disk)|, k, s.config.chunkSize);
    hide Run, Start, ServedBody, ServedContent, FileChunks, ServedChunks;
    labels := HoldsWholeBody(s, disk, 0);
    var st := EndOf(s, disk, labels).phase.s;
    RangeIsIn(Held(st), |st.chunks|);
  }

  lemma {:induction false} RangeIsIn(h: set<nat>, n: nat)
    requires forall i: nat :: i < n ==> i in h
    ensures |h| >= n
  {
    if n > 0 {
      RangeIsIn(h - {n - 1}, n - 1);
    }
  }

  lemma NotNegative(k: nat, c: nat)
    ensures k * c >= 0
  {
  }

  lemma MoreThan(n: nat, k: nat, c: Positive)
    requires n * c > k * c
    ensures n > k
  {
  }

  // ------------------------------------------------------ one more than the window

  /** After the spare read of a seeded chunk 0 has come back, the reads issued so
      far reach one chunk beyond the window, or the end. */
  lemma IssuedBeyond(s: Session, disk: Disk, f: FState)
    requires Inv(s, disk, f, []) && FilterLiveness.Settled(s, f) && Quiet(f) && f.phase.s.watermarkDepth == 0
    requires f.phase.s.nextSend == 1 && f.phase.s.ready.Keys == {0}
    ensures f.phase.s.issueCursor > s.config.maxInflightReads || f.phase.s.issueCursor == |f.phase.s.chunks|
  {
    OnlyStreams(s, disk, f, []);
    hide ServesVerdict, BodyChunks, AllFit, Outstanding, ReadLog, Expected, Intended, Inv;
    var st, due := f.phase.s, Outstanding(f, []);
    assert 0 in st.ready;
    assert due[0] == 0;
    if st.issueCursor <= s.config.maxInflightReads {
      FewerDue(due, st.issueCursor);
    }
  }

  /** Distinct reads of chunks from 1 to below `n`. */
  lemma {:induction false} FewerDue(due: multiset<nat>, n: nat)
    requires due[0] == 0 && (forall i :: due[i] <= 1) && (forall i: nat :: due[i] > 0 ==> i < n)
    ensures n > 0 ==> |due| <= n - 1
    ensures n == 0 ==> |due| == 0
  {
    if n <= 1 {
      assert due == multiset{};
    } else {
      var rest := due[n - 1 := 0];
      FewerDue(rest, n - 1);
      assert due == rest + multiset(if due[n - 1] == 1 then {n - 1} else {});
    }
  }

  /** The chunks up to `n` are in memory, and chunk 0 is there a second time. */
  predicate HoldsUpTo(f: FState, chunks: seq<Chunk>, n: nat) {
    && f.phase.StreamingPhase? && !f.past.completed && f.phase.s.nextSend == 1 && f.phase.s.chunks == chunks
    && forall i :: 0 <= i < n && i < |chunks| ==> i in f.phase.s.ready
  }

  /** In issue order too, a stream can hold one chunk more than the window: the
      stale copy of chunk 0 and a full window behind a pause. */
  lemma FillsBeyond(s: Session, disk: Disk) returns (labels: seq<Label>)
    requires SeveralWhole(s, disk)
    ensures Run(s, disk, Start(s), labels).Some? && InIssueOrder(labels) && NoneFails(labels)
    ensures HoldsUpTo(EndOf(s, disk, labels), ServedChunks(s, disk), s.config.maxInflightReads + 1)
  {
    PlainServed(s, disk);
    hide Run, Start, Inv, SeveralWhole, ServedChunks, AskedFirst, Rounded, Quiet, NoneFails, InIssueOrder,
      FilterLiveness.Settled, AllFile, HoldsUpTo, Swallowed;
    FileIsFirst(ServedChunks(s, disk));
    var begun := Begun(s, disk, true, 0);
    var f := EndOf(s, disk, begun);
    SeedAsked(f, ServedChunks(s, disk));
    var spare := Round(s, disk, begun, 0);
    var g := EndOf(s, disk, spare);
    SpareIsBack(f, g);
    FilterLiveness.RunCalm(s, disk, spare);
    IssuedBeyond(s, disk, g);
    labels := PauseAndDrain(s, disk, spare);
    PauseHolds(g, EndOf(s, disk, labels), s.config.maxInflightReads + 1);
  }

  lemma SpareIsBack(f: FState, g: FState)
    requires f.phase.StreamingPhase? && f.phase.s.ready == map[] && f.ops != [] && f.ops[0].ReadOp?
             && f.ops[0].seqNo == 0
    requires Rounded(f, g, 0) && Quiet(g) && f.phase.s.watermarkDepth == 0 && f.phase.s.nextSend == 1
    ensures g.phase.StreamingPhase? && g.phase.s.ready.Keys == {0} && g.phase.s.chunks == f.phase.s.chunks
    ensures g.phase.s.watermarkDepth == 0 && g.phase.s.nextSend == 1
  {
    assert f.phase.s.ready.Keys + {0} == {0};
  }

  lemma PauseHolds(f: FState, g: FState, n: nat)
    requires Quiet(f) && f.phase.s.ready.Keys == {0} && f.phase.s.nextSend == 1
    requires f.phase.s.issueCursor >= n || f.phase.s.issueCursor == |f.phase.s.chunks|
    requires Swallowed(f, g) && Quiet(g)
    ensures HoldsUpTo(g, f.phase.s.chunks, n)
  {
    assert 0 in f.phase.s.ready;
  }

  lemma FileIsFirst(chunks: seq<Chunk>)
    requires chunks != [] && AllFile(chunks)
    ensures FirstFile(chunks, 0)
  {
  }

  lemma SeedAsked(g: FState, chunks: seq<Chunk>)
    requires AskedFirst(g, chunks, true, 1, 0) && AllFile(chunks)
    ensures Quiet(g) && g.phase.s.chunks == chunks && g.phase.s.watermarkDepth == 0 && g.phase.s.nextSend == 1
    ensures g.phase.s.ready == map[] && g.ops != [] && g.ops[0].ReadOp? && g.ops[0].seqNo == 0
    ensures g.past.served.Some? && g.past.served.value.seeded
  {
    assert g.phase.s.ready.Keys == {};
  }

  // ------------------------------------------------------- the documented bound

  /** The bytes of file chunks in `ready`, sent or not, among the first `n`. */
  function BufferedBytes(st: Streaming, n: nat): nat {
    if n == 0 then 0
    else
      BufferedBytes(st, n - 1) +
      if n - 1 in st.ready && n <= |st.chunks| && st.chunks[n - 1].File? then |st.ready[n - 1]| else 0
  }

  /** The bytes of the file that a body asks for. */
  function FileBytesOf(chunks: seq<Chunk>, content: Bytes): nat {
    if chunks == [] then 0
    else
      var last := chunks[|chunks| - 1];
      FileBytesOf(chunks[..|chunks| - 1], content) + if last.File? then |Intended(last, content)| else 0
  }

  /** What is ready of the chunks is what they stand for. */
  predicate ReadyIsRight(st: Streaming, content: Bytes) {
    forall i :: i in st.ready ==> i < |st.chunks| && st.ready[i] == Intended(st.chunks[i], content)
  }

  lemma {:induction false} BufferedAtMost(st: Streaming, content: Bytes, n: nat)
    requires n <= |st.chunks| && ReadyIsRight(st, content)
    ensures BufferedBytes(st, n) <= FileBytesOf(st.chunks[..n], content)
    ensures (forall i :: 0 <= i < n && st.chunks[i].File? ==> i in st.ready) ==>
              BufferedBytes(st, n) == FileBytesOf(st.chunks[..n], content)
  {
    hide Intended;
    if n > 0 {
      assert st.chunks[..n][..n - 1] == st.chunks[..n - 1];
      BufferedAtMost(st, content, n - 1);
    }
  }

  lemma {:induction false} BufferedGrows(st: Streaming, m: nat, n: nat)
    requires m <= n
    ensures BufferedBytes(st, m) <= BufferedBytes(st, n)
    decreases n
  {
    if m < n {
      BufferedGrows(st, m, n - 1);
    }
  }

  /** At most one chunk is buffered. */
  lemma {:induction false} BufferedOne(st: Streaming, content: Bytes, c: nat, n: nat)
    requires n <= |st.chunks| && ReadyIsRight(st, content) && HaveBytes(st.chunks, c)
    requires forall i, j :: i in Buffered(st) && j in Buffered(st) ==> i == j
    ensures BufferedBytes(st, n) <= c
    ensures (forall i :: i in Buffered(st) ==> i >= n) ==> BufferedBytes(st, n) == 0
  {
    if n > 0 {
      BufferedOne(st, content, c, n - 1);
      if n - 1 in st.ready && st.chunks[n - 1].File? {
        assert n - 1 in Buffered(st);
        assert |Intended(st.chunks[n - 1], content)| <= st.chunks[n - 1].len;
      }
    }
  }

  /** Chunks of the file only: their bytes are the body's. */
  lemma {:induction false} FileBytesOfFile(chunks: seq<Chunk>, content: Bytes)
    requires AllFile(chunks)
    ensures FileBytesOf(chunks, content) == |Delivery.ChunkBytes(chunks, content)|
  {
    hide Intended;
    if chunks != [] {
      FileBytesOfFile(chunks[..|chunks| - 1], content);
    }
  }

  lemma {:induction false} PrefixLength(start: nat, len: nat, chunkSize: Positive, content: Bytes, k: nat)
    requires start + len <= |content| && k <= |FileChunks(start, len, chunkSize)|
    ensures |Delivery.ChunkBytes(FileChunks(start, len, chunkSize)[..k], content)| == Min(k * chunkSize, len)
    decreases k
  {
    var chunks := FileChunks(start, len, chunkSize);
    hide Delivery.ChunkBytes;
    if k == 0 {
      assert chunks[..0] == [];
      Delivery.NoChunks(content);
    } else {
      var here := Min(len, chunkSize);
      var rest := FileChunks(start + here, len - here, chunkSize);
      assert chunks == [File(start, here)] + rest;
      assert chunks[..k] == [File(start, here)] + rest[..k - 1];
      PrefixLength(start + here, len - here, chunkSize, content, k - 1);
      Delivery.ChunkBytesConcat([File(start, here)], rest[..k - 1], content);
      Delivery.OneFileChunk(start, here, content);
      MoreTimes(k - 1, chunkSize);
      hide FileChunks;
    }
  }

  /** README.md:47 of the source: a stream never buffers more than the window's
      worth of chunks. */
  ghost predicate BuffersWithinWindow(s: Session, disk: Disk) {
    forall labels ::
      Run(s, disk, Start(s), labels).Some? && Run(s, disk, Start(s), labels).value.phase.StreamingPhase? ==>
        BufferedNow(Run(s, disk, Start(s), labels).value.phase.s) <= s.config.maxInflightReads * s.config.chunkSize
  }

  function BufferedNow(st: Streaming): nat {
    BufferedBytes(st, |st.chunks|)
  }

  /** The bytes of the file that the answer asks for. */
  function BytesAsked(s: Session, disk: Disk): nat {
    FileBytesOf(ServedChunks(s, disk), ServedContent(s, disk))
  }

  lemma StreamsServed(s: Session, disk: Disk, f: FState)
    requires Inv(s, disk, f, []) && f.phase.StreamingPhase?
    ensures f.phase.s.chunks == ServedChunks(s, disk) && ReadyIsRight(f.phase.s, ServedContent(s, disk))
  {
    OnlyStreams(s, disk, f, []);
    hide AllFit, Outstanding, ReadLog, Expected, Intended, Inv, VerdictOf, PlanFor, BodyChunks, LogBelow, SeedRead,
      InTransit;
  }

  /** A stream that was not seeded keeps nothing it has sent. */
  lemma KeepsUnsent(s: Session, disk: Disk, f: FState)
    requires Inv(s, disk, f, []) && f.phase.StreamingPhase? && s.request.rangeHeader.Some?
    ensures Buffered(f.phase.s) == Held(f.phase.s)
  {
    OnlyStreams(s, disk, f, []);
    hide AllFit, Outstanding, ReadLog, Expected, Intended, Inv, VerdictOf, PlanFor, BodyChunks, LogBelow, SeedRead,
      InTransit;
  }

  lemma BuffersAtMostAsked(s: Session, disk: Disk, labels: seq<Label>)
    requires Run(s, disk, Start(s), labels).Some? && EndOf(s, disk, labels).phase.StreamingPhase?
    ensures BufferedNow(EndOf(s, disk, labels).phase.s) <= BytesAsked(s, disk)
    ensures HoldsFile(EndOf(s, disk, labels).phase.s) ==>
              BufferedNow(EndOf(s, disk, labels).phase.s) == BytesAsked(s, disk)
  {
    RunInv(s, disk, labels);
    hide Run, Start, Inv, ServedChunks, ServedContent, BufferedBytes;
    var st := EndOf(s, disk, labels).phase.s;
    StreamsServed(s, disk, EndOf(s, disk, labels));
    BufferedAtMost(st, ServedContent(s, disk), |st.chunks|);
    assert st.chunks[..|st.chunks|] == st.chunks;
  }

  /** One read at a time and no seed: one chunk at a time. */
  lemma BuffersOneChunk(s: Session, disk: Disk, labels: seq<Label>)
    requires Run(s, disk, Start(s), labels).Some? && EndOf(s, disk, labels).phase.StreamingPhase?
    requires s.config.maxInflightReads == 1 && s.request.rangeHeader.Some?
    ensures BufferedNow(EndOf(s, disk, labels).phase.s) <= s.config.chunkSize
  {
    OneReadBoundsMemory(s, disk, labels);
    RunInv(s, disk, labels);
    FileChunksHaveBytes(ServedBody(s, disk), s.config.chunkSize);
    hide Run, Start, Inv, ServedBody, ServedContent, BufferedBytes, BodyChunks, HaveBytes, Buffered, Held;
    var st := EndOf(s, disk, labels).phase.s;
    StreamsServed(s, disk, EndOf(s, disk, labels));
    KeepsUnsent(s, disk, EndOf(s, disk, labels));
    AtMostOne(Buffered(st));
    BufferedOne(st, ServedContent(s, disk), s.config.chunkSize, |st.chunks|);
  }

  lemma AtMostOne(h: set<nat>)
    requires |h| <= 1
    ensures forall i, j :: i in h && j in h ==> i == j
  {
    forall i, j | i in h && j in h ensures i == j {
      if i != j {
        Fewer({i, j}, h);
      }
    }
  }

  /** Everything up to chunk `m` is ready: that many chunks' worth of bytes. */
  lemma BuffersPrefix(st: Streaming, content: Bytes, chunkSize: Positive, m: nat)
    requires st.chunks == FileChunks(0, |content|, chunkSize) && ReadyIsRight(st, content)
    requires m <= |st.chunks| && AllFile(st.chunks) && forall i :: 0 <= i < m ==> i in st.ready
    ensures BufferedNow(st) >= Min(m * chunkSize, |content|)
  {
    hide FileChunks, BufferedBytes, Intended, Delivery.ChunkBytes, FileBytesOf;
    BufferedAtMost(st, content, m);
    BufferedGrows(st, m, |st.chunks|);
    FileBytesOfFile(st.chunks[..m], content);
    PrefixLength(0, |content|, chunkSize, content, m);
  }

  lemma TimesAtLeast(m: nat, c: Positive)
    requires m > 0
    ensures m * c >= c
  {
  }

  lemma AtLeastOne(m: nat, c: Positive)
    ensures (m + 1) * c > m * c
  {
  }

  lemma OneTimes(c: nat)
    ensures 1 * c == c
  {
  }

  /** Without a Range, an answer that asks for bytes is a whole file. */
  lemma AskedOfWhole(s: Session, disk: Disk)
    requires s.request.rangeHeader.None? && BytesAsked(s, disk) > 0
    ensures ServedBody(s, disk) == RP.Whole(|ServedContent(s, disk)|)
    ensures BytesAsked(s, disk) == |ServedContent(s, disk)|
    ensures ServedChunks(s, disk) == FileChunks(0, |ServedContent(s, disk)|, s.config.chunkSize)
  {
    PlainServed(s, disk);
    NoChunksOfNothing(s.config.chunkSize);
    var content := ServedContent(s, disk);
    ChunksOfFile(|content|, s.config.chunkSize);
    FileBytesOfFile(FileChunks(0, |content|, s.config.chunkSize), content);
    Delivery.FileChunksBytes(0, |content|, s.config.chunkSize, content);
    hide ServedBody, ServedContent, FileChunks, Delivery.ChunkBytes;
  }

  lemma UpToHeld(f: FState, chunks: seq<Chunk>, n: nat)
    requires HoldsUpTo(f, chunks, n)
    ensures f.phase.StreamingPhase? && f.phase.s.chunks == chunks
    ensures forall i :: 0 <= i < Min(n, |chunks|) ==> i in f.phase.s.ready
  {
  }

  /** Without a Range, whatever the window, a run breaks the bound of a larger file. */
  lemma SeedBreaksBound(s: Session, disk: Disk) returns (labels: seq<Label>)
    requires s.request.rangeHeader.None? && BytesAsked(s, disk) > s.config.maxInflightReads * s.config.chunkSize
    ensures Run(s, disk, Start(s), labels).Some? && EndOf(s, disk, labels).phase.StreamingPhase?
    ensures BufferedNow(EndOf(s, disk, labels).phase.s) > s.config.maxInflightReads * s.config.chunkSize
  {
    hide Run, Start, Inv, BytesAsked, BufferedNow, ServedBody, ServedContent, FileChunks, ServedChunks, HoldsUpTo;
    var max, c, content := s.config.maxInflightReads, s.config.chunkSize, ServedContent(s, disk);
    TimesAtLeast(max, c);
    AskedOfWhole(s, disk);
    labels := FillsBeyond(s, disk);
    var f := EndOf(s, disk, labels);
    RunInv(s, disk, labels);
    UpToHeld(f, ServedChunks(s, disk), max + 1);
    StreamsServed(s, disk, f);
    FileChunksCount(0, |content|, c);
    BuffersPrefix(f.phase.s, content, c, Min(max + 1, |f.phase.s.chunks|));
    AtLeastOne(max, c);
  }

  /** With a window of two or more the buffers can hold all that is asked for. */
  lemma BuffersWholeBody(s: Session, disk: Disk) returns (labels: seq<Label>)
    requires s.config.maxInflightReads >= 2 && BytesAsked(s, disk) > 0
    ensures Run(s, disk, Start(s), labels).Some? && EndOf(s, disk, labels).phase.StreamingPhase?
    ensures BufferedNow(EndOf(s, disk, labels).phase.s) == BytesAsked(s, disk)
  {
    hide Run, Start, ServedChunks, ServedContent, BufferedNow;
    var p := SomeFile(ServedChunks(s, disk), ServedContent(s, disk));
    labels := HoldsWholeBody(s, disk, p);
    BuffersAtMostAsked(s, disk, labels);
  }

  lemma {:induction false} SomeFile(chunks: seq<Chunk>, content: Bytes) returns (p: nat)
    requires FileBytesOf(chunks, content) > 0
    ensures FirstFile(chunks, p)
  {
    if forall i :: 0 <= i < |chunks| ==> chunks[i].Inline? {
      FramingOnly(chunks, content);
    }
    p := 0;
    while chunks[p].Inline?
      invariant p < |chunks| && forall i :: 0 <= i < p ==> chunks[i].Inline?
      decreases |chunks| - p
    {
      p := p + 1;
    }
  }

  lemma {:induction false} FramingOnly(chunks: seq<Chunk>, content: Bytes)
    requires forall i :: 0 <= i < |chunks| ==> chunks[i].Inline?
    ensures FileBytesOf(chunks, content) == 0
  {
    if chunks != [] {
      FramingOnly(chunks[..|chunks| - 1], content);
    }
  }

  /** Of every request: the documented bound holds in every run if and only if
      what the answer asks of the file is within it, or the window is one and a
      Range keeps the stream from being seeded. */
  lemma BoundHoldsExactly(s: Session, disk: Disk)
    ensures BuffersWithinWindow(s, disk) <==>
              || BytesAsked(s, disk) <= s.config.maxInflightReads * s.config.chunkSize
              || (s.config.maxInflightReads == 1 && s.request.rangeHeader.Some?)
  {
    hide Run, Start, BytesAsked, BufferedNow;
    var max, c := s.config.maxInflightReads, s.config.chunkSize;
    OneTimes(c);
    if BytesAsked(s, disk) <= max * c || (max == 1 && s.request.rangeHeader.Some?) {
      forall labels | Run(s, disk, Start(s), labels).Some? && Run(s, disk, Start(s), labels).value.phase.StreamingPhase?
        ensures BufferedNow(Run(s, disk, Start(s), labels).value.phase.s) <= max * c {
        BuffersAtMostAsked(s, disk, labels);
        if max == 1 && s.request.rangeHeader.Some? {
          BuffersOneChunk(s, disk, labels);
        }
      }
    } else if s.request.rangeHeader.None? {
      var labels := SeedBreaksBound(s, disk);
    } else {
      NotNegative(max, c);
      var labels := BuffersWholeBody(s, disk);
    }
  }
}

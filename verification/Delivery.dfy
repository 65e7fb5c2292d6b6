/** What a run puts on the wire: for every schedule a prefix of the one planned
    response, and all of it when the run ends without a read error. */
module Delivery {
  import opened Text
  import opened EventBridge
  import opened FilterModel
  import opened FilterRuns
  import opened FilterInvariant
  import opened FilterResolve
  import opened FilterStream
  import FilterLiveness
  import Ranges
  import Multipart
  import Validators
  import RP = ResponsePlan

  // ------------------------------------------------------------ bytes of chunks

  function ChunkBytes(chunks: seq<Chunk>, content: Bytes): Bytes {
    if chunks == [] then []
    else ChunkBytes(chunks[..|chunks| - 1], content) + Intended(chunks[|chunks| - 1], content)
  }

  lemma {:induction false} ChunkBytesConcat(a: seq<Chunk>, b: seq<Chunk>, content: Bytes)
    ensures ChunkBytes(a + b, content) == ChunkBytes(a, content) + ChunkBytes(b, content)
  {
    hide Intended;
    if b == [] {
      assert a + b == a;
      assert ChunkBytes(a, content) + [] == ChunkBytes(a, content);
    } else {
      var c := b[|b| - 1];
      assert (a + b)[..|a + b| - 1] == a + b[..|b| - 1];
      ChunkBytesConcat(a, b[..|b| - 1], content);
      Grouped(ChunkBytes(a, content), ChunkBytes(b[..|b| - 1], content), Intended(c, content));
    }
  }

  lemma Grouped(a: Bytes, b: Bytes, c: Bytes)
    ensures (a + b) + c == a + (b + c)
  {
  }

  lemma OneChunk(c: Chunk, content: Bytes)
    ensures ChunkBytes([c], content) == Intended(c, content)
  {
    assert [c][..0] == [];
    assert [] + Intended(c, content) == Intended(c, content);
  }

  /** Cutting an interval of the file into chunks loses and repeats nothing. */
  lemma {:induction false} FileChunksBytes(start: nat, len: nat, chunkSize: Positive, content: Bytes)
    requires start + len <= |content|
    ensures ChunkBytes(FileChunks(start, len, chunkSize), content) == content[start..start + len]
    decreases len
  {
    hide Intended, ChunkBytes;
    if len == 0 {
      NoChunks(content);
    } else {
      var here := Min(len, chunkSize);
      var rest := FileChunks(start + here, len - here, chunkSize);
      FileChunksBytes(start + here, len - here, chunkSize, content);
      ChunkBytesConcat([File(start, here)], rest, content);
      OneFileChunk(start, here, content);
      Halves(content, start, start + here, start + len);
    }
  }

  lemma NoChunks(content: Bytes)
    ensures ChunkBytes([], content) == []
  {
  }

  lemma OneFileChunk(start: nat, len: nat, content: Bytes)
    requires start + len <= |content|
    ensures ChunkBytes([File(start, len)], content) == content[start..start + len]
  {
    OneChunk(File(start, len), content);
    hide ChunkBytes;
  }

  lemma Halves(s: Bytes, a: nat, b: nat, c: nat)
    requires a <= b <= c <= |s|
    ensures s[a..b] + s[b..c] == s[a..c]
  {
  }

  lemma {:induction false} SegmentChunksBytes(ranges: seq<Ranges.ByteRange>, chunkSize: Positive, content: Bytes)
    requires forall r :: r in ranges ==> Ranges.InBounds(r, |content|)
    ensures ChunkBytes(SegmentChunks(ranges, chunkSize), content) == RP.Slices(ranges, content)
  {
    hide FileChunks, ChunkBytes, Intended;
    if ranges == [] {
      NoChunks(content);
    } else {
      var front, r := ranges[..|ranges| - 1], ranges[|ranges| - 1];
      assert Ranges.InBounds(r, |content|);
      SegmentChunksBytes(front, chunkSize, content);
      ChunkBytesConcat(SegmentChunks(front, chunkSize), FileChunks(r.start, Length(r), chunkSize), content);
      FileChunksBytes(r.start, Length(r), chunkSize, content);
    }
  }

  lemma OneInline(bytes: Bytes, content: Bytes)
    ensures ChunkBytes([Inline(bytes)], content) == bytes
  {
    OneChunk(Inline(bytes), content);
    hide ChunkBytes;
  }

  lemma {:induction false} PartChunksBytes(parts: seq<Multipart.Part>, chunkSize: Positive, content: Bytes)
    requires forall p :: p in parts ==> Ranges.InBounds(p.range, |content|)
    ensures ChunkBytes(PartChunks(parts, chunkSize), content) == Multipart.Assemble(parts, content)
  {
    hide FileChunks, ChunkBytes, Intended;
    if parts == [] {
      NoChunks(content);
    } else {
      var front, p := parts[..|parts| - 1], parts[|parts| - 1];
      assert Ranges.InBounds(p.range, |content|);
      var before, slice := PartChunks(front, chunkSize), FileChunks(p.range.start, Length(p.range), chunkSize);
      PartChunksBytes(front, chunkSize, content);
      ChunkBytesConcat(before + [Inline(p.header)], slice, content);
      ChunkBytesConcat(before, [Inline(p.header)], content);
      OneInline(p.header, content);
      FileChunksBytes(p.range.start, Length(p.range), chunkSize, content);
    }
  }

  /** The chunks of a body plan hold the planned bytes. */
  lemma BodyChunksBytes(body: RP.BodyPlan, chunkSize: Positive, content: Bytes)
    requires RP.BodyFits(body, |content|)
    ensures ChunkBytes(BodyChunks(body, chunkSize), content) == RP.BodyBytes(body, content)
  {
    match body {
      case Empty =>
      case Whole(len) =>
        FileChunksBytes(0, len, chunkSize, content);
        assert content[0..len] == content;
      case Segments(ranges) => SegmentChunksBytes(ranges, chunkSize, content);
      case Multi(parts, terminator, _) =>
        PartChunksBytes(parts, chunkSize, content);
        ChunkBytesConcat(PartChunks(parts, chunkSize), [Inline(terminator)], content);
        OneChunk(Inline(terminator), content);
    }
  }

  // --------------------------------------------------------- bytes on the wire

  /** The body bytes among the calls into Envoy. */
  function BodyOf(sent: seq<Sent>): Bytes {
    if sent == [] then []
    else
      var before := BodyOf(sent[..|sent| - 1]);
      if sent[|sent| - 1].Data? then before + sent[|sent| - 1].bytes else before
  }

  lemma {:induction false} PlannedPrefixBytes(plan: RP.Plan, chunks: seq<Chunk>, content: Bytes, n: nat)
    requires n <= |chunks|
    ensures n + 1 <= |PlannedCalls(plan, chunks, content)|
    ensures BodyOf(PlannedCalls(plan, chunks, content)[..n + 1]) == ChunkBytes(chunks[..n], content)
  {
    hide Intended;
    var calls := PlannedCalls(plan, chunks, content);
    if n == 0 {
      assert calls[..1] == [Headers(plan.status, plan.headers, chunks == [])] && calls[..1][..0] == [];
      assert BodyOf([]) == [];
    } else {
      PlannedPrefixBytes(plan, chunks, content, n - 1);
      assert calls[..n + 1][..n] == calls[..n];
      assert chunks[..n][..n - 1] == chunks[..n - 1];
      assert calls[n] == Data(Intended(chunks[n - 1], content), n == |chunks|);
    }
  }

  // ---------------------------------------------------------------- delivery

  /** For every schedule of completions, commits, drains, watermarks and stream
      completion: what has been sent is a prefix of the one expected response;
      a finished run without a read error has sent all of it; after a read
      error a proper prefix is followed by the end of the stream. */
  lemma EveryRunDelivers(s: Session, disk: Disk, labels: seq<Label>)
    requires Run(s, disk, Start(s), labels).Some?
    ensures var f := Run(s, disk, Start(s), labels).value;
            if f.past.readFailed then f.phase.Done? && Truncated(f.sent, Expected(s, disk))
            else f.sent <= Expected(s, disk) && (f.phase.Done? <==> f.sent == Expected(s, disk) != [])
  {
    RunInv(s, disk, labels);
    var f := Run(s, disk, Start(s), labels).value;
    InvDelivers(s, disk, f);
  }

  lemma InvDelivers(s: Session, disk: Disk, f: FState)
    requires Inv(s, disk, f, [])
    ensures if f.past.readFailed then f.phase.Done? && Truncated(f.sent, Expected(s, disk))
            else f.sent <= Expected(s, disk) && (f.phase.Done? <==> f.sent == Expected(s, disk) != [])
  {
    hide ResolvingInv, StreamInv, DoneInv, Expected, NeverInert;
    if ResolvingInv(s, disk, f, []) {
      ResolvingDelivers(s, disk, f);
    } else if StreamInv(s, disk, f, []) {
      StreamingDelivers(s, disk, f);
    } else {
      DoneDelivers(s, disk, f);
    }
  }

  lemma ResolvingDelivers(s: Session, disk: Disk, f: FState)
    requires ResolvingInv(s, disk, f, [])
    ensures !f.past.readFailed && f.sent == [] && !f.phase.Done?
  {
    hide Waiting, LeadsOn;
  }

  lemma StreamingDelivers(s: Session, disk: Disk, f: FState)
    requires StreamInv(s, disk, f, [])
    ensures !f.past.readFailed && f.sent <= Expected(s, disk) && f.sent != Expected(s, disk) && !f.phase.Done?
  {
    hide ServesVerdict, BodyChunks, Expected, AllFit, InTransit, Outstanding, ReadLog, VerdictOf, Intended, LogBelow,
      SeedRead;
    ExpectedCalls(s, disk, f.past.served.value, f.phase.s.chunks);
    var n := f.phase.s.nextSend + 1;
    assert n < |Expected(s, disk)|;
    hide Window;
  }

  lemma DoneDelivers(s: Session, disk: Disk, f: FState)
    requires DoneInv(s, disk, f, [])
    ensures f.phase.Done? && Expected(s, disk) != []
    ensures if f.past.readFailed then Truncated(f.sent, Expected(s, disk)) else f.sent == Expected(s, disk)
  {
    ServedIsRegular(s, disk);
    ExpectedNotEmpty(s, disk);
    hide Expected, VerdictOf, InTransit, ReadLog, Truncated;
  }

  lemma ExpectedNotEmpty(s: Session, disk: Disk)
    requires VerdictOf(s, disk) != Loops
    requires VerdictOf(s, disk).Serve? ==> disk.open(VerdictOf(s, disk).path).Regular?
    ensures Expected(s, disk) != []
  {
    hide VerdictOf, PlanFor, BodyChunks;
  }

  /** The file a verdict serves is a regular file. */
  lemma ServedIsRegular(s: Session, disk: Disk)
    ensures VerdictOf(s, disk).Serve? ==> disk.open(VerdictOf(s, disk).path).Regular?
  {
    FileServeIsRegular(s, disk, BuildFileCandidates(s));
  }

  lemma {:induction false} IndexServeIsRegular(s: Session, disk: Disk, entries: seq<(Bytes, Bytes)>)
    ensures IndexVerdict(s, disk, entries).Serve? ==> disk.open(IndexVerdict(s, disk, entries).path).Regular?
  {
    if entries != [] {
      IndexServeIsRegular(s, disk, entries[1..]);
    }
  }

  lemma {:induction false} FileServeIsRegular(s: Session, disk: Disk, candidates: seq<Candidate>)
    ensures FileVerdict(s, disk, candidates).Serve? ==> disk.open(FileVerdict(s, disk, candidates).path).Regular?
  {
    IndexServeIsRegular(s, disk, IndexEntries(s));
    if candidates != [] {
      FileServeIsRegular(s, disk, candidates[1..]);
    }
  }

  /** What a client has of a served file: a prefix of the planned bytes; when
      the response is over, all of them, after headers that name their number. */
  predicate BytesServed(plan: RP.Plan, content: FileBytes, sent: seq<Sent>, over: bool) {
    && RP.BodyFits(plan.body, |content|)
    && BodyOf(sent) <= RP.BodyBytes(plan.body, content)
    && (over ==>
          && BodyOf(sent) == RP.BodyBytes(plan.body, content)
          && sent != [] && sent[0] == Headers(plan.status, plan.headers, |sent| == 1)
          && (plan.body.Empty? || (|BodyOf(sent)| < TWO64 <==> RP.NamesLength(plan, |BodyOf(sent)|))))
  }

  /** The body bytes of a served file at every moment of every run; they are
      complete when the response is over and no read has failed. */
  lemma ServedInFull(s: Session, disk: Disk, labels: seq<Label>)
    requires Run(s, disk, Start(s), labels).Some? && VerdictOf(s, disk).Serve?
    ensures var f := Run(s, disk, Start(s), labels).value;
            var v := VerdictOf(s, disk);
            && disk.open(v.path).Regular?
            && BytesServed(PlanFor(s, v.ctx, StatOf(disk.open(v.path))), disk.open(v.path).content, f.sent,
                           f.phase.Done? && !f.past.readFailed)
  {
    hide *;
    var f, v := Run(s, disk, Start(s), labels).value, VerdictOf(s, disk);
    ServedIsRegular(s, disk);
    EveryRunDelivers(s, disk, labels);
    var o := disk.open(v.path);
    RegularStat(o);
    CallsOfServe(s, disk);
    if f.past.readFailed {
      CutPrefix(f.sent, Expected(s, disk));
      PlannedServed(s, v.ctx, StatOf(o), o.content, f.sent[..|f.sent| - 1], false);
      CutServed(PlanFor(s, v.ctx, StatOf(o)), o.content, f.sent);
    } else {
      PlannedServed(s, v.ctx, StatOf(o), o.content, f.sent, f.phase.Done?);
    }
  }

  /** With a file that a file system can hold, the one Content-Length of a
      finished response is the number of bytes the client got. */
  lemma LengthServed(s: Session, disk: Disk, labels: seq<Label>)
    requires Run(s, disk, Start(s), labels).Some? && VerdictOf(s, disk).Serve?
    requires var f := Run(s, disk, Start(s), labels).value; f.phase.Done? && !f.past.readFailed
    requires var v := VerdictOf(s, disk);
             |v.ctx.contentType| <= 0x8000_0000
               && (disk.open(v.path).Regular? ==> |disk.open(v.path).content| <= RP.MaxFile)
    ensures var v, sent := VerdictOf(s, disk), Run(s, disk, Start(s), labels).value.sent;
            && disk.open(v.path).Regular?
            && var plan := PlanFor(s, v.ctx, StatOf(disk.open(v.path)));
               sent != [] && sent[0] == Headers(plan.status, plan.headers, |sent| == 1)
               && (plan.body.Empty? || RP.NamesLength(plan, |BodyOf(sent)|))
  {
    ServedInFull(s, disk, labels);
    hide *;
    var f, v := Run(s, disk, Start(s), labels).value, VerdictOf(s, disk);
    var o := disk.open(v.path);
    RegularStat(o);
    ServedNames(s, v.ctx, StatOf(o), o.content, f.sent);
  }

  lemma ServedNames(s: Session, ctx: OpenCtx, stat: FileStat, content: FileBytes, sent: seq<Sent>)
    requires |content| == stat.size <= RP.MaxFile && |ctx.contentType| <= 0x8000_0000
    requires BytesServed(PlanFor(s, ctx, stat), content, sent, true)
    ensures var plan := PlanFor(s, ctx, stat);
            sent != [] && sent[0] == Headers(plan.status, plan.headers, |sent| == 1)
            && (plan.body.Empty? || RP.NamesLength(plan, |BodyOf(sent)|))
  {
    var facts, meta := Facts(s, ctx, stat), RP.FileMeta(stat.size, stat.mtimeUnix, stat.mtimeNanos);
    if !RP.PlanResponse(facts, meta).body.Empty? {
      BoundaryLength(stat);
      RP.LengthIsExact(facts, meta, content);
    }
    hide RP.PlanResponse, RP.BodyBytes, RP.BodyFits, RP.NamesLength, BodyOf, Boundary;
  }

  lemma BoundaryLength(stat: FileStat)
    ensures |Boundary(stat)| == 50
  {
    SixteenDigits();
    RenderLength(stat.size, 16, 16);
    RenderLength(Validators.Bits(stat.mtimeUnix), 16, 16);
    hide Render;
  }

  lemma SixteenDigits()
    ensures Power(16, 16) == TWO64
  {
    assert Power(16, 4) == 0x1_0000;
    assert Power(16, 8) == 0x1_0000_0000;
    assert Power(16, 12) == 0x1_0000_0000_0000;
  }

  lemma CutPrefix(sent: seq<Sent>, expected: seq<Sent>)
    requires Truncated(sent, expected)
    ensures sent != [] && sent[|sent| - 1] == Data([], true) && sent[..|sent| - 1] <= expected
  {
  }

  /** The empty end of a response cut short adds no bytes. */
  lemma CutServed(plan: RP.Plan, content: FileBytes, sent: seq<Sent>)
    requires sent != [] && sent[|sent| - 1] == Data([], true) && BytesServed(plan, content, sent[..|sent| - 1], false)
    ensures BytesServed(plan, content, sent, false)
  {
    hide RP.BodyFits, RP.BodyBytes;
    assert BodyOf(sent) == BodyOf(sent[..|sent| - 1]) + [] == BodyOf(sent[..|sent| - 1]);
  }

  lemma PlannedServed(s: Session, ctx: OpenCtx, stat: FileStat, content: FileBytes, sent: seq<Sent>, over: bool)
    requires stat.size == |content|
    requires var plan := PlanFor(s, ctx, stat);
             var calls := PlannedCalls(plan, BodyChunks(plan.body, s.config.chunkSize), content);
             sent <= calls && (over ==> sent == calls != [])
    ensures BytesServed(PlanFor(s, ctx, stat), content, sent, over)
  {
    hide PlanFor, RP.BodyBytes, RP.BodyFits, RP.NamesLength, BodyChunks, PlannedCalls, BodyOf;
    PlanFacts(s, ctx, stat, content);
    SentBytes(PlanFor(s, ctx, stat), s.config.chunkSize, content, sent);
  }

  lemma RegularStat(o: OpenOutcome)
    requires o.Regular?
    ensures StatOf(o).size == |o.content|
  {
  }

  lemma CallsOfServe(s: Session, disk: Disk)
    requires VerdictOf(s, disk).Serve? && disk.open(VerdictOf(s, disk).path).Regular?
    ensures var v := VerdictOf(s, disk);
            var o := disk.open(v.path);
            var plan := PlanFor(s, v.ctx, StatOf(o));
            Expected(s, disk) == PlannedCalls(plan, BodyChunks(plan.body, s.config.chunkSize), o.content) != []
  {
    hide VerdictOf, PlanFor, BodyChunks, DataCalls;
  }

  lemma PlanFacts(s: Session, ctx: OpenCtx, stat: FileStat, content: FileBytes)
    requires stat.size == |content|
    ensures var plan := PlanFor(s, ctx, stat);
            && RP.BodyFits(plan.body, |content|)
            && (plan.body.Empty? ||
                (|RP.BodyBytes(plan.body, content)| < TWO64 <==>
                    RP.NamesLength(plan, |RP.BodyBytes(plan.body, content)|)))
  {
    var facts, meta := Facts(s, ctx, stat), RP.FileMeta(stat.size, stat.mtimeUnix, stat.mtimeNanos);
    RP.PlannedBodyFits(facts, meta);
    if !PlanFor(s, ctx, stat).body.Empty? {
      RP.AdvertisedLength(facts, meta, content);
    }
    hide RP.PlanResponse, RP.BodyBytes, RP.NamesLength, Facts;
  }

  lemma SentBytes(plan: RP.Plan, chunkSize: Positive, content: Bytes, sent: seq<Sent>)
    requires RP.BodyFits(plan.body, |content|)
    requires sent <= PlannedCalls(plan, BodyChunks(plan.body, chunkSize), content)
    ensures BodyOf(sent) <= RP.BodyBytes(plan.body, content)
    ensures sent == PlannedCalls(plan, BodyChunks(plan.body, chunkSize), content) ==>
              BodyOf(sent) == RP.BodyBytes(plan.body, content)
              && sent != [] && sent[0] == Headers(plan.status, plan.headers, |sent| == 1)
  {
    hide BodyChunks, RP.BodyBytes, RP.BodyFits, ChunkBytes;
    var chunks := BodyChunks(plan.body, chunkSize);
    BodyChunksBytes(plan.body, chunkSize, content);
    if sent != [] {
      PrefixBytes(plan, chunks, content, sent);
    }
  }

  lemma PrefixBytes(plan: RP.Plan, chunks: seq<Chunk>, content: Bytes, sent: seq<Sent>)
    requires sent != [] && sent <= PlannedCalls(plan, chunks, content)
    ensures BodyOf(sent) <= ChunkBytes(chunks, content)
    ensures sent == PlannedCalls(plan, chunks, content) ==>
              BodyOf(sent) == ChunkBytes(chunks, content) && sent[0] == Headers(plan.status, plan.headers, |sent| == 1)
  {
    var calls, n := PlannedCalls(plan, chunks, content), |sent| - 1;
    hide DataCalls, ChunkBytes, BodyOf;
    FewerCalls(plan, chunks, content, n);
    PlannedPrefixBytes(plan, chunks, content, n);
    assert sent == calls[..n + 1];
    assert chunks == chunks[..n] + chunks[n..];
    ChunkBytesConcat(chunks[..n], chunks[n..], content);
    if sent == calls {
      assert chunks[..n] == chunks;
    }
  }

  lemma FewerCalls(plan: RP.Plan, chunks: seq<Chunk>, content: Bytes, n: nat)
    requires n < |PlannedCalls(plan, chunks, content)|
    ensures n <= |chunks| && |PlannedCalls(plan, chunks, content)| == |chunks| + 1
    ensures PlannedCalls(plan, chunks, content)[0] == Headers(plan.status, plan.headers, chunks == [])
  {
  }

  // ---------------------------------------------------------------- protocol

  /** What a client has seen of the response. */
  datatype Wire = Silent | Streams | Ended | Broken

  function WireStep(w: Wire, out: Sent): Wire {
    match (w, out)
    case (Silent, Response(_, _, _)) => Ended
    case (Silent, Headers(_, _, end)) => if end then Ended else Streams
    case (Streams, Data(_, end)) => if end then Ended else Streams
    case _ => Broken
  }

  function After(sent: seq<Sent>): Wire {
    if sent == [] then Silent else WireStep(After(sent[..|sent| - 1]), sent[|sent| - 1])
  }

  lemma {:induction false} PlannedWire(plan: RP.Plan, chunks: seq<Chunk>, content: Bytes, n: nat)
    requires 0 < n <= |chunks| + 1
    ensures n <= |PlannedCalls(plan, chunks, content)|
    ensures After(PlannedCalls(plan, chunks, content)[..n]) == if n == |chunks| + 1 then Ended else Streams
  {
    var calls := PlannedCalls(plan, chunks, content);
    assert calls[..n][..n - 1] == calls[..n - 1];
    if n == 1 {
      assert calls[..1] == [Headers(plan.status, plan.headers, chunks == [])];
    } else {
      PlannedWire(plan, chunks, content, n - 1);
      assert calls[n - 1] == Data(Intended(chunks[n - 2], content), n - 2 == |chunks| - 1);
    }
  }

  function WireOf(p: Phase): Wire {
    match p
    case StreamingPhase(_) => Streams
    case Done => Ended
    case _ => Silent
  }

  /** In every run, read errors included: headers at most once, data only after
      headers, the stream ended at most once and nothing sent after that; the
      phase always says how far the response is. */
  lemma OneResponse(s: Session, disk: Disk, labels: seq<Label>)
    requires Run(s, disk, Start(s), labels).Some?
    ensures var f := Run(s, disk, Start(s), labels).value; After(f.sent) == WireOf(f.phase)
  {
    RunInv(s, disk, labels);
    var f := Run(s, disk, Start(s), labels).value;
    ServedIsRegular(s, disk);
    hide Run, Start;
    InvWire(s, disk, f);
  }

  lemma InvWire(s: Session, disk: Disk, f: FState)
    requires Inv(s, disk, f, [])
    requires VerdictOf(s, disk).Serve? ==> disk.open(VerdictOf(s, disk).path).Regular?
    ensures After(f.sent) == WireOf(f.phase)
  {
    if ResolvingInv(s, disk, f, []) {
      hide Waiting, LeadsOn;
    } else if StreamInv(s, disk, f, []) {
      StreamingWire(s, disk, f);
    } else {
      hide InTransit, ReadLog;
      DoneWire(s, disk, f);
    }
  }

  lemma StreamingWire(s: Session, disk: Disk, f: FState)
    requires StreamInv(s, disk, f, [])
    ensures After(f.sent) == Streams
  {
    var st, served := f.phase.s, f.past.served.value;
    FirstCall(s, disk, served.plan, st.chunks, served.content, served.seeded);
    PlannedWire(served.plan, st.chunks, served.content, st.nextSend + 1);
    hide ServesVerdict, BodyChunks, Expected, AllFit, InTransit, Outstanding, ReadLog, VerdictOf, PlannedCalls;
  }

  lemma {:induction false} ExpectedWire(s: Session, disk: Disk, n: nat)
    requires VerdictOf(s, disk) != Loops
    requires VerdictOf(s, disk).Serve? ==> disk.open(VerdictOf(s, disk).path).Regular?
    requires 0 < n <= |Expected(s, disk)|
    ensures After(Expected(s, disk)[..n]) == if n == |Expected(s, disk)| then Ended else Streams
  {
    var v := VerdictOf(s, disk);
    if v.Serve? {
      var o := disk.open(v.path);
      var plan := PlanFor(s, v.ctx, StatOf(o));
      var chunks := BodyChunks(plan.body, s.config.chunkSize);
      PlannedWire(plan, chunks, o.content, n);
      hide VerdictOf, PlanFor, BodyChunks;
    } else {
      hide VerdictOf;
      assert Expected(s, disk)[..1] == Expected(s, disk) && Expected(s, disk)[..0] == [];
    }
  }

  lemma DoneWire(s: Session, disk: Disk, f: FState)
    requires VerdictOf(s, disk) != Loops
    requires VerdictOf(s, disk).Serve? ==> disk.open(VerdictOf(s, disk).path).Regular?
    requires if f.past.readFailed then Truncated(f.sent, Expected(s, disk)) else f.sent == Expected(s, disk)
    ensures After(f.sent) == Ended
  {
    ExpectedNotEmpty(s, disk);
    hide Expected, VerdictOf;
    if f.past.readFailed {
      var n := |f.sent| - 1;
      ExpectedWire(s, disk, n);
      assert f.sent[..n] == Expected(s, disk)[..n];
    } else {
      ExpectedWire(s, disk, |f.sent|);
      assert f.sent[..|f.sent|] == f.sent;
    }
  }

  /** Exactly one open or listing is under way: with the engine, or on its way
      back. */
  predicate OneControl(f: FState) {
    var evs := InTransit(f, []);
    || (|f.ops| == 1 && !f.ops[0].ReadOp? && evs == [])
    || (f.ops == [] && |evs| == 1 && !evs[0].Read?)
  }

  /** While resolving, exactly one control operation is outstanding; while
      streaming or done none is, which is why `handle_opened` and `handle_dir`
      need not look at the phase. */
  lemma ControlIsExclusive(s: Session, disk: Disk, labels: seq<Label>)
    requires Run(s, disk, Start(s), labels).Some?
    ensures var f := Run(s, disk, Start(s), labels).value;
            if Resolving(f.phase) then OneControl(f) else (f.phase.StreamingPhase? || f.phase.Done?) && OnlyReads(f, [])
  {
    RunInv(s, disk, labels);
    hide Run, Start;
    InvControls(s, disk, Run(s, disk, Start(s), labels).value);
  }

  lemma InvControls(s: Session, disk: Disk, f: FState)
    requires Inv(s, disk, f, [])
    ensures if Resolving(f.phase) then OneControl(f) else (f.phase.StreamingPhase? || f.phase.Done?) && OnlyReads(f, [])
  {
    hide ResolvingInv, StreamInv, DoneInv, NeverInert, InTransit, OneControl, OnlyReads;
    if ResolvingInv(s, disk, f, []) {
      PhaseOfResolving(s, disk, f, []);
      ResolvingControls(s, disk, f);
    } else if StreamInv(s, disk, f, []) {
      PhaseOfStreaming(s, disk, f, []);
      StreamingReads(s, disk, f);
    } else {
      PhaseOfDone(s, disk, f, []);
      DoneReads(s, disk, f);
    }
  }

  lemma ResolvingControls(s: Session, disk: Disk, f: FState)
    requires ResolvingInv(s, disk, f, [])
    ensures OneControl(f)
  {
    hide InTransit, LeadsOn, Completes;
    var op := f.past.submitted[|f.past.submitted| - 1];
    ControlOnly(s, disk, f.phase, op);
    if f.ops == [] {
      ControlEvent(disk, op, InTransit(f, [])[0]);
    }
  }

  lemma ControlOnly(s: Session, disk: Disk, p: Phase, op: Op)
    requires LeadsOn(s, disk, p, op)
    ensures !op.ReadOp?
  {
  }

  lemma ControlEvent(disk: Disk, op: Op, ev: IoEvent)
    requires Completes(disk, op, ev) && !op.ReadOp?
    ensures !ev.Read?
  {
  }

  lemma StreamingReads(s: Session, disk: Disk, f: FState)
    requires StreamInv(s, disk, f, [])
    ensures OnlyReads(f, [])
  {
    hide InTransit, Window, Expected, ServesVerdict, AllFit, OnlyReads;
    AllReads(f.phase.s, f.past.served.value.content, f, []);
  }

  lemma DoneReads(s: Session, disk: Disk, f: FState)
    requires DoneInv(s, disk, f, [])
    ensures OnlyReads(f, [])
  {
    hide InTransit, Expected, VerdictOf, ReadLog;
  }

  // --------------------------------------------------------------- the reads

  /** In every run each chunk is asked of the engine at most once, in order, and
      never through a handle whose file the engine has already closed. */
  lemma EachChunkReadOnce(s: Session, disk: Disk, labels: seq<Label>)
    requires Run(s, disk, Start(s), labels).Some?
    ensures var f := Run(s, disk, Start(s), labels).value;
            LogAscends(ReadLog(f.past.submitted)) && NeverInert(f.past.submitted)
  {
    RunInv(s, disk, labels);
    var f := Run(s, disk, Start(s), labels).value;
    if ResolvingInv(s, disk, f, []) {
      NoReadsNoLog(f.past.submitted);
    }
    hide Run, Waiting, LeadsOn, Expected, ServesVerdict, AllFit, Outstanding, ReadLog;
  }

  /** Every chunk from the send cursor to the issue cursor is either ready or
      outstanding, never both; the only file chunk from the issue cursor to the
      send cursor is the one that came with the open; `inflight` is the number of
      outstanding reads and never exceeds the window. */
  ghost predicate Partitioned(st: Streaming, due: multiset<nat>, seeded: bool, max: nat) {
    && st.inflight == |due| <= max
    && (forall i: nat :: st.nextSend <= i < st.issueCursor ==> (i in st.ready <==> due[i] == 0) && due[i] <= 1)
    && (forall i: nat :: due[i] > 0 ==> i < st.issueCursor)
    && (forall i: nat :: st.issueCursor <= i < st.nextSend && i < |st.chunks| && st.chunks[i].File? ==>
        i == 0 && seeded)
  }

  lemma WindowIsPartitioned(s: Session, disk: Disk, labels: seq<Label>)
    requires Run(s, disk, Start(s), labels).Some?
    requires Run(s, disk, Start(s), labels).value.phase.StreamingPhase?
    ensures var f := Run(s, disk, Start(s), labels).value;
            f.past.served.Some?
            && Partitioned(f.phase.s, Outstanding(f, []), f.past.served.value.seeded, s.config.maxInflightReads)
  {
    RunInv(s, disk, labels);
    hide Run, Start, Partitioned, Outstanding;
    StreamsPartitioned(s, disk, Run(s, disk, Start(s), labels).value);
  }

  lemma StreamsPartitioned(s: Session, disk: Disk, f: FState)
    requires Inv(s, disk, f, []) && f.phase.StreamingPhase?
    ensures f.past.served.Some?
            && Partitioned(f.phase.s, Outstanding(f, []), f.past.served.value.seeded, s.config.maxInflightReads)
  {
    OnlyStreams(s, disk, f, []);
    hide ServesVerdict, AllFit, Outstanding, ReadLog, Expected, BodyChunks, Inv, Window, Partitioned;
    var served := f.past.served.value;
    SplitWindow(f.phase.s, served.content, served.seeded, s.config.maxInflightReads, Outstanding(f, []));
  }

  lemma SplitWindow(st: Streaming, content: Bytes, seeded: bool, max: nat, due: multiset<nat>)
    requires Window(st, content, seeded, max, due)
    ensures Partitioned(st, due, seeded, max)
  {
    hide Intended, Given;
    forall i: nat | st.issueCursor <= i < st.nextSend && i < |st.chunks| && st.chunks[i].File?
      ensures i == 0 && seeded {
      GivenFile(st.chunks, seeded, i);
    }
  }

  lemma GivenFile(chunks: seq<Chunk>, seeded: bool, i: nat)
    requires i < |chunks| && chunks[i].File? && Given(chunks, seeded, i)
    ensures i == 0 && seeded
  {
  }

  /** When chunk 0 came with the open, the first read a stream submits is of
      that very chunk: a prefetch of a body of several chunks saves no read.  The
      send cursor has passed it, so what the read brings is never sent. */
  lemma SeededChunkIsReadAgain(s: Session, disk: Disk, labels: seq<Label>)
    requires Run(s, disk, Start(s), labels).Some?
    requires var f := Run(s, disk, Start(s), labels).value;
             f.phase.StreamingPhase? && f.past.served.Some? && f.past.served.value.seeded
               && ReadLog(f.past.submitted) != []
    ensures var f := Run(s, disk, Start(s), labels).value; ReadLog(f.past.submitted)[0] == 0 && f.phase.s.nextSend > 0
  {
    RunInv(s, disk, labels);
    hide Run, Start;
    SeededReads(s, disk, Run(s, disk, Start(s), labels).value);
  }

  lemma SeededReads(s: Session, disk: Disk, f: FState)
    requires Inv(s, disk, f, []) && f.phase.StreamingPhase? && f.past.served.Some? && f.past.served.value.seeded
    requires ReadLog(f.past.submitted) != []
    ensures ReadLog(f.past.submitted)[0] == 0 && f.phase.s.nextSend > 0
  {
    OnlyStreams(s, disk, f, []);
    hide ServesVerdict, AllFit, Outstanding, ReadLog, Expected, BodyChunks, ResolvingInv, Window, InTransit;
  }

  /** A run that cannot go on by itself, is not paused and was not torn down has
      answered: the whole expected response, or up to a read error a proper
      prefix and the end of the stream. */
  lemma QuietMeansServed(s: Session, disk: Disk, labels: seq<Label>)
    requires Run(s, disk, Start(s), labels).Some?
    requires var f := Run(s, disk, Start(s), labels).value;
             && !f.past.completed && !(f.phase.StreamingPhase? && f.phase.s.watermarkDepth > 0)
             && forall l :: FilterLiveness.Progress(l) ==> !Enabled(disk, f, l)
    ensures var f := Run(s, disk, Start(s), labels).value;
            && f.phase.Done?
            && if f.past.readFailed then Truncated(f.sent, Expected(s, disk)) else f.sent == Expected(s, disk)
  {
    hide Run, Start, Expected, Enabled, Truncated;
    FilterLiveness.NoStall(s, disk, labels);
    EveryRunDelivers(s, disk, labels);
  }

  /** Only a seeded chunk 0 is outstanding once it has been sent. */
  lemma SpareIsSeeded(s: Session, disk: Disk, labels: seq<Label>, n: nat)
    requires Run(s, disk, Start(s), labels).Some?
    requires var f := Run(s, disk, Start(s), labels).value;
             f.phase.StreamingPhase? && n < f.phase.s.nextSend && Outstanding(f, [])[n] > 0
    ensures var f := Run(s, disk, Start(s), labels).value;
            n == 0 && f.past.served.Some? && f.past.served.value.seeded
  {
    RunInv(s, disk, labels);
    var f := Run(s, disk, Start(s), labels).value;
    hide Run, Start, Inv;
    OnlyStreams(s, disk, f, []);
    hide ServesVerdict, AllFit, InTransit, ReadLog, Expected, BodyChunks, Intended, LogBelow, SeedRead, Outstanding;
  }

  /** In every run: a failed read among the completions of a drain ends the
      response of a stream, cut short, even when the chunk it was for has been
      sent long ago (`SpareIsSeeded`): the spare read of a seeded chunk can cut
      off a body it has no part in. */
  lemma SpareReadBreaks(s: Session, disk: Disk, labels: seq<Label>, script: seq<seq<Hook>>, i: nat)
    requires Run(s, disk, Start(s), labels).Some?
    requires var f := Run(s, disk, Start(s), labels).value;
             && f.phase.StreamingPhase? && f.wakeups > 0
             && i < |Pending(f.mailbox)| && FailedRead(Pending(f.mailbox)[i])
    ensures Run(s, disk, Start(s), labels + [Scheduled(script)]).Some?
    ensures var g := Run(s, disk, Start(s), labels + [Scheduled(script)]).value;
            g.past.readFailed && g.phase.Done? && Truncated(g.sent, Expected(s, disk))
  {
    hide Run, Start, Inv, Expected, Truncated, Enabled, Apply;
    var f := Run(s, disk, Start(s), labels).value;
    RunInv(s, disk, labels);
    DrainBreaks(s, disk, f, script, i);
    RunMore(s, disk, labels, Scheduled(script));
    EveryRunDelivers(s, disk, labels + [Scheduled(script)]);
  }

  lemma DrainBreaks(s: Session, disk: Disk, f: FState, script: seq<seq<Hook>>, i: nat)
    requires Inv(s, disk, f, []) && f.phase.StreamingPhase? && f.wakeups > 0
    requires i < |Pending(f.mailbox)| && FailedRead(Pending(f.mailbox)[i])
    ensures Enabled(disk, f, Scheduled(script)) && Apply(s, disk, f, Scheduled(script)).past.readFailed
  {
    hide Inv, HandleEvents, Pump;
    PendingReads(s, disk, f);
    var h := f.(wakeups := f.wakeups - 1, script := script);
    FailureEnds(s, h.(mailbox := Open([])), Pending(f.mailbox), i);
  }

  lemma PendingReads(s: Session, disk: Disk, f: FState)
    requires Inv(s, disk, f, []) && f.phase.StreamingPhase?
    ensures forall i :: 0 <= i < |Pending(f.mailbox)| ==> Pending(f.mailbox)[i].Read?
  {
    OnlyStreams(s, disk, f, []);
    hide Inv, Window, Expected, ServesVerdict, AllFit;
    AllReads(f.phase.s, f.past.served.value.content, f, []);
    assert forall i :: 0 <= i < |Pending(f.mailbox)| ==> InTransit(f, [])[i] == Pending(f.mailbox)[i];
  }

  lemma {:induction false} FailureEnds(s: Session, f: FState, events: seq<IoEvent>, i: nat)
    requires f.phase.StreamingPhase? && i < |events| && FailedRead(events[i])
    requires forall k :: 0 <= k < |events| ==> events[k].Read?
    ensures var o := HandleEvents(s, f, events); o.ended && o.state.past.readFailed
    decreases |events|
  {
    hide Send;
    if FailedRead(events[0]) {
      StillFailed(f.(phase := Done, past := f.past.(readFailed := true)), Data([], true));
    } else {
      FailureEnds(s, HandleEvent(s, f, events[0]).state, events[1..], i - 1);
    }
  }
}

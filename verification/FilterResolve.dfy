/** The resolver keeps the invariant: every open, directory or listing
    completion leads on to the verdict of the request, or carries it out. */
module FilterResolve {
  import opened Text
  import opened EventBridge
  import opened FilterModel
  import opened FilterRuns
  import opened FilterInvariant
  import Ranges
  import Multipart
  import RP = ResponsePlan

  /** Nothing is outstanding: the one control operation has just completed. */
  predicate Free(f: FState, drained: seq<IoEvent>) {
    f.ops == [] && InTransit(f, drained) == []
  }

  predicate Ready(f: FState, drained: seq<IoEvent>) {
    Free(f, drained) && Untouched(f) && NeverInert(f.past.submitted)
  }

  lemma {:induction false} NoReadsNoLog(ops: seq<Op>)
    requires NoReads(ops)
    ensures ReadLog(ops) == []
  {
    if ops != [] {
      NoReadsNoLog(ops[..|ops| - 1]);
    }
  }

  /** A control event can only be the one the stream is waiting for. */
  lemma TakeControl(s: Session, disk: Disk, f: FState, ev: IoEvent, rest: seq<IoEvent>)
    requires ResolvingInv(s, disk, f, [ev] + rest) && NeverInert(f.past.submitted)
    ensures Ready(f, rest) && rest == []
    ensures Completes(disk, f.past.submitted[|f.past.submitted| - 1], ev)
  {
    hide Completes, LeadsOn;
    var evs := InTransit(f, [ev] + rest);
    assert evs == Pending(f.mailbox) + [ev] + (rest + f.past.dropped);
    assert evs[|Pending(f.mailbox)|] == ev;
  }

  lemma ReplyInv(s: Session, disk: Disk, f: FState, drained: seq<IoEvent>, out: Sent)
    requires Ready(f, drained)
    requires Expected(s, disk) == [out] && VerdictOf(s, disk) != Loops
    ensures Inv(s, disk, Reply(f, out).state, drained) && Reply(f, out).state.phase.Done?
  {
    hide Expected, VerdictOf, Completes;
    var g := f.(phase := Done);
    var h := g.(sent := g.sent + [out]);
    NoReadsNoLog(f.past.submitted);
    assert InTransit(h, drained) == InTransit(f, drained);
    assert [] + [out] == [out];
    assert DoneInv(s, disk, h, drained);
    SendKeepsInv(s, disk, g, drained, out);
    SendKeepsReady(g, out);
  }

  lemma SubmitInv(s: Session, disk: Disk, f: FState, drained: seq<IoEvent>, op: Op)
    requires Ready(f, drained) && Resolving(f.phase) && !op.ReadOp?
    requires LeadsOn(s, disk, f.phase, op)
    ensures Inv(s, disk, Submit(f, op), drained)
  {
    hide LeadsOn, Completes;
    var g := Submit(f, op);
    assert InTransit(g, drained) == InTransit(f, drained);
    assert g.ops == [op];
    assert ResolvingInv(s, disk, g, drained);
  }

  lemma OpenNextCandidateInv(s: Session, disk: Disk, f: FState, drained: seq<IoEvent>)
    requires Ready(f, drained) && f.phase.ResolvingFile?
    requires FileVerdict(s, disk, f.phase.pending) == VerdictOf(s, disk)
    ensures var o := OpenNextCandidate(s, f); Inv(s, disk, o.state, drained) && (o.ended ==> o.state.phase.Done?)
  {
    var pending := f.phase.pending;
    if pending == [] {
      hide VerdictOf;
      ReplyInv(s, disk, f, drained, Response(404, [], NoBody));
    } else {
      var g := f.(phase := ResolvingFile(pending[1..]));
      var c := pending[0];
      var op := OpenOp(c.fsPath, CtxOf(c), PrefetchLen(s));
      assert pending == [c] + pending[1..];
      hide FileVerdict, VerdictOf;
      assert LeadsOn(s, disk, g.phase, op);
      assert InTransit(g, drained) == InTransit(f, drained);
      SubmitInv(s, disk, g, drained, op);
    }
  }

  lemma DirectoryFallbackInv(s: Session, disk: Disk, f: FState, drained: seq<IoEvent>)
    requires Ready(f, drained) && Resolving(f.phase)
    requires VerdictOf(s, disk) == FallbackVerdict(s)
    ensures var o := DirectoryFallback(s, f, DirPath(s));
            && Inv(s, disk, o.state, drained)
            && (o.ended ==> o.state.phase.Done?)
  {
    hide VerdictOf;
    if s.config.directory == ListingMode {
      SubmitInv(s, disk, f, drained, ReadDirOp(DirPath(s)));
    } else {
      ReplyInv(s, disk, f, drained, Response(404, [], NoBody));
    }
  }

  lemma OpenNextIndexInv(s: Session, disk: Disk, f: FState, drained: seq<IoEvent>)
    requires Ready(f, drained) && f.phase.ResolvingIndex? && f.phase.dirFs == DirPath(s)
    requires IndexVerdict(s, disk, f.phase.entries) == VerdictOf(s, disk) == DirectoryVerdict(s, disk)
    requires !Redirects(s) && s.config.directory != DenyMode
    ensures var o := OpenNextIndex(s, f); Inv(s, disk, o.state, drained) && (o.ended ==> o.state.phase.Done?)
  {
    var entries := f.phase.entries;
    if entries == [] {
      hide VerdictOf, DirectoryVerdict;
      DirectoryFallbackInv(s, disk, f, drained);
    } else {
      var g := f.(phase := ResolvingIndex(f.phase.dirFs, entries[1..]));
      var op := OpenOp(entries[0].0, IndexCtx(entries[0].1), PrefetchLen(s));
      assert entries == [entries[0]] + entries[1..] && entries[0] == (entries[0].0, entries[0].1);
      hide IndexVerdict, VerdictOf, DirectoryVerdict;
      assert LeadsOn(s, disk, g.phase, op);
      assert InTransit(g, drained) == InTransit(f, drained);
      SubmitInv(s, disk, g, drained, op);
    }
  }

  lemma HandleDirectoryInv(s: Session, disk: Disk, f: FState, drained: seq<IoEvent>)
    requires Ready(f, drained) && Resolving(f.phase)
    requires VerdictOf(s, disk) == DirectoryVerdict(s, disk)
    ensures var o := HandleDirectory(s, f); Inv(s, disk, o.state, drained) && (o.ended ==> o.state.phase.Done?)
  {
    hide VerdictOf;
    if Redirects(s) {
      ReplyInv(s, disk, f, drained, Redirect(s));
    } else if s.config.directory == DenyMode {
      ReplyInv(s, disk, f, drained, Response(403, [], NoBody));
    } else if IndexEntries(s) == [] {
      DirectoryFallbackInv(s, disk, f, drained);
    } else {
      var g := f.(phase := ResolvingIndex(DirPath(s), IndexEntries(s)));
      assert InTransit(g, drained) == InTransit(f, drained);
      OpenNextIndexInv(s, disk, g, drained);
    }
  }

  /** The control operation just completed was an open of `path`. */
  predicate Opening(s: Session, disk: Disk, f: FState, op: Op) {
    op.OpenOp? && LeadsOn(s, disk, f.phase, op)
  }

  lemma HandleOpenErrorInv(s: Session, disk: Disk, f: FState, drained: seq<IoEvent>, op: Op, error: IoError)
    requires Ready(f, drained) && Resolving(f.phase) && Opening(s, disk, f, op)
    requires disk.open(op.path) == Fails(error)
    ensures var o := HandleOpenError(s, f, error); Inv(s, disk, o.state, drained) && (o.ended ==> o.state.phase.Done?)
  {
    hide VerdictOf, DirectoryVerdict;
    match f.phase {
      case ResolvingFile(pending) =>
        var candidates := [Candidate(op.path, op.ctx.encoding, op.ctx.contentType, op.ctx.addVary)] + pending;
        assert candidates[1..] == pending;
        if pending == [] {
          ReplyInv(s, disk, f, drained, Response(StatusForIoError(error), [], NoBody));
        } else {
          OpenNextCandidateInv(s, disk, f, drained);
        }
      case ResolvingIndex(dirFs, entries) =>
        assert ([(op.path, op.ctx.contentType)] + entries)[1..] == entries;
        OpenNextIndexInv(s, disk, f, drained);
    }
  }

  lemma HandleOpenedDirInv(s: Session, disk: Disk, f: FState, drained: seq<IoEvent>, op: Op,
                           handle: FileHandle, stat: FileStat, prefetch: Bytes)
    requires Ready(f, drained) && Resolving(f.phase) && Opening(s, disk, f, op)
    requires disk.open(op.path).Directory? && stat.isDir
    ensures var o := HandleOpened(s, f, handle, stat, op.ctx, prefetch);
            Inv(s, disk, o.state, drained) && (o.ended ==> o.state.phase.Done?)
  {
    hide VerdictOf;
    match f.phase {
      case ResolvingFile(pending) =>
        var candidates := [Candidate(op.path, op.ctx.encoding, op.ctx.contentType, op.ctx.addVary)] + pending;
        assert candidates[1..] == pending;
        hide DirectoryVerdict;
        if op.ctx.encoding.Some? {
          OpenNextCandidateInv(s, disk, f, drained);
        } else {
          HandleDirectoryInv(s, disk, f, drained);
        }
      case ResolvingIndex(dirFs, entries) =>
        hide DirectoryVerdict;
        HandleDirectoryInv(s, disk, f, drained);
    }
  }

  // ------------------------------------------------------- starting the body

  lemma InlineReadyHolds(chunks: seq<Chunk>)
    ensures forall i: nat :: i in InlineReady(chunks) <==> i < |chunks| && chunks[i].Inline?
    ensures forall i :: i in InlineReady(chunks) ==> InlineReady(chunks)[i] == chunks[i].bytes
  {
  }

  /** The prefetch of a regular file, as the engine returns it. */
  predicate Prefetched(s: Session, content: Bytes, prefetch: Bytes) {
    prefetch == [] || prefetch == content[..Min(PrefetchLen(s), |content|)]
  }

  /** A seeded chunk 0 holds just what a read of it would have given. */
  lemma SeedIsIntended(s: Session, chunks: seq<Chunk>, content: Bytes, prefetch: Bytes)
    requires Prefetched(s, content, prefetch) && Seeds(chunks, prefetch)
    ensures chunks != [] && chunks[0].File?
    ensures Intended(chunks[0], content) == prefetch
  {
    if prefetch != [] {
      assert content[0..|prefetch|] == content[..|prefetch|];
    }
  }

  lemma FirstWindow(handle: FileHandle, chunks: seq<Chunk>, ready: map<nat, Bytes>, content: Bytes, prefetch: Bytes,
                    seeded: bool, max: nat)
    requires chunks != []
    requires seeded == Seeds(chunks, prefetch) && (seeded ==> Intended(chunks[0], content) == prefetch)
    requires ready == if seeded then InlineReady(chunks)[0 := prefetch] else InlineReady(chunks)
    ensures Window(Streaming(handle, chunks, ready, 0, 0, 0, 0), content, seeded, max, multiset{})
  {
    InlineReadyHolds(chunks);
    hide InlineReady;
  }

  lemma BeginStreamingInv(s: Session, disk: Disk, f: FState, drained: seq<IoEvent>, plan: RP.Plan,
                          handle: FileHandle, chunks: seq<Chunk>, prefetch: Bytes)
    requires Ready(f, drained)
    requires ServesVerdict(s, disk, Served(plan, handle.content, Seeds(chunks, prefetch)))
    requires chunks == BodyChunks(plan.body, s.config.chunkSize) && chunks != []
    requires Prefetched(s, handle.content, prefetch)
    requires handle.id == 0 ==> |chunks| == 1 && Seeds(chunks, prefetch)
    ensures var o := BeginStreaming(f, plan, handle, chunks, prefetch); Inv(s, disk, o.state, drained) && !o.ended
  {
    hide ServesVerdict, BodyChunks, Expected, PlannedCalls, InlineReady, Seeds, Intended, Prefetched, Completes,
      VerdictOf;
    var seeded := Seeds(chunks, prefetch);
    var ready := if seeded then InlineReady(chunks)[0 := prefetch] else InlineReady(chunks);
    var st := Streaming(handle, chunks, ready, 0, 0, 0, 0);
    var g := f.(phase := StreamingPhase(st), past := f.past.(served := Some(Served(plan, handle.content, seeded))));
    var out := Headers(plan.status, plan.headers, false);
    var h := g.(sent := g.sent + [out]);
    if seeded {
      SeedIsIntended(s, chunks, handle.content, prefetch);
    }
    FirstWindow(handle, chunks, ready, handle.content, prefetch, seeded, s.config.maxInflightReads);
    FirstCall(s, disk, plan, chunks, handle.content, seeded);
    assert [] + [out] == [out];
    FirstStreamInv(s, disk, f, h, drained, st);
    SendKeepsInv(s, disk, g, drained, out);
  }

  lemma FirstStreamInv(s: Session, disk: Disk, f: FState, h: FState, drained: seq<IoEvent>, st: Streaming)
    requires Ready(f, drained) && h.phase == StreamingPhase(st) && h.past.served.Some?
    requires h.past == f.past.(served := h.past.served) && h.ops == f.ops && h.mailbox == f.mailbox
    requires ServesVerdict(s, disk, h.past.served.value) && st.handle.content == h.past.served.value.content
    requires st.chunks == BodyChunks(h.past.served.value.plan.body, s.config.chunkSize)
    requires st.handle.id == 0 ==> |st.chunks| == 1 && 0 in st.ready
    requires st.nextSend == 0 && st.issueCursor == 0
    requires h.past.served.value.seeded ==> st.chunks != [] && st.chunks[0].File?
    requires Window(st, st.handle.content, h.past.served.value.seeded, s.config.maxInflightReads, multiset{})
    requires 1 <= |Expected(s, disk)| && h.sent == Expected(s, disk)[..1]
    ensures Inv(s, disk, h, drained)
  {
    hide ServesVerdict, BodyChunks, Expected, Window, Completes, VerdictOf;
    NoReadsNoLog(f.past.submitted);
    assert InTransit(h, drained) == InTransit(f, drained) == [];
    assert Outstanding(h, drained) == multiset{};
  }

  /** What the verdict expects begins with the planned headers. */
  lemma FirstCall(s: Session, disk: Disk, plan: RP.Plan, chunks: seq<Chunk>, content: FileBytes, seeded: bool)
    requires ServesVerdict(s, disk, Served(plan, content, seeded))
    requires chunks == BodyChunks(plan.body, s.config.chunkSize)
    ensures Expected(s, disk) == PlannedCalls(plan, chunks, content)
    ensures |Expected(s, disk)| >= 1 && Expected(s, disk)[..1] == [Headers(plan.status, plan.headers, chunks == [])]
  {
    hide VerdictOf, BodyChunks, PlanFor, DataCalls;
  }

  lemma FinishWithHeadersInv(s: Session, disk: Disk, f: FState, drained: seq<IoEvent>, plan: RP.Plan,
                             handle: FileHandle)
    requires Ready(f, drained)
    requires ServesVerdict(s, disk, Served(plan, handle.content, false))
    requires BodyChunks(plan.body, s.config.chunkSize) == []
    ensures var o := FinishWithHeaders(f, plan, handle);
            && Inv(s, disk, o.state, drained) && o.ended
            && o.state.phase.Done?
  {
    var g := f.(phase := Done, past := f.past.(served := Some(Served(plan, handle.content, false))));
    var out := Headers(plan.status, plan.headers, true);
    var h := g.(sent := g.sent + [out]);
    FirstCall(s, disk, plan, [], handle.content, false);
    assert DataCalls([], handle.content) == [];
    NoReadsNoLog(f.past.submitted);
    assert InTransit(h, drained) == InTransit(f, drained);
    assert [] + [out] == [out];
    assert VerdictOf(s, disk) != Loops;
    hide ServesVerdict, BodyChunks, Expected, VerdictOf;
    assert DoneInv(s, disk, h, drained);
    SendKeepsInv(s, disk, g, drained, out);
    SendKeepsReady(g, out);
  }

  lemma NotInNothing(ranges: seq<Ranges.ByteRange>)
    requires ranges != []
    ensures !(forall r :: r in ranges ==> Ranges.InBounds(r, 0))
  {
    assert ranges[0] in ranges;
  }

  /** An empty file has no range to serve. */
  lemma NoRangeOfNothing(facts: RP.RequestFacts, meta: RP.FileMeta)
    requires meta.size == 0
    ensures RP.UsedRange(facts, meta).Full? || RP.UsedRange(facts, meta).Unsatisfiable?
  {
    if facts.rangeHeader.Some? {
      Ranges.PlanIsSound(facts.rangeHeader.value, 0, facts.rangePolicy);
      var outcome := Ranges.Plan(facts.rangeHeader.value, 0, facts.rangePolicy);
      if outcome.Multi? && outcome.ranges != [] {
        NotInNothing(outcome.ranges);
      }
    }
    hide Ranges.Plan;
  }

  lemma EmptyFileBody(s: Session, ctx: OpenCtx, stat: FileStat)
    requires stat.size == 0
    ensures BodyChunks(PlanFor(s, ctx, stat).body, s.config.chunkSize) == []
  {
    NoRangeOfNothing(Facts(s, ctx, stat), RP.FileMeta(stat.size, stat.mtimeUnix, stat.mtimeNanos));
    hide RP.UsedRange, Facts, RP.Common, RP.ValidatorsOf, RP.Effective;
  }

  /** Without a Range header the whole file is planned, or nothing. */
  lemma PlainBody(s: Session, ctx: OpenCtx, stat: FileStat)
    requires s.request.rangeHeader.None?
    ensures var body := PlanFor(s, ctx, stat).body; body.Empty? || body == RP.Whole(stat.size)
  {
  }

  /** The handle the engine has already closed is never read: its one chunk is
      in the prefetch. */
  lemma InertIsSeeded(s: Session, ctx: OpenCtx, stat: FileStat, handle: FileHandle, prefetch: Bytes)
    requires stat.size == |handle.content| == |prefetch| && Prefetched(s, handle.content, prefetch)
    ensures var body := PlanFor(s, ctx, stat).body;
            var chunks := BodyChunks(body, s.config.chunkSize);
            chunks != [] ==> |chunks| == 1 && Seeds(chunks, if body.Whole? then prefetch else [])
  {
    if stat.size == 0 {
      EmptyFileBody(s, ctx, stat);
    } else {
      PlainBody(s, ctx, stat);
      hide PlanFor;
      assert FileChunks(0, stat.size, s.config.chunkSize)
        == [File(0, stat.size)] + FileChunks(stat.size, 0, s.config.chunkSize);
    }
  }

  lemma ServeFileInv(s: Session, disk: Disk, f: FState, drained: seq<IoEvent>, op: Op, handle: FileHandle,
                     stat: FileStat, prefetch: Bytes)
    requires Ready(f, drained)
    requires op.OpenOp? && VerdictOf(s, disk) == Serve(op.path, op.ctx)
    requires disk.open(op.path).Regular? && disk.open(op.path).content == handle.content
    requires stat == StatOf(disk.open(op.path)) && Prefetched(s, handle.content, prefetch)
    requires handle.id == 0 <==> |prefetch| == |handle.content|
    ensures var o := ServeFile(s, f, handle, stat, op.ctx, prefetch);
            Inv(s, disk, o.state, drained) && (o.ended ==> o.state.phase.Done?)
  {
    var plan := PlanFor(s, op.ctx, stat);
    var chunks := BodyChunks(plan.body, s.config.chunkSize);
    var kept := if plan.body.Whole? then prefetch else [];
    assert ServesVerdict(s, disk, Served(plan, handle.content, false));
    FileChunksHaveBytes(plan.body, s.config.chunkSize);
    if chunks == [] {
      FinishWithHeadersInv(s, disk, f, drained, plan, handle);
    } else {
      if handle.id == 0 {
        InertIsSeeded(s, op.ctx, stat, handle, prefetch);
      }
      BeginStreamingInv(s, disk, f, drained, plan, handle, chunks, kept);
    }
    hide VerdictOf, PlanFor, BodyChunks, FinishWithHeaders, BeginStreaming, Inv;
  }

  /** No chunk of the file is empty, so an empty prefetch never seeds one; and
      none is larger than the chunk size. */
  lemma FileChunksHaveBytes(body: RP.BodyPlan, chunkSize: Positive)
    ensures HaveBytes(BodyChunks(body, chunkSize), chunkSize)
  {
    match body {
      case Empty =>
      case Whole(len) => CutHasBytes(0, len, chunkSize);
      case Segments(ranges) => SegmentsHaveBytes(ranges, chunkSize);
      case Multi(parts, terminator, _) => PartsHaveBytes(parts, chunkSize);
    }
  }

  predicate HaveBytes(chunks: seq<Chunk>, chunkSize: nat) {
    forall i :: 0 <= i < |chunks| && chunks[i].File? ==> 0 < chunks[i].len <= chunkSize
  }

  lemma {:induction false} CutHasBytes(start: nat, len: nat, chunkSize: Positive)
    ensures HaveBytes(FileChunks(start, len, chunkSize), chunkSize)
    decreases len
  {
    if len > 0 {
      var here := Min(len, chunkSize);
      CutHasBytes(start + here, len - here, chunkSize);
    }
  }

  lemma {:induction false} SegmentsHaveBytes(ranges: seq<Ranges.ByteRange>, chunkSize: Positive)
    ensures HaveBytes(SegmentChunks(ranges, chunkSize), chunkSize)
  {
    hide FileChunks;
    if ranges != [] {
      var r := ranges[|ranges| - 1];
      SegmentsHaveBytes(ranges[..|ranges| - 1], chunkSize);
      CutHasBytes(r.start, Length(r), chunkSize);
    }
  }

  lemma {:induction false} PartsHaveBytes(parts: seq<Multipart.Part>, chunkSize: Positive)
    ensures HaveBytes(PartChunks(parts, chunkSize), chunkSize)
  {
    hide FileChunks;
    if parts != [] {
      var p := parts[|parts| - 1];
      PartsHaveBytes(parts[..|parts| - 1], chunkSize);
      CutHasBytes(p.range.start, Length(p.range), chunkSize);
    }
  }

  // -------------------------------------------------- one control completion

  lemma HandleControlInv(s: Session, disk: Disk, f: FState, ev: IoEvent, rest: seq<IoEvent>)
    requires ResolvingInv(s, disk, f, [ev] + rest) && NeverInert(f.past.submitted)
    ensures var o := HandleEvent(s, f, ev); Inv(s, disk, o.state, rest) && (o.ended ==> o.state.phase.Done?)
  {
    TakeControl(s, disk, f, ev, rest);
    var op := f.past.submitted[|f.past.submitted| - 1];
    match op {
      case ReadDirOp(path) =>
        hide VerdictOf;
        HandleDirInv(s, disk, f, rest, ev.listing);
      case OpenOp(path, ctx, prefetchLen) =>
        HandleOpenInv(s, disk, f, rest, op, ev);
    }
  }

  lemma HandleDirInv(s: Session, disk: Disk, f: FState, drained: seq<IoEvent>, listing: ListOutcome)
    requires Ready(f, drained) && VerdictOf(s, disk) == ListDir && listing == disk.list(DirPath(s))
    ensures var o := HandleDir(s, f, listing); Inv(s, disk, o.state, drained) && (o.ended ==> o.state.phase.Done?)
  {
    hide VerdictOf;
    match listing {
      case Listed(entries) => ReplyInv(s, disk, f, drained, ListingReply(s, entries));
      case ListFails(error) => ReplyInv(s, disk, f, drained, Response(StatusForIoError(error), [], NoBody));
    }
  }

  lemma HandleOpenInv(s: Session, disk: Disk, f: FState, drained: seq<IoEvent>, op: Op, ev: IoEvent)
    requires Ready(f, drained) && Resolving(f.phase) && Opening(s, disk, f, op)
    requires Completes(disk, op, ev)
    ensures var o := HandleEvent(s, f, ev); Inv(s, disk, o.state, drained) && (o.ended ==> o.state.phase.Done?)
  {
    match disk.open(op.path) {
      case Fails(error) =>
        HandleOpenErrorInv(s, disk, f, drained, op, error);
      case Directory(stat) =>
        HandleOpenedDirInv(s, disk, f, drained, op, ev.handle, ev.stat, ev.prefetch);
      case Regular(content, secs, nanos) =>
        RegularVerdict(s, disk, f, op);
        ServeFileInv(s, disk, f, drained, op, ev.handle, ev.stat, ev.prefetch);
    }
  }

  lemma RegularVerdict(s: Session, disk: Disk, f: FState, op: Op)
    requires Resolving(f.phase) && Opening(s, disk, f, op) && disk.open(op.path).Regular?
    ensures VerdictOf(s, disk) == Serve(op.path, op.ctx) && op.prefetchLen == PrefetchLen(s)
  {
    hide VerdictOf, DirectoryVerdict;
  }
}

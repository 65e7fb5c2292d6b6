/** The per-stream filter (crates/envoy-files-filter/src/filter.rs) as functions
    on its state: what each callback does to the phase, which calls it makes
    into Envoy and into the I/O engine.  `FilterClass.dfy` runs the same
    callbacks as methods that update fields. */
module FilterModel {
  import opened Text
  import opened Validators
  import opened EventBridge
  import Ranges
  import Multipart
  import RP = ResponsePlan
  import Encodings
  import Paths
  import Mount

  // ------------------------------------------------------------ configuration

  datatype DirectoryMode = IndexMode | ListingMode | DenyMode

  datatype RangeSupport = NoRanges | SingleRange | MultiRange

  /** The parser allows 4096 bytes to 4 MiB a chunk, and 1 to 8 reads; the
      stream only needs them not to be zero. */
  type Positive = n: nat | n > 0 witness 1

  datatype Config = Config(
    root: Bytes,
    stripPrefix: Option<Bytes>,
    indexFiles: seq<Bytes>,
    directory: DirectoryMode,
    redirectTrailingSlash: bool,
    serveDotfiles: bool,
    chunkSize: Positive,
    maxInflightReads: Positive,
    etag: bool,
    lastModified: bool,
    ranges: RangeSupport,
    precompressed: seq<Encodings.Encoding>,
    contentTypeFor: Bytes -> Bytes,
    parseQ: string -> Option<Encodings.Quality>,
    cacheControl: Option<Bytes>)

  /** What the filter keeps of the request once its path is resolved. */
  datatype Request = Request(
    methodHead: bool,
    conditionals: ConditionalHeaders,
    rangeHeader: Option<string>,
    acceptEncoding: Option<string>,
    relative: Bytes,
    trailingSlash: bool)

  datatype Session = Session(config: Config, request: Request)

  // ------------------------------------------------------------ files and I/O

  datatype ErrorKind = NotFound | PermissionDenied | NotADirectory | IsADirectory | OtherKind

  datatype IoError = IoError(kind: ErrorKind, errno: Option<int>)

  const ELOOP := 40

  function StatusForIoError(e: IoError): nat {
    match e.kind
    case NotFound => 404
    case PermissionDenied => 403
    case NotADirectory => 404
    case IsADirectory => 403
    case OtherKind => if e.errno == Some(ELOOP) then 403 else 500
  }

  type FileBytes = s: Bytes | |s| < TWO64

  datatype FileStat = FileStat(size: U64, mtimeUnix: I64, mtimeNanos: U32, isDir: bool)

  datatype DirEntryInfo = DirEntryInfo(name: Bytes, isDir: bool, size: U64, mtimeUnix: I64)

  /** An open file: the id the engine knows it by (0 when the engine has
      already closed it) and what the file holds. */
  datatype FileHandle = FileHandle(id: nat, content: FileBytes)

  datatype OpenCtx = OpenCtx(encoding: Option<Bytes>, contentType: Bytes, addVary: bool)

  datatype OpenOutcome =
    | Fails(error: IoError)
    | Directory(stat: FileStat)
    | Regular(content: FileBytes, mtimeUnix: I64, mtimeNanos: U32)

  datatype ListOutcome = Listed(entries: seq<DirEntryInfo>) | ListFails(error: IoError)

  /** An unchanging filesystem below the root, containment checks included. */
  datatype Disk = Disk(open: Bytes -> OpenOutcome, list: Bytes -> ListOutcome)

  /** A request to the engine. */
  datatype Op =
    | OpenOp(path: Bytes, ctx: OpenCtx, prefetchLen: nat)
    | ReadDirOp(path: Bytes)
    | ReadOp(seqNo: nat, handle: FileHandle, offset: nat, len: nat)

  datatype ReadResult = Got(bytes: Bytes) | ReadFails(error: IoError)

  /** A completion on its way back to the worker. */
  datatype IoEvent =
    | Opened(handle: FileHandle, stat: FileStat, ctx: OpenCtx, prefetch: Bytes)
    | OpenError(error: IoError)
    | Read(seqNo: nat, result: ReadResult)
    | Dir(listing: ListOutcome)

  function Min(a: nat, b: nat): nat {
    if a < b then a else b
  }

  /** What reading `len` bytes at `offset` yields. */
  function ReadSlice(content: Bytes, offset: nat, len: nat): Bytes {
    content[Min(offset, |content|)..Min(offset + len, |content|)]
  }

  /** The completions the engine may give an operation.  A prefetch may fail,
      and then is empty; a read may fail. */
  predicate Completes(disk: Disk, op: Op, ev: IoEvent) {
    match op
    case OpenOp(path, ctx, prefetchLen) =>
      (match disk.open(path)
       case Fails(error) => ev == OpenError(error)
       case Directory(stat) =>
         ev.Opened? && ev.handle.id != 0 && ev.stat.isDir && ev.ctx == ctx && ev.prefetch == []
       case Regular(content, secs, nanos) =>
         && ev.Opened? && ev.stat == FileStat(|content|, secs, nanos, false) && ev.ctx == ctx
         && ev.handle.content == content
         && (ev.prefetch == [] || ev.prefetch == content[..Min(prefetchLen, |content|)])
         && (ev.handle.id == 0 <==> |ev.prefetch| == |content|))
    case ReadDirOp(path) => ev == Dir(disk.list(path))
    case ReadOp(seqNo, handle, offset, len) =>
      ev.Read? && ev.seqNo == seqNo && (ev.result.Got? ==> ev.result.bytes == ReadSlice(handle.content, offset, len))
  }

  // ------------------------------------------------------------------- phases

  datatype Candidate = Candidate(fsPath: Bytes, encoding: Option<Bytes>, contentType: Bytes, addVary: bool)

  datatype Chunk = Inline(bytes: Bytes) | File(offset: nat, len: nat)

  datatype Streaming = Streaming(
    handle: FileHandle,
    chunks: seq<Chunk>,
    ready: map<nat, Bytes>,
    nextSend: nat,
    issueCursor: nat,
    inflight: nat,
    watermarkDepth: nat)

  datatype Phase =
    | Idle
    | ResolvingFile(pending: seq<Candidate>)
    | ResolvingIndex(dirFs: Bytes, entries: seq<(Bytes, Bytes)>)
    | StreamingPhase(s: Streaming)
    | Done

  /** A generated listing; its HTML text is not modelled. */
  datatype ReplyBody = NoBody | Listing(urlPath: Bytes, atRoot: bool, entries: seq<DirEntryInfo>)

  /** A call into Envoy that puts something on the wire. */
  datatype Sent =
    | Response(status: nat, headers: seq<(string, Bytes)>, body: ReplyBody)
    | Headers(status: nat, fields: seq<RP.Header>, endStream: bool)
    | Data(bytes: Bytes, endStream: bool)

  /** What Envoy may call back while it executes a send. */
  datatype Hook = High | Low | Complete

  datatype Served = Served(plan: RP.Plan, content: FileBytes, seeded: bool)

  /** What has happened, kept for stating properties; no callback reads it. */
  datatype History = History(
    submitted: seq<Op>,
    dropped: seq<IoEvent>,
    completed: bool,
    served: Option<Served>,
    readFailed: bool)

  /** A stream: the filter's phase, what it has sent, what the engine still
      owes it, the mailbox, deliveries whose wake-up is not committed yet, and
      committed wake-ups that have not run.  `script` is what Envoy will call
      back during the sends to come, one list for each send. */
  datatype FState = FState(
    phase: Phase,
    sent: seq<Sent>,
    ops: seq<Op>,
    mailbox: Mailbox<IoEvent>,
    uncommitted: nat,
    wakeups: nat,
    script: seq<seq<Hook>>,
    past: History)

  const Fresh := FState(Idle, [], [], Open([]), 0, 0, [], History([], [], false, None, false))

  // -------------------------------------------------------- watermarks, sends

  /** `on_downstream_above_write_buffer_high_watermark`. */
  function OnHigh(f: FState): FState {
    if f.phase.StreamingPhase?
    then f.(phase := StreamingPhase(f.phase.s.(watermarkDepth := f.phase.s.watermarkDepth + 1)))
    else f
  }

  function LessOne(n: nat): nat {
    if n == 0 then 0 else n - 1
  }

  /** `on_downstream_below_write_buffer_low_watermark`. */
  function OnLow(f: FState): FState {
    if f.phase.StreamingPhase? then
      var depth := LessOne(f.phase.s.watermarkDepth);
      f.(phase := StreamingPhase(f.phase.s.(watermarkDepth := depth)),
         wakeups := if depth == 0 then f.wakeups + 1 else f.wakeups)
    else f
  }

  /** `on_stream_complete`. */
  function OnStreamComplete(f: FState): FState {
    f.(mailbox := Closed,
       past := f.past.(completed := true, dropped := f.past.dropped + Pending(f.mailbox)))
  }

  function RunHook(f: FState, h: Hook): FState {
    match h
    case High => OnHigh(f)
    case Low => OnLow(f)
    case Complete => OnStreamComplete(f)
  }

  function RunHooks(f: FState, hooks: seq<Hook>): FState {
    if hooks == [] then f else RunHook(RunHooks(f, hooks[..|hooks| - 1]), hooks[|hooks| - 1])
  }

  /** A call into Envoy, and the hooks Envoy runs before it returns. */
  function Send(f: FState, out: Sent): FState {
    var g := f.(sent := f.sent + [out]);
    if g.script == [] then g else RunHooks(g.(script := g.script[1..]), g.script[0])
  }

  function Submit(f: FState, op: Op): FState {
    f.(ops := f.ops + [op], past := f.past.(submitted := f.past.submitted + [op]))
  }

  /** A callback's effect, and whether it ended the stream. */
  datatype Outcome = Outcome(state: FState, ended: bool)

  /** A complete local reply, the last thing the filter does. */
  function Reply(f: FState, out: Sent): Outcome {
    Outcome(Send(f.(phase := Done), out), true)
  }

  function RespondStatus(f: FState, status: nat): Outcome {
    Reply(f, Response(status, [], NoBody))
  }

  // ---------------------------------------------------------------- resolving

  predicate IsAbsolute(name: Bytes) {
    name != "" && name[0] == '/'
  }

  /** `PathBuf::join` on Unix: an absolute name takes the directory's place. */
  function PathJoin(dir: Bytes, name: Bytes): Bytes {
    if IsAbsolute(name) then name
    else if dir == "" || dir[|dir| - 1] == '/' then dir + name
    else dir + "/" + name
  }

  function EncodedCandidates(s: Session, chosen: seq<Encodings.Encoding>): seq<Candidate> {
    var c, r := s.config, s.request;
    seq(|chosen|, i requires 0 <= i < |chosen| =>
      Candidate(PathJoin(c.root, r.relative + chosen[i].fileSuffix), Some(chosen[i].contentEncoding),
        c.contentTypeFor(r.relative), true))
  }

  /** `build_file_candidates`: the negotiated variants, then the file itself. */
  function BuildFileCandidates(s: Session): seq<Candidate> {
    var c, r := s.config, s.request;
    var encoded :=
      if !r.trailingSlash && r.acceptEncoding.Some?
      then EncodedCandidates(s,
          Encodings.Negotiate(Encodings.HeaderEntries(r.acceptEncoding, c.parseQ), c.precompressed))
      else [];
    encoded + [Candidate(PathJoin(c.root, r.relative), None, c.contentTypeFor(r.relative), encoded != [])]
  }

  /** `submit_open`: a plain whole-file GET folds the first chunk into the open. */
  function SubmitOpen(s: Session, f: FState, path: Bytes, ctx: OpenCtx): FState {
    var prefetchLen := if !s.request.methodHead && s.request.rangeHeader.None? then s.config.chunkSize else 0;
    Submit(f, OpenOp(path, ctx, prefetchLen))
  }

  function OpenNextCandidate(s: Session, f: FState): Outcome {
    if !f.phase.ResolvingFile? then Outcome(f, false)
    else if f.phase.pending == [] then RespondStatus(f, 404)
    else
      var c := f.phase.pending[0];
      Outcome(SubmitOpen(s, f.(phase := ResolvingFile(f.phase.pending[1..])), c.fsPath,
        OpenCtx(c.encoding, c.contentType, c.addVary)), false)
  }

  function DirectoryFallback(s: Session, f: FState, dirFs: Bytes): Outcome {
    if s.config.directory == ListingMode then Outcome(Submit(f, ReadDirOp(dirFs)), false)
    else RespondStatus(f, 404)
  }

  function OpenNextIndex(s: Session, f: FState): Outcome {
    if !f.phase.ResolvingIndex? then Outcome(f, false)
    else if f.phase.entries == [] then DirectoryFallback(s, f, f.phase.dirFs)
    else
      var (path, contentType) := f.phase.entries[0];
      Outcome(SubmitOpen(s, f.(phase := ResolvingIndex(f.phase.dirFs, f.phase.entries[1..])), path,
        OpenCtx(None, contentType, false)), false)
  }

  function DirPath(s: Session): Bytes {
    PathJoin(s.config.root, s.request.relative)
  }

  function IndexEntries(s: Session): seq<(Bytes, Bytes)> {
    var names := s.config.indexFiles;
    seq(|names|, i requires 0 <= i < |names| => (PathJoin(DirPath(s), names[i]), s.config.contentTypeFor(names[i])))
  }

  function Redirect(s: Session): Sent {
    Response(301, [("location", Mount.RedirectLocation(s.config.stripPrefix, s.request.relative))], NoBody)
  }

  function HandleDirectory(s: Session, f: FState): Outcome {
    if !s.request.trailingSlash && s.config.redirectTrailingSlash then Reply(f, Redirect(s))
    else if s.config.directory == DenyMode then RespondStatus(f, 403)
    else if IndexEntries(s) == [] then DirectoryFallback(s, f, DirPath(s))
    else OpenNextIndex(s, f.(phase := ResolvingIndex(DirPath(s), IndexEntries(s))))
  }

  function HandleOpenError(s: Session, f: FState, error: IoError): Outcome {
    match f.phase
    case ResolvingFile(pending) =>
      if pending != [] then OpenNextCandidate(s, f) else RespondStatus(f, StatusForIoError(error))
    case ResolvingIndex(_, _) => OpenNextIndex(s, f)
    case _ => Outcome(f, false)
  }

  function AdvanceAfterOpenMiss(s: Session, f: FState): Outcome {
    match f.phase
    case ResolvingFile(_) => OpenNextCandidate(s, f)
    case ResolvingIndex(_, _) => OpenNextIndex(s, f)
    case _ => Outcome(f, false)
  }

  function ListingReply(s: Session, entries: seq<DirEntryInfo>): Sent {
    Response(200, [("content-type", "text/html; charset=utf-8")],
      Listing(Mount.UrlFor(s.config.stripPrefix, s.request.relative), s.request.relative == "", entries))
  }

  function HandleDir(s: Session, f: FState, result: ListOutcome): Outcome {
    match result
    case ListFails(error) => RespondStatus(f, StatusForIoError(error))
    case Listed(entries) => Reply(f, ListingReply(s, entries))
  }

  function HandleOpened(s: Session, f: FState, handle: FileHandle, stat: FileStat, ctx: OpenCtx,
                        prefetch: Bytes): Outcome {
    if stat.isDir then
      if ctx.encoding.Some? then AdvanceAfterOpenMiss(s, f) else HandleDirectory(s, f)
    else ServeFile(s, f, handle, stat, ctx, prefetch)
  }

  // ------------------------------------------------------------------ serving

  function Pad16(digits: Bytes): Bytes {
    seq(if |digits| < 16 then 16 - |digits| else 0, _ => '0') + digits
  }

  function Boundary(stat: FileStat): Bytes {
    "envoyfilesboundary" + Pad16(Render(stat.size, 16)) + Pad16(Render(Bits(stat.mtimeUnix), 16))
  }

  function Facts(s: Session, ctx: OpenCtx, stat: FileStat): RP.RequestFacts {
    RP.RequestFacts(
      s.request.methodHead,
      s.request.conditionals,
      if s.config.ranges == NoRanges then None else s.request.rangeHeader,
      ctx.contentType,
      s.config.etag,
      s.config.lastModified,
      Ranges.RangePolicy(s.config.ranges == MultiRange, 50),
      Boundary(stat),
      ctx.encoding,
      ctx.addVary,
      s.config.cacheControl)
  }

  function PlanFor(s: Session, ctx: OpenCtx, stat: FileStat): RP.Plan {
    RP.PlanResponse(Facts(s, ctx, stat), RP.FileMeta(stat.size, stat.mtimeUnix, stat.mtimeNanos))
  }

  function ServeFile(s: Session, f: FState, handle: FileHandle, stat: FileStat, ctx: OpenCtx,
                     prefetch: Bytes): Outcome {
    ExecutePlan(s, f, PlanFor(s, ctx, stat), handle, prefetch)
  }

  /** `file_chunks`. */
  function FileChunks(start: nat, len: nat, chunkSize: Positive): seq<Chunk>
    decreases len
  {
    if len == 0 then []
    else
      var here := Min(len, chunkSize);
      [File(start, here)] + FileChunks(start + here, len - here, chunkSize)
  }

  function Length(r: Ranges.ByteRange): nat {
    if r.start <= r.end then r.end - r.start + 1 else 0
  }

  function SegmentChunks(ranges: seq<Ranges.ByteRange>, chunkSize: Positive): seq<Chunk>
  {
    if ranges == [] then []
    else
      var r := ranges[|ranges| - 1];
      SegmentChunks(ranges[..|ranges| - 1], chunkSize) + FileChunks(r.start, Length(r), chunkSize)
  }

  function PartChunks(parts: seq<Multipart.Part>, chunkSize: Positive): seq<Chunk>
  {
    if parts == [] then []
    else
      var p := parts[|parts| - 1];
      PartChunks(parts[..|parts| - 1], chunkSize) + [Inline(p.header)]
        + FileChunks(p.range.start, Length(p.range), chunkSize)
  }

  /** The ordered units of a planned body. */
  function BodyChunks(body: RP.BodyPlan, chunkSize: Positive): seq<Chunk>
  {
    match body
    case Empty => []
    case Whole(len) => FileChunks(0, len, chunkSize)
    case Segments(ranges) => SegmentChunks(ranges, chunkSize)
    case Multi(parts, terminator, _) => PartChunks(parts, chunkSize) + [Inline(terminator)]
  }

  function ExecutePlan(s: Session, f: FState, plan: RP.Plan, handle: FileHandle, prefetch: Bytes): Outcome {
    if plan.body.Empty? then FinishWithHeaders(f, plan, handle)
    else
      var kept := if plan.body.Whole? then prefetch else [];
      BeginStreaming(f, plan, handle, BodyChunks(plan.body, s.config.chunkSize), kept)
  }

  function FinishWithHeaders(f: FState, plan: RP.Plan, handle: FileHandle): Outcome {
    var g := f.(phase := Done, past := f.past.(served := Some(Served(plan, handle.content, false))));
    Outcome(Send(g, Headers(plan.status, plan.headers, true)), true)
  }

  function InlineReady(chunks: seq<Chunk>): map<nat, Bytes> {
    map i: nat | i < |chunks| && chunks[i].Inline? :: chunks[i].bytes
  }

  /** The prefetch replaces chunk 0 when it covers exactly that file chunk. */
  predicate Seeds(chunks: seq<Chunk>, prefetch: Bytes) {
    chunks != [] && chunks[0].File? && chunks[0].offset == 0 && |prefetch| == chunks[0].len
  }

  function BeginStreaming(f: FState, plan: RP.Plan, handle: FileHandle, chunks: seq<Chunk>, prefetch: Bytes): Outcome {
    if chunks == [] then FinishWithHeaders(f, plan, handle)
    else
      var seeded := Seeds(chunks, prefetch);
      var ready := if seeded then InlineReady(chunks)[0 := prefetch] else InlineReady(chunks);
      var g := f.(phase := StreamingPhase(Streaming(handle, chunks, ready, 0, 0, 0, 0)),
                  past := f.past.(served := Some(Served(plan, handle.content, seeded))));
      Outcome(Send(g, Headers(plan.status, plan.headers, false)), false)
  }

  // ---------------------------------------------------------------- streaming

  function HandleRead(f: FState, seqNo: nat, result: ReadResult): Outcome {
    if !f.phase.StreamingPhase? then Outcome(f, false)
    else
      var s := f.phase.s.(inflight := LessOne(f.phase.s.inflight));
      match result
      case Got(bytes) => Outcome(f.(phase := StreamingPhase(s.(ready := s.ready[seqNo := bytes]))), false)
      case ReadFails(_) =>
        Outcome(Send(f.(phase := Done, past := f.past.(readFailed := true)), Data([], true)), true)
  }

  lemma TakingShrinks(m: map<nat, Bytes>, k: nat)
    requires k in m
    ensures |m - {k}| < |m|
  {
    assert (m - {k}).Keys == m.Keys - {k};
    assert |(m - {k}).Keys| == |m.Keys| - 1;
  }

  /** A hook never changes what is ready. */
  lemma {:induction false} HooksKeepReady(f: FState, hooks: seq<Hook>)
    ensures var g := RunHooks(f, hooks);
            && g.phase.StreamingPhase? == f.phase.StreamingPhase?
            && (f.phase.StreamingPhase? ==> g.phase.s == f.phase.s.(watermarkDepth := g.phase.s.watermarkDepth))
            && (!f.phase.StreamingPhase? ==> g.phase == f.phase)
  {
    if hooks != [] {
      HooksKeepReady(f, hooks[..|hooks| - 1]);
    }
  }

  /** The window once the next chunk is taken out to be sent. */
  function Advanced(s: Streaming): Streaming {
    s.(ready := s.ready - {s.nextSend}, nextSend := s.nextSend + 1)
  }

  /** One pass of the flushing loop: a chunk that is not the last. */
  function SentOne(f: FState): FState
    requires f.phase.StreamingPhase? && f.phase.s.nextSend in f.phase.s.ready
  {
    Send(f.(phase := StreamingPhase(Advanced(f.phase.s))), Data(f.phase.s.ready[f.phase.s.nextSend], false))
  }

  /** The last chunk: the phase changes before the send, which ends the stream. */
  function SentAll(f: FState): FState
    requires f.phase.StreamingPhase? && f.phase.s.nextSend in f.phase.s.ready
  {
    Send(f.(phase := Done), Data(f.phase.s.ready[f.phase.s.nextSend], true))
  }

  lemma SentOneShrinks(f: FState)
    requires f.phase.StreamingPhase? && f.phase.s.nextSend in f.phase.s.ready
    ensures SentOne(f).phase.StreamingPhase? && |SentOne(f).phase.s.ready| < |f.phase.s.ready|
  {
    TakingShrinks(f.phase.s.ready, f.phase.s.nextSend);
    SendKeepsReady(f.(phase := StreamingPhase(Advanced(f.phase.s))), Data(f.phase.s.ready[f.phase.s.nextSend], false));
  }

  /** Where the first loop of `pump` stops: at a gap, to issue reads, or because
      of backpressure or the end of the body, to return. */
  datatype Flushed = AtGap(state: FState) | Stopped(state: FState)

  /** The first loop of `pump`: sends what is contiguously ready. */
  function Flush(f: FState): Flushed
    requires f.phase.StreamingPhase?
    decreases |f.phase.s.ready|
  {
    if f.phase.s.watermarkDepth != 0 then Stopped(f)
    else if f.phase.s.nextSend !in f.phase.s.ready then AtGap(f)
    else if f.phase.s.nextSend == |f.phase.s.chunks| - 1 then Stopped(SentAll(f))
    else
      SentOneShrinks(f);
      Flush(SentOne(f))
  }

  lemma SendKeepsReady(f: FState, out: Sent)
    ensures var g := Send(f, out);
            && g.phase.StreamingPhase? == f.phase.StreamingPhase?
            && (f.phase.StreamingPhase? ==> g.phase.s == f.phase.s.(watermarkDepth := g.phase.s.watermarkDepth))
            && (!f.phase.StreamingPhase? ==> g.phase == f.phase)
  {
    if f.script != [] {
      HooksKeepReady(f.(sent := f.sent + [out], script := f.script[1..]), f.script[0]);
    }
  }

  /** One pass of the flushing loop. */
  lemma FlushPass(f: FState)
    requires f.phase.StreamingPhase?
    ensures var st := f.phase.s;
            if st.watermarkDepth != 0 then Flush(f) == Stopped(f)
            else if st.nextSend !in st.ready then Flush(f) == AtGap(f)
            else if st.nextSend == |st.chunks| - 1 then Flush(f) == Stopped(SentAll(f))
            else
              && SentOne(f).phase.StreamingPhase? && |SentOne(f).phase.s.ready| < |st.ready|
              && Flush(f) == Flush(SentOne(f))
  {
    if f.phase.s.nextSend in f.phase.s.ready {
      SentOneShrinks(f);
    }
    hide SentOne, SentAll;
  }

  /** No callback of Envoy marks a read as failed. */
  lemma StillFailed(f: FState, out: Sent)
    ensures Send(f, out).past.readFailed == f.past.readFailed
  {
    if f.script != [] {
      HooksStillFailed(f.(sent := f.sent + [out], script := f.script[1..]), f.script[0]);
    }
    hide RunHooks;
  }

  lemma {:induction false} HooksStillFailed(f: FState, hooks: seq<Hook>)
    ensures RunHooks(f, hooks).past.readFailed == f.past.readFailed
  {
    if hooks != [] {
      HooksStillFailed(f, hooks[..|hooks| - 1]);
    }
  }

  predicate WantsMore(s: Streaming, maxInflight: nat) {
    s.inflight < maxInflight && s.issueCursor < |s.chunks|
  }

  /** Inline framing, or a chunk that is there already. */
  predicate SkipsNext(s: Streaming)
    requires s.issueCursor < |s.chunks|
  {
    s.issueCursor in s.ready || s.chunks[s.issueCursor].Inline?
  }

  function Skipped(f: FState): FState
    requires f.phase.StreamingPhase?
  {
    f.(phase := StreamingPhase(f.phase.s.(issueCursor := f.phase.s.issueCursor + 1)))
  }

  function NextRead(s: Streaming): Op
    requires s.issueCursor < |s.chunks| && s.chunks[s.issueCursor].File?
  {
    ReadOp(s.issueCursor, s.handle, s.chunks[s.issueCursor].offset, s.chunks[s.issueCursor].len)
  }

  function Issued(f: FState): FState
    requires f.phase.StreamingPhase? && f.phase.s.issueCursor < |f.phase.s.chunks|
             && f.phase.s.chunks[f.phase.s.issueCursor].File?
  {
    var s := f.phase.s;
    Submit(f.(phase := StreamingPhase(s.(issueCursor := s.issueCursor + 1, inflight := s.inflight + 1))), NextRead(s))
  }

  /** The second loop of `pump`: reads for the chunks ahead, up to the window. */
  function Issue(f: FState, maxInflight: nat): FState
    requires f.phase.StreamingPhase?
    decreases |f.phase.s.chunks| - f.phase.s.issueCursor
  {
    if !WantsMore(f.phase.s, maxInflight) then f
    else if SkipsNext(f.phase.s) then Issue(Skipped(f), maxInflight)
    else Issue(Issued(f), maxInflight)
  }

  function Pump(s: Session, f: FState): FState
    requires f.phase.StreamingPhase?
  {
    var flushed := Flush(f);
    if flushed.AtGap? && flushed.state.phase.StreamingPhase?
    then Issue(flushed.state, s.config.maxInflightReads)
    else flushed.state
  }

  // ---------------------------------------------------------------- callbacks

  function HandleEvent(s: Session, f: FState, ev: IoEvent): Outcome {
    match ev
    case Opened(handle, stat, ctx, prefetch) => HandleOpened(s, f, handle, stat, ctx, prefetch)
    case OpenError(error) => HandleOpenError(s, f, error)
    case Read(seqNo, result) => HandleRead(f, seqNo, result)
    case Dir(result) => HandleDir(s, f, result)
  }

  /** The events of one drain, in order; a terminal send abandons the rest. */
  function HandleEvents(s: Session, f: FState, events: seq<IoEvent>): Outcome
    decreases |events|
  {
    if events == [] then Outcome(f, false)
    else
      var o := HandleEvent(s, f, events[0]);
      if o.ended then Outcome(o.state.(past := o.state.past.(dropped := o.state.past.dropped + events[1..])), true)
      else HandleEvents(s, o.state, events[1..])
  }

  /** `on_scheduled`. */
  function OnScheduled(s: Session, f: FState): FState {
    var o := HandleEvents(s, f.(mailbox := Open([])), Pending(f.mailbox));
    if !o.ended && o.state.phase.StreamingPhase? then Pump(s, o.state) else o.state
  }

  datatype Method = Get | Head | OtherMethod

  datatype RawRequest = RawRequest(
    verb: Method,
    path: Bytes,
    conditionals: ConditionalHeaders,
    rangeHeader: Option<string>,
    acceptEncoding: Option<string>)

  function RejectStatus(reason: Paths.RejectReason): nat {
    match reason
    case TooLong => 414
    case BadEncoding => 400
    case BadCharacter => 400
    case Traversal => 404
    case Dotfile => 404
  }

  function Policy(c: Config): Paths.PathPolicy {
    Paths.PathPolicy(c.serveDotfiles, 4096)
  }

  function RequestOf(raw: RawRequest, relative: Bytes, trailingSlash: bool): Request {
    Request(raw.verb.Head?, raw.conditionals, raw.rangeHeader, raw.acceptEncoding, relative, trailingSlash)
  }

  /** The stream once its path is resolved: the first candidate is being opened. */
  function Begin(s: Session, f: FState): FState {
    OpenNextCandidate(s, f.(phase := ResolvingFile(BuildFileCandidates(s)))).state
  }

  /** The request is kept from the first header callback, whatever comes later. */
  function KeptRequest(earlier: Option<Request>, request: Request): Request {
    if earlier.Some? then earlier.value else request
  }

  /** `on_request_headers`.  Envoy calls it once a stream (`earlier` is `None`);
      a second call would look for the new path on behalf of the old request. */
  function OnRequestHeaders(c: Config, earlier: Option<Request>, f: FState, raw: RawRequest): FState {
    if raw.verb.OtherMethod? then Reply(f, Response(405, [("allow", "GET, HEAD")], NoBody)).state
    else
      var path := Mount.UnderMount(c.stripPrefix, raw.path);
      if path.None? then RespondStatus(f, 404).state
      else
        match Paths.Resolve(path.value, Policy(c))
        case Reject(reason) => RespondStatus(f, RejectStatus(reason)).state
        case Ok(relative, trailingSlash) =>
          var request := RequestOf(raw, relative, trailingSlash);
          var candidates := BuildFileCandidates(Session(c, request));
          OpenNextCandidate(Session(c, KeptRequest(earlier, request)), f.(phase := ResolvingFile(candidates))).state
  }
}

/** Whole runs of a stream: the steps its environment may take in any order,
    and the one response each request is expected to get. */
module FilterRuns {
  import opened Text
  import opened EventBridge
  import opened FilterModel
  import RP = ResponsePlan

  // -------------------------------------------------------------------- steps

  /** One step.  The engine finishes any outstanding operation and pushes the
      event (`Finish`); the same thread commits the wake-up later (`Commit`);
      the worker runs a committed wake-up (`Scheduled`), Envoy calling back
      during its sends as `script` says; watermarks rise and fall and the
      stream completes whenever Envoy likes. */
  datatype Label =
    | Finish(k: nat, ev: IoEvent)
    | Commit
    | Scheduled(script: seq<seq<Hook>>)
    | HighMark
    | LowMark
    | StreamComplete

  predicate Enabled(disk: Disk, f: FState, l: Label) {
    match l
    case Finish(k, ev) => k < |f.ops| && Completes(disk, f.ops[k], ev)
    case Commit => f.uncommitted > 0
    case Scheduled(_) => f.wakeups > 0
    case _ => true
  }

  predicate FailedRead(ev: IoEvent) {
    ev.Read? && ev.result.ReadFails?
  }

  /** A completion that brings a failed read. */
  predicate FailsRead(l: Label) {
    l.Finish? && FailedRead(l.ev)
  }

  predicate NoneFails(labels: seq<Label>) {
    forall l :: l in labels ==> !FailsRead(l)
  }

  function RemoveAt<T>(s: seq<T>, k: nat): seq<T>
    requires k < |s|
  {
    s[..k] + s[k + 1..]
  }

  /** `Waker::deliver`, first half: push, unless the bridge is closed. */
  function Push(f: FState, ev: IoEvent): FState {
    if f.mailbox.Closed? then f.(past := f.past.(dropped := f.past.dropped + [ev]))
    else f.(mailbox := Open(f.mailbox.pending + [ev]), uncommitted := f.uncommitted + 1)
  }

  function Apply(s: Session, disk: Disk, f: FState, l: Label): FState
    requires Enabled(disk, f, l)
  {
    match l
    case Finish(k, ev) => Push(f.(ops := RemoveAt(f.ops, k)), ev)
    case Commit => f.(uncommitted := f.uncommitted - 1, wakeups := f.wakeups + 1)
    case Scheduled(script) => OnScheduled(s, f.(wakeups := f.wakeups - 1, script := script)).(script := [])
    case HighMark => OnHigh(f)
    case LowMark => OnLow(f)
    case StreamComplete => OnStreamComplete(f)
  }

  /** The state after a run, when every step of it was possible. */
  function Run(s: Session, disk: Disk, f: FState, labels: seq<Label>): Option<FState> {
    if labels == [] then Some(f)
    else
      var before := Run(s, disk, f, labels[..|labels| - 1]);
      var l := labels[|labels| - 1];
      if before.Some? && Enabled(disk, before.value, l) then Some(Apply(s, disk, before.value, l)) else None
  }

  function Start(s: Session): FState {
    Begin(s, Fresh)
  }

  /** The state after a run. */
  function EndOf(s: Session, disk: Disk, labels: seq<Label>): FState
    requires Run(s, disk, Start(s), labels).Some?
  {
    Run(s, disk, Start(s), labels).value
  }

  lemma RunMore(s: Session, disk: Disk, labels: seq<Label>, l: Label)
    requires Run(s, disk, Start(s), labels).Some? && Enabled(disk, Run(s, disk, Start(s), labels).value, l)
    ensures Run(s, disk, Start(s), labels + [l]) == Some(Apply(s, disk, Run(s, disk, Start(s), labels).value, l))
  {
    assert (labels + [l])[..|labels|] == labels;
    hide Start, Apply, Enabled;
  }

  // ------------------------------------------------- what the request resolves to

  datatype Verdict =
    | Serve(path: Bytes, ctx: OpenCtx)
    | ListDir
    | Redirected
    | Forbidden
    | Missing
    | Failed(error: IoError)
    | Loops

  function CtxOf(c: Candidate): OpenCtx {
    OpenCtx(c.encoding, c.contentType, c.addVary)
  }

  function IndexCtx(contentType: Bytes): OpenCtx {
    OpenCtx(None, contentType, false)
  }

  /** Nothing in the directory opens. */
  function FallbackVerdict(s: Session): Verdict {
    if s.config.directory == ListingMode then ListDir else Missing
  }

  function IndexVerdict(s: Session, disk: Disk, entries: seq<(Bytes, Bytes)>): Verdict {
    if entries == [] then FallbackVerdict(s)
    else
      match disk.open(entries[0].0)
      case Regular(_, _, _) => Serve(entries[0].0, IndexCtx(entries[0].1))
      case Directory(_) => Loops
      case Fails(_) => IndexVerdict(s, disk, entries[1..])
  }

  predicate Redirects(s: Session) {
    !s.request.trailingSlash && s.config.redirectTrailingSlash
  }

  function DirectoryVerdict(s: Session, disk: Disk): Verdict {
    if Redirects(s) then Redirected
    else if s.config.directory == DenyMode then Forbidden
    else IndexVerdict(s, disk, IndexEntries(s))
  }

  function FileVerdict(s: Session, disk: Disk, candidates: seq<Candidate>): Verdict {
    if candidates == [] then Missing
    else
      match disk.open(candidates[0].fsPath)
      case Regular(_, _, _) => Serve(candidates[0].fsPath, CtxOf(candidates[0]))
      case Directory(_) =>
        if candidates[0].encoding.Some? then FileVerdict(s, disk, candidates[1..]) else DirectoryVerdict(s, disk)
      case Fails(error) =>
        if |candidates| == 1 then Failed(error) else FileVerdict(s, disk, candidates[1..])
  }

  function VerdictOf(s: Session, disk: Disk): Verdict {
    FileVerdict(s, disk, BuildFileCandidates(s))
  }

  // --------------------------------------------------- the one expected response

  /** The bytes a chunk stands for. */
  function Intended(c: Chunk, content: Bytes): Bytes {
    match c
    case Inline(bytes) => bytes
    case File(offset, len) => ReadSlice(content, offset, len)
  }

  function DataCalls(chunks: seq<Chunk>, content: Bytes): seq<Sent> {
    seq(|chunks|, i requires 0 <= i < |chunks| => Data(Intended(chunks[i], content), i == |chunks| - 1))
  }

  function PlannedCalls(plan: RP.Plan, chunks: seq<Chunk>, content: Bytes): seq<Sent> {
    [Headers(plan.status, plan.headers, chunks == [])] + DataCalls(chunks, content)
  }

  function StatOf(o: OpenOutcome): FileStat
    requires o.Regular?
  {
    FileStat(|o.content|, o.mtimeUnix, o.mtimeNanos, false)
  }

  function ListingCalls(s: Session, listing: ListOutcome): seq<Sent> {
    match listing
    case Listed(entries) => [ListingReply(s, entries)]
    case ListFails(error) => [Response(StatusForIoError(error), [], NoBody)]
  }

  /** Every call into Envoy a request should lead to, given its verdict. */
  function CallsFor(s: Session, disk: Disk, v: Verdict): seq<Sent> {
    match v
    case Serve(path, ctx) =>
      (match disk.open(path)
       case Regular(content, secs, nanos) =>
         var plan := PlanFor(s, ctx, FileStat(|content|, secs, nanos, false));
         PlannedCalls(plan, BodyChunks(plan.body, s.config.chunkSize), content)
       case _ => [])
    case ListDir => ListingCalls(s, disk.list(DirPath(s)))
    case Redirected => [Redirect(s)]
    case Forbidden => [Response(403, [], NoBody)]
    case Missing => [Response(404, [], NoBody)]
    case Failed(error) => [Response(StatusForIoError(error), [], NoBody)]
    case Loops => []
  }

  function Expected(s: Session, disk: Disk): seq<Sent> {
    CallsFor(s, disk, VerdictOf(s, disk))
  }
}

/** What bounds a run: a budget that every step but Envoy's own callbacks
    spends, and counts of the opens and listings still to come. */
module FilterProgress {
  import opened Text
  import opened EventBridge
  import opened FilterModel
  import opened FilterRuns
  import opened FilterInvariant
  import opened FilterResolve
  import opened FilterStream
  import RP = ResponsePlan

  // ------------------------------------------------------------------- budget

  /** Callbacks that Envoy will still make during sends of this drain. */
  function HooksIn(script: seq<seq<Hook>>): nat {
    if script == [] then 0 else |script[0]| + HooksIn(script[1..])
  }

  /** The directory is being listed: nothing comes after that. */
  predicate AtListing(f: FState) {
    f.past.submitted != [] && f.past.submitted[|f.past.submitted| - 1].ReadDirOp?
  }

  function OpensLeft(s: Session, f: FState): nat {
    if AtListing(f) then 0
    else
      match f.phase
      case ResolvingFile(pending) => |pending| + |s.config.indexFiles|
      case ResolvingIndex(_, entries) => |entries|
      case _ => 0
  }

  function ListsLeft(f: FState): nat {
    if Resolving(f.phase) && !AtListing(f) then 1 else 0
  }

  function ChunksLeft(st: Streaming): nat {
    if st.issueCursor <= |st.chunks| then |st.chunks| - st.issueCursor else 0
  }

  /** A submission, its completion, its commit and its wake-up cost a step each. */
  function Ahead(s: Session, disk: Disk, f: FState): nat {
    match f.phase
    case StreamingPhase(st) => 4 * ChunksLeft(st)
    case ResolvingFile(_) => 4 * |Expected(s, disk)| + 3 * (OpensLeft(s, f) + ListsLeft(f))
    case ResolvingIndex(_, _) => 4 * |Expected(s, disk)| + 3 * (OpensLeft(s, f) + ListsLeft(f))
    case _ => 0
  }

  function Budget(s: Session, disk: Disk, f: FState): nat {
    Ahead(s, disk, f) + 3 * |f.ops| + 2 * f.uncommitted + f.wakeups + HooksIn(f.script)
  }

  function Opens(ops: seq<Op>): nat {
    if ops == [] then 0 else Opens(ops[..|ops| - 1]) + if ops[|ops| - 1].OpenOp? then 1 else 0
  }

  function Listings(ops: seq<Op>): nat {
    if ops == [] then 0 else Listings(ops[..|ops| - 1]) + if ops[|ops| - 1].ReadDirOp? then 1 else 0
  }

  /** The mailbox has been emptied, and a closed one means the stream is over. */
  predicate Drained(f: FState) {
    && Pending(f.mailbox) == []
    && (f.mailbox.Closed? ==> f.past.completed)
    && (f.past.dropped != [] ==> f.past.completed || f.phase.Done?)
  }

  /** A path the request may have opened or listed. */
  predicate KnownOp(s: Session, op: Op) {
    match op
    case OpenOp(path, _, prefetchLen) =>
      && prefetchLen == (if s.request.methodHead || s.request.rangeHeader.Some? then 0 else s.config.chunkSize)
      && ((exists i :: 0 <= i < |BuildFileCandidates(s)| && BuildFileCandidates(s)[i].fsPath == path)
          || (exists i :: 0 <= i < |IndexEntries(s)| && IndexEntries(s)[i].0 == path))
    case ReadDirOp(path) => path == DirPath(s)
    case _ => true
  }

  predicate KnownPhase(s: Session, p: Phase) {
    match p
    case ResolvingFile(pending) => forall c :: c in pending ==> c in BuildFileCandidates(s)
    case ResolvingIndex(dirFs, entries) => dirFs == DirPath(s) && forall e :: e in entries ==> e in IndexEntries(s)
    case _ => true
  }

  /** The stream only deals in paths it derives from the request. */
  predicate Known(s: Session, f: FState) {
    KnownPhase(s, f.phase) && forall i :: 0 <= i < |f.past.submitted| ==> KnownOp(s, f.past.submitted[i])
  }

  predicate Ends(s: Session, disk: Disk) {
    VerdictOf(s, disk) != Loops
  }

  /** What every piece of a callback does to the budget, the counts and the
      mailbox. */
  predicate Moves(s: Session, disk: Disk, f: FState, g: FState) {
    && (Ends(s, disk) ==>
          && Budget(s, disk, g) <= Budget(s, disk, f)
          && Opens(g.past.submitted) + OpensLeft(s, g) <= Opens(f.past.submitted) + OpensLeft(s, f)
          && Listings(g.past.submitted) + ListsLeft(g) <= Listings(f.past.submitted) + ListsLeft(f))
    && (Drained(f) ==> Drained(g))
    && (Known(s, f) ==> Known(s, g))
    && (f.script == [] ==> g.script == [] && g.past.completed == f.past.completed)
  }

  lemma MovesStay(s: Session, disk: Disk, f: FState)
    ensures Moves(s, disk, f, f)
  {
    hide Budget, Ends, Known, Opens, Listings, Drained, OpensLeft, ListsLeft;
  }

  lemma MovesOn(s: Session, disk: Disk, f: FState, g: FState, h: FState)
    requires Moves(s, disk, f, g) && Moves(s, disk, g, h)
    ensures Moves(s, disk, f, h)
  {
    hide Budget, Ends, Known, Opens, Listings, Drained, OpensLeft, ListsLeft;
  }

  // -------------------------------------------------------------------- sends

  /** What a hook can change. */
  predicate OnlyHooked(f: FState, g: FState, hooks: nat) {
    && (g.phase == f.phase || (f.phase.StreamingPhase? && g.phase.StreamingPhase?
                               && g.phase.s == f.phase.s.(watermarkDepth := g.phase.s.watermarkDepth)))
    && g.ops == f.ops && g.uncommitted == f.uncommitted && g.script == f.script
    && g.past.submitted == f.past.submitted
    && g.wakeups <= f.wakeups + hooks
    && (Drained(f) ==> Drained(g))
  }

  lemma {:induction false} HooksOnlyHook(f: FState, hooks: seq<Hook>)
    ensures OnlyHooked(f, RunHooks(f, hooks), |hooks|)
  {
    if hooks != [] {
      HooksOnlyHook(f, hooks[..|hooks| - 1]);
    }
  }

  lemma HookedBudget(s: Session, disk: Disk, f: FState, g: FState, hooks: nat)
    requires OnlyHooked(f, g, hooks)
    ensures Budget(s, disk, g) <= Budget(s, disk, f) + hooks
    ensures OpensLeft(s, g) == OpensLeft(s, f) && ListsLeft(g) == ListsLeft(f)
  {
    hide Expected, HooksIn;
  }

  lemma SendMoves(s: Session, disk: Disk, f: FState, out: Sent)
    ensures Moves(s, disk, f, Send(f, out))
  {
    hide Expected, Ends, KnownOp, RunHooks, Opens, Listings;
    var g := f.(sent := f.sent + [out]);
    SameBudget(s, disk, f, g);
    if g.script != [] {
      var h := g.(script := g.script[1..]);
      TakeScript(s, disk, g, h);
      HooksOnlyHook(h, g.script[0]);
      HookedBudget(s, disk, h, RunHooks(h, g.script[0]), |g.script[0]|);
    }
    hide Budget, OpensLeft, ListsLeft;
  }

  lemma TakeScript(s: Session, disk: Disk, g: FState, h: FState)
    requires g.script != [] && h == g.(script := g.script[1..])
    ensures Budget(s, disk, h) + |g.script[0]| == Budget(s, disk, g)
    ensures OpensLeft(s, h) == OpensLeft(s, g) && ListsLeft(h) == ListsLeft(g) && (Drained(g) ==> Drained(h))
  {
    hide Expected;
  }

  lemma SameBudget(s: Session, disk: Disk, f: FState, g: FState)
    requires g == f.(sent := g.sent)
    ensures Budget(s, disk, g) == Budget(s, disk, f)
    ensures OpensLeft(s, g) == OpensLeft(s, f) && ListsLeft(g) == ListsLeft(f) && (Drained(f) ==> Drained(g))
  {
    hide Expected, HooksIn;
  }

  lemma FinishMoves(s: Session, disk: Disk, f: FState, g: FState)
    requires g == f.(phase := Done, past := f.past.(served := g.past.served, readFailed := g.past.readFailed))
    ensures Moves(s, disk, f, g)
  {
    hide Expected, Ends, KnownOp, HooksIn, Opens, Listings;
  }

  lemma ReplyMoves(s: Session, disk: Disk, f: FState, out: Sent)
    ensures Moves(s, disk, f, Reply(f, out).state)
  {
    var g := f.(phase := Done);
    FinishMoves(s, disk, f, g);
    SendMoves(s, disk, g, out);
    MovesOn(s, disk, f, g, Send(g, out));
    hide Moves, Send;
  }

  // ---------------------------------------------------------------- resolving

  lemma CountOne(ops: seq<Op>, op: Op)
    ensures Opens(ops + [op]) == Opens(ops) + if op.OpenOp? then 1 else 0
    ensures Listings(ops + [op]) == Listings(ops) + if op.ReadDirOp? then 1 else 0
  {
    assert (ops + [op])[..|ops|] == ops;
  }

  lemma OpenMoves(s: Session, disk: Disk, f: FState, p: Phase, path: Bytes, ctx: OpenCtx)
    requires Resolving(f.phase) && Resolving(p) && !AtListing(f)
    requires Ends(s, disk) ==> OpensLeft(s, f.(phase := p)) + 1 <= OpensLeft(s, f)
    requires Known(s, f) ==> KnownPhase(s, p) && KnownOp(s, OpenOp(path, ctx, PrefetchLen(s)))
    ensures Moves(s, disk, f, SubmitOpen(s, f.(phase := p), path, ctx))
  {
    hide BuildFileCandidates, IndexEntries;
    hide Expected, Ends, KnownOp, HooksIn, Opens, Listings;
    var op := OpenOp(path, ctx, PrefetchLen(s));
    CountOne(f.past.submitted, op);
    assert SubmitOpen(s, f.(phase := p), path, ctx) == Submit(f.(phase := p), op);
  }

  lemma ListMoves(s: Session, disk: Disk, f: FState, dir: Bytes)
    requires Resolving(f.phase) && !AtListing(f)
    requires Known(s, f) ==> dir == DirPath(s)
    ensures Moves(s, disk, f, Submit(f, ReadDirOp(dir)))
  {
    hide BuildFileCandidates, IndexEntries;
    hide Expected, Ends, HooksIn, Opens, Listings;
    CountOne(f.past.submitted, ReadDirOp(dir));
  }

  lemma KnownCandidate(s: Session, pending: seq<Candidate>)
    requires pending != [] && forall c :: c in pending ==> c in BuildFileCandidates(s)
    ensures KnownPhase(s, ResolvingFile(pending[1..]))
            && KnownOp(s, OpenOp(pending[0].fsPath, CtxOf(pending[0]), PrefetchLen(s)))
  {
    hide BuildFileCandidates, IndexEntries;
    assert pending[0] in pending;
    var i :| 0 <= i < |BuildFileCandidates(s)| && BuildFileCandidates(s)[i] == pending[0];
  }

  lemma KnownEntry(s: Session, entries: seq<(Bytes, Bytes)>)
    requires entries != [] && forall e :: e in entries ==> e in IndexEntries(s)
    ensures KnownPhase(s, ResolvingIndex(DirPath(s), entries[1..]))
    ensures KnownOp(s, OpenOp(entries[0].0, IndexCtx(entries[0].1), PrefetchLen(s)))
  {
    hide BuildFileCandidates, IndexEntries;
    assert entries[0] in entries;
    var i :| 0 <= i < |IndexEntries(s)| && IndexEntries(s)[i] == entries[0];
  }

  lemma OpenNextCandidateMoves(s: Session, disk: Disk, f: FState)
    requires Resolving(f.phase) && !AtListing(f)
    ensures Moves(s, disk, f, OpenNextCandidate(s, f).state)
  {
    hide Moves, Reply;
    if f.phase.ResolvingFile? && f.phase.pending == [] {
      ReplyMoves(s, disk, f, Response(404, [], NoBody));
    } else if f.phase.ResolvingFile? {
      var c := f.phase.pending[0];
      if Known(s, f) {
        KnownCandidate(s, f.phase.pending);
      }
      OpenMoves(s, disk, f, ResolvingFile(f.phase.pending[1..]), c.fsPath, CtxOf(c));
    } else {
      MovesStay(s, disk, f);
    }
    hide SubmitOpen, OpensLeft;
  }

  lemma DirectoryFallbackMoves(s: Session, disk: Disk, f: FState, dir: Bytes)
    requires Resolving(f.phase) && !AtListing(f)
    requires Known(s, f) ==> dir == DirPath(s)
    ensures Moves(s, disk, f, DirectoryFallback(s, f, dir).state)
  {
    hide Moves, Reply;
    if s.config.directory == ListingMode {
      ListMoves(s, disk, f, dir);
    } else {
      ReplyMoves(s, disk, f, Response(404, [], NoBody));
    }
  }

  lemma OpenNextIndexMoves(s: Session, disk: Disk, f: FState)
    requires Resolving(f.phase) && !AtListing(f)
    ensures Moves(s, disk, f, OpenNextIndex(s, f).state)
  {
    hide Moves, DirectoryFallback;
    if f.phase.ResolvingIndex? && f.phase.entries == [] {
      DirectoryFallbackMoves(s, disk, f, f.phase.dirFs);
    } else if f.phase.ResolvingIndex? {
      var e := f.phase.entries[0];
      if Known(s, f) {
        KnownEntry(s, f.phase.entries);
      }
      OpenMoves(s, disk, f, ResolvingIndex(f.phase.dirFs, f.phase.entries[1..]), e.0, IndexCtx(e.1));
    } else {
      MovesStay(s, disk, f);
    }
    hide SubmitOpen, OpensLeft;
  }

  /** Building the index list anew is only affordable from the file candidates. */
  lemma HandleDirectoryMoves(s: Session, disk: Disk, f: FState)
    requires Resolving(f.phase) && !AtListing(f)
    requires Ends(s, disk) ==> f.phase.ResolvingFile?
    ensures Moves(s, disk, f, HandleDirectory(s, f).state)
  {
    hide Moves, Ends, DirectoryFallback, Reply, Redirect;
    if Redirects(s) {
      ReplyMoves(s, disk, f, Redirect(s));
    } else if s.config.directory == DenyMode {
      ReplyMoves(s, disk, f, Response(403, [], NoBody));
    } else if IndexEntries(s) == [] {
      DirectoryFallbackMoves(s, disk, f, DirPath(s));
    } else {
      var e := IndexEntries(s)[0];
      KnownEntry(s, IndexEntries(s));
      OpenMoves(s, disk, f, ResolvingIndex(DirPath(s), IndexEntries(s)[1..]), e.0, IndexCtx(e.1));
      hide SubmitOpen;
    }
  }

  lemma ServeMoves(s: Session, disk: Disk, f: FState, handle: FileHandle, stat: FileStat, ctx: OpenCtx, prefetch: Bytes)
    requires Resolving(f.phase)
    requires |BodyChunks(PlanFor(s, ctx, stat).body, s.config.chunkSize)| <= |Expected(s, disk)|
    ensures Moves(s, disk, f, ServeFile(s, f, handle, stat, ctx, prefetch).state)
  {
    hide PlanFor, BodyChunks, Expected, Moves, Send;
    var plan := PlanFor(s, ctx, stat);
    var chunks := BodyChunks(plan.body, s.config.chunkSize);
    if plan.body.Empty? || chunks == [] {
      var g := f.(phase := Done, past := f.past.(served := Some(Served(plan, handle.content, false))));
      FinishMoves(s, disk, f, g);
      SendMoves(s, disk, g, Headers(plan.status, plan.headers, true));
      MovesOn(s, disk, f, g, Send(g, Headers(plan.status, plan.headers, true)));
    } else {
      var kept := if plan.body.Whole? then prefetch else [];
      BeginStreamingMoves(s, disk, f, plan, handle, chunks, kept);
      hide BeginStreaming;
    }
  }

  lemma BeginStreamingMoves(s: Session, disk: Disk, f: FState, plan: RP.Plan, handle: FileHandle, chunks: seq<Chunk>,
                            prefetch: Bytes)
    requires Resolving(f.phase) && chunks != [] && |chunks| <= |Expected(s, disk)|
    ensures Moves(s, disk, f, BeginStreaming(f, plan, handle, chunks, prefetch).state)
  {
    hide Expected, InlineReady, Seeds, Moves, Send;
    var seeded := Seeds(chunks, prefetch);
    var ready := if seeded then InlineReady(chunks)[0 := prefetch] else InlineReady(chunks);
    var st := Streaming(handle, chunks, ready, 0, 0, 0, 0);
    var g := f.(phase := StreamingPhase(st), past := f.past.(served := Some(Served(plan, handle.content, seeded))));
    StreamMoves(s, disk, f, g);
    SendMoves(s, disk, g, Headers(plan.status, plan.headers, false));
    MovesOn(s, disk, f, g, Send(g, Headers(plan.status, plan.headers, false)));
  }

  lemma StreamMoves(s: Session, disk: Disk, f: FState, g: FState)
    requires Resolving(f.phase) && g.phase.StreamingPhase? && g.phase.s.issueCursor == 0
    requires g == f.(phase := g.phase, past := f.past.(served := g.past.served))
    requires |g.phase.s.chunks| <= |Expected(s, disk)|
    ensures Moves(s, disk, f, g)
  {
    hide Expected, Ends, KnownOp, HooksIn, Opens, Listings;
  }

  // ---------------------------------------------------------------- streaming

  lemma ReadMoves(s: Session, disk: Disk, f: FState, seqNo: nat, result: ReadResult)
    ensures Moves(s, disk, f, HandleRead(f, seqNo, result).state)
  {
    hide Expected, Ends, KnownOp, HooksIn, Opens, Listings, Send;
    if f.phase.StreamingPhase? && result.ReadFails? {
      var g := f.(phase := Done, past := f.past.(readFailed := true));
      FinishMoves(s, disk, f, g);
      SendMoves(s, disk, g, Data([], true));
      MovesOn(s, disk, f, g, Send(g, Data([], true)));
      hide Moves;
    }
  }

  lemma AdvanceMoves(s: Session, disk: Disk, f: FState)
    requires f.phase.StreamingPhase? && f.phase.s.nextSend in f.phase.s.ready
    ensures Moves(s, disk, f, SentOne(f)) && Moves(s, disk, f, SentAll(f))
  {
    hide Expected, Ends, KnownOp, HooksIn, Opens, Listings, Send;
    var g, h := f.(phase := StreamingPhase(Advanced(f.phase.s))), f.(phase := Done);
    var bytes := f.phase.s.ready[f.phase.s.nextSend];
    assert Moves(s, disk, f, g);
    FinishMoves(s, disk, f, h);
    SendMoves(s, disk, g, Data(bytes, false));
    SendMoves(s, disk, h, Data(bytes, true));
    MovesOn(s, disk, f, g, Send(g, Data(bytes, false)));
    MovesOn(s, disk, f, h, Send(h, Data(bytes, true)));
    hide Moves;
  }

  lemma {:induction false} FlushMoves(s: Session, disk: Disk, f: FState)
    requires f.phase.StreamingPhase?
    ensures Moves(s, disk, f, Flush(f).state)
    decreases |f.phase.s.ready|
  {
    hide Moves, SentOne, SentAll;
    var st := f.phase.s;
    if st.watermarkDepth != 0 || st.nextSend !in st.ready {
      MovesStay(s, disk, f);
    } else {
      AdvanceMoves(s, disk, f);
      if st.nextSend != |st.chunks| - 1 {
        SentOneShrinks(f);
        FlushMoves(s, disk, SentOne(f));
        MovesOn(s, disk, f, SentOne(f), Flush(f).state);
      }
    }
  }

  lemma SkippedMoves(s: Session, disk: Disk, f: FState)
    requires f.phase.StreamingPhase? && f.phase.s.issueCursor < |f.phase.s.chunks|
    ensures Moves(s, disk, f, Skipped(f))
    ensures f.phase.s.chunks[f.phase.s.issueCursor].File? ==> Moves(s, disk, f, Issued(f))
  {
    hide Expected, Ends, BuildFileCandidates, IndexEntries, HooksIn, Opens, Listings;
    if f.phase.s.chunks[f.phase.s.issueCursor].File? {
      CountOne(f.past.submitted, NextRead(f.phase.s));
    }
  }

  lemma {:induction false} IssueMoves(s: Session, disk: Disk, f: FState, max: nat)
    requires f.phase.StreamingPhase?
    ensures Moves(s, disk, f, Issue(f, max))
    decreases |f.phase.s.chunks| - f.phase.s.issueCursor
  {
    hide Moves;
    if WantsMore(f.phase.s, max) {
      SkippedMoves(s, disk, f);
      var g := if SkipsNext(f.phase.s) then Skipped(f) else Issued(f);
      IssueMoves(s, disk, g, max);
      MovesOn(s, disk, f, g, Issue(g, max));
    } else {
      MovesStay(s, disk, f);
    }
  }

  lemma PumpMoves(s: Session, disk: Disk, f: FState)
    requires f.phase.StreamingPhase?
    ensures Moves(s, disk, f, Pump(s, f))
  {
    hide Moves, Flush, Issue;
    FlushMoves(s, disk, f);
    var g := Flush(f).state;
    if g.phase.StreamingPhase? {
      IssueMoves(s, disk, g, s.config.maxInflightReads);
      MovesOn(s, disk, f, g, Issue(g, s.config.maxInflightReads));
    }
  }

  // ------------------------------------------------------------------- events

  lemma HandleOpenErrorMoves(s: Session, disk: Disk, f: FState, error: IoError)
    requires Resolving(f.phase) && !AtListing(f)
    ensures Moves(s, disk, f, HandleOpenError(s, f, error).state)
  {
    hide Moves, Reply, OpenNextCandidate, OpenNextIndex;
    match f.phase {
      case ResolvingFile(pending) =>
        OpenNextCandidateMoves(s, disk, f);
        ReplyMoves(s, disk, f, Response(StatusForIoError(error), [], NoBody));
      case ResolvingIndex(_, _) => OpenNextIndexMoves(s, disk, f);
    }
  }

  lemma HandleOpenedDirMoves(s: Session, disk: Disk, f: FState, handle: FileHandle, stat: FileStat, ctx: OpenCtx,
                             prefetch: Bytes)
    requires Resolving(f.phase) && !AtListing(f) && stat.isDir
    requires Ends(s, disk) ==> f.phase.ResolvingFile?
    ensures Moves(s, disk, f, HandleOpened(s, f, handle, stat, ctx, prefetch).state)
  {
    hide Moves, Ends, OpenNextCandidate, OpenNextIndex, HandleDirectory;
    if ctx.encoding.Some? {
      OpenNextCandidateMoves(s, disk, f);
      OpenNextIndexMoves(s, disk, f);
    } else {
      HandleDirectoryMoves(s, disk, f);
    }
  }

  /** A directory in the index list is what makes a request loop. */
  lemma IndexDirectoryLoops(s: Session, disk: Disk, f: FState, op: Op)
    requires Opening(s, disk, f, op) && f.phase.ResolvingIndex? && disk.open(op.path).Directory?
    ensures !Ends(s, disk)
  {
    hide VerdictOf, DirectoryVerdict;
  }

  /** One chunk for each call after the headers. */
  lemma ChunksExpected(s: Session, disk: Disk, path: Bytes, ctx: OpenCtx)
    requires VerdictOf(s, disk) == Serve(path, ctx) && disk.open(path).Regular?
    ensures |BodyChunks(PlanFor(s, ctx, StatOf(disk.open(path))).body, s.config.chunkSize)| <= |Expected(s, disk)|
  {
    hide VerdictOf, BodyChunks, PlanFor;
  }

  lemma HandleControlMoves(s: Session, disk: Disk, f: FState, ev: IoEvent, rest: seq<IoEvent>)
    requires ResolvingInv(s, disk, f, [ev] + rest) && NeverInert(f.past.submitted)
    ensures Moves(s, disk, f, HandleEvent(s, f, ev).state)
  {
    hide Moves, Ends, VerdictOf, Reply, HandleOpened, HandleOpenError, Waiting, Expected, BodyChunks, PlanFor;
    TakeControl(s, disk, f, ev, rest);
    var op := f.past.submitted[|f.past.submitted| - 1];
    match op {
      case ReadDirOp(path) =>
        ReplyDirMoves(s, disk, f, ev.listing);
      case OpenOp(path, ctx, prefetchLen) =>
        HandleOpenMoves(s, disk, f, op, ev);
    }
  }

  lemma ReplyDirMoves(s: Session, disk: Disk, f: FState, listing: ListOutcome)
    ensures Moves(s, disk, f, HandleDir(s, f, listing).state)
  {
    hide Moves, Reply, ListingReply;
    match listing {
      case ListFails(error) => ReplyMoves(s, disk, f, Response(StatusForIoError(error), [], NoBody));
      case Listed(entries) => ReplyMoves(s, disk, f, ListingReply(s, entries));
    }
  }

  lemma HandleOpenMoves(s: Session, disk: Disk, f: FState, op: Op, ev: IoEvent)
    requires Resolving(f.phase) && !AtListing(f) && op.OpenOp? && Opening(s, disk, f, op) && Completes(disk, op, ev)
    ensures Moves(s, disk, f, HandleEvent(s, f, ev).state)
  {
    hide Moves, Ends, VerdictOf, HandleOpened, HandleOpenError, Expected, BodyChunks, PlanFor, LeadsOn, Opening;
    match disk.open(op.path) {
      case Fails(error) => HandleOpenErrorMoves(s, disk, f, error);
      case Directory(stat) =>
        if f.phase.ResolvingIndex? {
          IndexDirectoryLoops(s, disk, f, op);
        }
        HandleOpenedDirMoves(s, disk, f, ev.handle, ev.stat, ev.ctx, ev.prefetch);
      case Regular(content, secs, nanos) =>
        RegularVerdict(s, disk, f, op);
        ChunksExpected(s, disk, op.path, op.ctx);
        ServeMoves(s, disk, f, ev.handle, ev.stat, ev.ctx, ev.prefetch);
        assert HandleEvent(s, f, ev) == ServeFile(s, f, ev.handle, ev.stat, ev.ctx, ev.prefetch)
          by { ServesRegular(s, f, ev); }
        hide ServeFile;
    }
  }

  lemma ServesRegular(s: Session, f: FState, ev: IoEvent)
    requires ev.Opened? && !ev.stat.isDir
    ensures HandleEvent(s, f, ev) == ServeFile(s, f, ev.handle, ev.stat, ev.ctx, ev.prefetch)
  {
    hide ServeFile, HandleDirectory, AdvanceAfterOpenMiss;
  }

  lemma HandleEventMoves(s: Session, disk: Disk, f: FState, ev: IoEvent, rest: seq<IoEvent>)
    requires Inv(s, disk, f, [ev] + rest)
    ensures Moves(s, disk, f, HandleEvent(s, f, ev).state)
  {
    hide ResolvingInv, StreamInv, DoneInv, Moves, HandleOpened, HandleOpenError, HandleDir, HandleRead;
    if ResolvingInv(s, disk, f, [ev] + rest) {
      HandleControlMoves(s, disk, f, ev, rest);
    } else {
      if StreamInv(s, disk, f, [ev] + rest) {
        StreamsReads(s, disk, f, ev, rest);
      } else {
        DoneIgnores(s, disk, f, ev, rest);
      }
      ReadMoves(s, disk, f, ev.seqNo, ev.result);
    }
  }

  lemma AbandonMoves(s: Session, disk: Disk, f: FState, rest: seq<IoEvent>)
    requires f.phase.Done?
    ensures Moves(s, disk, f, f.(past := f.past.(dropped := f.past.dropped + rest)))
  {
    hide Expected, Ends, KnownOp, HooksIn, Opens, Listings;
  }

  lemma {:induction false} HandleEventsMoves(s: Session, disk: Disk, f: FState, events: seq<IoEvent>)
    requires Inv(s, disk, f, events)
    ensures Moves(s, disk, f, HandleEvents(s, f, events).state)
    decreases |events|
  {
    hide Inv, Moves, HandleEvent;
    if events == [] {
      MovesStay(s, disk, f);
    } else {
      var rest := events[1..];
      assert events == [events[0]] + rest;
      HandleEventMoves(s, disk, f, events[0], rest);
      HandleEventInv(s, disk, f, events[0], rest);
      var o := HandleEvent(s, f, events[0]);
      if o.ended {
        AbandonMoves(s, disk, o.state, rest);
      } else {
        HandleEventsMoves(s, disk, o.state, rest);
      }
      MovesOn(s, disk, f, o.state, HandleEvents(s, f, events).state);
    }
  }
}

/** The filter as the object it is: its callbacks update fields and call into
    Envoy and the engine.  Every method is shown to do what the function of the
    same name in `FilterModel` says, so what is proved of runs holds of it. */
module FilterClass {
  import opened Text
  import opened EventBridge
  import opened M = FilterModel
  import FilterRuns
  import RequestRuns
  import Encodings
  import RP = ResponsePlan
  import Mount
  import Paths

  /** `file_chunks`: cuts an interval of the file into chunks. */
  method CutChunks(start: nat, len: nat, chunkSize: Positive) returns (chunks: seq<Chunk>)
    ensures chunks == FileChunks(start, len, chunkSize)
  {
    hide FileChunks;
    chunks := [];
    var offset, end := start, start + len;
    while offset < end
      invariant start <= offset <= end
      invariant chunks + FileChunks(offset, end - offset, chunkSize) == FileChunks(start, len, chunkSize)
    {
      var here := Min(end - offset, chunkSize);
      CutOne(chunks, offset, end - offset, chunkSize);
      chunks := chunks + [File(offset, here)];
      offset := offset + here;
    }
    CutNone(end, chunkSize);
    assert chunks + [] == chunks;
  }

  lemma CutOne(before: seq<Chunk>, offset: nat, len: nat, chunkSize: Positive)
    requires len > 0
    ensures var here := Min(len, chunkSize);
            before + FileChunks(offset, len, chunkSize)
            == (before + [File(offset, here)]) + FileChunks(offset + here, len - here, chunkSize)
  {
    var here := Min(len, chunkSize);
    assert FileChunks(offset, len, chunkSize)
      == [File(offset, here)] + FileChunks(offset + here, len - here, chunkSize);
    hide FileChunks;
  }

  lemma CutNone(offset: nat, chunkSize: Positive)
    ensures FileChunks(offset, 0, chunkSize) == []
  {
  }

  /** The chunks of a planned body (`execute_plan`). */
  method PlanChunks(body: RP.BodyPlan, chunkSize: Positive) returns (chunks: seq<Chunk>)
    ensures chunks == BodyChunks(body, chunkSize)
  {
    hide FileChunks;
    chunks := [];
    match body {
      case Empty =>
      case Whole(len) => chunks := CutChunks(0, len, chunkSize);
      case Segments(ranges) =>
        for i := 0 to |ranges|
          invariant chunks == SegmentChunks(ranges[..i], chunkSize)
        {
          assert ranges[..i + 1][..i] == ranges[..i];
          var more := CutChunks(ranges[i].start, Length(ranges[i]), chunkSize);
          chunks := chunks + more;
        }
        assert ranges[..|ranges|] == ranges;
      case Multi(parts, terminator, _) =>
        for i := 0 to |parts|
          invariant chunks == PartChunks(parts[..i], chunkSize)
        {
          assert parts[..i + 1][..i] == parts[..i];
          var more := CutChunks(parts[i].range.start, Length(parts[i].range), chunkSize);
          chunks := chunks + [Inline(parts[i].header)] + more;
        }
        assert parts[..|parts|] == parts;
        chunks := chunks + [Inline(terminator)];
    }
  }

  /** The chunks that need no read (`begin_streaming`). */
  method InlineChunks(chunks: seq<Chunk>) returns (ready: map<nat, Bytes>)
    ensures ready == InlineReady(chunks)
  {
    ready := map[];
    for i := 0 to |chunks|
      invariant ready == InlineReady(chunks[..i])
    {
      if chunks[i].Inline? {
        ready := ready[i := chunks[i].bytes];
      }
    }
    assert chunks[..|chunks|] == chunks;
  }

  class Filter {
    const config: Config
    const bridge: EventBridge<IoEvent>
    var request: Option<Request>
    var phase: Phase
    /** The calls into Envoy and the operations the engine still has to do. */
    var sent: seq<Sent>
    var ops: seq<Op>
    /** Wake-ups the engine's threads owe, and those committed. */
    var uncommitted: nat
    var wakeups: nat
    /** What Envoy will call back during the sends to come. */
    var script: seq<seq<Hook>>
    ghost var past: History

    ghost function State(): FState
      reads this, bridge
    {
      FState(phase, sent, ops, bridge.State(), uncommitted, wakeups, script, past)
    }

    function Current(): Session
      requires request.Some?
      reads this
    {
      Session(config, request.value)
    }

    constructor (config: Config)
      ensures this.config == config && fresh(bridge) && request.None?
      ensures State() == Fresh
    {
      this.config := config;
      bridge := new EventBridge();
      request, phase, sent, ops := None, Idle, [], [];
      uncommitted, wakeups, script := 0, 0, [];
      past := History([], [], false, None, false);
    }

    // ------------------------------------------------------- Envoy's callbacks

    method OnHighWatermark()
      modifies this
      ensures State() == OnHigh(old(State())) && request == old(request)
    {
      if phase.StreamingPhase? {
        phase := StreamingPhase(phase.s.(watermarkDepth := phase.s.watermarkDepth + 1));
      }
    }

    method OnLowWatermark()
      modifies this
      ensures State() == OnLow(old(State())) && request == old(request)
    {
      var resumed := false;
      if phase.StreamingPhase? {
        phase := StreamingPhase(phase.s.(watermarkDepth := LessOne(phase.s.watermarkDepth)));
        resumed := phase.s.watermarkDepth == 0;
      }
      if resumed {
        wakeups := wakeups + 1;
      }
    }

    method OnComplete()
      modifies this, bridge
      ensures State() == OnStreamComplete(old(State())) && request == old(request)
    {
      past := past.(completed := true, dropped := past.dropped + Pending(bridge.State()));
      bridge.Close();
    }

    /** A call into Envoy; before it returns Envoy may call the hooks. */
    method Call(out: Sent)
      modifies this, bridge
      ensures State() == Send(old(State()), out) && request == old(request)
    {
      sent := sent + [out];
      if script != [] {
        var hooks := script[0];
        script := script[1..];
        ghost var start := State();
        for i := 0 to |hooks|
          invariant State() == RunHooks(start, hooks[..i]) && request == old(request)
        {
          assert hooks[..i + 1][..i] == hooks[..i];
          match hooks[i] {
            case High => OnHighWatermark();
            case Low => OnLowWatermark();
            case Complete => OnComplete();
          }
        }
        assert hooks[..|hooks|] == hooks;
      }
    }

    /** `Waker::deliver` on an engine thread: push, and owe a wake-up if the
        bridge took the event. */
    method Deliver(event: IoEvent)
      modifies this, bridge
      ensures State() == FilterRuns.Push(old(State()), event) && request == old(request)
    {
      var ok := bridge.Send(event);
      if ok {
        uncommitted := uncommitted + 1;
      } else {
        past := past.(dropped := past.dropped + [event]);
      }
    }

    method SubmitOp(op: Op)
      modifies this
      ensures State() == Submit(old(State()), op) && request == old(request)
    {
      ops := ops + [op];
      past := past.(submitted := past.submitted + [op]);
    }

    method Answer(out: Sent) returns (ended: bool)
      modifies this, bridge
      ensures Outcome(State(), ended) == Reply(old(State()), out) && request == old(request)
    {
      hide Send;
      phase := Done;
      Call(out);
      ended := true;
    }

    method Status(status: nat) returns (ended: bool)
      modifies this, bridge
      ensures Outcome(State(), ended) == RespondStatus(old(State()), status) && request == old(request)
    {
      hide Reply;
      ended := Answer(Response(status, [], NoBody));
    }

    // ---------------------------------------------------------------- resolving

    method BuildCandidates(r: Request) returns (pending: seq<Candidate>)
      ensures pending == BuildFileCandidates(Session(config, r))
    {
      var contentType := config.contentTypeFor(r.relative);
      pending := [];
      if !r.trailingSlash && r.acceptEncoding.Some? {
        var accepted := Encodings.NegotiatePrecompressed(r.acceptEncoding, config.parseQ, config.precompressed);
        hide Encodings.Negotiate, Encodings.HeaderEntries;
        for i := 0 to |accepted|
          invariant pending == EncodedCandidates(Session(config, r), accepted)[..i]
        {
          pending := pending + [Candidate(PathJoin(config.root, r.relative + accepted[i].fileSuffix),
            Some(accepted[i].contentEncoding), contentType, true)];
        }
      }
      pending := pending + [Candidate(PathJoin(config.root, r.relative), None, contentType, pending != [])];
    }

    method SubmitOpening(path: Bytes, ctx: OpenCtx)
      requires request.Some?
      modifies this
      ensures request == old(request)
      ensures State() == SubmitOpen(Current(), old(State()), path, ctx)
    {
      var prefetchLen := if !request.value.methodHead && request.value.rangeHeader.None? then config.chunkSize else 0;
      SubmitOp(OpenOp(path, ctx, prefetchLen));
    }

    method NextCandidate() returns (ended: bool)
      requires request.Some?
      modifies this, bridge
      ensures request == old(request)
      ensures Outcome(State(), ended) == OpenNextCandidate(Current(), old(State()))
    {
      hide RespondStatus, SubmitOpen;
      if !phase.ResolvingFile? {
        return false;
      }
      if phase.pending == [] {
        ended := Status(404);
        return;
      }
      var candidate := phase.pending[0];
      phase := ResolvingFile(phase.pending[1..]);
      SubmitOpening(candidate.fsPath, OpenCtx(candidate.encoding, candidate.contentType, candidate.addVary));
      ended := false;
    }

    method Fallback(dirFs: Bytes) returns (ended: bool)
      requires request.Some?
      modifies this, bridge
      ensures request == old(request)
      ensures Outcome(State(), ended) == DirectoryFallback(Current(), old(State()), dirFs)
    {
      hide RespondStatus, Submit;
      if config.directory == ListingMode {
        SubmitOp(ReadDirOp(dirFs));
        ended := false;
      } else {
        ended := Status(404);
      }
    }

    method NextIndex() returns (ended: bool)
      requires request.Some?
      modifies this, bridge
      ensures request == old(request)
      ensures Outcome(State(), ended) == OpenNextIndex(Current(), old(State()))
    {
      hide DirectoryFallback, SubmitOpen;
      if !phase.ResolvingIndex? {
        return false;
      }
      if phase.entries == [] {
        ended := Fallback(phase.dirFs);
        return;
      }
      var (path, contentType) := phase.entries[0];
      phase := ResolvingIndex(phase.dirFs, phase.entries[1..]);
      SubmitOpening(path, OpenCtx(None, contentType, false));
      ended := false;
    }

    method EnterDirectory() returns (ended: bool)
      requires request.Some?
      modifies this, bridge
      ensures request == old(request)
      ensures Outcome(State(), ended) == HandleDirectory(Current(), old(State()))
    {
      hide Reply, RespondStatus, DirectoryFallback, OpenNextIndex, Mount.RedirectLocation;
      var r := request.value;
      if !r.trailingSlash && config.redirectTrailingSlash {
        ended := Answer(Response(301, [("location", Mount.RedirectLocation(config.stripPrefix, r.relative))], NoBody));
        return;
      }
      if config.directory == DenyMode {
        ended := Status(403);
        return;
      }
      var dirFs := PathJoin(config.root, r.relative);
      var pending: seq<(Bytes, Bytes)> := [];
      for i := 0 to |config.indexFiles|
        invariant pending == IndexEntries(Current())[..i] && State() == old(State()) && request == old(request)
      {
        pending := pending + [(PathJoin(dirFs, config.indexFiles[i]), config.contentTypeFor(config.indexFiles[i]))];
      }
      assert pending == IndexEntries(Current());
      if pending == [] {
        ended := Fallback(dirFs);
        return;
      }
      phase := ResolvingIndex(dirFs, pending);
      ended := NextIndex();
    }

    method OpenFailed(error: IoError) returns (ended: bool)
      requires request.Some?
      modifies this, bridge
      ensures request == old(request)
      ensures Outcome(State(), ended) == HandleOpenError(Current(), old(State()), error)
    {
      hide OpenNextCandidate, OpenNextIndex, RespondStatus;
      match phase {
        case ResolvingFile(pending) =>
          if pending != [] {
            ended := NextCandidate();
          } else {
            ended := Status(StatusForIoError(error));
          }
        case ResolvingIndex(_, _) => ended := NextIndex();
        case _ => ended := false;
      }
    }

    method AdvanceAfterMiss() returns (ended: bool)
      requires request.Some?
      modifies this, bridge
      ensures request == old(request)
      ensures Outcome(State(), ended) == AdvanceAfterOpenMiss(Current(), old(State()))
    {
      hide OpenNextCandidate, OpenNextIndex;
      match phase {
        case ResolvingFile(_) => ended := NextCandidate();
        case ResolvingIndex(_, _) => ended := NextIndex();
        case _ => ended := false;
      }
    }

    method Listed(listing: ListOutcome) returns (ended: bool)
      requires request.Some?
      modifies this, bridge
      ensures request == old(request)
      ensures Outcome(State(), ended) == HandleDir(Current(), old(State()), listing)
    {
      hide Reply, RespondStatus, Mount.UrlFor;
      match listing {
        case ListFails(error) => ended := Status(StatusForIoError(error));
        case Listed(entries) =>
          var urlPath := Mount.UrlFor(config.stripPrefix, request.value.relative);
          ended := Answer(Response(200, [("content-type", "text/html; charset=utf-8")],
            Listing(urlPath, request.value.relative == "", entries)));
      }
    }

    method OpenedFile(handle: FileHandle, stat: FileStat, ctx: OpenCtx, prefetch: Bytes) returns (ended: bool)
      requires request.Some?
      modifies this, bridge
      ensures request == old(request)
      ensures Outcome(State(), ended) == HandleOpened(Current(), old(State()), handle, stat, ctx, prefetch)
    {
      hide AdvanceAfterOpenMiss, HandleDirectory, M.ServeFile;
      if stat.isDir {
        if ctx.encoding.Some? {
          ended := AdvanceAfterMiss();
        } else {
          ended := EnterDirectory();
        }
        return;
      }
      ended := Serve(handle, stat, ctx, prefetch);
    }

    // ------------------------------------------------------------------ serving

    method Serve(handle: FileHandle, stat: FileStat, ctx: OpenCtx, prefetch: Bytes) returns (ended: bool)
      requires request.Some?
      modifies this, bridge
      ensures request == old(request)
      ensures Outcome(State(), ended) == M.ServeFile(Current(), old(State()), handle, stat, ctx, prefetch)
    {
      hide RP.PlanResponse, Facts, M.ExecutePlan;
      var plan := RP.Respond(Facts(Current(), ctx, stat), RP.FileMeta(stat.size, stat.mtimeUnix, stat.mtimeNanos));
      ended := Execute(plan, handle, prefetch);
    }

    method Execute(plan: RP.Plan, handle: FileHandle, prefetch: Bytes) returns (ended: bool)
      requires request.Some?
      modifies this, bridge
      ensures request == old(request)
      ensures Outcome(State(), ended) == M.ExecutePlan(Current(), old(State()), plan, handle, prefetch)
    {
      hide Send, BodyChunks, M.BeginStreaming;
      if plan.body.Empty? {
        past := past.(served := Some(Served(plan, handle.content, false)));
        phase := Done;
        Call(Headers(plan.status, plan.headers, true));
        return true;
      }
      var kept := if plan.body.Whole? then prefetch else [];
      var chunks := PlanChunks(plan.body, config.chunkSize);
      ended := Begin(plan, handle, chunks, kept);
    }

    method Begin(plan: RP.Plan, handle: FileHandle, chunks: seq<Chunk>, prefetch: Bytes) returns (ended: bool)
      modifies this, bridge
      ensures request == old(request)
      ensures Outcome(State(), ended) == M.BeginStreaming(old(State()), plan, handle, chunks, prefetch)
    {
      hide Send, InlineReady;
      if chunks == [] {
        past := past.(served := Some(Served(plan, handle.content, false)));
        phase := Done;
        Call(Headers(plan.status, plan.headers, true));
        return true;
      }
      var ready := InlineChunks(chunks);
      var seeded := chunks[0].File? && chunks[0].offset == 0 && |prefetch| == chunks[0].len;
      if seeded {
        ready := ready[0 := prefetch];
      }
      past := past.(served := Some(Served(plan, handle.content, seeded)));
      phase := StreamingPhase(Streaming(handle, chunks, ready, 0, 0, 0, 0));
      Call(Headers(plan.status, plan.headers, false));
      ended := false;
    }

    // ---------------------------------------------------------------- streaming

    method ReadDone(seqNo: nat, result: ReadResult) returns (ended: bool)
      modifies this, bridge
      ensures request == old(request)
      ensures Outcome(State(), ended) == HandleRead(old(State()), seqNo, result)
    {
      hide Send;
      if !phase.StreamingPhase? {
        return false;
      }
      phase := StreamingPhase(phase.s.(inflight := LessOne(phase.s.inflight)));
      if result.Got? {
        phase := StreamingPhase(phase.s.(ready := phase.s.ready[seqNo := result.bytes]));
        return false;
      }
      past := past.(readFailed := true);
      phase := Done;
      Call(Data([], true));
      ended := true;
    }

    /** The first loop of `pump`. */
    method FlushReady() returns (gap: bool)
      requires phase.StreamingPhase?
      modifies this, bridge
      ensures request == old(request)
      ensures (if gap then AtGap(State()) else Stopped(State())) == Flush(old(State()))
    {
      hide Send, Advanced;
      while true
        invariant phase.StreamingPhase? && Flush(State()) == Flush(old(State())) && request == old(request)
        decreases |phase.s.ready|
      {
        FlushPass(State());
        hide SentOne, SentAll, Flush;
        if phase.s.watermarkDepth != 0 {
          return false;
        }
        if phase.s.nextSend !in phase.s.ready {
          return true;
        }
        var bytes, last := phase.s.ready[phase.s.nextSend], phase.s.nextSend == |phase.s.chunks| - 1;
        if last {
          SendsLast(State());
          phase := Done;
          Call(Data(bytes, true));
          return false;
        }
        SendsOne(State());
        phase := StreamingPhase(Advanced(phase.s));
        Call(Data(bytes, false));
      }
    }

    /** The second loop of `pump` collects the reads to issue, then hands them to
        the engine. */
    method IssueReads()
      requires phase.StreamingPhase?
      modifies this
      ensures request == old(request)
      ensures State() == Issue(old(State()), config.maxInflightReads)
    {
      var reqs: seq<Op> := [];
      SubmitNothing(State());
      while phase.s.inflight < config.maxInflightReads && phase.s.issueCursor < |phase.s.chunks|
        invariant phase.StreamingPhase? && request == old(request)
        invariant Issue(SubmitAll(State(), reqs), config.maxInflightReads)
                  == Issue(old(State()), config.maxInflightReads)
        decreases |phase.s.chunks| - phase.s.issueCursor
      {
        ghost var before := State();
        IssuePass(before, reqs, config.maxInflightReads);
        hide Issue, SubmitAll;
        var index := phase.s.issueCursor;
        phase := StreamingPhase(phase.s.(issueCursor := index + 1));
        if index in phase.s.ready {
          continue;
        }
        if phase.s.chunks[index].File? {
          var chunk := phase.s.chunks[index];
          phase := StreamingPhase(phase.s.(inflight := phase.s.inflight + 1));
          reqs := reqs + [ReadOp(index, phase.s.handle, chunk.offset, chunk.len)];
        }
      }
      ghost var pumped := State();
      IssueStops(pumped, reqs, config.maxInflightReads);
      hide Issue;
      for i := 0 to |reqs|
        invariant State() == SubmitAll(pumped, reqs[..i]) && request == old(request)
      {
        SubmitNext(pumped, reqs, i);
        SubmitOp(reqs[i]);
      }
      assert reqs[..|reqs|] == reqs;
    }

    method PumpBody()
      requires request.Some? && phase.StreamingPhase?
      modifies this, bridge
      ensures request == old(request)
      ensures State() == Pump(Current(), old(State()))
    {
      hide Flush, Issue;
      var gap := FlushReady();
      if !gap || !phase.StreamingPhase? {
        return;
      }
      IssueReads();
    }

    // ---------------------------------------------------------------- callbacks

    method Handle(event: IoEvent) returns (ended: bool)
      requires request.Some?
      modifies this, bridge
      ensures request == old(request)
      ensures Outcome(State(), ended) == HandleEvent(Current(), old(State()), event)
    {
      hide HandleOpened, HandleOpenError, HandleRead, HandleDir;
      match event {
        case Opened(handle, stat, ctx, prefetch) => ended := OpenedFile(handle, stat, ctx, prefetch);
        case OpenError(error) => ended := OpenFailed(error);
        case Read(seqNo, result) => ended := ReadDone(seqNo, result);
        case Dir(listing) => ended := Listed(listing);
      }
    }

    /** `on_scheduled`. */
    method OnWakeUp()
      requires request.Some?
      modifies this, bridge
      ensures request == old(request)
      ensures State() == OnScheduled(Current(), old(State()))
    {
      hide HandleEvent, Pump;
      ghost var s := Current();
      var events := bridge.Process();
      ghost var start := State();
      for i := 0 to |events|
        invariant request == old(request)
        invariant HandleEvents(s, State(), events[i..]) == HandleEvents(s, start, events)
      {
        HandlePass(s, State(), events, i);
        hide HandleEvents;
        var ended := Handle(events[i]);
        if ended {
          past := past.(dropped := past.dropped + events[i + 1..]);
          return;
        }
      }
      assert events[|events|..] == [];
      if phase.StreamingPhase? {
        PumpBody();
      }
    }

    /** `on_request_headers`. */
    method OnHeaders(raw: RawRequest)
      modifies this, bridge
      ensures State() == OnRequestHeaders(config, old(request), old(State()), raw)
      ensures request == if old(request).Some? then old(request) else RequestRuns.Admitted(config, raw)
    {
      hide Reply, RespondStatus, BuildFileCandidates, OpenNextCandidate, Paths.Resolve, Mount.UnderMount;
      if raw.verb.OtherMethod? {
        var ended := Answer(Response(405, [("allow", "GET, HEAD")], NoBody));
        return;
      }
      var path := Mount.UnderMount(config.stripPrefix, raw.path);
      if path.None? {
        var ended := Status(404);
        return;
      }
      var validated := Paths.ResolveRequestPath(path.value, Policy(config));
      match validated {
        case Reject(reason) =>
          var ended := Status(RejectStatus(reason));
        case Ok(relative, trailingSlash) =>
          var asked := RequestOf(raw, relative, trailingSlash);
          if request.None? {
            request := Some(asked);
          }
          var pending := BuildCandidates(asked);
          phase := ResolvingFile(pending);
          var ended := NextCandidate();
      }
    }
  }

  /** One pass over the events of a drain. */
  lemma HandlePass(s: Session, f: FState, events: seq<IoEvent>, i: nat)
    requires i < |events|
    ensures var o := HandleEvent(s, f, events[i]);
            if o.ended then HandleEvents(s, f, events[i..]) ==
                              Outcome(
                                o.state.(past := o.state.past.(dropped := o.state.past.dropped + events[i + 1..])),
                                true)
            else HandleEvents(s, f, events[i..]) == HandleEvents(s, o.state, events[i + 1..])
  {
    assert events[i..][1..] == events[i + 1..];
    hide HandleEvent;
  }

  function SubmitAll(f: FState, reqs: seq<Op>): FState {
    f.(ops := f.ops + reqs, past := f.past.(submitted := f.past.submitted + reqs))
  }

  lemma SubmitNothing(f: FState)
    ensures SubmitAll(f, []) == f
  {
  }

  lemma SubmitNext(f: FState, reqs: seq<Op>, i: nat)
    requires i < |reqs|
    ensures SubmitAll(f, reqs[..i + 1]) == Submit(SubmitAll(f, reqs[..i]), reqs[i])
  {
    assert reqs[..i + 1] == reqs[..i] + [reqs[i]];
  }

  /** Handing the reads over at the end is as good as one by one. */
  lemma IssuePass(f: FState, reqs: seq<Op>, max: nat)
    requires f.phase.StreamingPhase? && WantsMore(f.phase.s, max)
    ensures var g := SubmitAll(f, reqs);
            if SkipsNext(f.phase.s) then Issue(g, max) == Issue(SubmitAll(Skipped(f), reqs), max)
            else Issue(g, max) == Issue(SubmitAll(f.(phase := Issued(f).phase), reqs + [NextRead(f.phase.s)]), max)
  {
    var g := SubmitAll(f, reqs);
    if SkipsNext(f.phase.s) {
      assert Skipped(g) == SubmitAll(Skipped(f), reqs);
    } else {
      assert g.ops + [NextRead(f.phase.s)] == f.ops + (reqs + [NextRead(f.phase.s)]);
      assert g.past.submitted + [NextRead(f.phase.s)] == f.past.submitted + (reqs + [NextRead(f.phase.s)]);
      assert Issued(g) == SubmitAll(f.(phase := Issued(f).phase), reqs + [NextRead(f.phase.s)]);
    }
  }

  lemma IssueStops(f: FState, reqs: seq<Op>, max: nat)
    requires f.phase.StreamingPhase? && !WantsMore(f.phase.s, max)
    ensures Issue(SubmitAll(f, reqs), max) == SubmitAll(f, reqs)
  {
  }

  lemma SendsOne(f: FState)
    requires f.phase.StreamingPhase? && f.phase.s.nextSend in f.phase.s.ready
    ensures SentOne(f)
            == Send(f.(phase := StreamingPhase(Advanced(f.phase.s))), Data(f.phase.s.ready[f.phase.s.nextSend], false))
  {
  }

  lemma SendsLast(f: FState)
    requires f.phase.StreamingPhase? && f.phase.s.nextSend in f.phase.s.ready
    ensures SentAll(f) == Send(f.(phase := Done), Data(f.phase.s.ready[f.phase.s.nextSend], true))
  {
  }
}

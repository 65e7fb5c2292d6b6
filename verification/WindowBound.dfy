/** How many file chunks a stream holds in memory: the window bounds them when
    completions arrive in the order the reads were issued. */
module WindowBound {
  import opened Text
  import opened EventBridge
  import opened FilterModel
  import opened FilterRuns
  import opened FilterInvariant
  import opened FilterResolve
  import opened FilterStream
  import FilterLiveness
  import RP = ResponsePlan

  /** File chunks that have arrived and are not sent. */
  function Held(st: Streaming): set<nat> {
    set i: nat | i < |st.chunks| && i in st.ready && st.nextSend <= i && st.chunks[i].File?
  }

  // ------------------------------------------------------------ reads in order

  function EvLog(evs: seq<IoEvent>): seq<nat> {
    if evs == [] then []
    else if evs[|evs| - 1].Read? then EvLog(evs[..|evs| - 1]) + [evs[|evs| - 1].seqNo]
    else EvLog(evs[..|evs| - 1])
  }

  lemma {:induction false} EvLogConcat(a: seq<IoEvent>, b: seq<IoEvent>)
    ensures EvLog(a + b) == EvLog(a) + EvLog(b)
  {
    if b == [] {
      assert a + b == a;
    } else {
      assert (a + b)[..|a + b| - 1] == a + b[..|b| - 1];
      EvLogConcat(a, b[..|b| - 1]);
    }
  }

  lemma {:induction false} ReadLogConcat(a: seq<Op>, b: seq<Op>)
    ensures ReadLog(a + b) == ReadLog(a) + ReadLog(b)
  {
    if b == [] {
      assert a + b == a;
    } else {
      assert (a + b)[..|a + b| - 1] == a + b[..|b| - 1];
      ReadLogConcat(a, b[..|b| - 1]);
    }
  }

  lemma {:induction false} EvLogCounts(evs: seq<IoEvent>)
    ensures EvReads(evs) == multiset(EvLog(evs))
  {
    if evs != [] {
      EvLogCounts(evs[..|evs| - 1]);
    }
  }

  lemma {:induction false} ReadLogCounts(ops: seq<Op>)
    ensures OpReads(ops) == multiset(ReadLog(ops))
  {
    if ops != [] {
      ReadLogCounts(ops[..|ops| - 1]);
    }
  }

  /** The outstanding reads, oldest first. */
  function Queue(f: FState, drained: seq<IoEvent>): seq<nat> {
    EvLog(drained) + EvLog(Pending(f.mailbox)) + ReadLog(f.ops)
  }

  lemma QueueIsDue(f: FState, drained: seq<IoEvent>)
    requires f.past.dropped == []
    ensures multiset(Queue(f, drained)) == Outstanding(f, drained)
  {
    var a := Pending(f.mailbox);
    assert InTransit(f, drained) == a + drained;
    EvReadsConcat(a, drained);
    EvLogCounts(a);
    EvLogCounts(drained);
    ReadLogCounts(f.ops);
    hide EvReads, EvLog, OpReads, ReadLog;
    Shuffled(multiset(EvLog(drained)), multiset(EvLog(a)), multiset(ReadLog(f.ops)));
  }

  lemma Shuffled(a: multiset<nat>, b: multiset<nat>, c: multiset<nat>)
    ensures (a + b) + c == c + (b + a)
  {
  }

  /** Reads wait in order behind every chunk held, and the two together fit. */
  predicate Ordered(st: Streaming, q: seq<nat>, max: nat) {
    && LogBelow(q, st.issueCursor)
    && (forall i, j :: i in Held(st) && 0 <= j < |q| ==> i < q[j])
    && Bounded(st, max)
  }

  predicate Bounded(st: Streaming, max: nat) {
    |Held(st)| + st.inflight <= max
  }

  /** With one read at a time the bound holds of a torn-down stream as well. */
  predicate InOrder(s: Session, f: FState, drained: seq<IoEvent>) {
    f.phase.StreamingPhase? ==>
      && (!f.past.completed ==>
            f.past.dropped == [] && Ordered(f.phase.s, Queue(f, drained), s.config.maxInflightReads))
      && (s.config.maxInflightReads == 1 ==> Bounded(f.phase.s, 1))
  }

  // ------------------------------------------------------------- on the window

  lemma Fewer(a: set<nat>, b: set<nat>)
    requires a <= b
    ensures |a| <= |b|
  {
    if a != {} {
      var x :| x in a;
      Fewer(a - {x}, b - {x});
    }
  }

  lemma HeldArrive(st: Streaming, k: nat, bytes: Bytes)
    ensures |Held(st.(ready := st.ready[k := bytes]))| <= |Held(st)| + 1
    ensures forall i :: i in Held(st.(ready := st.ready[k := bytes])) ==> i in Held(st) || i == k
  {
    var more := Held(st.(ready := st.ready[k := bytes]));
    assert more <= Held(st) + {k};
    Fewer(more, Held(st) + {k});
  }

  lemma OrderArrive(st: Streaming, tt: Streaming, q: seq<nat>, max: nat, bytes: Bytes)
    requires q != [] && Ordered(st, q, max) && st.inflight > 0
    requires tt == st.(inflight := st.inflight - 1, ready := st.ready[q[0] := bytes])
    ensures Ordered(tt, q[1..], max)
  {
    HeldArrive(st, q[0], bytes);
    var mid := st.(ready := st.ready[q[0] := bytes]);
    assert Held(tt) == Held(mid);
    hide Held;
    var rest := q[1..];
    forall i, j | i in Held(tt) && 0 <= j < |rest| ensures i < rest[j] {
      assert i in Held(mid);
      assert rest[j] == q[j + 1];
      assert i in Held(st) || i == q[0];
      assert q[0] < q[j + 1];
      assert i in Held(st) ==> i < q[j + 1];
    }
    assert LogBelow(rest, tt.issueCursor);
  }

  lemma OrderFewer(st: Streaming, tt: Streaming, q: seq<nat>, max: nat)
    requires Ordered(st, q, max) && tt.issueCursor == st.issueCursor && tt.inflight == st.inflight
    requires Held(tt) <= Held(st)
    ensures Ordered(tt, q, max)
  {
    Fewer(Held(tt), Held(st));
    hide Held;
  }

  /** At a gap nothing is held: what is missing is still being read, and every
      chunk held would be older. */
  lemma GapHoldsNothing(st: Streaming, content: Bytes, seeded: bool, max: nat, q: seq<nat>)
    requires Window(st, content, seeded, max, multiset(q)) && Ordered(st, q, max)
    requires st.nextSend !in st.ready
    ensures Held(st) == {}
  {
    hide Intended;
    var n := st.nextSend;
    if n < st.issueCursor {
      assert multiset(q)[n] > 0;
      assert n in q;
      var j :| 0 <= j < |q| && q[j] == n;
    } else {
      assert forall i: nat :: n <= i < |st.chunks| && st.issueCursor <= i ==>
          (i in st.ready <==> Given(st.chunks, seeded, i));
    }
  }

  lemma OrderIssue(st: Streaming, q: seq<nat>, max: nat)
    requires Held(st) == {} && Ordered(st, q, max) && st.inflight < max
    ensures var tt := st.(issueCursor := st.issueCursor + 1, inflight := st.inflight + 1);
            Held(tt) == {} && Ordered(tt, q + [st.issueCursor], max)
    ensures var tt := st.(issueCursor := st.issueCursor + 1); Held(tt) == {} && Ordered(tt, q, max)
  {
    assert Held(st.(issueCursor := st.issueCursor + 1, inflight := st.inflight + 1)) == Held(st);
    assert Held(st.(issueCursor := st.issueCursor + 1)) == Held(st);
    hide Held;
  }

  // -------------------------------------------------------------- on callbacks

  /** What a send leaves alone, and what it does when the stream is not torn down
      during it. */
  predicate Undisturbed(f: FState, g: FState) {
    && g.phase.StreamingPhase? == f.phase.StreamingPhase?
    && (f.phase.StreamingPhase? ==> g.phase.s == f.phase.s.(watermarkDepth := g.phase.s.watermarkDepth))
    && (!g.past.completed ==>
          !f.past.completed && g.mailbox == f.mailbox && g.past.dropped == f.past.dropped && g.ops == f.ops)
  }

  lemma {:induction false} HooksUndisturb(f: FState, hooks: seq<Hook>)
    ensures Undisturbed(f, RunHooks(f, hooks))
  {
    if hooks != [] {
      HooksUndisturb(f, hooks[..|hooks| - 1]);
    }
  }

  lemma SendUndisturbs(f: FState, out: Sent)
    ensures Undisturbed(f, Send(f, out))
  {
    if f.script != [] {
      HooksUndisturb(f.(sent := f.sent + [out], script := f.script[1..]), f.script[0]);
    }
    hide RunHooks;
  }

  lemma UndisturbedOrder(s: Session, f: FState, g: FState, drained: seq<IoEvent>)
    requires Undisturbed(f, g) && InOrder(s, f, drained)
    ensures InOrder(s, g, drained)
  {
    hide Ordered, EvLog, ReadLog, Held;
    if g.phase.StreamingPhase? {
      assert Held(g.phase.s) == Held(f.phase.s) by { SameHeld(f.phase.s, g.phase.s); }
      if !g.past.completed {
        DeepOrder(f.phase.s, g.phase.s, Queue(f, drained), s.config.maxInflightReads);
      }
    }
  }

  lemma SameHeld(st: Streaming, tt: Streaming)
    requires tt == st.(watermarkDepth := tt.watermarkDepth)
    ensures Held(tt) == Held(st)
  {
  }

  lemma DeepOrder(st: Streaming, tt: Streaming, q: seq<nat>, max: nat)
    requires tt == st.(watermarkDepth := tt.watermarkDepth) && Ordered(st, q, max)
    ensures Ordered(tt, q, max)
  {
    assert Held(tt) == Held(st);
    hide Held;
  }

  lemma SentOneOrder(s: Session, f: FState, drained: seq<IoEvent>)
    requires f.phase.StreamingPhase? && f.phase.s.nextSend in f.phase.s.ready && InOrder(s, f, drained)
    ensures InOrder(s, SentOne(f), drained)
  {
    var g := f.(phase := StreamingPhase(Advanced(f.phase.s)));
    FewerHeld(f.phase.s);
    if !f.past.completed {
      AdvancedOrder(f.phase.s, Queue(f, drained), s.config.maxInflightReads);
    }
    assert InOrder(s, g, drained)
      by { hide Ordered, EvLog, ReadLog, Advanced, Held; assert Queue(g, drained) == Queue(f, drained); }
    var out := Data(f.phase.s.ready[f.phase.s.nextSend], false);
    SendUndisturbs(g, out);
    UndisturbedOrder(s, g, Send(g, out), drained);
    hide InOrder, Send, Undisturbed;
  }

  lemma FewerHeld(st: Streaming)
    ensures |Held(Advanced(st))| <= |Held(st)| && Advanced(st).inflight == st.inflight
  {
    Fewer(Held(Advanced(st)), Held(st));
  }

  lemma AdvancedOrder(st: Streaming, q: seq<nat>, max: nat)
    requires Ordered(st, q, max)
    ensures Ordered(Advanced(st), q, max)
  {
    assert Held(Advanced(st)) <= Held(st);
    OrderFewer(st, Advanced(st), q, max);
    hide Held;
  }

  lemma {:induction false} FlushOrder(s: Session, f: FState, drained: seq<IoEvent>)
    requires f.phase.StreamingPhase? && InOrder(s, f, drained)
    ensures InOrder(s, Flush(f).state, drained)
    decreases |f.phase.s.ready|
  {
    hide InOrder, SentOne, SentAll, Advanced;
    var st := f.phase.s;
    if st.watermarkDepth == 0 && st.nextSend in st.ready {
      if st.nextSend == |st.chunks| - 1 {
        LastIsDone(s, f, drained);
      } else {
        SentOneOrder(s, f, drained);
        SentOneShrinks(f);
        FlushOrder(s, SentOne(f), drained);
      }
    }
  }

  lemma LastIsDone(s: Session, f: FState, drained: seq<IoEvent>)
    requires f.phase.StreamingPhase? && f.phase.s.nextSend in f.phase.s.ready
    ensures InOrder(s, SentAll(f), drained)
  {
    SendKeepsReady(f.(phase := Done), Data(f.phase.s.ready[f.phase.s.nextSend], true));
    hide Send, Ordered;
  }

  /** In order, and nothing is held. */
  predicate Clear(s: Session, f: FState, drained: seq<IoEvent>) {
    f.phase.StreamingPhase? && Held(f.phase.s) == {} && InOrder(s, f, drained)
  }

  lemma ClearStep(s: Session, f: FState, drained: seq<IoEvent>)
    requires Clear(s, f, drained) && WantsMore(f.phase.s, s.config.maxInflightReads)
    ensures Clear(s, Skipped(f), drained)
    ensures f.phase.s.chunks[f.phase.s.issueCursor].File? ==> Clear(s, Issued(f), drained)
  {
    hide EvLog, ReadLog, Held, Ordered;
    var st, q := f.phase.s, Queue(f, drained);
    SkipHolds(st);
    if !f.past.completed {
      OrderIssue(st, q, s.config.maxInflightReads);
    }
    assert Queue(Skipped(f), drained) == q;
    if st.chunks[st.issueCursor].File? {
      ReadLogConcat(f.ops, [NextRead(st)]);
      OneRead(NextRead(st));
      assert Queue(Issued(f), drained) == q + [st.issueCursor];
    }
  }

  lemma SkipHolds(st: Streaming)
    ensures Held(st.(issueCursor := st.issueCursor + 1)) == Held(st)
    ensures Held(st.(issueCursor := st.issueCursor + 1, inflight := st.inflight + 1)) == Held(st)
  {
  }

  lemma OneRead(op: Op)
    requires op.ReadOp?
    ensures ReadLog([op]) == [op.seqNo]
  {
    assert [op][..0] == [];
  }

  lemma {:induction false} IssueOrder(s: Session, f: FState, drained: seq<IoEvent>)
    requires Clear(s, f, drained)
    ensures InOrder(s, Issue(f, s.config.maxInflightReads), drained)
    decreases |f.phase.s.chunks| - f.phase.s.issueCursor
  {
    hide InOrder, Held;
    if WantsMore(f.phase.s, s.config.maxInflightReads) {
      ClearStep(s, f, drained);
      IssueOrder(s, if SkipsNext(f.phase.s) then Skipped(f) else Issued(f), drained);
    }
  }

  lemma PumpOrder(s: Session, disk: Disk, f: FState, drained: seq<IoEvent>)
    requires StreamInv(s, disk, f, drained) && NeverInert(f.past.submitted) && InOrder(s, f, drained)
    ensures InOrder(s, Pump(s, f), drained)
  {
    Cursors(s, disk, f, drained);
    hide StreamInv, Inv, InOrder, Flush, Issue;
    FlushInv(s, disk, f, drained);
    FlushOrder(s, f, drained);
    var flushed := Flush(f);
    if flushed.AtGap? {
      OnlyStreams(s, disk, flushed.state, drained);
      if !flushed.state.past.completed || s.config.maxInflightReads == 1 {
        IssueAtGap(s, disk, flushed.state, drained);
      } else {
        IssueInv(s, disk, flushed.state, drained);
        TornDown(s, Issue(flushed.state, s.config.maxInflightReads), drained);
      }
    }
  }

  lemma IssueAtGap(s: Session, disk: Disk, f: FState, drained: seq<IoEvent>)
    requires StreamInv(s, disk, f, drained) && InOrder(s, f, drained) && AtRealGap(f)
    requires !f.past.completed || s.config.maxInflightReads == 1
    ensures InOrder(s, Issue(f, s.config.maxInflightReads), drained)
  {
    hide StreamInv, InOrder, Held;
    if !f.past.completed {
      ClearAtGap(s, disk, f, drained);
      IssueOrder(s, f, drained);
    } else if f.phase.s.inflight == 0 {
      IdleHoldsNothing(s, disk, f, drained);
      IssueOrder(s, f, drained);
    }
  }

  /** At a gap with nothing being read, nothing is held. */
  lemma IdleHoldsNothing(s: Session, disk: Disk, f: FState, drained: seq<IoEvent>)
    requires StreamInv(s, disk, f, drained) && AtRealGap(f) && f.phase.s.inflight == 0
    ensures Held(f.phase.s) == {}
  {
    hide ServesVerdict, BodyChunks, AllFit, ReadLog, Expected, Intended, LogBelow, SeedRead, Outstanding;
    assert Outstanding(f, drained) == multiset{};
    var st := f.phase.s;
    assert st.issueCursor <= st.nextSend;
  }

  lemma TornDown(s: Session, f: FState, drained: seq<IoEvent>)
    requires f.past.completed && s.config.maxInflightReads != 1
    ensures InOrder(s, f, drained)
  {
  }

  lemma ClearAtGap(s: Session, disk: Disk, f: FState, drained: seq<IoEvent>)
    requires StreamInv(s, disk, f, drained) && InOrder(s, f, drained) && AtRealGap(f) && !f.past.completed
    ensures Clear(s, f, drained)
  {
    hide ServesVerdict, BodyChunks, AllFit, Outstanding, Queue, ReadLog, Expected, Intended, Held, Ordered, Window;
    QueueIsDue(f, drained);
    GapHoldsNothing(f.phase.s, f.past.served.value.content, f.past.served.value.seeded, s.config.maxInflightReads,
        Queue(f, drained));
  }

  // ------------------------------------------------------------- on whole runs

  lemma ReadOrder(s: Session, disk: Disk, f: FState, ev: IoEvent, rest: seq<IoEvent>)
    requires StreamInv(s, disk, f, [ev] + rest) && InOrder(s, f, [ev] + rest) && ev.Read? && ev.result.Got?
    ensures InOrder(s, HandleRead(f, ev.seqNo, ev.result).state, rest)
  {
    hide StreamInv, Ordered, ReadLog;
    PhaseOfStreaming(s, disk, f, [ev] + rest);
    var g := HandleRead(f, ev.seqNo, ev.result).state;
    InFlight(s, disk, f, ev, rest);
    ArriveBounded(f.phase.s, ev.seqNo, ev.result.bytes);
    hide Held;
    if !f.past.completed {
      var q := Queue(f, [ev] + rest);
      EvLogConcat([ev], rest);
      OneEvent(ev);
      hide EvLog;
      assert q == [ev.seqNo] + Queue(g, rest);
      OrderArrive(f.phase.s, g.phase.s, q, s.config.maxInflightReads, ev.result.bytes);
    }
  }

  lemma ArriveBounded(st: Streaming, k: nat, bytes: Bytes)
    requires st.inflight > 0
    ensures var tt := st.(inflight := LessOne(st.inflight), ready := st.ready[k := bytes]);
            |Held(tt)| + tt.inflight <= |Held(st)| + st.inflight
  {
    HeldArrive(st, k, bytes);
    var mid := st.(ready := st.ready[k := bytes]);
    assert Held(mid.(inflight := LessOne(st.inflight))) == Held(mid);
  }

  lemma OneEvent(ev: IoEvent)
    requires ev.Read?
    ensures EvLog([ev]) == [ev.seqNo]
  {
    assert [ev][..0] == [];
  }

  lemma InFlight(s: Session, disk: Disk, f: FState, ev: IoEvent, rest: seq<IoEvent>)
    requires StreamInv(s, disk, f, [ev] + rest) && ev.Read?
    ensures f.phase.s.inflight > 0
  {
    TakeRead(f, ev, rest);
    hide ServesVerdict, BodyChunks, AllFit, InTransit, ReadLog, Expected, Intended, EvReads, OpReads;
    MoreDueLast(OpReads(f.ops), EvReads(InTransit(f, rest)), multiset{ev.seqNo});
    assert Outstanding(f, [ev] + rest) == (OpReads(f.ops) + EvReads(InTransit(f, rest))) + multiset{ev.seqNo};
  }

  /** A stream that has just begun holds at most the chunk that came with the
      open. */
  lemma FirstOrder(s: Session, f: FState, plan: RP.Plan, handle: FileHandle, chunks: seq<Chunk>, prefetch: Bytes)
    requires Free(f, [])
    ensures InOrder(s, BeginStreaming(f, plan, handle, chunks, prefetch).state, [])
  {
    hide InlineReady, Seeds;
    if chunks == [] {
      var g := f.(phase := Done, past := f.past.(served := Some(Served(plan, handle.content, false))));
      SendKeepsReady(g, Headers(plan.status, plan.headers, true));
    } else {
      InlineReadyHolds(chunks);
      var seeded := Seeds(chunks, prefetch);
      var ready := if seeded then InlineReady(chunks)[0 := prefetch] else InlineReady(chunks);
      var st := Streaming(handle, chunks, ready, 0, 0, 0, 0);
      var g := f.(phase := StreamingPhase(st), past := f.past.(served := Some(Served(plan, handle.content, seeded))));
      assert Held(st) <= {0};
      Fewer(Held(st), {0});
      assert Queue(g, []) == [];
      hide Held;
      assert InOrder(s, g, []);
      var out := Headers(plan.status, plan.headers, false);
      SendUndisturbs(g, out);
      UndisturbedOrder(s, g, Send(g, out), []);
    }
    hide Send, InOrder, Undisturbed;
  }

  /** Only starting to serve brings the streaming phase about. */
  lemma ServeOrder(s: Session, f: FState, handle: FileHandle, stat: FileStat, ctx: OpenCtx, prefetch: Bytes)
    requires Free(f, [])
    ensures InOrder(s, ServeFile(s, f, handle, stat, ctx, prefetch).state, [])
  {
    hide PlanFor, BodyChunks, InOrder, BeginStreaming;
    var plan := PlanFor(s, ctx, stat);
    if plan.body.Empty? {
      var g := f.(phase := Done, past := f.past.(served := Some(Served(plan, handle.content, false))));
      SendKeepsReady(g, Headers(plan.status, plan.headers, true));
      NotStreaming(s, Send(g, Headers(plan.status, plan.headers, true)), []);
    } else {
      var kept := if plan.body.Whole? then prefetch else [];
      FirstOrder(s, f, plan, handle, BodyChunks(plan.body, s.config.chunkSize), kept);
    }
    hide Send;
  }

  lemma NotStreaming(s: Session, f: FState, drained: seq<IoEvent>)
    requires !f.phase.StreamingPhase?
    ensures InOrder(s, f, drained)
  {
  }

  lemma ReplyIsOut(s: Session, f: FState, out: Sent)
    ensures !Reply(f, out).state.phase.StreamingPhase?
  {
    SendKeepsReady(f.(phase := Done), out);
    hide Send;
  }

  lemma IndexIsOut(s: Session, f: FState)
    requires Resolving(f.phase)
    ensures !OpenNextIndex(s, f).state.phase.StreamingPhase? && !OpenNextCandidate(s, f).state.phase.StreamingPhase?
  {
    ReplyIsOut(s, f, Response(404, [], NoBody));
    hide Reply;
  }

  lemma DirectoryIsOut(s: Session, f: FState)
    requires Resolving(f.phase)
    ensures !HandleDirectory(s, f).state.phase.StreamingPhase?
  {
    ReplyIsOut(s, f, Response(404, [], NoBody));
    ReplyIsOut(s, f, Response(403, [], NoBody));
    ReplyIsOut(s, f, Redirect(s));
    hide Reply, Redirect, IndexEntries, OpenNextIndex;
    if IndexEntries(s) != [] {
      IndexIsOut(s, f.(phase := ResolvingIndex(DirPath(s), IndexEntries(s))));
    }
  }

  lemma ControlOrder(s: Session, disk: Disk, f: FState, ev: IoEvent, rest: seq<IoEvent>)
    requires ResolvingInv(s, disk, f, [ev] + rest) && NeverInert(f.past.submitted)
    ensures InOrder(s, HandleEvent(s, f, ev).state, rest)
  {
    TakeControl(s, disk, f, ev, rest);
    hide InOrder, ResolvingInv, ServeFile, HandleDirectory, OpenNextIndex, OpenNextCandidate, Reply, InTransit,
      Completes;
    match ev {
      case Opened(handle, stat, ctx, prefetch) =>
        if !stat.isDir {
          ServeOrder(s, f, handle, stat, ctx, prefetch);
        } else {
          DirectoryIsOut(s, f);
          IndexIsOut(s, f);
          NotStreaming(s, HandleEvent(s, f, ev).state, rest);
        }
      case OpenError(error) =>
        ReplyIsOut(s, f, Response(StatusForIoError(error), [], NoBody));
        IndexIsOut(s, f);
        NotStreaming(s, HandleEvent(s, f, ev).state, rest);
      case Dir(listing) =>
        if listing.Listed? {
          ReplyIsOut(s, f, ListingReply(s, listing.entries));
        } else {
          ReplyIsOut(s, f, Response(StatusForIoError(listing.error), [], NoBody));
        }
        NotStreaming(s, HandleEvent(s, f, ev).state, rest);
      case Read(_, _) =>
        NotStreaming(s, f, rest);
    }
  }

  lemma EventOrder(s: Session, disk: Disk, f: FState, ev: IoEvent, rest: seq<IoEvent>)
    requires Inv(s, disk, f, [ev] + rest) && InOrder(s, f, [ev] + rest)
    ensures InOrder(s, HandleEvent(s, f, ev).state, rest)
  {
    hide ResolvingInv, StreamInv, DoneInv, InOrder, HandleOpened, HandleOpenError, HandleDir, HandleRead;
    if ResolvingInv(s, disk, f, [ev] + rest) {
      ControlOrder(s, disk, f, ev, rest);
    } else if StreamInv(s, disk, f, [ev] + rest) {
      StreamsReads(s, disk, f, ev, rest);
      if ev.result.Got? {
        ReadOrder(s, disk, f, ev, rest);
      } else {
        ReadBreaks(s, disk, f, ev, rest);
        NotStreaming(s, HandleEvent(s, f, ev).state, rest);
      }
    } else {
      PhaseOfDone(s, disk, f, [ev] + rest);
      DoneIgnores(s, disk, f, ev, rest);
      DoneReads(f, ev);
      NotStreaming(s, HandleEvent(s, f, ev).state, rest);
    }
  }

  lemma DoneReads(f: FState, ev: IoEvent)
    requires f.phase.Done? && ev.Read?
    ensures HandleRead(f, ev.seqNo, ev.result).state == f
  {
  }

  lemma {:induction false} EventsOrder(s: Session, disk: Disk, f: FState, events: seq<IoEvent>)
    requires Inv(s, disk, f, events) && InOrder(s, f, events)
    ensures InOrder(s, HandleEvents(s, f, events).state, [])
    decreases |events|
  {
    hide Inv, InOrder, HandleEvent;
    if events != [] {
      var rest := events[1..];
      assert events == [events[0]] + rest;
      HandleEventInv(s, disk, f, events[0], rest);
      EventOrder(s, disk, f, events[0], rest);
      var o := HandleEvent(s, f, events[0]);
      if o.ended {
        NotStreaming(s, HandleEvents(s, f, events).state, []);
      } else {
        EventsOrder(s, disk, o.state, rest);
      }
    }
  }

  lemma ScheduledOrder(s: Session, disk: Disk, f: FState)
    requires Inv(s, disk, f, []) && InOrder(s, f, [])
    ensures InOrder(s, OnScheduled(s, f), [])
  {
    hide Inv, InOrder, HandleEvents, Pump;
    var events := Pending(f.mailbox);
    var g := f.(mailbox := Open([]));
    assert InTransit(g, events) == InTransit(f, []);
    SameTransit(s, disk, f, g, [], events);
    TakenOrder(s, f, g, events);
    HandleEventsInv(s, disk, g, events);
    EventsOrder(s, disk, g, events);
    var o := HandleEvents(s, g, events);
    if !o.ended && o.state.phase.StreamingPhase? {
      OnlyStreams(s, disk, o.state, []);
      PumpOrder(s, disk, o.state, []);
    }
  }

  lemma TakenOrder(s: Session, f: FState, g: FState, events: seq<IoEvent>)
    requires events == Pending(f.mailbox) && g == f.(mailbox := Open([])) && InOrder(s, f, [])
    ensures InOrder(s, g, events)
  {
    assert Queue(g, events) == Queue(f, []) by { hide ReadLog; }
    hide Ordered, Queue;
  }

  lemma PushedOrder(s: Session, disk: Disk, f: FState, ev: IoEvent)
    requires Inv(s, disk, f, []) && FilterLiveness.Fenced(f) && InOrder(s, f, [])
    requires f.ops != [] && Completes(disk, f.ops[0], ev)
    ensures InOrder(s, Push(f.(ops := RemoveAt(f.ops, 0)), ev), [])
  {
    hide Inv, StreamInv, Ordered, Queue, Push, RemoveAt;
    if f.phase.StreamingPhase? && !f.past.completed {
      OnlyStreams(s, disk, f, []);
      StreamOps(s, disk, f);
      PushedQueue(f, ev);
    }
    PushPlain(f, ev);
  }

  lemma PushPlain(f: FState, ev: IoEvent)
    requires f.ops != []
    ensures var g := Push(f.(ops := RemoveAt(f.ops, 0)), ev);
            && g.phase == f.phase && g.past.completed == f.past.completed
            && (!f.mailbox.Closed? ==> g.past.dropped == f.past.dropped)
  {
  }

  lemma PushedQueue(f: FState, ev: IoEvent)
    requires f.ops != [] && f.mailbox.Open? && f.ops[0].ReadOp? && ev.Read? && ev.seqNo == f.ops[0].seqNo
    ensures Queue(Push(f.(ops := RemoveAt(f.ops, 0)), ev), []) == Queue(f, [])
  {
    assert f.ops == [f.ops[0]] + RemoveAt(f.ops, 0);
    ReadLogConcat([f.ops[0]], RemoveAt(f.ops, 0));
    OneRead(f.ops[0]);
    EvLogConcat(Pending(f.mailbox), [ev]);
    OneEvent(ev);
    hide EvLog, ReadLog;
  }

  lemma StreamOps(s: Session, disk: Disk, f: FState)
    requires StreamInv(s, disk, f, [])
    ensures forall i :: 0 <= i < |f.ops| ==> f.ops[i].ReadOp?
  {
    hide InTransit, Window, Expected, ServesVerdict;
    AllReads(f.phase.s, f.past.served.value.content, f, []);
  }

  /** Completions come in the order the operations were submitted. */
  predicate InIssueOrder(labels: seq<Label>) {
    forall l :: l in labels && l.Finish? ==> l.k == 0
  }

  lemma ApplyOrder(s: Session, disk: Disk, f: FState, l: Label)
    requires Inv(s, disk, f, []) && FilterLiveness.Fenced(f) && InOrder(s, f, []) && Enabled(disk, f, l)
    requires l.Finish? ==> l.k == 0
    ensures InOrder(s, Apply(s, disk, f, l), [])
  {
    hide Inv, InOrder, Completes, OnScheduled, OnHigh, OnLow, OnStreamComplete, Push, RemoveAt;
    match l {
      case Finish(k, ev) => PushedOrder(s, disk, f, ev);
      case Commit => SameOrder(s, f, f.(uncommitted := f.uncommitted - 1, wakeups := f.wakeups + 1));
      case Scheduled(script) =>
        var h := f.(wakeups := f.wakeups - 1, script := script);
        assert InTransit(h, []) == InTransit(f, []);
        SameTransit(s, disk, f, h, [], []);
        SameOrder(s, f, h);
        ScheduledOrder(s, disk, h);
        SameOrder(s, OnScheduled(s, h), OnScheduled(s, h).(script := []));
      case HighMark => HookOrder(s, f, High);
      case LowMark => HookOrder(s, f, Low);
      case StreamComplete => HookOrder(s, f, Complete);
    }
  }

  lemma SameOrder(s: Session, f: FState, g: FState)
    requires g == f.(uncommitted := g.uncommitted, wakeups := g.wakeups, script := g.script) && InOrder(s, f, [])
    ensures InOrder(s, g, [])
  {
    hide Ordered, EvLog, ReadLog;
    assert Queue(g, []) == Queue(f, []);
  }

  lemma HookOrder(s: Session, f: FState, h: Hook)
    requires InOrder(s, f, [])
    ensures InOrder(s, RunHook(f, h), [])
  {
    assert Undisturbed(f, RunHook(f, h));
    UndisturbedOrder(s, f, RunHook(f, h), []);
    hide InOrder;
  }

  lemma {:induction false} RunOrder(s: Session, disk: Disk, labels: seq<Label>)
    requires Run(s, disk, Start(s), labels).Some? && InIssueOrder(labels)
    ensures InOrder(s, Run(s, disk, Start(s), labels).value, [])
  {
    hide Inv, Start, Apply, Enabled, InOrder, FilterLiveness.Settled;
    if labels == [] {
      FilterLiveness.StartCalm(s);
      NotStreaming(s, Start(s), []);
    } else {
      var front, l := labels[..|labels| - 1], labels[|labels| - 1];
      assert l in labels && forall x :: x in front ==> x in labels;
      FilterLiveness.RunCalm(s, disk, front);
      RunOrder(s, disk, front);
      ApplyOrder(s, disk, Run(s, disk, Start(s), front).value, l);
    }
  }

  /** File chunks in memory, sent or not. */
  function Buffered(st: Streaming): set<nat> {
    set i: nat | i < |st.chunks| && i in st.ready && st.chunks[i].File?
  }

  /** Besides the unsent chunks only a stale copy of chunk 0 is kept. */
  lemma OneStale(s: Session, disk: Disk, f: FState)
    requires Inv(s, disk, f, []) && f.phase.StreamingPhase?
    ensures |Buffered(f.phase.s)| <= |Held(f.phase.s)| + 1
  {
    OnlyStreams(s, disk, f, []);
    hide ServesVerdict, BodyChunks, AllFit, Outstanding, ReadLog, Expected, Intended, Inv;
    assert Buffered(f.phase.s) <= Held(f.phase.s) + {0};
    Fewer(Buffered(f.phase.s), Held(f.phase.s) + {0});
  }

  /** The memory bound: in a run whose completions come in issue order, however
      the watermarks move, the unsent file chunks held and the reads in flight
      together never exceed `max_inflight_reads`; with the stale copy of a seeded
      chunk 0, the file chunks in memory never exceed it by more than one. */
  lemma WindowBoundsMemory(s: Session, disk: Disk, labels: seq<Label>)
    requires Run(s, disk, Start(s), labels).Some? && InIssueOrder(labels)
    requires var f := Run(s, disk, Start(s), labels).value; f.phase.StreamingPhase? && !f.past.completed
    ensures var st, max := Run(s, disk, Start(s), labels).value.phase.s, s.config.maxInflightReads;
            |Held(st)| + st.inflight <= max && |Buffered(st)| + st.inflight <= max + 1
  {
    RunOrder(s, disk, labels);
    RunInv(s, disk, labels);
    hide Run, Start, Held, Buffered, Inv;
    OneStale(s, disk, Run(s, disk, Start(s), labels).value);
  }

  /** With one read at a time, completions cannot come out of order while they
      matter. */
  lemma FewOps(s: Session, disk: Disk, f: FState)
    requires Inv(s, disk, f, []) && s.config.maxInflightReads == 1 && !f.phase.Done?
    ensures |f.ops| <= 1
  {
    hide Inv, ResolvingInv, StreamInv, DoneInv;
    if ResolvingInv(s, disk, f, []) {
      ResolvingOps(s, disk, f);
    } else if StreamInv(s, disk, f, []) {
      StreamingOps(s, disk, f);
    } else {
      OnlyDone(s, disk, f);
    }
  }

  lemma OnlyDone(s: Session, disk: Disk, f: FState)
    requires Inv(s, disk, f, []) && !ResolvingInv(s, disk, f, []) && !StreamInv(s, disk, f, [])
    ensures f.phase.Done?
  {
    hide ResolvingInv, StreamInv;
  }

  lemma ResolvingOps(s: Session, disk: Disk, f: FState)
    requires ResolvingInv(s, disk, f, [])
    ensures |f.ops| <= 1
  {
    hide LeadsOn, Completes, InTransit;
  }

  lemma StreamingOps(s: Session, disk: Disk, f: FState)
    requires StreamInv(s, disk, f, []) && s.config.maxInflightReads == 1
    ensures |f.ops| <= 1
  {
    StreamOps(s, disk, f);
    OpsCount(f.ops);
    hide ServesVerdict, BodyChunks, AllFit, InTransit, ReadLog, Expected, Intended, EvReads, OpReads, LogBelow,
      SeedRead;
    assert |Outstanding(f, [])| == |OpReads(f.ops)| + |EvReads(InTransit(f, []))|;
  }

  lemma {:induction false} OpsCount(ops: seq<Op>)
    requires forall i :: 0 <= i < |ops| ==> ops[i].ReadOp?
    ensures |OpReads(ops)| == |ops|
  {
    if ops != [] {
      OpsCount(ops[..|ops| - 1]);
    }
  }

  lemma {:induction false} RunOrderOne(s: Session, disk: Disk, labels: seq<Label>)
    requires Run(s, disk, Start(s), labels).Some? && s.config.maxInflightReads == 1
    ensures InOrder(s, Run(s, disk, Start(s), labels).value, [])
  {
    hide Inv, Start, InOrder, FilterLiveness.Settled, OnScheduled, Completes;
    if labels == [] {
      FilterLiveness.StartCalm(s);
      NotStreaming(s, Start(s), []);
    } else {
      var front, l := labels[..|labels| - 1], labels[|labels| - 1];
      FilterLiveness.RunCalm(s, disk, front);
      RunOrderOne(s, disk, front);
      var f := Run(s, disk, Start(s), front).value;
      if f.phase.Done? && l.Finish? {
        NotStreaming(s, Apply(s, disk, f, l), []);
      } else {
        if !f.phase.Done? {
          FewOps(s, disk, f);
        }
        ApplyOrder(s, disk, f, l);
      }
    }
  }

  /** With a window of one, in every run: at most one unsent file chunk is held
      or being read, and one stale copy beside it. */
  lemma OneReadBoundsMemory(s: Session, disk: Disk, labels: seq<Label>)
    requires Run(s, disk, Start(s), labels).Some? && s.config.maxInflightReads == 1
    requires Run(s, disk, Start(s), labels).value.phase.StreamingPhase?
    ensures var st := Run(s, disk, Start(s), labels).value.phase.s;
            |Held(st)| + st.inflight <= 1 && |Buffered(st)| + st.inflight <= 2
  {
    RunOrderOne(s, disk, labels);
    RunInv(s, disk, labels);
    hide Run, Start, Held, Buffered, Inv;
    OneStale(s, disk, Run(s, disk, Start(s), labels).value);
  }
}

/** Streaming keeps the invariant, and so does every step of every run. */
module FilterStream {
  import opened Text
  import opened EventBridge
  import opened FilterModel
  import opened FilterRuns
  import opened FilterInvariant
  import opened FilterResolve

  // --------------------------------------------------------------- the window

  /** Sending the next chunk moves the window on. */
  lemma WindowSend(st: Streaming, content: Bytes, seeded: bool, max: nat, due: multiset<nat>)
    requires Window(st, content, seeded, max, due)
    requires st.nextSend in st.ready && st.nextSend < |st.chunks| - 1
    ensures Window(st.(ready := st.ready - {st.nextSend}, nextSend := st.nextSend + 1), content, seeded, max, due)
  {
    hide Intended;
  }

  /** Passing over a chunk that needs no read. */
  lemma WindowSkip(st: Streaming, content: Bytes, seeded: bool, max: nat, due: multiset<nat>)
    requires Window(st, content, seeded, max, due) && st.issueCursor < |st.chunks|
    requires st.issueCursor in st.ready || st.chunks[st.issueCursor].Inline?
    ensures Window(st.(issueCursor := st.issueCursor + 1), content, seeded, max, due)
  {
    hide Intended;
    assert due[st.issueCursor] == 0;
    assert st.nextSend <= st.issueCursor ==> (st.issueCursor in st.ready <==> Given(st.chunks, seeded, st.issueCursor));
  }

  /** Issuing a read. */
  lemma WindowIssue(st: Streaming, content: Bytes, seeded: bool, max: nat, due: multiset<nat>)
    requires Window(st, content, seeded, max, due) && st.issueCursor < |st.chunks| && st.inflight < max
    requires st.issueCursor !in st.ready && st.chunks[st.issueCursor].File?
    ensures Window(st.(issueCursor := st.issueCursor + 1, inflight := st.inflight + 1), content, seeded, max,
              due + multiset{st.issueCursor})
  {
    hide Intended;
    var c := st.issueCursor;
    assert due[c] == 0;
    assert c < st.nextSend ==> Given(st.chunks, seeded, c);
    var more := due + multiset{c};
    assert forall i :: i != c ==> more[i] == due[i];
    assert |more| == |due| + 1;
  }

  /** A read that arrives. */
  lemma WindowArrive(st: Streaming, content: Bytes, seeded: bool, max: nat, due: multiset<nat>, k: nat, bytes: Bytes)
    requires Window(st, content, seeded, max, due + multiset{k})
    requires k < |st.chunks| && bytes == Intended(st.chunks[k], content)
    ensures st.inflight > 0
    ensures Window(st.(inflight := st.inflight - 1, ready := st.ready[k := bytes]), content, seeded, max, due)
  {
    hide Intended;
    var all := due + multiset{k};
    assert |all| == |due| + 1;
    assert all[k] == due[k] + 1;
    assert forall i :: i != k ==> all[i] == due[i];
  }

  // ------------------------------------------------------------ what is sent

  lemma ExpectedCalls(s: Session, disk: Disk, served: Served, chunks: seq<Chunk>)
    requires ServesVerdict(s, disk, served) && chunks == BodyChunks(served.plan.body, s.config.chunkSize)
    ensures |Expected(s, disk)| == |chunks| + 1 && VerdictOf(s, disk).Serve?
    ensures forall i :: 0 <= i < |chunks| ==>
              Expected(s, disk)[i + 1] == Data(Intended(chunks[i], served.content), i == |chunks| - 1)
  {
    FirstCall(s, disk, served.plan, chunks, served.content, served.seeded);
    hide VerdictOf, BodyChunks, Expected, Intended;
  }

  lemma SentOneMore(s: Session, disk: Disk, served: Served, chunks: seq<Chunk>, sent: seq<Sent>, n: nat)
    requires ServesVerdict(s, disk, served) && chunks == BodyChunks(served.plan.body, s.config.chunkSize)
    requires n < |chunks| && sent == Expected(s, disk)[..n + 1]
    ensures n + 2 <= |Expected(s, disk)| && VerdictOf(s, disk).Serve?
    ensures sent + [Data(Intended(chunks[n], served.content), n == |chunks| - 1)] == Expected(s, disk)[..n + 2]
    ensures n == |chunks| - 1 ==> Expected(s, disk)[..n + 2] == Expected(s, disk)
  {
    hide ServesVerdict, BodyChunks, Expected, VerdictOf, Intended;
    ExpectedCalls(s, disk, served, chunks);
    var out := Data(Intended(chunks[n], served.content), n == |chunks| - 1);
    assert Expected(s, disk)[n + 1] == out;
    OneMoreCall(Expected(s, disk), sent, n + 1, out);
  }

  lemma OneMoreCall(expected: seq<Sent>, sent: seq<Sent>, n: nat, out: Sent)
    requires n < |expected| && sent == expected[..n] && expected[n] == out
    ensures sent + [out] == expected[..n + 1]
    ensures n == |expected| - 1 ==> expected[..n + 1] == expected
  {
  }

  lemma AllReads(st: Streaming, content: Bytes, f: FState, drained: seq<IoEvent>)
    requires AllFit(st, content, f.ops, InTransit(f, drained))
    ensures OnlyReads(f, drained)
  {
    hide InTransit, Intended;
    forall i | 0 <= i < |f.ops| ensures f.ops[i].ReadOp? {
      assert OpFits(st, f.ops[i]);
    }
    var evs := InTransit(f, drained);
    forall i | 0 <= i < |evs| ensures evs[i].Read? {
      assert EvFits(st, content, evs[i]);
    }
  }

  // ------------------------------------------------------------------ flushing

  lemma SendLast(s: Session, disk: Disk, f: FState, drained: seq<IoEvent>)
    requires StreamInv(s, disk, f, drained) && NeverInert(f.past.submitted)
    requires f.phase.s.nextSend in f.phase.s.ready && f.phase.s.nextSend == |f.phase.s.chunks| - 1
    ensures Inv(s, disk, SentAll(f), drained) && SentAll(f).phase.Done?
  {
    hide ServesVerdict, BodyChunks, Expected, VerdictOf, Intended, InTransit, Outstanding, ReadLog, AllFit;
    var st, served := f.phase.s, f.past.served.value;
    SentOneMore(s, disk, served, st.chunks, f.sent, st.nextSend);
    var out := Data(st.ready[st.nextSend], true);
    var g := f.(phase := Done);
    var h := g.(sent := g.sent + [out]);
    AllReads(st, served.content, f, drained);
    SameTransitText(f, h, drained);
    StreamServes(s, disk, f, drained);
    hide ServedInv, Window;
    assert DoneInv(s, disk, h, drained);
    SendKeepsInv(s, disk, g, drained, out);
    SendKeepsReady(g, out);
  }

  /** A body that is being streamed keeps its plan; the spare read of a seeded
      chunk 0 comes only after the chunk, which is not the last. */
  lemma StreamServes(s: Session, disk: Disk, f: FState, drained: seq<IoEvent>)
    requires StreamInv(s, disk, f, drained)
    ensures ServedInv(s, disk, f.past.served.value, ReadLog(f.past.submitted))
  {
    hide ServesVerdict, BodyChunks, Expected, VerdictOf, Intended, InTransit, Outstanding, ReadLog, AllFit;
    var log := ReadLog(f.past.submitted);
    assert log != [] ==> log[0] < f.phase.s.issueCursor;
  }

  lemma SameTransitText(f: FState, g: FState, drained: seq<IoEvent>)
    requires g.mailbox == f.mailbox && g.past.dropped == f.past.dropped
    ensures InTransit(g, drained) == InTransit(f, drained)
    ensures g.ops == f.ops ==> Outstanding(g, drained) == Outstanding(f, drained)
  {
  }

  lemma FitsStill(st: Streaming, tt: Streaming, content: Bytes, ops: seq<Op>, evs: seq<IoEvent>)
    requires tt.chunks == st.chunks && tt.handle == st.handle && AllFit(st, content, ops, evs)
    ensures AllFit(tt, content, ops, evs)
  {
    hide Intended;
    forall i | 0 <= i < |ops| ensures OpFits(tt, ops[i]) { assert OpFits(st, ops[i]); }
    forall i | 0 <= i < |evs| ensures EvFits(tt, content, evs[i]) { assert EvFits(st, content, evs[i]); }
  }

  lemma SendMiddle(s: Session, disk: Disk, f: FState, drained: seq<IoEvent>)
    requires StreamInv(s, disk, f, drained) && NeverInert(f.past.submitted)
    requires f.phase.s.nextSend in f.phase.s.ready && f.phase.s.nextSend < |f.phase.s.chunks| - 1
    ensures StreamInv(s, disk, SentOne(f), drained) && NeverInert(SentOne(f).past.submitted)
  {
    var st, served := f.phase.s, f.past.served.value;
    var tt := Advanced(st);
    var out := Data(st.ready[st.nextSend], false);
    var g := f.(phase := StreamingPhase(tt));
    var h := g.(sent := g.sent + [out]);
    SentMiddle(s, disk, f, h, drained, tt);
    SendKeepsInv(s, disk, g, drained, out);
    SendKeepsReady(g, out);
    OnlyStreams(s, disk, Send(g, out), drained);
  }

  /** In the streaming phase the invariant can only be the streaming one. */
  lemma OnlyStreams(s: Session, disk: Disk, f: FState, drained: seq<IoEvent>)
    requires Inv(s, disk, f, drained) && f.phase.StreamingPhase?
    ensures StreamInv(s, disk, f, drained) && NeverInert(f.past.submitted)
  {
  }

  lemma SentMiddle(s: Session, disk: Disk, f: FState, h: FState, drained: seq<IoEvent>, tt: Streaming)
    requires StreamInv(s, disk, f, drained) && NeverInert(f.past.submitted)
    requires f.phase.s.nextSend in f.phase.s.ready && f.phase.s.nextSend < |f.phase.s.chunks| - 1
    requires tt == Advanced(f.phase.s)
    requires h == f.(phase := StreamingPhase(tt), sent := f.sent + [Data(f.phase.s.ready[f.phase.s.nextSend], false)])
    ensures Inv(s, disk, h, drained)
  {
    hide ServesVerdict, BodyChunks, Expected, VerdictOf, Intended, InTransit, Outstanding, ReadLog, LogBelow;
    var st, served := f.phase.s, f.past.served.value;
    SentOneMore(s, disk, served, st.chunks, f.sent, st.nextSend);
    WindowSend(st, served.content, served.seeded, s.config.maxInflightReads, Outstanding(f, drained));
    FitsStill(st, tt, served.content, f.ops, InTransit(f, drained));
    SameTransitText(f, h, drained);
    MakeStreamInv(s, disk, h, drained, tt);
  }

  /** The parts of the streaming invariant, put together. */
  lemma MakeStreamInv(s: Session, disk: Disk, g: FState, drained: seq<IoEvent>, st: Streaming)
    requires g.phase == StreamingPhase(st) && g.past.served.Some? && !g.past.readFailed && NeverInert(g.past.submitted)
    requires ServesVerdict(s, disk, g.past.served.value) && st.handle.content == g.past.served.value.content
    requires st.chunks == BodyChunks(g.past.served.value.plan.body, s.config.chunkSize)
    requires st.handle.id == 0 ==> |st.chunks| == 1 && 0 in st.ready
    requires AllFit(st, g.past.served.value.content, g.ops, InTransit(g, drained))
    requires Window(st, g.past.served.value.content, g.past.served.value.seeded, s.config.maxInflightReads,
               Outstanding(g, drained))
    requires LogBelow(ReadLog(g.past.submitted), st.issueCursor)
    requires SeedRead(st, g.past.served.value.seeded, ReadLog(g.past.submitted))
    requires st.nextSend + 1 <= |Expected(s, disk)| && g.sent == Expected(s, disk)[..st.nextSend + 1]
    ensures StreamInv(s, disk, g, drained) && Inv(s, disk, g, drained)
  {
    hide ServesVerdict, BodyChunks, AllFit, InTransit, Outstanding, LogBelow, ReadLog, Expected, NeverInert,
      ResolvingInv, DoneInv;
  }

  /** What the streaming invariant says about the cursors. */
  lemma Cursors(s: Session, disk: Disk, f: FState, drained: seq<IoEvent>)
    requires StreamInv(s, disk, f, drained)
    ensures f.phase.StreamingPhase?
    ensures var st := f.phase.s;
            st.nextSend < |st.chunks| && st.inflight <= s.config.maxInflightReads && st.issueCursor <= |st.chunks|
            && |f.sent| == st.nextSend + 1
    ensures f.phase.s.nextSend !in f.phase.s.ready ==> f.phase.s.handle.id != 0
    ensures NeverInert(f.past.submitted) ==> Inv(s, disk, f, drained)
  {
    hide ServesVerdict, BodyChunks, AllFit, InTransit, Outstanding, LogBelow, ReadLog, Expected, NeverInert,
      ResolvingInv, DoneInv;
  }

  predicate AtRealGap(f: FState) {
    f.phase.StreamingPhase? && f.phase.s.watermarkDepth == 0 && f.phase.s.nextSend !in f.phase.s.ready
  }

  lemma {:induction false} FlushInv(s: Session, disk: Disk, f: FState, drained: seq<IoEvent>)
    requires StreamInv(s, disk, f, drained) && NeverInert(f.past.submitted)
    ensures var o := Flush(f);
            && Inv(s, disk, o.state, drained)
            && (o.AtGap? ==> AtRealGap(o.state))
            && (o.Stopped? ==>
                o.state.phase.Done? || (o.state.phase.StreamingPhase? && o.state.phase.s.watermarkDepth > 0))
    decreases |f.phase.s.ready|
  {
    hide Inv, StreamInv, NeverInert, SentOne, SentAll, Flush;
    Cursors(s, disk, f, drained);
    var st := f.phase.s;
    FlushPass(f);
    if st.watermarkDepth == 0 && st.nextSend in st.ready {
      if st.nextSend == |st.chunks| - 1 {
        SendLast(s, disk, f, drained);
      } else {
        SendMiddle(s, disk, f, drained);
        FlushInv(s, disk, SentOne(f), drained);
      }
    }
  }

  // ------------------------------------------------------------------- issuing

  lemma LogOne(ops: seq<Op>, op: Op, n: nat)
    requires LogBelow(ReadLog(ops), n) && op.ReadOp? && op.seqNo == n
    ensures LogBelow(ReadLog(ops + [op]), n + 1)
    ensures ReadLog(ops + [op]) == ReadLog(ops) + [n]
  {
    assert (ops + [op])[..|ops|] == ops;
  }

  lemma LogWider(log: seq<nat>, n: nat)
    requires LogBelow(log, n)
    ensures LogBelow(log, n + 1)
  {
  }

  lemma SkipOne(s: Session, disk: Disk, f: FState, drained: seq<IoEvent>)
    requires StreamInv(s, disk, f, drained)
    requires var st := f.phase.s;
             && st.issueCursor < |st.chunks|
             && (st.issueCursor in st.ready || st.chunks[st.issueCursor].Inline?)
    requires f.phase.s.nextSend !in f.phase.s.ready
    ensures StreamInv(s, disk, Skipped(f), drained) && Skipped(f).past == f.past
  {
    hide ServesVerdict, BodyChunks, Expected, VerdictOf, Intended, InTransit, Outstanding, ReadLog, AllFit, LogBelow;
    var st, served := f.phase.s, f.past.served.value;
    var tt := st.(issueCursor := st.issueCursor + 1);
    var g := f.(phase := StreamingPhase(tt));
    WindowSkip(st, served.content, served.seeded, s.config.maxInflightReads, Outstanding(f, drained));
    SameTransitText(f, g, drained);
    FitsStill(st, tt, served.content, f.ops, InTransit(f, drained));
    LogWider(ReadLog(f.past.submitted), st.issueCursor);
    hide Window;
  }

  lemma IssueOne(s: Session, disk: Disk, f: FState, drained: seq<IoEvent>)
    requires StreamInv(s, disk, f, drained) && NeverInert(f.past.submitted)
    requires f.phase.s.handle.id != 0 && f.phase.s.inflight < s.config.maxInflightReads
    requires var st := f.phase.s;
             && st.issueCursor < |st.chunks| && st.issueCursor !in st.ready
             && st.chunks[st.issueCursor].File?
    ensures var st := f.phase.s;
            var g := Issued(f);
            StreamInv(s, disk, g, drained) && NeverInert(g.past.submitted)
  {
    hide ServesVerdict, BodyChunks, Expected, VerdictOf, Intended, InTransit, Outstanding, ReadLog, AllFit, LogBelow;
    var st, served := f.phase.s, f.past.served.value;
    var tt := st.(issueCursor := st.issueCursor + 1, inflight := st.inflight + 1);
    var op := NextRead(st);
    var g := Submit(f.(phase := StreamingPhase(tt)), op);
    WindowIssue(st, served.content, served.seeded, s.config.maxInflightReads, Outstanding(f, drained));
    SubmitDue(f, g, drained, op);
    FitsMore(st, tt, served.content, f.ops, InTransit(f, drained), op);
    LogOne(f.past.submitted, op, st.issueCursor);
    Cursors(s, disk, f, drained);
    MakeStreamInv(s, disk, g, drained, tt);
    hide Window, Outstanding;
  }

  lemma SubmitDue(f: FState, g: FState, drained: seq<IoEvent>, op: Op)
    requires g.mailbox == f.mailbox && g.past.dropped == f.past.dropped && g.ops == f.ops + [op]
    ensures InTransit(g, drained) == InTransit(f, drained)
    ensures Outstanding(g, drained) == Outstanding(f, drained) + OpRead(op)
  {
    SameTransitText(f, g, drained);
    OpReadsConcat(f.ops, [op]);
    OneOpRead(op);
    MoreDue(OpReads(f.ops), EvReads(InTransit(f, drained)), OpRead(op));
    hide OpReads, EvReads, InTransit, OpRead;
  }

  lemma FitsMore(st: Streaming, tt: Streaming, content: Bytes, ops: seq<Op>, evs: seq<IoEvent>, op: Op)
    requires tt.chunks == st.chunks && tt.handle == st.handle && AllFit(st, content, ops, evs) && OpFits(tt, op)
    ensures AllFit(tt, content, ops + [op], evs)
  {
    FitsStill(st, tt, content, ops, evs);
    hide Intended, OpFits, EvFits;
  }

  /** What issuing reads leaves alone. */
  predicate OnlyIssued(f: FState, g: FState)
    requires f.phase.StreamingPhase?
  {
    && g.phase.StreamingPhase?
    && g.phase.s == f.phase.s.(issueCursor := g.phase.s.issueCursor, inflight := g.phase.s.inflight)
    && g.wakeups == f.wakeups && g.uncommitted == f.uncommitted && g.mailbox == f.mailbox
    && g.past.completed == f.past.completed && g.past.dropped == f.past.dropped && g.sent == f.sent
  }

  lemma IssuesOnly(f: FState)
    requires f.phase.StreamingPhase? && f.phase.s.issueCursor < |f.phase.s.chunks|
    ensures OnlyIssued(f, Skipped(f)) && Skipped(f).phase.s.issueCursor == f.phase.s.issueCursor + 1
    ensures f.phase.s.chunks[f.phase.s.issueCursor].File? ==>
              OnlyIssued(f, Issued(f)) && Issued(f).phase.s.issueCursor == f.phase.s.issueCursor + 1
  {
  }

  lemma IssuesOnlyBoth(f: FState, g: FState, h: FState)
    requires f.phase.StreamingPhase? && OnlyIssued(f, g) && OnlyIssued(g, h)
    ensures OnlyIssued(f, h)
  {
  }

  lemma {:induction false} IssueInv(s: Session, disk: Disk, f: FState, drained: seq<IoEvent>)
    requires StreamInv(s, disk, f, drained) && NeverInert(f.past.submitted)
    requires f.phase.StreamingPhase? && f.phase.s.nextSend !in f.phase.s.ready
    ensures var g := Issue(f, s.config.maxInflightReads);
            && StreamInv(s, disk, g, drained) && NeverInert(g.past.submitted)
            && OnlyIssued(f, g)
            && !WantsMore(g.phase.s, s.config.maxInflightReads)
    decreases |f.phase.s.chunks| - f.phase.s.issueCursor
  {
    hide StreamInv, NeverInert, Skipped, Issued;
    if WantsMore(f.phase.s, s.config.maxInflightReads) {
      var next := IssueStep(s, disk, f, drained);
      IssueInv(s, disk, next, drained);
      IssuesOnlyBoth(f, next, Issue(next, s.config.maxInflightReads));
    }
  }

  lemma IssueStep(s: Session, disk: Disk, f: FState, drained: seq<IoEvent>) returns (next: FState)
    requires StreamInv(s, disk, f, drained) && NeverInert(f.past.submitted)
    requires f.phase.s.nextSend !in f.phase.s.ready && WantsMore(f.phase.s, s.config.maxInflightReads)
    ensures StreamInv(s, disk, next, drained) && NeverInert(next.past.submitted) && OnlyIssued(f, next)
    ensures next.phase.s.nextSend !in next.phase.s.ready
    ensures |next.phase.s.chunks| - next.phase.s.issueCursor < |f.phase.s.chunks| - f.phase.s.issueCursor
    ensures Issue(f, s.config.maxInflightReads) == Issue(next, s.config.maxInflightReads)
  {
    hide StreamInv, Inv, Skipped, Issued, NeverInert;
    Cursors(s, disk, f, drained);
    IssuesOnly(f);
    if SkipsNext(f.phase.s) {
      next := Skipped(f);
      SkipOne(s, disk, f, drained);
    } else {
      next := Issued(f);
      IssueOne(s, disk, f, drained);
    }
    SameChunks(f, next);
  }

  lemma SameChunks(f: FState, g: FState)
    requires f.phase.StreamingPhase? && OnlyIssued(f, g)
    ensures g.phase.s.chunks == f.phase.s.chunks && g.phase.s.ready == f.phase.s.ready
            && g.phase.s.nextSend == f.phase.s.nextSend
  {
  }

  lemma PumpInv(s: Session, disk: Disk, f: FState, drained: seq<IoEvent>)
    requires StreamInv(s, disk, f, drained) && NeverInert(f.past.submitted)
    ensures Inv(s, disk, Pump(s, f), drained)
  {
    FlushInv(s, disk, f, drained);
    var flushed := Flush(f);
    if flushed.AtGap? {
      OnlyStreams(s, disk, flushed.state, drained);
      IssueInv(s, disk, flushed.state, drained);
    }
    hide StreamInv, Flush;
  }

  // ------------------------------------------------------------------- reading

  lemma TakeRead(f: FState, ev: IoEvent, rest: seq<IoEvent>)
    ensures EvReads(InTransit(f, [ev] + rest)) == EvReads(InTransit(f, rest)) + EvRead(ev)
    ensures |InTransit(f, [ev] + rest)| == |InTransit(f, rest)| + 1
    ensures forall x :: x in InTransit(f, rest) ==> x in InTransit(f, [ev] + rest)
    ensures ev in InTransit(f, [ev] + rest)
  {
    var a, c := Pending(f.mailbox), f.past.dropped;
    assert InTransit(f, [ev] + rest) == (a + [ev]) + (rest + c);
    assert InTransit(f, rest) == a + (rest + c);
    EvReadsConcat(a + [ev], rest + c);
    EvReadsConcat(a, [ev]);
    EvReadsConcat(a, rest + c);
    OneEvRead(ev);
    MoreDue(EvReads(a), EvReads(rest + c), EvRead(ev));
  }

  lemma FitsFewer(st: Streaming, tt: Streaming, content: Bytes, ops: seq<Op>, was: seq<IoEvent>, now: seq<IoEvent>)
    requires tt.chunks == st.chunks && tt.handle == st.handle && AllFit(st, content, ops, was)
    requires forall x :: x in now ==> x in was
    ensures AllFit(tt, content, ops, now)
  {
    FitsStill(st, tt, content, ops, was);
    hide Intended, OpFits, EvFits;
    forall i | 0 <= i < |now| ensures EvFits(tt, content, now[i]) {
      assert now[i] in now;
      var j :| 0 <= j < |was| && was[j] == now[i];
    }
  }

  lemma FitsThis(st: Streaming, content: Bytes, ops: seq<Op>, evs: seq<IoEvent>, ev: IoEvent)
    requires AllFit(st, content, ops, evs) && ev in evs
    ensures EvFits(st, content, ev)
  {
    hide EvFits;
  }

  lemma ReadArrives(s: Session, disk: Disk, f: FState, ev: IoEvent, rest: seq<IoEvent>)
    requires StreamInv(s, disk, f, [ev] + rest) && ev.Read? && ev.result.Got?
    ensures StreamInv(s, disk, HandleRead(f, ev.seqNo, ev.result).state, rest)
    ensures !HandleRead(f, ev.seqNo, ev.result).ended
  {
    hide ServesVerdict, BodyChunks, Expected, VerdictOf, Intended, InTransit, OpReads, EvReads, ReadLog, AllFit,
      LogBelow;
    var st, served := f.phase.s, f.past.served.value;
    TakeRead(f, ev, rest);
    MoreDueLast(OpReads(f.ops), EvReads(InTransit(f, rest)), multiset{ev.seqNo});
    assert Outstanding(f, [ev] + rest) == Outstanding(f, rest) + multiset{ev.seqNo};
    FitsThis(st, served.content, f.ops, InTransit(f, [ev] + rest), ev);
    WindowArrive(st, served.content, served.seeded, s.config.maxInflightReads, Outstanding(f, rest), ev.seqNo,
        ev.result.bytes);
    var g := HandleRead(f, ev.seqNo, ev.result).state;
    SameTransitText(f, g, rest);
    FitsFewer(st, g.phase.s, served.content, f.ops, InTransit(f, [ev] + rest), InTransit(f, rest));
    hide Window, Outstanding;
  }

  lemma MoreDueLast(a: multiset<nat>, b: multiset<nat>, c: multiset<nat>)
    ensures a + (b + c) == (a + b) + c
  {
  }

  lemma ReadBreaks(s: Session, disk: Disk, f: FState, ev: IoEvent, rest: seq<IoEvent>)
    requires StreamInv(s, disk, f, [ev] + rest) && NeverInert(f.past.submitted) && ev.Read? && ev.result.ReadFails?
    ensures var o := HandleRead(f, ev.seqNo, ev.result); Inv(s, disk, o.state, rest) && o.ended && o.state.phase.Done?
  {
    hide ServesVerdict, BodyChunks, Expected, VerdictOf, Intended, InTransit, Outstanding, ReadLog, AllFit, Window;
    var st, served := f.phase.s, f.past.served.value;
    TakeRead(f, ev, rest);
    FitsFewer(st, st, served.content, f.ops, InTransit(f, [ev] + rest), InTransit(f, rest));
    AllReads(st, served.content, f, rest);
    Cursors(s, disk, f, [ev] + rest);
    SentOneMore(s, disk, served, st.chunks, f.sent, st.nextSend);
    var out := Data([], true);
    var g := f.(phase := Done, past := f.past.(readFailed := true));
    var h := g.(sent := g.sent + [out]);
    CutShort(f.sent, Expected(s, disk), st.nextSend + 1);
    SameTransitText(f, h, rest);
    StreamServes(s, disk, f, [ev] + rest);
    BrokenIsDone(s, disk, f, h, rest);
    SendKeepsInv(s, disk, g, rest, out);
    SendKeepsReady(g, out);
  }

  lemma CutShort(sent: seq<Sent>, expected: seq<Sent>, n: nat)
    requires 0 < n < |expected| && sent == expected[..n]
    ensures Truncated(sent + [Data([], true)], expected)
  {
    assert (sent + [Data([], true)])[..n] == sent;
  }

  lemma BrokenIsDone(s: Session, disk: Disk, f: FState, h: FState, rest: seq<IoEvent>)
    requires h.phase.Done? && h.past.readFailed && OnlyReads(f, rest) && InTransit(h, rest) == InTransit(f, rest)
             && h.ops == f.ops
    requires h.past.submitted == f.past.submitted && NeverInert(f.past.submitted)
    requires exists n :: LogBelow(ReadLog(f.past.submitted), n)
    requires h.past.served == f.past.served && f.past.served.Some?
             && ServedInv(s, disk, f.past.served.value, ReadLog(f.past.submitted))
    requires VerdictOf(s, disk).Serve? && Truncated(h.sent, Expected(s, disk))
    ensures Inv(s, disk, h, rest)
  {
    hide Expected, VerdictOf, InTransit, ReadLog, Truncated, ServedInv, ResolvingInv, StreamInv;
  }

  lemma DoneIgnores(s: Session, disk: Disk, f: FState, ev: IoEvent, rest: seq<IoEvent>)
    requires DoneInv(s, disk, f, [ev] + rest) && NeverInert(f.past.submitted)
    ensures ev.Read?
    ensures var o := HandleEvent(s, f, ev); Inv(s, disk, o.state, rest) && !o.ended
  {
    TakeRead(f, ev, rest);
    hide InTransit, Expected, VerdictOf, ReadLog, Truncated, ServedInv, ResolvingInv, StreamInv;
    var was, now := InTransit(f, [ev] + rest), InTransit(f, rest);
    forall i | 0 <= i < |now| ensures now[i].Read? {
      assert now[i] in now;
    }
  }

  lemma HandleEventInv(s: Session, disk: Disk, f: FState, ev: IoEvent, rest: seq<IoEvent>)
    requires Inv(s, disk, f, [ev] + rest)
    ensures var o := HandleEvent(s, f, ev); Inv(s, disk, o.state, rest) && (o.ended ==> o.state.phase.Done?)
  {
    if ResolvingInv(s, disk, f, [ev] + rest) {
      HandleControlInv(s, disk, f, ev, rest);
    } else if StreamInv(s, disk, f, [ev] + rest) {
      StreamsReads(s, disk, f, ev, rest);
      if ev.result.Got? {
        ReadArrives(s, disk, f, ev, rest);
      } else {
        ReadBreaks(s, disk, f, ev, rest);
      }
    } else {
      DoneIgnores(s, disk, f, ev, rest);
    }
    hide ResolvingInv, StreamInv, DoneInv, HandleOpened, HandleOpenError, HandleDir;
  }

  lemma StreamsReads(s: Session, disk: Disk, f: FState, ev: IoEvent, rest: seq<IoEvent>)
    requires StreamInv(s, disk, f, [ev] + rest)
    ensures ev.Read?
  {
    TakeRead(f, ev, rest);
    hide InTransit, Window, Expected, ServesVerdict;
    FitsThis(f.phase.s, f.past.served.value.content, f.ops, InTransit(f, [ev] + rest), ev);
  }

  lemma {:induction false} HandleEventsInv(s: Session, disk: Disk, f: FState, events: seq<IoEvent>)
    requires Inv(s, disk, f, events)
    ensures var o := HandleEvents(s, f, events); Inv(s, disk, o.state, []) && (o.ended ==> o.state.phase.Done?)
    decreases |events|
  {
    hide Inv, HandleEvent;
    if events != [] {
      var rest := events[1..];
      assert events == [events[0]] + rest;
      HandleEventInv(s, disk, f, events[0], rest);
      var o := HandleEvent(s, f, events[0]);
      if o.ended {
        Abandon(s, disk, o.state, rest);
      } else {
        HandleEventsInv(s, disk, o.state, rest);
      }
    }
  }

  lemma SwapEvents(a: seq<IoEvent>, b: seq<IoEvent>, c: seq<IoEvent>)
    ensures EvReads(a + (b + c)) == EvReads(a + (c + b))
    ensures forall x :: x in a + (c + b) ==> x in a + (b + c)
  {
    EvReadsConcat(a, b + c);
    EvReadsConcat(a, c + b);
    EvReadsConcat(b, c);
    EvReadsConcat(c, b);
    hide EvReads;
    assert EvReads(b + c) == EvReads(c + b);
  }

  lemma Abandon(s: Session, disk: Disk, f: FState, rest: seq<IoEvent>)
    requires Inv(s, disk, f, rest)
    ensures Inv(s, disk, f.(past := f.past.(dropped := f.past.dropped + rest)), [])
  {
    hide Inv;
    var g := f.(past := f.past.(dropped := f.past.dropped + rest));
    AbandonedTransit(f, rest);
    SameTransit(s, disk, f, g, rest, []);
  }

  lemma AbandonedTransit(f: FState, rest: seq<IoEvent>)
    ensures var g := f.(past := f.past.(dropped := f.past.dropped + rest));
            && EvReads(InTransit(g, [])) == EvReads(InTransit(f, rest))
            && |InTransit(g, [])| == |InTransit(f, rest)|
            && forall x :: x in InTransit(g, []) ==> x in InTransit(f, rest)
  {
    var g := f.(past := f.past.(dropped := f.past.dropped + rest));
    var a, c := Pending(f.mailbox), f.past.dropped;
    assert InTransit(f, rest) == a + (rest + c);
    assert InTransit(g, []) == a + (c + rest);
    SwapEvents(a, rest, c);
    hide EvReads, InTransit;
  }

  lemma OnScheduledInv(s: Session, disk: Disk, f: FState)
    requires Inv(s, disk, f, [])
    ensures Inv(s, disk, OnScheduled(s, f), [])
  {
    hide Inv, HandleEvents, Pump;
    var events := Pending(f.mailbox);
    var g := f.(mailbox := Open([]));
    assert InTransit(g, events) == InTransit(f, []);
    hide InTransit;
    SameTransit(s, disk, f, g, [], events);
    HandleEventsInv(s, disk, g, events);
    var o := HandleEvents(s, g, events);
    if !o.ended && o.state.phase.StreamingPhase? {
      OnlyStreams(s, disk, o.state, []);
      PumpInv(s, disk, o.state, []);
    }
  }

  // ------------------------------------------------------------------ the steps

  lemma PushedTransit(f: FState, ev: IoEvent)
    ensures var g := Push(f, ev);
            && EvReads(InTransit(g, [])) == EvReads(InTransit(f, [])) + EvRead(ev)
            && |InTransit(g, [])| == |InTransit(f, [])| + 1
            && (forall x :: x in InTransit(g, []) ==> x in InTransit(f, []) || x == ev)
            && (InTransit(f, []) == [] ==> InTransit(g, []) == [ev])
  {
    hide EvReads, EvRead;
    var g := Push(f, ev);
    var a, c := Pending(f.mailbox), f.past.dropped;
    assert InTransit(f, []) == a + c;
    OneMoreEvent(a, c, ev);
    if f.mailbox.Closed? {
      assert InTransit(g, []) == a + (c + [ev]);
    } else {
      assert InTransit(g, []) == (a + [ev]) + c;
    }
  }

  lemma OneMoreEvent(a: seq<IoEvent>, c: seq<IoEvent>, ev: IoEvent)
    ensures EvReads(a + (c + [ev])) == EvReads(a + c) + EvRead(ev)
    ensures EvReads((a + [ev]) + c) == EvReads(a + c) + EvRead(ev)
  {
    EvReadsConcat(a, c);
    OneEvRead(ev);
    EvReadsConcat(a, c + [ev]);
    EvReadsConcat(c, [ev]);
    EvReadsConcat(a + [ev], c);
    EvReadsConcat(a, [ev]);
    MoreDue(EvReads(a), EvReads(c), EvRead(ev));
    MoreDueLast(EvReads(a), EvReads(c), EvRead(ev));
    hide EvReads, EvRead;
  }

  lemma FinishResolving(s: Session, disk: Disk, f: FState, k: nat, ev: IoEvent)
    requires ResolvingInv(s, disk, f, []) && NeverInert(f.past.submitted)
    requires k < |f.ops| && Completes(disk, f.ops[k], ev)
    ensures Inv(s, disk, Push(f.(ops := RemoveAt(f.ops, k)), ev), [])
  {
    hide Completes, LeadsOn, Waiting, Push, RemoveAt, NeverInert, NoReads, StreamInv, DoneInv;
    var g := Push(f.(ops := RemoveAt(f.ops, k)), ev);
    PushKeeps(f, k, ev);
    FinishedWaits(disk, f, k, ev, f.past.submitted[|f.past.submitted| - 1]);
    assert ResolvingInv(s, disk, g, []);
  }

  lemma PushKeeps(f: FState, k: nat, ev: IoEvent)
    requires k < |f.ops|
    ensures var g := Push(f.(ops := RemoveAt(f.ops, k)), ev);
            g.phase == f.phase && g.sent == f.sent && g.ops == RemoveAt(f.ops, k)
              && g.past == f.past.(dropped := g.past.dropped)
  {
  }

  lemma FinishedWaits(disk: Disk, f: FState, k: nat, ev: IoEvent, op: Op)
    requires Waiting(disk, f, [], op) && k < |f.ops| && Completes(disk, f.ops[k], ev)
    ensures Waiting(disk, Push(f.(ops := RemoveAt(f.ops, k)), ev), [], op)
  {
    hide Completes;
    var h := f.(ops := RemoveAt(f.ops, k));
    assert k == 0 && f.ops == [op] && h.ops == [];
    SameTransitText(f, h, []);
    PushedTransit(h, ev);
    PushKeeps(f, k, ev);
    hide InTransit, Push;
  }

  lemma FinishStreaming(s: Session, disk: Disk, f: FState, k: nat, ev: IoEvent)
    requires StreamInv(s, disk, f, []) && NeverInert(f.past.submitted)
    requires k < |f.ops| && Completes(disk, f.ops[k], ev)
    ensures Inv(s, disk, Push(f.(ops := RemoveAt(f.ops, k)), ev), [])
  {
    hide ServesVerdict, BodyChunks, Expected, VerdictOf, Intended, InTransit, OpReads, EvReads, ReadLog, LogBelow;
    var st, served := f.phase.s, f.past.served.value;
    var h := f.(ops := RemoveAt(f.ops, k));
    var g := Push(h, ev);
    CompletionFits(disk, st, served.content, f.ops, InTransit(f, []), k, ev);
    FinishedDue(f, k, ev);
    SameTransitText(f, h, []);
    PushedTransit(h, ev);
    FitsFinished(st, served.content, f.ops, k, InTransit(f, []), InTransit(g, []), ev);
    Cursors(s, disk, f, []);
    MakeStreamInv(s, disk, g, [], st);
    hide Completes, Window, AllFit, Outstanding;
  }

  lemma CompletionFits(disk: Disk, st: Streaming, content: Bytes, ops: seq<Op>, evs: seq<IoEvent>, k: nat, ev: IoEvent)
    requires AllFit(st, content, ops, evs) && k < |ops| && Completes(disk, ops[k], ev) && st.handle.content == content
    ensures EvFits(st, content, ev) && EvRead(ev) == OpRead(ops[k])
  {
    assert OpFits(st, ops[k]);
  }

  lemma FinishedDue(f: FState, k: nat, ev: IoEvent)
    requires k < |f.ops| && EvRead(ev) == OpRead(f.ops[k])
    ensures Outstanding(Push(f.(ops := RemoveAt(f.ops, k)), ev), []) == Outstanding(f, [])
  {
    var h := f.(ops := RemoveAt(f.ops, k));
    SameTransitText(f, h, []);
    PushedTransit(h, ev);
    OpReadsRemove(f.ops, k);
    Moved(OpReads(h.ops), OpRead(f.ops[k]), EvReads(InTransit(f, [])));
    hide OpReads, EvReads, InTransit, OpRead, EvRead, RemoveAt;
  }

  lemma Moved(a: multiset<nat>, b: multiset<nat>, c: multiset<nat>)
    ensures (a + b) + c == a + (c + b)
  {
  }

  lemma FitsFinished(st: Streaming, content: Bytes, ops: seq<Op>, k: nat, was: seq<IoEvent>, now: seq<IoEvent>,
                     ev: IoEvent)
    requires k < |ops| && AllFit(st, content, ops, was) && EvFits(st, content, ev)
    requires forall x :: x in now ==> x in was || x == ev
    ensures AllFit(st, content, RemoveAt(ops, k), now)
  {
    hide EvFits, OpFits;
    forall i | 0 <= i < |now| ensures EvFits(st, content, now[i]) {
      assert now[i] in now;
    }
  }

  lemma FinishDone(s: Session, disk: Disk, f: FState, k: nat, ev: IoEvent)
    requires DoneInv(s, disk, f, []) && NeverInert(f.past.submitted)
    requires k < |f.ops| && Completes(disk, f.ops[k], ev)
    ensures Inv(s, disk, Push(f.(ops := RemoveAt(f.ops, k)), ev), [])
  {
    hide Expected, VerdictOf, ReadLog, InTransit;
    assert f.ops[k].ReadOp? && ev.Read?;
    hide Completes;
    var h := f.(ops := RemoveAt(f.ops, k));
    var g := Push(h, ev);
    SameTransitText(f, h, []);
    PushedTransit(h, ev);
    ReadsStill(f.ops, k, InTransit(f, []), InTransit(g, []), ev);
    assert DoneInv(s, disk, g, []);
  }

  lemma ReadsStill(ops: seq<Op>, k: nat, was: seq<IoEvent>, now: seq<IoEvent>, ev: IoEvent)
    requires k < |ops| && (forall i :: 0 <= i < |ops| ==> ops[i].ReadOp?)
             && (forall i :: 0 <= i < |was| ==> was[i].Read?)
    requires ev.Read? && forall x :: x in now ==> x in was || x == ev
    ensures forall i :: 0 <= i < |RemoveAt(ops, k)| ==> RemoveAt(ops, k)[i].ReadOp?
    ensures forall i :: 0 <= i < |now| ==> now[i].Read?
  {
    forall i | 0 <= i < |now| ensures now[i].Read? {
      assert now[i] in now;
    }
  }

  lemma ApplyInv(s: Session, disk: Disk, f: FState, l: Label)
    requires Inv(s, disk, f, []) && Enabled(disk, f, l)
    ensures Inv(s, disk, Apply(s, disk, f, l), [])
  {
    var g := Apply(s, disk, f, l);
    match l {
      case Finish(k, ev) =>
        if ResolvingInv(s, disk, f, []) {
          FinishResolving(s, disk, f, k, ev);
        } else if StreamInv(s, disk, f, []) {
          FinishStreaming(s, disk, f, k, ev);
        } else {
          FinishDone(s, disk, f, k, ev);
        }
      case Commit => SameTransit(s, disk, f, g, [], []);
      case Scheduled(script) =>
        var h := f.(wakeups := f.wakeups - 1, script := script);
        SameTransit(s, disk, f, h, [], []);
        OnScheduledInv(s, disk, h);
        SameTransit(s, disk, OnScheduled(s, h), g, [], []);
      case HighMark => HookKeepsInv(s, disk, f, [], High);
      case LowMark => HookKeepsInv(s, disk, f, [], Low);
      case StreamComplete => HookKeepsInv(s, disk, f, [], Complete);
    }
    hide ResolvingInv, StreamInv, DoneInv, OnScheduled;
  }

  lemma StartInv(s: Session, disk: Disk)
    ensures Inv(s, disk, Start(s), [])
  {
    var f := Fresh.(phase := ResolvingFile(BuildFileCandidates(s)));
    assert InTransit(f, []) == [];
    OpenNextCandidateInv(s, disk, f, []);
  }

  /** Every state of every run has the invariant. */
  lemma {:induction false} RunInv(s: Session, disk: Disk, labels: seq<Label>)
    requires Run(s, disk, Start(s), labels).Some?
    ensures Inv(s, disk, Run(s, disk, Start(s), labels).value, [])
  {
    hide Inv, Start, Apply, Enabled;
    if labels == [] {
      StartInv(s, disk);
    } else {
      var front := labels[..|labels| - 1];
      RunInv(s, disk, front);
      ApplyInv(s, disk, Run(s, disk, Start(s), front).value, labels[|labels| - 1]);
    }
  }
}

/** The inductive invariant of a stream, and that every step keeps it. */
module FilterInvariant {
  import opened Text
  import opened EventBridge
  import opened FilterModel
  import opened FilterRuns

  // ------------------------------------------------------- outstanding reads

  function OpRead(op: Op): multiset<nat> {
    if op.ReadOp? then multiset{op.seqNo} else multiset{}
  }

  function OpReads(ops: seq<Op>): multiset<nat> {
    if ops == [] then multiset{} else OpReads(ops[..|ops| - 1]) + OpRead(ops[|ops| - 1])
  }

  function EvRead(ev: IoEvent): multiset<nat> {
    if ev.Read? then multiset{ev.seqNo} else multiset{}
  }

  function EvReads(evs: seq<IoEvent>): multiset<nat> {
    if evs == [] then multiset{} else EvReads(evs[..|evs| - 1]) + EvRead(evs[|evs| - 1])
  }

  lemma {:induction false} OpReadsConcat(a: seq<Op>, b: seq<Op>)
    ensures OpReads(a + b) == OpReads(a) + OpReads(b)
  {
    if b == [] {
      assert a + b == a;
    } else {
      assert (a + b)[..|a + b| - 1] == a + b[..|b| - 1];
      OpReadsConcat(a, b[..|b| - 1]);
    }
  }

  lemma {:induction false} EvReadsConcat(a: seq<IoEvent>, b: seq<IoEvent>)
    ensures EvReads(a + b) == EvReads(a) + EvReads(b)
  {
    if b == [] {
      assert a + b == a;
    } else {
      assert (a + b)[..|a + b| - 1] == a + b[..|b| - 1];
      EvReadsConcat(a, b[..|b| - 1]);
    }
  }

  lemma OneOpRead(op: Op)
    ensures OpReads([op]) == OpRead(op)
  {
    assert [op][..0] == [];
  }

  lemma OneEvRead(ev: IoEvent)
    ensures EvReads([ev]) == EvRead(ev)
  {
    assert [ev][..0] == [];
  }

  lemma OpReadsRemove(ops: seq<Op>, k: nat)
    requires k < |ops|
    ensures OpReads(ops) == OpReads(RemoveAt(ops, k)) + OpRead(ops[k])
  {
    hide OpReads;
    var a, b, c := ops[..k], [ops[k]], ops[k + 1..];
    assert ops == (a + b) + c;
    OpReadsOf3(a, b, c);
    OneOpRead(ops[k]);
  }

  lemma OpReadsOf3(a: seq<Op>, b: seq<Op>, c: seq<Op>)
    ensures OpReads(a + b + c) == OpReads(a + c) + OpReads(b)
  {
    OpReadsConcat(a + b, c);
    OpReadsConcat(a, b);
    OpReadsConcat(a, c);
    hide OpReads;
    MoreDue(OpReads(a), OpReads(c), OpReads(b));
  }

  lemma MoreDue(a: multiset<nat>, b: multiset<nat>, c: multiset<nat>)
    ensures (a + c) + b == (a + b) + c
  {
  }

  /** Completions the worker has not handled: waiting in the mailbox, taken out
      but not handled yet, or thrown away. */
  function InTransit(f: FState, drained: seq<IoEvent>): seq<IoEvent> {
    Pending(f.mailbox) + drained + f.past.dropped
  }

  /** Reads issued and not handled. */
  function Outstanding(f: FState, drained: seq<IoEvent>): multiset<nat> {
    OpReads(f.ops) + EvReads(InTransit(f, drained))
  }

  /** The chunk numbers submitted to the engine, in order. */
  function ReadLog(ops: seq<Op>): seq<nat> {
    if ops == [] then []
    else if ops[|ops| - 1].ReadOp? then ReadLog(ops[..|ops| - 1]) + [ops[|ops| - 1].seqNo]
    else ReadLog(ops[..|ops| - 1])
  }

  predicate NoReads(ops: seq<Op>) {
    forall i :: 0 <= i < |ops| ==> !ops[i].ReadOp?
  }

  /** No chunk is asked for twice. */
  predicate LogBelow(log: seq<nat>, n: nat) {
    (forall i, j :: 0 <= i < j < |log| ==> log[i] < log[j]) && (forall i :: 0 <= i < |log| ==> log[i] < n)
  }

  predicate LogAscends(log: seq<nat>) {
    forall i, j :: 0 <= i < j < |log| ==> log[i] < log[j]
  }

  /** No read goes to a file the engine has closed. */
  predicate NeverInert(ops: seq<Op>) {
    forall i :: 0 <= i < |ops| && ops[i].ReadOp? ==> ops[i].handle.id != 0
  }

  // ---------------------------------------------------------- the invariant

  predicate OnlyReads(f: FState, drained: seq<IoEvent>) {
    && (forall i :: 0 <= i < |f.ops| ==> f.ops[i].ReadOp?)
    && (forall i :: 0 <= i < |InTransit(f, drained)| ==> InTransit(f, drained)[i].Read?)
  }

  /** Exactly one control operation is under way: `op`. */
  predicate Waiting(disk: Disk, f: FState, drained: seq<IoEvent>, op: Op) {
    var evs := InTransit(f, drained);
    || (f.ops == [op] && evs == [])
    || (f.ops == [] && |evs| == 1 && Completes(disk, op, evs[0]))
  }

  function PrefetchLen(s: Session): nat {
    if !s.request.methodHead && s.request.rangeHeader.None? then s.config.chunkSize else 0
  }

  predicate Resolving(p: Phase) {
    p.ResolvingFile? || p.ResolvingIndex?
  }

  /** The operation under way still leads to the verdict of the whole request. */
  predicate LeadsOn(s: Session, disk: Disk, p: Phase, op: Op) {
    var v := VerdictOf(s, disk);
    match op
    case ReadDirOp(path) => path == DirPath(s) && v == ListDir
    case ReadOp(_, _, _, _) => false
    case OpenOp(path, ctx, prefetchLen) =>
      prefetchLen == PrefetchLen(s) &&
      match p
      case ResolvingFile(pending) =>
        FileVerdict(s, disk, [Candidate(path, ctx.encoding, ctx.contentType, ctx.addVary)] + pending) == v
      case ResolvingIndex(dirFs, entries) =>
        && dirFs == DirPath(s) && ctx == IndexCtx(ctx.contentType)
        && IndexVerdict(s, disk, [(path, ctx.contentType)] + entries) == v
        && DirectoryVerdict(s, disk) == v && !Redirects(s) && s.config.directory != DenyMode
      case _ => false
  }

  /** Nothing has been sent, submitted reads or decided yet. */
  predicate Untouched(f: FState) {
    f.sent == [] && f.past.served.None? && !f.past.readFailed && NoReads(f.past.submitted)
  }

  predicate ResolvingInv(s: Session, disk: Disk, f: FState, drained: seq<IoEvent>) {
    && Resolving(f.phase) && Untouched(f)
    && f.past.submitted != []
    && Waiting(disk, f, drained, f.past.submitted[|f.past.submitted| - 1])
    && LeadsOn(s, disk, f.phase, f.past.submitted[|f.past.submitted| - 1])
  }

  /** The plan the stream is carrying out is the one its verdict calls for; only
      an open that asked for the first chunk seeds it. */
  predicate ServesVerdict(s: Session, disk: Disk, served: Served) {
    var v := VerdictOf(s, disk);
    && v.Serve?
    && disk.open(v.path).Regular?
    && disk.open(v.path).content == served.content
    && served.plan == PlanFor(s, v.ctx, StatOf(disk.open(v.path)))
    && (served.seeded ==> PrefetchLen(s) > 0)
  }

  /** A chunk the issue loop never has to read. */
  predicate Given(chunks: seq<Chunk>, seeded: bool, i: nat) {
    i < |chunks| && (chunks[i].Inline? || (i == 0 && seeded))
  }

  /** The window: which chunks are sent, ready, being read, or still to come. */
  ghost predicate Window(st: Streaming, content: Bytes, seeded: bool, max: nat, due: multiset<nat>) {
    && st.nextSend < |st.chunks| && st.issueCursor <= |st.chunks|
    && st.inflight == |due| && st.inflight <= max
    && (forall i :: i in st.ready ==> i < |st.chunks| && st.ready[i] == Intended(st.chunks[i], content))
    && (forall i :: due[i] <= 1)
    && (forall i: nat :: due[i] > 0 ==> i < st.issueCursor && st.chunks[i].File?)
    && (forall i: nat :: st.nextSend <= i < st.issueCursor ==> (i in st.ready <==> due[i] == 0))
    && (forall i: nat :: st.nextSend <= i < |st.chunks| && st.issueCursor <= i ==>
        (i in st.ready <==> Given(st.chunks, seeded, i)))
    && (forall i: nat :: st.issueCursor <= i < st.nextSend ==> Given(st.chunks, seeded, i))
    && (forall i: nat :: i in st.ready ==> due[i] == 0)
    && (forall i: nat :: i < st.nextSend && (i in st.ready || due[i] > 0) ==> i == 0 && seeded && st.issueCursor > 0)
  }

  predicate OpFits(st: Streaming, op: Op) {
    && op.ReadOp? && op.seqNo < |st.chunks| && op.handle == st.handle
    && st.chunks[op.seqNo] == File(op.offset, op.len)
  }

  predicate EvFits(st: Streaming, content: Bytes, ev: IoEvent) {
    && ev.Read? && ev.seqNo < |st.chunks|
    && (ev.result.Got? ==> ev.result.bytes == Intended(st.chunks[ev.seqNo], content))
  }

  predicate AllFit(st: Streaming, content: Bytes, ops: seq<Op>, evs: seq<IoEvent>) {
    && (forall i :: 0 <= i < |ops| ==> OpFits(st, ops[i]))
    && (forall i :: 0 <= i < |evs| ==> EvFits(st, content, evs[i]))
  }

  /** A chunk 0 that came with the open is read again once the issue cursor has
      passed it: it has left `ready` by then. */
  predicate SeedRead(st: Streaming, seeded: bool, log: seq<nat>) {
    seeded ==> st.chunks != [] && st.chunks[0].File? && (st.issueCursor > 0 ==> 0 in log && st.nextSend > 0)
  }

  ghost predicate StreamInv(s: Session, disk: Disk, f: FState, drained: seq<IoEvent>) {
    && f.phase.StreamingPhase? && f.past.served.Some? && !f.past.readFailed
    && var st, served := f.phase.s, f.past.served.value;
       && ServesVerdict(s, disk, served)
       && st.chunks == BodyChunks(served.plan.body, s.config.chunkSize)
       && st.handle.content == served.content
       && (st.handle.id == 0 ==> |st.chunks| == 1 && 0 in st.ready)
       && AllFit(st, served.content, f.ops, InTransit(f, drained))
       && Window(st, served.content, served.seeded, s.config.maxInflightReads, Outstanding(f, drained))
       && LogBelow(ReadLog(f.past.submitted), st.issueCursor)
       && SeedRead(st, served.seeded, ReadLog(f.past.submitted))
       && st.nextSend + 1 <= |Expected(s, disk)| && f.sent == Expected(s, disk)[..st.nextSend + 1]
  }

  /** A read failed after the headers went out: a proper prefix, then the end. */
  predicate Truncated(sent: seq<Sent>, expected: seq<Sent>) {
    && 0 < |sent| - 1 < |expected|
    && sent == expected[..|sent| - 1] + [Data([], true)]
  }

  /** What stays true of the stream that was served; a chunk 0 that came with the
      open is read only when more chunks follow it. */
  predicate ServedInv(s: Session, disk: Disk, served: Served, log: seq<nat>) {
    ServesVerdict(s, disk, served)
    && (served.seeded && log != [] ==> |BodyChunks(served.plan.body, s.config.chunkSize)| > 1)
  }

  predicate DoneInv(s: Session, disk: Disk, f: FState, drained: seq<IoEvent>) {
    && f.phase.Done? && OnlyReads(f, drained)
    && VerdictOf(s, disk) != Loops
    && LogAscends(ReadLog(f.past.submitted))
    && (f.past.served.Some? ==> ServedInv(s, disk, f.past.served.value, ReadLog(f.past.submitted)))
    && if f.past.readFailed then Truncated(f.sent, Expected(s, disk)) else f.sent == Expected(s, disk)
  }

  ghost predicate Inv(s: Session, disk: Disk, f: FState, drained: seq<IoEvent>) {
    && NeverInert(f.past.submitted)
    && (ResolvingInv(s, disk, f, drained) || StreamInv(s, disk, f, drained) || DoneInv(s, disk, f, drained))
  }

  // ---------------------------------------------------------------- hooks

  /** Which completions are in transit, apart from where they are. */
  lemma TransitShift(a: seq<IoEvent>, b: seq<IoEvent>, c: seq<IoEvent>)
    ensures EvReads(a + b + c) == EvReads([] + b + (c + a))
    ensures |a + b + c| == |[] + b + (c + a)|
    ensures forall ev :: ev in [] + b + (c + a) <==> ev in a + b + c
  {
    EvReadsConcat(a + b, c);
    EvReadsConcat(a, b);
    EvReadsConcat([] + b, c + a);
    EvReadsConcat(c, a);
    assert [] + b == b;
  }

  lemma CompleteKeepsInv(s: Session, disk: Disk, f: FState, drained: seq<IoEvent>)
    requires Inv(s, disk, f, drained)
    ensures Inv(s, disk, OnStreamComplete(f), drained)
  {
    var g := OnStreamComplete(f);
    TransitShift(Pending(f.mailbox), drained, f.past.dropped);
    var was, now := InTransit(f, drained), InTransit(g, drained);
    assert now == [] + drained + (f.past.dropped + Pending(f.mailbox));
    SameTransit(s, disk, f, g, drained, drained);
  }

  /** The invariant does not see where a completion in transit is, nor the
      watermark depth, nor wake-ups. */
  lemma SameTransit(s: Session, disk: Disk, f: FState, g: FState, drainedF: seq<IoEvent>, drainedG: seq<IoEvent>)
    requires Inv(s, disk, f, drainedF)
    requires g.phase == f.phase || (f.phase.StreamingPhase? && g.phase.StreamingPhase?
             && g.phase.s == f.phase.s.(watermarkDepth := g.phase.s.watermarkDepth))
    requires g.sent == f.sent && g.ops == f.ops
    requires g.past.submitted == f.past.submitted && g.past.served == f.past.served
             && g.past.readFailed == f.past.readFailed
    requires EvReads(InTransit(g, drainedG)) == EvReads(InTransit(f, drainedF))
    requires |InTransit(g, drainedG)| == |InTransit(f, drainedF)|
    requires forall ev :: ev in InTransit(g, drainedG) ==> ev in InTransit(f, drainedF)
    ensures Inv(s, disk, g, drainedG)
  {
    var was, now := InTransit(f, drainedF), InTransit(g, drainedG);
    forall i | 0 <= i < |now| ensures now[i] in was {
      assert now[i] in now;
    }
    hide InTransit, EvReads, ResolvingInv, StreamInv, DoneInv;
    if ResolvingInv(s, disk, f, drainedF) {
      assert f.phase == g.phase by { PhaseOfResolving(s, disk, f, drainedF); }
      SameResolving(s, disk, f, g, drainedF, drainedG);
    } else if StreamInv(s, disk, f, drainedF) {
      PhaseOfStreaming(s, disk, f, drainedF);
      SameStreaming(s, disk, f, g, drainedF, drainedG);
    } else {
      assert f.phase == g.phase by { PhaseOfDone(s, disk, f, drainedF); }
      SameDone(s, disk, f, g, drainedF, drainedG);
    }
  }

  lemma PhaseOfResolving(s: Session, disk: Disk, f: FState, drained: seq<IoEvent>)
    requires ResolvingInv(s, disk, f, drained)
    ensures Resolving(f.phase)
  {
  }

  lemma PhaseOfStreaming(s: Session, disk: Disk, f: FState, drained: seq<IoEvent>)
    requires StreamInv(s, disk, f, drained)
    ensures f.phase.StreamingPhase?
  {
  }

  lemma PhaseOfDone(s: Session, disk: Disk, f: FState, drained: seq<IoEvent>)
    requires DoneInv(s, disk, f, drained)
    ensures f.phase.Done?
  {
  }

  lemma SameDone(s: Session, disk: Disk, f: FState, g: FState, drainedF: seq<IoEvent>, drainedG: seq<IoEvent>)
    requires DoneInv(s, disk, f, drainedF)
    requires g.phase == f.phase && g.sent == f.sent && g.ops == f.ops
    requires g.past.submitted == f.past.submitted && g.past.served == f.past.served
             && g.past.readFailed == f.past.readFailed
    requires forall i :: 0 <= i < |InTransit(g, drainedG)| ==> InTransit(g, drainedG)[i] in InTransit(f, drainedF)
    ensures DoneInv(s, disk, g, drainedG)
  {
    hide InTransit, VerdictOf, Expected, ReadLog, ServedInv;
    var was, now := InTransit(f, drainedF), InTransit(g, drainedG);
    forall i | 0 <= i < |now| ensures now[i].Read? {
      var j :| 0 <= j < |was| && was[j] == now[i];
    }
  }

  lemma SameStreaming(s: Session, disk: Disk, f: FState, g: FState, drainedF: seq<IoEvent>, drainedG: seq<IoEvent>)
    requires StreamInv(s, disk, f, drainedF)
    requires g.phase.StreamingPhase? && g.phase.s == f.phase.s.(watermarkDepth := g.phase.s.watermarkDepth)
    requires g.sent == f.sent && g.ops == f.ops
    requires g.past.submitted == f.past.submitted && g.past.served == f.past.served
             && g.past.readFailed == f.past.readFailed
    requires EvReads(InTransit(g, drainedG)) == EvReads(InTransit(f, drainedF))
    requires forall i :: 0 <= i < |InTransit(g, drainedG)| ==> InTransit(g, drainedG)[i] in InTransit(f, drainedF)
    ensures StreamInv(s, disk, g, drainedG)
  {
    hide InTransit, EvReads, OpReads, ReadLog, ServesVerdict, Expected, BodyChunks, LogBelow, Window, AllFit;
    SameWindow(f.phase.s, g.phase.s, f.past.served.value, s.config.maxInflightReads, Outstanding(f, drainedF), f.ops,
      InTransit(f, drainedF), InTransit(g, drainedG));
  }

  lemma SameResolving(s: Session, disk: Disk, f: FState, g: FState, drainedF: seq<IoEvent>, drainedG: seq<IoEvent>)
    requires ResolvingInv(s, disk, f, drainedF)
    requires g.phase == f.phase && g.sent == f.sent && g.ops == f.ops
    requires g.past.submitted == f.past.submitted && g.past.served == f.past.served
             && g.past.readFailed == f.past.readFailed
    requires |InTransit(g, drainedG)| == |InTransit(f, drainedF)|
    requires forall i :: 0 <= i < |InTransit(g, drainedG)| ==> InTransit(g, drainedG)[i] in InTransit(f, drainedF)
    ensures ResolvingInv(s, disk, g, drainedG)
  {
    hide InTransit, Completes, LeadsOn;
  }

  lemma SameWindow(st: Streaming, tt: Streaming, served: Served, max: nat, due: multiset<nat>,
                   ops: seq<Op>, was: seq<IoEvent>, now: seq<IoEvent>)
    requires tt == st.(watermarkDepth := tt.watermarkDepth)
    requires forall i :: 0 <= i < |now| ==> now[i] in was
    requires Window(st, served.content, served.seeded, max, due)
    requires AllFit(st, served.content, ops, was)
    ensures Window(tt, served.content, served.seeded, max, due)
    ensures AllFit(tt, served.content, ops, now)
  {
    hide Intended;
    forall i | 0 <= i < |now| ensures EvFits(tt, served.content, now[i]) {
      var j :| 0 <= j < |was| && was[j] == now[i];
      assert EvFits(st, served.content, was[j]);
    }
    forall i | 0 <= i < |ops| ensures OpFits(tt, ops[i]) {
      assert OpFits(st, ops[i]);
    }
  }

  lemma HookKeepsInv(s: Session, disk: Disk, f: FState, drained: seq<IoEvent>, h: Hook)
    requires Inv(s, disk, f, drained)
    ensures Inv(s, disk, RunHook(f, h), drained)
  {
    if h.Complete? {
      CompleteKeepsInv(s, disk, f, drained);
    } else {
      var g := RunHook(f, h);
      assert InTransit(g, drained) == InTransit(f, drained);
      SameTransit(s, disk, f, g, drained, drained);
    }
  }

  lemma {:induction false} HooksKeepInv(s: Session, disk: Disk, f: FState, drained: seq<IoEvent>, hooks: seq<Hook>)
    requires Inv(s, disk, f, drained)
    ensures Inv(s, disk, RunHooks(f, hooks), drained)
  {
    if hooks != [] {
      HooksKeepInv(s, disk, f, drained, hooks[..|hooks| - 1]);
      HookKeepsInv(s, disk, RunHooks(f, hooks[..|hooks| - 1]), drained, hooks[|hooks| - 1]);
    }
  }

  /** A send keeps the invariant when the state just after it, before the hooks
      Envoy runs inside it, has it. */
  lemma SendKeepsInv(s: Session, disk: Disk, f: FState, drained: seq<IoEvent>, out: Sent)
    requires Inv(s, disk, f.(sent := f.sent + [out]), drained)
    ensures Inv(s, disk, Send(f, out), drained)
  {
    var g := f.(sent := f.sent + [out]);
    if g.script != [] {
      var h := g.(script := g.script[1..]);
      assert InTransit(h, drained) == InTransit(g, drained);
      SameTransit(s, disk, g, h, drained, drained);
      HooksKeepInv(s, disk, h, drained, g.script[0]);
    }
  }
}

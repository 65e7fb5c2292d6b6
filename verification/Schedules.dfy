/** Schedules built step by step: what one more completion, a pause, and the
    opening of a file do to a stream.  The memory and read witnesses are runs put
    together from these. */
module Schedules {
  import opened Text
  import opened EventBridge
  import opened Validators
  import opened FilterModel
  import opened FilterRuns
  import opened FilterInvariant
  import opened FilterResolve
  import opened FilterStream
  import opened WindowBound
  import Itinerary
  import ResolverSpec
  import RP = ResponsePlan

  predicate HasRead(ops: seq<Op>, n: nat) {
    exists i :: 0 <= i < |ops| && ops[i].ReadOp? && ops[i].seqNo == n
  }

  /** A stream between callbacks, with nothing on its way back from the engine. */
  predicate Quiet(f: FState) {
    && f.phase.StreamingPhase?
    && f.mailbox == Open([]) && f.uncommitted == 0 && f.wakeups == 0 && f.script == []
    && f.past.dropped == [] && !f.past.completed
  }

  // ------------------------------------------------------------------ one drain

  lemma {:induction false} IssueAppends(f: FState, max: nat)
    requires f.phase.StreamingPhase?
    ensures |f.ops| <= |Issue(f, max).ops| && Issue(f, max).ops[..|f.ops|] == f.ops
    ensures Issue(f, max).script == f.script && Issue(f, max).past.served == f.past.served
    ensures OnlyIssued(f, Issue(f, max))
    decreases |f.phase.s.chunks| - f.phase.s.issueCursor
  {
    if WantsMore(f.phase.s, max) {
      var g := if SkipsNext(f.phase.s) then Skipped(f) else Issued(f);
      IssueAppends(g, max);
      assert g.ops[..|f.ops|] == f.ops;
    }
  }

  lemma StillHas(a: seq<Op>, b: seq<Op>, n: nat)
    requires |a| <= |b| && b[..|a|] == a && HasRead(a, n)
    ensures HasRead(b, n)
  {
    var i :| 0 <= i < |a| && a[i].ReadOp? && a[i].seqNo == n;
    assert b[i] == a[i];
  }

  function Arrived(f: FState, ev: IoEvent): FState
    requires ev.Read?
  {
    HandleRead(f.(mailbox := Open([])), ev.seqNo, ev.result).state
  }

  lemma DrainSteps(s: Session, f: FState, ev: IoEvent)
    requires f.phase.StreamingPhase? && f.mailbox == Open([ev]) && ev.Read? && ev.result.Got?
    ensures OnScheduled(s, f) == Pump(s, Arrived(f, ev))
    ensures Arrived(f, ev).phase.StreamingPhase?
  {
    var h := f.(mailbox := Open([]));
    var o := HandleEvent(s, h, ev);
    assert o == HandleRead(h, ev.seqNo, ev.result);
    assert [ev][1..] == [];
    hide Pump, HandleEvent;
    assert HandleEvents(s, o.state, []) == Outcome(o.state, false);
    assert HandleEvents(s, h, [ev]) == HandleEvents(s, o.state, [ev][1..]);
  }

  lemma PumpAtGap(s: Session, f: FState)
    requires f.phase.StreamingPhase? && f.phase.s.watermarkDepth == 0 && f.phase.s.nextSend !in f.phase.s.ready
    ensures Pump(s, f) == Issue(f, s.config.maxInflightReads)
  {
    assert Flush(f) == AtGap(f);
    hide Flush, Issue;
  }

  lemma PumpPaused(s: Session, f: FState)
    requires f.phase.StreamingPhase? && f.phase.s.watermarkDepth > 0
    ensures Pump(s, f) == f
  {
    assert Flush(f) == Stopped(f);
    hide Flush, Issue;
  }

  /** The stream does not send when it drains: it is paused, or the next chunk is
      still missing. */
  predicate HeldBack(st: Streaming, arriving: nat) {
    st.watermarkDepth > 0 || (st.nextSend !in st.ready && arriving != st.nextSend)
  }

  /** What such a drain does with the read it brings. */
  predicate Took(f: FState, g: FState, ev: IoEvent)
    requires f.phase.StreamingPhase? && ev.Read? && ev.result.Got?
  {
    && g.phase.StreamingPhase?
    && var st, tt := f.phase.s, g.phase.s;
       && tt.ready == st.ready[ev.seqNo := ev.result.bytes]
       && tt.chunks == st.chunks && tt.nextSend == st.nextSend && tt.watermarkDepth == st.watermarkDepth
       && g.mailbox == Open([]) && g.uncommitted == f.uncommitted && g.wakeups == f.wakeups && g.script == []
       && g.past.dropped == f.past.dropped && g.past.completed == f.past.completed && g.past.served == f.past.served
       && |f.ops| <= |g.ops| && g.ops[..|f.ops|] == f.ops
       && (st.watermarkDepth > 0 ==> g.ops == f.ops && tt.issueCursor == st.issueCursor)
  }

  lemma DrainTakes(s: Session, f: FState, ev: IoEvent)
    requires f.phase.StreamingPhase? && f.mailbox == Open([ev]) && f.script == []
    requires ev.Read? && ev.result.Got? && HeldBack(f.phase.s, ev.seqNo)
    ensures Took(f, OnScheduled(s, f), ev)
  {
    hide OnScheduled, Pump, Issue;
    DrainSteps(s, f, ev);
    var h := Arrived(f, ev);
    if f.phase.s.watermarkDepth > 0 {
      PumpPaused(s, h);
    } else {
      PumpAtGap(s, h);
      IssueAppends(h, s.config.maxInflightReads);
    }
  }

  // ------------------------------------------------------------------ one round

  /** A read that is outstanding has not arrived. */
  lemma NotYetReady(s: Session, disk: Disk, f: FState, i: nat)
    requires Inv(s, disk, f, []) && f.phase.StreamingPhase? && i < |f.ops|
    ensures f.ops[i].ReadOp? && f.ops[i].seqNo !in f.phase.s.ready
  {
    hide ServesVerdict, BodyChunks, AllFit, Outstanding, ReadLog, Expected, Intended, Inv, Window, LogBelow, SeedRead,
      NeverInert;
    OnlyStreams(s, disk, f, []);
    StreamOps(s, disk, f);
    ReadIsDue(f, i);
    var served := f.past.served.value;
    DueIsNotReady(f.phase.s, served.content, served.seeded, s.config.maxInflightReads, Outstanding(f, []),
        f.ops[i].seqNo);
  }

  lemma DueIsNotReady(st: Streaming, content: Bytes, seeded: bool, max: nat, due: multiset<nat>, n: nat)
    requires Window(st, content, seeded, max, due) && due[n] > 0
    ensures n !in st.ready
  {
    hide Intended, Given;
  }

  lemma ReadIsDue(f: FState, i: nat)
    requires i < |f.ops| && f.ops[i].ReadOp?
    ensures Outstanding(f, [])[f.ops[i].seqNo] > 0
  {
    OpReadsRemove(f.ops, i);
    hide OpReads, EvReads, InTransit, RemoveAt;
  }

  /** What a round leaves behind: the read's chunk is ready, and nothing was sent. */
  predicate Rounded(f: FState, g: FState, i: nat)
    requires f.phase.StreamingPhase? && i < |f.ops| && f.ops[i].ReadOp?
  {
    && g.phase.StreamingPhase?
    && var st, tt := f.phase.s, g.phase.s;
       && tt.ready.Keys == st.ready.Keys + {f.ops[i].seqNo} && |tt.ready| == |st.ready| + 1
       && tt.chunks == st.chunks && tt.nextSend == st.nextSend && tt.watermarkDepth == st.watermarkDepth
       && g.past.served == f.past.served
       && |f.ops| - 1 <= |g.ops| && g.ops[..|f.ops| - 1] == RemoveAt(f.ops, i)
       && (st.watermarkDepth > 0 ==> |g.ops| == |f.ops| - 1 && tt.issueCursor == st.issueCursor)
  }

  /** One round: a read completes, is committed, and is drained. */
  lemma Round(s: Session, disk: Disk, labels: seq<Label>, i: nat) returns (more: seq<Label>)
    requires Run(s, disk, Start(s), labels).Some?
    requires var f := EndOf(s, disk, labels);
             Quiet(f) && i < |f.ops| && f.ops[i].ReadOp? && HeldBack(f.phase.s, f.ops[i].seqNo)
    ensures Run(s, disk, Start(s), more).Some? && Quiet(EndOf(s, disk, more))
    ensures Rounded(EndOf(s, disk, labels), EndOf(s, disk, more), i)
    ensures NoneFails(labels) ==> NoneFails(more)
    ensures InIssueOrder(labels) && i == 0 ==> InIssueOrder(more)
  {
    hide Run, Start, Inv, OnScheduled, Apply, Enabled, Quiet, Rounded, HeldBack;
    var f := EndOf(s, disk, labels);
    RunInv(s, disk, labels);
    QuietStreams(f);
    NotYetReady(s, disk, f, i);
    var op := f.ops[i];
    var ev := Read(op.seqNo, Got(ReadSlice(op.handle.content, op.offset, op.len)));
    var waiting := f.(ops := RemoveAt(f.ops, i), mailbox := Open([ev]), wakeups := 1);
    FinishAndCommit(s, disk, f, i, ev, waiting);
    var finish := Finish(i, ev);
    more := labels + [finish] + [Commit] + [Scheduled([])];
    RunMore(s, disk, labels, finish);
    RunMore(s, disk, labels + [finish], Commit);
    RunMore(s, disk, labels + [finish] + [Commit], Scheduled([]));
    RoundEnds(s, f, waiting, i, ev);
  }

  lemma QuietStreams(f: FState)
    requires Quiet(f)
    ensures f.phase.StreamingPhase?
  {
  }

  lemma FinishAndCommit(s: Session, disk: Disk, f: FState, i: nat, ev: IoEvent, waiting: FState)
    requires Quiet(f) && i < |f.ops| && Completes(disk, f.ops[i], ev)
    requires waiting == f.(ops := RemoveAt(f.ops, i), mailbox := Open([ev]), wakeups := 1)
    ensures var finish := Finish(i, ev);
            && Enabled(disk, f, finish) && Enabled(disk, Apply(s, disk, f, finish), Commit)
            && Apply(s, disk, Apply(s, disk, f, finish), Commit) == waiting
            && Enabled(disk, waiting, Scheduled([]))
            && Apply(s, disk, waiting, Scheduled([]))
              == OnScheduled(s, waiting.(wakeups := 0, script := [])).(script := [])
  {
    hide Completes, OnScheduled;
    assert [] + [ev] == [ev];
  }

  lemma RoundEnds(s: Session, f: FState, waiting: FState, i: nat, ev: IoEvent)
    requires Quiet(f) && i < |f.ops| && ev.Read? && ev.result.Got? && HeldBack(f.phase.s, ev.seqNo)
    requires f.ops[i].ReadOp? && f.ops[i].seqNo == ev.seqNo && ev.seqNo !in f.phase.s.ready
    requires waiting == f.(ops := RemoveAt(f.ops, i), mailbox := Open([ev]), wakeups := 1)
    ensures var g := OnScheduled(s, waiting.(wakeups := 0, script := [])).(script := []);
            Quiet(g) && Rounded(f, g, i)
  {
    hide OnScheduled, RemoveAt;
    var h := waiting.(wakeups := 0, script := []);
    DrainTakes(s, h, ev);
    OneFewer(f.ops, i);
    OneMoreReady(f.phase.s.ready, ev.seqNo, ev.result.bytes);
  }

  lemma OneFewer(ops: seq<Op>, i: nat)
    requires i < |ops|
    ensures |RemoveAt(ops, i)| == |ops| - 1
  {
  }

  lemma OneMoreReady(ready: map<nat, Bytes>, k: nat, bytes: Bytes)
    requires k !in ready
    ensures ready[k := bytes].Keys == ready.Keys + {k} && |ready[k := bytes]| == |ready| + 1
  {
    assert ready[k := bytes].Keys == ready.Keys + {k};
  }

  lemma OtherStays(ops: seq<Op>, i: nat, n: nat)
    requires HasRead(ops, n) && i < |ops| && ops[i].ReadOp? && ops[i].seqNo != n
    ensures HasRead(RemoveAt(ops, i), n)
  {
    var k :| 0 <= k < |ops| && ops[k].ReadOp? && ops[k].seqNo == n;
    assert RemoveAt(ops, i)[if k < i then k else k - 1] == ops[k];
  }

  // -------------------------------------------------------------------- a pause

  /** A paused stream takes in everything that was asked for. */
  predicate Swallowed(f: FState, g: FState)
    requires f.phase.StreamingPhase?
  {
    && g.phase.StreamingPhase? && g.ops == []
    && var st, tt := f.phase.s, g.phase.s;
       && st.ready.Keys <= tt.ready.Keys && (forall i :: st.nextSend <= i < st.issueCursor ==> i in tt.ready)
       && tt.chunks == st.chunks && tt.nextSend == st.nextSend && tt.issueCursor == st.issueCursor
       && g.past.served == f.past.served
  }

  /** A high watermark, then the reads outstanding, in issue order. */
  lemma PauseAndDrain(s: Session, disk: Disk, labels: seq<Label>) returns (all: seq<Label>)
    requires Run(s, disk, Start(s), labels).Some? && Quiet(EndOf(s, disk, labels))
    ensures Run(s, disk, Start(s), all).Some? && Quiet(EndOf(s, disk, all))
    ensures Swallowed(EndOf(s, disk, labels), EndOf(s, disk, all))
    ensures NoneFails(labels) ==> NoneFails(all)
    ensures InIssueOrder(labels) ==> InIssueOrder(all)
  {
    hide Run, Start, Inv;
    RunMore(s, disk, labels, HighMark);
    all := DrainPaused(s, disk, labels + [HighMark]);
  }

  lemma {:induction false} DrainPaused(s: Session, disk: Disk, labels: seq<Label>) returns (all: seq<Label>)
    requires Run(s, disk, Start(s), labels).Some?
    requires var f := EndOf(s, disk, labels); Quiet(f) && f.phase.s.watermarkDepth > 0
    ensures Run(s, disk, Start(s), all).Some? && Quiet(EndOf(s, disk, all))
    ensures Swallowed(EndOf(s, disk, labels), EndOf(s, disk, all))
    ensures NoneFails(labels) ==> NoneFails(all)
    ensures InIssueOrder(labels) ==> InIssueOrder(all)
    decreases |EndOf(s, disk, labels).ops|
  {
    hide Run, Start, Inv, NoneFails, InIssueOrder;
    var f := EndOf(s, disk, labels);
    RunInv(s, disk, labels);
    if f.ops == [] {
      all := labels;
      NothingDue(s, disk, f);
    } else {
      NotYetReady(s, disk, f, 0);
      var more := Round(s, disk, labels, 0);
      all := DrainPaused(s, disk, more);
    }
  }

  lemma NothingDue(s: Session, disk: Disk, f: FState)
    requires Inv(s, disk, f, []) && Quiet(f) && f.ops == []
    ensures forall i :: f.phase.s.nextSend <= i < f.phase.s.issueCursor ==> i in f.phase.s.ready
  {
    OnlyStreams(s, disk, f, []);
    assert InTransit(f, []) == [];
    assert Outstanding(f, []) == multiset{};
    hide ServesVerdict, BodyChunks, AllFit, Outstanding, ReadLog, Expected, Intended, Inv;
  }

  // ------------------------------------------------------------- what is served

  predicate Serves(s: Session, disk: Disk) {
    VerdictOf(s, disk).Serve? && disk.open(VerdictOf(s, disk).path).Regular?
  }

  /** The file a request is answered with, and the chunks of the answer. */
  function ServedContent(s: Session, disk: Disk): FileBytes {
    if Serves(s, disk) then disk.open(VerdictOf(s, disk).path).content else []
  }

  function ServedBody(s: Session, disk: Disk): RP.BodyPlan {
    if Serves(s, disk) then
      var v := VerdictOf(s, disk);
      PlanFor(s, v.ctx, StatOf(disk.open(v.path))).body
    else RP.Empty
  }

  function ServedChunks(s: Session, disk: Disk): seq<Chunk> {
    BodyChunks(ServedBody(s, disk), s.config.chunkSize)
  }

  /** A GET without Range whose answer is a whole file of more than one chunk:
      the first chunk may come with the open, and others follow it. */
  predicate SeveralWhole(s: Session, disk: Disk) {
    s.request.rangeHeader.None? && ServedBody(s, disk).Whole? && |ServedContent(s, disk)| > s.config.chunkSize
  }

  lemma {:induction false} FileChunksCount(start: nat, len: nat, chunkSize: Positive)
    ensures AllFile(FileChunks(start, len, chunkSize))
    ensures |FileChunks(start, len, chunkSize)| * chunkSize >= len
    decreases len
  {
    if len > 0 {
      var here := Min(len, chunkSize);
      var rest := FileChunks(start + here, len - here, chunkSize);
      FileChunksCount(start + here, len - here, chunkSize);
      MoreTimes(|rest|, chunkSize);
    }
  }

  predicate AllFile(chunks: seq<Chunk>) {
    forall i :: 0 <= i < |chunks| ==> chunks[i].File?
  }

  lemma MoreTimes(n: nat, c: nat)
    ensures (n + 1) * c == n * c + c
  {
  }

  /** The chunks of a whole file. */
  lemma ChunksOfFile(len: nat, chunkSize: Positive)
    ensures var chunks := FileChunks(0, len, chunkSize);
            && AllFile(chunks) && (len > 0 <==> chunks != []) && (|chunks| > 1 <==> len > chunkSize)
            && (len > 0 ==> chunks[0] == File(0, Min(len, chunkSize)))
  {
    FileChunksCount(0, len, chunkSize);
    if len > 0 {
      var here := Min(len, chunkSize);
      assert FileChunks(0, len, chunkSize) == [File(0, here)] + FileChunks(here, len - here, chunkSize);
    }
  }

  /** Without a Range the answer is the whole file or no body; and only such an
      answer can be seeded. */
  lemma PlainServed(s: Session, disk: Disk)
    requires s.request.rangeHeader.None?
    ensures ServedBody(s, disk).Empty? || ServedBody(s, disk) == RP.Whole(|ServedContent(s, disk)|)
    ensures ServedBody(s, disk).Whole? ==> !s.request.methodHead
    ensures |ServedChunks(s, disk)| > 1 <==> SeveralWhole(s, disk)
    ensures SeveralWhole(s, disk) ==> AllFile(ServedChunks(s, disk)) && PrefetchLen(s) == s.config.chunkSize
  {
    hide VerdictOf, PlanFor, FileChunks;
    if Serves(s, disk) {
      var v := VerdictOf(s, disk);
      PlainBody(s, v.ctx, StatOf(disk.open(v.path)));
      if s.request.methodHead {
        HeadHasNoBody(s, v.ctx, StatOf(disk.open(v.path)));
      }
    }
    ChunksOfFile(|ServedContent(s, disk)|, s.config.chunkSize);
  }

  lemma HeadHasNoBody(s: Session, ctx: OpenCtx, stat: FileStat)
    requires s.request.methodHead
    ensures PlanFor(s, ctx, stat).body.Empty?
  {
    var facts, meta := Facts(s, ctx, stat), RP.FileMeta(stat.size, stat.mtimeUnix, stat.mtimeNanos);
    RP.HeadMirrorsGet(facts, meta);
    assert facts.(methodHead := true) == facts;
    hide RP.PlanResponse, Boundary;
  }

  // --------------------------------------------------------- up to the file's open

  /** A run that has just asked for the file it will serve. */
  lemma ToServed(s: Session, disk: Disk) returns (labels: seq<Label>)
    requires Serves(s, disk)
    ensures Run(s, disk, Start(s), labels).Some? && Itinerary.Smooth(labels)
    ensures var v, f := VerdictOf(s, disk), EndOf(s, disk, labels);
            Itinerary.Asking(f, OpenOp(v.path, v.ctx, PrefetchLen(s))) && Resolving(f.phase)
  {
    hide Run, Start, BuildFileCandidates, IndexEntries, VerdictOf, Itinerary.Smooth, Itinerary.Asking,
      ResolverSpec.Opens;
    var cs := BuildFileCandidates(s);
    if exists k :: 0 <= k < |cs| && ResolverSpec.Opens(disk, cs[k]) {
      var k := ResolverSpec.FirstOpen(disk, cs);
      ResolverSpec.FirstFileWins(s, disk);
      labels := Itinerary.ToCandidate(s, disk, k);
    } else {
      var k := ServedEntry(s, disk);
      labels := Itinerary.ToEntry(s, disk, k);
    }
  }

  /** With no file among the candidates, it is an index entry that is served. */
  lemma ServedEntry(s: Session, disk: Disk) returns (k: nat)
    requires VerdictOf(s, disk).Serve?
    requires forall i :: 0 <= i < |BuildFileCandidates(s)| ==> !ResolverSpec.Opens(disk, BuildFileCandidates(s)[i])
    ensures Itinerary.Reaches(s, disk, k)
    ensures VerdictOf(s, disk) == Serve(IndexEntries(s)[k].0, IndexCtx(IndexEntries(s)[k].1))
  {
    hide BuildFileCandidates, IndexEntries, VerdictOf, DirectoryVerdict;
    var es := IndexEntries(s);
    ResolverSpec.FirstFileWins(s, disk);
    ResolverSpec.VariantsFirst(s);
    assert VerdictOf(s, disk) == DirectoryVerdict(s, disk);
    ResolverSpec.DirectoryRules(s, disk);
    if exists i :: 0 <= i < |es| && !ResolverSpec.Misses(disk, es[i]) {
      k := ResolverSpec.FirstPresent(disk, es);
      assert Itinerary.NoFile(s, disk);
    }
    hide ResolverSpec.Misses;
  }

  // --------------------------------------------------------------- the first pump

  /** The ready chunks up to `q` are sent, and then there is a gap. */
  lemma {:induction false} FlushTo(f: FState, q: nat)
    requires f.phase.StreamingPhase? && f.script == [] && f.phase.s.watermarkDepth == 0
    requires f.phase.s.nextSend <= q < |f.phase.s.chunks| && q !in f.phase.s.ready
    requires forall i :: f.phase.s.nextSend <= i < q ==> i in f.phase.s.ready
    ensures var g := Flush(f).state;
            && Flush(f).AtGap? && g.phase.StreamingPhase? && g == f.(phase := g.phase, sent := g.sent)
            && g.phase.s == f.phase.s.(ready := g.phase.s.ready, nextSend := q)
            && (forall i :: i in g.phase.s.ready <==> i in f.phase.s.ready && !(f.phase.s.nextSend <= i < q))
    decreases q - f.phase.s.nextSend
  {
    FlushPass(f);
    hide Flush;
    if f.phase.s.nextSend < q {
      FlushTo(SentOne(f), q);
    }
  }

  /** With everything before it inline or ready, chunk `p` is the first read. */
  lemma {:induction false} IssuesFirst(f: FState, max: nat, p: nat)
    requires f.phase.StreamingPhase? && f.phase.s.inflight < max
    requires f.phase.s.issueCursor <= p < |f.phase.s.chunks| && p !in f.phase.s.ready && f.phase.s.chunks[p].File?
    requires forall i :: f.phase.s.issueCursor <= i < p ==> i in f.phase.s.ready || f.phase.s.chunks[i].Inline?
    ensures var ops := Issue(f, max).ops; |ops| > |f.ops| && ops[|f.ops|].ReadOp? && ops[|f.ops|].seqNo == p
    decreases p - f.phase.s.issueCursor
  {
    if f.phase.s.issueCursor < p {
      IssuesFirst(Skipped(f), max, p);
    } else {
      IssueAppends(Issued(f), max);
      assert Issued(f).ops[|f.ops|].seqNo == p;
      assert Issue(Issued(f), max).ops[..|f.ops| + 1][|f.ops|] == Issued(f).ops[|f.ops|];
    }
  }

  /** A stream that has just asked for its first chunk of the file, `p`; it has
      sent `q` chunks, and nothing but framing is ready. */
  predicate AskedFirst(g: FState, chunks: seq<Chunk>, seeded: bool, q: nat, p: nat) {
    && Quiet(g) && g.phase.s.watermarkDepth == 0 && g.phase.s.chunks == chunks
    && g.phase.s.nextSend == q && q !in g.phase.s.ready
    && (forall i :: i in g.phase.s.ready ==> i < |chunks| && chunks[i].Inline?)
    && g.ops != [] && g.ops[0].ReadOp? && g.ops[0].seqNo == p
    && g.past.served.Some? && g.past.served.value.seeded == seeded
  }

  lemma FirstPump(s: Session, f: FState, seeded: bool, q: nat, p: nat)
    requires f.phase.StreamingPhase? && p <= q < |f.phase.s.chunks|
    requires var st := f.phase.s;
             && st.nextSend == 0 && st.issueCursor == 0 && st.inflight == 0 && st.watermarkDepth == 0
             && q !in st.ready && st.chunks[p].File?
             && (forall i :: 0 <= i < q ==> i in st.ready)
             && (forall i :: i in st.ready && q <= i ==> i < |st.chunks| && st.chunks[i].Inline?)
             && (forall i :: 0 <= i < p ==> st.chunks[i].Inline?)
    requires f.mailbox == Open([]) && f.uncommitted == 0 && f.wakeups == 0 && f.script == [] && f.ops == []
    requires f.past.dropped == [] && !f.past.completed
    requires f.past.served.Some? && f.past.served.value.seeded == seeded
    ensures AskedFirst(Pump(s, f), f.phase.s.chunks, seeded, q, p)
  {
    FlushTo(f, q);
    var g, max := Flush(f).state, s.config.maxInflightReads;
    hide Flush, Issue;
    IssuesFirst(g, max, p);
    IssueAppends(g, max);
  }

  // --------------------------------------------------------------------- the open

  /** The first chunk of the file, if there is one. */
  predicate FirstFile(chunks: seq<Chunk>, p: nat) {
    p < |chunks| && chunks[p].File? && forall i :: 0 <= i < p ==> chunks[i].Inline?
  }

  /** The completion of the file's open, with its first chunk or without. */
  function ServedOpened(s: Session, disk: Disk, seeded: bool): IoEvent
    requires Serves(s, disk)
  {
    var v, content := VerdictOf(s, disk), ServedContent(s, disk);
    var prefetch := if seeded then content[..Min(s.config.chunkSize, |content|)] else [];
    Opened(FileHandle(1, content), StatOf(disk.open(v.path)), v.ctx, prefetch)
  }

  lemma OpenedCompletes(s: Session, disk: Disk, seeded: bool)
    requires Serves(s, disk) && ServedContent(s, disk) != [] && (seeded ==> SeveralWhole(s, disk))
    ensures var v := VerdictOf(s, disk);
            Completes(disk, OpenOp(v.path, v.ctx, PrefetchLen(s)), ServedOpened(s, disk, seeded))
  {
    if seeded {
      PlainServed(s, disk);
    }
    hide VerdictOf, ServedBody;
  }

  /** Opening the file of a body with a chunk of the file: the prefetch comes back
      empty, or with the first of several chunks. */
  lemma Begun(s: Session, disk: Disk, seeded: bool, p: nat) returns (labels: seq<Label>)
    requires FirstFile(ServedChunks(s, disk), p) && (seeded ==> SeveralWhole(s, disk))
    ensures Run(s, disk, Start(s), labels).Some? && Itinerary.Smooth(labels)
    ensures AskedFirst(EndOf(s, disk, labels), ServedChunks(s, disk), seeded, if seeded then 1 else p, p)
  {
    hide Run, Start, AskedFirst, OnScheduled, Inv, Completes, Itinerary.Asking, Itinerary.Smooth, VerdictOf,
      SeveralWhole;
    HasContent(s, disk);
    var asked := ToServed(s, disk);
    var v, ev := VerdictOf(s, disk), ServedOpened(s, disk, seeded);
    var op := OpenOp(v.path, v.ctx, PrefetchLen(s));
    OpenedCompletes(s, disk, seeded);
    labels := Itinerary.AskRound(s, disk, asked, op, ev);
    OpeningEnds(s, disk, EndOf(s, disk, asked), op, seeded, p);
  }

  lemma HasContent(s: Session, disk: Disk)
    requires ServedChunks(s, disk) != []
    ensures Serves(s, disk) && ServedContent(s, disk) != []
  {
    hide VerdictOf, PlanFor, BodyChunks;
    if Serves(s, disk) {
      if ServedContent(s, disk) == [] {
        var v := VerdictOf(s, disk);
        EmptyFileBody(s, v.ctx, StatOf(disk.open(v.path)));
      }
    } else {
      assert ServedBody(s, disk) == RP.Empty;
      NoChunksOfNothing(s.config.chunkSize);
    }
  }

  lemma NoChunksOfNothing(chunkSize: Positive)
    ensures BodyChunks(RP.Empty, chunkSize) == []
  {
  }

  lemma OpeningEnds(s: Session, disk: Disk, f: FState, op: Op, seeded: bool, p: nat)
    requires Itinerary.Asking(f, op) && Serves(s, disk)
    requires FirstFile(ServedChunks(s, disk), p) && (seeded ==> SeveralWhole(s, disk))
    ensures var g := OnScheduled(s, Itinerary.Woken(f, ServedOpened(s, disk, seeded)).(wakeups := 0)).(script := []);
            AskedFirst(g, ServedChunks(s, disk), seeded, if seeded then 1 else p, p)
  {
    hide HandleEvent, Pump, AskedFirst, VerdictOf, PlanFor, BodyChunks, SeveralWhole;
    var ev := ServedOpened(s, disk, seeded);
    var e := f.(ops := []);
    ServedBegins(s, disk, e, seeded, p);
    var o := HandleEvent(s, e, ev);
    assert [ev][1..] == [];
    assert HandleEvents(s, o.state, []) == Outcome(o.state, false);
    assert HandleEvents(s, e, [ev]) == HandleEvents(s, o.state, [ev][1..]);
    assert Itinerary.Woken(f, ev).(wakeups := 0, mailbox := Open([])) == e;
    FirstPump(s, o.state, seeded, if seeded then 1 else p, p);
    AskedScript(Pump(s, o.state), ServedChunks(s, disk), seeded, if seeded then 1 else p, p);
  }

  lemma AskedScript(g: FState, chunks: seq<Chunk>, seeded: bool, q: nat, p: nat)
    requires AskedFirst(g, chunks, seeded, q, p)
    ensures AskedFirst(g.(script := []), chunks, seeded, q, p)
  {
  }

  /** The stream as the open leaves it. */
  ghost predicate JustBegun(f: FState, g: FState, chunks: seq<Chunk>, seeded: bool) {
    && g.phase.StreamingPhase? && g == f.(phase := g.phase, sent := g.sent, past := f.past.(served := g.past.served))
    && g.past.served.Some? && g.past.served.value.seeded == seeded
    && var st := g.phase.s;
       && st.chunks == chunks && st.nextSend == 0 && st.issueCursor == 0 && st.inflight == 0 && st.watermarkDepth == 0
       && (forall i: nat :: i in st.ready <==> i < |chunks| && (chunks[i].Inline? || (i == 0 && seeded)))
  }

  lemma ServedBegins(s: Session, disk: Disk, f: FState, seeded: bool, p: nat)
    requires Serves(s, disk) && f.script == []
    requires FirstFile(ServedChunks(s, disk), p) && (seeded ==> SeveralWhole(s, disk))
    ensures seeded ==> p == 0 && |ServedChunks(s, disk)| > 1 && AllFile(ServedChunks(s, disk))
    ensures var o := HandleEvent(s, f, ServedOpened(s, disk, seeded));
            !o.ended && JustBegun(f, o.state, ServedChunks(s, disk), seeded)
  {
    var body, c := ServedBody(s, disk), s.config.chunkSize;
    FileChunksHaveBytes(body, c);
    NoChunksOfNothing(c);
    if seeded {
      PlainServed(s, disk);
      ChunksOfFile(|ServedContent(s, disk)|, c);
    }
    hide VerdictOf, PlanFor, BodyChunks, FileChunks, BeginStreaming, HandleDirectory, AdvanceAfterOpenMiss;
    var ev, v := ServedOpened(s, disk, seeded), VerdictOf(s, disk);
    var plan := PlanFor(s, v.ctx, StatOf(disk.open(v.path)));
    Begins(f, plan, ev.handle, ServedChunks(s, disk), if body.Whole? then ev.prefetch else [], seeded);
  }

  lemma Begins(f: FState, plan: RP.Plan, handle: FileHandle, chunks: seq<Chunk>, prefetch: Bytes, seeded: bool)
    requires f.script == [] && chunks != [] && Seeds(chunks, prefetch) == seeded
    ensures var o := BeginStreaming(f, plan, handle, chunks, prefetch);
            && !o.ended
            && JustBegun(f, o.state, chunks, seeded)
  {
    InlineReadyHolds(chunks);
    hide InlineReady;
  }
}

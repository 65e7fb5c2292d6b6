/** Which paths a request asks for: the candidates and then the index entries,
    each as long as the ones before it do not settle the matter. */
module Itinerary {
  import opened Text
  import opened EventBridge
  import opened FilterModel
  import opened FilterRuns
  import opened FilterInvariant
  import opened FilterResolve
  import opened FilterStream
  import opened ResolverSpec
  import FilterProgress
  import WindowBound

  // --------------------------------------------------------------- what is asked

  /** No candidate before the `i`th opens as a file. */
  predicate ComesTo(s: Session, disk: Disk, i: nat) {
    var cs := BuildFileCandidates(s);
    i < |cs| && forall j :: 0 <= j < i ==> !Opens(disk, cs[j])
  }

  predicate NoFile(s: Session, disk: Disk) {
    forall c :: c in BuildFileCandidates(s) ==> !Opens(disk, c)
  }

  /** The request ends at a directory whose index entries are tried. */
  predicate Enters(s: Session, disk: Disk) {
    && NoFile(s, disk)
    && IsDirectory(disk, DirPath(s)) && !Redirects(s) && s.config.directory != DenyMode
  }

  /** ... and no entry before the `k`th exists. */
  predicate Reaches(s: Session, disk: Disk, k: nat) {
    Enters(s, disk) && k < |IndexEntries(s)| && forall j :: 0 <= j < k ==> Misses(disk, IndexEntries(s)[j])
  }

  ghost predicate Asked(s: Session, disk: Disk, path: Bytes) {
    || (exists i: nat :: ComesTo(s, disk, i) && BuildFileCandidates(s)[i].fsPath == path)
    || (exists k: nat :: Reaches(s, disk, k) && IndexEntries(s)[k].0 == path)
  }

  function CandidateOp(s: Session, c: Candidate): Op {
    OpenOp(c.fsPath, CtxOf(c), PrefetchLen(s))
  }

  function EntryOp(s: Session, e: (Bytes, Bytes)): Op {
    OpenOp(e.0, IndexCtx(e.1), PrefetchLen(s))
  }

  // ----------------------------------------------------------- every run stays on it

  predicate AtCandidate(s: Session, disk: Disk, p: Phase, op: Op, i: nat) {
    ComesTo(s, disk, i) && op == CandidateOp(s, BuildFileCandidates(s)[i])
      && p == ResolvingFile(BuildFileCandidates(s)[i + 1..])
  }

  predicate AtEntry(s: Session, disk: Disk, p: Phase, op: Op, k: nat) {
    && Reaches(s, disk, k) && op == EntryOp(s, IndexEntries(s)[k])
    && p == ResolvingIndex(DirPath(s), IndexEntries(s)[k + 1..])
  }

  /** The operation under way is the one whose turn it is. */
  ghost predicate InTurn(s: Session, disk: Disk, p: Phase, op: Op) {
    op.OpenOp? ==> (exists i: nat :: AtCandidate(s, disk, p, op, i)) || (exists k: nat :: AtEntry(s, disk, p, op, k))
  }

  ghost predicate AllAsked(s: Session, disk: Disk, ops: seq<Op>) {
    forall i :: 0 <= i < |ops| && ops[i].OpenOp? ==> Asked(s, disk, ops[i].path)
  }

  ghost predicate OnTrack(s: Session, disk: Disk, f: FState) {
    && AllAsked(s, disk, f.past.submitted)
    && (Resolving(f.phase) ==>
          f.past.submitted != [] && InTurn(s, disk, f.phase, f.past.submitted[|f.past.submitted| - 1]))
  }

  lemma SendOnTrack(s: Session, disk: Disk, f: FState, out: Sent)
    requires AllAsked(s, disk, f.past.submitted) && !Resolving(f.phase)
    ensures OnTrack(s, disk, Send(f, out)) && Send(f, out).past.submitted == f.past.submitted
  {
    hide AllAsked, InTurn, RunHooks;
    SendKeepsReady(f, out);
    if f.script != [] {
      FilterProgress.HooksOnlyHook(f.(sent := f.sent + [out], script := f.script[1..]), f.script[0]);
    }
  }

  lemma ReplyOnTrack(s: Session, disk: Disk, f: FState, out: Sent)
    requires AllAsked(s, disk, f.past.submitted)
    ensures OnTrack(s, disk, Reply(f, out).state)
  {
    hide AllAsked, OnTrack, Send;
    SendOnTrack(s, disk, f.(phase := Done), out);
  }

  lemma SubmitOnTrack(s: Session, disk: Disk, f: FState, op: Op)
    requires AllAsked(s, disk, f.past.submitted) && InTurn(s, disk, f.phase, op)
    ensures OnTrack(s, disk, Submit(f, op))
  {
    hide ComesTo, Reaches, BuildFileCandidates, IndexEntries;
  }

  lemma CandidateTrack(s: Session, disk: Disk, f: FState, i: nat)
    requires AllAsked(s, disk, f.past.submitted)
    requires ComesTo(s, disk, i) && !Opens(disk, BuildFileCandidates(s)[i])
    requires f.phase == ResolvingFile(BuildFileCandidates(s)[i + 1..])
    ensures OnTrack(s, disk, OpenNextCandidate(s, f).state)
  {
    hide AllAsked, Reply, BuildFileCandidates;
    var cs := BuildFileCandidates(s);
    if i + 1 == |cs| {
      ReplyOnTrack(s, disk, f, Response(404, [], NoBody));
    } else {
      assert ComesTo(s, disk, i + 1);
      assert cs[i + 1..][1..] == cs[i + 2..];
      var g := f.(phase := ResolvingFile(cs[i + 2..]));
      assert AtCandidate(s, disk, g.phase, CandidateOp(s, cs[i + 1]), i + 1);
      SubmitOnTrack(s, disk, g, CandidateOp(s, cs[i + 1]));
    }
    hide OnTrack, Opens;
  }

  lemma FallbackTrack(s: Session, disk: Disk, f: FState, dir: Bytes)
    requires AllAsked(s, disk, f.past.submitted)
    ensures OnTrack(s, disk, DirectoryFallback(s, f, dir).state)
  {
    hide AllAsked, OnTrack, Reply;
    if s.config.directory == ListingMode {
      SubmitOnTrack(s, disk, f, ReadDirOp(dir));
    } else {
      ReplyOnTrack(s, disk, f, Response(404, [], NoBody));
    }
  }

  /** The `k`th entry is next. */
  lemma EntryTrack(s: Session, disk: Disk, f: FState, k: nat)
    requires AllAsked(s, disk, f.past.submitted)
    requires k < |IndexEntries(s)| ==> Reaches(s, disk, k)
    requires k <= |IndexEntries(s)| && f.phase == ResolvingIndex(DirPath(s), IndexEntries(s)[k..])
    ensures OnTrack(s, disk, OpenNextIndex(s, f).state)
  {
    hide AllAsked, DirectoryFallback, IndexEntries, DirPath, Reaches;
    var es := IndexEntries(s);
    if k == |es| {
      FallbackTrack(s, disk, f, DirPath(s));
    } else {
      assert es[k..][1..] == es[k + 1..];
      var g := f.(phase := ResolvingIndex(DirPath(s), es[k + 1..]));
      assert AtEntry(s, disk, g.phase, EntryOp(s, es[k]), k);
      SubmitOnTrack(s, disk, g, EntryOp(s, es[k]));
    }
    hide OnTrack;
  }

  lemma DirectoryTrack(s: Session, disk: Disk, f: FState)
    requires AllAsked(s, disk, f.past.submitted)
    requires NoFile(s, disk) && IsDirectory(disk, DirPath(s))
    ensures OnTrack(s, disk, HandleDirectory(s, f).state)
  {
    hide AllAsked, OnTrack, Reply, DirectoryFallback, OpenNextIndex, IndexEntries, DirPath, NoFile;
    if Redirects(s) {
      ReplyOnTrack(s, disk, f, Redirect(s));
    } else if s.config.directory == DenyMode {
      ReplyOnTrack(s, disk, f, Response(403, [], NoBody));
    } else if IndexEntries(s) == [] {
      FallbackTrack(s, disk, f, DirPath(s));
    } else {
      assert IndexEntries(s)[0..] == IndexEntries(s);
      EntryTrack(s, disk, f.(phase := ResolvingIndex(DirPath(s), IndexEntries(s))), 0);
    }
    hide Redirect;
  }

  /** Only the plain path, the last candidate, is no variant. */
  lemma PlainIsLast(s: Session, i: nat)
    requires i < |BuildFileCandidates(s)| && BuildFileCandidates(s)[i].encoding.None?
    ensures i == |BuildFileCandidates(s)| - 1 && BuildFileCandidates(s)[i].fsPath == DirPath(s)
  {
    VariantsFirst(s);
  }

  lemma AllComeTo(s: Session, disk: Disk, i: nat)
    requires ComesTo(s, disk, i) && i == |BuildFileCandidates(s)| - 1 && !Opens(disk, BuildFileCandidates(s)[i])
    ensures NoFile(s, disk)
  {
    hide BuildFileCandidates, Opens;
  }

  lemma ServeTrack(s: Session, disk: Disk, f: FState, handle: FileHandle, stat: FileStat, ctx: OpenCtx, prefetch: Bytes)
    requires AllAsked(s, disk, f.past.submitted)
    ensures OnTrack(s, disk, ServeFile(s, f, handle, stat, ctx, prefetch).state)
  {
    hide AllAsked, OnTrack, Send, PlanFor, BodyChunks, InlineReady, Seeds;
    var plan := PlanFor(s, ctx, stat);
    var chunks := BodyChunks(plan.body, s.config.chunkSize);
    var kept := if plan.body.Whole? then prefetch else [];
    var seeded := Seeds(chunks, kept);
    var ready := if seeded then InlineReady(chunks)[0 := kept] else InlineReady(chunks);
    SendOnTrack(s, disk, f.(phase := Done, past := f.past.(served := Some(Served(plan, handle.content, false)))),
      Headers(plan.status, plan.headers, true));
    SendOnTrack(s, disk,
      f.(phase := StreamingPhase(Streaming(handle, chunks, ready, 0, 0, 0, 0)),
         past := f.past.(served := Some(Served(plan, handle.content, seeded)))),
      Headers(plan.status, plan.headers, false));
  }

  /** Where an open that was in its turn leads. */
  lemma OpenTrack(s: Session, disk: Disk, f: FState, op: Op, ev: IoEvent)
    requires AllAsked(s, disk, f.past.submitted) && InTurn(s, disk, f.phase, op) && op.OpenOp?
             && Completes(disk, op, ev)
    ensures OnTrack(s, disk, HandleEvent(s, f, ev).state)
  {
    hide AllAsked, OnTrack, Reply, OpenNextCandidate, OpenNextIndex, HandleDirectory, ServeFile, BuildFileCandidates,
      IndexEntries, DirPath;
    if ev.Opened? && !ev.stat.isDir {
      ServeTrack(s, disk, f, ev.handle, ev.stat, ev.ctx, ev.prefetch);
    } else if i: nat :| AtCandidate(s, disk, f.phase, op, i) {
      var c := BuildFileCandidates(s)[i];
      CandidateTrack(s, disk, f, i);
      if ev.Opened? && c.encoding.None? {
        PlainIsLast(s, i);
        AllComeTo(s, disk, i);
        DirectoryTrack(s, disk, f);
      } else if ev.OpenError? {
        ReplyOnTrack(s, disk, f, Response(StatusForIoError(ev.error), [], NoBody));
      }
    } else {
      var k: nat :| AtEntry(s, disk, f.phase, op, k);
      if ev.Opened? {
        DirectoryTrack(s, disk, f);
      } else {
        EntryTrack(s, disk, f, k + 1);
      }
    }
  }

  lemma ControlTrack(s: Session, disk: Disk, f: FState, ev: IoEvent, rest: seq<IoEvent>)
    requires ResolvingInv(s, disk, f, [ev] + rest) && NeverInert(f.past.submitted) && OnTrack(s, disk, f)
    ensures OnTrack(s, disk, HandleEvent(s, f, ev).state)
  {
    TakeControl(s, disk, f, ev, rest);
    var op := f.past.submitted[|f.past.submitted| - 1];
    hide AllAsked, InTurn, Waiting, InTransit, HandleOpened, HandleOpenError, Reply;
    match op {
      case OpenOp(_, _, _) => OpenTrack(s, disk, f, op, ev);
      case ReadDirOp(_) =>
        ReplyOnTrack(s, disk, f,
          if ev.listing.Listed? then ListingReply(s, ev.listing.entries)
          else Response(StatusForIoError(ev.listing.error), [], NoBody));
    }
    hide OnTrack;
  }

  lemma ReadTrack(s: Session, disk: Disk, f: FState, seqNo: nat, result: ReadResult)
    requires OnTrack(s, disk, f)
    ensures OnTrack(s, disk, HandleRead(f, seqNo, result).state)
  {
    hide AllAsked, InTurn, Send;
    if f.phase.StreamingPhase? && result.ReadFails? {
      SendOnTrack(s, disk, f.(phase := Done, past := f.past.(readFailed := true)), Data([], true));
    }
  }

  lemma EventTrack(s: Session, disk: Disk, f: FState, ev: IoEvent, rest: seq<IoEvent>)
    requires Inv(s, disk, f, [ev] + rest) && OnTrack(s, disk, f)
    ensures OnTrack(s, disk, HandleEvent(s, f, ev).state)
  {
    hide ResolvingInv, StreamInv, DoneInv, OnTrack, HandleOpened, HandleOpenError, HandleDir, HandleRead;
    if ResolvingInv(s, disk, f, [ev] + rest) {
      ControlTrack(s, disk, f, ev, rest);
    } else {
      if StreamInv(s, disk, f, [ev] + rest) {
        StreamsReads(s, disk, f, ev, rest);
      } else {
        DoneIgnores(s, disk, f, ev, rest);
      }
      ReadTrack(s, disk, f, ev.seqNo, ev.result);
    }
  }

  lemma {:induction false} EventsTrack(s: Session, disk: Disk, f: FState, events: seq<IoEvent>)
    requires Inv(s, disk, f, events) && OnTrack(s, disk, f)
    ensures OnTrack(s, disk, HandleEvents(s, f, events).state)
    decreases |events|
  {
    hide Inv, HandleEvent, AllAsked, InTurn;
    if events != [] {
      var rest := events[1..];
      assert events == [events[0]] + rest;
      HandleEventInv(s, disk, f, events[0], rest);
      EventTrack(s, disk, f, events[0], rest);
      var o := HandleEvent(s, f, events[0]);
      if !o.ended {
        EventsTrack(s, disk, o.state, rest);
      }
    }
  }

  lemma {:induction false} FlushTrack(s: Session, disk: Disk, f: FState)
    requires f.phase.StreamingPhase? && AllAsked(s, disk, f.past.submitted)
    ensures OnTrack(s, disk, Flush(f).state)
    decreases |f.phase.s.ready|
  {
    hide AllAsked, InTurn, Send;
    FlushPass(f);
    var st := f.phase.s;
    if st.watermarkDepth == 0 && st.nextSend in st.ready {
      var bytes := st.ready[st.nextSend];
      SendOnTrack(s, disk, f.(phase := Done), Data(bytes, true));
      SendOnTrack(s, disk, f.(phase := StreamingPhase(Advanced(st))), Data(bytes, false));
      hide Flush;
      if st.nextSend != |st.chunks| - 1 {
        FlushTrack(s, disk, SentOne(f));
      }
    }
  }

  lemma {:induction false} IssueTrack(s: Session, disk: Disk, f: FState, max: nat)
    requires f.phase.StreamingPhase? && AllAsked(s, disk, f.past.submitted)
    ensures OnTrack(s, disk, Issue(f, max))
    decreases |f.phase.s.chunks| - f.phase.s.issueCursor
  {
    hide Asked;
    if WantsMore(f.phase.s, max) {
      IssueTrack(s, disk, if SkipsNext(f.phase.s) then Skipped(f) else Issued(f), max);
    }
  }

  lemma ScheduledTrack(s: Session, disk: Disk, f: FState)
    requires Inv(s, disk, f, []) && OnTrack(s, disk, f)
    ensures OnTrack(s, disk, OnScheduled(s, f))
  {
    hide Inv, HandleEvents, AllAsked, InTurn, Flush, Issue;
    var events := Pending(f.mailbox);
    var g := f.(mailbox := Open([]));
    assert InTransit(g, events) == InTransit(f, []);
    SameTransit(s, disk, f, g, [], events);
    EventsTrack(s, disk, g, events);
    var o := HandleEvents(s, g, events);
    if !o.ended && o.state.phase.StreamingPhase? {
      FlushTrack(s, disk, o.state);
      var flushed := Flush(o.state);
      if flushed.AtGap? && flushed.state.phase.StreamingPhase? {
        IssueTrack(s, disk, flushed.state, s.config.maxInflightReads);
      }
    }
  }

  lemma ApplyTrack(s: Session, disk: Disk, f: FState, l: Label)
    requires Inv(s, disk, f, []) && OnTrack(s, disk, f) && Enabled(disk, f, l)
    ensures OnTrack(s, disk, Apply(s, disk, f, l))
  {
    hide Inv, OnScheduled, Completes, AllAsked, InTurn, RemoveAt;
    if l.Scheduled? {
      var h := f.(wakeups := f.wakeups - 1, script := l.script);
      assert InTransit(h, []) == InTransit(f, []);
      SameTransit(s, disk, f, h, [], []);
      ScheduledTrack(s, disk, h);
    }
  }

  lemma StartTrack(s: Session, disk: Disk)
    ensures OnTrack(s, disk, Start(s))
  {
    hide BuildFileCandidates;
    VariantsFirst(s);
    var cs, f := BuildFileCandidates(s), Fresh.(phase := ResolvingFile(BuildFileCandidates(s)[1..]));
    assert ComesTo(s, disk, 0);
    assert AtCandidate(s, disk, f.phase, CandidateOp(s, cs[0]), 0);
    SubmitOnTrack(s, disk, f, CandidateOp(s, cs[0]));
    assert Start(s) == Submit(f, CandidateOp(s, cs[0]));
  }

  lemma {:induction false} RunTrack(s: Session, disk: Disk, labels: seq<Label>)
    requires Run(s, disk, Start(s), labels).Some?
    ensures OnTrack(s, disk, Run(s, disk, Start(s), labels).value)
  {
    hide Inv, Start, Apply, Enabled, OnTrack;
    if labels == [] {
      StartTrack(s, disk);
    } else {
      var front := labels[..|labels| - 1];
      RunInv(s, disk, front);
      RunTrack(s, disk, front);
      ApplyTrack(s, disk, Run(s, disk, Start(s), front).value, labels[|labels| - 1]);
    }
  }

  // ------------------------------------------------------------ some run follows it

  /** Nothing has happened but the resolver's opens, the last of which is under
      way. */
  predicate Asking(f: FState, op: Op) {
    && f == Fresh.(phase := f.phase, ops := [op], past := Fresh.past.(submitted := f.past.submitted))
    && f.past.submitted != [] && f.past.submitted[|f.past.submitted| - 1] == op
  }

  /** A run in which everything goes as it is asked. */
  predicate Smooth(labels: seq<Label>) {
    NoneFails(labels) && WindowBound.InIssueOrder(labels)
  }

  lemma SmoothMore(labels: seq<Label>, l: Label)
    requires Smooth(labels) && !FailsRead(l) && (l.Finish? ==> l.k == 0)
    ensures Smooth(labels + [l])
  {
  }

  /** The state with the completion of the one open committed. */
  function Woken(f: FState, ev: IoEvent): FState {
    f.(ops := [], mailbox := Open([ev]), wakeups := 1)
  }

  /** The open under way completes with `ev`, which is committed and drained. */
  lemma AskRound(s: Session, disk: Disk, labels: seq<Label>, op: Op, ev: IoEvent) returns (more: seq<Label>)
    requires Run(s, disk, Start(s), labels).Some? && Smooth(labels)
    requires Asking(EndOf(s, disk, labels), op) && Completes(disk, op, ev) && !FailedRead(ev)
    ensures Run(s, disk, Start(s), more).Some? && Smooth(more)
    ensures var woken := Woken(EndOf(s, disk, labels), ev);
            && Inv(s, disk, woken, [])
            && EndOf(s, disk, more) == OnScheduled(s, woken.(wakeups := 0)).(script := [])
  {
    hide Run, Start, Inv, Completes, Apply, Enabled, OnScheduled, Smooth, Asking;
    var f, finish, drain := EndOf(s, disk, labels), Finish(0, ev), Scheduled([]);
    var woken := Woken(f, ev);
    AskSteps(s, disk, f, op, ev);
    RunMore(s, disk, labels, finish);
    SmoothMore(labels, finish);
    RunMore(s, disk, labels + [finish], Commit);
    SmoothMore(labels + [finish], Commit);
    RunInv(s, disk, labels + [finish] + [Commit]);
    RunMore(s, disk, labels + [finish] + [Commit], drain);
    SmoothMore(labels + [finish] + [Commit], drain);
    more := labels + [finish] + [Commit] + [drain];
  }

  lemma AskSteps(s: Session, disk: Disk, f: FState, op: Op, ev: IoEvent)
    requires Asking(f, op) && Completes(disk, op, ev)
    ensures var finish, woken := Finish(0, ev), Woken(f, ev);
            && Enabled(disk, f, finish) && Enabled(disk, Apply(s, disk, f, finish), Commit)
            && Apply(s, disk, Apply(s, disk, f, finish), Commit) == woken
            && Enabled(disk, woken, Scheduled([]))
            && Apply(s, disk, woken, Scheduled([])) == OnScheduled(s, woken.(wakeups := 0)).(script := [])
  {
    hide Completes, OnScheduled;
    assert [] + [ev] == [ev];
    assert RemoveAt([op], 0) == [];
    assert Woken(f, ev).(wakeups := 0, script := []) == Woken(f, ev).(wakeups := 0);
  }

  /** A drain of one event that ends neither the stream nor the resolving. */
  lemma DrainOne(s: Session, f: FState, ev: IoEvent)
    requires f.mailbox == Open([ev])
    requires var o := HandleEvent(s, f.(mailbox := Open([])), ev); !o.ended && !o.state.phase.StreamingPhase?
    ensures OnScheduled(s, f) == HandleEvent(s, f.(mailbox := Open([])), ev).state
  {
    hide HandleEvent;
    assert [ev][1..] == [];
    var o := HandleEvent(s, f.(mailbox := Open([])), ev);
    assert HandleEvents(s, o.state, []) == Outcome(o.state, false);
    assert HandleEvents(s, f.(mailbox := Open([])), [ev]) == HandleEvents(s, o.state, [ev][1..]);
  }

  /** What an open that brings no file completes with. */
  function MissEvent(disk: Disk, op: Op): IoEvent
    requires op.OpenOp? && !disk.open(op.path).Regular?
  {
    match disk.open(op.path)
    case Fails(error) => OpenError(error)
    case Directory(stat) => Opened(FileHandle(1, ""), stat.(isDir := true), op.ctx, "")
  }

  lemma MissCompletes(disk: Disk, op: Op)
    requires op.OpenOp? && !disk.open(op.path).Regular?
    ensures Completes(disk, op, MissEvent(disk, op)) && !FailedRead(MissEvent(disk, op))
  {
  }

  lemma NextAsked(s: Session, f: FState, op: Op, ev: IoEvent, p: Phase, next: Op)
    requires Asking(f, op) && Resolving(p)
    requires HandleEvent(s, f.(ops := []), ev) == Outcome(Submit(f.(ops := [], phase := p), next), false)
    ensures var g := OnScheduled(s, Woken(f, ev).(wakeups := 0)).(script := []); Asking(g, next) && g.phase == p
  {
    hide HandleEvent, OnScheduled;
    var woken := Woken(f, ev).(wakeups := 0);
    assert woken.(mailbox := Open([])) == f.(ops := []);
    DrainOne(s, woken, ev);
    assert [] + [next] == [next];
  }

  /** An open completes, and the resolver opens what is next. */
  lemma AskNext(s: Session, disk: Disk, labels: seq<Label>, op: Op, ev: IoEvent, p: Phase, next: Op)
    returns (more: seq<Label>)
    requires Run(s, disk, Start(s), labels).Some? && Smooth(labels)
    requires Asking(EndOf(s, disk, labels), op) && Completes(disk, op, ev) && !FailedRead(ev) && Resolving(p)
    requires var f := EndOf(s, disk, labels);
             HandleEvent(s, f.(ops := []), ev) == Outcome(Submit(f.(ops := [], phase := p), next), false)
    ensures Run(s, disk, Start(s), more).Some? && Smooth(more)
    ensures Asking(EndOf(s, disk, more), next) && EndOf(s, disk, more).phase == p
  {
    hide Run, Start, Inv, Completes, OnScheduled, Smooth, Asking, HandleEvent, Submit, FailedRead;
    more := AskRound(s, disk, labels, op, ev);
    NextAsked(s, EndOf(s, disk, labels), op, ev, p, next);
  }

  /** The `i`th candidate opens no file, and another follows. */
  lemma MissMovesOn(s: Session, disk: Disk, f: FState, i: nat)
    requires i + 1 < |BuildFileCandidates(s)| && !Opens(disk, BuildFileCandidates(s)[i])
    requires f.phase == ResolvingFile(BuildFileCandidates(s)[i + 1..])
    ensures var cs := BuildFileCandidates(s);
            HandleEvent(s, f, MissEvent(disk, CandidateOp(s, cs[i])))
              == Outcome(Submit(f.(phase := ResolvingFile(cs[i + 2..])), CandidateOp(s, cs[i + 1])), false)
  {
    VariantsFirst(s);
    hide BuildFileCandidates, HandleDirectory, Submit;
    var cs := BuildFileCandidates(s);
    assert cs[i + 1..][1..] == cs[i + 2..];
  }

  /** The plain path is a directory to be entered. */
  lemma DirectoryMovesOn(s: Session, disk: Disk, f: FState, ev: IoEvent)
    requires Enters(s, disk) && IndexEntries(s) != []
    requires ev.Opened? && ev.stat.isDir && ev.ctx.encoding.None?
    ensures var es := IndexEntries(s);
            HandleEvent(s, f, ev)
              == Outcome(Submit(f.(phase := ResolvingIndex(DirPath(s), es[1..])), EntryOp(s, es[0])), false)
  {
    hide IndexEntries, DirPath, NoFile, Submit;
  }

  lemma EntryMovesOn(s: Session, f: FState, k: nat, error: IoError)
    requires k + 1 < |IndexEntries(s)| && f.phase == ResolvingIndex(DirPath(s), IndexEntries(s)[k + 1..])
    ensures var es := IndexEntries(s);
            HandleEvent(s, f, OpenError(error))
              == Outcome(Submit(f.(phase := ResolvingIndex(DirPath(s), es[k + 2..])), EntryOp(s, es[k + 1])), false)
  {
    hide IndexEntries, DirPath, Submit;
    var es := IndexEntries(s);
    assert es[k + 1..][1..] == es[k + 2..];
  }

  lemma StartAsks(s: Session)
    ensures BuildFileCandidates(s) != []
    ensures Start(s).phase == ResolvingFile(BuildFileCandidates(s)[1..])
    ensures Asking(Start(s), CandidateOp(s, BuildFileCandidates(s)[0]))
  {
    hide BuildFileCandidates;
    VariantsFirst(s);
    var cs := BuildFileCandidates(s);
    var op := CandidateOp(s, cs[0]);
    assert Start(s) == Submit(Fresh.(phase := ResolvingFile(cs[1..])), op);
    assert [] + [op] == [op];
  }

  /** A run asks for the `i`th candidate, when no earlier one is a file. */
  lemma {:induction false} ToCandidate(s: Session, disk: Disk, i: nat) returns (labels: seq<Label>)
    requires ComesTo(s, disk, i)
    ensures Run(s, disk, Start(s), labels).Some? && Smooth(labels)
    ensures var f := EndOf(s, disk, labels);
            && Asking(f, CandidateOp(s, BuildFileCandidates(s)[i]))
            && f.phase == ResolvingFile(BuildFileCandidates(s)[i + 1..])
  {
    hide Start, BuildFileCandidates, Asking, Completes, HandleEvent, Opens, Submit, MissEvent;
    if i == 0 {
      labels := [];
      StartAsks(s);
    } else {
      hide Run, Smooth;
      var cs := BuildFileCandidates(s);
      var front := ToCandidate(s, disk, i - 1);
      var f, op := EndOf(s, disk, front), CandidateOp(s, cs[i - 1]);
      NoFileOpens(disk, cs[i - 1]);
      MissCompletes(disk, op);
      MissMovesOn(s, disk, f.(ops := []), i - 1);
      labels := AskNext(s, disk, front, op, MissEvent(disk, op), ResolvingFile(cs[i + 1..]), CandidateOp(s, cs[i]));
    }
  }

  lemma NoFileOpens(disk: Disk, c: Candidate)
    requires !Opens(disk, c)
    ensures !disk.open(c.fsPath).Regular?
  {
  }

  /** A run asks for the `k`th index entry, when the request comes to it. */
  lemma {:induction false} ToEntry(s: Session, disk: Disk, k: nat) returns (labels: seq<Label>)
    requires Reaches(s, disk, k)
    ensures Run(s, disk, Start(s), labels).Some? && Smooth(labels)
    ensures var f := EndOf(s, disk, labels);
            && Asking(f, EntryOp(s, IndexEntries(s)[k]))
            && f.phase == ResolvingIndex(DirPath(s), IndexEntries(s)[k + 1..])
  {
    hide Run, Smooth, Start, BuildFileCandidates, IndexEntries, DirPath, Asking, Completes, HandleEvent, Opens, Submit;
    var es := IndexEntries(s);
    if k == 0 {
      var last := LastCandidate(s, disk);
      labels := ToCandidate(s, disk, last);
      var f, op := EndOf(s, disk, labels), CandidateOp(s, BuildFileCandidates(s)[last]);
      MissCompletes(disk, op);
      DirectoryMovesOn(s, disk, f.(ops := []), MissEvent(disk, op));
      labels := AskNext(s, disk, labels, op, MissEvent(disk, op), ResolvingIndex(DirPath(s), es[1..]),
          EntryOp(s, es[0]));
    } else {
      labels := ToEntry(s, disk, k - 1);
      var f, op := EndOf(s, disk, labels), EntryOp(s, es[k - 1]);
      assert Misses(disk, es[k - 1]);
      MissCompletes(disk, op);
      EntryMovesOn(s, f.(ops := []), k - 1, disk.open(op.path).error);
      labels := AskNext(s, disk, labels, op, MissEvent(disk, op), ResolvingIndex(DirPath(s), es[k + 1..]),
          EntryOp(s, es[k]));
    }
  }

  lemma LastCandidate(s: Session, disk: Disk) returns (last: nat)
    requires Enters(s, disk)
    ensures ComesTo(s, disk, last) && BuildFileCandidates(s)[last].encoding.None?
    ensures disk.open(BuildFileCandidates(s)[last].fsPath).Directory?
  {
    VariantsFirst(s);
    last := |BuildFileCandidates(s)| - 1;
    hide BuildFileCandidates;
  }

  // ------------------------------------------------------------------ both together

  ghost predicate SomeRunOpens(s: Session, disk: Disk, path: Bytes) {
    exists labels :: Run(s, disk, Start(s), labels).Some? && HasOpened(EndOf(s, disk, labels), path)
  }

  predicate HasOpened(f: FState, path: Bytes) {
    exists i :: 0 <= i < |f.past.submitted| && f.past.submitted[i].OpenOp? && f.past.submitted[i].path == path
  }

  /** Exactly which paths a request may open: the candidates up to the first
      that is a file; and, when there is none and the plain path is a directory
      that is neither redirected nor denied, the index entries up to the first
      that exists. */
  lemma OpensExactly(s: Session, disk: Disk, path: Bytes)
    ensures SomeRunOpens(s, disk, path) <==> Asked(s, disk, path)
  {
    hide Run, Start, BuildFileCandidates, IndexEntries, Smooth, Asking;
    if SomeRunOpens(s, disk, path) {
      var labels :| Run(s, disk, Start(s), labels).Some? && HasOpened(EndOf(s, disk, labels), path);
      RunTrack(s, disk, labels);
      hide InTurn, Asked;
    } else if i: nat :| ComesTo(s, disk, i) && BuildFileCandidates(s)[i].fsPath == path {
      var labels := ToCandidate(s, disk, i);
      AskingHasOpened(EndOf(s, disk, labels), CandidateOp(s, BuildFileCandidates(s)[i]));
    } else if k: nat :| Reaches(s, disk, k) && IndexEntries(s)[k].0 == path {
      var labels := ToEntry(s, disk, k);
      AskingHasOpened(EndOf(s, disk, labels), EntryOp(s, IndexEntries(s)[k]));
    }
  }

  lemma AskingHasOpened(f: FState, op: Op)
    requires Asking(f, op) && op.OpenOp?
    ensures HasOpened(f, op.path)
  {
  }
}

/** Every run is finite up to Envoy's own callbacks, and a run that cannot go on
    by itself is over, paused by Envoy, or torn down. */
module FilterLiveness {
  import opened Text
  import opened EventBridge
  import opened FilterModel
  import opened FilterRuns
  import opened FilterInvariant
  import opened FilterResolve
  import opened FilterStream
  import opened FilterProgress
  import Encodings

  // ------------------------------------------------------------- no lost wake-up

  /** Only a stream that is over loses an event. */
  predicate Fenced(f: FState) {
    && (f.mailbox.Closed? ==> f.past.completed)
    && (f.past.dropped != [] ==> f.past.completed || f.phase.Done?)
  }

  /** An event in the mailbox has a wake-up. */
  predicate Calm(f: FState) {
    Fenced(f) && (Pending(f.mailbox) != [] ==> f.uncommitted + f.wakeups > 0)
  }

  /** No wake-up is coming and Envoy has not paused the stream: then there is
      nothing to send and no read to issue. */
  predicate Settled(s: Session, f: FState) {
    f.phase.StreamingPhase? && f.phase.s.watermarkDepth == 0 && f.uncommitted + f.wakeups == 0 ==>
      f.phase.s.nextSend !in f.phase.s.ready && !WantsMore(f.phase.s, s.config.maxInflightReads)
  }

  predicate Pumped(s: Session, f: FState) {
    f.phase.StreamingPhase? ==>
      f.phase.s.watermarkDepth > 0
      || (f.phase.s.nextSend !in f.phase.s.ready && !WantsMore(f.phase.s, s.config.maxInflightReads))
  }

  lemma PumpEnds(s: Session, disk: Disk, f: FState)
    requires StreamInv(s, disk, f, []) && NeverInert(f.past.submitted)
    ensures Pumped(s, Pump(s, f))
  {
    Cursors(s, disk, f, []);
    hide StreamInv, Flush, Inv;
    FlushInv(s, disk, f, []);
    var flushed := Flush(f);
    if flushed.AtGap? {
      OnlyStreams(s, disk, flushed.state, []);
      IssueInv(s, disk, flushed.state, []);
    }
  }

  /** A drain empties the mailbox and leaves the stream pumped. */
  lemma ScheduledEnds(s: Session, disk: Disk, f: FState)
    requires Inv(s, disk, f, []) && Fenced(f)
    ensures Drained(OnScheduled(s, f)) && Pumped(s, OnScheduled(s, f))
    ensures Moves(s, disk, f, OnScheduled(s, f))
  {
    hide Inv, HandleEvents, Pump, Moves;
    var events := Pending(f.mailbox);
    var g := f.(mailbox := Open([]));
    assert InTransit(g, events) == InTransit(f, []);
    hide InTransit;
    SameTransit(s, disk, f, g, [], events);
    HandleEventsInv(s, disk, g, events);
    HandleEventsMoves(s, disk, g, events);
    EmptiedMoves(s, disk, f, g);
    var o := HandleEvents(s, g, events);
    MovesOn(s, disk, f, g, o.state);
    MovesDrain(s, disk, g, o.state);
    if !o.ended && o.state.phase.StreamingPhase? {
      OnlyStreams(s, disk, o.state, []);
      PumpEnds(s, disk, o.state);
      PumpMoves(s, disk, o.state);
      MovesOn(s, disk, f, o.state, Pump(s, o.state));
      MovesDrain(s, disk, o.state, Pump(s, o.state));
    }
    hide Drained, Fenced;
  }

  lemma MovesDrain(s: Session, disk: Disk, f: FState, g: FState)
    requires Moves(s, disk, f, g) && Drained(f)
    ensures Drained(g)
  {
  }

  lemma EmptiedMoves(s: Session, disk: Disk, f: FState, g: FState)
    requires g == f.(mailbox := Open([]))
    ensures Moves(s, disk, f, g)
  {
    hide Expected, Ends, HooksIn, Opens, Listings;
  }

  lemma ApplyCalm(s: Session, disk: Disk, f: FState, l: Label)
    requires Inv(s, disk, f, []) && Calm(f) && Settled(s, f) && Enabled(disk, f, l)
    ensures Calm(Apply(s, disk, f, l)) && Settled(s, Apply(s, disk, f, l))
  {
    hide Inv, OnScheduled, Completes;
    if l.Scheduled? {
      var h := f.(wakeups := f.wakeups - 1, script := l.script);
      assert InTransit(h, []) == InTransit(f, []);
      SameTransit(s, disk, f, h, [], []);
      ScheduledEnds(s, disk, h);
    }
  }

  // ------------------------------------------------------------------ the budget

  /** What Envoy calls back on its own in a step. */
  function HooksOf(l: Label): nat {
    match l
    case Scheduled(script) => HooksIn(script)
    case HighMark => 1
    case LowMark => 1
    case StreamComplete => 1
    case _ => 0
  }

  function AllHooks(labels: seq<Label>): nat {
    if labels == [] then 0 else AllHooks(labels[..|labels| - 1]) + HooksOf(labels[|labels| - 1])
  }

  /** Each step spends one, but for what Envoy calls back. */
  predicate Spends(s: Session, disk: Disk, f: FState, g: FState, hooks: nat) {
    && Budget(s, disk, g) + 1 <= Budget(s, disk, f) + 2 * hooks
    && Opens(g.past.submitted) + OpensLeft(s, g) <= Opens(f.past.submitted) + OpensLeft(s, f)
    && Listings(g.past.submitted) + ListsLeft(g) <= Listings(f.past.submitted) + ListsLeft(f)
  }

  lemma ScheduledSpends(s: Session, disk: Disk, f: FState, script: seq<seq<Hook>>)
    requires Inv(s, disk, f, []) && Fenced(f) && Ends(s, disk) && f.wakeups > 0
    ensures Spends(s, disk, f, OnScheduled(s, f.(wakeups := f.wakeups - 1, script := script)).(script := []),
              HooksIn(script))
  {
    var h := f.(wakeups := f.wakeups - 1, script := script);
    assert InTransit(h, []) == InTransit(f, []);
    SameTransit(s, disk, f, h, [], []);
    ScheduledEnds(s, disk, h);
    hide Inv, OnScheduled, Ends;
    Scripted(s, disk, f, h);
    var o := OnScheduled(s, h);
    Scripted(s, disk, o, o.(script := []));
    hide Budget, OpensLeft, ListsLeft, Opens, Listings, Drained;
  }

  lemma Scripted(s: Session, disk: Disk, f: FState, g: FState)
    requires g == f.(wakeups := g.wakeups, script := g.script)
    ensures Budget(s, disk, g) + f.wakeups + HooksIn(f.script) == Budget(s, disk, f) + g.wakeups + HooksIn(g.script)
    ensures OpensLeft(s, g) == OpensLeft(s, f) && ListsLeft(g) == ListsLeft(f)
  {
    hide Expected, HooksIn;
  }

  lemma ApplySpends(s: Session, disk: Disk, f: FState, l: Label)
    requires Inv(s, disk, f, []) && Fenced(f) && Ends(s, disk) && Enabled(disk, f, l)
    ensures Spends(s, disk, f, Apply(s, disk, f, l), HooksOf(l))
  {
    hide Inv, OnScheduled, Spends, Push, RemoveAt, OnHigh, OnLow, OnStreamComplete;
    match l {
      case Finish(k, ev) => FinishSpends(s, disk, f, k, ev);
      case Commit => PlainSpends(s, disk, f, f.(uncommitted := f.uncommitted - 1, wakeups := f.wakeups + 1), 0);
      case Scheduled(script) => ScheduledSpends(s, disk, f, script);
      case _ => HookSpends(s, disk, f, l);
    }
  }

  lemma FinishSpends(s: Session, disk: Disk, f: FState, k: nat, ev: IoEvent)
    requires k < |f.ops|
    ensures Spends(s, disk, f, Push(f.(ops := RemoveAt(f.ops, k)), ev), 0)
  {
    var g := Push(f.(ops := RemoveAt(f.ops, k)), ev);
    assert |g.ops| == |f.ops| - 1;
    PlainSpends(s, disk, f, g, 0);
    hide Spends;
  }

  lemma HookSpends(s: Session, disk: Disk, f: FState, l: Label)
    requires l.HighMark? || l.LowMark? || l.StreamComplete?
    ensures Spends(s, disk, f, Apply(s, disk, f, l), 1)
  {
    hide Spends;
    PlainSpends(s, disk, f, Apply(s, disk, f, l), 1);
  }

  /** A step outside a drain: no submission, and the phase moves no cursor. */
  lemma PlainSpends(s: Session, disk: Disk, f: FState, g: FState, hooks: nat)
    requires g.past.submitted == f.past.submitted && g.script == f.script
    requires g.phase == f.phase || (f.phase.StreamingPhase? && g.phase.StreamingPhase?
             && g.phase.s == f.phase.s.(watermarkDepth := g.phase.s.watermarkDepth))
    requires 3 * |g.ops| + 2 * g.uncommitted + g.wakeups + 1 <= 3 * |f.ops| + 2 * f.uncommitted + f.wakeups + 2 * hooks
    ensures Spends(s, disk, f, g, hooks)
  {
    hide Expected, HooksIn, Opens, Listings;
  }

  // -------------------------------------------------------------------- all runs

  lemma StartCalm(s: Session)
    ensures var f := Start(s);
            && Calm(f) && f.phase.ResolvingFile? && |f.ops| == 1 && f.script == []
            && f.uncommitted == 0 && f.wakeups == 0 && f.past.submitted == f.ops && f.ops[0].OpenOp?
            && |f.phase.pending| + 1 == |BuildFileCandidates(s)|
  {
    hide Encodings.Negotiate;
  }

  lemma {:induction false} RunCalm(s: Session, disk: Disk, labels: seq<Label>)
    requires Run(s, disk, Start(s), labels).Some?
    ensures var f := Run(s, disk, Start(s), labels).value; Inv(s, disk, f, []) && Calm(f) && Settled(s, f)
  {
    hide Inv, Calm, Settled, Start, Apply, Enabled;
    RunInv(s, disk, labels);
    if labels == [] {
      StartCalm(s);
      NotStreamingIsSettled(s, Start(s));
    } else {
      var front := labels[..|labels| - 1];
      RunCalm(s, disk, front);
      ApplyCalm(s, disk, Run(s, disk, Start(s), front).value, labels[|labels| - 1]);
    }
  }

  lemma NotStreamingIsSettled(s: Session, f: FState)
    requires f.phase.ResolvingFile?
    ensures Settled(s, f)
  {
  }

  /** What the stream can do without Envoy calling back: the engine finishes an
      operation, its thread commits the wake-up, the worker runs one. */
  predicate Progress(l: Label) {
    l.Finish? || l.Commit? || (l.Scheduled? && l.script == [])
  }

  /** Deadlock freedom: in every state of every run some step of the stream's
      own is possible, unless the response is over, Envoy has paused the stream
      (a downstream watermark is high), or the stream has been torn down. */
  lemma NoStall(s: Session, disk: Disk, labels: seq<Label>)
    requires Run(s, disk, Start(s), labels).Some?
    ensures var f := Run(s, disk, Start(s), labels).value;
            || f.phase.Done? || f.past.completed
            || (f.phase.StreamingPhase? && f.phase.s.watermarkDepth > 0)
            || exists l :: Progress(l) && Enabled(disk, f, l)
  {
    RunCalm(s, disk, labels);
    var f := Run(s, disk, Start(s), labels).value;
    hide Run, Start;
    if f.uncommitted > 0 {
      assert Progress(Commit) && Enabled(disk, f, Commit);
    } else if f.wakeups > 0 {
      assert Progress(Scheduled([])) && Enabled(disk, f, Scheduled([]));
    } else if f.ops != [] {
      var ev := SomeCompletion(disk, f.ops[0]);
      assert Progress(Finish(0, ev)) && Enabled(disk, f, Finish(0, ev));
    } else if !f.past.completed {
      NothingInTransit(s, disk, f);
    }
  }

  /** The engine can finish any operation. */
  lemma SomeCompletion(disk: Disk, op: Op) returns (ev: IoEvent)
    ensures Completes(disk, op, ev)
  {
    match op {
      case ReadDirOp(path) => ev := Dir(disk.list(path));
      case ReadOp(seqNo, handle, offset, len) => ev := Read(seqNo, Got(ReadSlice(handle.content, offset, len)));
      case OpenOp(path, ctx, prefetchLen) =>
        match disk.open(path) {
          case Fails(error) => ev := OpenError(error);
          case Directory(stat) => ev := Opened(FileHandle(1, []), stat.(isDir := true), ctx, []);
          case Regular(content, secs, nanos) =>
            var id := if content == [] then 0 else 1;
            ev := Opened(FileHandle(id, content), FileStat(|content|, secs, nanos, false), ctx, []);
        }
    }
  }

  /** With nothing outstanding, no wake-up to come and no pause, it is over. */
  lemma NothingInTransit(s: Session, disk: Disk, f: FState)
    requires Inv(s, disk, f, []) && Calm(f) && Settled(s, f)
    requires f.ops == [] && f.uncommitted + f.wakeups == 0 && !f.past.completed
    ensures f.phase.Done? || (f.phase.StreamingPhase? && f.phase.s.watermarkDepth > 0)
  {
    hide Completes, LeadsOn, StreamInv;
    if !f.phase.Done? {
      assert InTransit(f, []) == [];
      if StreamInv(s, disk, f, []) {
        GapNeedsRead(s, disk, f);
      }
    }
  }

  /** A gap with every chunk issued has its read outstanding. */
  lemma GapNeedsRead(s: Session, disk: Disk, f: FState)
    requires StreamInv(s, disk, f, []) && f.ops == [] && InTransit(f, []) == []
    ensures f.phase.StreamingPhase?
    ensures var st := f.phase.s; st.nextSend in st.ready || WantsMore(st, s.config.maxInflightReads)
  {
    assert Outstanding(f, []) == multiset{};
    hide ServesVerdict, BodyChunks, AllFit, Outstanding, ReadLog, Expected, Intended;
  }

  /** Every run of a request that does not loop is bounded: by the size of its
      one expected response, the candidates and index entries it may have to
      open, and twice what Envoy calls back.  It opens each candidate and each
      index entry at most once and lists at most one directory. */
  lemma EveryRunEnds(s: Session, disk: Disk, labels: seq<Label>)
    requires VerdictOf(s, disk) != Loops
    requires Run(s, disk, Start(s), labels).Some?
    ensures var f := Run(s, disk, Start(s), labels).value;
            var candidates, names := |BuildFileCandidates(s)|, |s.config.indexFiles|;
            && |labels| <= 4 * |Expected(s, disk)| + 3 * (candidates + names + 1) + 2 * AllHooks(labels)
            && Opens(f.past.submitted) <= candidates + names
            && Listings(f.past.submitted) <= 1
  {
    RunBudget(s, disk, labels);
    StartBudget(s, disk);
    hide Run, Start, VerdictOf, Opens, Listings, Expected, BuildFileCandidates, Budget, OpensLeft, ListsLeft;
  }

  lemma StartBudget(s: Session, disk: Disk)
    ensures var f := Start(s);
            var candidates, names := |BuildFileCandidates(s)|, |s.config.indexFiles|;
            && Budget(s, disk, f) == 4 * |Expected(s, disk)| + 3 * (candidates + names + 1)
            && Opens(f.past.submitted) + OpensLeft(s, f) == candidates + names
            && Listings(f.past.submitted) + ListsLeft(f) == 1
  {
    StartCalm(s);
    var f := Start(s);
    hide Start, Expected, BuildFileCandidates;
    CountOne([], f.ops[0]);
    assert f.ops == [] + [f.ops[0]];
  }

  lemma {:induction false} RunBudget(s: Session, disk: Disk, labels: seq<Label>)
    requires Ends(s, disk) && Run(s, disk, Start(s), labels).Some?
    ensures var f := Run(s, disk, Start(s), labels).value;
            && |labels| + Budget(s, disk, f) <= Budget(s, disk, Start(s)) + 2 * AllHooks(labels)
            && Opens(f.past.submitted) + OpensLeft(s, f) <= Opens(Start(s).past.submitted) + OpensLeft(s, Start(s))
            && Listings(f.past.submitted) + ListsLeft(f) <= Listings(Start(s).past.submitted) + ListsLeft(Start(s))
  {
    hide Inv, Settled, Start, Apply, Enabled, Budget, OpensLeft, ListsLeft, Opens, Listings, Ends, HooksOf;
    if labels != [] {
      var front := labels[..|labels| - 1];
      RunCalm(s, disk, front);
      RunBudget(s, disk, front);
      ApplySpends(s, disk, Run(s, disk, Start(s), front).value, labels[|labels| - 1]);
    }
  }

  // -------------------------------------------------------------- requests that loop

  /** Steps of the stream's own do not tear it down. */
  lemma ProgressKeepsOn(s: Session, disk: Disk, f: FState, l: Label)
    requires Inv(s, disk, f, []) && Fenced(f) && Enabled(disk, f, l) && Progress(l)
    ensures Apply(s, disk, f, l).past.completed == f.past.completed
  {
    hide Inv, OnScheduled, Completes, Fenced;
    if l.Scheduled? {
      var h := f.(wakeups := f.wakeups - 1, script := []);
      assert InTransit(h, []) == InTransit(f, []);
      SameTransit(s, disk, f, h, [], []);
      assert Fenced(h) by { SameFence(f, h); }
      ScheduledEnds(s, disk, h);
      assert Moves(s, disk, h, OnScheduled(s, h));
    }
    hide Budget, Ends, Opens, Listings, Drained, OpensLeft, ListsLeft;
  }

  lemma SameFence(f: FState, g: FState)
    requires g.mailbox == f.mailbox && g.past == f.past && g.phase == f.phase && Fenced(f)
    ensures Fenced(g)
  {
  }

  /** When an index entry is itself a directory the run never answers: nothing
      is ever sent, in any run ... */
  lemma LoopNeverAnswers(s: Session, disk: Disk, labels: seq<Label>)
    requires VerdictOf(s, disk) == Loops
    requires Run(s, disk, Start(s), labels).Some?
    ensures var f := Run(s, disk, Start(s), labels).value; f.sent == [] && Resolving(f.phase)
  {
    RunInv(s, disk, labels);
    hide Run, Start, VerdictOf, Waiting, LeadsOn, Expected;
    var f := Run(s, disk, Start(s), labels).value;
    if StreamInv(s, disk, f, []) {
      ServesSomething(s, disk, f);
    }
    hide StreamInv;
  }

  lemma ServesSomething(s: Session, disk: Disk, f: FState)
    requires StreamInv(s, disk, f, [])
    ensures VerdictOf(s, disk).Serve?
  {
    hide VerdictOf, BodyChunks, Expected, Window, AllFit, ReadLog;
  }

  predicate OwnSteps(labels: seq<Label>) {
    forall l :: l in labels ==> Progress(l)
  }

  /** ... and it goes on for ever: there is a run of every length that Envoy has
      no part in. */
  lemma {:induction false} LoopGoesOn(s: Session, disk: Disk, n: nat) returns (labels: seq<Label>)
    requires VerdictOf(s, disk) == Loops
    ensures |labels| == n && OwnSteps(labels)
    ensures Run(s, disk, Start(s), labels).Some? && !Run(s, disk, Start(s), labels).value.past.completed
  {
    hide VerdictOf, Start, Apply, Enabled, Inv;
    if n == 0 {
      labels := [];
      StartUncompleted(s);
    } else {
      var front := LoopGoesOn(s, disk, n - 1);
      RunCalm(s, disk, front);
      NoStall(s, disk, front);
      LoopNeverAnswers(s, disk, front);
      var f := Run(s, disk, Start(s), front).value;
      var l :| Progress(l) && Enabled(disk, f, l);
      labels := front + [l];
      assert labels[..n - 1] == front;
      ProgressKeepsOn(s, disk, f, l);
    }
  }

  lemma StartUncompleted(s: Session)
    ensures !Start(s).past.completed
  {
    hide BuildFileCandidates;
  }

  ghost predicate StopsWithin(s: Session, disk: Disk, n: nat) {
    forall labels :: OwnSteps(labels) && Run(s, disk, Start(s), labels).Some? ==> |labels| <= n
  }

  /** Exactly the requests that do not loop have a bound on the steps the stream
      takes on its own. */
  lemma EndsExactly(s: Session, disk: Disk)
    ensures VerdictOf(s, disk) != Loops <==> exists n: nat :: StopsWithin(s, disk, n)
  {
    hide VerdictOf, Run, Start, Expected, BuildFileCandidates;
    if VerdictOf(s, disk) != Loops {
      var n := 4 * |Expected(s, disk)| + 3 * (|BuildFileCandidates(s)| + |s.config.indexFiles| + 1);
      forall labels | OwnSteps(labels) && Run(s, disk, Start(s), labels).Some? ensures |labels| <= n {
        EveryRunEnds(s, disk, labels);
        OwnStepsCallNothing(labels);
      }
      assert StopsWithin(s, disk, n);
    } else {
      forall n: nat ensures !StopsWithin(s, disk, n) {
        var labels := LoopGoesOn(s, disk, n + 1);
      }
    }
  }

  lemma {:induction false} OwnStepsCallNothing(labels: seq<Label>)
    requires OwnSteps(labels)
    ensures AllHooks(labels) == 0
  {
    if labels != [] {
      assert labels[|labels| - 1] in labels;
      OwnStepsCallNothing(labels[..|labels| - 1]);
    }
  }

  // -------------------------------------------------------- the paths of a request

  lemma ApplyKnows(s: Session, disk: Disk, f: FState, l: Label)
    requires Inv(s, disk, f, []) && Fenced(f) && Enabled(disk, f, l) && Known(s, f)
    ensures Known(s, Apply(s, disk, f, l))
  {
    hide Inv, OnScheduled, Completes, Fenced, KnownOp;
    if l.Scheduled? {
      var h := f.(wakeups := f.wakeups - 1, script := l.script);
      assert InTransit(h, []) == InTransit(f, []);
      SameTransit(s, disk, f, h, [], []);
      assert Fenced(h) by { SameFence(f, h); }
      ScheduledEnds(s, disk, h);
      MovesKnows(s, disk, h, OnScheduled(s, h));
    }
    hide BuildFileCandidates, IndexEntries;
  }

  lemma MovesKnows(s: Session, disk: Disk, f: FState, g: FState)
    requires Moves(s, disk, f, g) && Known(s, f)
    ensures Known(s, g)
  {
  }

  lemma StartKnows(s: Session)
    ensures Known(s, Start(s))
  {
    var cs := BuildFileCandidates(s);
    KnownCandidate(s, cs);
    hide BuildFileCandidates, IndexEntries;
  }

  /** In every run the stream opens only its candidates and index entries, and
      lists only its own directory. */
  lemma {:induction false} OnlyKnownPaths(s: Session, disk: Disk, labels: seq<Label>)
    requires Run(s, disk, Start(s), labels).Some?
    ensures Known(s, Run(s, disk, Start(s), labels).value)
  {
    hide Inv, Start, Apply, Enabled, Known, Settled;
    if labels == [] {
      StartKnows(s);
    } else {
      var front := labels[..|labels| - 1];
      OnlyKnownPaths(s, disk, front);
      RunCalm(s, disk, front);
      ApplyKnows(s, disk, Run(s, disk, Start(s), front).value, labels[|labels| - 1]);
    }
  }
}

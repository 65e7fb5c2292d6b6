/** Watermarks nest: a stream sends nothing and asks for nothing while more of
    them are high than low, between drains and in the middle of one. */
module Backpressure {
  import opened Text
  import opened EventBridge
  import opened FilterModel
  import opened FilterRuns
  import opened FilterInvariant
  import opened FilterResolve
  import opened FilterStream
  import opened Callbacks
  import Delivery
  import Itinerary
  import Schedules
  import WindowBound
  import RP = ResponsePlan

  // ------------------------------------------------------ what a run has signalled

  /** The marks of one step; before a stream has begun there is nothing to pause. */
  function StepMarks(f: FState, g: FState, l: Label): seq<Hook> {
    match l
    case HighMark => if f.phase.StreamingPhase? then [High] else []
    case LowMark => if f.phase.StreamingPhase? then [Low] else []
    case Scheduled(script) => MarksOf(f.(script := script), g)
    case _ => []
  }

  /** Everything Envoy has signalled since the stream began, in order. */
  function Marks(s: Session, disk: Disk, labels: seq<Label>): seq<Hook>
    requires Run(s, disk, Start(s), labels).Some?
  {
    if labels == [] then []
    else
      var front := labels[..|labels| - 1];
      Marks(s, disk, front)
      + StepMarks(EndOf(s, disk, front), EndOf(s, disk, labels), labels[|labels| - 1])
  }

  /** The Highs still open at the end of a run. */
  function OpenHighs(s: Session, disk: Disk, labels: seq<Label>): nat
    requires Run(s, disk, Start(s), labels).Some?
  {
    PendingFrom(0, Marks(s, disk, labels))
  }

  // ----------------------------------------------------------------- one step

  lemma IssueHeard(f: FState, g: FState, max: nat)
    requires g.phase.StreamingPhase? && Heard(f, g)
    ensures Heard(f, Issue(g, max))
  {
    Schedules.IssueAppends(g, max);
    UnheardIsHeard(g, Issue(g, max));
    hide Heard, Issue;
    HeardOn(f, g, Issue(g, max));
  }

  lemma PassesHeard(f: FState, g: FState, hs: seq<FileHandle>)
    requires Passes(f, g, hs)
    ensures Heard(f, g)
  {
    hide Heard, Links;
  }

  lemma ScheduledHeard(s: Session, disk: Disk, f: FState)
    requires Inv(s, disk, f, [])
    ensures Heard(f.(mailbox := Open([])), OnScheduled(s, f))
  {
    hide Inv, HandleEvents, Passes, Heard, Flush, Issue;
    var events, g := Pending(f.mailbox), f.(mailbox := Open([]));
    assert InTransit(g, events) == InTransit(f, []);
    SameTransit(s, disk, f, g, [], events);
    EventsPass(s, disk, g, events);
    var o := HandleEvents(s, g, events);
    PassesHeard(g, o.state, Brought(events));
    if !o.ended && o.state.phase.StreamingPhase? {
      var h := Flush(o.state).state;
      FlushPasses(o.state);
      PassesHeard(o.state, h, []);
      HeardOn(g, o.state, h);
      if h.phase.StreamingPhase? {
        IssueHeard(g, h, s.config.maxInflightReads);
      }
    }
  }

  /** What a step does to the depth, and which wake-ups it owes. */
  predicate StepHeard(f: FState, g: FState, l: Label) {
    && (f.phase.Done? ==> g.phase.Done?)
    && (f.phase.StreamingPhase? ==> g.phase.StreamingPhase? || g.phase.Done?)
    && (!g.phase.StreamingPhase? && !g.phase.Done? ==> StepMarks(f, g, l) == [])
    && (g.phase.StreamingPhase? ==>
          && g.phase.s.watermarkDepth == PendingFrom(DepthOf(f), StepMarks(f, g, l))
          && g.wakeups + (if l.Scheduled? then 1 else 0)
             == f.wakeups + (if l.Commit? then 1 else 0) + Resumes(DepthOf(f), StepMarks(f, g, l)))
  }

  lemma ApplyHeard(s: Session, disk: Disk, f: FState, l: Label)
    requires Inv(s, disk, f, []) && Enabled(disk, f, l)
    ensures StepHeard(f, Apply(s, disk, f, l), l)
  {
    hide Inv, OnScheduled, Completes, RemoveAt, Flatten;
    if l.Scheduled? {
      var h := f.(wakeups := f.wakeups - 1, script := l.script);
      assert InTransit(h, []) == InTransit(f, []);
      SameTransit(s, disk, f, h, [], []);
      ScheduledHeard(s, disk, h);
      var g := Apply(s, disk, f, l);
      SameMarks(h.(mailbox := Open([])), f.(script := l.script), OnScheduled(s, h), g);
    } else {
      OneMark(DepthOf(f), High);
      OneMark(DepthOf(f), Low);
      NoMarks(DepthOf(f));
    }
  }

  lemma SameMarks(f: FState, f2: FState, g: FState, g2: FState)
    requires f2.sent == f.sent && f2.script == f.script && g2.sent == g.sent && f.sent <= g.sent
    ensures MarksOf(f2, g2) == MarksOf(f, g)
    ensures |g.sent| == |f.sent| ==> MarksOf(f, g) == []
  {
    assert f.script[..0] == [];
  }

  lemma OneMark(d: nat, h: Hook)
    ensures PendingFrom(d, [h]) == match h
                                   case High => d + 1
                                   case Low => if d == 0 then 0 else d - 1
                                   case Complete => d
    ensures Resumes(d, [h]) == if h.Low? && PendingFrom(d, [h]) == 0 then 1 else 0
  {
    assert [h][..0] == [];
  }

  // ---------------------------------------------------------------- whole runs

  lemma {:induction false} RunHeard(s: Session, disk: Disk, labels: seq<Label>)
    requires Run(s, disk, Start(s), labels).Some?
    ensures var f := EndOf(s, disk, labels);
            && (!f.phase.StreamingPhase? && !f.phase.Done? ==> Marks(s, disk, labels) == [])
            && (f.phase.StreamingPhase? ==> f.phase.s.watermarkDepth == OpenHighs(s, disk, labels))
  {
    hide Inv, Start, Apply, Enabled, StepMarks;
    if labels == [] {
      StartResolves(s);
    } else {
      var front, l := labels[..|labels| - 1], labels[|labels| - 1];
      RunHeard(s, disk, front);
      RunInv(s, disk, front);
      var f, g := EndOf(s, disk, front), EndOf(s, disk, labels);
      ApplyHeard(s, disk, f, l);
      PendingConcat(0, Marks(s, disk, front), StepMarks(f, g, l));
      NoMarks(0);
    }
    hide PendingFrom, Resumes;
  }

  lemma StartResolves(s: Session)
    ensures Start(s).phase.ResolvingFile?
  {
    Itinerary.StartAsks(s);
    hide Start, BuildFileCandidates;
  }

  /** The depth of a stream is the number of Highs that Envoy has signalled since
      the stream began and no Low has answered. */
  lemma DepthIsPending(s: Session, disk: Disk, labels: seq<Label>)
    requires Run(s, disk, Start(s), labels).Some? && EndOf(s, disk, labels).phase.StreamingPhase?
    ensures EndOf(s, disk, labels).phase.s.watermarkDepth == OpenHighs(s, disk, labels)
  {
    RunHeard(s, disk, labels);
    hide Run, Start, Marks, OpenHighs;
  }

  // ------------------------------------------------------------ nothing while it is high

  /** Nothing was asked for, and nothing sent but the end after a failed read. */
  predicate HeldBack(f: FState, g: FState) {
    && g.past.submitted == f.past.submitted
    && (g.sent == f.sent || (g.past.readFailed && g.phase.Done? && g.sent == f.sent + [Data([], true)]))
  }

  lemma {:induction false} ReadsHoldBack(s: Session, f: FState, events: seq<IoEvent>)
    requires f.phase.StreamingPhase? && forall i :: 0 <= i < |events| ==> events[i].Read?
    ensures var o := HandleEvents(s, f, events);
            && HeldBack(f, o.state)
            && (!o.ended ==> o.state.phase.StreamingPhase? && o.state.sent == f.sent && DepthOf(o.state) == DepthOf(f))
            && (o.ended ==> o.state.phase.Done?)
    decreases |events|
  {
    hide Send;
    if events != [] {
      var ev := events[0];
      if FailedRead(ev) {
        FailureEnds(f.(phase := Done, past := f.past.(readFailed := true)));
      } else {
        ReadsHoldBack(s, HandleEvent(s, f, ev).state, events[1..]);
      }
    }
  }

  lemma FailureEnds(f: FState)
    requires f.phase.Done? && f.past.readFailed
    ensures var g := Send(f, Data([], true));
            g.phase.Done? && g.past.readFailed && g.sent == f.sent + [Data([], true)]
            && g.past.submitted == f.past.submitted
  {
    SendHeard(f, Data([], true));
    StillFailed(f, Data([], true));
    SendLinks(f, f, Data([], true), []) by { StaysLinked(f, f, []); }
    SendSubmitsNothing(f, Data([], true));
    hide Send, Heard, Links;
  }

  lemma SendSubmitsNothing(f: FState, out: Sent)
    ensures Send(f, out).past.submitted == f.past.submitted && (f.phase.Done? ==> Send(f, out).phase.Done?)
  {
    if f.script != [] {
      HooksSubmitNothing(f.(sent := f.sent + [out], script := f.script[1..]), f.script[0]);
    }
    hide RunHooks;
  }

  lemma {:induction false} HooksSubmitNothing(f: FState, hooks: seq<Hook>)
    ensures var g := RunHooks(f, hooks);
            g.past.submitted == f.past.submitted && (f.phase.Done? ==> g.phase.Done?)
  {
    if hooks != [] {
      HooksSubmitNothing(f, hooks[..|hooks| - 1]);
    }
  }

  lemma StepHeldBack(s: Session, disk: Disk, f: FState, l: Label)
    requires Inv(s, disk, f, []) && Enabled(disk, f, l) && f.phase.StreamingPhase? && f.phase.s.watermarkDepth > 0
    ensures HeldBack(f, Apply(s, disk, f, l))
  {
    hide Inv, Completes, RemoveAt, HandleEvents, Flush, Issue;
    if l.Scheduled? {
      Delivery.PendingReads(s, disk, f);
      var h := f.(wakeups := f.wakeups - 1, script := l.script, mailbox := Open([]));
      ReadsHoldBack(s, h, Pending(f.mailbox));
      var o := HandleEvents(s, h, Pending(f.mailbox));
      if !o.ended {
        Schedules.PumpPaused(s, o.state);
      }
    }
  }

  /** While more Highs than Lows are open no step of any kind sends a byte or
      submits a read, however many Lows have come. */
  lemma HighHoldsBack(s: Session, disk: Disk, labels: seq<Label>, l: Label)
    requires Run(s, disk, Start(s), labels).Some? && Run(s, disk, Start(s), labels + [l]).Some?
    requires EndOf(s, disk, labels).phase.StreamingPhase? && OpenHighs(s, disk, labels) > 0
    ensures HeldBack(EndOf(s, disk, labels), EndOf(s, disk, labels + [l]))
  {
    DepthIsPending(s, disk, labels);
    RunInv(s, disk, labels);
    LastStep(s, disk, labels, l);
    hide Run, Start, Marks, OpenHighs, Inv, Apply, Enabled, HeldBack;
    StepHeldBack(s, disk, EndOf(s, disk, labels), l);
  }

  lemma LastStep(s: Session, disk: Disk, labels: seq<Label>, l: Label)
    requires Run(s, disk, Start(s), labels + [l]).Some?
    ensures Run(s, disk, Start(s), labels).Some? && Enabled(disk, EndOf(s, disk, labels), l)
    ensures EndOf(s, disk, labels + [l]) == Apply(s, disk, EndOf(s, disk, labels), l)
  {
    assert (labels + [l])[..|labels|] == labels;
    hide Start, Apply, Enabled;
  }

  // -------------------------------------------------------- in the middle of a drain

  /** What Envoy had called back before the `i`th call into it. */
  function MarksBefore(f: FState, i: nat): seq<Hook>
    requires |f.sent| <= i
  {
    Flatten(f.script[..Min(i - |f.sent|, |f.script|)])
  }

  /** Each new piece of the body went out with no High open. */
  predicate SentOpen(f: FState, g: FState) {
    forall i :: |f.sent| <= i < |g.sent| && g.sent[i].Data? ==> PendingFrom(DepthOf(f), MarksBefore(f, i)) == 0
  }

  /** What is open within a part of a drain is open within the whole. */
  lemma OpenOn(f: FState, g: FState, h: FState)
    requires Heard(f, g) && g.phase.StreamingPhase? && SentOpen(f, g) && SentOpen(g, h) && g.sent <= h.sent
    ensures SentOpen(f, h)
  {
    hide PendingFrom, Flatten, Resumes;
    forall i | |f.sent| <= i < |h.sent| && h.sent[i].Data?
      ensures PendingFrom(DepthOf(f), MarksBefore(f, i)) == 0 {
      if i < |g.sent| {
        assert h.sent[i] == g.sent[i];
      } else {
        MarksBeforeOn(f, g, i);
        PendingConcat(DepthOf(f), MarksOf(f, g), MarksBefore(g, i));
      }
    }
  }

  lemma MarksBeforeOn(f: FState, g: FState, i: nat)
    requires f.sent <= g.sent && |g.sent| <= i && g.script == f.script[Taken(f, g)..]
    ensures MarksBefore(f, i) == MarksOf(f, g) + MarksBefore(g, i)
  {
    var n, m := Taken(f, g), Min(i - |g.sent|, |g.script|);
    assert f.script[..n + m] == f.script[..n] + g.script[..m];
    FlattenConcat(f.script[..n], g.script[..m]);
  }

  lemma FirstOpen(f: FState, out: Sent)
    requires DepthOf(f) == 0 && (f.phase.StreamingPhase? || f.phase.Done?)
    ensures SentOpen(f, Send(f, out))
  {
    SendHeard(f, out);
    hide Send, Heard;
    assert f.script[..0] == [];
    NoMarks(0);
  }

  lemma LastOpen(f: FState)
    requires f.phase.StreamingPhase? && f.phase.s.nextSend in f.phase.s.ready && f.phase.s.watermarkDepth == 0
    ensures f.sent <= SentAll(f).sent && SentOpen(f, SentAll(f))
  {
    hide Send, Heard, SentOpen;
    var g, out := f.(phase := Done), Data(f.phase.s.ready[f.phase.s.nextSend], true);
    SendHeard(g, out);
    FirstOpen(g, out);
    SameOpen(g, f, SentAll(f));
  }

  lemma NextOpen(f: FState)
    requires f.phase.StreamingPhase? && f.phase.s.nextSend in f.phase.s.ready && f.phase.s.watermarkDepth == 0
    ensures f.sent <= SentOne(f).sent && SentOpen(f, SentOne(f)) && Heard(f, SentOne(f))
  {
    hide Send, Heard, SentOpen, Advanced;
    var g, out := f.(phase := StreamingPhase(Advanced(f.phase.s))), Data(f.phase.s.ready[f.phase.s.nextSend], false);
    AdvancedDepth(f.phase.s);
    SendHeard(g, out);
    FirstOpen(g, out);
    SameOpen(g, f, SentOne(f));
    UnheardIsHeard(f, g);
    HeardOn(f, g, SentOne(f));
  }

  lemma {:induction false} FlushOpen(f: FState)
    requires f.phase.StreamingPhase?
    ensures f.sent <= Flush(f).state.sent && SentOpen(f, Flush(f).state)
    decreases |f.phase.s.ready|
  {
    FlushPass(f);
    Nothing(f);
    var st := f.phase.s;
    hide Heard, SentOpen, SentOne, SentAll, Flush;
    if st.watermarkDepth == 0 && st.nextSend in st.ready {
      if st.nextSend == |st.chunks| - 1 {
        LastOpen(f);
      } else {
        NextOpen(f);
        FlushOpen(SentOne(f));
        OpenOn(f, SentOne(f), Flush(SentOne(f)).state);
      }
    }
  }

  lemma AdvancedDepth(st: Streaming)
    ensures Advanced(st).watermarkDepth == st.watermarkDepth
  {
  }

  lemma Nothing(f: FState)
    ensures SentOpen(f, f)
  {
  }

  lemma SameOpen(f: FState, f2: FState, g: FState)
    requires f2.sent == f.sent && f2.script == f.script && DepthOf(f2) == DepthOf(f) && SentOpen(f, g)
    ensures SentOpen(f2, g)
  {
    forall i | |f2.sent| <= i < |g.sent| && g.sent[i].Data?
      ensures PendingFrom(DepthOf(f2), MarksBefore(f2, i)) == 0 {
      assert MarksBefore(f2, i) == MarksBefore(f, i);
    }
    hide PendingFrom;
  }

  /** The resolver makes at most one call, and it is no piece of a body. */
  predicate OneReply(f: FState, g: FState) {
    g.sent == f.sent || (|g.sent| == |f.sent| + 1 && f.sent <= g.sent && !g.sent[|f.sent|].Data?)
  }

  lemma ReplyOne(f: FState, out: Sent)
    requires !out.Data?
    ensures OneReply(f, Reply(f, out).state)
  {
    SendHeard(f.(phase := Done), out);
    hide Send, Heard;
  }

  lemma CandidateOne(s: Session, f: FState)
    ensures OneReply(f, OpenNextCandidate(s, f).state)
  {
    ReplyOne(f, Response(404, [], NoBody));
    hide Reply, OneReply;
    Same(f);
  }

  lemma Same(f: FState)
    ensures forall g: FState :: g.sent == f.sent ==> OneReply(f, g)
  {
  }

  lemma IndexOne(s: Session, f: FState)
    ensures OneReply(f, OpenNextIndex(s, f).state)
  {
    ReplyOne(f, Response(404, [], NoBody));
    hide Reply, OneReply;
    Same(f);
  }

  lemma DirectoryOne(s: Session, f: FState)
    ensures OneReply(f, HandleDirectory(s, f).state)
  {
    ReplyOne(f, Response(404, [], NoBody));
    ReplyOne(f, Response(403, [], NoBody));
    ReplyOne(f, Redirect(s));
    var g := f.(phase := ResolvingIndex(DirPath(s), IndexEntries(s)));
    IndexOne(s, g);
    SameBase(f, g);
    hide Reply, OneReply, OpenNextIndex, IndexEntries, Redirect;
    Same(f);
  }

  lemma SameBase(f: FState, f2: FState)
    requires f2.sent == f.sent
    ensures forall g :: OneReply(f2, g) ==> OneReply(f, g)
  {
  }

  lemma ServeOne(s: Session, f: FState, handle: FileHandle, stat: FileStat, ctx: OpenCtx, prefetch: Bytes)
    ensures OneReply(f, ServeFile(s, f, handle, stat, ctx, prefetch).state)
  {
    hide Send, Heard, PlanFor, BodyChunks, InlineReady, Seeds;
    var plan := PlanFor(s, ctx, stat);
    var chunks := BodyChunks(plan.body, s.config.chunkSize);
    var kept := if plan.body.Whole? then prefetch else [];
    var seeded := Seeds(chunks, kept);
    var ready := if seeded then InlineReady(chunks)[0 := kept] else InlineReady(chunks);
    SendHeard(f.(phase := StreamingPhase(Streaming(handle, chunks, ready, 0, 0, 0, 0)),
                 past := f.past.(served := Some(Served(plan, handle.content, seeded)))),
      Headers(plan.status, plan.headers, false));
    SendHeard(f.(phase := Done, past := f.past.(served := Some(Served(plan, handle.content, false)))),
      Headers(plan.status, plan.headers, true));
  }

  lemma ControlOne(s: Session, disk: Disk, f: FState, ev: IoEvent, rest: seq<IoEvent>)
    requires ResolvingInv(s, disk, f, [ev] + rest) && NeverInert(f.past.submitted)
    ensures rest == [] && !f.phase.StreamingPhase? && OneReply(f, HandleEvent(s, f, ev).state)
  {
    TakeControl(s, disk, f, ev, rest);
    Same(f);
    hide ResolvingInv, ServeFile, HandleDirectory, OpenNextIndex, OpenNextCandidate, Reply, InTransit, OneReply;
    match ev {
      case Opened(handle, stat, ctx, prefetch) =>
        ServeOne(s, f, handle, stat, ctx, prefetch);
        DirectoryOne(s, f);
        IndexOne(s, f);
        CandidateOne(s, f);
      case OpenError(error) =>
        ReplyOne(f, Response(StatusForIoError(error), [], NoBody));
        IndexOne(s, f);
        CandidateOne(s, f);
      case Dir(listing) =>
        if listing.Listed? {
          ReplyOne(f, ListingReply(s, listing.entries));
        } else {
          ReplyOne(f, Response(StatusForIoError(listing.error), [], NoBody));
        }
      case Read(_, _) =>
    }
    hide Completes;
  }

  /** New pieces of the body went out with no High open, but for the end after a
      failed read. */
  predicate CleanlySent(f: FState, g: FState) {
    SentOpen(f, g) || (g.past.readFailed && g.phase.Done? && g.sent == f.sent + [Data([], true)])
  }

  lemma OneIsClean(f: FState, g: FState)
    requires OneReply(f, g)
    ensures SentOpen(f, g)
  {
  }

  lemma EventsClean(s: Session, disk: Disk, f: FState, events: seq<IoEvent>)
    requires Inv(s, disk, f, events) && f.mailbox == Open([])
    ensures var o := HandleEvents(s, f, events);
            CleanlySent(f, o.state) && (!o.ended && o.state.phase.StreamingPhase? ==> SentOpen(f, o.state))
  {
    hide ResolvingInv, StreamInv, DoneInv, HandleEvent, SentOpen;
    Nothing(f);
    assert HandleEvents(s, f, []) == Outcome(f, false);
    if events != [] {
      var ev, rest := events[0], events[1..];
      assert events == [ev] + rest;
      if ResolvingInv(s, disk, f, [ev] + rest) {
        ControlOne(s, disk, f, ev, rest);
        assert events == [ev];
        OneIsClean(f, HandleEvent(s, f, ev).state);
        SingleEvent(s, f, ev);
        SameOpenAfter(f, HandleEvent(s, f, ev).state, HandleEvents(s, f, [ev]).state);
      } else if StreamInv(s, disk, f, [ev] + rest) {
        PhaseOfStreaming(s, disk, f, [ev] + rest);
        EventsAreReads(s, disk, f, events);
        ReadsHoldBack(s, f, events);
        SameOpenAfter(f, f, HandleEvents(s, f, events).state);
      } else {
        PhaseOfDone(s, disk, f, [ev] + rest);
        DoneSendsNothing(s, disk, f, events);
        SameOpenAfter(f, f, HandleEvents(s, f, events).state);
      }
    }
    hide HandleEvents;
  }

  lemma SingleEvent(s: Session, f: FState, ev: IoEvent)
    ensures var o := HandleEvent(s, f, ev);
            HandleEvents(s, f, [ev]).state.sent == o.state.sent && HandleEvents(s, f, [ev]).ended == o.ended
  {
    hide HandleEvent;
    assert [ev][1..] == [];
    var o := HandleEvent(s, f, ev);
    assert HandleEvents(s, o.state, []) == Outcome(o.state, false);
    assert HandleEvents(s, f, [ev]) ==
           if o.ended then Outcome(o.state.(past := o.state.past.(dropped := o.state.past.dropped + [ev][1..])), true)
           else HandleEvents(s, o.state, [ev][1..]);
  }

  lemma SameOpenAfter(f: FState, g: FState, g2: FState)
    requires SentOpen(f, g)
    ensures g2.sent == g.sent ==> SentOpen(f, g2)
  {
  }

  lemma EventsAreReads(s: Session, disk: Disk, f: FState, events: seq<IoEvent>)
    requires StreamInv(s, disk, f, events)
    ensures forall i :: 0 <= i < |events| ==> events[i].Read?
  {
    hide Window, Expected, ServesVerdict, AllFit;
    AllReads(f.phase.s, f.past.served.value.content, f, events);
    var n := |Pending(f.mailbox)|;
    assert forall i :: 0 <= i < |events| ==> InTransit(f, events)[n + i] == events[i];
  }

  lemma {:induction false} DoneSendsNothing(s: Session, disk: Disk, f: FState, events: seq<IoEvent>)
    requires Inv(s, disk, f, events) && f.phase.Done?
    ensures HandleEvents(s, f, events).state.sent == f.sent
    decreases |events|
  {
    hide Inv, HandleEvent;
    if events != [] {
      var rest := events[1..];
      assert events == [events[0]] + rest;
      ResolvesOrReads(s, disk, f, events[0], rest);
      HandleEventInv(s, disk, f, events[0], rest);
      DoneRead(s, f, events[0]);
      DoneSendsNothing(s, disk, f, rest);
    }
  }

  lemma DoneRead(s: Session, f: FState, ev: IoEvent)
    requires f.phase.Done? && ev.Read?
    ensures HandleEvent(s, f, ev) == Outcome(f, false)
  {
  }

  lemma ScheduledClean(s: Session, disk: Disk, f: FState)
    requires Inv(s, disk, f, [])
    ensures CleanlySent(f.(mailbox := Open([])), OnScheduled(s, f))
  {
    hide Inv, HandleEvents, Passes, Heard, Flush, Issue, SentOpen;
    var events, g := Pending(f.mailbox), f.(mailbox := Open([]));
    assert InTransit(g, events) == InTransit(f, []);
    SameTransit(s, disk, f, g, [], events);
    EventsClean(s, disk, g, events);
    EventsPass(s, disk, g, events);
    var o := HandleEvents(s, g, events);
    PassesHeard(g, o.state, Brought(events));
    if !o.ended && o.state.phase.StreamingPhase? {
      var h := Flush(o.state).state;
      FlushOpen(o.state);
      OpenOn(g, o.state, h);
      if h.phase.StreamingPhase? {
        Schedules.IssueAppends(h, s.config.maxInflightReads);
        SameOpenAfter(g, h, Issue(h, s.config.maxInflightReads));
      }
    }
  }

  lemma StepClean(s: Session, disk: Disk, f: FState, script: seq<seq<Hook>>)
    requires Inv(s, disk, f, []) && f.wakeups > 0
    ensures var g := Apply(s, disk, f, Scheduled(script));
            CleanlySent(f.(script := script), g) && (f.phase.Done? ==> g.sent == f.sent)
  {
    hide Inv, OnScheduled, SentOpen;
    var h := f.(wakeups := f.wakeups - 1, script := script);
    assert InTransit(h, []) == InTransit(f, []);
    SameTransit(s, disk, f, h, [], []);
    ScheduledClean(s, disk, h);
    var o, g := OnScheduled(s, h), Apply(s, disk, f, Scheduled(script));
    if SentOpen(h.(mailbox := Open([])), o) {
      SameOpen(h.(mailbox := Open([])), f.(script := script), o);
      SameOpenAfter(f.(script := script), o, g);
    }
    if f.phase.Done? {
      DoneStays(s, disk, h);
    }
  }

  /** In the middle of a drain: each piece of the body is sent with no High open,
      those called back since the drain began counted too. */
  lemma DataNeedsOpen(s: Session, disk: Disk, labels: seq<Label>, script: seq<seq<Hook>>, i: nat)
    requires Run(s, disk, Start(s), labels).Some? && Run(s, disk, Start(s), labels + [Scheduled(script)]).Some?
    requires var f, g := EndOf(s, disk, labels), EndOf(s, disk, labels + [Scheduled(script)]);
             |f.sent| <= i < |g.sent| && g.sent[i].Data?
    ensures var f, g := EndOf(s, disk, labels), EndOf(s, disk, labels + [Scheduled(script)]);
            || (g.past.readFailed && g.phase.Done? && g.sent == f.sent + [Data([], true)])
            || PendingFrom(0, Marks(s, disk, labels) + Flatten(script[..Min(i - |f.sent|, |script|)])) == 0
  {
    RunInv(s, disk, labels);
    LastStep(s, disk, labels, Scheduled(script));
    var f, g := EndOf(s, disk, labels), EndOf(s, disk, labels + [Scheduled(script)]);
    WakesUp(disk, f, script);
    DepthIsOpen(s, disk, labels);
    var calls := Flatten(script[..Min(i - |f.sent|, |script|)]);
    PendingConcat(0, Marks(s, disk, labels), calls);
    hide Run, Start, Inv, Apply, Enabled, Marks, Flatten, PendingFrom, Resumes, SentOpen;
    StepClean(s, disk, f, script);
    if SentOpen(f.(script := script), g) {
      OpenAt(f.(script := script), g, i);
      assert PendingFrom(DepthOf(f), calls) == 0;
    }
  }

  lemma DepthIsOpen(s: Session, disk: Disk, labels: seq<Label>)
    requires Run(s, disk, Start(s), labels).Some?
    ensures var f := EndOf(s, disk, labels); f.phase.Done? || DepthOf(f) == PendingFrom(0, Marks(s, disk, labels))
  {
    RunHeard(s, disk, labels);
    NoMarks(0);
    hide Run, Start, Marks, PendingFrom;
  }

  lemma OpenAt(f: FState, g: FState, i: nat)
    requires SentOpen(f, g) && |f.sent| <= i < |g.sent| && g.sent[i].Data?
    ensures PendingFrom(DepthOf(f), MarksBefore(f, i)) == 0
  {
  }

  lemma WakesUp(disk: Disk, f: FState, script: seq<seq<Hook>>)
    requires Enabled(disk, f, Scheduled(script))
    ensures f.wakeups > 0
  {
  }

  lemma DoneStays(s: Session, disk: Disk, f: FState)
    requires Inv(s, disk, f, []) && f.phase.Done?
    ensures OnScheduled(s, f).sent == f.sent
  {
    hide Inv, HandleEvents, Pump, Heard, Passes;
    var events, g := Pending(f.mailbox), f.(mailbox := Open([]));
    assert InTransit(g, events) == InTransit(f, []);
    SameTransit(s, disk, f, g, [], events);
    DoneSendsNothing(s, disk, g, events);
    EventsPass(s, disk, g, events);
    PassesHeard(g, HandleEvents(s, g, events).state, Brought(events));
    DoneIsDone(g, HandleEvents(s, g, events).state);
  }

  lemma DoneIsDone(f: FState, g: FState)
    requires Heard(f, g) && f.phase.Done?
    ensures g.phase.Done?
  {
  }

  // ----------------------------------------------------------------- asking for more

  lemma {:induction false} GapIsOpen(f: FState)
    requires f.phase.StreamingPhase? && Flush(f).AtGap?
    ensures Flush(f).state.phase.StreamingPhase? && Flush(f).state.phase.s.watermarkDepth == 0
    decreases |f.phase.s.ready|
  {
    FlushPass(f);
    hide Flush, SentOne, SentAll;
    if f.phase.s.watermarkDepth == 0 && f.phase.s.nextSend in f.phase.s.ready {
      GapIsOpen(SentOne(f));
    }
  }

  /** What a drain submits beyond opens and listings it submits with the depth at
      zero. */
  predicate ReadsOpen(f: FState, g: FState) {
    forall i :: |f.past.submitted| <= i < |g.past.submitted| && g.past.submitted[i].ReadOp? ==>
      g.phase.StreamingPhase? && g.phase.s.watermarkDepth == 0
  }

  lemma PassesNoReads(f: FState, g: FState, hs: seq<FileHandle>)
    requires Passes(f, g, hs)
    ensures ReadsOpen(f, g)
  {
    hide Heard;
  }

  lemma ScheduledReadsOpen(s: Session, disk: Disk, f: FState)
    requires Inv(s, disk, f, [])
    ensures ReadsOpen(f, OnScheduled(s, f))
  {
    hide Inv, HandleEvents, Passes, Flush, Issue;
    var events, g := Pending(f.mailbox), f.(mailbox := Open([]));
    assert InTransit(g, events) == InTransit(f, []);
    SameTransit(s, disk, f, g, [], events);
    EventsPass(s, disk, g, events);
    var o, hs := HandleEvents(s, g, events), Brought(events);
    PassesNoReads(g, o.state, hs);
    if !o.ended && o.state.phase.StreamingPhase? {
      var h := Flush(o.state).state;
      FlushPasses(o.state);
      MorePass(o.state, h, [], hs);
      PassesOn(g, o.state, h, hs);
      PassesNoReads(g, h, hs);
      if Flush(o.state).AtGap? {
        GapIsOpen(o.state);
        Schedules.IssueAppends(h, s.config.maxInflightReads);
      }
    }
  }

  lemma StepReadsOpen(s: Session, disk: Disk, f: FState, l: Label)
    requires Inv(s, disk, f, []) && Enabled(disk, f, l)
    ensures ReadsOpen(f, Apply(s, disk, f, l))
  {
    hide Inv, OnScheduled, Completes;
    if l.Scheduled? {
      var h := f.(wakeups := f.wakeups - 1, script := l.script);
      assert InTransit(h, []) == InTransit(f, []);
      SameTransit(s, disk, f, h, [], []);
      ScheduledReadsOpen(s, disk, h);
    }
  }

  /** A read is only submitted with no High open. */
  lemma ReadsNeedOpen(s: Session, disk: Disk, labels: seq<Label>, l: Label, i: nat)
    requires Run(s, disk, Start(s), labels).Some? && Run(s, disk, Start(s), labels + [l]).Some?
    requires var f, g := EndOf(s, disk, labels), EndOf(s, disk, labels + [l]);
             |f.past.submitted| <= i < |g.past.submitted| && g.past.submitted[i].ReadOp?
    ensures EndOf(s, disk, labels + [l]).phase.StreamingPhase? && OpenHighs(s, disk, labels + [l]) == 0
  {
    RunInv(s, disk, labels);
    LastStep(s, disk, labels, l);
    hide Run, Start, Inv, Apply, Enabled, Marks, OpenHighs;
    StepReadsOpen(s, disk, EndOf(s, disk, labels), l);
    DepthIsPending(s, disk, labels + [l]);
  }

  /** The wake-ups of a stream: a commit and each Low that leaves no High open,
      also in the middle of a drain, owes one; a drain uses one up. */
  lemma LowOwesWakeUp(s: Session, disk: Disk, labels: seq<Label>, l: Label)
    requires Run(s, disk, Start(s), labels).Some? && Run(s, disk, Start(s), labels + [l]).Some?
    requires EndOf(s, disk, labels + [l]).phase.StreamingPhase?
    ensures var f, g := EndOf(s, disk, labels), EndOf(s, disk, labels + [l]);
            g.wakeups + (if l.Scheduled? then 1 else 0)
            == f.wakeups + (if l.Commit? then 1 else 0)
               + Resumes(OpenHighs(s, disk, labels), StepMarks(f, g, l))
  {
    RunHeard(s, disk, labels);
    RunInv(s, disk, labels);
    LastStep(s, disk, labels, l);
    hide Run, Start, Inv, Apply, Enabled, Marks, StepMarks, Resumes;
    NoMarks(0);
    ApplyHeard(s, disk, EndOf(s, disk, labels), l);
  }
}

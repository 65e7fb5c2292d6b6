/** Where a failed response comes from: only a read that completes with an error
    while the stream is not over can mark it. */
module Failures {
  import opened Text
  import opened EventBridge
  import opened FilterModel
  import opened FilterRuns
  import opened FilterInvariant
  import opened FilterResolve
  import opened FilterStream
  import opened FilterProgress
  import opened FilterLiveness
  import RP = ResponsePlan

  predicate NoFailing(evs: seq<IoEvent>) {
    forall i :: 0 <= i < |evs| ==> !FailedRead(evs[i])
  }

  // -------------------------------------------------------- the resolver's part

  lemma ReplySame(f: FState, out: Sent)
    ensures Reply(f, out).state.past.readFailed == f.past.readFailed
  {
    StillFailed(f.(phase := Done), out);
    hide Send;
  }

  lemma OpenNextSame(s: Session, f: FState)
    ensures OpenNextCandidate(s, f).state.past.readFailed == f.past.readFailed
    ensures OpenNextIndex(s, f).state.past.readFailed == f.past.readFailed
  {
    ReplySame(f, Response(404, [], NoBody));
    hide Reply;
  }

  lemma DirectorySame(s: Session, f: FState)
    ensures HandleDirectory(s, f).state.past.readFailed == f.past.readFailed
  {
    ReplySame(f, Response(404, [], NoBody));
    ReplySame(f, Response(403, [], NoBody));
    ReplySame(f, Redirect(s));
    OpenNextSame(s, f.(phase := ResolvingIndex(DirPath(s), IndexEntries(s))));
    hide Reply, Redirect, IndexEntries, OpenNextIndex;
  }

  lemma ServeSame(s: Session, f: FState, handle: FileHandle, stat: FileStat, ctx: OpenCtx, prefetch: Bytes)
    ensures ServeFile(s, f, handle, stat, ctx, prefetch).state.past.readFailed == f.past.readFailed
  {
    hide PlanFor, BodyChunks, Send, InlineReady, Seeds;
    var plan := PlanFor(s, ctx, stat);
    var chunks := BodyChunks(plan.body, s.config.chunkSize);
    var kept := if plan.body.Whole? then prefetch else [];
    var g := f.(phase := Done, past := f.past.(served := Some(Served(plan, handle.content, false))));
    StillFailed(g, Headers(plan.status, plan.headers, true));
    if !plan.body.Empty? && chunks != [] {
      BeginSame(f, plan, handle, chunks, kept);
      hide BeginStreaming;
    }
  }

  lemma BeginSame(f: FState, plan: RP.Plan, handle: FileHandle, chunks: seq<Chunk>, prefetch: Bytes)
    requires chunks != []
    ensures BeginStreaming(f, plan, handle, chunks, prefetch).state.past.readFailed == f.past.readFailed
  {
    hide Send, InlineReady, Seeds;
    var seeded := Seeds(chunks, prefetch);
    var ready := if seeded then InlineReady(chunks)[0 := prefetch] else InlineReady(chunks);
    var g := f.(phase := StreamingPhase(Streaming(handle, chunks, ready, 0, 0, 0, 0)),
                past := f.past.(served := Some(Served(plan, handle.content, seeded))));
    StillFailed(g, Headers(plan.status, plan.headers, false));
  }

  lemma ControlSame(s: Session, f: FState, ev: IoEvent)
    requires !ev.Read?
    ensures HandleEvent(s, f, ev).state.past.readFailed == f.past.readFailed
  {
    hide ServeFile, HandleDirectory, OpenNextIndex, OpenNextCandidate, Reply, ListingReply;
    OpenNextSame(s, f);
    DirectorySame(s, f);
    match ev {
      case Opened(handle, stat, ctx, prefetch) => ServeSame(s, f, handle, stat, ctx, prefetch);
      case OpenError(error) => ReplySame(f, Response(StatusForIoError(error), [], NoBody));
      case Dir(listing) =>
        if listing.Listed? {
          ReplySame(f, ListingReply(s, listing.entries));
        } else {
          ReplySame(f, Response(StatusForIoError(listing.error), [], NoBody));
        }
    }
  }

  // ------------------------------------------------------------- drains and runs

  lemma HandleEventUnbroken(s: Session, disk: Disk, f: FState, ev: IoEvent, rest: seq<IoEvent>)
    requires Inv(s, disk, f, [ev] + rest) && !f.past.readFailed && (f.phase.Done? || !FailedRead(ev))
    ensures var o := HandleEvent(s, f, ev);
            && !o.state.past.readFailed
            && (f.phase.Done? ==> o.state.phase.Done? && !o.ended)
  {
    hide ResolvingInv, StreamInv, DoneInv, HandleOpened, HandleOpenError, HandleDir;
    if !ev.Read? {
      ControlSame(s, f, ev);
    }
    if f.phase.Done? {
      OnlyDoneInv(s, disk, f, [ev] + rest);
      DoneIgnores(s, disk, f, ev, rest);
    }
  }

  lemma OnlyDoneInv(s: Session, disk: Disk, f: FState, drained: seq<IoEvent>)
    requires Inv(s, disk, f, drained) && f.phase.Done?
    ensures DoneInv(s, disk, f, drained) && NeverInert(f.past.submitted)
  {
    hide DoneInv, Waiting, LeadsOn, Window, AllFit, ServesVerdict, Expected;
  }

  lemma {:induction false} HandleEventsUnbroken(s: Session, disk: Disk, f: FState, events: seq<IoEvent>)
    requires Inv(s, disk, f, events) && !f.past.readFailed && (f.phase.Done? || NoFailing(events))
    ensures !HandleEvents(s, f, events).state.past.readFailed
    decreases |events|
  {
    hide Inv, HandleEvent;
    if events != [] {
      var rest := events[1..];
      assert events == [events[0]] + rest;
      HandleEventUnbroken(s, disk, f, events[0], rest);
      HandleEventInv(s, disk, f, events[0], rest);
      var o := HandleEvent(s, f, events[0]);
      if !o.ended {
        HandleEventsUnbroken(s, disk, o.state, rest);
      }
    }
  }

  lemma {:induction false} FlushSame(f: FState)
    requires f.phase.StreamingPhase?
    ensures Flush(f).state.past.readFailed == f.past.readFailed
    decreases |f.phase.s.ready|
  {
    hide Send, Advanced;
    if f.phase.s.nextSend in f.phase.s.ready {
      var bytes := f.phase.s.ready[f.phase.s.nextSend];
      StillFailed(f.(phase := StreamingPhase(Advanced(f.phase.s))), Data(bytes, false));
      StillFailed(f.(phase := Done), Data(bytes, true));
      SentOneShrinks(f);
      if f.phase.s.watermarkDepth == 0 && f.phase.s.nextSend != |f.phase.s.chunks| - 1 {
        FlushSame(SentOne(f));
      }
    }
  }

  lemma {:induction false} IssueSame(f: FState, max: nat)
    requires f.phase.StreamingPhase?
    ensures Issue(f, max).past.readFailed == f.past.readFailed
    decreases |f.phase.s.chunks| - f.phase.s.issueCursor
  {
    if WantsMore(f.phase.s, max) {
      IssueSame(if SkipsNext(f.phase.s) then Skipped(f) else Issued(f), max);
    }
  }

  lemma PumpSame(s: Session, f: FState)
    requires f.phase.StreamingPhase?
    ensures Pump(s, f).past.readFailed == f.past.readFailed
  {
    FlushSame(f);
    hide Flush, Issue;
    if Flush(f).state.phase.StreamingPhase? {
      IssueSame(Flush(f).state, s.config.maxInflightReads);
    }
  }

  lemma ScheduledUnbroken(s: Session, disk: Disk, f: FState)
    requires Inv(s, disk, f, []) && !f.past.readFailed && (f.phase.Done? || NoFailing(Pending(f.mailbox)))
    ensures !OnScheduled(s, f).past.readFailed
  {
    hide Inv, HandleEvents, Pump;
    var events := Pending(f.mailbox);
    var g := f.(mailbox := Open([]));
    assert InTransit(g, events) == InTransit(f, []);
    hide InTransit;
    SameTransit(s, disk, f, g, [], events);
    HandleEventsUnbroken(s, disk, g, events);
    var o := HandleEvents(s, g, events);
    if !o.ended && o.state.phase.StreamingPhase? {
      PumpSame(s, o.state);
    }
  }

  /** No read has failed, and none that still matters is waiting to be heard of. */
  predicate Unbroken(f: FState) {
    !f.past.readFailed && (f.phase.Done? || NoFailing(Pending(f.mailbox)))
  }

  lemma ApplyUnbroken(s: Session, disk: Disk, f: FState, l: Label)
    requires Inv(s, disk, f, []) && Fenced(f) && Unbroken(f) && Enabled(disk, f, l)
    requires FailsRead(l) ==> f.phase.Done?
    ensures Unbroken(Apply(s, disk, f, l))
  {
    hide Inv, OnScheduled, Completes;
    if l.Scheduled? {
      var h := f.(wakeups := f.wakeups - 1, script := l.script);
      assert InTransit(h, []) == InTransit(f, []);
      SameTransit(s, disk, f, h, [], []);
      ScheduledUnbroken(s, disk, h);
      SameFence(f, h);
      ScheduledEnds(s, disk, h);
    }
    hide Moves, Pumped;
  }

  /** Reads fail, if at all, when the response is over. */
  ghost predicate FailsOnlyWhenDone(s: Session, disk: Disk, labels: seq<Label>) {
    labels != [] ==>
      && FailsOnlyWhenDone(s, disk, labels[..|labels| - 1])
      && (FailsRead(labels[|labels| - 1]) ==>
            var before := Run(s, disk, Start(s), labels[..|labels| - 1]); before.Some? ==> before.value.phase.Done?)
  }

  lemma {:induction false} RunUnbroken(s: Session, disk: Disk, labels: seq<Label>)
    requires Run(s, disk, Start(s), labels).Some? && FailsOnlyWhenDone(s, disk, labels)
    ensures Unbroken(Run(s, disk, Start(s), labels).value)
  {
    hide Inv, Start, Apply, Enabled, Unbroken, Settled;
    if labels == [] {
      StartCalm(s);
      StartUnbroken(s);
    } else {
      var front := labels[..|labels| - 1];
      RunUnbroken(s, disk, front);
      RunCalm(s, disk, front);
      ApplyUnbroken(s, disk, Run(s, disk, Start(s), front).value, labels[|labels| - 1]);
    }
  }

  lemma StartUnbroken(s: Session)
    ensures Unbroken(Start(s))
  {
    hide BuildFileCandidates;
  }

  lemma {:induction false} NoneFailsAtAll(s: Session, disk: Disk, labels: seq<Label>)
    requires NoneFails(labels)
    ensures FailsOnlyWhenDone(s, disk, labels)
  {
    hide Run, Start;
    if labels != [] {
      assert labels[|labels| - 1] in labels;
      NoneFailsAtAll(s, disk, labels[..|labels| - 1]);
    }
  }

  /** A run without a failing read completion has not been cut short. */
  lemma FailureNeedsFailedRead(s: Session, disk: Disk, labels: seq<Label>)
    requires Run(s, disk, Start(s), labels).Some? && NoneFails(labels)
    ensures !Run(s, disk, Start(s), labels).value.past.readFailed
  {
    NoneFailsAtAll(s, disk, labels);
    RunUnbroken(s, disk, labels);
    hide Run, Start;
  }
}

/** What every piece of a callback passes on: which handles the stream keeps,
    what it submits, and how it hears the watermarks that Envoy raises and lowers
    during its sends. */
module Callbacks {
  import opened Text
  import opened EventBridge
  import opened FilterModel
  import opened FilterRuns
  import opened FilterInvariant
  import opened FilterResolve
  import opened FilterStream

  // --------------------------------------------------------------- what is held

  /** The handles that completions bring. */
  function Brought(evs: seq<IoEvent>): seq<FileHandle> {
    if evs == [] then [] else (if evs[0].Opened? then [evs[0].handle] else []) + Brought(evs[1..])
  }

  /** The handles a stream keeps alive: the one it streams from, and those of
      completions in its mailbox. */
  function HandlesOf(f: FState): seq<FileHandle> {
    (if f.phase.StreamingPhase? then [f.phase.s.handle] else []) + Brought(Pending(f.mailbox))
  }

  // ---------------------------------------------------------- what Envoy signals

  /** The Highs that no Low has answered, when `d` were open before `marks`: a Low
      with none open answers nothing. */
  function PendingFrom(d: nat, marks: seq<Hook>): nat {
    if marks == [] then d
    else
      var before := PendingFrom(d, marks[..|marks| - 1]);
      match marks[|marks| - 1]
      case High => before + 1
      case Low => if before == 0 then 0 else before - 1
      case Complete => before
  }

  /** How many Lows among `marks` leave no High open. */
  function Resumes(d: nat, marks: seq<Hook>): nat {
    if marks == [] then 0
    else Resumes(d, marks[..|marks| - 1]) + if marks[|marks| - 1].Low? && PendingFrom(d, marks) == 0 then 1 else 0
  }

  /** The callbacks of several sends, in order. */
  function Flatten(script: seq<seq<Hook>>): seq<Hook> {
    if script == [] then [] else Flatten(script[..|script| - 1]) + script[|script| - 1]
  }

  lemma {:induction false} PendingConcat(d: nat, a: seq<Hook>, b: seq<Hook>)
    ensures PendingFrom(d, a + b) == PendingFrom(PendingFrom(d, a), b)
    ensures Resumes(d, a + b) == Resumes(d, a) + Resumes(PendingFrom(d, a), b)
  {
    if b == [] {
      assert a + b == a;
    } else {
      assert (a + b)[..|a + b| - 1] == a + b[..|b| - 1];
      PendingConcat(d, a, b[..|b| - 1]);
    }
  }

  lemma {:induction false} FlattenConcat(a: seq<seq<Hook>>, b: seq<seq<Hook>>)
    ensures Flatten(a + b) == Flatten(a) + Flatten(b)
  {
    if b == [] {
      assert a + b == a;
    } else {
      assert (a + b)[..|a + b| - 1] == a + b[..|b| - 1];
      FlattenConcat(a, b[..|b| - 1]);
    }
  }

  function DepthOf(f: FState): nat {
    if f.phase.StreamingPhase? then f.phase.s.watermarkDepth else 0
  }

  /** How many lists of callbacks the sends from `f` to `g` used up. */
  function Taken(f: FState, g: FState): nat {
    if |f.sent| <= |g.sent| then Min(|g.sent| - |f.sent|, |f.script|) else 0
  }

  /** What Envoy called back during those sends. */
  function MarksOf(f: FState, g: FState): seq<Hook> {
    Flatten(f.script[..Taken(f, g)])
  }

  /** The depth of a stream counts the Highs still open, since it began, and each
      Low that left none open has owed a wake-up. */
  predicate Heard(f: FState, g: FState) {
    && f.sent <= g.sent && g.script == f.script[Taken(f, g)..]
    && (f.phase.Done? ==> g.phase.Done?)
    && (f.phase.StreamingPhase? ==> g.phase.StreamingPhase? || g.phase.Done?)
    && (g.phase.StreamingPhase? ==>
          && g.phase.s.watermarkDepth == PendingFrom(DepthOf(f), MarksOf(f, g))
          && g.wakeups == f.wakeups + Resumes(DepthOf(f), MarksOf(f, g)))
    && (!g.phase.StreamingPhase? && !g.phase.Done? ==> g.sent == f.sent && g.wakeups == f.wakeups)
  }

  /** No send, and no mark. */
  predicate Unheard(f: FState, g: FState) {
    && g.sent == f.sent && g.script == f.script && g.wakeups == f.wakeups
    && (f.phase.Done? ==> g.phase.Done?)
    && (f.phase.StreamingPhase? ==> g.phase.StreamingPhase? || g.phase.Done?)
    && (g.phase.StreamingPhase? ==> DepthOf(g) == DepthOf(f))
  }

  lemma UnheardIsHeard(f: FState, g: FState)
    requires Unheard(f, g)
    ensures Heard(f, g)
  {
    assert f.script[..0] == [] && f.script[0..] == f.script;
  }

  lemma MarksOn(f: FState, g: FState, h: FState)
    requires f.sent <= g.sent <= h.sent && g.script == f.script[Taken(f, g)..]
    ensures h.script == g.script[Taken(g, h)..] ==> h.script == f.script[Taken(f, h)..]
    ensures MarksOf(f, h) == MarksOf(f, g) + MarksOf(g, h)
  {
    var n, m := Taken(f, g), Taken(g, h);
    assert Taken(f, h) == n + m;
    assert f.script[..n + m] == f.script[..n] + g.script[..m];
    FlattenConcat(f.script[..n], g.script[..m]);
  }

  lemma HeardOn(f: FState, g: FState, h: FState)
    requires Heard(f, g) && Heard(g, h)
    ensures Heard(f, h)
  {
    MarksOn(f, g, h);
    PendingConcat(DepthOf(f), MarksOf(f, g), MarksOf(g, h));
    if !g.phase.StreamingPhase? && !g.phase.Done? {
      assert f.script[..0] == [];
    }
    hide Flatten, PendingFrom, Resumes;
  }

  lemma {:induction false} HooksHeard(f: FState, hooks: seq<Hook>)
    requires f.phase.StreamingPhase?
    ensures var g := RunHooks(f, hooks);
            && g.phase.StreamingPhase? && g.phase.s.watermarkDepth == PendingFrom(DepthOf(f), hooks)
            && g.wakeups == f.wakeups + Resumes(DepthOf(f), hooks)
  {
    if hooks != [] {
      HooksHeard(f, hooks[..|hooks| - 1]);
    }
  }

  lemma {:induction false} HooksLeave(f: FState, hooks: seq<Hook>)
    ensures var g := RunHooks(f, hooks);
            g.sent == f.sent && g.script == f.script && (!f.phase.StreamingPhase? ==> g.phase == f.phase)
  {
    if hooks != [] {
      HooksLeave(f, hooks[..|hooks| - 1]);
    }
  }

  lemma SendHeard(f: FState, out: Sent)
    requires f.phase.StreamingPhase? || f.phase.Done?
    ensures Heard(f, Send(f, out)) && Send(f, out).sent == f.sent + [out]
  {
    hide RunHooks, PendingFrom, Resumes;
    var g := f.(sent := f.sent + [out]);
    if f.script == [] {
      assert f.script[..0] == [];
      NoMarks(DepthOf(f));
    } else {
      var k := g.(script := g.script[1..]);
      HooksLeave(k, f.script[0]);
      assert f.script[..1] == [f.script[0]] && [f.script[0]][..0] == [];
      assert Flatten([f.script[0]]) == [] + f.script[0] == f.script[0];
      if f.phase.StreamingPhase? {
        HooksHeard(k, f.script[0]);
      }
    }
  }

  lemma NoMarks(d: nat)
    ensures PendingFrom(d, []) == d && Resumes(d, []) == 0
  {
  }

  // ------------------------------------------------------- what a callback passes on

  /** A piece of a callback: the marks are heard; no read is submitted, what is
      submitted is outstanding, and a handle streamed from is an old one or one of
      `hs`. */
  predicate Passes(f: FState, g: FState, hs: seq<FileHandle>) {
    Links(f, g, hs) && Heard(f, g)
  }

  predicate Links(f: FState, g: FState, hs: seq<FileHandle>) {
    && (Pending(f.mailbox) == [] ==> Pending(g.mailbox) == [])
    && (g.phase.StreamingPhase? ==>
          (f.phase.StreamingPhase? && g.phase.s.handle == f.phase.s.handle) || g.phase.s.handle in hs)
    && Grew(f, g)
    && forall i :: |f.past.submitted| <= i < |g.past.submitted| ==> !g.past.submitted[i].ReadOp?
  }

  predicate Grew(f: FState, g: FState) {
    f.past.submitted <= g.past.submitted && g.ops == f.ops + g.past.submitted[|f.past.submitted|..]
  }

  lemma GrewOn(f: FState, g: FState, h: FState)
    requires Grew(f, g) && Grew(g, h)
    ensures Grew(f, h)
  {
    var a, b := g.past.submitted[|f.past.submitted|..], h.past.submitted[|g.past.submitted|..];
    assert h.past.submitted[|f.past.submitted|..] == a + b;
    assert f.ops + a + b == f.ops + (a + b);
  }

  lemma LinksOn(f: FState, g: FState, h: FState, hs: seq<FileHandle>)
    requires Links(f, g, hs) && Links(g, h, hs)
    ensures Links(f, h, hs)
  {
    GrewOn(f, g, h);
    hide Grew;
    forall i | |f.past.submitted| <= i < |h.past.submitted| ensures !h.past.submitted[i].ReadOp? {
      GrewPrefix(g, h, i);
    }
  }

  lemma PassesOn(f: FState, g: FState, h: FState, hs: seq<FileHandle>)
    requires Passes(f, g, hs) && Passes(g, h, hs)
    ensures Passes(f, h, hs)
  {
    hide Links, Heard;
    LinksOn(f, g, h, hs);
    HeardOn(f, g, h);
  }

  lemma GrewPrefix(g: FState, h: FState, i: nat)
    requires Grew(g, h)
    ensures |g.past.submitted| <= |h.past.submitted|
    ensures i < |g.past.submitted| ==> h.past.submitted[i] == g.past.submitted[i]
  {
  }

  lemma StaysLinked(f: FState, g: FState, hs: seq<FileHandle>)
    requires g.past.submitted == f.past.submitted && g.ops == f.ops
    requires Pending(f.mailbox) == [] ==> Pending(g.mailbox) == []
    requires g.phase.StreamingPhase? ==>
               (f.phase.StreamingPhase? && g.phase.s.handle == f.phase.s.handle) || g.phase.s.handle in hs
    ensures Links(f, g, hs)
  {
    assert f.past.submitted[|f.past.submitted|..] == [];
  }

  /** A step without a send. */
  lemma StaysPassed(f: FState, g: FState, hs: seq<FileHandle>)
    requires g.past.submitted == f.past.submitted && g.ops == f.ops
    requires Pending(f.mailbox) == [] ==> Pending(g.mailbox) == []
    requires g.phase.StreamingPhase? ==>
               (f.phase.StreamingPhase? && g.phase.s.handle == f.phase.s.handle) || g.phase.s.handle in hs
    requires Unheard(f, g)
    ensures Passes(f, g, hs)
  {
    StaysLinked(f, g, hs);
    UnheardIsHeard(f, g);
    hide Links, Heard, Unheard;
  }

  lemma {:induction false} HooksLink(f: FState, hooks: seq<Hook>)
    ensures Links(f, RunHooks(f, hooks), [])
  {
    if hooks == [] {
      StaysLinked(f, f, []);
    } else {
      var g := RunHooks(f, hooks[..|hooks| - 1]);
      HooksLink(f, hooks[..|hooks| - 1]);
      StaysLinked(g, RunHook(g, hooks[|hooks| - 1]), []);
      LinksOn(f, g, RunHook(g, hooks[|hooks| - 1]), []);
    }
  }

  lemma MorePass(f: FState, g: FState, hs: seq<FileHandle>, more: seq<FileHandle>)
    requires Passes(f, g, hs) && forall h :: h in hs ==> h in more
    ensures Passes(f, g, more)
  {
    MoreLink(f, g, hs, more);
    hide Links, Heard;
  }

  lemma MoreLink(f: FState, g: FState, hs: seq<FileHandle>, more: seq<FileHandle>)
    requires Links(f, g, hs) && forall h :: h in hs ==> h in more
    ensures Links(f, g, more)
  {
  }

  lemma SendLinks(f: FState, g: FState, out: Sent, hs: seq<FileHandle>)
    requires Links(f, g, hs)
    ensures Links(f, Send(g, out), hs)
  {
    var h := g.(sent := g.sent + [out]);
    StaysLinked(g, h, hs);
    LinksOn(f, g, h, hs);
    if h.script != [] {
      var k := h.(script := h.script[1..]);
      StaysLinked(h, k, hs);
      LinksOn(f, h, k, hs);
      HooksLink(k, h.script[0]);
      MoreLink(k, RunHooks(k, h.script[0]), [], hs);
      LinksOn(f, k, RunHooks(k, h.script[0]), hs);
    }
    hide Links, RunHooks;
  }

  /** A send, after a step without one that leaves the stream streaming or done. */
  lemma SendPasses(f: FState, g: FState, out: Sent, hs: seq<FileHandle>)
    requires Passes(f, g, hs) && (g.phase.StreamingPhase? || g.phase.Done?)
    ensures Passes(f, Send(g, out), hs)
  {
    hide Links, Heard, Send;
    SendLinks(f, g, out, hs);
    SendHeard(g, out);
    HeardOn(f, g, Send(g, out));
  }

  lemma ReplyPasses(f: FState, out: Sent)
    ensures Passes(f, Reply(f, out).state, [])
  {
    StaysPassed(f, f.(phase := Done), []);
    SendPasses(f, f.(phase := Done), out, []);
    hide Passes, Send;
  }

  lemma SubmitPasses(f: FState, p: Phase, op: Op)
    requires !op.ReadOp? && Resolving(f.phase) && Resolving(p)
    ensures Passes(f, Submit(f.(phase := p), op), [])
  {
    SubmitLinks(f, p, op);
    UnheardIsHeard(f, Submit(f.(phase := p), op));
    hide Links, Heard;
  }

  lemma SubmitLinks(f: FState, p: Phase, op: Op)
    requires !op.ReadOp? && Resolving(p)
    ensures Links(f, Submit(f.(phase := p), op), [])
  {
    assert (f.past.submitted + [op])[|f.past.submitted|..] == [op];
  }

  lemma NextCandidatePasses(s: Session, f: FState)
    ensures Passes(f, OpenNextCandidate(s, f).state, [])
  {
    hide Passes, Reply, Submit;
    StaysPassed(f, f, []);
    ReplyPasses(f, Response(404, [], NoBody));
    if f.phase.ResolvingFile? && f.phase.pending != [] {
      var c := f.phase.pending[0];
      SubmitPasses(f, ResolvingFile(f.phase.pending[1..]), OpenOp(c.fsPath, CtxOf(c), PrefetchLen(s)));
    }
  }

  lemma FallbackPasses(s: Session, f: FState, p: Phase, dir: Bytes)
    requires Resolving(f.phase) && Resolving(p)
    ensures Passes(f, DirectoryFallback(s, f.(phase := p), dir).state, [])
  {
    hide Passes, Submit;
    SubmitPasses(f, p, ReadDirOp(dir));
    ReplyPasses(f, Response(404, [], NoBody));
    assert f.(phase := p).(phase := Done) == f.(phase := Done);
  }

  lemma NextIndexPasses(s: Session, f: FState, p: Phase)
    requires Resolving(f.phase) && Resolving(p)
    ensures Passes(f, OpenNextIndex(s, f.(phase := p)).state, [])
  {
    hide Passes, DirectoryFallback, Submit;
    StaysPassed(f, f.(phase := p), []);
    if p.ResolvingIndex? {
      if p.entries == [] {
        FallbackPasses(s, f, p, p.dirFs);
      } else {
        var e := p.entries[0];
        SubmitPasses(f, ResolvingIndex(p.dirFs, p.entries[1..]), OpenOp(e.0, IndexCtx(e.1), PrefetchLen(s)));
      }
    }
  }

  lemma DirectoryPasses(s: Session, f: FState)
    requires Resolving(f.phase)
    ensures Passes(f, HandleDirectory(s, f).state, [])
  {
    hide Passes, Reply, DirectoryFallback, OpenNextIndex, IndexEntries, Redirect;
    ReplyPasses(f, Redirect(s));
    ReplyPasses(f, Response(403, [], NoBody));
    FallbackPasses(s, f, f.phase, DirPath(s));
    assert f.(phase := f.phase) == f;
    NextIndexPasses(s, f, ResolvingIndex(DirPath(s), IndexEntries(s)));
  }

  lemma ServePasses(s: Session, f: FState, handle: FileHandle, stat: FileStat, ctx: OpenCtx, prefetch: Bytes)
    requires Resolving(f.phase)
    ensures Passes(f, ServeFile(s, f, handle, stat, ctx, prefetch).state, [handle])
  {
    hide Passes, Send, PlanFor, BodyChunks, InlineReady, Seeds;
    var plan := PlanFor(s, ctx, stat);
    var chunks := BodyChunks(plan.body, s.config.chunkSize);
    var kept := if plan.body.Whole? then prefetch else [];
    var seeded := Seeds(chunks, kept);
    var ready := if seeded then InlineReady(chunks)[0 := kept] else InlineReady(chunks);
    var g := f.(phase := Done, past := f.past.(served := Some(Served(plan, handle.content, false))));
    var h := f.(phase := StreamingPhase(Streaming(handle, chunks, ready, 0, 0, 0, 0)),
                past := f.past.(served := Some(Served(plan, handle.content, seeded))));
    StaysPassed(f, g, [handle]);
    StaysPassed(f, h, [handle]);
    SendPasses(f, g, Headers(plan.status, plan.headers, true), [handle]);
    SendPasses(f, h, Headers(plan.status, plan.headers, false), [handle]);
  }

  lemma OpenedPasses(s: Session, f: FState, ev: IoEvent)
    requires ev.Opened? && Resolving(f.phase)
    ensures Passes(f, HandleEvent(s, f, ev).state, [ev.handle])
  {
    hide Passes, HandleDirectory, OpenNextCandidate, OpenNextIndex, ServeFile;
    StaysPassed(f, f, [ev.handle]);
    ServePasses(s, f, ev.handle, ev.stat, ev.ctx, ev.prefetch);
    DirectoryPasses(s, f);
    MorePass(f, HandleDirectory(s, f).state, [], [ev.handle]);
    NextCandidatePasses(s, f);
    MorePass(f, OpenNextCandidate(s, f).state, [], [ev.handle]);
    NextIndexPasses(s, f, f.phase);
    assert f.(phase := f.phase) == f;
    MorePass(f, OpenNextIndex(s, f).state, [], [ev.handle]);
  }

  lemma OpenErrorPasses(s: Session, f: FState, error: IoError)
    ensures Passes(f, HandleOpenError(s, f, error).state, [])
  {
    hide Passes, Reply, OpenNextCandidate, OpenNextIndex;
    StaysPassed(f, f, []);
    ReplyPasses(f, Response(StatusForIoError(error), [], NoBody));
    NextCandidatePasses(s, f);
    if f.phase.ResolvingIndex? {
      NextIndexPasses(s, f, f.phase);
      assert f.(phase := f.phase) == f;
    }
  }

  lemma ReadPasses(f: FState, seqNo: nat, result: ReadResult)
    ensures Passes(f, HandleRead(f, seqNo, result).state, [])
  {
    var g := f.(phase := Done, past := f.past.(readFailed := true));
    StaysPassed(f, f, []);
    StaysPassed(f, g, []);
    SendPasses(f, g, Data([], true), []);
    hide Send;
    if f.phase.StreamingPhase? && result.Got? {
      StaysPassed(f, HandleRead(f, seqNo, result).state, []);
    }
    hide Passes;
  }

  lemma DirPasses(s: Session, f: FState, listing: ListOutcome)
    ensures Passes(f, HandleDir(s, f, listing).state, [])
  {
    hide Passes, Reply;
    if listing.Listed? {
      ReplyPasses(f, ListingReply(s, listing.entries));
    } else {
      ReplyPasses(f, Response(StatusForIoError(listing.error), [], NoBody));
    }
  }

  lemma EventPasses(s: Session, f: FState, ev: IoEvent)
    requires Resolving(f.phase) || ev.Read?
    ensures Passes(f, HandleEvent(s, f, ev).state, if ev.Opened? then [ev.handle] else [])
  {
    hide Passes, HandleOpened, HandleOpenError, HandleDir, HandleRead;
    match ev {
      case Opened(_, _, _, _) => OpenedPasses(s, f, ev);
      case OpenError(error) => OpenErrorPasses(s, f, error);
      case Read(seqNo, result) => ReadPasses(f, seqNo, result);
      case Dir(listing) => DirPasses(s, f, listing);
    }
  }

  lemma ResolvesOrReads(s: Session, disk: Disk, f: FState, ev: IoEvent, rest: seq<IoEvent>)
    requires Inv(s, disk, f, [ev] + rest)
    ensures Resolving(f.phase) || ev.Read?
  {
    hide ResolvingInv, StreamInv, DoneInv;
    if ResolvingInv(s, disk, f, [ev] + rest) {
      PhaseOfResolving(s, disk, f, [ev] + rest);
    } else if StreamInv(s, disk, f, [ev] + rest) {
      StreamsReads(s, disk, f, ev, rest);
    } else {
      DoneIgnores(s, disk, f, ev, rest);
    }
  }

  lemma {:induction false} EventsPass(s: Session, disk: Disk, f: FState, events: seq<IoEvent>)
    requires Inv(s, disk, f, events)
    ensures Passes(f, HandleEvents(s, f, events).state, Brought(events))
    decreases |events|
  {
    hide Inv, HandleEvent, Passes;
    if events == [] {
      StaysPassed(f, f, []);
    } else {
      var rest := events[1..];
      assert events == [events[0]] + rest;
      ResolvesOrReads(s, disk, f, events[0], rest);
      EventPasses(s, f, events[0]);
      HandleEventInv(s, disk, f, events[0], rest);
      var o := HandleEvent(s, f, events[0]);
      MorePass(f, o.state, if events[0].Opened? then [events[0].handle] else [], Brought(events));
      if o.ended {
        var g := o.state.(past := o.state.past.(dropped := o.state.past.dropped + rest));
        StaysPassed(o.state, g, Brought(events));
        PassesOn(f, o.state, g, Brought(events));
      } else {
        EventsPass(s, disk, o.state, rest);
        MorePass(o.state, HandleEvents(s, o.state, rest).state, Brought(rest), Brought(events));
        PassesOn(f, o.state, HandleEvents(s, o.state, rest).state, Brought(events));
      }
    }
  }

  lemma {:induction false} FlushPasses(f: FState)
    requires f.phase.StreamingPhase?
    ensures Passes(f, Flush(f).state, [])
    decreases |f.phase.s.ready|
  {
    hide Passes, Send;
    FlushPass(f);
    StaysPassed(f, f, []);
    var st := f.phase.s;
    if st.watermarkDepth == 0 && st.nextSend in st.ready {
      var bytes := st.ready[st.nextSend];
      StaysPassed(f, f.(phase := Done), []);
      SendPasses(f, f.(phase := Done), Data(bytes, true), []);
      StaysPassed(f, f.(phase := StreamingPhase(Advanced(st))), []);
      SendPasses(f, f.(phase := StreamingPhase(Advanced(st))), Data(bytes, false), []);
      hide Flush;
      if st.nextSend != |st.chunks| - 1 {
        FlushPasses(SentOne(f));
        PassesOn(f, SentOne(f), Flush(SentOne(f)).state, []);
      }
    }
  }

  /** A whole callback: reads are submitted through the handle the stream then
      holds. */
  predicate Hands(f: FState, g: FState, hs: seq<FileHandle>) {
    && (Pending(f.mailbox) == [] ==> Pending(g.mailbox) == [])
    && (g.phase.StreamingPhase? ==>
          (f.phase.StreamingPhase? && g.phase.s.handle == f.phase.s.handle) || g.phase.s.handle in hs)
    && Grew(f, g)
    && forall i :: |f.past.submitted| <= i < |g.past.submitted| && g.past.submitted[i].ReadOp? ==>
         g.phase.StreamingPhase? && g.past.submitted[i].handle == g.phase.s.handle
  }

  lemma {:induction false} IssueHands(f: FState, g: FState, max: nat, hs: seq<FileHandle>)
    requires g.phase.StreamingPhase? && Hands(f, g, hs)
    ensures Hands(f, Issue(g, max), hs)
    decreases |g.phase.s.chunks| - g.phase.s.issueCursor
  {
    if WantsMore(g.phase.s, max) {
      if SkipsNext(g.phase.s) {
        IssueHands(f, Skipped(g), max, hs);
      } else {
        var op := NextRead(g.phase.s);
        assert (g.past.submitted + [op])[|f.past.submitted|..] == g.past.submitted[|f.past.submitted|..] + [op];
        assert Grew(f, Issued(g));
        IssueHands(f, Issued(g), max, hs);
      }
    }
  }

  lemma PassesHands(f: FState, g: FState, hs: seq<FileHandle>)
    requires Passes(f, g, hs)
    ensures Hands(f, g, hs)
  {
    hide Grew;
  }

  lemma ScheduledHands(s: Session, disk: Disk, f: FState)
    requires Inv(s, disk, f, [])
    ensures Hands(f.(mailbox := Open([])), OnScheduled(s, f), Brought(Pending(f.mailbox)))
  {
    hide Inv, HandleEvents, Passes, Hands, Flush, Issue;
    var events, g := Pending(f.mailbox), f.(mailbox := Open([]));
    assert InTransit(g, events) == InTransit(f, []);
    SameTransit(s, disk, f, g, [], events);
    EventsPass(s, disk, g, events);
    var o, hs := HandleEvents(s, g, events), Brought(events);
    PassesHands(g, o.state, hs);
    if !o.ended && o.state.phase.StreamingPhase? {
      var h := Flush(o.state).state;
      FlushPasses(o.state);
      MorePass(o.state, h, [], hs);
      PassesOn(g, o.state, h, hs);
      PassesHands(g, h, hs);
      if h.phase.StreamingPhase? {
        IssueHands(g, h, s.config.maxInflightReads, hs);
      }
    }
  }

  /** What a step of the stream leaves of the handles and submits. */
  predicate HandsOver(f: FState, g: FState) {
    && Grew(f, g)
    && (forall h :: h in HandlesOf(g) ==> h in HandlesOf(f))
    && forall i :: |f.past.submitted| <= i < |g.past.submitted| && g.past.submitted[i].ReadOp? ==>
         g.phase.StreamingPhase? && g.past.submitted[i].handle == g.phase.s.handle
  }

  /** What any step of the stream other than a completion does. */
  lemma LabelHands(s: Session, disk: Disk, f: FState, l: Label)
    requires Inv(s, disk, f, []) && Enabled(disk, f, l) && !l.Finish?
    ensures HandsOver(f, Apply(s, disk, f, l))
  {
    hide Inv, OnScheduled;
    var g := Apply(s, disk, f, l);
    if l.Scheduled? {
      var h := f.(wakeups := f.wakeups - 1, script := l.script);
      assert InTransit(h, []) == InTransit(f, []);
      SameTransit(s, disk, f, h, [], []);
      ScheduledHands(s, disk, h);
      assert Brought(Pending(g.mailbox)) == [];
    } else {
      assert f.past.submitted[|f.past.submitted|..] == [];
    }
  }
}

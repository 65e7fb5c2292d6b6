/** The spare read of a chunk 0 that came with the open: when it happens, and
    when it can cut a response short. */
module SpareReads {
  import opened Text
  import opened EventBridge
  import opened FilterModel
  import opened FilterRuns
  import opened FilterInvariant
  import opened FilterResolve
  import opened FilterStream
  import opened Schedules
  import opened WindowBound
  import Failures
  import Itinerary

  // ------------------------------------------------------------ read once more

  /** Chunk 0 came with the open, and was asked of the engine as well; by then it
      had been sent (`Delivery.SeededChunkIsReadAgain`). */
  predicate ReadsAgain(f: FState) {
    f.past.served.Some? && f.past.served.value.seeded && 0 in ReadLog(f.past.submitted)
  }

  ghost predicate SomeRunReadsAgain(s: Session, disk: Disk) {
    exists labels :: Run(s, disk, Start(s), labels).Some? && ReadsAgain(Run(s, disk, Start(s), labels).value)
  }

  /** A run that reads its first chunk twice: the open brings it, a drain sends
      it, and the same drain asks for it. */
  lemma ReadsAgainWitness(s: Session, disk: Disk) returns (labels: seq<Label>)
    requires SeveralWhole(s, disk)
    ensures Run(s, disk, Start(s), labels).Some? && ReadsAgain(EndOf(s, disk, labels))
    ensures var f := EndOf(s, disk, labels); f.phase.StreamingPhase? && f.phase.s.nextSend == 1
  {
    hide Run, Start, ServedChunks, SeveralWhole, AskedFirst, ReadsAgain, Itinerary.Smooth;
    FirstOfSeveral(s, disk);
    labels := Begun(s, disk, true, 0);
    RunInv(s, disk, labels);
    AskedIsLogged(s, disk, EndOf(s, disk, labels), ServedChunks(s, disk));
  }

  lemma FirstOfSeveral(s: Session, disk: Disk)
    requires SeveralWhole(s, disk)
    ensures FirstFile(ServedChunks(s, disk), 0)
  {
    PlainServed(s, disk);
    hide ServedChunks, SeveralWhole;
  }

  lemma AskedIsLogged(s: Session, disk: Disk, f: FState, chunks: seq<Chunk>)
    requires Inv(s, disk, f, []) && AskedFirst(f, chunks, true, 1, 0)
    ensures ReadsAgain(f) && f.phase.StreamingPhase? && f.phase.s.nextSend == 1
  {
    OnlyStreams(s, disk, f, []);
    ReadIsDue(f, 0);
    hide ServesVerdict, AllFit, Outstanding, ReadLog, Expected, BodyChunks, Inv, Intended, InTransit;
  }

  lemma ReadsAgainServes(s: Session, disk: Disk, f: FState)
    requires Inv(s, disk, f, []) && ReadsAgain(f)
    ensures ServedInv(s, disk, f.past.served.value, ReadLog(f.past.submitted))
  {
    hide ReadLog, ServedInv, Expected, Waiting, LeadsOn, Window, AllFit, Outstanding, InTransit;
    if StreamInv(s, disk, f, []) {
      StreamServes(s, disk, f, []);
    }
    hide StreamInv;
  }

  /** Some run reads the first chunk again if and only if the request is a GET
      without Range whose answer is a whole file of more than one chunk. */
  lemma RereadExactly(s: Session, disk: Disk)
    ensures SomeRunReadsAgain(s, disk) <==> SeveralWhole(s, disk)
  {
    hide Run, Start, SeveralWhole, ReadsAgain, Inv;
    if SeveralWhole(s, disk) {
      var labels := ReadsAgainWitness(s, disk);
    }
    if SomeRunReadsAgain(s, disk) {
      var labels :| Run(s, disk, Start(s), labels).Some? && ReadsAgain(Run(s, disk, Start(s), labels).value);
      RunInv(s, disk, labels);
      SeveralChunks(s, disk, Run(s, disk, Start(s), labels).value);
    }
  }

  lemma SeveralChunks(s: Session, disk: Disk, f: FState)
    requires Inv(s, disk, f, []) && ReadsAgain(f)
    ensures SeveralWhole(s, disk)
  {
    ReadsAgainServes(s, disk, f);
    hide Inv, VerdictOf, PlanFor, BodyChunks, ReadLog;
    PlainServed(s, disk);
  }

  // ------------------------------------------------------ a failure that is spare

  /** The only reads that fail are of chunks whose bytes have been sent. */
  ghost predicate SpareFailures(s: Session, disk: Disk, labels: seq<Label>) {
    labels != [] ==>
      && SpareFailures(s, disk, labels[..|labels| - 1])
      && (FailsRead(labels[|labels| - 1]) ==>
            var before := Run(s, disk, Start(s), labels[..|labels| - 1]);
            before.Some? ==> !before.value.past.readFailed && labels[|labels| - 1].ev.seqNo + 1 < |before.value.sent|)
  }

  /** ... and still the response is cut short. */
  predicate CutShortAfter(s: Session, disk: Disk, f: FState) {
    f.past.readFailed && f.phase.Done? && Truncated(f.sent, Expected(s, disk))
  }

  ghost predicate SpareFailureCuts(s: Session, disk: Disk) {
    exists labels ::
      && Run(s, disk, Start(s), labels).Some? && SpareFailures(s, disk, labels)
      && CutShortAfter(s, disk, Run(s, disk, Start(s), labels).value)
  }

  lemma {:induction false} NoneFailsIsSpare(s: Session, disk: Disk, labels: seq<Label>)
    requires NoneFails(labels)
    ensures SpareFailures(s, disk, labels)
  {
    hide Run, Start;
    if labels != [] {
      assert labels[|labels| - 1] in labels;
      NoneFailsIsSpare(s, disk, labels[..|labels| - 1]);
    }
  }

  lemma SpareMore(s: Session, disk: Disk, labels: seq<Label>, l: Label)
    requires Run(s, disk, Start(s), labels).Some? && SpareFailures(s, disk, labels)
    requires FailsRead(l) ==> var f := EndOf(s, disk, labels); !f.past.readFailed && l.ev.seqNo + 1 < |f.sent|
    ensures SpareFailures(s, disk, labels + [l])
  {
    assert (labels + [l])[..|labels|] == labels;
    hide Run, Start;
  }

  /** A drain that brings a failed read ends the response. */
  lemma DrainFails(s: Session, f: FState, ev: IoEvent)
    requires f.phase.StreamingPhase? && f.mailbox == Open([ev]) && FailedRead(ev) && f.script == []
    ensures var g := OnScheduled(s, f); g.past.readFailed && g.phase.Done?
  {
    var h := f.(mailbox := Open([]));
    var o := HandleEvent(s, h, ev);
    assert o == HandleRead(h, ev.seqNo, ev.result);
    assert [ev][1..] == [];
    hide Pump, HandleEvent;
    assert HandleEvents(s, h, [ev])
      == Outcome(o.state.(past := o.state.past.(dropped := o.state.past.dropped + [])), true);
  }

  lemma FailedIsCut(s: Session, disk: Disk, f: FState)
    requires Inv(s, disk, f, []) && f.past.readFailed && f.phase.Done?
    ensures CutShortAfter(s, disk, f)
  {
    Failures.OnlyDoneInv(s, disk, f, []);
    hide Inv, Expected, InTransit, ReadLog, ServedInv, Truncated, VerdictOf;
  }

  lemma SentInStream(s: Session, disk: Disk, f: FState)
    requires Inv(s, disk, f, []) && f.phase.StreamingPhase?
    ensures |f.sent| == f.phase.s.nextSend + 1 && !f.past.readFailed && f.phase.s.nextSend < |f.phase.s.chunks|
  {
    OnlyStreams(s, disk, f, []);
    hide ServesVerdict, BodyChunks, AllFit, Outstanding, ReadLog, Expected, Intended, Inv, InTransit;
  }

  /** A run whose one failure is the spare read of a chunk the client has. */
  lemma SpareFailureWitness(s: Session, disk: Disk, error: IoError) returns (labels: seq<Label>)
    requires SeveralWhole(s, disk)
    ensures Run(s, disk, Start(s), labels).Some? && SpareFailures(s, disk, labels)
    ensures CutShortAfter(s, disk, EndOf(s, disk, labels))
  {
    hide Run, Start, Inv, SeveralWhole, ServedChunks, AskedFirst, NoneFails, InIssueOrder, OnScheduled, Apply, Enabled,
      Quiet, CutShortAfter;
    FirstOfSeveral(s, disk);
    var begun := Begun(s, disk, true, 0);
    var f := EndOf(s, disk, begun);
    RunInv(s, disk, begun);
    FailsNext(f, ServedChunks(s, disk));
    SentInStream(s, disk, f);
    NoneFailsIsSpare(s, disk, begun);
    var ev := Read(0, ReadFails(error));
    var waiting := f.(ops := RemoveAt(f.ops, 0), mailbox := Open([ev]), wakeups := 1);
    FinishAndCommit(s, disk, f, 0, ev, waiting);
    var finish := Finish(0, ev);
    RunMore(s, disk, begun, finish);
    SpareMore(s, disk, begun, finish);
    RunMore(s, disk, begun + [finish], Commit);
    SpareMore(s, disk, begun + [finish], Commit);
    RunMore(s, disk, begun + [finish] + [Commit], Scheduled([]));
    SpareMore(s, disk, begun + [finish] + [Commit], Scheduled([]));
    labels := begun + [finish] + [Commit] + [Scheduled([])];
    RunInv(s, disk, labels);
    DrainFails(s, waiting.(wakeups := 0, script := []), ev);
    FailedIsCut(s, disk, EndOf(s, disk, labels));
  }

  lemma FailsNext(f: FState, chunks: seq<Chunk>)
    requires AskedFirst(f, chunks, true, 1, 0)
    ensures Quiet(f) && f.phase.StreamingPhase? && f.phase.s.nextSend == 1 && f.ops != []
    ensures f.ops[0].ReadOp? && f.ops[0].seqNo == 0 && f.script == []
  {
  }

  /** A read that fails after its chunk was sent is a second read of it. */
  lemma SpareIsSecond(s: Session, disk: Disk, f: FState, l: Label)
    requires Inv(s, disk, f, []) && Enabled(disk, f, l) && FailsRead(l) && l.ev.seqNo + 1 < |f.sent| && !f.phase.Done?
    ensures ReadsAgain(f)
  {
    hide ResolvingInv, StreamInv, DoneInv, Inv;
    if f.phase.StreamingPhase? {
      SentInStream(s, disk, f);
      OnlyStreams(s, disk, f, []);
      SpareInStream(s, disk, f, l);
    } else {
      NotStreamingSends(s, disk, f);
    }
  }

  lemma SpareInStream(s: Session, disk: Disk, f: FState, l: Label)
    requires StreamInv(s, disk, f, []) && Enabled(disk, f, l) && FailsRead(l) && l.ev.seqNo < f.phase.s.nextSend
    ensures ReadsAgain(f)
  {
    StreamOps(s, disk, f);
    ReadIsDue(f, l.k);
    hide ServesVerdict, BodyChunks, AllFit, Outstanding, ReadLog, Expected, Intended, InTransit;
  }

  lemma NotStreamingSends(s: Session, disk: Disk, f: FState)
    requires Inv(s, disk, f, []) && !f.phase.StreamingPhase?
    ensures f.phase.Done? || f.sent == []
  {
    hide Waiting, LeadsOn, Window, AllFit, ServesVerdict, Expected, ReadLog, ServedInv;
  }

  /** When no run reads a chunk again, spare failures come too late to matter. */
  lemma {:induction false} SpareFailsWhenDone(s: Session, disk: Disk, labels: seq<Label>)
    requires !SomeRunReadsAgain(s, disk)
    requires Run(s, disk, Start(s), labels).Some? && SpareFailures(s, disk, labels)
    ensures Failures.FailsOnlyWhenDone(s, disk, labels)
  {
    hide Start, Apply, Enabled, Inv, ReadsAgain;
    if labels != [] {
      var front, l := labels[..|labels| - 1], labels[|labels| - 1];
      SpareFailsWhenDone(s, disk, front);
      RunInv(s, disk, front);
      var f := Run(s, disk, Start(s), front).value;
      if FailsRead(l) && !f.phase.Done? {
        SpareIsSecond(s, disk, f, l);
      }
    }
  }

  /** A response can be cut short although every read it needed succeeded, if
      and only if the request is a GET without Range whose answer is a whole file
      of more than one chunk. */
  lemma SpareCutsExactly(s: Session, disk: Disk)
    ensures SpareFailureCuts(s, disk) <==> SeveralWhole(s, disk)
  {
    RereadExactly(s, disk);
    hide Run, Start, SeveralWhole, Inv, SpareFailures, Truncated, Expected, SomeRunReadsAgain;
    if SeveralWhole(s, disk) {
      var labels := SpareFailureWitness(s, disk, IoError(OtherKind, None));
    }
    if SpareFailureCuts(s, disk) && !SeveralWhole(s, disk) {
      var labels :| Run(s, disk, Start(s), labels).Some? && SpareFailures(s, disk, labels)
                    && CutShortAfter(s, disk, Run(s, disk, Start(s), labels).value);
      SpareFailsWhenDone(s, disk, labels);
      Failures.RunUnbroken(s, disk, labels);
    }
  }
}

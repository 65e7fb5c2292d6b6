/** A stream together with the engine that serves it: its operations become
    commands, its handles keep files in the reactor's table, and what the engine
    answers is what the runs of the filter take for granted. */
module FilterOnEngine {
  import opened Text
  import opened EventBridge
  import opened FilterModel
  import opened FilterRuns
  import opened FilterInvariant
  import opened FilterResolve
  import opened FilterStream
  import opened Callbacks
  import R = Reactor

  predicate Owns(f: FState, id: nat) {
    exists i :: 0 <= i < |HandlesOf(f)| && HandlesOf(f)[i].id == id
  }

  // ------------------------------------------------------------------ the engine's part

  function Command(op: Op): R.Step {
    match op
    case OpenOp(path, _, _) => R.CallOpen(path)
    case ReadOp(_, handle, offset, len) => R.CallRead(handle.id, offset, len)
    case ReadDirOp(path) => R.CallReadDir(path)
  }

  function Do(e: R.Engine, step: R.Step): R.Engine {
    if R.CanStep(e, step) then R.Next(e, step) else e
  }

  /** The operations become commands, in the order they were submitted. */
  function CallAll(e: R.Engine, ops: seq<Op>): R.Engine {
    if ops == [] then e else Do(CallAll(e, ops[..|ops| - 1]), Command(ops[|ops| - 1]))
  }

  /** The handles of `hs` that the stream no longer keeps are dropped. */
  function DropLost(e: R.Engine, hs: seq<FileHandle>, g: FState): R.Engine {
    if hs == [] then e
    else
      var before, id := DropLost(e, hs[..|hs| - 1], g), hs[|hs| - 1].id;
      if id == 0 || Owns(g, id) then before else Do(before, R.DropHandle(id))
  }

  predicate ReadsLive(e: R.Engine, ops: seq<Op>) {
    forall i :: 0 <= i < |ops| && ops[i].ReadOp? ==> ops[i].handle.id in e.handles
  }

  lemma {:induction false} CallAllKeeps(e: R.Engine, ops: seq<Op>)
    requires R.Sound(e) && ReadsLive(e, ops)
    ensures var d := CallAll(e, ops); R.Sound(d) && d.handles == e.handles && d.registered == e.registered
  {
    hide R.Sound;
    if ops != [] {
      var before := CallAll(e, ops[..|ops| - 1]);
      CallAllKeeps(e, ops[..|ops| - 1]);
      R.NextIsSound(before, Command(ops[|ops| - 1]));
    }
  }

  lemma {:induction false} DropLostKeeps(e: R.Engine, hs: seq<FileHandle>, g: FState)
    requires R.Sound(e)
    ensures var d := DropLost(e, hs, g);
            R.Sound(d) && d.registered == e.registered && forall id :: id in e.handles && Owns(g, id) ==>
                id in d.handles
  {
    hide R.Sound, Owns;
    if hs != [] {
      var before, id := DropLost(e, hs[..|hs| - 1], g), hs[|hs| - 1].id;
      DropLostKeeps(e, hs[..|hs| - 1], g);
      if R.CanStep(before, R.DropHandle(id)) {
        R.NextIsSound(before, R.DropHandle(id));
      }
    }
  }

  /** A step of the engine forgets no file, and no handle that is not dropped. */
  lemma EngineRemembers(e: R.Engine, step: R.Step)
    requires R.Sound(e) && R.CanStep(e, step)
    ensures var d := R.Next(e, step);
            && (forall id :: id in e.registered ==> id in d.registered && d.registered[id] == e.registered[id])
            && (forall id :: id in e.handles && step != R.DropHandle(id) ==> id in d.handles)
  {
    if step.FinishOpen? {
      assert R.Unused(e, e.tasks[step.k].id);
    }
    hide R.Lifetimes, R.TableExact, R.ReadsAhead, R.ReadsFound;
  }

  // --------------------------------------------------------------------- both together

  datatype Joint = Joint(f: FState, e: R.Engine)

  /** A step of the stream, of the engine or another client of it, or an
      operation of the stream that the engine completes: an open by registering
      the file or not, a read with what its task can read. */
  datatype Move =
    | OfStream(l: Label)
    | OfEngine(step: R.Step)
    | OpenDone(k: nat, t: nat, ev: IoEvent)
    | ReadDone(k: nat, t: nat, result: ReadResult)
    | ListDone(k: nat, t: nat)

  /** What the engine's read can answer (`EngineTasks.ReadAt`). */
  predicate Answers(file: Option<FileBytes>, offset: nat, len: nat, result: ReadResult) {
    if file.None? then result == ReadFails(IoError(NotFound, None))
    else result.Got? ==> result.bytes == ReadSlice(file.value, offset, len)
  }

  predicate CanMove(disk: Disk, j: Joint, m: Move) {
    var ops, tasks := j.f.ops, j.e.tasks;
    match m
    case OfStream(l) => !l.Finish? && Enabled(disk, j.f, l)
    case OfEngine(step) => R.CanStep(j.e, step) && !(step.DropHandle? && Owns(j.f, step.id))
    case OpenDone(k, t, ev) =>
      && k < |ops| && ops[k].OpenOp? && t < |tasks| && tasks[t].Opening? && tasks[t].path == ops[k].path
      && Completes(disk, ops[k], ev) && (ev.Opened? && ev.handle.id != 0 ==> ev.handle.id == tasks[t].id)
    case ReadDone(k, t, result) =>
      && k < |ops| && ops[k].ReadOp? && t < |tasks| && tasks[t].Reading? && tasks[t].id == ops[k].handle.id
      && tasks[t].offset == ops[k].offset && tasks[t].len == ops[k].len
      && Answers(tasks[t].file, tasks[t].offset, tasks[t].len, result)
    case ListDone(k, t) =>
      k < |ops| && ops[k].ReadDirOp? && t < |tasks| && tasks[t] == R.Scanning(ops[k].path)
  }

  function EndOfOpen(ev: IoEvent): R.OpenEnd {
    if !ev.Opened? then R.NoFile else if ev.handle.id == 0 then R.Inert else R.Registers(ev.handle.content)
  }

  /** Operation `k` completes with `ev`; a closed mailbox lets go of its handle. */
  function Completed(f: FState, k: nat, ev: IoEvent): FState
    requires k < |f.ops|
  {
    Push(f.(ops := RemoveAt(f.ops, k)), ev)
  }

  function NewOps(f: FState, g: FState): seq<Op> {
    if |f.past.submitted| <= |g.past.submitted| then g.past.submitted[|f.past.submitted|..] else []
  }

  function AfterMove(s: Session, disk: Disk, j: Joint, m: Move): Joint
    requires CanMove(disk, j, m)
  {
    match m
    case OfStream(l) =>
      var g := Apply(s, disk, j.f, l);
      Joint(g, DropLost(CallAll(j.e, NewOps(j.f, g)), HandlesOf(j.f), g))
    case OfEngine(step) => Joint(j.f, R.Next(j.e, step))
    case OpenDone(k, t, ev) =>
      var g := Completed(j.f, k, ev);
      Joint(g, DropLost(R.Next(j.e, R.FinishOpen(t, EndOfOpen(ev))), Brought([ev]), g))
    case ReadDone(k, t, result) =>
      Joint(Completed(j.f, k, Read(j.f.ops[k].seqNo, result)), R.Next(j.e, R.FinishTask(t)))
    case ListDone(k, t) =>
      Joint(Completed(j.f, k, Dir(disk.list(j.f.ops[k].path))), R.Next(j.e, R.FinishTask(t)))
  }

  /** The stream starts on an engine that others have been using. */
  function Begins(s: Session, e: R.Engine): Joint {
    Joint(Start(s), CallAll(e, Start(s).ops))
  }

  function Together(s: Session, disk: Disk, e: R.Engine, moves: seq<Move>): Option<Joint> {
    if moves == [] then Some(Begins(s, e))
    else
      var before, m := Together(s, disk, e, moves[..|moves| - 1]), moves[|moves| - 1];
      if before.Some? && CanMove(disk, before.value, m) then Some(AfterMove(s, disk, before.value, m)) else None
  }

  // ------------------------------------------------------------------- the invariant

  /** The file a handle stands for is the one the engine registered. */
  predicate Known(e: R.Engine, h: FileHandle) {
    h.id in e.registered && e.registered[h.id] == h.content
  }

  /** Every handle the stream keeps is live, and every read it waits for is of a
      registered file. */
  predicate Held(j: Joint) {
    && (forall h :: h in HandlesOf(j.f) && h.id != 0 ==> h.id in j.e.handles && Known(j.e, h))
    && (forall i :: 0 <= i < |j.f.ops| && j.f.ops[i].ReadOp? ==>
          j.f.ops[i].handle.id != 0 && Known(j.e, j.f.ops[i].handle))
  }

  ghost predicate JointInv(s: Session, disk: Disk, j: Joint) {
    Inv(s, disk, j.f, []) && R.Sound(j.e) && Held(j)
  }

  lemma OwnsHeld(f: FState, h: FileHandle)
    requires h in HandlesOf(f)
    ensures Owns(f, h.id)
  {
    var i :| 0 <= i < |HandlesOf(f)| && HandlesOf(f)[i] == h;
  }

  lemma StreamHeld(j: Joint, g: FState)
    requires R.Sound(j.e) && Held(j) && HandsOver(j.f, g) && NeverInert(g.past.submitted)
    ensures var e := DropLost(CallAll(j.e, NewOps(j.f, g)), HandlesOf(j.f), g); R.Sound(e) && Held(Joint(g, e))
  {
    hide R.Sound, HandlesOf, Owns;
    var ops := NewOps(j.f, g);
    NewReadsHeld(j, g);
    CallAllKeeps(j.e, ops);
    DropLostKeeps(CallAll(j.e, ops), HandlesOf(j.f), g);
    hide NeverInert, HandsOver, CallAll, DropLost;
    var e := DropLost(CallAll(j.e, ops), HandlesOf(j.f), g);
    forall h | h in HandlesOf(g) && h.id != 0 ensures h.id in e.handles && Known(e, h) {
      OwnsHeld(g, h);
    }
  }

  lemma NewReadsHeld(j: Joint, g: FState)
    requires Held(j) && HandsOver(j.f, g) && NeverInert(g.past.submitted)
    ensures var ops := NewOps(j.f, g);
            && g.ops == j.f.ops + ops && ReadsLive(j.e, ops)
            && (forall i :: 0 <= i < |ops| && ops[i].ReadOp? ==> ops[i].handle.id != 0 && Known(j.e, ops[i].handle))
            && (forall h :: h in HandlesOf(g) ==> h in HandlesOf(j.f))
  {
    hide HandlesOf, Known;
    var ops := NewOps(j.f, g);
    forall i | 0 <= i < |ops| && ops[i].ReadOp? ensures ops[i].handle.id != 0 && ops[i].handle in HandlesOf(j.f) {
      assert ops[i] == g.past.submitted[|j.f.past.submitted| + i];
      StreamHolds(g);
    }
  }

  lemma StreamKeeps(s: Session, disk: Disk, j: Joint, l: Label)
    requires JointInv(s, disk, j) && Enabled(disk, j.f, l) && !l.Finish?
    ensures JointInv(s, disk, AfterMove(s, disk, j, OfStream(l)))
  {
    hide Inv, R.Sound, Apply, Enabled, Held, HandsOver, DropLost, CallAll, HandlesOf;
    var g := Apply(s, disk, j.f, l);
    ApplyInv(s, disk, j.f, l);
    LabelHands(s, disk, j.f, l);
    NeverInertIn(s, disk, g);
    StreamHeld(j, g);
  }

  lemma NeverInertIn(s: Session, disk: Disk, f: FState)
    requires Inv(s, disk, f, [])
    ensures NeverInert(f.past.submitted)
  {
    hide ResolvingInv, StreamInv, DoneInv;
  }

  lemma StreamHolds(f: FState)
    requires f.phase.StreamingPhase?
    ensures f.phase.s.handle in HandlesOf(f)
  {
    assert HandlesOf(f)[0] == f.phase.s.handle;
  }

  lemma EngineHeld(j: Joint, step: R.Step)
    requires R.Sound(j.e) && Held(j) && R.CanStep(j.e, step) && !(step.DropHandle? && Owns(j.f, step.id))
    ensures R.Sound(R.Next(j.e, step)) && Held(Joint(j.f, R.Next(j.e, step)))
  {
    R.NextIsSound(j.e, step);
    EngineRemembers(j.e, step);
    hide R.Sound, R.Next, HandlesOf, Owns, R.CanStep, Held;
    RememberedHeld(j, R.Next(j.e, step));
  }

  lemma RememberedHeld(j: Joint, d: R.Engine)
    requires Held(j)
    requires forall id :: id in j.e.registered ==> id in d.registered && d.registered[id] == j.e.registered[id]
    requires forall id :: id in j.e.handles && Owns(j.f, id) ==> id in d.handles
    ensures Held(Joint(j.f, d))
  {
    hide HandlesOf, Owns;
    forall h | h in HandlesOf(j.f) && h.id != 0 ensures h.id in d.handles {
      OwnsHeld(j.f, h);
    }
  }

  lemma {:induction false} BroughtMore(evs: seq<IoEvent>, ev: IoEvent)
    ensures Brought(evs + [ev]) == Brought(evs) + Brought([ev])
  {
    if evs != [] {
      assert (evs + [ev])[1..] == evs[1..] + [ev];
      BroughtMore(evs[1..], ev);
    }
  }

  /** A completion in the mailbox keeps the handle it brings. */
  lemma CompletedHolds(f: FState, k: nat, ev: IoEvent)
    requires k < |f.ops|
    ensures var g := Completed(f, k, ev);
            && (forall h :: h in HandlesOf(g) ==> h in HandlesOf(f) || h in Brought([ev]))
            && (forall op :: op in g.ops ==> op in f.ops)
  {
    BroughtMore(Pending(f.mailbox), ev);
    hide Brought;
  }

  lemma HeldAfter(j: Joint, e: R.Engine, k: nat, ev: IoEvent)
    requires Held(j) && k < |j.f.ops|
    requires forall id :: id in j.e.registered ==> id in e.registered && e.registered[id] == j.e.registered[id]
    requires forall id :: id in j.e.handles && Owns(Completed(j.f, k, ev), id) ==> id in e.handles
    requires forall h :: h in Brought([ev]) && h in HandlesOf(Completed(j.f, k, ev)) && h.id != 0 ==>
               h.id in e.handles && Known(e, h)
    ensures Held(Joint(Completed(j.f, k, ev), e))
  {
    var g := Completed(j.f, k, ev);
    CompletedHolds(j.f, k, ev);
    hide HandlesOf, Brought, Owns, Completed;
    forall h | h in HandlesOf(g) && h.id != 0 ensures h.id in e.handles && Known(e, h) {
      OwnsHeld(g, h);
    }
    forall i | 0 <= i < |g.ops| && g.ops[i].ReadOp? ensures g.ops[i].handle.id != 0 && Known(e, g.ops[i].handle) {
      assert g.ops[i] in j.f.ops;
    }
  }

  lemma OpenHeld(j: Joint, k: nat, t: nat, ev: IoEvent)
    requires R.Sound(j.e) && Held(j) && k < |j.f.ops| && R.CanStep(j.e, R.FinishOpen(t, EndOfOpen(ev)))
    requires ev.Opened? && ev.handle.id != 0 ==> ev.handle.id == j.e.tasks[t].id
    ensures var g := Completed(j.f, k, ev);
            var e := DropLost(R.Next(j.e, R.FinishOpen(t, EndOfOpen(ev))), Brought([ev]), g);
            R.Sound(e) && Held(Joint(g, e))
  {
    var g, step := Completed(j.f, k, ev), R.FinishOpen(t, EndOfOpen(ev));
    var e := R.Next(j.e, step);
    R.NextIsSound(j.e, step);
    EngineRemembers(j.e, step);
    OpenKnows(j.e, t, ev);
    hide R.Sound, R.Next, Owns, Completed, Brought, HandlesOf, R.CanStep, Known;
    DropLostKeeps(e, Brought([ev]), g);
    var d := DropLost(e, Brought([ev]), g);
    hide DropLost;
    forall h | h in Brought([ev]) && h in HandlesOf(g) && h.id != 0 ensures h.id in d.handles && Known(d, h) {
      OwnsHeld(g, h);
      SameKnown(e, d, h);
    }
    HeldAfter(j, d, k, ev);
  }

  /** The handle an open brings is live. */
  lemma OpenKnows(e: R.Engine, t: nat, ev: IoEvent)
    requires R.CanStep(e, R.FinishOpen(t, EndOfOpen(ev)))
    requires ev.Opened? && ev.handle.id != 0 ==> ev.handle.id == e.tasks[t].id
    ensures var d := R.Next(e, R.FinishOpen(t, EndOfOpen(ev)));
            forall h :: h in Brought([ev]) && h.id != 0 ==> h.id in d.handles && Known(d, h)
  {
  }

  lemma SameKnown(e: R.Engine, d: R.Engine, h: FileHandle)
    requires d.registered == e.registered && Known(e, h)
    ensures Known(d, h)
  {
  }

  lemma TaskHeld(j: Joint, k: nat, t: nat, ev: IoEvent)
    requires R.Sound(j.e) && Held(j) && k < |j.f.ops| && !ev.Opened? && R.CanStep(j.e, R.FinishTask(t))
    ensures var e := R.Next(j.e, R.FinishTask(t)); R.Sound(e) && Held(Joint(Completed(j.f, k, ev), e))
  {
    R.NextIsSound(j.e, R.FinishTask(t));
    EngineRemembers(j.e, R.FinishTask(t));
    hide R.Sound, R.Next, Owns, Completed, HandlesOf, R.CanStep;
    assert Brought([ev]) == [];
    HeldAfter(j, R.Next(j.e, R.FinishTask(t)), k, ev);
  }

  /** The stream's own part of a completion. */
  lemma CompletedInv(s: Session, disk: Disk, f: FState, k: nat, ev: IoEvent)
    requires Inv(s, disk, f, []) && k < |f.ops| && Completes(disk, f.ops[k], ev)
    ensures Inv(s, disk, Completed(f, k, ev), [])
  {
    hide Inv, Completes;
    ApplyInv(s, disk, f, Finish(k, ev));
  }

  /** A read of the stream finds its file, whatever else the engine has done, and
      so is answered as the runs take it to be. */
  lemma ReadFindsFile(disk: Disk, j: Joint, k: nat, t: nat, result: ReadResult)
    requires R.Sound(j.e) && Held(j) && CanMove(disk, j, ReadDone(k, t, result))
    ensures j.e.tasks[t].file == Some(j.f.ops[k].handle.content)
    ensures Completes(disk, j.f.ops[k], Read(j.f.ops[k].seqNo, result))
  {
    hide R.FreshIds, R.Lifetimes, R.TableExact, R.ReadsAhead, HandlesOf, ReadSlice;
  }

  /** An operation of the stream completes as the runs allow. */
  lemma MoveCompletes(disk: Disk, j: Joint, m: Move) returns (k: nat, ev: IoEvent)
    requires R.Sound(j.e) && Held(j) && CanMove(disk, j, m) && !m.OfEngine? && !m.OfStream?
    ensures k < |j.f.ops| && Completes(disk, j.f.ops[k], ev)
    ensures forall s :: AfterMove(s, disk, j, m).f == Completed(j.f, k, ev)
  {
    match m {
      case OpenDone(n, t, event) => k, ev := n, event;
      case ReadDone(n, t, result) =>
        ReadFindsFile(disk, j, n, t, result);
        k, ev := n, Read(j.f.ops[n].seqNo, result);
      case ListDone(n, t) => k, ev := n, Dir(disk.list(j.f.ops[n].path));
    }
    hide R.Sound, Held, DropLost, R.Next, Completed;
  }

  lemma MoveHeld(s: Session, disk: Disk, j: Joint, m: Move)
    requires R.Sound(j.e) && Held(j) && CanMove(disk, j, m) && !m.OfStream?
    ensures var after := AfterMove(s, disk, j, m); R.Sound(after.e) && Held(after)
  {
    hide R.Sound, Held, Completes, Owns;
    match m {
      case OfEngine(step) => EngineHeld(j, step);
      case OpenDone(k, t, ev) => OpenHeld(j, k, t, ev);
      case ReadDone(k, t, result) => TaskHeld(j, k, t, Read(j.f.ops[k].seqNo, result));
      case ListDone(k, t) => TaskHeld(j, k, t, Dir(disk.list(j.f.ops[k].path)));
    }
    hide R.Next, DropLost, Completed;
  }

  lemma MoveKeeps(s: Session, disk: Disk, j: Joint, m: Move)
    requires JointInv(s, disk, j) && CanMove(disk, j, m)
    ensures JointInv(s, disk, AfterMove(s, disk, j, m))
  {
    hide Inv, R.Sound, Held;
    if m.OfStream? {
      StreamKeeps(s, disk, j, m.l);
    } else {
      MoveHeld(s, disk, j, m);
      if !m.OfEngine? {
        var k, ev := MoveCompletes(disk, j, m);
        CompletedInv(s, disk, j.f, k, ev);
      }
    }
    hide Apply, Completes, DropLost, CallAll, R.Next, Completed, R.CanStep;
  }

  lemma StartHeld(s: Session, disk: Disk, e: R.Engine)
    requires R.Sound(e)
    ensures JointInv(s, disk, Begins(s, e))
  {
    StartInv(s, disk);
    hide Inv, R.Sound, BuildFileCandidates;
    var f := Start(s);
    assert HandlesOf(f) == [] && forall i :: 0 <= i < |f.ops| ==> f.ops[i].OpenOp?;
    CallAllKeeps(e, f.ops);
  }

  lemma {:induction false} TogetherInv(s: Session, disk: Disk, e: R.Engine, moves: seq<Move>)
    requires R.Sound(e) && Together(s, disk, e, moves).Some?
    ensures JointInv(s, disk, Together(s, disk, e, moves).value)
  {
    hide JointInv, R.Sound, Begins, AfterMove, CanMove;
    if moves == [] {
      StartHeld(s, disk, e);
    } else {
      var front := moves[..|moves| - 1];
      TogetherInv(s, disk, e, front);
      MoveKeeps(s, disk, Together(s, disk, e, front).value, moves[|moves| - 1]);
    }
  }

  // ------------------------------------------------------------------- what follows

  /** The file the stream is on is open, and every read spawned for the stream
      holds its file. */
  predicate FilesOpen(j: Joint) {
    && (j.f.phase.StreamingPhase? && j.f.phase.s.handle.id != 0 ==>
          var h := j.f.phase.s.handle; h.id in j.e.handles && h.id in j.e.files && j.e.files[h.id] == h.content)
    && (forall k, t :: 0 <= k < |j.f.ops| && 0 <= t < |j.e.tasks| && ReadsFor(j.f.ops[k], j.e.tasks[t]) ==>
          j.e.tasks[t].file == Some(j.f.ops[k].handle.content))
  }

  predicate ReadsFor(op: Op, task: R.Task) {
    op.ReadOp? && task.Reading? && task.id == op.handle.id
  }

  /** ... in every state the stream and the engine come to together, whatever
      other clients do. */
  lemma FilesStayOpen(s: Session, disk: Disk, e: R.Engine, moves: seq<Move>)
    requires R.Sound(e) && Together(s, disk, e, moves).Some?
    ensures FilesOpen(Together(s, disk, e, moves).value)
  {
    TogetherInv(s, disk, e, moves);
    hide Together, Inv, FilesOpen;
    HeldIsOpen(Together(s, disk, e, moves).value);
  }

  lemma HeldIsOpen(j: Joint)
    requires R.Sound(j.e) && Held(j)
    ensures FilesOpen(j)
  {
    if j.f.phase.StreamingPhase? {
      StreamHolds(j.f);
    }
    hide HandlesOf, R.FreshIds, R.ReadsAhead;
  }

  /** What the stream does on the engine is a run of the stream: the engine keeps
      what the theorems about runs assume of it. */
  lemma {:induction false} EngineRefinesRuns(s: Session, disk: Disk, e: R.Engine, moves: seq<Move>)
    returns (labels: seq<Label>)
    requires R.Sound(e) && Together(s, disk, e, moves).Some?
    ensures Run(s, disk, Start(s), labels) == Some(Together(s, disk, e, moves).value.f)
  {
    hide JointInv, R.Sound, Start, AfterMove, CanMove;
    if moves == [] {
      labels := [];
    } else {
      var front, m := moves[..|moves| - 1], moves[|moves| - 1];
      labels := EngineRefinesRuns(s, disk, e, front);
      TogetherInv(s, disk, e, front);
      hide Run;
      var j := Together(s, disk, e, front).value;
      if m.OfEngine? {
        EngineAlone(s, disk, j, m);
      } else {
        var l := LabelOf(s, disk, j, m);
        RunMore(s, disk, labels, l);
        labels := labels + [l];
      }
    }
  }

  lemma EngineAlone(s: Session, disk: Disk, j: Joint, m: Move)
    requires CanMove(disk, j, m) && m.OfEngine?
    ensures AfterMove(s, disk, j, m).f == j.f
  {
  }

  lemma LabelOf(s: Session, disk: Disk, j: Joint, m: Move) returns (l: Label)
    requires JointInv(s, disk, j) && CanMove(disk, j, m) && !m.OfEngine?
    ensures Enabled(disk, j.f, l) && Apply(s, disk, j.f, l) == AfterMove(s, disk, j, m).f
  {
    hide Inv, R.Sound, Held, Completes, OnScheduled, DropLost, CallAll, R.Next;
    if m.OfStream? {
      l := m.l;
    } else {
      var k, ev := MoveCompletes(disk, j, m);
      l := Finish(k, ev);
    }
  }
}

/** The I/O engine's reactor (crates/envoy-files-io/src/engine.rs): worker
    threads and dropped handles put commands on one FIFO channel, the reactor
    thread takes them off and keeps the table of open files. */
module Reactor {
  import opened Text
  import opened FilterModel

  datatype Command =
    | Open(id: nat, path: Bytes)
    | ReadFile(id: nat, offset: nat, len: nat)
    | ReadDir(path: Bytes)
    | Close(id: nat)

  /** Work the reactor has spawned: a read holds its own clone of the file. */
  datatype Task =
    | Opening(id: nat, path: Bytes)
    | Reading(id: nat, file: Option<FileBytes>, offset: nat, len: nat)
    | Scanning(path: Bytes)

  /** How an open ends: not at all, with the whole file already in the prefetch
      (no registration, an inert handle), or registered. */
  datatype OpenEnd = NoFile | Inert | Registers(content: FileBytes)

  /** The reactor and its clients.  `handles` counts the clones of each live
      handle; `registered` and `closed` are history. */
  datatype Engine = Engine(
    nextId: nat,
    commands: seq<Command>,
    tasks: seq<Task>,
    files: map<nat, FileBytes>,
    handles: map<nat, nat>,
    registered: map<nat, FileBytes>,
    closed: set<nat>)

  const AtRest := Engine(1, [], [], map[], map[], map[], {})

  function Remove<T>(s: seq<T>, k: nat): seq<T>
    requires k < |s|
  {
    s[..k] + s[k + 1..]
  }

  // ------------------------------------------------------------------ the steps

  datatype Step =
    | CallOpen(path: Bytes)
    | CallRead(id: nat, offset: nat, len: nat)
    | CallReadDir(path: Bytes)
    | CloneHandle(id: nat)
    | DropHandle(id: nat)
    | Receive
    | FinishOpen(k: nat, end: OpenEnd)
    | FinishTask(k: nat)

  predicate CanStep(e: Engine, step: Step) {
    match step
    case CallRead(id, _, _) => id == 0 || id in e.handles
    case CloneHandle(id) => id in e.handles
    case DropHandle(id) => id in e.handles
    case Receive => e.commands != []
    case FinishOpen(k, _) => k < |e.tasks| && e.tasks[k].Opening?
    case FinishTask(k) => k < |e.tasks| && !e.tasks[k].Opening?
    case _ => true
  }

  function Send(e: Engine, c: Command): Engine {
    e.(commands := e.commands + [c])
  }

  /** `HandleInner::drop` runs when the last clone goes; the inert handle (id 0,
      never among `handles`) sends nothing. */
  function Dropped(e: Engine, id: nat): Engine
    requires id in e.handles
  {
    if e.handles[id] > 1 then e.(handles := e.handles[id := e.handles[id] - 1])
    else Send(e.(handles := e.handles - {id}), Close(id))
  }

  /** One turn of the command loop. */
  function Received(e: Engine, c: Command): Engine {
    match c
    case Close(id) => e.(files := e.files - {id}, closed := e.closed + {id})
    case Open(id, path) => e.(tasks := e.tasks + [Opening(id, path)])
    case ReadFile(id, offset, len) =>
      e.(tasks := e.tasks + [Reading(id, if id in e.files then Some(e.files[id]) else None, offset, len)])
    case ReadDir(path) => e.(tasks := e.tasks + [Scanning(path)])
  }

  function Opened(e: Engine, id: nat, end: OpenEnd): Engine {
    if !end.Registers? then e
    else
      e.(files := e.files[id := end.content], handles := e.handles[id := 1],
         registered := e.registered[id := end.content])
  }

  function Next(e: Engine, step: Step): Engine
    requires CanStep(e, step)
  {
    match step
    case CallOpen(path) => Send(e.(nextId := e.nextId + 1), Open(e.nextId, path))
    case CallRead(id, offset, len) => Send(e, ReadFile(id, offset, len))
    case CallReadDir(path) => Send(e, ReadDir(path))
    case CloneHandle(id) => e.(handles := e.handles[id := e.handles[id] + 1])
    case DropHandle(id) => Dropped(e, id)
    case Receive => Received(e.(commands := e.commands[1..]), e.commands[0])
    case FinishOpen(k, end) => Opened(e.(tasks := Remove(e.tasks, k)), e.tasks[k].id, end)
    case FinishTask(k) => e.(tasks := Remove(e.tasks, k))
  }

  /** The engine after some steps, when each was possible. */
  function After(steps: seq<Step>): Option<Engine> {
    if steps == [] then Some(AtRest)
    else
      var before, last := After(steps[..|steps| - 1]), steps[|steps| - 1];
      if before.Some? && CanStep(before.value, last) then Some(Next(before.value, last)) else None
  }

  // -------------------------------------------------------------- the invariant

  /** Ids are handed out once: those still being opened are new, and distinct. */
  predicate FreshIds(e: Engine) {
    && e.nextId > 0
    && (forall i :: 0 <= i < |e.commands| && e.commands[i].Open? ==> Unused(e, e.commands[i].id))
    && (forall i :: 0 <= i < |e.tasks| && e.tasks[i].Opening? ==> Unused(e, e.tasks[i].id))
    && (forall i, j :: 0 <= i < j < |e.commands| && e.commands[i].Open? && e.commands[j].Open? ==>
          e.commands[i].id != e.commands[j].id)
    && (forall i, j :: 0 <= i < j < |e.tasks| && e.tasks[i].Opening? && e.tasks[j].Opening? ==>
          e.tasks[i].id != e.tasks[j].id)
    && (forall i, j :: 0 <= i < |e.commands| && 0 <= j < |e.tasks| && e.commands[i].Open? && e.tasks[j].Opening? ==>
          e.commands[i].id != e.tasks[j].id)
    && (forall id :: id in e.registered ==> 0 < id < e.nextId)
  }

  predicate Unused(e: Engine, id: nat) {
    0 < id < e.nextId && id !in e.registered
  }

  predicate Closing(e: Engine, id: nat) {
    exists i :: 0 <= i < |e.commands| && e.commands[i] == Close(id)
  }

  /** A registered file is live, or has one Close on its way, or is closed. */
  predicate Lifetimes(e: Engine) {
    && (forall id :: id in e.handles ==>
          id in e.registered && e.handles[id] > 0 && id !in e.closed && !Closing(e, id))
    && (forall i :: 0 <= i < |e.commands| && e.commands[i].Close? ==>
          e.commands[i].id in e.registered && e.commands[i].id !in e.closed)
    && (forall i, j :: 0 <= i < j < |e.commands| && e.commands[i].Close? && e.commands[j].Close? ==>
          e.commands[i].id != e.commands[j].id)
    && (forall id :: id in e.closed ==> id in e.registered)
    && (forall id :: id in e.registered ==> id in e.handles || id in e.closed || Closing(e, id))
  }

  /** The table holds the registered ids whose Close has not been processed, each
      with its own file. */
  ghost predicate TableExact(e: Engine) {
    && (forall id :: id in e.files <==> id in e.registered && id !in e.closed)
    && (forall id :: id in e.files ==> e.files[id] == e.registered[id])
  }

  /** A Read waits ahead of any Close of its file. */
  predicate ReadsAhead(e: Engine) {
    && (forall i :: 0 <= i < |e.commands| && e.commands[i].ReadFile? && e.commands[i].id != 0 ==>
          e.commands[i].id in e.registered && e.commands[i].id !in e.closed)
    && (forall i, j :: 0 <= i < j < |e.commands| && e.commands[j].ReadFile? && e.commands[j].id != 0 ==>
          e.commands[i] != Close(e.commands[j].id))
  }

  /** Every spawned read through a registered handle holds its file. */
  predicate ReadsFound(e: Engine) {
    forall i :: 0 <= i < |e.tasks| && e.tasks[i].Reading? && e.tasks[i].id != 0 ==>
      e.tasks[i].id in e.registered && e.tasks[i].file == Some(e.registered[e.tasks[i].id])
  }

  ghost predicate Sound(e: Engine) {
    FreshIds(e) && Lifetimes(e) && TableExact(e) && ReadsAhead(e) && ReadsFound(e)
  }

  // ------------------------------------------------------- every step keeps it

  /** `f` is `e` with one more command at the end of the channel. */
  predicate Appends(e: Engine, f: Engine, c: Command) {
    && f.commands == e.commands + [c] && f.tasks == e.tasks && f.files == e.files
    && f.registered == e.registered && f.closed == e.closed
    && (if c.Open? then c.id == e.nextId && f.nextId == e.nextId + 1 else f.nextId == e.nextId)
    && (if c.Close? then c.id in e.handles && f.handles == e.handles - {c.id} else f.handles == e.handles)
    && (c.ReadFile? && c.id != 0 ==> c.id in e.handles)
  }

  lemma AppendFresh(e: Engine, f: Engine, c: Command)
    requires Appends(e, f, c) && FreshIds(e)
    ensures FreshIds(f)
  {
    assert forall i :: 0 <= i < |e.commands| ==> f.commands[i] == e.commands[i];
  }

  lemma AppendCloses(e: Engine, f: Engine, c: Command, id: nat)
    requires Appends(e, f, c)
    ensures Closing(f, id) <==> Closing(e, id) || c == Close(id)
  {
    assert forall i :: 0 <= i < |e.commands| ==> f.commands[i] == e.commands[i];
    assert f.commands[|e.commands|] == c;
    if i :| 0 <= i < |e.commands| && e.commands[i] == Close(id) {
      assert f.commands[i] == Close(id);
    }
  }

  lemma AppendLife(e: Engine, f: Engine, c: Command)
    requires Appends(e, f, c) && Lifetimes(e)
    ensures Lifetimes(f)
  {
    forall id ensures Closing(f, id) <==> Closing(e, id) || c == Close(id) { AppendCloses(e, f, c, id); }
    forall i | 0 <= i < |e.commands| && e.commands[i].Close? ensures Closing(e, e.commands[i].id) {
      assert e.commands[i] == Close(e.commands[i].id);
    }
    assert forall i :: 0 <= i < |e.commands| ==> f.commands[i] == e.commands[i];
    hide Closing;
  }

  lemma AppendAhead(e: Engine, f: Engine, c: Command)
    requires Appends(e, f, c) && ReadsAhead(e) && Lifetimes(e)
    ensures ReadsAhead(f)
  {
    assert forall i :: 0 <= i < |e.commands| ==> f.commands[i] == e.commands[i];
    if c.ReadFile? && c.id != 0 {
      assert !Closing(e, c.id);
    }
  }

  lemma AppendKeeps(e: Engine, f: Engine, c: Command)
    requires Appends(e, f, c) && Sound(e)
    ensures Sound(f)
  {
    AppendFresh(e, f, c);
    AppendLife(e, f, c);
    AppendAhead(e, f, c);
    hide FreshIds, Lifetimes, ReadsAhead;
  }

  lemma CloneFresh(e: Engine, f: Engine)
    requires f == e.(handles := f.handles) && FreshIds(e)
    ensures FreshIds(f)
  {
    assert forall id :: Unused(f, id) <==> Unused(e, id);
    hide Unused;
  }

  lemma CloneLife(e: Engine, f: Engine, id: nat)
    requires id in e.handles && id in f.handles && f.handles[id] > 0
    requires f == e.(handles := e.handles[id := f.handles[id]]) && Lifetimes(e)
    ensures Lifetimes(f)
  {
    forall x ensures Closing(f, x) <==> Closing(e, x) { SameCloses(e, f, x); }
    hide Closing;
  }

  lemma CloneRest(e: Engine, f: Engine)
    requires f == e.(handles := f.handles) && TableExact(e) && ReadsAhead(e) && ReadsFound(e)
    ensures TableExact(f) && ReadsAhead(f) && ReadsFound(f)
  {
  }

  lemma CloneKeeps(e: Engine, id: nat, n: nat)
    requires Sound(e) && id in e.handles && n > 0
    ensures Sound(e.(handles := e.handles[id := n]))
  {
    var f := e.(handles := e.handles[id := n]);
    hide FreshIds, Lifetimes, TableExact, ReadsAhead, ReadsFound;
    CloneFresh(e, f);
    CloneLife(e, f, id);
    CloneRest(e, f);
  }

  lemma PopFresh(e: Engine)
    requires FreshIds(e) && e.commands != []
    ensures FreshIds(Received(e.(commands := e.commands[1..]), e.commands[0]))
  {
    var c, rest := e.commands[0], e.commands[1..];
    var f := Received(e.(commands := rest), c);
    PopTasks(e);
    assert forall i :: 0 <= i < |rest| ==> rest[i] == e.commands[i + 1];
    hide Received;
  }

  /** Taking an Open off the channel moves its id among the tasks. */
  lemma PopTasks(e: Engine)
    requires e.commands != []
    ensures var c, f := e.commands[0], Received(e.(commands := e.commands[1..]), e.commands[0]);
            && f.nextId == e.nextId && f.registered == e.registered && f.commands == e.commands[1..]
            && |e.tasks| <= |f.tasks| <= |e.tasks| + 1
            && (forall i :: 0 <= i < |e.tasks| ==> f.tasks[i] == e.tasks[i])
            && (|f.tasks| > |e.tasks| && f.tasks[|e.tasks|].Opening? ==> c.Open? && f.tasks[|e.tasks|].id == c.id)
  {
  }

  lemma PopCloses(e: Engine, id: nat)
    requires e.commands != []
    ensures var f := Received(e.(commands := e.commands[1..]), e.commands[0]);
            Closing(e, id) <==> Closing(f, id) || e.commands[0] == Close(id)
  {
    var f := Received(e.(commands := e.commands[1..]), e.commands[0]);
    assert f.commands == e.commands[1..];
    if i :| 0 <= i < |f.commands| && f.commands[i] == Close(id) {
      assert e.commands[i + 1] == Close(id);
    }
    if i :| 0 < i < |e.commands| && e.commands[i] == Close(id) {
      assert f.commands[i - 1] == Close(id);
    }
  }

  lemma PopLife(e: Engine)
    requires Lifetimes(e) && e.commands != []
    ensures Lifetimes(Received(e.(commands := e.commands[1..]), e.commands[0]))
  {
    var c, rest := e.commands[0], e.commands[1..];
    var f := Received(e.(commands := rest), c);
    forall id ensures Closing(e, id) <==> Closing(f, id) || c == Close(id) { PopCloses(e, id); }
    assert forall i :: 0 <= i < |rest| ==> rest[i] == e.commands[i + 1];
    assert f.registered == e.registered && f.handles == e.handles && f.commands == rest;
    assert f.closed == if c.Close? then e.closed + {c.id} else e.closed;
    hide Closing, Received;
  }

  lemma PopAhead(e: Engine)
    requires ReadsAhead(e) && e.commands != []
    ensures ReadsAhead(Received(e.(commands := e.commands[1..]), e.commands[0]))
  {
    var c, rest := e.commands[0], e.commands[1..];
    var f := Received(e.(commands := rest), c);
    assert forall i :: 0 <= i < |rest| ==> rest[i] == e.commands[i + 1];
    assert f.registered == e.registered && f.commands == rest;
    assert f.closed == if c.Close? then e.closed + {c.id} else e.closed;
    hide Received;
  }

  lemma PopFinds(e: Engine)
    requires TableExact(e) && ReadsAhead(e) && ReadsFound(e) && e.commands != []
    ensures ReadsFound(Received(e.(commands := e.commands[1..]), e.commands[0]))
    ensures TableExact(Received(e.(commands := e.commands[1..]), e.commands[0]))
  {
  }

  lemma ReceiveKeeps(e: Engine)
    requires Sound(e) && e.commands != []
    ensures Sound(Received(e.(commands := e.commands[1..]), e.commands[0]))
  {
    PopFresh(e);
    PopLife(e);
    PopAhead(e);
    PopFinds(e);
    hide FreshIds, Lifetimes, ReadsAhead, ReadsFound, TableExact, Received;
  }

  lemma SameCloses(e: Engine, f: Engine, id: nat)
    requires f.commands == e.commands
    ensures Closing(f, id) <==> Closing(e, id)
  {
  }

  /** A task ends, and an open may register its file. */
  predicate Ended(e: Engine, f: Engine, k: nat) {
    && k < |e.tasks| && f.tasks == Remove(e.tasks, k) && f.commands == e.commands && f.nextId == e.nextId
      && f.closed == e.closed
    && (f == e.(tasks := f.tasks)
        || (e.tasks[k].Opening?
            && var id := e.tasks[k].id;
               id in f.files && f.files == e.files[id := f.files[id]] && f.handles == e.handles[id := 1]
               && f.registered == e.registered[id := f.files[id]]))
  }

  lemma EndFresh(e: Engine, f: Engine, k: nat)
    requires Ended(e, f, k) && FreshIds(e)
    ensures FreshIds(f)
  {
    assert forall i :: 0 <= i < |f.tasks| ==> f.tasks[i] == e.tasks[if i < k then i else i + 1];
    if f.registered != e.registered {
      var id := e.tasks[k].id;
      forall i | 0 <= i < |f.tasks| && f.tasks[i].Opening? ensures f.tasks[i].id != id {}
      forall i | 0 <= i < |f.commands| && f.commands[i].Open? ensures f.commands[i].id != id {}
    }
  }

  lemma EndLife(e: Engine, f: Engine, k: nat)
    requires Ended(e, f, k) && FreshIds(e) && Lifetimes(e)
    ensures Lifetimes(f)
  {
    forall id ensures Closing(f, id) <==> Closing(e, id) { SameCloses(e, f, id); }
    if e.tasks[k].Opening? {
      EndIsNew(e, k);
      assert !Closing(e, e.tasks[k].id);
    }
    hide Closing, FreshIds, Remove;
  }

  lemma EndIsNew(e: Engine, k: nat)
    requires k < |e.tasks| && e.tasks[k].Opening? && FreshIds(e) && Lifetimes(e)
    ensures Unused(e, e.tasks[k].id) && e.tasks[k].id !in e.closed
  {
  }

  lemma EndTable(e: Engine, f: Engine, k: nat)
    requires Ended(e, f, k) && FreshIds(e) && Lifetimes(e) && TableExact(e)
    ensures TableExact(f)
  {
    if e.tasks[k].Opening? {
      EndIsNew(e, k);
    }
    hide FreshIds, Lifetimes;
  }

  lemma EndAhead(e: Engine, f: Engine, k: nat)
    requires Ended(e, f, k) && ReadsAhead(e)
    ensures ReadsAhead(f)
  {
  }

  lemma EndFound(e: Engine, f: Engine, k: nat)
    requires Ended(e, f, k) && FreshIds(e) && Lifetimes(e) && ReadsFound(e)
    ensures ReadsFound(f)
  {
    assert forall i :: 0 <= i < |f.tasks| ==> f.tasks[i] == e.tasks[if i < k then i else i + 1];
    if e.tasks[k].Opening? {
      EndIsNew(e, k);
    }
    hide FreshIds, Lifetimes;
  }

  lemma EndKeeps(e: Engine, f: Engine, k: nat)
    requires Sound(e) && Ended(e, f, k)
    ensures Sound(f)
  {
    EndFresh(e, f, k);
    EndLife(e, f, k);
    EndTable(e, f, k);
    EndAhead(e, f, k);
    EndFound(e, f, k);
    hide FreshIds, Lifetimes, ReadsAhead, ReadsFound, TableExact, Ended;
  }

  lemma NextIsSound(e: Engine, step: Step)
    requires Sound(e) && CanStep(e, step)
    ensures Sound(Next(e, step))
  {
    hide Sound;
    var f := Next(e, step);
    match step {
      case CallOpen(path) => AppendKeeps(e, f, Open(e.nextId, path));
      case CallRead(id, offset, len) => AppendKeeps(e, f, ReadFile(id, offset, len));
      case CallReadDir(path) => AppendKeeps(e, f, ReadDir(path));
      case CloneHandle(id) => CloneKeeps(e, id, e.handles[id] + 1);
      case DropHandle(id) =>
        if e.handles[id] > 1 {
          CloneKeeps(e, id, e.handles[id] - 1);
        } else {
          AppendKeeps(e, f, Close(id));
        }
      case Receive => ReceiveKeeps(e);
      case FinishOpen(k, end) => EndKeeps(e, f, k);
      case FinishTask(k) => EndKeeps(e, f, k);
    }
  }

  /** In every state of every history: the table holds exactly the registered
      files whose Close has not been processed; a read submitted through a live
      handle finds its file, whatever else was queued, because its Read is ahead
      of the Close in the channel. */
  lemma {:induction false} TableIsExact(steps: seq<Step>)
    requires After(steps).Some?
    ensures Sound(After(steps).value)
  {
    hide Sound, Next;
    if steps == [] {
      RestIsSound();
    } else {
      var front := steps[..|steps| - 1];
      TableIsExact(front);
      NextIsSound(After(front).value, steps[|steps| - 1]);
    }
  }

  lemma RestIsSound()
    ensures Sound(AtRest)
  {
  }

  /** Nothing leaks: once every handle is dropped and every command and task is
      done with, no file is open. */
  lemma NothingLeaks(steps: seq<Step>)
    requires After(steps).Some?
    requires var e := After(steps).value; e.commands == [] && e.handles == map[]
    ensures After(steps).value.files == map[]
  {
    TableIsExact(steps);
    hide After;
    var e := After(steps).value;
    assert forall id :: !Closing(e, id);
    assert forall id :: id !in e.files;
  }

  // ------------------------------------------------------------- the same, in place

  /** The command loop until the channel is empty. */
  function ReceiveAll(e: Engine): Engine
    decreases |e.commands|
  {
    if e.commands == [] then e else ReceiveAll(Received(e.(commands := e.commands[1..]), e.commands[0]))
  }

  lemma {:induction false} ReceiveAllIsSound(e: Engine)
    requires Sound(e)
    ensures Sound(ReceiveAll(e)) && ReceiveAll(e).commands == []
    ensures ReceiveAll(e).registered == e.registered
    ensures forall id :: id in ReceiveAll(e).files <==> id in e.registered && id in e.handles
    decreases |e.commands|
  {
    hide FreshIds, ReadsAhead, ReadsFound, Received;
    if e.commands == [] {
      assert forall id :: !Closing(e, id);
    } else {
      var f := Received(e.(commands := e.commands[1..]), e.commands[0]);
      ReceiveKeeps(e);
      ReceivedKeeps(e);
      hide Sound;
      ReceiveAllIsSound(f);
    }
  }

  lemma ReceivedKeeps(e: Engine)
    requires e.commands != []
    ensures var f := Received(e.(commands := e.commands[1..]), e.commands[0]);
            f.registered == e.registered && f.handles == e.handles && f.commands == e.commands[1..]
  {
  }

  class CompioEngine {
    var nextId: nat
    var commands: seq<Command>
    var tasks: seq<Task>
    var files: map<nat, FileBytes>
    var handles: map<nat, nat>
    ghost var registered: map<nat, FileBytes>
    ghost var closed: set<nat>

    ghost function State(): Engine
      reads this
    {
      Engine(nextId, commands, tasks, files, handles, registered, closed)
    }

    constructor ()
      ensures State() == AtRest
    {
      nextId, commands, tasks, files, handles := 1, [], [], map[], map[];
      registered, closed := map[], {};
    }

    method OpenStat(path: Bytes)
      modifies this
      ensures State() == Next(old(State()), CallOpen(path))
    {
      var id := nextId;
      nextId := nextId + 1;
      commands := commands + [Open(id, path)];
    }

    method ReadAt(id: nat, offset: nat, len: nat)
      requires CanStep(State(), CallRead(id, offset, len))
      modifies this
      ensures State() == Next(old(State()), CallRead(id, offset, len))
    {
      commands := commands + [ReadFile(id, offset, len)];
    }

    method List(path: Bytes)
      modifies this
      ensures State() == Next(old(State()), CallReadDir(path))
    {
      commands := commands + [ReadDir(path)];
    }

    /** A clone of a handle goes away; the last one asks for a close. */
    method Drop(id: nat)
      requires CanStep(State(), DropHandle(id))
      modifies this
      ensures State() == Next(old(State()), DropHandle(id))
    {
      if handles[id] > 1 {
        handles := handles[id := handles[id] - 1];
      } else {
        handles := handles - {id};
        commands := commands + [Close(id)];
      }
    }

    /** An open completes: its file is registered and its handle handed out. */
    method EndOpen(k: nat, end: OpenEnd)
      requires CanStep(State(), FinishOpen(k, end))
      modifies this
      ensures State() == Next(old(State()), FinishOpen(k, end))
    {
      var id := tasks[k].id;
      tasks := tasks[..k] + tasks[k + 1..];
      if end.Registers? {
        files := files[id := end.content];
        handles := handles[id := 1];
        registered := registered[id := end.content];
      }
    }

    /** The command loop, as long as there are commands. */
    method RunReactor()
      modifies this
      ensures State() == ReceiveAll(old(State()))
    {
      while commands != []
        invariant ReceiveAll(State()) == ReceiveAll(old(State()))
        decreases |commands|
      {
        var command := commands[0];
        commands := commands[1..];
        match command {
          case Close(id) =>
            files := files - {id};
            closed := closed + {id};
          case Open(id, path) => tasks := tasks + [Opening(id, path)];
          case ReadFile(id, offset, len) =>
            var file := if id in files then Some(files[id]) else None;
            tasks := tasks + [Reading(id, file, offset, len)];
          case ReadDir(path) => tasks := tasks + [Scanning(path)];
        }
      }
    }
  }
}

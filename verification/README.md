# A model of envoy-files

envoy-files is an Envoy HTTP filter that serves static files.  This project
models it in Dafny and proves what its parts promise and what they promise
together.

The centre is the per-stream filter.  `FilterModel.dfy` gives each callback as a
function on the filter's state, `FilterClass.dfy` runs the same callbacks as
methods that update fields and proves that they agree.  `FilterRuns.dfy` puts the
filter into its environment: the I/O engine finishes operations in any order,
its threads push the result and commit the wake-up later, Envoy runs committed
wake-ups, raises and lowers watermarks, also in the middle of a send, and may
complete the stream at any time.  A run is any sequence of such steps.  It also
says, without following the resolver's steps, what a request resolves to (its
verdict) and which calls into Envoy it should lead to.  On that rest:

- `FilterInvariant`, `FilterResolve`, `FilterStream`: one inductive invariant,
  kept by every step; `Delivery`: every run delivers the expected response.
- `FilterProgress`, `FilterLiveness`: a budget every step spends; no lost
  wake-up, bounded runs, and the one kind of request that never ends.
- `ResolverSpec`, `Itinerary`, `RequestRuns`: what the verdict is, and which paths
  a request can touch.
- `Callbacks`, `Backpressure`, `Teardown`: what Envoy has called back by any moment
  of a run, when that holds the stream back, and what it lets go.
- `Answers`, `Replies`: what a client gets in the end, in numbers, fields and bytes:
  the header and body of a served file, and every reply that serves none.
- `Failures`: only a failing read can cut a response short.
- `Schedules`, `SpareReads`, `WindowBound`, `PileUp`: runs built step by step
  (`Schedules`), and with them when a prefetched chunk is read again and when the
  read window bounds memory.
- `FilterOnEngine`: a stream and the reactor together, among other clients; what
  the stream does there is one of its runs.

Around it: `EventBridge` (the mailbox), `Reactor`, `EngineTasks`, `CanonCache`
(the I/O engine), `Ranges`, `Multipart`, `Validators`, `ResponsePlan`,
`ResponseFields` (planning a response, and its fields as a client reads them),
`Paths`, `PathRules` (which paths resolve, without naming the code's own checks),
`Mount`, `Listing`, `Links`, `Encodings` (links and negotiation), `Text`, `Utf8`, `Sorting` (vocabulary).  `EngineTasks.OpenStat` and
`EngineTasks.ReadAt` give the completions that `FilterOnEngine` takes the reactor's
tasks to give.

`FilterClass` also runs the callbacks and handlers without a loop
(`OnHighWatermark`, `OnLowWatermark`, `SubmitOpening`, `NextCandidate`,
`NextIndex`, `OpenFailed`, `OpenedFile`, `Listed`, `Serve`, `ReadDone` and their
helpers); each is the function of its callback in `FilterModel`, field by field,
and has no row of its own below.

Text and bytes are sequences of `char`, one octet each.  A file's contents do
not change during a run.

`dafny verify dfyconfig.toml` checks everything.

## Where the code differs from what is said of it

The model follows the code.

- A prefetched chunk 0 of a body of several chunks is read a second time: it has
  left `ready` before the issue cursor reaches it, against the comments at
  crates/envoy-files-filter/src/filter.rs:706-708 and 813-814
  (`Delivery.SeededChunkIsReadAgain`).  Some run does so if and only if the request
  is a GET without Range whose answer is a whole file of more than one chunk
  (`SpareReads.RereadExactly`).  If that spare read fails, the response is cut short
  although the client has the chunk (`Delivery.SpareReadBreaks`): possible for
  exactly the same requests (`SpareReads.SpareCutsExactly`).
- README.md:47 says the window bounds the buffering of a stream.  Of any request
  that holds in every run if and only if all that the answer asks of the file is
  within the bound, or the window is one and there is a Range
  (`PileUp.BoundHoldsExactly`).  Without a Range the second copy of chunk 0 stays in
  memory for good, so even with completions in order, and even with a window of
  one, a run can hold one chunk more (`PileUp.FillsBeyond`), though never two
  (`WindowBound.WindowBoundsMemory`, `WindowBound.OneReadBoundsMemory`).  With a
  window of two or more and completions out of order it can hold all that is asked
  for (`PileUp.BuffersWholeBody`).
- An index entry that is a directory sends the resolver round for ever
  (`ResolverSpec.LoopsExactly`, `FilterLiveness.EndsExactly`), such as a directory
  named index.html (`ResolverSpec.LoopExists`).
- README.md:42 has `deny` answer 403 for a directory with no matching index; the
  code answers 403 without looking for one.  A directory is answered as documented
  exactly as `ResolverSpec.DocumentedExactly` says; `ResolverSpec.DenyHidesIndex`
  is a directory whose index is not served.  A third meaning, that `deny` answers
  404 (crates/envoy-files-filter/src/config.rs:15), never holds
  (`ResolverSpec.MissingExactly`).
- An index file may be given as an absolute path; it is asked of the engine as it
  is, and only the engine's check (`CanonCache.Cache.InsideRoot`) then keeps it
  inside the root.  Exactly which requests may so ask for a path that is not below
  the root is `RequestRuns.LeavesExactly`; `RequestRuns.AbsoluteIndexIsAsked` is one.
- Draining a closed mailbox opens it again (`EventBridge.DrainReopens`): it is
  closed exactly while some close has had no drain after it
  (`EventBridge.ClosedExactly`).
- Redirect locations are not percent-encoded, and the unmounted root asked for as
  `/.` is redirected to `//`, which names another authority: exactly which
  redirects lead back is `Mount.RedirectLandsBack`, with
  `Mount.RootRedirectLeaves` and `Mount.RedirectGoesAstray` for examples.
- A listing shows names that the policy refuses, with links that fail, and its
  links are relative to a page that may lack its trailing slash: exactly which
  lead to their entry is `Links.LinkLeadsToEntry`, through a mount
  `Links.MountedLinkLeadsToEntry`, with `Links.DotfileIsListed` for an example.
- HEAD is planned with Range like GET (`ResponsePlan.HeadMirrorsGet`), where
  section 14.2 of RFC 9110 defines Range for GET only.  A HEAD is answered as if
  it had no Range exactly as `ResponsePlan.HeadIgnoresRange` says;
  `ResponsePlan.HeadGetsRange` is a 206.
- An int-range whose last position is below its first is invalid by section 14.1.1
  of RFC 9110, and section 14.2 speaks of ignoring or rejecting a header that holds
  one.  The code passes over such a spec (`Ranges.SpecAccepted`): alone it is
  rejected, beside specs that select something it is as if it were not there.
  Exactly which headers are served although they hold one is
  `Ranges.InvalidServedExactly`, with `Ranges.InvalidIsPassedOver` for examples.
- A 304 repeats the ETag of the 200 it stands for, but never its Vary and
  Cache-Control, which section 15.4.5 of RFC 9110 asks for; exactly when that
  matters is `ResponsePlan.NotModifiedRepeats`.
- The length announced for a multipart body wraps at 2^64
  (`ResponsePlan.AdvertisedLength`).  `ResponsePlan.LengthCanWrap` takes a file of
  2^64 - 1 bytes, which only a direct caller of the planner can claim: for files of
  less than 2^63 bytes, all a file system reports, the length is always right
  (`ResponsePlan.LengthIsExact`, `Delivery.LengthServed`).

## Model

| member | source | states |
|---|---|---|
| `Delivery.EveryRunDelivers` | crates/envoy-files-filter/src/filter.rs:617-833 | For every schedule of completions, commits, drains, watermark changes (also inside a send) and stream completion, what has been sent is a prefix of the one expected response; the stream is done exactly when all of it is sent; after a read error a proper prefix is followed by the end of the stream |
| `Delivery.ServedInFull` | crates/envoy-files-filter/src/filter.rs:617-833 | The body bytes sent of a served file are at every moment, failed reads included, a prefix of the planned Whole, Segments or Multipart bytes; when the response is over and no read failed they are those bytes, after headers whose Content-Length names their number if and only if it is below 2^64 |
| `Delivery.LengthServed` | crates/envoy-files-filter/src/filter.rs:617-833 | For a file of less than 2^63 bytes the one Content-Length of a finished response is the number of bytes the client got |
| `Delivery.BodyChunksBytes` | crates/envoy-files-filter/src/filter.rs:643-666 | The chunks of a body plan, read and concatenated, are the planned bytes |
| `Delivery.FileChunksBytes` | crates/envoy-files-filter/src/filter.rs:670-684 | Cutting an interval of the file into chunks loses and repeats no byte |
| `Delivery.OneResponse` | crates/envoy-files-filter/src/filter.rs:413-565 | In every run, read errors included: headers at most once, data only after headers, the stream ended at most once, nothing sent after that |
| `Delivery.ControlIsExclusive` | crates/envoy-files-filter/src/filter.rs:334-373 | While resolving exactly one open or listing is outstanding, while streaming or done none: why the handlers need not test the phase |
| `Delivery.EachChunkReadOnce` | crates/envoy-files-filter/src/filter.rs:796-832 | No chunk is submitted to the engine twice, and no read goes through the inert handle |
| `Delivery.WindowIsPartitioned` | crates/envoy-files-filter/src/filter.rs:700-822 | Each index from the send cursor to the issue cursor is ready or outstanding, never both; a file chunk the issue cursor has not reached but the send cursor has passed is the seeded chunk 0; `inflight` is the number of outstanding reads and stays within the window |
| `Delivery.SeededChunkIsReadAgain` | crates/envoy-files-filter/src/filter.rs:703-713 | In every run, a stream whose chunk 0 came with the open submits its first read, if any, for that very chunk, after it was sent |
| `SpareReads.ReadsAgainWitness` | crates/envoy-files-filter/src/filter.rs:703-713 | For any GET without Range that is answered with a whole file of more than one chunk, the run that does so |
| `SpareReads.RereadExactly` | crates/envoy-files-filter/src/filter.rs:808-823 | Of any request: some run reads a chunk again that came with the open if and only if it is a GET without Range answered with a whole file of more than one chunk |
| `Delivery.SpareIsSeeded` | crates/envoy-files-filter/src/filter.rs:703-713 | In every state of every run, the only read outstanding for a chunk that has been sent is that of a seeded chunk 0 |
| `Delivery.SpareReadBreaks` | crates/envoy-files-filter/src/filter.rs:729-761 | In every run, a failed read among the completions of a drain ends the stream with its response cut short, whether or not the chunk had been sent |
| `SpareReads.SpareFailureWitness` | crates/envoy-files-filter/src/filter.rs:729-761 | For any such request, a run whose only failure is that spare read, and which ends cut short |
| `SpareReads.SpareCutsExactly` | crates/envoy-files-filter/src/filter.rs:729-761 | Of any request: failures of reads of chunks already sent can alone cut the response short if and only if it is such a request |
| `Failures.FailureNeedsFailedRead` | crates/envoy-files-filter/src/filter.rs:729-761 | A run without a failing read completion is never cut short: with `Delivery.EveryRunDelivers` its response is complete once it is done |
| `Delivery.QuietMeansServed` | crates/envoy-files-filter/src/filter.rs:247-284 | A run with no step of its own left, not paused and not torn down, has given its whole answer |
| `FilterStream.RunInv` | crates/envoy-files-filter/src/filter.rs:247-833 | Every state of every run has the inductive invariant over `ready`, the two cursors, `inflight` and the outstanding reads |
| `FilterStream.FlushInv` | crates/envoy-files-filter/src/filter.rs:770-794 | The flushing loop keeps the invariant with sends that call back in the middle; it stops at a real gap, at backpressure, or done |
| `FilterStream.IssueInv` | crates/envoy-files-filter/src/filter.rs:796-832 | The issuing loop keeps the invariant, touches nothing that is sent, and leaves no read it could issue |
| `FilterStream.HandleEventInv` | crates/envoy-files-filter/src/filter.rs:413-425 | Any event in any phase keeps the invariant; an event that ends the stream leaves the phase done |
| `FilterStream.OnScheduledInv` | crates/envoy-files-filter/src/filter.rs:247-259 | A whole drain keeps the invariant, the events abandoned after a terminal send included |
| `FilterInvariant.HooksKeepInv` | crates/envoy-files-filter/src/filter.rs:261-284 | Any sequence of watermark and completion callbacks keeps the invariant; what they do to the depth is `Backpressure.DepthIsPending` |
| `FilterInvariant.SendKeepsInv` | crates/envoy-files-filter/src/filter.rs:764-769 | A send keeps the invariant whatever Envoy calls back before it returns |
| `Backpressure.DepthIsPending` | crates/envoy-files-filter/src/filter.rs:261-278 | In every run, across drains and inside one, the depth of a stream is the number of Highs signalled since streaming began that no Low has answered (a Low with none open answers nothing) |
| `Backpressure.HighHoldsBack` | crates/envoy-files-filter/src/filter.rs:770-774 | While more Highs than Lows are open, no step of any kind sends a byte or submits a read; only a failed read may end the stream |
| `Backpressure.DataNeedsOpen` | crates/envoy-files-filter/src/filter.rs:770-794 | Each piece of the body goes out at a moment when no High is open, those called back earlier in the same drain counted |
| `Backpressure.ReadsNeedOpen` | crates/envoy-files-filter/src/filter.rs:796-832 | A read is submitted only in a step after which no High is open |
| `Backpressure.LowOwesWakeUp` | crates/envoy-files-filter/src/filter.rs:267-278 | The wake-ups of a stream are the commits and the Lows that leave no High open, less the drains: the Low that brings the count to zero owes exactly one, any other none |
| `Teardown.CompleteLetsGo` | crates/envoy-files-filter/src/filter.rs:280-284 | After `on_stream_complete`, until a drain, what waited and whatever completes is let go in order; nothing is sent or submitted and no wake-up is owed |
| `FilterResolve.HandleControlInv` | crates/envoy-files-filter/src/filter.rs:427-565 | Every completion of an open or a listing leads on to the verdict of the request, or carries it out |
| `FilterResolve.SeedIsIntended` | crates/envoy-files-filter/src/filter.rs:703-713 | A prefetch that seeds chunk 0 holds the bytes a read of it gives |
| `FilterResolve.InertIsSeeded` | crates/envoy-files-io/src/engine.rs:337-346 | The inert handle arises only when nothing is left to read: no chunk at all, or one chunk that the prefetch covers |
| `FilterLiveness.NoStall` | crates/envoy-files-filter/src/filter.rs:256-278 | Deadlock freedom: in every state of every run some step of the stream's own is possible, unless it is done, paused by a high watermark, or torn down |
| `FilterLiveness.RunCalm` | crates/envoy-files-filter/src/filter.rs:33-38 | An event in the mailbox always has a wake-up on its way, and with none on its way an unpaused stream has nothing to send and no read to issue |
| `FilterLiveness.ScheduledEnds` | crates/envoy-files-filter/src/filter.rs:247-259 | A drain empties the mailbox and leaves the stream paused or pumped dry |
| `FilterLiveness.EveryRunEnds` | crates/envoy-files-filter/src/filter.rs:334-373 | A request that does not loop takes a bounded number of steps beyond what Envoy calls back, opens each candidate and index entry at most once, and lists at most one directory |
| `FilterLiveness.EndsExactly` | crates/envoy-files-filter/src/filter.rs:435-441 | The steps a stream takes on its own are bounded if and only if its verdict is not the index loop |
| `FilterLiveness.LoopNeverAnswers` | crates/envoy-files-filter/src/filter.rs:487-506 | A looping request never sends anything |
| `FilterLiveness.LoopGoesOn` | crates/envoy-files-filter/src/filter.rs:487-506 | A looping request has runs of every length without any callback of Envoy |
| `FilterLiveness.OnlyKnownPaths` | crates/envoy-files-filter/src/filter.rs:288-397 | A run opens only its candidates and index entries, each with a prefetch of one chunk for a GET without Range and none otherwise, and lists only its own directory |
| `ResolverSpec.FirstFileWins` | crates/envoy-files-filter/src/filter.rs:288-332 | The first candidate that opens as a file is served; with none, the plain path decides: directory rules or its open error |
| `ResolverSpec.CandidatesAreNegotiated` | crates/envoy-files-filter/src/filter.rs:288-332 | The candidates, field by field: the configured variants the client wants, most preferred first, each at its own suffix and of the type of the path asked for, without the suffix; then the plain path |
| `ResolverSpec.OnlyPlain` | crates/envoy-files-filter/src/filter.rs:288-332 | With a trailing slash, or no Accept-Encoding that can be read, only the plain path is tried |
| `Answers.TypeOfServed` | crates/envoy-files-filter/src/filter.rs:296-328 | A file served by its own path, compressed or not, has the type of that path; an index file is the first configured one that opens and has the type of its configured name |
| `Answers.HeaderOnWire` | crates/envoy-files-filter/src/filter.rs:567-628 | The header of every run that serves a file: its status by tags, dates and range; in a 200 or 206 exactly one Content-Type, the file's own for the whole or one part, one Content-Range that reads back as the range asked for, and each of ETag, Last-Modified, Cache-Control, Content-Encoding and Vary once exactly when its setting or candidate has it; what a 304, 412 and 416 say |
| `Answers.BodyOnWire` | crates/envoy-files-filter/src/filter.rs:617-833 | A GET that is over and in which no read failed has got the file, the one part, or a body that a reader of the boundary in the Content-Type takes apart into the parts |
| `Answers.BoundaryNamesFile` | crates/envoy-files-filter/src/filter.rs:581-584 | The boundary is a fixed word, then the size and the seconds (as 64 bits) in sixteen hexadecimal digits each |
| `ResolverSpec.VaryWhenNegotiated` | crates/envoy-files-filter/src/filter.rs:322-331 | Whichever candidate is served, its 200 or 206 has Vary exactly when some variant was on offer, and Content-Encoding exactly when it is a variant |
| `ResolverSpec.DirectoryRules` | crates/envoy-files-filter/src/filter.rs:470-529 | Redirect, then deny, then the first index entry that exists, then listing or 404 |
| `Replies.DirectoryAnswered` | crates/envoy-files-filter/src/filter.rs:470-565 | The reply of a run that ends at a directory: 301 to the mount, the path and a slash; 403 in `deny` mode; with no index file 404, or in `listing` mode a 200 page of the entries under their own path, or the error's status |
| `Replies.FailureAnswered` | crates/envoy-files-core/src/error.rs:24-39 | The reply of a run whose path cannot be opened: 404 for what is not there, 403 for what is forbidden or a loop of links, else 500 |
| `ResolverSpec.DocumentedExactly` | README.md:42 | A directory is answered as the table of settings says if and only if it is redirected, or the mode is not `deny`, or no index entry exists |
| `ResolverSpec.MissingExactly` | crates/envoy-files-filter/src/config.rs:9-17 | A directory is answered 404 if and only if it is not redirected, the mode is `index` and no index entry exists: in `deny` mode never |
| `ResolverSpec.DenyHidesIndex` | crates/envoy-files-filter/src/filter.rs:482-484 | In `deny` mode a directory with an index.html is answered 403 where the table has it served |
| `ResolverSpec.LoopsExactly` | crates/envoy-files-filter/src/filter.rs:435-441 | A request loops if and only if it comes to a directory, neither redirected nor denied, whose first existing index entry is a directory |
| `ResolverSpec.LoopExists` | crates/envoy-files-filter/src/filter.rs:487-506 | A configuration, a request and a disk for which the verdict is the loop: GET /docs/ where index.html is a directory |
| `ResolverSpec.BackToTheFirstEntry` | crates/envoy-files-filter/src/filter.rs:487-506 | The turn of the loop: an index entry that is a directory puts the stream back at the first entry |
| `Itinerary.OpensExactly` | crates/envoy-files-filter/src/filter.rs:334-373 | Exactly which paths some run opens: the candidates up to the first file; and, when there is none and the directory is neither redirected nor denied, the index entries up to the first that exists |
| `RequestRuns.RefusedOrStarted` | crates/envoy-files-filter/src/filter.rs:165-245 | A refused request gets one complete 400, 404, 405 or 414 and costs no I/O; any other starts the resolver |
| `Replies.AdmittedExactly` | crates/envoy-files-filter/src/filter.rs:165-245 | Exactly the GETs and HEADs below the mount with a path of at most 4096 octets of fine pieces are looked for, under the names the path spells |
| `Replies.RefusedOutside` | crates/envoy-files-filter/src/filter.rs:177-194 | Another method is answered 405 with `allow: GET, HEAD`, a path outside the mount 404; nothing is submitted |
| `Replies.RefusedByPath` | crates/envoy-files-filter/src/filter.rs:199-217 | Below the mount: 414 when the path is too long, else by its first bad piece, 404 for a slash in it, `..` or a hidden name, 400 otherwise |
| `RequestRuns.EveryPathIsContained` | crates/envoy-files-core/src/path.rs:42-88 | Whatever path is requested, every path opened or listed in any run is the text of the root, a separator, and harmless names (`PathRules.Harmless`) with at most a variant's suffix or a configured name; or an index file the configuration names by an absolute path |
| `RequestRuns.LeavesExactly` | crates/envoy-files-filter/src/filter.rs:487-506 | Some run on some disk asks for a path not below the root if and only if the request is neither redirected nor denied and an index file is an absolute path elsewhere with no entry before it that is the directory itself |
| `RequestRuns.AbsoluteIndexIsAsked` | crates/envoy-files-filter/src/filter.rs:487-506 | A configuration, a request, a disk and a run that asks for /etc/motd, which is not below the root /srv |
| `WindowBound.WindowBoundsMemory` | crates/envoy-files-filter/src/filter.rs:796-823 | When completions come in issue order, under any watermark schedule, the unsent file chunks held and the reads in flight together never exceed the window; all file chunks in memory and the reads in flight never exceed the window and one |
| `WindowBound.OneReadBoundsMemory` | crates/envoy-files-filter/src/filter.rs:808-823 | With a window of one, in every run, torn down or not: at most one unsent file chunk held or being read, at most two with the copy of chunk 0 that stays |
| `PileUp.HoldsWholeBody` | crates/envoy-files-filter/src/filter.rs:808-823 | With a window of two or more, whatever the body, a run that holds every chunk of the file it asks for, none of them sent |
| `PileUp.HoldsAnyNumber` | crates/envoy-files-filter/src/filter.rs:808-823 | With a window of two or more, for every k some run of a large enough file holds k unsent chunks |
| `PileUp.FillsBeyond` | crates/envoy-files-filter/src/filter.rs:796-823 | For a whole file of more than one chunk, with any window, completions in order and no failure: a run that holds one chunk more than the window, or the whole file |
| `PileUp.BoundHoldsExactly` | README.md:47 | Of any request: the documented bound on the bytes buffered, all of `ready` counted, holds in every run if and only if the bytes asked of the file are within it, or the window is one and there is a Range |
| `PileUp.BuffersWholeBody` | README.md:47 | With a window of two or more, whatever the body, a run whose buffers hold all the bytes asked of the file |
| `FilterClass.CutChunks` | crates/envoy-files-filter/src/filter.rs:670-684 | The loop of `file_chunks` gives the chunks whose bytes `Delivery.FileChunksBytes` is about |
| `FilterClass.PlanChunks` | crates/envoy-files-filter/src/filter.rs:643-666 | The loops over segments and parts give the chunks of the body plan |
| `FilterClass.InlineChunks` | crates/envoy-files-filter/src/filter.rs:698-704 | The loop that makes multipart framing ready |
| `FilterClass.Filter.Call` | crates/envoy-files-filter/src/filter.rs:764-769 | A send appends to the wire and then runs the callbacks of Envoy in order |
| `FilterClass.Filter.OnComplete` | crates/envoy-files-filter/src/filter.rs:280-284 | The new state when the stream completes: the mailbox is closed |
| `FilterClass.Filter.Deliver` | crates/envoy-files-filter/src/filter.rs:33-38 | A delivery pushes first and owes a wake-up only if the push was accepted |
| `FilterClass.Filter.BuildCandidates` | crates/envoy-files-filter/src/filter.rs:288-332 | The loop builds the candidate list the resolver theorems are about |
| `FilterClass.Filter.EnterDirectory` | crates/envoy-files-filter/src/filter.rs:470-507 | Handling a directory, as a state change |
| `FilterClass.Filter.Begin` | crates/envoy-files-filter/src/filter.rs:686-727 | Starting the stream: inline chunks ready, chunk 0 seeded, headers sent |
| `FilterClass.Filter.FlushReady` | crates/envoy-files-filter/src/filter.rs:770-794 | The flushing loop on the fields equals the specified one, with callbacks between its passes |
| `FilterClass.Filter.IssueReads` | crates/envoy-files-filter/src/filter.rs:796-832 | Collecting the reads in one loop and submitting them in another is the same as issuing them one by one |
| `FilterClass.Filter.PumpBody` | crates/envoy-files-filter/src/filter.rs:763-833 | `pump` on the fields is the specified pump |
| `FilterClass.Filter.OnWakeUp` | crates/envoy-files-filter/src/filter.rs:247-259 | A drain on the fields, with its early return, is the specified drain |
| `FilterClass.Filter.OnHeaders` | crates/envoy-files-filter/src/filter.rs:165-245 | The request callback on the fields is the specified one, the request of an earlier call kept |
| `EventBridge.EventBridge.Send` | crates/envoy-files-filter/src/eventbridge.rs:38-58 | A send appends to an open mailbox and fails on a closed one |
| `EventBridge.EventBridge.Process` | crates/envoy-files-filter/src/eventbridge.rs:62-77 | A drain hands over everything in order and leaves the mailbox open and empty, closed or not |
| `EventBridge.EventBridge.Close` | crates/envoy-files-filter/src/eventbridge.rs:80-83 | Closing leaves the mailbox closed |
| `EventBridge.NothingLostOrRepeated` | crates/envoy-files-filter/src/eventbridge.rs:38-83 | Over every interleaving: delivered then pending events are the accepted sends in lock order, each once, without those a close discarded |
| `EventBridge.ClosedUntilDrained` | crates/envoy-files-filter/src/eventbridge.rs:38-83 | After a close nothing is accepted or delivered until a drain |
| `EventBridge.ClosedExactly` | crates/envoy-files-filter/src/eventbridge.rs:38-83 | After any calls the mailbox is closed if and only if some close has had no drain after it |
| `EventBridge.DrainReopens` | crates/envoy-files-filter/src/eventbridge.rs:62-77 | A drain after a close opens the mailbox again |
| `Reactor.TableIsExact` | crates/envoy-files-io/src/engine.rs:182-237 | In every history the file table holds exactly the registered ids whose Close has not been processed, and every spawned read through a registered handle holds its own file |
| `Reactor.NextIsSound` | crates/envoy-files-io/src/engine.rs:35-46 | Each step keeps it: a registered file is live, or has one Close on its way, or is closed; a Read is ahead of the Close of its file |
| `Reactor.NothingLeaks` | crates/envoy-files-io/src/engine.rs:35-46 | With all handles dropped and all commands processed the table is empty |
| `Reactor.ReceiveAllIsSound` | crates/envoy-files-io/src/engine.rs:188-236 | Once the channel is drained, the open files are exactly those with a live handle |
| `FilterOnEngine.FilesStayOpen` | crates/envoy-files-io/src/engine.rs:182-237 | A stream on the reactor, among other clients, whatever they do: the handle it streams from is live with its file in the table, and every read spawned for it holds that file |
| `FilterOnEngine.ReadFindsFile` | crates/envoy-files-io/src/engine.rs:389-418 | So a read of the stream is answered as the runs assume |
| `FilterOnEngine.EngineRefinesRuns` | crates/envoy-files-filter/src/filter.rs:33-38 | What a stream does on the reactor is a run of the stream, so the theorems about runs hold of it there |
| `Reactor.CompioEngine.OpenStat` | crates/envoy-files-io/src/engine.rs:128-137 | An open takes a new id and queues its command |
| `Reactor.CompioEngine.ReadAt` | crates/envoy-files-io/src/engine.rs:139-146 | A read queues its command |
| `Reactor.CompioEngine.Drop` | crates/envoy-files-io/src/engine.rs:35-46 | Dropping the last clone of a handle queues its Close |
| `Reactor.CompioEngine.EndOpen` | crates/envoy-files-io/src/engine.rs:346-350 | A finished open registers its file and hands out its handle |
| `Reactor.CompioEngine.RunReactor` | crates/envoy-files-io/src/engine.rs:188-236 | The command loop on the table is the specified sequence of receives |
| `EngineTasks.ReadAt` | crates/envoy-files-io/src/engine.rs:389-418 | For every pattern of short reads the result is exactly the requested bytes up to the end of the file; it fails only if the file is closed or a read of the disk fails |
| `EngineTasks.ReadRest` | crates/envoy-files-io/src/engine.rs:407-417 | The loop after a short first read |
| `EngineTasks.OpenStat` | crates/envoy-files-io/src/engine.rs:323-350 | The completion of an open is one the filter theorems allow for; the file is registered unless the prefetch is the whole file |
| `CanonCache.JoinedIsCanonical` | crates/envoy-files-io/src/engine.rs:369-387 | Canonical parent joined with the name equals full canonicalization exactly when the last component exists and is no link |
| `CanonCache.CacheStaysTrue` | crates/envoy-files-io/src/engine.rs:369-387 | After any lookups every entry is the true canonical form of its directory and there are at most 4096 |
| `CanonCache.Cache.ParentCachedCanonicalize` | crates/envoy-files-io/src/engine.rs:369-387 | The cached answer does not depend on the cache and is the full one when the open proved there is no final link |
| `CanonCache.Cache.InsideRoot` | crates/envoy-files-io/src/engine.rs:301-319 | The containment check answers whether the full canonical path is inside the root |
| `CanonCache.WalkIsReal` | crates/envoy-files-io/src/engine.rs:356-368 | Canonicalization yields a path without links |
| `Ranges.PlanRanges` | crates/envoy-files-core/src/range.rs:39-85 | The parsing loop with its early returns computes the plan the theorems below are about |
| `Ranges.SpecMeaning` | crates/envoy-files-core/src/range.rs:97-159 | An accepted spec selects exactly the positions section 14.1.2 of RFC 9110 gives it, cut off at the file; it is accepted exactly when its numbers fit in 64 bits |
| `Ranges.SpecGrammar` | crates/envoy-files-core/src/range.rs:97-149 | Nothing else is accepted: every accepted text spells a range-spec of section 14.1.1 of RFC 9110 |
| `Ranges.SpecAccepted` | crates/envoy-files-core/src/range.rs:97-128 | What each spelled spec is parsed to, and which positions that is; the accepted but invalid ones are exactly the int-ranges whose last position is below their first, and they name no bytes |
| `Ranges.PlanIsSound` | crates/envoy-files-core/src/range.rs:39-85 | Planned ranges lie inside the file; a list has 2 to `max_parts` ascending disjoint ranges that ask for no more than the file |
| `Ranges.PlanServesRequest` | crates/envoy-files-core/src/range.rs:39-85 | The planned ranges hold exactly the positions the specs ask for; unsatisfiable exactly when they ask for none |
| `Ranges.NotIgnoredExactly` | crates/envoy-files-core/src/range.rs:39-85 | A header is not ignored if and only if its pieces are range-specs that fit in 64 bits and together ask for something the policy serves or for nothing |
| `Ranges.InvalidServedExactly` | crates/envoy-files-core/src/range.rs:39-85 | A header holds an invalid spec and is served in part if and only if it reads as specs that fit, one of them invalid, and the valid ones select something the policy serves |
| `Ranges.InvalidIsPassedOver` | crates/envoy-files-core/src/range.rs:119-121 | `bytes=5-2` is unsatisfiable, `bytes=5-2,0-0` is served as 0-0 |
| `Ranges.PlanRoundTrip` | crates/envoy-files-core/src/range.rs:39-85 | Printing ascending in-bounds ranges and planning them gives those ranges back when the policy allows |
| `Multipart.MultipartParts` | crates/envoy-files-core/src/range.rs:195-232 | The loop gives the parts, the terminator, and the length modulo 2^64 |
| `Multipart.BuildHeader` | crates/envoy-files-core/src/range.rs:205-217 | One part header, piece by piece |
| `Multipart.AssembledLength` | crates/envoy-files-core/src/range.rs:219-229 | The summed length is the length of the assembled parts |
| `Multipart.LengthWraps` | crates/envoy-files-core/src/range.rs:219-229 | The announced length is the true one if and only if the body is shorter than 2^64 |
| `Multipart.MultipartRoundTrip` | crates/envoy-files-core/src/range.rs:178-232 | A reader that follows the boundary lines and takes as many bytes as each Content-Range says gets back exactly the ranges and slices, for any file contents |
| `ResponseFields.StatusExactly` | crates/envoy-files-core/src/response_plan.rs:79-231 | The status of every plan: 412, then 304, by membership of the file's tag in the lists and by comparing dates with the file's time; then 200, 206 or 416 by the Range header, if If-Range holds the strong tag or a date no older than the file |
| `ResponseFields.WholeSays` | crates/envoy-files-core/src/response_plan.rs:206-231 | A 200 has one Content-Type, the file's, no Content-Range, and each field of the file, coding and cache once when due |
| `ResponseFields.PartSays` | crates/envoy-files-core/src/response_plan.rs:151-174 | A single-range 206 has exactly one Content-Range; a client reads it as start, end and size with start <= end < size, the range asked for, and the body is that slice of the file |
| `ResponseFields.PartsSay` | crates/envoy-files-core/src/response_plan.rs:175-205 | The boundary named by the one Content-Type of a multipart 206 is that with which a reader gets from the body every range asked for, with its bytes |
| `ResponseFields.BodilessSay` | crates/envoy-files-core/src/response_plan.rs:112-150 | A 304 has the validators that are switched on and nothing else, a 416 one Content-Range that reads as the size, a 412 nothing; none has a body |
| `ResponsePlan.Respond` | crates/envoy-files-core/src/response_plan.rs:79-231 | The planner with its returns and growing header list computes the specified plan |
| `ResponsePlan.PushValidators` | crates/envoy-files-core/src/response_plan.rs:233-247 | The validator headers pushed |
| `ResponsePlan.PushEncodings` | crates/envoy-files-core/src/response_plan.rs:251-264 | The encoding and caching headers pushed |
| `ResponsePlan.PlannedBodyFits` | crates/envoy-files-core/src/response_plan.rs:132-231 | A planned body lies inside the file |
| `ResponsePlan.AdvertisedLength` | crates/envoy-files-core/src/response_plan.rs:132-231 | Exactly one Content-Length, and it is the number of the planned bytes if and only if that is below 2^64 |
| `ResponsePlan.LengthCanWrap` | crates/envoy-files-core/src/range.rs:219-229 | A file and a Range whose planned body is longer than its Content-Length says |
| `ResponsePlan.LengthIsExact` | crates/envoy-files-core/src/range.rs:219-229 | For a file of less than 2^63 bytes, at most 50 parts and framing text of at most 4 GiB, the one Content-Length is always the number of the planned bytes |
| `ResponsePlan.VaryFollows` | crates/envoy-files-core/src/response_plan.rs:251-264 | A 200 or 206 has Vary exactly when the content is encoded or other encodings were on offer, and Content-Encoding exactly when it is encoded |
| `ResponsePlan.NotModifiedRepeats` | crates/envoy-files-core/src/response_plan.rs:120-128 | A 304 repeats the ETag, Vary and Cache-Control of the 200 it stands for if and only if that has no Vary and no Cache-Control; the ETag always |
| `ResponsePlan.HeadMirrorsGet` | crates/envoy-files-core/src/response_plan.rs:160-231 | HEAD has the status and headers of the same GET, a Range included, and no body |
| `ResponsePlan.HeadIgnoresRange` | crates/envoy-files-core/src/response_plan.rs:132-231 | A HEAD is answered as if it had no Range if and only if a precondition decides it or the planned range is the whole file |
| `ResponsePlan.HeadGetsRange` | crates/envoy-files-core/src/response_plan.rs:160-231 | HEAD with `bytes=0-0` gets 206, without it 200 |
| `ResponsePlan.ReplayedEtag` | crates/envoy-files-core/src/response_plan.rs:79-130 | Replaying a served ETag gives 304 if and only if size and modification time are the same |
| `ResponsePlan.ReplayedIfRange` | crates/envoy-files-core/src/response_plan.rs:132-140 | Resuming with a served ETag gives the range if and only if the file is the same, else the whole file |
| `ResponsePlan.UnmodifiedYieldsToMatch` | crates/envoy-files-core/src/validators.rs:59-92 | Section 13.2.2 of RFC 9110: If-Unmodified-Since does not matter beside an If-Match, whatever else the request holds |
| `ResponsePlan.ModifiedYieldsToNoneMatch` | crates/envoy-files-core/src/validators.rs:59-92 | ... nor If-Modified-Since beside an If-None-Match |
| `Validators.EtagInjective` | crates/envoy-files-core/src/validators.rs:23-29 | Two files have the same ETag only if size, seconds and nanoseconds are the same |
| `ResponseFields.TagReads` | crates/envoy-files-core/src/validators.rs:23-29 | The ETag is a quoted text of three hexadecimal numbers: the size, the seconds as 64 bits, the nanoseconds |
| `Paths.ResolveRequestPath` | crates/envoy-files-core/src/path.rs:42-88 | The loop over the segments with its early returns computes the resolution that `PathRules` is about |
| `PathRules.AcceptedExactly` | crates/envoy-files-core/src/path.rs:105-168 | A decoded segment is accepted if and only if it is valid UTF-8, is not empty, `.` or `..`, holds no slash, backslash, colon or octet below 0x20, does not end in a dot or a space, starts with a dot only when dotfiles are served, and has no device name before its first dot in any case |
| `PathRules.ResolvesExactly` | crates/envoy-files-core/src/path.rs:42-88 | Exactly which paths resolve, and to what: those within the limit whose pieces are all fine, to their decoded names, empty pieces and dots left out |
| `PathRules.RefusedExactly` | crates/envoy-files-core/src/path.rs:42-88 | Why any other path is refused: its length, else its first piece that is not fine |
| `PathRules.ResolvedIsHarmless` | crates/envoy-files-core/src/path.rs:42-88 | Splitting a resolved path gives back the kept names, and each is valid UTF-8 and harmless |
| `PathRules.DecodeKeeps` | crates/envoy-files-core/src/path.rs:105-116 | Octets other than a percent sign stand for themselves |
| `PathRules.EscapeDecodes` | crates/envoy-files-core/src/path.rs:105-116 | An escape stands for the octet of its two digits, in either case |
| `PathRules.LonePercent` | crates/envoy-files-core/src/path.rs:105-116 | A percent sign without two digits stands for itself |
| `PathRules.EncodesExactly` | crates/envoy-files-core/src/listing.rs:8-15 | Letters, digits and `-._~` stand for themselves in a link, any other octet is escaped with capital digits |
| `Utf8.ValidExactly` | crates/envoy-files-core/src/path.rs:107-116 | The texts taken for UTF-8 are exactly the encodings of sequences of scalar values |
| `Paths.EncodeBack` | crates/envoy-files-core/src/listing.rs:84-86 | Percent-decoding undoes percent-encoding |
| `Paths.EncodedLinkResolves` | crates/envoy-files-core/src/listing.rs:84-86 | Resolving the encoded segments joined by slashes gives exactly those segments |
| `Mount.StripAtBoundary` | crates/envoy-files-filter/src/filter.rs:867-875 | The mount prefix is stripped exactly at a segment boundary, and what is left is the rest, with a slash in front unless it has one |
| `Mount.RedirectLandsBack` | crates/envoy-files-filter/src/filter.rs:475-480 | A client that resolves the Location against the server and asks again comes to the same directory, through the mount, with the slash now there, if and only if it is not the root of an unmounted tree, its path holds no `?`, `#` or escape and fits the length limit, and the mount neither begins with `//` nor holds `#` |
| `Mount.RedirectGoesAstray` | crates/envoy-files-filter/src/filter.rs:475-480 | A directory whose name holds a question mark is redirected elsewhere |
| `Mount.RootRedirectLeaves` | crates/envoy-files-filter/src/filter.rs:475-480 | GET /. of an unmounted tree is redirected to `//`, which does not lead back |
| `Listing.RenderListing` | crates/envoy-files-core/src/listing.rs:30-79 | The rows are rendered in the sorted order, after the parent link |
| `Listing.PageIsDeterministic` | crates/envoy-files-core/src/listing.rs:31-41 | The page does not depend on the order in which the directory was read |
| `Listing.PageIsComplete` | crates/envoy-files-core/src/listing.rs:30-79 | Every entry has its row, directories come first, the parent link is there unless at the root |
| `Listing.PageIsOrdered` | crates/envoy-files-core/src/listing.rs:30-79 | The rows are the entries, each with its name, link, size of a file only and time; directories first, and within directories and within files the names ascend in lower case, then as they are, by a lexicographic order defined apart from the sort's |
| `Links.LinkLeadsToEntry` | crates/envoy-files-core/src/listing.rs:60-68 | For every name the engine can list, the link leads to its entry if and only if the page's path ends in a slash or a dot, the policy accepts the name, and the link is within the length limit |
| `Links.MountedLinkLeadsToEntry` | crates/envoy-files-filter/src/filter.rs:867-875 | The same through a mount, where no link of the page at the mount's own address without a slash leads to its entry |
| `Links.DotfileIsListed` | crates/envoy-files-io/src/engine.rs:420-437 | `.git` is a name the engine lists, and its link from the root is refused |
| `Encodings.ParseAcceptEncoding` | crates/envoy-files-core/src/encoding.rs:67-95 | The parsing loops with their early returns compute the specified entries |
| `Encodings.AcceptRoundTrip` | crates/envoy-files-core/src/encoding.rs:67-95 | A header written from codings and qualities is read back as exactly those, or ignored as a whole when a quality is no number |
| `Encodings.ParamsMean` | crates/envoy-files-core/src/encoding.rs:67-95 | A `q` that is no number spoils the header, else the last `q` of an item counts, and with none the quality is 1 |
| `Encodings.AcceptanceIsGiven` | crates/envoy-files-core/src/encoding.rs:99-105 | A coding has the quality of the first entry that names it in any case, or, when none does, of the first `*`; otherwise none |
| `Encodings.ZeroRefuses` | crates/envoy-files-core/src/encoding.rs:99-105 | A coding first named with quality zero is not offered, whatever `*` says |
| `Encodings.NegotiatePrecompressed` | crates/envoy-files-core/src/encoding.rs:32-60 | The scoring loop and the sort compute the specified choice |
| `Encodings.NegotiationIsExact` | crates/envoy-files-core/src/encoding.rs:26-60 | Exactly the server's encodings to which the header, by the positions of its entries, gives a quality above zero, each once, best quality first, the server's order among equals |

## Left out

- FilterOnEngine.EngineRefinesRuns: safety only; that the reactor's thread goes on
  taking commands and finishing tasks is assumed by the liveness results.
- Envoy's SDK: a call into Envoy is an entry in a list, a commit a number of
  pending wake-ups; whether Envoy still runs callbacks after it has completed a
  stream is left open, so runs go on after `on_stream_complete`.
- The compio runtime, its drivers, thread start-up, `Shutdown` and join: the
  reactor is its command channel, its spawned work and its table.
- Changing files, and races between the check and the open: the file system is
  fixed for a run; opens come with symlink policy and containment decided
  (`CanonCache` shows the decision; the O_NOFOLLOW and Windows branches are not
  part of this model).
- config.rs: its guarantees are the types of `Config` (a chunk size and a window
  of at least one; the smaller range it allows is not needed).
- mime.rs and `f32::from_str`: functions that are parameters of the configuration.
- The `headers` crate: conditional headers arrive decoded (absent, undecodable or
  a value), dates as whole seconds; the text of dates is not modelled.
- Listing pages are rows: HTML text, escaping and the rendering of sizes are not
  modelled; `to_lowercase` is a parameter.
- RawRequestHeaders::collect: the request's headers arrive collected.
- Lossy decoding of header bytes and Unicode beyond UTF-8 validity.
- Removal of dot segments, and re-encoding of characters, by a client that follows
  a link or a redirect.
- The sort of the standard library is a stable insertion sort here.
- The debug assertions on a second request callback: it is modelled as a release
  build runs it.
- Windows paths: joins are those of Unix.
- The itest crate, bench, build script and deployment files.

/** What the resolver decides, said without following its steps: the first
    candidate that is a file, else the directory's rules, else the error of the
    plain path.  Runs carry out the verdict (`Delivery.EveryRunDelivers`). */
module ResolverSpec {
  import opened Text
  import opened Validators
  import opened FilterModel
  import opened FilterRuns
  import opened FilterInvariant
  import opened FilterResolve
  import opened FilterStream
  import Encodings
  import RP = ResponsePlan

  predicate Opens(disk: Disk, c: Candidate) {
    disk.open(c.fsPath).Regular?
  }

  /** Every candidate but the last is a precompressed variant. */
  lemma VariantsFirst(s: Session)
    ensures var cs := BuildFileCandidates(s);
            && cs != [] && cs[|cs| - 1].encoding.None?
              && cs[|cs| - 1].fsPath == PathJoin(s.config.root, s.request.relative)
            && forall i :: 0 <= i < |cs| - 1 ==> cs[i].encoding.Some? && cs[i].addVary
  {
    hide Encodings.Negotiate;
  }

  /** The variants tried before the plain path are exactly the configured ones
      the client wants, most preferred first; all are of the type of the path that
      was asked for, without their suffix. */
  lemma CandidatesAreNegotiated(s: Session, entries: seq<Encodings.Entry>) returns (ranks: seq<nat>)
    requires !s.request.trailingSlash
             && Encodings.HeaderEntries(s.request.acceptEncoding, s.config.parseQ) == Some(entries)
    ensures var cs, offered, r := BuildFileCandidates(s), s.config.precompressed, s.request;
            && |cs| == |ranks| + 1
            && (forall i :: 0 <= i < |ranks| ==>
                  && ranks[i] < |offered| && Encodings.Wanted(entries, offered[ranks[i]].contentEncoding)
                  && cs[i] == Candidate(PathJoin(s.config.root, r.relative + offered[ranks[i]].fileSuffix),
                                        Some(offered[ranks[i]].contentEncoding), s.config.contentTypeFor(r.relative),
                                          true))
            && cs[|ranks|] == Candidate(PathJoin(s.config.root, r.relative), None, s.config.contentTypeFor(r.relative),
                                        |ranks| > 0)
            && (forall k :: 0 <= k < |offered| && Encodings.Wanted(entries, offered[k].contentEncoding) ==> k in ranks)
            && (forall i, j :: 0 <= i < j < |ranks| ==>
                  ranks[i] != ranks[j] && Encodings.Better(entries, offered, ranks[i], ranks[j]))
  {
    assert s.request.acceptEncoding.Some?;
    ranks := Encodings.NegotiationIsExact(entries, s.config.precompressed);
    hide Encodings.Negotiate, Encodings.HeaderEntries, Encodings.Wanted, Encodings.Better, PathJoin;
  }

  /** With a trailing slash, or no Accept-Encoding that can be read, only the
      plain path is tried. */
  lemma OnlyPlain(s: Session)
    requires s.request.trailingSlash || Encodings.HeaderEntries(s.request.acceptEncoding, s.config.parseQ).None?
    ensures BuildFileCandidates(s) == [Candidate(PathJoin(s.config.root, s.request.relative), None,
                                                 s.config.contentTypeFor(s.request.relative), false)]
  {
    hide Encodings.HeaderEntries, PathJoin;
  }

  /** Whichever candidate is served, its 200 or 206 says Vary exactly when the
      client's Accept-Encoding allowed some variant, and Content-Encoding exactly
      when it is one. */
  lemma VaryWhenNegotiated(s: Session, i: nat, stat: FileStat)
    requires i < |BuildFileCandidates(s)|
    requires PlanFor(s, CtxOf(BuildFileCandidates(s)[i]), stat).status in {200, 206}
    ensures var headers := PlanFor(s, CtxOf(BuildFileCandidates(s)[i]), stat).headers;
            && (RP.Has(headers, RP.Vary) <==> |BuildFileCandidates(s)| > 1)
            && (RP.Has(headers, RP.ContentEncoding) <==> i < |BuildFileCandidates(s)| - 1)
  {
    VariantsFirst(s);
    LastVaries(s);
    RP.VaryFollows(Facts(s, CtxOf(BuildFileCandidates(s)[i]), stat),
        RP.FileMeta(stat.size, stat.mtimeUnix, stat.mtimeNanos));
    hide BuildFileCandidates, RP.Has, RP.PlanResponse, Boundary;
  }

  lemma LastVaries(s: Session)
    ensures var cs := BuildFileCandidates(s); cs != [] && (cs[|cs| - 1].addVary <==> |cs| > 1)
  {
    hide Encodings.Negotiate, Encodings.HeaderEntries;
  }

  lemma {:induction false} FirstOfFiles(s: Session, disk: Disk, cs: seq<Candidate>, k: nat)
    requires k < |cs| && Opens(disk, cs[k])
    requires forall i :: 0 <= i < k ==> !Opens(disk, cs[i]) && cs[i].encoding.Some?
    ensures FileVerdict(s, disk, cs) == Serve(cs[k].fsPath, CtxOf(cs[k]))
  {
    hide DirectoryVerdict;
    if k > 0 {
      assert !Opens(disk, cs[0]);
      FirstOfFiles(s, disk, cs[1..], k - 1);
    }
  }

  /** The verdict of the plain path, when no variant is a file. */
  function PlainVerdict(s: Session, disk: Disk, c: Candidate): Verdict {
    match disk.open(c.fsPath)
    case Regular(_, _, _) => Serve(c.fsPath, CtxOf(c))
    case Directory(_) => DirectoryVerdict(s, disk)
    case Fails(error) => Failed(error)
  }

  lemma {:induction false} LastOfFiles(s: Session, disk: Disk, cs: seq<Candidate>)
    requires cs != [] && cs[|cs| - 1].encoding.None?
    requires forall i :: 0 <= i < |cs| - 1 ==> !Opens(disk, cs[i]) && cs[i].encoding.Some?
    ensures FileVerdict(s, disk, cs) == PlainVerdict(s, disk, cs[|cs| - 1])
  {
    hide DirectoryVerdict;
    if |cs| > 1 {
      assert !Opens(disk, cs[0]);
      LastOfFiles(s, disk, cs[1..]);
    }
  }

  /** The first candidate that opens as a file is the one served, in negotiated
      order, the plain path last; with none, the plain path decides. */
  lemma FirstFileWins(s: Session, disk: Disk)
    ensures var cs := BuildFileCandidates(s);
            && (forall k :: 0 <= k < |cs| && Opens(disk, cs[k]) && (forall i :: 0 <= i < k ==> !Opens(disk, cs[i])) ==>
                  VerdictOf(s, disk) == Serve(cs[k].fsPath, CtxOf(cs[k])))
            && ((forall i :: 0 <= i < |cs| ==> !Opens(disk, cs[i])) ==>
                VerdictOf(s, disk) == PlainVerdict(s, disk, cs[|cs| - 1]))
  {
    var cs := BuildFileCandidates(s);
    VariantsFirst(s);
    hide BuildFileCandidates, FileVerdict, DirectoryVerdict, PlainVerdict, Opens;
    forall k | 0 <= k < |cs| && Opens(disk, cs[k]) && (forall i :: 0 <= i < k ==> !Opens(disk, cs[i]))
      ensures VerdictOf(s, disk) == Serve(cs[k].fsPath, CtxOf(cs[k])) {
      FirstOfFiles(s, disk, cs, k);
    }
    if forall i :: 0 <= i < |cs| ==> !Opens(disk, cs[i]) {
      LastOfFiles(s, disk, cs);
    }
  }

  // ------------------------------------------------------------------- indexes

  predicate Misses(disk: Disk, e: (Bytes, Bytes)) {
    disk.open(e.0).Fails?
  }

  /** What the first index entry that exists leads to. */
  function EntryVerdict(disk: Disk, e: (Bytes, Bytes)): Verdict {
    if disk.open(e.0).Regular? then Serve(e.0, IndexCtx(e.1)) else Loops
  }

  lemma {:induction false} FirstOfIndexes(s: Session, disk: Disk, es: seq<(Bytes, Bytes)>, k: nat)
    requires k < |es| && !Misses(disk, es[k])
    requires forall i :: 0 <= i < k ==> Misses(disk, es[i])
    ensures IndexVerdict(s, disk, es) == EntryVerdict(disk, es[k])
  {
    if k > 0 {
      assert Misses(disk, es[0]);
      FirstOfIndexes(s, disk, es[1..], k - 1);
    }
  }

  lemma {:induction false} NoIndexes(s: Session, disk: Disk, es: seq<(Bytes, Bytes)>)
    requires forall i :: 0 <= i < |es| ==> Misses(disk, es[i])
    ensures IndexVerdict(s, disk, es) == FallbackVerdict(s)
  {
    if es != [] {
      assert Misses(disk, es[0]);
      NoIndexes(s, disk, es[1..]);
    }
  }

  /** Entry `k` exists and none before it does. */
  predicate FirstOf(disk: Disk, es: seq<(Bytes, Bytes)>, k: nat) {
    k < |es| && !Misses(disk, es[k]) && forall i :: 0 <= i < k ==> Misses(disk, es[i])
  }

  /** The rules of a directory: redirect, then deny, then the first index entry
      that exists, then the listing or 404. */
  lemma DirectoryRules(s: Session, disk: Disk)
    ensures var es := IndexEntries(s);
            var v := DirectoryVerdict(s, disk);
            && (Redirects(s) ==> v == Redirected)
            && (!Redirects(s) && s.config.directory == DenyMode ==> v == Forbidden)
            && (!Redirects(s) && s.config.directory != DenyMode ==>
                  && (forall k :: 0 <= k < |es| && FirstOf(disk, es, k) ==> v == EntryVerdict(disk, es[k]))
                  && ((forall i :: 0 <= i < |es| ==> Misses(disk, es[i])) ==>
                        v == if s.config.directory == ListingMode then ListDir else Missing))
  {
    var es := IndexEntries(s);
    hide IndexEntries, Misses, EntryVerdict, IndexVerdict;
    if !Redirects(s) && s.config.directory != DenyMode {
      forall k | 0 <= k < |es| && FirstOf(disk, es, k)
        ensures DirectoryVerdict(s, disk) == EntryVerdict(disk, es[k]) {
        FirstOfIndexes(s, disk, es, k);
      }
      if forall i :: 0 <= i < |es| ==> Misses(disk, es[i]) {
        NoIndexes(s, disk, es);
      }
    }
  }

  // ------------------------------------------------ what the settings are said to do

  /** What the table of settings (README.md:42) has a directory with no matching
      index lead to. */
  function DocFallback(s: Session): Verdict {
    match s.config.directory
    case IndexMode => Missing
    case ListingMode => ListDir
    case DenyMode => Forbidden
  }

  /** The first index entry that exists, in every mode. */
  function DocIndexVerdict(s: Session, disk: Disk, es: seq<(Bytes, Bytes)>): Verdict {
    if es == [] then DocFallback(s)
    else if Misses(disk, es[0]) then DocIndexVerdict(s, disk, es[1..])
    else EntryVerdict(disk, es[0])
  }

  function DocVerdict(s: Session, disk: Disk): Verdict {
    if Redirects(s) then Redirected else DocIndexVerdict(s, disk, IndexEntries(s))
  }

  lemma {:induction false} DocMisses(s: Session, disk: Disk, es: seq<(Bytes, Bytes)>)
    ensures (forall e :: e in es ==> Misses(disk, e)) ==> DocIndexVerdict(s, disk, es) == DocFallback(s)
    ensures (exists e :: e in es && !Misses(disk, e)) ==> !DocIndexVerdict(s, disk, es).Forbidden?
    ensures s.config.directory != DenyMode ==> DocIndexVerdict(s, disk, es) == IndexVerdict(s, disk, es)
  {
    if es != [] {
      DocMisses(s, disk, es[1..]);
      assert es == [es[0]] + es[1..];
    }
  }

  /** A directory is answered as the table says if and only if it is redirected,
      or the mode is not `deny`, or none of its index entries exists: `deny`
      does not look for one. */
  lemma DocumentedExactly(s: Session, disk: Disk)
    ensures DirectoryVerdict(s, disk) == DocVerdict(s, disk) <==>
              Redirects(s) || s.config.directory != DenyMode || forall e :: e in IndexEntries(s) ==> Misses(disk, e)
  {
    DocMisses(s, disk, IndexEntries(s));
    hide IndexEntries, Misses, DocIndexVerdict, IndexVerdict;
  }

  /** When a directory is answered 404: in `index` mode only.  In `deny` mode,
      said to answer 404 always (crates/envoy-files-filter/src/config.rs:15), it
      never is. */
  lemma MissingExactly(s: Session, disk: Disk)
    ensures DirectoryVerdict(s, disk).Missing? <==>
              !Redirects(s) && s.config.directory == IndexMode && forall e :: e in IndexEntries(s) ==> Misses(disk, e)
  {
    MissesAll(s, disk, IndexEntries(s));
    hide IndexEntries, Misses, IndexVerdict;
  }

  lemma {:induction false} MissesAll(s: Session, disk: Disk, es: seq<(Bytes, Bytes)>)
    ensures IndexVerdict(s, disk, es).Missing? <==>
              s.config.directory != ListingMode && forall e :: e in es ==> Misses(disk, e)
  {
    if es != [] {
      MissesAll(s, disk, es[1..]);
      assert es == [es[0]] + es[1..] && es[0] in es;
      assert forall e :: e in es ==> e == es[0] || e in es[1..];
      assert Misses(disk, es[0]) ==> IndexVerdict(s, disk, es) == IndexVerdict(s, disk, es[1..]);
    }
  }

  /** GET /docs/ in `deny` mode, where /srv/docs/index.html is a file: the table
      has it served, the code answers 403. */
  lemma DenyHidesIndex() returns (s: Session, disk: Disk)
    ensures s.config.directory == DenyMode && s.request.relative == "docs" && s.request.trailingSlash
    ensures disk.open("/srv/docs/index.html").Regular?
    ensures DocVerdict(s, disk) == Serve("/srv/docs/index.html", IndexCtx("text/html"))
    ensures VerdictOf(s, disk) == Forbidden && Expected(s, disk) == [Response(403, [], NoBody)]
  {
    s := DocsRequest(DenyMode);
    var dir, file := Directory(FileStat(0, 0, 0, true)), Regular("<p>", 0, 0);
    var missing := IoError(NotFound, None);
    disk := Disk(
      path => if path == "/srv/docs" then dir else if path == "/srv/docs/index.html" then file else Fails(missing),
      _ => ListFails(missing));
    var es := IndexEntries(s);
    assert es == [("/srv/docs/index.html", "text/html")] && !Misses(disk, es[0]);
    FirstFileWins(s, disk);
    assert BuildFileCandidates(s) == [] + [Candidate("/srv/docs", None, "text/html", false)];
  }

  /** GET /docs/ below /srv, with the settings the parser starts from but for the
      mode. */
  function DocsRequest(mode: DirectoryMode): (s: Session)
    ensures DirPath(s) == "/srv/docs" && s.request.acceptEncoding.None? && !Redirects(s)
    ensures s.config.indexFiles == ["index.html"] && PathJoin("/srv/docs", "index.html") == "/srv/docs/index.html"
  {
    var config := Config("/srv", None, ["index.html"], mode, true, false, 65536, 2, true, true, MultiRange, [],
                         _ => "text/html", _ => None, None);
    var absent := ConditionalHeaders(Absent, Absent, Absent, Absent, Absent);
    assert "/srv" + "/" + "docs" == "/srv/docs" && "/srv/docs" + "/" + "index.html" == "/srv/docs/index.html";
    Session(config, Request(false, absent, None, None, "docs", true))
  }

  // ---------------------------------------------------------------- the lasso

  predicate IsDirectory(disk: Disk, path: Bytes) {
    disk.open(path).Directory?
  }

  /** The first index entry that exists is itself a directory. */
  predicate DirectoryIndex(s: Session, disk: Disk) {
    exists k :: 0 <= k < |IndexEntries(s)| && IsDirectory(disk, IndexEntries(s)[k].0)
                && forall i :: 0 <= i < k ==> Misses(disk, IndexEntries(s)[i])
  }

  lemma {:induction false} IndexLoops(s: Session, disk: Disk, es: seq<(Bytes, Bytes)>)
    ensures IndexVerdict(s, disk, es) == Loops <==>
              exists k :: 0 <= k < |es| && IsDirectory(disk, es[k].0) && forall i :: 0 <= i < k ==> Misses(disk, es[i])
  {
    if exists k :: 0 <= k < |es| && !Misses(disk, es[k]) {
      var k := FirstPresent(disk, es);
      FirstOfIndexes(s, disk, es, k);
      hide IndexVerdict;
      forall j | 0 <= j < |es| && IsDirectory(disk, es[j].0) && (forall i :: 0 <= i < j ==> Misses(disk, es[i]))
        ensures j == k {
      }
    } else {
      NoIndexes(s, disk, es);
      hide IndexVerdict;
      forall j | 0 <= j < |es| ensures !IsDirectory(disk, es[j].0) {
        assert Misses(disk, es[j]);
      }
    }
  }

  lemma {:induction false} FirstPresent(disk: Disk, es: seq<(Bytes, Bytes)>) returns (k: nat)
    requires exists k :: 0 <= k < |es| && !Misses(disk, es[k])
    ensures k < |es| && !Misses(disk, es[k]) && forall i :: 0 <= i < k ==> Misses(disk, es[i])
  {
    k := 0;
    while Misses(disk, es[k])
      invariant k < |es|
      invariant forall i :: 0 <= i < k ==> Misses(disk, es[i])
      decreases |es| - k
    {
      k := k + 1;
    }
  }

  /** Exactly which requests loop: no candidate is a file, the plain path is a
      directory that is neither redirected nor denied, and its first existing
      index entry is a directory too. */
  lemma LoopsExactly(s: Session, disk: Disk)
    ensures VerdictOf(s, disk) == Loops <==>
              && (forall i :: 0 <= i < |BuildFileCandidates(s)| ==> !Opens(disk, BuildFileCandidates(s)[i]))
              && IsDirectory(disk, DirPath(s))
              && !Redirects(s) && s.config.directory != DenyMode && DirectoryIndex(s, disk)
  {
    var cs := BuildFileCandidates(s);
    FirstFileWins(s, disk);
    VariantsFirst(s);
    IndexLoops(s, disk, IndexEntries(s));
    hide BuildFileCandidates, IndexEntries, VerdictOf, IndexVerdict;
    if exists k :: 0 <= k < |cs| && Opens(disk, cs[k]) {
      var k := FirstOpen(disk, cs);
      assert VerdictOf(s, disk) == Serve(cs[k].fsPath, CtxOf(cs[k]));
    }
  }

  /** The common case: the directory holds a directory by the name of the first
      index file. */
  lemma DirectoryNamedIndex(s: Session, disk: Disk)
    requires s.request.acceptEncoding.None? && IsDirectory(disk, DirPath(s))
    requires !Redirects(s) && s.config.directory != DenyMode
    requires s.config.indexFiles != [] && IsDirectory(disk, PathJoin(DirPath(s), s.config.indexFiles[0]))
    ensures VerdictOf(s, disk) == Loops
  {
    LoopsExactly(s, disk);
    hide PathJoin;
    assert IndexEntries(s)[0].0 == PathJoin(DirPath(s), s.config.indexFiles[0]);
  }

  /** One such request, with the settings the parser starts from: GET /docs/
      where /srv/docs/index.html is a directory. */
  lemma LoopExists() returns (s: Session, disk: Disk)
    ensures s.request.relative == "docs" && s.request.trailingSlash && s.config.indexFiles == ["index.html"]
    ensures forall path :: disk.open(path).Directory? <==> path in {"/srv/docs", "/srv/docs/index.html"}
    ensures VerdictOf(s, disk) == Loops
  {
    s := DocsRequest(IndexMode);
    var dir := Directory(FileStat(0, 0, 0, true));
    var missing := IoError(NotFound, None);
    disk := Disk(
      path => if path in {"/srv/docs", "/srv/docs/index.html"} then dir else Fails(missing),
      _ => ListFails(missing));
    DirectoryNamedIndex(s, disk);
  }

  lemma {:induction false} FirstOpen(disk: Disk, cs: seq<Candidate>) returns (k: nat)
    requires exists k :: 0 <= k < |cs| && Opens(disk, cs[k])
    ensures k < |cs| && Opens(disk, cs[k]) && forall i :: 0 <= i < k ==> !Opens(disk, cs[i])
  {
    k := 0;
    while !Opens(disk, cs[k])
      invariant k < |cs|
      invariant forall i :: 0 <= i < k ==> !Opens(disk, cs[i])
      decreases |cs| - k
    {
      k := k + 1;
    }
  }

  /** The turn of the lasso: an index entry that is a directory puts the stream
      back where it began the index list, about to open its first entry, whatever
      was left of the list. */
  lemma BackToTheFirstEntry(s: Session, f: FState, ev: IoEvent)
    requires f.phase.ResolvingIndex? && ev.Opened? && ev.stat.isDir && ev.ctx.encoding.None?
    requires !Redirects(s) && s.config.directory != DenyMode && IndexEntries(s) != []
    ensures var o, first := HandleEvent(s, f, ev), IndexEntries(s)[0];
            && !o.ended && o.state.sent == f.sent
            && o.state.phase == ResolvingIndex(DirPath(s), IndexEntries(s)[1..])
            && o.state.ops == f.ops + [OpenOp(first.0, IndexCtx(first.1), PrefetchLen(s))]
  {
    hide IndexEntries, DirPath;
  }
}

/** From the request headers to the file system: what a request is allowed to
    touch, and when it is refused outright. */
module RequestRuns {
  import opened Text
  import opened EventBridge
  import opened FilterModel
  import opened FilterRuns
  import opened FilterProgress
  import opened FilterInvariant
  import FilterLiveness
  import ResolverSpec
  import Itinerary
  import Paths
  import PathRules
  import Mount
  import Encodings

  /** The request as the resolver sees it, unless it is refused at once. */
  function Admitted(c: Config, raw: RawRequest): Option<Request> {
    if raw.verb.OtherMethod? || Mount.UnderMount(c.stripPrefix, raw.path).None? then None
    else
      match Paths.Resolve(Mount.UnderMount(c.stripPrefix, raw.path).value, Policy(c))
      case Reject(_) => None
      case Ok(relative, slash) => Some(RequestOf(raw, relative, slash))
  }

  /** A request that is refused gets one complete error response and costs no
      I/O; any other starts a run of the resolver. */
  lemma RefusedOrStarted(c: Config, raw: RawRequest)
    ensures var f := OnRequestHeaders(c, None, Fresh, raw);
            match Admitted(c, raw)
            case Some(request) => f == Start(Session(c, request))
            case None =>
              && f.phase.Done? && f.past.submitted == [] && f.ops == []
              && |f.sent| == 1 && f.sent[0].Response? && f.sent[0].status in {400, 404, 405, 414}
  {
    hide Mount.UnderMount, Paths.Resolve, BuildFileCandidates, OpenNextCandidate;
  }

  // ------------------------------------------------------------ staying below root

  /** What goes between a directory and a name below it. */
  function Separator(dir: Bytes): Bytes {
    if dir == "" || dir[|dir| - 1] == '/' then "" else "/"
  }

  /** A path below the root, by its text: the resolved path, or it with the
      suffix of a precompressed variant or the name of an index file. */
  ghost predicate BelowRoot(s: Session, path: Bytes) {
    exists tail :: path == s.config.root + Separator(s.config.root) + tail && !IsAbsolute(tail) && TailOf(s, tail)
  }

  predicate TailOf(s: Session, tail: Bytes) {
    var relative := s.request.relative;
    || tail == relative
    || (exists e :: e in s.config.precompressed && tail == relative + e.fileSuffix)
    || (exists n :: n in s.config.indexFiles && tail == relative + Separator(relative) + n)
  }

  /** What the parser of the configuration sees to: the suffixes are `.br`,
      `.gz` and `.zst`. */
  predicate SuffixesAreRelative(c: Config) {
    forall e :: e in c.precompressed ==> !IsAbsolute(e.fileSuffix)
  }

  predicate StaysRelative(s: Session) {
    SuffixesAreRelative(s.config) && !IsAbsolute(s.request.relative)
  }

  /** Index files may be any strings; one that is an absolute path is asked of
      the engine as it is (`AbsoluteIndexIsAsked`). */
  predicate IsAbsoluteIndex(s: Session, path: Bytes) {
    IsAbsolute(path) && path in s.config.indexFiles
  }

  ghost predicate PathOk(s: Session, op: Op) {
    match op
    case OpenOp(path, _, _) => BelowRoot(s, path) || IsAbsoluteIndex(s, path)
    case ReadDirOp(path) => BelowRoot(s, path)
    case _ => true
  }

  lemma CandidateBelow(s: Session, i: nat)
    requires StaysRelative(s) && i < |BuildFileCandidates(s)|
    ensures BelowRoot(s, BuildFileCandidates(s)[i].fsPath)
  {
    var c, r := s.config, s.request;
    hide Encodings.Negotiate, Encodings.HeaderEntries, BelowRoot, PathJoin;
    if i == |BuildFileCandidates(s)| - 1 {
      JoinedBelow(s, r.relative);
    } else {
      var entries := Encodings.HeaderEntries(r.acceptEncoding, c.parseQ);
      var chosen := Encodings.Negotiate(entries, c.precompressed);
      ChosenIsOffered(entries, c.precompressed, i);
      assert !IsAbsolute(chosen[i].fileSuffix);
      JoinedBelow(s, r.relative + chosen[i].fileSuffix);
    }
  }

  lemma JoinedBelow(s: Session, tail: Bytes)
    requires TailOf(s, tail) && !IsAbsolute(tail)
    ensures BelowRoot(s, PathJoin(s.config.root, tail))
  {
    JoinIs(s.config.root, tail);
    hide TailOf, PathJoin;
  }

  lemma ChosenIsOffered(entries: Option<seq<Encodings.Entry>>, order: seq<Encodings.Encoding>, i: nat)
    requires i < |Encodings.Negotiate(entries, order)|
    ensures Encodings.Negotiate(entries, order)[i] in order
  {
    var ranks := Encodings.NegotiationIsExact(entries.value, order);
    hide Encodings.Negotiate, Encodings.Better, Encodings.Wanted;
    assert ranks[i] in ranks;
  }

  lemma JoinIs(dir: Bytes, name: Bytes)
    requires !IsAbsolute(name)
    ensures PathJoin(dir, name) == dir + Separator(dir) + name
    ensures !IsAbsolute(dir) ==> !IsAbsolute(PathJoin(dir, name))
  {
    assert dir + "" == dir;
  }

  lemma JoinTwice(root: Bytes, relative: Bytes, name: Bytes)
    requires !IsAbsolute(relative) && !IsAbsolute(name)
    ensures !IsAbsolute(PathJoin(relative, name))
    ensures PathJoin(PathJoin(root, relative), name) == PathJoin(root, PathJoin(relative, name))
  {
    var before, after := root + Separator(root), Separator(relative) + name;
    JoinIs(relative, name);
    JoinIs(root, relative);
    JoinIs(root, PathJoin(relative, name));
    JoinIs(PathJoin(root, relative), name);
    SeparatorOnce(root, relative);
    hide PathJoin, Separator, IsAbsolute;
    assert PathJoin(relative, name) == relative + after;
    assert before + relative + after == before + (relative + after);
  }

  /** Joining a path in two steps puts a separator where joining it at once does. */
  lemma SeparatorOnce(root: Bytes, relative: Bytes)
    ensures root + Separator(root) + relative + Separator(root + Separator(root) + relative)
            == root + Separator(root) + relative + Separator(relative)
  {
    var before := root + Separator(root);
    assert before == "" || before[|before| - 1] == '/';
    if relative == "" {
      assert before + relative == before;
    } else {
      assert (before + relative)[|before + relative| - 1] == relative[|relative| - 1];
    }
  }

  lemma EntryBelow(s: Session, i: nat)
    requires StaysRelative(s) && i < |IndexEntries(s)|
    ensures |IndexEntries(s)| == |s.config.indexFiles|
    ensures if IsAbsolute(s.config.indexFiles[i]) then IndexEntries(s)[i].0 == s.config.indexFiles[i]
            else BelowRoot(s, IndexEntries(s)[i].0)
  {
    var n := s.config.indexFiles[i];
    if IsAbsolute(n) {
      return;
    }
    JoinTwice(s.config.root, s.request.relative, n);
    JoinIs(s.request.relative, n);
    hide BelowRoot, PathJoin, IsAbsolute;
    JoinedBelow(s, PathJoin(s.request.relative, n));
  }

  lemma KnownIsBelow(s: Session, op: Op)
    requires KnownOp(s, op) && StaysRelative(s)
    ensures PathOk(s, op)
  {
    hide BuildFileCandidates, IndexEntries, BelowRoot;
    match op {
      case ReadDirOp(path) => JoinedBelow(s, s.request.relative);
      case OpenOp(path, ctx, prefetchLen) =>
        if i :| 0 <= i < |BuildFileCandidates(s)| && BuildFileCandidates(s)[i].fsPath == path {
          CandidateBelow(s, i);
        } else {
          var i :| 0 <= i < |IndexEntries(s)| && IndexEntries(s)[i].0 == path;
          EntryBelow(s, i);
        }
      case ReadOp(_, _, _, _) =>
    }
  }

  lemma ResolvedIsRelative(s: Session)
    requires Mount.IsResolved(s.request.relative, Policy(s.config))
    ensures !IsAbsolute(s.request.relative)
  {
    if s.request.relative != "" {
      Mount.FirstNotSlash(s.request.relative, Policy(s.config));
    }
  }

  /** The names of a path between its slashes are harmless. */
  predicate NamesAreHarmless(relative: Bytes, serveDotfiles: bool) {
    relative != "" ==>
      forall i :: 0 <= i < |Split(relative, '/')| ==> PathRules.Harmless(Split(relative, '/')[i], serveDotfiles)
  }

  /** Whatever path a client sends, and however the run goes: every path opened
      or listed is the root, a separator, and harmless names (no `..` or `.`, no
      separator, control character or device among them) with at most a suffix or
      a name from the configuration; the one exception is an index file that the
      configuration names by an absolute path. */
  lemma EveryPathIsContained(c: Config, raw: RawRequest, disk: Disk, labels: seq<Label>)
    requires Admitted(c, raw).Some? && SuffixesAreRelative(c)
    requires Run(Session(c, Admitted(c, raw).value), disk, OnRequestHeaders(c, None, Fresh, raw), labels).Some?
    ensures var s := Session(c, Admitted(c, raw).value);
            var f := Run(s, disk, OnRequestHeaders(c, None, Fresh, raw), labels).value;
            && NamesAreHarmless(s.request.relative, c.serveDotfiles)
            && forall i :: 0 <= i < |f.past.submitted| ==> PathOk(s, f.past.submitted[i])
  {
    var s := Session(c, Admitted(c, raw).value);
    RefusedOrStarted(c, raw);
    var path := Mount.UnderMount(c.stripPrefix, raw.path).value;
    Paths.ResolvedIsSafe(path, Policy(c));
    if s.request.relative != "" {
      PathRules.ResolvedIsHarmless(path, Policy(c));
    }
    ResolvedIsRelative(s);
    FilterLiveness.OnlyKnownPaths(s, disk, labels);
    hide Run, OnRequestHeaders, Start, Paths.Resolve, Mount.UnderMount, KnownOp, PathOk, SuffixesAreRelative,
      PathRules.Harmless,
      Split;
    var f := Run(s, disk, Start(s), labels).value;
    forall i | 0 <= i < |f.past.submitted| ensures PathOk(s, f.past.submitted[i]) {
      KnownIsBelow(s, f.past.submitted[i]);
    }
  }

  // ------------------------------------------------------------ leaving the root

  /** Some run, on some disk, asks for a path that is not below the root. */
  ghost predicate MayLeave(s: Session) {
    exists disk, path :: Itinerary.SomeRunOpens(s, disk, path) && !BelowRoot(s, path)
  }

  /** The configuration names an absolute path, elsewhere, and no entry before it
      is the directory itself (one that is would be opened for ever). */
  ghost predicate NamesElsewhere(s: Session, k: nat) {
    && k < |s.config.indexFiles|
    && IsAbsolute(s.config.indexFiles[k]) && !BelowRoot(s, s.config.indexFiles[k])
    && forall i :: 0 <= i < k ==> IndexEntries(s)[i].0 != DirPath(s)
  }

  /** Exactly which requests may ask for a path that is not below the root: those
      for a directory that is neither redirected nor denied, when an index file
      is configured by an absolute path elsewhere and its turn can come. */
  lemma LeavesExactly(s: Session)
    requires StaysRelative(s)
    ensures MayLeave(s) <==> !Redirects(s) && s.config.directory != DenyMode && exists k: nat :: NamesElsewhere(s, k)
  {
    hide BelowRoot, Itinerary.SomeRunOpens;
    if MayLeave(s) {
      var disk, path :| Itinerary.SomeRunOpens(s, disk, path) && !BelowRoot(s, path);
      Itinerary.OpensExactly(s, disk, path);
      AskedElsewhere(s, disk, path);
    }
    if k: nat :| !Redirects(s) && s.config.directory != DenyMode && NamesElsewhere(s, k) {
      var disk := OnlyDirectory(DirPath(s));
      ReachesElsewhere(s, k);
      Itinerary.OpensExactly(s, disk, s.config.indexFiles[k]);
    }
  }

  lemma AskedElsewhere(s: Session, disk: Disk, path: Bytes)
    requires StaysRelative(s) && Itinerary.Asked(s, disk, path) && !BelowRoot(s, path)
    ensures !Redirects(s) && s.config.directory != DenyMode && exists k: nat :: NamesElsewhere(s, k)
  {
    hide BelowRoot, BuildFileCandidates, DirPath, PathJoin;
    if i: nat :| Itinerary.ComesTo(s, disk, i) && BuildFileCandidates(s)[i].fsPath == path {
      CandidateBelow(s, i);
    } else {
      var k: nat :| Itinerary.Reaches(s, disk, k) && IndexEntries(s)[k].0 == path;
      EntryBelow(s, k);
      assert forall i :: 0 <= i < k ==> ResolverSpec.Misses(disk, IndexEntries(s)[i]);
      assert NamesElsewhere(s, k);
    }
  }

  /** A disk on which one path is a directory and nothing else exists. */
  function OnlyDirectory(dir: Bytes): Disk {
    Disk(path => if path == dir then Directory(FileStat(0, 0, 0, true)) else Fails(IoError(NotFound, None)),
         _ => ListFails(IoError(NotFound, None)))
  }

  lemma ReachesElsewhere(s: Session, k: nat)
    requires !Redirects(s) && s.config.directory != DenyMode && NamesElsewhere(s, k)
    ensures Itinerary.Asked(s, OnlyDirectory(DirPath(s)), s.config.indexFiles[k])
  {
    hide BelowRoot, BuildFileCandidates, DirPath;
    assert Itinerary.NoFile(s, OnlyDirectory(DirPath(s)));
    assert Itinerary.Reaches(s, OnlyDirectory(DirPath(s)), k);
    assert IndexEntries(s)[k].0 == s.config.indexFiles[k];
  }

  /** GET /docs/ with /etc/motd for an index file: it is asked for, outside /srv. */
  lemma AbsoluteIndexIsAsked() returns (s: Session, labels: seq<Label>, disk: Disk)
    ensures s.config.root == "/srv" && s.request.relative == "docs" && s.config.indexFiles == ["/etc/motd"]
    ensures Run(s, disk, Start(s), labels).Some? && Itinerary.HasOpened(EndOf(s, disk, labels), "/etc/motd")
    ensures !BelowRoot(s, "/etc/motd")
  {
    var docs := ResolverSpec.DocsRequest(IndexMode);
    s := docs.(config := docs.config.(indexFiles := ["/etc/motd"]));
    disk := OnlyDirectory(DirPath(s));
    NotBelow(s);
    assert NamesElsewhere(s, 0) by { hide BelowRoot; }
    hide BelowRoot, Run, Start, DirPath;
    ReachesElsewhere(s, 0);
    Itinerary.OpensExactly(s, disk, "/etc/motd");
    labels :| Run(s, disk, Start(s), labels).Some? && Itinerary.HasOpened(EndOf(s, disk, labels), "/etc/motd");
  }

  lemma NotBelow(s: Session)
    requires s.config.root == "/srv"
    ensures !BelowRoot(s, "/etc/motd")
  {
    forall tail ensures "/srv" + Separator("/srv") + tail != "/etc/motd" {
      assert ("/srv" + Separator("/srv") + tail)[1] == 's' && "/etc/motd"[1] == 'e';
    }
    hide TailOf;
  }
}

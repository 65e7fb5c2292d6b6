/** The replies that serve no file, in the numbers and fields a client gets: to a
    request that is refused, to one whose path cannot be opened, and to one that
    ends at a directory. */
module Replies {
  import opened Text
  import opened EventBridge
  import opened FilterModel
  import opened FilterRuns
  import opened Paths
  import opened PathRules
  import Answers
  import Delivery
  import Mount
  import RequestRuns
  import ResolverSpec

  /** An empty reply: the status and nothing else. */
  function Bare(status: nat): Sent {
    Response(status, [], NoBody)
  }

  // -------------------------------------------------------------------- refusals

  /** The path is the mount, or goes on from it at a segment boundary. */
  predicate InMount(mount: Option<Bytes>, path: Bytes) {
    mount.Some? ==>
      HasPrefix(path, mount.value) && (|path| == |mount.value| || path[|mount.value|] in {'/', '?', '#'})
  }

  /** What is left of a path below the mount. */
  function BelowMount(mount: Option<Bytes>, path: Bytes): Bytes
    requires InMount(mount, path)
  {
    if mount.None? then path
    else
      var rest := path[|mount.value|..];
      if HasPrefix(rest, "/") then rest else "/" + rest
  }

  lemma MountIs(mount: Option<Bytes>, path: Bytes)
    ensures Mount.UnderMount(mount, path) == if InMount(mount, path) then Some(BelowMount(mount, path)) else None
  {
    if mount.Some? && path == mount.value {
      assert path[|mount.value|..] == "" && "/" + "" == "/";
    }
  }

  predicate PathFine(c: Config, path: Bytes) {
    |path| <= 4096 && forall i :: 0 <= i < |PiecesOf(path)| ==>
        Fine(PiecesOf(path)[i], PathPolicy(c.serveDotfiles, 4096))
  }

  /** A GET or HEAD below the mount with a fine path, and no other request, is
      looked for; under the names its path spells. */
  lemma AdmittedExactly(c: Config, raw: RawRequest)
    ensures RequestRuns.Admitted(c, raw).Some? <==>
              && raw.verb in {Get, Head} && InMount(c.stripPrefix, raw.path)
              && PathFine(c, BelowMount(c.stripPrefix, raw.path))
    ensures RequestRuns.Admitted(c, raw).Some? ==>
              var path := BelowMount(c.stripPrefix, raw.path);
              var plain := StripQueryAndFragment(path);
              RequestRuns.Admitted(c, raw).value ==
              Request(raw.verb == Head, raw.conditionals, raw.rangeHeader, raw.acceptEncoding,
                      Join(NamesOf(PiecesOf(path)), '/'), plain != "" && plain[|plain| - 1] == '/')
  {
    MountIs(c.stripPrefix, raw.path);
    if InMount(c.stripPrefix, raw.path) {
      ResolvesExactly(BelowMount(c.stripPrefix, raw.path), Policy(c));
    }
    hide Resolve, PiecesOf, NamesOf, Join, Fine, StripQueryAndFragment, Mount.UnderMount, InMount, BelowMount;
  }

  /** Another method is answered 405 with the methods allowed, and a path outside
      the mount 404, whatever else is wrong with them. */
  lemma RefusedOutside(c: Config, raw: RawRequest)
    ensures var f := OnRequestHeaders(c, None, Fresh, raw);
            && (raw.verb !in {Get, Head} ==>
                  f.sent == [Response(405, [("allow", "GET, HEAD")], NoBody)] && f.past.submitted == [])
            && (raw.verb in {Get, Head} && !InMount(c.stripPrefix, raw.path) ==>
                  f.sent == [Bare(404)] && f.past.submitted == [])
  {
    MountIs(c.stripPrefix, raw.path);
    hide Mount.UnderMount, InMount, BelowMount, Resolve, BuildFileCandidates, OpenNextCandidate;
  }

  /** Below the mount a path of more than 4096 octets is answered 414; another by
      its first bad piece: 404 when that has a slash in it, is `..` or is hidden,
      else 400. */
  lemma RefusedByPath(c: Config, raw: RawRequest, k: nat)
    requires raw.verb in {Get, Head} && InMount(c.stripPrefix, raw.path)
    requires var path := BelowMount(c.stripPrefix, raw.path);
             |path| <= 4096 ==> FirstBad(PiecesOf(path), k, PathPolicy(c.serveDotfiles, 4096))
    ensures var path, f := BelowMount(c.stripPrefix, raw.path), OnRequestHeaders(c, None, Fresh, raw);
            && f.past.submitted == []
            && f.sent == [Bare(
                 if |path| > 4096 then 414
                 else match WhyRefused(PiecesOf(path)[k], PathPolicy(c.serveDotfiles, 4096))
                   case Traversal => 404
                   case Dotfile => 404
                   case _ => 400)]
  {
    MountIs(c.stripPrefix, raw.path);
    RefusedExactly(BelowMount(c.stripPrefix, raw.path), Policy(c), k);
    hide Mount.UnderMount, InMount, BelowMount, Resolve, BuildFileCandidates, OpenNextCandidate, PiecesOf, Fine;
  }

  // -------------------------------------------------------------- runs that are over

  /** A run that is over, and in which no read has failed. */
  predicate Over(s: Session, disk: Disk, labels: seq<Label>) {
    && Run(s, disk, Start(s), labels).Some?
    && EndOf(s, disk, labels).phase.Done? && !EndOf(s, disk, labels).past.readFailed
  }

  function WireOf(s: Session, disk: Disk, labels: seq<Label>): seq<Sent>
    requires Over(s, disk, labels)
  {
    EndOf(s, disk, labels).sent
  }

  lemma OverIsExpected(s: Session, disk: Disk, labels: seq<Label>)
    requires Over(s, disk, labels)
    ensures WireOf(s, disk, labels) == Expected(s, disk)
  {
    Delivery.EveryRunDelivers(s, disk, labels);
    hide Run, Start, Expected;
  }

  /** The status is that of the error: 404 for what is not there, 403 for what may
      not be read, or is a loop of links (error 40), else 500. */
  predicate IsStatusOf(status: nat, e: IoError) {
    if e.kind in {NotFound, NotADirectory} then status == 404
    else if e.kind in {PermissionDenied, IsADirectory} || e.errno == Some(40) then status == 403
    else status == 500
  }

  lemma StatusIs(e: IoError)
    ensures IsStatusOf(StatusForIoError(e), e)
  {
  }

  /** A path that cannot be opened, in no encoding, is answered by its error. */
  lemma FailureAnswered(s: Session, disk: Disk, labels: seq<Label>) returns (status: nat)
    requires Over(s, disk, labels) && !Answers.FileAmongCandidates(s, disk)
    requires disk.open(DirPath(s)).Fails?
    ensures WireOf(s, disk, labels) == [Bare(status)] && IsStatusOf(status, disk.open(DirPath(s)).error)
  {
    var e := disk.open(DirPath(s)).error;
    status := StatusForIoError(e);
    StatusIs(e);
    OverIsExpected(s, disk, labels);
    NoFileVerdict(s, disk);
    assert Expected(s, disk) == [Bare(status)];
    hide WireOf, Expected, IsStatusOf;
  }

  lemma NoFileVerdict(s: Session, disk: Disk)
    requires !Answers.FileAmongCandidates(s, disk)
    ensures match disk.open(DirPath(s))
            case Fails(error) => VerdictOf(s, disk) == Failed(error)
            case Directory(_) => VerdictOf(s, disk) == DirectoryVerdict(s, disk)
            case Regular(_, _, _) => false
  {
    ResolverSpec.FirstFileWins(s, disk);
    ResolverSpec.VariantsFirst(s);
    var cs := BuildFileCandidates(s);
    assert !ResolverSpec.Opens(disk, cs[|cs| - 1]);
    hide VerdictOf, BuildFileCandidates, DirectoryVerdict;
  }

  /** No index file is there. */
  predicate NoIndex(s: Session, disk: Disk) {
    forall i :: 0 <= i < |s.config.indexFiles| ==> disk.open(Answers.IndexPath(s, i)).Fails?
  }

  function MountText(s: Session): Bytes {
    if s.config.stripPrefix.Some? then s.config.stripPrefix.value else ""
  }

  /** A directory: 301 to its own path with a slash, when that is missing and the
      setting is on; 403 in `deny` mode; and with no index file 404, or in
      `listing` mode the page of its entries. */
  lemma DirectoryAnswered(s: Session, disk: Disk, labels: seq<Label>)
    requires Over(s, disk, labels) && !Answers.FileAmongCandidates(s, disk)
    requires disk.open(DirPath(s)).Directory?
    ensures var sent, c, r := WireOf(s, disk, labels), s.config, s.request;
            var here := MountText(s) + "/" + r.relative;
            if !r.trailingSlash && c.redirectTrailingSlash then
              sent == [Response(301, [("location", here + "/")], NoBody)]
            else if c.directory == DenyMode then sent == [Bare(403)]
            else NoIndex(s, disk) ==>
              if c.directory == IndexMode then sent == [Bare(404)]
              else match disk.list(DirPath(s))
                case ListFails(e) => exists n: nat :: sent == [Bare(n)] && IsStatusOf(n, e)
                case Listed(entries) =>
                  sent == [Response(200, [("content-type", "text/html; charset=utf-8")],
                                    Listing(here, r.relative == "", entries))]
  {
    OverIsExpected(s, disk, labels);
    NoFileVerdict(s, disk);
    DirectoryCalls(s, disk);
    hide WireOf, VerdictOf, DirectoryVerdict, IsStatusOf, NoIndex, Over, DirPath;
  }

  lemma DirectoryCalls(s: Session, disk: Disk)
    ensures var sent, c, r := CallsFor(s, disk, DirectoryVerdict(s, disk)), s.config, s.request;
            var here := MountText(s) + "/" + r.relative;
            if !r.trailingSlash && c.redirectTrailingSlash then
              sent == [Response(301, [("location", here + "/")], NoBody)]
            else if c.directory == DenyMode then sent == [Bare(403)]
            else NoIndex(s, disk) ==>
              if c.directory == IndexMode then sent == [Bare(404)]
              else match disk.list(DirPath(s))
                case ListFails(e) => exists n: nat :: sent == [Bare(n)] && IsStatusOf(n, e)
                case Listed(entries) =>
                  sent == [Response(200, [("content-type", "text/html; charset=utf-8")],
                                    Listing(here, r.relative == "", entries))]
  {
    ResolverSpec.DirectoryRules(s, disk);
    if NoIndex(s, disk) {
      forall i | 0 <= i < |IndexEntries(s)| ensures ResolverSpec.Misses(disk, IndexEntries(s)[i]) {
        assert IndexEntries(s)[i].0 == Answers.IndexPath(s, i);
      }
    }
    UrlIs(s);
    hide DirectoryVerdict, IndexEntries, ResolverSpec.Misses, NoIndex, MountText, DirPath, ResolverSpec.EntryVerdict,
      Mount.UrlFor, IsStatusOf, StatusForIoError;
    match disk.list(DirPath(s)) {
      case ListFails(e) => StatusIs(e);
      case Listed(_) =>
    }
  }

  lemma UrlIs(s: Session)
    ensures Mount.UrlFor(s.config.stripPrefix, s.request.relative) == MountText(s) + "/" + s.request.relative
  {
    if s.request.relative == "" {
      assert MountText(s) + "/" + "" == MountText(s) + "/";
    }
    assert MountText(s) + ("/" + s.request.relative) == MountText(s) + "/" + s.request.relative;
  }
}

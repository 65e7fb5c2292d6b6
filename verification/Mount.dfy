/** Mount prefixes: taking one off a request path, and putting it back in a
    redirect (crates/envoy-files-filter/src/filter.rs). */
module Mount {
  import opened Text
  import opened Paths
  import Utf8

  /** `strip_mount_prefix`. */
  function StripMountPrefix(raw: Bytes, prefix: Bytes): Option<Bytes> {
    if !HasPrefix(raw, prefix) then None
    else
      var rest := raw[|prefix|..];
      if rest == "" then Some("/")
      else if rest[0] == '/' then Some(rest)
      else if rest[0] == '?' || rest[0] == '#' then Some("/" + rest)
      else None
  }

  /** `url_for`. */
  function UrlFor(prefix: Option<Bytes>, relative: Bytes): Bytes {
    (if prefix.Some? then prefix.value else "") + (if relative == "" then "/" else "/" + relative)
  }

  /** The Location of the trailing-slash redirect. */
  function RedirectLocation(prefix: Option<Bytes>, relative: Bytes): Bytes {
    UrlFor(prefix, relative) + "/"
  }

  /** What the filter resolves for a raw path: nothing when it is not under the
      mount. */
  function UnderMount(prefix: Option<Bytes>, raw: Bytes): Option<Bytes> {
    if prefix.Some? then StripMountPrefix(raw, prefix.value) else Some(raw)
  }

  /** A path is under the mount exactly when it is the prefix or continues it
      at a segment boundary; what is left is the rest of it, with a slash in front
      unless there is one. */
  lemma StripAtBoundary(raw: Bytes, prefix: Bytes)
    ensures StripMountPrefix(raw, prefix).Some? <==>
            HasPrefix(raw, prefix) && (|raw| == |prefix| || raw[|prefix|] in {'/', '?', '#'})
    ensures StripMountPrefix(raw, prefix).Some? ==>
              var rest := raw[|prefix|..];
              StripMountPrefix(raw, prefix).value == if HasPrefix(rest, "/") then rest else "/" + rest
  {
    assert "/" + "" == "/";
  }

  // --------------------------------------------------- escapes and lengths

  predicate HasEscape(s: Bytes) {
    exists i :: 0 <= i < |s| && EscapeAt(s[i..])
  }

  lemma {:induction false} DecodeLength(s: Bytes)
    ensures HasEscape(s) ==> |PercentDecode(s)| < |s|
    ensures !HasEscape(s) ==> PercentDecode(s) == s
    ensures |PercentDecode(s)| <= |s|
    decreases |s|
  {
    if s != [] {
      assert s[0..] == s;
      if EscapeAt(s) {
        DecodeLength(s[3..]);
      } else {
        DecodeLength(s[1..]);
        if HasEscape(s) {
          var i :| 0 <= i < |s| && EscapeAt(s[i..]);
          assert s[1..][i - 1..] == s[i..];
        } else {
          forall i | 0 <= i < |s[1..]| ensures !EscapeAt(s[1..][i..]) {
            assert s[1..][i..] == s[i + 1..];
          }
        }
      }
    }
  }

  lemma EscapeFrom(s: Bytes, i: nat)
    requires i <= |s|
    ensures EscapeAt(s[i..]) <==>
              i + 2 < |s| && s[i] == '%' && DigitValue(s[i + 1], 16).Some? && DigitValue(s[i + 2], 16).Some?
  {
  }

  /** An escape never reaches across a slash. */
  lemma EscapeInPiece(s: Bytes, k: nat)
    requires k < |s| && s[k] == '/'
    ensures HasEscape(s) <==> HasEscape(s[..k]) || HasEscape(s[k + 1..])
  {
    var a, b := s[..k], s[k + 1..];
    hide EscapeAt, DigitValue;
    assert DigitValue('/', 16).None? by { SlashIsNoDigit(); }
    if HasEscape(s) {
      var i :| 0 <= i < |s| && EscapeAt(s[i..]);
      EscapeFrom(s, i);
      if i < k {
        EscapeFrom(a, i);
      } else {
        EscapeFrom(b, i - k - 1);
      }
    }
    if HasEscape(a) {
      var i :| 0 <= i < |a| && EscapeAt(a[i..]);
      EscapeFrom(a, i);
      EscapeFrom(s, i);
    }
    if HasEscape(b) {
      var i :| 0 <= i < |b| && EscapeAt(b[i..]);
      EscapeFrom(b, i);
      EscapeFrom(s, k + 1 + i);
    }
  }

  lemma SlashIsNoDigit()
    ensures DigitValue('/', 16).None?
  {
  }

  predicate SomeEscape(pieces: seq<Bytes>) {
    exists p :: p in pieces && HasEscape(p)
  }

  lemma {:induction false} EscapesAreInPieces(s: Bytes)
    ensures HasEscape(s) <==> SomeEscape(Split(s, '/'))
    decreases |s|
  {
    var k := Find(s, '/');
    if k == |s| {
      assert s in Split(s, '/');
    } else {
      EscapeInPiece(s, k);
      EscapesAreInPieces(s[k + 1..]);
      var rest := Split(s[k + 1..], '/');
      assert Split(s, '/') == [s[..k]] + rest;
      assert s[..k] in Split(s, '/');
      forall p | p in rest ensures p in Split(s, '/') {}
    }
  }

  /** What the nonempty pieces would take up when joined, and one more. */
  function Weight(pieces: seq<Bytes>): nat {
    if pieces == [] then 0
    else Weight(pieces[..|pieces| - 1]) + (if pieces[|pieces| - 1] == "" then 0 else |pieces[|pieces| - 1]| + 1)
  }

  lemma {:induction false} WeightConcat(a: seq<Bytes>, b: seq<Bytes>)
    ensures Weight(a + b) == Weight(a) + Weight(b)
  {
    if b == [] {
      assert a + b == a;
    } else {
      assert (a + b)[..|a + b| - 1] == a + b[..|b| - 1];
      WeightConcat(a, b[..|b| - 1]);
    }
  }

  lemma {:induction false} JoinWeight(parts: seq<Bytes>)
    ensures parts != [] ==> Weight(parts) <= |Join(parts, '/')| + 1
    ensures (forall p :: p in parts ==> p != "") && parts != [] ==> Weight(parts) == |Join(parts, '/')| + 1
  {
    if parts != [] {
      assert parts == [parts[0]] + parts[1..];
      WeightConcat([parts[0]], parts[1..]);
      assert [parts[0]][..0] == [];
      assert Weight([parts[0]]) == if parts[0] == "" then 0 else |parts[0]| + 1;
      assert parts[0] in parts;
      if |parts| > 1 {
        JoinWeight(parts[1..]);
        assert forall p :: p in parts[1..] ==> p in parts;
      } else {
        assert parts[1..] == [];
      }
    }
  }

  lemma {:induction false} KeptWeight(pieces: seq<Bytes>, policy: PathPolicy)
    requires ResolveSegments(pieces, policy).Kept?
    ensures var kept := ResolveSegments(pieces, policy).segments;
            Weight(kept) <= Weight(pieces) && (SomeEscape(pieces) ==> Weight(kept) < Weight(pieces))
  {
    if pieces != [] {
      var front, piece := pieces[..|pieces| - 1], pieces[|pieces| - 1];
      KeptWeight(front, policy);
      AddedWeight(ResolveSegments(front, policy).segments, piece, policy);
      EscapeInLast(front, piece);
      assert pieces == front + [piece];
      hide AddSegment, HasEscape, SomeEscape;
    }
  }

  lemma EscapeInLast(front: seq<Bytes>, piece: Bytes)
    ensures SomeEscape(front + [piece]) <==> SomeEscape(front) || HasEscape(piece)
  {
    var all := front + [piece];
    assert forall p :: p in all <==> p in front || p == piece;
    hide HasEscape;
  }

  lemma AddedWeight(kept: seq<Bytes>, piece: Bytes, policy: PathPolicy)
    requires AddSegment(kept, piece, policy).Kept?
    ensures var now := Weight(AddSegment(kept, piece, policy).segments);
            var most := Weight(kept) + (if piece == "" then 0 else |piece| + 1);
            now <= most && (HasEscape(piece) ==> now < most)
  {
    DecodeLength(piece);
    WeightPush(kept, PercentDecode(piece));
    hide HasEscape, PercentDecode, RejectReasonForSegment;
  }

  lemma WeightPush(kept: seq<Bytes>, segment: Bytes)
    ensures Weight(kept + [segment]) == Weight(kept) + (if segment == "" then 0 else |segment| + 1)
  {
    assert (kept + [segment])[..|kept|] == kept;
  }

  // ------------------------------------------------------- the round trip

  lemma {:induction false} ResolvePlain(segments: seq<Bytes>, policy: PathPolicy)
    requires AllAccepted(segments, policy) && !SomeEscape(segments)
    ensures ResolveSegments([""] + segments, policy) == Kept(segments)
  {
    var pieces := [""] + segments;
    if segments == [] {
      assert pieces[..0] == [];
    } else {
      var front, last := segments[..|segments| - 1], segments[|segments| - 1];
      assert !SomeEscape(front);
      ResolvePlain(front, policy);
      assert pieces[..|pieces| - 1] == [""] + front;
      assert last in segments && !HasEscape(last);
      DecodeLength(last);
      assert Accepted(last, policy);
      assert segments == front + [last];
    }
  }

  lemma PiecesOfSlashed(relative: Bytes)
    ensures Split("/" + relative + "/", '/') == [""] + Split(relative, '/') + [""]
  {
    SplitConcat("" , relative + "/", '/');
    SplitConcat(relative, "", '/');
    assert "" + ['/'] + (relative + "/") == "/" + relative + "/";
    assert relative + ['/'] + "" == relative + "/";
  }

  /** A relative path the resolver produced. */
  predicate IsResolved(relative: Bytes, policy: PathPolicy) {
    relative == "" || AllAccepted(Split(relative, '/'), policy)
  }

  lemma PlainComesBack(relative: Bytes, policy: PathPolicy)
    requires IsResolved(relative, policy) && CutFree(relative) && !HasEscape(relative)
    requires |relative| + 2 <= policy.maxPathLen
    ensures Resolve("/" + relative + "/", policy) == Ok(relative, true)
  {
    var path := "/" + relative + "/";
    NothingToStrip(path);
    PiecesOfSlashed(relative);
    var segments := Split(relative, '/');
    JoinSplit(relative, '/');
    EscapesAreInPieces(relative);
    var pieces := [""] + segments + [""];
    assert pieces[..|pieces| - 1] == [""] + segments;
    if relative == "" {
      assert segments == [""];
      assert ([""] + segments)[..1] == [""] && [""][..0] == [];
      assert ResolveSegments([""], policy) == Kept([]);
      assert ResolveSegments([""] + segments, policy) == Kept([]);
    } else {
      ResolvePlain(segments, policy);
    }
  }

  lemma CutComesShort(raw: Bytes, relative: Bytes, policy: PathPolicy)
    requires HasPrefix(raw, "/") && |StripQueryAndFragment(raw)| <= |relative|
    ensures Resolve(raw, policy) != Ok(relative, true)
  {
    var path := StripQueryAndFragment(raw);
    hide StripQueryAndFragment, Split, Join, ResolveSegments;
    if Resolve(raw, policy).Ok? && path != [] {
      assert path[0] == '/';
      KeptComesShort(path, policy);
    }
  }

  /** What is kept of a path is shorter than the path. */
  lemma KeptComesShort(path: Bytes, policy: PathPolicy)
    requires HasPrefix(path, "/") && ResolveSegments(Split(path, '/'), policy).Kept?
    ensures |Join(ResolveSegments(Split(path, '/'), policy).segments, '/')| < |path|
  {
    var rest := path[1..];
    assert path == "" + ['/'] + rest;
    SplitConcat("", rest, '/');
    hide Split, Join, Weight, ResolveSegments;
    var pieces := Split(rest, '/');
    JoinSplit(rest, '/');
    JoinWeight(pieces);
    WeightOfEmpty(pieces);
    KeptWeight([""] + pieces, policy);
    KeptLength([""] + pieces, policy);
  }

  lemma WeightOfEmpty(pieces: seq<Bytes>)
    ensures Weight([""] + pieces) == Weight(pieces)
  {
    WeightConcat([""], pieces);
    assert [""][..0] == [];
  }

  lemma CutShortens(relative: Bytes, raw: Bytes)
    requires !CutFree(relative) && raw == "/" + relative + "/"
    ensures |StripQueryAndFragment(raw)| <= |relative|
  {
    var path := StripQueryAndFragment(raw);
    var i :| 0 <= i < |relative| && CutChar(relative[i]);
    assert CutChar(raw[i + 1]) && |path| <= i + 1;
  }

  lemma KeptLength(pieces: seq<Bytes>, policy: PathPolicy)
    requires ResolveSegments(pieces, policy).Kept?
    ensures var kept := ResolveSegments(pieces, policy).segments;
            if kept == [] then Join(kept, '/') == "" else Weight(kept) == |Join(kept, '/')| + 1
  {
    KeptAreAccepted(pieces, policy);
    JoinWeight(ResolveSegments(pieces, policy).segments);
  }

  lemma EscapeComesShort(relative: Bytes, policy: PathPolicy)
    requires CutFree(relative) && HasEscape(relative)
    ensures Resolve("/" + relative + "/", policy) != Ok(relative, true)
  {
    var path := "/" + relative + "/";
    NothingToStrip(path);
    PiecesOfSlashed(relative);
    SlashedWeight(relative);
    hide StripQueryAndFragment, Split, PercentDecode, HasEscape;
    var pieces := [""] + Split(relative, '/') + [""];
    if ResolveSegments(pieces, policy).Kept? {
      KeptWeight(pieces, policy);
      KeptLength(pieces, policy);
    }
  }

  lemma SlashedWeight(relative: Bytes)
    ensures var pieces := [""] + Split(relative, '/') + [""];
            Weight(pieces) <= |relative| + 1 && (HasEscape(relative) ==> SomeEscape(pieces))
  {
    var segments := Split(relative, '/');
    var pieces := [""] + segments + [""];
    JoinSplit(relative, '/');
    JoinWeight(segments);
    WeightConcat([""] + segments, [""]);
    WeightConcat([""], segments);
    assert Weight([""]) == 0 by { assert [""][..0] == []; }
    EscapesAreInPieces(relative);
    if SomeEscape(segments) {
      var p :| p in segments && HasEscape(p);
      assert p in pieces;
    }
  }

  /** What a client asks this server for when it follows a Location: nothing
      when the reference names another authority (section 4.2 of RFC 3986); a
      fragment is not sent. */
  function Followed(location: Bytes): Option<Bytes> {
    if HasPrefix(location, "//") then None else Some(location[..Find(location, '#')])
  }

  predicate LandsBack(prefix: Option<Bytes>, relative: Bytes, policy: PathPolicy) {
    var asked := Followed(RedirectLocation(prefix, relative));
    asked.Some? && UnderMount(prefix, asked.value).Some?
    && Resolve(UnderMount(prefix, asked.value).value, policy) == Ok(relative, true)
  }

  /** What the configuration guarantees of a mount prefix. */
  predicate Normalized(prefix: Option<Bytes>) {
    prefix.Some? ==> prefix.value != "" && prefix.value[0] == '/' && prefix.value[|prefix.value| - 1] != '/'
  }

  /** The mount leaves the reference on this server and whole. */
  predicate PlainMount(prefix: Option<Bytes>) {
    prefix.Some? ==> !HasPrefix(prefix.value, "//") && '#' !in prefix.value
  }

  /** A client that follows the trailing-slash redirect comes back to the
      directory it was sent for, through the mount, with the slash now there, if
      and only if: the directory is not the root of an unmounted tree; its path
      holds no `?`, no `#` and nothing that looks like an escape, and fits the
      length limit; and the mount prefix neither begins with two slashes nor holds
      a `#`.  The location is not percent-encoded. */
  lemma RedirectLandsBack(prefix: Option<Bytes>, relative: Bytes, policy: PathPolicy)
    requires IsResolved(relative, policy) && Normalized(prefix)
    ensures LandsBack(prefix, relative, policy) <==>
              && (relative != "" || prefix.Some?) && PlainMount(prefix)
              && CutFree(relative) && !HasEscape(relative) && |relative| + 2 <= policy.maxPathLen
  {
    hide Resolve, HasEscape, StripQueryAndFragment;
    var mount, location := if prefix.Some? then prefix.value else "", RedirectLocation(prefix, relative);
    var tail := "/" + relative + "/";
    LocationIs(prefix, relative);
    AuthorityOf(prefix, relative, policy);
    if (relative != "" || prefix.Some?) && !HasPrefix(mount, "//") {
      AskedUnder(prefix, relative);
      if '#' !in mount && '#' in relative {
        var j := Find(relative, '#');
        assert CutChar(relative[j]);
        CutStays("/" + relative[..j]);
        CutComesShort("/" + relative[..j], relative, policy);
      } else if '#' !in mount {
        PlainLanding(relative, policy);
      }
    }
  }

  lemma LocationIs(prefix: Option<Bytes>, relative: Bytes)
    ensures RedirectLocation(prefix, relative) == (if prefix.Some? then prefix.value else "") + ("/" + relative + "/")
  {
    var mount := if prefix.Some? then prefix.value else "";
    if relative == "" {
      assert "/" + relative + "/" == "/" + "/";
    } else {
      assert mount + ("/" + relative) + "/" == mount + ("/" + relative + "/");
    }
  }

  /** When the location looks like a network-path reference. */
  lemma AuthorityOf(prefix: Option<Bytes>, relative: Bytes, policy: PathPolicy)
    requires IsResolved(relative, policy) && Normalized(prefix)
    ensures HasPrefix(RedirectLocation(prefix, relative), "//") <==>
              if prefix.Some? then HasPrefix(prefix.value, "//") else relative == ""
  {
    LocationIs(prefix, relative);
    var location := RedirectLocation(prefix, relative);
    assert HasPrefix(location, "//") <==> |location| >= 2 && location[0] == '/' && location[1] == '/';
    if prefix.Some? {
      var p := prefix.value;
      assert |p| >= 2 && location[0] == p[0] && location[1] == p[1];
      assert HasPrefix(p, "//") <==> p[0] == '/' && p[1] == '/';
    } else if relative != "" {
      assert location[1] == relative[0];
      FirstNotSlash(relative, policy);
    }
  }

  lemma FirstNotSlash(relative: Bytes, policy: PathPolicy)
    requires IsResolved(relative, policy) && relative != ""
    ensures relative[0] != '/' && relative[|relative| - 1] != '/'
  {
    var pieces := Split(relative, '/');
    JoinSplit(relative, '/');
    assert Accepted(pieces[0], policy) && Accepted(pieces[|pieces| - 1], policy) by {
      assert pieces[0] in pieces && pieces[|pieces| - 1] in pieces;
    }
    hide Accepted;
    NotBlank(pieces[0], policy);
    NotBlank(pieces[|pieces| - 1], policy);
    assert Join(pieces, '/')[0] == pieces[0][0];
    JoinEnd(pieces);
    var last := pieces[|pieces| - 1];
    assert pieces[0][0] in pieces[0] && last[|last| - 1] in last;
  }

  lemma NotBlank(s: Bytes, policy: PathPolicy)
    requires Accepted(s, policy)
    ensures s != "" && '/' !in s
  {
  }

  /** What is left of the request below the mount. */
  lemma AskedUnder(prefix: Option<Bytes>, relative: Bytes)
    requires !HasPrefix(RedirectLocation(prefix, relative), "//")
    ensures var mount := if prefix.Some? then prefix.value else "";
            var asked := Followed(RedirectLocation(prefix, relative));
            && asked.Some?
            && ('#' in mount ==> UnderMount(prefix, asked.value).None?)
            && ('#' !in mount && '#' in relative ==>
                  UnderMount(prefix, asked.value) == Some("/" + relative[..Find(relative, '#')]))
            && ('#' !in mount && '#' !in relative ==> UnderMount(prefix, asked.value) == Some("/" + relative + "/"))
  {
    LocationIs(prefix, relative);
    var mount := if prefix.Some? then prefix.value else "";
    hide UnderMount, RedirectLocation, Find;
    var k := CutAt(mount, relative);
    if '#' in mount {
      ShorterIsOutside(prefix.value, (mount + ("/" + relative + "/"))[..k]);
    } else if '#' in relative {
      UnderIs(prefix, "/" + relative[..Find(relative, '#')]);
    } else {
      UnderIs(prefix, "/" + relative + "/");
    }
  }

  /** Where a client cuts off the fragment of a location. */
  lemma CutAt(mount: Bytes, relative: Bytes) returns (k: nat)
    ensures var location := mount + ("/" + relative + "/");
            && k <= |location| && k == Find(location, '#')
            && ('#' in mount ==> k < |mount|)
            && ('#' !in mount && '#' in relative ==> location[..k] == mount + ("/" + relative[..Find(relative, '#')]))
            && ('#' !in mount && '#' !in relative ==> location[..k] == location)
  {
    var location := mount + ("/" + relative + "/");
    if '#' in mount {
      k := Find(mount, '#');
    } else if '#' in relative {
      k := |mount| + 1 + Find(relative, '#');
    } else {
      k := |location|;
    }
    FindIs(location, '#', k);
    hide Find;
  }

  lemma UnderIs(prefix: Option<Bytes>, rest: Bytes)
    requires HasPrefix(rest, "/")
    ensures UnderMount(prefix, (if prefix.Some? then prefix.value else "") + rest) == Some(rest)
  {
    var mount := if prefix.Some? then prefix.value else "";
    PrefixOfConcat(mount, rest);
    assert "" + rest == rest;
  }

  lemma ShorterIsOutside(prefix: Bytes, raw: Bytes)
    requires |raw| < |prefix|
    ensures UnderMount(Some(prefix), raw).None?
  {
  }

  lemma CutStays(raw: Bytes)
    ensures |StripQueryAndFragment(raw)| <= |raw|
  {
  }

  lemma PlainLanding(relative: Bytes, policy: PathPolicy)
    requires IsResolved(relative, policy)
    ensures Resolve("/" + relative + "/", policy) == Ok(relative, true) <==>
              CutFree(relative) && !HasEscape(relative) && |relative| + 2 <= policy.maxPathLen
  {
    var path := "/" + relative + "/";
    if CutFree(relative) && !HasEscape(relative) && |relative| + 2 <= policy.maxPathLen {
      PlainComesBack(relative, policy);
    } else if !CutFree(relative) {
      CutShortens(relative, path);
      CutComesShort(path, relative, policy);
    } else if HasEscape(relative) {
      EscapeComesShort(relative, policy);
    } else {
      assert |path| > policy.maxPathLen;
    }
  }

  /** The root asked for as `/.`: it resolves without a trailing slash, and the
      redirect it gets names another authority. */
  lemma RootRedirectLeaves(policy: PathPolicy)
    requires policy.maxPathLen >= 2
    ensures Resolve("/.", policy) == Ok("", false)
    ensures RedirectLocation(None, "") == "//" && !LandsBack(None, "", policy)
  {
    DotPath();
    DotSegment(policy);
    hide ResolveSegments, Split, StripQueryAndFragment, AddSegment;
    assert Join([], '/') == "";
    assert "" + "/" + "/" == "//";
  }

  lemma DotPath()
    ensures StripQueryAndFragment("/.") == "/." && Split("/.", '/') == ["", "."] && "/."[1] != '/' && |"/."| == 2
  {
    var dot := ".";
    NothingToStrip("/.");
    FindIs(dot, '/', 1);
    FindIs("", '/', 0);
    SplitConcat("", dot, '/');
    hide StripQueryAndFragment;
    assert "" + ['/'] + dot == "/.";
  }

  lemma DotSegment(policy: PathPolicy)
    ensures ResolveSegments(["", "."], policy) == Kept([])
  {
    var dot := ".";
    assert dot[1..] == "" && Utf8.Valid(dot) && PercentDecode(dot) == dot;
    hide PercentDecode, Utf8.Valid, RejectReasonForSegment;
    assert ["", dot][..1] == [""] && [""][..0] == [];
    assert ResolveSegments([""], policy) == Kept([]);
  }

  /** A directory whose name holds a question mark: it is reached through an
      encoded path, and the redirect leads to another path instead. */
  lemma RedirectGoesAstray(policy: PathPolicy)
    requires policy.maxPathLen >= 6
    ensures Resolve("/a%3Fb", policy) == Ok("a?b", false)
    ensures Resolve(RedirectLocation(None, "a?b"), policy) == Ok("a", false)
  {
    Literals();
    DecodeExample();
    PlainSegment("a?b", policy);
    PlainSegment("a", policy);
    LocationExample();
    NothingToStrip("/" + "a%3Fb");
    OneSegment("/" + "a%3Fb", "a%3Fb", policy);
    OneSegment(RedirectLocation(None, "a?b"), "a", policy);
  }

  lemma Literals()
    ensures "/" + "a%3Fb" == "/a%3Fb" && |"/a%3Fb"| == 6 && CutFree("/" + "a%3Fb") && CutFree("a%3Fb")
    ensures '/' !in "a%3Fb" && '/' !in "a" && "a%3Fb" != "" && "a" != ""
  {
  }

  lemma DecodeExample()
    ensures PercentDecode("a%3Fb") == "a?b" && PercentDecode("a") == "a"
  {
    var p := "a%3Fb";
    assert p[1..] == "%3Fb" && p[1..][3..] == "b" && "b"[1..] == "" && "a"[1..] == "";
    assert EscapeAt("%3Fb") && PercentDecode("%3Fb") == ['?'] + PercentDecode("b");
  }

  lemma LocationExample()
    ensures StripQueryAndFragment(RedirectLocation(None, "a?b")) == "/" + "a"
    ensures |RedirectLocation(None, "a?b")| == 5
  {
    var location := RedirectLocation(None, "a?b");
    assert location == "/a?b/";
    assert location[1..] == "a?b/" && location[1..][1..] == "?b/";
    assert StripQueryAndFragment("?b/") == [];
  }

  /** A one-segment path resolves to the segment, decoded. */
  lemma OneSegment(raw: Bytes, s: Bytes, policy: PathPolicy)
    requires |raw| <= policy.maxPathLen && StripQueryAndFragment(raw) == "/" + s
    requires s != "" && '/' !in s
    requires Accepted(PercentDecode(s), policy)
    ensures Resolve(raw, policy) == Ok(PercentDecode(s), false)
  {
    SplitConcat("", s, '/');
    FindIs(s, '/', |s|);
    assert "" + ['/'] + s == "/" + s;
    assert Split(s, '/') == [s] && Split("", '/') == [""];
    var pieces := [""] + [s];
    assert pieces[..1] == [""] && [""][..0] == [];
    assert ResolveSegments([""], policy) == Kept([]);
    assert ResolveSegments(pieces, policy) == AddSegment([], s, policy);
    assert AddSegment([], s, policy) == Kept([] + [PercentDecode(s)]);
    assert ("/" + s)[|s|] == s[|s| - 1] && s[|s| - 1] in s;
  }

  lemma PlainSegment(s: Bytes, policy: PathPolicy)
    requires s == "a?b" || s == "a"
    ensures Accepted(s, policy)
  {
    assert s[1..] == "?b" || s[1..] == "";
    assert "?b"[1..] == "b" && "b"[1..] == "";
    assert Utf8.Valid("b") && Utf8.Valid("?b");
    FindIs(s, '.', |s|);
    assert s[..|s|] == s;
    forall i | 0 <= i < |RESERVED| ensures !EqIgnoreCase(RESERVED[i], s) {
      assert |RESERVED[i]| >= 3;
      assert |s| == 3 ==> Upper(s[1]) == '?' && Upper(RESERVED[i][1]) != '?';
    }
  }
}

/** Where the links of a directory listing lead
    (crates/envoy-files-core/src/listing.rs). */
module Links {
  import opened Text
  import opened FilterModel
  import opened Listing
  import Mount
  import Paths
  import Utf8

  /** Where a browser goes from the page at `page` when it follows `href`: the
      path up to its last slash, then the reference (section 5.2.3 of RFC 3986). */
  function Follow(page: Bytes, href: Bytes): Bytes {
    if page == "" || page[|page| - 1] == '/' then page + href
    else Follow(page[..|page| - 1], href)
  }

  lemma {:induction false} FollowFrom(before: Bytes, last: Bytes, href: Bytes)
    requires '/' !in last
    ensures Follow(before + "/" + last, href) == before + "/" + href
    decreases |last|
  {
    var page := before + "/" + last;
    if last == "" {
      assert page == before + "/";
    } else {
      assert page[..|page| - 1] == before + "/" + last[..|last| - 1];
      FollowFrom(before, last[..|last| - 1], href);
    }
  }

  lemma {:induction false} LastSlash(page: Bytes) returns (before: Bytes, last: Bytes)
    requires '/' in page
    ensures page == before + "/" + last && '/' !in last
  {
    if page[|page| - 1] == '/' {
      before, last := page[..|page| - 1], "";
    } else {
      var b, l := LastSlash(page[..|page| - 1]);
      before, last := b, l + [page[|page| - 1]];
    }
  }

  lemma EncodedPiece(name: Bytes)
    requires IsOctets(name) && name != ""
    ensures var p := Paths.PercentEncode(name);
            p != "" && '/' !in p && Paths.CutFree(p)
  {
    Paths.EncodeBack(name);
    hide Paths.PercentEncode;
    var p := Paths.PercentEncode(name);
    forall i | 0 <= i < |p| ensures !Paths.CutChar(p[i]) {
      assert p[i] in p;
    }
  }

  /** The pieces of `before/name` and `before/name/`. */
  lemma LinkPieces(before: Bytes, p: Bytes)
    requires '/' !in p
    ensures Split(before + "/" + p, '/') == Split(before, '/') + [p]
    ensures Split(before + "/" + p + "/", '/') == Split(before, '/') + [p] + [""]
    ensures Split(before + "/", '/') == Split(before, '/') + [""]
  {
    FindIs(p, '/', |p|);
    FindIs("", '/', 0);
    assert Split(p, '/') == [p] && Split("", '/') == [""];
    SplitConcat(before, p, '/');
    SplitConcat(before + "/" + p, "", '/');
    SplitConcat(before, "", '/');
    assert before + ['/'] + p == before + "/" + p;
    assert before + "/" + p + ['/'] + "" == before + "/" + p + "/";
    assert before + ['/'] + "" == before + "/";
  }

  // --------------------------------------------------------------- one segment

  /** A name the engine lists: valid UTF-8, no separator, and never the entries
      for the directory itself and its parent. */
  predicate ListedName(name: Bytes) {
    name != "" && name != "." && name != ".." && '/' !in name && Utf8.Valid(name)
  }

  lemma ListedIsOctets(name: Bytes)
    requires ListedName(name)
    ensures IsOctets(name) && name != ""
  {
    Utf8.ValidIsOctets(name);
  }

  /** An encoded name is kept exactly when the policy accepts the name. */
  lemma AddListed(kept: seq<Bytes>, name: Bytes, policy: Paths.PathPolicy)
    requires ListedName(name) && IsOctets(name)
    ensures var added := Paths.AddSegment(kept, Paths.PercentEncode(name), policy);
            if Paths.Accepted(name, policy) then added == Paths.Kept(kept + [name]) else added.Refused?
  {
    Paths.EncodeBack(name);
    hide Paths.RejectReasonForSegment, Paths.PercentEncode, Paths.PercentDecode;
  }

  /** What the pieces of a link resolve to: one more segment, or a refusal. */
  lemma LinkSegments(before: Bytes, name: Bytes, policy: Paths.PathPolicy)
    requires ListedName(name) && IsOctets(name) && Paths.ResolveSegments(Split(before, '/'), policy).Kept?
    ensures var kept, p := Paths.ResolveSegments(Split(before, '/'), policy).segments, Paths.PercentEncode(name);
            var file, dir := Paths.ResolveSegments(Split(before + "/" + p, '/'), policy),
                             Paths.ResolveSegments(Split(before + "/" + p + "/", '/'), policy);
            if Paths.Accepted(name, policy) then file == dir == Paths.Kept(kept + [name])
            else file.Refused? && dir.Refused?
  {
    hide Paths.Accepted, Paths.PercentEncode, Split, Paths.ResolveSegments;
    var kept, p := Paths.ResolveSegments(Split(before, '/'), policy).segments, Paths.PercentEncode(name);
    EncodedPiece(name);
    LinkPieces(before, p);
    Paths.AddedPiece(Split(before, '/'), p, policy);
    AddListed(kept, name, policy);
    Paths.AddedPiece(Split(before, '/') + [p], "", policy);
  }

  // ----------------------------------------------------------------- the answer

  lemma UncutLink(page: Bytes, e: DirEntryInfo)
    requires Paths.CutFree(page) && IsOctets(e.name) && e.name != ""
    ensures Paths.CutFree(page + Href(e))
  {
    hide Paths.PercentEncode;
    EncodedPiece(e.name);
    var link, p := page + Href(e), Paths.PercentEncode(e.name);
    forall i | 0 <= i < |link| ensures !Paths.CutChar(link[i]) {
      if |page| <= i < |page| + |p| {
        assert link[i] == p[i - |page|];
      }
    }
  }

  lemma ResolvePieces(raw: Bytes, policy: Paths.PathPolicy)
    requires Paths.CutFree(raw)
    ensures var pieces := Paths.ResolveSegments(Split(raw, '/'), policy);
            Paths.Resolve(raw, policy) ==
              if |raw| > policy.maxPathLen then Paths.Reject(Paths.TooLong)
              else if pieces.Refused? then Paths.Reject(pieces.reason)
              else Paths.Ok(Join(pieces.segments, '/'), raw != "" && raw[|raw| - 1] == '/')
  {
    Paths.NothingToStrip(raw);
    hide Split, Paths.ResolveSegments;
  }

  lemma {:induction false} JoinMore(parts: seq<Bytes>, p: Bytes)
    ensures Join(parts + [p], '/') == if parts == [] then p else Join(parts, '/') + "/" + p
  {
    if parts == [] {
      assert parts + [p] == [p];
    } else {
      assert (parts + [p])[1..] == parts[1..] + [p];
      JoinMore(parts[1..], p);
    }
  }

  lemma KeptNames(pieces: seq<Bytes>, policy: Paths.PathPolicy)
    requires Paths.ResolveSegments(pieces, policy).Kept?
    ensures var kept := Paths.ResolveSegments(pieces, policy).segments;
            (kept == [] <==> Join(kept, '/') == "") && forall p :: p in kept ==> '/' !in p
  {
    var kept := Paths.ResolveSegments(pieces, policy).segments;
    Paths.KeptAreAccepted(pieces, policy);
    if kept != [] {
      assert kept[|kept| - 1] in kept;
      Paths.JoinEnd(kept);
    }
  }

  /** The entry called `name` of the directory at `relative`. */
  function EntryOf(relative: Bytes, name: Bytes): Bytes {
    if relative == "" then name else relative + "/" + name
  }

  lemma JoinInjective(a: seq<Bytes>, b: seq<Bytes>)
    requires a != [] && b != [] && (forall p :: p in a ==> '/' !in p) && (forall p :: p in b ==> '/' !in p)
    ensures Join(a, '/') == Join(b, '/') ==> a == b
  {
    SplitJoin(a, '/');
    SplitJoin(b, '/');
  }

  /** The last piece of the page's path adds no segment: it is empty or a dot. */
  predicate AtDirectory(page: Bytes) {
    var pieces := Split(page, '/');
    var last := pieces[|pieces| - 1];
    last == "" || Paths.PercentDecode(last) == "."
  }

  /** Whether the link to `e` on the page at `page` leads to the entry. */
  predicate LeadsToEntry(page: Bytes, e: DirEntryInfo, policy: Paths.PathPolicy)
    requires Paths.Resolve(page, policy).Ok? && IsOctets(e.name)
  {
    Paths.Resolve(Follow(page, Href(e)), policy)
      == Paths.Ok(EntryOf(Paths.Resolve(page, policy).relative, e.name), e.isDir)
  }

  lemma LastPiece(before: Bytes, last: Bytes, policy: Paths.PathPolicy)
    requires '/' !in last && Paths.ResolveSegments(Split(before + "/" + last, '/'), policy).Kept?
    ensures Paths.ResolveSegments(Split(before, '/'), policy).Kept?
    ensures var kept := Paths.ResolveSegments(Split(before, '/'), policy).segments;
            var all := Paths.ResolveSegments(Split(before + "/" + last, '/'), policy).segments;
            if AtDirectory(before + "/" + last) then all == kept else exists seg :: all == kept + [seg]
  {
    LinkPieces(before, last);
    Paths.AddedPiece(Split(before, '/'), last, policy);
    hide Split, Paths.ResolveSegments, Paths.PercentDecode, Paths.RejectReasonForSegment;
  }

  /** A link leads to its entry if and only if the page's path ends at a slash or
      a dot, the policy accepts the entry's name, and the link is within the length
      limit.  The engine lists names the policy refuses. */
  lemma LinkLeadsToEntry(page: Bytes, e: DirEntryInfo, policy: Paths.PathPolicy)
    requires HasPrefix(page, "/") && Paths.CutFree(page) && Paths.Resolve(page, policy).Ok? && ListedName(e.name)
    ensures IsOctets(e.name)
    ensures LeadsToEntry(page, e, policy) <==>
              AtDirectory(page) && Paths.Accepted(e.name, policy) && |Follow(page, Href(e))| <= policy.maxPathLen
  {
    hide Paths.Accepted, Paths.PercentEncode, Split, Paths.ResolveSegments, Paths.Resolve, Paths.CutFree, IsOctets,
      AtDirectory, ListedName, Follow;
    ListedIsOctets(e.name);
    assert page[0] == '/';
    var before, last := LastSlash(page);
    ResolvePieces(page, policy);
    LastPiece(before, last, policy);
    FollowFrom(before, last, Href(e));
    var link, p := before + "/" + Href(e), Paths.PercentEncode(e.name);
    LinkSegments(before, e.name, policy);
    UncutStart(before, last);
    UncutLink(before + "/", e);
    EncodedPiece(e.name);
    LinkText(before, p, e);
    ResolvePieces(link, policy);
    if Paths.Accepted(e.name, policy) && |link| <= policy.maxPathLen {
      SameEntry(page, before, e.name, policy);
    }
  }

  lemma UncutStart(before: Bytes, last: Bytes)
    requires Paths.CutFree(before + "/" + last)
    ensures Paths.CutFree(before + "/")
  {
    var page := before + "/" + last;
    forall i | 0 <= i <= |before| ensures !Paths.CutChar((before + "/")[i]) {
      assert page[i] == (before + "/")[i];
    }
  }

  lemma LinkText(before: Bytes, p: Bytes, e: DirEntryInfo)
    requires IsOctets(e.name) && p == Paths.PercentEncode(e.name) && p != "" && '/' !in p
    ensures before + "/" + Href(e) == if e.isDir then before + "/" + p + "/" else before + "/" + p
    ensures var link := before + "/" + Href(e); link != "" && (link[|link| - 1] == '/' <==> e.isDir)
  {
    hide Paths.PercentEncode;
    assert p[|p| - 1] in p;
    if e.isDir {
      assert before + "/" + (p + "/") == before + "/" + p + "/";
    } else {
      assert before + "/" + (p + "") == before + "/" + p;
    }
  }

  /** The link's segments are the entry's exactly when the page is at its directory. */
  lemma SameEntry(page: Bytes, before: Bytes, name: Bytes, policy: Paths.PathPolicy)
    requires ListedName(name)
    requires Paths.ResolveSegments(Split(page, '/'), policy).Kept?
             && Paths.ResolveSegments(Split(before, '/'), policy).Kept?
    requires var kept, all := Paths.ResolveSegments(Split(before, '/'), policy).segments,
                              Paths.ResolveSegments(Split(page, '/'), policy).segments;
             if AtDirectory(page) then all == kept else exists seg :: all == kept + [seg]
    ensures var kept, all := Paths.ResolveSegments(Split(before, '/'), policy).segments,
                             Paths.ResolveSegments(Split(page, '/'), policy).segments;
            Join(kept + [name], '/') == EntryOf(Join(all, '/'), name) <==> AtDirectory(page)
  {
    hide Split, Paths.ResolveSegments, AtDirectory;
    var kept, all := Paths.ResolveSegments(Split(before, '/'), policy).segments,
                     Paths.ResolveSegments(Split(page, '/'), policy).segments;
    KeptNames(Split(before, '/'), policy);
    KeptNames(Split(page, '/'), policy);
    JoinMore(all, name);
    JoinInjective(kept + [name], all + [name]);
  }

  // -------------------------------------------------------- through the mount

  /** The link as the server gets it, below the mount. */
  predicate LeadsThroughMount(prefix: Option<Bytes>, raw: Bytes, e: DirEntryInfo, policy: Paths.PathPolicy)
    requires Mount.UnderMount(prefix, raw).Some? && IsOctets(e.name)
    requires Paths.Resolve(Mount.UnderMount(prefix, raw).value, policy).Ok?
  {
    var link := Mount.UnderMount(prefix, Follow(raw, Href(e)));
    link.Some? && Paths.Resolve(link.value, policy)
                  == Paths.Ok(EntryOf(Paths.Resolve(Mount.UnderMount(prefix, raw).value, policy).relative, e.name),
                      e.isDir)
  }

  /** The mount's own address without a slash is served as its root: from there
      no link leads to its entry.  From any other page it is the path below the
      mount that counts. */
  lemma MountedLinkLeadsToEntry(prefix: Option<Bytes>, raw: Bytes, e: DirEntryInfo, policy: Paths.PathPolicy)
    requires Mount.Normalized(prefix) && HasPrefix(raw, "/") && Paths.CutFree(raw) && ListedName(e.name)
    requires Mount.UnderMount(prefix, raw).Some? && Paths.Resolve(Mount.UnderMount(prefix, raw).value, policy).Ok?
    ensures IsOctets(e.name)
    ensures var page := Mount.UnderMount(prefix, raw).value;
            LeadsThroughMount(prefix, raw, e, policy) <==>
              && prefix != Some(raw)
              && AtDirectory(page) && Paths.Accepted(e.name, policy) && |Follow(page, Href(e))| <= policy.maxPathLen
  {
    ListedIsOctets(e.name);
    if prefix.None? {
      LinkLeadsToEntry(raw, e, policy);
    } else if prefix.value == raw {
      OutsideMount(raw, e, policy);
    } else {
      InsideMount(prefix.value, raw, e);
      LinkLeadsToEntry(Mount.UnderMount(prefix, raw).value, e, policy);
    }
    hide Paths.Resolve, Paths.Accepted, AtDirectory, Follow, Href, ListedName, Paths.CutFree;
  }

  lemma Stripped(prefix: Bytes, rest: Bytes)
    requires HasPrefix(rest, "/")
    ensures Mount.StripMountPrefix(prefix + rest, prefix) == Some(rest)
  {
    PrefixOfConcat(prefix, rest);
    assert (prefix + rest)[|prefix|..] == rest;
  }

  lemma UncutRest(prefix: Bytes, raw: Bytes)
    requires Paths.CutFree(raw) && Mount.StripMountPrefix(raw, prefix).Some? && raw != prefix
    ensures var page := Mount.StripMountPrefix(raw, prefix).value;
            raw == prefix + page && HasPrefix(page, "/") && Paths.CutFree(page)
  {
    var rest := raw[|prefix|..];
    assert raw == prefix + rest && rest != "";
    assert rest[0] == raw[|prefix|] && !Paths.CutChar(raw[|prefix|]);
    forall i | 0 <= i < |rest| ensures !Paths.CutChar(rest[i]) {
      assert rest[i] == raw[|prefix| + i];
    }
  }

  lemma {:induction false} FollowBelow(prefix: Bytes, page: Bytes, href: Bytes)
    requires HasPrefix(page, "/")
    ensures Follow(prefix + page, href) == prefix + Follow(page, href)
    ensures HasPrefix(Follow(page, href), "/")
  {
    assert page[0] == '/';
    if page[|page| - 1] == '/' {
      assert prefix + page + href == prefix + (page + href);
    } else {
      var front := page[..|page| - 1];
      assert (prefix + page)[..|prefix + page| - 1] == prefix + front;
      FollowBelow(prefix, front, href);
    }
  }

  lemma InsideMount(prefix: Bytes, raw: Bytes, e: DirEntryInfo)
    requires Paths.CutFree(raw) && Mount.StripMountPrefix(raw, prefix).Some? && raw != prefix && IsOctets(e.name)
    ensures var page := Mount.StripMountPrefix(raw, prefix).value;
            && HasPrefix(page, "/") && Paths.CutFree(page)
            && Mount.StripMountPrefix(Follow(raw, Href(e)), prefix) == Some(Follow(page, Href(e)))
  {
    UncutRest(prefix, raw);
    var page := Mount.StripMountPrefix(raw, prefix).value;
    hide Href, Paths.CutFree, Mount.StripMountPrefix, Follow;
    FollowBelow(prefix, page, Href(e));
    Stripped(prefix, Follow(page, Href(e)));
  }

  lemma OutsideMount(raw: Bytes, e: DirEntryInfo, policy: Paths.PathPolicy)
    requires Mount.Normalized(Some(raw)) && Paths.CutFree(raw) && ListedName(e.name) && IsOctets(e.name)
    requires Paths.Resolve(Mount.UnderMount(Some(raw), raw).value, policy).Ok?
    ensures !LeadsThroughMount(Some(raw), raw, e, policy)
  {
    hide Paths.PercentEncode, Paths.Resolve, Follow, ListedName;
    ListedIsOctets(e.name);
    var before, last := LastSlash(raw);
    FollowFrom(before, last, Href(e));
    EncodedPiece(e.name);
    var link := Follow(raw, Href(e));
    if Mount.StripMountPrefix(link, raw).Some? {
      OnlyTheMount(before, last, e);
      RootResolves(policy);
    }
  }

  lemma RootResolves(policy: Paths.PathPolicy)
    ensures Paths.Resolve("/", policy).Ok? ==> Paths.Resolve("/", policy).relative == ""
  {
    FindIs("", '/', 0);
    SplitConcat("", "", '/');
    assert "" + ['/'] + "" == "/";
    Paths.NothingToStrip("/");
    hide Paths.StripQueryAndFragment;
    assert Split("/", '/') == ["", ""];
    hide Split;
    assert ["", ""][..1] == [""] && [""][..0] == [];
    assert Paths.ResolveSegments([""], policy) == Paths.Kept([]);
  }

  /** A sibling's address is below the mount's only when it is the mount's. */
  lemma OnlyTheMount(before: Bytes, last: Bytes, e: DirEntryInfo)
    requires '/' !in last && IsOctets(e.name) && e.name != ""
    requires Mount.StripMountPrefix(before + "/" + Href(e), before + "/" + last).Some?
    ensures Mount.StripMountPrefix(before + "/" + Href(e), before + "/" + last) == Some("/")
  {
    EncodedPiece(e.name);
    hide Paths.PercentEncode;
    var link, prefix, p := before + "/" + Href(e), before + "/" + last, Paths.PercentEncode(e.name);
    var rest := link[|prefix|..];
    if rest != "" {
      var k := |last|;
      forall i | 0 <= i < |p| ensures Href(e)[i] != '/' {
        assert Href(e)[i] == p[i] && p[i] in p;
      }
      assert rest == Href(e)[k..];
      assert rest[0] == Href(e)[k];
      assert k >= |p|;
    }
  }

  /** The smallest failure: a dotfile is listed, with a link that is refused. */
  lemma DotfileIsListed(e: DirEntryInfo, policy: Paths.PathPolicy)
    requires e.name == ".git" && !policy.serveDotfiles && policy.maxPathLen >= 1
    ensures ListedName(e.name) && IsOctets(e.name) && !Paths.Accepted(e.name, policy)
    ensures Paths.Resolve("/", policy).Ok? ==> !LeadsToEntry("/", e, policy)
  {
    var name := ".git";
    assert name[1..] == "git" && "git"[1..] == "it" && "it"[1..] == "t" && "t"[1..] == "";
    assert Utf8.Valid("t") && Utf8.Valid("it") && Utf8.Valid("git") && Utf8.Valid(name);
    hide Utf8.Valid;
    if Paths.Resolve("/", policy).Ok? {
      LinkLeadsToEntry("/", e, policy);
    }
    hide Paths.Resolve, LeadsToEntry, AtDirectory;
  }
}

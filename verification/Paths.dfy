/** Request paths to root-relative paths
    (crates/envoy-files-core/src/path.rs), and the percent-encoder the
    directory listing writes links with
    (crates/envoy-files-core/src/listing.rs). */
module Paths {
  import opened Text
  import Utf8

  datatype PathPolicy = PathPolicy(serveDotfiles: bool, maxPathLen: nat)

  datatype RejectReason = BadEncoding | Traversal | Dotfile | TooLong | BadCharacter

  datatype ValidatedPath = Ok(relative: Bytes, trailingSlash: bool) | Reject(reason: RejectReason)

  // ------------------------------------------------------- percent-decoding

  function HexValue(c: char): nat
    requires DigitValue(c, 16).Some?
  {
    DigitValue(c, 16).value
  }

  /** A `%` and two hexadecimal digits at the front. */
  predicate EscapeAt(s: Bytes) {
    |s| >= 3 && s[0] == '%' && DigitValue(s[1], 16).Some? && DigitValue(s[2], 16).Some?
  }

  /** A malformed escape passes through literally. */
  function PercentDecode(s: Bytes): Bytes
    decreases |s|
  {
    if s == [] then []
    else if EscapeAt(s) then [(HexValue(s[1]) * 16 + HexValue(s[2])) as char] + PercentDecode(s[3..])
    else [s[0]] + PercentDecode(s[1..])
  }

  datatype Decoded = Text(segment: Bytes) | Bad(reason: RejectReason)

  function PercentDecodeSegment(segment: Bytes): Decoded {
    var decoded := PercentDecode(segment);
    if !Utf8.Valid(decoded) then Bad(BadEncoding)
    else if '/' in decoded then Bad(Traversal)
    else Text(decoded)
  }

  // --------------------------------------------------------- segment checks

  const RESERVED: seq<string> := [
    "CON", "PRN", "AUX", "NUL", "COM1", "COM2", "COM3", "COM4", "COM5", "COM6", "COM7", "COM8",
    "COM9", "LPT1", "LPT2", "LPT3", "LPT4", "LPT5", "LPT6", "LPT7", "LPT8", "LPT9"]

  predicate IsWindowsReservedName(segment: Bytes) {
    var basename := segment[..Find(segment, '.')];
    exists i :: 0 <= i < |RESERVED| && EqIgnoreCase(RESERVED[i], basename)
  }

  predicate BadChar(c: char) {
    c == '\\' || c == ':' || (c as int) < 0x20
  }

  function RejectReasonForSegment(segment: Bytes, policy: PathPolicy): Option<RejectReason> {
    if exists i :: 0 <= i < |segment| && BadChar(segment[i]) then Some(BadCharacter)
    else if segment != "" && segment[|segment| - 1] in {'.', ' '} then Some(BadCharacter)
    else if !policy.serveDotfiles && HasPrefix(segment, ".") then Some(Dotfile)
    else if IsWindowsReservedName(segment) then Some(BadCharacter)
    else None
  }

  // ------------------------------------------------------------- resolution

  predicate CutChar(c: char) {
    c == '?' || c == '#'
  }

  predicate CutFree(s: Bytes) {
    forall i :: 0 <= i < |s| ==> !CutChar(s[i])
  }

  function StripQueryAndFragment(raw: Bytes): (path: Bytes)
    ensures path <= raw
    ensures CutFree(path)
    ensures |path| < |raw| ==> CutChar(raw[|path|])
  {
    if raw == [] || CutChar(raw[0]) then []
    else [raw[0]] + StripQueryAndFragment(raw[1..])
  }

  datatype Segments = Kept(segments: seq<Bytes>) | Refused(reason: RejectReason)

  /** What the loop does with one piece of the path. */
  function AddSegment(kept: seq<Bytes>, piece: Bytes, policy: PathPolicy): Segments {
    if piece == "" then Kept(kept)
    else
      match PercentDecodeSegment(piece)
      case Bad(reason) => Refused(reason)
      case Text(decoded) =>
        if decoded == "." then Kept(kept)
        else if decoded == ".." then Refused(Traversal)
        else
          match RejectReasonForSegment(decoded, policy)
          case Some(reason) => Refused(reason)
          case None => Kept(kept + [decoded])
  }

  function ResolveSegments(pieces: seq<Bytes>, policy: PathPolicy): Segments {
    if pieces == [] then Kept([])
    else
      match ResolveSegments(pieces[..|pieces| - 1], policy)
      case Refused(reason) => Refused(reason)
      case Kept(kept) => AddSegment(kept, pieces[|pieces| - 1], policy)
  }

  function Resolve(raw: Bytes, policy: PathPolicy): ValidatedPath {
    if |raw| > policy.maxPathLen then Reject(TooLong)
    else
      var path := StripQueryAndFragment(raw);
      match ResolveSegments(Split(path, '/'), policy)
      case Refused(reason) => Reject(reason)
      case Kept(segments) => Ok(Join(segments, '/'), path != "" && path[|path| - 1] == '/')
  }

  /** `resolve_request_path`. */
  method ResolveRequestPath(raw: Bytes, policy: PathPolicy) returns (result: ValidatedPath)
    ensures result == Resolve(raw, policy)
  {
    hide PercentDecode, RejectReasonForSegment, Split;
    if |raw| > policy.maxPathLen {
      return Reject(TooLong);
    }
    var path := StripQueryAndFragment(raw);
    var trailingSlash := path != "" && path[|path| - 1] == '/';
    var resolved: seq<Bytes> := [];
    var pieces := Split(path, '/');
    for i := 0 to |pieces|
      invariant ResolveSegments(pieces[..i], policy) == Kept(resolved)
    {
      assert pieces[..i + 1][..i] == pieces[..i];
      if pieces[i] == "" {
        continue;
      }
      var decoded := PercentDecodeSegment(pieces[i]);
      if decoded.Bad? {
        StaysRefused(pieces, i + 1, policy);
        return Reject(decoded.reason);
      }
      if decoded.segment == "." {
        continue;
      }
      if decoded.segment == ".." {
        StaysRefused(pieces, i + 1, policy);
        return Reject(Traversal);
      }
      var reason := RejectReasonForSegment(decoded.segment, policy);
      if reason.Some? {
        StaysRefused(pieces, i + 1, policy);
        return Reject(reason.value);
      }
      resolved := resolved + [decoded.segment];
    }
    assert pieces[..|pieces|] == pieces;
    result := Ok(Join(resolved, '/'), trailingSlash);
  }

  lemma {:induction false} StaysRefused(pieces: seq<Bytes>, n: nat, policy: PathPolicy)
    requires n <= |pieces| && ResolveSegments(pieces[..n], policy).Refused?
    ensures ResolveSegments(pieces, policy) == ResolveSegments(pieces[..n], policy)
    decreases |pieces|
  {
    if n < |pieces| {
      assert pieces[..|pieces| - 1][..n] == pieces[..n];
      StaysRefused(pieces[..|pieces| - 1], n, policy);
    } else {
      assert pieces[..n] == pieces;
    }
  }

  // ------------------------------------------- nothing unsafe gets through

  /** A segment the server is willing to look up. */
  predicate Accepted(segment: Bytes, policy: PathPolicy) {
    && segment != "" && segment != "." && segment != ".."
    && '/' !in segment && Utf8.Valid(segment)
    && RejectReasonForSegment(segment, policy).None?
  }

  predicate AllAccepted(segments: seq<Bytes>, policy: PathPolicy) {
    forall s :: s in segments ==> Accepted(s, policy)
  }

  lemma {:induction false} KeptAreAccepted(pieces: seq<Bytes>, policy: PathPolicy)
    requires ResolveSegments(pieces, policy).Kept?
    ensures AllAccepted(ResolveSegments(pieces, policy).segments, policy)
  {
    if pieces != [] {
      KeptAreAccepted(pieces[..|pieces| - 1], policy);
      var piece := pieces[|pieces| - 1];
      if piece != "" {
        assert PercentDecode(piece) != [];
      }
    }
  }

  /** Splitting a resolved path on `/` gives only acceptable segments: no `..`,
      no smuggled separator, nothing the policy hides. */
  lemma ResolvedIsSafe(raw: Bytes, policy: PathPolicy)
    requires Resolve(raw, policy).Ok?
    ensures var relative := Resolve(raw, policy).relative;
            relative != "" ==> AllAccepted(Split(relative, '/'), policy)
  {
    var pieces := Split(StripQueryAndFragment(raw), '/');
    KeptAreAccepted(pieces, policy);
    var segments := ResolveSegments(pieces, policy).segments;
    if segments != [] {
      SplitJoin(segments, '/');
    }
  }

  // --------------------------------------------------------- the encoder

  predicate Unescaped(c: char) {
    'a' <= c <= 'z' || 'A' <= c <= 'Z' || '0' <= c <= '9' || c == '-' || c == '.' || c == '_' || c == '~'
  }

  function UpperHex(d: nat): char
    requires d < 16
  {
    Upper(DigitChar(d))
  }

  function EncodeOctet(c: char): Bytes
    requires (c as int) < 256
  {
    if Unescaped(c) then [c] else ['%', UpperHex(c as int / 16), UpperHex(c as int % 16)]
  }

  /** `percent_encode_path_segment`. */
  function PercentEncode(name: Bytes): Bytes
    requires IsOctets(name)
  {
    if name == [] then [] else EncodeOctet(name[0]) + PercentEncode(name[1..])
  }

  lemma EncodeOctetBack(c: char, rest: Bytes)
    requires (c as int) < 256
    ensures PercentDecode(EncodeOctet(c) + rest) == [c] + PercentDecode(rest)
    ensures forall x :: x in EncodeOctet(c) ==> Unescaped(x) || x == '%'
  {
    var s := EncodeOctet(c) + rest;
    if Unescaped(c) {
      assert s[1..] == rest;
    } else {
      assert EscapeAt(s) && s[3..] == rest;
      assert HexValue(UpperHex(c as int / 16)) == c as int / 16;
      assert HexValue(UpperHex(c as int % 16)) == c as int % 16;
    }
  }

  lemma {:induction false} EncodeBack(name: Bytes)
    requires IsOctets(name)
    ensures PercentDecode(PercentEncode(name)) == name
    ensures forall x :: x in PercentEncode(name) ==> Unescaped(x) || x == '%'
    ensures name != [] ==> PercentEncode(name) != []
  {
    if name != [] {
      EncodeBack(name[1..]);
      EncodeOctetBack(name[0], PercentEncode(name[1..]));
    }
  }

  function EncodeAll(segments: seq<Bytes>): seq<Bytes>
    requires forall s :: s in segments ==> IsOctets(s)
  {
    seq(|segments|, i requires 0 <= i < |segments| => assert segments[i] in segments; PercentEncode(segments[i]))
  }

  /** One more piece is one more step of the loop. */
  lemma AddedPiece(pieces: seq<Bytes>, p: Bytes, policy: PathPolicy)
    ensures var so, more := ResolveSegments(pieces, policy), ResolveSegments(pieces + [p], policy);
            if so.Kept? then more == AddSegment(so.segments, p, policy) else more == so
  {
    assert (pieces + [p])[..|pieces|] == pieces;
    hide AddSegment;
  }

  lemma {:induction false} ResolveEncoded(segments: seq<Bytes>, policy: PathPolicy)
    requires AllAccepted(segments, policy)
    requires forall s :: s in segments ==> IsOctets(s)
    ensures ResolveSegments([""] + EncodeAll(segments), policy) == Kept(segments)
  {
    var pieces := [""] + EncodeAll(segments);
    if segments == [] {
      assert pieces[..0] == [];
    } else {
      hide Accepted, PercentEncode, AddSegment, ResolveSegments;
      var front, last := segments[..|segments| - 1], segments[|segments| - 1];
      ResolveEncoded(front, policy);
      EncodeAllSnoc(front, last);
      assert segments == front + [last];
      hide EncodeAll;
      assert pieces == ([""] + EncodeAll(front)) + [PercentEncode(last)];
      assert last in segments;
      AddEncoded(front, last, policy);
      AddedPiece([""] + EncodeAll(front), PercentEncode(last), policy);
    }
  }

  lemma EncodeAllSnoc(front: seq<Bytes>, last: Bytes)
    requires forall s :: s in front + [last] ==> IsOctets(s)
    ensures last in front + [last] && forall s :: s in front ==> s in front + [last]
    ensures EncodeAll(front + [last]) == EncodeAll(front) + [PercentEncode(last)]
  {
    var all := front + [last];
    assert all[|front|] == last;
    forall s | s in front ensures s in all {}
    hide PercentEncode;
  }

  lemma AddEncoded(kept: seq<Bytes>, segment: Bytes, policy: PathPolicy)
    requires Accepted(segment, policy) && IsOctets(segment)
    ensures AddSegment(kept, PercentEncode(segment), policy) == Kept(kept + [segment])
  {
    EncodeBack(segment);
    hide RejectReasonForSegment, PercentEncode, PercentDecode;
  }

  lemma {:induction false} JoinChars(parts: seq<Bytes>, ok: char -> bool)
    requires forall p, c :: p in parts && c in p ==> ok(c)
    requires ok('/')
    ensures forall c :: c in Join(parts, '/') ==> ok(c)
  {
    if |parts| > 1 {
      JoinChars(parts[1..], ok);
    }
  }

  lemma {:induction false} JoinEnd(parts: seq<Bytes>)
    requires parts != [] && parts[|parts| - 1] != ""
    ensures Join(parts, '/') != ""
    ensures var last := parts[|parts| - 1]; Join(parts, '/')[|Join(parts, '/')| - 1] == last[|last| - 1]
  {
    if |parts| > 1 {
      JoinEnd(parts[1..]);
    }
  }

  lemma {:induction false} NothingToStrip(path: Bytes)
    requires CutFree(path)
    ensures StripQueryAndFragment(path) == path
  {
    if path != [] {
      NothingToStrip(path[1..]);
    }
  }

  /** A link the listing writes leads back to the entry it was written for:
      resolving the encoded segments gives exactly those segments. */
  lemma EncodedLinkResolves(segments: seq<Bytes>, policy: PathPolicy)
    requires segments != [] && AllAccepted(segments, policy)
    ensures forall s :: s in segments ==> IsOctets(s)
    ensures var link := "/" + Join(EncodeAll(segments), '/');
            |link| <= policy.maxPathLen ==> Resolve(link, policy) == Ok(Join(segments, '/'), false)
  {
    forall s | s in segments ensures IsOctets(s) {
      Utf8.ValidIsOctets(s);
    }
    var tail := Join(EncodeAll(segments), '/');
    var link := "/" + tail;
    EncodedText(segments);
    forall i | 0 <= i < |link| ensures !CutChar(link[i]) {
      assert i > 0 ==> link[i] == tail[i - 1];
    }
    NothingToStrip(link);
    EncodedPieces(segments);
    ResolveEncoded(segments, policy);
    hide PercentDecode, RejectReasonForSegment, StripQueryAndFragment, Split, EncodeAll;
    assert link[|link| - 1] == tail[|tail| - 1];
  }

  lemma EncodedPart(segments: seq<Bytes>, i: nat)
    requires forall s :: s in segments ==> IsOctets(s) && s != ""
    requires i < |segments|
    ensures var p := EncodeAll(segments)[i];
            p != "" && '/' !in p && forall c :: c in p ==> Unescaped(c) || c == '%'
  {
    assert segments[i] in segments;
    EncodeBack(segments[i]);
  }

  lemma EncodedText(segments: seq<Bytes>)
    requires segments != [] && forall s :: s in segments ==> IsOctets(s) && s != ""
    ensures var tail := Join(EncodeAll(segments), '/');
            tail != "" && tail[|tail| - 1] != '/' && CutFree(tail)
  {
    var encoded := EncodeAll(segments);
    var ok := (c: char) => Unescaped(c) || c == '%' || c == '/';
    forall p, c | p in encoded && c in p ensures ok(c) {
      var i :| 0 <= i < |encoded| && encoded[i] == p;
      EncodedPart(segments, i);
    }
    JoinChars(encoded, ok);
    EncodedPart(segments, |segments| - 1);
    var last := encoded[|encoded| - 1];
    assert last[|last| - 1] in last;
    JoinEnd(encoded);
    var tail := Join(encoded, '/');
    forall i | 0 <= i < |tail| ensures !CutChar(tail[i]) {
      assert ok(tail[i]);
    }
  }

  lemma EncodedPieces(segments: seq<Bytes>)
    requires segments != [] && forall s :: s in segments ==> IsOctets(s) && s != ""
    ensures Split("/" + Join(EncodeAll(segments), '/'), '/') == [""] + EncodeAll(segments)
  {
    var encoded := EncodeAll(segments);
    forall p | p in encoded ensures '/' !in p {
      var i :| 0 <= i < |encoded| && encoded[i] == p;
      EncodedPart(segments, i);
    }
    SplitConcat("", Join(encoded, '/'), '/');
    SplitJoin(encoded, '/');
    assert "" + ['/'] + Join(encoded, '/') == "/" + Join(encoded, '/');
  }
}

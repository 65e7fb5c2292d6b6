/** What the path resolver accepts and refuses, said of the octets of a path. */
module PathRules {
  import opened Text
  import opened Paths
  import Utf8

  // ---------------------------------------------------------------- one segment

  /** A device of Windows: CON, PRN, AUX, NUL, COM1 to COM9, LPT1 to LPT9, in
      letters of either case. */
  predicate IsDevice(name: Bytes) {
    || SameLetters(name, "CON") || SameLetters(name, "PRN") || SameLetters(name, "AUX") || SameLetters(name, "NUL")
    || (|name| == 4 && '1' <= name[3] <= '9' && (SameLetters(name[..3], "COM") || SameLetters(name[..3], "LPT")))
  }

  /** The segment is a device's name up to its first dot, or its end. */
  predicate NamesDevice(segment: Bytes) {
    exists k :: 0 <= k <= |segment| && '.' !in segment[..k] && (k < |segment| ==> segment[k] == '.')
                && IsDevice(segment[..k])
  }

  /** An octet that a file name may hold everywhere: no separator of any system,
      no colon, no control character. */
  predicate Plain(c: char) {
    c != '/' && c != '\\' && c != ':' && c as int >= 0x20
  }

  predicate AllPlain(segment: Bytes) {
    forall i :: 0 <= i < |segment| ==> Plain(segment[i])
  }

  /** A segment that is safe to look up on any system. */
  predicate Harmless(segment: Bytes, serveDotfiles: bool) {
    && segment != "" && AllPlain(segment)
    && segment[|segment| - 1] != '.' && segment[|segment| - 1] != ' '
    && (segment[0] == '.' ==> serveDotfiles)
    && !NamesDevice(segment)
  }

  lemma OneDigit(name: Bytes, prefix: Bytes, i: nat)
    requires |prefix| == 3 && 1 <= i <= 9
    ensures SameLetters(name, prefix + [DigitChar(i)]) <==>
              |name| == 4 && SameLetters(name[..3], prefix) && name[3] == DigitChar(i)
  {
    if |name| == 4 {
      assert forall j :: 0 <= j < 3 ==> (prefix + [DigitChar(i)])[j] == prefix[j] && name[..3][j] == name[j];
    }
  }

  /** The table, read off. */
  lemma TableIs(i: nat)
    requires i < |RESERVED|
    ensures RESERVED[i] == if i < 4 then ["CON", "PRN", "AUX", "NUL"][i]
                           else if i < 13 then "COM" + [DigitChar(i - 3)]
                           else "LPT" + [DigitChar(i - 12)]
    ensures |RESERVED| == 22
  {
    if 4 <= i < 13 {
      ComTable(i);
    } else if i >= 13 {
      LptTable(i);
    }
  }

  lemma ComTable(i: nat)
    requires 4 <= i < 13
    ensures RESERVED[i] == "COM" + [DigitChar(i - 3)]
  {
  }

  lemma LptTable(i: nat)
    requires 13 <= i < 22
    ensures RESERVED[i] == "LPT" + [DigitChar(i - 12)]
  {
  }

  lemma DeviceIsReserved(name: Bytes)
    ensures IsDevice(name) <==> exists i :: 0 <= i < |RESERVED| && EqIgnoreCase(RESERVED[i], name)
  {
    forall i | 0 <= i < |RESERVED| ensures EqIgnoreCase(RESERVED[i], name) <==> SameLetters(name, RESERVED[i]) {
      LettersAgree(name, RESERVED[i]);
      SameTurned(name, RESERVED[i]);
    }
    hide EqIgnoreCase, SameLetters;
    if i :| 0 <= i < |RESERVED| && EqIgnoreCase(RESERVED[i], name) {
      TableIs(i);
      if 4 <= i < 13 {
        OneDigit(name, "COM", i - 3);
      } else if i >= 13 {
        OneDigit(name, "LPT", i - 12);
      }
    }
    if IsDevice(name) {
      ReservedIsThere(name);
    }
  }

  lemma SameTurned(a: string, b: string)
    ensures EqIgnoreCase(a, b) <==> EqIgnoreCase(b, a)
  {
  }

  lemma ReservedIsThere(name: Bytes)
    requires IsDevice(name)
    ensures exists i :: 0 <= i < |RESERVED| && SameLetters(name, RESERVED[i])
  {
    hide SameLetters;
    TableIs(0);
    TableIs(1);
    TableIs(2);
    TableIs(3);
    if |name| == 4 && '1' <= name[3] <= '9' {
      var d := name[3] as int - '0' as int;
      assert name[3] == DigitChar(d);
      OneDigit(name, "COM", d);
      OneDigit(name, "LPT", d);
      TableIs(d + 3);
      TableIs(d + 12);
    }
  }

  lemma DeviceExactly(segment: Bytes)
    ensures IsWindowsReservedName(segment) <==> NamesDevice(segment)
  {
    var n := Find(segment, '.');
    DeviceIsReserved(segment[..n]);
    hide IsDevice, EqIgnoreCase;
    if k :| 0 <= k <= |segment| && '.' !in segment[..k] && (k < |segment| ==> segment[k] == '.')
            && IsDevice(segment[..k]) {
      forall i | 0 <= i < k ensures segment[i] != '.' {
        assert segment[..k][i] == segment[i];
      }
      FindIs(segment, '.', k);
    }
    forall i | 0 <= i < n ensures segment[..n][i] != '.' {}
  }

  /** Exactly the harmless segments of valid UTF-8 are accepted. */
  lemma AcceptedExactly(segment: Bytes, policy: PathPolicy)
    ensures Accepted(segment, policy) <==> Utf8.Valid(segment) && Harmless(segment, policy.serveDotfiles)
  {
    DeviceExactly(segment);
    hide IsWindowsReservedName, NamesDevice, Utf8.Valid;
    if segment != "" {
      assert HasPrefix(segment, ".") <==> segment[0] == '.';
    }
    assert (exists i :: 0 <= i < |segment| && BadChar(segment[i])) || '/' in segment <==> !AllPlain(segment);
  }

  // -------------------------------------------------------------- percent-decoding

  predicate NoPercent(s: Bytes) {
    forall i :: 0 <= i < |s| ==> s[i] != '%'
  }

  /** A hexadecimal digit, in either case. */
  predicate Spells(c: char, d: nat) {
    (d < 10 && c as int == '0' as int + d)
    || (10 <= d < 16 && (c as int == 'a' as int + d - 10 || c as int == 'A' as int + d - 10))
  }

  /** Octets that are no percent sign stand for themselves. */
  lemma {:induction false} DecodeKeeps(a: Bytes, rest: Bytes)
    requires NoPercent(a)
    ensures PercentDecode(a + rest) == a + PercentDecode(rest)
  {
    if a == [] {
      assert a + rest == rest;
    } else {
      assert (a + rest)[1..] == a[1..] + rest;
      DecodeKeeps(a[1..], rest);
    }
  }

  lemma SpellsDigit(c: char, d: nat)
    ensures DigitValue(c, 16) == Some(d) <==> Spells(c, d)
  {
  }

  /** An escape stands for its octet, whatever the case of its digits. */
  lemma EscapeDecodes(h: char, l: char, x: nat, y: nat, rest: Bytes)
    requires Spells(h, x) && Spells(l, y)
    ensures PercentDecode(['%', h, l] + rest) == [(x * 16 + y) as char] + PercentDecode(rest)
  {
    SpellsDigit(h, x);
    SpellsDigit(l, y);
    hide Spells, DigitValue;
    assert (['%', h, l] + rest)[3..] == rest;
  }

  predicate IsDigit(c: char) {
    exists x :: 0 <= x < 16 && Spells(c, x)
  }

  lemma DigitExactly(c: char)
    ensures DigitValue(c, 16).Some? <==> IsDigit(c)
  {
    if DigitValue(c, 16).Some? {
      SpellsDigit(c, DigitValue(c, 16).value);
    }
  }

  /** A percent sign without two digits stands for itself. */
  lemma LonePercent(rest: Bytes)
    requires |rest| >= 2 ==> !IsDigit(rest[0]) || !IsDigit(rest[1])
    ensures PercentDecode("%" + rest) == "%" + PercentDecode(rest)
  {
    if |rest| >= 2 {
      DigitExactly(rest[0]);
      DigitExactly(rest[1]);
    }
    hide IsDigit, DigitValue;
    assert ("%" + rest)[1..] == rest;
  }

  // ------------------------------------------------------------------ whole paths

  /** A piece between slashes that is passed over, or kept. */
  predicate Fine(piece: Bytes, policy: PathPolicy) {
    var d := PercentDecode(piece);
    piece == "" || d == "." || (Utf8.Valid(d) && Harmless(d, policy.serveDotfiles))
  }

  /** The names that are kept, in order. */
  function NamesOf(pieces: seq<Bytes>): seq<Bytes> {
    if pieces == [] then []
    else
      var before, last := NamesOf(pieces[..|pieces| - 1]), pieces[|pieces| - 1];
      if last == "" || PercentDecode(last) == "." then before else before + [PercentDecode(last)]
  }

  /** Why a piece that is not fine is refused. */
  function WhyRefused(piece: Bytes, policy: PathPolicy): RejectReason {
    var d := PercentDecode(piece);
    if !Utf8.Valid(d) then BadEncoding
    else if '/' in d || d == ".." then Traversal
    else if !AllPlain(d) || (d != "" && d[|d| - 1] in {'.', ' '}) then BadCharacter
    else if d != "" && d[0] == '.' && !policy.serveDotfiles then Dotfile
    else BadCharacter
  }

  lemma DotIsValid()
    ensures Utf8.Valid(".") && Utf8.Valid("..")
  {
    assert "."[1..] == "" && ".."[1..] == ".";
  }

  lemma DecodeNonempty(piece: Bytes)
    ensures piece != "" ==> PercentDecode(piece) != ""
  {
  }

  lemma PieceExactly(kept: seq<Bytes>, piece: Bytes, policy: PathPolicy)
    ensures AddSegment(kept, piece, policy) ==
            if !Fine(piece, policy) then Refused(WhyRefused(piece, policy))
            else if piece == "" || PercentDecode(piece) == "." then Kept(kept)
            else Kept(kept + [PercentDecode(piece)])
  {
    var d := PercentDecode(piece);
    DotIsValid();
    DecodeNonempty(piece);
    AcceptedExactly(d, policy);
    DeviceExactly(d);
    hide PercentDecode, IsWindowsReservedName, NamesDevice, Utf8.Valid;
    if d != "" {
      assert HasPrefix(d, ".") <==> d[0] == '.';
    }
    assert (exists i :: 0 <= i < |d| && BadChar(d[i])) || '/' in d <==> !AllPlain(d);
  }

  lemma {:induction false} SegmentsExactly(pieces: seq<Bytes>, policy: PathPolicy)
    ensures ResolveSegments(pieces, policy).Kept? <==> forall i :: 0 <= i < |pieces| ==> Fine(pieces[i], policy)
    ensures ResolveSegments(pieces, policy).Kept? ==>
              ResolveSegments(pieces, policy).segments == NamesOf(pieces)
    ensures forall k :: 0 <= k < |pieces| && FirstBad(pieces, k, policy) ==>
              ResolveSegments(pieces, policy) == Refused(WhyRefused(pieces[k], policy))
  {
    hide PercentDecode, Fine, WhyRefused, AddSegment;
    if pieces != [] {
      var front, last := pieces[..|pieces| - 1], pieces[|pieces| - 1];
      SegmentsExactly(front, policy);
      assert forall i :: 0 <= i < |front| ==> pieces[i] == front[i];
      if ResolveSegments(front, policy).Kept? {
        PieceExactly(ResolveSegments(front, policy).segments, last, policy);
      }
      forall k | 0 <= k < |front| && FirstBad(pieces, k, policy) ensures FirstBad(front, k, policy) {
        assert pieces[k] == front[k];
      }
    }
  }

  /** Piece `k` is the first that is not fine. */
  predicate FirstBad(pieces: seq<Bytes>, k: nat, policy: PathPolicy) {
    k < |pieces| && !Fine(pieces[k], policy) && forall i :: 0 <= i < k ==> Fine(pieces[i], policy)
  }

  /** The pieces of a path, without its query and fragment. */
  function PiecesOf(raw: Bytes): seq<Bytes> {
    Split(StripQueryAndFragment(raw), '/')
  }

  /** Exactly which paths resolve, and to what: those within the length limit all
      of whose pieces are fine, to the decoded names, empty pieces and dots left
      out. */
  lemma ResolvesExactly(raw: Bytes, policy: PathPolicy)
    ensures Resolve(raw, policy).Ok? <==>
              |raw| <= policy.maxPathLen && forall i :: 0 <= i < |PiecesOf(raw)| ==> Fine(PiecesOf(raw)[i], policy)
    ensures Resolve(raw, policy).Ok? ==>
              var path := StripQueryAndFragment(raw);
              Resolve(raw, policy) ==
              Ok(Join(NamesOf(PiecesOf(raw)), '/'), path != "" && path[|path| - 1] == '/')
  {
    SegmentsExactly(PiecesOf(raw), policy);
    hide Fine, ResolveSegments, StripQueryAndFragment, Split, NamesOf;
  }

  /** ... and why a path is refused: its length, else its first bad piece. */
  lemma RefusedExactly(raw: Bytes, policy: PathPolicy, k: nat)
    requires |raw| <= policy.maxPathLen ==> FirstBad(PiecesOf(raw), k, policy)
    ensures Resolve(raw, policy) ==
            Reject(if |raw| > policy.maxPathLen then TooLong else WhyRefused(PiecesOf(raw)[k], policy))
  {
    SegmentsExactly(PiecesOf(raw), policy);
    hide Fine, WhyRefused, ResolveSegments, StripQueryAndFragment, Split;
  }

  /** Every name of a resolved path is harmless, and none is lost: splitting the
      path gives the kept names back. */
  lemma ResolvedIsHarmless(raw: Bytes, policy: PathPolicy)
    requires Resolve(raw, policy).Ok? && Resolve(raw, policy).relative != ""
    ensures var names := Split(Resolve(raw, policy).relative, '/');
            && names == NamesOf(PiecesOf(raw))
            && forall i :: 0 <= i < |names| ==> Utf8.Valid(names[i]) && Harmless(names[i], policy.serveDotfiles)
  {
    ResolvesExactly(raw, policy);
    ResolvedIsSafe(raw, policy);
    var names := NamesOf(PiecesOf(raw));
    NamesHarmless(PiecesOf(raw), policy);
    if names != [] {
      SplitJoin(names, '/');
    }
    hide Resolve, Split, Harmless, Utf8.Valid, Fine;
  }

  lemma {:induction false} NamesHarmless(pieces: seq<Bytes>, policy: PathPolicy)
    requires forall i :: 0 <= i < |pieces| ==> Fine(pieces[i], policy)
    ensures forall n :: n in NamesOf(pieces) ==>
              '/' !in n && Utf8.Valid(n) && Harmless(n, policy.serveDotfiles)
  {
    if pieces != [] {
      var front, last := pieces[..|pieces| - 1], pieces[|pieces| - 1];
      assert Fine(last, policy);
      HarmlessPlain(PercentDecode(last), policy);
      hide PercentDecode, Harmless, Utf8.Valid;
      assert forall i :: 0 <= i < |front| ==> pieces[i] == front[i];
      NamesHarmless(front, policy);
    }
  }

  lemma HarmlessPlain(name: Bytes, policy: PathPolicy)
    ensures Harmless(name, policy.serveDotfiles) ==> '/' !in name
  {
  }

  // ---------------------------------------------------------------------- escaping

  /** Letters, digits and `-._~` stand for themselves in a link; any other octet
      is its two digits after a percent sign. */
  lemma EncodesExactly(c: char, rest: Bytes)
    requires c as int < 256 && IsOctets([c] + rest)
    ensures IsOctets(rest)
    ensures PercentEncode([c] + rest) ==
            (if 'a' <= c <= 'z' || 'A' <= c <= 'Z' || '0' <= c <= '9' || c in "-._~" then [c]
             else ['%', "0123456789ABCDEF"[c as int / 16], "0123456789ABCDEF"[c as int % 16]])
            + PercentEncode(rest)
  {
    assert ([c] + rest)[1..] == rest && ([c] + rest)[0] == c;
    forall i | 0 <= i < |rest| ensures rest[i] as int < 256 {
      assert ([c] + rest)[i + 1] == rest[i];
    }
    HexLetters(c as int / 16);
    HexLetters(c as int % 16);
    hide UpperHex;
  }

  lemma HexLetters(d: nat)
    requires d < 16
    ensures UpperHex(d) == "0123456789ABCDEF"[d]
  {
  }
}

/** Planning of a `Range` request (crates/envoy-files-core/src/range.rs). */
module Ranges {
  import opened Text

  /** An inclusive byte range. */
  datatype ByteRange = ByteRange(start: U64, end: U64)

  datatype RangeOutcome = Full | Single(range: ByteRange) | Multi(ranges: seq<ByteRange>) | Unsatisfiable

  datatype RangePolicy = RangePolicy(allowMulti: bool, maxParts: nat)

  datatype SpecResult = NoBytes | Bytes(range: ByteRange)

  // ---------------------------------------------------------- one range-spec

  /** `str::parse::<u64>` on digits: fails only when the number is too large. */
  function ParseU64(digits: string): Option<U64>
    requires IsNumeral(digits, 10)
  {
    var v := Value(digits, 10);
    if v < TWO64 then Some(v) else None
  }

  function ParseOneSpec(spec: string, total: U64): Option<SpecResult> {
    if HasPrefix(spec, "-") then ParseSuffixSpec(spec[1..], total)
    else
      var k := Find(spec, '-');
      if k == |spec| then None
      else
        var firstDigits, lastDigits := spec[..k], spec[k + 1..];
        if !IsNumeral(firstDigits, 10) || ParseU64(firstDigits).None? then None
        else
          var first := ParseU64(firstDigits).value;
          if lastDigits == "" then Some(OpenEndedSpec(first, total))
          else if !IsNumeral(lastDigits, 10) || ParseU64(lastDigits).None? then None
          else
            var last := ParseU64(lastDigits).value;
            if last < first then Some(NoBytes)
            else if total == 0 || first >= total then Some(NoBytes)
            else Some(Bytes(ByteRange(first, if last < total - 1 then last else total - 1)))
  }

  function ParseSuffixSpec(digits: string, total: U64): Option<SpecResult> {
    if !IsNumeral(digits, 10) || ParseU64(digits).None? then None
    else
      var n := ParseU64(digits).value;
      if n == 0 || total == 0 then Some(NoBytes)
      else if n >= total then Some(Bytes(ByteRange(0, total - 1)))
      else Some(Bytes(ByteRange(total - n, total - 1)))
  }

  function OpenEndedSpec(first: U64, total: U64): SpecResult {
    if total == 0 || first >= total then NoBytes else Bytes(ByteRange(first, total - 1))
  }

  // ------------------------------------- the meaning section 14.1.2 gives it

  /** An int-range or a suffix-range of section 14.1.1 of RFC 9110. */
  datatype RangeSpec = FromTo(first: nat, last: Option<nat>) | LastBytes(count: nat)

  /** Whether the spec asks for byte position `pos` of a `total`-byte file. */
  predicate Selects(spec: RangeSpec, pos: nat, total: nat) {
    pos < total &&
    match spec
    case FromTo(first, None) => first <= pos
    case FromTo(first, Some(last)) => first <= pos <= last
    case LastBytes(count) => total <= pos + count
  }

  /** The text is written in the grammar of section 14.1.1 and means `spec`;
      leading zeros are allowed, so one spec has many spellings. */
  predicate Spells(text: string, spec: RangeSpec) {
    match spec
    case LastBytes(count) =>
      HasPrefix(text, "-") && IsNumeral(text[1..], 10) && Value(text[1..], 10) == count
    case FromTo(first, last) =>
      var k := Find(text, '-');
      && k < |text|
      && IsNumeral(text[..k], 10) && Value(text[..k], 10) == first
      && if last.None? then text[k + 1..] == ""
         else IsNumeral(text[k + 1..], 10) && Value(text[k + 1..], 10) == last.value
  }

  /** The server reads positions as u64. */
  predicate Fits(spec: RangeSpec) {
    match spec
    case LastBytes(count) => count < TWO64
    case FromTo(first, last) => first < TWO64 && (last.Some? ==> last.value < TWO64)
  }

  predicate InBounds(r: ByteRange, total: nat) {
    r.start <= r.end < total
  }

  predicate Holds(r: ByteRange, pos: nat) {
    r.start <= pos <= r.end
  }

  predicate Picks(result: SpecResult, pos: nat) {
    result.Bytes? && Holds(result.range, pos)
  }

  /** Every spelling of every spec is parsed to exactly the positions that
      section 14.1.2 of RFC 9110 gives it, and refused only for a number that
      does not fit in a u64. */
  lemma SpecMeaning(text: string, spec: RangeSpec, total: U64)
    requires Spells(text, spec)
    ensures ParseOneSpec(text, total).Some? <==> Fits(spec)
    ensures Fits(spec) ==> forall pos: nat :: Picks(ParseOneSpec(text, total).value, pos) <==> Selects(spec, pos, total)
    ensures Fits(spec) && ParseOneSpec(text, total).value.Bytes? ==>
              InBounds(ParseOneSpec(text, total).value.range, total)
  {
  }

  /** ... and nothing outside the grammar is accepted. */
  lemma SpecGrammar(text: string, total: U64) returns (spec: RangeSpec)
    requires ParseOneSpec(text, total).Some?
    ensures Spells(text, spec) && Fits(spec)
  {
    var k := Find(text, '-');
    if HasPrefix(text, "-") {
      spec := LastBytes(Value(text[1..], 10));
    } else if text[k + 1..] == "" {
      spec := FromTo(Value(text[..k], 10), None);
    } else {
      spec := FromTo(Value(text[..k], 10), Some(Value(text[k + 1..], 10)));
    }
  }

  // ------------------------------------------------------- the whole header

  datatype Collected = Collected(ranges: seq<ByteRange>, sawAnySpec: bool)

  /** The comma-separated pieces, read from the left; `None` when one of them
      is not a range-spec. */
  function Collect(pieces: seq<string>, total: U64): Option<Collected> {
    if pieces == [] then Some(Collected([], false))
    else
      var before := Collect(pieces[..|pieces| - 1], total);
      var piece := Trim(pieces[|pieces| - 1]);
      if before.None? || piece == "" then before
      else
        match ParseOneSpec(piece, total)
        case None => None
        case Some(NoBytes) => Some(Collected(before.value.ranges, true))
        case Some(Bytes(r)) => Some(Collected(before.value.ranges + [r], true))
  }

  predicate IsAscendingNonOverlapping(ranges: seq<ByteRange>) {
    forall i {:trigger ranges[i]} :: 0 < i < |ranges| ==> ranges[i].start > ranges[i - 1].end
  }

  function Decide(c: Collected, policy: RangePolicy): RangeOutcome {
    if !c.sawAnySpec then Full
    else if |c.ranges| == 0 then Unsatisfiable
    else if |c.ranges| == 1 then Single(c.ranges[0])
    else if !policy.allowMulti || |c.ranges| > policy.maxParts then Full
    else if !IsAscendingNonOverlapping(c.ranges) then Full
    else Multi(c.ranges)
  }

  function Plan(header: string, total: U64, policy: RangePolicy): RangeOutcome {
    if !HasPrefix(header, "bytes=") then Full
    else
      match Collect(Split(header[6..], ','), total)
      case None => Full
      case Some(c) => Decide(c, policy)
  }

  /** `plan_ranges`: the loop over the pieces, with its early return. */
  method PlanRanges(header: string, total: U64, policy: RangePolicy) returns (outcome: RangeOutcome)
    ensures outcome == Plan(header, total, policy)
  {
    if !HasPrefix(header, "bytes=") {
      return Full;
    }
    var pieces := Split(header[6..], ',');
    var validRanges: seq<ByteRange> := [];
    var sawAnySpec := false;
    for i := 0 to |pieces|
      invariant Collect(pieces[..i], total) == Some(Collected(validRanges, sawAnySpec))
    {
      assert pieces[..i + 1][..i] == pieces[..i];
      var trimmed := Trim(pieces[i]);
      if trimmed == "" {
        continue;
      }
      sawAnySpec := true;
      match ParseOneSpec(trimmed, total) {
        case None =>
          CollectRefuses(pieces, i + 1, total);
          return Full;
        case Some(NoBytes) =>
        case Some(Bytes(range)) => validRanges := validRanges + [range];
      }
    }
    assert pieces[..|pieces|] == pieces;
    if !sawAnySpec {
      return Full;
    }
    if |validRanges| == 0 {
      return Unsatisfiable;
    }
    if |validRanges| == 1 {
      return Single(validRanges[0]);
    }
    if !policy.allowMulti || |validRanges| > policy.maxParts {
      return Full;
    }
    if !IsAscendingNonOverlapping(validRanges) {
      return Full;
    }
    return Multi(validRanges);
  }

  lemma {:induction false} CollectRefuses(pieces: seq<string>, n: nat, total: U64)
    requires n <= |pieces| && Collect(pieces[..n], total).None?
    ensures Collect(pieces, total).None?
    decreases |pieces|
  {
    if n < |pieces| {
      assert pieces[..|pieces| - 1][..n] == pieces[..n];
      CollectRefuses(pieces[..|pieces| - 1], n, total);
    } else {
      assert pieces[..n] == pieces;
    }
  }

  // ------------------------------------------------------------- soundness

  predicate Ascending(ranges: seq<ByteRange>) {
    forall i, j :: 0 <= i < j < |ranges| ==> ranges[i].end < ranges[j].start
  }

  function TotalLength(ranges: seq<ByteRange>): int {
    if ranges == [] then 0
    else TotalLength(ranges[..|ranges| - 1]) + (ranges[|ranges| - 1].end - ranges[|ranges| - 1].start + 1)
  }

  lemma {:induction false} CollectInBounds(pieces: seq<string>, total: U64)
    requires Collect(pieces, total).Some?
    ensures forall r :: r in Collect(pieces, total).value.ranges ==> InBounds(r, total)
  {
    if pieces != [] {
      CollectInBounds(pieces[..|pieces| - 1], total);
      var piece := Trim(pieces[|pieces| - 1]);
      if piece != "" {
        var spec := SpecGrammar(piece, total);
        SpecMeaning(piece, spec, total);
      }
    }
  }

  lemma {:induction false} AdjacentIsAscending(ranges: seq<ByteRange>, total: nat)
    requires IsAscendingNonOverlapping(ranges)
    requires forall r :: r in ranges ==> InBounds(r, total)
    ensures Ascending(ranges)
  {
    if ranges != [] {
      var front := ranges[..|ranges| - 1];
      AdjacentIsAscending(front, total);
      forall i, j | 0 <= i < j < |ranges| ensures ranges[i].end < ranges[j].start {
        if j == |front| && i < j - 1 {
          assert front[i].end < front[j - 1].start;
          assert InBounds(ranges[j - 1], total);
        } else if j < |front| {
          assert front[i].end < front[j].start;
        }
      }
    }
  }

  lemma {:induction false} DisjointFits(ranges: seq<ByteRange>, total: nat)
    requires Ascending(ranges)
    requires forall r :: r in ranges ==> InBounds(r, total)
    ensures 0 <= TotalLength(ranges) <= total
    ensures ranges != [] ==> TotalLength(ranges) <= ranges[|ranges| - 1].end + 1
  {
    if ranges != [] {
      var front := ranges[..|ranges| - 1];
      DisjointFits(front, total);
      assert InBounds(ranges[|front|], total);
    }
  }

  /** Whatever the header says, a planned range lies inside the file, a planned
      list has 2 to `maxParts` ascending disjoint ranges, and together they ask
      for no more bytes than the file has; the u64 arithmetic never wraps. */
  lemma PlanIsSound(header: string, total: U64, policy: RangePolicy)
    ensures match Plan(header, total, policy)
            case Single(r) => InBounds(r, total)
            case Multi(rs) =>
              && policy.allowMulti && 2 <= |rs| <= policy.maxParts
              && (forall r :: r in rs ==> InBounds(r, total))
              && Ascending(rs)
              && 0 <= TotalLength(rs) <= total
            case Full => true
            case Unsatisfiable => HasPrefix(header, "bytes=")
  {
    if HasPrefix(header, "bytes=") {
      var pieces := Split(header[6..], ',');
      if Collect(pieces, total).Some? {
        CollectInBounds(pieces, total);
        var ranges := Collect(pieces, total).value.ranges;
        if Plan(header, total, policy).Multi? {
          AdjacentIsAscending(ranges, total);
          DisjointFits(ranges, total);
        }
      }
    }
  }

  // ------------------------------------- what is served is what was asked for

  function Print(spec: RangeSpec): string {
    match spec
    case FromTo(first, None) => Render(first, 10) + "-"
    case FromTo(first, Some(last)) => Render(first, 10) + "-" + Render(last, 10)
    case LastBytes(count) => "-" + Render(count, 10)
  }

  function PrintAll(specs: seq<RangeSpec>): seq<string> {
    seq(|specs|, i requires 0 <= i < |specs| => Print(specs[i]))
  }

  function PrintHeader(specs: seq<RangeSpec>): string {
    "bytes=" + Join(PrintAll(specs), ',')
  }

  lemma PrintSpells(spec: RangeSpec)
    ensures Spells(Print(spec), spec)
  {
    match spec {
      case LastBytes(count) =>
        RenderValue(count, 10);
        PrefixOfConcat("-", Render(count, 10));
      case FromTo(first, None) =>
        PrintFirst(first, "");
        assert Print(spec) == Render(first, 10) + ("-" + "");
      case FromTo(first, Some(last)) =>
        RenderValue(last, 10);
        PrintFirst(first, Render(last, 10));
        assert Print(spec) == Render(first, 10) + ("-" + Render(last, 10));
    }
  }

  lemma PrintFirst(first: nat, rest: string)
    ensures var text := Render(first, 10) + ("-" + rest);
            var k := Find(text, '-');
            k < |text| && text[..k] == Render(first, 10) && text[k + 1..] == rest
            && Value(text[..k], 10) == first
  {
    var f := Render(first, 10);
    RenderValue(first, 10);
    var text := f + ("-" + rest);
    forall i | 0 <= i < |f| ensures text[i] != '-' {
      DigitsOnly(f, i);
    }
    FindIs(text, '-', |f|);
    assert text[..|f|] == f && text[|f| + 1..] == rest;
  }

  /** A printed spec has no comma and no blank around it. */
  lemma PrintIsOnePiece(spec: RangeSpec)
    ensures Trim(Print(spec)) == Print(spec) != ""
    ensures ',' !in Print(spec)
  {
    var text := Print(spec);
    assert text != "";
    forall i | 0 <= i < |text| ensures '0' <= text[i] <= '9' || text[i] == '-' || 'a' <= text[i] <= 'f' {
      PrintChars(spec, i);
    }
  }

  lemma PrintChars(spec: RangeSpec, i: nat)
    requires i < |Print(spec)|
    ensures var c := Print(spec)[i]; '0' <= c <= '9' || c == '-' || 'a' <= c <= 'f'
  {
    var c := Print(spec)[i];
    match spec {
      case LastBytes(count) =>
        assert c == '-' || c in Render(count, 10);
      case FromTo(first, None) =>
        assert c == '-' || c in Render(first, 10);
      case FromTo(first, Some(last)) =>
        assert c == '-' || c in Render(first, 10) || c in Render(last, 10);
    }
  }

  /** The pieces of a printed header are the printed specs. */
  lemma HeaderPieces(specs: seq<RangeSpec>)
    requires specs != []
    ensures HasPrefix(PrintHeader(specs), "bytes=")
    ensures Split(PrintHeader(specs)[6..], ',') == PrintAll(specs)
  {
    var pieces := PrintAll(specs);
    forall p | p in pieces ensures ',' !in p {
      var i :| 0 <= i < |pieces| && pieces[i] == p;
      PrintIsOnePiece(specs[i]);
    }
    SplitJoin(pieces, ',');
    PrefixOfConcat("bytes=", Join(pieces, ','));
  }

  predicate Served(ranges: seq<ByteRange>, pos: nat) {
    exists r :: r in ranges && Holds(r, pos)
  }

  predicate Asked(specs: seq<RangeSpec>, pos: nat, total: nat) {
    exists i :: 0 <= i < |specs| && Selects(specs[i], pos, total)
  }

  /** One more printed spec adds what that spec parses to. */
  lemma CollectPrinted(specs: seq<RangeSpec>, total: U64)
    requires specs != [] && Fits(specs[|specs| - 1])
    requires Collect(PrintAll(specs[..|specs| - 1]), total).Some?
    ensures ParseOneSpec(Print(specs[|specs| - 1]), total).Some?
    ensures var result := ParseOneSpec(Print(specs[|specs| - 1]), total).value;
            var was := Collect(PrintAll(specs[..|specs| - 1]), total).value.ranges;
            Collect(PrintAll(specs), total)
              == Some(Collected(if result.Bytes? then was + [result.range] else was, true))
  {
    var front, last := specs[..|specs| - 1], specs[|specs| - 1];
    assert PrintAll(specs)[..|specs| - 1] == PrintAll(front);
    PrintSpells(last);
    PrintIsOnePiece(last);
    SpecMeaning(Print(last), last, total);
  }

  lemma ServedMore(ranges: seq<ByteRange>, result: SpecResult, pos: nat)
    ensures Served(if result.Bytes? then ranges + [result.range] else ranges, pos) <==>
              Served(ranges, pos) || Picks(result, pos)
  {
    if result.Bytes? {
      var more := ranges + [result.range];
      assert result.range in more;
      forall r | r in ranges ensures r in more {}
    }
  }

  lemma AskedMore(specs: seq<RangeSpec>, pos: nat, total: nat)
    requires specs != []
    ensures Asked(specs, pos, total) <==>
              Asked(specs[..|specs| - 1], pos, total) || Selects(specs[|specs| - 1], pos, total)
  {
    var front := specs[..|specs| - 1];
    if Asked(front, pos, total) {
      var i :| 0 <= i < |front| && Selects(front[i], pos, total);
      assert Selects(specs[i], pos, total);
    }
    if Asked(specs, pos, total) {
      var i :| 0 <= i < |specs| && Selects(specs[i], pos, total);
      if i < |front| { assert Selects(front[i], pos, total); }
    }
  }

  lemma {:induction false} CollectServes(specs: seq<RangeSpec>, total: U64)
    requires forall i :: 0 <= i < |specs| ==> Fits(specs[i])
    ensures Collect(PrintAll(specs), total).Some?
    ensures Collect(PrintAll(specs), total).value.sawAnySpec == (specs != [])
    ensures forall pos: nat :: Served(Collect(PrintAll(specs), total).value.ranges, pos) <==> Asked(specs, pos, total)
  {
    if specs != [] {
      var front, last := specs[..|specs| - 1], specs[|specs| - 1];
      CollectServes(front, total);
      CollectPrinted(specs, total);
      var result := ParseOneSpec(Print(last), total).value;
      var was := Collect(PrintAll(front), total).value.ranges;
      forall pos: nat ensures Served(Collect(PrintAll(specs), total).value.ranges, pos) <==> Asked(specs, pos, total) {
        AskedMore(specs, pos, total);
        ServedMore(was, result, pos);
        PrintSpells(last);
        SpecMeaning(Print(last), last, total);
        assert Picks(result, pos) <==> Selects(last, pos, total);
      }
    }
  }

  function Planned(outcome: RangeOutcome): seq<ByteRange> {
    match outcome
    case Single(r) => [r]
    case Multi(rs) => rs
    case _ => []
  }

  /** For every list of range-specs: unless the server falls back to the whole
      file, the byte positions it plans are exactly those requested, and 416 is
      answered exactly when no requested position exists. */
  lemma PlanServesRequest(specs: seq<RangeSpec>, total: U64, policy: RangePolicy)
    requires specs != []
    requires forall i :: 0 <= i < |specs| ==> Fits(specs[i])
    ensures var outcome := Plan(PrintHeader(specs), total, policy);
            && (outcome.Unsatisfiable? <==> forall pos: nat :: !Asked(specs, pos, total))
            && (!outcome.Full? ==> forall pos: nat :: Served(Planned(outcome), pos) <==> Asked(specs, pos, total))
  {
    HeaderPieces(specs);
    CollectServes(specs, total);
    CollectInBounds(PrintAll(specs), total);
    DecideServes(Collect(PrintAll(specs), total).value, specs, total, policy);
  }

  lemma DecideServes(c: Collected, specs: seq<RangeSpec>, total: nat, policy: RangePolicy)
    requires c.sawAnySpec
    requires forall r :: r in c.ranges ==> InBounds(r, total)
    requires forall pos: nat :: Served(c.ranges, pos) <==> Asked(specs, pos, total)
    ensures Decide(c, policy).Unsatisfiable? <==> forall pos: nat :: !Asked(specs, pos, total)
    ensures !Decide(c, policy).Full? ==> Planned(Decide(c, policy)) == c.ranges
  {
    if c.ranges != [] {
      assert InBounds(c.ranges[0], total);
      assert Served(c.ranges, c.ranges[0].start);
    }
  }

  function AsSpecs(ranges: seq<ByteRange>): seq<RangeSpec> {
    seq(|ranges|, i requires 0 <= i < |ranges| => FromTo(ranges[i].start, Some(ranges[i].end)))
  }

  lemma {:induction false} CollectRoundTrip(ranges: seq<ByteRange>, total: U64)
    requires forall r :: r in ranges ==> InBounds(r, total)
    ensures Collect(PrintAll(AsSpecs(ranges)), total) == Some(Collected(ranges, ranges != []))
  {
    hide ParseOneSpec, Print, Trim;
    if ranges != [] {
      var n := |ranges| - 1;
      var front, last := ranges[..n], ranges[n];
      var specs := AsSpecs(ranges);
      CollectRoundTrip(front, total);
      assert specs[..n] == AsSpecs(front);
      InBoundsRoundTrip(last, total);
      assert specs[n] == FromTo(last.start, Some(last.end));
      CollectOneMore(specs, last, total);
      assert ranges == front + [last];
    }
  }

  lemma CollectOneMore(specs: seq<RangeSpec>, r: ByteRange, total: U64)
    requires specs != [] && specs[|specs| - 1] == FromTo(r.start, Some(r.end)) && InBounds(r, total)
    requires Collect(PrintAll(specs[..|specs| - 1]), total).Some?
    ensures Collect(PrintAll(specs), total)
            == Some(Collected(Collect(PrintAll(specs[..|specs| - 1]), total).value.ranges + [r], true))
  {
    InBoundsRoundTrip(r, total);
    CollectPrinted(specs, total);
  }

  lemma InBoundsRoundTrip(r: ByteRange, total: U64)
    requires InBounds(r, total)
    ensures ParseOneSpec(Print(FromTo(r.start, Some(r.end))), total) == Some(Bytes(r))
  {
    var spec := FromTo(r.start, Some(r.end));
    PrintSpells(spec);
    SpecMeaning(Print(spec), spec, total);
    var result := ParseOneSpec(Print(spec), total).value;
    assert Selects(spec, r.start, total) && Selects(spec, r.end, total);
    assert Picks(result, r.start) && Picks(result, r.end);
    assert Picks(result, result.range.start) && Picks(result, result.range.end);
  }

  /** Printing an in-bounds list and planning it gives the list back, when the
      policy allows that many parts. */
  lemma PlanRoundTrip(ranges: seq<ByteRange>, total: U64, policy: RangePolicy)
    requires ranges != [] && Ascending(ranges)
    requires forall r :: r in ranges ==> InBounds(r, total)
    ensures Plan(PrintHeader(AsSpecs(ranges)), total, policy) ==
            if |ranges| == 1 then Single(ranges[0])
            else if policy.allowMulti && |ranges| <= policy.maxParts then Multi(ranges)
            else Full
  {
    var specs := AsSpecs(ranges);
    HeaderPieces(specs);
    CollectRoundTrip(ranges, total);
  }

  // ---------------------------------------------- specs section 14.1.1 calls invalid

  /** An int-range is invalid when its last position is present and below its
      first.  Section 14.2 lets a server ignore or reject a header with one. */
  predicate ValidSpec(spec: RangeSpec) {
    spec.FromTo? && spec.last.Some? ==> spec.first <= spec.last.value
  }

  /** The positions a spec selects, as one range. */
  function SpecRange(spec: RangeSpec, total: U64): Option<ByteRange> {
    match spec
    case FromTo(first, last) =>
      if first >= total || (last.Some? && last.value < first) then None
      else Some(ByteRange(first, if last.Some? && last.value < total then last.value else total - 1))
    case LastBytes(count) =>
      if count == 0 || total == 0 then None
      else Some(ByteRange(if count >= total then 0 else total - count, total - 1))
  }

  /** A spec that fits is accepted, an invalid one too: as naming no bytes. */
  lemma SpecAccepted(text: string, spec: RangeSpec, total: U64)
    requires Spells(text, spec)
    ensures ParseOneSpec(text, total) ==
            if !Fits(spec) then None
            else if SpecRange(spec, total).None? then Some(NoBytes) else Some(Bytes(SpecRange(spec, total).value))
    ensures Fits(spec) ==> (ParseOneSpec(text, total).Some? && !ValidSpec(spec) <==>
                              spec.FromTo? && spec.last.Some? && spec.last.value < spec.first)
    ensures Fits(spec) && !ValidSpec(spec) ==> ParseOneSpec(text, total) == Some(NoBytes)
    ensures forall pos: nat :: Selects(spec, pos, total) <==>
              SpecRange(spec, total).Some? && Holds(SpecRange(spec, total).value, pos)
  {
    SpecMeaning(text, spec, total);
  }

  /** The nonempty pieces of a header spell `specs`, in order. */
  predicate ReadsAs(pieces: seq<string>, specs: seq<RangeSpec>) {
    if pieces == [] then specs == []
    else
      var front, piece := pieces[..|pieces| - 1], Trim(pieces[|pieces| - 1]);
      if piece == "" then ReadsAs(front, specs)
      else specs != [] && Spells(piece, specs[|specs| - 1]) && ReadsAs(front, specs[..|specs| - 1])
  }

  predicate AllFit(specs: seq<RangeSpec>) {
    forall i :: 0 <= i < |specs| ==> Fits(specs[i])
  }

  function RangesOf(specs: seq<RangeSpec>, total: U64): seq<ByteRange> {
    if specs == [] then []
    else
      var before, last := RangesOf(specs[..|specs| - 1], total), SpecRange(specs[|specs| - 1], total);
      if last.Some? then before + [last.value] else before
  }

  /** What the server is willing to send as partial content. */
  predicate Servable(ranges: seq<ByteRange>, policy: RangePolicy) {
    |ranges| <= 1 || (policy.allowMulti && |ranges| <= policy.maxParts && IsAscendingNonOverlapping(ranges))
  }

  lemma {:induction false} CollectReads(pieces: seq<string>, specs: seq<RangeSpec>, total: U64)
    requires ReadsAs(pieces, specs)
    ensures Collect(pieces, total) == if AllFit(specs) then Some(Collected(RangesOf(specs, total), specs != []))
            else None
  {
    hide ParseOneSpec, Trim, Spells, Fits, SpecRange;
    if pieces != [] {
      var front, piece := pieces[..|pieces| - 1], Trim(pieces[|pieces| - 1]);
      if piece == "" {
        CollectReads(front, specs, total);
      } else {
        CollectReads(front, specs[..|specs| - 1], total);
        SpecAccepted(piece, specs[|specs| - 1], total);
        assert AllFit(specs) <==> AllFit(specs[..|specs| - 1]) && Fits(specs[|specs| - 1]);
      }
    }
  }

  /** What is accepted at all can be read as specs. */
  lemma {:induction false} AcceptedReads(pieces: seq<string>, total: U64) returns (specs: seq<RangeSpec>)
    requires Collect(pieces, total).Some?
    ensures ReadsAs(pieces, specs)
  {
    hide ParseOneSpec, Trim, Spells, Fits;
    if pieces == [] {
      specs := [];
    } else {
      var front, piece := pieces[..|pieces| - 1], Trim(pieces[|pieces| - 1]);
      specs := AcceptedReads(front, total);
      if piece != "" {
        var spec := SpecGrammar(piece, total);
        assert (specs + [spec])[..|specs|] == specs;
        specs := specs + [spec];
      }
    }
  }

  ghost predicate ServesSpecs(header: string, total: U64, policy: RangePolicy) {
    HasPrefix(header, "bytes=") && exists specs ::
      ReadsAs(Split(header[6..], ','), specs) && specs != [] && AllFit(specs)
        && Servable(RangesOf(specs, total), policy)
  }

  /** Exactly which headers are not ignored: those whose pieces are range-specs
      that fit in 64 bits and ask for something the server is willing to send. */
  lemma NotIgnoredExactly(header: string, total: U64, policy: RangePolicy)
    ensures !Plan(header, total, policy).Full? <==> ServesSpecs(header, total, policy)
  {
    hide ReadsAs, Split, Collect, AllFit, RangesOf, IsAscendingNonOverlapping;
    if HasPrefix(header, "bytes=") {
      var pieces := Split(header[6..], ',');
      if Collect(pieces, total).Some? {
        var specs := AcceptedReads(pieces, total);
        CollectReads(pieces, specs, total);
      }
      forall specs | ReadsAs(pieces, specs)
        ensures Collect(pieces, total) == if AllFit(specs) then Some(Collected(RangesOf(specs, total), specs != []))
                else None {
        CollectReads(pieces, specs, total);
      }
    }
  }

  /** One of the pieces spells an invalid spec. */
  ghost predicate HoldsInvalid(header: string) {
    HasPrefix(header, "bytes=") && InvalidPiece(Split(header[6..], ','))
  }

  ghost predicate InvalidPiece(pieces: seq<string>) {
    exists i, spec :: 0 <= i < |pieces| && Spells(Trim(pieces[i]), spec) && !ValidSpec(spec)
  }

  predicate SomeInvalid(specs: seq<RangeSpec>) {
    exists i :: 0 <= i < |specs| && !ValidSpec(specs[i])
  }

  function ValidOnly(specs: seq<RangeSpec>): seq<RangeSpec> {
    if specs == [] then []
    else
      var before, last := ValidOnly(specs[..|specs| - 1]), specs[|specs| - 1];
      if ValidSpec(last) then before + [last] else before
  }

  /** Invalid specs select nothing. */
  lemma {:induction false} InvalidDropsOut(specs: seq<RangeSpec>, total: U64)
    ensures RangesOf(ValidOnly(specs), total) == RangesOf(specs, total)
  {
    if specs != [] {
      var front, last := specs[..|specs| - 1], specs[|specs| - 1];
      InvalidDropsOut(front, total);
      assert (ValidOnly(front) + [last])[..|ValidOnly(front)|] == ValidOnly(front);
    }
  }

  lemma OneSpelling(text: string, a: RangeSpec, b: RangeSpec)
    requires Spells(text, a) && Spells(text, b)
    ensures a == b && text != ""
  {
  }

  /** Reading pieces as specs finds the invalid ones. */
  lemma {:induction false} InvalidIsRead(pieces: seq<string>, specs: seq<RangeSpec>)
    requires ReadsAs(pieces, specs)
    ensures InvalidPiece(pieces) <==> SomeInvalid(specs)
  {
    hide Spells, ValidSpec, Trim;
    if pieces != [] {
      var front, piece := pieces[..|pieces| - 1], Trim(pieces[|pieces| - 1]);
      MoreInvalid(front, pieces[|pieces| - 1]);
      assert pieces == front + [pieces[|pieces| - 1]];
      if piece == "" {
        InvalidIsRead(front, specs);
        NothingSpelled(piece);
      } else {
        var last := specs[|specs| - 1];
        InvalidIsRead(front, specs[..|specs| - 1]);
        forall spec | Spells(piece, spec) ensures spec == last {
          OneSpelling(piece, spec, last);
        }
        assert SomeInvalid(specs) <==> SomeInvalid(specs[..|specs| - 1]) || !ValidSpec(last);
      }
      hide InvalidPiece;
    }
  }

  lemma NothingSpelled(text: string)
    requires text == ""
    ensures forall spec :: !Spells(text, spec)
  {
    forall spec | Spells(text, spec) ensures false {
      OneSpelling(text, spec, spec);
    }
  }

  lemma MoreInvalid(front: seq<string>, piece: string)
    ensures InvalidPiece(front + [piece]) <==>
              InvalidPiece(front) || exists spec :: Spells(Trim(piece), spec) && !ValidSpec(spec)
  {
    hide Spells, ValidSpec, Trim;
    var pieces := front + [piece];
    assert pieces[|front|] == piece;
    if i, spec :| 0 <= i < |front| && Spells(Trim(front[i]), spec) && !ValidSpec(spec) {
      assert pieces[i] == front[i];
    }
    if i, spec :| 0 <= i < |pieces| && Spells(Trim(pieces[i]), spec) && !ValidSpec(spec) {
      assert i < |front| ==> pieces[i] == front[i];
    }
  }

  /** The header reads as specs that fit, one of them invalid, and the valid ones
      select something the server is willing to send. */
  ghost predicate ServableBesides(header: string, total: U64, policy: RangePolicy) {
    HasPrefix(header, "bytes=") && exists specs ::
      && ReadsAs(Split(header[6..], ','), specs) && AllFit(specs) && SomeInvalid(specs)
      && RangesOf(ValidOnly(specs), total) != [] && Servable(RangesOf(ValidOnly(specs), total), policy)
  }

  /** Exactly which headers with an invalid spec are neither ignored nor
      rejected, but served by their other specs. */
  lemma InvalidServedExactly(header: string, total: U64, policy: RangePolicy)
    ensures HoldsInvalid(header) && (Plan(header, total, policy).Single? || Plan(header, total, policy).Multi?) <==>
              ServableBesides(header, total, policy)
  {
    hide ReadsAs, Split, Collect, AllFit, RangesOf, IsAscendingNonOverlapping, InvalidPiece, SomeInvalid, ValidOnly;
    if HasPrefix(header, "bytes=") {
      var pieces := Split(header[6..], ',');
      forall specs | ReadsAs(pieces, specs)
        ensures Collect(pieces, total) == if AllFit(specs) then Some(Collected(RangesOf(specs, total), specs != []))
                else None
        ensures RangesOf(ValidOnly(specs), total) == RangesOf(specs, total)
        ensures InvalidPiece(pieces) <==> SomeInvalid(specs)
        ensures SomeInvalid(specs) ==> specs != [] {
        CollectReads(pieces, specs, total);
        InvalidDropsOut(specs, total);
        InvalidIsRead(pieces, specs);
        if specs == [] {
          assert !SomeInvalid([]) by { NoneInvalid(); }
        }
      }
      if Collect(pieces, total).Some? {
        var specs := AcceptedReads(pieces, total);
        assert ReadsAs(pieces, specs);
      }
    }
  }

  lemma NoneInvalid()
    ensures !SomeInvalid([])
  {
  }

  /** The smallest cases: alone an invalid spec is rejected, as it may be; beside
      a valid one it is passed over. */
  lemma InvalidIsPassedOver(policy: RangePolicy)
    ensures HoldsInvalid("bytes=5-2") && Plan("bytes=5-2", 10, policy) == Unsatisfiable
    ensures HoldsInvalid("bytes=5-2,0-0") && Plan("bytes=5-2,0-0", 10, policy) == Single(ByteRange(0, 0))
  {
    PieceOf("bytes=", "5-2");
    PieceOf("bytes=", "5-2,0-0");
    SplitPair();
    CollectPair();
    hide Split, Collect, InvalidPiece;
    assert |[] + [ByteRange(0, 0)]| == 1;
  }

  lemma CollectPair()
    ensures InvalidPiece(["5-2"]) && InvalidPiece(["5-2", "0-0"])
    ensures Collect(["5-2"], 10) == Some(Collected([], true))
    ensures Collect(["5-2", "0-0"], 10) == Some(Collected([] + [ByteRange(0, 0)], true))
  {
    ParsedPair();
    hide ParseOneSpec, Spells, Trim;
    assert ["5-2"][0] == "5-2" && ["5-2", "0-0"][0] == "5-2";
    assert ["5-2"][..0] == [] && ["5-2", "0-0"][..1] == ["5-2"];
  }

  lemma ParsedPair()
    ensures Trim("5-2") == "5-2" && Trim("0-0") == "0-0"
    ensures Spells("5-2", FromTo(5, Some(2))) && !ValidSpec(FromTo(5, Some(2)))
    ensures ParseOneSpec("5-2", 10) == Some(NoBytes) && ParseOneSpec("0-0", 10) == Some(Bytes(ByteRange(0, 0)))
  {
    DigitSpelling('5', '2', 5, 2);
    DigitSpelling('0', '0', 0, 0);
    SpecAccepted("5-2", FromTo(5, Some(2)), 10);
    SpecAccepted("0-0", FromTo(0, Some(0)), 10);
    hide ParseOneSpec, Spells;
  }

  lemma PieceOf(prefix: string, text: string)
    ensures HasPrefix(prefix + text, prefix) && (prefix + text)[|prefix|..] == text
  {
    PrefixOfConcat(prefix, text);
  }

  lemma SplitPair()
    ensures Split("5-2", ',') == ["5-2"] && Split("5-2,0-0", ',') == ["5-2", "0-0"]
    ensures "bytes=" + "5-2" == "bytes=5-2" && "bytes=" + "5-2,0-0" == "bytes=5-2,0-0"
  {
    FindIs("5-2", ',', 3);
    FindIs("0-0", ',', 3);
    assert Split("5-2", ',') == ["5-2"] && Split("0-0", ',') == ["0-0"];
    SplitConcat("5-2", "0-0", ',');
    assert "5-2" + [','] + "0-0" == "5-2,0-0";
  }

  /** `5-2` and the like. */
  lemma DigitSpelling(a: char, b: char, first: nat, last: nat)
    requires DigitValue(a, 10) == Some(first) && DigitValue(b, 10) == Some(last)
    ensures Spells([a, '-', b], FromTo(first, Some(last)))
  {
    var text := [a, '-', b];
    FindIs(text, '-', 1);
    assert text[..1] == [a] && text[2..] == [b] && [a][..0] == "" && [b][..0] == "";
  }

  /** `content_range`, the Content-Range of a satisfiable range. */
  function ContentRange(range: ByteRange, total: U64): Bytes {
    "bytes " + Render(range.start, 10) + "-" + Render(range.end, 10) + "/" + Render(total, 10)
  }

  function ContentRangeUnsatisfied(total: U64): Bytes {
    "bytes */" + Render(total, 10)
  }
}

/** `multipart/byteranges` framing (crates/envoy-files-core/src/range.rs,
    section 5.1.1 of RFC 2046), and a reader for it that shares no code with
    the writer. */
module Multipart {
  import opened Text
  import opened Ranges

  datatype Part = Part(range: ByteRange, header: Bytes)

  /** What the boundary and the part headers are made of. */
  datatype Frame = Frame(contentType: Bytes, total: U64, boundary: Bytes)

  function Slice(file: Bytes, r: ByteRange): Bytes
    requires InBounds(r, |file|)
  {
    file[r.start..r.end + 1]
  }

  /** What follows a dash-boundary, up to the bytes of the part. */
  function Fields(r: ByteRange, f: Frame): Bytes {
    var range := "Content-Range: " + (ContentRange(r, f.total) + "\r\n\r\n");
    "\r\n" + ("Content-Type: " + (f.contentType + ("\r\n" + range)))
  }

  function PartHeader(first: bool, r: ByteRange, f: Frame): Bytes {
    (if first then "--" else "\r\n--") + f.boundary + Fields(r, f)
  }

  function Terminator(f: Frame): Bytes {
    "\r\n--" + f.boundary + "--\r\n"
  }

  function Parts(ranges: seq<ByteRange>, f: Frame): seq<Part> {
    seq(|ranges|, i requires 0 <= i < |ranges| => Part(ranges[i], PartHeader(i == 0, ranges[i], f)))
  }

  /** The bytes of the parts, in order, before the terminator. */
  function Assemble(parts: seq<Part>, file: Bytes): Bytes
    requires forall p :: p in parts ==> InBounds(p.range, |file|)
  {
    if parts == [] then []
    else Assemble(parts[..|parts| - 1], file) + parts[|parts| - 1].header + Slice(file, parts[|parts| - 1].range)
  }

  function ExactLength(parts: seq<Part>): int {
    if parts == [] then 0
    else
      var p := parts[|parts| - 1];
      ExactLength(parts[..|parts| - 1]) + |p.header| + (p.range.end - p.range.start + 1)
  }

  /** What an optimised build keeps of a number in a u64. */
  function Wrap64(n: int): U64 {
    n % TWO64
  }

  /** `+=` on a u64. */
  function Add64(a: U64, b: nat): U64 {
    Wrap64(a + b)
  }

  lemma Reassociate(a: Bytes, b: Bytes, c: Bytes, d: Bytes, e: Bytes, f: Bytes, g: Bytes)
    ensures a + b + c + d + e + f + g == a + b + (c + (d + (e + (f + g))))
  {
  }

  lemma WrapZero()
    ensures Wrap64(0) == 0
  {
  }

  lemma AddWraps(a: int, b: nat)
    ensures Add64(Wrap64(a), b) == Wrap64(a + b)
  {
  }

  lemma ExactLengthPush(parts: seq<Part>, p: Part)
    ensures ExactLength(parts + [p]) == ExactLength(parts) + |p.header| + (p.range.end - p.range.start + 1)
  {
    assert (parts + [p])[..|parts|] == parts;
  }

  /** The header of one part, grown piece by piece. */
  method BuildHeader(index: nat, range: ByteRange, f: Frame) returns (header: Bytes)
    ensures header == PartHeader(index == 0, range, f)
  {
    header := "";
    if index > 0 {
      header := header + "\r\n";
    }
    header := header + "--" + f.boundary + "\r\n";
    header := header + "Content-Type: " + f.contentType + "\r\n";
    header := header + ("Content-Range: " + (ContentRange(range, f.total) + "\r\n\r\n"));
    assert "" + "--" == "--" && "" + "\r\n" + "--" == "\r\n--";
    Reassociate(if index == 0 then "--" else "\r\n--", f.boundary, "\r\n", "Content-Type: ", f.contentType, "\r\n",
      "Content-Range: " + (ContentRange(range, f.total) + "\r\n\r\n"));
  }

  method BuildTerminator(f: Frame) returns (terminator: Bytes)
    ensures terminator == Terminator(f)
  {
    terminator := "\r\n--" + f.boundary + "--\r\n";
  }

  /** `multipart_parts`. */
  method MultipartParts(ranges: seq<ByteRange>, f: Frame)
    returns (parts: seq<Part>, terminator: Bytes, contentLength: U64)
    requires forall r :: r in ranges ==> r.start <= r.end
    ensures parts == Parts(ranges, f)
    ensures terminator == Terminator(f)
    ensures contentLength == Wrap64(ExactLength(parts) + |terminator|)
  {
    hide Wrap64, Add64, PartHeader, Terminator;
    parts := [];
    contentLength := 0;
    assert Wrap64(0) == 0 by { WrapZero(); }
    for index := 0 to |ranges|
      invariant parts == Parts(ranges, f)[..index]
      invariant contentLength == Wrap64(ExactLength(parts))
    {
      var range := ranges[index];
      var header := BuildHeader(index, range, f);
      AddWraps(ExactLength(parts), |header|);
      AddWraps(ExactLength(parts) + |header|, range.end - range.start + 1);
      contentLength := Add64(contentLength, |header|);
      contentLength := Add64(contentLength, range.end - range.start + 1);
      ExactLengthPush(parts, Part(range, header));
      parts := parts + [Part(range, header)];
    }
    terminator := BuildTerminator(f);
    AddWraps(ExactLength(parts), |terminator|);
    contentLength := Add64(contentLength, |terminator|);
  }

  /** The advertised length is the length of headers, slices and terminator
      put together. */
  lemma {:induction false} AssembledLength(parts: seq<Part>, file: Bytes)
    requires forall p :: p in parts ==> InBounds(p.range, |file|)
    ensures |Assemble(parts, file)| == ExactLength(parts)
  {
    if parts != [] {
      AssembledLength(parts[..|parts| - 1], file);
    }
  }

  lemma TwentyDigits()
    ensures TWO64 < Power(10, 20)
  {
    assert Power(10, 5) == 100_000;
    assert Power(10, 10) == 10_000_000_000;
    assert Power(10, 15) == 1_000_000_000_000_000;
    assert Power(10, 20) == 100_000_000_000_000_000_000;
  }

  lemma ContentRangeLength(r: ByteRange, total: U64)
    ensures |ContentRange(r, total)| <= 68
  {
    TwentyDigits();
    RenderLength(r.start, 10, 20);
    RenderLength(r.end, 10, 20);
    RenderLength(total, 10, 20);
    hide Render;
  }

  /** The most that framing adds to one part. */
  function FramePerPart(f: Frame): nat {
    |f.boundary| + |f.contentType| + 109
  }

  lemma PartHeaderLength(first: bool, r: ByteRange, f: Frame)
    ensures |PartHeader(first, r, f)| <= FramePerPart(f)
  {
    ContentRangeLength(r, f.total);
    hide ContentRange;
  }

  /** Framing adds no more to the bytes of the ranges than it may to each part. */
  lemma {:induction false} FramedLength(ranges: seq<ByteRange>, f: Frame)
    requires forall r :: r in ranges ==> r.start <= r.end
    ensures ExactLength(Parts(ranges, f)) <= TotalLength(ranges) + |ranges| * FramePerPart(f)
  {
    hide PartHeader, FramePerPart;
    if ranges != [] {
      var front, last := ranges[..|ranges| - 1], ranges[|ranges| - 1];
      FramedLength(front, f);
      PartHeaderLength(|front| == 0, last, f);
      assert Parts(ranges, f)[..|front|] == Parts(front, f);
      OneMorePart(|front|, FramePerPart(f));
    }
  }

  lemma OneMorePart(n: nat, c: nat)
    ensures (n + 1) * c == n * c + c
  {
  }

  // ------------------------------------------------------------- the reader

  datatype ReadPart = ReadPart(contentType: Bytes, start: nat, end: nat, total: nat, data: Bytes)

  /** A decimal field that runs up to the character `stop`. */
  function ReadNumber(s: Bytes, stop: char): Option<(nat, Bytes)> {
    var k := Find(s, stop);
    if k < |s| && IsNumeral(s[..k], 10) then Some((Value(s[..k], 10), s[k..])) else None
  }

  function Expect(s: Bytes, literal: Bytes): Option<Bytes> {
    if HasPrefix(s, literal) then Some(s[|literal|..]) else None
  }

  /** Two literals in a row. */
  function Expect2(s: Bytes, first: Bytes, second: Bytes): Option<Bytes> {
    var t := Expect(s, first);
    if t.None? then None else Expect(t.value, second)
  }

  datatype RangeField = RangeField(start: nat, end: nat, total: nat, rest: Bytes)

  /** Reads the value of a Content-Range field. */
  function ReadContentRange(s: Bytes): Option<RangeField> {
    var a := Expect(s, "bytes ");
    if a.None? then None else
    var start := ReadNumber(a.value, '-');
    if start.None? then None else
    var end := ReadNumber(start.value.1[1..], '/');
    if end.None? then None else
    var total := ReadNumber(end.value.1[1..], '\r');
    if total.None? then None else
    Some(RangeField(start.value.0, end.value.0, total.value.0, total.value.1))
  }

  /** Reads what follows a dash-boundary: the two header fields. */
  function ReadHeader(s: Bytes): Option<(Bytes, RangeField)> {
    var a := Expect2(s, "\r\n", "Content-Type: ");
    if a.None? then None else
    var k := Find(a.value, '\r');
    var b := Expect2(a.value[k..], "\r\n", "Content-Range: ");
    if b.None? then None else
    var c := ReadContentRange(b.value);
    if c.None? then None else
    var data := Expect(c.value.rest, "\r\n\r\n");
    if data.None? then None else
    Some((a.value[..k], c.value.(rest := data.value)))
  }

  /** One part after its dash-boundary: as many bytes as its Content-Range
      says, up to the next dash-boundary. */
  function ReadOne(s: Bytes, boundary: Bytes): Option<(ReadPart, Bytes)> {
    var h := ReadHeader(s);
    if h.None? then None else TakePart(h.value.0, h.value.1, boundary)
  }

  function TakePart(contentType: Bytes, field: RangeField, boundary: Bytes): Option<(ReadPart, Bytes)> {
    if !(field.start <= field.end && field.end - field.start + 1 <= |field.rest|) then None else
    var n := field.end - field.start + 1;
    var next := Expect(field.rest[n..], "\r\n--" + boundary);
    if next.None? then None else
    Some((ReadPart(contentType, field.start, field.end, field.total, field.rest[..n]), next.value))
  }

  function ReadParts(s: Bytes, boundary: Bytes): Option<seq<ReadPart>>
    decreases |s|
  {
    if s == "--\r\n" then Some([])
    else
      var one := ReadOne(s, boundary);
      if one.None? || |one.value.1| >= |s| then None else
      var rest := ReadParts(one.value.1, boundary);
      if rest.None? then None else Some([one.value.0] + rest.value)
  }

  function ReadBody(body: Bytes, boundary: Bytes): Option<seq<ReadPart>> {
    var s := Expect(body, "--" + boundary);
    if s.None? then None else ReadParts(s.value, boundary)
  }

  // ---------------------------------------------------------- writer = reader

  function Intended(ranges: seq<ByteRange>, f: Frame, file: Bytes): seq<ReadPart>
    requires forall r :: r in ranges ==> InBounds(r, |file|)
  {
    seq(|ranges|, i requires 0 <= i < |ranges| =>
      ReadPart(f.contentType, ranges[i].start, ranges[i].end, f.total, Slice(file, ranges[i])))
  }

  /** The body from just after a dash-boundary. */
  function Tail(ranges: seq<ByteRange>, f: Frame, file: Bytes): Bytes
    requires forall r :: r in ranges ==> InBounds(r, |file|)
  {
    if ranges == [] then "--\r\n"
    else Fields(ranges[0], f) + (Slice(file, ranges[0]) + ("\r\n--" + f.boundary + Tail(ranges[1..], f, file)))
  }

  lemma ReadNumberBack(n: nat, stop: char, rest: Bytes)
    requires !('0' <= stop <= '9')
    requires rest != [] && rest[0] == stop
    ensures ReadNumber(Render(n, 10) + rest, stop) == Some((n, rest))
  {
    var d := Render(n, 10);
    var s := d + rest;
    forall i | 0 <= i < |d| ensures s[i] != stop {
      DigitsOnly(d, i);
    }
    FindIs(s, stop, |d|);
    assert s[..|d|] == d && s[|d|..] == rest;
    RenderValue(n, 10);
  }

  lemma ExpectBack(literal: Bytes, rest: Bytes)
    ensures Expect(literal + rest, literal) == Some(rest)
  {
    PrefixOfConcat(literal, rest);
  }

  lemma Expect2Back(first: Bytes, second: Bytes, rest: Bytes)
    ensures Expect2(first + (second + rest), first, second) == Some(rest)
  {
    ExpectBack(first, second + rest);
    ExpectBack(second, rest);
  }

  lemma Right4(a: Bytes, b: Bytes, c: Bytes, d: Bytes, e: Bytes, f: Bytes, g: Bytes)
    ensures a + b + c + d + e + f + g == a + (b + (c + (d + (e + (f + g)))))
  {
  }

  lemma ReadContentRangeBack(r: ByteRange, total: U64, rest: Bytes)
    requires rest != [] && rest[0] == '\r'
    ensures ReadContentRange(ContentRange(r, total) + rest) == Some(RangeField(r.start, r.end, total, rest))
  {
    var s, e, t := Render(r.start, 10), Render(r.end, 10), Render(total, 10);
    Right4("bytes ", s, "-", e, "/", t, rest);
    ExpectBack("bytes ", s + ("-" + (e + ("/" + (t + rest)))));
    ReadNumberBack(r.start, '-', "-" + (e + ("/" + (t + rest))));
    PrefixOfConcat("-", e + ("/" + (t + rest)));
    ReadNumberBack(r.end, '/', "/" + (t + rest));
    PrefixOfConcat("/", t + rest);
    ReadNumberBack(total, '\r', rest);
  }

  lemma Right7(a: Bytes, b: Bytes, c: Bytes, d: Bytes, e: Bytes, f: Bytes, g: Bytes, h: Bytes)
    ensures a + (b + (c + (d + (e + (f + g))))) + h == a + (b + (c + (d + (e + (f + (g + h))))))
  {
  }

  lemma ReadHeaderBack(r: ByteRange, f: Frame, rest: Bytes)
    requires '\r' !in f.contentType
    ensures ReadHeader(Fields(r, f) + rest) == Some((f.contentType, RangeField(r.start, r.end, f.total, rest)))
  {
    var blank := "\r\n\r\n";
    var range := ContentRange(r, f.total) + (blank + rest);
    var line := "\r\n" + ("Content-Range: " + range);
    Right7("\r\n", "Content-Type: ", f.contentType, "\r\n", "Content-Range: ", ContentRange(r, f.total), blank, rest);
    Expect2Back("\r\n", "Content-Type: ", f.contentType + line);
    SplitLine(f.contentType, line);
    Expect2Back("\r\n", "Content-Range: ", range);
    ReadContentRangeBack(r, f.total, blank + rest);
    ExpectBack(blank, rest);
  }

  lemma SplitLine(text: Bytes, line: Bytes)
    requires '\r' !in text && line != [] && line[0] == '\r'
    ensures Find(text + line, '\r') == |text|
    ensures (text + line)[..|text|] == text && (text + line)[|text|..] == line
  {
    FindIs(text + line, '\r', |text|);
  }

  lemma TakePartBack(contentType: Bytes, r: ByteRange, total: nat, file: Bytes, boundary: Bytes, next: Bytes)
    requires InBounds(r, |file|)
    ensures var slice := Slice(file, r);
            TakePart(contentType, RangeField(r.start, r.end, total, slice + ("\r\n--" + boundary + next)), boundary)
            == Some((ReadPart(contentType, r.start, r.end, total, slice), next))
  {
    var slice := Slice(file, r);
    var mark := "\r\n--" + boundary;
    assert (slice + (mark + next))[..|slice|] == slice && (slice + (mark + next))[|slice|..] == mark + next;
    ExpectBack(mark, next);
  }

  lemma ReadOneBack(r: ByteRange, f: Frame, file: Bytes, next: Bytes)
    requires '\r' !in f.contentType && InBounds(r, |file|)
    ensures ReadOne(Fields(r, f) + (Slice(file, r) + ("\r\n--" + f.boundary + next)), f.boundary)
            == Some((ReadPart(f.contentType, r.start, r.end, f.total, Slice(file, r)), next))
  {
    hide ReadHeader, TakePart, Fields;
    ReadHeaderBack(r, f, Slice(file, r) + ("\r\n--" + f.boundary + next));
    TakePartBack(f.contentType, r, f.total, file, f.boundary, next);
  }

  lemma {:induction false} ReadTail(ranges: seq<ByteRange>, f: Frame, file: Bytes)
    requires '\r' !in f.contentType
    requires forall r :: r in ranges ==> InBounds(r, |file|)
    ensures ReadParts(Tail(ranges, f, file), f.boundary) == Some(Intended(ranges, f, file))
  {
    hide ReadOne, Fields, Slice;
    if ranges != [] {
      var r, more := ranges[0], ranges[1..];
      var next := Tail(more, f, file);
      ReadOneBack(r, f, file, next);
      ReadTail(more, f, file);
      NotTheEnd(r, f, Slice(file, r) + ("\r\n--" + f.boundary + next));
      assert Intended(ranges, f, file) ==
             [ReadPart(f.contentType, r.start, r.end, f.total, Slice(file, r))] + Intended(more, f, file);
    } else {
      assert Intended(ranges, f, file) == [];
    }
  }

  lemma NotTheEnd(r: ByteRange, f: Frame, rest: Bytes)
    ensures Fields(r, f) + rest != "--\r\n"
    ensures |Fields(r, f)| > 0
  {
    assert (Fields(r, f) + rest)[0] == '\r';
    assert "--\r\n"[0] == '-';
  }

  lemma Regroup(before: Bytes, dashes: Bytes, fields: Bytes, slice: Bytes, left: Bytes)
    ensures before + (dashes + fields) + slice + left == before + (dashes + (fields + (slice + left)))
  {
  }

  /** The first `n` parts followed by what is left reads as the whole tail. */
  lemma {:induction false} AssembleIsTail(ranges: seq<ByteRange>, f: Frame, file: Bytes, n: nat)
    requires forall r :: r in ranges ==> InBounds(r, |file|)
    requires 0 < n <= |ranges|
    ensures Assemble(Parts(ranges, f)[..n], file) + ("\r\n--" + f.boundary + Tail(ranges[n..], f, file))
            == "--" + f.boundary + Tail(ranges, f, file)
  {
    hide Fields, Terminator;
    var parts, k := Parts(ranges, f), n - 1;
    var r := ranges[k];
    var left := "\r\n--" + f.boundary + Tail(ranges[n..], f, file);
    var here := Fields(r, f) + (Slice(file, r) + left);
    assert ranges[k..][1..] == ranges[n..] && ranges[k..][0] == r;
    assert Tail(ranges[k..], f, file) == here;
    var before := Assemble(parts[..k], file);
    assert parts[..n][..k] == parts[..k];
    var dashes := (if k == 0 then "--" else "\r\n--") + f.boundary;
    assert Assemble(parts[..n], file) == before + (dashes + Fields(r, f)) + Slice(file, r);
    Regroup(before, dashes, Fields(r, f), Slice(file, r), left);
    if k == 0 {
      assert ranges[0..] == ranges;
      assert [] + (dashes + here) == dashes + here;
    } else {
      AssembleIsTail(ranges, f, file, k);
    }
  }

  /** A reader that trusts only the Content-Range of each part gets back exactly
      the requested ranges with exactly their bytes, whatever the file holds,
      be it boundary lines, and whatever the boundary. */
  lemma MultipartRoundTrip(ranges: seq<ByteRange>, f: Frame, file: Bytes)
    requires ranges != [] && '\r' !in f.contentType
    requires forall r :: r in ranges ==> InBounds(r, |file|)
    ensures ReadBody(Assemble(Parts(ranges, f), file) + Terminator(f), f.boundary) == Some(Intended(ranges, f, file))
  {
    TerminatorIsTail(ranges[|ranges|..], f, file);
    assert Parts(ranges, f)[..|ranges|] == Parts(ranges, f);
    hide Parts, Assemble, Terminator, Tail, ReadParts, Expect;
    AssembleIsTail(ranges, f, file, |ranges|);
    ExpectBack("--" + f.boundary, Tail(ranges, f, file));
    ReadTail(ranges, f, file);
  }

  lemma TerminatorIsTail(none: seq<ByteRange>, f: Frame, file: Bytes)
    requires none == []
    ensures Terminator(f) == "\r\n--" + f.boundary + Tail(none, f, file)
  {
  }

  /** Only a body of 2^64 bytes or more would make the advertised length wrap. */
  lemma LengthWraps(parts: seq<Part>, terminator: Bytes, file: Bytes)
    requires forall p :: p in parts ==> InBounds(p.range, |file|)
    ensures var body := Assemble(parts, file) + terminator;
            Wrap64(ExactLength(parts) + |terminator|) == |body| <==> |body| < TWO64
  {
    AssembledLength(parts, file);
    hide Assemble, ExactLength;
  }
}

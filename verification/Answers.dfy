/** What the client of a stream is sent, in plain terms: the header of a file that
    is served, and the reply to a request that is refused, that finds nothing, or
    that ends at a directory. */
module Answers {
  import opened Text
  import opened Validators
  import opened EventBridge
  import opened FilterModel
  import opened FilterRuns
  import opened RF = ResponseFields
  import Delivery
  import Itinerary
  import Mount
  import Multipart
  import Paths
  import PathRules
  import Ranges
  import RequestRuns
  import ResolverSpec
  import Schedules
  import RP = ResponsePlan

  // ---------------------------------------------------------------- the type

  predicate FileAmongCandidates(s: Session, disk: Disk) {
    exists i :: 0 <= i < |BuildFileCandidates(s)| && ResolverSpec.Opens(disk, BuildFileCandidates(s)[i])
  }

  function IndexPath(s: Session, k: nat): Bytes
    requires k < |s.config.indexFiles|
  {
    PathJoin(DirPath(s), s.config.indexFiles[k])
  }

  /** Index file `k` is the first that opens at all. */
  predicate FirstIndex(s: Session, disk: Disk, k: nat) {
    && k < |s.config.indexFiles|
    && !disk.open(IndexPath(s, k)).Fails?
    && forall i :: 0 <= i < k ==> disk.open(IndexPath(s, i)).Fails?
  }

  /** A file found by its own path, compressed or not, has the type of that path;
      an index file has the type of its configured name. */
  lemma TypeOfServed(s: Session, disk: Disk)
    requires VerdictOf(s, disk).Serve?
    ensures var ctx := VerdictOf(s, disk).ctx;
            if FileAmongCandidates(s, disk) then ctx.contentType == s.config.contentTypeFor(s.request.relative)
            else exists k: nat :: FirstIndex(s, disk, k) && VerdictOf(s, disk).path == IndexPath(s, k)
                   && ctx == OpenCtx(None, s.config.contentTypeFor(s.config.indexFiles[k]), false)
  {
    if FileAmongCandidates(s, disk) {
      var k := ResolverSpec.FirstOpen(disk, BuildFileCandidates(s));
      ResolverSpec.FirstFileWins(s, disk);
      TypeOfCandidate(s, k);
      hide VerdictOf, BuildFileCandidates, ResolverSpec.Opens, ResolverSpec.PlainVerdict;
    } else {
      hide VerdictOf, BuildFileCandidates, ResolverSpec.Opens;
      var k := Schedules.ServedEntry(s, disk);
      assert VerdictOf(s, disk).path == IndexEntries(s)[k].0;
      Delivery.ServedIsRegular(s, disk);
      hide PathJoin, Itinerary.Enters;
      assert FirstIndex(s, disk, k) by {
        forall i | 0 <= i < k ensures disk.open(IndexPath(s, i)).Fails? {
          assert ResolverSpec.Misses(disk, IndexEntries(s)[i]);
        }
      }
    }
  }

  lemma TypeOfCandidate(s: Session, i: nat)
    requires i < |BuildFileCandidates(s)|
    ensures BuildFileCandidates(s)[i].contentType == s.config.contentTypeFor(s.request.relative)
  {
  }

  // --------------------------------------------------------- the header of a file

  function MetaOf(stat: FileStat): RP.FileMeta {
    RP.FileMeta(stat.size, stat.mtimeUnix, stat.mtimeNanos)
  }

  /** The field is there once, with the value, or not at all. */
  predicate HasOnly(fields: seq<RP.Header>, name: RP.HeaderName, present: bool, value: RP.HeaderValue) {
    RP.Values(fields, name) == AtMostOne(present, value)
  }

  ghost predicate CarriesTags(s: Session, stat: FileStat, fields: seq<RP.Header>) {
    && (exists tag :: IsTagOf(tag, MetaOf(stat)) && HasOnly(fields, RP.ETag, s.config.etag, RP.Plain(tag)))
    && HasOnly(fields, RP.LastModified, s.config.lastModified, RP.HttpDate(stat.mtimeUnix))
  }

  /** The fields of every 200 and 206: each there once when the setting, or the
      candidate, has it, and not at all otherwise. */
  ghost predicate Carries(s: Session, ctx: OpenCtx, stat: FileStat, fields: seq<RP.Header>) {
    && CarriesTags(s, stat, fields)
    && RP.Values(fields, RP.CacheControl) == TextOf(s.config.cacheControl)
    && RP.Values(fields, RP.ContentEncoding) == TextOf(ctx.encoding)
    && HasOnly(fields, RP.Vary, ctx.encoding.Some? || ctx.addVary, RP.Plain("Accept-Encoding"))
    && RP.Values(fields, RP.AcceptRanges) == [RP.Plain("bytes")]
  }

  /** The range the answer is about: that of the Range header, if the settings
      allow ranges and If-Range does not forbid it. */
  function RangeAsked(s: Session, stat: FileStat): Ranges.RangeOutcome {
    if s.config.ranges != NoRanges && s.request.rangeHeader.Some?
       && MayResume(s.request.conditionals.ifRange, MetaOf(stat))
    then Ranges.Plan(s.request.rangeHeader.value, stat.size, Ranges.RangePolicy(s.config.ranges == MultiRange, 50))
    else Ranges.Full
  }

  function StatusFor(s: Session, stat: FileStat): nat {
    var c, conditions := s.config, s.request.conditionals;
    if Refused(c.etag, c.lastModified, conditions, MetaOf(stat)) then 412
    else if Current(c.etag, c.lastModified, conditions, MetaOf(stat)) then 304
    else match RangeAsked(s, stat)
      case Full => 200
      case Unsatisfiable => 416
      case _ => 206
  }

  /** The type of the answer: the file's own for a whole file or one part. */
  function TypeFor(s: Session, ctx: OpenCtx, stat: FileStat): Bytes {
    if RangeAsked(s, stat).Multi? then "multipart/byteranges; boundary=" + Boundary(stat) else ctx.contentType
  }

  /** A text that a client reads as the range `r` of a file of `size` bytes. */
  predicate ReadsAs(text: Bytes, r: Ranges.ByteRange, size: nat) {
    Multipart.ReadContentRange(text + "\r") == Some(Multipart.RangeField(r.start, r.end, size, "\r"))
  }

  /** Where the answer says it is from: one Content-Range for one part, none for
      the whole file or for several parts. */
  ghost predicate SaysWhere(s: Session, stat: FileStat, fields: seq<RP.Header>) {
    match RangeAsked(s, stat)
    case Single(r) =>
      && Ranges.InBounds(r, stat.size)
      && exists text :: RP.Values(fields, RP.ContentRangeName) == [RP.Plain(text)] && ReadsAs(text, r, stat.size)
    case _ => RP.Values(fields, RP.ContentRangeName) == []
  }

  ghost predicate AnswersFile(s: Session, ctx: OpenCtx, stat: FileStat, status: nat, fields: seq<RP.Header>) {
    && status == StatusFor(s, stat)
    && (status in {200, 206} ==>
          && Carries(s, ctx, stat, fields)
          && RP.Values(fields, RP.ContentType) == [RP.Plain(TypeFor(s, ctx, stat))]
          && SaysWhere(s, stat, fields))
    && (status == 304 ==> CarriesTags(s, stat, fields) && SaysOnly(fields, {RP.ETag, RP.LastModified}))
    && (status == 412 ==> fields == [])
    && (status == 416 ==> SaysSize(fields, stat.size))
  }

  lemma AskedIsChosen(s: Session, ctx: OpenCtx, stat: FileStat)
    ensures Chosen(Facts(s, ctx, stat), MetaOf(stat)) == RangeAsked(s, stat)
  {
    hide Ranges.Plan, MayResume, Boundary;
  }

  lemma DescribesCarries(s: Session, ctx: OpenCtx, stat: FileStat, fields: seq<RP.Header>)
    ensures DescribesFile(fields, Facts(s, ctx, stat), MetaOf(stat)) ==> CarriesTags(s, stat, fields)
    ensures Describes(fields, Facts(s, ctx, stat), MetaOf(stat)) ==> Carries(s, ctx, stat, fields)
  {
    TagReads(MetaOf(stat));
    hide Boundary, IsTagOf, RP.Values, MakeEtag;
  }

  lemma PlanAnswers(s: Session, ctx: OpenCtx, stat: FileStat)
    ensures var plan := PlanFor(s, ctx, stat); AnswersFile(s, ctx, stat, plan.status, plan.headers)
  {
    var facts, meta := Facts(s, ctx, stat), MetaOf(stat);
    var plan := RP.PlanResponse(facts, meta);
    AskedIsChosen(s, ctx, stat);
    StatusExactly(facts, meta);
    assert plan.status == StatusFor(s, stat)
      by { hide Refused, Current, RangeAsked, Chosen, Boundary, RP.PlanResponse; }
    if plan.status in {200, 206} {
      PlannedRange(facts, meta);
      ChosenFits(facts, meta);
      PlanSays(s, ctx, stat, RangeAsked(s, stat));
    } else {
      BodilessSay(facts, meta);
      DescribesCarries(s, ctx, stat, plan.headers);
    }
    hide Carries, CarriesTags, Describes, DescribesFile, SaysOnly, SaysSize, SaysWhere, TypeFor, StatusFor, RP.Values,
      RP.PlanResponse, RP.PlanRange, Facts;
  }

  lemma PlanSays(s: Session, ctx: OpenCtx, stat: FileStat, outcome: Ranges.RangeOutcome)
    requires outcome == RangeAsked(s, stat) && !outcome.Unsatisfiable?
    requires outcome.Single? ==> Ranges.InBounds(outcome.range, stat.size)
    ensures var fields := RP.PlanRange(Facts(s, ctx, stat), MetaOf(stat), outcome).headers;
            && Carries(s, ctx, stat, fields)
            && RP.Values(fields, RP.ContentType) == [RP.Plain(TypeFor(s, ctx, stat))]
            && SaysWhere(s, stat, fields)
  {
    var facts, meta := Facts(s, ctx, stat), MetaOf(stat);
    var fields := RP.PlanRange(facts, meta, outcome).headers;
    hide RangeAsked, Carries, RP.PlanRange, RP.Values, Boundary, Describes, Ranges.ContentRange;
    match outcome {
      case Full => WholeHeaders(facts, meta);
      case Single(r) =>
        PartHeaders(facts, meta, r);
        Multipart.ReadContentRangeBack(r, stat.size, "\r");
        assert ReadsAs(Ranges.ContentRange(r, stat.size), r, stat.size);
      case Multi(ranges) => PartsHeaders(facts, meta, ranges);
    }
    hide ReadsAs;
    DescribesCarries(s, ctx, stat, fields);
  }

  /** The header of every run that has sent one and serves a file: its status by
      the request's dates, tags and range; and, in a 200 or 206, exactly one
      Content-Type, the type of the file for the whole or one part, and the fields
      that are due. */
  lemma HeaderOnWire(s: Session, disk: Disk, labels: seq<Label>)
    requires Run(s, disk, Start(s), labels).Some? && VerdictOf(s, disk).Serve?
    requires Run(s, disk, Start(s), labels).value.sent != []
    ensures var head, v := Run(s, disk, Start(s), labels).value.sent[0], VerdictOf(s, disk);
            && disk.open(v.path).Regular?
            && head.Headers? && AnswersFile(s, v.ctx, StatOf(disk.open(v.path)), head.status, head.fields)
  {
    Delivery.EveryRunDelivers(s, disk, labels);
    Delivery.ServedIsRegular(s, disk);
    Delivery.CallsOfServe(s, disk);
    var v := VerdictOf(s, disk);
    PlanAnswers(s, v.ctx, StatOf(disk.open(v.path)));
    hide Run, Start, VerdictOf, Expected, AnswersFile, PlanFor, BodyChunks, DataCalls;
  }

  /** The body of a 200 or 206 to a GET: the file, the one part, or what a reader
      of the boundary in the Content-Type takes apart into the parts. */
  ghost predicate BodyAnswers(s: Session, ctx: OpenCtx, stat: FileStat, content: FileBytes, body: Bytes) {
    match RangeAsked(s, stat)
    case Full => body == content
    case Single(r) => Ranges.InBounds(r, |content|) && body == content[r.start..r.end + 1]
    case Multi(ranges) =>
      exists parts :: Multipart.ReadBody(body, Boundary(stat)) == Some(parts)
                      && AreParts(parts, ranges, ctx.contentType, content)
    case Unsatisfiable => false
  }

  lemma PlanBody(s: Session, ctx: OpenCtx, stat: FileStat, content: FileBytes)
    requires |content| == stat.size && !s.request.methodHead && '\r' !in ctx.contentType
    requires PlanFor(s, ctx, stat).status in {200, 206}
    ensures var plan := PlanFor(s, ctx, stat);
            RP.BodyFits(plan.body, |content|)
              && BodyAnswers(s, ctx, stat, content, RP.BodyBytes(plan.body, content))
  {
    var facts, meta := Facts(s, ctx, stat), MetaOf(stat);
    AskedIsChosen(s, ctx, stat);
    StatusExactly(facts, meta);
    RP.PlannedBodyFits(facts, meta);
    var plan, outcome := RP.PlanResponse(facts, meta), RangeAsked(s, stat);
    hide RangeAsked, Chosen, Boundary, Refused, Current, RP.PlanResponse, RP.Values, Describes, RP.BodyFits, AreParts,
      RP.BodyBytes, Multipart.ReadBody, Multipart.ReadContentRange;
    if outcome.Full? {
      WholeSays(facts, meta);
      WholeBytes(plan.body, content);
    } else if outcome.Single? {
      var text, r := PartSays(facts, meta, content);
    } else if outcome.Multi? {
      var boundary, parts := PartsSay(facts, meta, content);
    }
  }

  lemma WholeBytes(body: RP.BodyPlan, content: FileBytes)
    requires body == RP.Whole(|content|)
    ensures RP.BodyFits(body, |content|) && RP.BodyBytes(body, content) == content
  {
  }

  /** A GET that is over, and in which no read has failed, has got that body. */
  lemma BodyOnWire(s: Session, disk: Disk, labels: seq<Label>)
    requires Run(s, disk, Start(s), labels).Some? && VerdictOf(s, disk).Serve?
    requires var f := EndOf(s, disk, labels);
             && f.phase.Done? && !f.past.readFailed
             && f.sent != [] && f.sent[0].Headers? && f.sent[0].status in {200, 206}
    requires !s.request.methodHead && '\r' !in VerdictOf(s, disk).ctx.contentType
    ensures var v, sent := VerdictOf(s, disk), EndOf(s, disk, labels).sent;
            var o := disk.open(v.path);
            o.Regular? && BodyAnswers(s, v.ctx, StatOf(o), o.content, Delivery.BodyOf(sent))
  {
    Delivery.ServedInFull(s, disk, labels);
    var v := VerdictOf(s, disk);
    var o := disk.open(v.path);
    Delivery.RegularStat(o);
    hide Run, Start, VerdictOf, PlanFor, BodyAnswers, Delivery.BodyOf, RP.BodyBytes, RP.BodyFits;
    PlanBody(s, v.ctx, StatOf(o), o.content);
  }

  // ------------------------------------------------------------------- the boundary

  /** The boundary names the file: its size and its seconds as a 64-bit pattern,
      in sixteen hexadecimal digits each. */
  lemma BoundaryNamesFile(stat: FileStat) returns (size: Bytes, secs: Bytes)
    ensures Boundary(stat) == "envoyfilesboundary" + size + secs
    ensures |size| == 16 && IsNumeral(size, 16) && Value(size, 16) == stat.size
    ensures |secs| == 16 && IsNumeral(secs, 16) && Value(secs, 16) == stat.mtimeUnix % TWO64
  {
    Delivery.SixteenDigits();
    size, secs := Pad16(Render(stat.size, 16)), Pad16(Render(Bits(stat.mtimeUnix), 16));
    PadKeeps(stat.size);
    PadKeeps(Bits(stat.mtimeUnix));
    hide Render, Pad16, Value, IsNumeral;
  }

  lemma PadKeeps(n: U64)
    ensures var text := Pad16(Render(n, 16)); |text| == 16 && IsNumeral(text, 16) && Value(text, 16) == n
  {
    Delivery.SixteenDigits();
    RenderLength(n, 16, 16);
    RenderValue(n, 16);
    ZerosAdd(16 - |Render(n, 16)|, Render(n, 16));
    hide Render, Value, IsNumeral;
  }

  lemma {:induction false} ZerosAdd(k: nat, digits: Bytes)
    requires IsNumeral(digits, 16)
    ensures var text := seq(k, _ => '0') + digits; IsNumeral(text, 16) && Value(text, 16) == Value(digits, 16)
    decreases |digits|
  {
    var zeros := seq(k, _ => '0');
    var text, front := zeros + digits, digits[..|digits| - 1];
    assert text[..|text| - 1] == zeros + front;
    if front == [] {
      assert zeros + front == zeros;
      ZerosAre(k);
    } else {
      ZerosAdd(k, front);
    }
  }

  lemma {:induction false} ZerosAre(k: nat)
    ensures var zeros := seq(k, _ => '0'); (k > 0 ==> IsNumeral(zeros, 16)) && Value(zeros, 16) == 0
  {
    if k > 0 {
      assert seq(k, _ => '0')[..k - 1] == seq(k - 1, _ => '0');
      ZerosAre(k - 1);
    }
  }
}

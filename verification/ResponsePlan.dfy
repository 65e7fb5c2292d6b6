/** The response planner (crates/envoy-files-core/src/response_plan.rs). */
module ResponsePlan {
  import opened Text
  import opened Ranges
  import opened Multipart
  import opened Validators

  datatype FileMeta = FileMeta(size: U64, mtimeUnix: I64, mtimeNanos: U32)

  datatype BodyPlan =
    | Empty
    | Whole(len: U64)
    | Segments(ranges: seq<ByteRange>)
    | Multi(parts: seq<Part>, terminator: Bytes, contentLength: U64)

  datatype RequestFacts = RequestFacts(
    methodHead: bool,
    conditionals: ConditionalHeaders,
    rangeHeader: Option<string>,
    contentType: Bytes,
    etagEnabled: bool,
    lastModifiedEnabled: bool,
    rangePolicy: RangePolicy,
    boundary: Bytes,
    contentEncoding: Option<Bytes>,
    addVary: bool,
    cacheControl: Option<Bytes>)

  /** A date is kept as a number: its text is the `httpdate` crate's. */
  datatype HeaderValue = Plain(text: Bytes) | HttpDate(unix: int)

  /** The `http` crate's constants for the names used here. */
  datatype HeaderName =
    | ContentType | ContentLengthName | ContentRangeName | ContentEncoding | AcceptRanges
    | ETag | LastModified | Vary | CacheControl

  datatype Header = Header(name: HeaderName, value: HeaderValue)

  datatype Plan = Plan(status: nat, headers: seq<Header>, body: BodyPlan)

  function ValidatorsOf(meta: FileMeta): Validators {
    Validators(MakeEtag(meta.size, meta.mtimeUnix, meta.mtimeNanos), meta.mtimeUnix)
  }

  /** A conditional is dropped when its validator is switched off. */
  function Effective(facts: RequestFacts): ConditionalHeaders {
    var c := facts.conditionals;
    ConditionalHeaders(
      if facts.etagEnabled then c.ifNoneMatch else Absent,
      if facts.lastModifiedEnabled then c.ifModifiedSince else Absent,
      if facts.etagEnabled then c.ifMatch else Absent,
      if facts.lastModifiedEnabled then c.ifUnmodifiedSince else Absent,
      c.ifRange)
  }

  function PushValidatorHeaders(headers: seq<Header>, facts: RequestFacts, v: Validators): seq<Header> {
    headers
    + (if facts.etagEnabled then [Header(ETag, Plain(v.etag))] else [])
    + (if facts.lastModifiedEnabled then [Header(LastModified, HttpDate(v.lastModified))] else [])
  }

  function PushEncodingHeaders(headers: seq<Header>, facts: RequestFacts): seq<Header> {
    headers
    + (if facts.contentEncoding.Some? then [Header(ContentEncoding, Plain(facts.contentEncoding.value))] else [])
    + (if facts.contentEncoding.Some? || facts.addVary then [Header(Vary, Plain("Accept-Encoding"))] else [])
    + (if facts.cacheControl.Some? then [Header(CacheControl, Plain(facts.cacheControl.value))] else [])
  }

  function Common(headers: seq<Header>, facts: RequestFacts, v: Validators): seq<Header> {
    PushEncodingHeaders(PushValidatorHeaders(headers, facts, v), facts)
  }

  function ContentLength(n: nat): Header {
    Header(ContentLengthName, Plain(Render(n, 10)))
  }

  /** The range outcome the response uses; `Full` when there is no usable one. */
  function UsedRange(facts: RequestFacts, meta: FileMeta): RangeOutcome {
    var usable := facts.conditionals.ifRange.Absent? || IfRangeMatches(facts.conditionals.ifRange, ValidatorsOf(meta));
    if facts.rangeHeader.Some? && usable then Ranges.Plan(facts.rangeHeader.value, meta.size, facts.rangePolicy)
    else Full
  }

  function MultipartFrame(facts: RequestFacts, meta: FileMeta): Frame {
    Frame(facts.contentType, meta.size, facts.boundary)
  }

  function PlanResponse(facts: RequestFacts, meta: FileMeta): Plan {
    var v := ValidatorsOf(meta);
    match EvaluateConditionals(Effective(facts), v)
    case PreconditionFailed => Plan(412, [], Empty)
    case NotModified => Plan(304, PushValidatorHeaders([], facts, v), Empty)
    case Proceed => PlanRange(facts, meta, UsedRange(facts, meta))
  }

  function PlanRange(facts: RequestFacts, meta: FileMeta, outcome: RangeOutcome): Plan {
    var v := ValidatorsOf(meta);
    match outcome
    case Unsatisfiable =>
      Plan(416, [Header(ContentRangeName, Plain(ContentRangeUnsatisfied(meta.size)))], Empty)
    case Single(range) =>
      var headers := Common([Header(ContentType, Plain(facts.contentType)), Header(AcceptRanges, Plain("bytes"))],
          facts, v);
      var rangeLen: int := range.end - range.start + 1;
      Plan(206,
        headers + [Header(ContentRangeName, Plain(ContentRange(range, meta.size)))]
                + [ContentLength(if 0 <= rangeLen then rangeLen else 0)],
        if facts.methodHead then Empty else Segments([range]))
    case Multi(ranges) =>
      var f := MultipartFrame(facts, meta);
      var parts, terminator := Parts(ranges, f), Terminator(f);
      var contentLength := Wrap64(ExactLength(parts) + |terminator|);
      Plan(206,
        Common([Header(AcceptRanges, Plain("bytes"))], facts, v)
        + [Header(ContentType, Plain("multipart/byteranges; boundary=" + facts.boundary))]
        + [ContentLength(contentLength)],
        if facts.methodHead then Empty else BodyPlan.Multi(parts, terminator, contentLength))
    case Full =>
      var headers := Common([Header(ContentType, Plain(facts.contentType)), Header(AcceptRanges, Plain("bytes"))],
          facts, v);
      Plan(200, headers + [ContentLength(meta.size)], if facts.methodHead then Empty else Whole(meta.size))
  }

  // --------------------------------------------------- the planner, step by step

  method PushValidators(headers: seq<Header>, facts: RequestFacts, v: Validators) returns (more: seq<Header>)
    ensures more == PushValidatorHeaders(headers, facts, v)
  {
    more := headers;
    if facts.etagEnabled {
      more := more + [Header(ETag, Plain(v.etag))];
    }
    if facts.lastModifiedEnabled {
      more := more + [Header(LastModified, HttpDate(v.lastModified))];
    }
  }

  method PushEncodings(headers: seq<Header>, facts: RequestFacts) returns (more: seq<Header>)
    ensures more == PushEncodingHeaders(headers, facts)
  {
    more := headers;
    if facts.contentEncoding.Some? {
      more := more + [Header(ContentEncoding, Plain(facts.contentEncoding.value))];
    }
    if facts.contentEncoding.Some? || facts.addVary {
      more := more + [Header(Vary, Plain("Accept-Encoding"))];
    }
    if facts.cacheControl.Some? {
      more := more + [Header(CacheControl, Plain(facts.cacheControl.value))];
    }
  }

  /** `plan_response`: every `return` of the source, with the header list it has
      built by then. */
  method Respond(facts: RequestFacts, meta: FileMeta) returns (plan: Plan)
    ensures plan == PlanResponse(facts, meta)
  {
    hide Ranges.Plan, EvaluateConditionals, Render, Parts, Terminator, ExactLength, Wrap64, MakeEtag,
      PushValidatorHeaders, PushEncodingHeaders, ContentRange, ContentRangeUnsatisfied, IfRangeMatches;
    var v := ValidatorsOf(meta);
    var condition := EvaluateConditionals(Effective(facts), v);
    if condition.PreconditionFailed? {
      return Plan(412, [], Empty);
    }
    if condition.NotModified? {
      var headers := PushValidators([], facts, v);
      return Plan(304, headers, Empty);
    }
    if facts.rangeHeader.Some? {
      var ifRangeOk := facts.conditionals.ifRange.Absent? || IfRangeMatches(facts.conditionals.ifRange, v);
      if ifRangeOk {
        var outcome := PlanRanges(facts.rangeHeader.value, meta.size, facts.rangePolicy);
        PlanIsSound(facts.rangeHeader.value, meta.size, facts.rangePolicy);
        match outcome {
          case Unsatisfiable =>
            return Plan(416, [Header(ContentRangeName, Plain(ContentRangeUnsatisfied(meta.size)))], Empty);
          case Single(range) =>
            plan := RespondSingle(facts, meta, range);
            return;
          case Multi(ranges) =>
            plan := RespondMulti(facts, meta, ranges);
            return;
          case Full =>
        }
      }
    }
    var headers := [Header(ContentType, Plain(facts.contentType)), Header(AcceptRanges, Plain("bytes"))];
    headers := PushValidators(headers, facts, v);
    headers := PushEncodings(headers, facts);
    headers := headers + [ContentLength(meta.size)];
    plan := Plan(200, headers, if facts.methodHead then Empty else Whole(meta.size));
  }

  method RespondSingle(facts: RequestFacts, meta: FileMeta, range: ByteRange) returns (plan: Plan)
    requires InBounds(range, meta.size)
    ensures plan == PlanRange(facts, meta, Single(range))
  {
    hide Render, PushValidatorHeaders, PushEncodingHeaders, ContentRange, MakeEtag;
    var v := ValidatorsOf(meta);
    var headers := [Header(ContentType, Plain(facts.contentType)), Header(AcceptRanges, Plain("bytes"))];
    headers := PushValidators(headers, facts, v);
    headers := PushEncodings(headers, facts);
    var rangeLen: U64 := range.end - range.start + 1; // no wrap: the range lies inside the file
    headers := headers + [Header(ContentRangeName, Plain(ContentRange(range, meta.size)))];
    headers := headers + [ContentLength(rangeLen)];
    plan := Plan(206, headers, if facts.methodHead then Empty else Segments([range]));
  }

  method RespondMulti(facts: RequestFacts, meta: FileMeta, ranges: seq<ByteRange>) returns (plan: Plan)
    requires forall r :: r in ranges ==> InBounds(r, meta.size)
    ensures plan == PlanRange(facts, meta, RangeOutcome.Multi(ranges))
  {
    hide Render, PushValidatorHeaders, PushEncodingHeaders, MakeEtag, Parts, Terminator, ExactLength, Wrap64;
    var v := ValidatorsOf(meta);
    var parts, terminator, contentLength := MultipartParts(ranges, MultipartFrame(facts, meta));
    var headers := [Header(AcceptRanges, Plain("bytes"))];
    headers := PushValidators(headers, facts, v);
    headers := PushEncodings(headers, facts);
    headers := headers + [Header(ContentType, Plain("multipart/byteranges; boundary=" + facts.boundary))];
    headers := headers + [ContentLength(contentLength)];
    plan := Plan(206, headers, if facts.methodHead then Empty else BodyPlan.Multi(parts, terminator, contentLength));
  }

  // ------------------------------------------------------ the planned bytes

  predicate BodyFits(body: BodyPlan, size: nat) {
    match body
    case Empty => true
    case Whole(len) => len == size
    case Segments(ranges) => forall r :: r in ranges ==> InBounds(r, size)
    case Multi(parts, _, _) => forall p :: p in parts ==> InBounds(p.range, size)
  }

  function Slices(ranges: seq<ByteRange>, file: Bytes): Bytes
    requires forall r :: r in ranges ==> InBounds(r, |file|)
  {
    if ranges == [] then [] else Slices(ranges[..|ranges| - 1], file) + Slice(file, ranges[|ranges| - 1])
  }

  /** The bytes a body plan stands for. */
  function BodyBytes(body: BodyPlan, file: Bytes): Bytes
    requires BodyFits(body, |file|)
  {
    match body
    case Empty => []
    case Whole(len) => file
    case Segments(ranges) => Slices(ranges, file)
    case Multi(parts, terminator, _) => Assemble(parts, file) + terminator
  }

  /** The values of the fields of a name, in order. */
  function Values(headers: seq<Header>, name: HeaderName): seq<HeaderValue> {
    if headers == [] then []
    else
      var before := Values(headers[..|headers| - 1], name);
      if headers[|headers| - 1].name == name then before + [headers[|headers| - 1].value] else before
  }

  lemma {:induction false} NoContentLength(headers: seq<Header>)
    requires forall h :: h in headers ==> h.name != ContentLengthName
    ensures Values(headers, ContentLengthName) == []
  {
    if headers != [] {
      NoContentLength(headers[..|headers| - 1]);
    }
  }

  lemma OneContentLength(headers: seq<Header>, n: nat)
    requires forall h :: h in headers ==> h.name != ContentLengthName
    ensures Values(headers + [ContentLength(n)], ContentLengthName) == [Plain(Render(n, 10))]
  {
    NoContentLength(headers);
    assert (headers + [ContentLength(n)])[..|headers|] == headers;
  }

  lemma CommonNames(headers: seq<Header>, facts: RequestFacts, v: Validators)
    requires forall h :: h in headers ==> h.name != ContentLengthName
    ensures forall h :: h in Common(headers, facts, v) ==> h.name != ContentLengthName
  {
  }

  lemma OneMoreName(headers: seq<Header>, h: Header)
    requires h.name != ContentLengthName && forall x :: x in headers ==> x.name != ContentLengthName
    ensures forall x :: x in headers + [h] ==> x.name != ContentLengthName
  {
  }

  /** The planned ranges lie inside the file. */
  lemma PlannedBodyFits(facts: RequestFacts, meta: FileMeta)
    ensures BodyFits(PlanResponse(facts, meta).body, meta.size)
  {
    if facts.rangeHeader.Some? {
      PlanIsSound(facts.rangeHeader.value, meta.size, facts.rangePolicy);
    }
  }

  predicate NamesLength(plan: Plan, n: nat) {
    Values(plan.headers, ContentLengthName) == [Plain(Render(n, 10))]
  }

  lemma LengthOfFull(facts: RequestFacts, meta: FileMeta)
    ensures NamesLength(PlanRange(facts, meta, Full), meta.size)
  {
    hide Render;
    var start := [Header(ContentType, Plain(facts.contentType)), Header(AcceptRanges, Plain("bytes"))];
    CommonNames(start, facts, ValidatorsOf(meta));
    OneContentLength(Common(start, facts, ValidatorsOf(meta)), meta.size);
  }

  lemma LengthOfSingle(facts: RequestFacts, meta: FileMeta, range: ByteRange)
    requires InBounds(range, meta.size)
    ensures NamesLength(PlanRange(facts, meta, Single(range)), range.end - range.start + 1)
  {
    hide Render, Common, Values, ContentLength, ValidatorsOf, ContentRange;
    var start := [Header(ContentType, Plain(facts.contentType)), Header(AcceptRanges, Plain("bytes"))];
    CommonNames(start, facts, ValidatorsOf(meta));
    var common, where := Common(start, facts, ValidatorsOf(meta)), Plain(ContentRange(range, meta.size));
    OneMoreName(common, Header(ContentRangeName, where));
    OneContentLength(common + [Header(ContentRangeName, where)], range.end - range.start + 1);
  }

  lemma LengthOfMulti(facts: RequestFacts, meta: FileMeta, ranges: seq<ByteRange>)
    ensures var f := MultipartFrame(facts, meta);
            NamesLength(PlanRange(facts, meta, RangeOutcome.Multi(ranges)),
                Wrap64(ExactLength(Parts(ranges, f)) + |Terminator(f)|))
  {
    hide Render, Parts, Terminator, ExactLength, Wrap64, Common, Values, ContentLength, ValidatorsOf;
    var f := MultipartFrame(facts, meta);
    var start := [Header(AcceptRanges, Plain("bytes"))];
    CommonNames(start, facts, ValidatorsOf(meta));
    var common, kind := Common(start, facts, ValidatorsOf(meta)), "multipart/byteranges; boundary=" + facts.boundary;
    var headers := common + [Header(ContentType, Plain(kind))];
    OneMoreName(common, Header(ContentType, Plain(kind)));
    OneContentLength(headers, Wrap64(ExactLength(Parts(ranges, f)) + |Terminator(f)|));
  }

  lemma BodyOfSingle(range: ByteRange, file: Bytes)
    requires InBounds(range, |file|)
    ensures BodyFits(Segments([range]), |file|) && BodyBytes(Segments([range]), file) == Slice(file, range)
  {
    assert [range][..0] == [];
    assert Slices([range], file) == [] + Slice(file, range) == Slice(file, range);
  }

  /** A response with a body names its length exactly once; the number is the
      length of the planned bytes, unless those reach 2^64, which takes a
      multipart body over a file of nearly that size. */
  lemma AdvertisedLength(facts: RequestFacts, meta: FileMeta, file: Bytes)
    requires |file| == meta.size
    requires !PlanResponse(facts, meta).body.Empty?
    ensures var plan := PlanResponse(facts, meta);
            && BodyFits(plan.body, |file|)
            && (|BodyBytes(plan.body, file)| < TWO64 <==> NamesLength(plan, |BodyBytes(plan.body, file)|))
  {
    hide NamesLength, Render, Parts, Terminator, Wrap64, Common;
    PlannedBodyFits(facts, meta);
    var body := PlanResponse(facts, meta).body;
    match UsedRange(facts, meta) {
      case Full => LengthOfFull(facts, meta);
      case Single(range) =>
        BodyOfSingle(range, file);
        LengthOfSingle(facts, meta, range);
      case Multi(ranges) =>
        PlanIsSound(facts.rangeHeader.value, meta.size, facts.rangePolicy);
        MultiLength(facts, meta, ranges, file);
      case Unsatisfiable =>
    }
  }

  lemma MultiLength(facts: RequestFacts, meta: FileMeta, ranges: seq<ByteRange>, file: Bytes)
    requires forall r :: r in ranges ==> InBounds(r, |file|)
    ensures var f := MultipartFrame(facts, meta);
            var n := |Assemble(Parts(ranges, f), file) + Terminator(f)|;
            n < TWO64 <==> NamesLength(PlanRange(facts, meta, RangeOutcome.Multi(ranges)), n)
  {
    var f := MultipartFrame(facts, meta);
    PartsInBounds(ranges, f, file);
    LengthOfMulti(facts, meta, ranges);
    var plan, parts, terminator := PlanRange(facts, meta, RangeOutcome.Multi(ranges)), Parts(ranges, f), Terminator(f);
    hide *;
    NamedOrWrapped(plan, parts, terminator, file);
  }

  lemma PartsInBounds(ranges: seq<ByteRange>, f: Frame, file: Bytes)
    requires forall r :: r in ranges ==> InBounds(r, |file|)
    ensures forall p :: p in Parts(ranges, f) ==> InBounds(p.range, |file|)
  {
    hide PartHeader;
  }

  lemma NamedOrWrapped(plan: Plan, parts: seq<Part>, terminator: Bytes, file: Bytes)
    requires forall p :: p in parts ==> InBounds(p.range, |file|)
    requires NamesLength(plan, Wrap64(ExactLength(parts) + |terminator|))
    ensures var n := |Assemble(parts, file) + terminator|; n < TWO64 <==> NamesLength(plan, n)
  {
    hide NamesLength, Assemble, ExactLength, Wrap64;
    var n := |Assemble(parts, file) + terminator|;
    LengthWraps(parts, terminator, file);
    if NamesLength(plan, n) {
      OneNamedLength(plan, Wrap64(ExactLength(parts) + |terminator|), n);
    }
  }

  lemma OneNamedLength(plan: Plan, a: nat, b: nat)
    requires NamesLength(plan, a) && NamesLength(plan, b)
    ensures a == b
  {
    RenderInjective(a, b);
    hide Render, Values;
    assert [Plain(Render(a, 10))][0] == [Plain(Render(b, 10))][0];
  }

  lemma RenderInjective(a: nat, b: nat)
    ensures Render(a, 10) == Render(b, 10) ==> a == b
  {
    RenderValue(a, 10);
    RenderValue(b, 10);
  }

  /** The largest file a u64 length can name, asked for in two parts: the framing
      takes the body past 2^64, and the announced length is not its length. */
  lemma LengthCanWrap(facts: RequestFacts, meta: FileMeta, file: Bytes)
    requires |file| == meta.size == TWO64 - 1 && !facts.methodHead
    requires facts.conditionals == ConditionalHeaders(Absent, Absent, Absent, Absent, Absent)
    requires facts.rangePolicy.allowMulti && facts.rangePolicy.maxParts >= 2
    requires facts.rangeHeader == Some(PrintHeader(AsSpecs([ByteRange(0, 0), ByteRange(1, TWO64 - 2)])))
    ensures var plan := PlanResponse(facts, meta);
            && BodyFits(plan.body, |file|) && |BodyBytes(plan.body, file)| >= TWO64
            && !NamesLength(plan, |BodyBytes(plan.body, file)|)
  {
    hide NamesLength, Render, Wrap64, Common, PrintHeader, AsSpecs, PartHeader, Ranges.Plan;
    var ranges := [ByteRange(0, 0), ByteRange(1, TWO64 - 2)];
    PlanRoundTrip(ranges, meta.size, facts.rangePolicy);
    PlannedBodyFits(facts, meta);
    AdvertisedLength(facts, meta, file);
    var f := MultipartFrame(facts, meta);
    PartsInBounds(ranges, f, file);
    AssembledLength(Parts(ranges, f), file);
    LengthOfTwo(ranges[0], ranges[1], f);
    hide Parts, Assemble, ExactLength;
  }

  lemma LengthOfTwo(a: ByteRange, b: ByteRange, f: Frame)
    requires a.start <= a.end && b.start <= b.end
    ensures ExactLength(Parts([a, b], f)) + |Terminator(f)| > (a.end - a.start + 1) + (b.end - b.start + 1)
  {
    hide PartHeader;
    var parts := Parts([a, b], f);
    assert parts[..1][..0] == [] && parts[..1] == [parts[0]];
    assert ExactLength(parts[..1]) == |parts[0].header| + (a.end - a.start + 1);
  }

  /** What a file system can report: offsets are signed. */
  const MaxFile := 0x7FFF_FFFF_FFFF_FFFF

  /** Short of that wrap the one Content-Length is always the number of the
      planned bytes: for every file a file system can hold, at most 50 parts (the
      limit the filter sets) and framing text of at most 4 GiB. */
  lemma LengthIsExact(facts: RequestFacts, meta: FileMeta, file: Bytes)
    requires |file| == meta.size <= MaxFile && !PlanResponse(facts, meta).body.Empty?
    requires facts.rangePolicy.maxParts <= 50 && |facts.contentType| + |facts.boundary| <= 0x1_0000_0000
    ensures var plan := PlanResponse(facts, meta);
            BodyFits(plan.body, |file|) && NamesLength(plan, |BodyBytes(plan.body, file)|)
  {
    hide NamesLength, Parts, Terminator, Common, Ranges.Plan, EvaluateConditionals, FramePerPart;
    AdvertisedLength(facts, meta, file);
    match UsedRange(facts, meta) {
      case Single(range) =>
        PlanIsSound(facts.rangeHeader.value, meta.size, facts.rangePolicy);
        BodyOfSingle(range, file);
      case Multi(ranges) =>
        PlanIsSound(facts.rangeHeader.value, meta.size, facts.rangePolicy);
        MultiIsShort(ranges, MultipartFrame(facts, meta), file);
      case _ =>
    }
  }

  lemma MultiIsShort(ranges: seq<ByteRange>, f: Frame, file: Bytes)
    requires forall r :: r in ranges ==> InBounds(r, |file|)
    requires |ranges| <= 50 && TotalLength(ranges) <= |file| <= MaxFile
    requires |f.contentType| + |f.boundary| <= 0x1_0000_0000
    ensures forall p :: p in Parts(ranges, f) ==> InBounds(p.range, |file|)
    ensures |Assemble(Parts(ranges, f), file) + Terminator(f)| < TWO64
  {
    PartsInBounds(ranges, f, file);
    AssembledLength(Parts(ranges, f), file);
    FramedLength(ranges, f);
    AtMostFifty(|ranges|, FramePerPart(f));
    hide Parts, Assemble, ExactLength, TotalLength;
  }

  lemma AtMostFifty(n: nat, c: nat)
    requires n <= 50
    ensures n * c <= 50 * c
  {
  }

  /** HEAD answers with the status and headers of the same GET, and no body. */
  lemma HeadMirrorsGet(facts: RequestFacts, meta: FileMeta)
    ensures var head := PlanResponse(facts.(methodHead := true), meta);
            var get := PlanResponse(facts.(methodHead := false), meta);
            head.status == get.status && head.headers == get.headers && head.body == Empty
  {
    var h, g := facts.(methodHead := true), facts.(methodHead := false);
    HeadRange(facts, meta, UsedRange(facts, meta));
    hide PlanRange, Ranges.Plan;
    assert UsedRange(h, meta) == UsedRange(facts, meta) == UsedRange(g, meta);
  }

  /** Section 14.2 of RFC 9110 defines Range for GET only; a HEAD is answered as
      if it had none exactly when a precondition decides it, or the header is not
      used anyway. */
  lemma HeadIgnoresRange(facts: RequestFacts, meta: FileMeta)
    requires facts.methodHead
    ensures PlanResponse(facts, meta) == PlanResponse(facts.(rangeHeader := None), meta) <==>
              !EvaluateConditionals(Effective(facts), ValidatorsOf(meta)).Proceed? || UsedRange(facts, meta).Full?
  {
    hide EvaluateConditionals, Ranges.Plan, IfRangeMatches;
    var plain := facts.(rangeHeader := None);
    assert Effective(plain) == Effective(facts);
    RangeAside(facts, meta, UsedRange(facts, meta));
    RangeStatus(facts, meta, UsedRange(facts, meta));
    hide PlanRange;
  }

  /** Past the choice of a range, the Range header no longer matters. */
  lemma RangeAside(facts: RequestFacts, meta: FileMeta, outcome: RangeOutcome)
    ensures PlanRange(facts.(rangeHeader := None), meta, outcome) == PlanRange(facts, meta, outcome)
  {
    hide Render, Parts, Terminator, ExactLength, Wrap64;
    var other, v := facts.(rangeHeader := None), ValidatorsOf(meta);
    forall headers ensures Common(headers, other, v) == Common(headers, facts, v) {}
    hide Common, ValidatorsOf, ContentRange, ContentRangeUnsatisfied, ContentLength;
  }

  lemma RangeStatus(facts: RequestFacts, meta: FileMeta, outcome: RangeOutcome)
    ensures PlanRange(facts, meta, outcome).status == 200 <==> outcome.Full?
    ensures PlanRange(facts, meta, Full).status == 200
  {
    hide Common, Render, Parts, Terminator, ExactLength, Wrap64, ContentRange, ContentRangeUnsatisfied, ContentLength;
  }

  /** A HEAD with a Range that is answered 206. */
  lemma HeadGetsRange(facts: RequestFacts, meta: FileMeta)
    requires facts.methodHead && facts.rangeHeader == Some("bytes=0-0") && meta.size > 0
    requires facts.conditionals == ConditionalHeaders(Absent, Absent, Absent, Absent, Absent)
    ensures PlanResponse(facts, meta).status == 206 && PlanResponse(facts, meta).body == Empty
    ensures PlanResponse(facts.(rangeHeader := None), meta).status == 200
  {
    var ranges := [ByteRange(0, 0)];
    PlanRoundTrip(ranges, meta.size, facts.rangePolicy);
    FirstByte();
    RangeStatus(facts.(rangeHeader := None), meta, Full);
    hide Ranges.Plan, PrintHeader, Common, Render, ContentRange, ContentLength;
  }

  lemma FirstByte()
    ensures PrintHeader(AsSpecs([ByteRange(0, 0)])) == "bytes=0-0"
  {
    var specs := AsSpecs([ByteRange(0, 0)]);
    assert specs == [FromTo(0, Some(0))];
    assert Render(0, 10) == "0" by { assert DigitChar(0) == '0'; }
    assert Print(specs[0]) == "0" + "-" + "0" == "0-0";
    assert PrintAll(specs) == ["0-0"];
    assert "bytes=" + "0-0" == "bytes=0-0";
  }

  lemma HeadRange(facts: RequestFacts, meta: FileMeta, outcome: RangeOutcome)
    ensures var head := PlanRange(facts.(methodHead := true), meta, outcome);
            var get := PlanRange(facts.(methodHead := false), meta, outcome);
            head.status == get.status && head.headers == get.headers && head.body == Empty
  {
    hide Render, Parts, Terminator, ExactLength, Wrap64;
    var h, g := facts.(methodHead := true), facts.(methodHead := false);
    var v := ValidatorsOf(meta);
    forall headers ensures Common(headers, h, v) == Common(headers, g, v) {}
    hide Common, ValidatorsOf, ContentRange, ContentRangeUnsatisfied, ContentLength;
  }

  // ------------------------------------------------------------ encoding headers

  predicate Has(headers: seq<Header>, name: HeaderName) {
    exists i :: 0 <= i < |headers| && headers[i].name == name
  }

  lemma HasConcat(a: seq<Header>, b: seq<Header>, name: HeaderName)
    ensures Has(a + b, name) <==> Has(a, name) || Has(b, name)
  {
    if i :| 0 <= i < |a| && a[i].name == name {
      assert (a + b)[i].name == name;
    }
    if i :| 0 <= i < |b| && b[i].name == name {
      assert (a + b)[|a| + i].name == name;
    }
  }

  lemma PushesAppend(headers: seq<Header>, facts: RequestFacts, v: Validators)
    ensures PushValidatorHeaders(headers, facts, v) == headers + PushValidatorHeaders([], facts, v)
    ensures PushEncodingHeaders(headers, facts) == headers + PushEncodingHeaders([], facts)
  {
  }

  lemma PushedHave(facts: RequestFacts, v: Validators)
    ensures !Has(PushValidatorHeaders([], facts, v), Vary) && !Has(PushValidatorHeaders([], facts, v), ContentEncoding)
    ensures Has(PushEncodingHeaders([], facts), Vary) <==> facts.contentEncoding.Some? || facts.addVary
    ensures Has(PushEncodingHeaders([], facts), ContentEncoding) <==> facts.contentEncoding.Some?
  {
    var encodings := PushEncodingHeaders([], facts);
    if facts.contentEncoding.Some? {
      assert encodings[0].name == ContentEncoding && encodings[1].name == Vary;
    } else if facts.addVary {
      assert encodings[0].name == Vary;
    }
  }

  lemma CommonHas(headers: seq<Header>, facts: RequestFacts, v: Validators)
    requires !Has(headers, Vary) && !Has(headers, ContentEncoding)
    ensures var common := Common(headers, facts, v);
            && (Has(common, Vary) <==> facts.contentEncoding.Some? || facts.addVary)
            && (Has(common, ContentEncoding) <==> facts.contentEncoding.Some?)
  {
    hide Has, PushValidatorHeaders, PushEncodingHeaders;
    PushesAppend(headers, facts, v);
    PushesAppend(PushValidatorHeaders(headers, facts, v), facts, v);
    PushedHave(facts, v);
    forall name | name == Vary || name == ContentEncoding
      ensures Has(Common(headers, facts, v), name) <==> Has(PushEncodingHeaders([], facts), name) {
      HasConcat(PushValidatorHeaders(headers, facts, v), PushEncodingHeaders([], facts), name);
      HasConcat(headers, PushValidatorHeaders([], facts, v), name);
    }
  }

  lemma RangeHas(facts: RequestFacts, meta: FileMeta, outcome: RangeOutcome)
    requires !outcome.Unsatisfiable?
    ensures var headers := PlanRange(facts, meta, outcome).headers;
            && (Has(headers, Vary) <==> facts.contentEncoding.Some? || facts.addVary)
            && (Has(headers, ContentEncoding) <==> facts.contentEncoding.Some?)
  {
    hide Render, Parts, Terminator, ExactLength, Wrap64, ContentRange, MakeEtag;
    var v := ValidatorsOf(meta);
    var start := if outcome.Multi? then [Header(AcceptRanges, Plain("bytes"))]
                 else [Header(ContentType, Plain(facts.contentType)), Header(AcceptRanges, Plain("bytes"))];
    CommonHas(start, facts, v);
    hide Common, ValidatorsOf;
    var common, headers := Common(start, facts, v), PlanRange(facts, meta, outcome).headers;
    assert headers == common + headers[|common|..];
    forall name | name == Vary || name == ContentEncoding ensures Has(headers, name) <==> Has(common, name) {
      HasConcat(common, headers[|common|..], name);
    }
  }

  /** Every 200 and 206 says Vary when the content is encoded or other encodings
      were on offer, and Content-Encoding when it is encoded, and not otherwise. */
  lemma VaryFollows(facts: RequestFacts, meta: FileMeta)
    requires PlanResponse(facts, meta).status in {200, 206}
    ensures var headers := PlanResponse(facts, meta).headers;
            && (Has(headers, Vary) <==> facts.contentEncoding.Some? || facts.addVary)
            && (Has(headers, ContentEncoding) <==> facts.contentEncoding.Some?)
  {
    hide Ranges.Plan, Has, EvaluateConditionals;
    if !UsedRange(facts, meta).Unsatisfiable? {
      RangeHas(facts, meta, UsedRange(facts, meta));
    }
    hide Common, ContentLength;
  }

  /** The fields section 15.4.5 of RFC 9110 asks a 304 to repeat from the 200,
      as far as this server sends them. */
  predicate Repeats(name: HeaderName) {
    name in {ETag, Vary, CacheControl}
  }

  function Unconditional(facts: RequestFacts): RequestFacts {
    facts.(conditionals := ConditionalHeaders(Absent, Absent, Absent, Absent, Absent), rangeHeader := None)
  }

  /** A 304 repeats the fields of the 200 it stands for if and only if that 200
      has no Vary and no Cache-Control: those are never repeated, the ETag always. */
  lemma NotModifiedRepeats(facts: RequestFacts, meta: FileMeta)
    requires PlanResponse(facts, meta).status == 304
    ensures PlanResponse(Unconditional(facts), meta).status == 200
    ensures var ok, short := PlanResponse(Unconditional(facts), meta).headers, PlanResponse(facts, meta).headers;
            && ((forall h :: h in ok && Repeats(h.name) ==> h in short) <==>
                  facts.contentEncoding.None? && !facts.addVary && facts.cacheControl.None?)
            && !Has(short, Vary) && !Has(short, CacheControl)
            && (forall h :: h in ok && h.name == ETag ==> h in short)
  {
    NotModifiedHeaders(facts, meta);
    UnconditionalHeaders(facts, meta);
    TagsApart(facts, ValidatorsOf(meta));
    hide PlanResponse, PushValidatorHeaders, PushEncodingHeaders, Unconditional, Render, ValidatorsOf, ContentLength;
    var tags, codings := PushValidatorHeaders([], facts, ValidatorsOf(meta)), PushEncodingHeaders([], facts);
    var kinds := [Header(ContentType, Plain(facts.contentType)), Header(AcceptRanges, Plain("bytes"))];
    RepeatedAreIn(kinds, tags, codings, ContentLength(meta.size));
    HasNone(tags, Vary);
    HasNone(tags, CacheControl);
    hide Has;
  }

  lemma RepeatedAreIn(kinds: seq<Header>, tags: seq<Header>, codings: seq<Header>, last: Header)
    requires !Repeats(last.name) && forall h :: h in kinds ==> !Repeats(h.name)
    ensures forall h :: h in kinds + tags + codings + [last] && Repeats(h.name) ==> h in tags || h in codings
    ensures forall h :: h in tags || h in codings ==> h in kinds + tags + codings + [last]
  {
  }

  lemma HasNone(headers: seq<Header>, name: HeaderName)
    ensures !Has(headers, name) <==> forall h :: h in headers ==> h.name != name
  {
  }

  lemma NotModifiedHeaders(facts: RequestFacts, meta: FileMeta)
    requires PlanResponse(facts, meta).status == 304
    ensures PlanResponse(facts, meta).headers == PushValidatorHeaders([], facts, ValidatorsOf(meta))
  {
    hide Ranges.Plan, EvaluateConditionals, PushValidatorHeaders, PushEncodingHeaders, ValidatorsOf, ContentLength,
      Parts, Terminator, ExactLength, ContentRange, ContentRangeUnsatisfied, Render;
  }

  /** The plain 200, header by header. */
  lemma UnconditionalHeaders(facts: RequestFacts, meta: FileMeta)
    ensures var plan := PlanResponse(Unconditional(facts), meta);
            && plan.status == 200
            && plan.headers == [Header(ContentType, Plain(facts.contentType)), Header(AcceptRanges, Plain("bytes"))]
                               + PushValidatorHeaders([], facts, ValidatorsOf(meta)) + PushEncodingHeaders([], facts)
                               + [ContentLength(meta.size)]
  {
    hide Render, ValidatorsOf;
    var full, v := Unconditional(facts), ValidatorsOf(meta);
    var kinds := [Header(ContentType, Plain(facts.contentType)), Header(AcceptRanges, Plain("bytes"))];
    PushesAppend(kinds, full, v);
    PushesAppend(PushValidatorHeaders(kinds, full, v), full, v);
    assert PushValidatorHeaders([], full, v) == PushValidatorHeaders([], facts, v);
    assert PushEncodingHeaders([], full) == PushEncodingHeaders([], facts);
    hide PushValidatorHeaders, PushEncodingHeaders, ContentLength;
    assert EvaluateConditionals(Effective(full), v).Proceed?;
  }

  lemma TagsApart(facts: RequestFacts, v: Validators)
    ensures var tags, codings := PushValidatorHeaders([], facts, v), PushEncodingHeaders([], facts);
            && !Has(tags, Vary) && !Has(tags, CacheControl)
            && (forall h :: h in codings ==> h.name != ETag)
            && (facts.contentEncoding.Some? || facts.addVary ==> Header(Vary, Plain("Accept-Encoding")) in codings)
            && (facts.cacheControl.Some? ==> Header(CacheControl, Plain(facts.cacheControl.value)) in codings)
            && (facts.contentEncoding.None? && !facts.addVary && facts.cacheControl.None? ==> codings == [])
  {
  }

  // ------------------------------------------------------- replayed validators

  function TagOf(meta: FileMeta): EntityTag {
    EntityTag(false, ValidatorsOf(meta).etag)
  }

  /** A client that replays the ETag it was served gets 304 if and only if the
      size and the modification time are still the same, whatever it says in
      If-Modified-Since and Range. */
  lemma ReplayedEtag(facts: RequestFacts, served: FileMeta, now: FileMeta, weak: bool)
    requires facts.etagEnabled
    requires facts.conditionals.ifNoneMatch == Present(Tags([EntityTag(weak, TagOf(served).tag)]))
    requires facts.conditionals.ifMatch.Absent? && facts.conditionals.ifUnmodifiedSince.Absent?
    ensures PlanResponse(facts, now).status == 304 <==> served == now
    ensures served == now ==> PlanResponse(facts, now).body == Empty
  {
    EtagInjective(served.size, served.mtimeUnix, served.mtimeNanos, now.size, now.mtimeUnix, now.mtimeNanos);
    var tags := [EntityTag(weak, TagOf(served).tag)];
    assert MatchesWeak(Tags(tags), TagOf(now)) <==> WeakEq(tags[0], TagOf(now));
  }

  /** A client that resumes with If-Range and the ETag it was served gets the
      range if and only if the file is still the same; else the whole file. */
  lemma ReplayedIfRange(facts: RequestFacts, served: FileMeta, now: FileMeta)
    requires facts.conditionals == ConditionalHeaders(Absent, Absent, Absent, Absent, Present(IfTag(TagOf(served))))
    requires facts.rangeHeader.Some?
    requires !Ranges.Plan(facts.rangeHeader.value, now.size, facts.rangePolicy).Full?
    ensures PlanResponse(facts, now).status in {206, 416} <==> served == now
    ensures served != now ==> PlanResponse(facts, now).status == 200
  {
    EtagInjective(served.size, served.mtimeUnix, served.mtimeNanos, now.size, now.mtimeUnix, now.mtimeNanos);
  }

  /** Section 13.2.2 of RFC 9110: If-Unmodified-Since does not matter beside an
      If-Match, decodable or not. */
  lemma UnmodifiedYieldsToMatch(facts: RequestFacts, meta: FileMeta, unmodified: Field<int>)
    requires facts.etagEnabled && !facts.conditionals.ifMatch.Absent?
    ensures PlanResponse(facts.(conditionals := facts.conditionals.(ifUnmodifiedSince := unmodified)), meta)
            == PlanResponse(facts, meta)
  {
    SameAnswer(facts, facts.conditionals.(ifUnmodifiedSince := unmodified), meta);
  }

  /** ... and If-Modified-Since does not matter beside an If-None-Match. */
  lemma ModifiedYieldsToNoneMatch(facts: RequestFacts, meta: FileMeta, since: Field<int>)
    requires facts.etagEnabled && !facts.conditionals.ifNoneMatch.Absent?
    ensures PlanResponse(facts.(conditionals := facts.conditionals.(ifModifiedSince := since)), meta)
            == PlanResponse(facts, meta)
  {
    SameAnswer(facts, facts.conditionals.(ifModifiedSince := since), meta);
  }

  /** Conditionals with the same If-Range that evaluate alike plan alike. */
  lemma SameAnswer(facts: RequestFacts, c: ConditionalHeaders, meta: FileMeta)
    requires c.ifRange == facts.conditionals.ifRange
    requires EvaluateConditionals(Effective(facts.(conditionals := c)), ValidatorsOf(meta))
             == EvaluateConditionals(Effective(facts), ValidatorsOf(meta))
    ensures PlanResponse(facts.(conditionals := c), meta) == PlanResponse(facts, meta)
  {
    SameRange(facts, c, meta, UsedRange(facts, meta));
    hide PlanRange, Ranges.Plan, EvaluateConditionals, IfRangeMatches;
    assert UsedRange(facts.(conditionals := c), meta) == UsedRange(facts, meta);
  }

  /** Past the preconditions, the conditionals no longer matter. */
  lemma SameRange(facts: RequestFacts, c: ConditionalHeaders, meta: FileMeta, outcome: RangeOutcome)
    ensures PlanRange(facts.(conditionals := c), meta, outcome) == PlanRange(facts, meta, outcome)
  {
    hide Render, Parts, Terminator, ExactLength, Wrap64;
    var other, v := facts.(conditionals := c), ValidatorsOf(meta);
    forall headers ensures Common(headers, other, v) == Common(headers, facts, v) {}
    hide Common, ValidatorsOf, ContentRange, ContentRangeUnsatisfied, ContentLength;
  }
}

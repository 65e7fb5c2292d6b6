/** What a planned response says in its header fields, read as a client reads
    them. */
module ResponseFields {
  import opened Text
  import opened Validators
  import opened Ranges
  import opened Multipart
  import opened RP = ResponsePlan

  // ------------------------------------------------------------------ lists of fields

  lemma {:induction false} ValuesConcat(a: seq<Header>, b: seq<Header>, name: HeaderName)
    ensures Values(a + b, name) == Values(a, name) + Values(b, name)
  {
    if b == [] {
      assert a + b == a;
    } else {
      assert (a + b)[..|a + b| - 1] == a + b[..|b| - 1];
      ValuesConcat(a, b[..|b| - 1], name);
    }
  }

  lemma ValuesOne(h: Header, name: HeaderName)
    ensures Values([h], name) == if h.name == name then [h.value] else []
    ensures Values([], name) == []
  {
    assert [h][..0] == [];
  }

  lemma ValuesTwo(a: Header, b: Header, name: HeaderName)
    ensures Values([a, b], name) ==
            (if a.name == name then [a.value] else []) + (if b.name == name then [b.value] else [])
  {
    ValuesOne(a, name);
    ValuesOne(b, name);
    ValuesConcat([a], [b], name);
    assert [a] + [b] == [a, b];
  }

  /** One value, or none. */
  function AtMostOne(present: bool, value: HeaderValue): seq<HeaderValue> {
    if present then [value] else []
  }

  function TextOf(text: Option<Bytes>): seq<HeaderValue> {
    if text.Some? then [Plain(text.value)] else []
  }

  // -------------------------------------------------------------------- the entity tag

  /** Quotes, and between them three texts parted by '-' and '.'. */
  ghost predicate SpellsTag(text: Bytes, a: string, b: string, c: string) {
    text == "\"" + (a + ("-" + (b + ("." + (c + "\"")))))
  }

  ghost predicate IsNumber(text: string, n: nat) {
    IsNumeral(text, 16) && Value(text, 16) == n
  }

  /** The text is a strong tag: the size, the seconds as a 64-bit pattern and the
      nanoseconds, in hexadecimal. */
  ghost predicate IsTagOf(text: Bytes, meta: FileMeta) {
    exists a: string, b: string, c: string ::
      && SpellsTag(text, a, b, c)
      && IsNumber(a, meta.size) && IsNumber(b, meta.mtimeUnix % TWO64) && IsNumber(c, meta.mtimeNanos)
  }

  lemma TagReads(meta: FileMeta)
    ensures IsTagOf(ValidatorsOf(meta).etag, meta)
  {
    var a, b, c := Render(meta.size, 16), Render(Bits(meta.mtimeUnix), 16), Render(meta.mtimeNanos, 16);
    RenderValue(meta.size, 16);
    RenderValue(Bits(meta.mtimeUnix), 16);
    RenderValue(meta.mtimeNanos, 16);
    hide Render, Value, IsNumeral;
    assert SpellsTag(ValidatorsOf(meta).etag, a, b, c);
    hide SpellsTag, ValidatorsOf;
  }

  // ------------------------------------------------------------- fields of every 200, 206

  /** The fields that describe the file: each there exactly once, with its own
      value, exactly when it is due. */
  predicate DescribesFile(headers: seq<Header>, facts: RequestFacts, meta: FileMeta) {
    && Values(headers, ETag) == AtMostOne(facts.etagEnabled, Plain(ValidatorsOf(meta).etag))
    && Values(headers, LastModified) == AtMostOne(facts.lastModifiedEnabled, HttpDate(meta.mtimeUnix))
  }

  predicate DescribesCoding(headers: seq<Header>, facts: RequestFacts) {
    && Values(headers, ContentEncoding) == TextOf(facts.contentEncoding)
    && Values(headers, Vary) == AtMostOne(facts.contentEncoding.Some? || facts.addVary, Plain("Accept-Encoding"))
    && Values(headers, CacheControl) == TextOf(facts.cacheControl)
  }

  predicate Describes(headers: seq<Header>, facts: RequestFacts, meta: FileMeta) {
    DescribesFile(headers, facts, meta) && DescribesCoding(headers, facts)
      && Values(headers, AcceptRanges) == [Plain("bytes")]
  }

  lemma TagsValues(facts: RequestFacts, v: Validators, name: HeaderName)
    ensures Values(PushValidatorHeaders([], facts, v), name) ==
            if name == ETag then AtMostOne(facts.etagEnabled, Plain(v.etag))
            else if name == LastModified then AtMostOne(facts.lastModifiedEnabled, HttpDate(v.lastModified))
            else []
  {
    var a := if facts.etagEnabled then [Header(ETag, Plain(v.etag))] else [];
    var b := if facts.lastModifiedEnabled then [Header(LastModified, HttpDate(v.lastModified))] else [];
    ValuesOne(Header(ETag, Plain(v.etag)), name);
    ValuesOne(Header(LastModified, HttpDate(v.lastModified)), name);
    ValuesConcat(a, b, name);
    assert PushValidatorHeaders([], facts, v) == a + b;
    hide Values;
  }

  lemma CodingsValues(facts: RequestFacts, name: HeaderName)
    ensures Values(PushEncodingHeaders([], facts), name) ==
            if name == ContentEncoding then TextOf(facts.contentEncoding)
            else if name == Vary then
              AtMostOne(facts.contentEncoding.Some? || facts.addVary, Plain("Accept-Encoding"))
            else if name == CacheControl then TextOf(facts.cacheControl)
            else []
  {
    var a := OptionalField(ContentEncoding, facts.contentEncoding);
    var b := VaryField(facts.contentEncoding.Some? || facts.addVary);
    var c := OptionalField(CacheControl, facts.cacheControl);
    OptionalValues(ContentEncoding, facts.contentEncoding, name);
    ValuesOne(Header(Vary, Plain("Accept-Encoding")), name);
    assert Values(b, name) == if name == Vary then AtMostOne(b != [], Plain("Accept-Encoding")) else [];
    OptionalValues(CacheControl, facts.cacheControl, name);
    assert PushEncodingHeaders([], facts) == a + b + c;
    assert b != [] <==> facts.contentEncoding.Some? || facts.addVary;
    hide Values, PushEncodingHeaders, OptionalField, VaryField, TextOf, AtMostOne;
    ValuesConcat(a + b, c, name);
    ValuesConcat(a, b, name);
  }

  function VaryField(due: bool): seq<Header> {
    if due then [Header(Vary, Plain("Accept-Encoding"))] else []
  }

  function OptionalField(name: HeaderName, text: Option<Bytes>): seq<Header> {
    if text.Some? then [Header(name, Plain(text.value))] else []
  }

  lemma OptionalValues(field: HeaderName, text: Option<Bytes>, name: HeaderName)
    ensures Values(OptionalField(field, text), name) == if name == field then TextOf(text) else []
  {
    if text.Some? {
      ValuesOne(Header(field, Plain(text.value)), name);
    }
  }

  /** The fields of a 200 or 206 by name: `kinds`, the validators and the codings,
      then `last`. */
  lemma CommonValues(kinds: seq<Header>, facts: RequestFacts, v: Validators, last: seq<Header>, name: HeaderName)
    ensures Values(Common(kinds, facts, v) + last, name) ==
            Values(kinds, name) + Values(PushValidatorHeaders([], facts, v), name)
            + Values(PushEncodingHeaders([], facts), name) + Values(last, name)
  {
    PushesAppend(kinds, facts, v);
    PushesAppend(PushValidatorHeaders(kinds, facts, v), facts, v);
    var tags, codings := PushValidatorHeaders([], facts, v), PushEncodingHeaders([], facts);
    assert Common(kinds, facts, v) == kinds + tags + codings;
    hide Common, PushValidatorHeaders, PushEncodingHeaders, Values;
    ValuesConcat(kinds + tags + codings, last, name);
    ValuesConcat(kinds + tags, codings, name);
    ValuesConcat(kinds, tags, name);
  }

  /** The values a common field has when it is due. */
  function Due(facts: RequestFacts, v: Validators, name: HeaderName): seq<HeaderValue> {
    match name
    case ETag => AtMostOne(facts.etagEnabled, Plain(v.etag))
    case LastModified => AtMostOne(facts.lastModifiedEnabled, HttpDate(v.lastModified))
    case ContentEncoding => TextOf(facts.contentEncoding)
    case Vary => AtMostOne(facts.contentEncoding.Some? || facts.addVary, Plain("Accept-Encoding"))
    case CacheControl => TextOf(facts.cacheControl)
    case _ => []
  }

  lemma FieldValue(kinds: seq<Header>, facts: RequestFacts, v: Validators, last: seq<Header>, name: HeaderName)
    ensures Values(Common(kinds, facts, v) + last, name)
            == Values(kinds, name) + Due(facts, v, name) + Values(last, name)
  {
    CommonValues(kinds, facts, v, last, name);
    TagsValues(facts, v, name);
    CodingsValues(facts, name);
    hide Values, Common, PushValidatorHeaders, PushEncodingHeaders;
  }

  predicate Apart(headers: seq<Header>) {
    forall h :: h in headers ==> h.name !in {ETag, LastModified, ContentEncoding, Vary, CacheControl}
  }

  /** A common field has just the values that are due. */
  lemma CommonValue(kinds: seq<Header>, facts: RequestFacts, meta: FileMeta, last: seq<Header>, name: HeaderName)
    requires Apart(kinds) && Apart(last) && name in {ETag, LastModified, ContentEncoding, Vary, CacheControl}
    ensures Values(Common(kinds, facts, ValidatorsOf(meta)) + last, name) == Due(facts, ValidatorsOf(meta), name)
  {
    FieldValue(kinds, facts, ValidatorsOf(meta), last, name);
    NotThere(kinds, name);
    NotThere(last, name);
    hide Values, Common, Due, ValidatorsOf;
  }

  /** Headers that a 200 or 206 is made of. */
  lemma Described(kinds: seq<Header>, facts: RequestFacts, meta: FileMeta, last: seq<Header>)
    requires Apart(kinds) && Apart(last)
    requires Values(kinds, AcceptRanges) + Values(last, AcceptRanges) == [Plain("bytes")]
    ensures Describes(Common(kinds, facts, ValidatorsOf(meta)) + last, facts, meta)
  {
    CommonValue(kinds, facts, meta, last, ETag);
    CommonValue(kinds, facts, meta, last, LastModified);
    CommonValue(kinds, facts, meta, last, ContentEncoding);
    CommonValue(kinds, facts, meta, last, Vary);
    CommonValue(kinds, facts, meta, last, CacheControl);
    FieldValue(kinds, facts, ValidatorsOf(meta), last, AcceptRanges);
    hide Values, Common, MakeEtag, Apart;
  }

  lemma {:induction false} NotThere(headers: seq<Header>, name: HeaderName)
    requires forall h :: h in headers ==> h.name != name
    ensures Values(headers, name) == []
  {
    if headers != [] {
      NotThere(headers[..|headers| - 1], name);
    }
  }

  // ------------------------------------------------------------------- which answer

  /** The precondition fails: the file's tag is not on If-Match's list (strong
      comparison), or, without an If-Match, the file is newer than
      If-Unmodified-Since. */
  predicate Refused(etags: bool, dates: bool, c: ConditionalHeaders, meta: FileMeta) {
    var tag := ValidatorsOf(meta).etag;
    if etags && !c.ifMatch.Absent? then
      c.ifMatch.Present? && c.ifMatch.value != AnyTag && EntityTag(false, tag) !in TagsOn(c.ifMatch.value)
    else
      dates && c.ifUnmodifiedSince.Present? && c.ifUnmodifiedSince.value < meta.mtimeUnix
  }

  function TagsOn(l: TagList): seq<EntityTag> {
    if l.AnyTag? then [] else l.tags
  }

  /** The client's copy is the file: its tag is on If-None-Match's list, weak or
      not, or, without an If-None-Match, the file is no newer than
      If-Modified-Since. */
  predicate Current(etags: bool, dates: bool, c: ConditionalHeaders, meta: FileMeta) {
    var tag := ValidatorsOf(meta).etag;
    if etags && !c.ifNoneMatch.Absent? then
      && c.ifNoneMatch.Present?
      && (c.ifNoneMatch.value == AnyTag
          || EntityTag(false, tag) in TagsOn(c.ifNoneMatch.value)
          || EntityTag(true, tag) in TagsOn(c.ifNoneMatch.value))
    else
      dates && c.ifModifiedSince.Present? && meta.mtimeUnix <= c.ifModifiedSince.value
  }

  /** The client may be given a part: it sent no If-Range, or its If-Range holds
      the file's strong tag or a date no older than the file. */
  predicate MayResume(condition: Field<RangeCondition>, meta: FileMeta) {
    match condition
    case Absent => true
    case Undecodable => false
    case Present(IfTag(t)) => t == EntityTag(false, ValidatorsOf(meta).etag)
    case Present(IfDate(d)) => meta.mtimeUnix <= d
  }

  lemma StrongIsListed(l: TagList, tag: Bytes)
    ensures MatchesStrong(l, EntityTag(false, tag)) <==> l == AnyTag || EntityTag(false, tag) in TagsOn(l)
  {
    if l.Tags? && EntityTag(false, tag) in l.tags {
      var i :| 0 <= i < |l.tags| && l.tags[i] == EntityTag(false, tag);
      assert StrongEq(l.tags[i], EntityTag(false, tag));
    }
  }

  lemma WeakIsListed(l: TagList, tag: Bytes)
    ensures MatchesWeak(l, EntityTag(false, tag))
            <==> l == AnyTag || EntityTag(false, tag) in TagsOn(l) || EntityTag(true, tag) in TagsOn(l)
  {
    if l.Tags? {
      if MatchesWeak(l, EntityTag(false, tag)) {
        var i :| 0 <= i < |l.tags| && WeakEq(l.tags[i], EntityTag(false, tag));
        assert l.tags[i] == EntityTag(l.tags[i].weak, tag);
      }
      forall i | 0 <= i < |l.tags| && l.tags[i].tag == tag ensures MatchesWeak(l, EntityTag(false, tag)) {
        assert WeakEq(l.tags[i], EntityTag(false, tag));
      }
    }
  }

  lemma ConditionIs(facts: RequestFacts, meta: FileMeta)
    ensures EvaluateConditionals(Effective(facts), ValidatorsOf(meta)) ==
            if Refused(facts.etagEnabled, facts.lastModifiedEnabled, facts.conditionals, meta) then PreconditionFailed
            else if Current(facts.etagEnabled, facts.lastModifiedEnabled, facts.conditionals, meta) then NotModified
            else Proceed
  {
    var c, tag := facts.conditionals, ValidatorsOf(meta).etag;
    if c.ifMatch.Present? {
      StrongIsListed(c.ifMatch.value, tag);
    }
    if c.ifNoneMatch.Present? {
      WeakIsListed(c.ifNoneMatch.value, tag);
    }
    hide MatchesStrong, MatchesWeak, MakeEtag, TagsOn;
  }

  /** The range the answer is about, `Full` for the whole file. */
  function Chosen(facts: RequestFacts, meta: FileMeta): RangeOutcome {
    if facts.rangeHeader.Some? && MayResume(facts.conditionals.ifRange, meta) then
      Ranges.Plan(facts.rangeHeader.value, meta.size, facts.rangePolicy)
    else Full
  }

  lemma ChosenIs(facts: RequestFacts, meta: FileMeta)
    ensures Chosen(facts, meta) == UsedRange(facts, meta)
  {
    hide Ranges.Plan, MakeEtag;
  }

  /** The status of every answer: 412, then 304, by tags and dates; then by the
      Range header if it may be used. */
  lemma StatusExactly(facts: RequestFacts, meta: FileMeta)
    ensures PlanResponse(facts, meta).status ==
            if Refused(facts.etagEnabled, facts.lastModifiedEnabled, facts.conditionals, meta) then 412
            else if Current(facts.etagEnabled, facts.lastModifiedEnabled, facts.conditionals, meta) then 304
            else match Chosen(facts, meta)
              case Full => 200
              case Unsatisfiable => 416
              case _ => 206
  {
    ConditionIs(facts, meta);
    ChosenIs(facts, meta);
    hide Refused, Current, Chosen, UsedRange, Render, Parts, Terminator, ExactLength, Wrap64, ContentRange,
      ContentRangeUnsatisfied,
      EvaluateConditionals, Effective, ValidatorsOf, Common, ContentLength;
  }

  // --------------------------------------------------------------- what each answer says

  /** No field but these. */
  predicate SaysOnly(headers: seq<Header>, names: set<HeaderName>) {
    forall h :: h in headers ==> h.name in names
  }

  /** The whole file: its type and the fields due to it once each, and nothing of
      ranges. */
  lemma WholeSays(facts: RequestFacts, meta: FileMeta)
    requires PlanResponse(facts, meta).status == 200
    ensures var plan := PlanResponse(facts, meta);
            && Describes(plan.headers, facts, meta)
            && Values(plan.headers, ContentType) == [Plain(facts.contentType)]
            && Values(plan.headers, ContentRangeName) == []
            && plan.body == if facts.methodHead then Empty else Whole(meta.size)
  {
    StatusExactly(facts, meta);
    ConditionIs(facts, meta);
    ChosenIs(facts, meta);
    WholeHeaders(facts, meta);
    hide Refused, Current, Chosen, UsedRange, Values, Describes, EvaluateConditionals, Effective, ValidatorsOf, Common,
      ContentLength,
      Render;
  }

  function FileKinds(facts: RequestFacts): seq<Header> {
    [Header(ContentType, Plain(facts.contentType)), Header(AcceptRanges, Plain("bytes"))]
  }

  lemma KindsValues(facts: RequestFacts)
    ensures Apart(FileKinds(facts))
    ensures Values(FileKinds(facts), ContentType) == [Plain(facts.contentType)]
    ensures Values(FileKinds(facts), AcceptRanges) == [Plain("bytes")]
    ensures Values(FileKinds(facts), ContentRangeName) == []
  {
    var kinds := FileKinds(facts);
    ValuesTwo(kinds[0], kinds[1], ContentType);
    ValuesTwo(kinds[0], kinds[1], AcceptRanges);
    ValuesTwo(kinds[0], kinds[1], ContentRangeName);
    hide Values;
  }

  /** The fields of the file, whatever comes after them. */
  lemma FileSays(facts: RequestFacts, meta: FileMeta, last: seq<Header>)
    requires Apart(last) && Values(last, AcceptRanges) == [] && Values(last, ContentType) == []
    ensures var headers := Common(FileKinds(facts), facts, ValidatorsOf(meta)) + last;
            && Describes(headers, facts, meta)
            && Values(headers, ContentType) == [Plain(facts.contentType)]
            && Values(headers, ContentRangeName) == Values(last, ContentRangeName)
  {
    KindsValues(facts);
    FieldValue(FileKinds(facts), facts, ValidatorsOf(meta), last, ContentType);
    FieldValue(FileKinds(facts), facts, ValidatorsOf(meta), last, ContentRangeName);
    hide Values, FileKinds, Describes, Apart, Common, ValidatorsOf;
    Described(FileKinds(facts), facts, meta, last);
  }

  lemma WholeHeaders(facts: RequestFacts, meta: FileMeta)
    ensures var headers := PlanRange(facts, meta, Full).headers;
            && Describes(headers, facts, meta)
            && Values(headers, ContentType) == [Plain(facts.contentType)]
            && Values(headers, ContentRangeName) == []
  {
    var last := [ContentLength(meta.size)];
    ValuesOne(last[0], AcceptRanges);
    ValuesOne(last[0], ContentType);
    ValuesOne(last[0], ContentRangeName);
    assert PlanRange(facts, meta, Full).headers == Common(FileKinds(facts), facts, ValidatorsOf(meta)) + last;
    hide Values, Describes, Render, ValidatorsOf, Common, PlanRange;
    FileSays(facts, meta, last);
  }

  /** One part of the file: the one Content-Range reads back as the range that was
      asked for, inside the file, and the bytes sent are those of the file there. */
  lemma PartSays(facts: RequestFacts, meta: FileMeta, file: Bytes) returns (text: Bytes, r: ByteRange)
    requires PlanResponse(facts, meta).status == 206 && Chosen(facts, meta).Single? && |file| == meta.size
    ensures Chosen(facts, meta) == Single(r) && r.start <= r.end < meta.size
    ensures var plan := PlanResponse(facts, meta);
            && Describes(plan.headers, facts, meta)
            && Values(plan.headers, ContentType) == [Plain(facts.contentType)]
            && Values(plan.headers, ContentRangeName) == [Plain(text)]
            && ReadContentRange(text + "\r") == Some(RangeField(r.start, r.end, meta.size, "\r"))
    ensures var body := PlanResponse(facts, meta).body;
            && BodyFits(body, |file|)
            && BodyBytes(body, file) == if facts.methodHead then [] else file[r.start..r.end + 1]
  {
    ChosenFits(facts, meta);
    PlannedRange(facts, meta);
    r := Chosen(facts, meta).range;
    text := ContentRange(r, meta.size);
    hide Chosen, PlanResponse;
    ReadContentRangeBack(r, meta.size, "\r");
    PartHeaders(facts, meta, r);
    SingleBody(facts, meta, r, file);
    hide *;
  }

  lemma SingleBody(facts: RequestFacts, meta: FileMeta, r: ByteRange, file: Bytes)
    requires InBounds(r, |file|)
    ensures var body := PlanRange(facts, meta, Single(r)).body;
            && BodyFits(body, |file|)
            && BodyBytes(body, file) == if facts.methodHead then [] else file[r.start..r.end + 1]
  {
    BodyOfSingle(r, file);
    hide Common, ValidatorsOf, Render, ContentRange, Slices;
  }

  /** Past the preconditions, the answer is that of the chosen range. */
  lemma PlannedRange(facts: RequestFacts, meta: FileMeta)
    requires PlanResponse(facts, meta).status in {200, 206, 416}
    ensures PlanResponse(facts, meta) == PlanRange(facts, meta, Chosen(facts, meta))
  {
    ChosenIs(facts, meta);
    hide Chosen, UsedRange, PlanRange, EvaluateConditionals, Effective, ValidatorsOf;
  }

  lemma ChosenFits(facts: RequestFacts, meta: FileMeta)
    ensures Chosen(facts, meta).Single? ==> InBounds(Chosen(facts, meta).range, meta.size)
    ensures Chosen(facts, meta).Multi? ==>
              Chosen(facts, meta).ranges != [] && forall r :: r in Chosen(facts, meta).ranges ==> InBounds(r, meta.size)
  {
    if facts.rangeHeader.Some? {
      PlanIsSound(facts.rangeHeader.value, meta.size, facts.rangePolicy);
    }
    hide Ranges.Plan, MayResume;
  }

  lemma PartHeaders(facts: RequestFacts, meta: FileMeta, r: ByteRange)
    requires InBounds(r, meta.size)
    ensures var headers := PlanRange(facts, meta, Single(r)).headers;
            && Describes(headers, facts, meta)
            && Values(headers, ContentType) == [Plain(facts.contentType)]
            && Values(headers, ContentRangeName) == [Plain(ContentRange(r, meta.size))]
  {
    hide ContentRange, Render, ValidatorsOf, Describes;
    var where, length := Header(ContentRangeName, Plain(ContentRange(r, meta.size))),
      ContentLength(r.end - r.start + 1);
    ValuesTwo(where, length, AcceptRanges);
    ValuesTwo(where, length, ContentType);
    ValuesTwo(where, length, ContentRangeName);
    var common := Common(FileKinds(facts), facts, ValidatorsOf(meta));
    hide Common, Values;
    assert PlanRange(facts, meta, Single(r)).headers == common + [where] + [length];
    assert common + [where] + [length] == common + [where, length];
    hide PlanRange;
    FileSays(facts, meta, [where, length]);
  }

  /** The parts are those of the file at the ranges, in order. */
  predicate AreParts(parts: seq<ReadPart>, ranges: seq<ByteRange>, contentType: Bytes, file: Bytes) {
    && |parts| == |ranges|
    && forall i :: 0 <= i < |ranges| ==>
         InBounds(ranges[i], |file|) && parts[i] == PartAt(ranges[i], contentType, file)
  }

  function PartAt(r: ByteRange, contentType: Bytes, file: Bytes): ReadPart
    requires InBounds(r, |file|)
  {
    ReadPart(contentType, r.start, r.end, |file|, file[r.start..r.end + 1])
  }

  /** Several parts: the boundary named by the one Content-Type is that with which a
      reader gets from the body every range that was asked for, with its bytes. */
  lemma PartsSay(facts: RequestFacts, meta: FileMeta, file: Bytes) returns (boundary: Bytes, parts: seq<ReadPart>)
    requires PlanResponse(facts, meta).status == 206 && Chosen(facts, meta).Multi? && |file| == meta.size
    requires '\r' !in facts.contentType
    ensures boundary == facts.boundary && AreParts(parts, Chosen(facts, meta).ranges, facts.contentType, file)
    ensures var plan := PlanResponse(facts, meta);
            && Describes(plan.headers, facts, meta)
            && Values(plan.headers, ContentType) == [Plain("multipart/byteranges; boundary=" + boundary)]
            && Values(plan.headers, ContentRangeName) == []
            && BodyFits(plan.body, |file|)
            && (if facts.methodHead then plan.body == Empty
                else ReadBody(BodyBytes(plan.body, file), boundary) == Some(parts))
  {
    ChosenFits(facts, meta);
    PlannedRange(facts, meta);
    var ranges := Chosen(facts, meta).ranges;
    hide Chosen, PlanResponse, InBounds;
    PartsHeaders(facts, meta, ranges);
    boundary, parts := facts.boundary, Intended(ranges, MultipartFrame(facts, meta), file);
    IntendedAre(ranges, MultipartFrame(facts, meta), file);
    MultiBody(facts, meta, ranges);
    hide Values, Describes, PlanRange, ReadBody, AreParts, Intended, BodyBytes;
    if !facts.methodHead {
      PartsBody(ranges, MultipartFrame(facts, meta), file, PlanRange(facts, meta, RangeOutcome.Multi(ranges)).body);
    }
  }

  lemma IntendedAre(ranges: seq<ByteRange>, f: Frame, file: Bytes)
    requires forall r :: r in ranges ==> InBounds(r, |file|)
    requires f.total == |file|
    ensures AreParts(Intended(ranges, f, file), ranges, f.contentType, file)
  {
  }

  lemma MultiBody(facts: RequestFacts, meta: FileMeta, ranges: seq<ByteRange>)
    ensures var body, f := PlanRange(facts, meta, RangeOutcome.Multi(ranges)).body, MultipartFrame(facts, meta);
            if facts.methodHead then body.Empty?
            else body.Multi? && body.parts == Parts(ranges, f) && body.terminator == Terminator(f)
  {
    hide Common, ValidatorsOf, Render, Parts, Terminator, ExactLength, Wrap64;
  }

  lemma PartsBody(ranges: seq<ByteRange>, f: Frame, file: Bytes, body: BodyPlan)
    requires f.total == |file| && ranges != [] && '\r' !in f.contentType
    requires forall r :: r in ranges ==> InBounds(r, |file|)
    requires body.Multi? && body.parts == Parts(ranges, f) && body.terminator == Terminator(f)
    ensures BodyFits(body, |file|) && ReadBody(BodyBytes(body, file), f.boundary) == Some(Intended(ranges, f, file))
  {
    PartsInBounds(ranges, f, file);
    MultipartRoundTrip(ranges, f, file);
    hide Parts, Terminator, ReadBody, Intended, Assemble;
  }

  lemma PartsHeaders(facts: RequestFacts, meta: FileMeta, ranges: seq<ByteRange>)
    ensures var headers := PlanRange(facts, meta, RangeOutcome.Multi(ranges)).headers;
            && Describes(headers, facts, meta)
            && Values(headers, ContentType) == [Plain("multipart/byteranges; boundary=" + facts.boundary)]
            && Values(headers, ContentRangeName) == []
  {
    hide Render, ValidatorsOf, Describes, Parts, Terminator, ExactLength, Wrap64;
    var f := MultipartFrame(facts, meta);
    var accept := Header(AcceptRanges, Plain("bytes"));
    var kind := Header(ContentType, Plain("multipart/byteranges; boundary=" + facts.boundary));
    var length := ContentLength(Wrap64(ExactLength(Parts(ranges, f)) + |Terminator(f)|));
    var common := Common([accept], facts, ValidatorsOf(meta));
    assert length.name == ContentLengthName;
    hide Common, Values, ContentLength;
    assert PlanRange(facts, meta, RangeOutcome.Multi(ranges)).headers == common + [kind] + [length];
    assert common + [kind] + [length] == common + [kind, length];
    hide PlanRange;
    PartsFields(facts, meta, accept, kind, length);
  }

  lemma PartsFields(facts: RequestFacts, meta: FileMeta, accept: Header, kind: Header, length: Header)
    requires accept == Header(AcceptRanges, Plain("bytes"))
    requires kind.name == ContentType && length.name == ContentLengthName
    ensures var headers := Common([accept], facts, ValidatorsOf(meta)) + [kind, length];
            && Describes(headers, facts, meta)
            && Values(headers, ContentType) == [kind.value]
            && Values(headers, ContentRangeName) == []
  {
    ValuesOne(accept, ContentType);
    ValuesOne(accept, AcceptRanges);
    ValuesOne(accept, ContentRangeName);
    ValuesTwo(kind, length, ContentType);
    ValuesTwo(kind, length, AcceptRanges);
    ValuesTwo(kind, length, ContentRangeName);
    FieldValue([accept], facts, ValidatorsOf(meta), [kind, length], ContentType);
    FieldValue([accept], facts, ValidatorsOf(meta), [kind, length], ContentRangeName);
    hide Values, Describes, Common, ValidatorsOf;
    Described([accept], facts, meta, [kind, length]);
  }

  /** The text names a size and no range, as section 14.4 of RFC 9110 has it. */
  predicate NamesSize(text: Bytes, size: nat) {
    && HasPrefix(text, "bytes */")
    && IsNumeral(text[8..], 10) && Value(text[8..], 10) == size
  }

  /** One field, a Content-Range that names the size. */
  predicate SaysSize(headers: seq<Header>, size: nat) {
    && |headers| == 1
    && headers[0].name == ContentRangeName && headers[0].value.Plain? && NamesSize(headers[0].value.text, size)
  }

  /** The answers without a body: a 304 says the file's validators where they are
      switched on, a 416 the size of the file, and a 412 nothing. */
  lemma BodilessSay(facts: RequestFacts, meta: FileMeta)
    requires PlanResponse(facts, meta).status in {304, 412, 416}
    ensures var plan := PlanResponse(facts, meta);
            && plan.body == Empty
            && (plan.status == 304 ==>
                DescribesFile(plan.headers, facts, meta) && SaysOnly(plan.headers, {ETag, LastModified}))
            && (plan.status == 416 ==> SaysSize(plan.headers, meta.size))
            && (plan.status == 412 ==> plan.headers == [])
  {
    var plan := PlanResponse(facts, meta);
    if plan.status == 304 {
      NotModifiedSays(facts, meta);
    } else if plan.status == 416 {
      UnsatisfiableSays(facts, meta);
    }
    hide PlanRange, Values, UsedRange, EvaluateConditionals, Effective, NamesSize, DescribesFile, SaysOnly,
      ValidatorsOf;
  }

  lemma NotModifiedSays(facts: RequestFacts, meta: FileMeta)
    requires PlanResponse(facts, meta).status == 304
    ensures var headers := PlanResponse(facts, meta).headers;
            DescribesFile(headers, facts, meta) && SaysOnly(headers, {ETag, LastModified})
  {
    NotModifiedHeaders(facts, meta);
    TagsValues(facts, ValidatorsOf(meta), ETag);
    TagsValues(facts, ValidatorsOf(meta), LastModified);
    OnlyTags(facts, ValidatorsOf(meta));
    hide PlanResponse, Values, MakeEtag, SaysOnly, PushValidatorHeaders;
  }

  lemma OnlyTags(facts: RequestFacts, v: Validators)
    ensures SaysOnly(PushValidatorHeaders([], facts, v), {ETag, LastModified})
  {
  }

  lemma UnsatisfiableSays(facts: RequestFacts, meta: FileMeta)
    requires PlanResponse(facts, meta).status == 416
    ensures var plan := PlanResponse(facts, meta);
            plan.body == Empty && SaysSize(plan.headers, meta.size)
  {
    PlannedRange(facts, meta);
    var text := ContentRangeUnsatisfied(meta.size);
    RenderValue(meta.size, 10);
    PrefixOfConcat("bytes */", Render(meta.size, 10));
    assert NamesSize(text, meta.size);
    hide NamesSize, Chosen, Common, ContentLength, PlanResponse, ContentRangeUnsatisfied, Render, Value;
    assert PlanResponse(facts, meta).headers == [Header(ContentRangeName, Plain(text))];
  }
}

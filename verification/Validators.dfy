/** Strong validators and conditional requests
    (crates/envoy-files-core/src/validators.rs).  Header values arrive decoded;
    dates are whole Unix seconds, as HTTP dates are. */
module Validators {
  import opened Text

  type I64 = n: int | -0x8000_0000_0000_0000 <= n < 0x8000_0000_0000_0000

  type U32 = n: nat | n < 0x1_0000_0000

  /** `n as u64` on an i64: the same bits. */
  function Bits(n: I64): U64 {
    if n < 0 then n + TWO64 else n
  }

  function MakeEtag(size: U64, secs: I64, nanos: U32): Bytes {
    "\"" + (Render(size, 16) + ("-" + (Render(Bits(secs), 16) + ("." + (Render(nanos, 16) + "\"")))))
  }

  /** A numeral followed by a character no numeral holds can be read back. */
  lemma FieldEnds(m: nat, n: nat, stop: char, s: Bytes, t: Bytes)
    requires !('0' <= stop <= '9') && !('a' <= stop <= 'f')
    requires Render(m, 16) + ([stop] + s) == Render(n, 16) + ([stop] + t)
    ensures m == n && s == t
  {
    var a, b := Render(m, 16), Render(n, 16);
    FindIs(a + ([stop] + s), stop, |a|) by { assert stop !in a; }
    FindIs(b + ([stop] + t), stop, |b|) by { assert stop !in b; }
    assert (a + ([stop] + s))[..|a|] == a && (b + ([stop] + t))[..|b|] == b;
    assert (a + ([stop] + s))[|a| + 1..] == s && (b + ([stop] + t))[|b| + 1..] == t;
    RenderValue(m, 16);
    RenderValue(n, 16);
  }

  /** Different metadata, different ETag. */
  lemma EtagInjective(size1: U64, secs1: I64, nanos1: U32, size2: U64, secs2: I64, nanos2: U32)
    ensures MakeEtag(size1, secs1, nanos1) == MakeEtag(size2, secs2, nanos2)
            <==> size1 == size2 && secs1 == secs2 && nanos1 == nanos2
  {
    if MakeEtag(size1, secs1, nanos1) == MakeEtag(size2, secs2, nanos2) {
      var u1 := Render(nanos1, 16) + "\"";
      var u2 := Render(nanos2, 16) + "\"";
      var t1 := Render(Bits(secs1), 16) + ("." + u1);
      var t2 := Render(Bits(secs2), 16) + ("." + u2);
      PrefixOfConcat("\"", Render(size1, 16) + ("-" + t1));
      PrefixOfConcat("\"", Render(size2, 16) + ("-" + t2));
      FieldEnds(size1, size2, '-', t1, t2);
      FieldEnds(Bits(secs1), Bits(secs2), '.', u1, u2);
      assert u1 == Render(nanos1, 16) + (['\"'] + "") && u2 == Render(nanos2, 16) + (['\"'] + "");
      FieldEnds(nanos1, nanos2, '\"', "", "");
    }
  }

  // ------------------------------------------------------ decoded conditionals

  datatype EntityTag = EntityTag(weak: bool, tag: Bytes)

  datatype TagList = AnyTag | Tags(tags: seq<EntityTag>)

  datatype RangeCondition = IfTag(tag: EntityTag) | IfDate(date: int)

  /** A request header after decoding; one that does not decode is ignored. */
  datatype Field<+T> = Absent | Undecodable | Present(value: T)

  datatype ConditionalHeaders = ConditionalHeaders(
    ifNoneMatch: Field<TagList>,
    ifModifiedSince: Field<int>,
    ifMatch: Field<TagList>,
    ifUnmodifiedSince: Field<int>,
    ifRange: Field<RangeCondition>)

  datatype Validators = Validators(etag: Bytes, lastModified: int)

  datatype Condition = Proceed | NotModified | PreconditionFailed

  predicate StrongEq(a: EntityTag, b: EntityTag) {
    !a.weak && !b.weak && a.tag == b.tag
  }

  predicate WeakEq(a: EntityTag, b: EntityTag) {
    a.tag == b.tag
  }

  predicate MatchesStrong(l: TagList, t: EntityTag) {
    l.AnyTag? || exists i :: 0 <= i < |l.tags| && StrongEq(l.tags[i], t)
  }

  predicate MatchesWeak(l: TagList, t: EntityTag) {
    l.AnyTag? || exists i :: 0 <= i < |l.tags| && WeakEq(l.tags[i], t)
  }

  function ResourceEtag(v: Validators): EntityTag {
    EntityTag(false, v.etag)
  }

  function EvaluateConditionals(h: ConditionalHeaders, v: Validators): Condition {
    var failed :=
      if !h.ifMatch.Absent? then h.ifMatch.Present? && !MatchesStrong(h.ifMatch.value, ResourceEtag(v))
      else h.ifUnmodifiedSince.Present? && !(h.ifUnmodifiedSince.value >= v.lastModified);
    if failed then PreconditionFailed
    else
      var current :=
        if !h.ifNoneMatch.Absent? then h.ifNoneMatch.Present? && MatchesWeak(h.ifNoneMatch.value, ResourceEtag(v))
        else h.ifModifiedSince.Present? && !(h.ifModifiedSince.value < v.lastModified);
      if current then NotModified else Proceed
  }

  predicate IfRangeMatches(f: Field<RangeCondition>, v: Validators) {
    match f
    case Present(IfTag(t)) => StrongEq(ResourceEtag(v), t)
    case Present(IfDate(d)) => !(d < v.lastModified)
    case _ => false
  }
}

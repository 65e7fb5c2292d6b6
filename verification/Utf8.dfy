/** Well-formed UTF-8 (section 4 of RFC 3629), octet by octet. */
module Utf8 {
  import opened Text

  predicate Within(s: Bytes, i: nat, low: nat, high: nat) {
    i < |s| && low <= s[i] as int <= high
  }

  predicate Follows(s: Bytes, i: nat) {
    Within(s, i, 0x80, 0xBF)
  }

  /** Length of the well-formed sequence at the front, or 0. */
  function Lead(s: Bytes): (n: nat)
    ensures n <= |s|
  {
    if s == [] then 0 else
    var c := s[0] as int;
    if c < 0x80 then 1
    else if 0xC2 <= c <= 0xDF then (if Follows(s, 1) then 2 else 0)
    else if 0xE0 <= c <= 0xEF then
      var low := if c == 0xE0 then 0xA0 else 0x80;
      var high := if c == 0xED then 0x9F else 0xBF;
      if Within(s, 1, low, high) && Follows(s, 2) then 3 else 0
    else if 0xF0 <= c <= 0xF4 then
      var low := if c == 0xF0 then 0x90 else 0x80;
      var high := if c == 0xF4 then 0x8F else 0xBF;
      if Within(s, 1, low, high) && Follows(s, 2) && Follows(s, 3) then 4 else 0
    else 0
  }

  predicate Valid(s: Bytes)
    decreases |s|
  {
    s == [] || (Lead(s) > 0 && Valid(s[Lead(s)..]))
  }

  lemma {:induction false} ValidIsOctets(s: Bytes)
    requires Valid(s)
    ensures IsOctets(s)
    decreases |s|
  {
    if s != [] {
      ValidIsOctets(s[Lead(s)..]);
      forall i | 0 <= i < |s| ensures s[i] as int < 256 {
        if i >= Lead(s) {
          assert s[Lead(s)..][i - Lead(s)] == s[i];
        }
      }
    }
  }

  // -------------------------------------------------------- what it encodes

  /** A code point that is no surrogate. */
  predicate Scalar(c: nat) {
    c < 0xD800 || 0xE000 <= c < 0x11_0000
  }

  function Octet(n: nat): char
    requires n < 256
  {
    n as char
  }

  /** The encoding of a code point (section 3 of RFC 3629). */
  function Encode(c: nat): Bytes
    requires Scalar(c)
  {
    if c < 0x80 then [Octet(c)]
    else if c < 0x800 then [Octet(0xC0 + c / 64), Octet(0x80 + c % 64)]
    else if c < 0x1_0000 then [Octet(0xE0 + c / 64 / 64), Octet(0x80 + c / 64 % 64), Octet(0x80 + c % 64)]
    else
      [Octet(0xF0 + c / 64 / 64 / 64), Octet(0x80 + c / 64 / 64 % 64), Octet(0x80 + c / 64 % 64), Octet(0x80 + c % 64)]
  }

  function EncodeText(text: seq<nat>): Bytes
    requires forall c :: c in text ==> Scalar(c)
  {
    if text == [] then [] else Encode(text[0]) + EncodeText(text[1..])
  }

  lemma LeadOfEncode(c: nat, rest: Bytes)
    requires Scalar(c)
    ensures Lead(Encode(c) + rest) == |Encode(c)| > 0
    ensures (Encode(c) + rest)[|Encode(c)|..] == rest
  {
  }

  /** Appending six bits. */
  function Six(high: nat, low: char): (c: nat)
    requires 0x80 <= low as int < 0xC0
    ensures c / 64 == high && c % 64 == low as int - 0x80
  {
    high * 64 + (low as int - 0x80)
  }

  lemma EncodeOfLead(s: Bytes) returns (c: nat)
    requires Lead(s) > 0
    ensures Scalar(c) && Encode(c) == s[..Lead(s)]
  {
    var a, n := s[0] as int, Lead(s);
    if n == 1 {
      c := a;
    } else if n == 2 {
      c := Six(a - 0xC0, s[1]);
      hide Six;
      assert Encode(c) == [s[0], s[1]];
    } else if n == 3 {
      var high := Six(a - 0xE0, s[1]);
      c := Six(high, s[2]);
      ThreeIsScalar(a - 0xE0, s[1], s[2]);
      hide Six;
      assert Encode(c) == [s[0], s[1], s[2]];
    } else {
      var high := Six(a - 0xF0, s[1]);
      c := Six(Six(high, s[2]), s[3]);
      FourIsScalar(a - 0xF0, s[1], s[2], s[3]);
      hide Six;
      assert Encode(c) == [s[0], s[1], s[2], s[3]];
    }
  }

  lemma ThreeIsScalar(a: nat, b: char, d: char)
    requires 0x80 <= b as int < 0xC0 && 0x80 <= d as int < 0xC0 && a < 16
    requires (a == 0 ==> b as int >= 0xA0) && (a == 0xD ==> b as int <= 0x9F)
    ensures Scalar(Six(Six(a, b), d)) && 0x800 <= Six(Six(a, b), d) < 0x1_0000
  {
  }

  lemma FourIsScalar(a: nat, b: char, d: char, e: char)
    requires 0x80 <= b as int < 0xC0 && 0x80 <= d as int < 0xC0 && 0x80 <= e as int < 0xC0 && a <= 4
    requires (a == 0 ==> b as int >= 0x90) && (a == 4 ==> b as int <= 0x8F)
    ensures Scalar(Six(Six(Six(a, b), d), e)) && 0x1_0000 <= Six(Six(Six(a, b), d), e)
  {
  }

  ghost predicate IsEncoded(s: Bytes) {
    exists text: seq<nat> :: (forall c :: c in text ==> Scalar(c)) && s == EncodeText(text)
  }

  lemma OneMore(c: nat, text: seq<nat>)
    requires Scalar(c) && forall x :: x in text ==> Scalar(x)
    ensures (forall x :: x in [c] + text ==> Scalar(x)) && EncodeText([c] + text) == Encode(c) + EncodeText(text)
  {
    hide Encode;
    assert ([c] + text)[1..] == text;
  }

  lemma {:induction false} ValidIsEncoded(s: Bytes) returns (text: seq<nat>)
    requires Valid(s)
    ensures (forall x :: x in text ==> Scalar(x)) && s == EncodeText(text)
    decreases |s|
  {
    hide Lead, Encode, Scalar;
    if s == [] {
      text := [];
    } else {
      var first, tail := s[..Lead(s)], s[Lead(s)..];
      hide EncodeText, Valid;
      assert s == first + tail;
      var c := EncodeOfLead(s);
      var rest := ValidIsEncoded(tail);
      OneMore(c, rest);
      text := [c] + rest;
    }
  }

  lemma {:induction false} EncodedIsValid(s: Bytes, text: seq<nat>)
    requires (forall c :: c in text ==> Scalar(c)) && s == EncodeText(text)
    ensures Valid(s)
    decreases |text|
  {
    hide Lead, Encode, Scalar;
    if text != [] {
      LeadOfEncode(text[0], EncodeText(text[1..]));
      EncodedIsValid(EncodeText(text[1..]), text[1..]);
    }
  }

  /** Exactly the encodings of sequences of code points are valid. */
  lemma ValidExactly(s: Bytes)
    ensures Valid(s) <==> IsEncoded(s)
  {
    hide Valid, EncodeText, Scalar;
    if Valid(s) {
      var text := ValidIsEncoded(s);
    } else if IsEncoded(s) {
      var text: seq<nat> :| (forall c :: c in text ==> Scalar(c)) && s == EncodeText(text);
      EncodedIsValid(s, text);
    }
  }
}

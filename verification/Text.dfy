/** Strings, numbers in text, and splitting: the small vocabulary the parsers
    and printers below share.  A `Bytes` value is a sequence of octets, one
    `char` an octet; nothing here depends on the value of an octet unless
    `IsOctets` is required. */
module Text {

  datatype Option<+T> = None | Some(value: T)

  type Bytes = seq<char>

  const TWO64: nat := 0x1_0000_0000_0000_0000

  type U64 = n: nat | n < TWO64

  predicate IsOctets(s: Bytes) {
    forall i :: 0 <= i < |s| ==> s[i] as int < 256
  }

  // ---------------------------------------------------------------- numerals

  function DigitChar(d: nat): char
    requires d < 16
  {
    if d < 10 then ('0' as int + d) as char else ('a' as int + (d - 10)) as char
  }

  /** The value of an ASCII digit of the given base, either letter case. */
  function DigitValue(c: char, base: nat): Option<nat>
    requires 2 <= base <= 16
  {
    var v := if '0' <= c <= '9' then c as int - '0' as int
             else if 'a' <= c <= 'f' then c as int - 'a' as int + 10
             else if 'A' <= c <= 'F' then c as int - 'A' as int + 10
             else 16;
    if v < base then Some(v) else None
  }

  predicate IsNumeral(s: string, base: nat)
    requires 2 <= base <= 16
  {
    s != [] && forall i :: 0 <= i < |s| ==> DigitValue(s[i], base).Some?
  }

  function Value(s: string, base: nat): nat
    requires 2 <= base <= 16
    requires s == [] || IsNumeral(s, base)
  {
    if s == [] then 0
    else
      assert DigitValue(s[|s| - 1], base).Some?;
      Value(s[..|s| - 1], base) * base + DigitValue(s[|s| - 1], base).value
  }

  /** `format!("{n}")` (base 10) and `format!("{n:x}")` (base 16). */
  function Render(n: nat, base: nat): (s: string)
    requires 2 <= base <= 16
    ensures IsNumeral(s, base)
    ensures forall c :: c in s ==> '0' <= c <= '9' || 'a' <= c <= 'f'
  {
    if n < base then
      DigitRoundTrip(n, base);
      [DigitChar(n)]
    else
      Quotient(n, base);
      DigitRoundTrip(n % base, base);
      Render(n / base, base) + [DigitChar(n % base)]
  }

  lemma DigitRoundTrip(d: nat, base: nat)
    requires 2 <= base <= 16 && d < base
    ensures DigitValue(DigitChar(d), base) == Some(d)
    ensures '0' <= DigitChar(d) <= '9' || 'a' <= DigitChar(d) <= 'f'
  {
  }

  lemma Quotient(n: nat, base: nat)
    requires 2 <= base <= n
    ensures 0 < n / base < n
  {
    assert n == base * (n / base) + n % base;
  }

  lemma {:induction false} RenderValue(n: nat, base: nat)
    requires 2 <= base <= 16
    ensures Value(Render(n, base), base) == n
  {
    DigitRoundTrip(n % base, base);
    if n < base {
      DigitValueOf(n, base);
    } else {
      Quotient(n, base);
      RenderValue(n / base, base);
      ValueSnoc(Render(n / base, base), DigitChar(n % base), base);
      QuotientRemainder(n, base);
    }
  }

  function Power(base: nat, k: nat): nat {
    if k == 0 then 1 else base * Power(base, k - 1)
  }

  /** A number below `base` to the `k` has at most `k` digits. */
  lemma {:induction false} RenderLength(n: nat, base: nat, k: nat)
    requires 2 <= base <= 16 && k > 0 && n < Power(base, k)
    ensures |Render(n, base)| <= k
  {
    if n >= base {
      Quotient(n, base);
      QuotientBelow(n, base, Power(base, k - 1));
      RenderLength(n / base, base, k - 1);
    }
  }

  lemma QuotientBelow(n: nat, base: nat, limit: nat)
    requires 2 <= base && n < base * limit
    ensures n / base < limit
  {
  }

  lemma DigitValueOf(d: nat, base: nat)
    requires 2 <= base <= 16 && d < base
    ensures IsNumeral([DigitChar(d)], base) && Value([DigitChar(d)], base) == d
  {
    DigitRoundTrip(d, base);
    assert [DigitChar(d)][..0] == [];
    assert Value([], base) * base == 0;
  }

  lemma QuotientRemainder(n: nat, base: nat)
    requires 0 < base
    ensures n == n / base * base + n % base
  {
  }

  lemma ValueSnoc(s: string, c: char, base: nat)
    requires 2 <= base <= 16
    requires IsNumeral(s, base) && DigitValue(c, base).Some?
    ensures IsNumeral(s + [c], base)
    ensures Value(s + [c], base) == Value(s, base) * base + DigitValue(c, base).value
  {
    assert (s + [c])[..|s|] == s;
  }

  /** Decimal text of digits only never holds a punctuation character. */
  lemma DigitsOnly(s: string, i: nat)
    requires IsNumeral(s, 10) && i < |s|
    ensures '0' <= s[i] <= '9'
  {
    assert DigitValue(s[i], 10).Some?;
  }

  // ------------------------------------------------------- ASCII letters

  function Upper(c: char): char {
    if 'a' <= c <= 'z' then (c as int - 32) as char else c
  }

  /** `eq_ignore_ascii_case`. */
  predicate EqIgnoreCase(a: string, b: string) {
    |a| == |b| && forall i :: 0 <= i < |a| ==> Upper(a[i]) == Upper(b[i])
  }

  /** The same letter, in either case. */
  predicate SameLetter(a: char, b: char) {
    || a == b
    || ('a' <= a <= 'z' && b as int == a as int - 32)
    || ('a' <= b <= 'z' && a as int == b as int - 32)
  }

  predicate SameLetters(a: string, b: string) {
    |a| == |b| && forall i :: 0 <= i < |a| ==> SameLetter(a[i], b[i])
  }

  lemma LettersAgree(a: string, b: string)
    ensures EqIgnoreCase(a, b) <==> SameLetters(a, b)
  {
  }

  // ------------------------------------------------------------- searching

  /** Index of the first occurrence of `c`, or the length when there is none. */
  function Find(s: string, c: char): (k: nat)
    ensures k <= |s|
    ensures k < |s| ==> s[k] == c
    ensures forall i :: 0 <= i < k ==> s[i] != c
  {
    if s == [] || s[0] == c then 0 else 1 + Find(s[1..], c)
  }

  lemma FindIs(s: string, c: char, k: nat)
    requires k <= |s|
    requires k < |s| ==> s[k] == c
    requires forall i :: 0 <= i < k ==> s[i] != c
    ensures Find(s, c) == k
  {
  }

  predicate HasPrefix(s: string, p: string) {
    |p| <= |s| && s[..|p|] == p
  }

  lemma PrefixOfConcat(p: string, t: string)
    ensures HasPrefix(p + t, p) && (p + t)[|p|..] == t
  {
  }

  // ------------------------------------------------------ splitting, joining

  /** `str::split(sep)`: never empty; the pieces between the separators. */
  function Split(s: string, sep: char): (parts: seq<string>)
    ensures parts != []
    ensures forall p :: p in parts ==> sep !in p
    decreases |s|
  {
    var k := Find(s, sep);
    if k == |s| then [s] else [s[..k]] + Split(s[k + 1..], sep)
  }

  function Join(parts: seq<string>, sep: char): string
  {
    if parts == [] then ""
    else if |parts| == 1 then parts[0]
    else parts[0] + [sep] + Join(parts[1..], sep)
  }

  lemma {:induction false} SplitJoin(parts: seq<string>, sep: char)
    requires parts != []
    requires forall p :: p in parts ==> sep !in p
    ensures Split(Join(parts, sep), sep) == parts
  {
    var s := Join(parts, sep);
    assert sep !in parts[0];
    if |parts| == 1 {
      FindIs(s, sep, |s|);
    } else {
      FindIs(s, sep, |parts[0]|);
      assert s[..|parts[0]|] == parts[0];
      assert s[|parts[0]| + 1..] == Join(parts[1..], sep);
      SplitJoin(parts[1..], sep);
    }
  }

  lemma {:induction false} JoinSplit(s: string, sep: char)
    ensures Join(Split(s, sep), sep) == s
    decreases |s|
  {
    var k := Find(s, sep);
    if k < |s| {
      var rest := Split(s[k + 1..], sep);
      JoinSplit(s[k + 1..], sep);
      assert Split(s, sep) == [s[..k]] + rest;
      hide Split;
      assert ([s[..k]] + rest)[1..] == rest;
      assert s == s[..k] + [sep] + s[k + 1..];
    }
  }

  /** Putting a separator between two strings puts their pieces side by side. */
  lemma {:induction false} SplitConcat(a: string, b: string, sep: char)
    ensures Split(a + [sep] + b, sep) == Split(a, sep) + Split(b, sep)
    decreases |a|
  {
    var s := a + [sep] + b;
    var k := Find(a, sep);
    FindIs(s, sep, k);
    if k == |a| {
      assert s[..k] == a && s[k + 1..] == b;
    } else {
      assert s[..k] == a[..k];
      assert s[k + 1..] == a[k + 1..] + [sep] + b;
      SplitConcat(a[k + 1..], b, sep);
    }
  }

  // ------------------------------------------------------------- trimming

  /** The White_Space property, which `str::trim` uses. */
  predicate IsWhitespace(c: char) {
    var n := c as int;
    9 <= n <= 13 || n == 0x20 || n == 0x85 || n == 0xA0 || n == 0x1680 || 0x2000 <= n <= 0x200A
    || n == 0x2028 || n == 0x2029 || n == 0x202F || n == 0x205F || n == 0x3000
  }

  function Trim(s: string): string
    decreases |s|
  {
    if s == [] then s
    else if IsWhitespace(s[0]) then Trim(s[1..])
    else if IsWhitespace(s[|s| - 1]) then Trim(s[..|s| - 1])
    else s
  }

  predicate AllWhite(s: string) {
    forall i :: 0 <= i < |s| ==> IsWhitespace(s[i])
  }

  /** Trimming takes white space off both ends, and all of it. */
  lemma {:induction false} TrimExactly(s: string) returns (lead: string, trail: string)
    ensures s == lead + Trim(s) + trail && AllWhite(lead) && AllWhite(trail)
    ensures Trim(s) != "" ==> !IsWhitespace(Trim(s)[0]) && !IsWhitespace(Trim(s)[|Trim(s)| - 1])
    decreases |s|
  {
    hide IsWhitespace;
    if s == "" {
      lead, trail := "", "";
    } else if IsWhitespace(s[0]) {
      lead, trail := TrimExactly(s[1..]);
      lead := [s[0]] + lead;
    } else if IsWhitespace(s[|s| - 1]) {
      lead, trail := TrimExactly(s[..|s| - 1]);
      trail := trail + [s[|s| - 1]];
    } else {
      lead, trail := "", "";
    }
  }
}

/** Negotiation of precompressed variants
    (crates/envoy-files-core/src/encoding.rs). */
module Encodings {
  import opened Text
  import opened Sorting

  datatype Encoding = Encoding(fileSuffix: Bytes, contentEncoding: Bytes)

  /** A quality value: what `f32::from_str` can produce, rounding aside. */
  datatype Quality = NegInfinity | Num(v: real) | Infinity | NaN

  datatype Entry = Entry(name: string, q: Quality)

  predicate Positive(q: Quality) {
    q.Infinity? || (q.Num? && q.v > 0.0)
  }

  /** `f32::total_cmp`, at most. */
  predicate AtMost(a: Quality, b: Quality) {
    match (a, b)
    case (Num(x), Num(y)) => x <= y
    case (NegInfinity, _) => true
    case (Num(_), Infinity) => true
    case (Infinity, Infinity) => true
    case (_, NaN) => true
    case _ => false
  }

  // -------------------------------------------------------- Accept-Encoding

  /** The parameters of one item; the last `q=` counts.  `parseQ` is
      `f32::from_str`. */
  function ParseParams(params: seq<string>, parseQ: string -> Option<Quality>): Option<Quality> {
    if params == [] then Some(Num(1.0))
    else
      var before, param := ParseParams(params[..|params| - 1], parseQ), Trim(params[|params| - 1]);
      if before.None? || !HasPrefix(param, "q=") then before else parseQ(Trim(param[2..]))
  }

  function ParseItem(item: string, parseQ: string -> Option<Quality>): Option<Entry> {
    var parts := Split(item, ';');
    var name, q := Trim(parts[0]), ParseParams(parts[1..], parseQ);
    if name == "" || q.None? then None else Some(Entry(name, q.value))
  }

  function ParseItems(items: seq<string>, parseQ: string -> Option<Quality>): Option<seq<Entry>> {
    if items == [] then Some([])
    else
      var before, item := ParseItems(items[..|items| - 1], parseQ), Trim(items[|items| - 1]);
      if before.None? || item == "" then before
      else
        match ParseItem(item, parseQ)
        case None => None
        case Some(e) => Some(before.value + [e])
  }

  /** The parameter states a quality. */
  predicate States(param: string) {
    HasPrefix(Trim(param), "q=")
  }

  function StatedIn(param: string): string
    requires States(param)
  {
    Trim(Trim(param)[2..])
  }

  /** A statement of quality that is no number spoils the item; else the last one
      counts, and with none the quality is 1. */
  lemma {:induction false} ParamsMean(params: seq<string>, parseQ: string -> Option<Quality>)
    ensures ParseParams(params, parseQ).None? <==>
              exists k :: 0 <= k < |params| && States(params[k]) && parseQ(StatedIn(params[k])).None?
    ensures (forall k :: 0 <= k < |params| ==> !States(params[k])) ==> ParseParams(params, parseQ) == Some(Num(1.0))
    ensures forall k :: 0 <= k < |params| && States(params[k]) && ParseParams(params, parseQ).Some?
                        && (forall j :: k < j < |params| ==> !States(params[j])) ==>
              ParseParams(params, parseQ) == parseQ(StatedIn(params[k]))
  {
    if params != [] {
      var front, n := params[..|params| - 1], |params| - 1;
      ParamStep(params, parseQ);
      hide ParseParams, States, StatedIn;
      ParamsMean(front, parseQ);
      assert forall k :: 0 <= k < n ==> params[k] == front[k];
      if States(params[n]) && parseQ(StatedIn(params[n])).None? {
        assert 0 <= n < |params|;
      }
    }
  }

  lemma ParamStep(params: seq<string>, parseQ: string -> Option<Quality>)
    requires params != []
    ensures var before, last := ParseParams(params[..|params| - 1], parseQ), params[|params| - 1];
            ParseParams(params, parseQ) == if before.None? || !States(last) then before else parseQ(StatedIn(last))
  {
    hide Trim;
  }

  lemma {:induction false} ItemsRefuse(items: seq<string>, n: nat, parseQ: string -> Option<Quality>)
    requires n <= |items| && ParseItems(items[..n], parseQ).None?
    ensures ParseItems(items, parseQ).None?
    decreases |items|
  {
    hide ParseItem, Trim;
    if n < |items| {
      assert items[..|items| - 1][..n] == items[..n];
      ItemsRefuse(items[..|items| - 1], n, parseQ);
    } else {
      assert items[..n] == items;
    }
  }

  lemma {:induction false} ParamsRefuse(params: seq<string>, n: nat, parseQ: string -> Option<Quality>)
    requires n <= |params| && ParseParams(params[..n], parseQ).None?
    ensures ParseParams(params, parseQ).None?
    decreases |params|
  {
    hide Trim;
    if n < |params| {
      assert params[..|params| - 1][..n] == params[..n];
      ParamsRefuse(params[..|params| - 1], n, parseQ);
    } else {
      assert params[..n] == params;
    }
  }

  /** `parse_accept_encoding`: `None` when the header is malformed. */
  method ParseAcceptEncoding(header: string, parseQ: string -> Option<Quality>) returns (result: Option<seq<Entry>>)
    ensures result == ParseItems(Split(header, ','), parseQ)
  {
    hide Trim, Split;
    var items := Split(header, ',');
    var entries: seq<Entry> := [];
    for i := 0 to |items|
      invariant ParseItems(items[..i], parseQ) == Some(entries)
    {
      assert items[..i + 1][..i] == items[..i];
      var item := Trim(items[i]);
      if item == "" {
        continue;
      }
      var parts := Split(item, ';');
      var name, params := Trim(parts[0]), parts[1..];
      if name == "" {
        ItemsRefuse(items, i + 1, parseQ);
        return None;
      }
      var q := Num(1.0);
      for j := 0 to |params|
        invariant ParseParams(params[..j], parseQ) == Some(q)
      {
        assert params[..j + 1][..j] == params[..j];
        var param := Trim(params[j]);
        if !HasPrefix(param, "q=") {
          continue;
        }
        var value := parseQ(Trim(param[2..]));
        if value.None? {
          ParamsRefuse(params, j + 1, parseQ);
          ItemsRefuse(items, i + 1, parseQ);
          return None;
        }
        q := value.value;
      }
      assert params[..|params|] == params;
      entries := entries + [Entry(name, q)];
    }
    assert items[..|items|] == items;
    result := Some(entries);
  }

  /** A token or a number as a client writes it. */
  predicate Clean(s: string) {
    s != "" && Trim(s) == s && ',' !in s && ';' !in s
  }

  /** One item of the header: a coding, and its quality as text. */
  datatype Item = Item(name: string, quality: Option<string>)

  predicate CleanItem(i: Item) {
    Clean(i.name) && (i.quality.Some? ==> Clean(i.quality.value))
  }

  function PrintItem(i: Item): string {
    if i.quality.None? then i.name else i.name + ";" + ("q=" + i.quality.value)
  }

  function PrintItems(items: seq<Item>): seq<string> {
    seq(|items|, i requires 0 <= i < |items| => PrintItem(items[i]))
  }

  /** The quality an item states; 1 when it states none. */
  function QualityOf(i: Item, parseQ: string -> Option<Quality>): Option<Quality> {
    if i.quality.None? then Some(Num(1.0)) else parseQ(i.quality.value)
  }

  function EntriesOf(items: seq<Item>, parseQ: string -> Option<Quality>): Option<seq<Entry>> {
    if items == [] then Some([])
    else
      var before, last := EntriesOf(items[..|items| - 1], parseQ), items[|items| - 1];
      if before.None? || QualityOf(last, parseQ).None? then None
      else Some(before.value + [Entry(last.name, QualityOf(last, parseQ).value)])
  }

  /** Ends that are not white space survive trimming. */
  lemma TrimKeeps(s: string)
    requires s != ""
    ensures Trim(s) == s <==> !IsWhitespace(s[0]) && !IsWhitespace(s[|s| - 1])
  {
    if IsWhitespace(s[0]) {
      TrimShrinks(s[1..]);
    } else if IsWhitespace(s[|s| - 1]) {
      TrimShrinks(s[..|s| - 1]);
    }
  }

  lemma {:induction false} TrimShrinks(s: string)
    ensures |Trim(s)| <= |s|
    decreases |s|
  {
    if s != "" {
      if IsWhitespace(s[0]) {
        TrimShrinks(s[1..]);
      } else if IsWhitespace(s[|s| - 1]) {
        TrimShrinks(s[..|s| - 1]);
      }
    }
  }

  lemma PrintedItem(i: Item, parseQ: string -> Option<Quality>)
    requires CleanItem(i)
    ensures var text := PrintItem(i);
            text != "" && Trim(text) == text && ',' !in text
            && ParseItem(text, parseQ) ==
               if QualityOf(i, parseQ).None? then None else Some(Entry(i.name, QualityOf(i, parseQ).value))
  {
    TrimKeeps(i.name);
    PrintedPieces(i);
    if i.quality.Some? {
      OneParam(i.quality.value, parseQ);
    }
    hide Split, Trim, ParseParams, Clean;
    assert [i.name][1..] == [];
  }

  /** The parts between the semicolons. */
  lemma PrintedPieces(i: Item)
    requires CleanItem(i)
    ensures var text := PrintItem(i);
            && text != "" && Trim(text) == text && ',' !in text
            && (i.quality.None? ==> Split(text, ';') == [i.name])
            && (i.quality.Some? ==> Split(text, ';') == [i.name] + ["q=" + i.quality.value])
            && (i.quality.Some? ==> Split(text, ';')[1..] == ["q=" + i.quality.value])
  {
    PrintedEnds(i);
    TrimKeeps(PrintItem(i));
    FindIs(i.name, ';', |i.name|);
    assert Split(i.name, ';') == [i.name];
    if i.quality.Some? {
      var param := "q=" + i.quality.value;
      FindIs(param, ';', |param|);
      assert Split(param, ';') == [param];
      SplitConcat(i.name, param, ';');
      assert i.name + [';'] + param == PrintItem(i);
    }
    hide Split, Trim, PrintItem;
  }

  lemma PrintedEnds(i: Item)
    requires CleanItem(i)
    ensures var text := PrintItem(i);
            text != "" && ',' !in text && !IsWhitespace(text[0]) && !IsWhitespace(text[|text| - 1])
  {
    TrimKeeps(i.name);
    if i.quality.Some? {
      var v, text := i.quality.value, PrintItem(i);
      TrimKeeps(v);
      assert text[0] == i.name[0] && text[|text| - 1] == v[|v| - 1];
    }
  }

  lemma OneParam(v: string, parseQ: string -> Option<Quality>)
    requires Clean(v)
    ensures ParseParams(["q=" + v], parseQ) == parseQ(v)
  {
    var param := "q=" + v;
    TrimKeeps(v);
    TrimKeeps(param);
    hide Trim;
    assert [param][..0] == [];
    PrefixOfConcat("q=", v);
  }

  /** Reading back a header written from items: exactly those items, unless one
      of the qualities is not a number; then the whole header is ignored. */
  lemma {:induction false} AcceptRoundTrip(items: seq<Item>, parseQ: string -> Option<Quality>)
    requires forall i :: 0 <= i < |items| ==> CleanItem(items[i])
    ensures ParseItems(PrintItems(items), parseQ) == EntriesOf(items, parseQ)
    ensures items != [] ==> Split(Join(PrintItems(items), ','), ',') == PrintItems(items)
  {
    hide CleanItem, Trim, Split, ParseItem, PrintItem, QualityOf;
    var texts := PrintItems(items);
    if items != [] {
      var front, last := items[..|items| - 1], items[|items| - 1];
      AcceptRoundTrip(front, parseQ);
      assert texts[..|texts| - 1] == PrintItems(front);
      PrintedItem(last, parseQ);
      forall t | t in texts ensures ',' !in t {
        var i :| 0 <= i < |texts| && texts[i] == t;
        PrintedItem(items[i], parseQ);
      }
      SplitJoin(texts, ',');
    }
  }

  // --------------------------------------------------------------- negotiation

  function FirstNamed(entries: seq<Entry>, coding: string): Option<Quality> {
    if entries == [] then None
    else if EqIgnoreCase(entries[0].name, coding) then Some(entries[0].q)
    else FirstNamed(entries[1..], coding)
  }

  function FirstStar(entries: seq<Entry>): Option<Quality> {
    if entries == [] then None
    else if entries[0].name == "*" then Some(entries[0].q)
    else FirstStar(entries[1..])
  }

  /** `acceptance_for`: an exact match wins over `*`. */
  function AcceptanceFor(entries: seq<Entry>, coding: string): Option<Quality> {
    if FirstNamed(entries, coding).Some? then FirstNamed(entries, coding) else FirstStar(entries)
  }

  predicate Accepts(entries: seq<Entry>, e: Encoding) {
    var q := AcceptanceFor(entries, e.contentEncoding);
    q.Some? && Positive(q.value)
  }

  datatype Scored = Scored(q: Quality, rank: nat, encoding: Encoding)

  /** The comparator: quality descending, then server rank ascending. */
  predicate Before(a: Scored, b: Scored) {
    !AtMost(a.q, b.q) || (AtMost(b.q, a.q) && a.rank <= b.rank)
  }

  function Score(entries: seq<Entry>, order: seq<Encoding>): seq<Scored> {
    if order == [] then []
    else
      var rank := |order| - 1;
      var scored := Score(entries, order[..rank]);
      if Accepts(entries, order[rank])
      then scored + [Scored(AcceptanceFor(entries, order[rank].contentEncoding).value, rank, order[rank])]
      else scored
  }

  function EncodingsOf(scored: seq<Scored>): seq<Encoding> {
    seq(|scored|, i requires 0 <= i < |scored| => scored[i].encoding)
  }

  /** From the entries of the header; `None` when it is missing or malformed. */
  function Negotiate(entries: Option<seq<Entry>>, order: seq<Encoding>): seq<Encoding> {
    if entries.None? then [] else EncodingsOf(SortBy(Score(entries.value, order), Before))
  }

  function HeaderEntries(header: Option<string>, parseQ: string -> Option<Quality>): Option<seq<Entry>> {
    if header.None? then None else ParseItems(Split(header.value, ','), parseQ)
  }

  /** `negotiate_precompressed`. */
  method NegotiatePrecompressed(header: Option<string>, parseQ: string -> Option<Quality>, order: seq<Encoding>)
    returns (chosen: seq<Encoding>)
    ensures chosen == Negotiate(HeaderEntries(header, parseQ), order)
  {
    hide ParseItems, Split;
    if header.None? {
      return [];
    }
    var entries := ParseAcceptEncoding(header.value, parseQ);
    if entries.None? {
      return [];
    }
    var scored: seq<Scored> := [];
    for serverRank := 0 to |order|
      invariant scored == Score(entries.value, order[..serverRank])
    {
      assert order[..serverRank + 1][..serverRank] == order[..serverRank];
      var q := AcceptanceFor(entries.value, order[serverRank].contentEncoding);
      if q.Some? && Positive(q.value) {
        scored := scored + [Scored(q.value, serverRank, order[serverRank])];
      }
    }
    assert order[..|order|] == order;
    scored := SortBy(scored, Before);
    chosen := EncodingsOf(scored);
  }

  // ------------------------------------------ what section 12.5.3 of RFC 9110 says

  /** Entry `i` is the first to name the coding, in any case of letters. */
  predicate NamedFirst(entries: seq<Entry>, coding: string, i: nat) {
    && i < |entries| && SameLetters(entries[i].name, coding)
    && forall j :: 0 <= j < i ==> !SameLetters(entries[j].name, coding)
  }

  predicate StarFirst(entries: seq<Entry>, i: nat) {
    i < |entries| && entries[i].name == "*" && forall j :: 0 <= j < i ==> entries[j].name != "*"
  }

  predicate Unnamed(entries: seq<Entry>, coding: string) {
    forall j :: 0 <= j < |entries| ==> !SameLetters(entries[j].name, coding)
  }

  /** The quality a header gives a coding: that of the first entry that names it;
      when none does, that of the first `*`; else it gives none. */
  predicate Gives(entries: seq<Entry>, coding: string, q: Quality) {
    || (exists i :: 0 <= i < |entries| && NamedFirst(entries, coding, i) && entries[i].q == q)
    || (Unnamed(entries, coding) && exists i :: 0 <= i < |entries| && StarFirst(entries, i) && entries[i].q == q)
  }

  predicate AboveZero(q: Quality) {
    q == Infinity || (q.Num? && q.v > 0.0)
  }

  predicate Higher(p: Quality, q: Quality) {
    (p == Infinity && q.Num?) || (p.Num? && q.Num? && p.v > q.v)
  }

  /** The header gives the coding a quality above zero. */
  ghost predicate Wanted(entries: seq<Entry>, coding: string) {
    exists q :: Gives(entries, coding, q) && AboveZero(q)
  }

  /** Of two wanted codings, the one of higher quality; of equal ones, the one
      the server names first. */
  ghost predicate Better(entries: seq<Entry>, order: seq<Encoding>, a: nat, b: nat)
    requires a < |order| && b < |order|
  {
    forall p, q :: Gives(entries, order[a].contentEncoding, p) && Gives(entries, order[b].contentEncoding, q) ==>
      Higher(p, q) || (p == q && a < b)
  }

  lemma {:induction false} FirstNamedIs(entries: seq<Entry>, coding: string)
    ensures FirstNamed(entries, coding).None? <==> Unnamed(entries, coding)
    ensures forall i :: 0 <= i < |entries| && NamedFirst(entries, coding, i) ==>
              FirstNamed(entries, coding) == Some(entries[i].q)
    ensures FirstNamed(entries, coding).Some? ==> exists i :: 0 <= i < |entries| && NamedFirst(entries, coding, i)
  {
    hide SameLetters, EqIgnoreCase;
    if entries != [] {
      var rest := entries[1..];
      LettersAgree(entries[0].name, coding);
      FirstNamedIs(rest, coding);
      assert entries == [entries[0]] + rest;
      if SameLetters(entries[0].name, coding) {
        assert NamedFirst(entries, coding, 0);
      } else {
        forall i | 0 < i < |entries|
          ensures NamedFirst(entries, coding, i) <==> NamedFirst(rest, coding, i - 1) {
          assert entries[i] == rest[i - 1];
          assert forall j :: 0 < j < i ==> entries[j] == rest[j - 1];
          assert forall j :: 0 <= j < i - 1 ==> entries[j + 1] == rest[j];
        }
        if i :| 0 <= i < |rest| && NamedFirst(rest, coding, i) {
          assert NamedFirst(entries, coding, i + 1);
        }
        assert forall j :: 0 <= j < |rest| ==> entries[j + 1] == rest[j];
      }
    }
  }

  lemma {:induction false} FirstStarIs(entries: seq<Entry>)
    ensures forall i :: 0 <= i < |entries| && StarFirst(entries, i) ==> FirstStar(entries) == Some(entries[i].q)
    ensures FirstStar(entries).Some? ==> exists i :: 0 <= i < |entries| && StarFirst(entries, i)
  {
    if entries != [] {
      var rest := entries[1..];
      FirstStarIs(rest);
      if entries[0].name == "*" {
        assert StarFirst(entries, 0);
      } else {
        forall i | 0 < i < |entries| ensures StarFirst(entries, i) <==> StarFirst(rest, i - 1) {
          assert entries[i] == rest[i - 1];
          assert forall j :: 0 < j < i ==> entries[j] == rest[j - 1];
          assert forall j :: 0 <= j < i - 1 ==> entries[j + 1] == rest[j];
        }
        if i :| 0 <= i < |rest| && StarFirst(rest, i) {
          assert StarFirst(entries, i + 1);
        }
      }
    }
  }

  /** The acceptance computed is the quality the header gives, if any. */
  lemma AcceptanceIsGiven(entries: seq<Entry>, coding: string, q: Quality)
    ensures AcceptanceFor(entries, coding) == Some(q) <==> Gives(entries, coding, q)
  {
    FirstNamedIs(entries, coding);
    FirstStarIs(entries);
    hide SameLetters, NamedFirst, Unnamed, StarFirst, FirstNamed, FirstStar;
  }

  lemma AcceptsWanted(entries: seq<Entry>, e: Encoding)
    ensures Accepts(entries, e) <==> Wanted(entries, e.contentEncoding)
  {
    forall q ensures AcceptanceFor(entries, e.contentEncoding) == Some(q) <==> Gives(entries, e.contentEncoding, q) {
      AcceptanceIsGiven(entries, e.contentEncoding, q);
    }
    hide AcceptanceFor, Gives;
    if Accepts(entries, e) {
      assert Gives(entries, e.contentEncoding, AcceptanceFor(entries, e.contentEncoding).value);
    }
  }

  lemma PrefersBetter(entries: seq<Entry>, order: seq<Encoding>, a: nat, b: nat)
    requires a < |order| && b < |order| && Accepts(entries, order[a]) && Accepts(entries, order[b])
    requires Prefers(entries, order, a, b)
    ensures Better(entries, order, a, b)
  {
    forall p, q | Gives(entries, order[a].contentEncoding, p) && Gives(entries, order[b].contentEncoding, q)
      ensures Higher(p, q) || (p == q && a < b) {
      AcceptanceIsGiven(entries, order[a].contentEncoding, p);
      AcceptanceIsGiven(entries, order[b].contentEncoding, q);
    }
    hide AcceptanceFor, Gives;
  }

  /** The variants offered are exactly the server's encodings that the header
      gives a quality above zero, each once, best quality first and the server's
      own order among equals. */
  lemma NegotiationIsExact(entries: seq<Entry>, order: seq<Encoding>) returns (ranks: seq<nat>)
    ensures var chosen := Negotiate(Some(entries), order);
            && |ranks| == |chosen|
            && (forall i :: 0 <= i < |ranks| ==>
                ranks[i] < |order| && chosen[i] == order[ranks[i]] && Wanted(entries, order[ranks[i]].contentEncoding))
            && (forall k :: 0 <= k < |order| && Wanted(entries, order[k].contentEncoding) ==> k in ranks)
            && (forall i, j :: 0 <= i < j < |ranks| ==>
                ranks[i] != ranks[j] && Better(entries, order, ranks[i], ranks[j]))
  {
    ranks := NegotiationRanks(entries, order);
    hide Negotiate, Accepts, Prefers, Wanted, Better;
    forall k | 0 <= k < |order| ensures Accepts(entries, order[k]) <==> Wanted(entries, order[k].contentEncoding) {
      AcceptsWanted(entries, order[k]);
    }
    forall i, j | 0 <= i < j < |ranks| ensures ranks[i] != ranks[j] && Better(entries, order, ranks[i], ranks[j]) {
      PrefersBetter(entries, order, ranks[i], ranks[j]);
      NotItself(entries, order, ranks[i]);
    }
  }

  lemma NotItself(entries: seq<Entry>, order: seq<Encoding>, a: nat)
    requires a < |order| && Accepts(entries, order[a])
    ensures !Prefers(entries, order, a, a)
  {
    hide AcceptanceFor;
  }

  /** A coding that is named with quality zero is not sent, whatever `*` says. */
  lemma ZeroRefuses(entries: seq<Entry>, order: seq<Encoding>, coding: string, i: nat)
    requires NamedFirst(entries, coding, i) && entries[i].q == Num(0.0)
    ensures forall e :: e in Negotiate(Some(entries), order) ==> e.contentEncoding != coding
  {
    var ranks := NegotiationIsExact(entries, order);
    OnlyGives(entries, coding, i);
    hide Negotiate, Gives, NamedFirst, Better;
    assert !Wanted(entries, coding);
  }

  lemma OnlyGives(entries: seq<Entry>, coding: string, i: nat)
    requires NamedFirst(entries, coding, i)
    ensures forall q :: Gives(entries, coding, q) ==> q == entries[i].q
  {
    hide SameLetters;
  }

  // ----------------------------------------------------- what it amounts to

  predicate Prefers(entries: seq<Entry>, order: seq<Encoding>, a: nat, b: nat)
    requires a < |order| && b < |order| && Accepts(entries, order[a]) && Accepts(entries, order[b])
  {
    var p := AcceptanceFor(entries, order[a].contentEncoding).value;
    var q := AcceptanceFor(entries, order[b].contentEncoding).value;
    !AtMost(p, q) || (p == q && a < b)
  }

  predicate ScoredRight(s: Scored, entries: seq<Entry>, order: seq<Encoding>) {
    s.rank < |order| && s.encoding == order[s.rank] && Accepts(entries, s.encoding)
    && s.q == AcceptanceFor(entries, s.encoding.contentEncoding).value
  }

  predicate AllRight(scored: seq<Scored>, entries: seq<Entry>, order: seq<Encoding>) {
    forall i :: 0 <= i < |scored| ==> ScoredRight(scored[i], entries, order)
  }

  lemma {:induction false} ScoreIsExact(entries: seq<Entry>, order: seq<Encoding>)
    ensures var scored := Score(entries, order);
            && AllRight(scored, entries, order)
            && (forall i, j :: 0 <= i < j < |scored| ==> scored[i].rank < scored[j].rank)
            && (forall k :: 0 <= k < |order| && Accepts(entries, order[k]) ==>
                exists i :: 0 <= i < |scored| && scored[i].rank == k)
  {
    if order != [] {
      var rank := |order| - 1;
      ScoreIsExact(entries, order[..rank]);
      var before, scored := Score(entries, order[..rank]), Score(entries, order);
      forall k | 0 <= k < |order| && Accepts(entries, order[k])
        ensures exists i :: 0 <= i < |scored| && scored[i].rank == k {
        if k < rank {
          assert order[..rank][k] == order[k];
          var i :| 0 <= i < |before| && before[i].rank == k;
          assert scored[i].rank == k;
        } else {
          assert scored[|scored| - 1].rank == k;
        }
      }
    }
  }

  lemma BeforeOrders(s: multiset<Scored>)
    ensures Orders(Before, s)
  {
  }

  /** The scored encodings, sorted. */
  lemma NegotiationRanks(entries: seq<Entry>, order: seq<Encoding>) returns (ranks: seq<nat>)
    ensures var chosen := Negotiate(Some(entries), order);
            && |ranks| == |chosen|
            && (forall i :: 0 <= i < |ranks| ==>
                ranks[i] < |order| && chosen[i] == order[ranks[i]] && Accepts(entries, chosen[i]))
            && (forall k :: 0 <= k < |order| && Accepts(entries, order[k]) ==> k in ranks)
            && (forall i, j :: 0 <= i < j < |ranks| ==> Prefers(entries, order, ranks[i], ranks[j]))
  {
    hide AcceptanceFor;
    var scored := Score(entries, order);
    var sorted := SortBy(scored, Before);
    ScoreIsExact(entries, order);
    BeforeOrders(multiset(scored));
    SortBySorts(scored, Before);
    ranks := RanksOf(sorted);
    SortedRight(entries, order, scored, sorted);
    hide AcceptanceFor, Score, SortBy;
    forall k | 0 <= k < |order| && Accepts(entries, order[k]) ensures k in ranks {
      RankKept(scored, sorted, k);
    }
    forall i, j | 0 <= i < j < |ranks| ensures Prefers(entries, order, ranks[i], ranks[j]) {
      PrefersSorted(entries, order, scored, sorted, i, j);
    }
  }

  lemma SortedRight(entries: seq<Entry>, order: seq<Encoding>, scored: seq<Scored>, sorted: seq<Scored>)
    requires multiset(scored) == multiset(sorted) && AllRight(scored, entries, order)
    ensures AllRight(sorted, entries, order)
  {
    hide ScoredRight;
    forall i | 0 <= i < |sorted| ensures ScoredRight(sorted[i], entries, order) {
      var k := SameMembers(scored, sorted, i);
      assert ScoredRight(scored[k], entries, order);
    }
  }

  lemma RankKept(scored: seq<Scored>, sorted: seq<Scored>, k: nat)
    requires multiset(scored) == multiset(sorted)
    requires exists i :: 0 <= i < |scored| && scored[i].rank == k
    ensures k in RanksOf(sorted)
  {
    var i :| 0 <= i < |scored| && scored[i].rank == k;
    var j := SameMembers(sorted, scored, i);
    assert RanksOf(sorted)[j] == k;
  }

  lemma PrefersSorted(entries: seq<Entry>, order: seq<Encoding>, scored: seq<Scored>, sorted: seq<Scored>, i: nat,
                      j: nat)
    requires multiset(scored) == multiset(sorted) && Sorted(sorted, Before)
    requires forall a, b :: 0 <= a < b < |scored| ==> scored[a].rank < scored[b].rank
    requires i < j < |sorted| && ScoredRight(sorted[i], entries, order) && ScoredRight(sorted[j], entries, order)
    ensures Prefers(entries, order, sorted[i].rank, sorted[j].rank)
  {
    NoTwice(scored, sorted, i, j);
    assert Before(sorted[i], sorted[j]);
  }

  function RanksOf(scored: seq<Scored>): seq<nat> {
    seq(|scored|, i requires 0 <= i < |scored| => scored[i].rank)
  }

  lemma SameMembers(a: seq<Scored>, b: seq<Scored>, i: nat) returns (j: nat)
    requires multiset(a) == multiset(b) && i < |b|
    ensures j < |a| && a[j] == b[i]
  {
    assert b[i] in multiset(b);
    j :| 0 <= j < |a| && a[j] == b[i];
  }

  /** An element at two places counts twice. */
  lemma CountsTwice(s: seq<Scored>, i: nat, j: nat)
    requires i < j < |s| && s[i] == s[j]
    ensures multiset(s)[s[i]] >= 2
  {
    assert s == s[..j] + [s[j]] + s[j + 1..];
    assert s[..j][i] in s[..j];
  }

  lemma {:induction false} CountsOnce(s: seq<Scored>, x: Scored)
    requires forall a, b :: 0 <= a < b < |s| ==> s[a].rank < s[b].rank
    ensures multiset(s)[x] <= 1
  {
    if s != [] {
      var front, last := s[..|s| - 1], s[|s| - 1];
      assert s == front + [last];
      CountsOnce(front, x);
      if x == last {
        assert x !in front;
      }
    }
  }

  /** Sorting distinct ranks cannot put one of them in two places. */
  lemma NoTwice(scored: seq<Scored>, sorted: seq<Scored>, i: nat, j: nat)
    requires multiset(scored) == multiset(sorted)
    requires forall a, b :: 0 <= a < b < |scored| ==> scored[a].rank < scored[b].rank
    requires i < j < |sorted|
    ensures sorted[i].rank != sorted[j].rank
  {
    var a := SameMembers(scored, sorted, i);
    var b := SameMembers(scored, sorted, j);
    CountsOnce(scored, sorted[i]);
    if sorted[i] == sorted[j] {
      CountsTwice(sorted, i, j);
    }
  }
}

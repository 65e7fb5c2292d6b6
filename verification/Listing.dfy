/** The directory listing (crates/envoy-files-core/src/listing.rs).  A page is a sequence of rows; the HTML around
    them, the dates' and sizes' text are not modelled. */
module Listing {
  import opened Text
  import opened FilterModel
  import opened Sorting
  import opened Validators
  import Paths

  // ------------------------------------------------------------------ the order

  /** Lexicographic order of strings, as `str::cmp`. */
  predicate LexLe(a: Bytes, b: Bytes) {
    a == [] || (b != [] && (a[0] < b[0] || (a[0] == b[0] && LexLe(a[1..], b[1..]))))
  }

  lemma {:induction false} LexTotal(a: Bytes, b: Bytes)
    ensures LexLe(a, b) || LexLe(b, a)
  {
    if a != [] && b != [] && a[0] == b[0] {
      LexTotal(a[1..], b[1..]);
    }
  }

  lemma {:induction false} LexTransitive(a: Bytes, b: Bytes, c: Bytes)
    requires LexLe(a, b) && LexLe(b, c)
    ensures LexLe(a, c)
  {
    if a != [] && a[0] == b[0] && b[0] == c[0] {
      LexTransitive(a[1..], b[1..], c[1..]);
    }
  }

  lemma {:induction false} LexDistinguishes(a: Bytes, b: Bytes)
    requires LexLe(a, b) && LexLe(b, a)
    ensures a == b
  {
    if a != [] {
      LexDistinguishes(a[1..], b[1..]);
      assert a == [a[0]] + a[1..] && b == [b[0]] + b[1..];
    }
  }

  /** Directories first, then by name in lower case, then by name.  `lower` is
      the library's `to_lowercase`. */
  predicate EntryLe(lower: Bytes -> Bytes, a: DirEntryInfo, b: DirEntryInfo) {
    if a.isDir != b.isDir then a.isDir
    else if lower(a.name) != lower(b.name) then LexLe(lower(a.name), lower(b.name))
    else LexLe(a.name, b.name)
  }

  function Order(lower: Bytes -> Bytes): (DirEntryInfo, DirEntryInfo) -> bool {
    (a, b) => EntryLe(lower, a, b)
  }

  lemma OrderOrders(lower: Bytes -> Bytes, s: multiset<DirEntryInfo>)
    ensures Orders(Order(lower), s)
  {
    var le := Order(lower);
    forall x, y | x in s && y in s ensures le(x, y) || le(y, x) {
      LexTotal(lower(x.name), lower(y.name));
      LexTotal(x.name, y.name);
    }
    forall x, y, z | x in s && y in s && z in s && le(x, y) && le(y, z) ensures le(x, z) {
      EntryTransitive(lower, x, y, z);
    }
  }

  lemma EntryTransitive(lower: Bytes -> Bytes, x: DirEntryInfo, y: DirEntryInfo, z: DirEntryInfo)
    requires EntryLe(lower, x, y) && EntryLe(lower, y, z)
    ensures EntryLe(lower, x, z)
  {
    hide LexLe;
    var a, b, c := lower(x.name), lower(y.name), lower(z.name);
    if LexLe(a, b) && LexLe(b, c) {
      LexTransitive(a, b, c);
      if a == c {
        LexDistinguishes(a, b);
      }
    }
    if LexLe(x.name, y.name) && LexLe(y.name, z.name) {
      LexTransitive(x.name, y.name, z.name);
    }
  }

  /** A directory holds a name once. */
  predicate OneEach(entries: seq<DirEntryInfo>) {
    forall i, j :: 0 <= i < |entries| && 0 <= j < |entries| && entries[i].name == entries[j].name ==> i == j
  }

  lemma OrderDistinguishes(lower: Bytes -> Bytes, entries: seq<DirEntryInfo>)
    requires OneEach(entries)
    ensures Distinguishes(Order(lower), multiset(entries))
  {
    var le := Order(lower);
    forall x, y | x in multiset(entries) && y in multiset(entries) && le(x, y) && le(y, x) ensures x == y {
      SameName(lower, x, y);
      var i :| 0 <= i < |entries| && entries[i] == x;
      var j :| 0 <= j < |entries| && entries[j] == y;
    }
  }

  lemma SameName(lower: Bytes -> Bytes, x: DirEntryInfo, y: DirEntryInfo)
    requires EntryLe(lower, x, y) && EntryLe(lower, y, x)
    ensures x.name == y.name
  {
    hide LexLe;
    if lower(x.name) != lower(y.name) {
      LexDistinguishes(lower(x.name), lower(y.name));
    } else {
      LexDistinguishes(x.name, y.name);
    }
  }

  // -------------------------------------------------------------------- the page

  datatype Row = ParentRow | EntryRow(href: Bytes, text: Bytes, size: Option<U64>, mtimeUnix: I64)

  predicate Octets(entries: seq<DirEntryInfo>) {
    forall i :: 0 <= i < |entries| ==> IsOctets(entries[i].name)
  }

  function Href(e: DirEntryInfo): Bytes
    requires IsOctets(e.name)
  {
    Paths.PercentEncode(e.name) + if e.isDir then "/" else ""
  }

  function RowOf(e: DirEntryInfo): Row
    requires IsOctets(e.name)
  {
    EntryRow(Href(e), e.name + (if e.isDir then "/" else ""), if e.isDir then None else Some(e.size), e.mtimeUnix)
  }

  function Rows(entries: seq<DirEntryInfo>): seq<Row>
    requires Octets(entries)
  {
    seq(|entries|, i requires 0 <= i < |entries| => RowOf(entries[i]))
  }

  function Sort(lower: Bytes -> Bytes, entries: seq<DirEntryInfo>): seq<DirEntryInfo> {
    SortBy(entries, Order(lower))
  }

  lemma SortSorts(lower: Bytes -> Bytes, entries: seq<DirEntryInfo>)
    ensures multiset(Sort(lower, entries)) == multiset(entries) && Sorted(Sort(lower, entries), Order(lower))
    ensures |Sort(lower, entries)| == |entries|
    ensures Octets(entries) ==> Octets(Sort(lower, entries))
  {
    OrderOrders(lower, multiset(entries));
    SortBySorts(entries, Order(lower));
    hide SortBy, IsOctets, Sorted, Order;
    var sorted := Sort(lower, entries);
    SameLength(sorted, entries);
    forall i | Octets(entries) && 0 <= i < |sorted| ensures IsOctets(sorted[i].name) {
      Member(sorted, entries, i);
    }
  }

  lemma Member(a: seq<DirEntryInfo>, b: seq<DirEntryInfo>, i: nat)
    requires multiset(a) == multiset(b) && i < |a|
    ensures exists j :: 0 <= j < |b| && b[j] == a[i]
  {
    assert a[i] in multiset(b);
  }

  function Page(lower: Bytes -> Bytes, atRoot: bool, entries: seq<DirEntryInfo>): seq<Row>
    requires Octets(entries)
  {
    SortSorts(lower, entries);
    (if atRoot then [] else [ParentRow]) + Rows(Sort(lower, entries))
  }

  /** `render_listing`. */
  method RenderListing(lower: Bytes -> Bytes, atRoot: bool, entries: seq<DirEntryInfo>) returns (page: seq<Row>)
    requires Octets(entries)
    ensures page == Page(lower, atRoot, entries)
  {
    SortSorts(lower, entries);
    hide Sorted, IsOctets, SortBy;
    var sorted := Sort(lower, entries);
    page := [];
    if !atRoot {
      page := page + [ParentRow];
    }
    ghost var head := page;
    for i := 0 to |sorted|
      invariant page == head + Rows(sorted[..i])
    {
      assert Rows(sorted[..i + 1]) == Rows(sorted[..i]) + [RowOf(sorted[i])];
      page := page + [RowOf(sorted[i])];
    }
    assert sorted[..|sorted|] == sorted;
  }

  /** The page does not depend on the order in which the directory was read. */
  lemma PageIsDeterministic(lower: Bytes -> Bytes, atRoot: bool, a: seq<DirEntryInfo>, b: seq<DirEntryInfo>)
    requires multiset(a) == multiset(b) && OneEach(a) && Octets(a)
    ensures Octets(b) && Page(lower, atRoot, a) == Page(lower, atRoot, b)
  {
    hide SortBy, IsOctets, Orders, Distinguishes;
    OrderOrders(lower, multiset(a));
    OrderDistinguishes(lower, a);
    SortForgetsOrder(a, b, Order(lower));
    forall i | 0 <= i < |b| ensures IsOctets(b[i].name) {
      Member(b, a, i);
    }
    hide OneEach, Order, RowOf;
  }

  predicate DirectoriesFirst(page: seq<Row>) {
    forall i, j :: 0 <= i < j < |page| && page[i].EntryRow? && page[j].EntryRow? && page[j].size.None? ==>
        page[i].size.None?
  }

  /** Every entry has its row, a directory never comes after a file, and the
      parent link is there unless the directory is the root. */
  lemma PageIsComplete(lower: Bytes -> Bytes, atRoot: bool, entries: seq<DirEntryInfo>)
    requires Octets(entries)
    ensures var page := Page(lower, atRoot, entries);
            && |page| == |entries| + (if atRoot then 0 else 1)
            && (ParentRow in page <==> !atRoot)
            && (forall i :: 0 <= i < |entries| ==> RowOf(entries[i]) in page)
            && DirectoriesFirst(page)
  {
    hide SortBy, IsOctets, LexLe, Sorted, Order, RowOf, DirectoriesFirst, Rows;
    SortSorts(lower, entries);
    var sorted := Sort(lower, entries);
    RowsAre(sorted);
    forall i | 0 <= i < |entries| ensures RowOf(entries[i]) in Rows(sorted) {
      Member(entries, sorted, i);
      var j :| 0 <= j < |sorted| && sorted[j] == entries[i];
      assert Rows(sorted)[j] == RowOf(entries[i]);
    }
    DirectoriesLead(lower, sorted);
    FirstStill(Rows(sorted));
    assert [] + Rows(sorted) == Rows(sorted);
  }

  lemma RowsAre(entries: seq<DirEntryInfo>)
    requires Octets(entries)
    ensures |Rows(entries)| == |entries| && forall i :: 0 <= i < |entries| ==> Rows(entries)[i] == RowOf(entries[i])
    ensures ParentRow !in Rows(entries)
  {
    hide Href, IsOctets;
  }

  lemma DirectoriesLead(lower: Bytes -> Bytes, sorted: seq<DirEntryInfo>)
    requires Octets(sorted) && Sorted(sorted, Order(lower))
    ensures DirectoriesFirst(Rows(sorted))
  {
    RowsAre(sorted);
    hide Rows, Href, IsOctets, LexLe;
    forall i, j | 0 <= i < j < |sorted| && sorted[j].isDir ensures sorted[i].isDir {
      assert Order(lower)(sorted[i], sorted[j]);
    }
  }

  lemma FirstStill(rows: seq<Row>)
    requires DirectoriesFirst(rows)
    ensures DirectoriesFirst([ParentRow] + rows)
  {
    var page := [ParentRow] + rows;
    assert forall i :: 0 < i < |page| ==> page[i] == rows[i - 1];
  }

  // ------------------------------------------------------------ the order of the rows

  /** `a` is a prefix of `b`, or smaller where they first differ. */
  ghost predicate Ascends(a: Bytes, b: Bytes) {
    a <= b || exists k: nat :: DifferAt(a, b, k) && a[k] < b[k]
  }

  /** They are alike up to `k` and differ there. */
  ghost predicate DifferAt(a: Bytes, b: Bytes, k: nat) {
    k < |a| && k < |b| && a[k] != b[k] && a[..k] == b[..k]
  }

  lemma {:induction false} LexAscends(a: Bytes, b: Bytes)
    ensures LexLe(a, b) <==> Ascends(a, b)
  {
    if a != [] && b != [] && a[0] == b[0] {
      LexAscends(a[1..], b[1..]);
      assert a == [a[0]] + a[1..] && b == [b[0]] + b[1..];
      if k: nat :| DifferAt(a[1..], b[1..], k) && a[1..][k] < b[1..][k] {
        assert a[..k + 1] == [a[0]] + a[1..][..k] && b[..k + 1] == [b[0]] + b[1..][..k];
        assert DifferAt(a, b, k + 1);
      }
      if k: nat :| DifferAt(a, b, k) && a[k] < b[k] {
        assert a[1..][..k - 1] == a[..k][1..] && b[1..][..k - 1] == b[..k][1..];
        assert DifferAt(a[1..], b[1..], k - 1) && a[1..][k - 1] < b[1..][k - 1];
      }
    } else if a != [] && b != [] {
      assert a[..0] == b[..0];
      assert DifferAt(a, b, 0);
    }
  }

  /** A row says the name, with a slash after a directory's, links to it, and has
      the size of a file only. */
  predicate SaysEntry(row: Row, e: DirEntryInfo) {
    && row.EntryRow? && IsOctets(e.name)
    && row.text == (if e.isDir then e.name + "/" else e.name)
    && row.href == (if e.isDir then Paths.PercentEncode(e.name) + "/" else Paths.PercentEncode(e.name))
    && row.size == (if e.isDir then None else Some(e.size))
    && row.mtimeUnix == e.mtimeUnix
  }

  /** Directories lead; among them, and among the files, the names ascend in lower
      case, and as they are where they differ in case only. */
  ghost predicate InOrder(lower: Bytes -> Bytes, a: DirEntryInfo, b: DirEntryInfo) {
    && (b.isDir ==> a.isDir)
    && (a.isDir == b.isDir ==> Ascends(lower(a.name), lower(b.name)))
    && (a.isDir == b.isDir && lower(a.name) == lower(b.name) ==> Ascends(a.name, b.name))
  }

  /** The rows of a page are the entries of the directory, in order. */
  lemma PageIsOrdered(lower: Bytes -> Bytes, atRoot: bool, entries: seq<DirEntryInfo>)
    returns (rows: seq<Row>, order: seq<DirEntryInfo>)
    requires Octets(entries)
    ensures Page(lower, atRoot, entries) == (if atRoot then [] else [ParentRow]) + rows
    ensures multiset(order) == multiset(entries)
    ensures |rows| == |order| && forall i :: 0 <= i < |rows| ==> SaysEntry(rows[i], order[i])
    ensures forall i, j :: 0 <= i < j < |order| ==> InOrder(lower, order[i], order[j])
  {
    SortSorts(lower, entries);
    order := Sort(lower, entries);
    rows := Rows(order);
    RowsAre(order);
    forall i | 0 <= i < |rows| ensures SaysEntry(rows[i], order[i]) {
      RowSays(order[i]);
    }
    forall i, j | 0 <= i < j < |order| ensures InOrder(lower, order[i], order[j]) {
      assert Order(lower)(order[i], order[j]);
      LeIsInOrder(lower, order[i], order[j]);
    }
    hide Rows, SortBy, IsOctets, InOrder, SaysEntry, EntryLe;
  }

  lemma RowSays(e: DirEntryInfo)
    requires IsOctets(e.name)
    ensures SaysEntry(RowOf(e), e)
  {
    assert e.name + "" == e.name && Paths.PercentEncode(e.name) + "" == Paths.PercentEncode(e.name);
    hide IsOctets, Paths.PercentEncode;
  }

  lemma LeIsInOrder(lower: Bytes -> Bytes, a: DirEntryInfo, b: DirEntryInfo)
    requires EntryLe(lower, a, b)
    ensures InOrder(lower, a, b)
  {
    LexAscends(lower(a.name), lower(b.name));
    LexAscends(a.name, b.name);
    hide Ascends, LexLe;
    if a.isDir == b.isDir && lower(a.name) == lower(b.name) {
      AscendsSelf(lower(a.name));
    }
  }

  lemma AscendsSelf(a: Bytes)
    ensures Ascends(a, a)
  {
  }
}

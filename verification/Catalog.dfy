/** Listing, paging and status counts of one aggregate's live rows. */
module Catalog {
  import opened Domain
  import opened Accounts
  import Protocol
  import Invariants
  import Guarantees

  /** A live row with its primary key. */
  datatype Entry = Entry(id: nat, row: Row)

  /** `table` lists the live rows of an aggregate, each once. */
  ghost predicate Lists(table: seq<Entry>, rows: map<Key, Row>, agg: Aggregate) {
    && DistinctIds(table)
    && (forall i :: 0 <= i < |table| ==>
          Key(agg, table[i].id) in rows && rows[Key(agg, table[i].id)] == table[i].row && !table[i].row.deleted)
    && (forall k :: k in rows && k.agg == agg && !rows[k].deleted ==>
                      exists i :: 0 <= i < |table| && table[i].id == k.id)
  }

  predicate DistinctIds(table: seq<Entry>) {
    forall i, j :: 0 <= i < j < |table| ==> table[i].id != table[j].id
  }

  // ---------- paging bounds ----------

  const DEFAULT_SIZE := 20
  const MAX_SIZE := 100

  /** The clamp the handler applies to a query: sizes out of range become the default. */
  method BindPage(page: int, size: int) returns (boundPage: int, boundSize: int)
    ensures boundPage == (if page < 1 then 1 else page)
    ensures boundSize == (if 1 <= size <= MAX_SIZE then size else DEFAULT_SIZE)
    ensures NormalizePage(boundPage, boundSize) == (boundPage, boundSize)
  {
    boundPage, boundSize := page, size;
    if boundPage < 1 {
      boundPage := 1;
    }
    if boundSize < 1 || boundSize > MAX_SIZE {
      boundSize := DEFAULT_SIZE;
    }
  }

  /** The clamp the repository applies: sizes above the maximum become the maximum. */
  function NormalizePage(page: int, size: int): (int, int) {
    (if page < 1 then 1 else page,
     if size < 1 then DEFAULT_SIZE else if size > MAX_SIZE then MAX_SIZE else size)
  }

  // ---------- ordering ----------

  /** Most recently updated first, ties broken by the larger key. */
  predicate Precedes(a: Entry, b: Entry) {
    a.row.updatedAt > b.row.updatedAt || (a.row.updatedAt == b.row.updatedAt && a.id > b.id)
  }

  predicate Ordered(s: seq<Entry>) {
    forall i, j :: 0 <= i < j < |s| ==> Precedes(s[i], s[j])
  }

  function Place(e: Entry, s: seq<Entry>): seq<Entry> {
    if s == [] || Precedes(e, s[0]) then [e] + s else [s[0]] + Place(e, s[1..])
  }

  /** ORDER BY updated_at DESC, id DESC. */
  function Sort(s: seq<Entry>): seq<Entry> {
    if s == [] then [] else Place(s[0], Sort(s[1..]))
  }

  function Filter(s: seq<Entry>, keep: Row -> bool): seq<Entry> {
    if s == [] then [] else (if keep(s[0].row) then [s[0]] else []) + Filter(s[1..], keep)
  }

  lemma {:induction false} PlaceKeepsAll(e: Entry, s: seq<Entry>)
    ensures multiset(Place(e, s)) == multiset{e} + multiset(s)
  {
    if s != [] && !Precedes(e, s[0]) {
      PlaceKeepsAll(e, s[1..]);
      assert s == [s[0]] + s[1..];
    }
  }

  lemma {:induction false} PlaceOrders(e: Entry, s: seq<Entry>)
    requires Ordered(s) && forall i :: 0 <= i < |s| ==> s[i].id != e.id
    ensures Ordered(Place(e, s))
  {
    if s != [] && !Precedes(e, s[0]) {
      PlaceOrders(e, s[1..]);
      PlaceKeepsAll(e, s[1..]);
      var rest := Place(e, s[1..]);
      forall j | 0 <= j < |rest| ensures Precedes(s[0], rest[j]) {
        assert rest[j] in multiset(rest);
        assert rest[j] == e || rest[j] in s[1..];
      }
    }
  }

  lemma {:induction false} SortKeepsAll(s: seq<Entry>)
    ensures multiset(Sort(s)) == multiset(s)
  {
    if s != [] {
      SortKeepsAll(s[1..]);
      PlaceKeepsAll(s[0], Sort(s[1..]));
      assert s == [s[0]] + s[1..];
    }
  }

  lemma {:induction false} SortOrders(s: seq<Entry>)
    requires DistinctIds(s)
    ensures Ordered(Sort(s))
  {
    if s != [] {
      var rest := Sort(s[1..]);
      SortOrders(s[1..]);
      SortKeepsAll(s[1..]);
      forall i | 0 <= i < |rest| ensures rest[i].id != s[0].id {
        assert rest[i] in multiset(rest);
        assert rest[i] in s[1..];
      }
      PlaceOrders(s[0], rest);
    }
  }

  /** An ordered list has the latest update first and, of rows updated at the same time, the larger
      key first; keys are distinct. */
  lemma OrderIsDescending(s: seq<Entry>, i: nat, j: nat)
    requires Ordered(s) && i < j < |s|
    ensures s[i].row.updatedAt >= s[j].row.updatedAt && s[i] != s[j]
    ensures s[i].row.updatedAt == s[j].row.updatedAt ==> s[i].id > s[j].id
  {
    assert Precedes(s[i], s[j]);
  }

  lemma {:induction false} FilterSelects(s: seq<Entry>, keep: Row -> bool)
    ensures forall e :: multiset(Filter(s, keep))[e] == if keep(e.row) then multiset(s)[e] else 0
  {
    if s != [] {
      FilterSelects(s[1..], keep);
      assert s == [s[0]] + s[1..];
      assert Filter(s, keep) == (if keep(s[0].row) then [s[0]] else []) + Filter(s[1..], keep);
    }
  }

  lemma {:induction false} FilterDistinct(s: seq<Entry>, keep: Row -> bool)
    requires DistinctIds(s)
    ensures DistinctIds(Filter(s, keep))
    ensures forall i :: 0 <= i < |Filter(s, keep)| ==> Filter(s, keep)[i] in s
  {
    if s != [] {
      FilterDistinct(s[1..], keep);
      var rest := Filter(s[1..], keep);
      forall i | 0 <= i < |rest| ensures rest[i].id != s[0].id {
        assert rest[i] in s[1..];
      }
    }
  }

  // ---------- pages ----------

  const TWO_63 := 0x8000_0000_0000_0000
  const TWO_64 := 0x1_0000_0000_0000_0000

  /** A product as a 64-bit signed integer. */
  function Wrap64(x: int): int {
    var low := x % TWO_64;
    if low < TWO_63 then low else low - TWO_64
  }

  /** OFFSET and LIMIT; an offset that is not positive is not sent to the database. */
  function Slice(s: seq<Entry>, offset: int, limit: nat): seq<Entry> {
    var start := if offset <= 0 then 0 else if offset > |s| then |s| else offset;
    s[start..if start + limit > |s| then |s| else start + limit]
  }

  datatype Page = Page(items: seq<Entry>, total: nat, page: int, size: int)

  function List(table: seq<Entry>, keep: Row -> bool, page: int, size: int): Page {
    var (p, n) := NormalizePage(page, size);
    var found := Filter(table, keep);
    Page(Slice(Sort(found), Wrap64((p - 1) * n), n), |found|, p, n)
  }

  /** The number of pages the client shows. */
  function PageCount(total: nat, size: nat): nat
    requires size > 0
  {
    var pages := (total + size - 1) / size;
    if pages < 1 then 1 else pages
  }

  /** The items of pages 1..n one after the other. */
  function FirstPages(table: seq<Entry>, keep: Row -> bool, n: nat, size: int): seq<Entry> {
    if n == 0 then [] else FirstPages(table, keep, n - 1, size) + List(table, keep, n, size).items
  }

  /** The slice [low, high) of the ordered result, cut off at its end. */
  function Part(s: seq<Entry>, low: nat, high: nat): seq<Entry>
    requires low <= high
  {
    var a, b := if low > |s| then |s| else low, if high > |s| then |s| else high;
    s[a..b]
  }

  lemma SliceInRange(s: seq<Entry>, offset: nat, size: nat)
    ensures Slice(s, offset, size) == Part(s, offset, offset + size)
  {
  }

  /** A wrapped offset yields the empty slice the true one would only if it lies past the end too. */
  lemma SliceWrapped(s: seq<Entry>, offset: nat, wrapped: int, size: nat)
    requires offset >= |s| && size > 0
    ensures Slice(s, wrapped, size) == Part(s, offset, offset + size) <==> wrapped >= |s| || |s| == 0
  {
    assert Part(s, offset, offset + size) == [];
  }

  /** Wrapping gives the 64-bit signed number that differs by a multiple of 2^64. */
  lemma WrapIsCongruent(x: int)
    ensures -9223372036854775808 <= Wrap64(x) <= 9223372036854775807
    ensures (x - Wrap64(x)) % 18446744073709551616 == 0
  {
    var low := x % TWO_64;
    assert x - low == TWO_64 * (x / TWO_64);
    if low >= TWO_63 {
      assert x - Wrap64(x) == TWO_64 * (x / TWO_64 + 1);
    }
  }

  /** What a page says of itself: the page asked for, or the first; the size asked for, the default
      if there is none, or the maximum if it is larger. */
  lemma PageMetadata(table: seq<Entry>, keep: Row -> bool, page: int, size: int)
    ensures var list := List(table, keep, page, size);
            && list.page >= 1 && 1 <= list.size <= 100 && |list.items| <= list.size && |list.items| <= list.total
            && (page >= 1 ==> list.page == page) && (page < 1 ==> list.page == 1)
            && (size < 1 ==> list.size == 20) && (1 <= size <= 100 ==> list.size == size)
            && (size > 100 ==> list.size == 100)
  {
    SortKeepsLength(Filter(table, keep));
  }

  lemma WrapSmall(x: nat)
    requires x < TWO_63
    ensures Wrap64(x) == x
  {
  }

  lemma SliceAtWrapped(s: seq<Entry>, offset: nat, size: nat)
    requires |s| < TWO_63 && size > 0
    ensures Slice(s, Wrap64(offset), size) == Part(s, offset, offset + size)
            <==> offset < TWO_63 || Wrap64(offset) >= |s| || |s| == 0
  {
    if offset < TWO_63 {
      WrapSmall(offset);
      SliceInRange(s, offset, size);
    } else {
      SliceWrapped(s, offset, Wrap64(offset), size);
    }
  }

  function Offset(page: nat, size: nat): nat
    requires page >= 1
  {
    (page - 1) * size
  }

  /** A page is the part of the ordered result its metadata announces - exactly unless the
      offset leaves the 64-bit range and comes back inside the result. */
  lemma PageIsItsPart(table: seq<Entry>, keep: Row -> bool, page: nat, size: nat)
    requires 1 <= page && 1 <= size <= MAX_SIZE && |table| < TWO_63
    ensures var sorted, offset, list := Sort(Filter(table, keep)), Offset(page, size), List(table, keep, page, size);
            && list.page == page && list.size == size && list.total == |sorted|
            && (list.items == Part(sorted, offset, offset + size)
                <==> offset < TWO_63 || Wrap64(offset) >= |sorted| || |sorted| == 0)
  {
    var found := Filter(table, keep);
    SortKeepsLength(found);
    FilterShrinks(table, keep);
    SliceAtWrapped(Sort(found), Offset(page, size), size);
  }

  lemma SortKeepsLength(s: seq<Entry>)
    ensures |Sort(s)| == |s|
  {
    SortKeepsAll(s);
    assert |Sort(s)| == |multiset(Sort(s))| && |s| == |multiset(s)|;
  }

  /** A page number whose offset wraps to a negative one, which is not sent. */
  const WRAPPING_PAGE := 92233720368547760

  /** The rows listed for that page are not the ones its metadata announces, on any table with a match. */
  lemma WrappingPageIsWrong(table: seq<Entry>, keep: Row -> bool)
    requires |table| < TWO_63 && Filter(table, keep) != []
    ensures WRAPPING_PAGE < TWO_63
    ensures var sorted, offset := Sort(Filter(table, keep)), Offset(WRAPPING_PAGE, MAX_SIZE);
            List(table, keep, WRAPPING_PAGE, MAX_SIZE).items != Part(sorted, offset, offset + MAX_SIZE)
  {
    PageIsItsPart(table, keep, WRAPPING_PAGE, MAX_SIZE);
    SortKeepsLength(Filter(table, keep));
    assert Wrap64(Offset(WRAPPING_PAGE, MAX_SIZE)) < 0;
  }

  lemma {:induction false} FilterShrinks(s: seq<Entry>, keep: Row -> bool)
    ensures |Filter(s, keep)| <= |s|
  {
    if s != [] {
      FilterShrinks(s[1..], keep);
    }
  }

  lemma {:induction false} FirstPagesArePrefix(table: seq<Entry>, keep: Row -> bool, n: nat, size: nat)
    requires 1 <= size <= MAX_SIZE && |table| < TWO_63 && n * size < TWO_63
    ensures FirstPages(table, keep, n, size) == Part(Sort(Filter(table, keep)), 0, n * size)
  {
    if n > 0 {
      assert n * size == Offset(n, size) + size;
      FirstPagesArePrefix(table, keep, n - 1, size);
      PageIsItsPart(table, keep, n, size);
    }
  }

  /** Pages 1..PageCount one after the other are exactly the filtered rows, each once, most
      recently updated first. */
  lemma PagesPartition(table: seq<Entry>, keep: Row -> bool, size: nat)
    requires DistinctIds(table) && 1 <= size <= MAX_SIZE && |table| < TWO_63 - MAX_SIZE
    ensures var all := FirstPages(table, keep, PageCount(|Filter(table, keep)|, size), size);
            && Ordered(all)
            && forall e :: multiset(all)[e] == if keep(e.row) then multiset(table)[e] else 0
  {
    var found := Filter(table, keep);
    var n := PageCount(|found|, size);
    FilterShrinks(table, keep);
    FilterSelects(table, keep);
    FilterDistinct(table, keep);
    SortKeepsAll(found);
    SortOrders(found);
    SortKeepsLength(found);
    PagesCover(|found|, size);
    PagesDoNotOvershoot(|found|, size);
    FirstPagesArePrefix(table, keep, n, size);
    assert Part(Sort(found), 0, n * size) == Sort(found);
  }

  /** The client shows at least one page, enough pages for all rows, and none that is not needed. */
  lemma PagesCover(total: nat, size: nat)
    requires 1 <= size
    ensures PageCount(total, size) >= 1 && total <= PageCount(total, size) * size
    ensures PageCount(total, size) > 1 ==> (PageCount(total, size) - 1) * size < total
  {
    var q := (total + size - 1) / size;
    assert q * size <= total + size - 1 < q * size + size;
    assert (q - 1) * size == q * size - size;
  }

  lemma PagesDoNotOvershoot(total: nat, size: nat)
    requires 1 <= size
    ensures PageCount(total, size) * size <= total + size
  {
    PagesCover(total, size);
    assert (PageCount(total, size) - 1) * size == PageCount(total, size) * size - size;
  }

  lemma FirstIsFirst(s: seq<Entry>, t: seq<Entry>)
    requires Ordered(s) && Ordered(t) && s != [] && t != [] && s[0] in t && t[0] in s
    ensures s[0] == t[0]
  {
    var i :| 0 <= i < |t| && t[i] == s[0];
    var j :| 0 <= j < |s| && s[j] == t[0];
  }

  /** The order leaves no choice: two ordered lists of the same rows are equal. */
  lemma {:induction false} OrderIsUnique(s: seq<Entry>, t: seq<Entry>)
    requires Ordered(s) && Ordered(t) && multiset(s) == multiset(t)
    ensures s == t
  {
    assert |s| == |multiset(s)| == |multiset(t)| == |t|;
    if s != [] {
      assert s[0] in multiset(t) && t[0] in multiset(s);
      FirstIsFirst(s, t);
      TailsAgree(s, t);
      OrderIsUnique(s[1..], t[1..]);
    }
  }

  lemma TailsAgree(s: seq<Entry>, t: seq<Entry>)
    requires s != [] && t != [] && s[0] == t[0] && multiset(s) == multiset(t)
    ensures multiset(s[1..]) == multiset(t[1..])
  {
    assert s == [s[0]] + s[1..] && t == [t[0]] + t[1..];
    assert multiset(s[1..]) == multiset(s) - multiset{s[0]};
    assert multiset(t[1..]) == multiset(t) - multiset{t[0]};
  }

  // ---------- status counts ----------

  function CountStatus(table: seq<Entry>, status: string): nat {
    if table == [] then 0 else CountStatus(table[1..], status) + if table[0].row.status == status then 1 else 0
  }

  predicate Names(groups: seq<(string, nat)>, status: string) {
    exists j :: 0 <= j < |groups| && groups[j].0 == status
  }

  /** SELECT status, COUNT(*) GROUP BY status. */
  predicate IsGrouping(table: seq<Entry>, groups: seq<(string, nat)>) {
    && (forall i, j :: 0 <= i < j < |groups| ==> groups[i].0 != groups[j].0)
    && (forall i :: 0 <= i < |groups| ==> groups[i].1 == CountStatus(table, groups[i].0) > 0)
    && (forall i :: 0 <= i < |table| ==> Names(groups, table[i].row.status))
  }

  /** The database has such a grouping for every table. */
  function GroupBy(table: seq<Entry>): seq<(string, nat)>
    decreases |table|
  {
    if table == [] then []
    else
      var status := table[0].row.status;
      WithoutCounts(table, status);
      [(status, CountStatus(table, status))] + GroupBy(Without(table, status))
  }

  lemma {:induction false} GroupByIsGrouping(table: seq<Entry>)
    ensures IsGrouping(table, GroupBy(table))
    decreases |table|
  {
    if table != [] {
      var status := table[0].row.status;
      var rest := Without(table, status);
      WithoutCounts(table, status);
      GroupByIsGrouping(rest);
      GroupingExtends(table, status, GroupBy(rest));
    }
  }

  lemma GroupingExtends(table: seq<Entry>, status: string, groups: seq<(string, nat)>)
    requires CountStatus(table, status) > 0 && IsGrouping(Without(table, status), groups)
    ensures IsGrouping(table, [(status, CountStatus(table, status))] + groups)
  {
    WithoutCounts(table, status);
    hide CountStatus, Without, Names;
    var all := [(status, CountStatus(table, status))] + groups;
    forall i | 0 <= i < |table| ensures Names(all, table[i].row.status) {
      NamesOneMore((status, CountStatus(table, status)), groups, table[i].row.status);
      if table[i].row.status != status {
        WithoutKeeps(table, status, i);
      }
    }
  }

  lemma NamesOneMore(group: (string, nat), groups: seq<(string, nat)>, status: string)
    ensures Names([group] + groups, status) <==> group.0 == status || Names(groups, status)
  {
    var all := [group] + groups;
    assert all[0] == group;
    if Names(groups, status) {
      var j :| 0 <= j < |groups| && groups[j].0 == status;
      assert all[j + 1] == groups[j];
    }
  }

  lemma {:induction false} WithoutKeeps(table: seq<Entry>, status: string, i: nat)
    requires i < |table| && table[i].row.status != status
    ensures table[i] in Without(table, status)
  {
    if i > 0 {
      WithoutKeeps(table[1..], status, i - 1);
    }
  }

  /** The sum of a map's values. */
  ghost function Sum(counts: map<string, nat>): nat {
    if counts == map[] then 0 else var s :| s in counts; counts[s] + Sum(counts - {s})
  }

  lemma {:induction false} SumTakesOut(counts: map<string, nat>, s: string)
    requires s in counts
    ensures Sum(counts) == counts[s] + Sum(counts - {s})
  {
    var t :| t in counts && Sum(counts) == counts[t] + Sum(counts - {t});
    if t != s {
      SumTakesOut(counts - {t}, s);
      SumTakesOut(counts - {s}, t);
      assert counts - {t} - {s} == counts - {s} - {t};
    }
  }

  lemma SumOfNone()
    ensures Sum(map[]) == 0
  {
  }

  lemma SumPutsIn(counts: map<string, nat>, s: string, n: nat)
    requires s !in counts
    ensures Sum(counts[s := n]) == Sum(counts) + n
  {
    SumTakesOut(counts[s := n], s);
    assert counts[s := n] - {s} == counts;
  }

  /** Scans the grouped rows into a map. */
  method CountByStatus(table: seq<Entry>, groups: seq<(string, nat)>) returns (counts: map<string, nat>)
    requires IsGrouping(table, groups)
    ensures forall s :: s in counts <==> CountStatus(table, s) > 0
    ensures forall s :: s in counts ==> counts[s] == CountStatus(table, s)
    ensures Sum(counts) == |table|
  {
    hide CountStatus, Sum;
    counts := map[];
    SumOfNone();
    var i := 0;
    while i < |groups|
      invariant 0 <= i <= |groups|
      invariant forall s :: s in counts <==> exists j :: 0 <= j < i && groups[j].0 == s
      invariant forall s :: s in counts ==> counts[s] == CountStatus(table, s) > 0
      invariant Sum(counts) + Total(groups[i..]) == Total(groups)
    {
      SumPutsIn(counts, groups[i].0, groups[i].1);
      assert groups[i..][0] == groups[i] && groups[i..][1..] == groups[i + 1..];
      counts := counts[groups[i].0 := groups[i].1];
      i := i + 1;
    }
    forall s | CountStatus(table, s) > 0 ensures s in counts {
      StatusOccurs(table, s);
    }
    GroupsSumToTable(table, groups);
  }

  function Total(groups: seq<(string, nat)>): nat {
    if groups == [] then 0 else groups[0].1 + Total(groups[1..])
  }

  lemma {:induction false} StatusOccurs(table: seq<Entry>, status: string)
    requires CountStatus(table, status) > 0
    ensures exists i :: 0 <= i < |table| && table[i].row.status == status
  {
    if table[0].row.status != status {
      StatusOccurs(table[1..], status);
      var i :| 0 <= i < |table[1..]| && table[1..][i].row.status == status;
      assert table[i + 1].row.status == status;
    }
  }

  /** The rows whose status is not `status`. */
  function Without(table: seq<Entry>, status: string): seq<Entry> {
    if table == [] then []
    else (if table[0].row.status == status then [] else [table[0]]) + Without(table[1..], status)
  }

  lemma {:induction false} WithoutCounts(table: seq<Entry>, status: string)
    ensures |Without(table, status)| + CountStatus(table, status) == |table|
    ensures forall s :: CountStatus(Without(table, status), s) == if s == status then 0 else CountStatus(table, s)
    ensures forall i :: 0 <= i < |Without(table, status)| ==>
                          Without(table, status)[i] in table && Without(table, status)[i].row.status != status
  {
    if table != [] {
      WithoutCounts(table[1..], status);
      var rest := Without(table[1..], status);
      if table[0].row.status != status {
        assert ([table[0]] + rest)[1..] == rest;
      } else {
        assert Without(table, status) == rest;
      }
    }
  }

  /** The buckets sum to the number of live rows. */
  lemma {:induction false} GroupsSumToTable(table: seq<Entry>, groups: seq<(string, nat)>)
    requires IsGrouping(table, groups)
    ensures Total(groups) == |table|
    decreases |groups|
  {
    if groups != [] {
      var (status, n) := groups[0];
      WithoutCounts(table, status);
      var rest := Without(table, status);
      assert groups == [groups[0]] + groups[1..];
      forall i | 0 <= i < |rest| ensures Names(groups[1..], rest[i].row.status) {
        NamesOneMore(groups[0], groups[1..], rest[i].row.status);
      }
      GroupsSumToTable(rest, groups[1..]);
    }
  }

  /** The filter of a query: its search term's, and its trimmed status's unless that is empty. */
  function QueryFilter(search: Row -> bool, status: string): Row -> bool {
    (row: Row) => search(row) && (Trim(status) == "" || row.status == Trim(status))
  }

  /** The rows that match the search and have the status asked for, if one is asked for. */
  function CountMatches(table: seq<Entry>, search: Row -> bool, status: string): nat {
    if table == [] then 0
    else
      var row := table[0].row;
      CountMatches(table[1..], search, status)
      + if search(row) && (Trim(status) == "" || row.status == Trim(status)) then 1 else 0
  }

  /** Search term and status narrow the list together: every row listed matches both, and the total
      is the number of rows that do. */
  lemma ListMatchesBoth(table: seq<Entry>, search: Row -> bool, status: string, page: int, size: int)
    ensures var list := List(table, QueryFilter(search, status), page, size);
            && list.total == CountMatches(table, search, status)
            && forall e :: e in list.items ==>
                 e in table && search(e.row) && (Trim(status) != "" ==> e.row.status == Trim(status))
  {
    var keep := QueryFilter(search, status);
    var list, found := List(table, keep, page, size), Filter(table, keep);
    FilterCounts(table, search, status);
    SortKeepsAll(found);
    FilterSelects(table, keep);
    forall e | e in list.items
      ensures e in table && search(e.row) && (Trim(status) != "" ==> e.row.status == Trim(status))
    {
      assert e in Sort(found);
      assert e in multiset(Sort(found));
      assert multiset(found)[e] > 0;
    }
  }

  lemma {:induction false} FilterCounts(table: seq<Entry>, search: Row -> bool, status: string)
    ensures |Filter(table, QueryFilter(search, status))| == CountMatches(table, search, status)
  {
    if table != [] {
      FilterCounts(table[1..], search, status);
    }
  }

  /** With no search term, the list reports the bucket of the status asked for as its total, and
      all rows if no status is asked for. */
  lemma BucketIsListTotal(table: seq<Entry>, status: string, page: int, size: int)
    ensures List(table, QueryFilter((row: Row) => true, status), page, size).total
            == if Trim(status) == "" then |table| else CountStatus(table, Trim(status))
  {
    var keep := QueryFilter((row: Row) => true, status);
    if Trim(status) == "" {
      FilterKeepsAll(table, keep);
    } else {
      CountIsFilter(table, Trim(status), keep);
    }
  }

  lemma {:induction false} FilterKeepsAll(table: seq<Entry>, keep: Row -> bool)
    requires forall row :: keep(row)
    ensures Filter(table, keep) == table
  {
    if table != [] {
      FilterKeepsAll(table[1..], keep);
    }
  }

  lemma {:induction false} CountIsFilter(table: seq<Entry>, status: string, keep: Row -> bool)
    requires forall row :: keep(row) <==> row.status == status
    ensures |Filter(table, keep)| == CountStatus(table, status)
  {
    if table != [] {
      CountIsFilter(table[1..], status, keep);
    }
  }

  function KeysWith(table: seq<Entry>, agg: Aggregate, status: string): set<Key> {
    set i | 0 <= i < |table| && table[i].row.status == status :: Key(agg, table[i].id)
  }

  lemma KeysWithRest(table: seq<Entry>, agg: Aggregate, status: string)
    requires table != []
    ensures KeysWith(table, agg, status)
            == KeysWith(table[1..], agg, status)
               + if table[0].row.status == status then {Key(agg, table[0].id)} else {}
  {
    var rest := table[1..];
    forall k | k in KeysWith(rest, agg, status) ensures k in KeysWith(table, agg, status) {
      var i :| 0 <= i < |rest| && rest[i].row.status == status && Key(agg, rest[i].id) == k;
      assert table[i + 1] == rest[i];
    }
    forall k | k in KeysWith(table, agg, status) && k != Key(agg, table[0].id)
      ensures k in KeysWith(rest, agg, status)
    {
      var i :| 0 <= i < |table| && table[i].row.status == status && Key(agg, table[i].id) == k;
      assert rest[i - 1] == table[i];
    }
    if Key(agg, table[0].id) in KeysWith(table, agg, status) && table[0].row.status != status {
      var i :| 0 <= i < |table| && table[i].row.status == status && Key(agg, table[i].id) == Key(agg, table[0].id);
      assert rest[i - 1] == table[i];
    }
  }

  lemma FirstIsNew(table: seq<Entry>, agg: Aggregate, status: string)
    requires DistinctIds(table) && table != []
    ensures DistinctIds(table[1..]) && Key(agg, table[0].id) !in KeysWith(table[1..], agg, status)
  {
    var rest := table[1..];
    forall i | 0 <= i < |rest| ensures rest[i].id != table[0].id {
      assert rest[i] == table[i + 1];
    }
  }

  lemma {:induction false} KeysWithCount(table: seq<Entry>, agg: Aggregate, status: string)
    requires DistinctIds(table)
    ensures |KeysWith(table, agg, status)| == CountStatus(table, status)
  {
    if table != [] {
      KeysWithRest(table, agg, status);
      FirstIsNew(table, agg, status);
      KeysWithCount(table[1..], agg, status);
    }
  }

  /** Recounting the table gives the size of the protocol's bucket. */
  lemma RecountIsLive(table: seq<Entry>, rows: map<Key, Row>, agg: Aggregate, status: string)
    requires Lists(table, rows, agg)
    ensures CountStatus(table, status) == |Live(rows, agg, status)|
  {
    KeysWithCount(table, agg, status);
    forall k | k in Live(rows, agg, status) ensures k in KeysWith(table, agg, status) {
      var i :| 0 <= i < |table| && table[i].id == k.id;
      assert Key(agg, table[i].id) == k;
    }
    assert KeysWith(table, agg, status) == Live(rows, agg, status);
  }

  /** Recounting at any moment of a run gives the count at its start plus the ledger of the commits. */
  lemma RecountFollowsLedger(ss: seq<Protocol.State>, steps: seq<Protocol.Step>, i: nat,
                             first: seq<Entry>, table: seq<Entry>, agg: Aggregate, status: string)
    requires Invariants.Run(ss, steps) && i < |ss|
    requires Lists(first, ss[0].db.rows, agg) && Lists(table, ss[i].db.rows, agg)
    ensures CountStatus(table, status) == CountStatus(first, status) + Ledger(ss[i].history, agg, status)
  {
    RecountIsLive(first, ss[0].db.rows, agg, status);
    RecountIsLive(table, ss[i].db.rows, agg, status);
    Guarantees.StatusCountsConserved(ss, steps, i, agg, status);
  }
}

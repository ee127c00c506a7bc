/** Filtered, sorted, paginated reads: when the pages of a listing partition it. */
module Paging {
  import opened Domain
  import opened Sequences

  /** `ORDER BY` compares keys, so different rows may be equal to it. */
  ghost predicate TotalPreorder<T(!new)>(le: (T, T) -> bool) {
    && (forall a, b :: le(a, b) || le(b, a))
    && (forall a, b, c :: le(a, b) && le(b, c) ==> le(a, c))
  }

  predicate Ties<T(==)>(le: (T, T) -> bool, a: T, b: T) {
    a != b && le(a, b) && le(b, a)
  }

  predicate NoTies<T(==)>(le: (T, T) -> bool, rows: seq<T>) {
    forall a, b | a in rows && b in rows :: !Ties(le, a, b)
  }

  predicate IsSorted<T>(le: (T, T) -> bool, rows: seq<T>) {
    forall i, j | 0 <= i < j < |rows| :: le(rows[i], rows[j])
  }

  /** An order the database may return the rows in; each execution of a query picks one. */
  predicate IsOrdering<T(==)>(le: (T, T) -> bool, rows: seq<T>, out: seq<T>) {
    multiset(out) == multiset(rows) && IsSorted(le, out)
  }

  function Slice<T>(rows: seq<T>, limit: nat, offset: nat): seq<T> {
    if offset >= |rows| then [] else if |rows| - offset <= limit then rows[offset..] else rows[offset..offset + limit]
  }

  function Take<T>(rows: seq<T>, n: nat): seq<T> {
    if n < |rows| then rows[..n] else rows
  }

  function Drop<T>(rows: seq<T>, n: nat): seq<T> {
    if n < |rows| then rows[n..] else []
  }

  /**
   * What `_paginate_*` returns for a filtered listing: the total from one statement, and one page of some
   * ordering from the next, which may find the table changed.
   */
  ghost predicate Paginates<T(!new)>(le: (T, T) -> bool, counted: seq<T>, rows: seq<T>, keep: T -> bool, limit: nat,
          offset: nat, items: seq<T>, total: nat) {
    && total == |Where(counted, keep)|
    && exists out :: IsOrdering(le, Where(rows, keep), out) && items == Slice(out, limit, offset)
  }

  /** `min(limit, max(0, total - offset))`. */
  function PageLength(total: nat, limit: nat, offset: nat): nat {
    if total <= offset then 0 else if total - offset <= limit then total - offset else limit
  }

  /** The rows before a page, the page and the rows after it make up the sorted listing. */
  ghost predicate StandsBetween<T(!new)>(le: (T, T) -> bool, kept: seq<T>, before: seq<T>, items: seq<T>, after: seq<T>)
  {
    multiset(before + items + after) == multiset(kept) && IsSorted(le, before + items + after)
  }

  lemma SliceStands<T>(out: seq<T>, limit: nat, offset: nat) returns (before: seq<T>, after: seq<T>)
    ensures before + Slice(out, limit, offset) + after == out
    ensures |before| <= offset && (|before| < offset ==> Slice(out, limit, offset) == [] && after == [])
    ensures |Slice(out, limit, offset)| <= limit && (|Slice(out, limit, offset)| < limit ==> after == [])
  {
    before := Take(out, offset);
    after := Drop(out, offset + limit);
  }

  /**
   * A page comes right after the `offset` first rows of the sorted listing, or after all of it if it is
   * shorter, and stops at `limit` rows only if there are more.
   */
  lemma PagePosition<T(!new)>(le: (T, T) -> bool, counted: seq<T>, rows: seq<T>, keep: T -> bool, limit: nat,
          offset: nat, items: seq<T>, total: nat) returns (before: seq<T>, after: seq<T>)
    requires Paginates(le, counted, rows, keep, limit, offset, items, total)
    ensures StandsBetween(le, Where(rows, keep), before, items, after)
    ensures |before| <= offset && (|before| < offset ==> items == [] && after == [])
    ensures |items| <= limit && (|items| < limit ==> after == [])
    ensures total == |Where(counted, keep)|
  {
    var out :| IsOrdering(le, Where(rows, keep), out) && items == Slice(out, limit, offset);
    before, after := SliceStands(out, limit, offset);
  }

  lemma PageIsSorted<T>(le: (T, T) -> bool, before: seq<T>, items: seq<T>, after: seq<T>)
    requires IsSorted(le, before + items + after)
    ensures IsSorted(le, items)
  {
    var whole := before + items + after;
    forall i, j | 0 <= i < j < |items| ensures le(items[i], items[j]) {
      assert whole[|before| + i] == items[i] && whole[|before| + j] == items[j];
    }
  }

  /**
   * The page is sorted, has the rows due from what is stored when it is read, all of them kept by the
   * filter; its length agrees with the total when the two statements find as many rows.
   */
  lemma PageContents<T(!new)>(le: (T, T) -> bool, counted: seq<T>, rows: seq<T>, keep: T -> bool, limit: nat,
          offset: nat, items: seq<T>, total: nat)
    requires Paginates(le, counted, rows, keep, limit, offset, items, total)
    ensures |items| == PageLength(|Where(rows, keep)|, limit, offset)
    ensures |Where(counted, keep)| == |Where(rows, keep)| ==> |items| == PageLength(total, limit, offset)
    ensures IsSorted(le, items)
    ensures forall row | row in items :: row in rows && keep(row)
  {
    var before, after := PagePosition(le, counted, rows, keep, limit, offset, items, total);
    var kept := Where(rows, keep);
    assert |before + items + after| == |multiset(before + items + after)| == |kept|;
    PageIsSorted(le, before, items, after);
    forall row | row in items ensures row in rows && keep(row) {
      assert row in before + items + after && row in multiset(before + items + after) && row in multiset(kept);
      WhereKeeps(rows, keep, row);
    }
  }

  // ----- orderings -----

  function Insert<T>(le: (T, T) -> bool, row: T, rows: seq<T>): seq<T> {
    if rows == [] || le(row, rows[0]) then [row] + rows
    else [rows[0]] + Insert(le, row, rows[1..])
  }

  function Sort<T>(le: (T, T) -> bool, rows: seq<T>): seq<T> {
    if rows == [] then [] else Insert(le, rows[0], Sort(le, rows[1..]))
  }

  lemma {:induction false} InsertOrders<T(!new)>(le: (T, T) -> bool, row: T, rows: seq<T>)
    requires TotalPreorder(le) && IsSorted(le, rows)
    ensures IsOrdering(le, [row] + rows, Insert(le, row, rows))
  {
    var out := Insert(le, row, rows);
    if rows == [] {
    } else if le(row, rows[0]) {
      assert forall i | 0 <= i < |rows| :: le(rows[0], rows[i]);
    } else {
      InsertOrders(le, row, rows[1..]);
      assert rows == [rows[0]] + rows[1..];
      var rest := Insert(le, row, rows[1..]);
      forall i | 0 <= i < |rest| ensures le(rows[0], rest[i]) {
        assert rest[i] in multiset(rest) && rest[i] in multiset([row] + rows[1..]);
      }
    }
  }

  lemma {:induction false} SortOrders<T(!new)>(le: (T, T) -> bool, rows: seq<T>)
    requires TotalPreorder(le)
    ensures IsOrdering(le, rows, Sort(le, rows))
  {
    if rows != [] {
      SortOrders(le, rows[1..]);
      InsertOrders(le, rows[0], Sort(le, rows[1..]));
      assert rows == [rows[0]] + rows[1..];
    }
  }

  lemma SameFirst<T(!new)>(le: (T, T) -> bool, a: seq<T>, b: seq<T>)
    requires TotalPreorder(le) && NoTies(le, a) && IsSorted(le, a) && IsOrdering(le, a, b) && a != []
    ensures b != [] && a[0] == b[0]
  {
    assert b[0] in multiset(a) && a[0] in multiset(b);
    var i :| 0 <= i < |a| && a[i] == b[0];
    var j :| 0 <= j < |b| && b[j] == a[0];
    assert le(a[0], a[0]) && le(b[0], b[0]);
    assert le(a[0], a[i]) && le(b[0], b[j]) && !Ties(le, a[0], a[i]);
  }

  lemma TailMultiset<T>(a: seq<T>)
    requires a != []
    ensures multiset(a[1..]) == multiset(a) - multiset{a[0]}
  {
    assert a == [a[0]] + a[1..];
  }

  lemma NoTiesReordered<T(!new)>(le: (T, T) -> bool, rows: seq<T>, out: seq<T>)
    requires NoTies(le, rows) && multiset(out) == multiset(rows)
    ensures NoTies(le, out) && |out| == |rows|
  {
    assert |out| == |multiset(out)| == |multiset(rows)|;
    forall a, b | a in out && b in out ensures !Ties(le, a, b) {
      assert a in multiset(rows) && b in multiset(rows);
    }
  }

  /** Without ties every execution returns the same order. */
  lemma {:induction false} OrderingUnique<T(!new)>(le: (T, T) -> bool, a: seq<T>, b: seq<T>)
    requires TotalPreorder(le) && NoTies(le, a) && IsSorted(le, a) && IsOrdering(le, a, b)
    ensures a == b
    decreases |a|
  {
    assert |a| == |multiset(a)| == |b|;
    if a != [] {
      SameFirst(le, a, b);
      TailMultiset(a);
      TailMultiset(b);
      OrderingUnique(le, a[1..], b[1..]);
      assert a == [a[0]] + a[1..] && b == [b[0]] + b[1..];
    }
  }

  // ----- the total and the page -----

  /** Whatever page is asked for, it has the rows due from the total. */
  ghost predicate Agrees<T(!new)>(le: (T, T) -> bool, counted: seq<T>, rows: seq<T>, keep: T -> bool) {
    forall limit: nat, offset: nat, items: seq<T>, total: nat |
      Paginates(le, counted, rows, keep, limit, offset, items, total) :: |items| == PageLength(total, limit, offset)
  }

  /** Total and page agree if and only if the two statements find as many rows that pass the filter. */
  lemma AgreesIffAsMany<T(!new)>(le: (T, T) -> bool, counted: seq<T>, rows: seq<T>, keep: T -> bool)
    requires TotalPreorder(le)
    ensures Agrees(le, counted, rows, keep) <==> |Where(counted, keep)| == |Where(rows, keep)|
  {
    var total, n := |Where(counted, keep)|, |Where(rows, keep)|;
    if total == n {
      forall limit: nat, offset: nat, items: seq<T>, t: nat |
        Paginates(le, counted, rows, keep, limit, offset, items, t)
        ensures |items| == PageLength(t, limit, offset)
      {
        PageContents(le, counted, rows, keep, limit, offset, items, t);
      }
    } else {
      var out := Sort(le, Where(rows, keep));
      SortOrders(le, Where(rows, keep));
      assert |out| == |multiset(out)| == n;
      assert Paginates(le, counted, rows, keep, total + n, 0, Slice(out, total + n, 0), total);
      assert |Slice(out, total + n, 0)| == n && PageLength(total, total + n, 0) == total;
    }
  }

  // ----- reading page after page -----

  /** The offsets of successive pages: 0, `limit`, twice `limit`, ... */
  function Offset(k: nat, limit: nat): nat {
    if k == 0 then 0 else Offset(k - 1, limit) + limit
  }

  lemma {:induction false} OffsetIsProduct(k: nat, limit: nat)
    ensures Offset(k, limit) == k * limit
  {
    if k != 0 {
      OffsetIsProduct(k - 1, limit);
    }
  }

  /** Pages 0, 1, ... of size `limit`, page `k` cut from the `k`-th execution's ordering. */
  function Paged<T>(outs: seq<seq<T>>, limit: nat): (pages: seq<seq<T>>)
    ensures |pages| == |outs|
  {
    if outs == [] then []
    else
      var last := |outs| - 1;
      Paged(outs[..last], limit) + [Slice(outs[last], limit, Offset(last, limit))]
  }

  ghost predicate Executions<T(!new)>(le: (T, T) -> bool, rows: seq<T>, outs: seq<seq<T>>) {
    forall k | 0 <= k < |outs| :: IsOrdering(le, rows, outs[k])
  }

  lemma SliceExtends<T>(out: seq<T>, limit: nat, offset: nat)
    ensures Take(out, offset) + Slice(out, limit, offset) == Take(out, offset + limit)
  {
  }

  /** Pages cut from one and the same list make up its front. */
  lemma {:induction false} SlicesConcatenate<T>(out: seq<T>, limit: nat, pages: seq<seq<T>>)
    requires forall k | 0 <= k < |pages| :: pages[k] == Slice(out, limit, Offset(k, limit))
    ensures Flatten(pages) == Take(out, Offset(|pages|, limit))
  {
    if pages != [] {
      var last := |pages| - 1;
      var front, page := pages[..last], pages[last];
      assert pages == front + [page];
      FlattenOneMore(front, page);
      assert Flatten(front) == Take(out, Offset(last, limit)) by {
        SlicesConcatenate(out, limit, front);
      }
      SliceExtends(out, limit, Offset(last, limit));
    }
  }

  lemma {:induction false} PagedAt<T>(outs: seq<seq<T>>, limit: nat, k: nat)
    requires k < |outs|
    ensures Paged(outs, limit)[k] == Slice(outs[k], limit, Offset(k, limit))
  {
    if k < |outs| - 1 {
      PagedAt(outs[..|outs| - 1], limit, k);
    }
  }

  /** Every reading of enough pages shows every row exactly once. */
  ghost predicate PagesPartition<T(!new)>(le: (T, T) -> bool, rows: seq<T>) {
    forall outs: seq<seq<T>>, limit: nat | Executions(le, rows, outs) && Offset(|outs|, limit) >= |rows| ::
      multiset(Flatten(Paged(outs, limit))) == multiset(rows)
  }

  lemma SortedOnce<T(!new)>(le: (T, T) -> bool, rows: seq<T>, out: seq<T>)
    requires TotalPreorder(le) && NoTies(le, rows) && IsOrdering(le, rows, out)
    ensures out == Sort(le, rows) && |out| == |rows|
  {
    SortOrders(le, rows);
    NoTiesReordered(le, rows, out);
    OrderingUnique(le, out, Sort(le, rows));
  }

  /** Pages as a client gets them, each from its own execution: together they are the whole sorted list. */
  lemma ListingPages<T(!new)>(le: (T, T) -> bool, rows: seq<T>, keep: T -> bool, limit: nat, pages: seq<seq<T>>,
          totals: seq<nat>)
    requires TotalPreorder(le) && NoTies(le, Where(rows, keep)) && |totals| == |pages|
    requires forall k | 0 <= k < |pages| ::
      Paginates(le, rows, rows, keep, limit, Offset(k, limit), pages[k], totals[k])
    requires Offset(|pages|, limit) >= |Where(rows, keep)|
    ensures Flatten(pages) == Sort(le, Where(rows, keep))
    ensures multiset(Flatten(pages)) == multiset(Where(rows, keep))
    ensures forall k | 0 <= k < |pages| :: totals[k] == |Where(rows, keep)|
  {
    var kept := Where(rows, keep);
    SortOrders(le, kept);
    SortedOnce(le, kept, Sort(le, kept));
    forall k | 0 <= k < |pages| ensures pages[k] == Slice(Sort(le, kept), limit, Offset(k, limit)) {
      var out :| IsOrdering(le, kept, out) && pages[k] == Slice(out, limit, Offset(k, limit));
      SortedOnce(le, kept, out);
    }
    SlicesConcatenate(Sort(le, kept), limit, pages);
  }

  lemma PagesConcatenate<T(!new)>(le: (T, T) -> bool, rows: seq<T>, outs: seq<seq<T>>, limit: nat)
    requires TotalPreorder(le) && NoTies(le, rows)
    requires Executions(le, rows, outs) && Offset(|outs|, limit) >= |rows|
    ensures multiset(Flatten(Paged(outs, limit))) == multiset(rows)
  {
    SortOrders(le, rows);
    SortedOnce(le, rows, Sort(le, rows));
    forall k | 0 <= k < |outs| ensures Paged(outs, limit)[k] == Slice(Sort(le, rows), limit, Offset(k, limit)) {
      SortedOnce(le, rows, outs[k]);
      PagedAt(outs, limit, k);
    }
    SlicesConcatenate(Sort(le, rows), limit, Paged(outs, limit));
  }

  lemma SingleRowPage<T>(out: seq<T>, k: nat)
    requires k < |out|
    ensures Slice(out, 1, Offset(k, 1)) == [out[k]]
  {
    OffsetIsProduct(k, 1);
  }

  lemma {:induction false} SingleRowPages<T>(outs: seq<seq<T>>, n: nat)
    requires |outs| <= n && forall k | 0 <= k < |outs| :: |outs[k]| == n
    ensures |Flatten(Paged(outs, 1))| == |outs|
    ensures forall k | 0 <= k < |outs| :: Flatten(Paged(outs, 1))[k] == outs[k][k]
  {
    if outs != [] {
      var last := |outs| - 1;
      var front := outs[..last];
      SingleRowPages(front, n);
      SingleRowPage(outs[last], last);
      FlattenOneMore(Paged(front, 1), [outs[last][last]]);
      assert Flatten(Paged(outs, 1)) == Flatten(Paged(front, 1)) + [outs[last][last]];
    }
  }

  /** Rows that tie may trade places between two executions. */
  lemma SwappedTie<T(!new)>(le: (T, T) -> bool, rows: seq<T>, out: seq<T>, i: nat, j: nat)
    requires TotalPreorder(le) && IsOrdering(le, rows, out)
    requires i < j < |out| && Ties(le, out[i], out[j])
    ensures IsOrdering(le, rows, out[i := out[j]][j := out[i]])
  {
    var swapped := out[i := out[j]][j := out[i]];
    forall p, q | 0 <= p < q < |out| ensures le(swapped[p], swapped[q]) {
      assert le(swapped[p], out[p]) && le(out[p], out[q]) && le(out[q], swapped[q]);
    }
  }

  lemma DuplicatedRow<T>(out: seq<T>, i: nat, j: nat)
    requires i < j < |out| && out[i] != out[j]
    ensures multiset(out[j := out[i]]) != multiset(out)
  {
    assert multiset(out[j := out[i]])[out[j]] == multiset(out)[out[j]] - 1;
  }

  function Deviating<T>(out: seq<T>, swapped: seq<T>, j: nat): (outs: seq<seq<T>>)
    ensures |outs| == |out| && forall k | 0 <= k < |out| :: outs[k] == if k == j then swapped else out
  {
    seq(|out|, k => if k == j then swapped else out)
  }

  lemma DeviatingPages<T>(out: seq<T>, i: nat, j: nat)
    requires i < j < |out|
    ensures Flatten(Paged(Deviating(out, out[i := out[j]][j := out[i]], j), 1)) == out[j := out[i]]
  {
    SingleRowPages(Deviating(out, out[i := out[j]][j := out[i]], j), |out|);
  }

  /** Two different rows with equal keys can make a reader see one of them twice and the other never. */
  lemma TiesBreakPaging<T(!new)>(le: (T, T) -> bool, rows: seq<T>, out: seq<T>, i: nat, j: nat)
    requires TotalPreorder(le) && IsOrdering(le, rows, out)
    requires i < j < |out| && Ties(le, out[i], out[j])
    ensures !PagesPartition(le, rows)
  {
    var swapped := out[i := out[j]][j := out[i]];
    var outs := Deviating(out, swapped, j);
    SwappedTie(le, rows, out, i, j);
    DeviatingPages(out, i, j);
    DuplicatedRow(out, i, j);
    assert Offset(|outs|, 1) >= |rows| by {
      assert |out| == |multiset(out)| == |rows|;
      OffsetIsProduct(|outs|, 1);
    }
    assert Executions(le, rows, outs);
  }

  /** Paging is exact, whatever the page size, if and only if no two different rows tie. */
  lemma PagesPartitionIffNoTies<T(!new)>(le: (T, T) -> bool, rows: seq<T>)
    requires TotalPreorder(le)
    ensures PagesPartition(le, rows) <==> NoTies(le, rows)
  {
    if NoTies(le, rows) {
      forall outs: seq<seq<T>>, limit: nat | Executions(le, rows, outs) && Offset(|outs|, limit) >= |rows|
        ensures multiset(Flatten(Paged(outs, limit))) == multiset(rows)
      {
        PagesConcatenate(le, rows, outs, limit);
      }
    } else {
      var a, b :| a in rows && b in rows && Ties(le, a, b);
      var out := Sort(le, rows);
      SortOrders(le, rows);
      assert a in multiset(out) && b in multiset(out);
      var i :| 0 <= i < |out| && out[i] == a;
      var j :| 0 <= j < |out| && out[j] == b;
      TiesBreakPaging(le, rows, out, if i < j then i else j, if i < j then j else i);
    }
  }

  // ----- the listings -----

  /** `ORDER BY year, team_name`, for any collation of names. */
  function HockeyOrder(collate: string -> real): (HockeyRow, HockeyRow) -> bool {
    (a: HockeyRow, b: HockeyRow) => a.year < b.year || (a.year == b.year && collate(a.teamName) <= collate(b.teamName))
  }

  /** `ORDER BY year DESC, title`. */
  function OscarOrder(collate: string -> real): (OscarRow, OscarRow) -> bool {
    (a: OscarRow, b: OscarRow) => a.year > b.year || (a.year == b.year && collate(a.title) <= collate(b.title))
  }

  lemma HockeyPreorder(collate: string -> real)
    ensures TotalPreorder(HockeyOrder(collate))
  {
  }

  lemma OscarPreorder(collate: string -> real)
    ensures TotalPreorder(OscarOrder(collate))
  {
  }

  /** Hockey rows come oldest year first, and within a year by team. */
  lemma HockeySorted(collate: string -> real, rows: seq<HockeyRow>, i: nat, k: nat)
    requires IsSorted(HockeyOrder(collate), rows) && i < k < |rows|
    ensures rows[i].year < rows[k].year
            || (rows[i].year == rows[k].year && collate(rows[i].teamName) <= collate(rows[k].teamName))
  {
    assert HockeyOrder(collate)(rows[i], rows[k]);
  }

  /** Films come newest year first, and within a year by title. */
  lemma OscarSorted(collate: string -> real, rows: seq<OscarRow>, i: nat, k: nat)
    requires IsSorted(OscarOrder(collate), rows) && i < k < |rows|
    ensures rows[i].year > rows[k].year
            || (rows[i].year == rows[k].year && collate(rows[i].title) <= collate(rows[k].title))
  {
    assert OscarOrder(collate)(rows[i], rows[k]);
  }

  lemma HockeyPageSorted(collate: string -> real, counted: seq<HockeyRow>, rows: seq<HockeyRow>,
          keep: HockeyRow -> bool, limit: nat, offset: nat, items: seq<HockeyRow>, total: nat, i: nat, k: nat)
    requires Paginates(HockeyOrder(collate), counted, rows, keep, limit, offset, items, total) && i < k < |items|
    ensures items[i].year < items[k].year
            || (items[i].year == items[k].year && collate(items[i].teamName) <= collate(items[k].teamName))
  {
    PageContents(HockeyOrder(collate), counted, rows, keep, limit, offset, items, total);
    HockeySorted(collate, items, i, k);
  }

  lemma OscarPageSorted(collate: string -> real, counted: seq<OscarRow>, rows: seq<OscarRow>,
          keep: OscarRow -> bool, limit: nat, offset: nat, items: seq<OscarRow>, total: nat, i: nat, k: nat)
    requires Paginates(OscarOrder(collate), counted, rows, keep, limit, offset, items, total) && i < k < |items|
    ensures items[i].year > items[k].year
            || (items[i].year == items[k].year && collate(items[i].title) <= collate(items[k].title))
  {
    PageContents(OscarOrder(collate), counted, rows, keep, limit, offset, items, total);
    OscarSorted(collate, items, i, k);
  }

  /** Paging through a job's hockey rows is exact if and only if no team appears twice in a year, up to collation. */
  lemma HockeyPages(collate: string -> real, rows: seq<HockeyRow>)
    ensures PagesPartition(HockeyOrder(collate), rows) <==>
            forall a, b | a in rows && b in rows && a.year == b.year && collate(a.teamName) == collate(b.teamName) ::
              a == b
  {
    HockeyPreorder(collate);
    PagesPartitionIffNoTies(HockeyOrder(collate), rows);
    assert forall a, b :: Ties(HockeyOrder(collate), a, b) <==>
        a != b && a.year == b.year && collate(a.teamName) == collate(b.teamName);
  }

  lemma OscarPages(collate: string -> real, rows: seq<OscarRow>)
    ensures PagesPartition(OscarOrder(collate), rows) <==>
            forall a, b | a in rows && b in rows && a.year == b.year && collate(a.title) == collate(b.title) :: a == b
  {
    OscarPreorder(collate);
    PagesPartitionIffNoTies(OscarOrder(collate), rows);
    assert forall a, b :: Ties(OscarOrder(collate), a, b) <==>
        a != b && a.year == b.year && collate(a.title) == collate(b.title);
  }
}

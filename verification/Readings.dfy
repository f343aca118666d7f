/**
 Reading queries: filtering, newest first, and paging. The table is the sequence of its rows; rows with
 equal timestamps come in table order.
 */
module Readings {
  import opened Options
  import opened Tables

  datatype Filter = Filter(deviceId: nat, from: Option<int>, to: Option<int>, limit: int, offset: int)

  predicate Matches(f: Filter, r: Reading) {
    r.deviceId == f.deviceId
    && (f.from.Some? ==> f.from.value <= r.timestamp) && (f.to.Some? ==> r.timestamp <= f.to.value)
  }

  function Matching(rows: seq<Reading>, f: Filter): seq<Reading> {
    if rows == [] then []
    else (if Matches(f, rows[0]) then [rows[0]] else []) + Matching(rows[1..], f)
  }

  /** Puts a row before the first one that is not newer. */
  function InsertNewest(r: Reading, rows: seq<Reading>): seq<Reading> {
    if rows == [] || rows[0].timestamp <= r.timestamp then [r] + rows
    else [rows[0]] + InsertNewest(r, rows[1..])
  }

  /** ORDER BY timestamp DESC. */
  function NewestFirst(rows: seq<Reading>): seq<Reading> {
    if rows == [] then [] else InsertNewest(rows[0], NewestFirst(rows[1..]))
  }

  /** LIMIT and OFFSET; values that are not positive are not applied. */
  function Window(rows: seq<Reading>, limit: int, offset: int): seq<Reading> {
    var skipped := if offset <= 0 then rows else if offset < |rows| then rows[offset..] else [];
    if 0 < limit < |skipped| then skipped[..limit] else skipped
  }

  function GetReadings(rows: seq<Reading>, f: Filter): (seq<Reading>, int) {
    (Window(NewestFirst(Matching(rows, f)), f.limit, f.offset), |Matching(rows, f)|)
  }

  predicate Descending(rows: seq<Reading>) {
    forall i, j :: 0 <= i < j < |rows| ==> rows[i].timestamp >= rows[j].timestamp
  }

  lemma {:induction false} InsertNewestRearranges(r: Reading, rows: seq<Reading>)
    ensures multiset(InsertNewest(r, rows)) == multiset{r} + multiset(rows)
  {
    if rows != [] && rows[0].timestamp > r.timestamp {
      InsertNewestRearranges(r, rows[1..]);
      assert rows == [rows[0]] + rows[1..];
    }
  }

  predicate NoneNewer(t: int, rows: seq<Reading>) {
    forall i :: 0 <= i < |rows| ==> rows[i].timestamp <= t
  }

  lemma {:induction false} InsertNewestBounded(r: Reading, rows: seq<Reading>, t: int)
    requires NoneNewer(t, rows) && r.timestamp <= t
    ensures NoneNewer(t, InsertNewest(r, rows))
  {
    if rows != [] && rows[0].timestamp > r.timestamp { InsertNewestBounded(r, rows[1..], t); }
  }

  lemma {:induction false} InsertNewestOrders(r: Reading, rows: seq<Reading>)
    requires Descending(rows)
    ensures Descending(InsertNewest(r, rows))
  {
    if rows != [] && rows[0].timestamp > r.timestamp {
      InsertNewestOrders(r, rows[1..]);
      InsertNewestBounded(r, rows[1..], rows[0].timestamp);
    }
  }

  lemma {:induction false} NewestFirstOrders(rows: seq<Reading>)
    ensures Descending(NewestFirst(rows)) && multiset(NewestFirst(rows)) == multiset(rows)
    ensures |NewestFirst(rows)| == |rows|
  {
    if rows != [] {
      NewestFirstOrders(rows[1..]);
      InsertNewestOrders(rows[0], NewestFirst(rows[1..]));
      InsertNewestRearranges(rows[0], NewestFirst(rows[1..]));
      assert rows == [rows[0]] + rows[1..];
    }
    assert |multiset(NewestFirst(rows))| == |multiset(rows)|;
  }

  /** The number of matching rows equal to x in the result is their number in the table. */
  lemma {:induction false} MatchingCounts(rows: seq<Reading>, f: Filter, x: Reading)
    ensures multiset(Matching(rows, f))[x] == if Matches(f, x) then multiset(rows)[x] else 0
  {
    if rows != [] {
      MatchingCounts(rows[1..], f, x);
      assert rows == [rows[0]] + rows[1..];
    }
  }

  /** A reading of the device, from the first time on if there is one, up to the second if there is one. */
  predicate Wanted(f: Filter, r: Reading) {
    && r.deviceId == f.deviceId
    && !(f.from.Some? && r.timestamp < f.from.value) && !(f.to.Some? && r.timestamp > f.to.value)
  }

  /** The first n pages of the given size, one after the other. */
  function Pages(rows: seq<Reading>, f: Filter, size: int, n: nat): seq<Reading> {
    if n == 0 then []
    else Pages(rows, f, size, n - 1) + GetReadings(rows, f.(limit := size, offset := (n - 1) * size)).0
  }

  lemma FilterIgnoresPaging(rows: seq<Reading>, f: Filter, limit: int, offset: int)
    ensures Matching(rows, f.(limit := limit, offset := offset)) == Matching(rows, f)
  {
    if rows != [] { FilterIgnoresPaging(rows[1..], f, limit, offset); }
  }

  function Prefix(rows: seq<Reading>, n: int): seq<Reading>
    requires 0 <= n
  {
    if n < |rows| then rows[..n] else rows
  }

  lemma WindowExtendsPrefix(rows: seq<Reading>, size: int, start: int)
    requires size > 0 && 0 <= start
    ensures Prefix(rows, start) + Window(rows, size, start) == Prefix(rows, start + size)
  {
  }

  lemma {:induction false} PagesArePrefix(rows: seq<Reading>, f: Filter, size: int, n: nat)
    requires size > 0
    ensures 0 <= n * size
    ensures Pages(rows, f, size, n) == Prefix(NewestFirst(Matching(rows, f)), n * size)
  {
    if n > 0 {
      PagesArePrefix(rows, f, size, n - 1);
      assert n * size == (n - 1) * size + size;
      FilterIgnoresPaging(rows, f, size, (n - 1) * size);
      WindowExtendsPrefix(NewestFirst(Matching(rows, f)), size, (n - 1) * size);
    }
  }

  /**
   For any page size, enough pages together are every matching reading as often as it is in the table,
   newest first; each page reports their number, whatever page it is.
   */
  lemma PagesCoverAll(rows: seq<Reading>, f: Filter, size: int, n: nat, k: int)
    requires size > 0 && n * size >= |Matching(rows, f)|
    ensures Descending(Pages(rows, f, size, n))
    ensures forall x :: multiset(Pages(rows, f, size, n))[x] == if Wanted(f, x) then multiset(rows)[x] else 0
    ensures GetReadings(rows, f.(limit := size, offset := k * size)).1 == |Pages(rows, f, size, n)|
  {
    var matching := Matching(rows, f);
    PagesArePrefix(rows, f, size, n);
    NewestFirstOrders(matching);
    FilterIgnoresPaging(rows, f, size, k * size);
    forall x ensures multiset(Pages(rows, f, size, n))[x] == if Wanted(f, x) then multiset(rows)[x] else 0 {
      MatchingCounts(rows, f, x);
    }
  }

  /** Without a limit and an offset one query gives all of them. */
  lemma UnlimitedGetsAll(rows: seq<Reading>, f: Filter)
    requires f.limit <= 0 && f.offset <= 0
    ensures var (page, total) := GetReadings(rows, f);
            && Descending(page) && total == |page|
            && forall x :: multiset(page)[x] == if Wanted(f, x) then multiset(rows)[x] else 0
  {
    NewestFirstOrders(Matching(rows, f));
    forall x ensures multiset(Matching(rows, f))[x] == if Wanted(f, x) then multiset(rows)[x] else 0 {
      MatchingCounts(rows, f, x);
    }
  }

  lemma WindowEmptyIff(rows: seq<Reading>, size: int, start: int)
    requires size > 0 && 0 <= start
    ensures Window(rows, size, start) == [] <==> start >= |rows|
  {
  }

  lemma ProductNonNegative(x: nat, y: nat)
    ensures 0 <= x * y
  {
  }

  /** A page is empty exactly past the last reading, so reading on until an empty page ends with all of them. */
  lemma LaterPagesEmpty(rows: seq<Reading>, f: Filter, size: int, k: nat)
    requires size > 0
    ensures GetReadings(rows, f.(limit := size, offset := k * size)).0 == [] <==> k * size >= |Matching(rows, f)|
  {
    var start := k * size;
    ProductNonNegative(k, size);
    FilterIgnoresPaging(rows, f, size, start);
    NewestFirstOrders(Matching(rows, f));
    WindowEmptyIff(NewestFirst(Matching(rows, f)), size, start);
  }
}

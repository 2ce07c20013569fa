/** The paged history of a wallet: `listByWallet` and `countByWallet`. */
module Paging {
  import opened Prelude
  import opened Bank
  import opened BankInvariants

  predicate Wanted(row: LedgerRow, id: Id, kind: Option<Kind>) {
    row.wallet == id && (kind.None? || row.kind == kind.value)
  }

  /** WHERE. */
  function Filter(rows: seq<LedgerRow>, id: Id, kind: Option<Kind>): seq<LedgerRow> {
    if rows == [] then []
    else
      var last := rows[|rows| - 1];
      Filter(rows[..|rows| - 1], id, kind) + if Wanted(last, id, kind) then [last] else []
  }

  /** ORDER BY created_at DESC. */
  function NewestFirst(rows: seq<LedgerRow>): seq<LedgerRow> {
    if rows == [] then [] else PlaceNewest(rows[0], NewestFirst(rows[1..]))
  }

  function PlaceNewest(row: LedgerRow, sorted: seq<LedgerRow>): seq<LedgerRow> {
    if sorted == [] || sorted[0].at < row.at then [row] + sorted else [sorted[0]] + PlaceNewest(row, sorted[1..])
  }

  /** LIMIT and OFFSET. */
  function Slice<T>(rows: seq<T>, limit: nat, offset: nat): seq<T> {
    if offset >= |rows| then [] else if offset + limit >= |rows| then rows[offset..] else rows[offset..offset + limit]
  }

  function History(rows: seq<LedgerRow>, id: Id, kind: Option<Kind>): seq<LedgerRow> {
    NewestFirst(Filter(rows, id, kind))
  }

  function ListByWallet(rows: seq<LedgerRow>, id: Id, kind: Option<Kind>, limit: nat, offset: nat): seq<LedgerRow> {
    Slice(History(rows, id, kind), limit, offset)
  }

  function CountByWallet(rows: seq<LedgerRow>, id: Id, kind: Option<Kind>): nat {
    |set i | 0 <= i < |rows| && Wanted(rows[i], id, kind)|
  }

  /** The pages numbered from `first` on, one after the other. */
  function Pages(rows: seq<LedgerRow>, id: Id, kind: Option<Kind>, limit: nat, offset: nat, count: nat): seq<LedgerRow>
    decreases count
  {
    if count == 0 then []
    else ListByWallet(rows, id, kind, limit, offset) + Pages(rows, id, kind, limit, offset + limit, count - 1)
  }

  // -------------------------------------------------------------- fixed ledger

  lemma {:induction false} PagesAreSlices(rows: seq<LedgerRow>, id: Id, kind: Option<Kind>, limit: nat, offset: nat, count: nat)
    requires offset <= |History(rows, id, kind)| <= offset + count * limit
    ensures Pages(rows, id, kind, limit, offset, count) == History(rows, id, kind)[offset..]
    decreases count
  {
    var all := History(rows, id, kind);
    if count > 0 {
      assert count * limit == limit + (count - 1) * limit;
      if offset + limit <= |all| {
        PagesAreSlices(rows, id, kind, limit, offset + limit, count - 1);
        assert all[offset..] == all[offset..offset + limit] + all[offset + limit..];
      } else {
        PastTheEnd(rows, id, kind, limit, offset + limit, count - 1);
      }
    }
  }

  lemma {:induction false} PastTheEnd(rows: seq<LedgerRow>, id: Id, kind: Option<Kind>, limit: nat, offset: nat, count: nat)
    requires |History(rows, id, kind)| <= offset
    ensures Pages(rows, id, kind, limit, offset, count) == []
    decreases count
  {
    if count > 0 {
      PastTheEnd(rows, id, kind, limit, offset + limit, count - 1);
    }
  }

  lemma {:induction false} PlaceKeeps(row: LedgerRow, sorted: seq<LedgerRow>)
    ensures multiset(PlaceNewest(row, sorted)) == multiset{row} + multiset(sorted)
  {
    if sorted != [] && !(sorted[0].at < row.at) {
      PlaceKeeps(row, sorted[1..]);
      assert sorted == [sorted[0]] + sorted[1..];
    }
  }

  lemma {:induction false} NewestFirstKeeps(rows: seq<LedgerRow>)
    ensures multiset(NewestFirst(rows)) == multiset(rows) && |NewestFirst(rows)| == |rows|
  {
    if rows != [] {
      NewestFirstKeeps(rows[1..]);
      PlaceKeeps(rows[0], NewestFirst(rows[1..]));
      assert rows == [rows[0]] + rows[1..];
    }
    assert |multiset(NewestFirst(rows))| == |multiset(rows)|;
  }

  ghost predicate NewestToOldest(rows: seq<LedgerRow>) {
    forall i, j :: 0 <= i < j < |rows| ==> rows[i].at >= rows[j].at
  }

  lemma {:induction false} PlaceKeepsOrder(row: LedgerRow, sorted: seq<LedgerRow>)
    requires NewestToOldest(sorted)
    ensures NewestToOldest(PlaceNewest(row, sorted))
  {
    if sorted != [] && !(sorted[0].at < row.at) {
      PlaceKeepsOrder(row, sorted[1..]);
      PlaceKeeps(row, sorted[1..]);
      var rest := PlaceNewest(row, sorted[1..]);
      forall j | 0 <= j < |rest| ensures sorted[0].at >= rest[j].at {
        assert rest[j] in multiset(rest);
        assert rest[j] == row || rest[j] in sorted[1..];
      }
    }
  }

  lemma {:induction false} NewestFirstSorts(rows: seq<LedgerRow>)
    ensures NewestToOldest(NewestFirst(rows))
  {
    if rows != [] {
      NewestFirstSorts(rows[1..]);
      PlaceKeepsOrder(rows[0], NewestFirst(rows[1..]));
    }
  }

  lemma {:induction false} FilterCounts(rows: seq<LedgerRow>, id: Id, kind: Option<Kind>)
    ensures |Filter(rows, id, kind)| == CountByWallet(rows, id, kind)
  {
    if rows != [] {
      var n := |rows| - 1;
      FilterCounts(rows[..n], id, kind);
      var before := set i | 0 <= i < n && Wanted(rows[..n][i], id, kind);
      var all := set i | 0 <= i < |rows| && Wanted(rows[i], id, kind);
      assert rows[n] == rows[|rows| - 1] && n !in before;
      if Wanted(rows[n], id, kind) {
        assert all == before + {n};
      } else {
        assert all == before;
      }
    }
  }

  /** The filter keeps every row of the wallet, and of the type if one is asked for, as often as it occurs. */
  lemma {:induction false} FilterSelects(rows: seq<LedgerRow>, id: Id, kind: Option<Kind>, row: LedgerRow)
    ensures multiset(Filter(rows, id, kind))[row]
            == if row.wallet == id && (kind == None || kind == Some(row.kind)) then multiset(rows)[row] else 0
  {
    if rows != [] {
      var n := |rows| - 1;
      FilterSelects(rows[..n], id, kind, row);
      assert rows == rows[..n] + [rows[n]];
      OneMore(rows[..n], rows[n], row);
      OneMore(Filter(rows[..n], id, kind), rows[n], row);
    }
  }

  lemma OneMore(rows: seq<LedgerRow>, last: LedgerRow, row: LedgerRow)
    ensures multiset(rows + [last])[row] == multiset(rows)[row] + if last == row then 1 else 0
  {
  }

  /**
    On a fixed ledger the pages, as many as the total calls for, show every matching
    row exactly once, from the newest to the oldest, and their lengths add up to
    `countByWallet`.  With the stamps of every reachable ledger no two rows tie, so
    the order does not depend on the ids that would break a tie.
   */
  lemma PagesShowEverythingOnce(rows: seq<LedgerRow>, id: Id, kind: Option<Kind>, limit: nat, count: nat)
    requires CountByWallet(rows, id, kind) <= count * limit
    ensures var shown := Pages(rows, id, kind, limit, 0, count);
            && multiset(shown) == multiset(Filter(rows, id, kind))
            && |shown| == CountByWallet(rows, id, kind)
            && shown == History(rows, id, kind)
            && (forall row :: multiset(shown)[row] ==
                  if row.wallet == id && (kind == None || kind == Some(row.kind)) then multiset(rows)[row] else 0)
            && NewestToOldest(shown)
            && (Stamped(rows) ==> forall i, j :: 0 <= i < j < |shown| ==> shown[i].at > shown[j].at)
  {
    FilterCounts(rows, id, kind);
    forall row ensures multiset(Filter(rows, id, kind))[row]
                       == if row.wallet == id && (kind == None || kind == Some(row.kind)) then multiset(rows)[row] else 0 {
      FilterSelects(rows, id, kind, row);
    }
    NewestFirstKeeps(Filter(rows, id, kind));
    NewestFirstSorts(Filter(rows, id, kind));
    PagesAreSlices(rows, id, kind, limit, 0, count);
    if Stamped(rows) {
      StrictlyNewest(rows, id, kind);
    }
  }

  lemma StrictlyNewest(rows: seq<LedgerRow>, id: Id, kind: Option<Kind>)
    requires Stamped(rows)
    ensures var shown := History(rows, id, kind); forall i, j :: 0 <= i < j < |shown| ==> shown[i].at > shown[j].at
  {
    var kept, shown := Filter(rows, id, kind), History(rows, id, kind);
    FilterIsAscending(rows, id, kind);
    NewestFirstIsReverse(kept);
    forall i, j | 0 <= i < j < |shown| ensures shown[i].at > shown[j].at {
      NewestFirstKeeps(kept);
      ReverseAt(kept, i);
      ReverseAt(kept, j);
    }
  }

  // ------------------------------------------------------------ growing ledger

  function Reverse<T>(s: seq<T>): seq<T> {
    if s == [] then [] else Reverse(s[1..]) + [s[0]]
  }

  ghost predicate Ascending(rows: seq<LedgerRow>) {
    forall i, j :: 0 <= i < j < |rows| ==> rows[i].at < rows[j].at
  }

  lemma {:induction false} FilterIsAscending(rows: seq<LedgerRow>, id: Id, kind: Option<Kind>)
    requires Stamped(rows)
    ensures Ascending(Filter(rows, id, kind))
    ensures forall row <- Filter(rows, id, kind) :: row in rows && row.wallet == id
  {
    if rows != [] {
      var n := |rows| - 1;
      FilterIsAscending(rows[..n], id, kind);
      forall row <- Filter(rows[..n], id, kind) ensures rows[n].wallet == id ==> row.at < rows[n].at {
        var i :| 0 <= i < n && rows[..n][i] == row;
      }
    }
  }

  lemma {:induction false} PlaceLast(row: LedgerRow, sorted: seq<LedgerRow>)
    requires forall other <- sorted :: row.at < other.at
    ensures PlaceNewest(row, sorted) == sorted + [row]
  {
    if sorted != [] {
      assert sorted[0] in sorted;
      PlaceLast(row, sorted[1..]);
    }
  }

  lemma {:induction false} NewestFirstIsReverse(rows: seq<LedgerRow>)
    requires Ascending(rows)
    ensures NewestFirst(rows) == Reverse(rows)
  {
    if rows != [] {
      NewestFirstIsReverse(rows[1..]);
      NewestFirstKeeps(rows[1..]);
      forall other <- NewestFirst(rows[1..]) ensures rows[0].at < other.at {
        assert other in multiset(NewestFirst(rows[1..]));
        assert other in multiset(rows[1..]);
        var i :| 0 <= i < |rows[1..]| && rows[1..][i] == other;
      }
      PlaceLast(rows[0], NewestFirst(rows[1..]));
    }
  }

  lemma {:induction false} ReverseAt<T>(s: seq<T>, i: nat)
    requires i < |s|
    ensures |Reverse(s)| == |s| && Reverse(s)[i] == s[|s| - 1 - i]
  {
    if |s| > 1 {
      ReverseAt(s[1..], if i < |s| - 1 then i else 0);
    }
  }

  lemma {:induction false} FilterPrefix(rows: seq<LedgerRow>, more: seq<LedgerRow>, id: Id, kind: Option<Kind>)
    requires rows <= more
    ensures Filter(rows, id, kind) <= Filter(more, id, kind)
    decreases |more|
  {
    if |rows| < |more| {
      FilterPrefix(rows, more[..|more| - 1], id, kind);
    } else {
      assert rows == more;
    }
  }

  /** The place of the matching row numbered `k` from the oldest, in the newest-first history. */
  lemma PlaceOf(rows: seq<LedgerRow>, id: Id, kind: Option<Kind>, k: nat)
    requires Stamped(rows) && k < |Filter(rows, id, kind)|
    ensures |History(rows, id, kind)| == |Filter(rows, id, kind)|
    ensures History(rows, id, kind)[|Filter(rows, id, kind)| - 1 - k] == Filter(rows, id, kind)[k]
  {
    FilterIsAscending(rows, id, kind);
    NewestFirstIsReverse(Filter(rows, id, kind));
    ReverseAt(Filter(rows, id, kind), |Filter(rows, id, kind)| - 1 - k);
  }

  /** The ledgers met by successive fetches only grow. */
  ghost predicate Growing(ledgers: seq<seq<LedgerRow>>) {
    && (forall i :: 0 <= i < |ledgers| ==> Stamped(ledgers[i]))
    && (forall i, j :: 0 <= i <= j < |ledgers| ==> ledgers[i] <= ledgers[j])
  }

  /** Where page number `i`, counted from zero, starts. */
  function Offset(i: nat, limit: nat): nat {
    if i == 0 then 0 else Offset(i - 1, limit) + limit
  }

  lemma {:induction false} OffsetIsProduct(i: nat, limit: nat)
    ensures Offset(i, limit) == i * limit
  {
    if i > 0 {
      OffsetIsProduct(i - 1, limit);
      assert i * limit == (i - 1) * limit + limit;
    }
  }

  /** The page that fetch `i` sees. */
  ghost predicate Shown(ledgers: seq<seq<LedgerRow>>, id: Id, kind: Option<Kind>, limit: nat, row: LedgerRow, i: nat)
    requires i < |ledgers|
  {
    row in ListByWallet(ledgers[i], id, kind, limit, Offset(i, limit))
  }

  /** A page shows the rows whose place falls within it. */
  lemma PageShows(rows: seq<LedgerRow>, id: Id, kind: Option<Kind>, limit: nat, offset: nat, k: nat)
    requires Stamped(rows) && k < |Filter(rows, id, kind)|
    requires offset <= |Filter(rows, id, kind)| - 1 - k < offset + limit
    ensures Filter(rows, id, kind)[k] in ListByWallet(rows, id, kind, limit, offset)
  {
    PlaceOf(rows, id, kind, k);
    var place := |Filter(rows, id, kind)| - 1 - k;
    assert ListByWallet(rows, id, kind, limit, offset)[place - offset] == Filter(rows, id, kind)[k];
  }

  /** A matching row keeps its number from the oldest as the ledger grows. */
  lemma SameNumber(ledgers: seq<seq<LedgerRow>>, id: Id, kind: Option<Kind>, k: nat, i: nat)
    requires Growing(ledgers) && i < |ledgers| && k < |Filter(ledgers[0], id, kind)|
    ensures k < |Filter(ledgers[i], id, kind)| <= |Filter(ledgers[|ledgers| - 1], id, kind)|
    ensures Filter(ledgers[i], id, kind)[k] == Filter(ledgers[0], id, kind)[k]
    ensures i + 1 < |ledgers| ==> |Filter(ledgers[i], id, kind)| <= |Filter(ledgers[i + 1], id, kind)|
  {
    FilterPrefix(ledgers[0], ledgers[i], id, kind);
    FilterPrefix(ledgers[i], ledgers[|ledgers| - 1], id, kind);
    if i + 1 < |ledgers| {
      FilterPrefix(ledgers[i], ledgers[i + 1], id, kind);
    }
  }

  lemma {:induction false} SomeFetchShows(ledgers: seq<seq<LedgerRow>>, id: Id, kind: Option<Kind>, limit: nat, k: nat, from: nat)
    requires Growing(ledgers) && limit >= 1 && from < |ledgers| && k < |Filter(ledgers[0], id, kind)|
    requires |Filter(ledgers[|ledgers| - 1], id, kind)| <= Offset(|ledgers|, limit)
    requires k < |Filter(ledgers[from], id, kind)| && Offset(from, limit) <= |Filter(ledgers[from], id, kind)| - 1 - k
    ensures exists i: nat :: i < |ledgers| && Shown(ledgers, id, kind, limit, Filter(ledgers[0], id, kind)[k], i)
    decreases |ledgers| - from
  {
    SameNumber(ledgers, id, kind, k, from);
    if |Filter(ledgers[from], id, kind)| - 1 - k < Offset(from + 1, limit) {
      PageShows(ledgers[from], id, kind, limit, Offset(from, limit), k);
      assert Shown(ledgers, id, kind, limit, Filter(ledgers[0], id, kind)[k], from);
    } else {
      assert from + 1 < |ledgers|;
      SomeFetchShows(ledgers, id, kind, limit, k, from + 1);
    }
  }

  /**
    While movements are appended between the fetches of successive pages, a row may
    be shown again on a later page, but no row that was there at the first fetch is
    skipped, once the fetches have covered the final total.
   */
  lemma NoRowIsSkipped(ledgers: seq<seq<LedgerRow>>, id: Id, kind: Option<Kind>, limit: nat, row: LedgerRow)
    requires Growing(ledgers) && ledgers != [] && limit >= 1 && row in Filter(ledgers[0], id, kind)
    requires |Filter(ledgers[|ledgers| - 1], id, kind)| <= |ledgers| * limit
    ensures exists i: nat :: i < |ledgers| && Shown(ledgers, id, kind, limit, row, i)
  {
    var k :| 0 <= k < |Filter(ledgers[0], id, kind)| && Filter(ledgers[0], id, kind)[k] == row;
    OffsetIsProduct(|ledgers|, limit);
    SomeFetchShows(ledgers, id, kind, limit, k, 0);
  }
}

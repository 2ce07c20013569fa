/**
  What the invariant of the tables means to someone who reads them: a wallet's
  statement sorted by `created_at` is a gapless chain of balances, the restore
  check finds nothing, and each currency adds up.
 */
module LedgerHistory {
  import opened Bank
  import opened BankInvariants

  /** One wallet's rows, in the order they were appended. */
  function RowsOf(rows: seq<LedgerRow>, id: Id): seq<LedgerRow> {
    if rows == [] then []
    else
      var last := rows[|rows| - 1];
      RowsOf(rows[..|rows| - 1], id) + if last.wallet == id then [last] else []
  }

  predicate Link(rows: seq<LedgerRow>, k: nat)
    requires k < |rows|
  {
    rows[k].balanceAfter == (if k == 0 then 0 else rows[k - 1].balanceAfter) + Signed(rows[k])
  }

  predicate Chain(rows: seq<LedgerRow>) {
    forall k: nat :: k < |rows| ==> Link(rows, k)
  }

  predicate SortedByStamp(rows: seq<LedgerRow>) {
    forall i, j :: 0 <= i < j < |rows| ==> rows[i].at <= rows[j].at
  }

  predicate StrictlyByStamp(rows: seq<LedgerRow>) {
    forall i, j :: 0 <= i < j < |rows| ==> rows[i].at < rows[j].at
  }

  function Closing(rows: seq<LedgerRow>): nat {
    if rows == [] then 0 else rows[|rows| - 1].balanceAfter
  }

  lemma {:induction false} RowsOfAreOf(rows: seq<LedgerRow>, id: Id)
    ensures forall row :: row in RowsOf(rows, id) <==> row in rows && row.wallet == id
  {
    if rows != [] {
      RowsOfAreOf(rows[..|rows| - 1], id);
      assert rows == rows[..|rows| - 1] + [rows[|rows| - 1]];
    }
  }

  /** The rows of one wallet, as appended, form a chain ending at their net effect. */
  lemma {:induction false} AppendedChain(rows: seq<LedgerRow>, id: Id)
    requires Exact(rows) && Stamped(rows)
    ensures Chain(RowsOf(rows, id)) && StrictlyByStamp(RowsOf(rows, id))
    ensures Closing(RowsOf(rows, id)) == SumOf(rows, id)
  {
    if rows != [] {
      var before, last := rows[..|rows| - 1], rows[|rows| - 1];
      AppendedChain(before, id);
      RowsOfAreOf(before, id);
      forall row <- RowsOf(before, id) ensures last.wallet == id ==> row.at < last.at {
        var i :| 0 <= i < |before| && before[i] == row;
        assert rows[i] == row;
      }
      if last.wallet == id {
        ChainAppend(RowsOf(before, id), last);
      } else {
        assert RowsOf(rows, id) == RowsOf(before, id);
      }
    }
  }

  lemma ChainAppend(rows: seq<LedgerRow>, row: LedgerRow)
    requires Chain(rows) && row.balanceAfter == Closing(rows) + Signed(row)
    ensures Chain(rows + [row]) && Closing(rows + [row]) == row.balanceAfter
  {
    forall k: nat | k <= |rows| ensures Link(rows + [row], k) {
      if k < |rows| {
        assert Link(rows, k);
      }
    }
  }

  /** The last of a sorted sequence and the last of a strictly sorted rearrangement agree. */
  lemma LastAgrees(a: seq<LedgerRow>, b: seq<LedgerRow>)
    requires a != [] && |a| == |b| && multiset(a) == multiset(b) && StrictlyByStamp(a) && SortedByStamp(b)
    ensures a[|a| - 1] == b[|b| - 1]
  {
    var n := |a| - 1;
    assert a[n] in multiset(b) && b[n] in multiset(a);
    var i :| 0 <= i <= n && a[i] == b[n];
    var j :| 0 <= j <= n && b[j] == a[n];
    assert a[n].at <= b[n].at;
  }

  /** Sorting distinct stamps has only one outcome. */
  lemma {:induction false} SortIsUnique(a: seq<LedgerRow>, b: seq<LedgerRow>)
    requires multiset(a) == multiset(b) && StrictlyByStamp(a) && SortedByStamp(b)
    ensures a == b
  {
    assert |a| == |multiset(a)| == |multiset(b)| == |b|;
    if a != [] {
      var n := |a| - 1;
      LastAgrees(a, b);
      DropLast(a, b, n);
      SortIsUnique(a[..n], b[..n]);
      assert a == a[..n] + [a[n]] && b == b[..n] + [b[n]];
    }
  }

  lemma DropLast(a: seq<LedgerRow>, b: seq<LedgerRow>, n: nat)
    requires |a| == |b| == n + 1 && a[n] == b[n] && multiset(a) == multiset(b)
    ensures multiset(a[..n]) == multiset(b[..n])
  {
    assert a == a[..n] + [a[n]] && b == b[..n] + [a[n]];
    assert multiset(a[..n]) == multiset(a) - multiset{a[n]};
    assert multiset(b[..n]) == multiset(b) - multiset{a[n]};
  }

  /**
    However a wallet's rows are sorted by `created_at`, the result is a chain of
    balances that starts at zero and closes at the wallet's balance.
   */
  lemma StatementIsExact(db: DB, id: Id, statement: seq<LedgerRow>)
    requires DbOk(db) && id in db.wallets
    requires multiset(statement) == multiset(RowsOf(db.ledger, id)) && SortedByStamp(statement)
    ensures Chain(statement) && Closing(statement) == db.wallets[id].balance
  {
    AppendedChain(db.ledger, id);
    SortIsUnique(RowsOf(db.ledger, id), statement);
  }

  /** The wallets that the restore check would report. */
  ghost predicate Mismatch(db: DB, id: Id) {
    && id in db.wallets
    && exists i :: 0 <= i < |db.ledger| && Latest(db.ledger, i, id) && db.ledger[i].balanceAfter != db.wallets[id].balance
  }

  ghost predicate Latest(rows: seq<LedgerRow>, i: nat, id: Id)
    requires i < |rows|
  {
    rows[i].wallet == id && forall j :: 0 <= j < |rows| && rows[j].wallet == id ==> rows[j].at <= rows[i].at
  }

  lemma {:induction false} LatestBalance(rows: seq<LedgerRow>, i: nat, id: Id)
    requires i < |rows| && Exact(rows) && Stamped(rows) && Latest(rows, i, id)
    ensures rows[i].balanceAfter == SumOf(rows, id)
  {
    var n := |rows| - 1;
    if i < n {
      assert rows[n].wallet != id;
      assert Latest(rows[..n], i, id);
      LatestBalance(rows[..n], i, id);
    }
  }

  /** The restore check always counts zero mismatches. */
  lemma RestoreCheckPasses(db: DB)
    requires DbOk(db)
    ensures forall id <- db.wallets :: !Mismatch(db, id)
  {
    forall id <- db.wallets, i: nat | i < |db.ledger| && Latest(db.ledger, i, id)
      ensures db.ledger[i].balanceAfter == db.wallets[id].balance
    {
      LatestBalance(db.ledger, i, id);
    }
  }

  // ------------------------------------------------------------- conservation

  ghost function Pick(ids: set<Id>): Id
    requires ids != {}
    ensures Pick(ids) in ids
  {
    var id :| id in ids;
    id
  }

  /** The sum of the balances of `ids` in one currency. */
  ghost function Total(ids: set<Id>, wallets: map<Id, Wallet>, currency: string): int
    requires ids <= wallets.Keys
  {
    if ids == {} then 0
    else
      var id := Pick(ids);
      Total(ids - {id}, wallets, currency) + if wallets[id].currency == currency then wallets[id].balance else 0
  }

  /** The same sum with each balance read off the ledger. */
  ghost function LedgerTotal(ids: set<Id>, wallets: map<Id, Wallet>, rows: seq<LedgerRow>, currency: string): int
    requires ids <= wallets.Keys
  {
    if ids == {} then 0
    else
      var id := Pick(ids);
      LedgerTotal(ids - {id}, wallets, rows, currency) + if wallets[id].currency == currency then SumOf(rows, id) else 0
  }

  lemma {:induction false} TotalIsLedgerTotal(ids: set<Id>, wallets: map<Id, Wallet>, rows: seq<LedgerRow>, currency: string)
    requires ids <= wallets.Keys && forall id <- ids :: wallets[id].balance == SumOf(rows, id)
    ensures Total(ids, wallets, currency) == LedgerTotal(ids, wallets, rows, currency)
  {
    if ids != {} {
      TotalIsLedgerTotal(ids - {Pick(ids)}, wallets, rows, currency);
    }
  }

  /** One more row changes the total by its own signed amount. */
  lemma {:induction false} LedgerTotalStep(ids: set<Id>, wallets: map<Id, Wallet>, rows: seq<LedgerRow>, currency: string)
    requires ids <= wallets.Keys && rows != []
    ensures var last := rows[|rows| - 1];
            LedgerTotal(ids, wallets, rows, currency) == LedgerTotal(ids, wallets, rows[..|rows| - 1], currency)
            + if last.wallet in ids && wallets[last.wallet].currency == currency then Signed(last) else 0
  {
    if ids != {} {
      LedgerTotalStep(ids - {Pick(ids)}, wallets, rows, currency);
    }
  }

  lemma {:induction false} EmptyLedgerTotal(ids: set<Id>, wallets: map<Id, Wallet>, currency: string)
    requires ids <= wallets.Keys
    ensures LedgerTotal(ids, wallets, [], currency) == 0
  {
    if ids != {} {
      EmptyLedgerTotal(ids - {Pick(ids)}, wallets, currency);
    }
  }

  lemma {:induction false} LedgerTotalIsFlow(wallets: map<Id, Wallet>, rows: seq<LedgerRow>, currency: string)
    requires forall i :: 0 <= i < |rows| ==>
      rows[i].wallet in wallets && rows[i].currency == wallets[rows[i].wallet].currency
    ensures LedgerTotal(wallets.Keys, wallets, rows, currency)
            == NetFlow(rows, currency, false) + NetFlow(rows, currency, true)
  {
    if rows == [] {
      EmptyLedgerTotal(wallets.Keys, wallets, currency);
    } else {
      LedgerTotalStep(wallets.Keys, wallets, rows, currency);
      LedgerTotalIsFlow(wallets, rows[..|rows| - 1], currency);
    }
  }

  /** The amounts of all rows of one kind in one currency. */
  function Sum(rows: seq<LedgerRow>, kind: Kind, currency: string): nat {
    if rows == [] then 0
    else
      var last := rows[|rows| - 1];
      Sum(rows[..|rows| - 1], kind, currency) + if last.kind == kind && last.currency == currency then last.amount else 0
  }

  /** What entered and left, kind by kind. */
  function Inflow(rows: seq<LedgerRow>, currency: string): int {
    Sum(rows, TopUp, currency) + Sum(rows, AdjustmentCredit, currency)
    - Sum(rows, Withdrawal, currency) - Sum(rows, MerchantPayment, currency) - Sum(rows, AdjustmentDebit, currency)
  }

  lemma {:induction false} FlowIsInflow(rows: seq<LedgerRow>, currency: string)
    ensures NetFlow(rows, currency, false) == Inflow(rows, currency)
  {
    if rows != [] {
      FlowIsInflow(rows[..|rows| - 1], currency);
    }
  }

  /** Transfers and settlements, kind by kind. */
  lemma {:induction false} InternalFlow(rows: seq<LedgerRow>, currency: string)
    ensures NetFlow(rows, currency, true)
            == Sum(rows, TransferIn, currency) - Sum(rows, TransferOut, currency)
               + Sum(rows, RequestIn, currency) - Sum(rows, RequestOut, currency)
  {
    if rows != [] {
      InternalFlow(rows[..|rows| - 1], currency);
    }
  }

  /**
    Conservation: in every currency the balances add up to what entered (top-ups
    and credit adjustments) minus what left (withdrawals, merchant payments and
    debit adjustments).  Transfers and paid requests create and destroy nothing.
   */
  lemma MoneyIsConserved(db: DB, currency: string)
    requires DbOk(db)
    ensures Total(db.wallets.Keys, db.wallets, currency) == Inflow(db.ledger, currency)
    ensures Sum(db.ledger, TransferIn, currency) + Sum(db.ledger, RequestIn, currency)
            == Sum(db.ledger, TransferOut, currency) + Sum(db.ledger, RequestOut, currency)
  {
    forall i | 0 <= i < |db.ledger|
      ensures db.ledger[i].wallet in db.wallets && db.ledger[i].currency == db.wallets[db.ledger[i].wallet].currency
    {
      assert RowOk(db, db.ledger[i]);
    }
    TotalIsLedgerTotal(db.wallets.Keys, db.wallets, db.ledger, currency);
    LedgerTotalIsFlow(db.wallets, db.ledger, currency);
    FlowIsInflow(db.ledger, currency);
    InternalFlow(db.ledger, currency);
    assert NetFlow(db.ledger, currency, true) == 0;
  }
}

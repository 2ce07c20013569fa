/**
  The ledger against the other books: gateway transactions, transfers and merchant
  payments.  Each of their rows has exactly its ledger rows, and each ledger row of
  those kinds has exactly one of them behind it.
 */
module Journal {
  import opened Prelude
  import opened Bank
  import opened BankInvariants
  import opened Programs
  import opened Interleaving
  import opened Serialisability

  /** The kinds of ledger rows that refer to another book. */
  predicate Referring(kind: Kind) {
    kind.TopUp? || kind.Withdrawal? || kind.TransferIn? || kind.TransferOut? || kind.MerchantPayment?
  }

  /** The ledger row is one that the entry calls for. */
  predicate Books(e: Entry, row: LedgerRow) {
    match e
    case GatewayRow(id, wallet, kind, amount, currency) =>
      row.ref == Some(id) && row.wallet == wallet && row.kind == kind && row.amount == amount && row.currency == currency
    case TransferRow(id, from, to, amount, currency) =>
      && row.ref == Some(id) && row.amount == amount && row.currency == currency
      && ((row.kind.TransferOut? && row.wallet == from) || (row.kind.TransferIn? && row.wallet == to))
    case PaymentRow(id, _, wallet, amount, currency) =>
      row.ref == Some(id) && row.wallet == wallet && row.kind.MerchantPayment? && row.amount == amount && row.currency == currency
    case AuditRow(_, _) => false
  }

  /** How many entries call for the row. */
  function Entries(journal: seq<Entry>, row: LedgerRow): nat {
    if journal == [] then 0 else Entries(journal[..|journal| - 1], row) + if Books(journal[|journal| - 1], row) then 1 else 0
  }

  /** How many rows of a kind the entry has. */
  function Legs(rows: seq<LedgerRow>, e: Entry, kind: Kind): nat {
    if rows == [] then 0
    else
      var last := rows[|rows| - 1];
      Legs(rows[..|rows| - 1], e, kind) + if last.kind == kind && Books(e, last) then 1 else 0
  }

  predicate EntryOk(rows: seq<LedgerRow>, e: Entry) {
    match e
    case GatewayRow(_, _, kind, _, _) => (kind.TopUp? || kind.Withdrawal?) && Legs(rows, e, kind) == 1
    case TransferRow(_, _, _, _, _) => Legs(rows, e, TransferOut) == 1 && Legs(rows, e, TransferIn) == 1
    case PaymentRow(_, _, _, _, _) => Legs(rows, e, MerchantPayment) == 1
    case AuditRow(_, _) => true
  }

  /** The books agree. */
  ghost predicate BooksAgree(rows: seq<LedgerRow>, journal: seq<Entry>) {
    && (forall i :: 0 <= i < |rows| && Referring(rows[i].kind) ==> Entries(journal, rows[i]) == 1)
    && (forall i :: 0 <= i < |journal| ==> EntryOk(rows, journal[i]))
  }

  function EntryIds(journal: seq<Entry>): set<Id> {
    set i | 0 <= i < |journal| && !journal[i].AuditRow? :: journal[i].id
  }

  // ------------------------------------------------------------------- appending

  lemma EntriesAppend(journal: seq<Entry>, e: Entry, row: LedgerRow)
    ensures Entries(journal + [e], row) == Entries(journal, row) + if Books(e, row) then 1 else 0
  {
    assert (journal + [e])[..|journal|] == journal;
  }

  lemma LegsAppend(rows: seq<LedgerRow>, row: LedgerRow, e: Entry, kind: Kind)
    ensures Legs(rows + [row], e, kind) == Legs(rows, e, kind) + if row.kind == kind && Books(e, row) then 1 else 0
  {
    assert (rows + [row])[..|rows|] == rows;
  }

  /** A row that refers to an id nobody has is behind no entry. */
  lemma {:induction false} NoEntries(journal: seq<Entry>, row: LedgerRow)
    requires row.ref.Some? ==> row.ref.value !in EntryIds(journal)
    ensures Entries(journal, row) == 0
  {
    if journal != [] {
      var n := |journal| - 1;
      assert EntryIds(journal[..n]) <= EntryIds(journal) by {
        forall id <- EntryIds(journal[..n]) ensures id in EntryIds(journal) {
          var i :| 0 <= i < n && !journal[..n][i].AuditRow? && journal[..n][i].id == id;
          assert journal[i].id == id;
        }
      }
      assert !Books(journal[n], row);
      NoEntries(journal[..n], row);
    }
  }

  lemma {:induction false} SomeEntry(journal: seq<Entry>, row: LedgerRow)
    requires Entries(journal, row) > 0
    ensures row.ref.Some? && row.ref.value in EntryIds(journal)
  {
    var n := |journal| - 1;
    if Books(journal[n], row) {
      assert journal[n].id in EntryIds(journal);
    } else {
      SomeEntry(journal[..n], row);
      var i :| 0 <= i < n && !journal[..n][i].AuditRow? && journal[..n][i].id == row.ref.value;
      assert journal[i].id == row.ref.value;
    }
  }

  /** An entry with a new id has no rows yet. */
  lemma {:induction false} NoLegs(rows: seq<LedgerRow>, journal: seq<Entry>, e: Entry, kind: Kind)
    requires forall i :: 0 <= i < |rows| && Referring(rows[i].kind) ==> Entries(journal, rows[i]) == 1
    requires Referring(kind) && !e.AuditRow? && e.id !in EntryIds(journal)
    ensures Legs(rows, e, kind) == 0
  {
    if rows != [] {
      var n := |rows| - 1;
      if rows[n].kind == kind {
        SomeEntry(journal, rows[n]);
      }
      NoLegs(rows[..n], journal, e, kind);
    }
  }

  /** A row that is behind no entry of the journal changes none of them. */
  lemma AppendRow(rows: seq<LedgerRow>, journal: seq<Entry>, row: LedgerRow)
    requires forall i :: 0 <= i < |journal| ==> EntryOk(rows, journal[i])
    requires !Referring(row.kind) || (row.ref.Some? && row.ref.value !in EntryIds(journal))
    ensures forall i :: 0 <= i < |journal| ==> EntryOk(rows + [row], journal[i])
  {
    forall i | 0 <= i < |journal| ensures EntryOk(rows + [row], journal[i]) {
      var e := journal[i];
      assert !e.AuditRow? ==> e.id in EntryIds(journal);
      LegsAppend(rows, row, e, TopUp);
      LegsAppend(rows, row, e, Withdrawal);
      LegsAppend(rows, row, e, TransferOut);
      LegsAppend(rows, row, e, TransferIn);
      LegsAppend(rows, row, e, MerchantPayment);
    }
  }

  /** A movement that refers to no book. */
  lemma AgreeUnreferred(rows: seq<LedgerRow>, journal: seq<Entry>, row: LedgerRow)
    requires BooksAgree(rows, journal) && !Referring(row.kind)
    ensures BooksAgree(rows + [row], journal)
  {
    AppendRow(rows, journal, row);
  }

  lemma AgreeAudit(rows: seq<LedgerRow>, journal: seq<Entry>, e: Entry)
    requires BooksAgree(rows, journal) && e.AuditRow?
    ensures BooksAgree(rows, journal + [e])
  {
    forall i | 0 <= i < |rows| && Referring(rows[i].kind) ensures Entries(journal + [e], rows[i]) == 1 {
      EntriesAppend(journal, e, rows[i]);
    }
  }

  /** The rows that refer to a new entry, once the journal has it. */
  lemma NewEntry(rows: seq<LedgerRow>, journal: seq<Entry>, e: Entry, row: LedgerRow)
    requires BooksAgree(rows, journal) && !e.AuditRow? && e.id !in EntryIds(journal) && Books(e, row)
    ensures Entries(journal + [e], row) == 1
    ensures forall i :: 0 <= i < |rows| && Referring(rows[i].kind) ==> Entries(journal + [e], rows[i]) == 1
  {
    NoEntries(journal, row);
    EntriesAppend(journal, e, row);
    forall i | 0 <= i < |rows| && Referring(rows[i].kind) ensures Entries(journal + [e], rows[i]) == 1 {
      SomeEntry(journal, rows[i]);
      EntriesAppend(journal, e, rows[i]);
    }
  }

  /** A gateway transaction or a merchant payment with its one ledger row. */
  lemma AgreeSingle(rows: seq<LedgerRow>, journal: seq<Entry>, e: Entry, row: LedgerRow)
    requires BooksAgree(rows, journal) && (e.GatewayRow? || e.PaymentRow?) && e.id !in EntryIds(journal)
    requires Books(e, row) && Referring(row.kind) && (e.GatewayRow? ==> row.kind.TopUp? || row.kind.Withdrawal?)
    ensures BooksAgree(rows + [row], journal + [e])
  {
    NewEntry(rows, journal, e, row);
    AppendRow(rows, journal, row);
    NoLegs(rows, journal, e, row.kind);
    LegsAppend(rows, row, e, row.kind);
  }

  /** A transfer with its two. */
  lemma AgreeTransfer(rows: seq<LedgerRow>, journal: seq<Entry>, e: Entry, out: LedgerRow, into: LedgerRow)
    requires BooksAgree(rows, journal) && e.TransferRow? && e.id !in EntryIds(journal)
    requires Books(e, out) && out.kind.TransferOut? && Books(e, into) && into.kind.TransferIn?
    ensures BooksAgree(rows + [out] + [into], journal + [e])
  {
    NewEntry(rows, journal, e, out);
    NewEntry(rows, journal, e, into);
    AppendRow(rows, journal, out);
    AppendRow(rows + [out], journal, into);
    NoLegs(rows, journal, e, TransferOut);
    NoLegs(rows, journal, e, TransferIn);
    LegsAppend(rows, out, e, TransferOut);
    LegsAppend(rows, out, e, TransferIn);
    LegsAppend(rows + [out], into, e, TransferOut);
    LegsAppend(rows + [out], into, e, TransferIn);
  }

  // ------------------------------------------------------------------ operations

  lemma IdsAppend(journal: seq<Entry>, e: Entry)
    ensures EntryIds(journal + [e]) == EntryIds(journal) + if e.AuditRow? then {} else {e.id}
  {
    var more := journal + [e];
    forall id ensures id in EntryIds(more) <==> id in EntryIds(journal) || (!e.AuditRow? && id == e.id) {
      if id in EntryIds(more) {
        var i :| 0 <= i < |more| && !more[i].AuditRow? && more[i].id == id;
        assert i < |journal| ==> journal[i] == more[i];
      }
      if id in EntryIds(journal) {
        var i :| 0 <= i < |journal| && !journal[i].AuditRow? && journal[i].id == id;
        assert more[i] == journal[i];
      }
      if !e.AuditRow? {
        assert more[|journal|].id == e.id;
      }
    }
  }

  ghost predicate Agreed(db: DB) {
    BooksAgree(db.ledger, db.journal)
  }

  /** What an operation adds to the ids, and that it keeps the books in agreement. */
  ghost predicate BooksKept(op: Op, o: Oracle, db: DB, after: DB) {
    && EntryIds(after.journal) == EntryIds(db.journal) + (if Booked(op) then {o.id} else {})
    && Agreed(after)
  }

  lemma SingleEntry(db: DB, id: Id, kind: Kind, amount: nat, o: Oracle, e: Entry, audit: Entry)
    requires Agreed(db) && CanPost(db, id, kind, amount) && Referring(kind) && audit.AuditRow?
    requires (e.GatewayRow? && (kind.TopUp? || kind.Withdrawal?)) || e.PaymentRow?
    requires e.id == o.id && o.id !in EntryIds(db.journal)
    requires Books(e, Post(db, id, kind, amount, Some(o.id), o.at).ledger[|db.ledger|])
    ensures var after := Note(Note(Post(db, id, kind, amount, Some(o.id), o.at), e), audit);
            Agreed(after) && EntryIds(after.journal) == EntryIds(db.journal) + {o.id}
  {
    var posted := Post(db, id, kind, amount, Some(o.id), o.at);
    AgreeSingle(db.ledger, db.journal, e, posted.ledger[|db.ledger|]);
    AgreeAudit(posted.ledger, db.journal + [e], audit);
    IdsAppend(db.journal, e);
    IdsAppend(db.journal + [e], audit);
  }

  lemma GatewayBooks(op: Op, o: Oracle, db: DB)
    requires op.Gateway? && Agreed(db) && o.id !in EntryIds(db.journal) && Perform(op, o, db).Success?
    ensures BooksKept(op, o, db, Perform(op, o, db).value)
  {
    var kind := if op.deposit then TopUp else Withdrawal;
    SingleEntry(db, op.wallet, kind, op.amount, o, GatewayRow(o.id, op.wallet, kind, op.amount, db.wallets[op.wallet].currency),
                AuditRow(if op.deposit then WalletTopUp else WalletWithdraw, op.wallet));
  }

  lemma PaymentBooks(op: Op, o: Oracle, db: DB)
    requires op.PayMerchant? && Agreed(db) && o.id !in EntryIds(db.journal) && Perform(op, o, db).Success?
    ensures BooksKept(op, o, db, Perform(op, o, db).value)
  {
    var id := o.other.value;
    SingleEntry(db, id, MerchantPayment, op.amount, o, PaymentRow(o.id, op.merchant, id, op.amount, db.wallets[id].currency),
                AuditRow(MerchantPaid, o.id));
  }

  lemma TransferBooks(op: Op, o: Oracle, db: DB)
    requires op.Transfer? && Agreed(db) && o.id !in EntryIds(db.journal) && Perform(op, o, db).Success?
    ensures BooksKept(op, o, db, Perform(op, o, db).value)
  {
    var from, to := op.from, o.other.value;
    var mid := Post(db, from, TransferOut, op.amount, Some(o.id), o.at);
    var moved := Post(mid, to, TransferIn, op.amount, Some(o.id), o.at2);
    var e := TransferRow(o.id, from, to, op.amount, db.wallets[from].currency);
    var audit := AuditRow(WalletTransfer, o.id);
    AgreeTransfer(db.ledger, db.journal, e, mid.ledger[|db.ledger|], moved.ledger[|mid.ledger|]);
    AgreeAudit(moved.ledger, db.journal + [e], audit);
    IdsAppend(db.journal, e);
    IdsAppend(db.journal + [e], audit);
  }

  lemma ApproveBooks(op: Op, o: Oracle, db: DB)
    requires op.Approve? && Agreed(db) && Perform(op, o, db).Success?
    ensures BooksKept(op, o, db, Perform(op, o, db).value)
  {
    var r := db.requests[op.request];
    var mid := Post(db, op.from, RequestOut, r.amount, Some(op.request), o.at);
    var moved := Post(mid, r.wallet, RequestIn, r.amount, Some(op.request), o.at2);
    AgreeUnreferred(db.ledger, db.journal, mid.ledger[|db.ledger|]);
    AgreeUnreferred(mid.ledger, db.journal, moved.ledger[|mid.ledger|]);
    AgreeAudit(moved.ledger, db.journal, AuditRow(RequestPaid, op.request));
    IdsAppend(db.journal, AuditRow(RequestPaid, op.request));
  }

  lemma AdminBooks(op: Op, o: Oracle, db: DB)
    requires (op.Adjust? || op.SetStatus?) && Agreed(db) && Perform(op, o, db).Success?
    ensures BooksKept(op, o, db, Perform(op, o, db).value)
  {
    var after := Perform(op, o, db).value;
    if op.Adjust? {
      AgreeUnreferred(db.ledger, db.journal, after.ledger[|db.ledger|]);
    }
    AgreeAudit(after.ledger, db.journal, after.journal[|db.journal|]);
    IdsAppend(db.journal, after.journal[|db.journal|]);
  }

  /** Every operation keeps the books in agreement, if the id it draws is new. */
  lemma PerformBooks(op: Op, o: Oracle, db: DB)
    requires Agreed(db) && (Booked(op) ==> o.id !in EntryIds(db.journal)) && Perform(op, o, db).Success?
    ensures BooksKept(op, o, db, Perform(op, o, db).value)
  {
    match op
    case Gateway(_, _, _, _) => GatewayBooks(op, o, db);
    case Transfer(_, _, _, _) => TransferBooks(op, o, db);
    case PayMerchant(_, _, _, _) => PaymentBooks(op, o, db);
    case Approve(_, _, _, _) => ApproveBooks(op, o, db);
    case Adjust(_, _, _) => AdminBooks(op, o, db);
    case SetStatus(_, _) => AdminBooks(op, o, db);
    case _ =>
  }

  // ------------------------------------------------------------------- every run

  ghost predicate DistinctIds(history: seq<Event>) {
    forall i, j :: 0 <= i < j < |history| && history[i].Ran? && history[j].Ran? && Booked(history[i].op) && Booked(history[j].op)
      ==> history[i].oracle.id != history[j].oracle.id
  }

  /** An id is inserted by one transaction, once. */
  ghost predicate IdsOk(s: State) {
    && DistinctIds(s.history)
    && (forall call <- s.calls :: IsRunning(s, call) ==> InsertedIds(s.calls[call].got) !! HistoryIds(s.history))
    && (forall a <- s.calls, b <- s.calls :: a != b && IsRunning(s, a) && IsRunning(s, b) ==>
          InsertedIds(s.calls[a].got) !! InsertedIds(s.calls[b].got))
  }

  /** The id that a committing transaction reports is one that it inserted. */
  lemma OracleIdIsInserted(op: Op, db: DB, got: seq<Answer>)
    requires Explains(op, db, got) && Next(op, db.cap, got, |got|) == Commit && Booked(op)
    ensures OracleOf(op, got).id in InsertedIds(got)
  {
    if op.Gateway? {
      ExplainedAt(op, db, got, 2);
    } else if op.Transfer? {
      TransferLocks(op, db, got);
      ExplainedAt(op, db, got, 5);
    } else {
      PayMerchantLock(op, db, got);
      ExplainedAt(op, db, got, PayerLockIndex(op.payFrom) + 2);
    }
  }

  lemma InsertedAppend(got: seq<Answer>, a: Answer)
    ensures InsertedIds(got + [a]) == InsertedIds(got) + if a.Inserted? && !a.entry.AuditRow? then {a.entry.id} else {}
  {
    var more := got + [a];
    forall id ensures id in InsertedIds(more) <==> id in InsertedIds(got) || (a.Inserted? && !a.entry.AuditRow? && id == a.entry.id) {
      if id in InsertedIds(more) {
        var i :| 0 <= i < |more| && more[i].Inserted? && !more[i].entry.AuditRow? && more[i].entry.id == id;
        assert i < |got| ==> got[i] == more[i];
      }
      if id in InsertedIds(got) {
        var i :| 0 <= i < |got| && got[i].Inserted? && !got[i].entry.AuditRow? && got[i].entry.id == id;
        assert more[i] == got[i];
      }
      if a.Inserted? && !a.entry.AuditRow? {
        assert more[|got|].entry.id == a.entry.id;
      }
    }
  }

  lemma HistoryAppend(history: seq<Event>, e: Event)
    ensures HistoryIds(history + [e]) == HistoryIds(history) + if e.Ran? && Booked(e.op) then {e.oracle.id} else {}
  {
    var more := history + [e];
    forall id ensures id in HistoryIds(more) <==> id in HistoryIds(history) || (e.Ran? && Booked(e.op) && id == e.oracle.id) {
      if id in HistoryIds(more) {
        var i :| 0 <= i < |more| && more[i].Ran? && Booked(more[i].op) && more[i].oracle.id == id;
        assert i < |history| ==> history[i] == more[i];
      }
      if id in HistoryIds(history) {
        var i :| 0 <= i < |history| && history[i].Ran? && Booked(history[i].op) && history[i].oracle.id == id;
        assert more[i] == history[i];
      }
      if e.Ran? && Booked(e.op) {
        assert more[|history|] == e;
      }
    }
  }

  lemma ExecuteIds(s: State, call: nat, a: Answer)
    requires IdsOk(s) && Can(s, Execute(call, a))
    ensures IdsOk(Take(s, Execute(call, a)))
  {
    InsertedAppend(s.calls[call].got, a);
    forall other <- s.calls, id <- InsertedIds(s.calls[other].got) ensures id in IdsInUse(s) {
    }
  }

  lemma CommitIds(s: State, t: State, call: nat, e: Event)
    requires IdsOk(s) && IsRunning(s, call) && t.history == s.history + [e]
    requires t.calls == s.calls[call := s.calls[call].(phase := Committed)]
    requires e.Ran? && Booked(e.op) ==> e.oracle.id in InsertedIds(s.calls[call].got)
    ensures IdsOk(t)
  {
    HistoryAppend(s.history, e);
    forall i | 0 <= i < |s.history| && s.history[i].Ran? && Booked(s.history[i].op)
      ensures s.history[i].oracle.id in HistoryIds(s.history)
    {
    }
  }

  lemma DoCommitIds(s: State, call: nat)
    requires Inv(s) && IdsOk(s) && Can(s, DoCommit(call))
    ensures IdsOk(Take(s, DoCommit(call)))
  {
    var c := s.calls[call];
    if Booked(c.op) {
      OracleIdIsInserted(c.op, s.db, c.got);
    }
    CommitIds(s, Take(s, DoCommit(call)), call, Ran(call, c.op, OracleOf(c.op, c.got)));
  }

  lemma RestartIds(s: State, t: State, call: nat)
    requires IdsOk(s) && IsRunning(s, call) && t.history == s.history && t.calls.Keys == s.calls.Keys
    requires !IsRunning(t, call) || t.calls[call].got == []
    requires forall other <- s.calls :: other != call ==> t.calls[other] == s.calls[other]
    ensures IdsOk(t)
  {
  }

  lemma SubmitIds(s: State, call: nat, op: Op)
    requires IdsOk(s) && Can(s, Submit(call, op))
    ensures IdsOk(Take(s, Submit(call, op)))
  {
    assert InsertedIds([]) == {};
  }

  lemma EndIds(s: State, step: Step)
    requires IdsOk(s) && Can(s, step) && (step.Throw? || step.Break?)
    ensures IdsOk(Take(s, step))
  {
    RestartIds(s, Take(s, step), step.call);
  }

  lemma InsertIds(s: State, step: Step)
    requires IdsOk(s) && Can(s, step) && step.DoInsert?
    ensures IdsOk(Take(s, step))
  {
    var t := Take(s, step);
    CommitIds(s, t, step.call, t.history[|s.history|]);
  }

  lemma OpenIds(s: State, step: Step)
    requires IdsOk(s) && Can(s, step) && step.OpenWallet?
    ensures IdsOk(Take(s, step))
  {
    HistoryAppend(s.history, Take(s, step).history[|s.history|]);
  }

  lemma StepIds(s: State, step: Step)
    requires Inv(s) && IdsOk(s) && Can(s, step)
    ensures IdsOk(Take(s, step))
  {
    match step
    case Submit(call, op) => SubmitIds(s, call, op);
    case Execute(call, a) => ExecuteIds(s, call, a);
    case DoCommit(call) => DoCommitIds(s, call);
    case DoInsert(_, _) => InsertIds(s, step);
    case Throw(_) => EndIds(s, step);
    case Break(_, _) => EndIds(s, step);
    case OpenWallet(_, _, _, _, _) => OpenIds(s, step);
  }

  lemma {:induction false} RunIds(s: State, steps: seq<Step>)
    requires Inv(s) && IdsOk(s) && Runs(s, steps)
    ensures IdsOk(After(s, steps))
    decreases |steps|
  {
    if steps != [] {
      StepKeeps(s, steps[0]);
      StepIds(s, steps[0]);
      RunIds(Take(s, steps[0]), steps[1..]);
    }
  }

  lemma {:induction false} SerialBooks(db: DB, events: seq<Event>)
    requires db.ledger == [] && db.journal == [] && Serial(db, events).Some? && DistinctIds(events)
    ensures Agreed(Serial(db, events).value) && EntryIds(Serial(db, events).value.journal) == HistoryIds(events)
  {
    if events != [] {
      var n := |events| - 1;
      var last := events[n];
      SerialBooks(db, events[..n]);
      HistoryAppend(events[..n], last);
      assert events == events[..n] + [last];
      if last.Ran? {
        assert Booked(last.op) ==> last.oracle.id !in HistoryIds(events[..n]);
        PerformBooks(last.op, last.oracle, Serial(db, events[..n]).value);
      }
    }
  }

  /**
    In every reachable state the books agree: each top-up, withdrawal, transfer and
    merchant payment row of the ledger refers to exactly one row of the other books,
    with its wallet, amount and currency, and each row there has exactly its one
    ledger row, or its two if it is a transfer.
   */
  lemma EveryRunKeepsBooks(cap: int, steps: seq<Step>)
    requires Runs(Init(cap), steps)
    ensures var db := After(Init(cap), steps).db; BooksAgree(db.ledger, db.journal)
  {
    EveryRunIsSerial(cap, steps);
    InitInv(cap);
    RunIds(Init(cap), steps);
    SerialBooks(Init(cap).db, After(Init(cap), steps).history);
  }
}

/**
  One connection running one operation undisturbed: its statements are those of the
  operation's program, and what they answered decides how the operation ends.
 */
module Sessions {
  import opened Prelude
  import opened Bank
  import opened BankInvariants
  import opened Programs
  import opened Locking
  import Interleaving

  /** What locking a row answers when nobody interferes. */
  function LockAnswer(v: DB, row: Row): Answer {
    match row
    case WalletRow(id) => WalletIs(Find(v.wallets, id))
    case RequestRow(id) => RequestIs(Find(v.requests, id))
  }

  predicate ExactAt(op: Op, start: DB, got: seq<Answer>, i: nat)
    requires i < |got|
  {
    var action := Next(op, start.cap, got, i);
    action.Do? && action.stmt.LockRow? ==> got[i] == LockAnswer(View(op, start, got, i), action.stmt.row)
  }

  ghost predicate Undisturbed(op: Op, start: DB, got: seq<Answer>) {
    forall i: nat :: i < |got| ==> ExactAt(op, start, got, i)
  }

  ghost predicate Older(rows: seq<LedgerRow>, clock: nat) {
    forall i :: 0 <= i < |rows| ==> rows[i].at < clock
  }

  /** The connection sees `work` after the answers `got`; it was opened at the time `since`. */
  ghost predicate Faithful(op: Op, start: DB, got: seq<Answer>, work: DB, since: nat, clock: nat) {
    && Explains(op, start, got) && Undisturbed(op, start, got)
    && work == View(op, start, got, |got|)
    && (forall i :: 0 <= i < |got| && got[i].Logged? ==> since <= got[i].row.at)
    && (Older(start.ledger, since) ==> Older(work.ledger, clock))
  }

  predicate Key(k: nat) {
    true
  }

  /** The same, folded: a proof that does not mention a key need not look inside. */
  ghost predicate Session(op: Op, start: DB, got: seq<Answer>, work: DB, since: nat, clock: nat) {
    forall k: nat {:trigger Key(k)} :: Key(k) ==> Faithful(op, start, got, work, since, clock)
  }

  lemma Unfold(op: Op, start: DB, got: seq<Answer>, work: DB, since: nat, clock: nat)
    requires Session(op, start, got, work, since, clock)
    ensures Faithful(op, start, got, work, since, clock)
  {
    assert Key(0);
  }

  lemma Began(op: Op, start: DB, clock: nat)
    ensures Session(op, start, [], start, clock, clock)
  {
  }

  /** One more answered statement. */
  lemma Answered(op: Op, start: DB, got: seq<Answer>, work: DB, since: nat, clock: nat, stmt: Stmt, a: Answer)
    requires Session(op, start, got, work, since, clock) && since <= clock
    requires Next(op, start.cap, got, |got|) == Do(stmt) && Stable(stmt, work, a)
    requires stmt.LockRow? ==> a == LockAnswer(work, stmt.row)
    requires a.Logged? ==> a.row.at == clock
    ensures Session(op, start, got + [a], Apply(stmt, a, work), since, if a.Logged? then clock + 1 else clock)
    ensures Apply(stmt, a, work).cap == work.cap
  {
    Unfold(op, start, got, work, since, clock);
    ExplainsExtend(op, start, got, a);
    UndisturbedExtend(op, start, got, a);
    ViewExtend(op, start, got, stmt, a);
    ApplyAppends(stmt, a, work);
  }

  /** The tables after the UPDATE of a balance. */
  function AfterMove(work: DB, id: Id, kind: Kind, amount: nat): DB {
    if CanPost(work, id, kind, amount)
    then work.(wallets := work.wallets[id := Moved(work.wallets[id], kind, amount).value]) else work
  }

  lemma MoveAnswered(op: Op, start: DB, got: seq<Answer>, work: DB, since: nat, clock: nat, id: Id, kind: Kind, amount: nat)
    requires Session(op, start, got, work, since, clock) && since <= clock
    requires Next(op, start.cap, got, |got|) == Do(Move(id, kind, amount))
    ensures Session(op, start, got + [MoveAnswer(work, id, kind, amount)], AfterMove(work, id, kind, amount), since, clock)
    ensures AfterMove(work, id, kind, amount).cap == work.cap
  {
    Answered(op, start, got, work, since, clock, Move(id, kind, amount), MoveAnswer(work, id, kind, amount));
  }

  lemma ViewExtend(op: Op, start: DB, got: seq<Answer>, stmt: Stmt, a: Answer)
    requires Next(op, start.cap, got, |got|) == Do(stmt)
    ensures View(op, start, got + [a], |got| + 1) == Apply(stmt, a, View(op, start, got, |got|))
  {
    NextPrefix(op, start.cap, got, got + [a], |got|);
    ViewPrefix(op, start, got, got + [a], |got|);
  }

  lemma ApplyAppends(stmt: Stmt, a: Answer, v: DB)
    requires Stable(stmt, v, a)
    ensures var after := Apply(stmt, a, v);
            after.cap == v.cap && after.ledger == v.ledger + if a.Logged? then [a.row] else []
  {
  }

  lemma UndisturbedExtend(op: Op, start: DB, got: seq<Answer>, a: Answer)
    requires Undisturbed(op, start, got)
    requires var action := Next(op, start.cap, got, |got|);
             action.Do? && action.stmt.LockRow? ==> a == LockAnswer(View(op, start, got, |got|), action.stmt.row)
    ensures Undisturbed(op, start, got + [a])
  {
    var more := got + [a];
    forall i: nat | i < |more| ensures ExactAt(op, start, more, i) {
      NextPrefix(op, start.cap, got, more, i);
      ViewPrefix(op, start, got, more, i);
      if i < |got| {
        assert ExactAt(op, start, got, i);
      }
    }
  }

  /** Tables that satisfy their invariant, with every stamp before `clock` and every id before `nextId`. */
  ghost predicate Stored(db: DB, clock: nat, nextId: Id) {
    && DbOk(db) && Older(db.ledger, clock)
    && (forall id <- db.wallets :: id < nextId) && (forall id <- db.requests :: id < nextId)
  }

  lemma StoredLater(db: DB, clock: nat, nextId: Id, clock2: nat, nextId2: Id)
    requires Stored(db, clock, nextId) && clock <= clock2 && nextId <= nextId2
    ensures Stored(db, clock2, nextId2)
  {
  }

  /** Creating a request keeps the tables stored. */
  lemma CreateIsStored(db: DB, op: Op, o: Oracle, clock: nat)
    requires op.CreateRequest? && OpOk(op, db.cap) && Honest(op, o, db) && Perform(op, o, db).Success?
    requires Stored(db, clock, o.id)
    ensures Stored(Perform(op, o, db).value, clock, o.id + 1)
  {
    OpenRequestKeeps(db, op, o);
  }

  lemma AmendIsStored(db: DB, op: Op, clock: nat, nextId: Id)
    requires (op.UpdateRequest? || op.CancelRequest? || op.DeclineRequest?) && OpOk(op, db.cap) && Amend(db, op).Success?
    requires Stored(db, clock, nextId)
    ensures Stored(Amend(db, op).value, clock, nextId)
  {
    AmendKeeps(db, op);
  }

  /** At its COMMIT the session has done the operation, whole, on tables that stay stored. */
  lemma CommitIsStored(op: Op, start: DB, got: seq<Answer>, work: DB, since: nat, clock: nat, firstId: Id, nextId: Id)
    requires Session(op, start, got, work, since, clock) && Next(op, start.cap, got, |got|) == Commit
    requires OpOk(op, start.cap) && Stored(start, since, firstId) && firstId <= nextId
    ensures Honest(op, OracleOf(op, got), start) && Perform(op, OracleOf(op, got), start) == Success(work)
    ensures Stored(work, clock, nextId)
  {
    CommitIsPerform(op, start, got, work, since, clock);
  }

  // ------------------------------------------------- checks a program has passed

  /** A transfer's two wallets are locked and usable, and have the currency. */
  predicate PairChecked(op: Op, got: seq<Answer>, to: Id, currency: string) {
    && op.Transfer? && |got| >= 3 && got[0] == Found(Some(to)) && op.from != to
    && var payer, payee := WalletAt(got, if op.from <= to then 1 else 2), WalletAt(got, if op.from <= to then 2 else 1);
    && Refusal(payer, Some(op.user)).None? && Refusal(payee, None).None?
    && payer.value.currency == currency && payee.value.currency == currency
  }

  /** An approval's request and its two wallets are locked and pass its checks. */
  predicate SettlementChecked(op: Op, cap: int, got: seq<Answer>, row: Request) {
    && op.Approve? && |got| >= 3 && got[0] == RequestIs(Some(row)) && RequestRefusal(Some(row), op.email, cap).None?
    && op.from != row.wallet
    && var payer, payee := WalletAt(got, if op.from <= row.wallet then 1 else 2), WalletAt(got, if op.from <= row.wallet then 2 else 1);
    && Refusal(payer, Some(op.user)).None? && Refusal(payee, None).None? && payer.value.currency == row.currency
  }

  /** A payer's wallet is locked and usable, for a merchant that accepts payments. */
  predicate PayerChecked(op: Op, got: seq<Answer>, id: Id, currency: string) {
    && op.PayMerchant? && |got| > PayerLockIndex(op.payFrom)
    && MerchantRefusal(MerchantAt(got, 0)).None?
    && (op.payFrom.Some? ==> op.payFrom == Some(id)) && (op.payFrom.None? ==> FoundAt(got, 1) == Some(id))
    && Refusal(WalletAt(got, PayerLockIndex(op.payFrom)), Some(op.user)).None?
    && WalletAt(got, PayerLockIndex(op.payFrom)).value.currency == currency
  }

  /** The wallet of a top-up or a withdrawal is locked and usable. */
  predicate GatewayChecked(op: Op, got: seq<Answer>, currency: string) {
    && op.Gateway? && |got| >= 1 && Refusal(WalletAt(got, 0), Some(op.user)).None?
    && WalletAt(got, 0).value.currency == currency
  }

  /** The answer at `i` is a wallet with the balance. */
  predicate BalanceAt(got: seq<Answer>, i: nat, balance: nat) {
    i < |got| && WalletAt(got, i).Some? && WalletAt(got, i).value.balance == balance
  }

  // -------------------------------------------------------------- how it ends

  /** At its COMMIT the session has done the operation, whole, and kept the invariant. */
  lemma CommitIsPerform(op: Op, start: DB, got: seq<Answer>, work: DB, since: nat, clock: nat)
    requires Session(op, start, got, work, since, clock) && Next(op, start.cap, got, |got|) == Commit
    requires DbOk(start) && OpOk(op, start.cap) && Older(start.ledger, since)
    ensures Honest(op, OracleOf(op, got), start) && Perform(op, OracleOf(op, got), start) == Success(work)
    ensures DbOk(work) && Older(work.ledger, clock)
    ensures work.wallets.Keys == start.wallets.Keys && work.requests.Keys == start.requests.Keys
  {
    Unfold(op, start, got, work, since, clock);
    Interleaving.CommitIsPerform(op, start, got);
    ViewWritesOnlyLocked(op, start, got, |got|);
  }

  /** What a refused operation had observed without locks. */
  function RefusalOracle(op: Op, got: seq<Answer>): Oracle {
    match op
    case Transfer(_, _, _, _) => Oracle(None, if |got| > 0 then FoundAt(got, 0) else None, None, 0, 0, 0)
    case PayMerchant(_, payFrom, _, _) =>
      Oracle(if |got| > 0 then MerchantAt(got, 0) else None,
             if payFrom.Some? then payFrom else if |got| > 1 then FoundAt(got, 1) else None, None, 0, 0, 0)
    case _ => Oracle(None, None, None, 0, 0, 0)
  }

  lemma ExactLock(op: Op, start: DB, got: seq<Answer>, i: nat)
    requires i < |got| && Explains(op, start, got) && Undisturbed(op, start, got)
    ensures Next(op, start.cap, got, i).Do?
    ensures var s := Next(op, start.cap, got, i).stmt;
            && Stable(s, View(op, start, got, i), got[i])
            && View(op, start, got, i + 1) == Apply(s, got[i], View(op, start, got, i))
            && (s.LockRow? ==> got[i] == LockAnswer(View(op, start, got, i), s.row))
  {
    ExplainedAt(op, start, got, i);
    assert ExactAt(op, start, got, i);
  }

  lemma SingleRefused(op: Op, start: DB, got: seq<Answer>, e: Error)
    requires (op.Gateway? || op.Adjust? || op.SetStatus?) && Explains(op, start, got) && Undisturbed(op, start, got)
    requires Next(op, start.cap, got, |got|) == Abort(e)
    ensures Perform(op, RefusalOracle(op, got), start) == Failure(e)
  {
    ExactLock(op, start, got, 0);
    if |got| > 1 { ExactLock(op, start, got, 1); }
    if |got| > 2 { ExactLock(op, start, got, 2); }
  }

  lemma PaymentRefused(op: Op, start: DB, got: seq<Answer>, e: Error)
    requires op.PayMerchant? && Explains(op, start, got) && Undisturbed(op, start, got)
    requires Next(op, start.cap, got, |got|) == Abort(e)
    ensures Perform(op, RefusalOracle(op, got), start) == Failure(e)
  {
    var k := PayerLockIndex(op.payFrom);
    ExactLock(op, start, got, 0);
    if |got| > 1 { ExactLock(op, start, got, 1); }
    if |got| > k { ExactLock(op, start, got, k); }
    if |got| > k + 1 { ExactLock(op, start, got, k + 1); }
    if |got| > k + 2 { ExactLock(op, start, got, k + 2); }
  }

  /** Both rows as the two locks found them. */
  lemma PairLocked(op: Op, start: DB, got: seq<Answer>, from: Id, to: Id)
    requires |got| >= 3 && Explains(op, start, got) && Undisturbed(op, start, got) && View(op, start, got, 1) == start
    requires Next(op, start.cap, got, 1) == Do(LockRow(WalletRow(Lower(from, to))))
    requires Next(op, start.cap, got, 2) == Do(LockRow(WalletRow(Upper(from, to))))
    ensures View(op, start, got, 3) == start
    ensures WalletAt(got, if from <= to then 1 else 2) == Find(start.wallets, from)
    ensures WalletAt(got, if from <= to then 2 else 1) == Find(start.wallets, to)
  {
    ExactLock(op, start, got, 1);
    ExactLock(op, start, got, 2);
  }

  /** A refusal before both wallets are locked. */
  lemma TransferRefusedEarly(op: Op, start: DB, got: seq<Answer>, e: Error)
    requires op.Transfer? && |got| <= 2 && Explains(op, start, got) && Undisturbed(op, start, got)
    requires Next(op, start.cap, got, |got|) == Abort(e)
    ensures Perform(op, RefusalOracle(op, got), start) == Failure(e)
  {
    ExactLock(op, start, got, 0);
  }

  lemma TransferLocked(op: Op, start: DB, got: seq<Answer>)
    requires op.Transfer? && |got| >= 3 && Explains(op, start, got) && Undisturbed(op, start, got)
    ensures FoundAt(got, 0).Some?
            && HasNumber(start, FoundAt(got, 0).value, op.toNumber)
            && FoundAt(got, 0).value != op.from
            && View(op, start, got, 3) == start
    ensures var to := FoundAt(got, 0).value;
            && WalletAt(got, if op.from <= to then 1 else 2) == Find(start.wallets, op.from)
            && WalletAt(got, if op.from <= to then 2 else 1) == Find(start.wallets, to)
  {
    ExactLock(op, start, got, 0);
    ExactLock(op, start, got, 1);
    PairLocked(op, start, got, op.from, FoundAt(got, 0).value);
  }

  lemma TransferRefused(op: Op, start: DB, got: seq<Answer>, e: Error)
    requires op.Transfer? && Explains(op, start, got) && Undisturbed(op, start, got)
    requires Next(op, start.cap, got, |got|) == Abort(e)
    ensures Perform(op, RefusalOracle(op, got), start) == Failure(e)
  {
    if |got| <= 2 {
      TransferRefusedEarly(op, start, got, e);
    } else {
      TransferLocked(op, start, got);
      if |got| > 3 { ExactLock(op, start, got, 3); }
      if |got| > 4 { ExactLock(op, start, got, 4); }
      if |got| > 5 { ExactLock(op, start, got, 5); }
    }
  }

  /** A refusal before both wallets are locked. */
  lemma ApproveRefusedEarly(op: Op, start: DB, got: seq<Answer>, e: Error)
    requires op.Approve? && |got| <= 2 && Explains(op, start, got) && Undisturbed(op, start, got)
    requires Next(op, start.cap, got, |got|) == Abort(e)
    ensures Perform(op, RefusalOracle(op, got), start) == Failure(e)
  {
    ExactLock(op, start, got, 0);
  }

  lemma ApproveLocked(op: Op, start: DB, got: seq<Answer>)
    requires op.Approve? && |got| >= 3 && Explains(op, start, got) && Undisturbed(op, start, got)
    ensures op.request in start.requests
            && RequestAt(got, 0) == Some(start.requests[op.request])
            && View(op, start, got, 3) == start
    ensures var to := RequestAt(got, 0).value.wallet;
            && WalletAt(got, if op.from <= to then 1 else 2) == Find(start.wallets, op.from)
            && WalletAt(got, if op.from <= to then 2 else 1) == Find(start.wallets, to)
  {
    ExactLock(op, start, got, 0);
    ExactLock(op, start, got, 1);
    PairLocked(op, start, got, op.from, RequestAt(got, 0).value.wallet);
  }

  lemma ApproveRefused(op: Op, start: DB, got: seq<Answer>, e: Error)
    requires op.Approve? && Explains(op, start, got) && Undisturbed(op, start, got)
    requires Next(op, start.cap, got, |got|) == Abort(e)
    ensures Perform(op, RefusalOracle(op, got), start) == Failure(e)
  {
    if |got| <= 2 {
      ApproveRefusedEarly(op, start, got, e);
    } else {
      ApproveRefusedLate(op, start, got, e);
    }
  }

  lemma ApproveRefusedLate(op: Op, start: DB, got: seq<Answer>, e: Error)
    requires op.Approve? && |got| > 2 && Explains(op, start, got) && Undisturbed(op, start, got)
    requires Next(op, start.cap, got, |got|) == Abort(e)
    ensures Perform(op, RefusalOracle(op, got), start) == Failure(e)
  {
    ApproveLocked(op, start, got);
    if |got| > 3 { ExactLock(op, start, got, 3); }
    if |got| > 4 { ExactLock(op, start, got, 4); }
    if |got| > 5 { ExactLock(op, start, got, 5); }
  }

  /** Tables that explain a program's answers, its locks exactly, refuse the operation with the error it throws. */
  lemma RefusalOnTables(op: Op, db: DB, got: seq<Answer>, e: Error)
    requires InTransaction(op) && Explains(op, db, got) && Undisturbed(op, db, got)
    requires Next(op, db.cap, got, |got|) == Abort(e)
    ensures Perform(op, RefusalOracle(op, got), db) == Failure(e)
  {
    match op
    case Transfer(_, _, _, _) => TransferRefused(op, db, got, e);
    case Approve(_, _, _, _) => ApproveRefused(op, db, got, e);
    case PayMerchant(_, _, _, _) => PaymentRefused(op, db, got, e);
    case _ => SingleRefused(op, db, got, e);
  }

  /** Where the program throws, the operation done in one step is refused with the same error. */
  lemma RefusalIsPerform(op: Op, start: DB, got: seq<Answer>, work: DB, since: nat, clock: nat, e: Error)
    requires InTransaction(op) && Session(op, start, got, work, since, clock)
    requires Next(op, start.cap, got, |got|) == Abort(e)
    ensures Perform(op, RefusalOracle(op, got), start) == Failure(e)
  {
    Unfold(op, start, got, work, since, clock);
    RefusalOnTables(op, start, got, e);
  }

  // ------------------------------------------------- outside `withTransaction`

  /** What the two actions of a guarded UPDATE answer. */
  function AmendTrace(db: DB, op: Op): seq<Answer>
    requires op.UpdateRequest? || op.CancelRequest? || op.DeclineRequest?
  {
    if op.request in db.requests then [RequestIs(Some(db.requests[op.request])), AmendAnswer(db, op)] else [RequestIs(None)]
  }

  /** The guarded UPDATE in one statement is its program: lock the row, recheck the guard, write, commit. */
  lemma AmendIsProgram(db: DB, op: Op)
    requires op.UpdateRequest? || op.CancelRequest? || op.DeclineRequest?
    ensures var got := AmendTrace(db, op);
            && Explains(op, db, got) && Undisturbed(op, db, got)
            && match Amend(db, op)
               case Success(after) => Next(op, db.cap, got, |got|) == Commit && View(op, db, got, |got|) == after
               case Failure(e) => Next(op, db.cap, got, |got|) == Abort(e)
  {
    var got := AmendTrace(db, op);
    assert Explained(op, db, got, 0) && ExactAt(op, db, got, 0);
    if |got| == 2 {
      assert View(op, db, got, 1) == db;
      assert Explained(op, db, got, 1) && ExactAt(op, db, got, 1);
    }
  }

  /** Creating a request is its program: read the wallet, check it, insert. */
  lemma CreateIsProgram(db: DB, op: Op, o: Oracle)
    requires op.CreateRequest? && o.seen == Find(db.wallets, op.wallet) && o.id !in db.requests
    ensures var got := if op.payer == op.email then [] else [WalletIs(o.seen)];
            && Explains(op, db, got)
            && match Next(op, db.cap, got, |got|)
               case AutoInsert(row) => Perform(op, o, db) == Success(SetRequest(db, o.id, row))
               case Abort(e) => Perform(op, o, db) == Failure(e)
               case _ => false
  {
    var got := if op.payer == op.email then [] else [WalletIs(o.seen)];
    if |got| == 1 {
      assert Explained(op, db, got, 0);
    }
  }
}

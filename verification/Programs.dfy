/**
  Each operation as the client code that drives a database connection: the next
  statement is a function of the answers received so far.  A transaction's state
  is therefore its list of answers, and its private uncommitted tables are what
  those answers make of the committed ones.
 */
module Programs {
  import opened Prelude
  import opened Bank

  datatype Row = RequestRow(id: Id) | WalletRow(id: Id)

  datatype Stmt =
    | LockRow(row: Row)                          // SELECT ... FOR UPDATE
    | FindNumber(number: string)                 // unlocked
    | ReadMerchant(merchant: Id)                 // unlocked
    | ListWallets(user: Id)                      // unlocked
    | ReadWallet(wallet: Id)                     // unlocked
    | Move(id: Id, kind: Kind, amount: nat)      // UPDATE wallets SET balance
    | LogTx(id: Id, kind: Kind, amount: nat, balanceAfter: nat, ref: Option<Id>)
    | Insert(draft: Entry)                       // INSERT, the id is generated
    | MarkPaid(request: Id, payer: Id)
    | AmendRow(amendment: Op)
    | WriteStatus(id: Id, status: WalletStatus)

  datatype Answer =
    | WalletIs(wallet: Option<Wallet>)
    | RequestIs(request: Option<Request>)
    | Found(found: Option<Id>)
    | MerchantIs(merchant: Option<MerchantStatus>)
    | Logged(row: LedgerRow)
    | Inserted(entry: Entry)
    | Overflow

  /** `AutoInsert` is an INSERT outside any transaction: it commits by itself. */
  datatype Action = Do(stmt: Stmt) | AutoInsert(request: Request) | Commit | Abort(error: Error)

  // ---------------------------------------------------------------- programs

  function WalletAt(got: seq<Answer>, i: nat): Option<Wallet>
    requires i < |got|
  {
    if got[i].WalletIs? then got[i].wallet else None
  }

  function RequestAt(got: seq<Answer>, i: nat): Option<Request>
    requires i < |got|
  {
    if got[i].RequestIs? then got[i].request else None
  }

  function FoundAt(got: seq<Answer>, i: nat): Option<Id>
    requires i < |got|
  {
    if got[i].Found? then got[i].found else None
  }

  function MerchantAt(got: seq<Answer>, i: nat): Option<MerchantStatus>
    requires i < |got|
  {
    if got[i].MerchantIs? then got[i].merchant else None
  }

  function IdAt(got: seq<Answer>, i: nat): Id
    requires i < |got|
  {
    if got[i].Inserted? then EntryId(got[i].entry) else 0
  }

  function StampAt(got: seq<Answer>, i: nat): nat
    requires i < |got|
  {
    if got[i].Logged? then got[i].row.at else 0
  }

  function EntryId(e: Entry): Id {
    if e.AuditRow? then 0 else e.id
  }

  function WithId(e: Entry, id: Id): Entry {
    match e
    case GatewayRow(_, wallet, kind, amount, currency) => GatewayRow(id, wallet, kind, amount, currency)
    case TransferRow(_, from, to, amount, currency) => TransferRow(id, from, to, amount, currency)
    case PaymentRow(_, merchant, wallet, amount, currency) => PaymentRow(id, merchant, wallet, amount, currency)
    case AuditRow(_, _) => e
  }

  function GatewayProgram(got: seq<Answer>, i: nat, deposit: bool, id: Id, user: Id, amount: nat): Action
    requires i <= |got|
  {
    var kind := if deposit then TopUp else Withdrawal;
    if i == 0 then Do(LockRow(WalletRow(id)))
    else
      var refusal := Refusal(WalletAt(got, 0), Some(user));
      if refusal.Some? then Abort(refusal.value)
      else if i == 1 then Do(Move(id, kind, amount))
      else if WalletAt(got, 1).None? then Abort(if got[1].Overflow? then OutOfRange else Insufficient)
      else if i == 2 then Do(Insert(GatewayRow(0, id, kind, amount, WalletAt(got, 0).value.currency)))
      else if i == 3 then Do(LogTx(id, kind, amount, WalletAt(got, 1).value.balance, Some(IdAt(got, 2))))
      else if i == 4 then Do(Insert(AuditRow(if deposit then WalletTopUp else WalletWithdraw, id)))
      else Commit
  }

  /** `lockWallets` locks the two rows in id order, whichever pays. */
  function Lower(a: Id, b: Id): Id {
    if a <= b then a else b
  }

  function Upper(a: Id, b: Id): Id {
    if a <= b then b else a
  }

  function TransferProgram(got: seq<Answer>, i: nat, from: Id, number: string, user: Id, amount: nat): Action
    requires i <= |got|
  {
    if i == 0 then Do(FindNumber(number))
    else if FoundAt(got, 0).None? then Abort(ReceiverMissing)
    else
      var to := FoundAt(got, 0).value;
      if to == from then Abort(SameWallet)
      else if i == 1 then Do(LockRow(WalletRow(Lower(from, to))))
      else if i == 2 then Do(LockRow(WalletRow(Upper(from, to))))
      else
        var payer := WalletAt(got, if from <= to then 1 else 2);
        var payee := WalletAt(got, if from <= to then 2 else 1);
        var mine, theirs := Refusal(payer, Some(user)), Refusal(payee, None);
        if mine.Some? then Abort(mine.value)
        else if theirs.Some? then Abort(theirs.value)
        else if payer.value.currency != payee.value.currency then Abort(CurrencyMismatch)
        else if i == 3 then Do(Move(from, TransferOut, amount))
        else if WalletAt(got, 3).None? then Abort(Insufficient)
        else if i == 4 then Do(Move(to, TransferIn, amount))
        else if WalletAt(got, 4).None? then Abort(OutOfRange)
        else if i == 5 then Do(Insert(TransferRow(0, from, to, amount, payer.value.currency)))
        else if i == 6 then Do(LogTx(from, TransferOut, amount, WalletAt(got, 3).value.balance, Some(IdAt(got, 5))))
        else if i == 7 then Do(LogTx(to, TransferIn, amount, WalletAt(got, 4).value.balance, Some(IdAt(got, 5))))
        else if i == 8 then Do(Insert(AuditRow(WalletTransfer, IdAt(got, 5))))
        else Commit
  }

  /** When the caller names no wallet, one more unlocked query resolves it. */
  function PayerLockIndex(payFrom: Option<Id>): nat {
    if payFrom.Some? then 1 else 2
  }

  function PayMerchantProgram(got: seq<Answer>, i: nat, merchant: Id, payFrom: Option<Id>, user: Id, amount: nat): Action
    requires i <= |got|
  {
    if i == 0 then Do(ReadMerchant(merchant))
    else
      var closed := MerchantRefusal(MerchantAt(got, 0));
      var k := PayerLockIndex(payFrom);
      if closed.Some? then Abort(closed.value)
      else if i < k then Do(ListWallets(user))
      else if payFrom.None? && FoundAt(got, 1).None? then Abort(WalletMissing)
      else
        var id := if payFrom.Some? then payFrom.value else FoundAt(got, 1).value;
        if i == k then Do(LockRow(WalletRow(id)))
        else
          var refusal := Refusal(WalletAt(got, k), Some(user));
          if refusal.Some? then Abort(refusal.value)
          else if i == k + 1 then Do(Move(id, MerchantPayment, amount))
          else if WalletAt(got, k + 1).None? then Abort(Insufficient)
          else if i == k + 2 then Do(Insert(PaymentRow(0, merchant, id, amount, WalletAt(got, k).value.currency)))
          else if i == k + 3 then
            Do(LogTx(id, MerchantPayment, amount, WalletAt(got, k + 1).value.balance, Some(IdAt(got, k + 2))))
          else if i == k + 4 then Do(Insert(AuditRow(MerchantPaid, IdAt(got, k + 2))))
          else Commit
  }

  function ApproveProgram(got: seq<Answer>, i: nat, request: Id, from: Id, user: Id, email: string, cap: int): Action
    requires i <= |got|
  {
    if i == 0 then Do(LockRow(RequestRow(request)))
    else
      var settled := RequestRefusal(RequestAt(got, 0), email, cap);
      if settled.Some? then Abort(settled.value)
      else
        var r := RequestAt(got, 0).value;
        if i == 1 then Do(LockRow(WalletRow(Lower(from, r.wallet))))
        else if i == 2 then Do(LockRow(WalletRow(Upper(from, r.wallet))))
        else
          var payer := WalletAt(got, if from <= r.wallet then 1 else 2);
          var payee := WalletAt(got, if from <= r.wallet then 2 else 1);
          var mine, theirs := Refusal(payer, Some(user)), Refusal(payee, None);
          if mine.Some? then Abort(mine.value)
          else if theirs.Some? then Abort(theirs.value)
          else if from == r.wallet then Abort(OwnRequest)
          else if payer.value.currency != r.currency then Abort(CurrencyMismatch)
          else if i == 3 then Do(Move(from, RequestOut, r.amount))
          else if WalletAt(got, 3).None? then Abort(Insufficient)
          else if i == 4 then Do(Move(r.wallet, RequestIn, r.amount))
          else if WalletAt(got, 4).None? then Abort(OutOfRange)
          else if i == 5 then Do(LogTx(from, RequestOut, r.amount, WalletAt(got, 3).value.balance, Some(request)))
          else if i == 6 then Do(LogTx(r.wallet, RequestIn, r.amount, WalletAt(got, 4).value.balance, Some(request)))
          else if i == 7 then Do(MarkPaid(request, from))
          else if i == 8 then Do(Insert(AuditRow(RequestPaid, request)))
          else Commit
  }

  function AdjustProgram(got: seq<Answer>, i: nat, id: Id, up: bool, amount: nat): Action
    requires i <= |got|
  {
    var kind := if up then AdjustmentCredit else AdjustmentDebit;
    if i == 0 then Do(LockRow(WalletRow(id)))
    else
      var refusal := AdminRefusal(WalletAt(got, 0));
      if refusal.Some? then Abort(refusal.value)
      else if i == 1 then Do(Move(id, kind, amount))
      else if WalletAt(got, 1).None? then Abort(if got[1].Overflow? then OutOfRange else Insufficient)
      else if i == 2 then Do(LogTx(id, kind, amount, WalletAt(got, 1).value.balance, None))
      else if i == 3 then Do(Insert(AuditRow(AdminAdjustment, id)))
      else Commit
  }

  function StatusProgram(got: seq<Answer>, i: nat, id: Id, status: WalletStatus): Action
    requires i <= |got|
  {
    if i == 0 then Do(LockRow(WalletRow(id)))
    else
      var refusal := AdminRefusal(WalletAt(got, 0));
      if refusal.Some? then Abort(refusal.value)
      else if WalletAt(got, 0).value.status == status then Abort(AlreadyInStatus)
      else if i == 1 then Do(WriteStatus(id, status))
      else if i == 2 then Do(Insert(AuditRow(if status == Frozen then WalletFreeze else WalletUnfreeze, id)))
      else Commit
  }

  function CreateProgram(got: seq<Answer>, i: nat, id: Id, user: Id, email: string, payer: string, amount: nat): Action
    requires i <= |got|
  {
    if payer == email then Abort(OwnRequest)
    else if i == 0 then Do(ReadWallet(id))
    else
      var refusal := Refusal(WalletAt(got, 0), Some(user));
      if refusal.Some? then Abort(refusal.value)
      else AutoInsert(NewRequest(id, WalletAt(got, 0).value, payer, amount))
  }

  /** One guarded UPDATE: it waits for the row, rechecks its guard, writes and commits. */
  function AmendProgram(got: seq<Answer>, i: nat, op: Op): Action
    requires i <= |got|
    requires op.UpdateRequest? || op.CancelRequest? || op.DeclineRequest?
  {
    if i == 0 then Do(LockRow(RequestRow(op.request)))
    else if RequestAt(got, 0).None? then Abort(RequestMissing)
    else if i == 1 then Do(AmendRow(op))
    else if RequestAt(got, 1).None? then Abort(RequestMissing)
    else Commit
  }

  /** The action of `op` after the answers `got[..i]`. */
  function Next(op: Op, cap: int, got: seq<Answer>, i: nat): Action
    requires i <= |got|
  {
    match op
    case Gateway(deposit, id, user, amount) => GatewayProgram(got, i, deposit, id, user, amount)
    case Transfer(from, number, user, amount) => TransferProgram(got, i, from, number, user, amount)
    case PayMerchant(merchant, payFrom, user, amount) => PayMerchantProgram(got, i, merchant, payFrom, user, amount)
    case Approve(request, from, user, email) => ApproveProgram(got, i, request, from, user, email, cap)
    case Adjust(id, up, amount) => AdjustProgram(got, i, id, up, amount)
    case SetStatus(id, status) => StatusProgram(got, i, id, status)
    case CreateRequest(id, user, email, payer, amount) => CreateProgram(got, i, id, user, email, payer, amount)
    case UpdateRequest(_, _, _) => AmendProgram(got, i, op)
    case CancelRequest(_, _) => AmendProgram(got, i, op)
    case DeclineRequest(_, _) => AmendProgram(got, i, op)
  }

  // --------------------------------------------------------------- statements

  function MoveAnswer(v: DB, id: Id, kind: Kind, amount: nat): Answer {
    if id !in v.wallets then WalletIs(None)
    else
      var moved := Moved(v.wallets[id], kind, amount);
      if moved.None? && Incoming(kind) then Overflow else WalletIs(moved)
  }

  predicate MayAmend(v: DB, op: Op)
    requires op.UpdateRequest? || op.CancelRequest? || op.DeclineRequest?
  {
    var row := Find(v.requests, op.request);
    if op.DeclineRequest? then PayerMay(row, op.email) else RequesterMay(v, row, op.user)
  }

  function AmendAnswer(v: DB, op: Op): Answer {
    if (op.UpdateRequest? || op.CancelRequest? || op.DeclineRequest?) && MayAmend(v, op)
    then RequestIs(Some(Amended(v.requests[op.request], op)))
    else RequestIs(None)
  }

  function PaidAnswer(v: DB, request: Id, payer: Id): Answer {
    if request in v.requests && v.requests[request].status == Pending
    then RequestIs(Some(v.requests[request].(status := Paid, payerWallet := Some(payer))))
    else RequestIs(None)
  }

  function StatusAnswer(v: DB, id: Id, status: WalletStatus): Answer {
    if id in v.wallets then WalletIs(Some(v.wallets[id].(status := status))) else WalletIs(None)
  }

  /**
    The answers a statement can give on the tables `v` that its transaction sees,
    leaving open what only unlocked reads decide.  A missing row may stop missing;
    what an answer says about columns that never change stays true.
   */
  predicate Stable(s: Stmt, v: DB, a: Answer) {
    match s
    case LockRow(row) =>
      (match row
       case WalletRow(id) => a.WalletIs? && (a.wallet.Some? ==> Find(v.wallets, id) == a.wallet)
       case RequestRow(id) => a.RequestIs? && (a.request.Some? ==> Find(v.requests, id) == a.request))
    case FindNumber(number) => a.Found? && (a.found.Some? ==> HasNumber(v, a.found.value, number))
    case ReadMerchant(_) => a.MerchantIs?
    case ListWallets(user) =>
      a.Found? && (a.found.Some? ==> a.found.value in v.wallets && v.wallets[a.found.value].owner == user)
    case ReadWallet(id) =>
      a.WalletIs? && (a.wallet.Some? ==> id in v.wallets && SameWalletRow(a.wallet.value, v.wallets[id]))
    case Move(id, kind, amount) => a == MoveAnswer(v, id, kind, amount)
    case LogTx(id, kind, amount, balanceAfter, ref) =>
      && id in v.wallets
      && a.Logged?
      && a.row == LedgerRow(id, kind, amount, balanceAfter, ref, v.wallets[id].currency, a.row.at)
    case Insert(draft) => a.Inserted? && a.entry == WithId(draft, EntryId(a.entry))
    case MarkPaid(request, payer) => a == PaidAnswer(v, request, payer)
    case AmendRow(op) => a == AmendAnswer(v, op)
    case WriteStatus(id, status) => a == StatusAnswer(v, id, status)
  }

  /** What a statement leaves in the tables its transaction sees. */
  function Apply(s: Stmt, a: Answer, v: DB): DB {
    match s
    case Move(id, _, _) => if a.WalletIs? && a.wallet.Some? then v.(wallets := v.wallets[id := a.wallet.value]) else v
    case WriteStatus(id, _) => if a.WalletIs? && a.wallet.Some? then v.(wallets := v.wallets[id := a.wallet.value]) else v
    case MarkPaid(id, _) => if a.RequestIs? && a.request.Some? then SetRequest(v, id, a.request.value) else v
    case AmendRow(op) =>
      if (op.UpdateRequest? || op.CancelRequest? || op.DeclineRequest?) && a.RequestIs? && a.request.Some?
      then SetRequest(v, op.request, a.request.value) else v
    case LogTx(_, _, _, _, _) => if a.Logged? then v.(ledger := v.ledger + [a.row]) else v
    case Insert(_) => if a.Inserted? then Note(v, a.entry) else v
    case _ => v
  }

  /** The tables a transaction sees after `i` answers, over the committed tables `db`. */
  function View(op: Op, db: DB, got: seq<Answer>, i: nat): DB
    requires i <= |got|
  {
    if i == 0 then db
    else
      Advance(Next(op, db.cap, got, i - 1), got[i - 1], View(op, db, got, i - 1))
  }

  function Advance(action: Action, a: Answer, v: DB): DB {
    if action.Do? then Apply(action.stmt, a, v) else v
  }

  /** Every answer is one its statement gives when the operation runs on `db`. */
  ghost predicate Explains(op: Op, db: DB, got: seq<Answer>) {
    forall i: nat :: i < |got| ==> Explained(op, db, got, i)
  }

  predicate Explained(op: Op, db: DB, got: seq<Answer>, i: nat)
    requires i < |got|
  {
    var action := Next(op, db.cap, got, i);
    action.Do? && Stable(action.stmt, View(op, db, got, i), got[i])
  }

  function OracleOf(op: Op, got: seq<Answer>): Oracle {
    match op
    case Gateway(_, _, _, _) =>
      if |got| < 4 then Oracle(None, None, None, 0, 0, 0) else Oracle(None, None, None, IdAt(got, 2), StampAt(got, 3), 0)
    case Transfer(_, _, _, _) =>
      if |got| < 8 then Oracle(None, None, None, 0, 0, 0)
      else Oracle(None, FoundAt(got, 0), None, IdAt(got, 5), StampAt(got, 6), StampAt(got, 7))
    case PayMerchant(_, payFrom, _, _) =>
      var k := PayerLockIndex(payFrom);
      if |got| < k + 4 then Oracle(None, None, None, 0, 0, 0)
      else Oracle(MerchantAt(got, 0), if payFrom.Some? then payFrom else FoundAt(got, 1), None,
                  IdAt(got, k + 2), StampAt(got, k + 3), 0)
    case Approve(_, _, _, _) =>
      if |got| < 7 then Oracle(None, None, None, 0, 0, 0) else Oracle(None, None, None, 0, StampAt(got, 5), StampAt(got, 6))
    case Adjust(_, _, _) =>
      if |got| < 3 then Oracle(None, None, None, 0, 0, 0) else Oracle(None, None, None, 0, StampAt(got, 2), 0)
    case _ => Oracle(None, None, None, 0, 0, 0)
  }

  // --------------------------------------------------- a program run undisturbed

  lemma ExplainedAt(op: Op, db: DB, got: seq<Answer>, i: nat)
    requires i < |got| && Explains(op, db, got)
    ensures Next(op, db.cap, got, i).Do?
    ensures var s := Next(op, db.cap, got, i).stmt;
            Stable(s, View(op, db, got, i), got[i]) && View(op, db, got, i + 1) == Apply(s, got[i], View(op, db, got, i))
  {
    assert Explained(op, db, got, i);
  }

  lemma GatewayRun(op: Op, db: DB, got: seq<Answer>)
    requires op.Gateway? && Explains(op, db, got) && Next(op, db.cap, got, |got|) == Commit
    ensures Perform(op, OracleOf(op, got), db) == Success(View(op, db, got, |got|))
  {
    if |got| > 5 { ExplainedAt(op, db, got, 5); }
    ExplainedAt(op, db, got, 0);
    ExplainedAt(op, db, got, 1);
    ExplainedAt(op, db, got, 2);
    ExplainedAt(op, db, got, 3);
    ExplainedAt(op, db, got, 4);
  }

  lemma AdjustRun(op: Op, db: DB, got: seq<Answer>)
    requires op.Adjust? && Explains(op, db, got) && Next(op, db.cap, got, |got|) == Commit
    ensures Perform(op, OracleOf(op, got), db) == Success(View(op, db, got, |got|))
  {
    if |got| > 4 { ExplainedAt(op, db, got, 4); }
    ExplainedAt(op, db, got, 0);
    ExplainedAt(op, db, got, 1);
    ExplainedAt(op, db, got, 2);
    ExplainedAt(op, db, got, 3);
  }

  lemma StatusRun(op: Op, db: DB, got: seq<Answer>)
    requires op.SetStatus? && Explains(op, db, got) && Next(op, db.cap, got, |got|) == Commit
    ensures Perform(op, OracleOf(op, got), db) == Success(View(op, db, got, |got|))
  {
    if |got| > 3 { ExplainedAt(op, db, got, 3); }
    ExplainedAt(op, db, got, 0);
    ExplainedAt(op, db, got, 1);
    ExplainedAt(op, db, got, 2);
  }

  lemma AmendRun(op: Op, db: DB, got: seq<Answer>)
    requires op.UpdateRequest? || op.CancelRequest? || op.DeclineRequest?
    requires Explains(op, db, got) && Next(op, db.cap, got, |got|) == Commit
    ensures Perform(op, OracleOf(op, got), db) == Success(View(op, db, got, |got|))
  {
    if |got| > 2 { ExplainedAt(op, db, got, 2); }
    ExplainedAt(op, db, got, 0);
    ExplainedAt(op, db, got, 1);
  }

  lemma PayMerchantLock(op: Op, db: DB, got: seq<Answer>)
    requires op.PayMerchant? && Explains(op, db, got) && Next(op, db.cap, got, |got|) == Commit
    ensures var k := PayerLockIndex(op.payFrom);
            && |got| == k + 5 && View(op, db, got, k + 1) == db
            && var o := OracleOf(op, got);
            o.other.Some? && o.other.value in db.wallets && WalletAt(got, k) == Some(db.wallets[o.other.value])
    ensures Honest(op, OracleOf(op, got), db)
  {
    var k := PayerLockIndex(op.payFrom);
    if |got| > k + 5 { ExplainedAt(op, db, got, k + 5); }
    ExplainedAt(op, db, got, 0);
    ExplainedAt(op, db, got, 1);
    ExplainedAt(op, db, got, k);
  }

  lemma PayMerchantRun(op: Op, db: DB, got: seq<Answer>)
    requires op.PayMerchant? && Explains(op, db, got) && Next(op, db.cap, got, |got|) == Commit
    ensures Honest(op, OracleOf(op, got), db)
    ensures Perform(op, OracleOf(op, got), db) == Success(View(op, db, got, |got|))
  {
    var k := PayerLockIndex(op.payFrom);
    PayMerchantLock(op, db, got);
    ExplainedAt(op, db, got, k + 1);
    ExplainedAt(op, db, got, k + 2);
    ExplainedAt(op, db, got, k + 3);
    ExplainedAt(op, db, got, k + 4);
  }

  lemma TransferLocks(op: Op, db: DB, got: seq<Answer>)
    requires op.Transfer? && Explains(op, db, got) && Next(op, db.cap, got, |got|) == Commit
    ensures |got| == 9 && View(op, db, got, 3) == db && FoundAt(got, 0).Some?
    ensures var to := FoundAt(got, 0).value;
            && op.from in db.wallets && HasNumber(db, to, op.toNumber) && op.from != to
            && WalletAt(got, if op.from <= to then 1 else 2) == Some(db.wallets[op.from])
            && WalletAt(got, if op.from <= to then 2 else 1) == Some(db.wallets[to])
  {
    if |got| > 9 { ExplainedAt(op, db, got, 9); }
    ExplainedAt(op, db, got, 0);
    ExplainedAt(op, db, got, 1);
    ExplainedAt(op, db, got, 2);
  }

  lemma TransferRun(op: Op, db: DB, got: seq<Answer>)
    requires op.Transfer? && Explains(op, db, got) && Next(op, db.cap, got, |got|) == Commit
    ensures Honest(op, OracleOf(op, got), db)
    ensures Perform(op, OracleOf(op, got), db) == Success(View(op, db, got, |got|))
  {
    TransferLocks(op, db, got);
    ExplainedAt(op, db, got, 3);
    ExplainedAt(op, db, got, 4);
    ExplainedAt(op, db, got, 5);
    ExplainedAt(op, db, got, 6);
    ExplainedAt(op, db, got, 7);
    ExplainedAt(op, db, got, 8);
  }

  lemma ApproveLocks(op: Op, db: DB, got: seq<Answer>)
    requires op.Approve? && Explains(op, db, got) && Next(op, db.cap, got, |got|) == Commit
    ensures |got| == 9 && View(op, db, got, 3) == db
    ensures op.request in db.requests && got[0] == RequestIs(Some(db.requests[op.request]))
    ensures var r := db.requests[op.request];
            && op.from in db.wallets && r.wallet in db.wallets && op.from != r.wallet
            && WalletAt(got, if op.from <= r.wallet then 1 else 2) == Some(db.wallets[op.from])
            && WalletAt(got, if op.from <= r.wallet then 2 else 1) == Some(db.wallets[r.wallet])
  {
    if |got| > 9 { ExplainedAt(op, db, got, 9); }
    ExplainedAt(op, db, got, 0);
    ExplainedAt(op, db, got, 1);
    ExplainedAt(op, db, got, 2);
  }

  /** The two balances have moved. */
  lemma ApproveMoves(op: Op, db: DB, got: seq<Answer>)
    requires op.Approve? && Explains(op, db, got) && Next(op, db.cap, got, |got|) == Commit
    ensures |got| == 9 && op.request in db.requests
    ensures var r := db.requests[op.request];
            && op.from in db.wallets && r.wallet in db.wallets && op.from != r.wallet
            && var paid, received := Moved(db.wallets[op.from], RequestOut, r.amount), Moved(db.wallets[r.wallet], RequestIn, r.amount);
            && paid.Some? && received.Some? && WalletAt(got, 3) == paid && WalletAt(got, 4) == received
            && View(op, db, got, 5) == db.(wallets := db.wallets[op.from := paid.value][r.wallet := received.value])
  {
    ApproveLocks(op, db, got);
    ExplainedAt(op, db, got, 3);
    ExplainedAt(op, db, got, 4);
  }

  lemma ApproveRun(op: Op, db: DB, got: seq<Answer>)
    requires op.Approve? && Explains(op, db, got) && Next(op, db.cap, got, |got|) == Commit
    ensures Perform(op, OracleOf(op, got), db) == Success(View(op, db, got, |got|))
  {
    ApproveLocks(op, db, got);
    ApproveMoves(op, db, got);
    ExplainedAt(op, db, got, 5);
    ExplainedAt(op, db, got, 6);
    ExplainedAt(op, db, got, 7);
    ExplainedAt(op, db, got, 8);
  }

  /**
    A program that runs undisturbed to its COMMIT does to the tables exactly what
    the operation does in one step, and what it observed is true.
   */
  lemma RunIsPerform(op: Op, db: DB, got: seq<Answer>)
    requires Explains(op, db, got) && Next(op, db.cap, got, |got|) == Commit
    ensures Honest(op, OracleOf(op, got), db)
    ensures Perform(op, OracleOf(op, got), db) == Success(View(op, db, got, |got|))
  {
    match op
    case Gateway(_, _, _, _) => GatewayRun(op, db, got);
    case Transfer(_, _, _, _) => TransferRun(op, db, got);
    case PayMerchant(_, _, _, _) => PayMerchantRun(op, db, got);
    case Approve(_, _, _, _) => ApproveRun(op, db, got);
    case Adjust(_, _, _) => AdjustRun(op, db, got);
    case SetStatus(_, _) => StatusRun(op, db, got);
    case CreateRequest(_, _, _, _, _) =>
    case UpdateRequest(_, _, _) => AmendRun(op, db, got);
    case CancelRequest(_, _) => AmendRun(op, db, got);
    case DeclineRequest(_, _) => AmendRun(op, db, got);
  }
}

/**
  What each operation does and when, column by column: an account of `Bank.Perform`
  that uses none of its helpers.
 */
module Effects {
  import opened Prelude
  import opened Bank

  const LARGEST: nat := 999_999_999_999_999

  /** The user owns the wallet and it is active. */
  predicate MaySpend(db: DB, id: Id, user: Id) {
    id in db.wallets && db.wallets[id].owner == user && db.wallets[id].status == Active
  }

  predicate MayReceive(db: DB, id: Id) {
    id in db.wallets && db.wallets[id].status == Active
  }

  predicate Has(db: DB, id: Id, amount: nat) {
    id in db.wallets && amount <= db.wallets[id].balance
  }

  predicate HasRoom(db: DB, id: Id, amount: nat) {
    id in db.wallets && db.wallets[id].balance + amount <= LARGEST
  }

  /** Which error a wallet that may not spend gives. */
  function SpendError(db: DB, id: Id, user: Id): Error
    requires !MaySpend(db, id, user)
  {
    if id !in db.wallets then WalletMissing else if db.wallets[id].owner != user then NotYourWallet else WalletUnusable
  }

  function ReceiveError(db: DB, id: Id): Error
    requires !MayReceive(db, id)
  {
    if id !in db.wallets then WalletMissing else WalletUnusable
  }

  /** The tables with some rows of some of them replaced or added. */
  function Changed(db: DB, wallets: map<Id, Wallet>, requests: map<Id, Request>, rows: seq<LedgerRow>, entries: seq<Entry>): DB {
    DB(db.wallets + wallets, db.requests + requests, db.ledger + rows, db.journal + entries, db.cap)
  }

  function Paying(w: Wallet, amount: nat): Wallet
    requires amount <= w.balance
  {
    Wallet(w.owner, w.number, w.currency, w.balance - amount, w.status, w.created)
  }

  function Receiving(w: Wallet, amount: nat): Wallet {
    Wallet(w.owner, w.number, w.currency, w.balance + amount, w.status, w.created)
  }

  /** A top-up. */
  function TopUpOutcome(db: DB, id: Id, user: Id, amount: nat, o: Oracle): Result<DB, Error> {
    if !MaySpend(db, id, user) then Failure(SpendError(db, id, user))
    else if !HasRoom(db, id, amount) then Failure(OutOfRange)
    else
      var w := db.wallets[id];
      Success(Changed(db, map[id := Receiving(w, amount)], map[],
                      [LedgerRow(id, TopUp, amount, w.balance + amount, Some(o.id), w.currency, o.at)],
                      [GatewayRow(o.id, id, TopUp, amount, w.currency), AuditRow(WalletTopUp, id)]))
  }

  lemma TopUpEffect(db: DB, id: Id, user: Id, amount: nat, o: Oracle)
    ensures Perform(Gateway(true, id, user, amount), o, db) == TopUpOutcome(db, id, user, amount, o)
  {
    if Perform(Gateway(true, id, user, amount), o, db).Success? {
      var after := Perform(Gateway(true, id, user, amount), o, db).value;
      var w := db.wallets[id];
      assert after.journal == db.journal + [GatewayRow(o.id, id, TopUp, amount, w.currency), AuditRow(WalletTopUp, id)];
      assert after.wallets == db.wallets + map[id := Receiving(w, amount)];
      assert after.requests == db.requests + map[];
    }
  }

  /** A withdrawal. */
  function WithdrawOutcome(db: DB, id: Id, user: Id, amount: nat, o: Oracle): Result<DB, Error> {
    if !MaySpend(db, id, user) then Failure(SpendError(db, id, user))
    else if !Has(db, id, amount) then Failure(Insufficient)
    else
      var w := db.wallets[id];
      Success(Changed(db, map[id := Paying(w, amount)], map[],
                      [LedgerRow(id, Withdrawal, amount, w.balance - amount, Some(o.id), w.currency, o.at)],
                      [GatewayRow(o.id, id, Withdrawal, amount, w.currency), AuditRow(WalletWithdraw, id)]))
  }

  lemma WithdrawEffect(db: DB, id: Id, user: Id, amount: nat, o: Oracle)
    ensures Perform(Gateway(false, id, user, amount), o, db) == WithdrawOutcome(db, id, user, amount, o)
  {
    if Perform(Gateway(false, id, user, amount), o, db).Success? {
      var after := Perform(Gateway(false, id, user, amount), o, db).value;
      var w := db.wallets[id];
      assert after.journal == db.journal + [GatewayRow(o.id, id, Withdrawal, amount, w.currency), AuditRow(WalletWithdraw, id)];
      assert after.wallets == db.wallets + map[id := Paying(w, amount)];
      assert after.requests == db.requests + map[];
    }
  }

  /** `to` is the wallet that the receiver's number was found to denote. */
  function TransferOutcome(db: DB, from: Id, to: Id, user: Id, amount: nat, o: Oracle): Result<DB, Error> {
    if to == from then Failure(SameWallet)
    else if !MaySpend(db, from, user) then Failure(SpendError(db, from, user))
    else if !MayReceive(db, to) then Failure(ReceiveError(db, to))
    else if db.wallets[from].currency != db.wallets[to].currency then Failure(CurrencyMismatch)
    else if !Has(db, from, amount) then Failure(Insufficient)
    else if !HasRoom(db, to, amount) then Failure(OutOfRange)
    else
      var w, v := db.wallets[from], db.wallets[to];
      Success(Changed(db, map[from := Paying(w, amount), to := Receiving(v, amount)], map[],
                      [LedgerRow(from, TransferOut, amount, w.balance - amount, Some(o.id), w.currency, o.at),
                       LedgerRow(to, TransferIn, amount, v.balance + amount, Some(o.id), w.currency, o.at2)],
                      [TransferRow(o.id, from, to, amount, w.currency), AuditRow(WalletTransfer, o.id)]))
  }

  /** When a transfer goes through. */
  predicate TransferAllowed(db: DB, from: Id, to: Id, user: Id, amount: nat) {
    && to != from && MaySpend(db, from, user) && MayReceive(db, to)
    && db.wallets[from].currency == db.wallets[to].currency && Has(db, from, amount) && HasRoom(db, to, amount)
  }

  lemma TransferEffect(db: DB, from: Id, number: string, user: Id, amount: nat, o: Oracle)
    ensures Perform(Transfer(from, number, user, amount), o, db)
            == if o.other.None? then Failure(ReceiverMissing) else TransferOutcome(db, from, o.other.value, user, amount, o)
  {
    if Perform(Transfer(from, number, user, amount), o, db).Success? {
      var to := o.other.value;
      var after := Perform(Transfer(from, number, user, amount), o, db).value;
      var w, v := db.wallets[from], db.wallets[to];
      assert after.wallets == db.wallets + map[from := Paying(w, amount), to := Receiving(v, amount)];
      assert after.ledger == db.ledger
             + [LedgerRow(from, TransferOut, amount, w.balance - amount, Some(o.id), w.currency, o.at),
                LedgerRow(to, TransferIn, amount, v.balance + amount, Some(o.id), w.currency, o.at2)];
      assert after.journal == db.journal + [TransferRow(o.id, from, to, amount, w.currency), AuditRow(WalletTransfer, o.id)];
      assert after.requests == db.requests + map[];
    }
  }

  /** A payment to the merchant whose status was read, from the wallet that was resolved. */
  function PaymentOutcome(db: DB, merchant: Id, user: Id, amount: nat, o: Oracle): Result<DB, Error> {
    if o.merchant.None? || o.merchant == Some(Deleted) then Failure(MerchantMissing)
    else if o.merchant == Some(Suspended) then Failure(MerchantRefuses)
    else if o.other.None? then Failure(WalletMissing)
    else if !MaySpend(db, o.other.value, user) then Failure(SpendError(db, o.other.value, user))
    else if !Has(db, o.other.value, amount) then Failure(Insufficient)
    else
      var id := o.other.value;
      var w := db.wallets[id];
      Success(Changed(db, map[id := Paying(w, amount)], map[],
                      [LedgerRow(id, MerchantPayment, amount, w.balance - amount, Some(o.id), w.currency, o.at)],
                      [PaymentRow(o.id, merchant, id, amount, w.currency), AuditRow(MerchantPaid, o.id)]))
  }

  lemma PaymentEffect(db: DB, merchant: Id, payFrom: Option<Id>, user: Id, amount: nat, o: Oracle)
    ensures Perform(PayMerchant(merchant, payFrom, user, amount), o, db) == PaymentOutcome(db, merchant, user, amount, o)
  {
    if Perform(PayMerchant(merchant, payFrom, user, amount), o, db).Success? {
      var id := o.other.value;
      var after := Perform(PayMerchant(merchant, payFrom, user, amount), o, db).value;
      var w := db.wallets[id];
      assert after.journal == db.journal + [PaymentRow(o.id, merchant, id, amount, w.currency), AuditRow(MerchantPaid, o.id)];
      assert after.wallets == db.wallets + map[id := Paying(w, amount)];
      assert after.requests == db.requests + map[];
    }
  }

  function ApprovalOutcome(db: DB, request: Id, from: Id, user: Id, email: string, o: Oracle): Result<DB, Error> {
    if request !in db.requests || db.requests[request].payer != email then Failure(RequestMissing)
    else
      var r := db.requests[request];
      if r.status != Pending then Failure(RequestSettled)
      else if !(0 < r.amount <= LARGEST && r.amount <= db.cap) then Failure(AmountRefused)
      else if !MaySpend(db, from, user) then Failure(SpendError(db, from, user))
      else if !MayReceive(db, r.wallet) then Failure(ReceiveError(db, r.wallet))
      else if from == r.wallet then Failure(OwnRequest)
      else if db.wallets[from].currency != r.currency then Failure(CurrencyMismatch)
      else if !Has(db, from, r.amount) then Failure(Insufficient)
      else if !HasRoom(db, r.wallet, r.amount) then Failure(OutOfRange)
      else
        var w, v := db.wallets[from], db.wallets[r.wallet];
        Success(Changed(db, map[from := Paying(w, r.amount), r.wallet := Receiving(v, r.amount)],
                        map[request := Request(r.wallet, r.payer, Some(from), r.amount, r.currency, Paid)],
                        [LedgerRow(from, RequestOut, r.amount, w.balance - r.amount, Some(request), w.currency, o.at),
                         LedgerRow(r.wallet, RequestIn, r.amount, v.balance + r.amount, Some(request), v.currency, o.at2)],
                        [AuditRow(RequestPaid, request)]))
  }

  lemma ApprovalEffect(db: DB, request: Id, from: Id, user: Id, email: string, o: Oracle)
    ensures Perform(Approve(request, from, user, email), o, db) == ApprovalOutcome(db, request, from, user, email, o)
  {
    if Perform(Approve(request, from, user, email), o, db).Success? {
      var after := Perform(Approve(request, from, user, email), o, db).value;
      var r := db.requests[request];
      var w, v := db.wallets[from], db.wallets[r.wallet];
      assert after.wallets == db.wallets + map[from := Paying(w, r.amount), r.wallet := Receiving(v, r.amount)];
      assert after.requests == db.requests + map[request := Request(r.wallet, r.payer, Some(from), r.amount, r.currency, Paid)];
      assert after.ledger == db.ledger
             + [LedgerRow(from, RequestOut, r.amount, w.balance - r.amount, Some(request), w.currency, o.at),
                LedgerRow(r.wallet, RequestIn, r.amount, v.balance + r.amount, Some(request), v.currency, o.at2)];
    }
  }

  /** An administrator acts on any wallet that is not closed. */
  function AdjustOutcome(db: DB, id: Id, up: bool, amount: nat, o: Oracle): Result<DB, Error> {
    if id !in db.wallets then Failure(WalletMissing)
    else if db.wallets[id].status == Closed then Failure(WalletClosed)
    else if up && !HasRoom(db, id, amount) then Failure(OutOfRange)
    else if !up && !Has(db, id, amount) then Failure(Insufficient)
    else
      var w := if up then Receiving(db.wallets[id], amount) else Paying(db.wallets[id], amount);
      Success(Changed(db, map[id := w], map[],
                      [LedgerRow(id, if up then AdjustmentCredit else AdjustmentDebit, amount, w.balance, None, w.currency, o.at)],
                      [AuditRow(AdminAdjustment, id)]))
  }

  lemma AdjustEffect(db: DB, id: Id, up: bool, amount: nat, o: Oracle)
    ensures Perform(Adjust(id, up, amount), o, db) == AdjustOutcome(db, id, up, amount, o)
  {
    if Perform(Adjust(id, up, amount), o, db).Success? {
      var after := Perform(Adjust(id, up, amount), o, db).value;
      assert after.wallets == db.wallets + map[id := if up then Receiving(db.wallets[id], amount) else Paying(db.wallets[id], amount)];
      assert after.requests == db.requests + map[];
    }
  }

  /** Freezing and unfreezing. */
  function StatusOutcome(db: DB, id: Id, status: WalletStatus): Result<DB, Error> {
    if id !in db.wallets then Failure(WalletMissing)
    else if db.wallets[id].status == Closed then Failure(WalletClosed)
    else if db.wallets[id].status == status then Failure(AlreadyInStatus)
    else
      var w := db.wallets[id];
      Success(Changed(db, map[id := Wallet(w.owner, w.number, w.currency, w.balance, status, w.created)], map[], [],
                      [AuditRow(if status == Frozen then WalletFreeze else WalletUnfreeze, id)]))
  }

  lemma StatusEffect(db: DB, id: Id, status: WalletStatus, o: Oracle)
    ensures Perform(SetStatus(id, status), o, db) == StatusOutcome(db, id, status)
  {
    if Perform(SetStatus(id, status), o, db).Success? {
      var after := Perform(SetStatus(id, status), o, db).value;
      var w := db.wallets[id];
      assert after.wallets == db.wallets + map[id := Wallet(w.owner, w.number, w.currency, w.balance, status, w.created)];
      assert after.requests == db.requests + map[];
      assert after.ledger == db.ledger + [];
    }
  }

  // --------------------------------------------------------- payment requests

  /** A new payment request; `o.seen` is the wallet row as it was read, before the INSERT. */
  function CreateOutcome(db: DB, id: Id, user: Id, email: string, payer: string, amount: nat, o: Oracle): Result<DB, Error> {
    if payer == email then Failure(OwnRequest)
    else if o.seen.None? then Failure(WalletMissing)
    else if o.seen.value.owner != user then Failure(NotYourWallet)
    else if o.seen.value.status != Active then Failure(WalletUnusable)
    else if o.id in db.requests then Failure(DuplicateKey)
    else Success(Changed(db, map[], map[o.id := Request(id, payer, None, amount, o.seen.value.currency, Pending)], [], []))
  }

  lemma CreateEffect(db: DB, id: Id, user: Id, email: string, payer: string, amount: nat, o: Oracle)
    ensures Perform(CreateRequest(id, user, email, payer, amount), o, db) == CreateOutcome(db, id, user, email, payer, amount, o)
  {
    if Perform(CreateRequest(id, user, email, payer, amount), o, db).Success? {
      var after := Perform(CreateRequest(id, user, email, payer, amount), o, db).value;
      assert after.requests == db.requests + map[o.id := Request(id, payer, None, amount, o.seen.value.currency, Pending)];
      assert db.wallets + map[] == db.wallets && db.ledger + [] == db.ledger && db.journal + [] == db.journal;
    }
  }

  /** The requester of a pending request. */
  predicate IsRequester(db: DB, request: Id, user: Id) {
    && request in db.requests && db.requests[request].status == Pending
    && db.requests[request].wallet in db.wallets && db.wallets[db.requests[request].wallet].owner == user
  }

  /** The payer of a pending request. */
  predicate IsPayer(db: DB, request: Id, email: string) {
    request in db.requests && db.requests[request].status == Pending && db.requests[request].payer == email
  }

  /** Only the requester edits and cancels, only the payer declines, and only while the request is pending. */
  function AmendOutcome(db: DB, op: Op): Result<DB, Error>
    requires op.UpdateRequest? || op.CancelRequest? || op.DeclineRequest?
  {
    if (if op.DeclineRequest? then !IsPayer(db, op.request, op.email) else !IsRequester(db, op.request, op.user))
    then Failure(RequestMissing)
    else
      var r := db.requests[op.request];
      var row := match op
                 case UpdateRequest(_, _, amount) => Request(r.wallet, r.payer, r.payerWallet, amount, r.currency, Pending)
                 case CancelRequest(_, _) => Request(r.wallet, r.payer, r.payerWallet, r.amount, r.currency, Cancelled)
                 case _ => Request(r.wallet, r.payer, r.payerWallet, r.amount, r.currency, Declined);
      Success(Changed(db, map[], map[op.request := row], [], []))
  }

  lemma AmendEffect(db: DB, op: Op, o: Oracle)
    requires op.UpdateRequest? || op.CancelRequest? || op.DeclineRequest?
    ensures Perform(op, o, db) == AmendOutcome(db, op) && Amend(db, op) == AmendOutcome(db, op)
  {
    if Perform(op, o, db).Success? {
      var after := Perform(op, o, db).value;
      assert after.requests == db.requests + map[op.request := after.requests[op.request]];
      assert db.wallets + map[] == db.wallets && db.ledger + [] == db.ledger && db.journal + [] == db.journal;
    }
  }

  // ------------------------------------------------- the balance that is told

  lemma TransferTold(db: DB, from: Id, to: Id, user: Id, amount: nat, o: Oracle)
    requires TransferOutcome(db, from, to, user, amount, o).Success?
    ensures TransferAllowed(db, from, to, user, amount)
    ensures TransferOutcome(db, from, to, user, amount, o).value.wallets[from].balance == db.wallets[from].balance - amount
  {
  }

  lemma PaymentTold(db: DB, merchant: Id, user: Id, amount: nat, o: Oracle)
    requires PaymentOutcome(db, merchant, user, amount, o).Success?
    ensures o.merchant == Some(Trading) && o.other.Some? && MaySpend(db, o.other.value, user)
    ensures PaymentOutcome(db, merchant, user, amount, o).value.wallets[o.other.value].balance
            == db.wallets[o.other.value].balance - amount
  {
    match o.merchant
    case Some(Trading) =>
    case _ =>
  }

  lemma ApprovalTold(db: DB, request: Id, from: Id, user: Id, email: string, o: Oracle)
    requires ApprovalOutcome(db, request, from, user, email, o).Success?
    ensures request in db.requests && db.requests[request].payer == email && MaySpend(db, from, user)
    ensures ApprovalOutcome(db, request, from, user, email, o).value.wallets[from].balance
            == db.wallets[from].balance - db.requests[request].amount
  {
  }

  // -------------------------------------------------------- who may do what

  /** The operations that a user asks for on a wallet of theirs. */
  predicate Spends(op: Op) {
    op.Gateway? || op.Transfer? || op.PayMerchant? || op.Approve?
  }

  /** What changed on one wallet, and by whose right. */
  predicate WalletAuthorised(op: Op, before: Wallet, after: Wallet) {
    && after.owner == before.owner && after.number == before.number
    && after.currency == before.currency && after.created == before.created
    && (after.balance < before.balance ==>
          if op.Adjust? then before.status != Closed else Spends(op) && before.owner == op.user && before.status == Active)
    && (after.balance > before.balance ==>
          if op.Adjust? then before.status != Closed
          else before.status == Active && !op.PayMerchant? && (op.Gateway? ==> before.owner == op.user))
    && (after.status != before.status ==> op.SetStatus? && before.status != Closed && after.status == op.status)
  }

  /** What changed on one request, and by whose right. */
  predicate RequestAuthorised(db: DB, op: Op, before: Request, after: Request) {
    after == before ||
    (before.status == Pending
     && match op
        case Approve(_, from, user, email) => before.payer == email && after == before.(status := Paid, payerWallet := Some(from))
        case UpdateRequest(_, user, amount) => OwnedBy(db, before.wallet, user) && after == before.(amount := amount)
        case CancelRequest(_, user) => OwnedBy(db, before.wallet, user) && after == before.(status := Cancelled)
        case DeclineRequest(_, email) => before.payer == email && after == before.(status := Declined)
        case _ => false)
  }

  /**
    Nobody's balance falls but by their own hand or an administrator's, nobody's rises
    unless the wallet is in use, a merchant is paid only while trading, the money of a
    transfer goes to the number that was given, and a request is paid or declined only
    by its payer and changed or cancelled only by its requester.
   */
  ghost predicate Authorised(op: Op, o: Oracle, db: DB, after: DB) {
    && (forall id <- db.wallets :: id in after.wallets && WalletAuthorised(op, db.wallets[id], after.wallets[id]))
    && (forall id <- after.wallets :: id in db.wallets)
    && (forall id <- db.requests :: id in after.requests && RequestAuthorised(db, op, db.requests[id], after.requests[id]))
    && (forall id <- after.requests :: id in db.requests || op.CreateRequest?)
    && (op.PayMerchant? ==> o.merchant == Some(Trading))
    && (op.Transfer? ==> forall id <- db.wallets ::
          after.wallets[id].balance > db.wallets[id].balance ==> db.wallets[id].number == op.toNumber)
    && (op.CreateRequest? ==> OwnedBy(db, op.wallet, op.user))
  }

  lemma GatewayAuthorised(op: Op, o: Oracle, db: DB)
    requires op.Gateway? && Perform(op, o, db).Success?
    ensures Authorised(op, o, db, Perform(op, o, db).value)
  {
    if op.deposit {
      TopUpEffect(db, op.wallet, op.user, op.amount, o);
    } else {
      WithdrawEffect(db, op.wallet, op.user, op.amount, o);
    }
  }

  lemma PaymentAuthorised(op: Op, o: Oracle, db: DB)
    requires op.PayMerchant? && Perform(op, o, db).Success?
    ensures Authorised(op, o, db, Perform(op, o, db).value)
  {
    PaymentEffect(db, op.merchant, op.payFrom, op.user, op.amount, o);
  }

  lemma AdminAuthorised(op: Op, o: Oracle, db: DB)
    requires (op.Adjust? || op.SetStatus?) && Perform(op, o, db).Success?
    ensures Authorised(op, o, db, Perform(op, o, db).value)
  {
    if op.Adjust? {
      AdjustEffect(db, op.wallet, op.up, op.amount, o);
    } else {
      StatusEffect(db, op.wallet, op.status, o);
    }
  }

  lemma TransferAuthorised(op: Op, o: Oracle, db: DB)
    requires op.Transfer? && Honest(op, o, db) && Perform(op, o, db).Success?
    ensures Authorised(op, o, db, Perform(op, o, db).value)
  {
    TransferEffect(db, op.from, op.toNumber, op.user, op.amount, o);
  }

  lemma ApprovalAuthorised(op: Op, o: Oracle, db: DB)
    requires op.Approve? && Perform(op, o, db).Success?
    ensures Authorised(op, o, db, Perform(op, o, db).value)
  {
    ApprovalEffect(db, op.request, op.from, op.user, op.email, o);
  }

  lemma RequestChangeAuthorised(op: Op, o: Oracle, db: DB)
    requires (op.CreateRequest? || op.UpdateRequest? || op.CancelRequest? || op.DeclineRequest?) && Honest(op, o, db) && Perform(op, o, db).Success?
    ensures Authorised(op, o, db, Perform(op, o, db).value)
  {
    if op.CreateRequest? {
      CreateEffect(db, op.wallet, op.user, op.email, op.payer, op.amount, o);
    } else {
      AmendEffect(db, op, o);
    }
  }

  /** No operation does anything that its caller has no right to. */
  lemma PerformIsAuthorised(op: Op, o: Oracle, db: DB)
    requires Honest(op, o, db) && Perform(op, o, db).Success?
    ensures Authorised(op, o, db, Perform(op, o, db).value)
  {
    match op
    case Gateway(_, _, _, _) => GatewayAuthorised(op, o, db);
    case Transfer(_, _, _, _) => TransferAuthorised(op, o, db);
    case PayMerchant(_, _, _, _) => PaymentAuthorised(op, o, db);
    case Approve(_, _, _, _) => ApprovalAuthorised(op, o, db);
    case Adjust(_, _, _) => AdminAuthorised(op, o, db);
    case SetStatus(_, _) => AdminAuthorised(op, o, db);
    case _ => RequestChangeAuthorised(op, o, db);
  }
}

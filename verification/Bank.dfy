/**
  The tables that money operations touch, and what each operation does to them
  when it runs alone.  Amounts are integer cents: NUMERIC(15, 2) is exact.
 */
module Bank {
  import opened Prelude

  /** A UUID.  PostgreSQL orders UUIDs totally, and so are natural numbers. */
  type Id = nat

  /** The largest NUMERIC(15, 2), in cents. */
  const MAX_CENTS: nat := 999_999_999_999_999

  datatype WalletStatus = Active | Frozen | Closed
  datatype RequestStatus = Pending | Paid | Declined | Cancelled
  datatype MerchantStatus = Trading | Suspended | Deleted

  datatype Kind =
    | TopUp
    | Withdrawal
    | TransferIn
    | TransferOut
    | RequestIn
    | RequestOut
    | MerchantPayment
    | AdjustmentCredit
    | AdjustmentDebit

  /** `created` is `created_at`: several rows may share it. */
  datatype Wallet = Wallet(owner: Id, number: string, currency: string, balance: nat, status: WalletStatus, created: nat)

  datatype Request = Request(
    wallet: Id, payer: string, payerWallet: Option<Id>, amount: nat, currency: string, status: RequestStatus)

  /** A row of `transactions`; `at` is its `created_at`. */
  datatype LedgerRow = LedgerRow(
    wallet: Id, kind: Kind, amount: nat, balanceAfter: nat, ref: Option<Id>, currency: string, at: nat)

  datatype AuditAction =
    | WalletTopUp
    | WalletWithdraw
    | WalletTransfer
    | MerchantPaid
    | RequestPaid
    | AdminAdjustment
    | WalletFreeze
    | WalletUnfreeze

  /** Rows of the other append-only tables. */
  datatype Entry =
    | GatewayRow(id: Id, wallet: Id, kind: Kind, amount: nat, currency: string)
    | TransferRow(id: Id, from: Id, to: Id, amount: nat, currency: string)
    | PaymentRow(id: Id, merchant: Id, wallet: Id, amount: nat, currency: string)
    | AuditRow(action: AuditAction, entity: Id)

  /** `cap` is the configured maximum amount of one movement. */
  datatype DB = DB(
    wallets: map<Id, Wallet>, requests: map<Id, Request>, ledger: seq<LedgerRow>, journal: seq<Entry>, cap: int)

  datatype Op =
    | Gateway(deposit: bool, wallet: Id, user: Id, amount: nat)
    | Transfer(from: Id, toNumber: string, user: Id, amount: nat)
    | PayMerchant(merchant: Id, payFrom: Option<Id>, user: Id, amount: nat)
    | Approve(request: Id, from: Id, user: Id, email: string)
    | Adjust(wallet: Id, up: bool, amount: nat)
    | SetStatus(wallet: Id, status: WalletStatus)
    | CreateRequest(wallet: Id, user: Id, email: string, payer: string, amount: nat)
    | UpdateRequest(request: Id, user: Id, amount: nat)
    | CancelRequest(request: Id, user: Id)
    | DeclineRequest(request: Id, email: string)

  datatype Error =
    | WalletMissing
    | NotYourWallet
    | WalletUnusable
    | WalletClosed
    | AlreadyInStatus
    | Insufficient
    | OutOfRange
    | ReceiverMissing
    | SameWallet
    | CurrencyMismatch
    | MerchantMissing
    | MerchantRefuses
    | RequestMissing
    | RequestSettled
    | AmountRefused
    | OwnRequest
    | DuplicateKey

  /**
    What an operation learns other than from rows it locks: the merchant status
    it read, the wallet a number or a user was resolved to, the requester wallet
    row it read, the id of the row it inserted and the timestamps its ledger rows
    received.
   */
  datatype Oracle = Oracle(
    merchant: Option<MerchantStatus>, other: Option<Id>, seen: Option<Wallet>, id: Id, at: nat, at2: nat)

  /** Request edits, declines, cancellations and creations run outside `withTransaction`. */
  predicate InTransaction(op: Op) {
    !op.CreateRequest? && !op.UpdateRequest? && !op.CancelRequest? && !op.DeclineRequest?
  }

  /** `maxRetries` of `withTransaction`. */
  const MAX_RETRIES: nat := 3

  // ---------------------------------------------------------------- amounts

  /** An amount that `normalizeAmount` lets through under the cap. */
  predicate AmountOk(amount: nat, cap: int) {
    1 <= amount <= MAX_CENTS && amount <= cap
  }

  predicate OpOk(op: Op, cap: int) {
    match op
    case Gateway(_, _, _, amount) => AmountOk(amount, cap)
    case Transfer(_, _, _, amount) => AmountOk(amount, cap)
    case PayMerchant(_, _, _, amount) => AmountOk(amount, cap)
    case Adjust(_, _, amount) => AmountOk(amount, cap)
    case CreateRequest(_, _, _, _, amount) => AmountOk(amount, cap)
    case UpdateRequest(_, _, amount) => AmountOk(amount, cap)
    case _ => true
  }

  // ------------------------------------------------------------ single rows

  predicate Incoming(kind: Kind) {
    kind.TopUp? || kind.TransferIn? || kind.RequestIn? || kind.AdjustmentCredit?
  }

  function Signed(row: LedgerRow): int {
    if Incoming(row.kind) then row.amount else -(row.amount as int)
  }

  /** The balance UPDATE of `credit` or `debit` on one row; None when it is refused. */
  function Moved(w: Wallet, kind: Kind, amount: nat): Option<Wallet> {
    if Incoming(kind) then
      if w.balance + amount <= MAX_CENTS then Some(w.(balance := w.balance + amount)) else None
    else
      if amount <= w.balance then Some(w.(balance := w.balance - amount)) else None
  }

  /** Why `assertUsableWallet` would throw. */
  function Refusal(row: Option<Wallet>, user: Option<Id>): Option<Error> {
    if row.None? then Some(WalletMissing)
    else if user.Some? && row.value.owner != user.value then Some(NotYourWallet)
    else if row.value.status != Active then Some(WalletUnusable)
    else None
  }

  /** Why `adminAdjust` and `setWalletStatus` refuse the wallet they locked. */
  function AdminRefusal(row: Option<Wallet>): Option<Error> {
    if row.None? then Some(WalletMissing)
    else if row.value.status == Closed then Some(WalletClosed)
    else None
  }

  function MerchantRefusal(status: Option<MerchantStatus>): Option<Error> {
    if status.None? || status.value.Deleted? then Some(MerchantMissing)
    else if !status.value.Trading? then Some(MerchantRefuses)
    else None
  }

  /** Why `approvePaymentRequest` refuses the request row it locked. */
  function RequestRefusal(row: Option<Request>, email: string, cap: int): Option<Error> {
    if row.None? || row.value.payer != email then Some(RequestMissing)
    else if row.value.status != Pending then Some(RequestSettled)
    else if !AmountOk(row.value.amount, cap) then Some(AmountRefused)
    else None
  }

  /** The guard `status = 'pending' AND w.user_id = $2` of a requester's UPDATE. */
  predicate RequesterMay(db: DB, row: Option<Request>, user: Id) {
    && row.Some?
    && row.value.status == Pending
    && row.value.wallet in db.wallets
    && db.wallets[row.value.wallet].owner == user
  }

  predicate PayerMay(row: Option<Request>, email: string) {
    row.Some? && row.value.payer == email && row.value.status == Pending
  }

  // -------------------------------------------------------- whole operations

  predicate CanPost(db: DB, id: Id, kind: Kind, amount: nat) {
    id in db.wallets && Moved(db.wallets[id], kind, amount).Some?
  }

  /** One leg of a movement: the wallet's balance changes and the ledger says so. */
  function Post(db: DB, id: Id, kind: Kind, amount: nat, ref: Option<Id>, at: nat): DB
    requires CanPost(db, id, kind, amount)
  {
    var w := Moved(db.wallets[id], kind, amount).value;
    db.(wallets := db.wallets[id := w],
        ledger := db.ledger + [LedgerRow(id, kind, amount, w.balance, ref, w.currency, at)])
  }

  function Note(db: DB, entry: Entry): DB {
    db.(journal := db.journal + [entry])
  }

  function SetRequest(db: DB, id: Id, row: Request): DB {
    db.(requests := db.requests[id := row])
  }

  /** A movement out of one wallet and into another, or the reason it is refused. */
  function Exchange(db: DB, from: Id, to: Id, out: Kind, into: Kind, amount: nat, ref: Id, o: Oracle): Result<DB, Error>
    requires !Incoming(out) && Incoming(into) && from != to
  {
    if !CanPost(db, from, out, amount) then Failure(Insufficient)
    else if !CanPost(db, to, into, amount) then Failure(OutOfRange)
    else Success(Post(Post(db, from, out, amount, Some(ref), o.at), to, into, amount, Some(ref), o.at2))
  }

  function GatewayMovement(db: DB, deposit: bool, id: Id, user: Id, amount: nat, o: Oracle): Result<DB, Error> {
    var refusal := Refusal(Find(db.wallets, id), Some(user));
    var kind := if deposit then TopUp else Withdrawal;
    if refusal.Some? then Failure(refusal.value)
    else if !CanPost(db, id, kind, amount) then Failure(if deposit then OutOfRange else Insufficient)
    else
      var posted := Post(db, id, kind, amount, Some(o.id), o.at);
      Success(Note(Note(posted, GatewayRow(o.id, id, kind, amount, db.wallets[id].currency)),
                   AuditRow(if deposit then WalletTopUp else WalletWithdraw, id)))
  }

  predicate HasNumber(db: DB, id: Id, number: string) {
    id in db.wallets && db.wallets[id].number == number
  }

  function TransferBetween(db: DB, from: Id, to: Id, amount: nat, o: Oracle): Result<DB, Error>
    requires from != to && from in db.wallets
  {
    var moved :- Exchange(db, from, to, TransferOut, TransferIn, amount, o.id, o);
    Success(Note(Note(moved, TransferRow(o.id, from, to, amount, db.wallets[from].currency)), AuditRow(WalletTransfer, o.id)))
  }

  /** `o.other` is the wallet that the receiver's number was found to denote. */
  function TransferMoney(db: DB, from: Id, user: Id, amount: nat, o: Oracle): Result<DB, Error> {
    if o.other.None? then Failure(ReceiverMissing)
    else if o.other.value == from then Failure(SameWallet)
    else
      var to := o.other.value;
      var mine := Refusal(Find(db.wallets, from), Some(user));
      var theirs := Refusal(Find(db.wallets, to), None);
      if mine.Some? then Failure(mine.value)
      else if theirs.Some? then Failure(theirs.value)
      else if db.wallets[from].currency != db.wallets[to].currency then Failure(CurrencyMismatch)
      else TransferBetween(db, from, to, amount, o)
  }

  function PayAMerchant(db: DB, merchant: Id, user: Id, amount: nat, o: Oracle): Result<DB, Error> {
    var closed := MerchantRefusal(o.merchant);
    if closed.Some? then Failure(closed.value)
    else if o.other.None? then Failure(WalletMissing)
    else
      var id := o.other.value;
      var refusal := Refusal(Find(db.wallets, id), Some(user));
      if refusal.Some? then Failure(refusal.value)
      else if !CanPost(db, id, MerchantPayment, amount) then Failure(Insufficient)
      else
        var posted := Post(db, id, MerchantPayment, amount, Some(o.id), o.at);
        Success(Note(Note(posted, PaymentRow(o.id, merchant, id, amount, db.wallets[id].currency)),
                     AuditRow(MerchantPaid, o.id)))
  }

  function SettleBetween(db: DB, request: Id, r: Request, from: Id, o: Oracle): Result<DB, Error>
    requires from != r.wallet
  {
    var moved :- Exchange(db, from, r.wallet, RequestOut, RequestIn, r.amount, request, o);
    Success(Note(SetRequest(moved, request, r.(status := Paid, payerWallet := Some(from))), AuditRow(RequestPaid, request)))
  }

  function ApproveRequest(db: DB, request: Id, from: Id, user: Id, email: string, o: Oracle): Result<DB, Error> {
    var row := Find(db.requests, request);
    var settled := RequestRefusal(row, email, db.cap);
    if settled.Some? then Failure(settled.value)
    else
      var r := row.value;
      var mine := Refusal(Find(db.wallets, from), Some(user));
      var theirs := Refusal(Find(db.wallets, r.wallet), None);
      if mine.Some? then Failure(mine.value)
      else if theirs.Some? then Failure(theirs.value)
      else if from == r.wallet then Failure(OwnRequest)
      else if db.wallets[from].currency != r.currency then Failure(CurrencyMismatch)
      else SettleBetween(db, request, r, from, o)
  }

  function AdminAdjust(db: DB, id: Id, up: bool, amount: nat, o: Oracle): Result<DB, Error> {
    var refusal := AdminRefusal(Find(db.wallets, id));
    var kind := if up then AdjustmentCredit else AdjustmentDebit;
    if refusal.Some? then Failure(refusal.value)
    else if !CanPost(db, id, kind, amount) then Failure(if up then OutOfRange else Insufficient)
    else Success(Note(Post(db, id, kind, amount, None, o.at), AuditRow(AdminAdjustment, id)))
  }

  function StatusChange(db: DB, id: Id, status: WalletStatus): Result<DB, Error> {
    var refusal := AdminRefusal(Find(db.wallets, id));
    if refusal.Some? then Failure(refusal.value)
    else if db.wallets[id].status == status then Failure(AlreadyInStatus)
    else Success(Note(db.(wallets := db.wallets[id := db.wallets[id].(status := status)]),
                      AuditRow(if status == Frozen then WalletFreeze else WalletUnfreeze, id)))
  }

  /** The one statement of `create`: its foreign key needs the wallet, its primary key a new id. */
  function NewRequest(id: Id, w: Wallet, payer: string, amount: nat): Request {
    Request(id, payer, None, amount, w.currency, Pending)
  }

  function OpenRequest(db: DB, id: Id, user: Id, email: string, payer: string, amount: nat, o: Oracle): Result<DB, Error> {
    if payer == email then Failure(OwnRequest)
    else
      var refusal := Refusal(o.seen, Some(user));
      if refusal.Some? then Failure(refusal.value)
      else if o.id in db.requests then Failure(DuplicateKey)
      else Success(SetRequest(db, o.id, NewRequest(id, o.seen.value, payer, amount)))
  }

  function Amended(r: Request, op: Op): Request {
    match op
    case UpdateRequest(_, _, amount) => r.(amount := amount)
    case CancelRequest(_, _) => r.(status := Cancelled)
    case DeclineRequest(_, _) => r.(status := Declined)
    case _ => r
  }

  function Amend(db: DB, op: Op): Result<DB, Error>
    requires op.UpdateRequest? || op.CancelRequest? || op.DeclineRequest?
  {
    var row := Find(db.requests, op.request);
    var may := if op.DeclineRequest? then PayerMay(row, op.email) else RequesterMay(db, row, op.user);
    if may then Success(SetRequest(db, op.request, Amended(row.value, op))) else Failure(RequestMissing)
  }

  /** Running one operation alone on `db`. */
  function Perform(op: Op, o: Oracle, db: DB): Result<DB, Error> {
    match op
    case Gateway(deposit, id, user, amount) => GatewayMovement(db, deposit, id, user, amount, o)
    case Transfer(from, _, user, amount) => TransferMoney(db, from, user, amount, o)
    case PayMerchant(merchant, _, user, amount) => PayAMerchant(db, merchant, user, amount, o)
    case Approve(request, from, user, email) => ApproveRequest(db, request, from, user, email, o)
    case Adjust(id, up, amount) => AdminAdjust(db, id, up, amount, o)
    case SetStatus(id, status) => StatusChange(db, id, status)
    case CreateRequest(id, user, email, payer, amount) => OpenRequest(db, id, user, email, payer, amount, o)
    case UpdateRequest(_, _, _) => Amend(db, op)
    case CancelRequest(_, _) => Amend(db, op)
    case DeclineRequest(_, _) => Amend(db, op)
  }

  /** Two versions of a wallet row: nothing updates the owner, the number, the currency or the creation time. */
  predicate SameWalletRow(a: Wallet, b: Wallet) {
    a.owner == b.owner && a.number == b.number && a.currency == b.currency && a.created == b.created
  }

  predicate OwnedBy(db: DB, id: Id, user: Id) {
    id in db.wallets && db.wallets[id].owner == user
  }

  /** ORDER BY created_at, id, with active wallets before the others. */
  predicate Prefers(db: DB, a: Id, b: Id)
    requires a in db.wallets && b in db.wallets
  {
    var x, y := db.wallets[a], db.wallets[b];
    if (x.status == Active) != (y.status == Active) then x.status == Active
    else x.created < y.created || (x.created == y.created && a <= b)
  }

  /** The first active wallet of the user, or the first of all when none is active. */
  predicate IsPrimary(db: DB, id: Id, user: Id) {
    OwnedBy(db, id, user) && forall other <- db.wallets :: OwnedBy(db, other, user) ==> Prefers(db, id, other)
  }

  lemma {:induction false} BestExists(db: DB, ids: set<Id>) returns (best: Id)
    requires ids != {} && ids <= db.wallets.Keys
    ensures best in ids && forall other <- ids :: Prefers(db, best, other)
  {
    var id :| id in ids;
    best := id;
    if ids != {id} {
      var rest := BestExists(db, ids - {id});
      best := if Prefers(db, id, rest) then id else rest;
      forall other <- ids ensures Prefers(db, best, other) {
        assert other == id || other in ids - {id};
      }
    }
  }

  /**
    The primary wallet is active if any of the user's is, and of those that are as
    active as it is the user has none that is older, or as old with a smaller id.
   */
  lemma PrimaryIsFirst(db: DB, id: Id, user: Id, other: Id)
    requires IsPrimary(db, id, user) && other in db.wallets && db.wallets[other].owner == user
    ensures id in db.wallets && db.wallets[id].owner == user
    ensures db.wallets[other].status == Active ==> db.wallets[id].status == Active
    ensures (db.wallets[other].status == Active) == (db.wallets[id].status == Active) ==>
      db.wallets[id].created < db.wallets[other].created
      || (db.wallets[id].created == db.wallets[other].created && id <= other)
  {
    assert OwnedBy(db, other, user);
  }

  /** A user with a wallet has a primary one. */
  lemma PrimaryExists(db: DB, user: Id)
    requires exists id <- db.wallets :: OwnedBy(db, id, user)
    ensures exists id <- db.wallets :: IsPrimary(db, id, user)
  {
    var ids := set id | id in db.wallets && OwnedBy(db, id, user);
    var one :| one in db.wallets && OwnedBy(db, one, user);
    assert one in ids;
    var best := BestExists(db, ids);
    assert IsPrimary(db, best, user);
  }

  /**
    The observations that decide which rows an operation touches are true of `db`.
    A wallet status or merchant status read without a lock may be out of date.
   */
  predicate Honest(op: Op, o: Oracle, db: DB) {
    match op
    case Transfer(_, number, _, _) => o.other.Some? ==> HasNumber(db, o.other.value, number)
    case PayMerchant(_, payFrom, user, _) =>
      if payFrom.Some? then o.other == payFrom
      else o.other.Some? ==> o.other.value in db.wallets && db.wallets[o.other.value].owner == user
    case CreateRequest(id, _, _, _, _) =>
      o.seen.Some? ==> id in db.wallets && SameWalletRow(o.seen.value, db.wallets[id])
    case _ => true
  }

  /** `walletModel.create`: a wallet starts empty and active, under a number nobody has. */
  predicate CanOpen(db: DB, id: Id, number: string) {
    id !in db.wallets && forall other <- db.wallets :: db.wallets[other].number != number
  }

  function Open(db: DB, id: Id, owner: Id, number: string, currency: string, created: nat): DB {
    db.(wallets := db.wallets[id := Wallet(owner, number, currency, 0, Active, created)])
  }
}

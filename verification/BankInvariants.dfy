/**
  What every operation keeps when it runs alone: the ledger is the exact history
  of every balance, money is conserved per currency, a payment request is settled
  at most once, and every stored number fits its column.
 */
module BankInvariants {
  import opened Prelude
  import opened Bank

  // ------------------------------------------------ the ledger as a history

  /** The net effect of the ledger on one wallet. */
  function SumOf(rows: seq<LedgerRow>, id: Id): int {
    if rows == [] then 0
    else
      var last := rows[|rows| - 1];
      SumOf(rows[..|rows| - 1], id) + if last.wallet == id then Signed(last) else 0
  }

  /** Every row's `balance_after` is the net effect of the ledger up to it. */
  predicate Exact(rows: seq<LedgerRow>) {
    rows == [] ||
    var last := rows[|rows| - 1];
    Exact(rows[..|rows| - 1]) && last.balanceAfter == SumOf(rows, last.wallet)
  }

  /** `created_at` increases along the rows of each wallet. */
  ghost predicate Stamped(rows: seq<LedgerRow>) {
    forall i, j :: 0 <= i < j < |rows| && rows[i].wallet == rows[j].wallet ==> rows[i].at < rows[j].at
  }

  ghost predicate Later(rows: seq<LedgerRow>, id: Id, at: nat) {
    forall i :: 0 <= i < |rows| && rows[i].wallet == id ==> rows[i].at < at
  }

  predicate RowOk(db: DB, row: LedgerRow) {
    && row.wallet in db.wallets
    && row.currency == db.wallets[row.wallet].currency
    && 1 <= row.amount <= MAX_CENTS
    && row.balanceAfter <= MAX_CENTS
  }

  ghost predicate LedgerOk(db: DB) {
    && Exact(db.ledger)
    && Stamped(db.ledger)
    && (forall i :: 0 <= i < |db.ledger| ==> RowOk(db, db.ledger[i]))
    && (forall id <- db.wallets :: db.wallets[id].balance == SumOf(db.ledger, id))
    && (forall id <- db.wallets :: db.wallets[id].balance <= MAX_CENTS)
  }

  // ------------------------------------------- movements between two wallets

  predicate Internal(kind: Kind) {
    kind.TransferIn? || kind.TransferOut? || kind.RequestIn? || kind.RequestOut?
  }

  /** The net effect, in one currency, of the rows whose kind is internal or is not. */
  function NetFlow(rows: seq<LedgerRow>, currency: string, internal: bool): int {
    if rows == [] then 0
    else
      var last := rows[|rows| - 1];
      NetFlow(rows[..|rows| - 1], currency, internal)
      + if last.currency == currency && Internal(last.kind) == internal then Signed(last) else 0
  }

  ghost predicate Balanced(rows: seq<LedgerRow>) {
    forall currency :: NetFlow(rows, currency, true) == 0
  }

  // -------------------------------------------------------- payment requests

  predicate Settles(row: LedgerRow, kind: Kind, request: Id) {
    row.kind == kind && row.ref == Some(request)
  }

  function Count(rows: seq<LedgerRow>, kind: Kind, request: Id): nat {
    if rows == [] then 0
    else Count(rows[..|rows| - 1], kind, request) + if Settles(rows[|rows| - 1], kind, request) then 1 else 0
  }

  predicate RequestOk(db: DB, r: Request) {
    && r.wallet in db.wallets
    && r.currency == db.wallets[r.wallet].currency
    && AmountOk(r.amount, db.cap)
    && (r.status == Paid <==> r.payerWallet.Some?)
  }

  /** A settlement row carries its request's final amount and moves it between its two wallets. */
  predicate SettlementOk(requests: map<Id, Request>, row: LedgerRow) {
    row.kind.RequestOut? || row.kind.RequestIn? ==>
      && row.ref.Some?
      && row.ref.value in requests
      && var r := requests[row.ref.value];
      r.status == Paid && row.amount == r.amount && row.currency == r.currency
      && (if row.kind.RequestOut? then r.payerWallet == Some(row.wallet) else row.wallet == r.wallet)
  }

  ghost predicate RequestsOk(db: DB) {
    && (forall id <- db.requests :: RequestOk(db, db.requests[id]))
    && (forall i :: 0 <= i < |db.ledger| ==> SettlementOk(db.requests, db.ledger[i]))
    && (forall id <- db.requests ::
          var n := if db.requests[id].status == Paid then 1 else 0;
          Count(db.ledger, RequestOut, id) == n && Count(db.ledger, RequestIn, id) == n)
  }

  ghost predicate NumbersUnique(db: DB) {
    forall a <- db.wallets, b <- db.wallets :: db.wallets[a].number == db.wallets[b].number ==> a == b
  }

  /** The invariant of the committed tables. */
  ghost predicate DbOk(db: DB) {
    LedgerOk(db) && Balanced(db.ledger) && RequestsOk(db) && NumbersUnique(db)
  }

  // ------------------------------------------------------------- preservation

  lemma SumAppend(rows: seq<LedgerRow>, row: LedgerRow, id: Id)
    ensures SumOf(rows + [row], id) == SumOf(rows, id) + if row.wallet == id then Signed(row) else 0
  {
    assert (rows + [row])[..|rows|] == rows;
  }

  lemma FlowAppend(rows: seq<LedgerRow>, row: LedgerRow, currency: string, internal: bool)
    ensures NetFlow(rows + [row], currency, internal) == NetFlow(rows, currency, internal)
            + if row.currency == currency && Internal(row.kind) == internal then Signed(row) else 0
  {
    assert (rows + [row])[..|rows|] == rows;
  }

  lemma CountAppend(rows: seq<LedgerRow>, row: LedgerRow, kind: Kind, request: Id)
    ensures Count(rows + [row], kind, request)
            == Count(rows, kind, request) + if Settles(row, kind, request) then 1 else 0
  {
    assert (rows + [row])[..|rows|] == rows;
  }

  lemma CountZero(rows: seq<LedgerRow>, kind: Kind, request: Id)
    requires forall i :: 0 <= i < |rows| ==> !Settles(rows[i], kind, request)
    ensures Count(rows, kind, request) == 0
  {
    if rows != [] {
      CountZero(rows[..|rows| - 1], kind, request);
    }
  }

  /** One leg keeps the ledger an exact history, whichever wallet it moves. */
  lemma PostKeepsLedger(db: DB, id: Id, kind: Kind, amount: nat, ref: Option<Id>, at: nat)
    requires LedgerOk(db) && CanPost(db, id, kind, amount) && 1 <= amount <= MAX_CENTS
    requires Later(db.ledger, id, at)
    ensures LedgerOk(Post(db, id, kind, amount, ref, at))
  {
    var after := Post(db, id, kind, amount, ref, at);
    var row := after.ledger[|db.ledger|];
    assert after.ledger[..|db.ledger|] == db.ledger;
    forall other <- after.wallets
      ensures after.wallets[other].balance == SumOf(after.ledger, other)
    {
      SumAppend(db.ledger, row, other);
    }
    forall i | 0 <= i < |after.ledger|
      ensures RowOk(after, after.ledger[i])
    {
      if i < |db.ledger| {
        assert RowOk(db, db.ledger[i]);
      }
    }
  }

  /** The columns of `wallets` that requests refer to. */
  ghost predicate SameOwners(a: map<Id, Wallet>, b: map<Id, Wallet>) {
    a.Keys == b.Keys && forall id <- a :: SameWalletRow(a[id], b[id])
  }

  /** Appending rows that settle no request leaves every request accounted for. */
  lemma AppendKeepsRequests(db: DB, after: DB, row: LedgerRow)
    requires RequestsOk(db) && after.requests == db.requests && after.cap == db.cap
    requires SameOwners(db.wallets, after.wallets)
    requires after.ledger == db.ledger + [row] && !row.kind.RequestOut? && !row.kind.RequestIn?
    ensures RequestsOk(after)
  {
    forall r <- after.requests
      ensures RequestOk(after, after.requests[r])
      ensures Count(after.ledger, RequestOut, r) == Count(db.ledger, RequestOut, r)
      ensures Count(after.ledger, RequestIn, r) == Count(db.ledger, RequestIn, r)
    {
      assert RequestOk(db, db.requests[r]);
      CountAppend(db.ledger, row, RequestOut, r);
      CountAppend(db.ledger, row, RequestIn, r);
    }
  }

  /** An operation that moves one wallet with a kind that is not internal. */
  lemma PostKeepsRest(db: DB, id: Id, kind: Kind, amount: nat, ref: Option<Id>, at: nat)
    requires DbOk(db) && CanPost(db, id, kind, amount) && 1 <= amount <= MAX_CENTS
    requires Later(db.ledger, id, at) && !Internal(kind)
    ensures DbOk(Post(db, id, kind, amount, ref, at))
  {
    var after := Post(db, id, kind, amount, ref, at);
    var row := after.ledger[|db.ledger|];
    PostKeepsLedger(db, id, kind, amount, ref, at);
    forall currency ensures NetFlow(after.ledger, currency, true) == 0 {
      FlowAppend(db.ledger, row, currency, true);
    }
    AppendKeepsRequests(db, after, row);
  }

  /** The two legs of a movement, when both wallets have the currency, cancel out. */
  lemma ExchangeKeepsLedger(db: DB, from: Id, to: Id, out: Kind, into: Kind, amount: nat, ref: Id, o: Oracle)
    requires LedgerOk(db) && Balanced(db.ledger) && NumbersUnique(db)
    requires !Incoming(out) && Incoming(into) && Internal(out) && Internal(into) && from != to
    requires 1 <= amount <= MAX_CENTS
    requires Later(db.ledger, from, o.at) && Later(db.ledger, to, o.at2)
    requires from in db.wallets && to in db.wallets && db.wallets[from].currency == db.wallets[to].currency
    requires Exchange(db, from, to, out, into, amount, ref, o).Success?
    ensures var after := Exchange(db, from, to, out, into, amount, ref, o).value;
            LedgerOk(after) && Balanced(after.ledger) && NumbersUnique(after)
  {
    var mid := Post(db, from, out, amount, Some(ref), o.at);
    var after := Post(mid, to, into, amount, Some(ref), o.at2);
    PostKeepsLedger(db, from, out, amount, Some(ref), o.at);
    PostKeepsLedger(mid, to, into, amount, Some(ref), o.at2);
    LegsCancel(db.ledger, mid.ledger[|db.ledger|], after.ledger[|mid.ledger|]);
  }

  /** Two internal rows in one currency, one out and one in, of one amount. */
  lemma LegsCancel(rows: seq<LedgerRow>, out: LedgerRow, into: LedgerRow)
    requires Balanced(rows) && Internal(out.kind) && Internal(into.kind) && !Incoming(out.kind) && Incoming(into.kind)
    requires out.amount == into.amount && out.currency == into.currency
    ensures Balanced(rows + [out] + [into])
  {
    forall currency ensures NetFlow(rows + [out] + [into], currency, true) == 0 {
      FlowAppend(rows, out, currency, true);
      FlowAppend(rows + [out], into, currency, true);
    }
  }

  /** The stamps an operation's ledger rows receive come after the rows of the wallets they move. */
  ghost predicate StampsLater(op: Op, o: Oracle, db: DB) {
    match op
    case Gateway(_, id, _, _) => Later(db.ledger, id, o.at)
    case Transfer(from, _, _, _) =>
      Later(db.ledger, from, o.at) && (o.other.Some? ==> Later(db.ledger, o.other.value, o.at2))
    case PayMerchant(_, _, _, _) => o.other.Some? ==> Later(db.ledger, o.other.value, o.at)
    case Approve(request, from, _, _) =>
      Later(db.ledger, from, o.at) && (request in db.requests ==> Later(db.ledger, db.requests[request].wallet, o.at2))
    case Adjust(id, _, _) => Later(db.ledger, id, o.at)
    case _ => true
  }

  lemma NoteKeeps(db: DB, entry: Entry)
    requires DbOk(db)
    ensures DbOk(Note(db, entry))
  {
    var after := Note(db, entry);
    assert forall i :: 0 <= i < |db.ledger| ==> RowOk(db, db.ledger[i]) ==> RowOk(after, after.ledger[i]);
    assert forall id <- db.requests :: RequestOk(db, db.requests[id]) ==> RequestOk(after, after.requests[id]);
  }

  /** A transfer's two rows leave every request accounted for. */
  lemma TransferKeepsRequests(db: DB, from: Id, to: Id, amount: nat, o: Oracle)
    requires RequestsOk(db) && from != to && Exchange(db, from, to, TransferOut, TransferIn, amount, o.id, o).Success?
    ensures RequestsOk(Exchange(db, from, to, TransferOut, TransferIn, amount, o.id, o).value)
  {
    var mid := Post(db, from, TransferOut, amount, Some(o.id), o.at);
    var after := Post(mid, to, TransferIn, amount, Some(o.id), o.at2);
    AppendKeepsRequests(db, mid, mid.ledger[|db.ledger|]);
    AppendKeepsRequests(mid, after, after.ledger[|mid.ledger|]);
  }

  lemma TransferKeeps(db: DB, from: Id, user: Id, amount: nat, o: Oracle)
    requires DbOk(db) && 1 <= amount <= MAX_CENTS
    requires Later(db.ledger, from, o.at) && (o.other.Some? ==> Later(db.ledger, o.other.value, o.at2))
    requires TransferMoney(db, from, user, amount, o).Success?
    ensures DbOk(TransferMoney(db, from, user, amount, o).value)
  {
    var to := o.other.value;
    var after := Exchange(db, from, to, TransferOut, TransferIn, amount, o.id, o).value;
    var entry := TransferRow(o.id, from, to, amount, db.wallets[from].currency);
    ExchangeKeepsLedger(db, from, to, TransferOut, TransferIn, amount, o.id, o);
    TransferKeepsRequests(db, from, to, amount, o);
    NoteKeeps(after, entry);
    NoteKeeps(Note(after, entry), AuditRow(WalletTransfer, o.id));
  }

  /** The two rows of an approval account for exactly the request they settle. */
  lemma SettleCounts(rows: seq<LedgerRow>, out: LedgerRow, into: LedgerRow, request: Id, id: Id)
    requires Settles(out, RequestOut, request) && Settles(into, RequestIn, request)
    ensures var n := if id == request then 1 else 0;
            && Count(rows + [out] + [into], RequestOut, id) == Count(rows, RequestOut, id) + n
            && Count(rows + [out] + [into], RequestIn, id) == Count(rows, RequestIn, id) + n
  {
    CountAppend(rows, out, RequestOut, id);
    CountAppend(rows, out, RequestIn, id);
    CountAppend(rows + [out], into, RequestOut, id);
    CountAppend(rows + [out], into, RequestIn, id);
  }

  lemma SettleKeepsRequests(db: DB, after: DB, request: Id, paid: Request, out: LedgerRow, into: LedgerRow)
    requires RequestsOk(db) && SameOwners(db.wallets, after.wallets) && after.cap == db.cap
    requires request in db.requests && db.requests[request].status == Pending
    requires RequestOk(after, paid) && paid.status == Paid
    requires after.requests == db.requests[request := paid] && after.ledger == db.ledger + [out] + [into]
    requires Settles(out, RequestOut, request) && Settles(into, RequestIn, request)
    requires SettlementOk(after.requests, out) && SettlementOk(after.requests, into)
    ensures RequestsOk(after)
  {
    forall id <- after.requests
      ensures RequestOk(after, after.requests[id])
      ensures var n := if after.requests[id].status == Paid then 1 else 0;
              Count(after.ledger, RequestOut, id) == n && Count(after.ledger, RequestIn, id) == n
    {
      assert id in db.requests && RequestOk(db, db.requests[id]);
      SettleCounts(db.ledger, out, into, request, id);
    }
    forall i | 0 <= i < |after.ledger| ensures SettlementOk(after.requests, after.ledger[i]) {
      if i < |db.ledger| {
        assert after.ledger[i] == db.ledger[i] && SettlementOk(db.requests, db.ledger[i]);
      }
    }
  }

  /**
    Approval compares only the payer's currency with the request's; that the
    requester's wallet has that currency too is the invariant of the request.
   */
  lemma SettleKeeps(db: DB, request: Id, from: Id, o: Oracle)
    requires DbOk(db) && request in db.requests && db.requests[request].status == Pending
    requires Later(db.ledger, from, o.at) && Later(db.ledger, db.requests[request].wallet, o.at2)
    requires var r := db.requests[request];
             && from in db.wallets && from != r.wallet && db.wallets[from].currency == r.currency
             && Exchange(db, from, r.wallet, RequestOut, RequestIn, r.amount, request, o).Success?
    ensures var r := db.requests[request];
            var moved := Exchange(db, from, r.wallet, RequestOut, RequestIn, r.amount, request, o).value;
            DbOk(SetRequest(moved, request, r.(status := Paid, payerWallet := Some(from))))
  {
    var r := db.requests[request];
    assert RequestOk(db, r);
    var moved := Exchange(db, from, r.wallet, RequestOut, RequestIn, r.amount, request, o).value;
    ExchangeKeepsLedger(db, from, r.wallet, RequestOut, RequestIn, r.amount, request, o);
    ExchangeKeepsRequests(db, request, from, o);
    SameLedger(moved, SetRequest(moved, request, r.(status := Paid, payerWallet := Some(from))));
  }

  lemma ExchangeKeepsRequests(db: DB, request: Id, from: Id, o: Oracle)
    requires RequestsOk(db) && request in db.requests && db.requests[request].status == Pending
    requires var r := db.requests[request];
             && from in db.wallets && from != r.wallet && db.wallets[from].currency == r.currency
             && Exchange(db, from, r.wallet, RequestOut, RequestIn, r.amount, request, o).Success?
    ensures var r := db.requests[request];
            var moved := Exchange(db, from, r.wallet, RequestOut, RequestIn, r.amount, request, o).value;
            RequestsOk(SetRequest(moved, request, r.(status := Paid, payerWallet := Some(from))))
  {
    var r := db.requests[request];
    assert RequestOk(db, r);
    var mid := Post(db, from, RequestOut, r.amount, Some(request), o.at);
    var moved := Post(mid, r.wallet, RequestIn, r.amount, Some(request), o.at2);
    var paid := r.(status := Paid, payerWallet := Some(from));
    SettleKeepsRequests(db, SetRequest(moved, request, paid), request, paid, mid.ledger[|db.ledger|], moved.ledger[|mid.ledger|]);
  }

  lemma ApproveKeeps(db: DB, request: Id, from: Id, user: Id, email: string, o: Oracle)
    requires DbOk(db) && StampsLater(Approve(request, from, user, email), o, db)
    requires ApproveRequest(db, request, from, user, email, o).Success?
    ensures DbOk(ApproveRequest(db, request, from, user, email, o).value)
  {
    var r := db.requests[request];
    SettleKeeps(db, request, from, o);
    var moved := Exchange(db, from, r.wallet, RequestOut, RequestIn, r.amount, request, o).value;
    NoteKeeps(SetRequest(moved, request, r.(status := Paid, payerWallet := Some(from))), AuditRow(RequestPaid, request));
  }

  lemma SameLedger(db: DB, after: DB)
    requires LedgerOk(db) && after.ledger == db.ledger && after.wallets == db.wallets
    ensures LedgerOk(after)
  {
    forall i | 0 <= i < |after.ledger| ensures RowOk(after, after.ledger[i]) {
      assert RowOk(db, db.ledger[i]);
    }
  }

  lemma AmendKeeps(db: DB, op: Op)
    requires op.UpdateRequest? || op.CancelRequest? || op.DeclineRequest?
    requires DbOk(db) && OpOk(op, db.cap) && Amend(db, op).Success?
    ensures DbOk(Amend(db, op).value)
  {
    var after := Amend(db, op).value;
    assert db.requests[op.request].status == Pending;
    forall id <- after.requests ensures RequestOk(after, after.requests[id]) {
      assert RequestOk(db, db.requests[id]);
    }
    forall i | 0 <= i < |after.ledger|
      ensures SettlementOk(after.requests, after.ledger[i]) && RowOk(after, after.ledger[i])
    {
      assert SettlementOk(db.requests, db.ledger[i]) && RowOk(db, db.ledger[i]);
    }
  }

  lemma OpenRequestKeeps(db: DB, op: Op, o: Oracle)
    requires op.CreateRequest? && DbOk(db) && OpOk(op, db.cap) && Honest(op, o, db)
    requires Perform(op, o, db).Success?
    ensures DbOk(Perform(op, o, db).value)
  {
    var after := Perform(op, o, db).value;
    forall id <- after.requests ensures RequestOk(after, after.requests[id]) {
      assert id in db.requests ==> RequestOk(db, db.requests[id]);
    }
    forall i | 0 <= i < |after.ledger|
      ensures SettlementOk(after.requests, after.ledger[i]) && RowOk(after, after.ledger[i])
      ensures !Settles(after.ledger[i], RequestOut, o.id) && !Settles(after.ledger[i], RequestIn, o.id)
    {
      assert SettlementOk(db.requests, db.ledger[i]) && RowOk(db, db.ledger[i]);
    }
    CountZero(db.ledger, RequestOut, o.id);
    CountZero(db.ledger, RequestIn, o.id);
  }

  lemma StatusKeeps(db: DB, id: Id, status: WalletStatus)
    requires DbOk(db) && StatusChange(db, id, status).Success?
    ensures DbOk(StatusChange(db, id, status).value)
  {
    var after := StatusChange(db, id, status).value;
    forall r <- after.requests ensures RequestOk(after, after.requests[r]) {
      assert RequestOk(db, db.requests[r]);
    }
    forall i | 0 <= i < |after.ledger| ensures RowOk(after, after.ledger[i]) {
      assert RowOk(db, db.ledger[i]);
    }
  }

  lemma GatewayKeeps(db: DB, deposit: bool, id: Id, user: Id, amount: nat, o: Oracle)
    requires DbOk(db) && 1 <= amount <= MAX_CENTS && Later(db.ledger, id, o.at)
    requires GatewayMovement(db, deposit, id, user, amount, o).Success?
    ensures DbOk(GatewayMovement(db, deposit, id, user, amount, o).value)
  {
    var kind := if deposit then TopUp else Withdrawal;
    var posted := Post(db, id, kind, amount, Some(o.id), o.at);
    var entry := GatewayRow(o.id, id, kind, amount, db.wallets[id].currency);
    PostKeepsRest(db, id, kind, amount, Some(o.id), o.at);
    NoteKeeps(posted, entry);
    NoteKeeps(Note(posted, entry), AuditRow(if deposit then WalletTopUp else WalletWithdraw, id));
  }

  lemma PayMerchantKeeps(db: DB, merchant: Id, user: Id, amount: nat, o: Oracle)
    requires DbOk(db) && 1 <= amount <= MAX_CENTS && (o.other.Some? ==> Later(db.ledger, o.other.value, o.at))
    requires PayAMerchant(db, merchant, user, amount, o).Success?
    ensures DbOk(PayAMerchant(db, merchant, user, amount, o).value)
  {
    var id := o.other.value;
    var posted := Post(db, id, MerchantPayment, amount, Some(o.id), o.at);
    var entry := PaymentRow(o.id, merchant, id, amount, db.wallets[id].currency);
    PostKeepsRest(db, id, MerchantPayment, amount, Some(o.id), o.at);
    NoteKeeps(posted, entry);
    NoteKeeps(Note(posted, entry), AuditRow(MerchantPaid, o.id));
  }

  lemma AdjustKeeps(db: DB, id: Id, up: bool, amount: nat, o: Oracle)
    requires DbOk(db) && 1 <= amount <= MAX_CENTS && Later(db.ledger, id, o.at)
    requires AdminAdjust(db, id, up, amount, o).Success?
    ensures DbOk(AdminAdjust(db, id, up, amount, o).value)
  {
    var kind := if up then AdjustmentCredit else AdjustmentDebit;
    PostKeepsRest(db, id, kind, amount, None, o.at);
    NoteKeeps(Post(db, id, kind, amount, None, o.at), AuditRow(AdminAdjustment, id));
  }

  /** Every operation keeps the invariant of the tables. */
  lemma PerformKeeps(op: Op, o: Oracle, db: DB)
    requires DbOk(db) && OpOk(op, db.cap) && Honest(op, o, db) && StampsLater(op, o, db)
    requires Perform(op, o, db).Success?
    ensures DbOk(Perform(op, o, db).value)
  {
    match op
    case Gateway(deposit, id, user, amount) => GatewayKeeps(db, deposit, id, user, amount, o);
    case Transfer(from, _, user, amount) => TransferKeeps(db, from, user, amount, o);
    case PayMerchant(merchant, _, user, amount) => PayMerchantKeeps(db, merchant, user, amount, o);
    case Approve(request, from, user, email) => ApproveKeeps(db, request, from, user, email, o);
    case Adjust(id, up, amount) => AdjustKeeps(db, id, up, amount, o);
    case SetStatus(id, status) => StatusKeeps(db, id, status);
    case CreateRequest(_, _, _, _, _) => OpenRequestKeeps(db, op, o);
    case UpdateRequest(_, _, _) => AmendKeeps(db, op);
    case CancelRequest(_, _) => AmendKeeps(db, op);
    case DeclineRequest(_, _) => AmendKeeps(db, op);
  }

  lemma SumZero(rows: seq<LedgerRow>, id: Id)
    requires forall i :: 0 <= i < |rows| ==> rows[i].wallet != id
    ensures SumOf(rows, id) == 0
  {
    if rows != [] {
      SumZero(rows[..|rows| - 1], id);
    }
  }

  lemma OpenKeeps(db: DB, id: Id, owner: Id, number: string, currency: string, created: nat)
    requires DbOk(db) && CanOpen(db, id, number)
    ensures DbOk(Open(db, id, owner, number, currency, created))
  {
    var after := Open(db, id, owner, number, currency, created);
    forall i | 0 <= i < |after.ledger| ensures RowOk(after, after.ledger[i]) && after.ledger[i].wallet != id {
      assert RowOk(db, db.ledger[i]);
    }
    SumZero(db.ledger, id);
    forall r <- after.requests ensures RequestOk(after, after.requests[r]) {
      assert RequestOk(db, db.requests[r]);
    }
  }
}

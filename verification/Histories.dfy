/**
  Every run read back from its commits: each event was within its caller's rights, and
  the wallets and payment requests are what the events made of them.
 */
module Histories {
  import opened Prelude
  import opened Bank
  import opened BankInvariants
  import opened Effects
  import opened Programs
  import opened Locking
  import opened Interleaving
  import opened Serialisability
  import Sessions

  /** The tables after the first `i` commits. */
  ghost function TablesAt(cap: int, history: seq<Event>, i: nat): Option<DB>
    requires i <= |history|
  {
    Serial(Init(cap).db, history[..i])
  }

  lemma {:induction false} SerialPrefix(db: DB, events: seq<Event>, i: nat)
    requires Serial(db, events).Some? && i <= |events|
    ensures Serial(db, events[..i]).Some?
  {
    if i == |events| {
      assert events[..i] == events;
    } else {
      var n := |events| - 1;
      SerialPrefix(db, events[..n], i);
      assert events[..n][..i] == events[..i];
    }
  }

  /**
    In every run, every committed operation was within its caller's rights on the
    tables it was committed on.
   */
  lemma EveryEventIsAuthorised(cap: int, steps: seq<Step>, i: nat)
    requires Runs(Init(cap), steps) && i < |After(Init(cap), steps).history| && After(Init(cap), steps).history[i].Ran?
    ensures var history := After(Init(cap), steps).history;
            var before, after := TablesAt(cap, history, i), TablesAt(cap, history, i + 1);
            before.Some? && after.Some? && Authorised(history[i].op, history[i].oracle, before.value, after.value)
  {
    var history := After(Init(cap), steps).history;
    EveryRunIsSerial(cap, steps);
    SerialPrefix(Init(cap).db, history, i);
    SerialPrefix(Init(cap).db, history, i + 1);
    assert history[..i + 1][..i] == history[..i];
    PerformIsAuthorised(history[i].op, history[i].oracle, TablesAt(cap, history, i).value);
  }

  // ------------------------------------------------------------------- refusals

  /** The rows that a call asked to lock and did not find. */
  function Missed(op: Op, cap: int, got: seq<Answer>): set<Row> {
    set i | 0 <= i < |got| && Next(op, cap, got, i).Do? && Next(op, cap, got, i).stmt.LockRow? && !Hit(got[i])
          :: Next(op, cap, got, i).stmt.row
  }

  /** If none of them has appeared since, every lock answered what it would answer now. */
  lemma LocksAreExact(op: Op, db: DB, got: seq<Answer>)
    requires Explains(op, db, got) && forall row <- Missed(op, db.cap, got) :: !Exists(db, row)
    ensures Sessions.Undisturbed(op, db, got)
  {
    forall i: nat | i < |got| ensures Sessions.ExactAt(op, db, got, i) {
      ExplainedAt(op, db, got, i);
      var s := Next(op, db.cap, got, i).stmt;
      if s.LockRow? && !Hit(got[i]) {
        assert s.row in Missed(op, db.cap, got);
        ViewWritesOnlyLocked(op, db, got, i);
      }
    }
  }

  /**
    In every run, an error that a transaction throws is the error that the operation
    meets on the committed tables at that moment, whatever has been committed since it
    began, with what the call
    read without locks as its observations; it is outdated only if a row that it asked
    for and did not find exists by now.
   */
  lemma EveryRefusalIsCurrent(cap: int, steps: seq<Step>, call: nat)
    requires Runs(Init(cap), steps) && Can(After(Init(cap), steps), Throw(call))
    requires var s := After(Init(cap), steps);
             && InTransaction(s.calls[call].op)
             && forall row <- Missed(s.calls[call].op, cap, s.calls[call].got) :: !Exists(s.db, row)
    ensures var s := After(Init(cap), steps);
            var o := Sessions.RefusalOracle(s.calls[call].op, s.calls[call].got);
            Honest(s.calls[call].op, o, s.db) && Perform(s.calls[call].op, o, s.db) == Failure(ActionOf(s, call).error)
  {
    var s := After(Init(cap), steps);
    var c := s.calls[call];
    InitInv(cap);
    RunRefines(Init(cap).db, Init(cap), steps);
    assert CallOk(s, call);
    LocksAreExact(c.op, s.db, c.got);
    Sessions.RefusalOnTables(c.op, s.db, c.got, ActionOf(s, call).error);
    if |c.got| > 0 { ExplainedAt(c.op, s.db, c.got, 0); }
    if |c.got| > 1 { ExplainedAt(c.op, s.db, c.got, 1); }
  }

  // ------------------------------------------------------------------- requests

  /** What one event makes of the request `id`. */
  function RequestAfter(r: Option<Request>, e: Event, id: Id): Option<Request> {
    if e.Opened? then r
    else
      match e.op
      case CreateRequest(wallet, _, _, payer, amount) =>
        if e.oracle.id == id && e.oracle.seen.Some?
        then Some(Request(wallet, payer, None, amount, e.oracle.seen.value.currency, Pending)) else r
      case UpdateRequest(request, _, amount) =>
        if request == id && r.Some? then Some(Request(r.value.wallet, r.value.payer, None, amount, r.value.currency, Pending)) else r
      case CancelRequest(request, _) =>
        if request == id && r.Some? then Some(Request(r.value.wallet, r.value.payer, None, r.value.amount, r.value.currency, Cancelled)) else r
      case DeclineRequest(request, _) =>
        if request == id && r.Some? then Some(Request(r.value.wallet, r.value.payer, None, r.value.amount, r.value.currency, Declined)) else r
      case Approve(request, from, _, _) =>
        if request == id && r.Some? then Some(Request(r.value.wallet, r.value.payer, Some(from), r.value.amount, r.value.currency, Paid)) else r
      case _ => r
  }

  /** The request as its creation and the later edits, cancellation, decline or approval leave it. */
  function RequestFrom(events: seq<Event>, id: Id): Option<Request> {
    if events == [] then None
    else RequestAfter(RequestFrom(events[..|events| - 1], id), events[|events| - 1], id)
  }

  /** A pending request has no payer wallet. */
  ghost predicate PendingUnpaid(db: DB) {
    forall id <- db.requests :: db.requests[id].status == Pending ==> db.requests[id].payerWallet == None
  }

  lemma EventMakesRequest(db: DB, e: Event, id: Id)
    requires PendingUnpaid(db) && Replayed(db, e).Some?
    ensures Find(Replayed(db, e).value.requests, id) == RequestAfter(Find(db.requests, id), e, id)
    ensures PendingUnpaid(Replayed(db, e).value)
  {
    if e.Ran? {
      match e.op
      case Approve(request, from, user, email) => ApprovalEffect(db, request, from, user, email, e.oracle);
      case CreateRequest(wallet, user, email, payer, amount) => CreateEffect(db, wallet, user, email, payer, amount, e.oracle);
      case UpdateRequest(_, _, _) => AmendEffect(db, e.op, e.oracle);
      case CancelRequest(_, _) => AmendEffect(db, e.op, e.oracle);
      case DeclineRequest(_, _) => AmendEffect(db, e.op, e.oracle);
      case _ => MoneyLeavesRequests(db, e.op, e.oracle);
    }
  }

  lemma MoneyLeavesRequests(db: DB, op: Op, o: Oracle)
    requires (op.Gateway? || op.Transfer? || op.PayMerchant? || op.Adjust? || op.SetStatus?) && Perform(op, o, db).Success?
    ensures Perform(op, o, db).value.requests == db.requests
  {
  }

  lemma {:induction false} SerialRequests(db: DB, events: seq<Event>, id: Id)
    requires db.requests == map[] && Serial(db, events).Some?
    ensures Find(Serial(db, events).value.requests, id) == RequestFrom(events, id) && PendingUnpaid(Serial(db, events).value)
  {
    if events != [] {
      var n := |events| - 1;
      SerialRequests(db, events[..n], id);
      EventMakesRequest(Serial(db, events[..n]).value, events[n], id);
    }
  }

  /**
    In every reachable state each payment request is exactly what its history makes of
    it: the wallet, payer and currency of its creation, the amount of its creation or
    last edit, and the status and payer wallet of what settled it.
   */
  lemma EveryRequestIsItsHistory(cap: int, steps: seq<Step>, id: Id)
    requires Runs(Init(cap), steps)
    ensures var end := After(Init(cap), steps); Find(end.db.requests, id) == RequestFrom(end.history, id)
  {
    EveryRunIsSerial(cap, steps);
    SerialRequests(Init(cap).db, After(Init(cap), steps).history, id);
  }

  // -------------------------------------------------------------------- wallets

  /** What one event makes of a wallet but for its balance, which is set aside as zero. */
  function WalletAfter(w: Option<Wallet>, e: Event, id: Id): Option<Wallet> {
    match e
    case Opened(wallet, owner, number, currency, created) =>
      if wallet == id then Some(Wallet(owner, number, currency, 0, Active, created)) else w
    case Ran(_, op, _) =>
      if op.SetStatus? && op.wallet == id && w.Some?
      then Some(Wallet(w.value.owner, w.value.number, w.value.currency, 0, op.status, w.value.created)) else w
  }

  function WalletFrom(events: seq<Event>, id: Id): Option<Wallet> {
    if events == [] then None
    else WalletAfter(WalletFrom(events[..|events| - 1], id), events[|events| - 1], id)
  }

  function Emptied(w: Option<Wallet>): Option<Wallet> {
    if w.None? then None
    else Some(Wallet(w.value.owner, w.value.number, w.value.currency, 0, w.value.status, w.value.created))
  }

  lemma EventMakesWallet(db: DB, e: Event, id: Id)
    requires Replayed(db, e).Some?
    ensures Emptied(Find(Replayed(db, e).value.wallets, id)) == WalletAfter(Emptied(Find(db.wallets, id)), e, id)
  {
    if e.Ran? {
      PerformIsAuthorised(e.op, e.oracle, db);
      if e.op.SetStatus? {
        StatusEffect(db, e.op.wallet, e.op.status, e.oracle);
      }
    }
  }

  lemma {:induction false} SerialWallets(db: DB, events: seq<Event>, id: Id)
    requires db.wallets == map[] && Serial(db, events).Some?
    ensures Emptied(Find(Serial(db, events).value.wallets, id)) == WalletFrom(events, id)
  {
    if events != [] {
      var n := |events| - 1;
      SerialWallets(db, events[..n], id);
      EventMakesWallet(Serial(db, events[..n]).value, events[n], id);
    }
  }

  /**
    In every reachable state each wallet has the owner, number, currency and creation
    time it was opened with and the status it was last given; its balance is the net
    effect of its ledger rows.
   */
  lemma EveryWalletIsItsHistory(cap: int, steps: seq<Step>, id: Id)
    requires Runs(Init(cap), steps)
    ensures var end := After(Init(cap), steps);
            && Emptied(Find(end.db.wallets, id)) == WalletFrom(end.history, id)
            && (id in end.db.wallets ==> end.db.wallets[id].balance == SumOf(end.db.ledger, id))
  {
    EveryRunIsSerial(cap, steps);
    SerialWallets(Init(cap).db, After(Init(cap), steps).history, id);
  }
}

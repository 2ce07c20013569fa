/**
  Any number of calls running their programs against one database, statement by
  statement.  A row lock is taken with `FOR UPDATE` and kept to the end of the
  transaction; a transaction's writes are private until it commits; a transaction
  may break at any point and be retried.
 */
module Interleaving {
  import opened Prelude
  import opened Bank
  import opened BankInvariants
  import opened Programs
  import opened Locking

  datatype Phase = Running | Committed | Failed

  datatype Call = Call(op: Op, got: seq<Answer>, attempt: nat, phase: Phase)

  datatype Event =
    | Ran(call: nat, op: Op, oracle: Oracle)
    | Opened(id: Id, owner: Id, number: string, currency: string, created: nat)

  /** `history` records commits in the order they happen. */
  datatype State = State(db: DB, calls: map<nat, Call>, locks: map<Row, nat>, clock: nat, history: seq<Event>)

  datatype Step =
    | Submit(call: nat, op: Op)
    | Execute(call: nat, answer: Answer)
    | DoCommit(call: nat)
    | DoInsert(call: nat, id: Id)
    | Throw(call: nat)
    | Break(call: nat, retryable: bool)
    | OpenWallet(id: Id, owner: Id, number: string, currency: string, created: nat)

  function Init(cap: int): State {
    State(DB(map[], map[], [], [], cap), map[], map[], 0, [])
  }

  // -------------------------------------------------------------------- steps

  predicate IsRunning(s: State, call: nat) {
    call in s.calls && s.calls[call].phase == Running
  }

  function ActionOf(s: State, call: nat): Action
    requires call in s.calls
  {
    var c := s.calls[call];
    Next(c.op, s.db.cap, c.got, |c.got|)
  }

  function ViewOf(s: State, call: nat): DB
    requires call in s.calls
  {
    var c := s.calls[call];
    View(c.op, s.db, c.got, |c.got|)
  }

  function HeldBy(s: State, call: nat): set<Row>
    requires call in s.calls
  {
    var c := s.calls[call];
    Held(c.op, s.db.cap, c.got, |c.got|)
  }

  /** The answer the database gives now: `v` is what the asking transaction sees. */
  ghost predicate Truthful(s: Stmt, v: DB, clock: nat, a: Answer) {
    match s
    case LockRow(row) =>
      (match row
       case WalletRow(id) => a == WalletIs(Find(v.wallets, id))
       case RequestRow(id) => a == RequestIs(Find(v.requests, id)))
    case FindNumber(number) =>
      && a.Found?
      && (a.found.Some? ==> HasNumber(v, a.found.value, number))
      && (a.found.None? ==> forall id <- v.wallets :: v.wallets[id].number != number)
    case ReadMerchant(_) => a.MerchantIs?
    case ListWallets(user) =>
      && a.Found?
      && (a.found.Some? ==> IsPrimary(v, a.found.value, user))
      && (a.found.None? ==> forall id <- v.wallets :: !OwnedBy(v, id, user))
    case ReadWallet(id) => a == WalletIs(Find(v.wallets, id))
    case LogTx(_, _, _, _, _) => Stable(s, v, a) && a.row.at == clock
    case _ => Stable(s, v, a)
  }

  /** Nobody else holds the row. */
  predicate Grantable(s: State, row: Row, call: nat) {
    row in s.locks ==> s.locks[row] == call
  }

  /** The operations that insert a row with a generated id, which their ledger rows refer to. */
  predicate Booked(op: Op) {
    op.Gateway? || op.Transfer? || op.PayMerchant?
  }

  /** The ids of committed rows of `gateway_transactions`, `transfers` and `merchant_payments`. */
  function HistoryIds(history: seq<Event>): set<Id> {
    set i | 0 <= i < |history| && history[i].Ran? && Booked(history[i].op) :: history[i].oracle.id
  }

  /** The ids that a transaction has inserted so far. */
  function InsertedIds(got: seq<Answer>): set<Id> {
    set i | 0 <= i < |got| && got[i].Inserted? && !got[i].entry.AuditRow? :: got[i].entry.id
  }

  function IdsInUse(s: State): set<Id> {
    HistoryIds(s.history) + set call, id | call in s.calls && id in InsertedIds(s.calls[call].got) :: id
  }

  ghost predicate Can(s: State, step: Step) {
    match step
    case Submit(call, op) => call !in s.calls && OpOk(op, s.db.cap)
    case Execute(call, a) =>
      && IsRunning(s, call)
      && ActionOf(s, call).Do?
      && var stmt := ActionOf(s, call).stmt;
      && Truthful(stmt, ViewOf(s, call), s.clock, a)
      && (stmt.LockRow? && Hit(a) ==> Grantable(s, stmt.row, call))
      && (a.Inserted? && !a.entry.AuditRow? ==> a.entry.id !in IdsInUse(s))
    case DoCommit(call) => IsRunning(s, call) && ActionOf(s, call) == Commit
    case DoInsert(call, id) => IsRunning(s, call) && ActionOf(s, call).AutoInsert? && id !in s.db.requests
    case Throw(call) => IsRunning(s, call) && ActionOf(s, call).Abort?
    case Break(call, _) => IsRunning(s, call)
    case OpenWallet(id, _, number, _, _) => CanOpen(s.db, id, number)
  }

  function Without(locks: map<Row, nat>, call: nat): map<Row, nat> {
    map row | row in locks && locks[row] != call :: locks[row]
  }

  /** What remains of a call whose transaction ended. */
  function Finish(s: State, call: nat, phase: Phase): State
    requires call in s.calls
  {
    s.(calls := s.calls[call := s.calls[call].(phase := phase)], locks := Without(s.locks, call))
  }

  function InsertOracle(got: seq<Answer>, id: Id): Oracle {
    Oracle(None, None, if |got| > 0 then WalletAt(got, 0) else None, id, 0, 0)
  }

  ghost function Take(s: State, step: Step): State
    requires Can(s, step)
  {
    match step
    case Submit(call, op) => s.(calls := s.calls[call := Call(op, [], 0, Running)])
    case Execute(call, a) =>
      var c := s.calls[call];
      var stmt := ActionOf(s, call).stmt;
      s.(calls := s.calls[call := c.(got := c.got + [a])],
         locks := if stmt.LockRow? && Hit(a) then s.locks[stmt.row := call] else s.locks,
         clock := if a.Logged? then s.clock + 1 else s.clock)
    case DoCommit(call) =>
      var c := s.calls[call];
      Finish(s, call, Committed).(db := ViewOf(s, call), history := s.history + [Ran(call, c.op, OracleOf(c.op, c.got))])
    case DoInsert(call, id) =>
      var c := s.calls[call];
      Finish(s, call, Committed).(db := SetRequest(s.db, id, ActionOf(s, call).request),
                                  history := s.history + [Ran(call, c.op, InsertOracle(c.got, id))])
    case Throw(call) => Finish(s, call, Failed)
    case Break(call, retryable) =>
      var c := s.calls[call];
      if retryable && InTransaction(c.op) && c.attempt < MAX_RETRIES
      then s.(calls := s.calls[call := Call(c.op, [], c.attempt + 1, Running)], locks := Without(s.locks, call))
      else Finish(s, call, Failed)
    case OpenWallet(id, owner, number, currency, created) =>
      s.(db := Open(s.db, id, owner, number, currency, created),
         history := s.history + [Opened(id, owner, number, currency, created)])
  }

  // --------------------------------------------------------------- the invariant

  ghost predicate StampsOk(s: State, c: Call) {
    forall i :: 0 <= i < |c.got| && c.got[i].Logged? ==>
      c.got[i].row.at < s.clock && Later(s.db.ledger, c.got[i].row.wallet, c.got[i].row.at)
  }

  ghost predicate CallOk(s: State, call: nat)
    requires call in s.calls
  {
    var c := s.calls[call];
    && OpOk(c.op, s.db.cap)
    && Explains(c.op, s.db, c.got)
    && StampsOk(s, c)
    && (forall row <- HeldBy(s, call) :: row in s.locks && s.locks[row] == call)
  }

  ghost predicate LocksOk(s: State) {
    forall row <- s.locks :: IsRunning(s, s.locks[row]) && row in HeldBy(s, s.locks[row])
  }

  ghost predicate ClockOk(s: State) {
    forall i :: 0 <= i < |s.db.ledger| ==> s.db.ledger[i].at < s.clock
  }

  ghost predicate Inv(s: State) {
    && DbOk(s.db)
    && ClockOk(s)
    && LocksOk(s)
    && forall call <- s.calls :: IsRunning(s, call) ==> CallOk(s, call)
  }

  lemma InitInv(cap: int)
    ensures Inv(Init(cap))
  {
  }

  lemma TruthfulIsStable(stmt: Stmt, v: DB, clock: nat, a: Answer)
    requires Truthful(stmt, v, clock, a)
    ensures Stable(stmt, v, a)
  {
  }

  /** A call that stays as it was, over tables that kept every row it holds. */
  lemma BystanderKeeps(s: State, t: State, call: nat)
    requires IsRunning(s, call) && CallOk(s, call) && RequestersExist(s.db)
    requires call in t.calls && t.calls[call] == s.calls[call] && t.clock >= s.clock
    requires Agree(s.db, t.db, HeldBy(s, call))
    requires forall row <- HeldBy(s, call) :: row in t.locks && t.locks[row] == call
    requires forall i :: 0 <= i < |t.db.ledger| ==>
      (i < |s.db.ledger| && t.db.ledger[i] == s.db.ledger[i]) || WalletRow(t.db.ledger[i].wallet) !in HeldBy(s, call)
    ensures CallOk(t, call)
  {
    var c := s.calls[call];
    ExplainsFramed(c.op, s.db, t.db, c.got);
    forall i | 0 <= i < |c.got| && c.got[i].Logged?
      ensures Later(t.db.ledger, c.got[i].row.wallet, c.got[i].row.at)
    {
      LoggedIsLocked(c.op, s.db, c.got, i);
    }
  }

  lemma DbOkRequesters(db: DB)
    requires DbOk(db)
    ensures RequestersExist(db)
  {
    forall id <- db.requests ensures db.requests[id].wallet in db.wallets {
      assert RequestOk(db, db.requests[id]);
    }
  }

  lemma SameDbBystander(s: State, t: State, call: nat)
    requires DbOk(s.db) && IsRunning(s, call) && CallOk(s, call) && t.db == s.db && t.clock >= s.clock
    requires call in t.calls && t.calls[call] == s.calls[call]
    requires forall row <- HeldBy(s, call) :: row in t.locks && t.locks[row] == call
    ensures CallOk(t, call)
  {
    DbOkRequesters(s.db);
    BystanderKeeps(s, t, call);
  }

  lemma SubmitKeeps(s: State, call: nat, op: Op)
    requires Inv(s) && Can(s, Submit(call, op))
    ensures Inv(Take(s, Submit(call, op)))
  {
    var t := Take(s, Submit(call, op));
    forall other <- t.calls | IsRunning(t, other) ensures CallOk(t, other) {
      if other != call {
        SameDbBystander(s, t, other);
      }
    }
  }

  lemma ExecuteExplains(s: State, call: nat, a: Answer)
    requires Can(s, Execute(call, a)) && CallOk(s, call)
    ensures var c := s.calls[call];
            var got := c.got + [a];
            var stmt := ActionOf(s, call).stmt;
            && Explains(c.op, s.db, got)
            && Held(c.op, s.db.cap, got, |got|) == HeldBy(s, call) + if stmt.LockRow? && Hit(a) then {stmt.row} else {}
  {
    var c := s.calls[call];
    TruthfulIsStable(ActionOf(s, call).stmt, ViewOf(s, call), s.clock, a);
    ExplainsExtend(c.op, s.db, c.got, a);
    HeldExtend(c.op, s.db, c.got, a);
  }

  lemma ExecuteLocks(s: State, call: nat, a: Answer)
    requires Inv(s) && Can(s, Execute(call, a))
    ensures LocksOk(Take(s, Execute(call, a)))
  {
    ExecuteExplains(s, call, a);
  }

  lemma ExecuteStamps(s: State, call: nat, a: Answer)
    requires ClockOk(s) && Can(s, Execute(call, a)) && StampsOk(s, s.calls[call])
    ensures var t := Take(s, Execute(call, a)); StampsOk(t, t.calls[call])
  {
    assert a.Logged? ==> ActionOf(s, call).stmt.LogTx?;
  }

  lemma ExecuteOwn(s: State, call: nat, a: Answer)
    requires ClockOk(s) && Can(s, Execute(call, a)) && CallOk(s, call)
    ensures CallOk(Take(s, Execute(call, a)), call)
  {
    ExecuteExplains(s, call, a);
    ExecuteStamps(s, call, a);
  }

  lemma ExecuteOthers(s: State, call: nat, a: Answer, other: nat)
    requires DbOk(s.db) && Can(s, Execute(call, a)) && other != call && IsRunning(s, other) && CallOk(s, other)
    ensures CallOk(Take(s, Execute(call, a)), other)
  {
    SameDbBystander(s, Take(s, Execute(call, a)), other);
  }

  lemma ExecuteKeeps(s: State, call: nat, a: Answer)
    requires Inv(s) && Can(s, Execute(call, a))
    ensures Inv(Take(s, Execute(call, a)))
  {
    var t := Take(s, Execute(call, a));
    ExecuteLocks(s, call, a);
    forall other <- t.calls | IsRunning(t, other) ensures CallOk(t, other) {
      if other == call {
        ExecuteOwn(s, call, a);
      } else {
        ExecuteOthers(s, call, a, other);
      }
    }
  }

  lemma EndKeeps(s: State, step: Step)
    requires Inv(s) && Can(s, step) && (step.Throw? || step.Break?)
    ensures Inv(Take(s, step))
  {
    var t := Take(s, step);
    LocksAfterFinish(s, t, step.call);
    forall other <- t.calls | IsRunning(t, other) ensures CallOk(t, other) {
      if other != step.call {
        SameDbBystander(s, t, other);
      }
    }
  }

  /** Every logged answer comes after the committed rows of its wallet. */
  ghost predicate LogsLater(db: DB, got: seq<Answer>) {
    forall i :: 0 <= i < |got| && got[i].Logged? ==> Later(db.ledger, got[i].row.wallet, got[i].row.at)
  }

  lemma TransferStamps(op: Op, db: DB, got: seq<Answer>)
    requires op.Transfer? && Explains(op, db, got) && Next(op, db.cap, got, |got|) == Commit && LogsLater(db, got)
    ensures StampsLater(op, OracleOf(op, got), db)
  {
    TransferLocks(op, db, got);
    ExplainedAt(op, db, got, 6);
    ExplainedAt(op, db, got, 7);
  }

  lemma ApproveStamps(op: Op, db: DB, got: seq<Answer>)
    requires op.Approve? && Explains(op, db, got) && Next(op, db.cap, got, |got|) == Commit && LogsLater(db, got)
    ensures StampsLater(op, OracleOf(op, got), db)
  {
    ApproveLocks(op, db, got);
    ExplainedAt(op, db, got, 5);
    ExplainedAt(op, db, got, 6);
  }

  lemma PayMerchantStamps(op: Op, db: DB, got: seq<Answer>)
    requires op.PayMerchant? && Explains(op, db, got) && Next(op, db.cap, got, |got|) == Commit && LogsLater(db, got)
    ensures StampsLater(op, OracleOf(op, got), db)
  {
    PayMerchantLock(op, db, got);
    ExplainedAt(op, db, got, PayerLockIndex(op.payFrom) + 3);
  }

  lemma SingleRowStamps(op: Op, db: DB, got: seq<Answer>)
    requires (op.Gateway? || op.Adjust?) && Explains(op, db, got) && Next(op, db.cap, got, |got|) == Commit
    requires LogsLater(db, got)
    ensures StampsLater(op, OracleOf(op, got), db)
  {
    ExplainedAt(op, db, got, if op.Gateway? then 3 else 2);
  }

  /** The stamps a committing transaction wrote come after the rows of their wallets. */
  lemma StampsAtCommit(op: Op, db: DB, got: seq<Answer>)
    requires Explains(op, db, got) && Next(op, db.cap, got, |got|) == Commit && LogsLater(db, got)
    ensures StampsLater(op, OracleOf(op, got), db)
  {
    match op
    case Transfer(_, _, _, _) => TransferStamps(op, db, got);
    case PayMerchant(_, _, _, _) => PayMerchantStamps(op, db, got);
    case Approve(_, _, _, _) => ApproveStamps(op, db, got);
    case Gateway(_, _, _, _) => SingleRowStamps(op, db, got);
    case Adjust(_, _, _) => SingleRowStamps(op, db, got);
    case _ =>
  }

  /** A commit is the operation performed in one step on the committed tables. */
  lemma CommitIsPerform(op: Op, db: DB, got: seq<Answer>)
    requires DbOk(db) && OpOk(op, db.cap)
    requires Explains(op, db, got) && Next(op, db.cap, got, |got|) == Commit && LogsLater(db, got)
    ensures var o := OracleOf(op, got);
            Honest(op, o, db) && Perform(op, o, db) == Success(View(op, db, got, |got|))
    ensures DbOk(View(op, db, got, |got|))
  {
    RunIsPerform(op, db, got);
    StampsAtCommit(op, db, got);
    PerformKeeps(op, OracleOf(op, got), db);
  }

  /** The tables changed only in rows that `call` holds, or gained rows that nobody holds. */
  ghost predicate Changed(s: State, t: State, call: nat)
    requires call in s.calls
  {
    && t.clock == s.clock
    && t.db.cap == s.db.cap && Grew(s.db, t.db)
    && (forall id <- s.db.wallets :: WalletRow(id) in HeldBy(s, call) || t.db.wallets[id] == s.db.wallets[id])
    && (forall id <- s.db.requests ::
          id in t.db.requests && (RequestRow(id) in HeldBy(s, call) || t.db.requests[id] == s.db.requests[id]))
    && |s.db.ledger| <= |t.db.ledger| && t.db.ledger[..|s.db.ledger|] == s.db.ledger
    && (forall i :: |s.db.ledger| <= i < |t.db.ledger| ==> WalletRow(t.db.ledger[i].wallet) in HeldBy(s, call))
  }

  lemma OthersKeep(s: State, t: State, call: nat, other: nat)
    requires Inv(s) && IsRunning(s, call) && IsRunning(s, other) && other != call && Changed(s, t, call)
    requires other in t.calls && t.calls[other] == s.calls[other] && t.locks == Without(s.locks, call)
    ensures CallOk(t, other)
  {
    var d := s.calls[other];
    DbOkRequesters(s.db);
    HeldRowsExist(d.op, s.db, d.got, |d.got|);
    assert HeldBy(s, other) !! HeldBy(s, call);
    forall row <- HeldBy(s, other) ensures SameRow(s.db, t.db, row) {
    }
    forall i | 0 <= i < |s.db.ledger| ensures t.db.ledger[i] == s.db.ledger[i] {
      assert t.db.ledger[..|s.db.ledger|][i] == s.db.ledger[i];
    }
    BystanderKeeps(s, t, other);
  }

  lemma LocksAfterFinish(s: State, t: State, call: nat)
    requires Inv(s) && IsRunning(s, call) && t.db.cap == s.db.cap
    requires t.locks == Without(s.locks, call) && t.calls.Keys == s.calls.Keys
    requires forall other <- s.calls :: other != call ==> t.calls[other] == s.calls[other]
    ensures LocksOk(t)
  {
  }

  lemma CommitKeeps(s: State, call: nat)
    requires Inv(s) && Can(s, DoCommit(call))
    ensures Inv(Take(s, DoCommit(call)))
  {
    var t := Take(s, DoCommit(call));
    var c := s.calls[call];
    CommitIsPerform(c.op, s.db, c.got);
    ViewWritesOnlyLocked(c.op, s.db, c.got, |c.got|);
    assert ClockOk(t) by {
      ViewStamps(c.op, s.db, c.got, |c.got|, s.clock);
    }
    LocksAfterFinish(s, t, call);
    forall other <- t.calls | IsRunning(t, other) ensures CallOk(t, other) {
      OthersKeep(s, t, call, other);
    }
  }

  /** Every ledger row a transaction sees is older than the clock. */
  lemma {:induction false} ViewStamps(op: Op, db: DB, got: seq<Answer>, n: nat, clock: nat)
    requires n <= |got| && forall i :: 0 <= i < |db.ledger| ==> db.ledger[i].at < clock
    requires forall i :: 0 <= i < |got| && got[i].Logged? ==> got[i].row.at < clock
    ensures forall i :: 0 <= i < |View(op, db, got, n).ledger| ==> View(op, db, got, n).ledger[i].at < clock
  {
    if n > 0 {
      ViewStamps(op, db, got, n - 1, clock);
      var action := Next(op, db.cap, got, n - 1);
      if action.Do? {
        ApplyStamps(action.stmt, got[n - 1], View(op, db, got, n - 1), clock);
      }
    }
  }

  lemma ApplyStamps(stmt: Stmt, a: Answer, v: DB, clock: nat)
    requires forall i :: 0 <= i < |v.ledger| ==> v.ledger[i].at < clock
    requires a.Logged? ==> a.row.at < clock
    ensures forall i :: 0 <= i < |Apply(stmt, a, v).ledger| ==> Apply(stmt, a, v).ledger[i].at < clock
  {
  }

  predicate Exists(db: DB, row: Row) {
    if row.WalletRow? then row.id in db.wallets else row.id in db.requests
  }

  lemma LockedExists(row: Row, v: DB, a: Answer)
    requires Stable(LockRow(row), v, a) && Hit(a)
    ensures Exists(v, row)
  {
  }

  /** Locked rows exist. */
  lemma {:induction false} HeldRowsExist(op: Op, db: DB, got: seq<Answer>, n: nat)
    requires n <= |got| && Explains(op, db, got)
    ensures forall row <- Held(op, db.cap, got, n) :: Exists(db, row)
  {
    if n > 0 {
      HeldRowsExist(op, db, got, n - 1);
      ExplainedAt(op, db, got, n - 1);
      ViewWritesOnlyLocked(op, db, got, n - 1);
      var stmt := Next(op, db.cap, got, n - 1).stmt;
      if stmt.LockRow? && Hit(got[n - 1]) {
        LockedExists(stmt.row, View(op, db, got, n - 1), got[n - 1]);
      }
    }
  }

  lemma InsertIsPerform(op: Op, db: DB, got: seq<Answer>, id: Id)
    requires DbOk(db) && OpOk(op, db.cap) && Explains(op, db, got)
    requires Next(op, db.cap, got, |got|).AutoInsert? && id !in db.requests
    ensures var o := InsertOracle(got, id);
            && Honest(op, o, db)
            && Perform(op, o, db) == Success(SetRequest(db, id, Next(op, db.cap, got, |got|).request))
    ensures DbOk(SetRequest(db, id, Next(op, db.cap, got, |got|).request))
  {
    assert op.CreateRequest? && |got| > 0;
    ExplainedAt(op, db, got, 0);
    OpenRequestKeeps(db, op, InsertOracle(got, id));
  }

  lemma InsertChanges(s: State, call: nat, id: Id)
    requires Can(s, DoInsert(call, id))
    ensures Changed(s, Take(s, DoInsert(call, id)), call)
  {
  }

  lemma InsertKeeps(s: State, call: nat, id: Id)
    requires Inv(s) && Can(s, DoInsert(call, id))
    ensures Inv(Take(s, DoInsert(call, id)))
  {
    var t := Take(s, DoInsert(call, id));
    var c := s.calls[call];
    InsertIsPerform(c.op, s.db, c.got, id);
    InsertChanges(s, call, id);
    LocksAfterFinish(s, t, call);
    forall other <- t.calls | IsRunning(t, other) ensures CallOk(t, other) {
      OthersKeep(s, t, call, other);
    }
  }

  lemma OpenWalletKeeps(s: State, step: Step)
    requires Inv(s) && Can(s, step) && step.OpenWallet?
    ensures Inv(Take(s, step))
  {
    var t := Take(s, step);
    OpenKeeps(s.db, step.id, step.owner, step.number, step.currency, step.created);
    DbOkRequesters(s.db);
    forall other <- t.calls | IsRunning(t, other) ensures CallOk(t, other) {
      var d := s.calls[other];
      HeldRowsExist(d.op, s.db, d.got, |d.got|);
      forall row <- HeldBy(s, other) ensures SameRow(s.db, t.db, row) {
      }
      BystanderKeeps(s, t, other);
    }
  }

  /** Every step of every interleaving keeps the invariant. */
  lemma StepKeeps(s: State, step: Step)
    requires Inv(s) && Can(s, step)
    ensures Inv(Take(s, step))
  {
    match step
    case Submit(call, op) => SubmitKeeps(s, call, op);
    case Execute(call, a) => ExecuteKeeps(s, call, a);
    case DoCommit(call) => CommitKeeps(s, call);
    case DoInsert(call, id) => InsertKeeps(s, call, id);
    case Throw(_) => EndKeeps(s, step);
    case Break(_, _) => EndKeeps(s, step);
    case OpenWallet(_, _, _, _, _) => OpenWalletKeeps(s, step);
  }
}

/** What holds of every run of the interleaved machine, whatever the interleaving. */
module Serialisability {
  import opened Prelude
  import opened Bank
  import opened BankInvariants
  import opened LedgerHistory
  import opened Programs
  import opened Interleaving

  ghost predicate Runs(s: State, steps: seq<Step>)
    decreases |steps|
  {
    steps == [] || (Can(s, steps[0]) && Runs(Take(s, steps[0]), steps[1..]))
  }

  ghost function After(s: State, steps: seq<Step>): State
    requires Runs(s, steps)
    decreases |steps|
  {
    if steps == [] then s else After(Take(s, steps[0]), steps[1..])
  }

  // ------------------------------------------------------------ serial execution

  /** One committed operation, or one new wallet, alone on the tables. */
  ghost function Replayed(db: DB, e: Event): Option<DB> {
    match e
    case Ran(_, op, o) =>
      if Honest(op, o, db) && Perform(op, o, db).Success? then Some(Perform(op, o, db).value) else None
    case Opened(id, owner, number, currency, created) =>
      if CanOpen(db, id, number) then Some(Open(db, id, owner, number, currency, created)) else None
  }

  ghost function Serial(db: DB, events: seq<Event>): Option<DB> {
    if events == [] then Some(db)
    else
      var before := Serial(db, events[..|events| - 1]);
      if before.None? then None else Replayed(before.value, events[|events| - 1])
  }

  /** A step either commits one event, performed atomically, or touches no committed table. */
  lemma StepRefines(s: State, step: Step)
    requires Inv(s) && Can(s, step)
    ensures var t := Take(s, step);
            || (t.db == s.db && t.history == s.history)
            || (exists e :: t.history == s.history + [e] && Replayed(s.db, e) == Some(t.db))
    ensures Take(s, step).db.cap == s.db.cap
  {
    var t := Take(s, step);
    if step.DoCommit? {
      var c := s.calls[step.call];
      CommitIsPerform(c.op, s.db, c.got);
      CapKept(c.op, OracleOf(c.op, c.got), s.db);
      var e := Ran(step.call, c.op, OracleOf(c.op, c.got));
      assert t.history == s.history + [e] && Replayed(s.db, e) == Some(t.db);
    } else if step.DoInsert? {
      var c := s.calls[step.call];
      InsertIsPerform(c.op, s.db, c.got, step.id);
      var e := Ran(step.call, c.op, InsertOracle(c.got, step.id));
      assert t.history == s.history + [e] && Replayed(s.db, e) == Some(t.db);
    } else if step.OpenWallet? {
      var e := Opened(step.id, step.owner, step.number, step.currency, step.created);
      assert t.history == s.history + [e] && Replayed(s.db, e) == Some(t.db);
    }
  }

  lemma CapKept(op: Op, o: Oracle, db: DB)
    requires Perform(op, o, db).Success?
    ensures Perform(op, o, db).value.cap == db.cap
  {
  }

  lemma {:induction false} RunRefines(start: DB, s: State, steps: seq<Step>)
    requires Inv(s) && Serial(start, s.history) == Some(s.db) && Runs(s, steps)
    ensures Inv(After(s, steps)) && After(s, steps).db.cap == s.db.cap
    ensures Serial(start, After(s, steps).history) == Some(After(s, steps).db)
    decreases |steps|
  {
    if steps != [] {
      var t := Take(s, steps[0]);
      StepKeeps(s, steps[0]);
      StepRefines(s, steps[0]);
      if t.history != s.history {
        var e :| t.history == s.history + [e] && Replayed(s.db, e) == Some(t.db);
        assert t.history[..|t.history| - 1] == s.history;
      }
      RunRefines(start, t, steps[1..]);
    }
  }

  /**
    Serialisability: after any interleaving of any number of transactions, with
    failures and retries, the committed tables are those that the committed
    operations produce one after the other in commit order, starting from none.
   */
  lemma EveryRunIsSerial(cap: int, steps: seq<Step>)
    requires Runs(Init(cap), steps)
    ensures var end := After(Init(cap), steps);
            Serial(Init(cap).db, end.history) == Some(end.db)
    ensures DbOk(After(Init(cap), steps).db) && Inv(After(Init(cap), steps))
  {
    InitInv(cap);
    RunRefines(Init(cap).db, Init(cap), steps);
  }

  // ------------------------------------------------- consequences for every run

  /** In every reachable state each wallet's sorted statement is a chain from zero to its balance. */
  lemma EveryStatementIsExact(cap: int, steps: seq<Step>, id: Id, statement: seq<LedgerRow>)
    requires Runs(Init(cap), steps) && id in After(Init(cap), steps).db.wallets
    requires var db := After(Init(cap), steps).db;
             multiset(statement) == multiset(RowsOf(db.ledger, id)) && SortedByStamp(statement)
    ensures Chain(statement) && Closing(statement) == After(Init(cap), steps).db.wallets[id].balance
    ensures !Mismatch(After(Init(cap), steps).db, id)
  {
    EveryRunIsSerial(cap, steps);
    StatementIsExact(After(Init(cap), steps).db, id, statement);
    RestoreCheckPasses(After(Init(cap), steps).db);
  }

  /** In every reachable state each currency adds up to what came in minus what went out. */
  lemma EveryRunConserves(cap: int, steps: seq<Step>, currency: string)
    requires Runs(Init(cap), steps)
    ensures var db := After(Init(cap), steps).db;
            && Total(db.wallets.Keys, db.wallets, currency) == Inflow(db.ledger, currency)
            && Sum(db.ledger, TransferIn, currency) + Sum(db.ledger, RequestIn, currency)
               == Sum(db.ledger, TransferOut, currency) + Sum(db.ledger, RequestOut, currency)
  {
    EveryRunIsSerial(cap, steps);
    MoneyIsConserved(After(Init(cap), steps).db, currency);
  }

  /** Every stored balance fits NUMERIC(15, 2), and no stored request is refused for its amount. */
  lemma EveryNumberFits(cap: int, steps: seq<Step>)
    requires Runs(Init(cap), steps)
    ensures var db := After(Init(cap), steps).db;
            && (forall id <- db.wallets :: db.wallets[id].balance <= MAX_CENTS)
            && (forall row <- db.ledger :: row.balanceAfter <= MAX_CENTS && 1 <= row.amount <= MAX_CENTS)
            && (forall id <- db.requests, email :: RequestRefusal(Some(db.requests[id]), email, cap) != Some(AmountRefused))
  {
    EveryRunIsSerial(cap, steps);
    var db := After(Init(cap), steps).db;
    InitInv(cap);
    RunRefines(Init(cap).db, Init(cap), steps);
    forall row <- db.ledger ensures RowOk(db, row) {
      var i :| 0 <= i < |db.ledger| && db.ledger[i] == row;
    }
    forall id <- db.requests, email ensures RequestRefusal(Some(db.requests[id]), email, cap) != Some(AmountRefused) {
      assert RequestOk(db, db.requests[id]);
    }
  }

  // ------------------------------------------------------------------- audit

  function Audits(journal: seq<Entry>): nat {
    if journal == [] then 0
    else Audits(journal[..|journal| - 1]) + if journal[|journal| - 1].AuditRow? then 1 else 0
  }

  /** The committed operations that ran inside `withTransaction`. */
  function Audited(events: seq<Event>): nat {
    if events == [] then 0
    else
      var last := events[|events| - 1];
      Audited(events[..|events| - 1]) + if last.Ran? && InTransaction(last.op) then 1 else 0
  }

  lemma AuditsAppend(journal: seq<Entry>, e: Entry)
    ensures Audits(journal + [e]) == Audits(journal) + if e.AuditRow? then 1 else 0
  {
    assert (journal + [e])[..|journal|] == journal;
  }

  /** Up to two new entries, of which the last is the only audit row. */
  lemma AuditsLast(before: seq<Entry>, after: seq<Entry>)
    requires |before| < |after| <= |before| + 2 && after[..|before|] == before
    requires after[|after| - 1].AuditRow? && (|after| == |before| + 2 ==> !after[|before|].AuditRow?)
    ensures Audits(after) == Audits(before) + 1
  {
    var n := |before|;
    if |after| == n + 1 {
      assert after == before + [after[n]];
      AuditsAppend(before, after[n]);
    } else {
      assert after == before + [after[n]] + [after[n + 1]];
      AuditsAppend(before, after[n]);
      AuditsAppend(before + [after[n]], after[n + 1]);
    }
  }

  lemma PerformAudits(op: Op, o: Oracle, db: DB)
    requires Perform(op, o, db).Success?
    ensures Audits(Perform(op, o, db).value.journal) == Audits(db.journal) + if InTransaction(op) then 1 else 0
  {
    match op
    case Transfer(_, _, _, _) => TransferAudits(op, o, db);
    case Approve(_, _, _, _) => ApproveAudits(op, o, db);
    case CreateRequest(_, _, _, _, _) =>
    case UpdateRequest(_, _, _) =>
    case CancelRequest(_, _) =>
    case DeclineRequest(_, _) =>
    case _ => AuditsLast(db.journal, Perform(op, o, db).value.journal);
  }

  lemma TransferAudits(op: Op, o: Oracle, db: DB)
    requires op.Transfer? && Perform(op, o, db).Success?
    ensures Audits(Perform(op, o, db).value.journal) == Audits(db.journal) + 1
  {
    AuditsLast(db.journal, Perform(op, o, db).value.journal);
  }

  lemma ApproveAudits(op: Op, o: Oracle, db: DB)
    requires op.Approve? && Perform(op, o, db).Success?
    ensures Audits(Perform(op, o, db).value.journal) == Audits(db.journal) + 1
  {
    AuditsLast(db.journal, Perform(op, o, db).value.journal);
  }

  lemma {:induction false} SerialAudits(db: DB, events: seq<Event>)
    requires Serial(db, events).Some?
    ensures Audits(Serial(db, events).value.journal) == Audits(db.journal) + Audited(events)
  {
    if events != [] {
      var last := events[|events| - 1];
      SerialAudits(db, events[..|events| - 1]);
      if last.Ran? {
        PerformAudits(last.op, last.oracle, Serial(db, events[..|events| - 1]).value);
      }
    }
  }

  /** In every reachable state there is one audit row for each committed transaction, and no other. */
  lemma EveryTransactionIsAudited(cap: int, steps: seq<Step>)
    requires Runs(Init(cap), steps)
    ensures var end := After(Init(cap), steps); Audits(end.db.journal) == Audited(end.history)
  {
    EveryRunIsSerial(cap, steps);
    SerialAudits(Init(cap).db, After(Init(cap), steps).history);
  }

  // ------------------------------------------------------- request life cycle

  /** `b` is a later version of the tables `a`. */
  ghost predicate Extends(a: DB, b: DB) {
    && (forall id <- a.requests ::
          && id in b.requests
          && b.requests[id].wallet == a.requests[id].wallet
          && b.requests[id].payer == a.requests[id].payer
          && b.requests[id].currency == a.requests[id].currency
          && (a.requests[id].status != Pending ==> b.requests[id] == a.requests[id]))
    && |a.ledger| <= |b.ledger| && b.ledger[..|a.ledger|] == a.ledger
    && |a.journal| <= |b.journal| && b.journal[..|a.journal|] == a.journal
  }

  lemma PerformMovesForward(op: Op, o: Oracle, db: DB)
    requires Perform(op, o, db).Success?
    ensures Extends(db, Perform(op, o, db).value)
  {
  }

  lemma StepMovesForward(s: State, step: Step)
    requires Inv(s) && Can(s, step)
    ensures Extends(s.db, Take(s, step).db)
  {
    if step.DoCommit? {
      CommitMovesForward(s, step.call);
    }
  }

  lemma CommitMovesForward(s: State, call: nat)
    requires Inv(s) && Can(s, DoCommit(call))
    ensures Extends(s.db, ViewOf(s, call))
  {
    var c := s.calls[call];
    CommitIsPerform(c.op, s.db, c.got);
    PerformMovesForward(c.op, OracleOf(c.op, c.got), s.db);
  }

  lemma ExtendsTransitive(a: DB, b: DB, c: DB)
    requires Extends(a, b) && Extends(b, c)
    ensures Extends(a, c)
  {
    assert c.ledger[..|a.ledger|] == c.ledger[..|b.ledger|][..|a.ledger|];
    assert c.journal[..|a.journal|] == c.journal[..|b.journal|][..|a.journal|];
  }

  lemma {:induction false} RunMovesForward(s: State, steps: seq<Step>)
    requires Inv(s) && Runs(s, steps)
    ensures Extends(s.db, After(s, steps).db)
    decreases |steps|
  {
    if steps != [] {
      var t := Take(s, steps[0]);
      StepKeeps(s, steps[0]);
      StepMovesForward(s, steps[0]);
      RunMovesForward(t, steps[1..]);
      ExtendsTransitive(s.db, t.db, After(t, steps[1..]).db);
    }
  }

  lemma {:induction false} AfterConcat(s: State, first: seq<Step>, second: seq<Step>)
    requires Runs(s, first) && Runs(After(s, first), second)
    decreases |first|
    ensures Runs(s, first + second) && After(s, first + second) == After(After(s, first), second)
  {
    if first == [] {
      assert first + second == second;
    } else {
      AfterConcat(Take(s, first[0]), first[1..], second);
      assert (first + second)[1..] == first[1..] + second;
    }
  }

  /** Each request is settled by one row on each side if it is paid, and by none otherwise. */
  ghost predicate SettledBy(db: DB, id: Id, r: Request) {
    var n := if r.status == Paid then 1 else 0;
    && Count(db.ledger, RequestOut, id) == n && Count(db.ledger, RequestIn, id) == n
    && (forall row <- db.ledger :: Settles(row, RequestOut, id) ==> row.amount == r.amount && r.payerWallet == Some(row.wallet))
    && (forall row <- db.ledger :: Settles(row, RequestIn, id) ==> row.amount == r.amount && r.wallet == row.wallet)
  }

  lemma RequestsAreSettled(db: DB, id: Id)
    requires DbOk(db) && id in db.requests
    ensures SettledBy(db, id, db.requests[id])
  {
    forall row <- db.ledger ensures SettlementOk(db.requests, row) {
      var i :| 0 <= i < |db.ledger| && db.ledger[i] == row;
    }
  }

  /**
    Over every race of approvals, edits, declines and cancellations: a request that
    is no longer pending never changes again, and the ledger holds exactly one
    outgoing and one incoming row for it if it is paid and none otherwise, with
    the amount and the wallets that the request then has forever.
   */
  lemma RequestsSettleOnce(cap: int, first: seq<Step>, second: seq<Step>, id: Id)
    requires Runs(Init(cap), first) && id in After(Init(cap), first).db.requests
    requires After(Init(cap), first).db.requests[id].status != Pending
    requires Runs(After(Init(cap), first), second)
    ensures var r := After(Init(cap), first).db.requests[id];
            var db := After(After(Init(cap), first), second).db;
            id in db.requests && db.requests[id] == r && SettledBy(db, id, r)
  {
    EveryRunIsSerial(cap, first);
    RunMovesForward(After(Init(cap), first), second);
    AfterConcat(Init(cap), first, second);
    EveryRunIsSerial(cap, first + second);
    RequestsAreSettled(After(After(Init(cap), first), second).db, id);
  }

  /** While a request is pending, no ledger row refers to it. */
  lemma PendingIsUnpaid(cap: int, steps: seq<Step>, id: Id)
    requires Runs(Init(cap), steps) && id in After(Init(cap), steps).db.requests
    requires After(Init(cap), steps).db.requests[id].status == Pending
    ensures forall row <- After(Init(cap), steps).db.ledger :: !Settles(row, RequestOut, id) && !Settles(row, RequestIn, id)
  {
    EveryRunIsSerial(cap, steps);
    var db := After(Init(cap), steps).db;
    forall row <- db.ledger ensures SettlementOk(db.requests, row) {
      var i :| 0 <= i < |db.ledger| && db.ledger[i] == row;
    }
  }

  // ---------------------------------------------------------- calls and retries

  /**
    A statement may break at any point.  The committed tables are untouched, every lock
    of the call and no other is released, and the call starts again from nothing if the
    failure was retryable, it runs in a transaction and has been retried less than
    three times; otherwise it has failed.
   */
  lemma FailuresAreUndone(s: State, call: nat, retryable: bool)
    requires IsRunning(s, call)
    ensures Can(s, Break(call, retryable))
    ensures var c, t := s.calls[call], Take(s, Break(call, retryable));
            && t.db == s.db && t.history == s.history && t.clock == s.clock
            && t.locks == (map row | row in s.locks && s.locks[row] != call :: s.locks[row])
            && t.calls == s.calls[call :=
                 if retryable && c.attempt < 3
                    && (c.op.Gateway? || c.op.Transfer? || c.op.PayMerchant? || c.op.Approve? || c.op.Adjust? || c.op.SetStatus?)
                 then Call(c.op, [], c.attempt + 1, Running) else Call(c.op, c.got, c.attempt, Failed)]
  {
    if c :| c == s.calls[call] && !InTransaction(c.op) {
      assert c.op.CreateRequest? || c.op.UpdateRequest? || c.op.CancelRequest? || c.op.DeclineRequest?;
    }
  }

  function Commits(events: seq<Event>, call: nat): nat {
    if events == [] then 0
    else
      var last := events[|events| - 1];
      Commits(events[..|events| - 1], call) + if last.Ran? && last.call == call then 1 else 0
  }

  ghost predicate CallsOk(s: State) {
    && (forall call <- s.calls :: s.calls[call].attempt <= MAX_RETRIES)
    && (forall call: nat ::
          Commits(s.history, call) == if call in s.calls && s.calls[call].phase == Committed then 1 else 0)
  }

  lemma CommitsAppend(events: seq<Event>, e: Event, call: nat)
    ensures Commits(events + [e], call) == Commits(events, call) + if e.Ran? && e.call == call then 1 else 0
  {
    assert (events + [e])[..|events|] == events;
  }

  lemma CommitCounts(s: State, t: State, call: nat, e: Event)
    requires CallsOk(s) && IsRunning(s, call) && e.Ran? && e.call == call && t.history == s.history + [e]
    requires t.calls == s.calls[call := s.calls[call].(phase := Committed)]
    ensures CallsOk(t)
  {
    forall other: nat
      ensures Commits(t.history, other) == if other in t.calls && t.calls[other].phase == Committed then 1 else 0
    {
      CommitsAppend(s.history, e, other);
    }
  }

  lemma CallsStep(s: State, step: Step)
    requires CallsOk(s) && Can(s, step)
    ensures CallsOk(Take(s, step))
  {
    var t := Take(s, step);
    match step
    case DoCommit(call) => CommitCounts(s, t, call, t.history[|s.history|]);
    case DoInsert(call, _) => CommitCounts(s, t, call, t.history[|s.history|]);
    case OpenWallet(_, _, _, _, _) =>
      forall call: nat ensures Commits(t.history, call) == Commits(s.history, call) {
        CommitsAppend(s.history, t.history[|s.history|], call);
      }
    case _ => assert t.history == s.history;
  }

  lemma {:induction false} CallsRun(s: State, steps: seq<Step>)
    requires CallsOk(s) && Runs(s, steps)
    ensures CallsOk(After(s, steps))
    decreases |steps|
  {
    if steps != [] {
      CallsStep(s, steps[0]);
      CallsRun(Take(s, steps[0]), steps[1..]);
    }
  }

  /**
    Retries: whatever breaks and whenever, a call makes at most `MAX_RETRIES + 1`
    attempts; a call that returned appears once among the committed operations,
    and a call that threw or still runs does not appear at all.
   */
  lemma EveryCallCommitsAtMostOnce(cap: int, steps: seq<Step>, call: nat)
    requires Runs(Init(cap), steps) && call in After(Init(cap), steps).calls
    ensures var end := After(Init(cap), steps);
            && end.calls[call].attempt <= MAX_RETRIES == 3
            && Commits(end.history, call) == if end.calls[call].phase == Committed then 1 else 0
  {
    CallsRun(Init(cap), steps);
  }
}

/**
  A call that meets no other in the interleaved machine.  Serialisability says that
  whatever the machine commits is an operation done in one step; here, the converse:
  what the operation does in one step is what the machine commits, and what the
  operation is refused with is what the call throws.
 */
module SingleCalls {
  import opened Prelude
  import opened Bank
  import opened BankInvariants
  import opened Programs
  import opened Locking
  import opened Interleaving
  import opened Serialisability
  import opened Deadlock
  import Sessions

  /** No call is running but `call`. */
  ghost predicate OnlyRuns(s: State, call: nat) {
    forall other <- s.calls :: IsRunning(s, other) ==> other == call
  }

  /** The wallet that has the number. */
  ghost predicate Denotes(db: DB, number: string, found: Option<Id>) {
    match found
    case Some(id) => id in db.wallets && db.wallets[id].number == number
    case None => forall id <- db.wallets :: db.wallets[id].number != number
  }

  /** The user's primary wallet. */
  ghost predicate Primary(db: DB, user: Id, found: Option<Id>) {
    match found
    case Some(id) => IsPrimary(db, id, user)
    case None => forall id <- db.wallets :: db.wallets[id].owner != user
  }

  /** What the operation observed is what is there; a merchant's status may be anything. */
  ghost predicate SeesExactly(op: Op, o: Oracle, db: DB) {
    match op
    case Transfer(_, number, _, _) => Denotes(db, number, o.other)
    case PayMerchant(_, payFrom, user, _) =>
      if payFrom.Some? then o.other == payFrom else o.merchant == Some(Trading) ==> Primary(db, user, o.other)
    case CreateRequest(wallet, _, email, payer, _) => payer != email ==> o.seen == Find(db.wallets, wallet)
    case _ => true
  }

  /** The same of the answers so far. */
  ghost predicate AnsweredExactly(op: Op, db: DB, got: seq<Answer>) {
    && (op.Transfer? && |got| > 0 ==> got[0].Found? && Denotes(db, op.toNumber, got[0].found))
    && (op.PayMerchant? && op.payFrom.None? && |got| > 1 ==> got[1].Found? && Primary(db, op.user, got[1].found))
    && (op.CreateRequest? && |got| > 0 ==> got[0] == WalletIs(Find(db.wallets, op.wallet)))
  }

  /** The call has come this far on tables that have not changed. */
  ghost predicate Alone(s: State, call: nat) {
    && Inv(s) && OnlyRuns(s, call) && IsRunning(s, call)
    && Sessions.Undisturbed(s.calls[call].op, s.db, s.calls[call].got)
    && AnsweredExactly(s.calls[call].op, s.db, s.calls[call].got)
  }

  /** `end` is `s` with the operation performed and recorded, or with nothing changed if it is refused. */
  ghost predicate Outcome(s: State, end: State, call: nat, op: Op, o: Oracle) {
    && call in end.calls && end.calls[call].op == op
    && SeesExactly(op, o, s.db) && Honest(op, o, s.db)
    && match Perform(op, o, s.db)
       case Success(db) =>
         end.db == db && end.history == s.history + [Ran(call, op, o)] && end.calls[call].phase == Committed
       case Failure(_) => end.db == s.db && end.history == s.history && end.calls[call].phase == Failed
  }

  // ---------------------------------------------------------------- one step

  lemma AloneExecutes(s: State, call: nat, a: Answer)
    requires Alone(s, call) && Can(s, Execute(call, a))
    ensures Alone(Take(s, Execute(call, a)), call)
  {
    var c := s.calls[call];
    ExecuteKeeps(s, call, a);
    Sessions.UndisturbedExtend(c.op, s.db, c.got, a);
    if c.op.PayMerchant? && |c.got| == 1 {
      ExplainedAt(c.op, s.db, c.got, 0);
    }
  }

  lemma SeenAtCommit(op: Op, db: DB, got: seq<Answer>)
    requires Explains(op, db, got) && AnsweredExactly(op, db, got) && Next(op, db.cap, got, |got|) == Commit
    ensures SeesExactly(op, OracleOf(op, got), db)
  {
    match op
    case Transfer(_, _, _, _) => TransferLocks(op, db, got);
    case PayMerchant(_, _, _, _) => PayMerchantLock(op, db, got);
    case _ =>
  }

  lemma AloneCommits(s: State, call: nat)
    requires Alone(s, call) && Can(s, DoCommit(call))
    ensures Outcome(s, Take(s, DoCommit(call)), call, s.calls[call].op, OracleOf(s.calls[call].op, s.calls[call].got))
  {
    var c := s.calls[call];
    assert CallOk(s, call);
    CommitIsPerform(c.op, s.db, c.got);
    SeenAtCommit(c.op, s.db, c.got);
  }

  lemma AloneInserts(s: State, call: nat, id: Id)
    requires Alone(s, call) && Can(s, DoInsert(call, id))
    ensures Outcome(s, Take(s, DoInsert(call, id)), call, s.calls[call].op, InsertOracle(s.calls[call].got, id))
  {
    var c := s.calls[call];
    assert CallOk(s, call);
    InsertIsPerform(c.op, s.db, c.got, id);
  }

  /** Refusals outside `withTransaction`. */
  lemma RequestRefused(op: Op, db: DB, got: seq<Answer>, e: Error)
    requires !InTransaction(op) && Explains(op, db, got) && Sessions.Undisturbed(op, db, got) && AnsweredExactly(op, db, got)
    requires Next(op, db.cap, got, |got|) == Abort(e)
    ensures Perform(op, InsertOracle(got, 0), db) == Failure(e) && SeesExactly(op, InsertOracle(got, 0), db)
    ensures Honest(op, InsertOracle(got, 0), db)
  {
    if |got| > 0 { Sessions.ExactLock(op, db, got, 0); }
    if |got| > 1 { Sessions.ExactLock(op, db, got, 1); }
  }

  lemma SeenAtRefusal(op: Op, db: DB, got: seq<Answer>, e: Error)
    requires InTransaction(op) && Explains(op, db, got) && AnsweredExactly(op, db, got) && Next(op, db.cap, got, |got|) == Abort(e)
    ensures SeesExactly(op, Sessions.RefusalOracle(op, got), db) && Honest(op, Sessions.RefusalOracle(op, got), db)
  {
    if |got| > 0 { ExplainedAt(op, db, got, 0); }
    if |got| > 1 { ExplainedAt(op, db, got, 1); }
  }

  lemma AloneThrows(s: State, call: nat) returns (o: Oracle)
    requires Alone(s, call) && Can(s, Throw(call))
    ensures Outcome(s, Take(s, Throw(call)), call, s.calls[call].op, o)
    ensures Perform(s.calls[call].op, o, s.db) == Failure(ActionOf(s, call).error)
  {
    var c := s.calls[call];
    var e := ActionOf(s, call).error;
    assert CallOk(s, call);
    if InTransaction(c.op) {
      o := Sessions.RefusalOracle(c.op, c.got);
      Sessions.RefusalOnTables(c.op, s.db, c.got, e);
      SeenAtRefusal(c.op, s.db, c.got, e);
    } else {
      o := InsertOracle(c.got, 0);
      RequestRefused(c.op, s.db, c.got, e);
    }
  }

  // --------------------------------------------------------------- whole runs

  /** When no call is running, a run without failures and arrivals is over. */
  lemma NobodyMoves(s: State, steps: seq<Step>)
    requires Runs(s, steps) && forall call <- s.calls :: !IsRunning(s, call)
    requires forall i :: 0 <= i < |steps| ==> Moves(steps[i])
    ensures steps == []
  {
  }

  lemma {:induction false} AloneRun(s: State, steps: seq<Step>, call: nat) returns (o: Oracle)
    requires Alone(s, call) && Runs(s, steps) && !IsRunning(After(s, steps), call)
    requires forall i :: 0 <= i < |steps| ==> Moves(steps[i])
    ensures Outcome(s, After(s, steps), call, s.calls[call].op, o)
    decreases |steps|
  {
    var step := steps[0];
    assert Moves(step) && step.call == call;
    var t := Take(s, step);
    if step.Execute? {
      AloneExecutes(s, call, step.answer);
      o := AloneRun(t, steps[1..], call);
    } else {
      NobodyMoves(t, steps[1..]);
      match step
      case DoCommit(_) =>
        o := OracleOf(s.calls[call].op, s.calls[call].got);
        AloneCommits(s, call);
      case DoInsert(_, id) =>
        o := InsertOracle(s.calls[call].got, id);
        AloneInserts(s, call, id);
      case Throw(_) =>
        o := AloneThrows(s, call);
    }
  }

  /**
    A call submitted when no other is running, with nothing broken: however the database
    answers, the call ends with the operation performed whole on the tables it found, or,
    if the operation is refused on them, with nothing changed.
   */
  lemma CallAloneIsPerform(cap: int, steps: seq<Step>, call: nat, op: Op, rest: seq<Step>) returns (o: Oracle)
    requires Runs(Init(cap), steps)
    requires var s := After(Init(cap), steps);
             && (forall other <- s.calls :: !IsRunning(s, other))
             && call !in s.calls && OpOk(op, cap)
             && Runs(s, [Submit(call, op)] + rest) && !IsRunning(After(s, [Submit(call, op)] + rest), call)
    requires forall i :: 0 <= i < |rest| ==> Moves(rest[i])
    ensures var s := After(Init(cap), steps);
            Outcome(s, After(s, [Submit(call, op)] + rest), call, op, o)
  {
    var s := After(Init(cap), steps);
    InitInv(cap);
    RunRefines(Init(cap).db, Init(cap), steps);
    var t := Take(s, Submit(call, op));
    StepKeeps(s, Submit(call, op));
    assert ([Submit(call, op)] + rest)[1..] == rest;
    o := AloneRun(t, rest, call);
  }

  /** Any number that is free can be given to a new wallet, which is then there, empty and active, and nothing else is. */
  lemma WalletsCanBeOpened(s: State, id: Id, owner: Id, number: string, currency: string, created: nat)
    requires id !in s.db.wallets && forall other <- s.db.wallets :: s.db.wallets[other].number != number
    ensures Can(s, OpenWallet(id, owner, number, currency, created))
    ensures var t := Take(s, OpenWallet(id, owner, number, currency, created));
            && t.db == DB(s.db.wallets[id := Wallet(owner, number, currency, 0, Active, created)],
                          s.db.requests, s.db.ledger, s.db.journal, s.db.cap)
            && t.history == s.history + [Opened(id, owner, number, currency, created)]
            && t.calls == s.calls && t.locks == s.locks
  {
  }
}

/**
  The money services as they are written: methods that issue statements on one
  connection inside `withTransaction`.  Any statement may fail, as the schedule
  `faults` says; nothing a failed attempt wrote is kept.  Each statement records what
  it answered, and each service is shown to issue the statements of its program.
 */
module BankService {
  import opened Prelude
  import opened Bank
  import opened BankInvariants
  import opened Amounts
  import opened Programs
  import opened Sessions
  import Effects

  /** Retryable: serialization_failure or deadlock_detected. */
  datatype Fault = Retryable | Fatal

  datatype Thrown = Api(error: Error) | Sql(fault: Fault) | NoConnection | NumbersExhausted

  /** `MAX_WALLET_NUMBER_ATTEMPTS`. */
  const MAX_NUMBER_ATTEMPTS: nat := 5

  predicate NoFaults(faults: seq<Option<Fault>>) {
    forall f <- faults :: f.None?
  }

  /** The cents of an accepted amount. */
  method CanonicalAmount(amount: Input, cap: int) returns (cents: nat)
    requires NormalizeAmount(amount, cap).Some?
    ensures AmountOk(cents, cap) && NormalizeAmount(amount, cap) == Some(Canonical(cents))
  {
    NormalizeRoundTrip(amount, cap);
    NormalizedIsCanonical(amount, cap);
    cents := ToCents(NormalizeAmount(amount, cap).value);
  }

  /** Approval normalises the stored amount again. */
  method StillAccepted(cents: nat, cap: int) returns (ok: bool)
    requires cents <= MAX_CENTS
    ensures ok == AmountOk(cents, cap)
  {
    StoredAmountAccepted(cents, cap);
    ok := NormalizeAmount(Text(Canonical(cents)), cap).Some?;
  }

  class Database {
    var db: DB        // the committed tables
    var work: DB      // the tables as the open transaction sees them
    var merchants: map<Id, MerchantStatus>
    var nextId: Id    // the next generated id
    var clock: nat    // clock_timestamp()
    var faults: seq<Option<Fault>>

    ghost var program: Op          // the operation the open transaction runs,
    ghost var start: DB            // the tables it started from,
    ghost var got: seq<Answer>     // what its statements have answered,
    ghost var since: nat           // and the clock
    ghost var firstId: Id          // and the next id when it began
    ghost var struck: Option<Fault> // the last fault that broke a statement
    ghost var failed: seq<Thrown>  // how the attempts of the last `withTransaction` failed

    constructor (cap: int, merchants: map<Id, MerchantStatus>, faults: seq<Option<Fault>>)
      ensures Valid() && db == DB(map[], map[], [], [], cap) && this.merchants == merchants && this.faults == faults
    {
      db := DB(map[], map[], [], [], cap);
      work := DB(map[], map[], [], [], cap);
      this.merchants := merchants;
      nextId := 0;
      clock := 0;
      this.faults := faults;
    }

    /** The open transaction has done what its program does on the answers it got. */
    ghost predicate Tracing()
      reads this`program, this`start, this`got, this`work, this`since, this`clock, this`firstId, this`nextId
    {
      && work.cap == start.cap && since <= clock && firstId <= nextId
      && Session(program, start, got, work, since, clock)
    }

    /** The statement that the program issues next. */
    ghost predicate Asks(stmt: Stmt)
      reads this`program, this`start, this`got
    {
      Next(program, start.cap, got, |got|) == Do(stmt)
    }

    /** The program is at some statement. */
    ghost predicate Interrupted()
      reads this`program, this`start, this`got
    {
      Next(program, start.cap, got, |got|).Do?
    }

    /** The program is `op` and has not started. */
    ghost predicate Begins(op: Op)
      reads this`program, this`start, this`got, this`work, this`since, this`clock, this`firstId, this`nextId
    {
      program == op && got == [] && work == start && Tracing()
    }

    /** A body returns where its program commits, throws what its program throws, and is broken only at a statement. */
    ghost predicate Ends(r: Result<nat, Thrown>)
      reads this`program, this`start, this`got, this`struck
    {
      if r.Success? then Next(program, start.cap, got, |got|) == Commit
      else if r.error.Api? then Next(program, start.cap, got, |got|) == Abort(r.error.error)
      else Struck(r.error) && Interrupted()
    }

    /** The error is the one of the last fault that broke a statement. */
    ghost predicate Struck(e: Thrown)
      reads this`struck
    {
      e.Sql? && struck == Some(e.fault)
    }

    /** What the program read without locks was exact. */
    ghost predicate Observed()
      reads this`program, this`start, this`got, this`merchants
    {
      && (program.Transfer? && |got| > 0 ==> got[0].Found? && FoundExactly(start, got[0].found, program.toNumber))
      && (program.PayMerchant? && |got| > 0 ==> got[0] == MerchantIs(Find(merchants, program.merchant)))
      && (program.PayMerchant? && program.payFrom.None? && |got| > 1 ==>
            got[1].Found? && PrimaryExactly(start, got[1].found, program.user))
    }

    /** The caller is told the balance of `wallet`. */
    ghost predicate Told(r: Result<nat, Thrown>, wallet: Id)
      reads this`work
    {
      r.Success? ==> HasBalance(wallet, r.value)
    }

    ghost predicate HasBalance(id: Id, balance: nat)
      reads this`work
    {
      id in work.wallets && work.wallets[id].balance == balance
    }

    // ---------------------------------------------------------- one statement

    /** The fate of the next statement. */
    method Statement() returns (fault: Option<Fault>)
      modifies this`faults, this`struck
      ensures faults == if old(faults) == [] then [] else old(faults)[1..]
      ensures fault == if old(faults) == [] then None else old(faults)[0]
      ensures struck == if fault.Some? then fault else old(struck)
      ensures old(NoFaults(faults)) ==> fault.None? && NoFaults(faults)
    {
      if faults == [] {
        fault := None;
      } else {
        fault := faults[0];
        faults := faults[1..];
        struck := if fault.Some? then fault else struck;
      }
    }

    /** Records the answer to a statement that changes no table. */
    ghost method Note(stmt: Stmt, a: Answer)
      requires Stable(stmt, work, a) && Apply(stmt, a, work) == work && !a.Logged?
      requires stmt.LockRow? ==> a == LockAnswer(work, stmt.row)
      modifies this`got
      ensures got == old(got) + [a]
      ensures old(Tracing() && Asks(stmt)) ==> Tracing()
    {
      if Tracing() && Asks(stmt) {
        Answered(program, start, got, work, since, clock, stmt, a);
      }
      got := got + [a];
    }

    method LockWallet(id: Id) returns (r: Result<Option<Wallet>, Thrown>)
      modifies this`faults, this`struck, this`got
      ensures r.Success? ==> r.value == Find(work.wallets, id)
      ensures got == if r.Success? then old(got) + [WalletIs(r.value)] else old(got)
      ensures old(Tracing() && Asks(LockRow(WalletRow(id)))) ==> Tracing()
      ensures r.Failure? ==> Struck(r.error)
      ensures old(NoFaults(faults)) ==> r.Success? && NoFaults(faults)
    {
      var fault := Statement();
      if fault.Some? {
        return Failure(Sql(fault.value));
      }
      Note(LockRow(WalletRow(id)), WalletIs(Find(work.wallets, id)));
      r := Success(Find(work.wallets, id));
    }

    ghost method NoteLocks(a: Id, b: Id)
      modifies this`got
      ensures got == old(got) + [WalletIs(Find(work.wallets, Lower(a, b))), WalletIs(Find(work.wallets, Upper(a, b)))]
      ensures && old(Tracing() && Asks(LockRow(WalletRow(Lower(a, b)))))
              && Next(program, start.cap, old(got) + [WalletIs(Find(work.wallets, Lower(a, b)))], |old(got)| + 1)
                 == Do(LockRow(WalletRow(Upper(a, b))))
              ==> Tracing()
    {
      Note(LockRow(WalletRow(Lower(a, b))), WalletIs(Find(work.wallets, Lower(a, b))));
      Note(LockRow(WalletRow(Upper(a, b))), WalletIs(Find(work.wallets, Upper(a, b))));
    }

    /** One SELECT ... ORDER BY id FOR UPDATE: the rows are locked in id order, whichever comes first in the call. */
    method LockWallets(a: Id, b: Id) returns (r: Result<map<Id, Wallet>, Thrown>)
      modifies this`faults, this`struck, this`got
      ensures r.Success? ==> r.value == map id | id in {a, b} && id in work.wallets :: work.wallets[id]
      ensures got == if r.Success?
                     then old(got) + [WalletIs(Find(work.wallets, Lower(a, b))), WalletIs(Find(work.wallets, Upper(a, b)))]
                     else old(got)
      ensures var first := WalletIs(Find(work.wallets, Lower(a, b)));
              && old(Tracing() && Asks(LockRow(WalletRow(Lower(a, b)))))
              && Next(program, start.cap, old(got) + [first], |old(got)| + 1) == Do(LockRow(WalletRow(Upper(a, b))))
              ==> Tracing()
      ensures r.Failure? ==> Struck(r.error)
      ensures old(NoFaults(faults)) ==> r.Success? && NoFaults(faults)
    {
      var fault := Statement();
      if fault.Some? {
        return Failure(Sql(fault.value));
      }
      NoteLocks(a, b);
      r := Success(map id | id in {a, b} && id in work.wallets :: work.wallets[id]);
    }

    /** `credit` and `debit`: the new balance, or None when the UPDATE matched no row. */
    method MoveBalance(id: Id, kind: Kind, amount: nat) returns (r: Result<Option<nat>, Thrown>)
      modifies this`faults, this`struck, this`work, this`got
      ensures r.Failure? && r.error.Sql? ==> work == old(work) && got == old(got)
      ensures r == MoveResult(old(work), id, kind, amount) || (r.Failure? && Struck(r.error))
      ensures !(r.Failure? && r.error.Sql?) ==>
        && got == old(got) + [MoveAnswer(old(work), id, kind, amount)]
        && work == AfterMove(old(work), id, kind, amount)
      ensures old(Tracing() && Asks(Move(id, kind, amount))) ==> Tracing()
      ensures old(NoFaults(faults)) ==> NoFaults(faults) && (r.Failure? ==> r.error.Api?)
    {
      var fault := Statement();
      if fault.Some? {
        return Failure(Sql(fault.value));
      }
      NoteMove(id, kind, amount);
      r := UpdateBalance(id, kind, amount);
    }

    /** Records the answer to the UPDATE that comes next. */
    ghost method NoteMove(id: Id, kind: Kind, amount: nat)
      modifies this`got
      ensures got == old(got) + [MoveAnswer(work, id, kind, amount)]
      ensures old(Tracing() && Asks(Move(id, kind, amount))) ==>
        AfterMove(work, id, kind, amount).cap == start.cap
        && Session(program, start, got, AfterMove(work, id, kind, amount), since, clock)
    {
      if Tracing() && Asks(Move(id, kind, amount)) {
        MoveAnswered(program, start, got, work, since, clock, id, kind, amount);
      }
      got := got + [MoveAnswer(work, id, kind, amount)];
    }

    /** The UPDATE alone. */
    method UpdateBalance(id: Id, kind: Kind, amount: nat) returns (r: Result<Option<nat>, Thrown>)
      modifies this`work
      ensures work == AfterMove(old(work), id, kind, amount)
      ensures r == MoveResult(old(work), id, kind, amount)
    {
      if id !in work.wallets {
        return Success(None);
      }
      var w := work.wallets[id];
      if Incoming(kind) {
        if w.balance + amount > MAX_CENTS {
          return Failure(Api(OutOfRange));
        }
        work := work.(wallets := work.wallets[id := w.(balance := w.balance + amount)]);
        r := Success(Some(w.balance + amount));
      } else if w.balance >= amount {
        work := work.(wallets := work.wallets[id := w.(balance := w.balance - amount)]);
        r := Success(Some(w.balance - amount));
      } else {
        r := Success(None);
      }
    }

    /** Records the ledger row that is about to be appended. */
    ghost method NoteLog(row: LedgerRow)
      requires row.wallet in work.wallets && row.currency == work.wallets[row.wallet].currency && row.at == clock
      modifies this`got
      ensures got == old(got) + [Logged(row)]
      ensures old(Tracing() && Asks(Stmt.LogTx(row.wallet, row.kind, row.amount, row.balanceAfter, row.ref))) ==>
        Session(program, start, got, work.(ledger := work.ledger + [row]), since, clock + 1)
    {
      if Tracing() && Asks(Stmt.LogTx(row.wallet, row.kind, row.amount, row.balanceAfter, row.ref)) {
        Answered(program, start, got, work, since, clock,
                 Stmt.LogTx(row.wallet, row.kind, row.amount, row.balanceAfter, row.ref), Logged(row));
      }
      got := got + [Logged(row)];
    }

    /** The ledger row with the wallet's currency; a wallet that does not exist gets none. */
    method LogTx(id: Id, kind: Kind, amount: nat, balanceAfter: nat, ref: Option<Id>) returns (r: Result<(), Thrown>)
      modifies this`faults, this`struck, this`work, this`clock, this`got
      ensures r.Success? && id in old(work).wallets ==>
        var row := LedgerRow(id, kind, amount, balanceAfter, ref, old(work).wallets[id].currency, old(clock));
        && work == old(work).(ledger := old(work).ledger + [row]) && clock == old(clock) + 1
        && got == old(got) + [Logged(row)]
      ensures r.Failure? || id !in old(work).wallets ==> work == old(work) && clock == old(clock) && got == old(got)
      ensures old(Tracing() && Asks(Stmt.LogTx(id, kind, amount, balanceAfter, ref))) ==> Tracing()
      ensures r.Failure? ==> Struck(r.error)
      ensures old(NoFaults(faults)) ==> r.Success? && NoFaults(faults)
    {
      var fault := Statement();
      if fault.Some? {
        return Failure(Sql(fault.value));
      }
      r := Success(());
      if id in work.wallets {
        var row := LedgerRow(id, kind, amount, balanceAfter, ref, work.wallets[id].currency, clock);
        NoteLog(row);
        work := work.(ledger := work.ledger + [row]);
        clock := clock + 1;
      }
    }

    /** The ledger rows of both sides of a movement, the payer's first. */
    method LogBoth(from: Id, to: Id, out: Kind, into: Kind, amount: nat, fromBalance: nat, toBalance: nat, ref: Id)
      returns (r: Result<(), Thrown>)
      requires from in work.wallets && to in work.wallets
      modifies this`faults, this`struck, this`work, this`clock, this`got
      ensures work.wallets == old(work).wallets && work.requests == old(work).requests
      ensures r.Failure? ==> Struck(r.error) && old(got) <= got
      ensures var first := LedgerRow(from, out, amount, fromBalance, Some(ref), old(work).wallets[from].currency, old(clock));
              && (r.Success? ==> |got| == |old(got)| + 2 && got[..|old(got)|] == old(got))
              && (old(Tracing() && Asks(Stmt.LogTx(from, out, amount, fromBalance, Some(ref))))
                  && Next(program, start.cap, old(got) + [Logged(first)], |old(got)| + 1)
                     == Do(Stmt.LogTx(to, into, amount, toBalance, Some(ref)))
                  ==> Tracing() && (r.Failure? ==> Interrupted()))
      ensures old(NoFaults(faults)) ==> r.Success? && NoFaults(faults)
    {
      var _ :- LogTx(from, out, amount, fromBalance, Some(ref));
      r := LogTx(to, into, amount, toBalance, Some(ref));
    }

    /** An INSERT, with the id that the database generates: gateway logs, transfers, merchant payments and audit rows. */
    method InsertEntry(draft: Entry) returns (r: Result<Id, Thrown>)
      modifies this`faults, this`struck, this`work, this`nextId, this`got
      ensures r.Success? ==>
        && r.value == (if draft.AuditRow? then 0 else old(nextId))
        && work == Bank.Note(old(work), WithId(draft, old(nextId))) && got == old(got) + [Inserted(WithId(draft, old(nextId)))]
        && nextId == old(nextId) + 1
      ensures r.Failure? ==> Struck(r.error) && work == old(work) && nextId == old(nextId) && got == old(got)
      ensures old(Tracing() && Asks(Insert(draft))) ==> Tracing()
      ensures old(NoFaults(faults)) ==> r.Success? && NoFaults(faults)
    {
      var fault := Statement();
      if fault.Some? {
        return Failure(Sql(fault.value));
      }
      var entry := WithId(draft, nextId);
      if Tracing() && Asks(Insert(draft)) {
        Answered(program, start, got, work, since, clock, Insert(draft), Inserted(entry));
      }
      got := got + [Inserted(entry)];
      work := work.(journal := work.journal + [entry]);
      r := Success(EntryId(entry));
      nextId := nextId + 1;
    }

    /** The audit row is part of the transaction: if it fails, so does the movement. */
    method Audit(action: AuditAction, entity: Id) returns (r: Result<Id, Thrown>)
      modifies this`faults, this`struck, this`work, this`nextId, this`got
      ensures r.Success? ==>
        work == Bank.Note(old(work), AuditRow(action, entity)) && got == old(got) + [Inserted(AuditRow(action, entity))]
      ensures r.Failure? ==> Struck(r.error) && work == old(work) && got == old(got)
      ensures nextId >= old(nextId)
      ensures old(Tracing() && Asks(Insert(AuditRow(action, entity)))) ==> Tracing()
      ensures old(NoFaults(faults)) ==> r.Success? && NoFaults(faults)
    {
      r := InsertEntry(AuditRow(action, entity));
    }

    method FindByNumber(number: string) returns (r: Result<Option<Id>, Thrown>)
      modifies this`faults, this`struck, this`got
      ensures r.Success? && r.value.Some? ==> HasNumber(work, r.value.value, number)
      ensures r.Success? && r.value.None? ==> forall id <- work.wallets :: work.wallets[id].number != number
      ensures got == if r.Success? then old(got) + [Found(r.value)] else old(got)
      ensures old(Tracing() && Asks(FindNumber(number))) ==> Tracing()
      ensures r.Failure? ==> Struck(r.error)
      ensures old(NoFaults(faults)) ==> r.Success? && NoFaults(faults)
    {
      var fault := Statement();
      if fault.Some? {
        return Failure(Sql(fault.value));
      }
      var found := None;
      if id :| id in work.wallets && work.wallets[id].number == number {
        found := Some(id);
      }
      Note(FindNumber(number), Found(found));
      r := Success(found);
    }

    method FindMerchant(merchant: Id) returns (r: Result<Option<MerchantStatus>, Thrown>)
      modifies this`faults, this`struck, this`got
      ensures r.Success? ==> r.value == Find(merchants, merchant)
      ensures got == if r.Success? then old(got) + [MerchantIs(r.value)] else old(got)
      ensures old(Tracing() && Asks(ReadMerchant(merchant))) ==> Tracing()
      ensures r.Failure? ==> Struck(r.error)
      ensures old(NoFaults(faults)) ==> r.Success? && NoFaults(faults)
    {
      var fault := Statement();
      if fault.Some? {
        return Failure(Sql(fault.value));
      }
      Note(ReadMerchant(merchant), MerchantIs(Find(merchants, merchant)));
      r := Success(Find(merchants, merchant));
    }

    /** `listByUser` and the choice made from it. */
    method FindPrimary(user: Id) returns (r: Result<Option<Id>, Thrown>)
      modifies this`faults, this`struck, this`got
      ensures r.Success? && r.value.Some? ==> IsPrimary(work, r.value.value, user)
      ensures r.Success? && r.value.None? ==> forall id <- work.wallets :: !OwnedBy(work, id, user)
      ensures got == if r.Success? then old(got) + [Found(r.value)] else old(got)
      ensures old(Tracing() && Asks(ListWallets(user))) ==> Tracing()
      ensures r.Failure? ==> Struck(r.error)
      ensures old(NoFaults(faults)) ==> r.Success? && NoFaults(faults)
    {
      var fault := Statement();
      if fault.Some? {
        return Failure(Sql(fault.value));
      }
      var found := None;
      if id :| id in work.wallets && IsPrimary(work, id, user) {
        found := Some(id);
      } else if exists id <- work.wallets :: OwnedBy(work, id, user) {
        PrimaryExists(work, user);
      }
      Note(ListWallets(user), Found(found));
      r := Success(found);
    }

    method FindByIdForUpdate(request: Id) returns (r: Result<Option<Request>, Thrown>)
      modifies this`faults, this`struck, this`got
      ensures r.Success? ==> r.value == Find(work.requests, request)
      ensures got == if r.Success? then old(got) + [RequestIs(r.value)] else old(got)
      ensures old(Tracing() && Asks(LockRow(RequestRow(request)))) ==> Tracing()
      ensures r.Failure? ==> Struck(r.error)
      ensures old(NoFaults(faults)) ==> r.Success? && NoFaults(faults)
    {
      var fault := Statement();
      if fault.Some? {
        return Failure(Sql(fault.value));
      }
      Note(LockRow(RequestRow(request)), RequestIs(Find(work.requests, request)));
      r := Success(Find(work.requests, request));
    }

    /** The guarded UPDATE; the caller does not look at whether it matched. */
    method MarkPaid(request: Id, payerWallet: Id) returns (r: Result<(), Thrown>)
      modifies this`faults, this`struck, this`work, this`got
      ensures r.Success? ==>
        work == if request in old(work).requests && old(work).requests[request].status == Pending
                then SetRequest(old(work), request,
                                old(work).requests[request].(status := Paid, payerWallet := Some(payerWallet)))
                else old(work)
      ensures r.Failure? ==> Struck(r.error) && work == old(work)
      ensures got == if r.Success? then old(got) + [PaidAnswer(old(work), request, payerWallet)] else old(got)
      ensures old(Tracing() && Asks(Stmt.MarkPaid(request, payerWallet))) ==> Tracing()
      ensures old(NoFaults(faults)) ==> r.Success? && NoFaults(faults)
    {
      var fault := Statement();
      if fault.Some? {
        return Failure(Sql(fault.value));
      }
      ghost var a := PaidAnswer(work, request, payerWallet);
      if Tracing() && Asks(Stmt.MarkPaid(request, payerWallet)) {
        Answered(program, start, got, work, since, clock, Stmt.MarkPaid(request, payerWallet), a);
      }
      got := got + [a];
      if request in work.requests && work.requests[request].status == Pending {
        var row := work.requests[request];
        work := work.(requests := work.requests[request := row.(status := Paid, payerWallet := Some(payerWallet))]);
      }
      r := Success(());
    }

    method UpdateStatus(id: Id, status: WalletStatus) returns (r: Result<(), Thrown>)
      modifies this`faults, this`struck, this`work, this`got
      ensures r.Success? ==>
        work == if id in old(work).wallets
                then old(work).(wallets := old(work).wallets[id := old(work).wallets[id].(status := status)]) else old(work)
      ensures r.Failure? ==> Struck(r.error) && work == old(work)
      ensures got == if r.Success? then old(got) + [StatusAnswer(old(work), id, status)] else old(got)
      ensures old(Tracing() && Asks(WriteStatus(id, status))) ==> Tracing()
      ensures old(NoFaults(faults)) ==> r.Success? && NoFaults(faults)
    {
      var fault := Statement();
      if fault.Some? {
        return Failure(Sql(fault.value));
      }
      ghost var a := StatusAnswer(work, id, status);
      if Tracing() && Asks(WriteStatus(id, status)) {
        Answered(program, start, got, work, since, clock, WriteStatus(id, status), a);
      }
      got := got + [a];
      if id in work.wallets {
        work := work.(wallets := work.wallets[id := work.wallets[id].(status := status)]);
      }
      r := Success(());
    }

    // -------------------------------------------------------- operation bodies

    method GatewayBody(deposit: bool, id: Id, user: Id, amount: nat) returns (r: Result<nat, Thrown>)
      requires Begins(Gateway(deposit, id, user, amount))
      modifies this`faults, this`struck, this`work, this`clock, this`nextId, this`got
      ensures Tracing() && Ends(r) && Told(r, id)
      ensures old(NoFaults(faults)) ==> NoFaults(faults) && (r.Failure? ==> r.error.Api?)
    {
      var kind := if deposit then Kind.TopUp else Kind.Withdrawal;
      var row :- LockWallet(id);
      var refusal := Refusal(row, Some(user));
      if refusal.Some? {
        return Failure(Api(refusal.value));
      }
      var balance :- MoveBalance(id, kind, amount);
      if balance.None? {
        return Failure(Api(Insufficient));
      }
      r := RecordGateway(deposit, id, amount, row.value.currency, balance.value);
    }

    method RecordGateway(deposit: bool, id: Id, amount: nat, currency: string, balance: nat) returns (r: Result<nat, Thrown>)
      requires Tracing() && GatewayChecked(program, got, currency) && |got| == 2 && BalanceAt(got, 1, balance)
      requires program.deposit == deposit && program.wallet == id && program.amount == amount && HasBalance(id, balance)
      modifies this`faults, this`struck, this`work, this`clock, this`nextId, this`got
      ensures Tracing() && Ends(r) && Told(r, id)
      ensures old(NoFaults(faults)) ==> NoFaults(faults) && (r.Failure? ==> r.error.Api?)
    {
      var gateway :- InsertEntry(GatewayRow(0, id, if deposit then Kind.TopUp else Kind.Withdrawal, amount, currency));
      var _ :- LogTx(id, if deposit then Kind.TopUp else Kind.Withdrawal, amount, balance, Some(gateway));
      var _ :- Audit(if deposit then WalletTopUp else WalletWithdraw, id);
      r := Success(balance);
    }

    method TransferBody(from: Id, number: string, user: Id, amount: nat) returns (r: Result<nat, Thrown>)
      requires Begins(Transfer(from, number, user, amount))
      modifies this`faults, this`struck, this`work, this`clock, this`nextId, this`got
      ensures Tracing() && Ends(r) && Told(r, from)
      ensures |got| > 0 ==> got[0].Found? && FoundExactly(old(work), got[0].found, number)
      ensures old(NoFaults(faults)) ==> NoFaults(faults) && (r.Failure? ==> r.error.Api?)
    {
      var target :- FindByNumber(number);
      if target.None? {
        return Failure(Api(ReceiverMissing));
      }
      var to := target.value;
      if to == from {
        return Failure(Api(SameWallet));
      }
      var locked :- LockWallets(from, to);
      var mine := Refusal(Find(locked, from), Some(user));
      if mine.Some? {
        return Failure(Api(mine.value));
      }
      var theirs := Refusal(Find(locked, to), None);
      if theirs.Some? {
        return Failure(Api(theirs.value));
      }
      var currency := locked[from].currency;
      if currency != locked[to].currency {
        return Failure(Api(CurrencyMismatch));
      }
      r := MoveBetween(from, to, amount, currency);
    }

    method MoveBetween(from: Id, to: Id, amount: nat, currency: string) returns (r: Result<nat, Thrown>)
      requires Tracing() && PairChecked(program, got, to, currency) && |got| == 3
      requires from == program.from && amount == program.amount && from in work.wallets && to in work.wallets
      modifies this`faults, this`struck, this`work, this`clock, this`nextId, this`got
      ensures Tracing() && Ends(r) && Told(r, from) && SameFirst(old(got), got)
      ensures old(NoFaults(faults)) ==> NoFaults(faults) && (r.Failure? ==> r.error.Api?)
    {
      var fromBalance :- MoveBalance(from, TransferOut, amount);
      if fromBalance.None? {
        return Failure(Api(Insufficient));
      }
      r := CreditReceiver(from, to, amount, currency, fromBalance.value);
    }

    method CreditReceiver(from: Id, to: Id, amount: nat, currency: string, fromBalance: nat) returns (r: Result<nat, Thrown>)
      requires Tracing() && PairChecked(program, got, to, currency) && |got| == 4 && BalanceAt(got, 3, fromBalance)
      requires from == program.from && amount == program.amount && HasBalance(from, fromBalance) && to in work.wallets
      modifies this`faults, this`struck, this`work, this`clock, this`nextId, this`got
      ensures Tracing() && Ends(r) && Told(r, from) && SameFirst(old(got), got)
      ensures old(NoFaults(faults)) ==> NoFaults(faults) && (r.Failure? ==> r.error.Api?)
    {
      var toBalance :- MoveBalance(to, TransferIn, amount);
      assert toBalance.Some?;
      r := RecordTransfer(from, to, amount, currency, fromBalance, toBalance.value);
    }

    method RecordTransfer(from: Id, to: Id, amount: nat, currency: string, fromBalance: nat, toBalance: nat)
      returns (r: Result<nat, Thrown>)
      requires Tracing() && PairChecked(program, got, to, currency) && |got| == 5
      requires BalanceAt(got, 3, fromBalance) && BalanceAt(got, 4, toBalance)
      requires from == program.from && amount == program.amount && HasBalance(from, fromBalance) && to in work.wallets
      modifies this`faults, this`struck, this`work, this`clock, this`nextId, this`got
      ensures Tracing() && Ends(r) && Told(r, from) && SameFirst(old(got), got)
      ensures old(NoFaults(faults)) ==> NoFaults(faults) && (r.Failure? ==> r.error.Api?)
    {
      var transfer :- InsertEntry(TransferRow(0, from, to, amount, currency));
      r := LogTransfer(from, to, amount, currency, fromBalance, toBalance, transfer);
    }

    method LogTransfer(from: Id, to: Id, amount: nat, currency: string, fromBalance: nat, toBalance: nat, transfer: Id)
      returns (r: Result<nat, Thrown>)
      requires Tracing() && PairChecked(program, got, to, currency) && |got| == 6
      requires BalanceAt(got, 3, fromBalance) && BalanceAt(got, 4, toBalance) && IdAt(got, 5) == transfer
      requires from == program.from && amount == program.amount && HasBalance(from, fromBalance) && to in work.wallets
      modifies this`faults, this`struck, this`work, this`clock, this`nextId, this`got
      ensures Tracing() && Ends(r) && Told(r, from) && SameFirst(old(got), got)
      ensures old(NoFaults(faults)) ==> NoFaults(faults) && (r.Failure? ==> r.error.Api?)
    {
      var _ :- LogBoth(from, to, TransferOut, TransferIn, amount, fromBalance, toBalance, transfer);
      var _ :- Audit(WalletTransfer, transfer);
      r := Success(fromBalance);
    }

    /**
      `resolvePayerWallet`: the named wallet, or the user's first active one, or the
      first of all when none is active; it is locked.
     */
    method ResolvePayerWallet(user: Id, payFrom: Option<Id>) returns (r: Result<Option<Wallet>, Thrown>, payer: Option<Id>)
      modifies this`faults, this`struck, this`got
      ensures payFrom.Some? ==> payer == payFrom
      ensures payFrom.None? && payer.Some? ==> IsPrimary(work, payer.value, user)
      ensures r.Success? && payer.None? ==> r.value == None && forall id <- work.wallets :: !OwnedBy(work, id, user)
      ensures r.Success? && payer.Some? ==> r.value == Find(work.wallets, payer.value)
      ensures r.Success? ==>
        got == old(got) + (if payFrom.Some? then [] else [Found(payer)]) + (if payer.Some? then [WalletIs(r.value)] else [])
      ensures r.Failure? ==> got == old(got) + (if payFrom.None? && payer.Some? then [Found(payer)] else [])
      ensures payFrom.Some? && old(Tracing() && Asks(LockRow(WalletRow(payFrom.value)))) ==> Tracing()
      ensures && payFrom.None? && old(Tracing() && Asks(ListWallets(user)))
              && (payer.Some? ==> Next(program, start.cap, old(got) + [Found(payer)], |old(got)| + 1) == Do(LockRow(WalletRow(payer.value))))
              ==> Tracing()
      ensures r.Failure? ==> Struck(r.error)
      ensures old(NoFaults(faults)) ==> r.Success? && NoFaults(faults)
    {
      payer := payFrom;
      if payFrom.None? {
        var primary := FindPrimary(user);
        if primary.Failure? {
          return Failure(primary.error), None;
        }
        payer := primary.value;
      }
      if payer.None? {
        return Success(None), payer;
      }
      r := LockWallet(payer.value);
    }

    method PayMerchantBody(merchant: Id, payFrom: Option<Id>, user: Id, amount: nat) returns (r: Result<nat, Thrown>, payer: Option<Id>)
      requires Begins(PayMerchant(merchant, payFrom, user, amount))
      modifies this`faults, this`struck, this`work, this`clock, this`nextId, this`got
      ensures Tracing() && Ends(r)
      ensures r.Success? ==> payer.Some? && Told(r, payer.value)
      ensures r.Success? ==> payer == if payFrom.Some? then payFrom else if |got| > 1 then FoundAt(got, 1) else None
      ensures |got| > 0 ==> got[0] == MerchantIs(Find(merchants, merchant))
      ensures payFrom.None? && |got| > 1 ==> got[1].Found? && PrimaryExactly(old(work), got[1].found, user)
      ensures old(NoFaults(faults)) ==> NoFaults(faults) && (r.Failure? ==> r.error.Api?)
    {
      payer := None;
      var status := FindMerchant(merchant);
      if status.Failure? {
        return Failure(status.error), payer;
      }
      var closed := MerchantRefusal(status.value);
      if closed.Some? {
        return Failure(Api(closed.value)), payer;
      }
      r, payer := ChargePayer(merchant, payFrom, user, amount);
    }

    /** What follows the check of the merchant. */
    method ChargePayer(merchant: Id, payFrom: Option<Id>, user: Id, amount: nat) returns (r: Result<nat, Thrown>, payer: Option<Id>)
      requires Tracing() && work == start && program == PayMerchant(merchant, payFrom, user, amount)
      requires |got| == 1 && got[0].MerchantIs? && MerchantRefusal(got[0].merchant).None?
      modifies this`faults, this`struck, this`work, this`clock, this`nextId, this`got
      ensures Tracing() && Ends(r) && SameFirst(old(got), got)
      ensures r.Success? ==> payer.Some? && Told(r, payer.value)
      ensures r.Success? ==> payer == if payFrom.Some? then payFrom else if |got| > 1 then FoundAt(got, 1) else None
      ensures payFrom.None? && |got| > 1 ==> got[1].Found? && PrimaryExactly(old(work), got[1].found, user)
      ensures old(NoFaults(faults)) ==> NoFaults(faults) && (r.Failure? ==> r.error.Api?)
    {
      var row;
      row, payer := ResolvePayerWallet(user, payFrom);
      if row.Failure? {
        return Failure(row.error), payer;
      }
      var refusal := Refusal(row.value, Some(user));
      if refusal.Some? {
        return Failure(Api(refusal.value)), payer;
      }
      r := PayFromWallet(merchant, payer.value, amount, row.value.value.currency);
    }

    method PayFromWallet(merchant: Id, id: Id, amount: nat, currency: string) returns (r: Result<nat, Thrown>)
      requires Tracing() && PayerChecked(program, got, id, currency) && |got| == PayerLockIndex(program.payFrom) + 1
      requires merchant == program.merchant && amount == program.amount && id in work.wallets
      modifies this`faults, this`struck, this`work, this`clock, this`nextId, this`got
      ensures Tracing() && Ends(r) && Told(r, id) && SameStart(old(got), got)
      ensures old(NoFaults(faults)) ==> NoFaults(faults) && (r.Failure? ==> r.error.Api?)
    {
      var balance :- MoveBalance(id, MerchantPayment, amount);
      if balance.None? {
        return Failure(Api(Insufficient));
      }
      var payment :- InsertEntry(PaymentRow(0, merchant, id, amount, currency));
      r := LogPayment(id, amount, currency, balance.value, payment);
    }

    method LogPayment(id: Id, amount: nat, currency: string, balance: nat, payment: Id) returns (r: Result<nat, Thrown>)
      requires Tracing() && PayerChecked(program, got, id, currency) && |got| == PayerLockIndex(program.payFrom) + 3
      requires BalanceAt(got, PayerLockIndex(program.payFrom) + 1, balance)
      requires IdAt(got, PayerLockIndex(program.payFrom) + 2) == payment && amount == program.amount && HasBalance(id, balance)
      modifies this`faults, this`struck, this`work, this`clock, this`nextId, this`got
      ensures Tracing() && Ends(r) && Told(r, id) && SameStart(old(got), got)
      ensures old(NoFaults(faults)) ==> NoFaults(faults) && (r.Failure? ==> r.error.Api?)
    {
      var _ :- LogTx(id, MerchantPayment, amount, balance, Some(payment));
      var _ :- Audit(MerchantPaid, payment);
      r := Success(balance);
    }

    method ApproveBody(request: Id, from: Id, user: Id, email: string) returns (r: Result<nat, Thrown>)
      requires Begins(Op.Approve(request, from, user, email))
      requires forall id <- work.requests :: work.requests[id].amount <= MAX_CENTS
      modifies this`faults, this`struck, this`work, this`clock, this`nextId, this`got
      ensures Tracing() && Ends(r) && Told(r, from)
      ensures old(NoFaults(faults)) ==> NoFaults(faults) && (r.Failure? ==> r.error.Api?)
    {
      var row :- FindByIdForUpdate(request);
      if row.None? || row.value.payer != email {
        return Failure(Api(RequestMissing));
      }
      if row.value.status != Pending {
        return Failure(Api(RequestSettled));
      }
      // NUMERIC(15, 2) arrives as text with two decimals.
      var accepted := StillAccepted(row.value.amount, work.cap);
      if !accepted {
        return Failure(Api(AmountRefused));
      }
      r := SettleBody(request, row.value, from, user);
    }

    method SettleBody(request: Id, row: Request, from: Id, user: Id) returns (r: Result<nat, Thrown>)
      requires Tracing() && program.Approve? && got == [RequestIs(Some(row))] && Find(work.requests, request) == Some(row)
      requires program.request == request && program.from == from && program.user == user
      requires RequestRefusal(Some(row), program.email, start.cap).None?
      modifies this`faults, this`struck, this`work, this`clock, this`nextId, this`got
      ensures Tracing() && Ends(r) && Told(r, from)
      ensures old(NoFaults(faults)) ==> NoFaults(faults) && (r.Failure? ==> r.error.Api?)
    {
      var locked :- LockWallets(from, row.wallet);
      var mine := Refusal(Find(locked, from), Some(user));
      if mine.Some? {
        return Failure(Api(mine.value));
      }
      var theirs := Refusal(Find(locked, row.wallet), None);
      if theirs.Some? {
        return Failure(Api(theirs.value));
      }
      if from == row.wallet {
        return Failure(Api(OwnRequest));
      }
      if locked[from].currency != row.currency {
        return Failure(Api(CurrencyMismatch));
      }
      r := Settle(request, row, from);
    }

    method Settle(request: Id, row: Request, from: Id) returns (r: Result<nat, Thrown>)
      requires Tracing() && SettlementChecked(program, start.cap, got, row) && |got| == 3
      requires program.request == request && program.from == from && from in work.wallets && row.wallet in work.wallets
      modifies this`faults, this`struck, this`work, this`clock, this`nextId, this`got
      ensures Tracing() && Ends(r) && Told(r, from)
      ensures old(NoFaults(faults)) ==> NoFaults(faults) && (r.Failure? ==> r.error.Api?)
    {
      var payerBalance :- MoveBalance(from, RequestOut, row.amount);
      if payerBalance.None? {
        return Failure(Api(Insufficient));
      }
      r := CreditRequester(request, row, from, payerBalance.value);
    }

    method CreditRequester(request: Id, row: Request, from: Id, payerBalance: nat) returns (r: Result<nat, Thrown>)
      requires Tracing() && SettlementChecked(program, start.cap, got, row) && |got| == 4 && BalanceAt(got, 3, payerBalance)
      requires program.request == request && program.from == from && HasBalance(from, payerBalance) && row.wallet in work.wallets
      modifies this`faults, this`struck, this`work, this`clock, this`nextId, this`got
      ensures Tracing() && Ends(r) && Told(r, from)
      ensures old(NoFaults(faults)) ==> NoFaults(faults) && (r.Failure? ==> r.error.Api?)
    {
      var requesterBalance :- MoveBalance(row.wallet, RequestIn, row.amount);
      assert requesterBalance.Some?;
      r := RecordSettlement(request, row, from, payerBalance, requesterBalance.value);
    }

    method RecordSettlement(request: Id, row: Request, from: Id, payerBalance: nat, requesterBalance: nat)
      returns (r: Result<nat, Thrown>)
      requires Tracing() && SettlementChecked(program, start.cap, got, row) && |got| == 5
      requires BalanceAt(got, 3, payerBalance) && BalanceAt(got, 4, requesterBalance)
      requires program.request == request && program.from == from && HasBalance(from, payerBalance) && row.wallet in work.wallets
      modifies this`faults, this`struck, this`work, this`clock, this`nextId, this`got
      ensures Tracing() && Ends(r) && Told(r, from)
      ensures old(NoFaults(faults)) ==> NoFaults(faults) && (r.Failure? ==> r.error.Api?)
    {
      var _ :- LogBoth(from, row.wallet, RequestOut, RequestIn, row.amount, payerBalance, requesterBalance, request);
      r := CloseRequest(request, row, from, payerBalance);
    }

    method CloseRequest(request: Id, row: Request, from: Id, payerBalance: nat) returns (r: Result<nat, Thrown>)
      requires Tracing() && SettlementChecked(program, start.cap, got, row) && |got| == 7
      requires BalanceAt(got, 3, payerBalance) && WalletAt(got, 4).Some?
      requires program.request == request && program.from == from && HasBalance(from, payerBalance)
      modifies this`faults, this`struck, this`work, this`clock, this`nextId, this`got
      ensures Tracing() && Ends(r) && Told(r, from)
      ensures old(NoFaults(faults)) ==> NoFaults(faults) && (r.Failure? ==> r.error.Api?)
    {
      var _ :- MarkPaid(request, from);
      var _ :- Audit(RequestPaid, request);
      r := Success(payerBalance);
    }

    method AdjustBody(id: Id, up: bool, amount: nat) returns (r: Result<nat, Thrown>)
      requires Begins(Op.Adjust(id, up, amount))
      modifies this`faults, this`struck, this`work, this`clock, this`nextId, this`got
      ensures Tracing() && Ends(r) && Told(r, id)
      ensures old(NoFaults(faults)) ==> NoFaults(faults) && (r.Failure? ==> r.error.Api?)
    {
      var kind := if up then AdjustmentCredit else AdjustmentDebit;
      var row :- LockWallet(id);
      if row.None? {
        return Failure(Api(WalletMissing));
      }
      if row.value.status == Closed {
        return Failure(Api(WalletClosed));
      }
      var balance :- MoveBalance(id, kind, amount);
      if balance.None? {
        return Failure(Api(Insufficient));
      }
      r := RecordAdjustment(id, up, amount, balance.value);
    }

    method RecordAdjustment(id: Id, up: bool, amount: nat, balance: nat) returns (r: Result<nat, Thrown>)
      requires Tracing() && program == Op.Adjust(id, up, amount) && |got| == 2
      requires AdminRefusal(WalletAt(got, 0)).None? && BalanceAt(got, 1, balance) && HasBalance(id, balance)
      modifies this`faults, this`struck, this`work, this`clock, this`nextId, this`got
      ensures Tracing() && Ends(r) && Told(r, id)
      ensures old(NoFaults(faults)) ==> NoFaults(faults) && (r.Failure? ==> r.error.Api?)
    {
      var _ :- LogTx(id, if up then AdjustmentCredit else AdjustmentDebit, amount, balance, None);
      var _ :- Audit(AdminAdjustment, id);
      r := Success(balance);
    }

    method StatusBody(id: Id, status: WalletStatus) returns (r: Result<nat, Thrown>)
      requires Begins(SetStatus(id, status))
      modifies this`faults, this`struck, this`work, this`clock, this`nextId, this`got
      ensures Tracing() && Ends(r) && Told(r, id)
      ensures old(NoFaults(faults)) ==> NoFaults(faults) && (r.Failure? ==> r.error.Api?)
    {
      var row :- LockWallet(id);
      if row.None? {
        return Failure(Api(WalletMissing));
      }
      if row.value.status == Closed {
        return Failure(Api(WalletClosed));
      }
      if row.value.status == status {
        return Failure(Api(AlreadyInStatus));
      }
      var _ :- UpdateStatus(id, status);
      var _ :- Audit(if status == Frozen then WalletFreeze else WalletUnfreeze, id);
      r := Success(row.value.balance);
    }

    // --------------------------------------------------------- withTransaction

    /** The tables satisfy their invariant, every ledger row is older than the clock, and generated ids are new. */
    ghost predicate Valid()
      reads this
    {
      Stored(db, clock, nextId)
    }

    /** `fn(client)`. */
    method Body(op: Op) returns (r: Result<nat, Thrown>)
      requires InTransaction(op) && Begins(op)
      requires forall id <- work.requests :: work.requests[id].amount <= MAX_CENTS
      modifies this`faults, this`struck, this`work, this`clock, this`nextId, this`got
      ensures Tracing() && Ends(r) && Told(r, Subject(op, RefusalOracle(op, got)))
      ensures Observed()
      ensures old(NoFaults(faults)) ==> NoFaults(faults) && (r.Failure? ==> r.error.Api?)
    {
      match op
      case Gateway(deposit, id, user, amount) =>
        r := GatewayBody(deposit, id, user, amount);
      case Transfer(from, number, user, amount) =>
        r := TransferBody(from, number, user, amount);
      case PayMerchant(merchant, payFrom, user, amount) =>
        var payer;
        r, payer := PayMerchantBody(merchant, payFrom, user, amount);
      case Approve(request, from, user, email) =>
        r := ApproveBody(request, from, user, email);
      case Adjust(id, up, amount) =>
        r := AdjustBody(id, up, amount);
      case SetStatus(id, status) =>
        r := StatusBody(id, status);
    }

    /** What a caller of `withTransaction` learns: the operation was performed whole, and the balance it left. */
    ghost predicate Performed(op: Op, o: Oracle, before: DB, balance: nat)
      reads this`db, this`merchants
    {
      && Saw(op, o, before, merchants)
      && Honest(op, o, before) && Perform(op, o, before) == Success(db)
      && Subject(op, o) in db.wallets && db.wallets[Subject(op, o)].balance == balance
    }

    /**
      Only retryable failures were tried again, and they were until one attempt more than
      `retries` had failed; what is thrown is the operation's own error or what broke it.
     */
    ghost predicate Retried(r: Result<nat, Thrown>, retries: nat)
      reads this`failed, this`struck
    {
      var n := |failed|;
      && (r.Failure? ==> r.error.Api? || r.error.NoConnection? || Struck(r.error))
      && (forall i :: 0 <= i < n - 1 ==> failed[i] == Sql(Retryable))
      && (r.Success? ==> n <= retries && (n > 0 ==> failed[n - 1] == Sql(Retryable)))
      && (r.Failure? ==> 1 <= n <= retries + 1 && failed[n - 1] == r.error && (r.error == Sql(Retryable) ==> n == retries + 1))
    }

    /** The session may commit: `work` is the whole operation on `db`, and keeps the invariant. */
    ghost predicate MayCommit(op: Op, o: Oracle, balance: nat)
      reads this`db, this`work, this`merchants, this`clock, this`nextId
    {
      && Saw(op, o, db, merchants)
      && Honest(op, o, db) && Perform(op, o, db) == Success(work) && HasBalance(Subject(op, o), balance)
      && Stored(work, clock, nextId)
    }

    /** BEGIN and the body. */
    method Run(op: Op) returns (r: Result<nat, Thrown>)
      requires InTransaction(op) && OpOk(op, db.cap) && Valid()
      modifies this`faults, this`struck, this`work, this`clock, this`nextId, this`got, this`program, this`start, this`since, this`firstId
      ensures r.Success? || r.error.Api? ==> Concluded(op, r)
      ensures r.Failure? ==> r.error.Api? || Struck(r.error)
      ensures Valid()
      ensures old(NoFaults(faults)) ==> NoFaults(faults) && (r.Success? || r.error.Api?)
    {
      var begin := Statement();
      if begin.Some? {
        return Failure(Sql(begin.value));
      }
      work := db;
      program, start, got, since, firstId := op, db, [], clock, nextId;
      Began(op, db, clock);
      AmountsFit(db);
      r := Body(op);
      StoredLater(db, since, firstId, clock, nextId);
    }

    /** The program of `op`, started on the committed tables, has run to its end. */
    ghost predicate Concluded(op: Op, r: Result<nat, Thrown>)
      reads this
    {
      && program == op && start == db && Tracing() && Ends(r) && Told(r, Subject(op, RefusalOracle(op, got)))
      && Stored(db, since, firstId)
      && Observed()
    }

    lemma Conclude(op: Op, r: Result<nat, Thrown>) returns (o: Oracle)
      requires InTransaction(op) && OpOk(op, db.cap) && Concluded(op, r) && (r.Success? || r.error.Api?)
      ensures r.Success? ==> MayCommit(op, o, r.value)
      ensures r.Failure? ==> Perform(op, o, db) == Failure(r.error.error) && Saw(op, o, db, merchants)
    {
      if r.Success? {
        o := OracleOf(op, got);
        CommitIsStored(op, start, got, work, since, clock, firstId, nextId);
        if op.Transfer? || op.PayMerchant? {
          ObservedAtCommit(op, start, got, work, since, clock);
        }
      } else {
        o := RefusalOracle(op, got);
        RefusalIsPerform(op, start, got, work, since, clock, r.error.error);
        if op.Transfer? || op.PayMerchant? {
          ObservedAtRefusal(op, start, got, work, since, clock, r.error.error);
        }
      }
    }

    method RunToEnd(op: Op) returns (r: Result<nat, Thrown>, ghost o: Oracle)
      requires InTransaction(op) && OpOk(op, db.cap) && Valid()
      modifies this`faults, this`struck, this`work, this`clock, this`nextId, this`got, this`program, this`start, this`since, this`firstId
      ensures r.Success? ==> MayCommit(op, o, r.value)
      ensures r.Failure? && r.error.Api? ==> Perform(op, o, db) == Failure(r.error.error) && Saw(op, o, db, merchants)
      ensures r.Failure? ==> r.error.Api? || Struck(r.error)
      ensures Valid()
      ensures old(NoFaults(faults)) ==> NoFaults(faults) && (r.Success? || r.error.Api?)
    {
      o := RefusalOracle(op, []);
      r := Run(op);
      if r.Success? || r.error.Api? {
        o := Conclude(op, r);
      }
    }

    method CommitWork() returns (r: Result<(), Thrown>)
      modifies this`db, this`faults, this`struck
      ensures db == if r.Success? then work else old(db)
      ensures r.Failure? ==> Struck(r.error)
      ensures old(NoFaults(faults)) ==> r.Success?
    {
      var commit := Statement();
      if commit.Some? {
        return Failure(Sql(commit.value));
      }
      db := work;
      r := Success(());
    }

    /** BEGIN, the body, COMMIT; a COMMIT that fails commits nothing. */
    method Transact(op: Op) returns (r: Result<nat, Thrown>, ghost o: Oracle)
      requires InTransaction(op) && OpOk(op, db.cap) && Valid()
      modifies this`db, this`faults, this`struck, this`work, this`clock, this`nextId, this`got, this`program, this`start, this`since, this`firstId
      ensures r.Success? ==> Performed(op, o, old(db), r.value)
      ensures r.Failure? ==> db == old(db) && (r.error.Api? || Struck(r.error))
      ensures r.Failure? && r.error.Api? ==> Perform(op, o, db) == Failure(r.error.error) && Saw(op, o, db, merchants)
      ensures old(NoFaults(faults)) ==> r.Success? || r.error.Api?
      ensures Valid()
    {
      r, o := RunToEnd(op);
      if r.Success? {
        var commit := CommitWork();
        if commit.Failure? {
          return Failure(commit.error), o;
        }
      }
    }

    /** ROLLBACK: whether it fails does not matter. */
    method Rollback()
      modifies this`faults, this`work
      ensures faults == if old(faults) == [] then [] else old(faults)[1..]
      ensures work == db
    {
      if faults != [] {
        faults := faults[1..];
      }
      work := db;
    }

    /** One attempt, with the ROLLBACK that follows a failure whatever it returns. */
    method Attempt(op: Op) returns (r: Result<nat, Thrown>, ghost o: Oracle)
      requires InTransaction(op) && OpOk(op, db.cap) && Valid()
      modifies this
      ensures merchants == old(merchants) && failed == old(failed)
      ensures r.Success? ==> Performed(op, o, old(db), r.value)
      ensures r.Failure? ==> db == old(db) && (r.error.Api? || r.error.NoConnection? || Struck(r.error))
      ensures r == Failure(NoConnection) <==> old(faults) != [] && old(faults)[0].Some?
      ensures r.Failure? && r.error.Api? ==> Perform(op, o, db) == Failure(r.error.error) && Saw(op, o, db, merchants)
      ensures old(NoFaults(faults)) ==> r.Success? || r.error.Api?
      ensures Valid()
    {
      var connect := Statement();
      if connect.Some? {
        return Failure(NoConnection), RefusalOracle(op, []);
      }
      r, o := Transact(op);
      if r.Failure? {
        Rollback();
      }
    }

    /**
      `withTransaction`: retryable failures are tried again, at most `maxRetries`
      times.  A return means that one attempt's whole effect is committed; a throw,
      wherever the failure struck, that nothing is.
     */
    method WithTransaction(op: Op, maxRetries: nat) returns (r: Result<nat, Thrown>, ghost o: Oracle, attempts: nat)
      requires InTransaction(op) && OpOk(op, db.cap) && Valid()
      modifies this
      ensures merchants == old(merchants) && 1 <= attempts <= maxRetries + 1
      ensures r.Success? ==> Performed(op, o, old(db), r.value)
      ensures r.Failure? ==> db == old(db)
      ensures old(faults) != [] && old(faults)[0].Some? ==> r == Failure(NoConnection)
      ensures attempts == |failed| + (if r.Success? then 1 else 0) && Retried(r, maxRetries)
      ensures r.Failure? && r.error.Api? ==> Perform(op, o, db) == Failure(r.error.error) && Saw(op, o, db, merchants)
      ensures old(NoFaults(faults)) ==> attempts == 1 && (r.Success? || r.error.Api?)
      ensures Valid()
    {
      attempts, failed := 0, [];
      while true
        invariant attempts > 0 ==> old(faults) == [] || old(faults)[0].None?
        invariant |failed| == attempts && forall i :: 0 <= i < attempts ==> failed[i] == Sql(Retryable)
        invariant Valid() && db == old(db) && merchants == old(merchants) && attempts <= maxRetries
        invariant attempts == 0 ==> faults == old(faults)
        invariant old(NoFaults(faults)) ==> attempts == 0 && NoFaults(faults)
        decreases maxRetries - attempts
      {
        r, o := Attempt(op);
        attempts := attempts + 1;
        if r.Failure? {
          failed := failed + [r.error];
        }
        if r.Success? || attempts > maxRetries || r.error != Sql(Retryable) {
          return;
        }
      }
    }

    // ------------------------------------------------------------ the services

    /** A money operation on an amount as the client wrote it; `op` is the operation but for the amount. */
    method MoneyOperation(amount: Input, op: Op) returns (r: Result<nat, Thrown>, ghost o: Oracle, cents: nat)
      requires Valid() && MovesAmount(op)
      modifies this
      ensures r == Failure(Api(AmountRefused)) <==> !IsValidAmount(amount, old(db).cap)
      ensures IsValidAmount(amount, old(db).cap) ==> NormalizeAmount(amount, old(db).cap) == Some(Canonical(cents))
      ensures r.Failure? ==> db == old(db)
      ensures IsValidAmount(amount, old(db).cap) ==> Retried(r, 3)
      ensures old(NoFaults(faults)) ==> r.Success? || r.error.Api?
      ensures Valid()
      ensures merchants == old(merchants)
      ensures r.Success? ==> Performed(WithAmount(op, cents), o, old(db), r.value)
      ensures IsValidAmount(amount, old(db).cap) && r.Failure? && r.error.Api? ==>
        Perform(WithAmount(op, cents), o, db) == Failure(r.error.error) && Saw(WithAmount(op, cents), o, db, merchants)
    {
      o := RefusalOracle(op, []);
      var value := NormalizeAmount(amount, db.cap);
      ValidatorsAgree(amount, db.cap);
      if value.None? {
        return Failure(Api(AmountRefused)), o, 0;
      }
      cents := CanonicalAmount(amount, db.cap);
      ghost var before := db;
      var attempts;
      r, o, attempts := WithTransaction(WithAmount(op, cents), MAX_RETRIES);
      if r.Failure? && r.error.Api? {
        MovementNotRefusedForAmount(WithAmount(op, cents), o, before);
      }
    }

    /** Without faults it succeeds exactly on one's own active wallet with room for the amount, and says which error otherwise. */
    method TopUp(id: Id, user: Id, amount: Input) returns (r: Result<nat, Thrown>, ghost o: Oracle, cents: nat)
      requires Valid()
      modifies this
      ensures r == Failure(Api(AmountRefused)) <==> !IsValidAmount(amount, old(db).cap)
      ensures IsValidAmount(amount, old(db).cap) ==> NormalizeAmount(amount, old(db).cap) == Some(Canonical(cents))
      ensures r.Failure? ==> db == old(db)
      ensures IsValidAmount(amount, old(db).cap) ==> Retried(r, 3)
      ensures old(NoFaults(faults)) ==> r.Success? || r.error.Api?
      ensures Valid()
      ensures r.Success? ==>
        Performed(Gateway(true, id, user, cents), o, old(db), r.value) && r.value == old(db).wallets[id].balance + cents
      ensures IsValidAmount(amount, old(db).cap) && r.Success? ==>
        Effects.TopUpOutcome(old(db), id, user, cents, o) == Success(db)
      ensures IsValidAmount(amount, old(db).cap) && r.Failure? && r.error.Api? ==>
        Effects.TopUpOutcome(old(db), id, user, cents, o) == Failure(r.error.error)
      ensures old(NoFaults(faults)) && IsValidAmount(amount, old(db).cap) ==>
        (r.Success? <==> Effects.MaySpend(old(db), id, user) && Effects.HasRoom(old(db), id, cents))
    {
      ghost var before := db;
      r, o, cents := MoneyOperation(amount, Gateway(true, id, user, 0));
      Effects.TopUpEffect(before, id, user, cents, o);
    }

    /** Without faults it succeeds exactly on one's own active wallet that has the amount. */
    method Withdraw(id: Id, user: Id, amount: Input) returns (r: Result<nat, Thrown>, ghost o: Oracle, cents: nat)
      requires Valid()
      modifies this
      ensures r == Failure(Api(AmountRefused)) <==> !IsValidAmount(amount, old(db).cap)
      ensures IsValidAmount(amount, old(db).cap) ==> NormalizeAmount(amount, old(db).cap) == Some(Canonical(cents))
      ensures r.Failure? ==> db == old(db)
      ensures IsValidAmount(amount, old(db).cap) ==> Retried(r, 3)
      ensures old(NoFaults(faults)) ==> r.Success? || r.error.Api?
      ensures Valid()
      ensures r.Success? ==>
        && Performed(Gateway(false, id, user, cents), o, old(db), r.value)
        && r.value == old(db).wallets[id].balance - cents
      ensures IsValidAmount(amount, old(db).cap) && r.Success? ==>
        Effects.WithdrawOutcome(old(db), id, user, cents, o) == Success(db)
      ensures IsValidAmount(amount, old(db).cap) && r.Failure? && r.error.Api? ==>
        Effects.WithdrawOutcome(old(db), id, user, cents, o) == Failure(r.error.error)
      ensures old(NoFaults(faults)) && IsValidAmount(amount, old(db).cap) ==>
        (r.Success? <==> Effects.MaySpend(old(db), id, user) && Effects.Has(old(db), id, cents))
    {
      ghost var before := db;
      r, o, cents := MoneyOperation(amount, Gateway(false, id, user, 0));
      Effects.WithdrawEffect(before, id, user, cents, o);
    }

    /**
      `o.other` is the wallet that has the number.  The balance returned is the sender's:
      the receiver's is private to the receiver.
     */
    method Send(from: Id, number: string, user: Id, amount: Input) returns (r: Result<nat, Thrown>, ghost o: Oracle, cents: nat)
      requires Valid()
      modifies this
      ensures r == Failure(Api(AmountRefused)) <==> !IsValidAmount(amount, old(db).cap)
      ensures IsValidAmount(amount, old(db).cap) ==> NormalizeAmount(amount, old(db).cap) == Some(Canonical(cents))
      ensures r.Failure? ==> db == old(db)
      ensures IsValidAmount(amount, old(db).cap) ==> Retried(r, 3)
      ensures old(NoFaults(faults)) ==> r.Success? || r.error.Api?
      ensures Valid()
      ensures r.Success? ==>
        && Performed(Transfer(from, number, user, cents), o, old(db), r.value)
        && r.value == old(db).wallets[from].balance - cents
      ensures IsValidAmount(amount, old(db).cap) && r.Success? ==>
        (if o.other.None? then Failure(ReceiverMissing) else Effects.TransferOutcome(old(db), from, o.other.value, user, cents, o))
        == Success(db)
      ensures IsValidAmount(amount, old(db).cap) && r.Failure? && r.error.Api? ==>
        (if o.other.None? then Failure(ReceiverMissing) else Effects.TransferOutcome(old(db), from, o.other.value, user, cents, o))
        == Failure(r.error.error)
      ensures IsValidAmount(amount, old(db).cap) && (r.Success? || r.error.Api?) ==> FoundExactly(old(db), o.other, number)
      ensures forall to :: old(NoFaults(faults)) && IsValidAmount(amount, old(db).cap) && HasNumber(old(db), to, number) ==>
        (r.Success? <==> Effects.TransferAllowed(old(db), from, to, user, cents))
    {
      ghost var before := db;
      r, o, cents := MoneyOperation(amount, Transfer(from, number, user, 0));
      Effects.TransferEffect(before, from, number, user, cents, o);
      if r.Success? {
        Effects.TransferTold(before, from, o.other.value, user, cents, o);
      }
      NumbersAreUnique(before);
    }

    /** `o` is the merchant status that was read and the wallet that was resolved. */
    method Pay(merchant: Id, payFrom: Option<Id>, user: Id, amount: Input) returns (r: Result<nat, Thrown>, ghost o: Oracle, cents: nat)
      requires Valid()
      modifies this
      ensures r == Failure(Api(AmountRefused)) <==> !IsValidAmount(amount, old(db).cap)
      ensures IsValidAmount(amount, old(db).cap) ==> NormalizeAmount(amount, old(db).cap) == Some(Canonical(cents))
      ensures r.Failure? ==> db == old(db)
      ensures IsValidAmount(amount, old(db).cap) ==> Retried(r, 3)
      ensures old(NoFaults(faults)) ==> r.Success? || r.error.Api?
      ensures Valid()
      ensures r.Success? ==>
        && Performed(PayMerchant(merchant, payFrom, user, cents), o, old(db), r.value)
        && o.other.Some?
        && r.value == old(db).wallets[o.other.value].balance - cents
      ensures IsValidAmount(amount, old(db).cap) && r.Success? ==>
        Effects.PaymentOutcome(old(db), merchant, user, cents, o) == Success(db)
      ensures IsValidAmount(amount, old(db).cap) && r.Failure? && r.error.Api? ==>
        Effects.PaymentOutcome(old(db), merchant, user, cents, o) == Failure(r.error.error)
      ensures IsValidAmount(amount, old(db).cap) && (r.Success? || r.error.Api?) ==>
        Saw(PayMerchant(merchant, payFrom, user, cents), o, old(db), old(merchants))
    {
      ghost var before := db;
      r, o, cents := MoneyOperation(amount, PayMerchant(merchant, payFrom, user, 0));
      Effects.PaymentEffect(before, merchant, payFrom, user, cents, o);
      if r.Success? {
        Effects.PaymentTold(before, merchant, user, cents, o);
      }
    }

    /** Without faults it succeeds exactly on a wallet that is not closed and has the room or the amount. */
    method Adjust(id: Id, up: bool, amount: Input) returns (r: Result<nat, Thrown>, ghost o: Oracle, cents: nat)
      requires Valid()
      modifies this
      ensures r == Failure(Api(AmountRefused)) <==> !IsValidAmount(amount, old(db).cap)
      ensures IsValidAmount(amount, old(db).cap) ==> NormalizeAmount(amount, old(db).cap) == Some(Canonical(cents))
      ensures r.Failure? ==> db == old(db)
      ensures IsValidAmount(amount, old(db).cap) ==> Retried(r, 3)
      ensures old(NoFaults(faults)) ==> r.Success? || r.error.Api?
      ensures Valid()
      ensures r.Success? ==>
        && Performed(Op.Adjust(id, up, cents), o, old(db), r.value)
        && r.value == if up then old(db).wallets[id].balance + cents else old(db).wallets[id].balance - cents
      ensures IsValidAmount(amount, old(db).cap) && r.Success? ==> Effects.AdjustOutcome(old(db), id, up, cents, o) == Success(db)
      ensures IsValidAmount(amount, old(db).cap) && r.Failure? && r.error.Api? ==>
        Effects.AdjustOutcome(old(db), id, up, cents, o) == Failure(r.error.error)
      ensures old(NoFaults(faults)) && IsValidAmount(amount, old(db).cap) ==>
        (r.Success? <==> id in old(db).wallets && old(db).wallets[id].status != Closed
                         && if up then Effects.HasRoom(old(db), id, cents) else Effects.Has(old(db), id, cents))
    {
      ghost var before := db;
      r, o, cents := MoneyOperation(amount, Op.Adjust(id, up, 0));
      Effects.AdjustEffect(before, id, up, cents, o);
    }

    /** The approver must be the request's payer and own the wallet that pays. */
    method Approve(request: Id, from: Id, user: Id, email: string) returns (r: Result<nat, Thrown>, ghost o: Oracle)
      requires Valid()
      modifies this
      ensures r.Success? ==> Performed(Op.Approve(request, from, user, email), o, old(db), r.value)
      ensures r.Success? ==> Effects.ApprovalOutcome(old(db), request, from, user, email, o) == Success(db)
      ensures r.Success? ==> r.value == old(db).wallets[from].balance - old(db).requests[request].amount
      ensures r.Failure? ==> db == old(db)
      ensures r.Failure? && r.error.Api? ==>
        Effects.ApprovalOutcome(old(db), request, from, user, email, o) == Failure(r.error.error)
      ensures Retried(r, 3)
      ensures old(NoFaults(faults)) ==> r.Success? || r.error.Api?
      ensures Valid()
    {
      ghost var before := db;
      var attempts;
      r, o, attempts := WithTransaction(Op.Approve(request, from, user, email), MAX_RETRIES);
      Effects.ApprovalEffect(before, request, from, user, email, o);
      if r.Success? {
        Effects.ApprovalTold(before, request, from, user, email, o);
      }
    }

    method SetWalletStatus(id: Id, status: WalletStatus) returns (r: Result<nat, Thrown>, ghost o: Oracle)
      requires Valid()
      modifies this
      ensures r.Success? ==> Performed(SetStatus(id, status), o, old(db), r.value)
      ensures r.Success? ==> Effects.StatusOutcome(old(db), id, status) == Success(db)
      ensures r.Failure? ==> db == old(db)
      ensures r.Failure? && r.error.Api? ==> Effects.StatusOutcome(old(db), id, status) == Failure(r.error.error)
      ensures Retried(r, 3)
      ensures old(NoFaults(faults)) ==> r.Success? || r.error.Api?
      ensures Valid()
    {
      ghost var before := db;
      var attempts;
      r, o, attempts := WithTransaction(SetStatus(id, status), MAX_RETRIES);
      Effects.StatusEffect(before, id, status, o);
    }

    // ------------------------------------------------------------- new wallets

    /**
      `walletModel.create`: `draws` are the random numbers it would try.  A number
      that is taken is drawn again, anything else is thrown.
     */
    method CreateWallet(owner: Id, currency: string, now: nat, draws: seq<string>) returns (r: Result<Id, Thrown>)
      requires Valid() && |draws| == 5
      modifies this`db, this`nextId, this`faults, this`struck
      ensures r.Success? ==> exists k ::
        && 0 <= k < |draws| && CanOpen(old(db), r.value, draws[k]) && db == Open(old(db), r.value, owner, draws[k], currency, now)
        && (forall j :: 0 <= j < k ==> Taken(old(db), draws[j]))
        && db.wallets == old(db).wallets[r.value := Wallet(owner, draws[k], currency, 0, Active, now)]
        && r.value !in old(db).wallets && forall id <- old(db).wallets :: old(db).wallets[id].number != draws[k]
      ensures r.Failure? ==> db == old(db)
      ensures r == Failure(NumbersExhausted) ==> forall k :: 0 <= k < |draws| ==> Taken(db, draws[k])
      ensures r.Failure? ==> Struck(r.error) || r.error.NumbersExhausted?
      ensures old(NoFaults(faults)) ==> r.Success? || r.error.NumbersExhausted?
      ensures Valid()
    {
      for attempt := 0 to MAX_NUMBER_ATTEMPTS
        invariant Valid() && db == old(db) && nextId == old(nextId) && (old(NoFaults(faults)) ==> NoFaults(faults))
        invariant forall j :: 0 <= j < attempt ==> Taken(db, draws[j])
      {
        var fault := Statement();
        if fault.Some? {
          return Failure(Sql(fault.value));
        }
        if !Taken(db, draws[attempt]) {
          OpenKeeps(db, nextId, owner, draws[attempt], currency, now);
          db := db.(wallets := db.wallets[nextId := Wallet(owner, draws[attempt], currency, 0, Active, now)]);
          r := Success(nextId);
          nextId := nextId + 1;
          return;
        }
      }
      r := Failure(NumbersExhausted);
    }

    // --------------------------------------------------------- payment requests

    /** `create`: the INSERT commits by itself. */
    method Create(row: Request) returns (r: Result<Id, Thrown>)
      requires nextId !in db.requests
      modifies this`db, this`nextId, this`faults, this`struck
      ensures r.Success? ==> r.value == old(nextId) && db == SetRequest(old(db), r.value, row) && nextId == old(nextId) + 1
      ensures r.Failure? ==> Struck(r.error) && db == old(db) && nextId == old(nextId)
      ensures old(NoFaults(faults)) ==> r.Success?
    {
      var insert := Statement();
      if insert.Some? {
        return Failure(Sql(insert.value));
      }
      db := db.(requests := db.requests[nextId := row]);
      r := Success(nextId);
      nextId := nextId + 1;
    }

    /** `createRequest`: the amount is validated first. */
    method CreateRequest(id: Id, user: Id, email: string, payer: string, amount: Input)
      returns (r: Result<Id, Thrown>, cents: nat)
      requires Valid()
      modifies this`db, this`nextId, this`faults, this`struck
      ensures IsValidAmount(amount, old(db).cap) ==> NormalizeAmount(amount, old(db).cap) == Some(Canonical(cents))
      ensures r == Failure(Api(AmountRefused)) <==> !IsValidAmount(amount, old(db).cap)
      ensures r.Success? ==> r.value == old(nextId)
      ensures IsValidAmount(amount, old(db).cap) ==>
        Requested(old(db), db, id, user, email, payer, cents, r, old(NoFaults(faults)))
      ensures r.Failure? ==> db == old(db)
      ensures Valid()
    {
      cents := 0;
      var value := NormalizeAmount(amount, db.cap);
      ValidatorsAgree(amount, db.cap);
      if value.None? {
        return Failure(Api(AmountRefused)), cents;
      }
      cents := CanonicalAmount(amount, db.cap);
      r := OpenRequestFor(id, user, email, payer, cents);
    }

    /** Then the wallet is read, from which the currency comes, and the request inserted. */
    method OpenRequestFor(id: Id, user: Id, email: string, payer: string, cents: nat) returns (r: Result<Id, Thrown>)
      requires Valid() && AmountOk(cents, db.cap)
      modifies this`db, this`nextId, this`faults, this`struck
      ensures Requested(old(db), db, id, user, email, payer, cents, r, old(NoFaults(faults)))
      ensures r != Failure(Api(AmountRefused)) && (r.Failure? ==> db == old(db)) && (r.Success? ==> r.value == old(nextId))
      ensures Valid()
    {
      if payer == email {
        return Failure(Api(OwnRequest));
      }
      var read := Statement();
      if read.Some? {
        return Failure(Sql(read.value));
      }
      var wallet := Find(db.wallets, id);
      var refusal := Refusal(wallet, Some(user));
      if refusal.Some? {
        return Failure(Api(refusal.value));
      }
      ghost var before, o := db, Oracle(None, None, wallet, nextId, 0, 0);
      r := Create(NewRequest(id, wallet.value, payer, cents));
      if r.Success? {
        CreateIsStored(before, Op.CreateRequest(id, user, email, payer, cents), o, clock);
      }
    }

    /** `updateByRequester`, `cancelByRequester` and `decline`: one guarded UPDATE each. */
    method GuardedUpdate(op: Op) returns (r: Result<Request, Thrown>)
      requires op.UpdateRequest? || op.CancelRequest? || op.DeclineRequest?
      modifies this`db, this`faults, this`struck
      ensures r.Success? ==> Amend(old(db), op) == Success(db) && Find(db.requests, op.request) == Some(r.value)
      ensures r.Failure? ==> db == old(db)
      ensures r.Failure? && r.error.Api? ==> r.error.error == RequestMissing && Amend(db, op) == Failure(RequestMissing)
      ensures r.Failure? ==> r.error.Api? || Struck(r.error)
      ensures old(NoFaults(faults)) ==> r.Success? || r.error.Api?
    {
      var fault := Statement();
      if fault.Some? {
        return Failure(Sql(fault.value));
      }
      if op.request !in db.requests || db.requests[op.request].status != Pending {
        return Failure(Api(RequestMissing));
      }
      var row := db.requests[op.request];
      if op.DeclineRequest? {
        if row.payer != op.email {
          return Failure(Api(RequestMissing));
        }
        row := row.(status := Declined);
      } else {
        if row.wallet !in db.wallets || db.wallets[row.wallet].owner != op.user {
          return Failure(Api(RequestMissing));
        }
        row := if op.UpdateRequest? then row.(amount := op.amount) else row.(status := Cancelled);
      }
      db := db.(requests := db.requests[op.request := row]);
      r := Success(row);
    }

    method AmendRequest(op: Op) returns (r: Result<Request, Thrown>)
      requires Valid() && (op.UpdateRequest? || op.CancelRequest? || op.DeclineRequest?) && OpOk(op, db.cap)
      modifies this`db, this`faults, this`struck
      ensures r.Success? ==> Amend(old(db), op) == Success(db) && Find(db.requests, op.request) == Some(r.value)
      ensures r.Success? ==> Effects.AmendOutcome(old(db), op) == Success(db)
      ensures r.Failure? ==> db == old(db)
      ensures r.Failure? && r.error.Api? ==>
        r.error.error == RequestMissing && Effects.AmendOutcome(db, op) == Failure(RequestMissing)
      ensures old(NoFaults(faults)) ==> r.Success? || r.error.Api?
      ensures Valid()
    {
      ghost var before := db;
      r := GuardedUpdate(op);
      Effects.AmendEffect(before, op, RefusalOracle(op, []));
      if r.Success? {
        AmendIsStored(before, op, clock, nextId);
      }
    }

    /** `updateRequest`: the new amount is validated as the first one was. */
    method UpdateRequest(request: Id, user: Id, amount: Input) returns (r: Result<Request, Thrown>)
      requires Valid()
      modifies this`db, this`faults, this`struck
      ensures r.Success? ==>
        && NormalizeAmount(amount, old(db).cap) == Some(Canonical(r.value.amount))
        && Effects.IsRequester(old(db), request, user)
        && r.value == old(db).requests[request].(amount := r.value.amount)
        && db == old(db).(requests := old(db).requests[request := r.value])
      ensures r.Failure? ==> db == old(db)
      ensures r == Failure(Api(AmountRefused)) <==> !IsValidAmount(amount, old(db).cap)
      ensures IsValidAmount(amount, old(db).cap) && r.Failure? && r.error.Api? ==>
        r.error.error == RequestMissing && !Effects.IsRequester(old(db), request, user)
      ensures old(NoFaults(faults)) ==> r.Success? || r.error.Api?
      ensures Valid()
    {
      var value := NormalizeAmount(amount, db.cap);
      ValidatorsAgree(amount, db.cap);
      if value.None? {
        return Failure(Api(AmountRefused));
      }
      var cents := CanonicalAmount(amount, db.cap);
      r := AmendRequest(Op.UpdateRequest(request, user, cents));
    }
  }

  /** What `credit` or `debit` returns: a new balance, nothing when no row matched, or the column's overflow. */
  function MoveResult(db: DB, id: Id, kind: Kind, amount: nat): Result<Option<nat>, Thrown> {
    if CanPost(db, id, kind, amount) then Success(Some(Moved(db.wallets[id], kind, amount).value.balance))
    else if id in db.wallets && Incoming(kind) then Failure(Api(OutOfRange))
    else Success(None)
  }

  /** The unique constraint on wallet numbers would refuse this one. */
  predicate Taken(db: DB, number: string) {
    exists id <- db.wallets :: db.wallets[id].number == number
  }

  /**
    Asking for money: one pending request is inserted with what was asked for, in the
    wallet's currency; or nothing, and an error says why.  Without faults it succeeds
    exactly on one's own active wallet and somebody else's email.
   */
  ghost predicate Requested(before: DB, after: DB, id: Id, user: Id, email: string, payer: string, cents: nat,
                            r: Result<Id, Thrown>, quiet: bool) {
    && (r.Success? ==>
          && r.value !in before.requests && payer != email && Effects.MaySpend(before, id, user)
          && after == before.(requests := before.requests[r.value :=
                                Request(id, payer, None, cents, before.wallets[id].currency, Pending)])
          && OpenRequest(before, id, user, email, payer, cents, Oracle(None, None, Find(before.wallets, id), r.value, 0, 0))
             == Success(after))
    && (r.Failure? ==> after == before)
    && (r.Failure? && r.error.Api? ==>
          if payer == email then r.error.error == OwnRequest
          else !Effects.MaySpend(before, id, user) && r.error.error == Effects.SpendError(before, id, user))
    && (quiet ==> r.Success? || r.error.Api?)
  }

  /** A movement whose amount was validated is never refused for it. */
  lemma MovementNotRefusedForAmount(op: Op, o: Oracle, db: DB)
    requires MovesAmount(op)
    ensures Perform(op, o, db) != Failure(AmountRefused)
  {
  }

  lemma NumbersAreUnique(db: DB)
    requires DbOk(db)
    ensures forall a, b, number :: HasNumber(db, a, number) && HasNumber(db, b, number) ==> a == b
  {
  }

  predicate SameFirst(a: seq<Answer>, b: seq<Answer>) {
    |a| >= 1 && |b| >= 1 && b[0] == a[0]
  }

  /** The first two answers have not changed. */
  predicate SameStart(a: seq<Answer>, b: seq<Answer>) {
    |a| >= 2 && |b| >= 2 && b[0] == a[0] && b[1] == a[1]
  }

  /** The operations that are asked for with an amount. */
  predicate MovesAmount(op: Op) {
    op.Gateway? || op.Transfer? || op.PayMerchant? || op.Adjust?
  }

  function WithAmount(op: Op, amount: nat): Op {
    match op
    case Gateway(deposit, id, user, _) => Gateway(deposit, id, user, amount)
    case Transfer(from, number, user, _) => Transfer(from, number, user, amount)
    case PayMerchant(merchant, payFrom, user, _) => PayMerchant(merchant, payFrom, user, amount)
    case Adjust(id, up, _) => Op.Adjust(id, up, amount)
    case _ => op
  }

  /** The wallet whose balance the caller is told. */
  function Subject(op: Op, o: Oracle): Id {
    match op
    case Gateway(_, id, _, _) => id
    case Transfer(from, _, _, _) => from
    case PayMerchant(_, _, _, _) => if o.other.Some? then o.other.value else 0
    case Approve(_, from, _, _) => from
    case Adjust(id, _, _) => id
    case SetStatus(id, _) => id
    case _ => 0
  }

  lemma AmountsFit(db: DB)
    requires DbOk(db)
    ensures forall id <- db.requests :: db.requests[id].amount <= MAX_CENTS
  {
    forall id <- db.requests ensures db.requests[id].amount <= MAX_CENTS {
      assert RequestOk(db, db.requests[id]);
    }
  }

  /** The wallet found by its number, and None only if there is none. */
  ghost predicate FoundExactly(db: DB, found: Option<Id>, number: string) {
    && (found.Some? ==> HasNumber(db, found.value, number))
    && (found.None? ==> forall id <- db.wallets :: db.wallets[id].number != number)
  }

  /** The user's primary wallet, and None only if the user has none. */
  ghost predicate PrimaryExactly(db: DB, found: Option<Id>, user: Id) {
    && (found.Some? ==> IsPrimary(db, found.value, user))
    && (found.None? ==> forall id <- db.wallets :: !OwnedBy(db, id, user))
  }

  /** What the operation observed without locks is what was there. */
  ghost predicate Saw(op: Op, o: Oracle, db: DB, merchants: map<Id, MerchantStatus>) {
    match op
    case Transfer(_, number, _, _) => FoundExactly(db, o.other, number)
    case PayMerchant(merchant, payFrom, user, _) =>
      && o.merchant == Find(merchants, merchant)
      && (payFrom.Some? ==> o.other == payFrom)
      && (payFrom.None? && o.merchant == Some(Trading) ==> PrimaryExactly(db, o.other, user))
    case _ => true
  }

  /** At the COMMIT of a transfer or a payment its observations are the answers it got first. */
  lemma ObservedAtCommit(op: Op, start: DB, got: seq<Answer>, work: DB, since: nat, clock: nat)
    requires Session(op, start, got, work, since, clock) && Next(op, start.cap, got, |got|) == Commit
    requires op.Transfer? || op.PayMerchant?
    ensures |got| > 2 && OracleOf(op, got).other == RefusalOracle(op, got).other
    ensures op.PayMerchant? ==> OracleOf(op, got).merchant == MerchantAt(got, 0)
    ensures Subject(op, OracleOf(op, got)) == Subject(op, RefusalOracle(op, got))
  {
    Unfold(op, start, got, work, since, clock);
    if op.Transfer? {
      TransferLocks(op, start, got);
    } else {
      PayMerchantLock(op, start, got);
    }
  }

  /** A refused transfer or payment has got at least its first answer, unless it was refused before asking. */
  lemma ObservedAtRefusal(op: Op, start: DB, got: seq<Answer>, work: DB, since: nat, clock: nat, e: Error)
    requires Session(op, start, got, work, since, clock) && Next(op, start.cap, got, |got|) == Abort(e)
    requires op.Transfer? || op.PayMerchant?
    ensures |got| > 0
    ensures op.PayMerchant? && op.payFrom.None? && MerchantAt(got, 0) == Some(Trading) ==> |got| > 1
  {
    Unfold(op, start, got, work, since, clock);
  }
}

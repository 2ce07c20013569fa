/**
  The locking discipline of the programs: every row a transaction writes or reads
  for its decisions is one it has locked, and rows are locked in one global order.
  Tables that agree on the locked rows explain the same answers.
 */
module Locking {
  import opened Prelude
  import opened Bank
  import opened Programs

  predicate Hit(a: Answer) {
    (a.WalletIs? && a.wallet.Some?) || (a.RequestIs? && a.request.Some?)
  }

  function Gained(action: Action, a: Answer): set<Row> {
    if action.Do? && action.stmt.LockRow? && Hit(a) then {action.stmt.row} else {}
  }

  /** The rows that the first `n` answers have locked: a missing row locks nothing. */
  function Held(op: Op, cap: int, got: seq<Answer>, n: nat): set<Row>
    requires n <= |got|
  {
    if n == 0 then {}
    else
      Held(op, cap, got, n - 1) + Gained(Next(op, cap, got, n - 1), got[n - 1])
  }

  /** Requests come before wallets, and rows of one table by id. */
  predicate Before(a: Row, b: Row) {
    if a.RequestRow? && b.WalletRow? then true
    else if a.WalletRow? && b.RequestRow? then false
    else a.id < b.id
  }

  /** The row whose current value a statement reads or writes. */
  function Touched(s: Stmt): Option<Row> {
    match s
    case Move(id, _, _) => Some(WalletRow(id))
    case LogTx(id, _, _, _, _) => Some(WalletRow(id))
    case WriteStatus(id, _) => Some(WalletRow(id))
    case MarkPaid(request, _) => Some(RequestRow(request))
    case AmendRow(op) =>
      if op.UpdateRequest? || op.CancelRequest? || op.DeclineRequest? then Some(RequestRow(op.request)) else None
    case _ => None
  }

  lemma {:induction false} HeldGrows(op: Op, cap: int, got: seq<Answer>, i: nat, n: nat)
    requires i <= n <= |got|
    ensures Held(op, cap, got, i) <= Held(op, cap, got, n)
    decreases n
  {
    if i < n {
      HeldGrows(op, cap, got, i, n - 1);
    }
  }

  lemma LockIsHeld(op: Op, cap: int, got: seq<Answer>, i: nat, n: nat)
    requires i < n <= |got| && Hit(got[i])
    requires Next(op, cap, got, i).Do? && Next(op, cap, got, i).stmt.LockRow?
    ensures Next(op, cap, got, i).stmt.row in Held(op, cap, got, n)
  {
    HeldGrows(op, cap, got, i + 1, n);
  }

  predicate FootprintHeld(op: Op, cap: int, got: seq<Answer>, n: nat)
    requires n <= |got| && Next(op, cap, got, n).Do?
  {
    var touched := Touched(Next(op, cap, got, n).stmt);
    touched.Some? ==> touched.value in Held(op, cap, got, n)
  }

  lemma TransferFootprint(op: Op, cap: int, got: seq<Answer>, n: nat)
    requires op.Transfer? && n <= |got| && Next(op, cap, got, n).Do?
    ensures FootprintHeld(op, cap, got, n)
  {
    if Touched(Next(op, cap, got, n).stmt).Some? {
      LockIsHeld(op, cap, got, 1, n);
      LockIsHeld(op, cap, got, 2, n);
    }
  }

  lemma ApproveFootprint(op: Op, cap: int, got: seq<Answer>, n: nat)
    requires op.Approve? && n <= |got| && Next(op, cap, got, n).Do?
    ensures FootprintHeld(op, cap, got, n)
  {
    if Touched(Next(op, cap, got, n).stmt).Some? {
      LockIsHeld(op, cap, got, 0, n);
      LockIsHeld(op, cap, got, 1, n);
      LockIsHeld(op, cap, got, 2, n);
    }
  }

  lemma PayMerchantFootprint(op: Op, cap: int, got: seq<Answer>, n: nat)
    requires op.PayMerchant? && n <= |got| && Next(op, cap, got, n).Do?
    ensures FootprintHeld(op, cap, got, n)
  {
    if Touched(Next(op, cap, got, n).stmt).Some? {
      LockIsHeld(op, cap, got, PayerLockIndex(op.payFrom), n);
    }
  }

  lemma SingleRowFootprint(op: Op, cap: int, got: seq<Answer>, n: nat)
    requires (op.Gateway? || op.Adjust? || op.SetStatus?) && n <= |got| && Next(op, cap, got, n).Do?
    ensures FootprintHeld(op, cap, got, n)
  {
    if Touched(Next(op, cap, got, n).stmt).Some? {
      LockIsHeld(op, cap, got, 0, n);
    }
  }

  lemma AmendFootprint(op: Op, cap: int, got: seq<Answer>, n: nat)
    requires (op.UpdateRequest? || op.CancelRequest? || op.DeclineRequest?) && n <= |got| && Next(op, cap, got, n).Do?
    ensures FootprintHeld(op, cap, got, n)
  {
    if Touched(Next(op, cap, got, n).stmt).Some? {
      LockIsHeld(op, cap, got, 0, n);
    }
  }

  /** What a statement depends on, its transaction has locked. */
  lemma FootprintIsLocked(op: Op, cap: int, got: seq<Answer>, n: nat)
    requires n <= |got| && Next(op, cap, got, n).Do?
    ensures FootprintHeld(op, cap, got, n)
  {
    match op
    case Transfer(_, _, _, _) => TransferFootprint(op, cap, got, n);
    case Approve(_, _, _, _) => ApproveFootprint(op, cap, got, n);
    case PayMerchant(_, _, _, _) => PayMerchantFootprint(op, cap, got, n);
    case CreateRequest(_, _, _, _, _) =>
    case UpdateRequest(_, _, _) => AmendFootprint(op, cap, got, n);
    case CancelRequest(_, _) => AmendFootprint(op, cap, got, n);
    case DeclineRequest(_, _) => AmendFootprint(op, cap, got, n);
    case _ => SingleRowFootprint(op, cap, got, n);
  }

  predicate InOrder(op: Op, cap: int, got: seq<Answer>, n: nat)
    requires n <= |got| && Next(op, cap, got, n).Do? && Next(op, cap, got, n).stmt.LockRow?
  {
    var row := Next(op, cap, got, n).stmt.row;
    forall held <- Held(op, cap, got, n) :: Before(held, row) || held == row
  }

  lemma TransferOrder(op: Op, cap: int, got: seq<Answer>, n: nat)
    requires op.Transfer? && n <= |got| && Next(op, cap, got, n).Do? && Next(op, cap, got, n).stmt.LockRow?
    ensures InOrder(op, cap, got, n)
  {
    assert n == 1 || n == 2;
    assert Held(op, cap, got, 1) == {};
    if n == 2 {
      assert Next(op, cap, got, 1) == Do(LockRow(WalletRow(Lower(op.from, FoundAt(got, 0).value))));
    }
  }

  lemma ApproveOrder(op: Op, cap: int, got: seq<Answer>, n: nat)
    requires op.Approve? && n <= |got| && Next(op, cap, got, n).Do? && Next(op, cap, got, n).stmt.LockRow?
    ensures InOrder(op, cap, got, n)
  {
    assert n <= 2;
    assert n >= 1 ==> Held(op, cap, got, 1) <= {RequestRow(op.request)};
    if n == 2 {
      var lower := WalletRow(Lower(op.from, RequestAt(got, 0).value.wallet));
      assert Next(op, cap, got, 1) == Do(LockRow(lower));
      assert Held(op, cap, got, 2) <= {RequestRow(op.request), lower};
    }
  }

  /** An operation on one row locks nothing before it. */
  lemma FirstLock(op: Op, cap: int, got: seq<Answer>, n: nat)
    requires !op.Transfer? && !op.Approve?
    requires n <= |got| && Next(op, cap, got, n).Do? && Next(op, cap, got, n).stmt.LockRow?
    ensures InOrder(op, cap, got, n)
  {
    assert n <= 2;
    assert n >= 1 ==> Held(op, cap, got, 1) == {};
    assert n == 2 ==> Held(op, cap, got, 2) == {};
  }

  /** A transaction asks only for rows that come after all those it holds. */
  lemma LocksInOrder(op: Op, cap: int, got: seq<Answer>, n: nat)
    requires n <= |got| && Next(op, cap, got, n).Do? && Next(op, cap, got, n).stmt.LockRow?
    ensures InOrder(op, cap, got, n)
  {
    match op
    case Transfer(_, _, _, _) => TransferOrder(op, cap, got, n);
    case Approve(_, _, _, _) => ApproveOrder(op, cap, got, n);
    case _ => FirstLock(op, cap, got, n);
  }

  // ------------------------------------------------------------------ framing

  lemma TransferPrefix(op: Op, cap: int, got: seq<Answer>, more: seq<Answer>, n: nat)
    requires op.Transfer? && n <= |got| && n <= |more| && forall i :: 0 <= i < n ==> more[i] == got[i]
    ensures Next(op, cap, more, n) == Next(op, cap, got, n)
  {
  }

  lemma ApprovePrefix(op: Op, cap: int, got: seq<Answer>, more: seq<Answer>, n: nat)
    requires op.Approve? && n <= |got| && n <= |more| && forall i :: 0 <= i < n ==> more[i] == got[i]
    ensures Next(op, cap, more, n) == Next(op, cap, got, n)
  {
  }

  lemma PayMerchantPrefix(op: Op, cap: int, got: seq<Answer>, more: seq<Answer>, n: nat)
    requires op.PayMerchant? && n <= |got| && n <= |more| && forall i :: 0 <= i < n ==> more[i] == got[i]
    ensures Next(op, cap, more, n) == Next(op, cap, got, n)
  {
  }

  /** A program's past does not change when it receives another answer. */
  lemma NextPrefix(op: Op, cap: int, got: seq<Answer>, more: seq<Answer>, n: nat)
    requires n <= |got| && n <= |more| && forall i :: 0 <= i < n ==> more[i] == got[i]
    ensures Next(op, cap, more, n) == Next(op, cap, got, n)
  {
    match op
    case Transfer(_, _, _, _) => TransferPrefix(op, cap, got, more, n);
    case Approve(_, _, _, _) => ApprovePrefix(op, cap, got, more, n);
    case PayMerchant(_, _, _, _) => PayMerchantPrefix(op, cap, got, more, n);
    case _ =>
  }

  lemma {:induction false} HeldPrefix(op: Op, cap: int, got: seq<Answer>, more: seq<Answer>, n: nat)
    requires n <= |got| && n <= |more| && forall i :: 0 <= i < n ==> more[i] == got[i]
    ensures Held(op, cap, more, n) == Held(op, cap, got, n)
  {
    if n > 0 {
      HeldPrefix(op, cap, got, more, n - 1);
      NextPrefix(op, cap, got, more, n - 1);
    }
  }

  lemma {:induction false} ViewPrefix(op: Op, db: DB, got: seq<Answer>, more: seq<Answer>, n: nat)
    requires n <= |got| && n <= |more| && forall i :: 0 <= i < n ==> more[i] == got[i]
    ensures View(op, db, more, n) == View(op, db, got, n)
  {
    if n > 0 {
      ViewPrefix(op, db, got, more, n - 1);
      NextPrefix(op, db.cap, got, more, n - 1);
    }
  }

  ghost predicate Grew(a: DB, b: DB) {
    forall id <- a.wallets :: id in b.wallets && SameWalletRow(a.wallets[id], b.wallets[id])
  }

  predicate SameRow(a: DB, b: DB, row: Row) {
    match row
    case WalletRow(id) => Find(a.wallets, id) == Find(b.wallets, id)
    case RequestRow(id) => Find(a.requests, id) == Find(b.requests, id)
  }

  ghost predicate Agree(a: DB, b: DB, rows: set<Row>) {
    a.cap == b.cap && Grew(a, b) && forall row <- rows :: SameRow(a, b, row)
  }

  /** The foreign key of `payment_requests.requester_wallet_id`. */
  ghost predicate RequestersExist(db: DB) {
    forall id <- db.requests :: db.requests[id].wallet in db.wallets
  }

  /** One more answer that its statement gives is explained as well. */
  lemma ExplainsExtend(op: Op, db: DB, got: seq<Answer>, a: Answer)
    requires Explains(op, db, got) && Next(op, db.cap, got, |got|).Do?
    requires Stable(Next(op, db.cap, got, |got|).stmt, View(op, db, got, |got|), a)
    ensures Explains(op, db, got + [a])
  {
    var more := got + [a];
    forall i: nat | i < |more| ensures Explained(op, db, more, i) {
      NextPrefix(op, db.cap, got, more, i);
      ViewPrefix(op, db, got, more, i);
      if i < |got| {
        assert Explained(op, db, got, i);
      }
    }
  }

  lemma HeldExtend(op: Op, db: DB, got: seq<Answer>, a: Answer)
    requires Next(op, db.cap, got, |got|).Do?
    ensures var stmt := Next(op, db.cap, got, |got|).stmt;
            Held(op, db.cap, got + [a], |got| + 1)
            == Held(op, db.cap, got, |got|) + if stmt.LockRow? && Hit(a) then {stmt.row} else {}
  {
    NextPrefix(op, db.cap, got, got + [a], |got|);
    HeldPrefix(op, db.cap, got, got + [a], |got|);
  }

  lemma ApplyKeepsRequesters(s: Stmt, a: Answer, v: DB)
    requires RequestersExist(v) && Stable(s, v, a)
    ensures RequestersExist(Apply(s, a, v))
  {
  }

  lemma StableElsewhere(s: Stmt, a: Answer, v: DB, w: DB, rows: set<Row>)
    requires Agree(v, w, rows) && RequestersExist(v) && Stable(s, v, a)
    requires Touched(s).Some? ==> Touched(s).value in rows
    requires s.LockRow? && Hit(a) ==> s.row in rows
    ensures Stable(s, w, a)
  {
    assert Touched(s).Some? ==> SameRow(v, w, Touched(s).value);
    assert s.LockRow? && Hit(a) ==> SameRow(v, w, s.row);
  }

  lemma ApplyElsewhere(s: Stmt, a: Answer, v: DB, w: DB, rows: set<Row>)
    requires Agree(v, w, rows) && RequestersExist(v) && Stable(s, v, a) && Stable(s, w, a)
    requires Touched(s).Some? ==> Touched(s).value in rows
    ensures Agree(Apply(s, a, v), Apply(s, a, w), rows)
  {
    assert Touched(s).Some? ==> SameRow(v, w, Touched(s).value);
    var v', w' := Apply(s, a, v), Apply(s, a, w);
    forall row <- rows ensures SameRow(v', w', row) {
      assert SameRow(v, w, row);
    }
  }

  lemma {:induction false} ExplainsElsewhere(op: Op, db: DB, other: DB, got: seq<Answer>, n: nat)
    requires n <= |got| && Explains(op, db, got) && RequestersExist(db)
    requires Agree(db, other, Held(op, db.cap, got, |got|))
    ensures Agree(View(op, db, got, n), View(op, other, got, n), Held(op, db.cap, got, |got|))
    ensures RequestersExist(View(op, db, got, n))
    ensures forall i: nat :: i < n ==> Explained(op, other, got, i)
  {
    if n > 0 {
      var i := n - 1;
      ExplainsElsewhere(op, db, other, got, i);
      ExplainedElsewhere(op, db, other, got, i);
    }
  }

  /** One statement of it. */
  lemma ExplainedElsewhere(op: Op, db: DB, other: DB, got: seq<Answer>, i: nat)
    requires i < |got| && Explains(op, db, got) && other.cap == db.cap && RequestersExist(View(op, db, got, i))
    requires Agree(View(op, db, got, i), View(op, other, got, i), Held(op, db.cap, got, |got|))
    ensures Agree(View(op, db, got, i + 1), View(op, other, got, i + 1), Held(op, db.cap, got, |got|))
    ensures RequestersExist(View(op, db, got, i + 1))
    ensures Explained(op, other, got, i)
  {
    ExplainedAt(op, db, got, i);
    StatementLocked(op, db.cap, got, i);
    var s := Next(op, db.cap, got, i).stmt;
    var v, w, rows := View(op, db, got, i), View(op, other, got, i), Held(op, db.cap, got, |got|);
    StableElsewhere(s, got[i], v, w, rows);
    ApplyElsewhere(s, got[i], v, w, rows);
    ApplyKeepsRequesters(s, got[i], v);
  }

  lemma StatementLocked(op: Op, cap: int, got: seq<Answer>, i: nat)
    requires i < |got| && Next(op, cap, got, i).Do?
    ensures var s := Next(op, cap, got, i).stmt;
            && (Touched(s).Some? ==> Touched(s).value in Held(op, cap, got, |got|))
            && (s.LockRow? && Hit(got[i]) ==> s.row in Held(op, cap, got, |got|))
  {
    FootprintIsLocked(op, cap, got, i);
    HeldGrows(op, cap, got, i, |got|);
    if Next(op, cap, got, i).stmt.LockRow? && Hit(got[i]) {
      LockIsHeld(op, cap, got, i, |got|);
    }
  }

  /** Rows that a transaction holds decide its whole past. */
  lemma ExplainsFramed(op: Op, db: DB, other: DB, got: seq<Answer>)
    requires Explains(op, db, got) && RequestersExist(db)
    requires Agree(db, other, Held(op, db.cap, got, |got|))
    ensures Explains(op, other, got)
  {
    ExplainsElsewhere(op, db, other, got, |got|);
  }

  // -------------------------------------------------- what a transaction writes

  /** `after` differs from `before` only in locked rows and in appended history. */
  ghost predicate WritesOnly(before: DB, after: DB, rows: set<Row>) {
    && after.cap == before.cap
    && after.wallets.Keys == before.wallets.Keys
    && after.requests.Keys == before.requests.Keys
    && Grew(before, after)
    && (forall id <- before.wallets :: WalletRow(id) !in rows ==> after.wallets[id] == before.wallets[id])
    && (forall id <- before.requests :: RequestRow(id) !in rows ==> after.requests[id] == before.requests[id])
    && |before.ledger| <= |after.ledger| && after.ledger[..|before.ledger|] == before.ledger
    && (forall i :: |before.ledger| <= i < |after.ledger| ==> WalletRow(after.ledger[i].wallet) in rows)
  }

  lemma WritesStep(s: Stmt, a: Answer, before: DB, v: DB, rows: set<Row>)
    requires WritesOnly(before, v, rows) && Stable(s, v, a)
    requires Touched(s).Some? ==> Touched(s).value in rows
    ensures WritesOnly(before, Apply(s, a, v), rows)
  {
  }

  lemma {:induction false} ViewWritesOnlyLocked(op: Op, db: DB, got: seq<Answer>, n: nat)
    requires n <= |got| && Explains(op, db, got)
    ensures WritesOnly(db, View(op, db, got, n), Held(op, db.cap, got, n))
  {
    if n > 0 {
      var i := n - 1;
      ViewWritesOnlyLocked(op, db, got, i);
      ExplainedAt(op, db, got, i);
      FootprintIsLocked(op, db.cap, got, i);
      HeldGrows(op, db.cap, got, i, n);
      WritesStep(Next(op, db.cap, got, i).stmt, got[i], db, View(op, db, got, i), Held(op, db.cap, got, n));
    }
  }

  /** The wallet of every ledger row a transaction inserted is one it holds. */
  lemma LoggedIsLocked(op: Op, db: DB, got: seq<Answer>, i: nat)
    requires i < |got| && Explains(op, db, got) && got[i].Logged?
    ensures WalletRow(got[i].row.wallet) in Held(op, db.cap, got, |got|)
  {
    ExplainedAt(op, db, got, i);
    FootprintIsLocked(op, db.cap, got, i);
    HeldGrows(op, db.cap, got, i, |got|);
  }
}

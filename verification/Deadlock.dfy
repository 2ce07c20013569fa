/**
  Locking requests before wallets and wallets in id order cannot deadlock: waiting
  only ever leads to later rows, somebody can always move, and every run ends.
 */
module Deadlock {
  import opened Prelude
  import opened Bank
  import opened BankInvariants
  import opened Programs
  import opened Locking
  import opened Interleaving
  import opened Serialisability

  /** The row that blocks a call: it exists and another transaction holds it. */
  ghost predicate WaitsFor(s: State, call: nat, row: Row) {
    && IsRunning(s, call)
    && ActionOf(s, call) == Do(LockRow(row))
    && row in s.locks && s.locks[row] != call
  }

  ghost predicate Blocks(s: State, waiter: nat, holder: nat) {
    exists row :: WaitsFor(s, waiter, row) && s.locks[row] == holder
  }

  /** If the holder of a row waits too, it waits for a later row. */
  lemma WaitingGoesUp(s: State, waiter: nat, row: Row, next: Row)
    requires Inv(s) && WaitsFor(s, waiter, row) && WaitsFor(s, s.locks[row], next)
    ensures Before(row, next)
  {
    var holder := s.locks[row];
    var c := s.calls[holder];
    LocksInOrder(c.op, s.db.cap, c.got, |c.got|);
    assert row in HeldBy(s, holder);
  }

  ghost predicate Path(s: State, calls: seq<nat>) {
    forall i: nat :: i + 1 < |calls| ==> Blocks(s, calls[i], calls[i + 1])
  }

  lemma {:induction false} PathGoesUp(s: State, calls: seq<nat>, row: Row, last: Row)
    requires Inv(s) && |calls| >= 2 && Path(s, calls)
    requires WaitsFor(s, calls[0], row) && WaitsFor(s, calls[|calls| - 1], last)
    ensures Before(row, last)
    decreases |calls|
  {
    assert Blocks(s, calls[0], calls[0 + 1]);
    if |calls| > 2 {
      assert Blocks(s, calls[1], calls[1 + 1]);
      var next :| WaitsFor(s, calls[1], next);
      forall i: nat | i + 1 < |calls[1..]| ensures Blocks(s, calls[1..][i], calls[1..][i + 1]) {
        assert Blocks(s, calls[i + 1], calls[i + 1 + 1]);
      }
      PathGoesUp(s, calls[1..], next, last);
      WaitingGoesUp(s, calls[0], row, next);
    } else {
      WaitingGoesUp(s, calls[0], row, last);
    }
  }

  /** The wait-for graph of every reachable state is acyclic. */
  lemma NoCycle(cap: int, steps: seq<Step>, calls: seq<nat>)
    requires Runs(Init(cap), steps) && |calls| >= 2 && Path(After(Init(cap), steps), calls)
    ensures calls[0] != calls[|calls| - 1]
  {
    var s := After(Init(cap), steps);
    EveryRunIsSerial(cap, steps);
    assert Blocks(s, calls[0], calls[0 + 1]);
    var row :| WaitsFor(s, calls[0], row);
    if calls[0] == calls[|calls| - 1] {
      PathGoesUp(s, calls, row, row);
    }
  }

  // ----------------------------------------------------------------- progress

  ghost predicate Waiting(s: State, call: nat) {
    exists row :: WaitsFor(s, call, row)
  }

  /** Following the holders from any running call reaches one that waits for nobody. */
  lemma {:induction false} SomebodyIsFree(s: State, call: nat, seen: set<nat>) returns (free: nat)
    requires Inv(s) && IsRunning(s, call) && seen <= s.calls.Keys
    requires forall x <- seen ::
      IsRunning(s, x) && exists row :: WaitsFor(s, x, row) && forall next :: WaitsFor(s, call, next) ==> Before(row, next)
    ensures IsRunning(s, free) && !Waiting(s, free)
    decreases |s.calls.Keys - seen|
  {
    if !Waiting(s, call) {
      free := call;
    } else {
      var row :| WaitsFor(s, call, row);
      var holder := s.locks[row];
      assert IsRunning(s, holder);
      forall next | WaitsFor(s, holder, next) ensures Before(row, next) {
        WaitingGoesUp(s, call, row, next);
      }
      assert call !in seen;
      var more := seen + {call};
      forall x <- more
        ensures IsRunning(s, x) && exists r :: WaitsFor(s, x, r) && forall next :: WaitsFor(s, holder, next) ==> Before(r, next)
      {
        if x == call {
          assert WaitsFor(s, x, row);
        } else {
          var r :| WaitsFor(s, x, r) && forall next :: WaitsFor(s, call, next) ==> Before(r, next);
          assert Before(r, row);
        }
      }
      assert s.calls.Keys - more < s.calls.Keys - seen;
      ShrinkingSets(s.calls.Keys - more, s.calls.Keys - seen);
      free := SomebodyIsFree(s, holder, more);
    }
  }

  lemma ShrinkingSets(a: set<nat>, b: set<nat>)
    requires a < b
    ensures |a| < |b|
  {
    assert b == a + (b - a) && a !! (b - a);
    assert |b| == |a| + |b - a|;
  }

  lemma FreshId(ids: set<Id>) returns (id: Id)
    ensures id !in ids && forall x <- ids :: x < id
  {
    if ids == {} {
      id := 0;
    } else {
      var x :| x in ids;
      var y := FreshId(ids - {x});
      id := if x < y then y else x + 1;
      forall z <- ids ensures z < id {
        assert z == x || z in ids - {x};
      }
    }
  }

  lemma SearchAnswers(s: State, call: nat) returns (a: Answer)
    requires IsRunning(s, call) && ActionOf(s, call).Do?
    requires var stmt := ActionOf(s, call).stmt; stmt.FindNumber? || stmt.ListWallets?
    ensures Truthful(ActionOf(s, call).stmt, ViewOf(s, call), s.clock, a) && a.Found?
  {
    var v := ViewOf(s, call);
    var stmt := ActionOf(s, call).stmt;
    if stmt.FindNumber? {
      if exists id <- v.wallets :: v.wallets[id].number == stmt.number {
        var id :| id in v.wallets && v.wallets[id].number == stmt.number;
        a := Found(Some(id));
      } else {
        a := Found(None);
      }
    } else if exists id <- v.wallets :: OwnedBy(v, id, stmt.user) {
      PrimaryExists(v, stmt.user);
      var id :| id in v.wallets && IsPrimary(v, id, stmt.user);
      a := Found(Some(id));
    } else {
      a := Found(None);
    }
  }

  /** The database has an answer to every statement a program asks. */
  lemma DatabaseAnswers(s: State, call: nat) returns (a: Answer)
    requires Inv(s) && IsRunning(s, call) && ActionOf(s, call).Do?
    ensures Truthful(ActionOf(s, call).stmt, ViewOf(s, call), s.clock, a)
    ensures a.Inserted? && !a.entry.AuditRow? ==> a.entry.id !in IdsInUse(s)
  {
    var c := s.calls[call];
    var v := ViewOf(s, call);
    match ActionOf(s, call).stmt
    case LockRow(row) => a := if row.WalletRow? then WalletIs(Find(v.wallets, row.id)) else RequestIs(Find(v.requests, row.id));
    case FindNumber(_) => a := SearchAnswers(s, call);
    case ReadMerchant(_) => a := MerchantIs(None);
    case ListWallets(_) => a := SearchAnswers(s, call);
    case ReadWallet(id) => a := WalletIs(Find(v.wallets, id));
    case Move(id, kind, amount) => a := MoveAnswer(v, id, kind, amount);
    case LogTx(id, kind, amount, balanceAfter, ref) =>
      FootprintIsLocked(c.op, s.db.cap, c.got, |c.got|);
      HeldRowsExist(c.op, s.db, c.got, |c.got|);
      ViewWritesOnlyLocked(c.op, s.db, c.got, |c.got|);
      a := Logged(LedgerRow(id, kind, amount, balanceAfter, ref, v.wallets[id].currency, s.clock));
    case Insert(draft) =>
      var id := FreshId(IdsInUse(s));
      a := Inserted(WithId(draft, id));
    case MarkPaid(request, payer) => a := PaidAnswer(v, request, payer);
    case AmendRow(op) => a := AmendAnswer(v, op);
    case WriteStatus(id, status) => a := StatusAnswer(v, id, status);
  }

  ghost predicate Moves(step: Step) {
    step.Execute? || step.DoCommit? || step.DoInsert? || step.Throw?
  }

  /** A running call that waits for nobody has a step of its own. */
  lemma FreeCallsMove(s: State, call: nat) returns (step: Step)
    requires Inv(s) && IsRunning(s, call) && !Waiting(s, call)
    ensures Moves(step) && Can(s, step)
  {
    match ActionOf(s, call)
    case Do(stmt) =>
      var a := DatabaseAnswers(s, call);
      assert stmt.LockRow? ==> !WaitsFor(s, call, stmt.row);
      step := Execute(call, a);
    case AutoInsert(_) =>
      var id := FreshId(s.db.requests.Keys);
      step := DoInsert(call, id);
    case Commit => step := DoCommit(call);
    case Abort(_) => step := Throw(call);
  }

  /** Deadlock freedom: while any call is running, some call can take a step that is not a failure. */
  lemma SomebodyMoves(s: State, call: nat) returns (step: Step)
    requires Inv(s) && IsRunning(s, call)
    ensures Moves(step) && Can(s, step)
  {
    var free := SomebodyIsFree(s, call, {});
    step := FreeCallsMove(s, free);
  }

  // --------------------------------------------------------------- termination

  /** No program is longer than this. */
  const LONGEST: nat := 9

  lemma ProgramsAreShort(op: Op, cap: int, got: seq<Answer>)
    requires Next(op, cap, got, |got|).Do?
    ensures |got| < LONGEST
  {
  }

  /** What a call may still do: its remaining attempts and the rest of the current one. */
  function CallWork(c: Call): nat {
    if c.phase != Running || c.attempt > MAX_RETRIES || |c.got| > LONGEST then 0
    else (MAX_RETRIES - c.attempt) * (LONGEST + 2) + (LONGEST + 1 - |c.got|)
  }

  ghost function Work(calls: map<nat, Call>): nat
    decreases |calls.Keys|
  {
    if calls == map[] then 0
    else
      var call :| call in calls;
      CallWork(calls[call]) + Work(calls - {call})
  }

  /** The total does not depend on the order in which calls are summed. */
  lemma {:induction false} WorkOf(calls: map<nat, Call>, call: nat)
    requires call in calls
    ensures Work(calls) == CallWork(calls[call]) + Work(calls - {call})
    decreases |calls.Keys|
  {
    var first :| first in calls && Work(calls) == CallWork(calls[first]) + Work(calls - {first});
    if first != call {
      assert (calls - {first}).Keys == calls.Keys - {first};
      WorkOf(calls - {first}, call);
      WorkOf(calls - {call}, first);
      assert calls - {first} - {call} == calls - {call} - {first};
    }
  }

  ghost predicate LengthsOk(s: State) {
    forall call <- s.calls :: |s.calls[call].got| <= LONGEST && s.calls[call].attempt <= MAX_RETRIES
  }

  lemma LengthsStep(s: State, step: Step)
    requires LengthsOk(s) && Can(s, step)
    ensures LengthsOk(Take(s, step))
  {
    if step.Execute? {
      var c := s.calls[step.call];
      ProgramsAreShort(c.op, s.db.cap, c.got);
    }
  }

  /** Every step of a call, a failure included, uses up some of the remaining work. */
  lemma WorkDecreases(s: State, step: Step)
    requires LengthsOk(s) && Can(s, step) && !step.Submit? && !step.OpenWallet?
    ensures Work(Take(s, step).calls) < Work(s.calls)
  {
    var t := Take(s, step);
    WorkOf(s.calls, step.call);
    WorkOf(t.calls, step.call);
    assert t.calls - {step.call} == s.calls - {step.call};
    if step.Execute? {
      var c := s.calls[step.call];
      ProgramsAreShort(c.op, s.db.cap, c.got);
    }
  }

  /** Any run without new arrivals is no longer than the work it starts with. */
  lemma {:induction false} RunsAreBounded(s: State, steps: seq<Step>)
    requires LengthsOk(s) && Runs(s, steps)
    requires forall i :: 0 <= i < |steps| ==> !steps[i].Submit? && !steps[i].OpenWallet?
    ensures |steps| + Work(After(s, steps).calls) <= Work(s.calls)
    decreases |steps|
  {
    if steps != [] {
      WorkDecreases(s, steps[0]);
      LengthsStep(s, steps[0]);
      RunsAreBounded(Take(s, steps[0]), steps[1..]);
    }
  }

  /** From every reachable state the calls in flight can all finish, without any failure. */
  lemma {:induction false} EverybodyFinishes(s: State) returns (steps: seq<Step>)
    requires Inv(s) && LengthsOk(s)
    ensures Runs(s, steps) && forall call <- After(s, steps).calls :: !IsRunning(After(s, steps), call)
    ensures forall i :: 0 <= i < |steps| ==> Moves(steps[i])
    decreases Work(s.calls)
  {
    if call :| IsRunning(s, call) {
      var step := SomebodyMoves(s, call);
      StepKeeps(s, step);
      LengthsStep(s, step);
      WorkDecreases(s, step);
      var rest := EverybodyFinishes(Take(s, step));
      steps := [step] + rest;
      assert steps[1..] == rest;
    } else {
      steps := [];
    }
  }

  lemma {:induction false} RunsKeepLengths(s: State, steps: seq<Step>)
    requires LengthsOk(s) && Runs(s, steps)
    ensures LengthsOk(After(s, steps))
    decreases |steps|
  {
    if steps != [] {
      LengthsStep(s, steps[0]);
      RunsKeepLengths(Take(s, steps[0]), steps[1..]);
    }
  }

  /** The lengths assumed above hold in every reachable state. */
  lemma EveryRunCanFinish(cap: int, steps: seq<Step>) returns (rest: seq<Step>)
    requires Runs(Init(cap), steps)
    ensures Runs(After(Init(cap), steps), rest)
    ensures var end := After(After(Init(cap), steps), rest); forall call <- end.calls :: !IsRunning(end, call)
    ensures forall i :: 0 <= i < |rest| ==> Moves(rest[i])
    ensures |rest| <= Work(After(Init(cap), steps).calls)
  {
    EveryRunIsSerial(cap, steps);
    RunsKeepLengths(Init(cap), steps);
    rest := EverybodyFinishes(After(Init(cap), steps));
    RunsAreBounded(After(Init(cap), steps), rest);
  }

  // ------------------------------------------------------------- one more call

  /** How a run ends a call. */
  predicate Ends(step: Step, call: nat, phase: Phase) {
    match phase
    case Running => false
    case Committed => step == DoCommit(call) || (step.DoInsert? && step.call == call)
    case Failed => step == Throw(call)
  }

  /** A call that a run without failures ends was ended by its own commit or by the error its program throws. */
  lemma {:induction false} EndedByItself(s: State, steps: seq<Step>, call: nat)
    requires Runs(s, steps) && IsRunning(s, call) && forall i :: 0 <= i < |steps| ==> Moves(steps[i])
    ensures var end := After(s, steps);
            && call in end.calls && end.calls[call].op == s.calls[call].op
            && (!IsRunning(end, call) ==> exists i :: 0 <= i < |steps| && Ends(steps[i], call, end.calls[call].phase))
    decreases |steps|
  {
    if steps != [] {
      var t := Take(s, steps[0]);
      if IsRunning(t, call) {
        EndedByItself(t, steps[1..], call);
        var end := After(s, steps);
        if !IsRunning(end, call) {
          var i :| 0 <= i < |steps[1..]| && Ends(steps[1..][i], call, end.calls[call].phase);
          assert steps[i + 1] == steps[1..][i];
        }
      } else {
        assert Ends(steps[0], call, t.calls[call].phase);
        StaysEnded(t, steps[1..], call);
      }
    }
  }

  lemma {:induction false} StaysEnded(s: State, steps: seq<Step>, call: nat)
    requires Runs(s, steps) && call in s.calls && !IsRunning(s, call)
    ensures call in After(s, steps).calls && After(s, steps).calls[call] == s.calls[call]
    decreases |steps|
  {
    if steps != [] {
      StaysEnded(Take(s, steps[0]), steps[1..], call);
    }
  }

  /**
    Every call with a valid amount is served, whenever it arrives and whatever else is
    in flight: it can be carried to its end, and is ended by its own commit or by an
    error that its program throws.
   */
  lemma EveryCallIsServed(cap: int, steps: seq<Step>, call: nat, op: Op) returns (rest: seq<Step>)
    requires Runs(Init(cap), steps) && call !in After(Init(cap), steps).calls && OpOk(op, cap)
    ensures var s := After(Init(cap), steps);
            && Runs(s, [Submit(call, op)] + rest)
            && var end := After(s, [Submit(call, op)] + rest);
               && call in end.calls && end.calls[call].op == op && !IsRunning(end, call)
               && exists i :: 0 <= i < |rest| && Ends(rest[i], call, end.calls[call].phase)
    ensures forall i :: 0 <= i < |rest| ==> Moves(rest[i])
  {
    var s := After(Init(cap), steps);
    InitInv(cap);
    RunRefines(Init(cap).db, Init(cap), steps);
    var first := [Submit(call, op)];
    var t := Take(s, first[0]);
    assert first[1..] == [];
    assert Runs(t, []) && After(t, []) == t;
    assert Runs(s, first) && After(s, first) == t;
    AfterConcat(Init(cap), steps, first);
    rest := EveryRunCanFinish(cap, steps + first);
    EndedByItself(t, rest, call);
    assert (first + rest)[1..] == rest;
  }
}

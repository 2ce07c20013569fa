/**
  The request handlers behind the idempotency middleware: what they answer, and which
  step of the key's life that is.
 */
module Handlers {
  import opened Prelude
  import opened Bank
  import opened Amounts
  import opened BankService
  import Effects
  import I = Idempotency

  /** The status that the error handler sends: an ApiError carries its own, anything else is 500. */
  function StatusOf(thrown: Thrown): nat {
    match thrown
    case Api(e) =>
      (match e
       case WalletMissing => 404
       case NotYourWallet => 403
       case WalletUnusable => 409
       case WalletClosed => 409
       case AlreadyInStatus => 409
       case Insufficient => 400
       case OutOfRange => 500
       case ReceiverMissing => 404
       case SameWallet => 400
       case CurrencyMismatch => 400
       case MerchantMissing => 404
       case MerchantRefuses => 409
       case RequestMissing => 404
       case RequestSettled => 409
       case AmountRefused => 400
       case OwnRequest => 400
       case DuplicateKey => 500)
    case _ => 500
  }

  /** A handler answers 500 or above exactly for what is not an ApiError: faults, an overflow and a duplicate key. */
  lemma ServerErrors(thrown: Thrown)
    ensures 400 <= StatusOf(thrown) <= 500
    ensures StatusOf(thrown) == 500 <==> !thrown.Api? || thrown.error in {OutOfRange, DuplicateKey}
    ensures StatusOf(thrown) == 404 <==>
      thrown.Api? && thrown.error in {WalletMissing, ReceiverMissing, MerchantMissing, RequestMissing}
    ensures StatusOf(thrown) == 403 <==> thrown == Api(NotYourWallet)
    ensures StatusOf(thrown) == 409 <==>
      thrown.Api? && thrown.error in {WalletUnusable, WalletClosed, AlreadyInStatus, MerchantRefuses, RequestSettled}
    ensures StatusOf(thrown) == 400 <==>
      thrown.Api? && thrown.error in {Insufficient, SameWallet, CurrencyMismatch, AmountRefused, OwnRequest}
  {
  }

  /** 201 where the handler says so, 200 otherwise. */
  function Created(op: Op): nat {
    if op.PayMerchant? || op.Approve? then 200 else 201
  }

  /** What a handler that answers makes of its key: bodies are not modelled. */
  function StepOf(proc: nat, success: bool, status: nat): I.Step {
    if success then I.Commit(proc, I.Response(status, ""))
    else if status < 500 then I.Refuse(proc, I.Response(status, ""))
    else I.Fail(proc)
  }

  /** The step can be taken whenever the handler of `proc` is running. */
  ghost predicate Ready(step: I.Step, proc: nat) {
    forall s: I.State, rules: I.Rules :: proc in s.procs && s.procs[proc].stage.Handling? ==> I.Can(s, step, rules)
  }

  lemma StepIsReady(proc: nat, success: bool, status: nat)
    requires success ==> status < 500
    ensures Ready(StepOf(proc, success, status), proc)
  {
  }

  /** The handler's answer once its service has returned or thrown. */
  method Respond(proc: nat, thrown: Option<Thrown>, success: nat) returns (step: I.Step)
    requires success < 500
    ensures Ready(step, proc) && (step.Commit? || step.Refuse? || step.Fail?)
    ensures step.Commit? <==> thrown.None?
    ensures thrown.None? ==> step == I.Commit(proc, I.Response(success, ""))
    ensures thrown.Some? && StatusOf(thrown.value) < 500 ==> step == I.Refuse(proc, I.Response(StatusOf(thrown.value), ""))
    ensures thrown.Some? && StatusOf(thrown.value) >= 500 ==> step == I.Fail(proc)
  {
    var status := if thrown.None? then success else StatusOf(thrown.value);
    StepIsReady(proc, thrown.None?, status);
    step := StepOf(proc, thrown.None?, status);
  }

  /** The answer is the one that the operation's outcome calls for. */
  predicate Answers(step: I.Step, proc: nat, op: Op, outcome: Result<DB, Error>) {
    match outcome
    case Success(_) => step == I.Commit(proc, I.Response(Created(op), ""))
    case Failure(e) =>
      if StatusOf(Api(e)) < 500 then step == I.Refuse(proc, I.Response(StatusOf(Api(e)), "")) else step == I.Fail(proc)
  }

  /**
    A top-up, withdrawal, transfer, merchant payment or adjustment.  The key is told of
    a movement exactly when one was committed; a release, or any other answer, comes
    with unchanged tables.
   */
  method Move(d: Database, proc: nat, amount: Input, op: Op) returns (step: I.Step, ghost o: Oracle, ghost cents: nat)
    requires d.Valid() && MovesAmount(op)
    modifies d
    ensures d.Valid() && Ready(step, proc)
    ensures step.Commit? || step.Refuse? || step.Fail?
    ensures step.Commit? ==>
      && step.response.status == (if op.PayMerchant? then 200 else 201)
      && NormalizeAmount(amount, old(d.db).cap) == Some(Canonical(cents))
      && Perform(WithAmount(op, cents), o, old(d.db)) == Success(d.db)
    ensures !step.Commit? ==> d.db == old(d.db)
    ensures !IsValidAmount(amount, old(d.db).cap) ==> step == I.Refuse(proc, I.Response(400, ""))
    ensures old(NoFaults(d.faults)) && IsValidAmount(amount, old(d.db).cap) ==>
      && NormalizeAmount(amount, old(d.db).cap) == Some(Canonical(cents))
      && Answers(step, proc, op, Perform(WithAmount(op, cents), o, old(d.db)))
      && Saw(WithAmount(op, cents), o, old(d.db), old(d.merchants))
  {
    var r;
    r, o, cents := d.MoneyOperation(amount, op);
    step := Respond(proc, if r.Success? then None else Some(r.error), Created(op));
  }

  /** The approval of a payment request. */
  method Approve(d: Database, proc: nat, request: Id, from: Id, user: Id, email: string) returns (step: I.Step, ghost o: Oracle)
    requires d.Valid()
    modifies d
    ensures d.Valid() && Ready(step, proc)
    ensures step.Commit? || step.Refuse? || step.Fail?
    ensures step.Commit? ==>
      step.response.status == 200 && Perform(Op.Approve(request, from, user, email), o, old(d.db)) == Success(d.db)
    ensures !step.Commit? ==> d.db == old(d.db)
    ensures old(NoFaults(d.faults)) ==>
      Answers(step, proc, Op.Approve(request, from, user, email), Effects.ApprovalOutcome(old(d.db), request, from, user, email, o))
  {
    var r;
    r, o := d.Approve(request, from, user, email);
    step := Respond(proc, if r.Success? then None else Some(r.error), 200);
  }

  /** The creation of a payment request. */
  method CreateRequest(d: Database, proc: nat, id: Id, user: Id, email: string, payer: string, amount: Input)
    returns (step: I.Step, ghost cents: nat)
    requires d.Valid()
    modifies d
    ensures d.Valid() && Ready(step, proc)
    ensures step.Commit? || step.Refuse? || step.Fail?
    ensures IsValidAmount(amount, old(d.db).cap) ==> NormalizeAmount(amount, old(d.db).cap) == Some(Canonical(cents))
    ensures !IsValidAmount(amount, old(d.db).cap) ==> step == I.Refuse(proc, I.Response(400, ""))
    ensures step.Commit? ==>
      && step.response.status == 201 && IsValidAmount(amount, old(d.db).cap)
      && payer != email && Effects.MaySpend(old(d.db), id, user) && old(d.nextId) !in old(d.db).requests
      && d.db == old(d.db).(requests := old(d.db).requests[old(d.nextId) :=
                              Request(id, payer, None, cents, old(d.db).wallets[id].currency, Pending)])
    ensures old(NoFaults(d.faults)) && IsValidAmount(amount, old(d.db).cap) ==>
      (step.Commit? <==> payer != email && Effects.MaySpend(old(d.db), id, user)) && !step.Fail?
    ensures !step.Commit? ==> d.db == old(d.db)
  {
    var r, value := d.CreateRequest(id, user, email, payer, amount);
    cents := value;
    step := Respond(proc, if r.Success? then None else Some(r.error), 201);
  }
}

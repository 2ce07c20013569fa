/**
  The life of one idempotency key, that is of one (user, key, endpoint): any number
  of duplicate requests whose statements interleave with each other, with the
  hourly purge, with crashes and with the passing of time.  The database has one
  clock; the JavaScript clock that judges expiry may read anything at all.
 */
module Idempotency {
  import opened Prelude

  datatype Response = Response(status: nat, body: string)

  /** A row of `idempotency_keys`; the response is NULL while the first request runs. */
  datatype Row = Row(hash: string, response: Option<Response>, created: nat)

  datatype Answer = New | Replay(response: Response) | Conflict | Processing

  // --------------------------------------------------------------- statements

  /** INSERT ... ON CONFLICT DO NOTHING: whether it inserted, and the row then. */
  function InsertRow(row: Option<Row>, hash: string, now: nat): (bool, Option<Row>) {
    if row.None? then (true, Some(Row(hash, None, now))) else (false, row)
  }

  /** `created_at < NOW() - ttl`. */
  predicate Stale(row: Row, now: nat, ttl: nat) {
    row.created + ttl < now
  }

  /** The guarded UPDATE that re-claims an expired key. */
  function ResetRow(row: Option<Row>, hash: string, now: nat, ttl: nat): (bool, Option<Row>) {
    if row.Some? && Stale(row.value, now, ttl) then (true, Some(Row(hash, None, now))) else (false, row)
  }

  /** `complete` and `remove` do not look at who made the claim. */
  function CompleteRow(row: Option<Row>, response: Response): Option<Row> {
    if row.Some? then Some(row.value.(response := Some(response))) else None
  }

  function PurgeRow(row: Option<Row>, now: nat, ttl: nat): Option<Row> {
    if row.Some? && Stale(row.value, now, ttl) then None else row
  }

  /** `isExpired`, by a JavaScript clock. */
  predicate IsExpired(row: Row, jsNow: int, ttl: nat) {
    jsNow - row.created > ttl
  }

  /** What `begin` makes of the row it selected; None means that it tries to re-claim. */
  function Judge(row: Option<Row>, hash: string, jsNow: int, ttl: nat): Option<Answer> {
    if row.None? then Some(Processing)
    else if IsExpired(row.value, jsNow, ttl) then None
    else if row.value.hash != hash then Some(Conflict)
    else if row.value.response.Some? then Some(Replay(row.value.response.value))
    else Some(Processing)
  }

  // ------------------------------------------------------------------ machine

  datatype Stage =
    | Inserting                                  // `begin` is about to INSERT
    | Selecting                                  // the INSERT met a row
    | Resetting                                  // the row looked expired
    | Handling(at: nat)                          // claimed; the handler runs
    | Storing(at: nat, response: Response)       // answered below 500, about to `complete`
    | Releasing(at: nat)                         // answered 500 or above, about to `remove`
    | Turned(answer: Answer)                     // `begin` did not claim
    | Done
    | Crashed

  datatype Proc = Proc(hash: string, stage: Stage)

  datatype Claim = Claim(proc: nat, at: nat)

  /**
    `claims`, `released`, `produced` and `movements` record what happened: every
    claim granted, which claimants removed the row, what each handler answered and
    which claims led to a committed movement of money.
   */
  datatype State = State(
    ttl: nat, now: nat, row: Option<Row>, procs: map<nat, Proc>,
    claims: seq<Claim>, released: set<nat>, produced: map<nat, Response>, movements: seq<Claim>)

  datatype Step =
    | Arrive(proc: nat, hash: string)
    | Insert(proc: nat)
    | Select(proc: nat, jsNow: int)
    | Reset(proc: nat)
    | Commit(proc: nat, response: Response)
    | Refuse(proc: nat, response: Response)
    | Fail(proc: nat)
    | Store(proc: nat, ok: bool)
    | Release(proc: nat, ok: bool)
    | Crash(proc: nat)
    | Tick(elapsed: nat)
    | Purge

  function Init(ttl: nat): State {
    State(ttl, 0, None, map[], [], {}, map[], [])
  }

  predicate InStage(s: State, proc: nat, stage: Stage) {
    proc in s.procs && s.procs[proc].stage == stage
  }

  /** The claim is not older than the TTL. */
  predicate InTime(s: State, at: nat) {
    s.now <= at + s.ttl
  }

  /**
    When a handler's `complete` or `remove` may take effect: at any time; within its
    own claim's TTL, as a prompt handler's does; or as if the statement also required
    that the row is the claimant's own, which the code does not ask.
   */
  datatype Guard = AnyTime | WithinTtl | OwnRow

  predicate Allows(guard: Guard, s: State, at: nat) {
    match guard
    case AnyTime => true
    case WithinTtl => InTime(s, at)
    case OwnRow => s.row.Some? ==> s.row.value.created == at
  }

  /** The guards for answers of 500 or above and for the others.  A movement may be committed however late. */
  datatype Rules = Rules(release: Guard, store: Guard)

  const ANY_PACE := Rules(AnyTime, AnyTime)

  predicate Can(s: State, step: Step, rules: Rules) {
    match step
    case Arrive(p, _) => p !in s.procs
    case Insert(p) => InStage(s, p, Inserting)
    case Select(p, _) => InStage(s, p, Selecting)
    case Reset(p) => InStage(s, p, Resetting)
    case Commit(p, response) => p in s.procs && s.procs[p].stage.Handling? && response.status < 500
    case Refuse(p, response) => p in s.procs && s.procs[p].stage.Handling? && response.status < 500
    case Fail(p) => p in s.procs && s.procs[p].stage.Handling?
    case Store(p, ok) =>
      p in s.procs && s.procs[p].stage.Storing? && (ok ==> Allows(rules.store, s, s.procs[p].stage.at))
    case Release(p, ok) =>
      p in s.procs && s.procs[p].stage.Releasing? && (ok ==> Allows(rules.release, s, s.procs[p].stage.at))
    case Crash(p) => p in s.procs
    case Tick(_) => true
    case Purge => true
  }

  function Enter(s: State, proc: nat, stage: Stage): State
    requires proc in s.procs
  {
    s.(procs := s.procs[proc := s.procs[proc].(stage := stage)])
  }

  function Granted(s: State, proc: nat, row: Option<Row>): State
    requires proc in s.procs
  {
    Enter(s, proc, Handling(s.now)).(row := row, claims := s.claims + [Claim(proc, s.now)])
  }

  function Take(s: State, step: Step, rules: Rules): State
    requires Can(s, step, rules)
  {
    match step
    case Arrive(p, hash) => s.(procs := s.procs[p := Proc(hash, Inserting)])
    case Insert(p) =>
      var (inserted, row) := InsertRow(s.row, s.procs[p].hash, s.now);
      if inserted then Granted(s, p, row) else Enter(s, p, Selecting)
    case Select(p, jsNow) =>
      var answer := Judge(s.row, s.procs[p].hash, jsNow, s.ttl);
      if answer.None? then Enter(s, p, Resetting) else Enter(s, p, Turned(answer.value))
    case Reset(p) =>
      var (won, row) := ResetRow(s.row, s.procs[p].hash, s.now, s.ttl);
      if won then Granted(s, p, row) else Enter(s, p, Turned(Processing))
    case Commit(p, response) =>
      var at := s.procs[p].stage.at;
      Enter(s, p, Storing(at, response)).(movements := s.movements + [Claim(p, at)], produced := s.produced[p := response])
    case Refuse(p, response) =>
      Enter(s, p, Storing(s.procs[p].stage.at, response)).(produced := s.produced[p := response])
    case Fail(p) => Enter(s, p, Releasing(s.procs[p].stage.at))
    case Store(p, ok) =>
      Enter(s, p, Done).(row := if ok then CompleteRow(s.row, s.procs[p].stage.response) else s.row)
    case Release(p, ok) =>
      if ok then Enter(s, p, Done).(row := None, released := s.released + {p}) else Enter(s, p, Done)
    case Crash(p) => Enter(s, p, Crashed)
    case Tick(elapsed) => s.(now := s.now + elapsed)
    case Purge => s.(row := PurgeRow(s.row, s.now, s.ttl))
  }

  predicate Runs(s: State, steps: seq<Step>, rules: Rules)
    decreases |steps|
  {
    steps == [] || (Can(s, steps[0], rules) && Runs(Take(s, steps[0], rules), steps[1..], rules))
  }

  function After(s: State, steps: seq<Step>, rules: Rules): State
    requires Runs(s, steps, rules)
    decreases |steps|
  {
    if steps == [] then s else After(Take(s, steps[0], rules), steps[1..], rules)
  }

  /** Requests arrive, processes crash, the purge runs and time passes at any point; only the purge touches the row. */
  lemma AnythingCanHappen(s: State, p: nat, hash: string, elapsed: nat, rules: Rules)
    ensures p !in s.procs ==> Can(s, Arrive(p, hash), rules) && Take(s, Arrive(p, hash), rules) == s.(procs := s.procs[p := Proc(hash, Inserting)])
    ensures p in s.procs ==>
      Can(s, Crash(p), rules) && Take(s, Crash(p), rules) == s.(procs := s.procs[p := Proc(s.procs[p].hash, Crashed)])
    ensures Can(s, Tick(elapsed), rules) && Take(s, Tick(elapsed), rules) == s.(now := s.now + elapsed)
    ensures Can(s, Purge, rules) && Take(s, Purge, rules)
            == s.(row := if s.row.Some? && s.row.value.created + s.ttl < s.now then None else s.row)
  {
  }

  // ------------------------------------------------- `begin` as one atomic claim

  /**
    The register that callers may think of: a claim is granted only on a key that
    is free or older than the TTL by the database clock, and then the row is the
    claimant's; other answers read the row; `Processing` may be spurious.
   */
  predicate Register(before: Option<Row>, hash: string, now: nat, ttl: nat, answer: Answer, after: Option<Row>) {
    match answer
    case New => (before.Some? ==> Stale(before.value, now, ttl)) && after == Some(Row(hash, None, now))
    case Replay(r) => after == before && before.Some? && before.value.hash == hash && before.value.response == Some(r)
    case Conflict => after == before && before.Some? && before.value.hash != hash
    case Processing => after == before
  }

  /** What `begin` has answered, once it has. */
  function BeginAnswer(stage: Stage): Option<Answer> {
    match stage
    case Handling(_) => Some(New)
    case Turned(answer) => Some(answer)
    case _ => None
  }

  /**
    INSERT, SELECT and UPDATE together refine the register: the statement that
    produces the answer is where the register acts, and the statements before it
    leave the row alone, whatever the JavaScript clock says.
   */
  lemma BeginRefinesRegister(s: State, step: Step, rules: Rules)
    requires Can(s, step, rules) && (step.Insert? || step.Select? || step.Reset?)
    ensures var t := Take(s, step, rules);
            var answer := BeginAnswer(t.procs[step.proc].stage);
            if answer.Some?
            then Register(s.row, s.procs[step.proc].hash, s.now, s.ttl, answer.value, t.row)
            else t.row == s.row && t.procs[step.proc].stage in {Selecting, Resetting}
  {
  }

  /** What `begin` answers when no other statement comes in between, and the row that it leaves. */
  function BeginOutcome(row: Option<Row>, hash: string, now: nat, jsNow: int, ttl: nat): (Answer, Option<Row>) {
    match row
    case None => (New, Some(Row(hash, None, now)))
    case Some(Row(stored, response, created)) =>
      if jsNow <= created + ttl then
        (if hash != stored then Conflict else if response.None? then Processing else Replay(response.value), row)
      else if now > created + ttl then (New, Some(Row(hash, None, now)))
      else (Processing, row)
  }

  /** The statements of an undisturbed `begin`. */
  function Undisturbed(s: State, p: nat, hash: string, jsNow: int): seq<Step> {
    [Arrive(p, hash), Insert(p)]
    + (if s.row.None? then []
       else [Select(p, jsNow)] + if jsNow <= s.row.value.created + s.ttl then [] else [Reset(p)])
  }

  lemma UndisturbedBegin(s: State, p: nat, hash: string, jsNow: int, rules: Rules)
    requires p !in s.procs
    ensures Runs(s, Undisturbed(s, p, hash, jsNow), rules)
    ensures var end := After(s, Undisturbed(s, p, hash, jsNow), rules);
            var (answer, row) := BeginOutcome(s.row, hash, s.now, jsNow, s.ttl);
            && p in end.procs && BeginAnswer(end.procs[p].stage) == Some(answer) && end.row == row
            && end.claims == s.claims + if answer.New? then [Claim(p, s.now)] else []
  {
    if s.row.None? {
      var s1 := Take(s, Arrive(p, hash), rules);
      FewRun(s, Undisturbed(s, p, hash, jsNow), [s, s1, Take(s1, Insert(p), rules)], rules);
    } else if jsNow <= s.row.value.created + s.ttl {
      UndisturbedMeetsRow(s, p, hash, jsNow, rules);
    } else {
      UndisturbedResets(s, p, hash, jsNow, rules);
    }
  }

  lemma UndisturbedMeetsRow(s: State, p: nat, hash: string, jsNow: int, rules: Rules)
    requires p !in s.procs && s.row.Some? && jsNow <= s.row.value.created + s.ttl
    ensures Runs(s, Undisturbed(s, p, hash, jsNow), rules)
    ensures var end := After(s, Undisturbed(s, p, hash, jsNow), rules);
            && InStage(end, p, Turned(BeginOutcome(s.row, hash, s.now, jsNow, s.ttl).0)) && end.row == s.row && end.claims == s.claims
  {
    var s1 := Take(s, Arrive(p, hash), rules);
    var s2 := Take(s1, Insert(p), rules);
    FewRun(s, Undisturbed(s, p, hash, jsNow), [s, s1, s2, Take(s2, Select(p, jsNow), rules)], rules);
  }

  lemma UndisturbedResets(s: State, p: nat, hash: string, jsNow: int, rules: Rules)
    requires p !in s.procs && s.row.Some? && jsNow > s.row.value.created + s.ttl
    ensures Runs(s, Undisturbed(s, p, hash, jsNow), rules)
    ensures var end := After(s, Undisturbed(s, p, hash, jsNow), rules);
            if s.now > s.row.value.created + s.ttl
            then InStage(end, p, Handling(s.now)) && end.row == Some(Row(hash, None, s.now)) && end.claims == s.claims + [Claim(p, s.now)]
            else InStage(end, p, Turned(Processing)) && end.row == s.row && end.claims == s.claims
  {
    var s1 := Take(s, Arrive(p, hash), rules);
    var s2 := Take(s1, Insert(p), rules);
    var s3 := Take(s2, Select(p, jsNow), rules);
    assert InStage(s3, p, Resetting);
    FewRun(s, Undisturbed(s, p, hash, jsNow), [s, s1, s2, s3, Take(s3, Reset(p), rules)], rules);
  }

  /** What happens to the register, one atomic act at a time. */
  datatype Act =
    | Answered(proc: nat, hash: string, now: nat, answer: Answer)
    | Completed(response: Response)
    | Removed
    | Purged(now: nat)

  /** The act of a step, if it has one: the rest of `begin` and of the handler does not touch the register. */
  function ActsOf(s: State, step: Step, rules: Rules): seq<Act>
    requires Can(s, step, rules)
  {
    match step
    case Insert(p) => AnswerOf(s, step, rules)
    case Select(p, _) => AnswerOf(s, step, rules)
    case Reset(p) => AnswerOf(s, step, rules)
    case Store(p, ok) => if ok then [Completed(s.procs[p].stage.response)] else []
    case Release(_, ok) => if ok then [Removed] else []
    case Purge => [Purged(s.now)]
    case _ => []
  }

  function AnswerOf(s: State, step: Step, rules: Rules): seq<Act>
    requires Can(s, step, rules) && (step.Insert? || step.Select? || step.Reset?)
  {
    var answer := BeginAnswer(Take(s, step, rules).procs[step.proc].stage);
    if answer.Some? then [Answered(step.proc, s.procs[step.proc].hash, s.now, answer.value)] else []
  }

  function Acts(s: State, steps: seq<Step>, rules: Rules): seq<Act>
    requires Runs(s, steps, rules)
    decreases |steps|
  {
    if steps == [] then [] else ActsOf(s, steps[0], rules) + Acts(Take(s, steps[0], rules), steps[1..], rules)
  }

  predicate Atomically(before: Option<Row>, act: Act, ttl: nat, after: Option<Row>) {
    match act
    case Answered(_, hash, now, answer) => Register(before, hash, now, ttl, answer, after)
    case Completed(response) => after == CompleteRow(before, response)
    case Removed => after == None
    case Purged(now) => after == PurgeRow(before, now, ttl)
  }

  /** Acting one after the other on a free key leaves `row`. */
  ghost predicate Linear(acts: seq<Act>, ttl: nat, row: Option<Row>)
    decreases |acts|
  {
    if acts == [] then row == None
    else
      var n := |acts| - 1;
      exists before :: Linear(acts[..n], ttl, before) && Atomically(before, acts[n], ttl, row)
  }

  /** The claim that an act grants, if it does. */
  function Grant(act: Act): seq<Claim> {
    if act.Answered? && act.answer.New? then [Claim(act.proc, act.now)] else []
  }

  function Grants(acts: seq<Act>): seq<Claim> {
    if acts == [] then [] else Grants(acts[..|acts| - 1]) + Grant(acts[|acts| - 1])
  }

  function AnswerTo(act: Act, p: nat): seq<Answer> {
    if act.Answered? && act.proc == p then [act.answer] else []
  }

  /** What the register answered one request. */
  function AnswersTo(acts: seq<Act>, p: nat): seq<Answer> {
    if acts == [] then [] else AnswersTo(acts[..|acts| - 1], p) + AnswerTo(acts[|acts| - 1], p)
  }

  /** A request whose `begin` has not answered yet. */
  predicate Asking(s: State, p: nat) {
    p in s.procs && s.procs[p].stage in {Inserting, Selecting, Resetting}
  }

  predicate AnswerOk(s: State, acts: seq<Act>, p: nat) {
    && |AnswersTo(acts, p)| <= 1
    && (p !in s.procs || Asking(s, p) ==> AnswersTo(acts, p) == [])
    && (p in s.procs && s.procs[p].stage.Turned? ==> AnswersTo(acts, p) == [s.procs[p].stage.answer])
    && (p in s.procs && Working(s.procs[p].stage).Some? ==>
          AnswersTo(acts, p) == [New] && Claim(p, Working(s.procs[p].stage).value) in s.claims)
  }

  /** `acts` is an atomic account of what happened to the key so far. */
  ghost predicate Traced(s: State, acts: seq<Act>) {
    Linear(acts, s.ttl, s.row) && s.claims == Grants(acts) && forall p: nat :: AnswerOk(s, acts, p)
  }

  lemma LinearAppend(acts: seq<Act>, act: Act, ttl: nat, before: Option<Row>, row: Option<Row>)
    requires Linear(acts, ttl, before) && Atomically(before, act, ttl, row)
    ensures Linear(acts + [act], ttl, row) && Grants(acts + [act]) == Grants(acts) + Grant(act)
  {
    assert (acts + [act])[..|acts|] == acts;
  }

  lemma AnswersAppend(acts: seq<Act>, act: Act, p: nat)
    ensures AnswersTo(acts + [act], p) == AnswersTo(acts, p) + AnswerTo(act, p)
  {
    assert (acts + [act])[..|acts|] == acts;
  }

  lemma StepIsAtomic(s: State, step: Step, rules: Rules)
    requires Can(s, step, rules)
    ensures var acts, t := ActsOf(s, step, rules), Take(s, step, rules);
            && t.ttl == s.ttl && |acts| <= 1
            && (acts == [] ==> t.row == s.row && t.claims == s.claims)
            && (acts != [] ==> Atomically(s.row, acts[0], s.ttl, t.row) && t.claims == s.claims + Grant(acts[0]))
  {
    if step.Insert? || step.Select? || step.Reset? {
      BeginRefinesRegister(s, step, rules);
    }
  }

  /** Only a request that is asking is answered, and what it is told is the register's answer. */
  lemma StepAnswers(s: State, step: Step, rules: Rules, p: nat)
    requires Can(s, step, rules)
    ensures var acts, t := ActsOf(s, step, rules), Take(s, step, rules);
            var answers := if acts == [] then [] else AnswerTo(acts[0], p);
            && (answers != [] ==> Asking(s, p))
            && (p !in t.procs || Asking(t, p) ==> answers == [] && (p !in s.procs || Asking(s, p)))
            && (p in t.procs && t.procs[p].stage.Turned? ==>
                  if Asking(s, p) then answers == [t.procs[p].stage.answer] else p in s.procs && t.procs[p] == s.procs[p])
  {
  }

  /** A handler starts when the register grants its request a claim, and works under that claim to its end. */
  lemma StepWorks(s: State, step: Step, rules: Rules, p: nat)
    requires Can(s, step, rules)
    ensures var acts, t := ActsOf(s, step, rules), Take(s, step, rules);
            p in t.procs && Working(t.procs[p].stage).Some? ==>
              if Asking(s, p)
              then acts != [] && AnswerTo(acts[0], p) == [New] && Grant(acts[0]) == [Claim(p, Working(t.procs[p].stage).value)]
              else p in s.procs && Working(t.procs[p].stage) == Working(s.procs[p].stage)
  {
  }

  lemma AnswerKeeps(s: State, step: Step, rules: Rules, acts: seq<Act>, p: nat)
    requires Can(s, step, rules) && AnswerOk(s, acts, p)
    ensures AnswerOk(Take(s, step, rules), acts + ActsOf(s, step, rules), p)
  {
    var more := ActsOf(s, step, rules);
    StepIsAtomic(s, step, rules);
    StepAnswers(s, step, rules, p);
    StepWorks(s, step, rules, p);
    if more == [] {
      assert acts + more == acts;
    } else {
      assert acts + more == acts + [more[0]];
      AnswersAppend(acts, more[0], p);
    }
  }

  lemma StepTraced(s: State, step: Step, rules: Rules, acts: seq<Act>)
    requires Can(s, step, rules) && Traced(s, acts)
    ensures Traced(Take(s, step, rules), acts + ActsOf(s, step, rules))
  {
    var more, t := ActsOf(s, step, rules), Take(s, step, rules);
    StepIsAtomic(s, step, rules);
    if more == [] {
      assert acts + more == acts;
    } else {
      assert acts + more == acts + [more[0]];
      LinearAppend(acts, more[0], s.ttl, s.row, t.row);
    }
    forall p: nat ensures AnswerOk(t, acts + more, p) {
      AnswerKeeps(s, step, rules, acts, p);
    }
  }

  lemma {:induction false} RunTraced(s: State, steps: seq<Step>, rules: Rules, acts: seq<Act>)
    requires Runs(s, steps, rules) && Traced(s, acts)
    ensures Traced(After(s, steps, rules), acts + Acts(s, steps, rules))
    decreases |steps|
  {
    if steps == [] {
      assert acts + [] == acts;
    } else {
      StepTraced(s, steps[0], rules, acts);
      RunTraced(Take(s, steps[0], rules), steps[1..], rules, acts + ActsOf(s, steps[0], rules));
      InTurn(acts, ActsOf(s, steps[0], rules), Acts(Take(s, steps[0], rules), steps[1..], rules));
    }
  }

  lemma InTurn(a: seq<Act>, b: seq<Act>, c: seq<Act>)
    ensures a + b + c == a + (b + c)
  {
  }

  /**
    Claim refinement, over whole runs and at any pace: duplicates whose three
    statements interleave with each other, with late answers and with purges act on
    the key as one atomic register does.  Each request is answered at most once, a
    turned-away one exactly with what the register said, and a request whose handler
    runs was answered `New` and works under a claim that the register granted.
   */
  lemma EveryRunLinearizes(ttl: nat, steps: seq<Step>, rules: Rules)
    requires Runs(Init(ttl), steps, rules)
    ensures Traced(After(Init(ttl), steps, rules), Acts(Init(ttl), steps, rules))
  {
    RunTraced(Init(ttl), steps, rules, []);
    assert [] + Acts(Init(ttl), steps, rules) == Acts(Init(ttl), steps, rules);
  }

  // ------------------------------------------------------------------ invariant

  function Holder(s: State): Claim
    requires s.claims != []
  {
    s.claims[|s.claims| - 1]
  }

  ghost predicate ClaimsOk(s: State) {
    && (forall i :: 0 <= i < |s.claims| ==> s.claims[i].proc in s.procs && s.claims[i].at <= s.now)
    && (forall i, j :: 0 <= i < j < |s.claims| ==>
          && s.claims[i].proc != s.claims[j].proc
          && (s.claims[i].proc in s.released || s.claims[i].at + s.ttl < s.claims[j].at))
  }

  ghost predicate RowOk(s: State) {
    && (s.row.Some? ==>
          && s.claims != []
          && Holder(s).proc in s.procs
          && s.row.value.created == Holder(s).at
          && s.row.value.hash == s.procs[Holder(s).proc].hash
          && Holder(s).proc !in s.released)
    && (s.claims != [] && Holder(s).proc !in s.released && InTime(s, Holder(s).at) ==> s.row.Some?)
  }

  /** The stored response is what the handler of the last claim answered. */
  ghost predicate ResponseOk(s: State) {
    s.row.Some? && s.row.value.response.Some? && s.claims != [] ==>
      && Holder(s).proc in s.procs
      && !s.procs[Holder(s).proc].stage.Handling? && !s.procs[Holder(s).proc].stage.Releasing?
      && Holder(s).proc in s.produced
      && s.produced[Holder(s).proc] == s.row.value.response.value
  }

  /** The time of the claim that a handler is working under. */
  function Working(stage: Stage): Option<nat> {
    match stage
    case Handling(at) => Some(at)
    case Storing(at, _) => Some(at)
    case Releasing(at) => Some(at)
    case _ => None
  }

  ghost predicate ProcOk(s: State, p: nat)
    requires p in s.procs
  {
    var stage := s.procs[p].stage;
    && (Working(stage).Some? ==> Claim(p, Working(stage).value) in s.claims && p !in s.released)
    && (stage in {Inserting, Selecting, Resetting} ==>
          p !in s.released && forall i :: 0 <= i < |s.claims| ==> s.claims[i].proc != p)
    && (stage.Storing? ==> p in s.produced && s.produced[p] == stage.response)
  }

  ghost predicate MovementsOk(s: State) {
    && (forall i :: 0 <= i < |s.movements| ==>
          var m := s.movements[i];
          && m in s.claims && m.proc !in s.released && m.proc in s.procs
          && !s.procs[m.proc].stage.Handling? && !s.procs[m.proc].stage.Releasing?
          && m.proc in s.produced && s.produced[m.proc].status < 500)
    && (forall i, j :: 0 <= i < j < |s.movements| ==> s.movements[i].proc != s.movements[j].proc)
  }

  ghost predicate Inv(s: State, rules: Rules) {
    && (rules.store != AnyTime ==> ResponseOk(s))
    && ClaimsOk(s) && RowOk(s) && MovementsOk(s) && s.released <= s.procs.Keys && forall p <- s.procs :: ProcOk(s, p)
  }

  /** Within the TTL an unreleased claim is the last one, and the row is its own. */
  lemma PromptClaimHolds(s: State, p: nat, at: nat)
    requires ClaimsOk(s) && RowOk(s) && Claim(p, at) in s.claims && p !in s.released && InTime(s, at)
    ensures Holder(s) == Claim(p, at) && s.row.Some?
  {
    var i :| 0 <= i < |s.claims| && s.claims[i] == Claim(p, at);
    assert i == |s.claims| - 1;
  }

  /** Either guard means that the row a statement changes is its claimant's own. */
  lemma GuardedClaimHolds(s: State, p: nat, at: nat, guard: Guard)
    requires ClaimsOk(s) && RowOk(s) && Claim(p, at) in s.claims && p !in s.released
    requires guard != AnyTime && Allows(guard, s, at)
    ensures s.row.Some? ==> Holder(s) == Claim(p, at)
    ensures Allows(OwnRow, s, at)
  {
    if guard == WithinTtl {
      PromptClaimHolds(s, p, at);
    } else if s.row.Some? {
      var i :| 0 <= i < |s.claims| && s.claims[i] == Claim(p, at);
      assert i == |s.claims| - 1;
    }
  }

  lemma GrantKeeps(s: State, p: nat, row: Option<Row>, rules: Rules)
    requires Inv(s, rules) && p in s.procs && s.procs[p].stage in {Inserting, Resetting}
    requires row == Some(Row(s.procs[p].hash, None, s.now))
    requires s.row.Some? ==> Stale(s.row.value, s.now, s.ttl)
    ensures Inv(Granted(s, p, row), rules)
  {
    var t := Granted(s, p, row);
    var n := |s.claims|;
    forall i | 0 <= i < n ensures s.claims[i].proc in s.released || s.claims[i].at + s.ttl < s.now {
      if s.claims[i].proc !in s.released && i < n - 1 {
        assert s.claims[i].at + s.ttl < Holder(s).at;
      }
    }
    forall q <- t.procs ensures ProcOk(t, q) {
      assert q in s.procs && ProcOk(s, q);
    }
  }

  /** A step of `begin` that claims nothing, a crash, an arrival or the passing of time. */
  lemma QuietKeeps(s: State, t: State, rules: Rules)
    requires Inv(s, rules) && t.row == s.row && t.claims == s.claims && t.released == s.released && t.ttl == s.ttl
    requires t.produced == s.produced && t.movements == s.movements && t.now >= s.now
    requires s.procs.Keys <= t.procs.Keys
    requires forall p <- t.procs ::
      if p in s.procs then
        t.procs[p] == s.procs[p]
        || (t.procs[p].hash == s.procs[p].hash
            && (t.procs[p].stage in {Done, Crashed} || t.procs[p].stage.Turned?
                || (t.procs[p].stage in {Selecting, Resetting} && s.procs[p].stage in {Inserting, Selecting})))
      else t.procs[p].stage == Inserting
    ensures Inv(t, rules)
  {
    forall p <- t.procs ensures ProcOk(t, p) {
      assert p in s.procs ==> ProcOk(s, p);
    }
  }

  /** The handler commits a movement: the row does not change yet. */
  lemma CommitKeeps(s: State, p: nat, response: Response, rules: Rules)
    requires Inv(s, rules) && Can(s, Commit(p, response), rules)
    ensures Inv(Take(s, Commit(p, response), rules), rules)
  {
    var t := Take(s, Commit(p, response), rules);
    assert ProcOk(s, p);
    forall q <- t.procs ensures ProcOk(t, q) {
      assert ProcOk(s, q);
    }
  }

  lemma NoMovementKeeps(s: State, step: Step, rules: Rules)
    requires Inv(s, rules) && Can(s, step, rules) && (step.Refuse? || step.Fail?)
    ensures Inv(Take(s, step, rules), rules)
  {
    var t := Take(s, step, rules);
    assert ProcOk(s, step.proc);
    forall q <- t.procs ensures ProcOk(t, q) {
      assert ProcOk(s, q);
    }
  }

  lemma StoreKeeps(s: State, p: nat, ok: bool, rules: Rules)
    requires Inv(s, rules) && Can(s, Store(p, ok), rules)
    ensures Inv(Take(s, Store(p, ok), rules), rules)
  {
    var t := Take(s, Store(p, ok), rules);
    assert ProcOk(s, p);
    if ok && rules.store != AnyTime {
      GuardedClaimHolds(s, p, s.procs[p].stage.at, rules.store);
    }
    forall q <- t.procs ensures ProcOk(t, q) {
      assert ProcOk(s, q);
    }
  }

  lemma ReleaseKeeps(s: State, p: nat, ok: bool, rules: Rules)
    requires Inv(s, rules) && Can(s, Release(p, ok), rules)
    requires rules.release != AnyTime
    ensures Inv(Take(s, Release(p, ok), rules), rules)
  {
    var t := Take(s, Release(p, ok), rules);
    assert ProcOk(s, p);
    if ok {
      GuardedClaimHolds(s, p, s.procs[p].stage.at, rules.release);
    }
    forall q <- t.procs ensures ProcOk(t, q) {
      assert ProcOk(s, q);
    }
  }

  lemma PurgeKeeps(s: State, rules: Rules)
    requires Inv(s, rules)
    ensures Inv(Take(s, Purge, rules), rules)
  {
    var t := Take(s, Purge, rules);
    forall q <- t.procs ensures ProcOk(t, q) {
      assert ProcOk(s, q);
    }
  }

  lemma StepKeeps(s: State, step: Step, rules: Rules)
    requires Inv(s, rules) && Can(s, step, rules)
    requires rules.release != AnyTime
    ensures Inv(Take(s, step, rules), rules)
  {
    var t := Take(s, step, rules);
    match step
    case Insert(p) => if s.row.None? { GrantKeeps(s, p, t.row, rules); } else { QuietKeeps(s, t, rules); }
    case Reset(p) => if t.claims != s.claims { GrantKeeps(s, p, t.row, rules); } else { QuietKeeps(s, t, rules); }
    case Commit(p, response) => CommitKeeps(s, p, response, rules);
    case Refuse(_, _) => NoMovementKeeps(s, step, rules);
    case Fail(_) => NoMovementKeeps(s, step, rules);
    case Store(p, ok) => StoreKeeps(s, p, ok, rules);
    case Release(p, ok) => ReleaseKeeps(s, p, ok, rules);
    case Purge => PurgeKeeps(s, rules);
    case _ => QuietKeeps(s, t, rules);
  }

  lemma {:induction false} RunKeeps(s: State, steps: seq<Step>, rules: Rules)
    requires Inv(s, rules) && Runs(s, steps, rules)
    requires rules.release != AnyTime
    ensures Inv(After(s, steps, rules), rules) && After(s, steps, rules).ttl == s.ttl
    decreases |steps|
  {
    if steps != [] {
      StepKeeps(s, steps[0], rules);
      RunKeeps(Take(s, steps[0], rules), steps[1..], rules);
    }
  }

  // ------------------------------------------------------------------- theorems

  /**
    At most once: over every interleaving of duplicates, crashes, failed persists
    and purges, two executions that moved money were claimed more than one TTL
    apart, and neither claim was ever released.  It is enough that failures are
    prompt, or that none deletes a row that is not its own.
   */
  lemma AtMostOncePerTtl(ttl: nat, steps: seq<Step>, rules: Rules)
    requires rules.release != AnyTime && Runs(Init(ttl), steps, rules)
    ensures var end := After(Init(ttl), steps, rules);
            && (forall i, j :: 0 <= i < |end.movements| && 0 <= j < |end.movements| && i != j ==>
                  end.movements[i].at + ttl < end.movements[j].at || end.movements[j].at + ttl < end.movements[i].at)
            && (forall i :: 0 <= i < |end.movements| ==> end.movements[i].proc !in end.released)
  {
    RunKeeps(Init(ttl), steps, rules);
    var end := After(Init(ttl), steps, rules);
    forall i, j | 0 <= i < |end.movements| && 0 <= j < |end.movements| && i != j
      ensures end.movements[i].at + ttl < end.movements[j].at || end.movements[j].at + ttl < end.movements[i].at
    {
      assert end.movements[i] in end.claims && end.movements[j] in end.claims;
      var a :| 0 <= a < |end.claims| && end.claims[a] == end.movements[i];
      var b :| 0 <= b < |end.claims| && end.claims[b] == end.movements[j];
      assert end.movements[i].proc != end.movements[j].proc;
      assert a < b || b < a;
    }
  }

  /**
    Replay fidelity: a replayed answer is what the handler of the current claim
    answered, and the request asking has that claim's hash.
   */
  lemma ReplayIsFaithful(ttl: nat, steps: seq<Step>, p: nat, jsNow: int, response: Response, rules: Rules)
    requires rules.release != AnyTime && rules.store != AnyTime && Runs(Init(ttl), steps, rules)
    requires var s := After(Init(ttl), steps, rules);
             && Can(s, Select(p, jsNow), rules)
             && Take(s, Select(p, jsNow), rules).procs[p].stage == Turned(Replay(response))
    ensures var s := After(Init(ttl), steps, rules);
            && s.claims != [] && Holder(s).proc in s.procs && Holder(s).proc in s.produced
            && s.produced[Holder(s).proc] == response
            && s.procs[Holder(s).proc].hash == s.procs[p].hash
            && Holder(s).proc !in s.released
  {
    RunKeeps(Init(ttl), steps, rules);
  }

  /** Once the current claim's answer is stored, no step within the TTL touches the row. */
  lemma StoredStepKeeps(s: State, step: Step, rules: Rules)
    requires Inv(s, rules) && Can(s, step, rules) && rules.release != AnyTime && rules.store != AnyTime
    requires s.row.Some? && s.row.value.response.Some? && Take(s, step, rules).now <= s.row.value.created + s.ttl
    ensures Take(s, step, rules).row == s.row
  {
    if step.Store? {
      assert ProcOk(s, step.proc);
      if step.ok {
        GuardedClaimHolds(s, step.proc, s.procs[step.proc].stage.at, rules.store);
      }
    }
    if step.Release? {
      assert ProcOk(s, step.proc);
      if step.ok {
        GuardedClaimHolds(s, step.proc, s.procs[step.proc].stage.at, rules.release);
      }
    }
  }

  lemma {:induction false} TimePasses(s: State, steps: seq<Step>, rules: Rules)
    requires Runs(s, steps, rules)
    ensures s.now <= After(s, steps, rules).now && s.ttl == After(s, steps, rules).ttl
    decreases |steps|
  {
    if steps != [] {
      TimePasses(Take(s, steps[0], rules), steps[1..], rules);
    }
  }

  lemma {:induction false} StoredRunKeeps(s: State, steps: seq<Step>, rules: Rules)
    requires Inv(s, rules) && Runs(s, steps, rules) && rules.release != AnyTime && rules.store != AnyTime
    requires s.row.Some? && s.row.value.response.Some? && After(s, steps, rules).now <= s.row.value.created + s.ttl
    ensures After(s, steps, rules).row == s.row
    decreases |steps|
  {
    if steps != [] {
      var t := Take(s, steps[0], rules);
      TimePasses(t, steps[1..], rules);
      StepKeeps(s, steps[0], rules);
      StoredStepKeeps(s, steps[0], rules);
      StoredRunKeeps(t, steps[1..], rules);
    }
  }

  /**
    Safe retries over every run: once request `p` has stored its answer within its
    claim's TTL, whatever happens until the TTL is over, a request with the same hash
    is replayed that answer and one with another hash is refused.
   */
  lemma EveryRetryIsReplayed(ttl: nat, steps: seq<Step>, p: nat, more: seq<Step>, q: nat, jsNow: int, rules: Rules)
    requires rules.release != AnyTime && rules.store != AnyTime && Runs(Init(ttl), steps, rules)
    requires var s := After(Init(ttl), steps, rules);
             && Can(s, Store(p, true), rules) && s.now <= s.procs[p].stage.at + ttl
             && Runs(Take(s, Store(p, true), rules), more, rules)
             && var t := After(Take(s, Store(p, true), rules), more, rules);
                t.now <= s.procs[p].stage.at + ttl && InStage(t, q, Selecting) && jsNow <= s.procs[p].stage.at + ttl
    ensures var s := After(Init(ttl), steps, rules);
            var t := After(Take(s, Store(p, true), rules), more, rules);
            Take(t, Select(q, jsNow), rules).procs[q].stage
            == Turned(if t.procs[q].hash == s.procs[p].hash then Replay(s.procs[p].stage.response) else Conflict)
  {
    var s := After(Init(ttl), steps, rules);
    RunKeeps(Init(ttl), steps, rules);
    assert ProcOk(s, p);
    PromptClaimHolds(s, p, s.procs[p].stage.at);
    var stored := Take(s, Store(p, true), rules);
    StoreKeeps(s, p, true, rules);
    assert stored.row == Some(Row(s.procs[p].hash, Some(s.procs[p].stage.response), s.procs[p].stage.at));
    StoredRunKeeps(stored, more, rules);
    TimePasses(stored, more, rules);
  }

  /** The requests whose handlers moved money, in order. */
  function Commits(steps: seq<Step>): seq<nat> {
    if steps == [] then [] else (if steps[0].Commit? then [steps[0].proc] else []) + Commits(steps[1..])
  }

  /** No movement is lost from the record: it holds every commit, in order, under its own claim. */
  lemma {:induction false} MovementsAreCommits(s: State, steps: seq<Step>, rules: Rules)
    requires Runs(s, steps, rules)
    ensures var end := After(s, steps, rules);
            && |end.movements| == |s.movements| + |Commits(steps)|
            && end.movements[..|s.movements|] == s.movements
            && forall i :: 0 <= i < |Commits(steps)| ==> end.movements[|s.movements| + i].proc == Commits(steps)[i]
    decreases |steps|
  {
    if steps != [] {
      var t := Take(s, steps[0], rules);
      MovementsAreCommits(t, steps[1..], rules);
      var end := After(s, steps, rules);
      if steps[0].Commit? {
        assert end.movements[|s.movements|] == end.movements[..|t.movements|][|s.movements|] == t.movements[|s.movements|];
        assert end.movements[..|s.movements|] == end.movements[..|t.movements|][..|s.movements|];
        forall i | 1 <= i < |Commits(steps)| ensures end.movements[|s.movements| + i].proc == Commits(steps)[i] {
          assert end.movements[|t.movements| + (i - 1)].proc == Commits(steps[1..])[i - 1];
        }
      }
    }
  }

  /**
    While the last claim is unreleased and within the TTL, no request reaches the
    handler: neither an INSERT nor a re-claim succeeds, whoever asks and whatever
    the JavaScript clock says.
   */
  lemma ClaimedKeyIsRefused(ttl: nat, steps: seq<Step>, step: Step, rules: Rules)
    requires rules.release != AnyTime && Runs(Init(ttl), steps, rules)
    requires var s := After(Init(ttl), steps, rules);
             s.claims != [] && Holder(s).proc !in s.released && InTime(s, Holder(s).at) && Can(s, step, rules)
    ensures var s := After(Init(ttl), steps, rules);
            && Take(s, step, rules).claims == s.claims
            && (step.Reset? ==> Take(s, step, rules).procs[step.proc].stage == Turned(Processing))
            && (step.Insert? ==> Take(s, step, rules).procs[step.proc].stage == Selecting)
  {
    RunKeeps(Init(ttl), steps, rules);
  }

  /** The UPDATEs of several requests, one after the other in any order. */
  function Resets(order: seq<nat>): seq<Step> {
    seq(|order|, i requires 0 <= i < |order| => Reset(order[i]))
  }

  lemma {:induction false} LosersTurnBack(s: State, order: seq<nat>, rules: Rules)
    requires s.row.Some? && !Stale(s.row.value, s.now, s.ttl)
    requires forall i :: 0 <= i < |order| ==> InStage(s, order[i], Resetting)
    requires forall i, j :: 0 <= i < j < |order| ==> order[i] != order[j]
    ensures Runs(s, Resets(order), rules)
    ensures var end := After(s, Resets(order), rules);
            && end.row == s.row && end.claims == s.claims && end.procs.Keys == s.procs.Keys
            && (forall p <- s.procs :: end.procs[p].stage == if p in order then Turned(Processing) else s.procs[p].stage)
    decreases |order|
  {
    if order != [] {
      var t := Take(s, Reset(order[0]), rules);
      LosersTurnBack(t, order[1..], rules);
      assert Resets(order)[1..] == Resets(order[1..]);
      assert order == [order[0]] + order[1..];
    }
  }

  /** Of any set of requests racing to re-claim one expired key, exactly one wins: the first to UPDATE. */
  lemma ExactlyOneReclaims(s: State, order: seq<nat>, rules: Rules)
    requires s.row.Some? && Stale(s.row.value, s.now, s.ttl) && order != []
    requires forall i :: 0 <= i < |order| ==> InStage(s, order[i], Resetting)
    requires forall i, j :: 0 <= i < j < |order| ==> order[i] != order[j]
    ensures Runs(s, Resets(order), rules)
    ensures var end := After(s, Resets(order), rules);
            && end.claims == s.claims + [Claim(order[0], s.now)]
            && (forall i :: 0 <= i < |order| ==>
                  order[i] in end.procs
                  && end.procs[order[i]].stage == if i == 0 then Handling(s.now) else Turned(Processing))
  {
    var t := Take(s, Reset(order[0]), rules);
    LosersTurnBack(t, order[1..], rules);
    assert Resets(order)[1..] == Resets(order[1..]);
    forall i | 0 < i < |order| ensures order[i] in order[1..] {
      assert order[1..][i - 1] == order[i];
    }
  }

  /** A step that frees the key. */
  predicate Frees(step: Step) {
    (step.Release? && step.ok) || step.Purge?
  }

  /** Since the claims were `base` and the row dated from `created`, nothing has freed the key. */
  ghost predicate Racing(s: State, base: seq<Claim>, created: nat) {
    && s.row.Some? && base <= s.claims
    && s.row.value.created == if s.claims == base then created else Holder(s).at
  }

  lemma StepRaces(s: State, step: Step, rules: Rules, base: seq<Claim>, created: nat)
    requires Racing(s, base, created) && Can(s, step, rules) && !Frees(step)
    ensures var t := Take(s, step, rules); Racing(t, base, created) && t.now >= s.now && t.ttl == s.ttl
  {
  }

  lemma {:induction false} RunRaces(s: State, steps: seq<Step>, rules: Rules, base: seq<Claim>, created: nat)
    requires Racing(s, base, created) && Runs(s, steps, rules) && forall i :: 0 <= i < |steps| ==> !Frees(steps[i])
    ensures var end := After(s, steps, rules); Racing(end, base, created) && end.now >= s.now && end.ttl == s.ttl
    decreases |steps|
  {
    if steps != [] {
      StepRaces(s, steps[0], rules, base, created);
      RunRaces(Take(s, steps[0], rules), steps[1..], rules, base, created);
    }
  }

  /**
    The race for one expired key, interleaved with anything that does not free it: an
    UPDATE wins exactly when nobody has won yet or the last winner's claim has
    outlived the TTL.
   */
  lemma RaceHasOneWinner(s: State, steps: seq<Step>, p: nat, rules: Rules)
    requires s.row.Some? && Stale(s.row.value, s.now, s.ttl)
    requires Runs(s, steps, rules) && forall i :: 0 <= i < |steps| ==> !Frees(steps[i])
    requires Can(After(s, steps, rules), Reset(p), rules)
    ensures var end := After(s, steps, rules);
            var t := Take(end, Reset(p), rules);
            if end.claims == s.claims || (s.claims < end.claims && Holder(end).at + s.ttl < end.now)
            then t.claims == end.claims + [Claim(p, end.now)] && t.procs[p].stage == Handling(end.now)
            else t.claims == end.claims && t.procs[p].stage == Turned(Processing)
  {
    RunRaces(s, steps, rules, s.claims, s.row.value.created);
  }

  /** The row is gone, or still dates from `created`. */
  predicate Aged(s: State, created: nat) {
    s.row.None? || s.row.value.created == created
  }

  lemma {:induction false} UnclaimedRowAges(s: State, steps: seq<Step>, rules: Rules, created: nat)
    requires Runs(s, steps, rules) && Aged(s, created) && |After(s, steps, rules).claims| <= |s.claims|
    ensures var end := After(s, steps, rules); Aged(end, created) && (s.row.None? ==> end.row.None?)
    ensures After(s, steps, rules).now >= s.now && After(s, steps, rules).ttl == s.ttl
    decreases |steps|
  {
    if steps != [] {
      ClaimsGrow(Take(s, steps[0], rules), steps[1..], rules);
      UnclaimedRowAges(Take(s, steps[0], rules), steps[1..], rules, created);
    }
  }

  lemma {:induction false} ClaimsGrow(s: State, steps: seq<Step>, rules: Rules)
    requires Runs(s, steps, rules)
    ensures |After(s, steps, rules).claims| >= |s.claims|
    decreases |steps|
  {
    if steps != [] {
      ClaimsGrow(Take(s, steps[0], rules), steps[1..], rules);
    }
  }

  /** If the purge deletes the expired row before anybody has won, no UPDATE wins until an INSERT has claimed anew. */
  lemma PurgedRaceHasNoWinner(s: State, first: seq<Step>, second: seq<Step>, p: nat, rules: Rules)
    requires s.row.Some? && Stale(s.row.value, s.now, s.ttl) && Runs(s, first, rules)
    requires Runs(Take(After(s, first, rules), Purge, rules), second, rules)
    requires var end := After(Take(After(s, first, rules), Purge, rules), second, rules);
             |end.claims| == |s.claims| && Can(end, Reset(p), rules)
    ensures var end := After(Take(After(s, first, rules), Purge, rules), second, rules);
            Take(end, Reset(p), rules).claims == end.claims && Take(end, Reset(p), rules).procs[p].stage == Turned(Processing)
  {
    var mid := After(s, first, rules);
    ClaimsGrow(s, first, rules);
    ClaimsGrow(Take(mid, Purge, rules), second, rules);
    UnclaimedRowAges(s, first, rules, s.row.value.created);
    UnclaimedRowAges(Take(mid, Purge, rules), second, rules, s.row.value.created);
  }

  const MOVED := Response(201, "{}")

  /** Request 0 claims and stalls past a TTL of one; the purge deletes its row. */
  lemma StalledHandler(steps: seq<Step>)
    requires steps == [Arrive(0, "h"), Insert(0), Tick(2), Purge]
    ensures Runs(Init(1), steps, ANY_PACE)
    ensures After(Init(1), steps, ANY_PACE) == State(1, 2, None, map[0 := Proc("h", Handling(0))], [Claim(0, 0)], {}, map[], [])
  {
    var s0 := Init(1);
    var s1 := Take(s0, steps[0], ANY_PACE);
    var s2 := Take(s1, steps[1], ANY_PACE);
    var s3 := Take(s2, steps[2], ANY_PACE);
    var s4 := Take(s3, steps[3], ANY_PACE);
    assert s4.procs == map[0 := Proc("h", Handling(0))];
    FewRun(s0, steps, [s0, s1, s2, s3, s4], ANY_PACE);
  }

  /** Request 1 claims the free key; then request 0 fails and deletes request 1's row. */
  lemma WrongRowDeleted(s0: State, steps: seq<Step>)
    requires s0 == State(1, 2, None, map[0 := Proc("h", Handling(0))], [Claim(0, 0)], {}, map[], [])
    requires steps == [Arrive(1, "h"), Insert(1), Fail(0), Release(0, true)]
    ensures Runs(s0, steps, ANY_PACE)
    ensures After(s0, steps, ANY_PACE)
            == State(1, 2, None, map[0 := Proc("h", Done), 1 := Proc("h", Handling(2))], [Claim(0, 0), Claim(1, 2)], {0}, map[], [])
  {
    var s1 := Take(s0, steps[0], ANY_PACE);
    var s2 := Take(s1, steps[1], ANY_PACE);
    var s3 := Take(s2, steps[2], ANY_PACE);
    var s4 := Take(s3, steps[3], ANY_PACE);
    assert s4.procs == map[0 := Proc("h", Done), 1 := Proc("h", Handling(2))];
    FewRun(s0, steps, [s0, s1, s2, s3, s4], ANY_PACE);
  }

  lemma BothMove(s0: State, steps: seq<Step>)
    requires s0 == State(1, 2, None, map[0 := Proc("h", Done), 1 := Proc("h", Handling(2))],
                         [Claim(0, 0), Claim(1, 2)], {0}, map[], [])
    requires steps == [Arrive(2, "h"), Insert(2), Commit(1, MOVED), Commit(2, MOVED)]
    ensures Runs(s0, steps, ANY_PACE) && After(s0, steps, ANY_PACE).movements == [Claim(1, 2), Claim(2, 2)]
  {
    var s1 := Take(s0, steps[0], ANY_PACE);
    var s2 := Take(s1, steps[1], ANY_PACE);
    var s3 := Take(s2, steps[2], ANY_PACE);
    var s4 := Take(s3, steps[3], ANY_PACE);
    FewRun(s0, steps, [s0, s1, s2, s3, s4], ANY_PACE);
  }

  /**
    The assumption on late failures is needed: without it there is a run in which
    requests 1 and 2 both move money under claims of the same instant.
   */
  lemma LateReleaseBreaksAtMostOnce() returns (steps: seq<Step>)
    ensures Runs(Init(1), steps, ANY_PACE)
    ensures After(Init(1), steps, ANY_PACE).movements == [Claim(1, 2), Claim(2, 2)]
  {
    var first := [Arrive(0, "h"), Insert(0), Tick(2), Purge];
    var second := [Arrive(1, "h"), Insert(1), Fail(0), Release(0, true)];
    var third := [Arrive(2, "h"), Insert(2), Commit(1, MOVED), Commit(2, MOVED)];
    StalledHandler(first);
    var s4 := After(Init(1), first, ANY_PACE);
    WrongRowDeleted(s4, second);
    var s8 := After(s4, second, ANY_PACE);
    BothMove(s8, third);
    Concatenated(s4, second, third);
    Concatenated(Init(1), first, second + third);
    steps := first + (second + third);
  }

  /** Request 1 claims with another hash; request 0 answers late and its answer lands in request 1's row. */
  lemma WrongRowCompleted(s0: State, steps: seq<Step>)
    requires s0 == State(1, 2, None, map[0 := Proc("h", Handling(0))], [Claim(0, 0)], {}, map[], [])
    requires steps == [Arrive(1, "k"), Insert(1), Refuse(0, MOVED), Store(0, true)]
    ensures Runs(s0, steps, ANY_PACE)
    ensures After(s0, steps, ANY_PACE)
            == State(1, 2, Some(Row("k", Some(MOVED), 2)), map[0 := Proc("h", Done), 1 := Proc("k", Handling(2))],
                     [Claim(0, 0), Claim(1, 2)], {}, map[0 := MOVED], [])
  {
    var s1 := Take(s0, steps[0], ANY_PACE);
    var s2 := Take(s1, steps[1], ANY_PACE);
    var s3 := Take(s2, steps[2], ANY_PACE);
    var s4 := Take(s3, steps[3], ANY_PACE);
    assert s4.procs == map[0 := Proc("h", Done), 1 := Proc("k", Handling(2))];
    FewRun(s0, steps, [s0, s1, s2, s3, s4], ANY_PACE);
  }

  /** Request 2, with request 1's hash, is sent what is stored. */
  lemma StoredIsReplayed(s0: State, steps: seq<Step>)
    requires s0 == State(1, 2, Some(Row("k", Some(MOVED), 2)), map[0 := Proc("h", Done), 1 := Proc("k", Handling(2))],
                         [Claim(0, 0), Claim(1, 2)], {}, map[0 := MOVED], [])
    requires steps == [Arrive(2, "k"), Insert(2), Select(2, 2)]
    ensures Runs(s0, steps, ANY_PACE)
    ensures var end := After(s0, steps, ANY_PACE);
            InStage(end, 2, Turned(Replay(MOVED))) && end.claims == s0.claims && end.produced == s0.produced
  {
    var s1 := Take(s0, steps[0], ANY_PACE);
    var s2 := Take(s1, steps[1], ANY_PACE);
    var s3 := Take(s2, steps[2], ANY_PACE);
    FewRun(s0, steps, [s0, s1, s2, s3], ANY_PACE);
  }

  /**
    The assumption on late answers is needed: without it request 2 is replayed an
    answer that the handler of the current claim never gave.
   */
  lemma LateStoreBreaksReplay() returns (steps: seq<Step>)
    ensures Runs(Init(1), steps, ANY_PACE)
    ensures var end := After(Init(1), steps, ANY_PACE);
            && InStage(end, 2, Turned(Replay(MOVED)))
            && end.claims != [] && Holder(end).proc !in end.produced
  {
    var first := [Arrive(0, "h"), Insert(0), Tick(2), Purge];
    var second := [Arrive(1, "k"), Insert(1), Refuse(0, MOVED), Store(0, true)];
    var third := [Arrive(2, "k"), Insert(2), Select(2, 2)];
    StalledHandler(first);
    var s4 := After(Init(1), first, ANY_PACE);
    WrongRowCompleted(s4, second);
    var s8 := After(s4, second, ANY_PACE);
    StoredIsReplayed(s8, third);
    Concatenated(s4, second, third);
    Concatenated(Init(1), first, second + third);
    steps := first + (second + third);
  }

  /** A run given with all its states. */
  lemma {:induction false} FewRun(s: State, steps: seq<Step>, states: seq<State>, rules: Rules)
    requires |states| == |steps| + 1 && states[0] == s
    requires forall i :: 0 <= i < |steps| ==> Can(states[i], steps[i], rules) && Take(states[i], steps[i], rules) == states[i + 1]
    ensures Runs(s, steps, rules) && After(s, steps, rules) == states[|steps|]
    decreases |steps|
  {
    if steps != [] {
      FewRun(states[1], steps[1..], states[1..], rules);
    }
  }

  lemma {:induction false} Concatenated(s: State, first: seq<Step>, second: seq<Step>)
    requires Runs(s, first, ANY_PACE) && Runs(After(s, first, ANY_PACE), second, ANY_PACE)
    ensures Runs(s, first + second, ANY_PACE)
    ensures After(s, first + second, ANY_PACE) == After(After(s, first, ANY_PACE), second, ANY_PACE)
    decreases |first|
  {
    if first == [] {
      assert first + second == second;
    } else {
      Concatenated(Take(s, first[0], ANY_PACE), first[1..], second);
      assert (first + second)[1..] == first[1..] + second;
    }
  }
}

/**
  Revocations that race rotations.  `revokeFamily` and `revokeAllForUser` run one
  UPDATE each; between the moment it takes its snapshot and the moment it has all
  its row locks other transactions may commit.  Here such an UPDATE starts in one
  state of a run and finishes in a later one.
 */
module RefreshRaces {
  import opened Prelude
  import opened RefreshTokens

  // -------------------------------------------------------- what a run can change

  /** Ids never come back, and neither does liveness. */
  ghost predicate RowsAged(s: State, t: State) {
    && s.homes.Keys <= t.homes.Keys
    && (forall id <- t.ts :: id in s.homes ==>
          && id in s.ts && t.ts[id].family == s.ts[id].family && t.ts[id].user == s.ts[id].user
          && (Live(t.ts[id]) ==> Live(s.ts[id])))
  }

  ghost predicate ChainsGrew(s: State, t: State) {
    forall family <- s.chains :: family in t.chains && s.chains[family] <= t.chains[family]
  }

  /** `t` is a later state than `s`. */
  ghost predicate Grew(s: State, t: State) {
    RowsAged(s, t) && ChainsGrew(s, t)
  }

  lemma StepAges(s: State, step: Step)
    requires Can(s, step)
    ensures RowsAged(s, Take(s, step))
  {
  }

  lemma StepExtends(s: State, step: Step)
    requires Can(s, step)
    ensures ChainsGrew(s, Take(s, step))
  {
  }

  lemma StepGrows(s: State, step: Step)
    requires Can(s, step)
    ensures Grew(s, Take(s, step))
  {
    StepAges(s, step);
    StepExtends(s, step);
  }

  lemma GrewTransitive(s: State, t: State, u: State)
    requires Grew(s, t) && Grew(t, u)
    ensures Grew(s, u)
  {
    forall family <- s.chains ensures family in u.chains && s.chains[family] <= u.chains[family] {
      assert s.chains[family] <= t.chains[family] <= u.chains[family];
    }
  }

  lemma {:induction false} RunGrows(s: State, steps: seq<Step>)
    requires Inv(s) && Runs(s, steps)
    ensures Inv(After(s, steps)) && Grew(s, After(s, steps))
    decreases |steps|
  {
    if steps != [] {
      var t := Take(s, steps[0]);
      StepKeeps(s, steps[0]);
      StepGrows(s, steps[0]);
      RunGrows(t, steps[1..]);
      GrewTransitive(s, t, After(t, steps[1..]));
    }
  }

  // ------------------------------------------------------- what the snapshot misses

  ghost predicate SameChainSince(s: State, t: State, family: nat) {
    family in s.chains && family in t.chains && t.chains[family] == s.chains[family]
  }

  ghost predicate Distinct(chain: seq<Id>) {
    forall i, j :: 0 <= i < j < |chain| ==> chain[i] != chain[j]
  }

  /** A chain that extends another and ends in one of its tokens is that other. */
  lemma EndsInFirst(first: seq<Id>, chain: seq<Id>, id: Id)
    requires first <= chain && chain != [] && id in first && chain[|chain| - 1] == id && Distinct(chain)
    ensures chain == first
  {
    var i :| 0 <= i < |first| && first[i] == id;
    assert chain[i] == id;
  }

  lemma ChainIsDistinct(s: State, family: nat)
    requires ChainsOk(s) && family in s.chains
    ensures Distinct(s.chains[family])
  {
    assert ChainOk(s.ts, s.chains[family], family);
  }

  /** A token that was there already, and is live, is the last of a chain that has not grown. */
  lemma OldLiveIsLast(s: State, t: State, id: Id)
    requires RowsOk(s) && HomesOk(s) && Inv(t) && Grew(s, t) && id in s.ts && id in t.ts && Live(t.ts[id])
    ensures SameChainSince(s, t, t.ts[id].family)
  {
    var last := LiveIsLast(t, id);
    HomeOf(s, id);
    ChainIsDistinct(t, t.ts[id].family);
    EndsInFirst(s.chains[t.ts[id].family], t.chains[t.ts[id].family], id);
  }

  /** A token that is live later was live before exactly when its family got no token in between. */
  lemma LiveSince(s: State, t: State, id: Id)
    requires Inv(s) && Inv(t) && Grew(s, t) && id in t.ts && Live(t.ts[id])
    ensures id in s.ts && Live(s.ts[id]) <==> SameChainSince(s, t, t.ts[id].family)
    ensures id in s.ts ==> s.ts[id].family == t.ts[id].family && s.ts[id].user == t.ts[id].user
  {
    if id in s.ts {
      OldLiveIsLast(s, t, id);
      HomeOf(s, id);
    }
    if SameChainSince(s, t, t.ts[id].family) {
      var last := LiveIsLast(t, id);
      assert id in s.chains[t.ts[id].family];
    }
  }

  lemma HomeOf(s: State, id: Id)
    requires RowsOk(s) && HomesOk(s) && id in s.ts
    ensures id in s.homes && s.ts[id].family in s.chains && id in s.chains[s.ts[id].family]
  {
    assert RefreshTokens.RowOk(s, id);
  }

  /** Every session in scope that is still alive is as it was when the UPDATE started. */
  ghost predicate Undisturbed(s: State, t: State, scope: Scope) {
    forall id <- t.ts :: InScope(t.ts[id], scope) && Live(t.ts[id]) ==> SameChainSince(s, t, t.ts[id].family)
  }

  ghost predicate NoneLive(s: State, scope: Scope) {
    forall id <- s.ts :: InScope(s.ts[id], scope) ==> !Live(s.ts[id])
  }

  /**
    What a revoking UPDATE achieves, over every run: started in `s` and finished in
    `t`, it leaves no live token in its scope exactly when no session in scope that
    is alive in `t` got a token since `s`.
   */
  lemma SnapshotRevokesExactly(ttl: nat, before: seq<Step>, during: seq<Step>, scope: Scope, reason: Reason)
    requires Runs(Init(ttl), before) && Runs(After(Init(ttl), before), during) && reason != Rotated
    ensures var s := After(Init(ttl), before);
            var t := After(s, during);
            NoneLive(Take(t, FinishUpdate(s.ts, scope, reason)), scope) <==> Undisturbed(s, t, scope)
  {
    var s := After(Init(ttl), before);
    RunKeeps(Init(ttl), before);
    RunGrows(s, during);
    RevokesExactly(s, After(s, during), scope, reason);
  }

  lemma RevokesExactly(s: State, t: State, scope: Scope, reason: Reason)
    requires Inv(s) && Inv(t) && Grew(s, t) && reason != Rotated
    ensures NoneLive(Take(t, FinishUpdate(s.ts, scope, reason)), scope) <==> Undisturbed(s, t, scope)
  {
    var end := Take(t, FinishUpdate(s.ts, scope, reason));
    forall id <- t.ts
      ensures InScope(end.ts[id], scope) && Live(end.ts[id])
              <==> InScope(t.ts[id], scope) && Live(t.ts[id]) && !SameChainSince(s, t, t.ts[id].family)
    {
      if Live(t.ts[id]) {
        LiveSince(s, t, id);
      }
    }
  }

  // ------------------------------------------------------------------ one session

  /** No rotation of the session committed while the UPDATE ran, or something else had already ended it. */
  ghost predicate FamilyUndisturbed(s: State, t: State, family: nat) {
    SameChainSince(s, t, family) || Ended(t, family)
  }

  /**
    Revoking one session: it is over exactly when no rotation of it committed between
    the start and the end of the UPDATE, unless something else ended it; and when it
    is over it is over in every later state.
   */
  lemma FamilyRevokedExactly(s: State, during: seq<Step>, family: nat, reason: Reason, later: seq<Step>)
    requires Inv(s) && family in s.chains && Runs(s, during) && reason != Rotated
    requires Runs(Take(After(s, during), FinishUpdate(s.ts, OfFamily(family), reason)), later)
    ensures var t := After(s, during);
            var end := Take(t, FinishUpdate(s.ts, OfFamily(family), reason));
            && (Ended(end, family) <==> FamilyUndisturbed(s, t, family))
            && (Ended(end, family) ==> Ended(After(end, later), family))
  {
    var t := After(s, during);
    RunGrows(s, during);
    RevokesExactly(s, t, OfFamily(family), reason);
    var end := Take(t, FinishUpdate(s.ts, OfFamily(family), reason));
    if Ended(end, family) {
      EndedForever(end, later, family);
    }
  }

  /** An UPDATE that nothing overtakes is the atomic one. */
  lemma UndisturbedIsAtomic(ts: Table, scope: Scope, reason: Reason)
    ensures RevokeFromSnapshot(ts, ts, scope, reason) == RevokeWhere(ts, scope, reason)
  {
  }

  /**
    Presenting a token that was rotated and not yet purged ends its session, now and
    in every later state, exactly when no rotation of the session commits while the
    revoking UPDATE runs.  If nothing at all commits meanwhile, the presentation is
    one atomic step.
   */
  lemma ReuseEndsTheSession(ttl: nat, before: seq<Step>, id: Id, next: Id, text: string, during: seq<Step>, later: seq<Step>)
    requires Runs(Init(ttl), before) && Runs(After(Init(ttl), before), during)
    requires var s := After(Init(ttl), before);
             && id in s.ts && s.ts[id].revoked == Some(Rotated) && Can(s, Present(id, next, text))
             && Runs(Take(After(s, during), FinishUpdate(s.ts, OfFamily(s.ts[id].family), ReuseDetected)), later)
    ensures var s := After(Init(ttl), before);
            var family, t := s.ts[id].family, After(s, during);
            var end := Take(t, FinishUpdate(s.ts, OfFamily(family), ReuseDetected));
            && Judge(s.ts[id], s.jsNow, next) == Reuse(s.ts[id].user, family)
            && (Ended(end, family) <==> FamilyUndisturbed(s, t, family))
            && (Ended(end, family) ==> Ended(After(end, later), family))
            && (during == [] ==> Ended(end, family) && end == Take(s, Present(id, next, text)))
  {
    var s := After(Init(ttl), before);
    var family := s.ts[id].family;
    RunKeeps(Init(ttl), before);
    assert RefreshTokens.RowOk(s, id);
    FamilyRevokedExactly(s, during, family, ReuseDetected, later);
    UndisturbedIsAtomic(s.ts, OfFamily(family), ReuseDetected);
  }

  /**
    Logout reads the presented token in one statement and revokes its family in the
    next: `gap` is what commits between the two.  The same condition decides.
   */
  lemma LogoutEndsTheSession(ttl: nat, before: seq<Step>, id: Id, gap: seq<Step>, during: seq<Step>, later: seq<Step>)
    requires Runs(Init(ttl), before) && id in After(Init(ttl), before).ts
    requires var r := After(Init(ttl), before);
             && Runs(r, gap) && Runs(After(r, gap), during)
             && Runs(Take(After(After(r, gap), during), FinishUpdate(After(r, gap).ts, OfFamily(r.ts[id].family), Logout)), later)
    ensures var r := After(Init(ttl), before);
            var family, s, t := r.ts[id].family, After(r, gap), After(After(r, gap), during);
            var end := Take(t, FinishUpdate(s.ts, OfFamily(family), Logout));
            && (Ended(end, family) <==> FamilyUndisturbed(s, t, family))
            && (Ended(end, family) ==> Ended(After(end, later), family))
            && (during == [] ==> Ended(end, family))
  {
    var r := After(Init(ttl), before);
    RunKeeps(Init(ttl), before);
    assert RefreshTokens.RowOk(r, id);
    RunGrows(r, gap);
    FamilyRevokedExactly(After(r, gap), during, r.ts[id].family, Logout, later);
  }

  // ------------------------------------------------------------- all of a user's

  /** The step gives the user a token. */
  predicate Issues(s: State, step: Step, user: nat)
    requires Can(s, step)
  {
    || (step.Login? && step.user == user)
    || (step.Present? && Judge(s.ts[step.id], s.jsNow, step.next).Renewed? && s.ts[step.id].user == user)
  }

  predicate NeverIssues(s: State, steps: seq<Step>, user: nat)
    requires Runs(s, steps)
    decreases |steps|
  {
    steps == [] || (!Issues(s, steps[0], user) && NeverIssues(Take(s, steps[0]), steps[1..], user))
  }

  /** Live tokens of the user were live before. */
  ghost predicate OldUserTokens(s: State, t: State, user: nat) {
    forall id <- t.ts :: t.ts[id].user == user && Live(t.ts[id]) ==> id in s.ts && s.ts[id].user == user && Live(s.ts[id])
  }

  lemma {:induction false} NoneIssued(s: State, steps: seq<Step>, user: nat)
    requires Runs(s, steps) && NeverIssues(s, steps, user)
    ensures OldUserTokens(s, After(s, steps), user)
    decreases |steps|
  {
    if steps != [] {
      StepIssuesNone(s, steps[0], user);
      NoneIssued(Take(s, steps[0]), steps[1..], user);
    }
  }

  lemma StepIssuesNone(s: State, step: Step, user: nat)
    requires Can(s, step) && !Issues(s, step, user)
    ensures OldUserTokens(s, Take(s, step), user)
  {
    if step.Present? {
      PresentIssuesNone(s, step, user);
    }
  }

  lemma PresentIssuesNone(s: State, step: Step, user: nat)
    requires step.Present? && Can(s, step) && !Issues(s, step, user)
    ensures OldUserTokens(s, Take(s, step), user)
  {
  }

  /**
    A role change holds the user's row `FOR UPDATE`, for which every INSERT of a token
    of that user has to wait.  So no token is issued to the user while its UPDATE
    runs, and it ends all of the user's sessions.
   */
  lemma RoleChangeEndsEverySession(ttl: nat, before: seq<Step>, during: seq<Step>, user: nat)
    requires Runs(Init(ttl), before) && Runs(After(Init(ttl), before), during)
    requires NeverIssues(After(Init(ttl), before), during, user)
    ensures var s := After(Init(ttl), before);
            NoneLive(Take(After(s, during), FinishUpdate(s.ts, OfUser(user), RoleChange)), OfUser(user))
  {
    NoneIssued(After(Init(ttl), before), during, user);
  }

  // ------------------------------------------------------------- it does happen

  /** One rotation that commits after the snapshot leaves its successor alive, whatever the reason of the UPDATE. */
  lemma RevocationMissesRacingSuccessor(s: State, live: Id, next: Id, text: string, reason: Reason)
    requires Inv(s) && Can(s, Present(live, next, text)) && Judge(s.ts[live], s.jsNow, next).Renewed? && reason != Rotated
    ensures var family, t := s.ts[live].family, Take(s, Present(live, next, text));
            var end := Take(t, FinishUpdate(s.ts, OfFamily(family), reason));
            next in end.ts && end.ts[next].family == family && Live(end.ts[next]) && !Ended(end, family)
  {
    NotIssuedYet(s, next, text);
  }

  const LOGIN := Login(7, 0, 0, "first")
  const REFRESH := Present(0, 1, "second")
  const FIRST := Token(7, 0, "first", 10, None, None)
  const SECOND := Token(7, 0, "second", 10, None, None)

  /** User 7 has logged in. */
  lemma LoggedIn()
    ensures Inv(Take(Init(10), LOGIN)) && Can(Take(Init(10), LOGIN), REFRESH)
    ensures Take(Init(10), LOGIN) == State(map[0 := FIRST], 10, 0, map[0 := 0], {"first"}, map[0 := [0]], [])
  {
    StepKeeps(Init(10), LOGIN);
  }

  /** User 7 has logged in and refreshed once. */
  lemma Refreshed(s: State)
    requires s == State(map[0 := FIRST], 10, 0, map[0 := 0], {"first"}, map[0 := [0]], [])
    ensures Can(s, REFRESH)
    ensures Take(s, REFRESH).ts == map[0 := FIRST.(revoked := Some(Rotated), replacedBy := Some(1)), 1 := SECOND]
    ensures Take(s, REFRESH).homes == map[0 := 0, 1 := 0] && Take(s, REFRESH).texts == {"first", "second"}
    ensures Take(s, REFRESH).jsNow == 0
  {
  }

  /** Logout while the token is being rotated: the session survives. */
  lemma LogoutMissesRotation() returns (steps: seq<Step>)
    ensures Runs(Init(10), steps)
    ensures var s := After(Init(10), steps);
            && 0 in s.ts && Live(s.ts[0]) && Can(s, Present(0, 1, "second"))
            && var end := Take(Take(s, Present(0, 1, "second")), FinishUpdate(s.ts, OfFamily(0), Logout));
            1 in end.ts && end.ts[1].family == 0 && Live(end.ts[1])
  {
    var s := Take(Init(10), LOGIN);
    steps := [LOGIN];
    assert steps[1..] == [] && Runs(s, []) && After(Init(10), steps) == s;
    LoggedIn();
    RevocationMissesRacingSuccessor(s, 0, 1, "second", Logout);
  }

  lemma LoggedInRun()
    ensures Runs(Init(10), [LOGIN, REFRESH])
    ensures var s := After(Init(10), [LOGIN, REFRESH]);
            && Inv(s) && s.jsNow == 0 && s.homes == map[0 := 0, 1 := 0] && s.texts == {"first", "second"}
            && s.ts == map[0 := FIRST.(revoked := Some(Rotated), replacedBy := Some(1)), 1 := SECOND]
  {
    LoggedIn();
    Refreshed(Take(Init(10), LOGIN));
    TwoSteps(Init(10), LOGIN, REFRESH);
    StepKeeps(Take(Init(10), LOGIN), REFRESH);
  }

  /** The first token is replayed while the second is being rotated: the successor survives. */
  ghost predicate ReplayMisses(s: State) {
    && 0 in s.ts && s.ts[0].revoked == Some(Rotated) && Can(s, Present(1, 2, "third"))
    && var end := Take(Take(s, Present(1, 2, "third")), FinishUpdate(s.ts, OfFamily(s.ts[0].family), ReuseDetected));
    2 in end.ts && end.ts[2].family == s.ts[0].family && Live(end.ts[2])
  }

  lemma RefreshedReplayMisses(s: State)
    requires Inv(s) && s.jsNow == 0 && s.homes == map[0 := 0, 1 := 0] && s.texts == {"first", "second"}
    requires s.ts == map[0 := FIRST.(revoked := Some(Rotated), replacedBy := Some(1)), 1 := SECOND]
    ensures ReplayMisses(s)
  {
    RevocationMissesRacingSuccessor(s, 1, 2, "third", ReuseDetected);
  }

  /** User 7 logs in and refreshes; then the replay of the first token races another refresh. */
  lemma RacingReplayExists() returns (steps: seq<Step>)
    ensures Runs(Init(10), steps) && ReplayMisses(After(Init(10), steps))
  {
    steps := [LOGIN, REFRESH];
    LoggedInRun();
    RefreshedReplayMisses(After(Init(10), steps));
  }
}

/**
  Rotating refresh tokens.  Each session family is a chain of tokens; presenting a
  token that was already rotated ends the session.  Tokens are random and SHA-256
  is injective, so a row carries the token itself in place of its hash.
 */
module RefreshTokens {
  import opened Prelude

  type Id = nat

  datatype Reason = Rotated | ReuseDetected | Logout | RoleChange | AccountInactive

  datatype Token = Token(
    user: nat, family: nat, text: string, expires: int, revoked: Option<Reason>, replacedBy: Option<Id>)

  type Table = map<Id, Token>

  /** One day, in the unit of the clocks. */
  const DAY: nat := 86_400_000

  datatype Outcome =
    | Invalid
    | SessionRevoked
    | Expired
    | Reuse(user: nat, family: nat)
    | Renewed(user: nat, family: nat, id: Id)

  // ------------------------------------------------------- effects on the table

  predicate Live(t: Token) {
    t.revoked.None?
  }

  datatype Scope = OfFamily(family: nat) | OfUser(user: nat)

  predicate InScope(t: Token, scope: Scope) {
    match scope
    case OfFamily(family) => t.family == family
    case OfUser(user) => t.user == user
  }

  function RevokeWhere(ts: Table, scope: Scope, reason: Reason): Table {
    map id | id in ts :: if InScope(ts[id], scope) && Live(ts[id]) then ts[id].(revoked := Some(reason)) else ts[id]
  }

  /**
    The same UPDATE as PostgreSQL runs it: it chooses rows from the snapshot taken
    when it starts, waits for their locks and rechecks each against its current
    version, but does not see rows committed since.
   */
  function RevokeFromSnapshot(snapshot: Table, current: Table, scope: Scope, reason: Reason): Table {
    map id | id in current ::
      if id in snapshot && InScope(snapshot[id], scope) && Live(snapshot[id]) && InScope(current[id], scope) && Live(current[id])
      then current[id].(revoked := Some(reason)) else current[id]
  }

  function RevokeFamily(ts: Table, family: nat, reason: Reason): Table {
    RevokeWhere(ts, OfFamily(family), reason)
  }

  function RevokeUser(ts: Table, user: nat, reason: Reason): Table {
    RevokeWhere(ts, OfUser(user), reason)
  }

  function Issue(ts: Table, id: Id, user: nat, family: nat, text: string, expires: int): Table {
    ts[id := Token(user, family, text, expires, None, None)]
  }

  /** The presented token's row: token hashes are unique. */
  ghost predicate Presents(ts: Table, text: string, id: Id) {
    id in ts && ts[id].text == text
  }

  /** What `rotate` answers for the row it locked. */
  function Judge(t: Token, jsNow: int, next: Id): Outcome {
    if t.revoked == Some(Rotated) then Reuse(t.user, t.family)
    else if t.revoked.Some? then SessionRevoked
    else if t.expires <= jsNow then Expired
    else Renewed(t.user, t.family, next)
  }

  function Rotate(ts: Table, id: Id, jsNow: int, ttl: nat, next: Id, text: string): Table
    requires id in ts
  {
    var t := ts[id];
    match Judge(t, jsNow, next)
    case Reuse(_, family) => RevokeFamily(ts, family, ReuseDetected)
    case Renewed(user, family, _) =>
      Issue(ts, next, user, family, text, jsNow + ttl)[id := t.(revoked := Some(Rotated), replacedBy := Some(next))]
    case _ => ts
  }

  /** `expires_at < NOW() - INTERVAL '1 day'`. */
  predicate Purgeable(t: Token, dbNow: int) {
    t.expires < dbNow - DAY
  }

  /** The DELETE, with `ON DELETE SET NULL` for references to deleted rows. */
  function Purge(ts: Table, dbNow: int): Table {
    map id | id in ts && !Purgeable(ts[id], dbNow) ::
      if ts[id].replacedBy.Some? && ts[id].replacedBy.value in ts && Purgeable(ts[ts[id].replacedBy.value], dbNow)
      then ts[id].(replacedBy := None) else ts[id]
  }

  // ------------------------------------------------------------------- machine

  /**
    `homes` records the family every id was issued in, `chains` the tokens ever
    issued to each family, in order, and `rotations` every successful rotation, as
    the rotated id and its successor.
   */
  datatype State = State(
    ts: Table, ttl: nat, jsNow: int, homes: map<Id, nat>, texts: set<string>,
    chains: map<nat, seq<Id>>, rotations: seq<(Id, Id)>)

  /**
    `EndFamily` and `EndUser` are revoking UPDATEs that nothing overtakes;
    `FinishUpdate` is the end of one that other transactions have overtaken.  Nothing
    is assumed of its snapshot here: whatever it was, the UPDATE revokes some of the
    live tokens in its scope.
   */
  datatype Step =
    | Login(user: nat, family: nat, id: Id, text: string)
    | Present(id: Id, next: Id, text: string)
    | EndFamily(family: nat, reason: Reason)
    | EndUser(user: nat, reason: Reason)
    | FinishUpdate(snapshot: Table, scope: Scope, reason: Reason)
    | PurgeAt(dbNow: int)
    | Tick(elapsed: nat)

  function Init(ttl: nat): State {
    State(map[], ttl, 0, map[], {}, map[], [])
  }

  predicate Fresh(s: State, id: Id, text: string) {
    id !in s.homes && text !in s.texts
  }

  /** Random ids and tokens are fresh; the JavaScript clock does not run backwards. */
  predicate Can(s: State, step: Step) {
    match step
    case Login(_, family, id, text) => Fresh(s, id, text) && family !in s.chains
    case Present(id, next, text) => id in s.ts && Fresh(s, next, text)
    case EndFamily(_, reason) => reason != Rotated
    case EndUser(_, reason) => reason != Rotated
    case FinishUpdate(_, _, reason) => reason != Rotated
    case _ => true
  }

  function Take(s: State, step: Step): State
    requires Can(s, step)
  {
    match step
    case Login(user, family, id, text) =>
      s.(ts := Issue(s.ts, id, user, family, text, s.jsNow + s.ttl), homes := s.homes[id := family], texts := s.texts + {text},
         chains := s.chains[family := [id]])
    case Present(id, next, text) =>
      var outcome := Judge(s.ts[id], s.jsNow, next);
      var t := s.(ts := Rotate(s.ts, id, s.jsNow, s.ttl, next, text));
      if !outcome.Renewed? then t
      else
        var family := outcome.family;
        t.(homes := s.homes[next := family], texts := s.texts + {text}, rotations := s.rotations + [(id, next)],
           chains := s.chains[family := (if family in s.chains then s.chains[family] else []) + [next]])
    case EndFamily(family, reason) => s.(ts := RevokeFamily(s.ts, family, reason))
    case EndUser(user, reason) => s.(ts := RevokeUser(s.ts, user, reason))
    case FinishUpdate(snapshot, scope, reason) => s.(ts := RevokeFromSnapshot(snapshot, s.ts, scope, reason))
    case PurgeAt(dbNow) => s.(ts := Purge(s.ts, dbNow))
    case Tick(elapsed) => s.(jsNow := s.jsNow + elapsed)
  }

  predicate Runs(s: State, steps: seq<Step>)
    decreases |steps|
  {
    steps == [] || (Can(s, steps[0]) && Runs(Take(s, steps[0]), steps[1..]))
  }

  function After(s: State, steps: seq<Step>): State
    requires Runs(s, steps)
    decreases |steps|
  {
    if steps == [] then s else After(Take(s, steps[0]), steps[1..])
  }

  /** An undisturbed revocation, at any point, changes exactly the live tokens of its family or user. */
  lemma RevocationsAreExact(s: State, family: nat, user: nat, reason: Reason)
    requires reason != Rotated
    ensures Can(s, EndFamily(family, reason)) && Can(s, EndUser(user, reason))
    ensures Take(s, EndFamily(family, reason)) == s.(ts := map id | id in s.ts ::
              if s.ts[id].family == family && s.ts[id].revoked == None then s.ts[id].(revoked := Some(reason)) else s.ts[id])
    ensures Take(s, EndUser(user, reason)) == s.(ts := map id | id in s.ts ::
              if s.ts[id].user == user && s.ts[id].revoked == None then s.ts[id].(revoked := Some(reason)) else s.ts[id])
  {
  }

  /** The purge, at any point, deletes exactly what has been expired for more than a day. */
  lemma PurgeIsExact(s: State, dbNow: int, id: Id)
    ensures Can(s, PurgeAt(dbNow)) && Take(s, PurgeAt(dbNow)) == s.(ts := Take(s, PurgeAt(dbNow)).ts)
    ensures id in Take(s, PurgeAt(dbNow)).ts <==> id in s.ts && s.ts[id].expires >= dbNow - 86_400_000
  {
  }

  /** An overtaken UPDATE may end, and time may pass, at any point. */
  lemma UpdatesEndAndTimePasses(s: State, snapshot: Table, scope: Scope, reason: Reason, elapsed: nat)
    requires reason != Rotated
    ensures Can(s, FinishUpdate(snapshot, scope, reason))
    ensures Take(s, FinishUpdate(snapshot, scope, reason)) == s.(ts := RevokeFromSnapshot(snapshot, s.ts, scope, reason))
    ensures Can(s, Tick(elapsed)) && Take(s, Tick(elapsed)) == s.(jsNow := s.jsNow + elapsed)
  {
  }

  // --------------------------------------------------------------- chain shape

  /** The kept tokens of a chain are the ones from `from` on. */
  ghost predicate KeptFrom(ts: Table, chain: seq<Id>, from: nat) {
    && from <= |chain|
    && (forall i :: 0 <= i < |chain| ==> (chain[i] in ts <==> from <= i))
  }

  /** A link of the chain: rotated, pointing at the next; the last is neither. */
  predicate LinkOk(ts: Table, chain: seq<Id>, i: nat, family: nat)
    requires i < |chain| && chain[i] in ts
  {
    var t := ts[chain[i]];
    && t.family == family
    && (if i + 1 < |chain|
        then t.revoked == Some(Rotated) && t.replacedBy == Some(chain[i + 1])
        else t.revoked != Some(Rotated) && t.replacedBy == None)
  }

  ghost predicate ChainOk(ts: Table, chain: seq<Id>, family: nat) {
    && chain != []
    && (exists from :: KeptFrom(ts, chain, from))
    && (forall i: nat :: i < |chain| && chain[i] in ts ==> LinkOk(ts, chain, i, family))
    && (forall i, j :: 0 <= i < j < |chain| ==> chain[i] != chain[j])
    && (forall i, j :: 0 <= i < j < |chain| && chain[i] in ts && chain[j] in ts ==>
          ts[chain[i]].expires <= ts[chain[j]].expires && ts[chain[i]].user == ts[chain[j]].user)
  }

  ghost predicate ChainsOk(s: State) {
    forall family <- s.chains :: ChainOk(s.ts, s.chains[family], family)
  }

  /** No id is issued twice, in one family or in two. */
  ghost predicate HomesOk(s: State) {
    forall family <- s.chains, id <- s.chains[family] :: id in s.homes && s.homes[id] == family
  }

  ghost predicate RowOk(s: State, id: Id)
    requires id in s.ts
  {
    var t := s.ts[id];
    && t.family in s.chains && id in s.chains[t.family]
    && t.text in s.texts
    && t.expires <= s.jsNow + s.ttl
  }

  ghost predicate RowsOk(s: State) {
    && (forall id <- s.ts :: RowOk(s, id))
    && (forall a <- s.ts, b <- s.ts :: s.ts[a].text == s.ts[b].text ==> a == b)
  }

  ghost predicate Inv(s: State) {
    ChainsOk(s) && HomesOk(s) && RowsOk(s)
  }

  /** Rows that keep what identifies them stay well-formed, and deleting rows does no harm. */
  lemma RowsShrink(s: State, t: State)
    requires RowsOk(s) && t.chains == s.chains && t.texts == s.texts && t.ttl == s.ttl && t.jsNow >= s.jsNow
    requires forall id <- t.ts ::
      && id in s.ts && t.ts[id].family == s.ts[id].family
      && t.ts[id].text == s.ts[id].text && t.ts[id].expires == s.ts[id].expires
    ensures RowsOk(t)
  {
    forall id <- t.ts ensures RowOk(t, id) {
      assert RowOk(s, id);
    }
  }

  // --------------------------------------------------------------- preservation

  /** Some live tokens were revoked, and nothing else happened. */
  ghost predicate SomeRevoked(ts: Table, after: Table, reason: Reason) {
    && after.Keys == ts.Keys
    && forall id <- ts :: after[id] == ts[id] || (Live(ts[id]) && after[id] == ts[id].(revoked := Some(reason)))
  }

  /** Revoking live tokens for a reason other than rotation leaves the links alone. */
  lemma RevokeKeepsChain(ts: Table, after: Table, reason: Reason, chain: seq<Id>, family: nat)
    requires ChainOk(ts, chain, family) && reason != Rotated && SomeRevoked(ts, after, reason)
    ensures ChainOk(after, chain, family)
  {
    var from :| KeptFrom(ts, chain, from);
    assert KeptFrom(after, chain, from);
    forall i: nat | i < |chain| && chain[i] in after ensures LinkOk(after, chain, i, family) {
      assert LinkOk(ts, chain, i, family);
    }
  }

  lemma RevokeKeepsChains(s: State, after: Table, reason: Reason)
    requires ChainsOk(s) && reason != Rotated && SomeRevoked(s.ts, after, reason)
    ensures ChainsOk(s.(ts := after))
  {
    forall family <- s.chains ensures ChainOk(after, s.chains[family], family) {
      RevokeKeepsChain(s.ts, after, reason, s.chains[family], family);
    }
  }

  lemma SameHomes(s: State, t: State)
    requires HomesOk(s) && t.chains == s.chains && t.homes == s.homes
    ensures HomesOk(t)
  {
  }

  lemma RevokeKeeps(s: State, after: Table, reason: Reason)
    requires Inv(s) && reason != Rotated && SomeRevoked(s.ts, after, reason)
    ensures Inv(s.(ts := after))
  {
    RevokeKeepsChains(s, after, reason);
    RowsShrink(s, s.(ts := after));
    SameHomes(s, s.(ts := after));
  }

  /** A chain none of whose tokens changed, appeared or disappeared. */
  lemma SameChain(ts: Table, after: Table, chain: seq<Id>, family: nat)
    requires ChainOk(ts, chain, family)
    requires forall id <- chain :: (id in ts <==> id in after) && (id in ts ==> after[id] == ts[id])
    ensures ChainOk(after, chain, family)
  {
    var from :| KeptFrom(ts, chain, from);
    assert KeptFrom(after, chain, from);
    forall i: nat | i < |chain| && chain[i] in after ensures LinkOk(after, chain, i, family) {
      assert LinkOk(ts, chain, i, family);
    }
  }

  lemma LoginKeepsRows(s: State, step: Step)
    requires RowsOk(s) && step.Login? && Can(s, step)
    ensures RowsOk(Take(s, step))
  {
    var t := Take(s, step);
    forall id <- t.ts ensures RowOk(t, id) {
      assert id in s.ts ==> RowOk(s, id);
    }
    forall id <- s.ts ensures s.ts[id].text != step.text {
      assert RowOk(s, id);
    }
  }

  lemma LoginKeeps(s: State, step: Step)
    requires Inv(s) && step.Login? && Can(s, step)
    ensures Inv(Take(s, step))
  {
    var t := Take(s, step);
    LoginKeepsRows(s, step);
    forall family <- t.chains ensures ChainOk(t.ts, t.chains[family], family) {
      if family == step.family {
        assert KeptFrom(t.ts, t.chains[family], 0);
      } else {
        SameChain(s.ts, t.ts, s.chains[family], family);
      }
    }
  }

  /** A live token is the last of its chain. */
  lemma LiveIsLast(s: State, id: Id) returns (last: nat)
    requires Inv(s) && id in s.ts && s.ts[id].revoked != Some(Rotated)
    ensures s.ts[id].family in s.chains
    ensures var chain := s.chains[s.ts[id].family];
            last + 1 == |chain| && chain[last] == id
  {
    assert RowOk(s, id);
    var chain := s.chains[s.ts[id].family];
    var i :| 0 <= i < |chain| && chain[i] == id;
    assert LinkOk(s.ts, chain, i, s.ts[id].family);
    last := i;
  }

  /** Appending the successor keeps the chain a chain. */
  lemma RenewKeepsChain(ts: Table, after: Table, chain: seq<Id>, family: nat, next: Id)
    requires ChainOk(ts, chain, family) && next !in chain && next !in ts
    requires var id := chain[|chain| - 1];
             && id in ts && next in after
             && after == ts[next := after[next]][id := ts[id].(revoked := Some(Rotated), replacedBy := Some(next))]
             && after[next].user == ts[id].user && after[next].family == family
             && after[next].revoked == None && after[next].replacedBy == None
             && forall other <- ts :: ts[other].expires <= after[next].expires
    ensures ChainOk(after, chain + [next], family)
  {
    var longer := chain + [next];
    var from :| KeptFrom(ts, chain, from);
    assert KeptFrom(after, longer, from);
    forall i: nat | i < |longer| && longer[i] in after ensures LinkOk(after, longer, i, family) {
      if i < |chain| {
        assert LinkOk(ts, chain, i, family);
      }
    }
  }

  lemma RenewKeepsRows(s: State, step: Step)
    requires RowsOk(s) && step.Present? && Can(s, step) && Judge(s.ts[step.id], s.jsNow, step.next).Renewed?
    ensures RowsOk(Take(s, step))
  {
    var t := Take(s, step);
    assert RowOk(s, step.id);
    forall id <- t.ts ensures RowOk(t, id) {
      assert id in s.ts ==> RowOk(s, id);
    }
    forall id <- s.ts ensures s.ts[id].text != step.text {
      assert RowOk(s, id);
    }
  }

  lemma RenewKeepsOwn(s: State, step: Step)
    requires Inv(s) && step.Present? && Can(s, step) && Judge(s.ts[step.id], s.jsNow, step.next).Renewed?
    ensures s.ts[step.id].family in s.chains
    ensures ChainOk(Take(s, step).ts, s.chains[s.ts[step.id].family] + [step.next], s.ts[step.id].family)
  {
    var last := LiveIsLast(s, step.id);
    forall id <- s.ts ensures s.ts[id].expires <= s.jsNow + s.ttl {
      assert RowOk(s, id);
    }
    NotIssuedYet(s, step.next, step.text);
    var family := s.ts[step.id].family;
    RenewKeepsChain(s.ts, Take(s, step).ts, s.chains[family], family, step.next);
  }

  lemma RenewKeepsOther(s: State, step: Step, family: nat)
    requires Inv(s) && step.Present? && Can(s, step) && Judge(s.ts[step.id], s.jsNow, step.next).Renewed?
    requires family in s.chains && family != s.ts[step.id].family
    ensures ChainOk(Take(s, step).ts, s.chains[family], family)
  {
    var last := LiveIsLast(s, step.id);
    NotIssuedYet(s, step.next, step.text);
    assert step.id !in s.chains[family];
    SameChain(s.ts, Take(s, step).ts, s.chains[family], family);
  }

  lemma RenewKeepsChains(s: State, step: Step)
    requires Inv(s) && step.Present? && Can(s, step) && Judge(s.ts[step.id], s.jsNow, step.next).Renewed?
    ensures ChainsOk(Take(s, step)) && HomesOk(Take(s, step))
  {
    var t := Take(s, step);
    RenewKeepsOwn(s, step);
    NotIssuedYet(s, step.next, step.text);
    forall f <- t.chains ensures ChainOk(t.ts, t.chains[f], f) {
      if f != s.ts[step.id].family {
        RenewKeepsOther(s, step, f);
      }
    }
  }

  lemma NotIssuedYet(s: State, id: Id, text: string)
    requires HomesOk(s) && RowsOk(s) && Fresh(s, id, text)
    ensures id !in s.ts && forall family <- s.chains :: id !in s.chains[family]
  {
    assert id in s.ts ==> RowOk(s, id);
  }

  lemma RenewKeeps(s: State, step: Step)
    requires Inv(s) && step.Present? && Can(s, step) && Judge(s.ts[step.id], s.jsNow, step.next).Renewed?
    ensures Inv(Take(s, step))
  {
    RenewKeepsRows(s, step);
    RenewKeepsChains(s, step);
  }

  /** The first index of the chain that the purge keeps. */
  lemma {:induction false} PurgeCut(ts: Table, chain: seq<Id>, from: nat, dbNow: int) returns (cut: nat)
    requires from <= |chain| && forall i :: from <= i < |chain| ==> chain[i] in ts
    requires forall i, j :: from <= i < j < |chain| ==> ts[chain[i]].expires <= ts[chain[j]].expires
    ensures from <= cut <= |chain|
    ensures forall i :: from <= i < |chain| ==> (Purgeable(ts[chain[i]], dbNow) <==> i < cut)
  {
    cut := from;
    while cut < |chain| && Purgeable(ts[chain[cut]], dbNow)
      invariant from <= cut <= |chain|
      invariant forall i :: from <= i < cut ==> Purgeable(ts[chain[i]], dbNow)
    {
      cut := cut + 1;
    }
  }

  /** Expiry does not decrease along a chain, so the purge deletes a prefix of what is kept. */
  lemma PurgeKeepsChain(ts: Table, chain: seq<Id>, family: nat, dbNow: int)
    requires ChainOk(ts, chain, family)
    ensures ChainOk(Purge(ts, dbNow), chain, family)
    ensures forall i :: 0 <= i < |chain| && chain[i] in Purge(ts, dbNow) ==> Purge(ts, dbNow)[chain[i]] == ts[chain[i]]
  {
    var after := Purge(ts, dbNow);
    var from :| KeptFrom(ts, chain, from);
    var cut := PurgeCut(ts, chain, from, dbNow);
    assert KeptFrom(after, chain, cut);
    forall i: nat | i < |chain| && chain[i] in after
      ensures LinkOk(after, chain, i, family) && after[chain[i]] == ts[chain[i]]
    {
      assert LinkOk(ts, chain, i, family);
    }
  }

  lemma PurgeKeepsChains(s: State, dbNow: int)
    requires ChainsOk(s)
    ensures ChainsOk(Take(s, PurgeAt(dbNow)))
  {
    forall family <- s.chains ensures ChainOk(Purge(s.ts, dbNow), s.chains[family], family) {
      PurgeKeepsChain(s.ts, s.chains[family], family, dbNow);
    }
  }

  lemma PurgeKeepsRows(s: State, dbNow: int)
    requires RowsOk(s)
    ensures RowsOk(Take(s, PurgeAt(dbNow)))
  {
    RowsShrink(s, Take(s, PurgeAt(dbNow)));
  }

  lemma PurgeKeeps(s: State, dbNow: int)
    requires Inv(s)
    ensures Inv(Take(s, PurgeAt(dbNow)))
  {
    PurgeKeepsChains(s, dbNow);
    PurgeKeepsRows(s, dbNow);
    SameHomes(s, Take(s, PurgeAt(dbNow)));
  }

  lemma TickKeeps(s: State, elapsed: nat)
    requires Inv(s)
    ensures Inv(Take(s, Tick(elapsed)))
  {
    RowsShrink(s, Take(s, Tick(elapsed)));
  }

  lemma PresentKeeps(s: State, step: Step)
    requires Inv(s) && step.Present? && Can(s, step)
    ensures Inv(Take(s, step))
  {
    var outcome := Judge(s.ts[step.id], s.jsNow, step.next);
    if outcome.Reuse? {
      RevokeKeeps(s, RevokeFamily(s.ts, outcome.family, ReuseDetected), ReuseDetected);
    } else if outcome.Renewed? {
      RenewKeeps(s, step);
    }
  }

  /** Every step keeps every family a single chain. */
  lemma StepKeeps(s: State, step: Step)
    requires Inv(s) && Can(s, step)
    ensures Inv(Take(s, step))
  {
    match step
    case Login(_, _, _, _) => LoginKeeps(s, step);
    case Present(_, _, _) => PresentKeeps(s, step);
    case EndFamily(family, reason) => RevokeKeeps(s, RevokeFamily(s.ts, family, reason), reason);
    case EndUser(user, reason) => RevokeKeeps(s, RevokeUser(s.ts, user, reason), reason);
    case FinishUpdate(snapshot, scope, reason) => RevokeKeeps(s, RevokeFromSnapshot(snapshot, s.ts, scope, reason), reason);
    case PurgeAt(dbNow) => PurgeKeeps(s, dbNow);
    case Tick(elapsed) => TickKeeps(s, elapsed);
  }

  lemma {:induction false} RunKeeps(s: State, steps: seq<Step>)
    requires Inv(s) && Runs(s, steps)
    ensures Inv(After(s, steps))
    decreases |steps|
  {
    if steps != [] {
      StepKeeps(s, steps[0]);
      RunKeeps(Take(s, steps[0]), steps[1..]);
    }
  }

  // ------------------------------------------------------------ chain theorems

  /**
    In every reachable state each family is one chain: its kept tokens are the end
    of the list of all it was ever issued, each rotated one points at the next, and
    they belong to one user.
   */
  lemma EveryFamilyIsAChain(ttl: nat, steps: seq<Step>, family: nat)
    requires Runs(Init(ttl), steps) && family in After(Init(ttl), steps).chains
    ensures var s := After(Init(ttl), steps); ChainOk(s.ts, s.chains[family], family)
    ensures var s := After(Init(ttl), steps);
            forall id <- s.ts :: s.ts[id].family == family ==> id in s.chains[family]
  {
    RunKeeps(Init(ttl), steps);
    var s := After(Init(ttl), steps);
    forall id <- s.ts ensures s.ts[id].family == family ==> id in s.chains[family] {
      assert RowOk(s, id);
    }
  }

  /** At most one token of a family is live, and every rotated token has one successor, itself not rotated into twice. */
  lemma AtMostOneLive(ttl: nat, steps: seq<Step>, a: Id, b: Id)
    requires Runs(Init(ttl), steps)
    requires var s := After(Init(ttl), steps); a in s.ts && b in s.ts && s.ts[a].family == s.ts[b].family
    ensures var s := After(Init(ttl), steps);
            && (Live(s.ts[a]) && Live(s.ts[b]) ==> a == b)
            && (s.ts[a].replacedBy.Some? && s.ts[a].replacedBy == s.ts[b].replacedBy ==> a == b)
            && (s.ts[a].revoked == Some(Rotated) ==>
                  s.ts[a].replacedBy.Some? && s.ts[a].replacedBy.value in s.ts
                  && s.ts[s.ts[a].replacedBy.value].family == s.ts[a].family)
  {
    RunKeeps(Init(ttl), steps);
    var s := After(Init(ttl), steps);
    assert RowOk(s, a) && RowOk(s, b);
    var family := s.ts[a].family;
    var chain := s.chains[family];
    var i :| 0 <= i < |chain| && chain[i] == a;
    var j :| 0 <= j < |chain| && chain[j] == b;
    assert LinkOk(s.ts, chain, i, family) && LinkOk(s.ts, chain, j, family);
    if i + 1 < |chain| {
      var from :| KeptFrom(s.ts, chain, from);
      assert LinkOk(s.ts, chain, i + 1, family);
    }
  }

  ghost predicate RotationsOk(s: State) {
    && (forall r <- s.rotations :: r.0 in s.homes && (r.0 in s.ts ==> s.ts[r.0].revoked == Some(Rotated)))
    && (forall id <- s.ts :: id in s.homes)
    && (forall i, j :: 0 <= i < j < |s.rotations| ==> s.rotations[i].0 != s.rotations[j].0)
  }

  lemma {:induction false} RunRotations(s: State, steps: seq<Step>)
    requires RotationsOk(s) && Runs(s, steps)
    ensures RotationsOk(After(s, steps))
    decreases |steps|
  {
    if steps != [] {
      RunRotations(Take(s, steps[0]), steps[1..]);
    }
  }

  /** No token is ever rotated successfully twice. */
  lemma RotatedAtMostOnce(ttl: nat, steps: seq<Step>)
    requires Runs(Init(ttl), steps)
    ensures var rotations := After(Init(ttl), steps).rotations;
            forall i, j :: 0 <= i < j < |rotations| ==> rotations[i].0 != rotations[j].0
  {
    RunRotations(Init(ttl), steps);
  }

  // ------------------------------------------------------- reuse ends sessions

  ghost predicate Ended(s: State, family: nat) {
    family in s.chains && forall id <- s.ts :: s.ts[id].family == family ==> !Live(s.ts[id])
  }

  lemma {:induction false} EndedForever(s: State, steps: seq<Step>, family: nat)
    requires Ended(s, family) && Runs(s, steps)
    ensures Ended(After(s, steps), family)
    decreases |steps|
  {
    if steps != [] {
      EndedForever(Take(s, steps[0]), steps[1..], family);
    }
  }

  /**
    Of two presentations of one live token, serialised by its row lock, the first
    gets a successor and the second revokes it.
   */
  lemma SecondPresentationRevokesSuccessor(s: State, id: Id, next: Id, text: string, next2: Id, text2: string)
    requires Inv(s) && Can(s, Present(id, next, text)) && Live(s.ts[id]) && s.ts[id].expires > s.jsNow
    requires Can(Take(s, Present(id, next, text)), Present(id, next2, text2))
    ensures var mid := Take(s, Present(id, next, text));
            var end := Take(mid, Present(id, next2, text2));
            && Judge(s.ts[id], s.jsNow, next) == Renewed(s.ts[id].user, s.ts[id].family, next)
            && next in mid.ts && Live(mid.ts[next]) && mid.ts[id].replacedBy == Some(next)
            && Judge(mid.ts[id], mid.jsNow, next2).Reuse?
            && next in end.ts && end.ts[next].revoked == Some(ReuseDetected) && end.rotations == mid.rotations
  {
    assert RowOk(s, id);
    NotIssuedYet(s, next, text);
  }

  // --------------------------------------------------------------------- purge

  /**
    The purge never cuts a chain in the middle: in every reachable state it keeps
    each row it keeps as it is, so no reference is ever set to NULL.
   */
  lemma PurgeNeverUnlinks(ttl: nat, steps: seq<Step>, dbNow: int)
    requires Runs(Init(ttl), steps)
    ensures var s := After(Init(ttl), steps);
            forall id <- Purge(s.ts, dbNow) :: Purge(s.ts, dbNow)[id] == s.ts[id]
  {
    RunKeeps(Init(ttl), steps);
    var s := After(Init(ttl), steps);
    forall id <- Purge(s.ts, dbNow) ensures Purge(s.ts, dbNow)[id] == s.ts[id] {
      assert RowOk(s, id);
      PurgeKeepsChain(s.ts, s.chains[s.ts[id].family], s.ts[id].family, dbNow);
    }
  }

  /** A purge deletes a token that `rotate` would accept. */
  predicate Loses(s: State, dbNow: int, id: Id) {
    id in s.ts && Judge(s.ts[id], s.jsNow, 0).Renewed? && id !in Purge(s.ts, dbNow)
  }

  lemma LosesExactly(s: State, dbNow: int, id: Id)
    requires id in s.ts
    ensures Loses(s, dbNow, id) <==> Live(s.ts[id]) && s.jsNow < s.ts[id].expires < dbNow - DAY
  {
  }

  lemma {:induction false} ClockAdvances(s: State, steps: seq<Step>)
    requires Runs(s, steps)
    ensures After(s, steps).jsNow >= s.jsNow
    decreases |steps|
  {
    if steps != [] {
      ClockAdvances(Take(s, steps[0]), steps[1..]);
    }
  }

  /**
    While the database clock is at most a day and one tick ahead, whatever a purge
    deletes has expired: `rotate` would not have renewed it then or at any later time.
   */
  lemma PurgedHasExpired(ttl: nat, steps: seq<Step>, dbNow: int, id: Id, later: seq<Step>, next: Id)
    requires Runs(Init(ttl), steps)
    requires var s := After(Init(ttl), steps);
             && id in s.ts && id !in Purge(s.ts, dbNow) && dbNow - s.jsNow <= DAY + 1
             && Runs(Take(s, PurgeAt(dbNow)), later)
    ensures var s := After(Init(ttl), steps);
            && !Judge(s.ts[id], s.jsNow, next).Renewed?
            && !Judge(s.ts[id], After(Take(s, PurgeAt(dbNow)), later).jsNow, next).Renewed?
  {
    ClockAdvances(Take(After(Init(ttl), steps), PurgeAt(dbNow)), later);
  }

  /** With a larger lead it fails: user 7 logs in, and just before the token expires the purge deletes it. */
  lemma SkewedPurgeSignsOut(ttl: nat) returns (steps: seq<Step>)
    requires ttl >= 1
    ensures Runs(Init(ttl), steps)
    ensures var s := After(Init(ttl), steps); Loses(s, s.jsNow + DAY + 2, 0)
  {
    var login, wait := Login(7, 0, 0, "first"), Tick(ttl - 1);
    steps := [login, wait];
    var s1 := Take(Init(ttl), login);
    var s2 := Take(s1, wait);
    assert s2.ts == map[0 := Token(7, 0, "first", ttl, None, None)] && s2.jsNow == ttl - 1;
    TwoSteps(Init(ttl), login, wait);
  }

  lemma TwoSteps(s: State, first: Step, second: Step)
    requires Can(s, first) && Can(Take(s, first), second)
    ensures Runs(s, [first, second]) && After(s, [first, second]) == Take(Take(s, first), second)
  {
    var t := Take(s, first);
    assert [first, second][1..] == [second] && [second][1..] == [];
    assert Runs(Take(t, second), []) && Runs(t, [second]) && After(t, [second]) == Take(t, second);
  }

  /** No purge within `skew` of the JavaScript clock, in any run, deletes a token that `rotate` would accept. */
  ghost predicate SafeWithin(ttl: nat, skew: int) {
    forall steps: seq<Step>, dbNow: int, id: Id ::
      Runs(Init(ttl), steps) && Loses(After(Init(ttl), steps), dbNow, id) ==> dbNow - After(Init(ttl), steps).jsNow > skew
  }

  /** The lead of the database clock up to which the purge is safe, exactly. */
  lemma PurgeIsSafeExactly(ttl: nat, skew: int)
    ensures SafeWithin(ttl, skew) <==> skew <= 86_400_001 || ttl == 0
  {
    forall steps: seq<Step>, dbNow: int, id: Id | Runs(Init(ttl), steps) && Loses(After(Init(ttl), steps), dbNow, id)
      ensures ttl > 0 && dbNow - After(Init(ttl), steps).jsNow > DAY + 1
    {
      RunKeeps(Init(ttl), steps);
      RunTtl(Init(ttl), steps);
      assert RowOk(After(Init(ttl), steps), id);
    }
    if skew > DAY + 1 && ttl > 0 {
      var steps := SkewedPurgeSignsOut(ttl);
      var s := After(Init(ttl), steps);
      assert Runs(Init(ttl), steps) && Loses(s, s.jsNow + DAY + 2, 0);
    }
  }

  lemma {:induction false} RunTtl(s: State, steps: seq<Step>)
    requires Runs(s, steps)
    ensures After(s, steps).ttl == s.ttl
    decreases |steps|
  {
    if steps != [] {
      RunTtl(Take(s, steps[0]), steps[1..]);
    }
  }
}

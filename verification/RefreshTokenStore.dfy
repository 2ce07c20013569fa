/** The refresh-token service as it is written, on a table of tokens. */
module RefreshTokenStore {
  import opened Prelude
  import opened RefreshTokens

  /** `presented.length > 128` is refused before any query. */
  const MAX_PRESENTED: nat := 128

  /** Token hashes are unique. */
  ghost predicate Unique(ts: Table) {
    forall a <- ts, b <- ts :: ts[a].text == ts[b].text ==> a == b
  }

  lemma StillUnique(ts: Table, after: Table)
    requires Unique(ts) && forall id <- after :: id in ts && after[id].text == ts[id].text
    ensures Unique(after)
  {
  }

  /** Every token of the family is revoked, those that were live for `reason`, and no other token changed. */
  ghost predicate FamilyRevoked(before: Table, after: Table, family: nat, reason: Reason) {
    && after.Keys == before.Keys
    && forall id <- before ::
         after[id] == if before[id].family == family && before[id].revoked == None
                      then before[id].(revoked := Some(reason)) else before[id]
  }

  class Service {
    var tokens: Table
    const ttl: nat

    constructor (ttl: nat)
      ensures tokens == map[] && this.ttl == ttl
    {
      tokens := map[];
      this.ttl := ttl;
    }

    ghost predicate Valid()
      reads this`tokens
    {
      Unique(tokens)
    }

    ghost predicate Unused(id: Id, text: string)
      reads this`tokens
    {
      id !in tokens && forall other <- tokens :: tokens[other].text != text
    }

    /** `id`, `family` and `text` are the random values it draws. */
    method Issue(user: nat, family: nat, id: Id, text: string, jsNow: int)
      requires Valid() && Unused(id, text)
      modifies this`tokens
      ensures Valid() && tokens == RefreshTokens.Issue(old(tokens), id, user, family, text, jsNow + ttl)
    {
      tokens := tokens[id := Token(user, family, text, jsNow + ttl, None, None)];
    }

    /** The rows that a revocation would change. */
    ghost function Hit(scope: Scope): set<Id>
      reads this`tokens
    {
      set id | id in tokens && InScope(tokens[id], scope) && Live(tokens[id])
    }

    /** `UPDATE ... SET revoked_at, revoked_reason WHERE ... AND revoked_at IS NULL`; returns its row count. */
    method RevokeScope(scope: Scope, reason: Reason) returns (count: nat)
      modifies this`tokens
      ensures tokens == RevokeWhere(old(tokens), scope, reason) && count == |old(Hit(scope))|
      ensures tokens.Keys == old(tokens).Keys
    {
      var hit := set id | id in tokens && InScope(tokens[id], scope) && tokens[id].revoked == None;
      assert hit == Hit(scope);
      count := |hit|;
      tokens := map id | id in tokens :: if id in hit then tokens[id].(revoked := Some(reason)) else tokens[id];
    }

    method RevokeFamily(family: nat, reason: Reason)
      requires Valid()
      modifies this`tokens
      ensures Valid() && tokens == RefreshTokens.RevokeFamily(old(tokens), family, reason)
      ensures FamilyRevoked(old(tokens), tokens, family, reason)
    {
      var count := RevokeScope(OfFamily(family), reason);
      StillUnique(old(tokens), tokens);
    }

    /** Returns how many sessions it ended. */
    method RevokeAllForUser(user: nat, reason: Reason) returns (count: nat)
      requires Valid()
      modifies this`tokens
      ensures Valid() && tokens == RevokeUser(old(tokens), user, reason)
      ensures tokens.Keys == old(tokens).Keys && forall id <- tokens ::
        tokens[id] == if old(tokens)[id].user == user && old(tokens)[id].revoked == None
                      then old(tokens)[id].(revoked := Some(reason)) else old(tokens)[id]
      ensures count == |set id | id in old(tokens) && old(tokens)[id].user == user && old(tokens)[id].revoked == None|
    {
      assert Hit(OfUser(user)) == set id | id in tokens && tokens[id].user == user && tokens[id].revoked == None;
      count := RevokeScope(OfUser(user), reason);
      StillUnique(old(tokens), tokens);
    }

    method FindByText(text: string) returns (found: Option<Id>)
      ensures found.Some? ==> Presents(tokens, text, found.value)
      ensures found.None? ==> forall id <- tokens :: tokens[id].text != text
    {
      if id :| id in tokens && tokens[id].text == text {
        found := Some(id);
      } else {
        found := None;
      }
    }

    predicate Malformed(presented: Option<string>) {
      presented.None? || presented.value == "" || |presented.value| > MAX_PRESENTED
    }

    /** The successor, if there is one, is drawn as `next` and `text`. */
    method Rotate(presented: Option<string>, next: Id, text: string, jsNow: int) returns (outcome: Outcome)
      requires Valid() && Unused(next, text)
      modifies this`tokens
      ensures Valid()
      ensures presented.None? || presented.value == "" || |presented.value| > 128 ==> outcome == Invalid
      ensures outcome == Invalid ==>
        tokens == old(tokens) && (Malformed(presented) || forall id <- tokens :: tokens[id].text != presented.value)
      ensures outcome != Invalid ==>
        !Malformed(presented) && exists id ::
          && Presents(old(tokens), presented.value, id)
          && outcome == Judge(old(tokens)[id], jsNow, next)
          && tokens == RefreshTokens.Rotate(old(tokens), id, jsNow, ttl, next, text)
    {
      if presented.None? || presented.value == "" || |presented.value| > MAX_PRESENTED {
        return Invalid;
      }
      var found := FindByText(presented.value);
      if found.None? {
        return Invalid;
      }
      var id := found.value;
      var record := tokens[id];
      assert Presents(old(tokens), presented.value, id);
      if record.revoked.Some? {
        if record.revoked.value == Rotated {
          RevokeFamily(record.family, ReuseDetected);
          return Reuse(record.user, record.family);
        }
        return SessionRevoked;
      }
      if record.expires <= jsNow {
        return Expired;
      }
      Issue(record.user, record.family, next, text, jsNow);
      tokens := tokens[id := tokens[id].(revoked := Some(Rotated), replacedBy := Some(next))];
      return Renewed(record.user, record.family, next);
    }

    /** Logout; returns the family whose session ended, or None when no such token is known. */
    method RevokeByToken(presented: Option<string>) returns (family: Option<nat>)
      requires Valid()
      modifies this`tokens
      ensures Valid()
      ensures family.None? ==> tokens == old(tokens)
      ensures family.None? <==>
        presented.None? || presented.value == "" || |presented.value| > 128
        || forall id <- old(tokens) :: old(tokens)[id].text != presented.value
      ensures family.Some? ==>
        && FamilyRevoked(old(tokens), tokens, family.value, Logout)
        && (exists id :: Presents(old(tokens), presented.value, id) && old(tokens)[id].family == family.value)
        && (forall id <- tokens :: tokens[id].family == family.value ==> tokens[id].revoked.Some?)
    {
      if presented.None? || presented.value == "" || |presented.value| > MAX_PRESENTED {
        return None;
      }
      var found := FindByText(presented.value);
      if found.None? {
        return None;
      }
      family := Some(tokens[found.value].family);
      assert Presents(old(tokens), presented.value, found.value);
      RevokeFamily(family.value, Logout);
    }

    method PurgeExpired(dbNow: int) returns (deleted: nat)
      requires Valid()
      modifies this`tokens
      ensures Valid() && tokens == Purge(old(tokens), dbNow)
      ensures deleted == |set id | id in old(tokens) && Purgeable(old(tokens)[id], dbNow)|
    {
      var gone := set id | id in tokens && Purgeable(tokens[id], dbNow);
      var kept := map id | id in tokens && id !in gone ::
        if tokens[id].replacedBy.Some? && tokens[id].replacedBy.value in gone
        then tokens[id].(replacedBy := None) else tokens[id];
      StillUnique(tokens, kept);
      tokens := kept;
      deleted := |gone|;
    }
  }
}

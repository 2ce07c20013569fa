/** The idempotency store and its middleware as they are written, on a table of keys. */
module IdempotencyStore {
  import opened Prelude
  import opened Idempotency
  import opened Patterns

  datatype Key = Key(user: nat, key: string, endpoint: string)

  /** What the middleware sends: its own refusals, a replay, or the handler's answer. */
  datatype Sent = KeyRequired | KeyMalformed | KeyConflict | InProgress | Replayed(response: Response) | Fresh(response: Response)

  /** KEY_PATTERN: 8 to 255 printable ASCII characters. */
  predicate KeyOk(key: string) {
    8 <= |key| <= 255 && forall c <- key :: '!' <= c <= '~'
  }

  /** `^[\x21-\x7E]{8,255}$`. */
  const KEY_PATTERN := Repeat(Range('!', '~'), 8, 255)

  lemma KeyOkIsPattern(key: string)
    ensures KeyOk(key) <==> Accepted(KEY_PATTERN, key)
  {
    RepeatedRange('!', '~', 8, 255, key);
    assert forall i :: 0 <= i < |key| ==> key[i] in key;
  }

  class Store {
    var rows: map<Key, Row>
    const ttl: nat

    constructor (ttl: nat)
      ensures rows == map[] && this.ttl == ttl
    {
      rows := map[];
      this.ttl := ttl;
    }

    function At(k: Key): Option<Row>
      reads this`rows
    {
      Find(rows, k)
    }

    /** Only the row of `k` may differ from `before`. */
    ghost predicate OnlyAt(k: Key, before: map<Key, Row>)
      reads this`rows
    {
      forall other :: other != k ==> At(other) == Find(before, other)
    }

    /**
      `begin`, undisturbed: `now` is the database clock of its statements and `jsNow`
      the JavaScript clock that judges expiry.
     */
    method Begin(k: Key, hash: string, now: nat, jsNow: int) returns (answer: Answer)
      modifies this`rows
      ensures Register(old(At(k)), hash, now, ttl, answer, At(k)) && OnlyAt(k, old(rows))
      ensures (answer, At(k)) == BeginOutcome(old(At(k)), hash, now, jsNow, ttl)
    {
      if k !in rows {
        rows := rows[k := Row(hash, None, now)];
        return New;
      }
      var record := rows[k];
      if jsNow - record.created > ttl {
        if record.created + ttl < now {
          rows := rows[k := Row(hash, None, now)];
          return New;
        }
        return Processing;
      }
      if record.hash != hash {
        return Conflict;
      }
      if record.response.Some? {
        return Replay(record.response.value);
      }
      return Processing;
    }

    method Complete(k: Key, response: Response)
      modifies this`rows
      ensures At(k) == CompleteRow(old(At(k)), response) && OnlyAt(k, old(rows))
      ensures k in old(rows) ==> At(k) == Some(Row(old(rows)[k].hash, Some(response), old(rows)[k].created))
    {
      if k in rows {
        rows := rows[k := rows[k].(response := Some(response))];
      }
    }

    method Remove(k: Key)
      modifies this`rows
      ensures At(k) == None && OnlyAt(k, old(rows))
    {
      rows := map other | other in rows && other != k :: rows[other];
    }

    /** The hourly housekeeping; it reports how many rows it deleted. */
    method PurgeExpired(now: nat) returns (deleted: nat)
      modifies this`rows
      ensures forall k :: At(k) == PurgeRow(Find(old(rows), k), now, ttl)
      ensures forall k <- old(rows) :: k in rows <==> now <= old(rows)[k].created + ttl
      ensures deleted == |old(rows)| - |rows|
    {
      var kept := map k | k in rows && !(rows[k].created + ttl < now) :: rows[k];
      assert kept.Keys <= rows.Keys;
      Smaller(kept.Keys, rows.Keys);
      deleted := |rows| - |kept|;
      rows := kept;
    }

    lemma Smaller(a: set<Key>, b: set<Key>)
      requires a <= b
      ensures |a| <= |b|
    {
      assert b == a + (b - a) && a !! (b - a);
    }

    /**
      The middleware around a handler that would answer `response`; `persists` says
      whether the statement that stores or releases succeeds.  `ran` reports whether
      the handler was reached.
     */
    method Handle(required: bool, header: Option<string>, user: nat, endpoint: string, hash: string,
                  now: nat, jsNow: int, response: Response, persists: bool) returns (sent: Sent, ran: bool)
      modifies this`rows
      ensures header.None? || header == Some("") ==>
        rows == old(rows) && ran == !required && sent == if required then KeyRequired else Fresh(response)
      ensures header.Some? && header != Some("") && !KeyOk(header.value) ==> rows == old(rows) && !ran && sent == KeyMalformed
      ensures header.Some? && KeyOk(header.value) ==>
        var k := Key(user, header.value, endpoint);
        var before := old(At(Key(user, header.value, endpoint)));
        && OnlyAt(k, old(rows))
        && (ran ==>
              && (before.Some? ==> now > before.value.created + ttl)
              && sent == Fresh(response)
              && At(k) == if !persists then Some(Row(hash, None, now))
                          else if response.status >= 500 then None
                          else Some(Row(hash, Some(response), now)))
        && (!ran ==> At(k) == before && before.Some?)
        && (before.None? ==> ran)
        && (sent.Replayed? ==> before.value.hash == hash && before.value.response == Some(sent.response) && !ran)
        && (before.Some? && jsNow <= before.value.created + ttl ==>
              && !ran
              && sent == if before.value.hash != hash then KeyConflict
                         else if before.value.response.Some? then Replayed(before.value.response.value)
                         else InProgress)
        && (before.Some? && jsNow > before.value.created + ttl ==>
              (ran <==> now > before.value.created + ttl) && (!ran ==> sent == InProgress))
    {
      if header.None? || header.value == "" {
        if required {
          return KeyRequired, false;
        }
        return Fresh(response), true;
      }
      if !KeyOk(header.value) {
        return KeyMalformed, false;
      }
      var k := Key(user, header.value, endpoint);
      var claim := Begin(k, hash, now, jsNow);
      match claim
      case Conflict => return KeyConflict, false;
      case Processing => return InProgress, false;
      case Replay(stored) => return Replayed(stored), false;
      case New =>
        if persists {
          if response.status >= 500 {
            Remove(k);
          } else {
            Complete(k, response);
          }
        }
        return Fresh(response), true;
    }

    /**
      Safe retries: after a first request that stored its answer, an identical retry
      within the TTL is sent that same answer without running the handler, whatever
      the handler would answer now, and another request under the key is refused.
     */
    method RetryIsReplayed(key: string, user: nat, endpoint: string, hash: string, other: string,
                           now: nat, later: nat, jsLater: int, first: Response, second: Response)
      returns (retry: Sent, foreign: Sent)
      requires KeyOk(key) && first.status < 500 && other != hash
      requires Key(user, key, endpoint) !in rows && jsLater - now <= ttl
      modifies this`rows
      ensures retry == Replayed(first) && foreign == KeyConflict
      ensures At(Key(user, key, endpoint)) == Some(Row(hash, Some(first), now))
    {
      var ran;
      var sent;
      sent, ran := Handle(true, Some(key), user, endpoint, hash, now, now, first, true);
      retry, ran := Handle(true, Some(key), user, endpoint, hash, later, jsLater, second, true);
      foreign, ran := Handle(true, Some(key), user, endpoint, other, later, jsLater, second, true);
    }
  }
}

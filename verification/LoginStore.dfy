/** The login store's calls, step by step over its table. */
module LoginStore {
  import opened Collections
  import opened LoginChallenge

  predicate UrlSafe(c: char) {
    'A' <= c <= 'Z' || 'a' <= c <= 'z' || '0' <= c <= '9' || c == '_' || c == '-'
  }

  predicate IsToken(s: string, lo: nat, hi: nat) { lo <= |s| <= hi && forall c :: c in s ==> UrlSafe(c) }

  /** A token of the given length; like the pattern's `$`, one trailing newline passes. */
  predicate Matches(s: string, lo: nat, hi: nat) {
    IsToken(s, lo, hi) || (s != "" && s[|s| - 1] == '\n' && IsToken(s[..|s| - 1], lo, hi))
  }

  predicate IdOk(id: string) { Matches(id, 16, 64) }

  predicate SecretOk(secret: string) { Matches(secret, 16, 128) }

  predicate WellFormed(id: string, secret: string) { IdOk(id) && SecretOk(secret) }

  class BrowserLoginStore {
    var rows: map<string, Row>
    const maxAttempts: int
    const hash: Hash

    constructor (maxAttempts: int, hash: Hash)
      ensures rows == map[] && this.maxAttempts == maxAttempts && this.hash == hash
    {
      rows := map[];
      this.maxAttempts, this.hash := maxAttempts, hash;
    }

    function RowOf(id: string): Option<Row>
      reads this`rows
    {
      if id in rows then Some(rows[id]) else None
    }

    ghost predicate Leaves(id: string, before: map<string, Row>, row: Option<Row>)
      reads this`rows
    {
      RowOf(id) == row && rows - {id} == before - {id}
    }

    /** Mint a challenge under a fresh id; an id that exists already is rejected by the table. */
    method Create(id: string, secret: string, salt: string, now: int, ttl: int) returns (ok: bool)
      modifies this`rows
      ensures ok <==> id !in old(rows)
      ensures ok ==>
        rows == old(rows)[id := Row(hash(salt, secret), salt, Pending, 0, None, "", now + ttl, None, None, None)]
      ensures !ok ==> rows == old(rows)
    {
      if id in rows {
        return false;
      }
      rows := rows[id := NewRow(secret, salt, now + ttl, hash)];
      return true;
    }

    /** Check credentials, counting a wrong secret. */
    method VerifyAndCount(id: string, secret: string) returns (refusal: Option<Answer>)
      modifies this`rows
      ensures !WellFormed(id, secret) ==> refusal == Some(Malformed) && rows == old(rows)
      ensures WellFormed(id, secret) ==>
        && refusal == VerifySecret(old(RowOf(id)), secret, maxAttempts, hash)
        && Leaves(id, old(rows), Written(old(RowOf(id)), WrongWrite(old(RowOf(id)), secret, maxAttempts, hash)))
    {
      if !IdOk(id) || !SecretOk(secret) {
        return Some(Malformed);
      }
      if id !in rows {
        return Some(NotFound);
      }
      var row := rows[id];
      if row.status.Locked? || row.attempts >= maxAttempts {
        return Some(LockedOut);
      }
      if row.secretHash != hash(row.salt, secret) {
        var attempts := row.attempts + 1;
        var status := if attempts >= maxAttempts then Locked else row.status;
        rows := rows[id := row.(attempts := attempts, status := status)];
        return Some(if attempts >= maxAttempts then LockedOut else InvalidSecret);
      }
      return None;
    }

    method PollChallenge(id: string, secret: string, now: int) returns (a: Answer)
      modifies this`rows
      ensures !WellFormed(id, secret) ==> a == Malformed && rows == old(rows)
      ensures WellFormed(id, secret) ==>
        && a == PollAnswer(old(RowOf(id)), secret, now, maxAttempts, hash)
        && Leaves(id, old(rows), Poll(old(RowOf(id)), secret, now, maxAttempts, hash))
    {
      var refusal := VerifyAndCount(id, secret);
      if refusal.Some? {
        return refusal.value;
      }
      assert old(RowOf(id)) == RowOf(id);
      var row := rows[id];
      if row.expiresAt <= now {
        if row.status.Pending? {
          rows := rows[id := row.(status := Expired)];
        }
        return IsExpired;
      }
      if row.usedAt.Some? || row.status.Used? {
        return AlreadyUsed;
      }
      if row.status.Approved? {
        return IsApproved(row.telegram);
      }
      return if row.status.Pending? then IsPending else Unexpected(row.status);
    }

    method ApproveChallenge(id: string, tid: int, username: string, now: int) returns (a: Answer)
      modifies this`rows
      ensures !IdOk(id) ==> a == Malformed && rows == old(rows)
      ensures IdOk(id) ==>
        && a == ApproveAnswer(old(RowOf(id)), tid, now)
        && Leaves(id, old(rows), Approve(old(RowOf(id)), tid, Take(username, 64), now))
    {
      if !IdOk(id) || tid <= 0 {
        return Malformed;
      }
      if id !in rows {
        return NotFound;
      }
      var row := rows[id];
      if row.expiresAt <= now {
        return IsExpired;
      }
      if row.usedAt.Some? || row.status.Used? {
        return AlreadyUsed;
      }
      if row.status.Locked? {
        return LockedOut;
      }
      if row.status.Approved? || row.telegram.Some? {
        return AlreadyBound;
      }
      if row.status.Pending? && row.usedAt.None? && row.expiresAt > now {
        rows := rows[id := row.(status := Approved, telegram := Some(tid), username := Take(username, 64),
                                approvedAt := Some(now))];
        return Bound(tid);
      }
      return if row.status.Approved? || row.telegram.Some? then AlreadyBound else Failed;
    }

    /** One transaction: take the challenge, run the session exchange, and roll back if that fails. */
    method ConsumeChallenge(id: string, secret: string, now: int, token: string, exchanges: bool) returns (a: Answer)
      modifies this`rows
      ensures !WellFormed(id, secret) ==> a == Malformed && rows == old(rows)
      ensures WellFormed(id, secret) ==>
        && a == ConsumeAnswer(old(RowOf(id)), secret, now, token, exchanges, maxAttempts, hash)
        && Leaves(id, old(rows), Consume(old(RowOf(id)), secret, now, token, exchanges, maxAttempts, hash))
    {
      var begun := rows;
      var refusal := VerifyAndCount(id, secret);
      if refusal.Some? {
        return refusal.value;
      }
      assert old(RowOf(id)) == RowOf(id);
      var row := rows[id];
      if row.expiresAt <= now {
        return IsExpired;
      }
      if row.usedAt.Some? || row.status.Used? {
        return AlreadyUsed;
      }
      if row.status.Pending? {
        return IsPending;
      }
      if !row.status.Approved? {
        return Unexpected(row.status);
      }
      rows := rows[id := row.(status := Used, usedAt := Some(now), claim := Some(token))];
      if !exchanges {
        rows := begun;
        return ExchangeFailed;
      }
      return Consumed(row.telegram, token);
    }

    method PruneExpired(cutoff: int) returns (count: nat)
      modifies this`rows
      ensures forall id :: RowOf(id) == Prune(old(RowOf(id)), cutoff)
      ensures forall id :: id in rows <==> id in old(rows) && old(rows)[id].expiresAt >= cutoff
      ensures forall id :: id in rows ==> rows[id] == old(rows)[id]
      ensures count == |old(rows)| - |rows|
    {
      var kept := map id | id in rows && !(rows[id].expiresAt < cutoff) :: rows[id];
      assert kept.Keys <= rows.Keys;
      assert rows.Keys == kept.Keys + (rows.Keys - kept.Keys);
      assert |rows.Keys| >= |kept.Keys|;
      count := |rows| - |kept|;
      rows := kept;
    }
  }

  /** What `create` draws is well formed: 18 random bytes make an id of 24 characters and 32 a secret of 43. Shorter or
      longer tokens, and other characters, are not. */
  lemma MintedIsWellFormed(id: string, secret: string)
    ensures |id| == 24 && |secret| == 43 && (forall c :: c in id + secret ==> UrlSafe(c)) ==> WellFormed(id, secret)
    ensures WellFormed(id, secret) ==> 16 <= |id| <= 65 && 16 <= |secret| <= 129
    ensures WellFormed(id, secret) ==> forall i :: 0 <= i < |id| - 1 ==> UrlSafe(id[i])
    ensures UrlSafe('A') && UrlSafe('z') && UrlSafe('0') && UrlSafe('-') && UrlSafe('_')
    ensures !UrlSafe(' ') && !UrlSafe('/')
  {
    assert forall c :: c in id ==> c in id + secret;
    assert forall c :: c in secret ==> c in id + secret;
    forall i | 0 <= i < |id| - 1 && WellFormed(id, secret) ensures UrlSafe(id[i]) {
      assert id[i] in id && id[..|id| - 1][i] in id[..|id| - 1];
    }
  }
}

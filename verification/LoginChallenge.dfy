/** The browser login challenge: one row, read and written by interleaved callers. */
module LoginChallenge {
  import opened Collections

  datatype Status = Pending | Approved | Used | Expired | Locked

  datatype Row = Row(
    secretHash: string,
    salt: string,
    status: Status,
    attempts: nat,
    telegram: Option<int>,
    username: string,
    expiresAt: int,
    approvedAt: Option<int>,
    usedAt: Option<int>,
    claim: Option<string>)

  datatype Answer =
    | NotFound | LockedOut | InvalidSecret | IsExpired | AlreadyUsed | IsPending | IsApproved(telegram: Option<int>)
    | Unexpected(status: Status)
    | Malformed | AlreadyBound | Bound(tid: int) | Failed
    | ExchangeFailed | Consumed(who: Option<int>, token: string)

  type Hash = (string, string) -> string

  function NewRow(secret: string, salt: string, expiresAt: int, hash: Hash): Row {
    Row(hash(salt, secret), salt, Pending, 0, None, "", expiresAt, None, None, None)
  }

  // ---- Reading and deciding ----

  /** What a caller found out about the secret; `None` means it may go on. */
  function VerifySecret(row: Option<Row>, secret: string, max: int, hash: Hash): Option<Answer> {
    if row.None? then Some(NotFound)
    else if row.value.status.Locked? || row.value.attempts >= max then Some(LockedOut)
    else if row.value.secretHash != hash(row.value.salt, secret)
    then Some(if row.value.attempts + 1 >= max then LockedOut else InvalidSecret)
    else None
  }

  /** An update a caller decided on from the row it read. */
  datatype Write = NoWrite | CountWrong(attempts: nat, status: Status) | MarkExpired

  function WrongWrite(row: Option<Row>, secret: string, max: int, hash: Hash): Write {
    if row.None? || row.value.status.Locked? || row.value.attempts >= max
       || row.value.secretHash == hash(row.value.salt, secret)
    then NoWrite
    else CountWrong(row.value.attempts + 1, if row.value.attempts + 1 >= max then Locked else row.value.status)
  }

  function Written(row: Option<Row>, w: Write): Option<Row> {
    if row.None? then row
    else
      match w
      case NoWrite => row
      case CountWrong(attempts, status) => Some(row.value.(attempts := attempts, status := status))
      case MarkExpired => Some(row.value.(status := Expired))
  }

  function PollAnswer(row: Option<Row>, secret: string, now: int, max: int, hash: Hash): Answer {
    var verdict := VerifySecret(row, secret, max, hash);
    if verdict.Some? then verdict.value
    else
      var r := row.value;
      if r.expiresAt <= now then IsExpired
      else if r.usedAt.Some? || r.status.Used? then AlreadyUsed
      else if r.status.Approved? then IsApproved(r.telegram)
      else if r.status.Pending? then IsPending
      else Unexpected(r.status)
  }

  function PollWrite(row: Option<Row>, secret: string, now: int, max: int, hash: Hash): Write {
    if VerifySecret(row, secret, max, hash).Some? then WrongWrite(row, secret, max, hash)
    else if row.value.expiresAt <= now && row.value.status.Pending? then MarkExpired
    else NoWrite
  }

  /** Why an approval is refused on sight of the row; `None` means it is attempted. */
  function ApproveRefusal(row: Option<Row>, tid: int, now: int): Option<Answer> {
    if tid <= 0 then Some(Malformed)
    else if row.None? then Some(NotFound)
    else if row.value.expiresAt <= now then Some(IsExpired)
    else if row.value.usedAt.Some? || row.value.status.Used? then Some(AlreadyUsed)
    else if row.value.status.Locked? then Some(LockedOut)
    else if row.value.status.Approved? || row.value.telegram.Some? then Some(AlreadyBound)
    else None
  }

  /** The guard of the conditional update that binds an account. */
  predicate Bindable(row: Option<Row>, now: int) {
    row.Some? && row.value.status.Pending? && row.value.usedAt.None? && row.value.expiresAt > now
  }

  function Bind(row: Option<Row>, tid: int, username: string, now: int): Option<Row> {
    if !Bindable(row, now) then row
    else Some(row.value.(status := Approved, telegram := Some(tid), username := username, approvedAt := Some(now)))
  }

  function BindAnswer(row: Option<Row>, tid: int, now: int): Answer {
    if Bindable(row, now) then Bound(tid)
    else if row.Some? && (row.value.status.Approved? || row.value.telegram.Some?) then AlreadyBound
    else Failed
  }

  // ---- Atomic calls ----

  function Poll(row: Option<Row>, secret: string, now: int, max: int, hash: Hash): Option<Row> {
    Written(row, PollWrite(row, secret, now, max, hash))
  }

  function Approve(row: Option<Row>, tid: int, username: string, now: int): Option<Row> {
    if ApproveRefusal(row, tid, now).Some? then row else Bind(row, tid, username, now)
  }

  function ApproveAnswer(row: Option<Row>, tid: int, now: int): Answer {
    var refusal := ApproveRefusal(row, tid, now);
    if refusal.Some? then refusal.value else BindAnswer(row, tid, now)
  }

  /** `exchanges` tells whether the caller's session exchange succeeds; if not, the transaction is rolled back. */
  function ConsumeAnswer(row: Option<Row>, secret: string, now: int, token: string, exchanges: bool, max: int,
                         hash: Hash): Answer
  {
    var verdict := VerifySecret(row, secret, max, hash);
    if verdict.Some? then verdict.value
    else
      var r := row.value;
      if r.expiresAt <= now then IsExpired
      else if r.usedAt.Some? || r.status.Used? then AlreadyUsed
      else if r.status.Pending? then IsPending
      else if !r.status.Approved? then Unexpected(r.status)
      else if !exchanges then ExchangeFailed
      else Consumed(r.telegram, token)
  }

  function Consume(row: Option<Row>, secret: string, now: int, token: string, exchanges: bool, max: int,
                   hash: Hash): Option<Row>
  {
    if ConsumeAnswer(row, secret, now, token, exchanges, max, hash).Consumed?
    then Some(row.value.(status := Used, usedAt := Some(now), claim := Some(token)))
    else Written(row, WrongWrite(row, secret, max, hash))
  }

  function Prune(row: Option<Row>, cutoff: int): Option<Row> {
    if row.Some? && row.value.expiresAt < cutoff then None else row
  }
}

/** What every run of login calls keeps: with split reads and writes, and with whole calls atomic. */
module LoginRuns {
  import opened Collections
  import opened LoginChallenge

  // ---- Split steps ----

  /** The row, every row there was before, and the tokens of the successful consumptions. */
  datatype Sys = Sys(row: Option<Row>, past: seq<Option<Row>>, consumed: seq<string>)

  /** `poll` and `approve` write after reading without a transaction: they decide on some row `past[i]` that
      was current at an earlier moment. Repeated writes of one decision are allowed as well, so these runs
      include every interleaving of any number of callers. `consume` is one transaction. */
  datatype Event =
    | PollWrites(i: nat, secret: string, now: int)
    | ApproveWrites(i: nat, tid: int, username: string, now: int)
    | Consumes(secret: string, now: int, token: string, exchanges: bool)
    | Prunes(cutoff: int)

  function Next(s: Sys, e: Event, max: int, hash: Hash): Option<Row> {
    match e
    case PollWrites(i, secret, now) =>
      if i < |s.past| then Written(s.row, PollWrite(s.past[i], secret, now, max, hash)) else s.row
    case ApproveWrites(i, tid, username, now) =>
      if i < |s.past| && ApproveRefusal(s.past[i], tid, now).None? then Bind(s.row, tid, username, now) else s.row
    case Consumes(secret, now, token, exchanges) => Consume(s.row, secret, now, token, exchanges, max, hash)
    case Prunes(cutoff) => Prune(s.row, cutoff)
  }

  function Apply(s: Sys, e: Event, max: int, hash: Hash): Sys {
    var row := Next(s, e, max, hash);
    var won := e.Consumes? && ConsumeAnswer(s.row, e.secret, e.now, e.token, e.exchanges, max, hash).Consumed?;
    Sys(row, s.past + [row], if won then s.consumed + [e.token] else s.consumed)
  }

  function After(row: Row, events: seq<Event>, max: int, hash: Hash): Sys {
    if events == [] then Sys(Some(row), [Some(row)], [])
    else Apply(After(row, events[..|events| - 1], max, hash), events[|events| - 1], max, hash)
  }

  ghost predicate SingleUse(s: Sys) {
    && |s.consumed| <= 1
    && (s.row.Some? && s.row.value.usedAt.None? ==> s.consumed == [])
    && (s.row.Some? && s.row.value.usedAt.Some? ==> s.row.value.claim.Some? && s.consumed == [s.row.value.claim.value])
    // an account that was bound at any time is still bound to somebody
    && (forall i :: 0 <= i < |s.past| && s.past[i].Some? && s.past[i].value.telegram.Some? && s.row.Some?
          ==> s.row.value.telegram.Some?)
    // an approved row is a bound one
    && (forall i :: 0 <= i < |s.past| && s.past[i].Some? && s.past[i].value.status.Approved?
          ==> s.past[i].value.telegram.Some?)
    && |s.past| > 0 && s.past[|s.past| - 1] == s.row
  }

  lemma EventKeepsSingleUse(s: Sys, e: Event, max: int, hash: Hash)
    requires SingleUse(s)
    ensures SingleUse(Apply(s, e, max, hash))
  {
    var s' := Apply(s, e, max, hash);
    assert s.row.Some? && s.row.value.status.Approved? ==> s.row.value.telegram.Some? by {
      assert s.past[|s.past| - 1] == s.row;
    }
    forall i | 0 <= i < |s'.past| && s'.past[i].Some? && s'.past[i].value.telegram.Some? && s'.row.Some?
      ensures s'.row.value.telegram.Some?
    {
      assert s.row.Some?;
      if i < |s.past| {
        assert s.past[i] == s'.past[i];
      }
    }
    forall i | 0 <= i < |s'.past| && s'.past[i].Some? && s'.past[i].value.status.Approved?
      ensures s'.past[i].value.telegram.Some?
    {
      if i < |s.past| {
        assert s.past[i] == s'.past[i];
      }
    }
  }

  /** In every interleaving the challenge is consumed successfully at most once, and never before some account
      was bound to it: nobody but `consume` sets the usage time and nobody clears it, whatever stale status a
      poll writes back. */
  lemma {:induction false} ConsumedAtMostOnce(row: Row, events: seq<Event>, max: int, hash: Hash)
    requires row.usedAt.None? && row.status.Pending?
    ensures SingleUse(After(row, events, max, hash))
  {
    if events != [] {
      var init := events[..|events| - 1];
      ConsumedAtMostOnce(row, init, max, hash);
      EventKeepsSingleUse(After(row, init, max, hash), events[|events| - 1], max, hash);
    }
  }

  /** What no event changes of a challenge while its row exists. */
  ghost predicate SameChallenge(row: Row, s: Sys) {
    forall i :: 0 <= i < |s.past| && s.past[i].Some? ==>
      var r := s.past[i].value;
      r.secretHash == row.secretHash && r.salt == row.salt && r.expiresAt == row.expiresAt
  }

  /** Some caller approved the challenge for `tid` before it expired. */
  ghost predicate ApprovedFor(row: Row, events: seq<Event>, tid: int) {
    exists j :: 0 <= j < |events| && Approves(row, events[j], tid)
  }

  predicate Approves(row: Row, e: Event, tid: int) {
    e.ApproveWrites? && e.tid == tid && 0 < tid && e.now < row.expiresAt
  }

  ghost predicate BoundByApproval(row: Row, events: seq<Event>, s: Sys) {
    s.row.Some? && s.row.value.telegram.Some? ==> ApprovedFor(row, events, s.row.value.telegram.value)
  }

  lemma ApprovedStays(row: Row, events: seq<Event>, e: Event, tid: int)
    requires ApprovedFor(row, events, tid) || Approves(row, e, tid)
    ensures ApprovedFor(row, events + [e], tid)
  {
    if Approves(row, e, tid) {
      assert (events + [e])[|events|] == e;
    } else {
      var j :| 0 <= j < |events| && Approves(row, events[j], tid);
      assert (events + [e])[j] == events[j];
    }
  }

  lemma EventKeepsOrigin(row: Row, events: seq<Event>, s: Sys, e: Event, max: int, hash: Hash)
    requires SingleUse(s) && SameChallenge(row, s) && BoundByApproval(row, events, s)
    ensures SameChallenge(row, Apply(s, e, max, hash)) && BoundByApproval(row, events + [e], Apply(s, e, max, hash))
  {
    var s' := Apply(s, e, max, hash);
    assert s.past[|s.past| - 1] == s.row;
    forall i | 0 <= i < |s'.past| && s'.past[i].Some?
      ensures var r := s'.past[i].value;
        r.secretHash == row.secretHash && r.salt == row.salt && r.expiresAt == row.expiresAt
    {
      assert i < |s.past| ==> s'.past[i] == s.past[i];
    }
    if s'.row.Some? && s'.row.value.telegram.Some? {
      ApprovedStays(row, events, e, s'.row.value.telegram.value);
    }
  }

  lemma {:induction false} OriginHolds(row: Row, events: seq<Event>, max: int, hash: Hash)
    requires row.usedAt.None? && row.status.Pending? && row.telegram.None?
    ensures SameChallenge(row, After(row, events, max, hash))
    ensures BoundByApproval(row, events, After(row, events, max, hash))
  {
    if events != [] {
      var init, e := events[..|events| - 1], events[|events| - 1];
      assert events == init + [e];
      OriginHolds(row, init, max, hash);
      ConsumedAtMostOnce(row, init, max, hash);
      hide Apply, SingleUse, SameChallenge, BoundByApproval;
      EventKeepsOrigin(row, init, After(row, init, max, hash), e, max, hash);
    }
  }

  /** In every interleaving, whoever consumes the challenge does so first, before it expired, with its secret and a
      working exchange, and is told an account that some caller had approved it for before it expired. */
  lemma WinnerIsBoundAndLast(row: Row, events: seq<Event>, e: Event, max: int, hash: Hash)
    requires row.usedAt.None? && row.status.Pending? && row.telegram.None? && e.Consumes?
    ensures var s := After(row, events, max, hash);
      var answer := ConsumeAnswer(s.row, e.secret, e.now, e.token, e.exchanges, max, hash);
      answer.Consumed? ==>
        && s.consumed == [] && answer.token == e.token
        && e.now < row.expiresAt && hash(row.salt, e.secret) == row.secretHash && e.exchanges
        && answer.who.Some? && ApprovedFor(row, events, answer.who.value)
  {
    ConsumedAtMostOnce(row, events, max, hash);
    OriginHolds(row, events, max, hash);
    hide After;
    var s := After(row, events, max, hash);
    assert s.past[|s.past| - 1] == s.row;
  }

  /** From its expiry on nobody consumes the challenge, whatever happened before. */
  lemma ExpiredIsNeverConsumed(row: Row, events: seq<Event>, e: Event, max: int, hash: Hash)
    requires row.usedAt.None? && row.status.Pending? && row.telegram.None? && e.Consumes? && e.now >= row.expiresAt
    ensures var s := After(row, events, max, hash); var s' := Apply(s, e, max, hash);
      && s'.consumed == s.consumed
      && (s.row.Some? && s'.row.Some? ==>
            s'.row.value.usedAt == s.row.value.usedAt && s'.row.value.claim == s.row.value.claim)
  {
    WinnerIsBoundAndLast(row, events, e, max, hash);
    hide After;
  }

  // ---- The calls on the fields of the row ----

  /** The caller knows the secret of a challenge that is not locked out. */
  predicate Admitted(row: Option<Row>, secret: string, max: int, hash: Hash) {
    row.Some? && row.value.status != Locked && row.value.attempts < max
    && hash(row.value.salt, secret) == row.value.secretHash
  }

  /** Consuming succeeds exactly on an approved, unused, unexpired challenge, with its secret and a working exchange,
      and then marks it used with the caller's token; a wrong secret is counted, and locks at the limit; every other
      refusal changes nothing. */
  lemma ConsumeInFields(row: Option<Row>, secret: string, now: int, token: string, exchanges: bool, max: int,
                        hash: Hash)
    ensures var answer := ConsumeAnswer(row, secret, now, token, exchanges, max, hash);
      var after := Consume(row, secret, now, token, exchanges, max, hash);
      var wins := Admitted(row, secret, max, hash) && now < row.value.expiresAt && row.value.usedAt == None
                  && row.value.status == Approved && exchanges;
      && (answer.Consumed? <==> wins)
      && (wins ==> answer == Consumed(row.value.telegram, token)
                   && after == Some(row.value.(status := Used, usedAt := Some(now), claim := Some(token))))
      && (!wins ==> after == CountedIfWrong(row, secret, max, hash))
      && (answer.IsExpired? <==> Admitted(row, secret, max, hash) && row.value.expiresAt <= now)
      && (answer.IsPending? <==> Admitted(row, secret, max, hash) && now < row.value.expiresAt
                                 && row.value.usedAt == None && row.value.status == Pending)
  {
  }

  /** A wrong secret counts against a challenge that is not locked out, and locks it at the limit. */
  function CountedIfWrong(row: Option<Row>, secret: string, max: int, hash: Hash): Option<Row> {
    if row.Some? && row.value.status != Locked && row.value.attempts < max
       && hash(row.value.salt, secret) != row.value.secretHash then
      Some(row.value.(attempts := row.value.attempts + 1,
                      status := if row.value.attempts + 1 == max then Locked else row.value.status))
    else row
  }

  /** Polling reveals the account exactly to whoever knows the secret of an approved, unused, unexpired challenge, and
      marks a pending challenge expired when its time is over. */
  lemma PollInFields(row: Option<Row>, secret: string, now: int, max: int, hash: Hash)
    ensures var answer := PollAnswer(row, secret, now, max, hash); var after := Poll(row, secret, now, max, hash);
      var live := Admitted(row, secret, max, hash) && now < row.value.expiresAt;
      && (answer.IsApproved? <==> live && row.value.usedAt == None && row.value.status == Approved)
      && (answer.IsApproved? ==> answer.telegram == row.value.telegram)
      && (answer.IsPending? <==> live && row.value.usedAt == None && row.value.status == Pending)
      && (answer.IsExpired? <==> Admitted(row, secret, max, hash) && row.value.expiresAt <= now)
      && (answer.AlreadyUsed? <==> live && (row.value.usedAt != None || row.value.status == Used))
      && after == if answer.IsExpired? && row.value.status == Pending then Some(row.value.(status := Expired))
                  else CountedIfWrong(row, secret, max, hash)
  {
  }

  /** Approving succeeds exactly on a pending, unused, unexpired challenge bound to nobody, and binds it to the
      approving account; every refusal changes nothing. */
  lemma ApproveInFields(row: Option<Row>, tid: int, username: string, now: int)
    ensures var answer, after := ApproveAnswer(row, tid, now), Approve(row, tid, username, now);
      var binds := tid > 0 && row.Some? && row.value.status == Pending && row.value.usedAt == None
                   && row.value.telegram == None && now < row.value.expiresAt;
      && (answer.Bound? <==> binds)
      && (binds ==> answer == Bound(tid)
                    && after == Some(row.value.(status := Approved, telegram := Some(tid), username := username,
                                                approvedAt := Some(now))))
      && (!binds ==> after == row)
  {
  }

  // ---- Atomic calls ----

  datatype Call =
    | CallPoll(secret: string, now: int)
    | CallApprove(tid: int, username: string, now: int)
    | CallConsume(secret: string, now: int, token: string, exchanges: bool)
    | CallPrune(cutoff: int)

  function Called(row: Option<Row>, c: Call, max: int, hash: Hash): Option<Row> {
    match c
    case CallPoll(secret, now) => Poll(row, secret, now, max, hash)
    case CallApprove(tid, username, now) => Approve(row, tid, username, now)
    case CallConsume(secret, now, token, exchanges) => Consume(row, secret, now, token, exchanges, max, hash)
    case CallPrune(cutoff) => Prune(row, cutoff)
  }

  /** Whether the call compares a wrong secret, rather than being turned away before that. */
  predicate ComparesWrong(row: Option<Row>, c: Call, max: int, hash: Hash) {
    (c.CallPoll? || c.CallConsume?) && row.Some? && row.value.status != Locked && row.value.attempts < max
    && hash(row.value.salt, c.secret) != row.value.secretHash
  }

  function CallsFrom(row: Option<Row>, calls: seq<Call>, max: int, hash: Hash): Option<Row> {
    if calls == [] then row
    else Called(CallsFrom(row, calls[..|calls| - 1], max, hash), calls[|calls| - 1], max, hash)
  }

  function WrongGuesses(row: Row, calls: seq<Call>, max: int, hash: Hash): nat {
    if calls == [] then 0
    else
      var init := calls[..|calls| - 1];
      WrongGuesses(row, init, max, hash)
      + if ComparesWrong(CallsFrom(Some(row), init, max, hash), calls[|calls| - 1], max, hash) then 1 else 0
  }

  predicate Succeeds(row: Option<Row>, c: Call, max: int, hash: Hash) {
    match c
    case CallPoll(secret, now) =>
      var a := PollAnswer(row, secret, now, max, hash);
      !a.NotFound? && !a.LockedOut? && !a.InvalidSecret?
    case CallApprove(tid, username, now) => ApproveAnswer(row, tid, now).Bound?
    case CallConsume(secret, now, token, exchanges) =>
      ConsumeAnswer(row, secret, now, token, exchanges, max, hash).Consumed?
    case CallPrune(cutoff) => false
  }

  /** With whole calls atomic, wrong guesses never exceed the limit, and the limit is reached exactly when the
      challenge is locked. */
  lemma {:induction false} GuessesAreBounded(row: Row, calls: seq<Call>, max: int, hash: Hash)
    requires row.status.Pending? && row.attempts == 0
    ensures WrongGuesses(row, calls, max, hash) <= Max(0, max)
    ensures CallsFrom(Some(row), calls, max, hash).Some? ==>
      var r := CallsFrom(Some(row), calls, max, hash).value;
      r.attempts == WrongGuesses(row, calls, max, hash) && (max >= 1 ==> (r.status.Locked? <==> r.attempts >= max))
  {
    if calls != [] {
      GuessesAreBounded(row, calls[..|calls| - 1], max, hash);
    }
  }

  lemma {:induction false} LockIsFinal(row: Option<Row>, calls: seq<Call>, max: int, hash: Hash)
    requires row.Some? && row.value.status.Locked?
    ensures CallsFrom(row, calls, max, hash).Some? ==> CallsFrom(row, calls, max, hash).value.status.Locked?
  {
    if calls != [] {
      LockIsFinal(row, calls[..|calls| - 1], max, hash);
    }
  }

  /** Once the guesses are used up, no call ever succeeds again. */
  lemma LockedOutForGood(row: Row, calls: seq<Call>, later: seq<Call>, c: Call, max: int, hash: Hash)
    requires row.status.Pending? && row.attempts == 0 && max >= 1
    requires WrongGuesses(row, calls, max, hash) >= max
    ensures !Succeeds(CallsFrom(CallsFrom(Some(row), calls, max, hash), later, max, hash), c, max, hash)
  {
    GuessesAreBounded(row, calls, max, hash);
    var locked := CallsFrom(Some(row), calls, max, hash);
    if locked.Some? {
      LockIsFinal(locked, later, max, hash);
    } else {
      GoneStaysGone(later, max, hash);
    }
  }

  lemma {:induction false} GoneStaysGone(calls: seq<Call>, max: int, hash: Hash)
    ensures CallsFrom(None, calls, max, hash) == None
  {
    if calls != [] {
      GoneStaysGone(calls[..|calls| - 1], max, hash);
    }
  }

  /** A row whose guesses count as used up refuses every approval exactly when the limit is positive: with a
      limit of zero the lockout answer is given before any row is ever marked locked. */
  lemma LockoutCoversApprovalIff(max: int, hash: Hash)
    ensures (forall row: Row, calls: seq<Call>, tid: int, now: int ::
               row.status.Pending? && row.attempts == 0 && CallsFrom(Some(row), calls, max, hash).Some?
               && CallsFrom(Some(row), calls, max, hash).value.attempts >= max
               ==> !ApproveAnswer(CallsFrom(Some(row), calls, max, hash), tid, now).Bound?)
            <==> max >= 1
  {
    if max >= 1 {
      forall row: Row, calls: seq<Call>, tid: int, now: int |
        row.status.Pending? && row.attempts == 0 && CallsFrom(Some(row), calls, max, hash).Some?
        && CallsFrom(Some(row), calls, max, hash).value.attempts >= max
        ensures !ApproveAnswer(CallsFrom(Some(row), calls, max, hash), tid, now).Bound?
      {
        GuessesAreBounded(row, calls, max, hash);
      }
    } else {
      var row := NewRow("secret", "salt", 10, hash);
      assert CallsFrom(Some(row), [], max, hash) == Some(row);
      assert ApproveAnswer(CallsFrom(Some(row), [], max, hash), 1, 0) == Bound(1);
    }
  }

  /** With whole calls atomic, a bound account never changes. */
  lemma {:induction false} BindingIsForGood(row: Option<Row>, calls: seq<Call>, max: int, hash: Hash)
    requires row.Some? && row.value.telegram.Some?
    ensures CallsFrom(row, calls, max, hash).Some? ==>
      CallsFrom(row, calls, max, hash).value.telegram == row.value.telegram
  {
    if calls != [] {
      BindingIsForGood(row, calls[..|calls| - 1], max, hash);
    }
  }

  /** An attempt to consume with the right secret whose session exchange fails. */
  predicate FailedTry(c: Call, secret: string) { c.CallConsume? && c.secret == secret && !c.exchanges }

  /** Failed exchanges are rolled back: however often an approved challenge was tried in vain, the row is the
      same, and an exchange that works at any moment before it expires still consumes it. */
  lemma {:induction false} FailedExchangesRollBack(row: Option<Row>, secret: string, tries: seq<Call>, now: int,
                                                   token: string, max: int, hash: Hash)
    requires VerifySecret(row, secret, max, hash).None? && row.value.status.Approved? && row.value.usedAt.None?
    requires forall c :: c in tries ==> FailedTry(c, secret)
    ensures CallsFrom(row, tries, max, hash) == row
    ensures now < row.value.expiresAt ==>
      ConsumeAnswer(CallsFrom(row, tries, max, hash), secret, now, token, true, max, hash)
        == Consumed(row.value.telegram, token)
  {
    if tries != [] {
      var init, last := tries[..|tries| - 1], tries[|tries| - 1];
      assert last in tries && FailedTry(last, secret);
      assert forall c :: c in init ==> c in tries;
      FailedExchangesRollBack(row, secret, init, now, token, max, hash);
    }
  }
}

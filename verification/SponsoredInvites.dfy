/** Sponsored invites: the table, its calls, and the redemption handlers that race for it. */
module SponsoredInvites {
  import opened Collections

  type Id = string

  datatype Status = Pending | Processing | Succeeded | Failed | Uncertain | Revoked

  datatype Invite = Invite(admin: int, request: string, amount: int, title: string, tokenHash: string,
                           status: Status, expiresAt: int, claimant: Option<int>)
  {
    predicate Final() { IsOutcome(status) || status.Revoked? }
  }

  type Table = map<Id, Invite>

  /** Token hashes are unique, and an admin's request id names one invite. */
  ghost predicate Unique(t: Table) {
    && (forall a, b :: a in t && b in t && a != b ==> t[a].tokenHash != t[b].tokenHash)
    && (forall a, b :: a in t && b in t && a != b ==> t[a].admin != t[b].admin || t[a].request != t[b].request)
  }

  // ---- Calls ----

  /** Python's white space. */
  predicate IsSpace(c: char) {
    '\t' <= c <= '\r' || '\U{1c}' <= c <= ' ' || c == '\U{85}' || c == '\U{a0}' || c == '\U{1680}'
    || '\U{2000}' <= c <= '\U{200a}' || c == '\U{2028}' || c == '\U{2029}' || c == '\U{202f}' || c == '\U{205f}'
    || c == '\U{3000}'
  }

  function Strip(s: string): (r: string)
    ensures r != "" ==> !IsSpace(r[0]) && !IsSpace(r[|r| - 1])
    ensures r == "" <==> forall c :: c in s ==> IsSpace(c)
  {
    if s == "" then s
    else if IsSpace(s[0]) then
      assert s == [s[0]] + s[1..];
      Strip(s[1..])
    else if IsSpace(s[|s| - 1]) then
      assert s == s[..|s| - 1] + [s[|s| - 1]];
      Strip(s[..|s| - 1])
    else s
  }

  const MAX_TTL := 604800

  datatype CreateResult = BadInput | Existing(id: Id) | Conflict | Rejected | Created

  predicate InputOk(admin: int, amount: int, title: string, request: string, ttl: int) {
    admin > 0 && 1 <= amount <= 10000 && 1 <= |title| <= 80 && request != "" && 1 <= ttl <= MAX_TTL
  }

  /** Creating again under the same request returns the first invite, or a conflict if it differs. */
  ghost predicate CreateAnswers(t: Table, id: Id, tokenHash: string, admin: int, amount: int, title: string,
                                request: string, ttl: int, r: CreateResult)
  {
    match r
    case BadInput => !InputOk(admin, amount, title, request, ttl)
    case Existing(e) =>
      InputOk(admin, amount, title, request, ttl) && e in t && t[e].admin == admin && t[e].request == request
      && t[e].amount == amount && t[e].title == title
    case Conflict =>
      InputOk(admin, amount, title, request, ttl)
      && exists e :: e in t && t[e].admin == admin && t[e].request == request
                     && !(t[e].amount == amount && t[e].title == title)
    case Rejected =>
      InputOk(admin, amount, title, request, ttl) && RequestFree(t, admin, request) && !Fresh(t, id, tokenHash)
    case Created =>
      InputOk(admin, amount, title, request, ttl) && RequestFree(t, admin, request) && Fresh(t, id, tokenHash)
  }

  ghost predicate RequestFree(t: Table, admin: int, request: string) {
    forall e :: e in t ==> t[e].admin != admin || t[e].request != request
  }

  ghost predicate Fresh(t: Table, id: Id, tokenHash: string) {
    id !in t && forall e :: e in t ==> t[e].tokenHash != tokenHash
  }

  function NewInvite(tokenHash: string, admin: int, amount: int, title: string, request: string, now: int,
                     ttl: int): Invite
  {
    Invite(admin, request, amount, title, tokenHash, Pending, now + ttl, None)
  }

  datatype ClaimResult =
    | BadToken | BadClaimant | NotFound | Expired | WasRevoked | Repeat(status: Status) | AlreadyClaimed | Claimed

  function ClaimOn(inv: Invite, account: int, now: int): ClaimResult {
    if now >= inv.expiresAt then Expired
    else if inv.status.Revoked? then WasRevoked
    else if inv.claimant == Some(account) then Repeat(inv.status)
    else if !inv.status.Pending? || inv.claimant.Some? then AlreadyClaimed
    else Claimed
  }

  function Claim(t: Table, id: Id, account: int, now: int): Table {
    if id in t && account != 0 && ClaimOn(t[id], account, now).Claimed?
    then t[id := t[id].(status := Processing, claimant := Some(account))]
    else t
  }

  predicate IsOutcome(status: Status) { status.Succeeded? || status.Failed? || status.Uncertain? }

  function Finish(t: Table, id: Id, status: Status): Table {
    if id in t && t[id].status.Processing? && IsOutcome(status)
    then t[id := t[id].(status := status)]
    else t
  }

  predicate Revocable(t: Table, id: Id, admin: int, now: int) {
    id in t && t[id].admin == admin && t[id].status.Pending? && t[id].expiresAt > now
  }

  function Revoke(t: Table, id: Id, admin: int, now: int): Table {
    if Revocable(t, id, admin, now) then t[id := t[id].(status := Revoked)] else t
  }

  // ---- Interleavings ----

  datatype Stage = Won | Called | Done

  /** A redemption handler whose claim was answered "claimed". */
  datatype Handler = Handler(id: Id, days: int, stage: Stage)

  /** The table, the handlers that won a claim, and the provider credits in order. */
  datatype Sys = Sys(table: Table, handlers: seq<Handler>, credits: seq<(Id, int)>)

  /** The store's calls are transactions; between them the handlers call the provider and come back. */
  datatype Event =
    | Creates(id: Id, inv: Invite)
    | Claims(id: Id, account: int, now: int)
    | CallsProvider(k: nat)
    | Finishes(k: nat, status: Status)
    | Revokes(id: Id, admin: int, now: int)

  function Apply(s: Sys, e: Event): Sys {
    match e
    case Creates(id, inv) =>
      if id !in s.table && inv.status.Pending? && inv.claimant.None? && inv.amount >= 1
      then s.(table := s.table[id := inv]) else s
    case Claims(id, account, now) =>
      if id in s.table && account != 0 && ClaimOn(s.table[id], account, now).Claimed?
      then s.(table := Claim(s.table, id, account, now),
              handlers := s.handlers + [Handler(id, s.table[id].amount, Won)])
      else s
    case CallsProvider(k) =>
      if k < |s.handlers| && s.handlers[k].stage.Won?
      then s.(handlers := s.handlers[k := s.handlers[k].(stage := Called)],
              credits := s.credits + [(s.handlers[k].id, s.handlers[k].days)])
      else s
    case Finishes(k, status) =>
      if k < |s.handlers| && s.handlers[k].stage.Called? && IsOutcome(status)
      then s.(table := Finish(s.table, s.handlers[k].id, status),
              handlers := s.handlers[k := s.handlers[k].(stage := Done)])
      else s
    case Revokes(id, admin, now) => s.(table := Revoke(s.table, id, admin, now))
  }

  function After(events: seq<Event>): Sys {
    if events == [] then Sys(map[], [], []) else Apply(After(events[..|events| - 1]), events[|events| - 1])
  }

  function ClaimedDays(hs: seq<Handler>): int {
    if hs == [] then 0 else ClaimedDays(hs[..|hs| - 1]) + hs[|hs| - 1].days
  }

  function CalledDays(hs: seq<Handler>): int {
    if hs == [] then 0
    else CalledDays(hs[..|hs| - 1]) + if hs[|hs| - 1].stage.Won? then 0 else hs[|hs| - 1].days
  }

  function CreditedDays(cs: seq<(Id, int)>): int {
    if cs == [] then 0 else CreditedDays(cs[..|cs| - 1]) + cs[|cs| - 1].1
  }

  predicate RowOk(inv: Invite) {
    && inv.amount >= 1
    && (inv.status.Pending? || inv.status.Revoked? <==> inv.claimant.None?)
  }

  predicate HandlerOk(h: Handler, t: Table) {
    h.id in t && t[h.id].claimant.Some? && h.days == t[h.id].amount
  }

  ghost predicate Credited(s: Sys, id: Id) { exists k :: 0 <= k < |s.credits| && s.credits[k].0 == id }

  ghost predicate Ok(s: Sys) {
    && (forall id :: id in s.table ==> RowOk(s.table[id]))
    && (forall k :: 0 <= k < |s.handlers| ==> HandlerOk(s.handlers[k], s.table))
    && LogsOk(s)
  }

  lemma {:induction false} StageChange(hs: seq<Handler>, k: nat, stage: Stage)
    requires k < |hs| && !stage.Won?
    ensures CalledDays(hs[k := hs[k].(stage := stage)])
         == CalledDays(hs) + if hs[k].stage.Won? then hs[k].days else 0
    ensures ClaimedDays(hs[k := hs[k].(stage := stage)]) == ClaimedDays(hs)
  {
    var hs' := hs[k := hs[k].(stage := stage)];
    var init := hs[..|hs| - 1];
    if k == |hs| - 1 {
      assert hs'[..|hs'| - 1] == init;
    } else {
      StageChange(init, k, stage);
      assert hs'[..|hs'| - 1] == init[k := init[k].(stage := stage)];
    }
  }

  ghost predicate HasHandler(hs: seq<Handler>, id: Id) { exists h :: 0 <= h < |hs| && hs[h].id == id }

  /** What the handlers and the credits alone must satisfy. */
  ghost predicate LogsOk(s: Sys) {
    && (forall i, j :: 0 <= i < j < |s.handlers| ==> s.handlers[i].id != s.handlers[j].id)
    && (forall k :: 0 <= k < |s.handlers| && s.handlers[k].stage.Won? ==> !Credited(s, s.handlers[k].id))
    && (forall k :: 0 <= k < |s.credits| ==> HasHandler(s.handlers, s.credits[k].0))
    && (forall i, j :: 0 <= i < j < |s.credits| ==> s.credits[i].0 != s.credits[j].0)
    && CreditedDays(s.credits) == CalledDays(s.handlers)
  }

  lemma TableChangeKeeps(s: Sys, t: Table)
    requires Ok(s) && s.table.Keys <= t.Keys
    requires forall id :: id in t ==> RowOk(t[id])
    requires forall id :: id in s.table && s.table[id].claimant.Some? ==>
      t[id].claimant.Some? && t[id].amount == s.table[id].amount
    ensures Ok(s.(table := t))
  {
    hide RowOk;
    LogsCarry(s, s.(table := t));
  }

  lemma LogsCarry(s: Sys, s': Sys)
    requires LogsOk(s) && s'.handlers == s.handlers && s'.credits == s.credits
    ensures LogsOk(s')
  {
    forall k | 0 <= k < |s'.handlers| && s'.handlers[k].stage.Won? ensures !Credited(s', s'.handlers[k].id) {
      assert !Credited(s, s.handlers[k].id);
    }
  }

  lemma ClaimLogs(s: Sys, h: Handler, t: Table)
    requires LogsOk(s) && h.stage.Won? && !Credited(s, h.id)
    requires forall k :: 0 <= k < |s.handlers| ==> s.handlers[k].id != h.id
    ensures LogsOk(Sys(t, s.handlers + [h], s.credits))
  {
    var s' := Sys(t, s.handlers + [h], s.credits);
    assert s'.handlers[..|s.handlers|] == s.handlers;
    forall k | 0 <= k < |s'.handlers| && s'.handlers[k].stage.Won? ensures !Credited(s', s'.handlers[k].id) {
      assert k < |s.handlers| ==> s'.handlers[k] == s.handlers[k];
    }
    forall k | 0 <= k < |s'.credits| ensures HasHandler(s'.handlers, s'.credits[k].0) {
      var j :| 0 <= j < |s.handlers| && s.handlers[j].id == s.credits[k].0;
      assert s'.handlers[j].id == s'.credits[k].0;
    }
  }

  lemma ClaimsKeeps(s: Sys, id: Id, account: int, now: int)
    requires Ok(s) && id in s.table && account != 0 && ClaimOn(s.table[id], account, now).Claimed?
    ensures Ok(Apply(s, Claims(id, account, now)))
  {
    NoHandlerYet(s, id);
    TableChangeKeeps(s, Claim(s.table, id, account, now));
    ClaimLogs(s.(table := Claim(s.table, id, account, now)), Handler(id, s.table[id].amount, Won),
              Claim(s.table, id, account, now));
    hide LogsOk;
  }

  lemma StageLogs(s: Sys, k: nat, stage: Stage, credits: seq<(Id, int)>)
    requires LogsOk(s) && k < |s.handlers| && !stage.Won?
    requires credits == if s.handlers[k].stage.Won? then s.credits + [(s.handlers[k].id, s.handlers[k].days)]
                        else s.credits
    ensures LogsOk(Sys(s.table, s.handlers[k := s.handlers[k].(stage := stage)], credits))
  {
    hide CreditedDays, CalledDays, HasHandler, Credited;
    var s' := Sys(s.table, s.handlers[k := s.handlers[k].(stage := stage)], credits);
    StageChange(s.handlers, k, stage);
    CreditAppend(s.credits, (s.handlers[k].id, s.handlers[k].days));
    StageCredits(s, k, credits);
    StageWon(s, k, stage, credits);
    StageHandled(s, k, stage, credits);
    assert forall i, j :: 0 <= i < j < |s.handlers| ==>
      s'.handlers[i].id == s.handlers[i].id && s'.handlers[j].id == s.handlers[j].id;
  }

  lemma StageWon(s: Sys, k: nat, stage: Stage, credits: seq<(Id, int)>)
    requires LogsOk(s) && k < |s.handlers| && !stage.Won?
    requires credits == if s.handlers[k].stage.Won? then s.credits + [(s.handlers[k].id, s.handlers[k].days)]
                        else s.credits
    ensures var s' := Sys(s.table, s.handlers[k := s.handlers[k].(stage := stage)], credits);
      forall j :: 0 <= j < |s'.handlers| && s'.handlers[j].stage.Won? ==> !Credited(s', s'.handlers[j].id)
  {
    hide HasHandler, CreditedDays, CalledDays;
    var s' := Sys(s.table, s.handlers[k := s.handlers[k].(stage := stage)], credits);
    forall j, c | 0 <= j < |s'.handlers| && s'.handlers[j].stage.Won? && 0 <= c < |credits|
      ensures credits[c].0 != s'.handlers[j].id
    {
      assert j != k && !Credited(s, s.handlers[j].id);
      assert c < |s.credits| ==> credits[c] == s.credits[c];
    }
  }

  lemma StageHandled(s: Sys, k: nat, stage: Stage, credits: seq<(Id, int)>)
    requires LogsOk(s) && k < |s.handlers|
    requires credits == if s.handlers[k].stage.Won? then s.credits + [(s.handlers[k].id, s.handlers[k].days)]
                        else s.credits
    ensures forall c :: 0 <= c < |credits| ==> HasHandler(s.handlers[k := s.handlers[k].(stage := stage)], credits[c].0)
  {
    hide CreditedDays, CalledDays, Credited;
    var hs := s.handlers[k := s.handlers[k].(stage := stage)];
    forall c | 0 <= c < |credits| ensures HasHandler(hs, credits[c].0) {
      if c < |s.credits| {
        assert HasHandler(s.handlers, s.credits[c].0);
        var j :| 0 <= j < |s.handlers| && s.handlers[j].id == s.credits[c].0;
        assert hs[j].id == credits[c].0;
      } else {
        assert hs[k].id == credits[c].0;
      }
    }
  }

  lemma CreditAppend(cs: seq<(Id, int)>, c: (Id, int))
    ensures CreditedDays(cs + [c]) == CreditedDays(cs) + c.1
  {
    assert (cs + [c])[..|cs|] == cs;
  }

  lemma StageCredits(s: Sys, k: nat, credits: seq<(Id, int)>)
    requires LogsOk(s) && k < |s.handlers|
    requires credits == if s.handlers[k].stage.Won? then s.credits + [(s.handlers[k].id, s.handlers[k].days)]
                        else s.credits
    ensures forall i, j :: 0 <= i < j < |credits| ==> credits[i].0 != credits[j].0
  {
    hide CreditedDays, CalledDays, HasHandler;
    forall i, j | 0 <= i < j < |credits| ensures credits[i].0 != credits[j].0 {
      if j == |s.credits| {
        assert !Credited(s, s.handlers[k].id);
        assert credits[i] == s.credits[i];
      }
    }
  }

  lemma StageKeeps(s: Sys, k: nat, stage: Stage, credits: seq<(Id, int)>)
    requires Ok(s) && k < |s.handlers| && !stage.Won?
    requires credits == if s.handlers[k].stage.Won? then s.credits + [(s.handlers[k].id, s.handlers[k].days)]
                        else s.credits
    ensures Ok(Sys(s.table, s.handlers[k := s.handlers[k].(stage := stage)], credits))
  {
    hide LogsOk, RowOk;
    StageLogs(s, k, stage, credits);
  }

  lemma EventKeeps(s: Sys, e: Event)
    requires Ok(s)
    ensures Ok(Apply(s, e))
  {
    hide LogsOk;
    match e
    case Creates(id, inv) => TableChangeKeeps(s, Apply(s, e).table);
    case Revokes(id, admin, now) => TableChangeKeeps(s, Revoke(s.table, id, admin, now));
    case Claims(id, account, now) =>
      if Apply(s, e) != s {
        ClaimsKeeps(s, id, account, now);
      }
    case CallsProvider(k) =>
      if k < |s.handlers| && s.handlers[k].stage.Won? {
        StageKeeps(s, k, Called, Apply(s, e).credits);
      }
    case Finishes(k, status) =>
      if k < |s.handlers| && s.handlers[k].stage.Called? && IsOutcome(status) {
        StageKeeps(s, k, Done, s.credits);
        TableChangeKeeps(s.(handlers := s.handlers[k := s.handlers[k].(stage := Done)]),
                         Finish(s.table, s.handlers[k].id, status));
      }
  }

  /** Nobody won an unclaimed invite, so nobody was credited for it. */
  lemma NoHandlerYet(s: Sys, id: Id)
    requires Ok(s) && id in s.table && s.table[id].claimant.None?
    ensures forall k :: 0 <= k < |s.handlers| ==> s.handlers[k].id != id
    ensures !Credited(s, id)
  {
    forall k | 0 <= k < |s.handlers| ensures s.handlers[k].id != id {
      assert HandlerOk(s.handlers[k], s.table);
    }
  }

  // ---- Main results ----

  lemma {:induction false} RunsAreOk(events: seq<Event>)
    ensures Ok(After(events))
  {
    if events != [] {
      RunsAreOk(events[..|events| - 1]);
      EventKeeps(After(events[..|events| - 1]), events[|events| - 1]);
    }
  }

  lemma {:induction false} CalledAtMostClaimed(hs: seq<Handler>)
    requires forall k :: 0 <= k < |hs| ==> hs[k].days >= 0
    ensures CalledDays(hs) <= ClaimedDays(hs)
  {
    if hs != [] {
      CalledAtMostClaimed(hs[..|hs| - 1]);
    }
  }

  /** Over any interleaving each invite is won by at most one claim and credited at most once, no invite is
      both claimed and revoked, and the credited days never exceed the claimed ones. */
  lemma RedeemedAtMostOnce(events: seq<Event>)
    ensures var s := After(events);
      && (forall i, j :: 0 <= i < j < |s.handlers| ==> s.handlers[i].id != s.handlers[j].id)
      && (forall i, j :: 0 <= i < j < |s.credits| ==> s.credits[i].0 != s.credits[j].0)
      && (forall id :: id in s.table ==> !(s.table[id].claimant.Some? && s.table[id].status.Revoked?))
      && CreditedDays(s.credits) <= ClaimedDays(s.handlers)
  {
    RunsAreOk(events);
    var s := After(events);
    forall k | 0 <= k < |s.handlers| ensures s.handlers[k].days >= 0 {
      assert HandlerOk(s.handlers[k], s.table);
    }
    CalledAtMostClaimed(s.handlers);
  }

  /** No event changes a claimant or the amount, and none moves an invite out of a final state. */
  lemma {:induction false} FinalStaysFinal(events: seq<Event>, n: nat, id: Id)
    requires n <= |events| && id in After(events[..n]).table
    ensures id in After(events).table
    ensures var before, now := After(events[..n]).table[id], After(events).table[id];
      && (before.claimant.Some? ==> now.claimant == before.claimant)
      && now.amount == before.amount
      && (before.Final() ==> now.status == before.status)
    decreases |events|
  {
    if n == |events| {
      assert events[..n] == events;
    } else {
      var init := events[..|events| - 1];
      assert init[..n] == events[..n];
      FinalStaysFinal(init, n, id);
      RunsAreOk(init);
      EventKeepsFinal(After(init), events[|events| - 1], id);
    }
  }

  lemma EventKeepsFinal(s: Sys, e: Event, id: Id)
    requires Ok(s) && id in s.table
    ensures id in Apply(s, e).table
    ensures var before, now := s.table[id], Apply(s, e).table[id];
      && (before.claimant.Some? ==> now.claimant == before.claimant)
      && now.amount == before.amount
      && (before.Final() ==> now.status == before.status)
  {
    assert RowOk(s.table[id]);
  }
}

/** What a redemption settles for good, whatever happens to the invites around it. */
module RedemptionRuns {
  import opened Collections
  import opened SponsoredInvites

  /** The days credited for `id`, in order. */
  function CreditsOf(cs: seq<(Id, int)>, id: Id): seq<int> {
    if cs == [] then []
    else
      var init, c := cs[..|cs| - 1], cs[|cs| - 1];
      if c.0 == id then CreditsOf(init, id) + [c.1] else CreditsOf(init, id)
  }

  lemma CreditsAppend(cs: seq<(Id, int)>, c: (Id, int), id: Id)
    ensures CreditsOf(cs + [c], id) == if c.0 == id then CreditsOf(cs, id) + [c.1] else CreditsOf(cs, id)
  {
    assert (cs + [c])[..|cs|] == cs;
  }

  lemma {:induction false} NotCredited(s: Sys, id: Id, n: nat)
    requires n <= |s.credits| && !Credited(s, id)
    ensures CreditsOf(s.credits[..n], id) == []
  {
    if n > 0 {
      NotCredited(s, id, n - 1);
      assert s.credits[..n] == s.credits[..n - 1] + [s.credits[n - 1]];
      CreditsAppend(s.credits[..n - 1], s.credits[n - 1], id);
    }
  }

  // ---- Handlers still under way ----

  /** A handler's invite is being processed until the handler is done, and was credited once it called. */
  ghost predicate UnderWay(s: Sys, h: Handler) {
    && h.id in s.table
    && (!h.stage.Done? ==> s.table[h.id].status.Processing?)
    && (!h.stage.Won? ==> CreditsOf(s.credits, h.id) == [h.days])
  }

  ghost predicate AllUnderWay(s: Sys) { forall k :: 0 <= k < |s.handlers| ==> UnderWay(s, s.handlers[k]) }

  /** A table change that leaves the processed invites alone leaves the handlers alone. */
  lemma TableKeepsUnderWay(s: Sys, t: Table)
    requires AllUnderWay(s) && s.table.Keys <= t.Keys
    requires forall id :: id in s.table && s.table[id].status.Processing? ==> t[id] == s.table[id]
    ensures AllUnderWay(s.(table := t))
  {
    hide CreditsOf;
    forall k | 0 <= k < |s.handlers| ensures UnderWay(s.(table := t), s.handlers[k]) {
      assert UnderWay(s, s.handlers[k]);
    }
  }

  lemma ClaimUnderWay(s: Sys, id: Id, account: int, now: int)
    requires Ok(s) && AllUnderWay(s)
    requires id in s.table && account != 0 && ClaimOn(s.table[id], account, now).Claimed?
    ensures AllUnderWay(Apply(s, Claims(id, account, now)))
  {
    hide CreditsOf, Ok;
    var s' := Apply(s, Claims(id, account, now));
    forall k | 0 <= k < |s'.handlers| ensures UnderWay(s', s'.handlers[k]) {
      if k < |s.handlers| {
        assert UnderWay(s, s.handlers[k]);
      }
    }
  }

  lemma CallUnderWay(s: Sys, k: nat)
    requires Ok(s) && AllUnderWay(s) && k < |s.handlers| && s.handlers[k].stage.Won?
    ensures AllUnderWay(Apply(s, CallsProvider(k)))
  {
    hide CreditsOf, CreditedDays, CalledDays, HandlerOk, RowOk;
    var s' := Apply(s, CallsProvider(k));
    var id := s.handlers[k].id;
    NotCredited(s, id, |s.credits|);
    assert s.credits[..|s.credits|] == s.credits;
    forall j | 0 <= j < |s'.handlers| ensures UnderWay(s', s'.handlers[j]) {
      assert UnderWay(s, s.handlers[j]);
      CreditsAppend(s.credits, (id, s.handlers[k].days), s.handlers[j].id);
    }
  }

  lemma FinishUnderWay(s: Sys, k: nat, status: Status)
    requires Ok(s) && AllUnderWay(s) && k < |s.handlers| && s.handlers[k].stage.Called? && IsOutcome(status)
    ensures AllUnderWay(Apply(s, Finishes(k, status)))
  {
    hide CreditsOf, CreditedDays, CalledDays, HandlerOk, RowOk, Credited, HasHandler;
    var s' := Apply(s, Finishes(k, status));
    forall j | 0 <= j < |s'.handlers| ensures UnderWay(s', s'.handlers[j]) {
      assert UnderWay(s, s.handlers[j]);
    }
  }

  lemma EventUnderWay(s: Sys, e: Event)
    requires Ok(s) && AllUnderWay(s)
    ensures AllUnderWay(Apply(s, e))
  {
    hide AllUnderWay, Ok;
    if Apply(s, e) != s {
      match e
      case Creates(id, inv) => TableKeepsUnderWay(s, Apply(s, e).table);
      case Revokes(id, admin, now) => TableKeepsUnderWay(s, Revoke(s.table, id, admin, now));
      case Claims(id, account, now) => ClaimUnderWay(s, id, account, now);
      case CallsProvider(k) => CallUnderWay(s, k);
      case Finishes(k, status) => FinishUnderWay(s, k, status);
    }
  }

  lemma {:induction false} RunUnderWay(events: seq<Event>)
    ensures AllUnderWay(After(events))
  {
    if events != [] {
      RunUnderWay(events[..|events| - 1]);
      RunsAreOk(events[..|events| - 1]);
      hide AllUnderWay, Ok, Apply;
      EventUnderWay(After(events[..|events| - 1]), events[|events| - 1]);
    }
  }

  // ---- Settled redemptions ----

  /** Handler `k` is done with invite `id`: the row is final, and the provider was called for it exactly once. */
  ghost predicate Settled(s: Sys, k: nat, id: Id, row: Invite) {
    && k < |s.handlers| && s.handlers[k] == Handler(id, row.amount, Done)
    && id in s.table && s.table[id] == row
    && CreditsOf(s.credits, id) == [row.amount]
  }

  lemma EventKeepsSettled(s: Sys, e: Event, k: nat, id: Id, row: Invite)
    requires Ok(s) && Settled(s, k, id, row) && IsOutcome(row.status)
    ensures Settled(Apply(s, e), k, id, row)
  {
    hide CreditsOf, CreditedDays, CalledDays, HandlerOk, RowOk, Credited, HasHandler;
    match e
    case CallsProvider(j) =>
      if j < |s.handlers| && s.handlers[j].stage.Won? {
        CreditsAppend(s.credits, (s.handlers[j].id, s.handlers[j].days), id);
      }
    case _ =>
  }

  lemma AfterAppend(events: seq<Event>, e: Event)
    ensures After(events + [e]) == Apply(After(events), e)
  {
    assert (events + [e])[..|events|] == events;
  }

  lemma {:induction false} StaysSettled(events: seq<Event>, later: seq<Event>, k: nat, id: Id, row: Invite)
    requires Settled(After(events), k, id, row) && IsOutcome(row.status)
    ensures Settled(After(events + later), k, id, row)
  {
    hide Settled, Apply;
    if later == [] {
      assert events + later == events;
    } else {
      var init, e := later[..|later| - 1], later[|later| - 1];
      StaysSettled(events, init, k, id, row);
      RunsAreOk(events + init);
      EventKeepsSettled(After(events + init), e, k, id, row);
      AfterAppend(events + init, e);
      assert events + later == events + init + [e];
    }
  }

  lemma FinishSettles(s: Sys, k: nat, status: Status)
    requires Ok(s) && AllUnderWay(s) && k < |s.handlers| && s.handlers[k].stage.Called? && IsOutcome(status)
    ensures var id := s.handlers[k].id;
      id in s.table && s.table[id].claimant.Some?
      && Settled(Apply(s, Finishes(k, status)), k, id, s.table[id].(status := status))
  {
    hide CreditsOf, LogsOk, RowOk;
    assert UnderWay(s, s.handlers[k]) && HandlerOk(s.handlers[k], s.table);
  }

  /** What any claim on a settled invite is answered before it expires. */
  function LaterAnswer(row: Invite, account: int): ClaimResult {
    if Some(account) == row.claimant then Repeat(row.status) else AlreadyClaimed
  }

  /** Once a handler that called the provider has recorded an outcome, then whatever else happens: no other
      handler ever holds its invite, the provider was called for it exactly once and for its amount, and every
      further claim is turned away, the claimant with the recorded outcome and anyone else as too late. */
  lemma RedemptionIsFinal(events: seq<Event>, k: nat, status: Status, later: seq<Event>)
    requires k < |After(events).handlers| && After(events).handlers[k].stage.Called? && IsOutcome(status)
    ensures var id := After(events).handlers[k].id; var s := After(events + [Finishes(k, status)] + later);
      id in After(events).table &&
      var row := After(events).table[id].(status := status);
      && k < |s.handlers| && s.handlers[k] == Handler(id, row.amount, Done)
      && (forall j :: 0 <= j < |s.handlers| && s.handlers[j].id == id ==> j == k)
      && CreditsOf(s.credits, id) == [row.amount]
      && id in s.table && s.table[id] == row
      && row.claimant.Some?
      && forall account, now :: ClaimOn(s.table[id], account, now) ==
           if now >= row.expiresAt then Expired else LaterAnswer(row, account)
  {
    RunsAreOk(events);
    RunUnderWay(events);
    FinishSettles(After(events), k, status);
    AfterAppend(events, Finishes(k, status));
    var id := After(events).handlers[k].id;
    StaysSettled(events + [Finishes(k, status)], later, k, id, After(events).table[id].(status := status));
    RunsAreOk(events + [Finishes(k, status)] + later);
    hide After, Apply, CreditsOf, RowOk, HandlerOk, Credited, HasHandler, CreditedDays, CalledDays;
  }

  // ---- Where an invite's state comes from ----

  /** A claim is won exactly before expiry on a pending invite that nobody claimed; until then a refusal tells revoked,
      repeated and taken invites apart. */
  lemma ClaimInFields(inv: Invite, account: int, now: int)
    ensures var r := ClaimOn(inv, account, now);
      && (r.Expired? <==> inv.expiresAt <= now)
      && (r.WasRevoked? <==> now < inv.expiresAt && inv.status == Revoked)
      && (r.Repeat? <==> now < inv.expiresAt && inv.status != Revoked && inv.claimant == Some(account))
      && (r.Repeat? ==> r.status == inv.status)
      && (r.Claimed? <==> now < inv.expiresAt && inv.status == Pending && inv.claimant == None)
      && !r.BadToken? && !r.BadClaimant? && !r.NotFound?
  {
  }

  predicate CreatedBy(e: Event, id: Id, inv: Invite) {
    e.Creates? && e.id == id && e.inv == inv.(status := Pending, claimant := None)
  }

  predicate ClaimedBy(e: Event, id: Id, inv: Invite, account: int) {
    e.Claims? && e.id == id && e.account == account && account != 0 && e.now < inv.expiresAt
  }

  predicate RevokedBy(e: Event, id: Id, inv: Invite) {
    e.Revokes? && e.id == id && e.admin == inv.admin && e.now < inv.expiresAt
  }

  /** The invite is what an event created; its claimant claimed it in time, its own admin revoked it in time, and its
      outcome was recorded by some handler. */
  ghost predicate Traced(events: seq<Event>, id: Id, inv: Invite) {
    && (exists j :: 0 <= j < |events| && CreatedBy(events[j], id, inv))
    && (inv.claimant.Some? ==> exists j :: 0 <= j < |events| && ClaimedBy(events[j], id, inv, inv.claimant.value))
    && (inv.status == Revoked ==> exists j :: 0 <= j < |events| && RevokedBy(events[j], id, inv))
    && (IsOutcome(inv.status) ==>
          exists j :: 0 <= j < |events| && events[j].Finishes? && events[j].status == inv.status)
  }

  lemma TracedStays(events: seq<Event>, e: Event, id: Id, inv: Invite)
    requires Traced(events, id, inv)
    ensures Traced(events + [e], id, inv)
  {
    var j :| 0 <= j < |events| && CreatedBy(events[j], id, inv);
    assert (events + [e])[j] == events[j];
    if inv.claimant.Some? {
      var c :| 0 <= c < |events| && ClaimedBy(events[c], id, inv, inv.claimant.value);
      assert (events + [e])[c] == events[c];
    }
    if inv.status == Revoked {
      var r :| 0 <= r < |events| && RevokedBy(events[r], id, inv);
      assert (events + [e])[r] == events[r];
    }
    if IsOutcome(inv.status) {
      var f :| 0 <= f < |events| && events[f].Finishes? && events[f].status == inv.status;
      assert (events + [e])[f] == events[f];
    }
  }

  /** How one event may change an invite. */
  lemma InviteChanges(s: Sys, e: Event, id: Id)
    requires id in Apply(s, e).table
    ensures var inv := Apply(s, e).table[id];
      if id !in s.table then CreatedBy(e, id, inv) && inv.claimant == None && inv.status == Pending
      else
        || inv == s.table[id]
        || (e.Claims? && ClaimedBy(e, id, inv, e.account)
            && inv == s.table[id].(status := Processing, claimant := Some(e.account)))
        || (RevokedBy(e, id, inv) && inv == s.table[id].(status := Revoked))
        || (e.Finishes? && IsOutcome(e.status) && inv == s.table[id].(status := e.status))
  {
  }

  lemma ChangeTraced(events: seq<Event>, e: Event, id: Id, before: Invite, inv: Invite)
    requires Traced(events, id, before)
    requires
      || inv == before
      || (e.Claims? && ClaimedBy(e, id, inv, e.account)
          && inv == before.(status := Processing, claimant := Some(e.account)))
      || (RevokedBy(e, id, inv) && inv == before.(status := Revoked))
      || (e.Finishes? && IsOutcome(e.status) && inv == before.(status := e.status))
    ensures Traced(events + [e], id, inv)
  {
    TracedStays(events, e, id, before);
    var all := events + [e];
    assert all[|events|] == e;
    var j :| 0 <= j < |all| && CreatedBy(all[j], id, before);
    assert CreatedBy(all[j], id, inv);
    if inv.claimant.Some? && inv.claimant == before.claimant {
      var c :| 0 <= c < |all| && ClaimedBy(all[c], id, before, before.claimant.value);
      assert ClaimedBy(all[c], id, inv, inv.claimant.value);
    }
  }

  /** In every interleaving each invite is what some event created, claimed by its claimant in time, revoked by its own
      admin in time, or finished by a handler with the status it has. */
  lemma {:induction false} InvitesAreTraced(events: seq<Event>, id: Id)
    requires id in After(events).table
    ensures Traced(events, id, After(events).table[id])
  {
    var init, e := events[..|events| - 1], events[|events| - 1];
    assert events == init + [e];
    InviteChanges(After(init), e, id);
    hide Apply, Traced;
    if id in After(init).table {
      InvitesAreTraced(init, id);
      ChangeTraced(init, e, id, After(init).table[id], After(events).table[id]);
    } else {
      JustCreated(init, e, id, After(events).table[id]);
    }
  }

  lemma JustCreated(events: seq<Event>, e: Event, id: Id, inv: Invite)
    requires CreatedBy(e, id, inv) && inv.claimant == None && inv.status == Pending
    ensures Traced(events + [e], id, inv)
  {
    assert (events + [e])[|events|] == e;
  }
}

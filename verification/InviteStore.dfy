/** The invite store's calls and the redemption handler, step by step over the table. */
module InviteStore {
  import opened Collections
  import opened SponsoredInvites

  /** How the provider call of a redemption ends. */
  datatype Reply = Updated | NotADict | NetworkError | OtherError

  datatype Redemption = Redeemed(days: int) | ProviderFailed(status: Status) | Turned(reason: ClaimResult)

  class SponsoredInviteStore {
    var invites: Table
    const hash: string -> string

    ghost predicate Valid()
      reads this
    {
      Unique(invites)
    }

    constructor (hash: string -> string)
      ensures Valid() && invites == map[] && this.hash == hash
    {
      invites := map[];
      this.hash := hash;
    }

    /** Create an invite, or find the one this request made before. `id` and `token` are drawn at random. */
    method Create(id: Id, token: string, admin: int, amount: int, caption: string, requestId: string, now: int,
                  ttl: int)
      returns (r: CreateResult)
      requires Valid()
      modifies this
      ensures Valid()
      ensures CreateAnswers(old(invites), id, hash(token), admin, amount, Strip(caption), Strip(requestId), ttl, r)
      ensures r.BadInput? <==> !(admin > 0 && 1 <= amount <= 10000 && 1 <= |Strip(caption)| <= 80
                                 && Strip(requestId) != "" && 1 <= ttl <= 7 * 86400)
      ensures invites ==
        if r.Created?
        then old(invites)[id := Invite(admin, Strip(requestId), amount, Strip(caption), hash(token), Pending, now + ttl,
                                       None)]
        else old(invites)
    {
      var title, request, tokenHash := Strip(caption), Strip(requestId), hash(token);
      if !InputOk(admin, amount, title, request, ttl) {
        return BadInput;
      }
      if e :| e in invites && invites[e].admin == admin && invites[e].request == request {
        return if invites[e].amount == amount && invites[e].title == title then Existing(e) else Conflict;
      }
      if id in invites || exists e :: e in invites && invites[e].tokenHash == tokenHash {
        return Rejected;
      }
      invites := invites[id := NewInvite(tokenHash, admin, amount, title, request, now, ttl)];
      return Created;
    }

    /** Claim the invite behind a token. */
    method ClaimToken(token: string, account: int, now: int) returns (r: ClaimResult, ghost id: Id)
      requires Valid()
      modifies this
      ensures Valid()
      ensures if Strip(token) == "" then r.BadToken?
              else ClaimAnswers(old(invites), hash(Strip(token)), account, now, r)
      ensures invites == if r.Claimed? then Claim(old(invites), id, account, now) else old(invites)
      ensures r.Claimed? ==>
        id in old(invites) && old(invites)[id].tokenHash == hash(Strip(token))
        && account != 0 && ClaimOn(old(invites)[id], account, now).Claimed?
    {
      id := "";
      if Strip(token) == "" {
        return BadToken, id;
      }
      var tokenHash := hash(Strip(token));
      if account == 0 {
        return BadClaimant, id;
      }
      if e :| e in invites && invites[e].tokenHash == tokenHash {
        id := e;
        var inv := invites[e];
        if now >= inv.expiresAt {
          return Expired, id;
        }
        if inv.status.Revoked? {
          return WasRevoked, id;
        }
        if inv.claimant == Some(account) {
          return Repeat(inv.status), id;
        }
        if !inv.status.Pending? || inv.claimant.Some? {
          return AlreadyClaimed, id;
        }
        invites := invites[e := inv.(status := Processing, claimant := Some(account))];
        return Claimed, id;
      }
      return NotFound, id;
    }

    method FinishInvite(id: Id, status: Status) returns (moved: bool)
      requires Valid() && IsOutcome(status)
      modifies this
      ensures Valid() && invites == Finish(old(invites), id, status)
      ensures moved <==> id in old(invites) && old(invites)[id].status == Processing
      ensures invites == if moved then old(invites)[id := old(invites)[id].(status := status)] else old(invites)
    {
      moved := id in invites && invites[id].status.Processing?;
      if moved {
        invites := invites[id := invites[id].(status := status)];
      }
    }

    method RevokeInvite(id: Id, admin: int, now: int) returns (revoked: bool)
      requires Valid()
      modifies this
      ensures Valid() && invites == Revoke(old(invites), id, admin, now)
      ensures revoked <==>
        id in old(invites) && old(invites)[id].admin == admin && old(invites)[id].status == Pending
        && now < old(invites)[id].expiresAt
      ensures invites == if revoked then old(invites)[id := old(invites)[id].(status := Revoked)] else old(invites)
    {
      revoked :=
        id in invites && invites[id].admin == admin && invites[id].status.Pending? && invites[id].expiresAt > now;
      if revoked {
        invites := invites[id := invites[id].(status := Revoked)];
      }
    }

    /** The redemption handler without interference: claim, call the provider once if the claim was won, and
        record how that went. `calls` counts the provider calls. */
    method Redeem(token: string, account: int, now: int, reply: Reply) returns (r: Redemption, calls: nat)
      requires Valid()
      modifies this
      ensures Valid()
      ensures calls == if r.Turned? then 0 else 1
      ensures r.Turned? ==> invites == old(invites) && !r.reason.Claimed?
      ensures r.Turned? ==>
        if Strip(token) == "" then r.reason.BadToken?
        else ClaimAnswers(old(invites), hash(Strip(token)), account, now, r.reason)
      ensures !r.Turned? ==>
        (exists id :: id in old(invites) && old(invites)[id].tokenHash == hash(Strip(token))
          && ClaimOn(old(invites)[id], account, now).Claimed?
          && invites == old(invites)[id := old(invites)[id].(status := Outcome(reply), claimant := Some(account))]
          && r == (if reply.Updated? then Redeemed(old(invites)[id].amount) else ProviderFailed(Outcome(reply))))
      ensures !r.Turned? && reply == Updated ==> r.Redeemed?
      ensures !r.Turned? && reply == NotADict ==> r == ProviderFailed(Failed)
      ensures !r.Turned? && (reply == NetworkError || reply == OtherError) ==> r == ProviderFailed(Uncertain)
    {
      hide ClaimAnswers, ClaimOn, Strip, Unique;
      calls := 0;
      var claim;
      ghost var id;
      claim, id := ClaimToken(token, account, now);
      if !claim.Claimed? {
        return Turned(claim), calls;
      }
      assert id in invites && invites[id].tokenHash == hash(Strip(token));
      var won :| won in invites && invites[won].tokenHash == hash(Strip(token));
      OneInvite(invites, won, id);
      var days := invites[won].amount;
      calls := 1;
      var status := match reply {
        case Updated => Succeeded
        case NotADict => Failed
        case NetworkError => Uncertain
        case OtherError => Uncertain
      };
      var moved := FinishInvite(won, status);
      if reply.Updated? {
        return Redeemed(days), calls;
      }
      return ProviderFailed(status), calls;
    }
  }

  /** What a claim with this token is answered: at most one invite has it. */
  ghost predicate ClaimAnswers(t: Table, tokenHash: string, account: int, now: int, r: ClaimResult) {
    if account == 0 then r.BadClaimant?
    else if forall e :: e in t ==> t[e].tokenHash != tokenHash then r.NotFound?
    else exists e :: e in t && t[e].tokenHash == tokenHash && r == ClaimOn(t[e], account, now)
  }

  lemma OneInvite(t: Table, a: Id, b: Id)
    requires Unique(t) && a in t && b in t && t[a].tokenHash == t[b].tokenHash
    ensures a == b
  {
  }

  function Outcome(reply: Reply): Status {
    if reply.Updated? then Succeeded else if reply.NotADict? then Failed else Uncertain
  }
}

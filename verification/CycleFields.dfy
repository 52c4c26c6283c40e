/** One health cycle on the fields of the configuration and of the probe results alone. */
module CycleFields {
  import opened Collections
  import opened PoolHealth

  /** A configured proxy on a host that is not forbidden. */
  predicate Allowed(cfg: Config, env: Env, t: Tag) {
    t != "" && t in cfg.outbounds && cfg.outbounds[t].kind == Proxy && !env.forbidden(cfg.outbounds[t].host)
  }

  function AllowedTest(cfg: Config, env: Env): Tag -> bool { (t: Tag) => Allowed(cfg, env, t) }

  lemma AllowedIsValid(cfg: Config, env: Env)
    ensures forall t :: t in ValidTags(cfg, env.forbidden) <==> Allowed(cfg, env, t)
  {
  }

  lemma ProvedIsVerified(probes: Probes, t: Tag)
    ensures VerifiedAlive(ResultOf(probes, t)) <==> ProvedAlive(probes, t)
  {
  }

  // ---- Candidate lists ----

  lemma {:induction false} RegisteredFrom(cands: map<Tag, seq<Tag>>, groups: seq<Group>, g: Tag, t: Tag)
    requires g in RegisterAll(cands, groups) && t in RegisterAll(cands, groups)[g]
    ensures (g in cands && t in cands[g])
            || exists i :: 0 <= i < |groups| && groups[i].tag == g && t in groups[i].outbounds
  {
    if groups != [] {
      var init, last := groups[..|groups| - 1], groups[|groups| - 1];
      var before := RegisterAll(cands, init);
      if last.tag in before {
        MergeMembers(before[last.tag], last.outbounds);
      }
      if last.tag == g && t in last.outbounds {
        assert groups[|groups| - 1].tag == g;
      } else {
        RegisteredFrom(cands, init, g, t);
        if !(g in cands && t in cands[g]) {
          var i :| 0 <= i < |init| && init[i].tag == g && t in init[i].outbounds;
          assert groups[i] == init[i];
        }
      }
    }
  }

  /** After a cycle a named group's candidates are the allowed tags among its saved candidates and its members. */
  lemma CandidatesByFields(cfg: Config, st: State, env: Env, g: Tag, t: Tag)
    requires g != ""
    ensures var cands := ListOf(NextState(cfg, st, env).candidates, g);
      t in cands <==>
        Allowed(cfg, env, t)
        && (t in ListOf(st.candidates, g)
            || exists i :: 0 <= i < |cfg.groups| && cfg.groups[i].tag == g && t in cfg.groups[i].outbounds)
  {
    hide ValidTags, Allowed;
    AllowedIsValid(cfg, env);
    RegisterAdds(st.candidates, cfg.groups);
    var all := RegisterAll(st.candidates, cfg.groups);
    if g in all {
      KeepMembers(all[g], ValidTags(cfg, env.forbidden));
      if t in all[g] {
        RegisteredFrom(st.candidates, cfg.groups, g, t);
      }
    }
  }

  // ---- Failure counts ----

  /** A tag in some candidate list counts one failure more, up to 100, when it failed other than by the checker's own
      infrastructure, none when it answered as an authenticated proxy, and as many as before in every other case. */
  lemma CountByFields(cfg: Config, st: State, env: Env, g: Tag, t: Tag)
    requires t in ListOf(NextState(cfg, st, env).candidates, g)
    ensures var before, after := FailsOf(st.failCounts, t), FailsOf(NextState(cfg, st, env).failCounts, t);
      if t !in env.probes then after == before
      else
        match env.probes[t].alive
        case Unsure => after == before
        case Yes =>
          after == if env.probes[t].caveat == NoCaveat || env.probes[t].caveat == OtherCaveat then 0 else before
        case No => after == if env.probes[t].caveat == InfraCaveat then before else Min(100, before + 1)
  {
    hide NextState;
    assert t in Referenced(NextState(cfg, st, env).candidates);
    CountAfter(cfg, st, env, t);
  }

  // ---- Members ----

  /** A candidate keeps its place below the threshold, or takes one when it answered as an authenticated proxy. */
  predicate Belongs(g: Group, counts: map<Tag, nat>, env: Env, t: Tag) {
    (if t in counts then counts[t] else 0) < env.threshold && (t in g.outbounds || ProvedAlive(env.probes, t))
  }

  function BelongsTest(g: Group, counts: map<Tag, nat>, env: Env): Tag -> bool {
    (t: Tag) => Belongs(g, counts, env, t)
  }

  function Failures(counts: map<Tag, nat>, t: Tag): nat { if t in counts then counts[t] else 999 }

  /** The candidate at `i` is the first that failed least, where an unknown count is worse than any. */
  ghost predicate LeastFailedAt(cands: seq<Tag>, counts: map<Tag, nat>, i: nat) {
    && i < |cands|
    && (forall j :: 0 <= j < i ==> Failures(counts, cands[j]) > Failures(counts, cands[i]))
    && (forall j :: i <= j < |cands| ==> Failures(counts, cands[j]) >= Failures(counts, cands[i]))
  }

  ghost predicate IsLeastFailed(cands: seq<Tag>, counts: map<Tag, nat>, best: Tag) {
    exists i :: 0 <= i < |cands| && cands[i] == best && LeastFailedAt(cands, counts, i)
  }

  lemma BestSteps(cands: seq<Tag>, counts: map<Tag, nat>)
    requires cands != []
    ensures var init, last := cands[..|cands| - 1], cands[|cands| - 1];
      Best(cands, counts) ==
        if init == [] then last
        else if Failures(counts, last) < Failures(counts, Best(init, counts)) then last
        else Best(init, counts)
  {
  }

  lemma {:induction false} BestIsFirst(cands: seq<Tag>, counts: map<Tag, nat>) returns (i: nat)
    requires cands != []
    ensures i < |cands| && cands[i] == Best(cands, counts) && LeastFailedAt(cands, counts, i)
  {
    hide Best, Failures;
    BestSteps(cands, counts);
    var init, last := cands[..|cands| - 1], cands[|cands| - 1];
    i := |cands| - 1;
    if init != [] {
      var k := BestIsFirst(init, counts);
      assert forall j :: 0 <= j < |init| ==> init[j] == cands[j];
      if Failures(counts, last) >= Failures(counts, init[k]) {
        i := k;
      }
    }
  }

  /** What a group looks like after a cycle: its candidates that belong, in their order; if none does, its allowed old
      members; and if there are none of these either, the first of the least failed candidates. Its settings are the
      fixed ones. */
  lemma MembersByFields(cfg: Config, st: State, env: Env, g: Group)
    requires g in cfg.groups && g.tag != ""
    ensures var after := NextState(cfg, st, env);
      var cands, now := ListOf(after.candidates, g.tag), Harmonized(g, after, env, ValidTags(cfg, env.forbidden));
      && now.settings == Settings("3m", "10m", 50, false)
      && (var kept := Filter(cands, BelongsTest(g, after.failCounts, env));
          if kept != [] then now.outbounds == kept
          else
            var members := Filter(g.outbounds, AllowedTest(cfg, env));
            if members != [] || cands == [] then now.outbounds == members
            else |now.outbounds| == 1 && IsLeastFailed(cands, after.failCounts, now.outbounds[0]))
  {
    hide NextState, ValidTags, VerifiedAlive, Allowed;
    var after := NextState(cfg, st, env);
    var cands := ListOf(after.candidates, g.tag);
    AllowedIsValid(cfg, env);
    forall t ensures Qualified(g.outbounds, after.failCounts, env)(t) == BelongsTest(g, after.failCounts, env)(t) {
      ProvedIsVerified(env.probes, t);
    }
    FilterCongruent(cands, Qualified(g.outbounds, after.failCounts, env), BelongsTest(g, after.failCounts, env));
    FilterCongruent(g.outbounds, OneOf(ValidTags(cfg, env.forbidden)), AllowedTest(cfg, env));
    if cands != [] {
      var i := BestIsFirst(cands, after.failCounts);
    }
  }

  /** Group safety: members are allowed candidates, a group with a candidate is not emptied, who answered as an
      authenticated proxy is a member, and who was out and did not comes back only alone, when no old member is
      allowed any more. */
  lemma SafetyByFields(cfg: Config, st: State, env: Env, g: Group, t: Tag)
    requires g in cfg.groups && g.tag != ""
    ensures var after := NextState(cfg, st, env);
      var cands := ListOf(after.candidates, g.tag);
      var now := Harmonized(g, after, env, ValidTags(cfg, env.forbidden)).outbounds;
      && (t in now ==> t in cands && Allowed(cfg, env, t))
      && (cands != [] ==> now != [])
      && (env.threshold >= 1 && t in cands && ProvedAlive(env.probes, t) ==> t in now)
      && (t in now && t !in g.outbounds && !ProvedAlive(env.probes, t) ==>
            now == [t] && forall a :: a in g.outbounds ==> !Allowed(cfg, env, a))
  {
    hide NextState, ValidTags, VerifiedAlive, Allowed, Harmonized, ProvedAlive;
    AllowedIsValid(cfg, env);
    ProvedIsVerified(env.probes, t);
    GroupSafety(cfg, st, env, g);
  }

  /** An allowed member leaves its group only in a cycle whose count for it reaches the threshold. */
  lemma LeavesByFields(cfg: Config, st: State, env: Env, g: Group, t: Tag)
    requires g in cfg.groups && g.tag != "" && t in g.outbounds && Allowed(cfg, env, t)
    requires t !in Harmonized(g, NextState(cfg, st, env), env, ValidTags(cfg, env.forbidden)).outbounds
    ensures t in NextState(cfg, st, env).failCounts || env.threshold <= 0
    ensures t in NextState(cfg, st, env).failCounts ==> NextState(cfg, st, env).failCounts[t] >= env.threshold
  {
    hide NextState, ValidTags, Allowed, Harmonized;
    AllowedIsValid(cfg, env);
    LeavesOnlyAtThreshold(cfg, st, env, g, t);
  }
}

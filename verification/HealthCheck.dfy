/** The health cycle itself, step by step over the two files it rewrites. */
module HealthCheck {
  import opened Collections
  import opened PoolHealth

  /** What a cycle meets outside its own logic. */
  datatype World = World(dryRun: bool, configValidates: bool, restartWanted: bool, restartWorks: bool,
                         rollbackWorks: bool, stateSaves: bool)

  datatype Outcome = Finished(changed: bool) | InvalidConfig | RestartFailed

  class HealthChecker {
    var config: Config
    var saved: State

    constructor (config: Config, saved: State)
      ensures this.config == config && this.saved == saved
    {
      this.config, this.saved := config, saved;
    }

    /** One cycle. The files change together to what the cycle decides, except when validation or the restart
        fails or the state file cannot be written. */
    method RunHealthCheck(env: Env, world: World) returns (r: Outcome)
      modifies this
      ensures var next := NextConfig(old(config), old(saved), env);
        var write := next != old(config) && !world.dryRun;
        && (r == if write && !world.configValidates then InvalidConfig
                 else if write && world.restartWanted && !world.restartWorks then RestartFailed
                 else Finished(next != old(config)))
        && config == (if !write || r.InvalidConfig? || (r.RestartFailed? && world.rollbackWorks)
                      then old(config) else next)
        && saved == (if r.Finished? && !world.dryRun && world.stateSaves
                     then NextState(old(config), old(saved), env) else old(saved))
    {
      var valid := ValidTags(config, env.forbidden);
      var state := Refresh(env, valid);
      var groups, changed := HarmoniseAll(config.groups, state, env, valid);
      ghost var next := NextConfig(config, saved, env);
      hide NextConfig, NextState, NextGroups, ValidTags, Harmonized;
      GroupsOfNext(config, saved, env);
      if changed && !world.dryRun {
        if !world.configValidates {
          return InvalidConfig;
        }
        var original := config;
        config := Config(config.outbounds, groups);
        if world.restartWanted && !world.restartWorks {
          if world.rollbackWorks {
            config := original;
          }
          return RestartFailed;
        }
      }
      if !world.dryRun && world.stateSaves {
        saved := state;
      }
      return Finished(changed);
    }

    /** Bring the candidate lists up to date and count this cycle's verdicts. */
    method Refresh(env: Env, valid: set<Tag>) returns (state: State)
      requires valid == ValidTags(config, env.forbidden)
      ensures state == NextState(config, saved, env)
    {
      var candidates := Synchronise(saved.candidates, config.groups);
      candidates := map g | g in candidates :: Keep(candidates[g], valid);
      assert candidates == Clean(RegisterAll(saved.candidates, config.groups), valid);
      var counts := map t | t in saved.failCounts && t in valid :: saved.failCounts[t];
      var references := set g, t | g in candidates && t in candidates[g] :: t;
      assert references == Referenced(candidates);
      counts := CountFailures(counts, references, env.probes);
      state := State(candidates, counts);
    }

    static method HarmoniseAll(was: seq<Group>, state: State, env: Env, valid: set<Tag>)
      returns (groups: seq<Group>, changed: bool)
      ensures |groups| == |was|
      ensures forall j :: 0 <= j < |was| ==> groups[j] == Harmonized(was[j], state, env, valid)
      ensures changed <==> groups != was
    {
      changed := false;
      groups := was;
      for i := 0 to |was|
        invariant |groups| == |was|
        invariant forall j :: 0 <= j < i ==> groups[j] == Harmonized(was[j], state, env, valid)
        invariant forall j :: i <= j < |was| ==> groups[j] == was[j]
        invariant changed <==> exists j :: 0 <= j < i && groups[j] != was[j]
      {
        ghost var before := groups;
        var members := Harmonise(groups[i].outbounds, ListOf(state.candidates, groups[i].tag), state.failCounts, env,
                                 valid);
        if members != groups[i].outbounds {
          groups := groups[i := groups[i].(outbounds := members)];
          changed := true;
        }
        if groups[i].settings != HARMONIZED {
          groups := groups[i := groups[i].(settings := HARMONIZED)];
          changed := true;
        }
        hide Members;
        assert groups[i] == Harmonized(was[i], state, env, valid);
        assert forall j :: 0 <= j < |was| && j != i ==> groups[j] == before[j];
      }
    }

    /** Offer every group's members to its candidate list. */
    static method Synchronise(cands: map<Tag, seq<Tag>>, groups: seq<Group>) returns (out: map<Tag, seq<Tag>>)
      ensures out == RegisterAll(cands, groups)
    {
      out := cands;
      for i := 0 to |groups|
        invariant out == RegisterAll(cands, groups[..i])
      {
        var g := groups[i];
        assert groups[..i + 1][..i] == groups[..i] && groups[..i + 1][i] == g;
        if g.tag != "" {
          if g.tag !in out {
            out := out[g.tag := g.outbounds];
          } else {
            var list := out[g.tag];
            for k := 0 to |g.outbounds|
              invariant list == Merge(out[g.tag], g.outbounds[..k])
            {
              assert g.outbounds[..k + 1][..k] == g.outbounds[..k];
              if g.outbounds[k] !in list {
                list := list + [g.outbounds[k]];
              }
            }
            assert g.outbounds[..|g.outbounds|] == g.outbounds;
            out := out[g.tag := list];
          }
        }
      }
      assert groups[..|groups|] == groups;
    }

    /** Apply the verdicts to the counts of the referenced tags. */
    static method CountFailures(counts: map<Tag, nat>, references: set<Tag>, probes: Probes)
      returns (out: map<Tag, nat>)
      ensures out == Counted(counts, references, probes)
    {
      out := counts;
      var todo := references;
      assert out == Counted(counts, references - todo, probes);
      while todo != {}
        invariant todo <= references
        invariant out == Counted(counts, references - todo, probes)
        decreases todo
      {
        var t :| t in todo;
        ghost var done := references - todo;
        var r := ResultOf(probes, t);
        if VerifiedAlive(r) {
          out := out[t := 0];
        } else if InfraFailure(r) {
        } else if r.Some? && r.value.alive.No? {
          out := out[t := Min(100, FailsOf(out, t) + 1)];
        }
        todo := todo - {t};
        assert references - todo == done + {t};
        CountOneMore(counts, done, probes, t);
      }
      assert references - todo == references;
    }

    /** The new members of a group. */
    static method Harmonise(was: seq<Tag>, cands: seq<Tag>, counts: map<Tag, nat>, env: Env, valid: set<Tag>)
      returns (members: seq<Tag>)
      ensures members == Members(was, cands, counts, env, valid)
    {
      members := [];
      for k := 0 to |cands|
        invariant members == Filter(cands[..k], Qualified(was, counts, env))
      {
        FilterExtend(cands, k, Qualified(was, counts, env));
        var t := cands[k];
        if t in was {
          if FailsOf(counts, t) < env.threshold {
            members := members + [t];
          }
        } else if VerifiedAlive(ResultOf(env.probes, t)) && FailsOf(counts, t) < env.threshold {
          members := members + [t];
        }
      }
      assert cands[..|cands|] == cands;
      if members == [] {
        members := Keep(was, valid);
        if members == [] && cands != [] {
          var best := LeastFailed(cands, counts);
          members := [best];
        }
      }
    }

    static method LeastFailed(cands: seq<Tag>, counts: map<Tag, nat>) returns (best: Tag)
      requires cands != []
      ensures best == Best(cands, counts)
    {
      best := cands[0];
      assert cands[..1][..0] == [];
      for k := 1 to |cands|
        invariant best == Best(cands[..k], counts)
      {
        assert cands[..k + 1][..k] == cands[..k];
        if Rank(counts, cands[k]) < Rank(counts, best) {
          best := cands[k];
        }
      }
      assert cands[..|cands|] == cands;
    }
  }

  lemma CountOneMore(counts: map<Tag, nat>, done: set<Tag>, probes: Probes, t: Tag)
    requires t !in done
    ensures Counted(counts, done + {t}, probes) == Recount(Counted(counts, done, probes), t, ResultOf(probes, t))
  {
  }

  lemma GroupsOfNext(cfg: Config, st: State, env: Env)
    ensures NextConfig(cfg, st, env).outbounds == cfg.outbounds
    ensures |NextConfig(cfg, st, env).groups| == |cfg.groups|
    ensures forall j :: 0 <= j < |cfg.groups| ==>
      NextConfig(cfg, st, env).groups[j]
        == Harmonized(cfg.groups[j], NextState(cfg, st, env), env, ValidTags(cfg, env.forbidden))
  {
  }
}

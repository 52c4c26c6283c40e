/** When a cycle that learns nothing from its probes leaves both files as it found them, whatever they hold. */
module QuietCycle {
  import opened Collections
  import opened PoolHealth

  /** The active candidates below the threshold. */
  function StillLow(active: seq<Tag>, counts: map<Tag, nat>, threshold: int): Tag -> bool {
    (t: Tag) => t in active && FailsOf(counts, t) < threshold
  }

  /** A silent cycle keeps the group: its settings are right, and its members are exactly its candidates that are
      active and below the threshold, in their order, or else, when there are none, all valid, and missing only
      if there is no candidate to fall back on. */
  predicate Undisturbed(g: Group, cands: seq<Tag>, counts: map<Tag, nat>, threshold: int, valid: set<Tag>) {
    var low := Filter(cands, StillLow(g.outbounds, counts, threshold));
    && g.settings == HARMONIZED
    && if low != [] then low == g.outbounds
       else (forall t :: t in g.outbounds ==> t in valid) && (g.outbounds != [] || cands == [])
  }

  lemma KeepAllIff(list: seq<Tag>, valid: set<Tag>)
    ensures Keep(list, valid) == list <==> forall t :: t in list ==> t in valid
  {
    KeepMembers(list, valid);
    if forall t :: t in list ==> t in valid {
      KeepAll(list, valid);
    }
  }

  lemma GroupStaysIff(g: Group, st: State, env: Env, valid: set<Tag>)
    requires Silent(env.probes) && forall t :: t in ListOf(st.candidates, g.tag) ==> t in valid
    ensures Harmonized(g, st, env, valid) == g <==>
      Undisturbed(g, ListOf(st.candidates, g.tag), st.failCounts, env.threshold, valid)
  {
    hide Silent, Qualifies;
    var cands, counts := ListOf(st.candidates, g.tag), st.failCounts;
    var low, qualified := StillLow(g.outbounds, counts, env.threshold), Qualified(g.outbounds, counts, env);
    SilentlyQualifies(g.outbounds, cands, counts, env);
    FilterCongruent(cands, low, qualified);
    if Filter(cands, low) == [] {
      KeepAllIff(g.outbounds, valid);
      KeepMembers(g.outbounds, valid);
    }
  }

  // ---- The groups ----

  /** The candidate lists a cycle works on, from the files alone. */
  function Lists(cfg: Config, st: State, valid: set<Tag>): map<Tag, seq<Tag>> {
    Clean(RegisterAll(st.candidates, cfg.groups), valid)
  }

  lemma ListedAreValid(cfg: Config, st: State, valid: set<Tag>, g: Tag)
    ensures forall t :: t in ListOf(Lists(cfg, st, valid), g) ==> t in valid
  {
    hide RegisterAll;
    var all := RegisterAll(st.candidates, cfg.groups);
    if g in all {
      KeepMembers(all[g], valid);
    }
  }

  /** The counts of deleted tags do not matter to a group of valid candidates. */
  lemma CountsOfValid(g: Group, cands: seq<Tag>, counts: map<Tag, nat>, threshold: int, valid: set<Tag>)
    requires forall t :: t in cands ==> t in valid
    ensures Undisturbed(g, cands, map t | t in counts && t in valid :: counts[t], threshold, valid)
            <==> Undisturbed(g, cands, counts, threshold, valid)
  {
    var restricted := map t | t in counts && t in valid :: counts[t];
    forall t | t in cands
      ensures StillLow(g.outbounds, restricted, threshold)(t) == StillLow(g.outbounds, counts, threshold)(t)
    {
    }
    FilterCongruent(cands, StillLow(g.outbounds, restricted, threshold), StillLow(g.outbounds, counts, threshold));
  }

  lemma SilentState(cfg: Config, st: State, env: Env)
    requires Silent(env.probes)
    ensures var valid := ValidTags(cfg, env.forbidden);
      NextState(cfg, st, env)
        == State(Lists(cfg, st, valid), map t | t in st.failCounts && t in valid :: st.failCounts[t])
  {
    hide RegisterAll, Clean, Referenced, ValidTags, Silent, Counted;
    var valid := ValidTags(cfg, env.forbidden);
    var counts := map t | t in st.failCounts && t in valid :: st.failCounts[t];
    CountedSilent(counts, Referenced(Lists(cfg, st, valid)), env.probes);
  }

  /** A silent cycle reports no change, and so rewrites and restarts nothing, exactly when it finds every group
      undisturbed. This holds of any two files, however they came about. */
  lemma SilentCycleKeepsGroupsIff(cfg: Config, st: State, env: Env)
    requires Silent(env.probes)
    ensures var valid := ValidTags(cfg, env.forbidden);
      NextConfig(cfg, st, env) == cfg <==>
        forall i :: 0 <= i < |cfg.groups| ==>
          Undisturbed(cfg.groups[i], ListOf(Lists(cfg, st, valid), cfg.groups[i].tag), st.failCounts, env.threshold,
                      valid)
  {
    hide Undisturbed, Harmonized, Lists, NextState, ValidTags, Silent;
    var valid, st' := ValidTags(cfg, env.forbidden), NextState(cfg, st, env);
    SilentState(cfg, st, env);
    var groups := NextGroups(cfg, st, env);
    forall i | 0 <= i < |cfg.groups|
      ensures groups[i] == cfg.groups[i] <==>
        Undisturbed(cfg.groups[i], ListOf(Lists(cfg, st, valid), cfg.groups[i].tag), st.failCounts, env.threshold,
                    valid)
    {
      var g := cfg.groups[i];
      ListedAreValid(cfg, st, valid, g.tag);
      GroupStaysIff(g, st', env, valid);
      CountsOfValid(g, ListOf(Lists(cfg, st, valid), g.tag), st.failCounts, env.threshold, valid);
    }
    assert groups == cfg.groups <==> forall i :: 0 <= i < |cfg.groups| ==> groups[i] == cfg.groups[i];
  }

  // ---- The saved state ----

  /** The saved state knows every named group and its valid members, and nothing that is not valid. */
  ghost predicate UpToDate(cfg: Config, st: State, valid: set<Tag>) {
    && (forall t :: t in st.failCounts ==> t in valid)
    && (forall g, t :: g in st.candidates && t in st.candidates[g] ==> t in valid)
    && Known(cfg.groups, st.candidates, valid)
  }

  ghost predicate Known(groups: seq<Group>, cands: map<Tag, seq<Tag>>, valid: set<Tag>) {
    forall i :: 0 <= i < |groups| && groups[i].tag != "" ==>
      groups[i].tag in cands && forall t :: t in groups[i].outbounds && t in valid ==> t in cands[groups[i].tag]
  }

  lemma {:induction false} MergeKeepsClean(list: seq<Tag>, more: seq<Tag>, valid: set<Tag>)
    requires forall t :: t in more && t in valid ==> t in list
    ensures Keep(Merge(list, more), valid) == Keep(list, valid)
  {
    if more != [] {
      var init, t := more[..|more| - 1], more[|more| - 1];
      assert more == init + [t];
      MergeKeepsClean(list, init, valid);
      MergeMembers(list, init);
      FilterAppend(Merge(list, init), t, OneOf(valid));
    }
  }

  lemma {:induction false} RegisterKeepsClean(cands: map<Tag, seq<Tag>>, groups: seq<Group>, valid: set<Tag>)
    requires Known(groups, cands, valid) && forall g, t :: g in cands && t in cands[g] ==> t in valid
    ensures Clean(RegisterAll(cands, groups), valid) == cands
  {
    if groups == [] {
      forall g | g in cands ensures Keep(cands[g], valid) == cands[g] {
        KeepAll(cands[g], valid);
      }
    } else {
      var init, last := groups[..|groups| - 1], groups[|groups| - 1];
      RegisterKeepsClean(cands, init, valid);
      var before := RegisterAll(cands, init);
      assert before.Keys == Clean(before, valid).Keys;
      if last.tag != "" {
        assert groups[|groups| - 1].tag in cands;
        assert cands[last.tag] == Keep(before[last.tag], valid);
        KeepMembers(before[last.tag], valid);
        MergeKeepsClean(before[last.tag], last.outbounds, valid);
      }
    }
  }

  /** A silent cycle leaves the candidate lists and the counts exactly when they are up to date. */
  lemma SilentCycleKeepsStateIff(cfg: Config, st: State, env: Env)
    requires Silent(env.probes)
    ensures NextState(cfg, st, env) == st <==> UpToDate(cfg, st, ValidTags(cfg, env.forbidden))
  {
    hide NextState, ValidTags, RegisterAll, Silent;
    var valid := ValidTags(cfg, env.forbidden);
    SilentState(cfg, st, env);
    var counts := map t | t in st.failCounts && t in valid :: st.failCounts[t];
    assert counts == st.failCounts <==> forall t :: t in st.failCounts ==> t in valid by {
      assert counts == st.failCounts ==> counts.Keys == st.failCounts.Keys;
    }
    if UpToDate(cfg, st, valid) {
      RegisterKeepsClean(st.candidates, cfg.groups, valid);
    }
    if Lists(cfg, st, valid) == st.candidates {
      ListsAreKnown(cfg, st, valid);
    }
  }

  lemma ListsAreKnown(cfg: Config, st: State, valid: set<Tag>)
    requires Lists(cfg, st, valid) == st.candidates
    ensures Known(cfg.groups, st.candidates, valid)
    ensures forall g, t :: g in st.candidates && t in st.candidates[g] ==> t in valid
  {
    hide RegisterAll;
    var all := RegisterAll(st.candidates, cfg.groups);
    RegisterAdds(st.candidates, cfg.groups);
    assert all.Keys == Clean(all, valid).Keys;
    forall g | g in all ensures forall t :: t in st.candidates[g] <==> t in all[g] && t in valid {
      assert st.candidates[g] == Keep(all[g], valid);
      KeepMembers(all[g], valid);
    }
  }

  /** A silent cycle changes neither file exactly when the saved state is up to date and every group undisturbed:
      a condition on the two files, the valid tags and the threshold. */
  lemma SilentCycleIsIdleIff(cfg: Config, st: State, env: Env)
    requires Silent(env.probes)
    ensures var valid := ValidTags(cfg, env.forbidden);
      NextState(cfg, st, env) == st && NextConfig(cfg, st, env) == cfg <==>
        && UpToDate(cfg, st, valid)
        && forall i :: 0 <= i < |cfg.groups| ==>
             Undisturbed(cfg.groups[i], ListOf(st.candidates, cfg.groups[i].tag), st.failCounts, env.threshold, valid)
  {
    hide *;
    SilentCycleKeepsStateIff(cfg, st, env);
    SilentCycleKeepsGroupsIff(cfg, st, env);
    SilentLists(cfg, st, env);
  }

  lemma SilentLists(cfg: Config, st: State, env: Env)
    requires Silent(env.probes)
    ensures NextState(cfg, st, env) == st ==> Lists(cfg, st, ValidTags(cfg, env.forbidden)) == st.candidates
  {
    hide NextState, ValidTags, Lists, Silent;
    SilentState(cfg, st, env);
  }

  // ---- A cycle whose state was not saved ----

  /** A concrete case outside the reach of saved cycles. A verified alive brings `a` back into its group, but the
      state file, with five failures of `a`, is not written. The next cycle, though silent, removes `a` again. */
  lemma UnsavedCycleIsUndone() returns (cfg: Config, st: State, env: Env, silent: Env)
    ensures cfg.groups == [Group("g", ["b"], HARMONIZED)]
    ensures st == State(map["g" := ["a", "b"]], map["a" := 5])
    ensures env == Env(silent.forbidden, 3, map["a" := ProbeResult(Yes, NoCaveat, false)])
    ensures Silent(silent.probes) && silent.threshold == 3
    ensures NextConfig(cfg, st, env).groups == [Group("g", ["a", "b"], HARMONIZED)]
    ensures NextConfig(NextConfig(cfg, st, env), st, silent) != NextConfig(cfg, st, env)
    ensures !LoneRepeat(NextConfig(cfg, st, env).groups[0], st, 3)
  {
    cfg := Config(map["a" := Outbound(Proxy, "host"), "b" := Outbound(Proxy, "host")], [Group("g", ["b"], HARMONIZED)]);
    st := State(map["g" := ["a", "b"]], map["a" := 5]);
    silent := Env((host: string) => false, 3, map[]);
    env := silent.(probes := map["a" := ProbeResult(Yes, NoCaveat, false)]);
    var valid := ValidTags(cfg, silent.forbidden);
    assert "a" in valid && "b" in valid;
    ComesBack(cfg, st, env);
    GoesAgain(NextConfig(cfg, st, env), st, silent);
  }

  lemma ListsOfPair(cfg: Config, st: State, valid: set<Tag>, members: seq<Tag>)
    requires cfg.groups == [Group("g", members, HARMONIZED)] && st.candidates == map["g" := ["a", "b"]]
    requires "a" in valid && "b" in valid && forall t :: t in members ==> t in ["a", "b"]
    ensures Lists(cfg, st, valid) == st.candidates
  {
    RegisterKeepsClean(st.candidates, cfg.groups, valid);
  }

  lemma ComesBack(cfg: Config, st: State, env: Env)
    requires cfg.groups == [Group("g", ["b"], HARMONIZED)] && st == State(map["g" := ["a", "b"]], map["a" := 5])
    requires "a" in ValidTags(cfg, env.forbidden) && "b" in ValidTags(cfg, env.forbidden)
    requires env.threshold == 3 && env.probes == map["a" := ProbeResult(Yes, NoCaveat, false)]
    ensures NextConfig(cfg, st, env).groups == [Group("g", ["a", "b"], HARMONIZED)]
  {
    hide ValidTags, Clean, RegisterAll;
    var valid, after := ValidTags(cfg, env.forbidden), NextState(cfg, st, env);
    ListsOfPair(cfg, st, valid, ["b"]);
    assert after.candidates == Lists(cfg, st, valid);
    CountsOfPair(cfg, st, env);
    FilterAll(["a", "b"], Qualified(["b"], after.failCounts, env));
  }

  lemma CountsOfPair(cfg: Config, st: State, env: Env)
    requires NextState(cfg, st, env).candidates == map["g" := ["a", "b"]] && st.failCounts == map["a" := 5]
    requires env.probes == map["a" := ProbeResult(Yes, NoCaveat, false)]
    ensures FailsOf(NextState(cfg, st, env).failCounts, "a") == FailsOf(NextState(cfg, st, env).failCounts, "b") == 0
  {
    hide NextState;
    var cands := NextState(cfg, st, env).candidates;
    assert "a" in cands["g"] && "b" in cands["g"];
    CountAfter(cfg, st, env, "a");
    CountAfter(cfg, st, env, "b");
  }

  lemma GoesAgain(cfg: Config, st: State, env: Env)
    requires cfg.groups == [Group("g", ["a", "b"], HARMONIZED)] && st == State(map["g" := ["a", "b"]], map["a" := 5])
    requires "a" in ValidTags(cfg, env.forbidden) && "b" in ValidTags(cfg, env.forbidden)
    requires env.threshold == 3 && Silent(env.probes)
    ensures NextConfig(cfg, st, env) != cfg
  {
    hide NextConfig, ValidTags, Silent, Lists;
    var valid := ValidTags(cfg, env.forbidden);
    ListsOfPair(cfg, st, valid, ["a", "b"]);
    var low := Filter(["a", "b"], StillLow(["a", "b"], st.failCounts, 3));
    assert "b" in low && "a" !in low;
    assert !Undisturbed(cfg.groups[0], ListOf(Lists(cfg, st, valid), "g"), st.failCounts, 3, valid) by {
      assert "a" in ["a", "b"];
    }
    SilentCycleKeepsGroupsIff(cfg, st, env);
  }
}

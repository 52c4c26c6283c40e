/** The pool harmonizer: one health cycle over groups, their candidate lists and shared failure counts. */
module PoolHealth {
  import opened Collections

  type Tag = string

  datatype Alive = Yes | No | Unsure

  datatype Caveat =
    | NoCaveat | TcpTransportOnly | UnverifiedUdpResponse | GenericUdpResponse | UdpProtocolLabel | UdpSilence
    | InfraCaveat | OtherCaveat

  datatype ProbeResult = ProbeResult(alive: Alive, caveat: Caveat, errorMentionsInfra: bool)

  predicate VerifiedAlive(r: Option<ProbeResult>) {
    r.Some? && r.value.alive.Yes? && (r.value.caveat.NoCaveat? || r.value.caveat.OtherCaveat?)
  }

  predicate InfraFailure(r: Option<ProbeResult>) {
    r.Some? && (r.value.caveat.InfraCaveat? || (r.value.alive.Unsure? && r.value.errorMentionsInfra))
  }

  datatype Verdict = Verified | Dead | Inconclusive

  function VerdictOf(r: Option<ProbeResult>): Verdict {
    if VerifiedAlive(r) then Verified
    else if InfraFailure(r) then Inconclusive
    else if r.Some? && r.value.alive.No? then Dead
    else Inconclusive
  }

  type Probes = map<Tag, ProbeResult>

  function ResultOf(probes: Probes, t: Tag): Option<ProbeResult> { if t in probes then Some(probes[t]) else None }

  datatype Kind = UrlTest | Direct | Proxy

  datatype Outbound = Outbound(kind: Kind, host: string)

  datatype Settings = Settings(interval: string, idleTimeout: string, tolerance: int, interruptExisting: bool)

  const HARMONIZED := Settings("3m", "10m", 50, false)

  datatype Group = Group(tag: Tag, outbounds: seq<Tag>, settings: Settings)

  datatype Config = Config(outbounds: map<Tag, Outbound>, groups: seq<Group>)

  /** The persisted state: per group the tags ever offered to it, and per tag its consecutive failures. */
  datatype State = State(candidates: map<Tag, seq<Tag>>, failCounts: map<Tag, nat>)

  /** The inputs of a cycle besides the files. `forbidden` recognises own and missing hosts. */
  datatype Env = Env(forbidden: string -> bool, threshold: int, probes: Probes)

  function ValidTags(cfg: Config, forbidden: string -> bool): set<Tag> {
    set t | t in cfg.outbounds && t != "" && cfg.outbounds[t].kind.Proxy? && !forbidden(cfg.outbounds[t].host)
  }

  function OneOf(tags: set<Tag>): Tag -> bool { (t: Tag) => t in tags }

  function Keep(list: seq<Tag>, tags: set<Tag>): seq<Tag> { Filter(list, OneOf(tags)) }

  function ListOf(m: map<Tag, seq<Tag>>, k: Tag): seq<Tag> { if k in m then m[k] else [] }

  function FailsOf(m: map<Tag, nat>, t: Tag): nat { if t in m then m[t] else 0 }

  // ---- Step 1: candidate synchronisation ----

  function Merge(list: seq<Tag>, more: seq<Tag>): seq<Tag> {
    if more == [] then list
    else
      var m := Merge(list, more[..|more| - 1]);
      if more[|more| - 1] in m then m else m + [more[|more| - 1]]
  }

  function Register(cands: map<Tag, seq<Tag>>, g: Group): map<Tag, seq<Tag>> {
    if g.tag == "" then cands
    else cands[g.tag := if g.tag in cands then Merge(cands[g.tag], g.outbounds) else g.outbounds]
  }

  function RegisterAll(cands: map<Tag, seq<Tag>>, groups: seq<Group>): map<Tag, seq<Tag>> {
    if groups == [] then cands else Register(RegisterAll(cands, groups[..|groups| - 1]), groups[|groups| - 1])
  }

  function Clean(cands: map<Tag, seq<Tag>>, valid: set<Tag>): map<Tag, seq<Tag>> {
    map g | g in cands :: Keep(cands[g], valid)
  }

  function Referenced(cands: map<Tag, seq<Tag>>): set<Tag> {
    set g, t | g in cands && t in cands[g] :: t
  }

  // ---- Step 2: failure counts ----

  function NextCount(count: nat, v: Verdict): nat {
    match v
    case Verified => 0
    case Dead => Min(100, count + 1)
    case Inconclusive => count
  }

  function Recount(counts: map<Tag, nat>, t: Tag, r: Option<ProbeResult>): map<Tag, nat> {
    if VerdictOf(r).Inconclusive? then counts else counts[t := NextCount(FailsOf(counts, t), VerdictOf(r))]
  }

  function Counted(counts: map<Tag, nat>, refs: set<Tag>, probes: Probes): map<Tag, nat> {
    map t | t in counts.Keys + refs && (t in counts || !VerdictOf(ResultOf(probes, t)).Inconclusive?) ::
      if t in refs then NextCount(FailsOf(counts, t), VerdictOf(ResultOf(probes, t))) else FailsOf(counts, t)
  }

  // ---- Step 3: group membership ----

  /** Active members stay while below the threshold; removed ones return only when verified alive. */
  predicate Qualifies(t: Tag, was: seq<Tag>, counts: map<Tag, nat>, env: Env) {
    FailsOf(counts, t) < env.threshold && (t in was || VerifiedAlive(ResultOf(env.probes, t)))
  }

  function Qualified(was: seq<Tag>, counts: map<Tag, nat>, env: Env): Tag -> bool {
    (t: Tag) => Qualifies(t, was, counts, env)
  }

  function Rank(counts: map<Tag, nat>, t: Tag): nat { if t in counts then counts[t] else 999 }

  /** The first of the candidates with the fewest failures. */
  function Best(cands: seq<Tag>, counts: map<Tag, nat>): (best: Tag)
    requires cands != []
    ensures best in cands
    ensures forall t :: t in cands ==> Rank(counts, best) <= Rank(counts, t)
  {
    var init := cands[..|cands| - 1];
    var last := cands[|cands| - 1];
    assert cands == init + [last];
    if init == [] then last
    else if Rank(counts, last) < Rank(counts, Best(init, counts)) then last
    else Best(init, counts)
  }

  /** Whom a group falls back on when nobody qualifies. */
  function Fallback(was: seq<Tag>, cands: seq<Tag>, counts: map<Tag, nat>, valid: set<Tag>): seq<Tag> {
    var active := Keep(was, valid);
    if active == [] && cands != [] then [Best(cands, counts)] else active
  }

  function Members(was: seq<Tag>, cands: seq<Tag>, counts: map<Tag, nat>, env: Env, valid: set<Tag>): seq<Tag> {
    var kept := Filter(cands, Qualified(was, counts, env));
    if kept != [] then kept else Fallback(was, cands, counts, valid)
  }

  function Harmonized(g: Group, st: State, env: Env, valid: set<Tag>): Group {
    Group(g.tag, Members(g.outbounds, ListOf(st.candidates, g.tag), st.failCounts, env, valid), HARMONIZED)
  }

  // ---- One cycle ----

  function NextState(cfg: Config, st: State, env: Env): State {
    var valid := ValidTags(cfg, env.forbidden);
    var cands := Clean(RegisterAll(st.candidates, cfg.groups), valid);
    State(cands, Counted(map t | t in st.failCounts && t in valid :: st.failCounts[t], Referenced(cands), env.probes))
  }

  function NextGroups(cfg: Config, st: State, env: Env): seq<Group> {
    seq(|cfg.groups|, i requires 0 <= i < |cfg.groups| =>
      Harmonized(cfg.groups[i], NextState(cfg, st, env), env, ValidTags(cfg, env.forbidden)))
  }

  function NextConfig(cfg: Config, st: State, env: Env): Config { Config(cfg.outbounds, NextGroups(cfg, st, env)) }

  // ---- Properties of one cycle ----

  lemma KeepMembers(list: seq<Tag>, tags: set<Tag>)
    ensures forall t :: t in Keep(list, tags) <==> t in list && t in tags
  {
  }

  lemma {:induction false} MergeMembers(list: seq<Tag>, more: seq<Tag>)
    ensures forall t :: t in Merge(list, more) <==> t in list || t in more
  {
    if more != [] {
      MergeMembers(list, more[..|more| - 1]);
      assert more == more[..|more| - 1] + [more[|more| - 1]];
    }
  }

  /** Registration only adds, and it adds every member of every named group. */
  lemma {:induction false} RegisterAdds(cands: map<Tag, seq<Tag>>, groups: seq<Group>)
    ensures forall g :: g in cands ==> g in RegisterAll(cands, groups)
    ensures forall g, t :: g in cands && t in cands[g] ==> t in RegisterAll(cands, groups)[g]
    ensures forall i :: 0 <= i < |groups| && groups[i].tag != "" ==> groups[i].tag in RegisterAll(cands, groups)
    ensures forall i, t ::
      0 <= i < |groups| && groups[i].tag != "" && t in groups[i].outbounds ==>
        t in RegisterAll(cands, groups)[groups[i].tag]
  {
    if groups != [] {
      var init, g := groups[..|groups| - 1], groups[|groups| - 1];
      RegisterAdds(cands, init);
      var before := RegisterAll(cands, init);
      if g.tag in before {
        MergeMembers(before[g.tag], g.outbounds);
      }
      forall i | 0 <= i < |groups| && groups[i].tag != ""
        ensures groups[i].tag in RegisterAll(cands, groups)
        ensures forall t :: t in groups[i].outbounds ==> t in RegisterAll(cands, groups)[groups[i].tag]
      {
        if i < |init| {
          assert init[i] == groups[i];
        }
      }
    }
  }

  lemma CandidatesAfter(cfg: Config, st: State, env: Env, g: Group)
    requires g in cfg.groups && g.tag != ""
    ensures var cands := NextState(cfg, st, env).candidates; var valid := ValidTags(cfg, env.forbidden);
      && g.tag in cands
      && (forall t :: t in cands[g.tag] ==> t in valid)
      && (forall t :: t in g.outbounds && t in valid ==> t in cands[g.tag])
  {
    var i :| 0 <= i < |cfg.groups| && cfg.groups[i] == g;
    RegisterAdds(st.candidates, cfg.groups);
    KeepMembers(RegisterAll(st.candidates, cfg.groups)[g.tag], ValidTags(cfg, env.forbidden));
  }

  /** A candidate is lost only by leaving the configuration or becoming forbidden. */
  lemma CandidatesPersist(cfg: Config, st: State, env: Env, g: Tag, t: Tag)
    requires g in st.candidates && t in st.candidates[g]
    ensures g in NextState(cfg, st, env).candidates
    ensures t in NextState(cfg, st, env).candidates[g] <==> t in ValidTags(cfg, env.forbidden)
  {
    RegisterAdds(st.candidates, cfg.groups);
    KeepMembers(RegisterAll(st.candidates, cfg.groups)[g], ValidTags(cfg, env.forbidden));
  }

  /** Group safety after a cycle: members are configured, allowed candidates; a group with a candidate is not
      empty; the verified are members; who was inactive returns only verified or as the only fallback. */
  lemma GroupSafety(cfg: Config, st: State, env: Env, g: Group)
    requires g in cfg.groups && g.tag != ""
    ensures var after := NextState(cfg, st, env);
      var cands := ListOf(after.candidates, g.tag);
      var now := Harmonized(g, after, env, ValidTags(cfg, env.forbidden)).outbounds;
      && (forall t :: t in now ==> t in cands && t in ValidTags(cfg, env.forbidden))
      && (cands != [] ==> now != [])
      && (forall t :: env.threshold >= 1 && t in cands && VerifiedAlive(ResultOf(env.probes, t)) ==> t in now)
      && (forall t :: t in now && t !in g.outbounds && !VerifiedAlive(ResultOf(env.probes, t)) ==>
            now == [t] && forall a :: a in g.outbounds ==> a !in ValidTags(cfg, env.forbidden))
  {
    var after := NextState(cfg, st, env);
    CandidatesAfter(cfg, st, env, g);
    KeepMembers(g.outbounds, ValidTags(cfg, env.forbidden));
    forall t | t in ListOf(after.candidates, g.tag) && VerifiedAlive(ResultOf(env.probes, t))
      ensures FailsOf(after.failCounts, t) == 0
    {
      VerifiedCountsZero(cfg, st, env, t);
    }
  }

  lemma VerifiedCountsZero(cfg: Config, st: State, env: Env, t: Tag)
    requires t in Referenced(NextState(cfg, st, env).candidates) && VerifiedAlive(ResultOf(env.probes, t))
    ensures FailsOf(NextState(cfg, st, env).failCounts, t) == 0
  {
    CountAfter(cfg, st, env, t);
  }

  /** A configured, allowed member leaves its group only in a cycle whose failure count reaches the threshold. */
  lemma LeavesOnlyAtThreshold(cfg: Config, st: State, env: Env, g: Group, t: Tag)
    requires g in cfg.groups && g.tag != "" && t in g.outbounds && t in ValidTags(cfg, env.forbidden)
    requires t !in Harmonized(g, NextState(cfg, st, env), env, ValidTags(cfg, env.forbidden)).outbounds
    ensures FailsOf(NextState(cfg, st, env).failCounts, t) >= env.threshold
  {
    CandidatesAfter(cfg, st, env, g);
    KeepMembers(g.outbounds, ValidTags(cfg, env.forbidden));
  }

  // ---- Quiescence ----

  function Occurrences(s: seq<Tag>, t: Tag): nat { multiset(s)[t] }

  /** The one case in which a silent cycle changes a group that a saved cycle left: a single member below the
      threshold that its candidate list holds more than once. */
  predicate LoneRepeat(g: Group, st: State, threshold: int) {
    && |g.outbounds| == 1
    && FailsOf(st.failCounts, g.outbounds[0]) < threshold
    && Occurrences(ListOf(st.candidates, g.tag), g.outbounds[0]) > 1
  }

  /** Every result leaves it open whether the proxy works: unsure, alive but without authenticated proof, or failed
      by the checker's own infrastructure. */
  predicate Silent(probes: Probes) {
    forall t :: t in probes ==>
      match probes[t].alive
      case Unsure => true
      case Yes => !probes[t].caveat.NoCaveat? && !probes[t].caveat.OtherCaveat?
      case No => probes[t].caveat.InfraCaveat?
  }

  lemma {:induction false} MergeKnown(list: seq<Tag>, more: seq<Tag>)
    requires forall t :: t in more ==> t in list
    ensures Merge(list, more) == list
  {
    if more != [] {
      assert more[|more| - 1] in more;
      MergeKnown(list, more[..|more| - 1]);
    }
  }

  lemma {:induction false} RegisterKnown(cands: map<Tag, seq<Tag>>, groups: seq<Group>)
    requires forall g :: g in groups && g.tag != "" ==>
      g.tag in cands && forall t :: t in g.outbounds ==> t in cands[g.tag]
    ensures RegisterAll(cands, groups) == cands
  {
    if groups != [] {
      var init, g := groups[..|groups| - 1], groups[|groups| - 1];
      assert g in groups && forall h :: h in init ==> h in groups;
      RegisterKnown(cands, init);
      if g.tag != "" {
        MergeKnown(cands[g.tag], g.outbounds);
      }
    }
  }

  lemma KeepAll(list: seq<Tag>, tags: set<Tag>)
    requires forall t :: t in list ==> t in tags
    ensures Keep(list, tags) == list
  {
    FilterAll(list, OneOf(tags));
  }

  lemma StateIsStable(cfg: Config, st: State, env: Env, env': Env)
    requires env'.forbidden == env.forbidden && Silent(env'.probes)
    ensures NextState(NextConfig(cfg, st, env), NextState(cfg, st, env), env') == NextState(cfg, st, env)
  {
    var valid := ValidTags(cfg, env.forbidden);
    var cfg', st' := NextConfig(cfg, st, env), NextState(cfg, st, env);
    assert ValidTags(cfg', env'.forbidden) == valid;
    GroupsAreKnown(cfg, st, env);
    RegisterKnown(st'.candidates, cfg'.groups);
    CleanIsStable(RegisterAll(st.candidates, cfg.groups), valid);
    CountsAreValid(cfg, st, env);
    CountedSilent(st'.failCounts, Referenced(st'.candidates), env'.probes);
    hide RegisterAll, Clean, Counted, Referenced, ValidTags;
    assert (map t | t in st'.failCounts && t in valid :: st'.failCounts[t]) == st'.failCounts;
  }

  lemma GroupsAreKnown(cfg: Config, st: State, env: Env)
    ensures forall g :: g in NextConfig(cfg, st, env).groups && g.tag != "" ==>
      g.tag in NextState(cfg, st, env).candidates
      && forall t :: t in g.outbounds ==> t in NextState(cfg, st, env).candidates[g.tag]
  {
    var cfg', st' := NextConfig(cfg, st, env), NextState(cfg, st, env);
    forall g' | g' in cfg'.groups && g'.tag != ""
      ensures g'.tag in st'.candidates && forall t :: t in g'.outbounds ==> t in st'.candidates[g'.tag]
    {
      var i :| 0 <= i < |cfg'.groups| && cfg'.groups[i] == g';
      hide NextState;
      CandidatesAfter(cfg, st, env, cfg.groups[i]);
      GroupSafety(cfg, st, env, cfg.groups[i]);
    }
  }

  lemma CleanIsStable(cands: map<Tag, seq<Tag>>, valid: set<Tag>)
    ensures Clean(Clean(cands, valid), valid) == Clean(cands, valid)
  {
    forall g | g in cands ensures Keep(Keep(cands[g], valid), valid) == Keep(cands[g], valid) {
      KeepMembers(cands[g], valid);
      KeepAll(Keep(cands[g], valid), valid);
    }
  }

  lemma CountsAreValid(cfg: Config, st: State, env: Env)
    ensures forall t :: t in NextState(cfg, st, env).failCounts ==> t in ValidTags(cfg, env.forbidden)
    ensures forall t :: t in Referenced(NextState(cfg, st, env).candidates) ==> t in ValidTags(cfg, env.forbidden)
  {
    var st', valid := NextState(cfg, st, env), ValidTags(cfg, env.forbidden);
    forall t | t in Referenced(st'.candidates) ensures t in valid {
      var g :| g in st'.candidates && t in st'.candidates[g];
      KeepMembers(RegisterAll(st.candidates, cfg.groups)[g], valid);
    }
  }

  lemma CountedSilent(counts: map<Tag, nat>, refs: set<Tag>, silent: Probes)
    requires Silent(silent)
    ensures Counted(counts, refs, silent) == counts
  {
  }

  /** A cycle applies its verdict to the count of every referenced tag. */
  lemma CountAfter(cfg: Config, st: State, env: Env, t: Tag)
    requires t in Referenced(NextState(cfg, st, env).candidates)
    ensures FailsOf(NextState(cfg, st, env).failCounts, t)
         == NextCount(FailsOf(st.failCounts, t), VerdictOf(ResultOf(env.probes, t)))
  {
    CountsAreValid(cfg, st, env);
    hide RegisterAll, Clean, ValidTags, VerdictOf;
  }

  lemma AlikeMembers(s: seq<Tag>, t: Tag)
    requires forall x :: x in s ==> x == t
    ensures s == [t] <==> multiset(s)[t] == 1
  {
    assert forall i :: 0 <= i < |s| ==> s[i] in s;
    OnlyBest(s, t);
  }

  lemma CountedMember(s: seq<Tag>, t: Tag)
    ensures t in s <==> Occurrences(s, t) >= 1
  {
    assert t in multiset(s) <==> t in s;
  }

  /** What a silent cycle keeps of a group: its members below the threshold, in candidate order. */
  lemma SilentlyQualifies(now: seq<Tag>, cands: seq<Tag>, counts: map<Tag, nat>, env: Env)
    requires Silent(env.probes)
    ensures forall t :: Qualifies(t, now, counts, env) <==> FailsOf(counts, t) < env.threshold && t in now
  {
  }

  /** A silent cycle leaves a harmonised group as it is, unless its only member is a candidate listed twice. */
  lemma GroupIsStable(g: Group, st: State, env: Env, env': Env, valid: set<Tag>)
    requires env'.threshold == env.threshold && Silent(env'.probes)
    ensures var g' := Harmonized(g, st, env, valid);
      Harmonized(g', st, env', valid) == g' <==> !LoneRepeat(g', st, env'.threshold)
  {
    hide LoneRepeat, Silent, VerifiedAlive;
    var cands, counts := ListOf(st.candidates, g.tag), st.failCounts;
    var now := Members(g.outbounds, cands, counts, env, valid);
    var kept := Filter(cands, Qualified(g.outbounds, counts, env));
    SilentlyQualifies(now, cands, counts, env');
    if kept != [] {
      KeptIsStable(g, st, env, env', valid);
    } else if Keep(g.outbounds, valid) != [] {
      FallbackIsStable(g, st, env, env', valid);
    } else if cands != [] {
      LastResort(g.tag, Best(cands, counts), st, env', valid);
    } else {
      assert Filter(cands, Qualified(now, counts, env')) == [] && now == [] && Keep(now, valid) == [];
      NotLone(Harmonized(g, st, env, valid), st, env'.threshold);
    }
  }

  lemma NotLone(g: Group, st: State, threshold: int)
    requires g.outbounds == [] || FailsOf(st.failCounts, g.outbounds[0]) >= threshold
             || g.outbounds[0] !in ListOf(st.candidates, g.tag)
             || Occurrences(g.outbounds, g.outbounds[0]) == Occurrences(ListOf(st.candidates, g.tag), g.outbounds[0])
    ensures !LoneRepeat(g, st, threshold)
  {
    if |g.outbounds| == 1 {
      assert g.outbounds == [g.outbounds[0]];
      CountedMember(ListOf(st.candidates, g.tag), g.outbounds[0]);
    }
  }

  lemma KeptIsStable(g: Group, st: State, env: Env, env': Env, valid: set<Tag>)
    requires env'.threshold == env.threshold && Silent(env'.probes)
    requires Filter(ListOf(st.candidates, g.tag), Qualified(g.outbounds, st.failCounts, env)) != []
    ensures var g' := Harmonized(g, st, env, valid);
      Harmonized(g', st, env', valid) == g' && !LoneRepeat(g', st, env'.threshold)
  {
    hide LoneRepeat, Silent, VerifiedAlive;
    var cands, counts := ListOf(st.candidates, g.tag), st.failCounts;
    var kept := Filter(cands, Qualified(g.outbounds, counts, env));
    SilentlyQualifies(kept, cands, counts, env');
    forall t | t in cands ensures Qualified(kept, counts, env')(t) <==> Qualified(g.outbounds, counts, env)(t) {
    }
    FilterCongruent(cands, Qualified(kept, counts, env'), Qualified(g.outbounds, counts, env));
    assert kept[0] in kept;
    FilterCount(cands, Qualified(g.outbounds, counts, env), kept[0]);
    NotLone(Harmonized(g, st, env, valid), st, env'.threshold);
  }

  lemma FallbackIsStable(g: Group, st: State, env: Env, env': Env, valid: set<Tag>)
    requires env'.threshold == env.threshold && Silent(env'.probes) && Keep(g.outbounds, valid) != []
    requires Filter(ListOf(st.candidates, g.tag), Qualified(g.outbounds, st.failCounts, env)) == []
    ensures var g' := Harmonized(g, st, env, valid);
      Harmonized(g', st, env', valid) == g' && !LoneRepeat(g', st, env'.threshold)
  {
    hide LoneRepeat, Silent, VerifiedAlive;
    var cands, counts := ListOf(st.candidates, g.tag), st.failCounts;
    var now := Keep(g.outbounds, valid);
    SilentlyQualifies(now, cands, counts, env');
    KeepMembers(g.outbounds, valid);
    forall t | t in cands ensures !Qualified(now, counts, env')(t) {
      assert !Qualified(g.outbounds, counts, env)(t);
    }
    FilterNone(cands, Qualified(now, counts, env'));
    KeepAll(now, valid);
    assert now[0] in now;
    NotLone(Harmonized(g, st, env, valid), st, env'.threshold);
  }

  lemma LastResort(tag: Tag, best: Tag, st: State, env: Env, valid: set<Tag>)
    requires Silent(env.probes) && ListOf(st.candidates, tag) != []
    requires best == Best(ListOf(st.candidates, tag), st.failCounts)
    ensures var g := Group(tag, [best], HARMONIZED);
      Harmonized(g, st, env, valid) == g <==> !LoneRepeat(g, st, env.threshold)
  {
    hide Silent, VerifiedAlive;
    var cands, counts := ListOf(st.candidates, tag), st.failCounts;
    var next := Qualified([best], counts, env);
    SilentlyQualifies([best], cands, counts, env);
    CountedMember(cands, best);
    if FailsOf(counts, best) < env.threshold {
      var kept := Filter(cands, next);
      FilterCount(cands, next, best);
      assert best in kept;
      AlikeMembers(kept, best);
    } else {
      FilterNone(cands, next);
      KeepOne(best, valid);
    }
  }

  lemma KeepOne(t: Tag, valid: set<Tag>)
    ensures Keep([t], valid) == if t in valid then [t] else []
  {
    assert [t][..0] == [];
    assert Filter([t][..0], OneOf(valid)) == [];
  }

  lemma {:induction false} OnlyBest(s: seq<Tag>, best: Tag)
    requires forall i :: 0 <= i < |s| ==> s[i] == best
    ensures |s| == multiset(s)[best]
  {
    if s != [] {
      assert s == s[..|s| - 1] + [s[|s| - 1]];
      OnlyBest(s[..|s| - 1], best);
    }
  }

  /** After a cycle whose configuration and state both reached their files, a silent one with the same outbounds
      and threshold changes no candidate list and no count, and it changes no group, so that nothing is rewritten
      or restarted, exactly when no group it finds has a lone member that its candidate list repeats. Module
      QuietCycle has the condition for files of any origin. */
  lemma SilentCycleChangesNothing(cfg: Config, st: State, env: Env, env': Env)
    requires env'.forbidden == env.forbidden && env'.threshold == env.threshold && Silent(env'.probes)
    ensures var cfg', st' := NextConfig(cfg, st, env), NextState(cfg, st, env);
      && NextState(cfg', st', env') == st'
      && (NextConfig(cfg', st', env') == cfg' <==>
            forall i :: 0 <= i < |cfg'.groups| ==> !LoneRepeat(cfg'.groups[i], st', env'.threshold))
  {
    hide LoneRepeat, Harmonized, NextState, Silent;
    var valid := ValidTags(cfg, env.forbidden);
    var cfg', st' := NextConfig(cfg, st, env), NextState(cfg, st, env);
    StateIsStable(cfg, st, env, env');
    assert ValidTags(cfg', env'.forbidden) == valid;
    var groups := NextGroups(cfg', st', env');
    forall i | 0 <= i < |cfg.groups|
      ensures groups[i] == cfg'.groups[i] <==> !LoneRepeat(cfg'.groups[i], st', env'.threshold)
    {
      GroupIsStable(cfg.groups[i], st', env, env', valid);
    }
    assert groups == cfg'.groups <==> forall i :: 0 <= i < |cfg'.groups| ==> groups[i] == cfg'.groups[i];
  }

  /** It does happen: with the saved candidates ["a", "a"] and nobody active or verified, one silent cycle falls
      back on ["a"], and the next, just as silent, makes it ["a", "a"]. */
  lemma LastResortCanRepeat() returns (cfg: Config, st: State, env: Env)
    ensures cfg == Config(map["a" := Outbound(Proxy, "host")], [Group("g", [], HARMONIZED)])
    ensures st == State(map["g" := ["a", "a"]], map[]) && env.threshold == 3 && env.probes == map[]
    ensures NextConfig(NextConfig(cfg, st, env), NextState(cfg, st, env), env) != NextConfig(cfg, st, env)
  {
    hide NextState, NextConfig, ValidTags;
    cfg := Config(map["a" := Outbound(Proxy, "host")], [Group("g", [], HARMONIZED)]);
    st := State(map["g" := ["a", "a"]], map[]);
    env := Env((host: string) => false, 3, map[]);
    ListedTwice(cfg, st, env);
    FallsBack(cfg, st, env);
    assert LoneRepeat(NextConfig(cfg, st, env).groups[0], NextState(cfg, st, env), 3) by {
      assert multiset(["a", "a"])["a"] == 2;
    }
    SilentCycleChangesNothing(cfg, st, env, env);
  }

  lemma FallsBack(cfg: Config, st: State, env: Env)
    requires cfg.groups == [Group("g", [], HARMONIZED)] && env.probes == map[]
    requires ListOf(NextState(cfg, st, env).candidates, "g") == ["a", "a"]
    ensures NextConfig(cfg, st, env).groups == [Group("g", ["a"], HARMONIZED)]
  {
    hide NextState, ValidTags;
    NobodyQualifies(NextState(cfg, st, env).failCounts, env, ValidTags(cfg, env.forbidden));
  }

  lemma ListedTwice(cfg: Config, st: State, env: Env)
    requires cfg == Config(map["a" := Outbound(Proxy, "host")], [Group("g", [], HARMONIZED)])
    requires st == State(map["g" := ["a", "a"]], map[]) && env.probes == map[] && !env.forbidden("host")
    ensures ListOf(NextState(cfg, st, env).candidates, "g") == ["a", "a"]
    ensures NextState(cfg, st, env).failCounts == map[]
  {
    hide Counted, Referenced, VerdictOf;
    var valid := ValidTags(cfg, env.forbidden);
    assert "a" in valid;
    KeepAll(["a", "a"], valid);
    RegisterKnown(st.candidates, cfg.groups);
    NothingCounted(Referenced(NextState(cfg, st, env).candidates));
  }

  lemma NothingCounted(refs: set<Tag>)
    ensures Counted(map[], refs, map[]) == map[]
  {
  }

  lemma NobodyQualifies(counts: map<Tag, nat>, env: Env, valid: set<Tag>)
    requires env.probes == map[]
    ensures Filter(["a", "a"], Qualified([], counts, env)) == [] && Keep([], valid) == []
    ensures Best(["a", "a"], counts) == "a"
  {
    var cands := ["a", "a"];
    forall t | t in cands ensures !Qualified([], counts, env)(t) {
    }
    FilterNone(cands, Qualified([], counts, env));
    assert Best(cands, counts) in cands;
  }

  ghost predicate NoRepeats(s: seq<Tag>) { forall i, j :: 0 <= i < j < |s| ==> s[i] != s[j] }

  ghost predicate RepeatFree(cfg: Config, st: State) {
    && (forall g :: g in st.candidates ==> NoRepeats(st.candidates[g]))
    && (forall i :: 0 <= i < |cfg.groups| ==> NoRepeats(cfg.groups[i].outbounds))
  }

  lemma {:induction false} CountInNoRepeats(s: seq<Tag>, t: Tag)
    requires NoRepeats(s)
    ensures multiset(s)[t] <= 1
  {
    if s != [] {
      var init := s[..|s| - 1];
      assert s == init + [s[|s| - 1]];
      CountInNoRepeats(init, t);
      assert multiset(init)[t] == 1 ==> t in init;
    }
  }

  lemma {:induction false} MergeNoRepeats(list: seq<Tag>, more: seq<Tag>)
    requires NoRepeats(list)
    ensures NoRepeats(Merge(list, more))
  {
    if more != [] {
      MergeNoRepeats(list, more[..|more| - 1]);
    }
  }

  lemma {:induction false} RegisterNoRepeats(cands: map<Tag, seq<Tag>>, groups: seq<Group>)
    requires forall g :: g in cands ==> NoRepeats(cands[g])
    requires forall i :: 0 <= i < |groups| ==> NoRepeats(groups[i].outbounds)
    ensures forall g :: g in RegisterAll(cands, groups) ==> NoRepeats(RegisterAll(cands, groups)[g])
  {
    if groups != [] {
      var init, g := groups[..|groups| - 1], groups[|groups| - 1];
      RegisterNoRepeats(cands, init);
      var before := RegisterAll(cands, init);
      if g.tag in before {
        MergeNoRepeats(before[g.tag], g.outbounds);
      }
    }
  }

  lemma FilterNoRepeats(s: seq<Tag>, p: Tag -> bool)
    requires NoRepeats(s)
    ensures NoRepeats(Filter(s, p))
  {
    var r := Filter(s, p);
    forall i, j | 0 <= i < j < |r| ensures r[i] != r[j] {
      if r[i] == r[j] {
        TwiceCounts(r, i, j);
        FilterCount(s, p, r[i]);
        CountInNoRepeats(s, r[i]);
      }
    }
  }

  /** Lists without repetitions stay so in every cycle, and with them silent cycles change nothing at all. */
  lemma RepeatFreeIsKept(cfg: Config, st: State, env: Env)
    requires RepeatFree(cfg, st)
    ensures var cfg', st' := NextConfig(cfg, st, env), NextState(cfg, st, env);
      && RepeatFree(cfg', st')
      && forall i, threshold :: 0 <= i < |cfg'.groups| ==> !LoneRepeat(cfg'.groups[i], st', threshold)
  {
    var valid, st' := ValidTags(cfg, env.forbidden), NextState(cfg, st, env);
    RegisterNoRepeats(st.candidates, cfg.groups);
    forall g | g in st'.candidates ensures NoRepeats(st'.candidates[g]) {
      FilterNoRepeats(RegisterAll(st.candidates, cfg.groups)[g], OneOf(valid));
    }
    hide NextState, NoRepeats, ValidTags;
    NoneRepeats();
    forall i | 0 <= i < |cfg.groups| ensures NoRepeats(Harmonized(cfg.groups[i], st', env, valid).outbounds) {
      MembersNoRepeats(cfg.groups[i], st', env, valid);
    }
    forall i, threshold | 0 <= i < |cfg.groups|
      ensures !LoneRepeat(NextConfig(cfg, st, env).groups[i], st', threshold)
    {
      var g := NextConfig(cfg, st, env).groups[i];
      if g.outbounds != [] {
        CountInNoRepeats(ListOf(st'.candidates, g.tag), g.outbounds[0]);
      }
    }
  }

  lemma NoneRepeats()
    ensures NoRepeats([])
  {
  }

  lemma MembersNoRepeats(g: Group, st: State, env: Env, valid: set<Tag>)
    requires NoRepeats(g.outbounds) && NoRepeats(ListOf(st.candidates, g.tag))
    ensures NoRepeats(Harmonized(g, st, env, valid).outbounds)
  {
    FilterNoRepeats(ListOf(st.candidates, g.tag), Qualified(g.outbounds, st.failCounts, env));
    FilterNoRepeats(g.outbounds, OneOf(valid));
  }

  // ---- Runs ----

  /** Consecutive saved cycles. Between them the configuration may be rebuilt; the state file is left alone. */
  ghost predicate Run(states: seq<State>, cfgs: seq<Config>, envs: seq<Env>) {
    && |states| == |cfgs| + 1 == |envs| + 1
    && forall k :: 0 <= k < |cfgs| ==> states[k + 1] == NextState(cfgs[k], states[k], envs[k])
  }

  /** How often `t` failed, other than by the checker's infrastructure, since it last proved itself alive, or since
      the first cycle. */
  function DeadSince(envs: seq<Env>, t: Tag): nat {
    if envs == [] then 0
    else
      var probes, before := envs[|envs| - 1].probes, DeadSince(envs[..|envs| - 1], t);
      if t !in probes then before
      else
        match probes[t].alive
        case Unsure => before
        case Yes => if probes[t].caveat.NoCaveat? || probes[t].caveat.OtherCaveat? then 0 else before
        case No => if probes[t].caveat.InfraCaveat? then before else before + 1
  }

  predicate EverVerified(envs: seq<Env>, t: Tag) {
    exists k :: 0 <= k < |envs| && ProvedAlive(envs[k].probes, t)
  }

  predicate ProvedAlive(probes: Probes, t: Tag) {
    t in probes && probes[t].alive == Yes && (probes[t].caveat == NoCaveat || probes[t].caveat == OtherCaveat)
  }

  /** min(100, dead verdicts since the last verification), counting on from `first` while never verified. */
  function ExpectedCount(first: nat, envs: seq<Env>, t: Tag): nat {
    Min(100, DeadSince(envs, t) + if EverVerified(envs, t) then 0 else first)
  }

  lemma ExpectedStart(first: nat, envs: seq<Env>, t: Tag)
    requires first <= 100
    ensures ExpectedCount(first, envs[..0], t) == first
  {
    assert envs[..0] == [];
  }

  lemma ExpectedStep(first: nat, envs: seq<Env>, k: nat, t: Tag)
    requires 0 < k <= |envs|
    ensures ExpectedCount(first, envs[..k], t)
         == NextCount(ExpectedCount(first, envs[..k - 1], t), VerdictOf(ResultOf(envs[k - 1].probes, t)))
  {
    DeadSinceStep(envs, k, t);
    EverVerifiedStep(envs, k, t);
    hide EverVerified, DeadSince, InfraFailure;
  }

  lemma {:induction false} StaysReferenced(states: seq<State>, cfgs: seq<Config>, envs: seq<Env>, g: Tag, t: Tag,
                                           k: nat)
    requires Run(states, cfgs, envs) && k <= |cfgs|
    requires g in states[0].candidates && t in states[0].candidates[g]
    requires forall i :: 0 <= i < k ==> t in ValidTags(cfgs[i], envs[i].forbidden)
    ensures g in states[k].candidates && t in states[k].candidates[g]
  {
    if k > 0 {
      StaysReferenced(states, cfgs, envs, g, t, k - 1);
      hide NextState, ValidTags;
      assert states[k] == NextState(cfgs[k - 1], states[k - 1], envs[k - 1]);
      CandidatesPersist(cfgs[k - 1], states[k - 1], envs[k - 1], g, t);
    }
  }

  /** A continuously valid candidate's failure count is exactly what its verdicts so far say. */
  lemma {:induction false} CountIsDeadSince(states: seq<State>, cfgs: seq<Config>, envs: seq<Env>, g: Tag, t: Tag,
                                            k: nat)
    requires Run(states, cfgs, envs) && k <= |cfgs|
    requires g in states[0].candidates && t in states[0].candidates[g] && FailsOf(states[0].failCounts, t) <= 100
    requires forall i :: 0 <= i < k ==> t in ValidTags(cfgs[i], envs[i].forbidden)
    ensures FailsOf(states[k].failCounts, t) == ExpectedCount(FailsOf(states[0].failCounts, t), envs[..k], t)
  {
    hide NextState, ValidTags, ExpectedCount, FailsOf, NextCount, VerdictOf;
    if k > 0 {
      CountIsDeadSince(states, cfgs, envs, g, t, k - 1);
      StaysReferenced(states, cfgs, envs, g, t, k);
      assert states[k] == NextState(cfgs[k - 1], states[k - 1], envs[k - 1]);
      assert t in Referenced(states[k].candidates);
      CountAfter(cfgs[k - 1], states[k - 1], envs[k - 1], t);
      ExpectedStep(FailsOf(states[0].failCounts, t), envs, k, t);
    } else {
      ExpectedStart(FailsOf(states[0].failCounts, t), envs, t);
    }
  }

  lemma DeadSinceStep(envs: seq<Env>, k: nat, t: Tag)
    requires 0 < k <= |envs|
    ensures DeadSince(envs[..k], t) ==
      match VerdictOf(ResultOf(envs[k - 1].probes, t))
      case Verified => 0
      case Dead => DeadSince(envs[..k - 1], t) + 1
      case Inconclusive => DeadSince(envs[..k - 1], t)
  {
    assert envs[..k][..k - 1] == envs[..k - 1] && envs[..k][k - 1] == envs[k - 1];
  }

  lemma EverVerifiedStep(envs: seq<Env>, k: nat, t: Tag)
    requires 0 < k <= |envs|
    ensures EverVerified(envs[..k], t) <==>
      EverVerified(envs[..k - 1], t) || VerdictOf(ResultOf(envs[k - 1].probes, t)).Verified?
  {
    assert envs[..k][k - 1] == envs[k - 1];
    if EverVerified(envs[..k - 1], t) {
      var i :| 0 <= i < k - 1 && ProvedAlive(envs[..k - 1][i].probes, t);
      assert envs[..k][i] == envs[..k - 1][i];
    }
    if EverVerified(envs[..k], t) && !ProvedAlive(envs[k - 1].probes, t) {
      var i :| 0 <= i < k && ProvedAlive(envs[..k][i].probes, t);
      assert envs[..k - 1][i] == envs[..k][i];
    }
  }
}

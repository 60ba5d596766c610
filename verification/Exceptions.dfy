/** Per-container exceptions: the stage between the checks and the alert machine. */
module Exceptions {
  import opened Types
  import opened Glob
  import opened Collect
  import opened KeyMachine
  import opened AlertMap

  /** An empty string means the key was not given. */
  datatype MatchSpec = MatchSpec(name: string, image: string, service: string, labelSpec: string)

  datatype Toml = Number(value: real) | OtherValue

  /** `retier` maps to None where the tier name does not parse. */
  datatype Rule = Rule(
    reason: string,
    spec: MatchSpec,
    mute: seq<string>,
    retier: map<string, Option<Tier>>,
    thresholds: map<string, map<string, Toml>>,
    excludeFromBudget: bool,
    expires: string,
    index: nat,
    expired: bool)

  datatype Target = Target(name: string, image: string, service: string, serviceKey: string,
      labels: map<string, string>)

  const HOST_SCOPED: set<string> := {
    "mem_pressure", "committed_as", "declared_overcommit", "disk_fill",
    "disk_inodes", "swap_thrash", "load_high", "boot_storm"
  }

  function TargetOfObservation(o: Observation): Target {
    Target(o.containerName, o.image, o.serviceName, o.serviceName, o.labels)
  }

  function TargetOfContainer(c: Container): Target {
    Target(c.name, c.image, c.ServiceName(), c.ServiceKey(), c.labels)
  }

  function FirstEquals(s: string): (i: nat)
    ensures i <= |s| && (i < |s| ==> s[i] == '=')
  {
    if s == [] || s[0] == '=' then 0 else 1 + FirstEquals(s[1..])
  }

  /** All given match keys must match. */
  predicate SpecMatches(m: MatchSpec, t: Target) {
    && (m.name != "" ==> Accepts(m.name, t.name))
    && (m.image != "" ==> Accepts(m.image, t.image))
    && (m.service != "" ==> Accepts(m.service, t.service) || Accepts(m.service, t.serviceKey))
    && (m.labelSpec != "" ==>
          var i := FirstEquals(m.labelSpec);
          && i < |m.labelSpec| && m.labelSpec[..i] in t.labels
          && Accepts(m.labelSpec[i + 1..], t.labels[m.labelSpec[..i]]))
  }

  predicate ExcludedFromBudget(rules: seq<Rule>, c: Container) {
    exists i :: 0 <= i < |rules| && !rules[i].expired && rules[i].excludeFromBudget
                && SpecMatches(rules[i].spec, TargetOfContainer(c))
  }

  const OVERRIDDEN := "(per-container override)"

  /** The numeric override a rule carries for a check, if the check supports one. */
  function Override(r: Rule, check: string): Option<real> {
    if check == "crashloop" && check in r.thresholds && "restarts" in r.thresholds[check]
       && r.thresholds[check]["restarts"].Number?
    then Some(r.thresholds[check]["restarts"].value)
    else None
  }

  function Redecide(o: Observation, newT: real): Observation {
    if o.measuredValue >= newT then o.(health := BAD, threshold := OVERRIDDEN)
    else o.(health := OK, tier := WARN, fix := "", threshold := OVERRIDDEN)
  }

  predicate Mutes(r: Rule, check: string) { "*" in r.mute || check in r.mute }

  function ApplyRule(r: Rule, o: Observation): Observation {
    var muted := if Mutes(r, o.check) then o.(suppressed := true, suppressedReason := r.reason) else o;
    var ov := Override(r, o.check);
    var decided := if ov.Some? then Redecide(muted, ov.value) else muted;
    if o.check in r.retier && r.retier[o.check].Some? && decided.health == BAD
    then decided.(tier := r.retier[o.check].value)
    else decided
  }

  /** A rule reaches an observation when it is live, the check is not host-scoped and
      every match key matches the container. */
  predicate Reaches(r: Rule, o: Observation) {
    o.check !in HOST_SCOPED && !r.expired && SpecMatches(r.spec, TargetOfObservation(o))
  }

  /** The observation after all rules, top to bottom. */
  function Sieve(rules: seq<Rule>, o: Observation): Observation {
    if rules == [] then o
    else
      var before := Sieve(rules[..|rules| - 1], o);
      var r := rules[|rules| - 1];
      if Reaches(r, o) then ApplyRule(r, before) else before
  }

  function Digits(n: nat): string {
    var d := ["0", "1", "2", "3", "4", "5", "6", "7", "8", "9"][n % 10];
    if n < 10 then d else Digits(n / 10) + d
  }

  function ExpiryWarning(r: Rule): Observation {
    Observation("exception_expired", "rule-" + Digits(r.index), BAD, WARN, "Exception expired",
                r.reason, r.expires, "remove or renew the rule", 0.0, "", "", "", map[], false, "")
  }

  function ExpiryWarnings(rules: seq<Rule>): seq<Observation> {
    if rules == [] then []
    else ExpiryWarnings(rules[..|rules| - 1])
         + if rules[|rules| - 1].expired then [ExpiryWarning(rules[|rules| - 1])] else []
  }

  lemma {:induction false} SieveSkipsHost(rules: seq<Rule>, o: Observation)
    requires o.check in HOST_SCOPED
    ensures Sieve(rules, o) == o
  {
    if rules != [] {
      SieveSkipsHost(rules[..|rules| - 1], o);
    }
  }

  /** Rewrites every observation in place and appends one warning per expired rule. */
  method Apply(rules: seq<Rule>, obs: array<Observation>) returns (out: seq<Observation>)
    modifies obs
    ensures forall i :: 0 <= i < obs.Length ==> obs[i] == Sieve(rules, old(obs[i]))
    ensures out == obs[..] + ExpiryWarnings(rules)
  {
    for i := 0 to obs.Length
      invariant forall k :: 0 <= k < i ==> obs[k] == Sieve(rules, old(obs[k]))
      invariant forall k :: i <= k < obs.Length ==> obs[k] == old(obs[k])
    {
      if obs[i].check in HOST_SCOPED {
        SieveSkipsHost(rules, obs[i]);
        continue;
      }
      var t := TargetOfObservation(obs[i]);
      for j := 0 to |rules|
        invariant obs[i] == Sieve(rules[..j], old(obs[i]))
        invariant forall k :: 0 <= k < obs.Length && k != i ==>
                    obs[k] == if k < i then Sieve(rules, old(obs[k])) else old(obs[k])
      {
        assert rules[..j + 1][..j] == rules[..j];
        if rules[j].expired || !SpecMatches(rules[j].spec, t) {
          continue;
        }
        obs[i] := ApplyRule(rules[j], obs[i]);
      }
      assert rules[..|rules|] == rules;
    }
    out := obs[..];
    for j := 0 to |rules|
      invariant out == obs[..] + ExpiryWarnings(rules[..j])
    {
      assert rules[..j + 1][..j] == rules[..j];
      if rules[j].expired {
        out := out + [ExpiryWarning(rules[j])];
      }
    }
    assert rules[..|rules|] == rules;
  }

  /** What the stage makes of a run's observations. */
  function Transformed(rules: seq<Rule>, raw: seq<Observation>): seq<Observation> {
    seq(|raw|, i requires 0 <= i < |raw| => Sieve(rules, raw[i])) + ExpiryWarnings(rules)
  }

  method Transform(rules: seq<Rule>, raw: seq<Observation>) returns (out: seq<Observation>)
    ensures out == Transformed(rules, raw)
  {
    var obs := new Observation[|raw|](i requires 0 <= i < |raw| => raw[i]);
    out := Apply(rules, obs);
    assert obs[..] == seq(|raw|, i requires 0 <= i < |raw| => Sieve(rules, raw[i]));
  }

  // ---- what the stage promises ----

  /** The last rule that reaches an observation and mutes its check. */
  function LastMute(rules: seq<Rule>, o: Observation): (r: Option<Rule>)
    ensures r.Some? <==> exists i :: 0 <= i < |rules| && Reaches(rules[i], o) && Mutes(rules[i], o.check)
  {
    if rules == [] then None
    else
      var r := rules[|rules| - 1];
      if Reaches(r, o) && Mutes(r, o.check) then Some(r) else LastMute(rules[..|rules| - 1], o)
  }

  predicate Overridden(rules: seq<Rule>, o: Observation) {
    exists i :: 0 <= i < |rules| && Reaches(rules[i], o) && Override(rules[i], o.check).Some?
  }

  lemma {:induction false} ApplyRuleKeeps(r: Rule, o: Observation)
    ensures var a := ApplyRule(r, o);
            && a.check == o.check && a.scope == o.scope && a.measuredValue == o.measuredValue
            && a.measured == o.measured && TargetOfObservation(a) == TargetOfObservation(o)
            && (a.suppressed <==> o.suppressed || Mutes(r, o.check))
            && a.suppressedReason == (if Mutes(r, o.check) then r.reason else o.suppressedReason)
            && a.health == match Override(r, o.check)
                 case None => o.health
                 case Some(t) => if o.measuredValue >= t then BAD else OK
  {
  }

  /** A mute relabels, it never hides: the observation stays, under the same key, with
      the same measurement and container, and is suppressed exactly when a rule that
      reaches it mutes its check, for the reason the last such rule gives. */
  lemma {:induction false} MuteOnlyRelabels(rules: seq<Rule>, o: Observation)
    ensures var r := Sieve(rules, o);
            && r.check == o.check && r.scope == o.scope && r.measuredValue == o.measuredValue
            && r.measured == o.measured && TargetOfObservation(r) == TargetOfObservation(o)
            && (r.suppressed <==> o.suppressed || LastMute(rules, o).Some?)
            && r.suppressedReason == match LastMute(rules, o)
                 case None => o.suppressedReason
                 case Some(m) => m.reason
  {
    if rules != [] {
      var n := |rules| - 1;
      MuteOnlyRelabels(rules[..n], o);
      ApplyRuleKeeps(rules[n], Sieve(rules[..n], o));
    }
  }

  /** The last override that reaches the observation. */
  function LastOverride(rules: seq<Rule>, o: Observation): (t: Option<real>)
    ensures t.Some? <==> Overridden(rules, o)
  {
    if rules == [] then None
    else
      var r := rules[|rules| - 1];
      if Reaches(r, o) && Override(r, o.check).Some? then Override(r, o.check)
      else LastOverride(rules[..|rules| - 1], o)
  }

  /** The verdict by the last override alone. */
  function FinalHealth(rules: seq<Rule>, o: Observation): Health {
    match LastOverride(rules, o)
    case None => o.health
    case Some(t) => if o.measuredValue >= t then BAD else OK
  }

  /** The last override wins and alone decides the verdict; without one the check's own
      verdict stands, UNKNOWN included. */
  lemma {:induction false} LastOverrideWins(rules: seq<Rule>, o: Observation)
    ensures var r := Sieve(rules, o);
            r.check == o.check && r.measuredValue == o.measuredValue && r.health == FinalHealth(rules, o)
  {
    if rules != [] {
      var n := |rules| - 1;
      LastOverrideWins(rules[..n], o);
      MuteOnlyRelabels(rules[..n], o);
      ApplyRuleKeeps(rules[n], Sieve(rules[..n], o));
    }
  }

  /** The design's first rule, "could not measure" is not "healthy", survives this stage
      if and only if no live rule that reaches the observation overrides its threshold;
      and nothing measured becomes UNKNOWN. */
  lemma {:induction false} UnknownSurvivesExactly(rules: seq<Rule>, o: Observation)
    ensures Sieve(rules, o).health == UNKNOWN <==> o.health == UNKNOWN && !Overridden(rules, o)
  {
    LastOverrideWins(rules, o);
  }

  // ---- what the last rule does not undo ----

  /** The rule reaches the observation and overrides its threshold with one above its
      measured value. */
  predicate Lowers(r: Rule, o: Observation) {
    Reaches(r, o) && Override(r, o.check).Some? && o.measuredValue < Override(r, o.check).value
  }

  predicate Lowered(rules: seq<Rule>, o: Observation, from: nat) {
    exists i :: from <= i < |rules| && Lowers(rules[i], o)
  }

  predicate Retiers(r: Rule, o: Observation) {
    Reaches(r, o) && o.check in r.retier && r.retier[o.check].Some?
  }

  /** The last rule that reaches the observation and rewrites its check's tier. */
  function LastRetier(rules: seq<Rule>, o: Observation): (i: Option<nat>)
    ensures i.Some? ==> i.value < |rules| && Retiers(rules[i.value], o)
    ensures forall j :: 0 <= j < |rules| && (i.Some? ==> i.value < j) ==> !Retiers(rules[j], o)
  {
    if rules == [] then None
    else
      var n := |rules| - 1;
      if Retiers(rules[n], o) then Some(n) else LastRetier(rules[..n], o)
  }

  /** One rule's effect on the tier. */
  lemma {:induction false} TierOfOne(r: Rule, o: Observation)
    requires Reaches(r, o)
    ensures var a := ApplyRule(r, o);
            && a.tier == (if Retiers(r, o) && a.health == BAD then r.retier[o.check].value
                          else if Lowers(r, o) then WARN else o.tier)
            && a.fix == (if Lowers(r, o) then "" else o.fix)
  {
  }

  /** Whether a rule reaches, retiers or lowers an observation is settled before any rule
      is applied. */
  lemma {:induction false} SameForAll(r: Rule, rules: seq<Rule>, o: Observation)
    ensures var a := Sieve(rules, o);
            && (Reaches(r, a) <==> Reaches(r, o)) && (Retiers(r, a) <==> Retiers(r, o))
            && (Lowers(r, a) <==> Lowers(r, o)) && a.check == o.check
  {
    MuteOnlyRelabels(rules, o);
  }

  lemma {:induction false} SieveSnoc(rules: seq<Rule>, o: Observation)
    requires rules != []
    ensures var n := |rules| - 1;
            var before := Sieve(rules[..n], o);
            Sieve(rules, o) == if Reaches(rules[n], o) then ApplyRule(rules[n], before) else before
  {
  }

  lemma {:induction false} LoweredSnoc(rules: seq<Rule>, o: Observation, from: nat)
    requires rules != []
    ensures var n := |rules| - 1;
            Lowered(rules, o, from) <==> Lowered(rules[..n], o, from) || (from <= n && Lowers(rules[n], o))
  {
    var n := |rules| - 1;
    if Lowered(rules[..n], o, from) {
      var i :| from <= i < n && Lowers(rules[..n][i], o);
      assert Lowers(rules[i], o);
    }
    if i :| from <= i < |rules| && Lowers(rules[i], o) && i < n {
      assert Lowers(rules[..n][i], o);
    }
  }

  /** An observation that is not BAD after some rules has the tier WARN if an override made
      it so, else its own; and its fix is cleared once any override lowered it. */
  lemma {:induction false} QuietTier(rules: seq<Rule>, o: Observation)
    ensures var a := Sieve(rules, o);
            && a.health == FinalHealth(rules, o)
            && (a.health != BAD ==> a.tier == if LastOverride(rules, o).Some? then WARN else o.tier)
            && a.fix == if Lowered(rules, o, 0) then "" else o.fix
  {
    LastOverrideWins(rules, o);
    if rules != [] {
      var n := |rules| - 1;
      var before := Sieve(rules[..n], o);
      QuietTier(rules[..n], o);
      SieveSnoc(rules, o);
      SameForAll(rules[n], rules[..n], o);
      if Reaches(rules[n], o) {
        TierOfOne(rules[n], before);
      }
      LoweredSnoc(rules, o, 0);
    }
  }

  /** The tier after all rules, read off the rules: an override that once lowered the
      observation leaves WARN behind, which only a later retier of a BAD one removes. */
  function FinalTier(rules: seq<Rule>, o: Observation): Tier {
    match LastRetier(rules, o)
    case None => if Lowered(rules, o, 0) then WARN else o.tier
    case Some(i) =>
      if Lowered(rules, o, i + 1) then WARN
      else if FinalHealth(rules[..i + 1], o) == BAD then rules[i].retier[o.check].value
      else if LastOverride(rules[..i + 1], o).Some? then WARN
      else o.tier
  }

  lemma {:induction false} PastLastRetier(rules: seq<Rule>, o: Observation)
    requires rules != [] && !Retiers(rules[|rules| - 1], o)
    ensures var p, r := rules[..|rules| - 1], rules[|rules| - 1];
            FinalTier(rules, o) == if Lowers(r, o) then WARN else FinalTier(p, o)
  {
    var p := rules[..|rules| - 1];
    match LastRetier(p, o) {
      case None => LoweredSnoc(rules, o, 0);
      case Some(i) =>
        LoweredSnoc(rules, o, i + 1);
        assert p[..i + 1] == rules[..i + 1];
    }
  }

  /** The exact law of the tier. */
  lemma {:induction false} TierIsFinal(rules: seq<Rule>, o: Observation)
    ensures Sieve(rules, o).tier == FinalTier(rules, o)
  {
    if rules != [] {
      var n := |rules| - 1;
      var p, r := rules[..n], rules[n];
      TierIsFinal(p, o);
      SieveSnoc(rules, o);
      SameForAll(r, p, o);
      QuietTier(rules, o);
      if Reaches(r, o) {
        TierOfOne(r, Sieve(p, o));
      }
      if Retiers(r, o) {
        assert rules[..n + 1] == rules;
        assert !Lowered(rules, o, n + 1);
      } else {
        PastLastRetier(rules, o);
      }
    }
  }

  /** The tier that the rules ask for: the last rewrite's, or the check's own. */
  function AskedTier(rules: seq<Rule>, o: Observation): Tier {
    match LastRetier(rules, o)
    case None => o.tier
    case Some(i) => rules[i].retier[o.check].value
  }

  /** "A later rule wins": a BAD observation has the tier the rules ask for if and only if
      that tier is WARN anyway, or no override lowered it after the last retier, and that
      retier, if any, met a BAD or asked for what was there. */
  lemma {:induction false} LaterRuleWinsExactly(rules: seq<Rule>, o: Observation)
    requires Sieve(rules, o).health == BAD
    ensures Sieve(rules, o).tier == AskedTier(rules, o) <==>
            match LastRetier(rules, o)
            case None => o.tier == WARN || !Lowered(rules, o, 0)
            case Some(i) =>
              if Lowered(rules, o, i + 1) then AskedTier(rules, o) == WARN
              else
                || FinalHealth(rules[..i + 1], o) == BAD
                || AskedTier(rules, o) == if LastOverride(rules[..i + 1], o).Some? then WARN else o.tier
  {
    TierIsFinal(rules, o);
  }

  /** Two overrides of a crash count of 10, which the check put at ALERT: with 20 and then 5
      it is BAD at WARN, with 5 alone BAD at ALERT. */
  lemma {:induction false} EarlierOverrideLowersTier(lax: Rule, strict: Rule, o: Observation)
    requires Reaches(lax, o) && Reaches(strict, o) && o.check == "crashloop"
    requires Override(lax, "crashloop") == Some(20.0) && Override(strict, "crashloop") == Some(5.0)
    requires !Retiers(lax, o) && !Retiers(strict, o) && o.measuredValue == 10.0 && o.tier == ALERT
    ensures var both, one := Sieve([lax, strict], o), Sieve([strict], o);
            && both.health == BAD && both.tier == WARN && both.fix == ""
            && one.health == BAD && one.tier == ALERT && one.fix == o.fix
  {
    var both := [lax, strict];
    assert Lowers(both[0], o) && !Lowers(strict, o);
    assert !Lowered([strict], o, 0);
    QuietTier(both, o);
    QuietTier([strict], o);
    TierIsFinal(both, o);
    TierIsFinal([strict], o);
  }

  /** Where it does not survive: with a restart override on a crash-looping service,
      uninspected containers that crashed nowhere in sight read as OK, and two such
      blind runs send a green RESOLVED for a key nobody could measure. */
  lemma {:induction false} OverrideMakesFalseAllClear(
      cfg: Config, r: Rule, o: Observation, s: Option<KeyRecord>, env1: Env, env2: Env)
    requires Reaches(r, o) && o.check == "crashloop" && o.health == UNKNOWN && !o.suppressed
    requires Override(r, "crashloop") == Some(20.0) && o.measuredValue < 20.0 && r.mute == []
    requires Firing(s) && s.value.notifiedTargets != []
    requires s.value.consecutiveOK == 0 && cfg.resolveSamples == 2
    ensures var seen := Sieve([r], o);
            var once := Step(cfg, s, seen, env1);
            var twice := Step(cfg, once.state, seen, env2);
            && twice.state.None?
            && twice.sent == [Decision(BuildAlert(seen, s.value.tier, RESOLVED, env2), s.value.notifiedTargets)]
  {
    assert [r][..0] == [];
    LastOverrideWins([r], o);
    MuteOnlyRelabels([r], o);
    assert LastOverride([r], o) == Some(20.0);
  }

  /** The same override under `name = "*"` also reaches the coarse observation of a
      Docker outage, which names no container: the outage is not seen as one, so no
      firing key is told that monitoring is degraded. */
  lemma {:induction false} OverrideHidesOutage(r: Rule, o: Observation)
    requires Coarse(o) && o.check == "crashloop" && o.containerName == "" && o.measuredValue == 0.0
    requires !r.expired && r.spec == MatchSpec("*", "", "", "") && Override(r, "crashloop") == Some(20.0)
    ensures DownChecks([o]) == {"crashloop"} && DownChecks([Sieve([r], o)]) == {}
  {
    assert AllStars("*", 0);
    assert Accepts("*", "");
    assert Reaches(r, o);
    LastOverrideWins([r], o);
    assert LastOverride([r], o) == Some(20.0);
    assert Sieve([r], o).health == OK;
    assert o in [o];
  }
}

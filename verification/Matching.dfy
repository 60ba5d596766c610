/** What a rule does to an observation, in the fields of the rule and of the container: the
    match keys by the declarative meaning of a pattern, the mute, the override, the rewritten
    tier, and the warning of an expired rule. */
module Matching {
  import opened Types
  import opened Glob
  import opened Collect
  import opened Exceptions

  // ---- match keys ----

  /** The label is there under the key before the first '=', and its value matches what
      follows. */
  predicate LabelDescribes(spec: string, labels: map<string, string>) {
    exists i :: && 0 <= i < |spec| && spec[i] == '=' && '=' !in spec[..i]
                && spec[..i] in labels && Matches(spec[i + 1..], labels[spec[..i]])
  }

  /** Each given key matches: name against name, image against image, service against any
      service name of the container, label value under its key. */
  predicate Describes(m: MatchSpec, name: string, image: string, services: set<string>, labels: map<string, string>) {
    && (m.name == "" || Matches(m.name, name))
    && (m.image == "" || Matches(m.image, image))
    && (m.service == "" || exists s :: s in services && Matches(m.service, s))
    && (m.labelSpec == "" || LabelDescribes(m.labelSpec, labels))
  }

  /** No name, image or label value of a container contains a '*'. */
  predicate Plain(name: string, image: string, services: set<string>, labels: map<string, string>) {
    && '*' !in name && '*' !in image && (forall s :: s in services ==> '*' !in s)
    && forall k :: k in labels ==> '*' !in labels[k]
  }

  /** The matcher errs in one direction only, and not at all without a '*'. */
  lemma {:induction false} AcceptsOneWay(p: string, s: string)
    ensures Accepts(p, s) ==> Matches(p, s)
    ensures '*' !in s ==> Accepts(p, s) == Matches(p, s)
  {
    if Accepts(p, s) {
      AcceptsSoundly(p, s);
    }
    if '*' !in s {
      AcceptsExactly(p, s);
    }
  }

  lemma {:induction false} FirstEqualsIsFirst(s: string)
    ensures '=' !in s[..FirstEquals(s)]
    ensures forall i :: 0 <= i < |s| && s[i] == '=' && '=' !in s[..i] ==> i == FirstEquals(s)
    decreases |s|
  {
    if s != [] && s[0] != '=' {
      var rest := s[1..];
      FirstEqualsIsFirst(rest);
      assert s[..1 + FirstEquals(rest)] == [s[0]] + rest[..FirstEquals(rest)];
    }
  }

  lemma {:induction false} LabelExactly(spec: string, labels: map<string, string>)
    ensures var i := FirstEquals(spec);
            && (i < |spec| && spec[..i] in labels && Accepts(spec[i + 1..], labels[spec[..i]]) ==>
                  LabelDescribes(spec, labels))
            && ((forall k :: k in labels ==> '*' !in labels[k]) && LabelDescribes(spec, labels) ==>
                  i < |spec| && spec[..i] in labels && Accepts(spec[i + 1..], labels[spec[..i]]))
  {
    var i := FirstEquals(spec);
    FirstEqualsIsFirst(spec);
    if i < |spec| && spec[..i] in labels {
      AcceptsOneWay(spec[i + 1..], labels[spec[..i]]);
    }
  }

  /** The stage's test of a rule's match keys is the declarative one on any container
      without a '*', and never wider on any container. */
  lemma {:induction false} MatchesExactly(m: MatchSpec, t: Target)
    ensures SpecMatches(m, t) ==> Describes(m, t.name, t.image, {t.service, t.serviceKey}, t.labels)
    ensures Plain(t.name, t.image, {t.service, t.serviceKey}, t.labels) ==>
              (SpecMatches(m, t) <==> Describes(m, t.name, t.image, {t.service, t.serviceKey}, t.labels))
  {
    AcceptsOneWay(m.name, t.name);
    AcceptsOneWay(m.image, t.image);
    AcceptsOneWay(m.service, t.service);
    AcceptsOneWay(m.service, t.serviceKey);
    LabelExactly(m.labelSpec, t.labels);
    assert t.service in {t.service, t.serviceKey} && t.serviceKey in {t.service, t.serviceKey};
  }

  // ---- one rule, one observation ----

  predicate PlainObservation(o: Observation) { Plain(o.containerName, o.image, {o.serviceName}, o.labels) }

  /** The rule is live, the check is one of a container, and the container is described. */
  predicate Hits(r: Rule, o: Observation) {
    && !r.expired
    && o.check !in {"mem_pressure", "committed_as", "declared_overcommit", "disk_fill",
                    "disk_inodes", "swap_thrash", "load_high", "boot_storm"}
    && Describes(r.spec, o.containerName, o.image, {o.serviceName}, o.labels)
  }

  lemma {:induction false} ReachesExactly(r: Rule, o: Observation)
    ensures Reaches(r, o) ==> Hits(r, o)
    ensures PlainObservation(o) ==> (Reaches(r, o) <==> Hits(r, o))
  {
    MatchesExactly(r.spec, TargetOfObservation(o));
    assert {o.serviceName, o.serviceName} == {o.serviceName};
  }

  /** A muting rule suppresses an observation if and only if it is live, the check is of a
      container, and each key given matches: name against the container's name, image
      against its image, service against its service, label value under its key. */
  lemma {:induction false} MutedExactly(r: Rule, o: Observation)
    requires PlainObservation(o) && !o.suppressed
    ensures Sieve([r], o).suppressed <==>
            && ("*" in r.mute || o.check in r.mute)
            && !r.expired
            && o.check !in {"mem_pressure", "committed_as", "declared_overcommit", "disk_fill",
                            "disk_inodes", "swap_thrash", "load_high", "boot_storm"}
            && (r.spec.name == "" || Matches(r.spec.name, o.containerName))
            && (r.spec.image == "" || Matches(r.spec.image, o.image))
            && (r.spec.service == "" || Matches(r.spec.service, o.serviceName))
            && (r.spec.labelSpec == "" ||
                exists i :: && 0 <= i < |r.spec.labelSpec| && r.spec.labelSpec[i] == '='
                            && '=' !in r.spec.labelSpec[..i] && r.spec.labelSpec[..i] in o.labels
                            && Matches(r.spec.labelSpec[i + 1..], o.labels[r.spec.labelSpec[..i]]))
    ensures Sieve([r], o).suppressed ==> Sieve([r], o).suppressedReason == r.reason
  {
    assert [r][..0] == [];
    ReachesExactly(r, o);
  }

  /** Over a list of rules, an observation is suppressed if it was, or if a live muting
      rule describes the container; and only then, even where names contain a '*'. */
  lemma {:induction false} MutedByAnyExactly(rules: seq<Rule>, o: Observation)
    ensures Sieve(rules, o).suppressed ==>
            o.suppressed || exists r :: r in rules && Hits(r, o) && ("*" in r.mute || o.check in r.mute)
    ensures PlainObservation(o) ==>
            (Sieve(rules, o).suppressed <==>
             o.suppressed || exists r :: r in rules && Hits(r, o) && ("*" in r.mute || o.check in r.mute))
  {
    MuteOnlyRelabels(rules, o);
    forall r | r in rules
      ensures Reaches(r, o) ==> Hits(r, o)
      ensures PlainObservation(o) ==> (Reaches(r, o) <==> Hits(r, o))
    {
      ReachesExactly(r, o);
    }
    if PlainObservation(o) && exists r :: r in rules && Hits(r, o) && ("*" in r.mute || o.check in r.mute) {
      var r :| r in rules && Hits(r, o) && ("*" in r.mute || o.check in r.mute);
      var i :| 0 <= i < |rules| && rules[i] == r;
      assert Reaches(rules[i], o) && Mutes(rules[i], o.check);
    }
  }

  /** The rule gives a number for the one threshold that can be overridden. */
  predicate Numbers(r: Rule, o: Observation) {
    && o.check == "crashloop" && "crashloop" in r.thresholds && "restarts" in r.thresholds["crashloop"]
    && r.thresholds["crashloop"]["restarts"].Number?
  }

  /** All that a rule that hits does beyond muting. A number for `crashloop.restarts`
      decides BAD or OK by the measured value, whatever the check said, and what it finds
      OK has no urgency and no fix left; a tier for the check is then given to what is
      BAD. Nothing else of the observation changes, and nothing at all if the rule does
      not hit. */
  lemma {:induction false} OneRuleExactly(r: Rule, o: Observation)
    requires PlainObservation(o)
    ensures var a := Sieve([r], o);
            && (!Hits(r, o) ==> a == o)
            && (Hits(r, o) ==>
                  var number := if Numbers(r, o) then r.thresholds["crashloop"]["restarts"].value else 0.0;
                  var lowered := Numbers(r, o) && o.measuredValue < number;
                  && (Numbers(r, o) ==> a.health == if o.measuredValue >= number then BAD else OK)
                  && (!Numbers(r, o) ==> a.health == o.health && a.threshold == o.threshold)
                  && (lowered ==> a.tier == 0 && a.fix == "")
                  && (!lowered ==> a.fix == o.fix)
                  && (!lowered && a.health == BAD && o.check in r.retier && r.retier[o.check].Some? ==>
                        a.tier == r.retier[o.check].value)
                  && (!lowered && !(a.health == BAD && o.check in r.retier && r.retier[o.check].Some?) ==>
                        a.tier == o.tier))
            && a == o.(health := a.health, tier := a.tier, fix := a.fix, threshold := a.threshold,
                       suppressed := a.suppressed, suppressedReason := a.suppressedReason)
  {
    assert [r][..0] == [];
    ReachesExactly(r, o);
  }

  // ---- the budget's exclusions ----

  /** A container is left out of the budget if and only if a live rule that says so
      describes it, by either of its service names. */
  lemma {:induction false} ExcludedExactly(rules: seq<Rule>, c: Container)
    requires Plain(c.name, c.image, {c.ServiceName(), c.ServiceKey()}, c.labels)
    ensures ExcludedFromBudget(rules, c) <==>
            exists r :: && r in rules && !r.expired && r.excludeFromBudget
                        && Describes(r.spec, c.name, c.image, {c.ServiceName(), c.ServiceKey()}, c.labels)
  {
    forall r | r in rules
      ensures SpecMatches(r.spec, TargetOfContainer(c)) <==>
              Describes(r.spec, c.name, c.image, {c.ServiceName(), c.ServiceKey()}, c.labels)
    {
      MatchesExactly(r.spec, TargetOfContainer(c));
    }
    if r :| && r in rules && !r.expired && r.excludeFromBudget
            && Describes(r.spec, c.name, c.image, {c.ServiceName(), c.ServiceKey()}, c.labels) {
      var i :| 0 <= i < |rules| && rules[i] == r;
    }
  }

  // ---- warnings of expired rules ----

  function DigitValue(c: char): int { c as int - '0' as int }

  /** The number a decimal numeral stands for. */
  function ValueOf(s: string): int {
    if s == [] then 0 else 10 * ValueOf(s[..|s| - 1]) + DigitValue(s[|s| - 1])
  }

  lemma {:induction false} DigitsStandFor(n: nat)
    ensures ValueOf(Digits(n)) == n
  {
    var s := Digits(n);
    if n < 10 {
      assert s[..0] == [];
    } else {
      DigitsStandFor(n / 10);
      assert s[..|s| - 1] == Digits(n / 10);
    }
  }

  /** Rules at different places are warned about under different keys. */
  lemma {:induction false} WarningsApart(r: Rule, q: Rule)
    ensures ExpiryWarning(r).Key() == ExpiryWarning(q).Key() <==> r.index == q.index
  {
    DigitsStandFor(r.index);
    DigitsStandFor(q.index);
    var a, b := ExpiryWarning(r).Key(), ExpiryWarning(q).Key();
    var head := "exception_expired" + ":" + "rule-";
    assert a == head + Digits(r.index) && b == head + Digits(q.index);
    assert a[|head|..] == Digits(r.index) && b[|head|..] == Digits(q.index);
  }

  predicate Warns(r: Rule, w: Observation) {
    && w.check == "exception_expired" && w.scope == "rule-" + Digits(r.index)
    && w.health == BAD && w.tier == 0 && !w.suppressed && w.threshold == r.expires
  }

  lemma {:induction false} WarningsSnoc(rules: seq<Rule>)
    requires rules != []
    ensures var n := |rules| - 1;
            && rules == rules[..n] + [rules[n]]
            && (rules[n].expired ==> ExpiryWarnings(rules) == ExpiryWarnings(rules[..n]) + [ExpiryWarning(rules[n])])
            && (!rules[n].expired ==> ExpiryWarnings(rules) == ExpiryWarnings(rules[..n]))
  {
  }

  lemma {:induction false} ExpiredIsWarnedAbout(rules: seq<Rule>, r: Rule)
    requires r in rules && r.expired
    ensures ExpiryWarning(r) in ExpiryWarnings(rules)
  {
    WarningsSnoc(rules);
    var n := |rules| - 1;
    if r != rules[n] {
      ExpiredIsWarnedAbout(rules[..n], r);
    }
  }

  lemma {:induction false} WarningHasRule(rules: seq<Rule>, w: Observation) returns (r: Rule)
    requires w in ExpiryWarnings(rules)
    ensures r in rules && r.expired && w == ExpiryWarning(r)
  {
    WarningsSnoc(rules);
    var n := |rules| - 1;
    if rules[n].expired && w == ExpiryWarning(rules[n]) {
      r := rules[n];
    } else {
      r := WarningHasRule(rules[..n], w);
    }
  }

  /** An expired rule is warned about, and nothing else is: a BAD of the lowest tier that
      is not suppressed. */
  lemma {:induction false} WarningsExactly(rules: seq<Rule>)
    ensures forall r :: r in rules && r.expired ==> exists w :: w in ExpiryWarnings(rules) && Warns(r, w)
    ensures forall w :: w in ExpiryWarnings(rules) ==> exists r :: r in rules && r.expired && Warns(r, w)
  {
    forall r | r in rules && r.expired
      ensures exists w :: w in ExpiryWarnings(rules) && Warns(r, w)
    {
      ExpiredIsWarnedAbout(rules, r);
      assert Warns(r, ExpiryWarning(r));
    }
    forall w | w in ExpiryWarnings(rules)
      ensures exists r :: r in rules && r.expired && Warns(r, w)
    {
      var r := WarningHasRule(rules, w);
      assert Warns(r, w);
    }
  }

  /** And once each: the warnings' keys are those of different alerts. */
  lemma {:induction false} WarnedOnce(rules: seq<Rule>)
    requires forall i, j :: 0 <= i < j < |rules| ==> rules[i].index != rules[j].index
    ensures var ws := ExpiryWarnings(rules);
            forall i, j :: 0 <= i < j < |ws| ==> ws[i].Key() != ws[j].Key()
  {
    if rules != [] {
      var n := |rules| - 1;
      WarningsSnoc(rules);
      WarnedOnce(rules[..n]);
      var before := ExpiryWarnings(rules[..n]);
      forall i | 0 <= i < |before|
        ensures before[i].Key() != ExpiryWarning(rules[n]).Key()
      {
        var r := WarningHasRule(rules[..n], before[i]);
        WarningsApart(r, rules[n]);
      }
    }
  }
}

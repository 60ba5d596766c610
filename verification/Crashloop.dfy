/** The crash-loop check: one observation per service, or a coarse one when Docker cannot be
    read; and what its all-clears are worth. */
module Crashloop {
  import opened Types
  import opened Collect
  import opened Services
  import opened Baselines
  import AlertMap
  import Exceptions

  // ---- the check ----

  /** Whether the state file was there, and was of another boot. */
  datatype Past = Past(hadBaseline: bool, bootChanged: bool)

  datatype Setup = Setup(window: int, limit: int)

  /** A container that speaks for its service: a running one if any, else the last to
      finish, and of those the last to start. */
  predicate Represents(cts: seq<Container>, rep: Container) {
    && rep in cts
    && ((exists i :: 0 <= i < |cts| && cts[i].Running()) ==> rep.Running())
    && (!rep.Running() ==>
          forall i :: 0 <= i < |cts| ==>
            cts[i].finishedAt < rep.finishedAt
            || (cts[i].finishedAt == rep.finishedAt && cts[i].startedAt <= rep.startedAt))
  }

  method Representative(cts: seq<Container>) returns (rep: Container)
    requires cts != []
    ensures Represents(cts, rep)
  {
    for i := 0 to |cts|
      invariant forall k :: 0 <= k < i ==> !cts[k].Running()
    {
      if cts[i].Running() {
        return cts[i];
      }
    }
    rep := cts[0];
    for i := 1 to |cts|
      invariant rep in cts
      invariant forall k :: 0 <= k < i ==>
                  cts[k].finishedAt < rep.finishedAt
                  || (cts[k].finishedAt == rep.finishedAt && cts[k].startedAt <= rep.startedAt)
    {
      var c := cts[i];
      if c.finishedAt > rep.finishedAt || (c.finishedAt == rep.finishedAt && c.startedAt > rep.startedAt) {
        rep := c;
      }
    }
  }

  /** o is about the service, and carries the identity of a container that speaks for it. */
  ghost predicate Names(s: Sample, svc: string, o: Observation) {
    && o.check == "crashloop" && o.scope == svc && !o.suppressed
    && exists rep :: Represents(OfService(s.containers, svc), rep) &&
         Exceptions.TargetOfObservation(o)
         == Exceptions.Target(rep.name, rep.image, rep.ServiceName(), rep.ServiceName(), rep.labels)
  }

  function Crashes(m: Memory, s: Sample, cfg: Setup, svc: string): set<string> {
    CrashesSeen(Find(m.services, svc), SeenBy(s, svc), cfg.window)
  }

  function Restarts(m: Memory, s: Sample, past: Past, svc: string): nat {
    RestartDelta(past.hadBaseline, past.bootChanged, Find(m.services, svc), SeenBy(s, svc))
  }

  /** And says what was found of it, given what was stored. */
  predicate Says(m: Memory, s: Sample, past: Past, cfg: Setup, svc: string, o: Observation) {
    var crashes, restarts := |Crashes(m, s, cfg, svc)|, Restarts(m, s, past, svc);
    && o.health == Verdict(OfService(s.containers, svc), crashes, restarts, cfg.limit)
    && o.measuredValue == (if crashes >= restarts then crashes else restarts) as real
    && (o.health != UNKNOWN ==> o.tier == ALERT)
  }

  ghost predicate Judges(m: Memory, s: Sample, past: Past, cfg: Setup, svc: string, o: Observation) {
    Names(s, svc, o) && Says(m, s, past, cfg, svc, o)
  }

  predicate OutageReport(obs: seq<Observation>) {
    && |obs| == 1 && obs[0].check == "crashloop" && AlertMap.Coarse(obs[0])
    && obs[0].containerName == "" && obs[0].measuredValue == 0.0 && !obs[0].suppressed
  }

  predicate Present(s: Sample, svc: string) { OfService(s.containers, svc) != [] }

  /** Every one of them is the check's word on its own scope. */
  ghost predicate AllJudged(m: Memory, s: Sample, past: Past, cfg: Setup, obs: seq<Observation>) {
    forall o :: o in obs ==> Judges(m, s, past, cfg, o.scope, o)
  }

  predicate DistinctScopes(obs: seq<Observation>) {
    forall i, j :: 0 <= i < j < |obs| ==> obs[i].scope != obs[j].scope
  }

  function ScopesOf(obs: seq<Observation>): set<string> { set o | o in obs :: o.scope }

  /** One observation for each of the services `done`. */
  ghost predicate ReportsOn(m: Memory, s: Sample, past: Past, cfg: Setup, obs: seq<Observation>, done: set<string>) {
    AllJudged(m, s, past, cfg, obs) && DistinctScopes(obs) && ScopesOf(obs) == done
  }

  lemma {:induction false} ScopesSnoc(obs: seq<Observation>, o: Observation)
    ensures ScopesOf(obs + [o]) == ScopesOf(obs) + {o.scope}
    ensures DistinctScopes(obs) && o.scope !in ScopesOf(obs) ==> DistinctScopes(obs + [o])
  {
    assert forall x :: x in obs + [o] <==> x in obs || x == o;
    assert forall i :: 0 <= i < |obs| ==> obs[i] in obs;
  }

  lemma {:induction false} ReportOneMore(m: Memory, s: Sample, past: Past, cfg: Setup, obs: seq<Observation>,
      done: set<string>, svc: string, o: Observation)
    requires ReportsOn(m, s, past, cfg, obs, done) && svc !in done && Judges(m, s, past, cfg, svc, o)
    ensures ReportsOn(m, s, past, cfg, obs + [o], done + {svc})
  {
    ScopesSnoc(obs, o);
    assert AllJudged(m, s, past, cfg, obs + [o]);
  }

  /** The services of a sample. */
  function ServicesOf(s: Sample): set<string> { set c | c in s.containers :: c.ServiceKey() }

  lemma {:induction false} ServicesPresent(cs: seq<Container>, svc: string)
    ensures OfService(cs, svc) != [] <==> exists c :: c in cs && c.ServiceKey() == svc
  {
    if cs != [] {
      var n := |cs| - 1;
      ServicesPresent(cs[..n], svc);
      assert cs == cs[..n] + [cs[n]];
    }
  }

  /** One observation for each service of the sample, or the coarse one. */
  ghost predicate Reports(m: Memory, s: Sample, past: Past, cfg: Setup, obs: seq<Observation>) {
    if s.dockerOK then ReportsOn(m, s, past, cfg, obs, ServicesOf(s)) else OutageReport(obs)
  }

  lemma {:induction false} Speaks(s: Sample, svc: string, rep: Container, o: Observation)
    requires Represents(OfService(s.containers, svc), rep)
    requires o.check == "crashloop" && o.scope == svc && !o.suppressed
    requires o.containerName == rep.name && o.image == rep.image && o.serviceName == rep.ServiceName()
    requires o.labels == rep.labels
    ensures Names(s, svc, o)
  {
  }

  method EvaluateService(m: Memory, s: Sample, past: Past, cfg: Setup, svc: string, cts: seq<Container>)
    returns (o: Observation)
    requires cts == OfService(s.containers, svc) && cts != []
    ensures Judges(m, s, past, cfg, svc, o)
  {
    var rep := Representative(cts);
    var health, crashes := EvalService(Find(m.services, svc), SeenBy(s, svc), past.hadBaseline, past.bootChanged,
                                       cfg.window, cfg.limit);
    o := Observation("crashloop", svc, health, if health == UNKNOWN then WARN else ALERT, "Crash loop",
                     "", "", "", crashes as real, rep.name, rep.ServiceName(), rep.image, rep.labels, false, "");
    Speaks(s, svc, rep, o);
  }

  method Evaluate(m: Memory, s: Sample, past: Past, cfg: Setup) returns (obs: seq<Observation>)
    ensures Reports(m, s, past, cfg, obs)
  {
    if !s.dockerOK {
      return [Observation("crashloop", "docker", UNKNOWN, WARN, "Crash loop", "", "", "", 0.0,
                          "", "", "", map[], false, "")];
    }
    var groups := GroupByService(s.containers);
    forall svc ensures svc in groups <==> svc in ServicesOf(s) {
      ServicesPresent(s.containers, svc);
    }
    obs := [];
    var todo := groups.Keys;
    ghost var done := {};
    while todo != {}
      invariant todo !! done && todo + done == ServicesOf(s)
      invariant ReportsOn(m, s, past, cfg, obs, done)
      decreases todo
    {
      var svc :| svc in todo;
      var o := EvaluateService(m, s, past, cfg, svc, groups[svc]);
      ReportOneMore(m, s, past, cfg, obs, done, svc, o);
      obs := obs + [o];
      todo, done := todo - {svc}, done + {svc};
    }
    assert done == ServicesOf(s);
  }

  // ---- what it reports about one service ----

  function KeyOf(svc: string): string { "crashloop:" + svc }

  lemma {:induction false} SameKey(o: Observation, svc: string)
    requires o.check == "crashloop"
    ensures o.Key() == KeyOf(svc) <==> o.scope == svc
  {
    assert o.Key() == KeyOf(o.scope);
    assert KeyOf(o.scope)[|"crashloop:"|..] == o.scope && KeyOf(svc)[|"crashloop:"|..] == svc;
  }

  /** All of them are of this check, and of different services. */
  predicate Scoped(obs: seq<Observation>) {
    && (forall i :: 0 <= i < |obs| ==> obs[i].check == "crashloop")
    && DistinctScopes(obs)
  }

  lemma {:induction false} OwnReport(obs: seq<Observation>, svc: string)
    requires Scoped(obs)
    ensures var own := AlertMap.OfKey(obs, KeyOf(svc));
            && |own| <= 1
            && (own == [] <==> forall i :: 0 <= i < |obs| ==> obs[i].scope != svc)
            && (own != [] ==> own[0] in obs && own[0].scope == svc)
  {
    if obs != [] {
      var n := |obs| - 1;
      OwnReport(obs[..n], svc);
      SameKey(obs[n], svc);
      assert obs == obs[..n] + [obs[n]];
    }
  }

  lemma {:induction false} ReportsAreScoped(m: Memory, s: Sample, past: Past, cfg: Setup, obs: seq<Observation>)
    requires Reports(m, s, past, cfg, obs)
    ensures Scoped(obs)
  {
    if s.dockerOK {
      forall i | 0 <= i < |obs|
        ensures obs[i].check == "crashloop"
      {
        assert Judges(m, s, past, cfg, obs[i].scope, obs[i]);
      }
    }
  }

  lemma {:induction false} ReportOf(
      m: Memory, s: Sample, past: Past, cfg: Setup, obs: seq<Observation>, o: Observation)
    requires Reports(m, s, past, cfg, obs) && s.dockerOK && o in obs
    ensures o.scope in ServicesOf(s) && Judges(m, s, past, cfg, o.scope, o)
  {
  }

  lemma {:induction false} ReportsCover(
      m: Memory, s: Sample, past: Past, cfg: Setup, obs: seq<Observation>, svc: string)
    requires Reports(m, s, past, cfg, obs) && s.dockerOK
    ensures svc in ScopesOf(obs) <==> Present(s, svc)
  {
    ServicesPresent(s.containers, svc);
  }

  lemma {:induction false} OwnIsPresent(
      m: Memory, s: Sample, past: Past, cfg: Setup, obs: seq<Observation>, svc: string)
    requires Reports(m, s, past, cfg, obs) && s.dockerOK
    ensures var own := AlertMap.OfKey(obs, KeyOf(svc));
            |own| <= 1 && (own != [] <==> Present(s, svc)) && (own != [] ==> own[0] in obs && own[0].scope == svc)
  {
    ReportsAreScoped(m, s, past, cfg, obs);
    OwnReport(obs, svc);
    ReportsCover(m, s, past, cfg, obs, svc);
  }

  /** A run reports on each service in its sample exactly once, and on no other: the keys
      of the check are distinct in every run. */
  lemma {:induction false} OneReportEach(
      m: Memory, s: Sample, past: Past, cfg: Setup, obs: seq<Observation>, svc: string)
    requires Reports(m, s, past, cfg, obs) && s.dockerOK
    ensures var own := AlertMap.OfKey(obs, KeyOf(svc));
            if Present(s, svc) then |own| == 1 && Judges(m, s, past, cfg, svc, own[0]) else own == []
  {
    OwnIsPresent(m, s, past, cfg, obs, svc);
    var own := AlertMap.OfKey(obs, KeyOf(svc));
    if own != [] {
      ReportOf(m, s, past, cfg, obs, own[0]);
    }
  }

  lemma {:induction false} ScopedIsDistinct(obs: seq<Observation>)
    requires Scoped(obs)
    ensures AlertMap.DistinctKeys(obs)
  {
    forall i, j | 0 <= i < j < |obs|
      ensures obs[i].Key() != obs[j].Key()
    {
      SameKey(obs[i], obs[j].scope);
      SameKey(obs[j], obs[j].scope);
    }
  }

  lemma {:induction false} ReportsAreDistinct(m: Memory, s: Sample, past: Past, cfg: Setup, obs: seq<Observation>)
    requires Reports(m, s, past, cfg, obs)
    ensures AlertMap.DistinctKeys(obs)
  {
    ReportsAreScoped(m, s, past, cfg, obs);
    ScopedIsDistinct(obs);
  }

  lemma {:induction false} CoarseReport(m: Memory, s: Sample, past: Past, cfg: Setup, o: Observation)
    requires Judges(m, s, past, cfg, "docker", o)
    ensures AlertMap.Coarse(o) <==>
            UninspectedRunning(OfService(s.containers, "docker")) && Crashes(m, s, cfg, "docker") == {}
  {
    assert |Crashes(m, s, cfg, "docker")| == 0 <==> Crashes(m, s, cfg, "docker") == {};
  }

  lemma {:induction false} CoarseScope(m: Memory, s: Sample, past: Past, cfg: Setup, obs: seq<Observation>)
    requires Reports(m, s, past, cfg, obs) && s.dockerOK && "crashloop" in AlertMap.DownChecks(obs)
    ensures exists o :: o in obs && AlertMap.Coarse(o) && Judges(m, s, past, cfg, "docker", o)
  {
    var o :| o in obs && AlertMap.Coarse(o);
    ReportOf(m, s, past, cfg, obs, o);
  }

  /** When the check's own reports look like an outage: when Docker could not be read, or
      when a service called "docker" has a running container that could not be inspected
      and no crash in the window. */
  lemma {:induction false} CoarseExactly(m: Memory, s: Sample, past: Past, cfg: Setup, obs: seq<Observation>)
    requires Reports(m, s, past, cfg, obs)
    ensures "crashloop" in AlertMap.DownChecks(obs) <==>
              || !s.dockerOK
              || (UninspectedRunning(OfService(s.containers, "docker")) && Crashes(m, s, cfg, "docker") == {})
  {
    if !s.dockerOK {
      assert obs[0] in obs;
    } else if "crashloop" in AlertMap.DownChecks(obs) {
      CoarseScope(m, s, past, cfg, obs);
      var o :| o in obs && AlertMap.Coarse(o) && Judges(m, s, past, cfg, "docker", o);
      CoarseReport(m, s, past, cfg, o);
    } else if UninspectedRunning(OfService(s.containers, "docker")) {
      OneReportEach(m, s, past, cfg, obs, "docker");
      ReportsAreScoped(m, s, past, cfg, obs);
      OwnReport(obs, "docker");
      var o := AlertMap.OfKey(obs, KeyOf("docker"))[0];
      CoarseReport(m, s, past, cfg, o);
      assert o in obs && !AlertMap.Coarse(o);
    }
  }

  // ---- what the sweep makes of it, after the rules ----

  lemma {:induction false} CoarseSurvives(rules: seq<Exceptions.Rule>, o: Observation)
    ensures var a := Exceptions.Sieve(rules, o);
            a.check == o.check &&
            (AlertMap.Coarse(a) <==> AlertMap.Coarse(o) && Exceptions.LastOverride(rules, o).None?)
  {
    Exceptions.MuteOnlyRelabels(rules, o);
    Exceptions.LastOverrideWins(rules, o);
  }

  lemma {:induction false} WarningsAreBad(rules: seq<Exceptions.Rule>)
    ensures forall o :: o in Exceptions.ExpiryWarnings(rules) ==> o.health == BAD
  {
    if rules != [] {
      WarningsAreBad(rules[..|rules| - 1]);
    }
  }

  /** A coarse observation that the rules leave as it is. */
  ghost predicate StillCoarse(rules: seq<Exceptions.Rule>, obs: seq<Observation>, check: string) {
    exists o :: o in obs && AlertMap.Coarse(o) && o.check == check && Exceptions.LastOverride(rules, o).None?
  }

  lemma {:induction false} AfterRules(rules: seq<Exceptions.Rule>, obs: seq<Observation>, a: Observation)
    requires a in Exceptions.Transformed(rules, obs)
    ensures a in Exceptions.ExpiryWarnings(rules) || exists o :: o in obs && a == Exceptions.Sieve(rules, o)
  {
    var sieved := seq(|obs|, i requires 0 <= i < |obs| => Exceptions.Sieve(rules, obs[i]));
    if a in sieved {
      var i :| 0 <= i < |sieved| && sieved[i] == a;
      assert obs[i] in obs;
    }
  }

  lemma {:induction false} DownAfterRules(rules: seq<Exceptions.Rule>, obs: seq<Observation>, check: string)
    ensures check in AlertMap.DownChecks(Exceptions.Transformed(rules, obs)) <==> StillCoarse(rules, obs, check)
  {
    var after := Exceptions.Transformed(rules, obs);
    if o :| o in obs && AlertMap.Coarse(o) && o.check == check && Exceptions.LastOverride(rules, o).None? {
      var i :| 0 <= i < |obs| && obs[i] == o;
      CoarseSurvives(rules, o);
      assert after[i] == Exceptions.Sieve(rules, o) && after[i] in after;
    }
    if a :| a in after && AlertMap.Coarse(a) && a.check == check {
      WarningsAreBad(rules);
      AfterRules(rules, obs, a);
      var o :| o in obs && a == Exceptions.Sieve(rules, o);
      CoarseSurvives(rules, o);
    }
  }

  /** A report about a service is its only one. */
  lemma {:induction false} OnlyReport(obs: seq<Observation>, o: Observation)
    requires Scoped(obs) && o in obs
    ensures AlertMap.OfKey(obs, KeyOf(o.scope)) == [o]
  {
    OwnReport(obs, o.scope);
    var own := AlertMap.OfKey(obs, KeyOf(o.scope));
    var i :| 0 <= i < |obs| && obs[i] == o;
    assert own != [] by { assert obs[i].scope == o.scope; }
    var j :| 0 <= j < |obs| && obs[j] == own[0];
    assert i == j;
  }

  lemma {:induction false} DockerAfterRules(m: Memory, s: Sample, past: Past, cfg: Setup,
      rules: seq<Exceptions.Rule>, obs: seq<Observation>)
    requires Reports(m, s, past, cfg, obs) && s.dockerOK
    ensures var own := AlertMap.OfKey(obs, KeyOf("docker"));
            StillCoarse(rules, obs, "crashloop") <==>
              && UninspectedRunning(OfService(s.containers, "docker")) && Crashes(m, s, cfg, "docker") == {}
              && own != [] && Exceptions.LastOverride(rules, own[0]).None?
  {
    var own := AlertMap.OfKey(obs, KeyOf("docker"));
    OneReportEach(m, s, past, cfg, obs, "docker");
    ReportsAreScoped(m, s, past, cfg, obs);
    OwnReport(obs, "docker");
    if own != [] {
      CoarseReport(m, s, past, cfg, own[0]);
    }
    if o :| o in obs && AlertMap.Coarse(o) && o.check == "crashloop" && Exceptions.LastOverride(rules, o).None? {
      ReportOf(m, s, past, cfg, obs, o);
      OnlyReport(obs, o);
    }
  }

  /** When the outage sweep takes the check's source for down: when Docker could not be
      read, or a service called "docker" looks like it, and no live rule that matches that
      report overrides its threshold. */
  lemma {:induction false} SweepSeesOutageExactly(m: Memory, s: Sample, past: Past, cfg: Setup,
      rules: seq<Exceptions.Rule>, obs: seq<Observation>)
    requires Reports(m, s, past, cfg, obs)
    ensures "crashloop" in AlertMap.DownChecks(Exceptions.Transformed(rules, obs)) <==>
            if !s.dockerOK then Exceptions.LastOverride(rules, obs[0]).None?
            else
              var own := AlertMap.OfKey(obs, KeyOf("docker"));
              && UninspectedRunning(OfService(s.containers, "docker")) && Crashes(m, s, cfg, "docker") == {}
              && own != [] && Exceptions.LastOverride(rules, own[0]).None?
  {
    DownAfterRules(rules, obs, "crashloop");
    if !s.dockerOK {
      assert obs == [obs[0]];
    } else {
      DockerAfterRules(m, s, past, cfg, rules, obs);
    }
  }
}

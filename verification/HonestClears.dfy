/** "Could not measure" is not "healthy", from the checks to the state machine: which sets
    of exception rules let a key be cleared by runs that could not read it. */
module HonestClears {
  import opened Types
  import opened KeyMachine
  import opened AllClear
  import opened Episodes
  import opened Scripts
  import opened Exceptions

  // ---- histories through the exceptions stage ----

  function SieveEvent(rules: seq<Rule>, e: Event): Event {
    if e.Seen? then Seen(Sieve(rules, e.o), e.env) else e
  }

  /** The history the machine sees, of the history the checks report. */
  function SieveAll(rules: seq<Rule>, raw: seq<Event>): (h: seq<Event>)
    ensures |h| == |raw| && forall i :: 0 <= i < |raw| ==> h[i] == SieveEvent(rules, raw[i])
  {
    if raw == [] then [] else SieveAll(rules, raw[..|raw| - 1]) + [SieveEvent(rules, raw[|raw| - 1])]
  }

  /** The reported events that reach the machine as measurements, in order. */
  function Sources(rules: seq<Rule>, raw: seq<Event>): seq<Event> {
    if raw == [] then []
    else
      var e := raw[|raw| - 1];
      Sources(rules, raw[..|raw| - 1]) + if SieveEvent(rules, e).Measured() then [e] else []
  }

  /** Every verdict of the machine has its source. */
  lemma {:induction false} SourcesGiveVerdicts(rules: seq<Rule>, raw: seq<Event>)
    ensures var src, v := Sources(rules, raw), Verdicts(SieveAll(rules, raw));
            && |src| == |v|
            && forall i :: 0 <= i < |src| ==>
                 src[i] in raw && src[i].Seen? && Sieve(rules, src[i].o).health == v[i]
  {
    if raw != [] {
      var n := |raw| - 1;
      SourcesGiveVerdicts(rules, raw[..n]);
      assert SieveAll(rules, raw)[..n] == SieveAll(rules, raw[..n]);
      assert raw == raw[..n] + [raw[n]];
    }
  }

  /** The last `count` of them were measured by the check itself. */
  predicate LastMeasured(sources: seq<Event>, count: int) {
    && count <= |sources|
    && forall i :: 0 <= i < |sources| && |sources| - count <= i ==> sources[i].Measured()
  }

  /** Whenever the key is cleared, the check really took all the measurements that
      completed the count. */
  ghost predicate HonestlyCleared(cfg: Config, rules: seq<Rule>, key: string, raw: seq<Event>) {
    forall m :: 0 <= m < |raw| && ClearedAt(cfg, key, SieveAll(rules, raw), m) ==>
      LastMeasured(Sources(rules, raw[..m + 1]), cfg.resolveSamples)
  }

  /** The key of a service in the crash-loop check. */
  function ServiceKey(svc: string): string { "crashloop" + ":" + svc }

  /** A report of the crash-loop check about the service, under the name of one of the
      containers `named`: which one speaks for a service may change from run to run. */
  predicate Own(svc: string, named: iset<Target>, p: Observation) {
    && p.check == "crashloop" && p.scope == svc && TargetOfObservation(p) in named
    && p.measuredValue >= 0.0 && !p.suppressed
  }

  ghost predicate Reports(raw: seq<Event>, svc: string, named: iset<Target>) {
    forall i :: 0 <= i < |raw| && raw[i].Seen? ==> Own(svc, named, raw[i].o)
  }

  ghost predicate ReportTicks(ticks: seq<Tick>, svc: string, named: iset<Target>) {
    forall i, j :: 0 <= i < |ticks| && 0 <= j < |ticks[i].obs| ==> Own(svc, named, ticks[i].obs[j])
  }

  /** A rule matches by container and check alone. */
  lemma {:induction false} SameRules(rules: seq<Rule>, o: Observation, p: Observation)
    requires p.check == o.check && TargetOfObservation(p) == TargetOfObservation(o)
    ensures LastOverride(rules, p) == LastOverride(rules, o) && LastMute(rules, p) == LastMute(rules, o)
  {
    if rules != [] {
      SameRules(rules[..|rules| - 1], o, p);
    }
  }

  // ---- rules that keep the promise ----

  /** No live rule that matches overrides the threshold, or the last that does asks for no
      crash at all. */
  predicate Calm(rules: seq<Rule>, p: Observation) {
    LastOverride(rules, p).Some? ==> LastOverride(rules, p).value <= 0.0
  }

  ghost predicate AllCalm(rules: seq<Rule>, svc: string, named: iset<Target>) {
    forall p :: Own(svc, named, p) ==> Calm(rules, p)
  }

  ghost predicate AllMuted(rules: seq<Rule>, svc: string, named: iset<Target>) {
    forall p :: Own(svc, named, p) ==> LastMute(rules, p).Some?
  }

  lemma {:induction false} MutedIsUntracked(cfg: Config, key: string, h: seq<Event>)
    requires forall i :: 0 <= i < |h| && h[i].Seen? ==> h[i].o.suppressed
    ensures StateAfter(cfg, key, h).None?
  {
    if h != [] {
      MutedIsUntracked(cfg, key, h[..|h| - 1]);
    }
  }

  lemma {:induction false} MutedNeverClears(
      cfg: Config, rules: seq<Rule>, key: string, svc: string, named: iset<Target>, raw: seq<Event>, m: nat)
    requires Reports(raw, svc, named) && AllMuted(rules, svc, named) && m < |raw|
    ensures !ClearedAt(cfg, key, SieveAll(rules, raw), m)
  {
    var h := SieveAll(rules, raw)[..m];
    forall i | 0 <= i < |h| && h[i].Seen?
      ensures h[i].o.suppressed
    {
      assert Own(svc, named, raw[i].o);
      MuteOnlyRelabels(rules, raw[i].o);
    }
    MutedIsUntracked(cfg, key, h);
  }

  /** What is good after calm rules was good as the check reported it. */
  lemma {:induction false} CalmOKWasOK(rules: seq<Rule>, p: Observation)
    requires Calm(rules, p) && p.measuredValue >= 0.0 && Sieve(rules, p).health == OK
    ensures p.health == OK
  {
    LastOverrideWins(rules, p);
  }

  lemma {:induction false} CalmSources(rules: seq<Rule>, svc: string, named: iset<Target>, raw: seq<Event>)
    requires Reports(raw, svc, named) && AllCalm(rules, svc, named)
    ensures var src, v := Sources(rules, raw), Verdicts(SieveAll(rules, raw));
            |src| == |v| && forall i :: 0 <= i < |src| && v[i] == OK ==> src[i].Measured()
  {
    SourcesGiveVerdicts(rules, raw);
    var src, v := Sources(rules, raw), Verdicts(SieveAll(rules, raw));
    forall i | 0 <= i < |src| && v[i] == OK
      ensures src[i].Measured()
    {
      var k :| 0 <= k < |raw| && raw[k] == src[i];
      assert Own(svc, named, raw[k].o);
      CalmOKWasOK(rules, src[i].o);
    }
  }

  lemma {:induction false} CalmClearsAreMeasured(
      cfg: Config, rules: seq<Rule>, key: string, svc: string, named: iset<Target>, raw: seq<Event>, m: nat)
    requires cfg.Valid() && Reports(raw, svc, named) && AllCalm(rules, svc, named)
    requires m < |raw| && ClearedAt(cfg, key, SieveAll(rules, raw), m)
    ensures LastMeasured(Sources(rules, raw[..m + 1]), cfg.resolveSamples)
  {
    var h, p := SieveAll(rules, raw), raw[..m + 1];
    assert AllClearAt(cfg, h, m) by { ClearedIsAllClear(cfg, key, h, m); }
    assert h[..m + 1] == SieveAll(rules, p);
    assert Reports(p, svc, named);
    CalmSources(rules, svc, named, p);
  }

  /** Under harmless rules every all-clear is honest, in every history, runs or not. */
  lemma {:induction false} HarmlessIsHonest(
      cfg: Config, rules: seq<Rule>, key: string, svc: string, named: iset<Target>, raw: seq<Event>)
    requires cfg.Valid() && Reports(raw, svc, named)
    requires AllCalm(rules, svc, named) || AllMuted(rules, svc, named)
    ensures HonestlyCleared(cfg, rules, key, raw)
  {
    forall m | 0 <= m < |raw| && ClearedAt(cfg, key, SieveAll(rules, raw), m)
      ensures LastMeasured(Sources(rules, raw[..m + 1]), cfg.resolveSamples)
    {
      if AllMuted(rules, svc, named) {
        MutedNeverClears(cfg, rules, key, svc, named, raw, m);
      } else {
        CalmClearsAreMeasured(cfg, rules, key, svc, named, raw, m);
      }
    }
  }

  // ---- rules that break it ----

  /** The machine sees `seen` where the checks report `runs`. */
  predicate SievesTo(rules: seq<Rule>, runs: seq<seq<Observation>>, seen: seq<seq<Observation>>) {
    |runs| == |seen| && SieveAll(rules, History(Script(runs))) == History(Script(seen))
  }

  lemma {:induction false} SieveOneRun(
      rules: seq<Rule>, runs: seq<seq<Observation>>, seen: seq<seq<Observation>>, o: Observation)
    requires SievesTo(rules, runs, seen)
    ensures SievesTo(rules, runs + [[o]], seen + [[Sieve(rules, o)]])
  {
    OneRunHistory(runs, o);
    OneRunHistory(seen, Sieve(rules, o));
  }

  lemma {:induction false} SieveTimes(
      rules: seq<Rule>, runs: seq<seq<Observation>>, seen: seq<seq<Observation>>, o: Observation, n: nat)
    requires SievesTo(rules, runs, seen)
    ensures SievesTo(rules, runs + Times(o, n), seen + Times(Sieve(rules, o), n))
  {
    if n == 0 {
      assert runs + [] == runs && seen + [] == seen;
    } else {
      var p := Sieve(rules, o);
      SieveTimes(rules, runs, seen, o, n - 1);
      SieveOneRun(rules, runs + Times(o, n - 1), seen + Times(p, n - 1), o);
      TimesSnoc(runs, o, n);
      TimesSnoc(seen, p, n);
    }
  }

  lemma {:induction false} SieveBoth(rules: seq<Rule>, o: Observation, n: nat, p: Observation, m: nat)
    ensures SievesTo(rules, Times(o, n) + Times(p, m), Times(Sieve(rules, o), n) + Times(Sieve(rules, p), m))
  {
    var a, b := Times(o, n), Times(Sieve(rules, o), n);
    assert SievesTo(rules, [], []);
    SieveTimes(rules, [], [], o, n);
    assert [] + a == a && [] + b == b;
    SieveTimes(rules, a, b, p, m);
  }

  /** The last observation of the history clears the key. */
  predicate EndsCleared(cfg: Config, key: string, h: seq<Event>) {
    |h| >= 2 && ClearedAt(cfg, key, h, |h| - 2)
  }

  lemma {:induction false} ClearedBeforeLast(cfg: Config, key: string, p: seq<Event>, a: Event, b: Event)
    requires Firing(StateAfter(cfg, key, p)) && !Firing(StateAfter(cfg, key, p + [a]))
    ensures EndsCleared(cfg, key, p + [a] + [b])
  {
    var h := p + [a] + [b];
    assert h[..|h| - 2] == p && h[..|h| - 2 + 1] == p + [a];
  }

  lemma {:induction false} LastRunClears(cfg: Config, key: string, runs: seq<seq<Observation>>, o: Observation)
    requires cfg.Valid() && Recovering(Ends(cfg, key, runs), cfg.resolveSamples - 1) && o.health == OK
    ensures EndsCleared(cfg, key, History(Script(runs + [[o]])))
  {
    var p, a := History(Script(runs)), Seen(o, RunEnv(|runs| + 1));
    assert StateAfter(cfg, key, p + [a]).None? by {
      ExecSnoc(cfg, key, None, p, a);
      RecoverOne(cfg, StateAfter(cfg, key, p), o, a.env, cfg.resolveSamples - 1);
    }
    ClearedBeforeLast(cfg, key, p, a, RunEnd(|runs| + 1));
    OneRunHistory(runs, o);
  }

  /** A number of crashes at or above what the rules ask for. */
  function Crashing(rules: seq<Rule>, o: Observation): Observation {
    var t := LastOverride(rules, o);
    var crashes := if t.Some? && t.value >= 1.0 then t.value.Floor + 1 else 1;
    o.(health := BAD, tier := ALERT, measuredValue := crashes as real, suppressed := false)
  }

  function Unreadable(o: Observation): Observation {
    o.(health := UNKNOWN, measuredValue := 0.0, suppressed := false)
  }

  lemma {:induction false} CrashingIsBad(rules: seq<Rule>, a: Observation)
    requires LastMute(rules, a).None?
    ensures var bad := Sieve(rules, Crashing(rules, a)); bad.health == BAD && !bad.suppressed
  {
    SameRules(rules, a, Crashing(rules, a));
    LastOverrideWins(rules, Crashing(rules, a));
    MuteOnlyRelabels(rules, Crashing(rules, a));
  }

  lemma {:induction false} UnreadableIsOK(rules: seq<Rule>, b: Observation)
    requires !Calm(rules, b)
    ensures Sieve(rules, Unreadable(b)).health == OK
  {
    SameRules(rules, b, Unreadable(b));
    LastOverrideWins(rules, Unreadable(b));
  }

  /** What the machine sees: enough bad runs to fire, then enough good ones. */
  lemma {:induction false} FireThenClear(cfg: Config, key: string, bad: Observation, ok: Observation) returns (n: nat)
    requires cfg.Valid() && bad.health == BAD && !bad.suppressed && ok.health == OK
    ensures EndsCleared(cfg, key, History(Script(Times(bad, n) + Times(ok, cfg.resolveSamples))))
  {
    n := FireRecovers(cfg, key, bad);
    var fired, count := Times(bad, n), cfg.resolveSamples - 1;
    var runs := fired + Times(ok, count);
    assert Recovering(Ends(cfg, key, runs), count) by {
      OKsCount(cfg, key, fired, ok, count);
    }
    LastRunClears(cfg, key, runs, ok);
    assert fired + Times(ok, cfg.resolveSamples) == runs + [[ok]] by {
      TimesSnoc(fired, ok, cfg.resolveSamples);
    }
  }

  /** What the checks report: enough crashing runs to fire, then enough unreadable ones,
      perhaps under another container's name. */
  lemma {:induction false} BlindRunsClear(cfg: Config, rules: seq<Rule>, key: string, a: Observation, b: Observation)
    returns (runs: seq<seq<Observation>>)
    requires cfg.Valid() && LastMute(rules, a).None? && !Calm(rules, b)
    ensures |runs| > 0 && runs[|runs| - 1] == [Unreadable(b)]
    ensures forall i :: 0 <= i < |runs| ==> runs[i] == [Crashing(rules, a)] || runs[i] == [Unreadable(b)]
    ensures EndsCleared(cfg, key, SieveAll(rules, History(Script(runs))))
  {
    CrashingIsBad(rules, a);
    UnreadableIsOK(rules, b);
    var n := FireThenClear(cfg, key, Sieve(rules, Crashing(rules, a)), Sieve(rules, Unreadable(b)));
    SieveBoth(rules, Crashing(rules, a), n, Unreadable(b), cfg.resolveSamples);
    runs := Times(Crashing(rules, a), n) + Times(Unreadable(b), cfg.resolveSamples);
  }

  lemma {:induction false} LastSource(rules: seq<Rule>, raw: seq<Event>)
    requires raw != [] && SieveEvent(rules, raw[|raw| - 1]).Measured()
    ensures var src := Sources(rules, raw); src != [] && src[|src| - 1] == raw[|raw| - 1]
  {
  }

  lemma {:induction false} SecondLastEvent(runs: seq<seq<Observation>>, o: Observation)
    requires runs != [] && runs[|runs| - 1] == [o]
    ensures var h := History(Script(runs));
            |h| >= 2 && h[|h| - 2] == Seen(o, RunEnv(|runs|))
  {
    assert runs == runs[..|runs| - 1] + [[o]];
    OneRunHistory(runs[..|runs| - 1], o);
  }

  lemma {:induction false} BlindLastSource(cfg: Config, rules: seq<Rule>, o: Observation, runs: seq<seq<Observation>>)
    requires cfg.Valid() && runs != [] && runs[|runs| - 1] == [o] && !o.Measured() && Sieve(rules, o).Measured()
    ensures var raw := History(Script(runs));
            |raw| >= 2 && !LastMeasured(Sources(rules, raw[..|raw| - 1]), cfg.resolveSamples)
  {
    SecondLastEvent(runs, o);
    var raw := History(Script(runs));
    var p := raw[..|raw| - 1];
    assert p[|p| - 1] == raw[|raw| - 2];
    LastSource(rules, p);
    var src := Sources(rules, p);
    assert !src[|src| - 1].Measured();
  }

  lemma {:induction false} ReportRuns(
      runs: seq<seq<Observation>>, svc: string, named: iset<Target>, a: Observation, b: Observation)
    requires Own(svc, named, a) && Own(svc, named, b)
    requires forall i :: 0 <= i < |runs| ==> runs[i] == [a] || runs[i] == [b]
    ensures Possible(Script(runs), ServiceKey(svc), 1) && ReportTicks(Script(runs), svc, named)
  {
    assert OfKey(a, ServiceKey(svc)) && OfKey(b, ServiceKey(svc));
    assert RunsOfKey(runs, ServiceKey(svc), 1);
    ScriptIsPossible(runs, ServiceKey(svc), 1);
  }

  /** A history that the program can meet: the service fires under the name of a container
      that is not muted, and runs that could not read it clear it under the name of one
      whose threshold is overridden. */
  lemma {:induction false} HarmfulRulesClearBlindly(
      cfg: Config, rules: seq<Rule>, svc: string, named: iset<Target>, a: Observation, b: Observation)
    returns (ticks: seq<Tick>)
    requires cfg.Valid() && Own(svc, named, a) && Own(svc, named, b)
    requires LastMute(rules, a).None? && !Calm(rules, b)
    ensures Possible(ticks, ServiceKey(svc), 1) && ReportTicks(ticks, svc, named)
    ensures !HonestlyCleared(cfg, rules, ServiceKey(svc), History(ticks))
  {
    var runs := BlindRunsClear(cfg, rules, ServiceKey(svc), a, b);
    ReportRuns(runs, svc, named, Crashing(rules, a), Unreadable(b));
    UnreadableIsOK(rules, b);
    BlindLastSource(cfg, rules, Unreadable(b), runs);
    ticks := Script(runs);
    var m := |History(ticks)| - 2;
    assert ClearedAt(cfg, ServiceKey(svc), SieveAll(rules, History(ticks)), m);
  }

  // ---- exactly ----

  lemma {:induction false} TicksReport(ticks: seq<Tick>, svc: string, named: iset<Target>)
    requires ReportTicks(ticks, svc, named)
    ensures Reports(History(ticks), svc, named)
  {
    if ticks != [] {
      var n := |ticks| - 1;
      TicksReport(ticks[..n], svc, named);
      var g := EventsOf(ticks[n]);
      forall i | 0 <= i < |g| && g[i].Seen?
        ensures Own(svc, named, g[i].o)
      {
        assert g[i] == Seen(ticks[n].obs[i], ticks[n].env);
      }
    }
  }

  /** Given the rules, a service of the crash-loop check and the containers that may speak
      for it: every all-clear of every history that the program can meet was completed by
      real measurements, if and only if for none of the containers does the last live
      override ask for a positive number of crashes, or every one of them is muted. */
  lemma {:induction false} AllClearWasMeasuredExactly(
      cfg: Config, rules: seq<Rule>, svc: string, named: iset<Target>)
    requires cfg.Valid()
    ensures (forall ticks :: Possible(ticks, ServiceKey(svc), 1) && ReportTicks(ticks, svc, named) ==>
               HonestlyCleared(cfg, rules, ServiceKey(svc), History(ticks)))
            <==> AllCalm(rules, svc, named) || AllMuted(rules, svc, named)
  {
    if AllCalm(rules, svc, named) || AllMuted(rules, svc, named) {
      forall ticks | Possible(ticks, ServiceKey(svc), 1) && ReportTicks(ticks, svc, named)
        ensures HonestlyCleared(cfg, rules, ServiceKey(svc), History(ticks))
      {
        TicksReport(ticks, svc, named);
        HarmlessIsHonest(cfg, rules, ServiceKey(svc), svc, named, History(ticks));
      }
    } else {
      var a :| Own(svc, named, a) && LastMute(rules, a).None?;
      var b :| Own(svc, named, b) && !Calm(rules, b);
      var ticks := HarmfulRulesClearBlindly(cfg, rules, svc, named, a, b);
    }
  }
}

/** The crash-loop alert from one end of the system to the other: with the configured
    window, over every behaviour of the protocol, from the samples of the committed runs to
    the alert records in the state file. */
module CrashLoopLaws {
  import opened Types
  import opened KeyMachine
  import opened AlertMap
  import opened Episodes
  import opened Replicas
  import opened Protocol
  import Collect
  import Services
  import Baselines
  import Memories
  import CrashFacts
  import Crashloop
  import Exceptions
  import QuietClears
  import Fires

  // ---- the configured window ----

  /** The next run's crash count from the state file and the corpses in sight is, over the
      configured window, that of every crash any committed run ever saw: an hour if an hour
      is configured, ten minutes if nothing is. */
  lemma {:induction false} CountsOverConfiguredWindow(
      cfg: Config, trace: seq<Sys>, w: int, limit: int, svc: string, cur: Baselines.Sample)
    requires Behaviour(cfg, trace) && cur.dockerOK
    requires w == if cfg.crashLoopWindow > 0 then cfg.crashLoopWindow else 600_000_000_000
    requires var runs := Memories.ServiceRuns(trace[|trace| - 1].samples, svc) + [Baselines.SeenBy(cur, svc)];
             Services.CutoffsClear(runs, w) && Services.ReportedInOrder(Services.CrashLog(runs))
    ensures var s := trace[|trace| - 1];
            var runs := Memories.ServiceRuns(s.samples, svc) + [Baselines.SeenBy(cur, svc)];
            Crashloop.Crashes(s.disk.memory, cur, Crashloop.Setup(w, limit), svc)
            == Services.InWindow(Services.CrashLog(runs), Services.Unix(cur.now - w))
  {
    DurableCountsWholeLog(cfg, trace, svc, cur);
  }

  /** The sample read Docker and shows the exit: a container of the service exited,
      inspected, at that instant, and with a non-zero exit code or killed for memory. */
  predicate Shows(s: Baselines.Sample, svc: string, e: Services.ExitEvent) {
    s.dockerOK && exists c ::
      && c in s.containers && c.ServiceKey() == svc && c.id == e.containerID && c.finishedAt == e.at
      && c.state == "exited" && c.inspected && c.finishedAt != 0 && (c.exitCode != 0 || c.oomKilled)
  }

  lemma {:induction false} ReportedExactly(s: Baselines.Sample, svc: string, e: Services.ExitEvent)
    ensures e in Services.Reported(Baselines.SeenBy(s, svc)) <==> Shows(s, svc, e)
  {
    CrashFacts.RecordsExact(Baselines.OfService(s.containers, svc));
    forall c ensures c in Baselines.OfService(s.containers, svc) <==> c in s.containers && c.ServiceKey() == svc {
      Baselines.OfServiceExactly(s.containers, svc, c);
    }
  }

  lemma {:induction false} LogOneMore(samples: seq<Baselines.Sample>, svc: string)
    requires samples != []
    ensures var n := |samples| - 1;
            Services.CrashLog(Memories.ServiceRuns(samples, svc))
            == Services.CrashLog(Memories.ServiceRuns(samples[..n], svc))
               + Services.Reported(Baselines.SeenBy(samples[n], svc))
  {
    var n := |samples| - 1;
    var runs := Memories.ServiceRuns(samples, svc);
    assert runs[..n] == Memories.ServiceRuns(samples[..n], svc);
  }

  predicate ShownBySome(samples: seq<Baselines.Sample>, svc: string, e: Services.ExitEvent) {
    exists i :: 0 <= i < |samples| && Shows(samples[i], svc, e)
  }

  lemma {:induction false} ShownOneMore(samples: seq<Baselines.Sample>, svc: string, e: Services.ExitEvent)
    requires samples != []
    ensures var n := |samples| - 1;
            ShownBySome(samples, svc, e) <==> ShownBySome(samples[..n], svc, e) || Shows(samples[n], svc, e)
  {
    var n := |samples| - 1;
    if i :| 0 <= i < |samples| && Shows(samples[i], svc, e) && i < n {
      assert Shows(samples[..n][i], svc, e);
    }
  }

  /** The log of a service is exactly what the samples show. */
  lemma {:induction false} LoggedExactly(samples: seq<Baselines.Sample>, svc: string, e: Services.ExitEvent)
    ensures e in Services.CrashLog(Memories.ServiceRuns(samples, svc)) <==> ShownBySome(samples, svc, e)
  {
    if samples != [] {
      var n := |samples| - 1;
      LoggedExactly(samples[..n], svc, e);
      ReportedExactly(samples[n], svc, e);
      LogOneMore(samples, svc);
      ShownOneMore(samples, svc, e);
    }
  }

  lemma {:induction false} RunsAreDated(samples: seq<Baselines.Sample>, svc: string)
    ensures forall i :: 0 <= i < |samples| ==> Memories.ServiceRuns(samples, svc)[i].now == samples[i].now
  {
    if samples != [] {
      RunsAreDated(samples[..|samples| - 1], svc);
    }
  }

  /** The state file forgets no crash within the configured window of its last run: if no
      clock reading of a committed run was later than `now`, every crash they saw since
      `now - w` is stored, or a later one of the same container. */
  lemma {:induction false} StoresConfiguredWindow(cfg: Config, trace: seq<Sys>, w: int, now: int, svc: string)
    requires Behaviour(cfg, trace)
    requires w == if cfg.crashLoopWindow > 0 then cfg.crashLoopWindow else 600_000_000_000
    requires var s := trace[|trace| - 1];
             && Services.LaterExits(Services.CrashLog(Memories.ServiceRuns(s.samples, svc)))
             && forall i :: 0 <= i < |s.samples| ==> s.samples[i].now <= now
    ensures var s := trace[|trace| - 1];
            var stored := Services.EventsOf(Baselines.Find(s.disk.memory.services, svc));
            forall e :: e in Services.CrashLog(Memories.ServiceRuns(s.samples, svc)) && e.at >= now - w ==>
              exists f :: f in stored && f.containerID == e.containerID && f.at >= e.at
  {
    var s := trace[|trace| - 1];
    DurableIsRecorded(cfg, trace);
    Memories.ServicesFollow(s.samples, s.memories, w, svc);
    RunsAreDated(s.samples, svc);
    var log := Services.CrashLog(Memories.ServiceRuns(s.samples, svc));
    var stored := Services.EventsOf(Baselines.Find(s.disk.memory.services, svc));
    Services.StoreCovers(Memories.ServiceStates(s.memories, svc), Memories.ServiceRuns(s.samples, svc), w, now - w);
    assert Services.Covers(stored, log, now - w);
    forall e | e in log && e.at >= now - w
      ensures exists f :: f in stored && f.containerID == e.containerID && f.at >= e.at
    {
      assert Services.CoveredBy(stored, e);
    }
  }

  // ---- the report ----

  predicate OfThisService(s: Baselines.Sample, svc: string, c: Collect.Container) {
    c in s.containers && c.ServiceKey() == svc
  }

  /** What the check reports on a service, in the fields of the sample and of the state file.
      It is UNKNOWN exactly if no crash is known and a running container of the service could
      not be inspected, and otherwise BAD, at ALERT, exactly from the limit on. With a state
      file of this boot no container is further above the stored count than the measured
      value; without one, only crashes are measured. */
  lemma {:induction false} ReportExactly(m: Baselines.Memory, s: Baselines.Sample, past: Crashloop.Past,
      setup: Crashloop.Setup, report: seq<Observation>, o: Observation)
    requires Crashloop.Reports(m, s, past, setup, report) && s.dockerOK && o in report
    ensures var crashes := Crashloop.Crashes(m, s, setup, o.scope);
            var known := past.hadBaseline && !past.bootChanged && o.scope in m.services
                         && m.services[o.scope].bootID == s.bootID;
            && o.check == "crashloop" && o.measuredValue >= |crashes| as real
            && (o.health == UNKNOWN <==>
                crashes == {} && exists c :: OfThisService(s, o.scope, c) && c.state == "running" && !c.inspected)
            && (o.health == BAD <==> o.health != UNKNOWN && o.measuredValue >= setup.limit as real)
            && (o.health == BAD ==> o.tier == 1)
            && (known ==> forall c :: OfThisService(s, o.scope, c) ==>
                  o.measuredValue >= (c.restartCount - m.services[o.scope].lastRestartCount) as real)
            && (!known ==> o.measuredValue == |crashes| as real)
  {
    Crashloop.ReportOf(m, s, past, setup, report, o);
    var prev, r := Baselines.Find(m.services, o.scope), Baselines.SeenBy(s, o.scope);
    var crashes, restarts := |Crashloop.Crashes(m, s, setup, o.scope)|, Crashloop.Restarts(m, s, past, o.scope);
    Baselines.JudgedExactly(prev, r, past.hadBaseline, past.bootChanged, setup.window, setup.limit, o.health,
                            if restarts > crashes then restarts else crashes);
    forall c ensures c in r.cts <==> OfThisService(s, o.scope, c) {
      Baselines.OfServiceExactly(s.containers, o.scope, c);
    }
  }

  // ---- what the machine sees of a service ----

  /** Observations of other checks. */
  predicate OfOthers(obs: seq<Observation>) {
    forall o :: o in obs ==> ':' !in o.check && o.check != "crashloop"
  }

  /** A run observed what the rules made of the crash-loop check's report on its sample,
      among whatever the other checks said. */
  ghost predicate Checked(run: Run, s: Baselines.Sample, m: Baselines.Memory, past: Crashloop.Past,
      setup: Crashloop.Setup, rules: seq<Exceptions.Rule>, svc: string)
  {
    exists before: seq<Observation>, report: seq<Observation>, after: seq<Observation> ::
      && Crashloop.Reports(m, s, past, setup, report) && OfOthers(before) && OfOthers(after)
      && (forall o :: o in report && o.scope == svc ==> Exceptions.LastOverride(rules, o).None?)
      && run.obs == Exceptions.Transformed(rules, before + report + after)
  }

  ghost predicate AllChecked(s: Sys, pasts: seq<Crashloop.Past>, setup: Crashloop.Setup,
      rules: seq<Exceptions.Rule>, svc: string)
  {
    && |s.committed| == |s.samples| == |s.memories| == |pasts|
    && forall i :: 0 <= i < |s.committed| ==>
         Checked(s.committed[i], s.samples[i], Memories.LastMemory(s.memories[..i]), pasts[i], setup, rules, svc)
  }

  lemma {:induction false} CheckOfService(svc: string)
    ensures CheckOf(Crashloop.KeyOf(svc)) == "crashloop"
  {
    var check := "crashloop";
    FirstColonEndsCheck(check, svc);
    assert Crashloop.KeyOf(svc) == check + ":" + svc;
    assert (check + ":" + svc)[..|check|] == check;
  }

  lemma {:induction false} OtherKey(o: Observation, svc: string)
    requires ':' !in o.check && o.check != "crashloop"
    ensures o.Key() != Crashloop.KeyOf(svc)
  {
    KeySplits(o);
    CheckOfService(svc);
  }

  lemma {:induction false} OthersHaveOtherKeys(obs: seq<Observation>, svc: string)
    requires OfOthers(obs)
    ensures OfKey(obs, Crashloop.KeyOf(svc)) == []
  {
    if obs != [] {
      var n := |obs| - 1;
      OthersHaveOtherKeys(obs[..n], svc);
      assert obs[n] in obs;
      OtherKey(obs[n], svc);
    }
  }

  lemma {:induction false} OfKeyConcat(a: seq<Observation>, b: seq<Observation>, key: string)
    ensures OfKey(a + b, key) == OfKey(a, key) + OfKey(b, key)
  {
    if b == [] {
      assert a + b == a;
    } else {
      var n := |b| - 1;
      OfKeyConcat(a, b[..n], key);
      assert (a + b)[..|a + b| - 1] == a + b[..n];
    }
  }

  lemma {:induction false} WarningsAreOfOthers(rules: seq<Exceptions.Rule>)
    ensures OfOthers(Exceptions.ExpiryWarnings(rules))
  {
    if rules != [] {
      WarningsAreOfOthers(rules[..|rules| - 1]);
    }
  }

  function Sieved(rules: seq<Exceptions.Rule>, raw: seq<Observation>): (out: seq<Observation>)
    ensures |out| == |raw|
  {
    seq(|raw|, i requires 0 <= i < |raw| => Exceptions.Sieve(rules, raw[i]))
  }

  /** The rules neither move an observation to another key nor reorder. */
  lemma {:induction false} SievedOfKey(rules: seq<Exceptions.Rule>, raw: seq<Observation>, key: string)
    ensures OfKey(Sieved(rules, raw), key) == Sieved(rules, OfKey(raw, key))
  {
    if raw != [] {
      var n := |raw| - 1;
      SievedOfKey(rules, raw[..n], key);
      Exceptions.MuteOnlyRelabels(rules, raw[n]);
      assert Sieved(rules, raw)[..n] == Sieved(rules, raw[..n]);
    }
  }

  lemma {:induction false} OwnOfTransformed(rules: seq<Exceptions.Rule>, before: seq<Observation>,
      report: seq<Observation>, after: seq<Observation>, svc: string)
    requires OfOthers(before) && OfOthers(after)
    ensures var key := Crashloop.KeyOf(svc);
            OfKey(Exceptions.Transformed(rules, before + report + after), key) == Sieved(rules, OfKey(report, key))
  {
    var key, raw := Crashloop.KeyOf(svc), before + report + after;
    assert Exceptions.Transformed(rules, raw) == Sieved(rules, raw) + Exceptions.ExpiryWarnings(rules);
    OfKeyConcat(Sieved(rules, raw), Exceptions.ExpiryWarnings(rules), key);
    WarningsAreOfOthers(rules);
    OthersHaveOtherKeys(Exceptions.ExpiryWarnings(rules), svc);
    SievedOfKey(rules, raw, key);
    OfKeyConcat(before + report, after, key);
    OfKeyConcat(before, report, key);
    OthersHaveOtherKeys(before, svc);
    OthersHaveOtherKeys(after, svc);
  }

  lemma {:induction false} OwnScope(m: Baselines.Memory, s: Baselines.Sample, past: Crashloop.Past,
      setup: Crashloop.Setup, report: seq<Observation>, svc: string, o: Observation)
    requires Crashloop.Reports(m, s, past, setup, report) && o in report && o.Key() == Crashloop.KeyOf(svc)
    ensures o.scope == svc
  {
    Crashloop.ReportsAreScoped(m, s, past, setup, report);
    Crashloop.SameKey(o, svc);
  }

  lemma {:induction false} CheckedIsSeen(run: Run, s: Baselines.Sample, m: Baselines.Memory, past: Crashloop.Past,
      setup: Crashloop.Setup, rules: seq<Exceptions.Rule>, svc: string)
    requires Checked(run, s, m, past, setup, rules, svc)
    ensures QuietClears.SeesIn(s, m, past, setup, rules, svc, OfKey(run.obs, Crashloop.KeyOf(svc)))
  {
    var before: seq<Observation>, report: seq<Observation>, after: seq<Observation> :|
      && Crashloop.Reports(m, s, past, setup, report) && OfOthers(before) && OfOthers(after)
      && (forall o :: o in report && o.scope == svc ==> Exceptions.LastOverride(rules, o).None?)
      && run.obs == Exceptions.Transformed(rules, before + report + after);
    OwnOfTransformed(rules, before, report, after, svc);
    var own := OfKey(report, Crashloop.KeyOf(svc));
    OfKeyHasKey(report, Crashloop.KeyOf(svc));
    forall o | o in own
      ensures Exceptions.LastOverride(rules, o).None?
    {
      OwnScope(m, s, past, setup, report, svc, o);
    }
    QuietClears.SystemSees(s, m, past, setup, rules, svc, report, OfKey(run.obs, Crashloop.KeyOf(svc)));
  }

  /** The committed runs of a behaviour are runs as the laws of `QuietClears` ask for. */
  lemma {:induction false} SystemIsSeen(cfg: Config, trace: seq<Sys>, pasts: seq<Crashloop.Past>,
      setup: Crashloop.Setup, rules: seq<Exceptions.Rule>, svc: string)
    requires Behaviour(cfg, trace) && AllChecked(trace[|trace| - 1], pasts, setup, rules, svc)
    requires setup.window == if cfg.crashLoopWindow > 0 then cfg.crashLoopWindow else 600_000_000_000
    ensures var s := trace[|trace| - 1];
            && Memories.Recorded(s.samples, s.memories, setup.window)
            && QuietClears.Sees(s.samples, s.memories, pasts, setup, rules, svc,
                                ProjectAll(s.committed, Crashloop.KeyOf(svc)))
  {
    var s, key := trace[|trace| - 1], Crashloop.KeyOf(svc);
    InvHolds(cfg, trace);
    var ticks := ProjectAll(s.committed, key);
    forall i | 0 <= i < |ticks|
      ensures ticks[i].env.runID == i + 1
      ensures QuietClears.SeesIn(s.samples[i], Memories.LastMemory(s.memories[..i]), pasts[i], setup, rules, svc,
                                 ticks[i].obs)
    {
      CheckedIsSeen(s.committed[i], s.samples[i], Memories.LastMemory(s.memories[..i]), pasts[i], setup, rules, svc);
    }
  }

  // ---- the alert ----

  /** Enough breaches in a row for any tier: the check's override, or else the greatest of
      the three tiers' numbers. */
  predicate EnoughRuns(cfg: Config, n: nat) {
    n >= if "crashloop" in cfg.overrides && cfg.overrides["crashloop"].flapSamples.Some?
         then cfg.overrides["crashloop"].flapSamples.value
         else if cfg.flapWarn >= cfg.flapAlert && cfg.flapWarn >= cfg.flapPage then cfg.flapWarn
         else if cfg.flapAlert >= cfg.flapPage then cfg.flapAlert else cfg.flapPage
  }

  lemma {:induction false} EnoughForAnyTier(cfg: Config, n: nat, t: Tier)
    requires EnoughRuns(cfg, n)
    ensures n >= FlapSamplesFor(cfg, "crashloop", t)
  {
  }

  ghost predicate LastLoud(s: Sys, setup: Crashloop.Setup, svc: string, n: nat) {
    && 1 <= n <= |s.committed| == |s.samples|
    && forall k :: |s.committed| - n <= k < |s.committed| ==>
         && QuietClears.Loud(s.samples, setup, svc, k)
         && forall o :: o in s.committed[k].obs ==> !o.suppressed
  }

  lemma {:induction false} LoudTicksUnmuted(s: Sys, setup: Crashloop.Setup, svc: string, n: nat, k: nat, j: nat)
    requires LastLoud(s, setup, svc, n) && |s.committed| - n <= k < |s.committed|
    requires j < |Project(s.committed[k], Crashloop.KeyOf(svc)).obs|
    ensures !Project(s.committed[k], Crashloop.KeyOf(svc)).obs[j].suppressed
  {
    OfKeyHasKey(s.committed[k].obs, Crashloop.KeyOf(svc));
  }

  lemma {:induction false} LoudTicksFire(cfg: Config, s: Sys, pasts: seq<Crashloop.Past>, setup: Crashloop.Setup,
      rules: seq<Exceptions.Rule>, svc: string, n: nat)
    requires cfg.Valid() && setup.limit >= 1 && EnoughRuns(cfg, n) && LastLoud(s, setup, svc, n)
    requires Memories.Recorded(s.samples, s.memories, setup.window)
    requires QuietClears.WellTimed(s.samples, setup.window, svc)
    requires QuietClears.Sees(s.samples, s.memories, pasts, setup, rules, svc,
                              ProjectAll(s.committed, Crashloop.KeyOf(svc)))
    ensures Firing(ExecTicks(cfg, Crashloop.KeyOf(svc), ProjectAll(s.committed, Crashloop.KeyOf(svc))).state)
  {
    var ticks := ProjectAll(s.committed, Crashloop.KeyOf(svc));
    forall k, j | |ticks| - n <= k < |ticks| && 0 <= j < |ticks[k].obs|
      ensures !ticks[k].obs[j].suppressed
    {
      LoudTicksUnmuted(s, setup, svc, n, k, j);
    }
    var last := ticks[|ticks| - 1];
    if last.obs != [] {
      EnoughForAnyTier(cfg, n, last.obs[0].tier);
    }
    QuietClears.LoudServiceFires(cfg, s.samples, s.memories, pasts, setup, rules, svc, ticks, n);
  }

  lemma {:induction false} DurableIsProjected(cfg: Config, trace: seq<Sys>, key: string)
    requires Behaviour(cfg, trace)
    ensures var s := trace[|trace| - 1];
            Lookup(s.disk.alerts, key) == ExecTicks(cfg, key, ProjectAll(s.committed, key)).state
  {
    InvHolds(cfg, trace);
    RunsProject(cfg, trace[|trace| - 1].committed, key);
  }

  /** Whatever crashed and however often saves failed: a service is firing in the state file
      after as many committed runs in a row as the configuration asks for, each of which
      read Docker and found the limit or more in the window as configured, of all crashes
      any committed run ever saw. */
  lemma {:induction false} LoudServiceFiresInSystem(cfg: Config, trace: seq<Sys>, pasts: seq<Crashloop.Past>,
      setup: Crashloop.Setup, rules: seq<Exceptions.Rule>, svc: string, n: nat)
    requires cfg.Valid() && Behaviour(cfg, trace) && AllChecked(trace[|trace| - 1], pasts, setup, rules, svc)
    requires setup.window == if cfg.crashLoopWindow > 0 then cfg.crashLoopWindow else 600_000_000_000
    requires setup.limit >= 1 && EnoughRuns(cfg, n) && LastLoud(trace[|trace| - 1], setup, svc, n)
    requires QuietClears.WellTimed(trace[|trace| - 1].samples, setup.window, svc)
    ensures Firing(Lookup(trace[|trace| - 1].disk.alerts, Crashloop.KeyOf(svc)))
  {
    SystemIsSeen(cfg, trace, pasts, setup, rules, svc);
    LoudTicksFire(cfg, trace[|trace| - 1], pasts, setup, rules, svc, n);
    DurableIsProjected(cfg, trace, Crashloop.KeyOf(svc));
  }

  /** The history ends with an all-clear spread over runs of which each read Docker and
      found too few crashes and too few restarts. */
  ghost predicate QuietRuns(cfg: Config, s: Sys, pasts: seq<Crashloop.Past>, setup: Crashloop.Setup, svc: string,
      h: seq<Event>)
  {
    var ids := RunsMeasuring(h);
    && |s.samples| == |s.memories| == |pasts| && SpreadOverRuns(cfg, h)
    && forall i :: 0 <= i < |ids| && |ids| - cfg.resolveSamples <= i ==>
         && 1 <= ids[i] <= |s.samples|
         && QuietClears.AllQuiet(s.samples, s.memories, pasts, setup, svc, ids[i] - 1)
  }

  lemma {:induction false} ClearedTicksWereQuiet(cfg: Config, s: Sys, pasts: seq<Crashloop.Past>,
      setup: Crashloop.Setup, rules: seq<Exceptions.Rule>, svc: string, ticks: seq<Tick>, m: nat)
    requires cfg.Valid()
    requires Memories.Recorded(s.samples, s.memories, setup.window)
    requires QuietClears.WellTimed(s.samples, setup.window, svc)
    requires QuietClears.Sees(s.samples, s.memories, pasts, setup, rules, svc, ticks)
    requires m < |History(ticks)| && ClearedAt(cfg, Crashloop.KeyOf(svc), History(ticks), m)
    ensures QuietRuns(cfg, s, pasts, setup, svc, History(ticks)[..m + 1])
  {
    QuietClears.ClearedServiceWasQuiet(cfg, s.samples, s.memories, pasts, setup, rules, svc, ticks, m);
  }

  /** And an event clears it only at the end of `resolve_samples` different committed runs
      that read Docker and found fewer than that. */
  lemma {:induction false} ClearedServiceWasQuietInSystem(cfg: Config, trace: seq<Sys>, pasts: seq<Crashloop.Past>,
      setup: Crashloop.Setup, rules: seq<Exceptions.Rule>, svc: string, m: nat)
    requires cfg.Valid() && Behaviour(cfg, trace) && AllChecked(trace[|trace| - 1], pasts, setup, rules, svc)
    requires setup.window == if cfg.crashLoopWindow > 0 then cfg.crashLoopWindow else 600_000_000_000
    requires QuietClears.WellTimed(trace[|trace| - 1].samples, setup.window, svc)
    requires var h := Fires.HistoryOf(trace[|trace| - 1].committed, Crashloop.KeyOf(svc));
             m < |h| && ClearedAt(cfg, Crashloop.KeyOf(svc), h, m)
    ensures var h := Fires.HistoryOf(trace[|trace| - 1].committed, Crashloop.KeyOf(svc));
            QuietRuns(cfg, trace[|trace| - 1], pasts, setup, svc, h[..m + 1])
  {
    var s := trace[|trace| - 1];
    SystemIsSeen(cfg, trace, pasts, setup, rules, svc);
    ClearedTicksWereQuiet(cfg, s, pasts, setup, rules, svc, ProjectAll(s.committed, Crashloop.KeyOf(svc)), m);
  }
}

/** What the alert of a crash-looping service is worth: it fires over enough runs that find
    too many crashes in the whole log of the service, and is cleared only over enough runs
    that read Docker and find too few. */
module QuietClears {
  import opened Types
  import opened KeyMachine
  import opened AllClear
  import opened Episodes
  import opened Replicas
  import opened Histories
  import opened Flapping
  import Services
  import Baselines
  import Memories
  import Crashloop
  import Exceptions
  import AlertMap

  type Sample = Baselines.Sample
  type Memory = Baselines.Memory

  ghost predicate SeesIn(s: Sample, m: Memory, past: Crashloop.Past, setup: Crashloop.Setup,
      rules: seq<Exceptions.Rule>, svc: string, seen: seq<Observation>)
  {
    if s.dockerOK && Crashloop.Present(s, svc) then
      exists o :: Crashloop.Judges(m, s, past, setup, svc, o) && Exceptions.LastOverride(rules, o).None?
                  && seen == [Exceptions.Sieve(rules, o)]
    else |seen| <= 1 && (seen != [] ==> !seen[0].Measured())
  }

  /** What the machine sees of a service: in every run, the check's report on it, after
      rules that do not override its threshold. */
  ghost predicate Sees(samples: seq<Sample>, memories: seq<Memory>, pasts: seq<Crashloop.Past>,
      setup: Crashloop.Setup, rules: seq<Exceptions.Rule>, svc: string, ticks: seq<Tick>)
  {
    && |ticks| == |samples| == |memories| == |pasts|
    && forall i :: 0 <= i < |ticks| ==>
         && ticks[i].env.runID == i + 1
         && SeesIn(samples[i], Memories.LastMemory(memories[..i]), pasts[i], setup, rules, svc, ticks[i].obs)
  }

  /** Run k read Docker, and of the containers that any run up to it saw crash, fewer than
      the limit did in the window. */
  predicate Quiet(samples: seq<Sample>, setup: Crashloop.Setup, svc: string, k: nat)
    requires k < |samples|
  {
    var log := Services.CrashLog(Memories.ServiceRuns(samples[..k + 1], svc));
    samples[k].dockerOK && |Services.InWindow(log, Services.Unix(samples[k].now - setup.window))| < setup.limit
  }

  /** Run k read Docker, and too many of them did. */
  predicate Loud(samples: seq<Sample>, setup: Crashloop.Setup, svc: string, k: nat)
    requires k < |samples|
  {
    var log := Services.CrashLog(Memories.ServiceRuns(samples[..k + 1], svc));
    && samples[k].dockerOK && Crashloop.Present(samples[k], svc)
    && |Services.InWindow(log, Services.Unix(samples[k].now - setup.window))| >= setup.limit
  }

  /** And since the stored baseline fewer restarts than the limit. */
  predicate FewRestarts(samples: seq<Sample>, memories: seq<Memory>, pasts: seq<Crashloop.Past>,
      setup: Crashloop.Setup, svc: string, k: nat)
    requires k < |samples| == |memories| == |pasts|
  {
    Crashloop.Restarts(Memories.LastMemory(memories[..k]), samples[k], pasts[k], svc) < setup.limit
  }

  /** No run before the last pruned into the second in which its window begins, and exits
      are reported in order. */
  ghost predicate LastWellTimed(runs: seq<Services.ServiceRun>, window: int) {
    Services.CutoffsClear(runs, window) && Services.ReportedInOrder(Services.CrashLog(runs))
  }

  ghost predicate TimedAt(samples: seq<Sample>, window: int, svc: string, k: nat)
    requires k < |samples|
  {
    LastWellTimed(Memories.ServiceRuns(samples[..k + 1], svc), window)
  }

  ghost predicate WellTimed(samples: seq<Sample>, window: int, svc: string) {
    forall k :: 0 <= k < |samples| ==> TimedAt(samples, window, svc, k)
  }

  lemma {:induction false} RecordedPrefix(samples: seq<Sample>, memories: seq<Memory>, window: int, n: nat)
    requires Memories.Recorded(samples, memories, window) && n <= |samples|
    ensures Memories.Recorded(samples[..n], memories[..n], window)
  {
    if n == |samples| {
      assert samples[..n] == samples && memories[..n] == memories;
    } else {
      var k := |samples| - 1;
      RecordedPrefix(samples[..k], memories[..k], window, n);
      assert samples[..k][..n] == samples[..n] && memories[..k][..n] == memories[..n];
    }
  }

  lemma {:induction false} ServiceRunsSnoc(samples: seq<Sample>, s: Sample, svc: string)
    ensures Memories.ServiceRuns(samples + [s], svc) == Memories.ServiceRuns(samples, svc) + [Baselines.SeenBy(s, svc)]
  {
    assert (samples + [s])[..|samples|] == samples;
  }

  lemma {:induction false} LastCrashesAreLogged(
      before: seq<Sample>, memories: seq<Memory>, setup: Crashloop.Setup, svc: string, cur: Sample)
    requires Memories.Recorded(before, memories, setup.window) && cur.dockerOK
    requires LastWellTimed(Memories.ServiceRuns(before + [cur], svc), setup.window)
    ensures Crashloop.Crashes(Memories.LastMemory(memories), cur, setup, svc)
            == Services.InWindow(Services.CrashLog(Memories.ServiceRuns(before + [cur], svc)),
                                 Services.Unix(cur.now - setup.window))
  {
    ServiceRunsSnoc(before, cur, svc);
    Memories.MemoryCountsWholeLog(before, memories, setup.window, svc, cur);
  }

  /** What the check counts is in the whole crash log. */
  lemma {:induction false} CrashesAreLogged(
      samples: seq<Sample>, memories: seq<Memory>, setup: Crashloop.Setup, svc: string, k: nat)
    requires Memories.Recorded(samples, memories, setup.window) && WellTimed(samples, setup.window, svc)
    requires k < |samples| && samples[k].dockerOK
    ensures Crashloop.Crashes(Memories.LastMemory(memories[..k]), samples[k], setup, svc)
            == Services.InWindow(Services.CrashLog(Memories.ServiceRuns(samples[..k + 1], svc)),
                                 Services.Unix(samples[k].now - setup.window))
  {
    var before, cur, upto := samples[..k], samples[k], samples[..k + 1];
    assert upto == before + [cur];
    assert Memories.Recorded(before, memories[..k], setup.window) by {
      RecordedPrefix(samples, memories, setup.window, k);
    }
    assert LastWellTimed(Memories.ServiceRuns(upto, svc), setup.window) by {
      assert TimedAt(samples, setup.window, svc, k);
    }
    LastCrashesAreLogged(before, memories[..k], setup, svc, cur);
  }

  lemma {:induction false} OKMeansFew(
      m: Memory, s: Sample, past: Crashloop.Past, setup: Crashloop.Setup, svc: string, o: Observation)
    requires Crashloop.Says(m, s, past, setup, svc, o) && o.health == OK
    ensures |Crashloop.Crashes(m, s, setup, svc)| < setup.limit && Crashloop.Restarts(m, s, past, svc) < setup.limit
  {
  }

  /** An OK of the check says that the whole crash log is quiet. */
  lemma {:induction false} OKIsQuiet(samples: seq<Sample>, memories: seq<Memory>, past: Crashloop.Past,
      setup: Crashloop.Setup, svc: string, k: nat, o: Observation)
    requires Memories.Recorded(samples, memories, setup.window) && WellTimed(samples, setup.window, svc)
    requires k < |samples| && samples[k].dockerOK && o.health == OK
    requires Crashloop.Says(Memories.LastMemory(memories[..k]), samples[k], past, setup, svc, o)
    ensures Quiet(samples, setup, svc, k)
  {
    OKMeansFew(Memories.LastMemory(memories[..k]), samples[k], past, setup, svc, o);
    CrashesAreLogged(samples, memories, setup, svc, k);
  }

  /** The i-th measurement of a history was taken in the run it names, and found what that
      run observed. */
  ghost predicate Aligned(ticks: seq<Tick>, ids: seq<int>, v: seq<Health>) {
    && |ids| == |v|
    && forall i :: 0 <= i < |ids| ==>
         && 1 <= ids[i] <= |ticks| && |ticks[ids[i] - 1].obs| == 1
         && ticks[ids[i] - 1].obs[0].Measured() && v[i] == ticks[ids[i] - 1].obs[0].health
  }

  ghost predicate Numbered(ticks: seq<Tick>) {
    forall i :: 0 <= i < |ticks| ==> ticks[i].env.runID == i + 1 && |ticks[i].obs| <= 1
  }

  lemma {:induction false} VerdictsConcat(a: seq<Event>, b: seq<Event>)
    ensures Verdicts(a + b) == Verdicts(a) + Verdicts(b)
  {
    if b == [] {
      assert a + b == a;
    } else {
      var n := |b| - 1;
      VerdictsConcat(a, b[..n]);
      assert (a + b)[..|a + b| - 1] == a + b[..n];
    }
  }

  lemma {:induction false} VerdictsOfRun(h: seq<Event>, t: Tick)
    requires |t.obs| <= 1
    ensures Verdicts(h + EventsOf(t))
            == Verdicts(h) + if t.obs != [] && t.obs[0].Measured() then [t.obs[0].health] else []
  {
    VerdictsConcat(h, EventsOf(t));
    var down := if t.down then [SourceDown(t.env)] else [];
    var seen, end := Sightings(t.obs, t.env), [RunEnd(t.env.runID)];
    VerdictsConcat(seen + down, end);
    VerdictsConcat(seen, down);
    assert end[..0] == [] && (t.down ==> down[..0] == []) && (t.obs != [] ==> seen[..0] == []);
  }

  lemma {:induction false} AlignedSnoc(ticks: seq<Tick>, t: Tick, ids: seq<int>, v: seq<Health>)
    requires Aligned(ticks, ids, v)
    ensures Aligned(ticks + [t], ids, v)
    ensures |t.obs| == 1 && t.obs[0].Measured() ==>
              Aligned(ticks + [t], ids + [|ticks| + 1], v + [t.obs[0].health])
  {
  }

  lemma {:induction false} MeasurementsAligned(ticks: seq<Tick>)
    requires Numbered(ticks)
    ensures Aligned(ticks, RunsMeasuring(History(ticks)), Verdicts(History(ticks)))
  {
    if ticks != [] {
      var n := |ticks| - 1;
      var p, t := ticks[..n], ticks[n];
      var ids, v := RunsMeasuring(History(p)), Verdicts(History(p));
      MeasurementsAligned(p);
      AlignedSnoc(p, t, ids, v);
      assert ticks == p + [t];
      assert Verdicts(History(ticks)) == v + if t.obs != [] && t.obs[0].Measured() then [t.obs[0].health] else [] by {
        VerdictsOfRun(History(p), t);
      }
      assert RunsMeasuring(History(ticks)) == ids + if t.obs != [] && t.obs[0].Measured() then [n + 1] else [] by {
        RunsMeasuringConcat(History(p), EventsOf(t));
        TickMeasures(t);
      }
      assert ids + [] == ids && v + [] == v;
    }
  }

  /** Up to some event, the measurements are the first of all. */
  lemma {:induction false} MeasurementsPrefix(h: seq<Event>, m: nat)
    requires m <= |h|
    ensures var ids, v := RunsMeasuring(h[..m]), Verdicts(h[..m]);
            && |ids| <= |RunsMeasuring(h)| && ids == RunsMeasuring(h)[..|ids|]
            && |v| <= |Verdicts(h)| && v == Verdicts(h)[..|v|]
  {
    assert h == h[..m] + h[m..];
    RunsMeasuringConcat(h[..m], h[m..]);
    VerdictsConcat(h[..m], h[m..]);
  }

  /** The runs that completed an all-clear: as many as the configuration asks for, all
      different, each of which observed the key once and found it good. */
  lemma {:induction false} ClearingRuns(cfg: Config, key: string, ticks: seq<Tick>, m: nat)
    requires cfg.Valid() && Numbered(ticks) && m < |History(ticks)| && ClearedAt(cfg, key, History(ticks), m)
    ensures var ids := RunsMeasuring(History(ticks)[..m + 1]);
            && SpreadOverRuns(cfg, History(ticks)[..m + 1])
            && forall i :: 0 <= i < |ids| && |ids| - cfg.resolveSamples <= i ==>
                 && 1 <= ids[i] <= |ticks| && |ticks[ids[i] - 1].obs| == 1
                 && ticks[ids[i] - 1].obs[0].health == OK
  {
    var h := History(ticks);
    SinglesSpread(cfg, key, ticks, m);
    ClearedIsAllClear(cfg, key, h, m);
    MeasurementsAligned(ticks);
    MeasurementsPrefix(h, m + 1);
    OneRunEach(h[..m + 1]);
    var ids, v := RunsMeasuring(h[..m + 1]), Verdicts(h[..m + 1]);
    forall i | 0 <= i < |ids| && |ids| - cfg.resolveSamples <= i
      ensures 1 <= ids[i] <= |ticks| && |ticks[ids[i] - 1].obs| == 1 && ticks[ids[i] - 1].obs[0].health == OK
    {
      assert ids[i] == RunsMeasuring(h)[i] && v[i] == Verdicts(h)[i] && v[i] == OK;
    }
  }

  /** What the machine saw in a run, when it saw a measurement. */
  lemma {:induction false} SeenIsJudged(samples: seq<Sample>, memories: seq<Memory>, pasts: seq<Crashloop.Past>,
      setup: Crashloop.Setup, rules: seq<Exceptions.Rule>, svc: string, ticks: seq<Tick>, k: nat)
    returns (o: Observation)
    requires Sees(samples, memories, pasts, setup, rules, svc, ticks) && k < |ticks|
    requires Crashloop.Present(samples[k], svc) && samples[k].dockerOK
    ensures Crashloop.Judges(Memories.LastMemory(memories[..k]), samples[k], pasts[k], setup, svc, o)
    ensures ticks[k].obs == [Exceptions.Sieve(rules, o)]
    ensures ticks[k].obs[0].health == o.health && ticks[k].obs[0].check == "crashloop"
  {
    var m := Memories.LastMemory(memories[..k]);
    assert SeesIn(samples[k], m, pasts[k], setup, rules, svc, ticks[k].obs);
    o :| Crashloop.Judges(m, samples[k], pasts[k], setup, svc, o) && Exceptions.LastOverride(rules, o).None?
         && ticks[k].obs == [Exceptions.Sieve(rules, o)];
    Exceptions.LastOverrideWins(rules, o);
  }

  lemma {:induction false} SeenMeansPresent(samples: seq<Sample>, memories: seq<Memory>, pasts: seq<Crashloop.Past>,
      setup: Crashloop.Setup, rules: seq<Exceptions.Rule>, svc: string, ticks: seq<Tick>, k: nat)
    requires Sees(samples, memories, pasts, setup, rules, svc, ticks)
    requires k < |ticks| && |ticks[k].obs| == 1 && ticks[k].obs[0].Measured()
    ensures samples[k].dockerOK && Crashloop.Present(samples[k], svc)
  {
    assert SeesIn(samples[k], Memories.LastMemory(memories[..k]), pasts[k], setup, rules, svc, ticks[k].obs);
  }

  /** Quiet in both respects. */
  predicate AllQuiet(samples: seq<Sample>, memories: seq<Memory>, pasts: seq<Crashloop.Past>,
      setup: Crashloop.Setup, svc: string, k: nat)
    requires k < |samples| == |memories| == |pasts|
  {
    Quiet(samples, setup, svc, k) && FewRestarts(samples, memories, pasts, setup, svc, k)
  }

  lemma {:induction false} SeenOKIsQuiet(samples: seq<Sample>, memories: seq<Memory>, pasts: seq<Crashloop.Past>,
      setup: Crashloop.Setup, rules: seq<Exceptions.Rule>, svc: string, ticks: seq<Tick>, k: nat)
    requires Memories.Recorded(samples, memories, setup.window) && WellTimed(samples, setup.window, svc)
    requires Sees(samples, memories, pasts, setup, rules, svc, ticks)
    requires k < |ticks| && |ticks[k].obs| == 1 && ticks[k].obs[0].health == OK
    ensures AllQuiet(samples, memories, pasts, setup, svc, k)
  {
    SeenMeansPresent(samples, memories, pasts, setup, rules, svc, ticks, k);
    var o := SeenIsJudged(samples, memories, pasts, setup, rules, svc, ticks, k);
    OKIsQuiet(samples, memories, pasts[k], setup, svc, k, o);
    OKMeansFew(Memories.LastMemory(memories[..k]), samples[k], pasts[k], setup, svc, o);
  }

  lemma {:induction false} SeenIsNumbered(samples: seq<Sample>, memories: seq<Memory>, pasts: seq<Crashloop.Past>,
      setup: Crashloop.Setup, rules: seq<Exceptions.Rule>, svc: string, ticks: seq<Tick>)
    requires Sees(samples, memories, pasts, setup, rules, svc, ticks)
    ensures Numbered(ticks)
  {
    forall i | 0 <= i < |ticks|
      ensures ticks[i].env.runID == i + 1 && |ticks[i].obs| <= 1
    {
      assert SeesIn(samples[i], Memories.LastMemory(memories[..i]), pasts[i], setup, rules, svc, ticks[i].obs);
    }
  }

  lemma {:induction false} ClearedByQuietRuns(cfg: Config, samples: seq<Sample>, memories: seq<Memory>,
      pasts: seq<Crashloop.Past>, setup: Crashloop.Setup, svc: string, ticks: seq<Tick>, m: nat)
    requires cfg.Valid() && Numbered(ticks) && |samples| == |memories| == |pasts| == |ticks|
    requires forall k :: 0 <= k < |ticks| && |ticks[k].obs| == 1 && ticks[k].obs[0].health == OK ==>
               AllQuiet(samples, memories, pasts, setup, svc, k)
    requires m < |History(ticks)| && ClearedAt(cfg, Crashloop.KeyOf(svc), History(ticks), m)
    ensures var ids := RunsMeasuring(History(ticks)[..m + 1]);
            && SpreadOverRuns(cfg, History(ticks)[..m + 1])
            && forall i :: 0 <= i < |ids| && |ids| - cfg.resolveSamples <= i ==>
                 1 <= ids[i] <= |samples| && AllQuiet(samples, memories, pasts, setup, svc, ids[i] - 1)
  {
    ClearingRuns(cfg, Crashloop.KeyOf(svc), ticks, m);
  }

  /** Without an override, a firing service is cleared only over `resolve_samples`
      different runs, each of which read Docker and found, of all the containers of the
      service that any run so far saw crash, fewer than the limit in its window, and fewer
      restarts than the limit since the baseline. */
  lemma {:induction false} ClearedServiceWasQuiet(cfg: Config, samples: seq<Sample>, memories: seq<Memory>,
      pasts: seq<Crashloop.Past>, setup: Crashloop.Setup, rules: seq<Exceptions.Rule>, svc: string,
      ticks: seq<Tick>, m: nat)
    requires cfg.Valid()
    requires Memories.Recorded(samples, memories, setup.window) && WellTimed(samples, setup.window, svc)
    requires Sees(samples, memories, pasts, setup, rules, svc, ticks)
    requires m < |History(ticks)| && ClearedAt(cfg, Crashloop.KeyOf(svc), History(ticks), m)
    ensures var ids := RunsMeasuring(History(ticks)[..m + 1]);
            && SpreadOverRuns(cfg, History(ticks)[..m + 1])
            && forall i :: 0 <= i < |ids| && |ids| - cfg.resolveSamples <= i ==>
                 1 <= ids[i] <= |samples| && AllQuiet(samples, memories, pasts, setup, svc, ids[i] - 1)
  {
    SeenIsNumbered(samples, memories, pasts, setup, rules, svc, ticks);
    forall k | 0 <= k < |ticks| && |ticks[k].obs| == 1 && ticks[k].obs[0].health == OK
      ensures AllQuiet(samples, memories, pasts, setup, svc, k)
    {
      SeenOKIsQuiet(samples, memories, pasts, setup, rules, svc, ticks, k);
    }
    ClearedByQuietRuns(cfg, samples, memories, pasts, setup, svc, ticks, m);
  }

  // ---- firing ----

  lemma {:induction false} ManyMeansBad(
      m: Memory, s: Sample, past: Crashloop.Past, setup: Crashloop.Setup, svc: string, o: Observation)
    requires Crashloop.Says(m, s, past, setup, svc, o) && setup.limit >= 1
    requires |Crashloop.Crashes(m, s, setup, svc)| >= setup.limit
    ensures o.health == BAD
  {
  }

  /** A run that brings one unmuted breach of the key. */
  predicate Breach(t: Tick) {
    |t.obs| == 1 && t.obs[0].health == BAD && !t.obs[0].suppressed
  }

  lemma {:induction false} LoudIsBreach(samples: seq<Sample>, memories: seq<Memory>, pasts: seq<Crashloop.Past>,
      setup: Crashloop.Setup, rules: seq<Exceptions.Rule>, svc: string, ticks: seq<Tick>, k: nat)
    requires Memories.Recorded(samples, memories, setup.window) && WellTimed(samples, setup.window, svc)
    requires Sees(samples, memories, pasts, setup, rules, svc, ticks) && setup.limit >= 1
    requires k < |ticks| && Loud(samples, setup, svc, k)
    requires forall j :: 0 <= j < |ticks[k].obs| ==> !ticks[k].obs[j].suppressed
    ensures Breach(ticks[k]) && ticks[k].obs[0].check == "crashloop"
  {
    var o := SeenIsJudged(samples, memories, pasts, setup, rules, svc, ticks, k);
    CrashesAreLogged(samples, memories, setup, svc, k);
    ManyMeansBad(Memories.LastMemory(memories[..k]), samples[k], pasts[k], setup, svc, o);
  }

  lemma {:induction false} StreakOfBreach(h: seq<Event>, t: Tick)
    requires Breach(t)
    ensures Streak(h + [Seen(t.obs[0], t.env)]) == Streak(h) + 1
    ensures Streak(h + EventsOf(t)) == Streak(h) + 1
  {
    var a, end := Seen(t.obs[0], t.env), RunEnd(t.env.runID);
    StreakSnoc(h, a);
    SeenInRunSnoc(h, a);
    if t.down {
      var b := SourceDown(t.env);
      assert EventsOf(t) == [a, b, end];
      assert h + [a, b, end] == h + [a] + [b] + [end];
      StreakSnoc(h + [a], b);
      SeenInRunSnoc(h + [a], b);
      StreakSnoc(h + [a] + [b], end);
    } else {
      assert EventsOf(t) == [a, end];
      assert h + [a, end] == h + [a] + [end];
      StreakSnoc(h + [a], end);
    }
  }

  lemma {:induction false} StreakOfBreaches(ticks: seq<Tick>, n: nat)
    requires n <= |ticks| && forall k :: |ticks| - n <= k < |ticks| ==> Breach(ticks[k])
    ensures Streak(History(ticks)) >= n
  {
    if n > 0 {
      var p, t := ticks[..|ticks| - 1], ticks[|ticks| - 1];
      StreakOfBreaches(p, n - 1);
      StreakOfBreach(History(p), t);
    }
  }

  lemma {:induction false} BreachKeepsFiring(cfg: Config, s: Option<KeyRecord>, o: Observation, env: Env)
    requires Firing(s) && o.health == BAD
    ensures Firing(Step(cfg, s, o, env).state)
  {
  }

  lemma {:induction false} CompletingBreach(cfg: Config, key: string, p: seq<Tick>, t: Tick)
    requires cfg.Valid() && Rising(p) && (p == [] || p[|p| - 1].env.runID < t.env.runID) && Breach(t)
    requires Streak(History(p)) + 1 >= FlapSamplesFor(cfg, t.obs[0].check, t.obs[0].tier)
    requires !Firing(ExecTicks(cfg, key, p).state)
    ensures Firing(Step(cfg, ExecTicks(cfg, key, p).state, t.obs[0], t.env).state)
  {
    var a := Seen(t.obs[0], t.env);
    StreakOfBreach(History(p), t);
    assert InRuns(History(p) + [a]) by {
      HistoryInRuns(p);
      InRunsSnoc(History(p), a);
    }
    FiresExactlyAtThreshold(cfg, key, History(p), a);
    AfterSnoc(cfg, key, History(p), a);
  }

  lemma {:induction false} LastBreachFires(cfg: Config, key: string, p: seq<Tick>, t: Tick)
    requires cfg.Valid() && Rising(p) && (p == [] || p[|p| - 1].env.runID < t.env.runID) && Breach(t)
    requires Streak(History(p)) + 1 >= FlapSamplesFor(cfg, t.obs[0].check, t.obs[0].tier)
    ensures Firing(ExecTicks(cfg, key, p + [t]).state)
  {
    var s := ExecTicks(cfg, key, p).state;
    ExecTicksSnoc(cfg, key, p, t);
    ExecTickUnfolds(cfg, key, s, t);
    if Firing(s) {
      BreachKeepsFiring(cfg, s, t.obs[0], t.env);
    } else {
      CompletingBreach(cfg, key, p, t);
    }
  }

  /** Enough breaching runs in a row fire the key, whatever came before. */
  lemma {:induction false} BreachesFire(cfg: Config, key: string, ticks: seq<Tick>, n: nat)
    requires cfg.Valid() && Rising(ticks) && 1 <= n <= |ticks|
    requires forall k :: |ticks| - n <= k < |ticks| ==> Breach(ticks[k])
    requires var t := ticks[|ticks| - 1]; Breach(t) && n >= FlapSamplesFor(cfg, t.obs[0].check, t.obs[0].tier)
    ensures Firing(ExecTicks(cfg, key, ticks).state)
  {
    var p, t := ticks[..|ticks| - 1], ticks[|ticks| - 1];
    assert ticks == p + [t];
    StreakOfBreaches(p, n - 1);
    LastBreachFires(cfg, key, p, t);
  }

  /** Without an override or a mute, a service is firing after as many runs in a row as the
      threshold asks for, each of which read Docker and found, of all the containers of the
      service that any run so far saw crash, the limit or more in its window. */
  lemma {:induction false} LoudServiceFires(cfg: Config, samples: seq<Sample>, memories: seq<Memory>,
      pasts: seq<Crashloop.Past>, setup: Crashloop.Setup, rules: seq<Exceptions.Rule>, svc: string,
      ticks: seq<Tick>, n: nat)
    requires cfg.Valid() && setup.limit >= 1 && 1 <= n <= |ticks|
    requires Memories.Recorded(samples, memories, setup.window) && WellTimed(samples, setup.window, svc)
    requires Sees(samples, memories, pasts, setup, rules, svc, ticks)
    requires forall k :: |ticks| - n <= k < |ticks| ==>
               && Loud(samples, setup, svc, k)
               && forall j :: 0 <= j < |ticks[k].obs| ==> !ticks[k].obs[j].suppressed
    requires var t := ticks[|ticks| - 1]; t.obs != [] ==> n >= FlapSamplesFor(cfg, "crashloop", t.obs[0].tier)
    ensures Firing(ExecTicks(cfg, Crashloop.KeyOf(svc), ticks).state)
  {
    forall k | |ticks| - n <= k < |ticks|
      ensures Breach(ticks[k]) && ticks[k].obs[0].check == "crashloop"
    {
      LoudIsBreach(samples, memories, pasts, setup, rules, svc, ticks, k);
    }
    SeenIsNumbered(samples, memories, pasts, setup, rules, svc, ticks);
    BreachesFire(cfg, Crashloop.KeyOf(svc), ticks, n);
  }

  // ---- the whole system ----

  /** The history of a service, as the whole system has it: the check evaluates the run's
      sample against the memory before it, and the rules are applied. */
  lemma {:induction false} SystemSees(s: Sample, m: Memory, past: Crashloop.Past, setup: Crashloop.Setup,
      rules: seq<Exceptions.Rule>, svc: string, obs: seq<Observation>, seen: seq<Observation>)
    requires Crashloop.Reports(m, s, past, setup, obs)
    requires var own := AlertMap.OfKey(obs, Crashloop.KeyOf(svc));
             && (forall o :: o in own ==> Exceptions.LastOverride(rules, o).None?)
             && |seen| == |own| && forall i :: 0 <= i < |own| ==> seen[i] == Exceptions.Sieve(rules, own[i])
    ensures SeesIn(s, m, past, setup, rules, svc, seen)
  {
    var own := AlertMap.OfKey(obs, Crashloop.KeyOf(svc));
    if s.dockerOK {
      Crashloop.OneReportEach(m, s, past, setup, obs, svc);
      if Crashloop.Present(s, svc) {
        assert seen == [Exceptions.Sieve(rules, own[0])];
      }
    } else {
      Crashloop.ReportsAreScoped(m, s, past, setup, obs);
      Crashloop.OwnReport(obs, svc);
      if own != [] {
        Exceptions.LastOverrideWins(rules, own[0]);
      }
    }
  }
}

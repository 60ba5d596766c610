/** The per-key laws, read back over the whole system and its runs. */
module SystemLaws {
  import opened Types
  import opened KeyMachine
  import opened AlertMap
  import opened Protocol
  import opened Fires
  import opened Stutter
  import opened Histories
  import opened Flapping
  import opened Degraded
  import opened Grammar

  ghost predicate UnmutedRuns(runs: seq<Run>) {
    forall i, j :: 0 <= i < |runs| && 0 <= j < |runs[i].obs| ==> !runs[i].obs[j].suppressed
  }

  ghost predicate UnmutedTicks(ticks: seq<Tick>) {
    forall i, j :: 0 <= i < |ticks| && 0 <= j < |ticks[i].obs| ==> !ticks[i].obs[j].suppressed
  }

  lemma {:induction false} MutesProject(runs: seq<Run>, key: string)
    requires UnmutedRuns(runs)
    ensures UnmutedTicks(ProjectAll(runs, key))
  {
    var ticks := ProjectAll(runs, key);
    forall i, j | 0 <= i < |ticks| && 0 <= j < |ticks[i].obs|
      ensures !ticks[i].obs[j].suppressed
    {
      OfKeyHasKey(runs[i].obs, key);
      assert ticks[i].obs[j] in runs[i].obs;
    }
  }

  /** After any committed runs, a key of the system is firing exactly when its own
      observations say so by the reference rule: some BAD streak reached its threshold and
      the measurements since do not end with enough OKs. Muted or not, and however often
      a run observes the key. */
  lemma {:induction false} SystemStatusIsHistory(cfg: Config, runs: seq<Run>, key: string)
    requires cfg.Valid() && ValidRuns(cfg, runs) && Numbered(runs)
    ensures Firing(Lookup(ExecRuns(cfg, runs).alerts, key)) == FiringByHistory(cfg, HistoryOf(runs, key))
  {
    RunsProject(cfg, runs, key);
    HistoryInRuns(ProjectAll(runs, key));
    StatusIsHistory(cfg, key, HistoryOf(runs, key));
  }

  lemma {:induction false} UnmutedHistory(ticks: seq<Tick>)
    requires UnmutedTicks(ticks)
    ensures Unmuted(History(ticks))
  {
    if ticks != [] {
      var n := |ticks| - 1;
      UnmutedHistory(ticks[..n]);
      var t := ticks[n];
      forall i | 0 <= i < |EventsOf(t)| && EventsOf(t)[i].Seen?
        ensures !EventsOf(t)[i].o.suppressed
      {
        assert EventsOf(t)[i] == Seen(t.obs[i], t.env);
        assert !ticks[n].obs[i].suppressed;
      }
    }
  }

  /** What the whole system says about one key is a sentence of the episode grammar, open
      exactly while the key fires, however often its runs observe it. */
  lemma {:induction false} SystemSpeaksGrammatically(cfg: Config, runs: seq<Run>, key: string)
    requires AllTiersRouted(cfg) && ValidRuns(cfg, runs) && UnmutedRuns(runs)
    ensures var r := ExecRuns(cfg, runs);
            Parse(DecisionsOf(r.sent, key)) == if Firing(Lookup(r.alerts, key)) then OPEN else CLOSED
  {
    RunsProject(cfg, runs, key);
    MutesProject(runs, key);
    UnmutedHistory(ProjectAll(runs, key));
    DecisionsFollowGrammar(cfg, key, History(ProjectAll(runs, key)));
  }

  /** In a run where a check's source is down, every firing key of the check without an
      observation of its own is told once that monitoring is degraded, unless it was
      told already, and keeps all its counters. */
  lemma {:induction false} OutageReachesEveryFiringKey(cfg: Config, m: Alerts, run: Run, key: string)
    requires ValidRun(cfg, m, run) && CheckOf(key) in DownChecks(run.obs) && OfKey(run.obs, key) == []
    requires key in m && m[key].status == FIRING && m[key].lastSeenRun < run.env.runID
    ensures var r := ExecRun(cfg, m, run);
            && SameButBlind(Lookup(r.alerts, key), Some(m[key])) && Told(Lookup(r.alerts, key))
            && DecisionsOf(r.sent, key)
               == if m[key].degradedNotified then [] else [SweepDecision(key, m[key], run.env)]
  {
    RunProjects(cfg, m, run, key);
    OutageTellsOnce(cfg, key, Some(m[key]), Project(run, key));
  }
}

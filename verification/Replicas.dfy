/** Keys that a run observes more than once, as it does for a service whose containers
    each have no memory limit: the machine counts observations where the design speaks of
    runs. */
module Replicas {
  import opened Types
  import opened KeyMachine
  import opened Histories
  import opened AllClear
  import opened Episodes
  import opened Scripts

  /** The run of each measurement of a history. */
  function RunsMeasuring(h: seq<Event>): seq<int> {
    if h == [] then []
    else
      var n := |h| - 1;
      RunsMeasuring(h[..n]) + if h[n].Measured() then [IdOf(h[n])] else []
  }

  lemma {:induction false} RunsMeasuringConcat(a: seq<Event>, b: seq<Event>)
    ensures RunsMeasuring(a + b) == RunsMeasuring(a) + RunsMeasuring(b)
  {
    if b == [] {
      assert a + b == a;
    } else {
      var n := |b| - 1;
      RunsMeasuringConcat(a, b[..n]);
      assert (a + b)[..|a + b| - 1] == a + b[..n];
    }
  }

  lemma {:induction false} OneRunEach(h: seq<Event>)
    ensures |RunsMeasuring(h)| == |Verdicts(h)|
  {
    if h != [] {
      OneRunEach(h[..|h| - 1]);
    }
  }

  /** The last `resolveSamples` measurements are of as many runs. */
  predicate SpreadOverRuns(cfg: Config, h: seq<Event>) {
    var ids := RunsMeasuring(h);
    && cfg.resolveSamples <= |ids|
    && forall i, j :: 0 <= i < j < |ids| && |ids| - cfg.resolveSamples <= i ==> ids[i] != ids[j]
  }

  /** What the design promises: whenever the key is cleared, `resolveSamples` runs in a row
      measured it and found it good. */
  ghost predicate ClearsOverRuns(cfg: Config, key: string, ticks: seq<Tick>) {
    var h := History(ticks);
    forall m :: 0 <= m < |h| && ClearedAt(cfg, key, h, m) ==> SpreadOverRuns(cfg, h[..m + 1])
  }

  predicate Ascending(ids: seq<int>) {
    forall i, j :: 0 <= i < j < |ids| ==> ids[i] < ids[j]
  }

  lemma {:induction false} TickMeasures(t: Tick)
    requires |t.obs| <= 1
    ensures RunsMeasuring(EventsOf(t))
            == if t.obs != [] && t.obs[0].Measured() then [t.env.runID] else []
  {
    var down := if t.down then [SourceDown(t.env)] else [];
    var seen, end := Sightings(t.obs, t.env), [RunEnd(t.env.runID)];
    RunsMeasuringConcat(seen + down, end);
    RunsMeasuringConcat(seen, down);
    assert end[..0] == [] && (t.down ==> down[..0] == []) && (t.obs != [] ==> seen[..0] == []);
  }

  lemma {:induction false} AscendingSnoc(ids: seq<int>, id: int)
    requires Ascending(ids) && forall i :: 0 <= i < |ids| ==> ids[i] < id
    ensures Ascending(ids + [id])
  {
  }

  /** With one observation a run at most, no two measurements are of one run. */
  lemma {:induction false} SinglesAscend(ticks: seq<Tick>)
    requires Rising(ticks) && AtMost(ticks, 1)
    ensures var ids := RunsMeasuring(History(ticks));
            && Ascending(ids)
            && forall i :: 0 <= i < |ids| ==> ticks != [] && ids[i] <= ticks[|ticks| - 1].env.runID
  {
    if ticks != [] {
      var n := |ticks| - 1;
      var p, t := ticks[..n], ticks[n];
      SinglesAscend(p);
      RunsMeasuringConcat(History(p), EventsOf(t));
      TickMeasures(t);
      var ids := RunsMeasuring(History(p));
      assert forall i :: 0 <= i < |ids| ==> ids[i] < t.env.runID;
      if t.obs != [] && t.obs[0].Measured() {
        AscendingSnoc(ids, t.env.runID);
      }
    }
  }

  lemma {:induction false} ClearMeasures(cfg: Config, key: string, h: seq<Event>, m: nat)
    requires cfg.Valid() && m < |h| && ClearedAt(cfg, key, h, m)
    ensures cfg.resolveSamples <= |RunsMeasuring(h[..m + 1])|
  {
    ClearedIsAllClear(cfg, key, h, m);
    OneRunEach(h[..m + 1]);
  }

  lemma {:induction false} SinglesSpread(cfg: Config, key: string, ticks: seq<Tick>, m: nat)
    requires cfg.Valid() && Rising(ticks) && (AtMost(ticks, 1) || cfg.resolveSamples == 1)
    requires m < |History(ticks)| && ClearedAt(cfg, key, History(ticks), m)
    ensures SpreadOverRuns(cfg, History(ticks)[..m + 1])
  {
    var h := History(ticks);
    ClearMeasures(cfg, key, h, m);
    if cfg.resolveSamples > 1 {
      SinglesAscend(ticks);
      RunsMeasuringConcat(h[..m + 1], h[m + 1..]);
      assert h == h[..m + 1] + h[m + 1..];
      var all, ids := RunsMeasuring(h), RunsMeasuring(h[..m + 1]);
      assert forall i :: 0 <= i < |ids| ==> ids[i] == all[i];
    }
  }

  // ---- two in one run ----

  /** A container without a memory limit, of a service with several. */
  const UNBOUNDED := Observation("unbounded_mem", "web", BAD, WARN, "Unbounded container", "", "", "", 1.0,
                                 "", "web", "", map[], false, "")

  const LIMITED := UNBOUNDED.(health := OK)

  const WEB: string := "unbounded_mem:web"

  lemma {:induction false} WebIsReal()
    ensures OfKey(UNBOUNDED, WEB) && OfKey(LIMITED, WEB)
  {
  }

  lemma {:induction false} TwiceInHistory(runs: seq<seq<Observation>>, o: Observation, a: Event)
    requires a == Seen(o, RunEnv(|runs| + 1))
    ensures History(Script(runs + [[o, o]])) == History(Script(runs)) + [a] + [a] + [RunEnd(|runs| + 1)]
  {
    var p, t := History(Script(runs)), Tick([o, o], false, RunEnv(|runs| + 1));
    ScriptSnoc(runs, [o, o]);
    HistorySnoc(Script(runs), t);
    assert EventsOf(t) == [a, a, RunEnd(|runs| + 1)];
    assert p + [a, a, RunEnd(|runs| + 1)] == p + [a] + [a] + [RunEnd(|runs| + 1)];
  }

  lemma {:induction false} TwiceRecovers(cfg: Config, key: string, p: seq<Event>, a: Event)
    requires cfg.resolveSamples >= 2 && Recovering(StateAfter(cfg, key, p), cfg.resolveSamples - 2)
    requires a.Seen? && a.o.health == OK
    ensures Firing(StateAfter(cfg, key, p + [a])) && !Firing(StateAfter(cfg, key, p + [a] + [a]))
  {
    ExecSnoc(cfg, key, None, p, a);
    RecoverOne(cfg, StateAfter(cfg, key, p), a.o, a.env, cfg.resolveSamples - 2);
    ExecSnoc(cfg, key, None, p + [a], a);
    RecoverOne(cfg, StateAfter(cfg, key, p + [a]), a.o, a.env, cfg.resolveSamples - 1);
  }

  lemma {:induction false} MeasuringSnoc(h: seq<Event>, e: Event)
    requires e.Measured()
    ensures RunsMeasuring(h + [e]) == RunsMeasuring(h) + [IdOf(e)]
  {
    assert (h + [e])[..|h|] == h;
  }

  lemma {:induction false} TwiceNotSpread(cfg: Config, p: seq<Event>, a: Event)
    requires cfg.resolveSamples >= 2 && a.Measured()
    ensures !SpreadOverRuns(cfg, p + [a] + [a])
  {
    MeasuringSnoc(p, a);
    MeasuringSnoc(p + [a], a);
    var n, ids := |RunsMeasuring(p)|, RunsMeasuring(p + [a] + [a]);
    assert ids[n] == ids[n + 1];
  }

  /** A run with two good observations, the second of which completes the count. */
  lemma {:induction false} TwoInOneRun(cfg: Config, key: string, runs: seq<seq<Observation>>, o: Observation)
    requires cfg.resolveSamples >= 2 && o.health == OK
    requires Recovering(Ends(cfg, key, runs), cfg.resolveSamples - 2)
    ensures var h := History(Script(runs + [[o, o]]));
            |h| >= 2 && ClearedAt(cfg, key, h, |h| - 2) && !SpreadOverRuns(cfg, h[..|h| - 1])
  {
    var p, a := History(Script(runs)), Seen(o, RunEnv(|runs| + 1));
    var h := History(Script(runs + [[o, o]]));
    TwiceInHistory(runs, o, a);
    assert h[..|h| - 2] == p + [a] && h[..|h| - 1] == p + [a] + [a];
    TwiceRecovers(cfg, key, p, a);
    TwiceNotSpread(cfg, p, a);
  }

  lemma {:induction false} WebRecovers(cfg: Config) returns (runs: seq<seq<Observation>>)
    requires cfg.Valid() && cfg.resolveSamples >= 2
    ensures RunsOfKey(runs, WEB, 2) && Recovering(Ends(cfg, WEB, runs), cfg.resolveSamples - 2)
  {
    var n := FireRecovers(cfg, WEB, UNBOUNDED);
    var fired := Times(UNBOUNDED, n);
    OKsCount(cfg, WEB, fired, LIMITED, cfg.resolveSamples - 2);
    runs := fired + Times(LIMITED, cfg.resolveSamples - 2);
    WebIsReal();
    TimesOfKey([], UNBOUNDED, n, WEB, 2);
    TimesOfKey(fired, LIMITED, cfg.resolveSamples - 2, WEB, 2);
  }

  /** The service fires, and then resolves a run too early. */
  lemma {:induction false} ReplicasClearEarly(cfg: Config) returns (ticks: seq<Tick>, m: nat)
    requires cfg.Valid() && cfg.resolveSamples >= 2
    ensures Possible(ticks, WEB, 2) && m < |History(ticks)| && ClearedAt(cfg, WEB, History(ticks), m)
    ensures !SpreadOverRuns(cfg, History(ticks)[..m + 1])
  {
    var runs := WebRecovers(cfg);
    TwoInOneRun(cfg, WEB, runs, LIMITED);
    ticks := Script(runs + [[LIMITED, LIMITED]]);
    m := |History(ticks)| - 2;
    WebIsReal();
    ScriptIsPossible(runs + [[LIMITED, LIMITED]], WEB, 2);
  }

  lemma {:induction false} MorePossible(ticks: seq<Tick>, key: string, few: nat, many: nat)
    requires Possible(ticks, key, few) && few <= many
    ensures Possible(ticks, key, many)
  {
  }

  /** Resolving takes `resolve_samples` consecutive OK runs, over every key and every
      history in which a run observes the key at most `limit` times, if and only if that
      is at most once, or one sample resolves anyway. */
  lemma {:induction false} ClearsOverRunsExactly(cfg: Config, limit: nat)
    requires cfg.Valid()
    ensures (forall key, ticks :: Possible(ticks, key, limit) ==> ClearsOverRuns(cfg, key, ticks))
            <==> limit <= 1 || cfg.resolveSamples == 1
  {
    if limit <= 1 || cfg.resolveSamples == 1 {
      forall key, ticks | Possible(ticks, key, limit)
        ensures ClearsOverRuns(cfg, key, ticks)
      {
        var h := History(ticks);
        forall m | 0 <= m < |h| && ClearedAt(cfg, key, h, m)
          ensures SpreadOverRuns(cfg, h[..m + 1])
        {
          SinglesSpread(cfg, key, ticks, m);
        }
      }
    } else {
      var ticks, m := ReplicasClearEarly(cfg);
      MorePossible(ticks, WEB, 2, limit);
      assert !ClearsOverRuns(cfg, WEB, ticks);
    }
  }
}
